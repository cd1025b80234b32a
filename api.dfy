/**
 * backend/main.py: the FastAPI endpoints. The module-level `last_repo_path`
 * lives in a Backend object; the endpoints read its value, passed in as
 * `lastRepo`. File-system and repository access are inputs: `resolve` is
 * `os.path.abspath`, `isDir` is `os.path.isdir`, `checkout` opens the
 * repository at a path, `analyse` is the complexity walk of a path for an
 * extension set, and `maxFiles` is MAX_ANALYZABLE_FILES.
 */
module Api {
  import opened Base
  import opened Text
  import opened PyList
  import opened FileUtils
  import opened Models
  import opened GitAnalyzer
  import opened ChurnMetrics

  /** What an endpoint sends back. */
  datatype Reply<T> =
    | Rows(items: seq<T>)                // 200 with the list as JSON
    | NoContent                          // 204
    | Failed(code: int, detail: string)  // JSONResponse {"status": "error", "detail": ...}
    | Unprocessable                      // 422: a query parameter is out of its declared range
    | InternalServerError                // 500: an exception nothing catches

  const NO_REPO := "No repo analyzed yet."

  /** `if not last_repo_path`: None and the empty string are falsy. */
  predicate HasRepo(lastRepo: Option<string>)
  {
    lastRepo.Some? && lastRepo.value != ""
  }

  // ---------------------------------------------------------------------------
  // The extension filter of the query string

  /** `{f".{e.strip().lower()}" for e in ext.split(",")}` when `ext` is truthy, `set()` otherwise. */
  function ParseExtensions(ext: Option<string>): set<string>
  {
    match ext
    case None => {}
    case Some(s) => if s == "" then {} else set e | e in Split(s, ',') :: "." + Lower(Strip(e))
  }

  /**
   * An absent or empty parameter gives no filter; a non-empty one always gives
   * some filter; a single token gives one entry, a dot followed by the token
   * without surrounding whitespace, in lower case.
   */
  lemma ParseExtensionsMeans(ext: Option<string>)
    ensures ext.None? || ext == Some("") ==> ParseExtensions(ext) == {}
    ensures ext.Some? && ext.value != "" ==> ParseExtensions(ext) != {}
    ensures ext.Some? && ext.value != "" && ',' !in ext.value ==>
      ParseExtensions(ext) == {"." + Lower(Strip(ext.value))}
  {
    if ext.Some? && ext.value != "" {
      var parts := Split(ext.value, ',');
      assert "." + Lower(Strip(parts[0])) in ParseExtensions(ext);
      if ',' !in ext.value {
        SingleToken(ext.value);
      }
    }
  }

  lemma SingleToken(s: string)
    requires s != "" && ',' !in s
    ensures ParseExtensions(Some(s)) == {"." + Lower(Strip(s))}
  {
    SplitWithoutSeparator(s, ',');
    assert Split(s, ',') == [s];
  }

  /** A comma between two non-empty lists of tokens: the filter is the union of the two filters. */
  lemma ParseExtensionsConcat(a: string, b: string)
    requires a != "" && b != ""
    ensures ParseExtensions(Some(a + "," + b)) == ParseExtensions(Some(a)) + ParseExtensions(Some(b))
  {
    SplitConcat(a, b, ',');
    assert a + "," + b == a + [','] + b;
  }

  /**
   * Tokens that differ only in letter case or surrounding whitespace, such as
   * "py" and " PY", give one entry.
   */
  lemma ParseExtensionsVariants(a: string, b: string)
    requires a != "" && b != "" && ',' !in a && ',' !in b
    requires Lower(Strip(a)) == Lower(Strip(b))
    ensures ParseExtensions(Some(a + "," + b)) == {"." + Lower(Strip(a))}
  {
    ParseExtensionsConcat(a, b);
    ParseExtensionsMeans(Some(a));
    ParseExtensionsMeans(Some(b));
  }

  /** A dot in front of lowered text. */
  lemma DotLower(t: string)
    ensures var x := "." + Lower(t); |x| >= 1 && x[0] == '.' && NoUpper(x)
  {
    LowerIsLower(t);
    var x := "." + Lower(t);
    forall i | 0 <= i < |x| ensures !IsUpper(x[i]) {
      if i > 0 {
        assert x[i] == Lower(t)[i - 1];
      }
    }
  }

  /** Every entry is a dot and lower-case text. */
  lemma ParsedExtensionsAreLower(ext: Option<string>)
    ensures forall x :: x in ParseExtensions(ext) ==> |x| >= 1 && x[0] == '.' && NoUpper(x)
  {
    forall x | x in ParseExtensions(ext) ensures |x| >= 1 && x[0] == '.' && NoUpper(x) {
      var e :| e in Split(ext.value, ',') && x == "." + Lower(Strip(e));
      DotLower(Strip(e));
    }
  }

  // ---------------------------------------------------------------------------
  // Status-code decisions

  /** The try/except around the churn and complexity calls. */
  function Respond<T>(r: Result<seq<T>, Exception>): Reply<T>
  {
    match r
    case Ok(items) => if items == [] then NoContent else Rows(items)
    case Err(ValueError(message)) => Failed(413, message)
    case Err(OtherError(message)) => Failed(500, message)
  }

  /**
   * An empty list is 204, never a body; a ValueError is 413 with its message,
   * any other exception 500 with its message.
   */
  lemma RespondMeans<T>(r: Result<seq<T>, Exception>)
    ensures Respond(r) == NoContent <==> r == Ok([])
    ensures Respond(r).Rows? <==> r.Ok? && r.value != []
    ensures Respond(r).Rows? ==> Respond(r).items == r.value
    ensures Respond(r).Failed? && Respond(r).code == 413 <==> r.Err? && r.error.ValueError?
    ensures Respond(r).Failed? && Respond(r).code == 500 <==> r.Err? && r.error.OtherError?
    ensures Respond(r).Failed? ==> Respond(r).detail == r.error.message
  {
  }

  /** `page: int = Query(1, ge=1)` and `limit: int = Query(..., ge=1, le=1000)`. */
  predicate ValidPaging(page: int, limit: int)
  {
    page >= 1 && 1 <= limit <= 1000
  }

  // ---------------------------------------------------------------------------
  // GET /churn-metrics

  function GetChurn(lastRepo: Option<string>, checkout: string -> Checkout, maxFiles: int,
                    page: int, limit: int, ext: Option<string>): Reply<ChurnFile>
  {
    if !ValidPaging(page, limit) then Unprocessable
    else if !HasRepo(lastRepo) then Failed(400, NO_REPO)
    else Respond(GitStats(checkout(lastRepo.value), page, limit, ParseExtensions(ext), maxFiles))
  }

  /**
   * Out-of-range paging is refused first; then, with no analysed repository,
   * 400 "No repo analyzed yet." whatever else is asked; otherwise the churn of
   * the requested page, which never holds more than `limit` entries, and 413
   * exactly when there are more distinct files than the maximum.
   */
  lemma ChurnEndpoint(lastRepo: Option<string>, checkout: string -> Checkout, maxFiles: int,
                      page: int, limit: int, ext: Option<string>)
    ensures var r := GetChurn(lastRepo, checkout, maxFiles, page, limit, ext);
      (r == Unprocessable <==> !ValidPaging(page, limit))
      && (ValidPaging(page, limit) && !HasRepo(lastRepo) ==> r == Failed(400, NO_REPO))
      && (r.Rows? ==> 1 <= |r.items| <= limit)
      && (ValidPaging(page, limit) && HasRepo(lastRepo) && checkout(lastRepo.value).Repository? ==>
            (r.Failed? && r.code == 413 <==>
              |KeysOf(Touches(checkout(lastRepo.value), ParseExtensions(ext), checkout(lastRepo.value).commits))| > maxFiles))
  {
    if ValidPaging(page, limit) && HasRepo(lastRepo) {
      var co := checkout(lastRepo.value);
      var g := GitStats(co, page, limit, ParseExtensions(ext), maxFiles);
      RespondMeans(g);
      if co.Repository? {
        GitStatsTooMany(co, page, limit, ParseExtensions(ext), maxFiles);
        if g.Ok? {
          GitStatsRows(co, page, limit, ParseExtensions(ext), maxFiles);
        }
      }
    }
  }

  // ---------------------------------------------------------------------------
  // GET /complexity-metrics

  /**
   * `get_complexity(path, page, limit, allowed_exts)`: the page of the files the
   * walk analysed. The walk itself (lizard over `rglob`) is an input; its
   * ValueError is raised and caught inside the loop, so it never escapes.
   */
  function GetComplexity(walk: Result<seq<ComplexityFile>, Exception>, page: int, limit: int): Result<seq<ComplexityFile>, Exception>
  {
    match walk
    case Ok(files) => Ok(Page(files, page, limit))
    case Err(e) => Err(e)
  }

  function GetComplexityMetrics(lastRepo: Option<string>, analyse: (string, set<string>) -> Result<seq<ComplexityFile>, Exception>,
                                page: int, limit: int, ext: Option<string>): Reply<ComplexityFile>
  {
    if !ValidPaging(page, limit) then Unprocessable
    else if !HasRepo(lastRepo) then Failed(400, NO_REPO)
    else Respond(GetComplexity(analyse(lastRepo.value, ParseExtensions(ext)), page, limit))
  }

  /**
   * The same decisions as for churn: 422, then 400 without a repository,
   * then 204 for an empty page, the page (at most `limit` files, in walk
   * order) otherwise, and errors by exception kind.
   */
  lemma ComplexityEndpoint(lastRepo: Option<string>, analyse: (string, set<string>) -> Result<seq<ComplexityFile>, Exception>,
                           page: int, limit: int, ext: Option<string>)
    ensures var r := GetComplexityMetrics(lastRepo, analyse, page, limit, ext);
      (r == Unprocessable <==> !ValidPaging(page, limit))
      && (ValidPaging(page, limit) && !HasRepo(lastRepo) ==> r == Failed(400, NO_REPO))
      && (r.Rows? ==> (
            var walk := analyse(lastRepo.value, ParseExtensions(ext));
            walk.Ok? && r.items == Page(walk.value, page, limit) && 1 <= |r.items| <= limit))
  {
    var r := GetComplexityMetrics(lastRepo, analyse, page, limit, ext);
    if r.Rows? {
      var walk := analyse(lastRepo.value, ParseExtensions(ext));
      RespondMeans(GetComplexity(walk, page, limit));
      assert walk.Ok?;
      PageBounds(walk.value, page, limit);
    }
  }

  // ---------------------------------------------------------------------------
  // GET /hotspots

  /** `[f for f in data if Path(f['file']).suffix.lower() in allowed_exts]` when `ext` is truthy. */
  function EndpointFilter(churn: seq<ChurnFile>, complexity: seq<ComplexityFile>, ext: Option<string>)
    : (seq<ChurnFile>, seq<ComplexityFile>)
  {
    if ext.Some? && ext.value != "" then
      (FilterChurn(churn, ParseExtensions(ext)), FilterComplexity(complexity, ParseExtensions(ext)))
    else (churn, complexity)
  }

  /** The `get_hotspots(...)` call: its own page and limit stay at 1 and 10. */
  function HotspotCandidates(normpath: string -> string, churn: seq<ChurnFile>, complexity: seq<ComplexityFile>,
                             churnThreshold: int, complexityThreshold: real, topN: int, ext: Option<string>): seq<HotspotFile>
  {
    var (c, x) := EndpointFilter(churn, complexity, ext);
    Hotspots(normpath, c, x, churnThreshold, complexityThreshold, topN, 1, 10, {})
  }

  /**
   * The endpoint once both analyses have returned: 204 when there are no
   * candidates, otherwise re-sort, cut to `topN`, and slice out the page; 204
   * again for an empty page.
   */
  function HotspotsReply(candidates: seq<HotspotFile>, topN: int, page: int, limit: int): Reply<HotspotFile>
  {
    if candidates == [] then NoContent
    else
      var paginated := Page(Slice(SortByRisk(candidates), 0, topN), page, limit);
      if paginated == [] then NoContent else Rows(paginated)
  }

  function GetHotspotsEndpoint(lastRepo: Option<string>, checkout: string -> Checkout, maxFiles: int,
                               analyse: (string, set<string>) -> Result<seq<ComplexityFile>, Exception>,
                               normpath: string -> string,
                               churnThreshold: int, complexityThreshold: real, topN: int,
                               page: int, limit: int, ext: Option<string>): Reply<HotspotFile>
  {
    if !ValidPaging(page, limit) then Unprocessable
    else if !HasRepo(lastRepo) then Failed(400, NO_REPO)
    else
      var churn := GitStats(checkout(lastRepo.value), 1, 100, {}, maxFiles);
      var complexity := GetComplexity(analyse(lastRepo.value, {}), 1, 100);
      if churn.Err? || complexity.Err? then InternalServerError
      else
        HotspotsReply(HotspotCandidates(normpath, churn.value, complexity.value, churnThreshold, complexityThreshold, topN, ext),
                      topN, page, limit)
  }

  /** get_hotspots, left at page 1 of 10, hands over at most 10 candidates, already sorted. */
  lemma CandidatesBounded(normpath: string -> string, churn: seq<ChurnFile>, complexity: seq<ComplexityFile>,
                          churnThreshold: int, complexityThreshold: real, topN: int, ext: Option<string>)
    ensures var candidates := HotspotCandidates(normpath, churn, complexity, churnThreshold, complexityThreshold, topN, ext);
      |candidates| <= 10 && SortedByRisk(candidates) && SortByRisk(candidates) == candidates
  {
    var (c, x) := EndpointFilter(churn, complexity, ext);
    HotspotsOrderedAndBounded(normpath, c, x, churnThreshold, complexityThreshold, topN, 1, 10, {});
    SortByRiskOfSorted(HotspotCandidates(normpath, churn, complexity, churnThreshold, complexityThreshold, topN, ext));
  }

  /**
   * For sorted candidates the endpoint's own sort changes nothing: the answer
   * is the page of the first `topN` candidates, ordered by non-increasing
   * risk score, with at most `limit` entries and no more than there are
   * candidates.
   */
  lemma HotspotsReplyOfSorted(candidates: seq<HotspotFile>, topN: int, page: int, limit: int)
    requires page >= 1 && limit >= 1 && SortedByRisk(candidates)
    ensures var r := HotspotsReply(candidates, topN, page, limit);
      r.Rows? ==> (r.items == Page(Slice(candidates, 0, topN), page, limit)
                   && (forall h :: h in r.items ==> h in candidates)
                   && SortedByRisk(r.items) && 1 <= |r.items| <= limit && |r.items| <= |candidates|)
  {
    SortByRiskOfSorted(candidates);
    var top := Slice(candidates, 0, topN);
    SliceSorted(candidates, 0, topN);
    SliceSorted(top, PageStart(page, limit), PageStart(page, limit) + limit);
    PageBounds(top, page, limit);
    var r := HotspotsReply(candidates, topN, page, limit);
    if r.Rows? {
      SliceSubMultiset(candidates, 0, topN);
      SliceSubMultiset(top, PageStart(page, limit), PageStart(page, limit) + limit);
      forall h | h in r.items ensures h in candidates {
        assert h in multiset(r.items);
      }
    }
  }

  /**
   * Because at most 10 candidates exist, any page past the first with a page
   * size of 10 or more is empty, and so is answered with 204.
   */
  lemma LaterHotspotPagesEmpty(normpath: string -> string, churn: seq<ChurnFile>, complexity: seq<ComplexityFile>,
                               churnThreshold: int, complexityThreshold: real, topN: int, page: int, limit: int,
                               ext: Option<string>)
    requires page >= 2 && limit >= 10
    ensures HotspotsReply(HotspotCandidates(normpath, churn, complexity, churnThreshold, complexityThreshold, topN, ext),
                          topN, page, limit) == NoContent
  {
    var candidates := HotspotCandidates(normpath, churn, complexity, churnThreshold, complexityThreshold, topN, ext);
    CandidatesBounded(normpath, churn, complexity, churnThreshold, complexityThreshold, topN, ext);
    var top := Slice(candidates, 0, topN);
    var p: nat := page - 1;
    assert PageStart(page, limit) == p * limit;
    assert p * limit >= limit by {
      assert p >= 1;
    }
    PagePastEnd(top, page, limit);
  }

  /**
   * The endpoint: 422 and 400 as for the other metrics; any exception while
   * gathering churn or complexity is unhandled (500); the hotspots see only
   * the first 100 churn entries and the first 100 complexity entries; the
   * answer is a page of the first `topN` candidates that `get_hotspots` joined
   * from those entries, so every answer row is one of those candidates.
   */
  lemma HotspotsEndpoint(lastRepo: Option<string>, checkout: string -> Checkout, maxFiles: int,
                         analyse: (string, set<string>) -> Result<seq<ComplexityFile>, Exception>,
                         normpath: string -> string,
                         churnThreshold: int, complexityThreshold: real, topN: int,
                         page: int, limit: int, ext: Option<string>)
    ensures var r := GetHotspotsEndpoint(lastRepo, checkout, maxFiles, analyse, normpath, churnThreshold,
                                         complexityThreshold, topN, page, limit, ext);
      (r == Unprocessable <==> !ValidPaging(page, limit))
      && (ValidPaging(page, limit) && !HasRepo(lastRepo) ==> r == Failed(400, NO_REPO))
      && (ValidPaging(page, limit) && HasRepo(lastRepo) ==>
            (r == InternalServerError <==>
              GitStats(checkout(lastRepo.value), 1, 100, {}, maxFiles).Err? || analyse(lastRepo.value, {}).Err?))
      && (ValidPaging(page, limit) && HasRepo(lastRepo) && GitStats(checkout(lastRepo.value), 1, 100, {}, maxFiles).Ok? ==>
            |GitStats(checkout(lastRepo.value), 1, 100, {}, maxFiles).value| <= 100)
      && (ValidPaging(page, limit) && HasRepo(lastRepo) && GetComplexity(analyse(lastRepo.value, {}), 1, 100).Ok? ==>
            |GetComplexity(analyse(lastRepo.value, {}), 1, 100).value| <= 100)
      && (r.Rows? ==>
            HasRepo(lastRepo)
            && var churn := GitStats(checkout(lastRepo.value), 1, 100, {}, maxFiles);
            var complexity := GetComplexity(analyse(lastRepo.value, {}), 1, 100);
            churn.Ok? && complexity.Ok?
            && var candidates := HotspotCandidates(normpath, churn.value, complexity.value,
                                                   churnThreshold, complexityThreshold, topN, ext);
            r.items == Page(Slice(candidates, 0, topN), page, limit)
            && (forall h :: h in r.items ==> h in candidates)
            && 1 <= |r.items| <= limit && |r.items| <= 10 && SortedByRisk(r.items))
  {
    if ValidPaging(page, limit) && HasRepo(lastRepo) {
      var co := checkout(lastRepo.value);
      var churn := GitStats(co, 1, 100, {}, maxFiles);
      var complexity := GetComplexity(analyse(lastRepo.value, {}), 1, 100);
      if churn.Ok? && co.Repository? {
        GitStatsRows(co, 1, 100, {}, maxFiles);
      }
      if analyse(lastRepo.value, {}).Ok? {
        PageBounds(analyse(lastRepo.value, {}).value, 1, 100);
      }
      if churn.Ok? && complexity.Ok? {
        var candidates := HotspotCandidates(normpath, churn.value, complexity.value, churnThreshold, complexityThreshold, topN, ext);
        CandidatesBounded(normpath, churn.value, complexity.value, churnThreshold, complexityThreshold, topN, ext);
        HotspotsReplyOfSorted(candidates, topN, page, limit);
      }
    }
  }

  // ---------------------------------------------------------------------------
  // POST /analyze and the stored repository path

  /** The uploaded file: its name and what extracting it into the temporary directory gives. */
  datatype Upload = Upload(filename: string, extraction: ZipOutcome)

  /** `ZipFile(...).extractall(tmpdir)` raising, or the directories it leaves in tmpdir. */
  datatype ZipOutcome = BadZip | Extracted(dirs: seq<string>)

  /** What `/analyze` sends back: it never answers with a list. */
  datatype AnalyzeReply =
    | Done(detail: string)               // 200 {"status": "success", "detail": ...}
    | Rejected(code: int, detail: string) // JSONResponse {"status": "error", "detail": ...}
    | ExtractionError                    // 500: `extractall` raised and nothing catches it

  /** `analyze_repo(repo_path, file)`: the reply and the new `last_repo_path`. */
  function Analyze(lastRepo: Option<string>, repoPath: Option<string>, file: Option<Upload>,
                   resolve: string -> string, isDir: string -> bool): (AnalyzeReply, Option<string>)
  {
    if repoPath.Some? && repoPath.value != "" then
      var absPath := resolve(repoPath.value);
      if !isDir(absPath) then (Rejected(400, "Invalid repo path."), lastRepo)
      else (Done("Analyzed repo at " + absPath), Some(absPath))
    else if file.Some? && file.value.filename != "" then
      match file.value.extraction
      case BadZip => (ExtractionError, lastRepo)
      case Extracted(dirs) =>
        if dirs == [] then (Rejected(400, "No repo found in zip."), lastRepo)
        else (Done("Analyzed repo from zip: " + file.value.filename), Some(dirs[0]))
    else (Rejected(400, "No repo path or file provided."), lastRepo)
  }

  /**
   * A non-empty path wins over an upload; a path that is not a directory is
   * 400 and leaves the stored path alone; a directory becomes the stored
   * path; with neither input the answer is 400 and nothing changes; the stored
   * path changes only on success.
   */
  lemma AnalyzeMeans(lastRepo: Option<string>, repoPath: Option<string>, file: Option<Upload>,
                     resolve: string -> string, isDir: string -> bool)
    ensures var (reply, next) := Analyze(lastRepo, repoPath, file, resolve, isDir);
      (repoPath.Some? && repoPath.value != "" ==>
         Analyze(lastRepo, repoPath, file, resolve, isDir) == Analyze(lastRepo, repoPath, None, resolve, isDir))
      && (repoPath.Some? && repoPath.value != "" && !isDir(resolve(repoPath.value)) ==>
            reply == Rejected(400, "Invalid repo path.") && next == lastRepo)
      && (repoPath.Some? && repoPath.value != "" && isDir(resolve(repoPath.value)) ==>
            reply.Done? && next == Some(resolve(repoPath.value)))
      && ((repoPath.None? || repoPath.value == "") && (file.None? || file.value.filename == "") ==>
            reply == Rejected(400, "No repo path or file provided.") && next == lastRepo)
      && (!reply.Done? ==> next == lastRepo)
  {
  }

  /** The one piece of server state: `last_repo_path`. */
  class Backend {
    var lastRepoPath: Option<string>

    constructor ()
      ensures lastRepoPath == None
    {
      lastRepoPath := None;
    }

    method AnalyzeRepo(repoPath: Option<string>, file: Option<Upload>, resolve: string -> string, isDir: string -> bool)
      returns (reply: AnalyzeReply)
      modifies this
      ensures (reply, lastRepoPath) == Analyze(old(lastRepoPath), repoPath, file, resolve, isDir)
    {
      if repoPath.Some? && repoPath.value != "" {
        var absPath := resolve(repoPath.value);
        if !isDir(absPath) {
          return Rejected(400, "Invalid repo path.");
        }
        lastRepoPath := Some(absPath);
        return Done("Analyzed repo at " + absPath);
      } else if file.Some? && file.value.filename != "" {
        if file.value.extraction.BadZip? {
          return ExtractionError;
        }
        var extractedDirs := file.value.extraction.dirs;
        if extractedDirs == [] {
          return Rejected(400, "No repo found in zip.");
        }
        lastRepoPath := Some(extractedDirs[0]);
        return Done("Analyzed repo from zip: " + file.value.filename);
      }
      return Rejected(400, "No repo path or file provided.");
    }
  }
}
