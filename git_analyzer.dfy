/**
 * backend/services/git_analyzer.py: per-file churn aggregated over the commit
 * history of a repository. The history (`repo.iter_commits('--all')` with the
 * per-file insertion and deletion counts of each commit) and the working tree
 * that `is_valid_code_file` inspects are inputs.
 */
module GitAnalyzer {
  import opened Base
  import opened Text
  import opened PyList
  import opened FileUtils
  import opened Models

  datatype FileChange = FileChange(path: string, insertions: int, deletions: int)

  datatype Commit = Commit(hexsha: string, authorEmail: string, files: seq<FileChange>)

  /**
   * What `Repo(repo_path)` finds. `tree` maps each regular file of the working
   * tree (by full path) to the result of reading it, None when that raises.
   */
  datatype Checkout =
    | NotAGitRepository(reason: string)
    | Repository(workingDir: string, commits: seq<Commit>, tree: map<string, Option<seq<byte>>>)

  /** A `defaultdict` read: the stored value, or the default for a missing key. */
  function Get<K, V>(m: map<K, V>, k: K, default: V): V
  {
    if k in m then m[k] else default
  }

  /** `Path(path).as_posix()` for the relative paths git reports. */
  function AsPosix(path: string): string
  {
    var ps := Parts(path);
    if ps == [] then "." else Join(ps, '/')
  }

  /** The key a changed file is counted under: `Path(file).as_posix().lower()`. */
  function PathKey(path: string): string
  {
    Lower(AsPosix(path))
  }

  /**
   * Paths that differ only in letter case are counted under one key, so their
   * history is merged into a single entry.
   */
  lemma CaseVariantsShareKey(a: string, b: string)
    requires Lower(a) == Lower(b)
    ensures PathKey(a) == PathKey(b)
  {
    LowerPathKey(a);
    LowerPathKey(b);
  }

  lemma LowerPathKey(path: string)
    ensures PathKey(Lower(path)) == PathKey(path)
  {
    PartsLower(path);
    var ps := Parts(path);
    if ps != [] {
      JoinLower(ps, '/');
      LowerIsLower(Join(ps, '/'));
    } else {
      assert Lower(".") == ".";
    }
  }

  /** `Path(file).suffix.lower()` */
  function Extension(path: string): string
  {
    Lower(Suffix(path))
  }

  /** `is_valid_code_file(full_path)` against the working tree. */
  predicate IsCodeFileIn(tree: map<string, Option<seq<byte>>>, fullPath: string)
  {
    IsValidCodeFile(fullPath, fullPath in tree, Get(tree, fullPath, None))
  }

  /** A changed file passes both filters of the inner loop. */
  predicate Counted(co: Checkout, exts: set<string>, change: FileChange)
    requires co.Repository?
  {
    (exts == {} || Extension(change.path) in exts)
    && IsCodeFileIn(co.tree, co.workingDir + "/" + change.path)
  }

  // ---------------------------------------------------------------------------
  // The history as a flat sequence of counted file touches

  datatype Touch = Touch(key: string, sha: string, author: string, insertions: int, deletions: int)

  function TouchOf(c: Commit, f: FileChange): Touch
  {
    Touch(PathKey(f.path), c.hexsha, c.authorEmail, f.insertions, f.deletions)
  }

  /** The counted touches of commit c among `files`, in order. */
  function CommitTouches(co: Checkout, exts: set<string>, c: Commit, files: seq<FileChange>): seq<Touch>
    requires co.Repository?
  {
    if files == [] then []
    else
      var f := files[|files| - 1];
      CommitTouches(co, exts, c, files[..|files| - 1]) + (if Counted(co, exts, f) then [TouchOf(c, f)] else [])
  }

  /** The counted touches of all `commits`, commit by commit. */
  function Touches(co: Checkout, exts: set<string>, commits: seq<Commit>): seq<Touch>
    requires co.Repository?
  {
    if commits == [] then []
    else
      var c := commits[|commits| - 1];
      Touches(co, exts, commits[..|commits| - 1]) + CommitTouches(co, exts, c, c.files)
  }

  // ---------------------------------------------------------------------------
  // The four defaultdicts and the insertion order of their keys

  datatype Tally = Tally(
    commits: map<string, set<string>>,
    authors: map<string, set<string>>,
    additions: map<string, int>,
    deletions: map<string, int>,
    order: seq<string>)

  const EmptyTally := Tally(map[], map[], map[], map[], [])

  /** The four updates of one touch; a new key goes to the end of the key order. */
  function Record(t: Tally, e: Touch): Tally
  {
    Tally(
      t.commits[e.key := Get(t.commits, e.key, {}) + {e.sha}],
      t.authors[e.key := Get(t.authors, e.key, {}) + {e.author}],
      t.additions[e.key := Get(t.additions, e.key, 0) + e.insertions],
      t.deletions[e.key := Get(t.deletions, e.key, 0) + e.deletions],
      if e.key in t.commits then t.order else t.order + [e.key])
  }

  function TallyOf(ts: seq<Touch>): Tally
  {
    if ts == [] then EmptyTally else Record(TallyOf(ts[..|ts| - 1]), ts[|ts| - 1])
  }

  // ---------------------------------------------------------------------------
  // What the tally means, stated over the touches directly

  predicate Seen(ts: seq<Touch>, k: string)
  {
    exists i :: 0 <= i < |ts| && ts[i].key == k
  }

  /** The distinct commit hashes that touched k. */
  function ShasOf(ts: seq<Touch>, k: string): set<string>
  {
    set i | 0 <= i < |ts| && ts[i].key == k :: ts[i].sha
  }

  /** The distinct author e-mails of the commits that touched k. */
  function AuthorsOf(ts: seq<Touch>, k: string): set<string>
  {
    set i | 0 <= i < |ts| && ts[i].key == k :: ts[i].author
  }

  /** The sum of the insertions into k. */
  function Inserted(ts: seq<Touch>, k: string): int
  {
    if ts == [] then 0
    else Inserted(ts[..|ts| - 1], k) + (if ts[|ts| - 1].key == k then ts[|ts| - 1].insertions else 0)
  }

  /** The sum of the deletions from k. */
  function Deleted(ts: seq<Touch>, k: string): int
  {
    if ts == [] then 0
    else Deleted(ts[..|ts| - 1], k) + (if ts[|ts| - 1].key == k then ts[|ts| - 1].deletions else 0)
  }

  /** The distinct keys of the touches. */
  function KeysOf(ts: seq<Touch>): set<string>
  {
    set i | 0 <= i < |ts| :: ts[i].key
  }

  lemma SnocSight(p: seq<Touch>, e: Touch, k: string)
    ensures Seen(p + [e], k) <==> Seen(p, k) || e.key == k
    ensures ShasOf(p + [e], k) == ShasOf(p, k) + (if e.key == k then {e.sha} else {})
    ensures AuthorsOf(p + [e], k) == AuthorsOf(p, k) + (if e.key == k then {e.author} else {})
    ensures KeysOf(p + [e]) == KeysOf(p) + {e.key}
  {
    var q := p + [e];
    assert forall i :: 0 <= i < |p| ==> q[i] == p[i];
    assert q[|p|] == e;
    if Seen(q, k) {
      var i :| 0 <= i < |q| && q[i].key == k;
      assert i < |p| ==> p[i].key == k;
    }
    if Seen(p, k) {
      var i :| 0 <= i < |p| && p[i].key == k;
      assert q[i].key == k;
    }
    forall x | x in ShasOf(q, k) ensures x in ShasOf(p, k) + (if e.key == k then {e.sha} else {}) {
      var i :| 0 <= i < |q| && q[i].key == k && q[i].sha == x;
      if i < |p| { assert p[i].key == k && p[i].sha == x; }
    }
    forall x | x in ShasOf(p, k) ensures x in ShasOf(q, k) {
      var i :| 0 <= i < |p| && p[i].key == k && p[i].sha == x;
      assert q[i] == p[i];
    }
    forall x | x in AuthorsOf(q, k) ensures x in AuthorsOf(p, k) + (if e.key == k then {e.author} else {}) {
      var i :| 0 <= i < |q| && q[i].key == k && q[i].author == x;
      if i < |p| { assert p[i].key == k && p[i].author == x; }
    }
    forall x | x in AuthorsOf(p, k) ensures x in AuthorsOf(q, k) {
      var i :| 0 <= i < |p| && p[i].key == k && p[i].author == x;
      assert q[i] == p[i];
    }
    forall x | x in KeysOf(q) ensures x in KeysOf(p) + {e.key} {
      var i :| 0 <= i < |q| && q[i].key == x;
      if i < |p| { assert p[i].key == x; }
    }
    forall x | x in KeysOf(p) ensures x in KeysOf(q) {
      var i :| 0 <= i < |p| && p[i].key == x;
      assert q[i] == p[i];
    }
  }

  /**
   * For every path key: it has an entry (in all four dictionaries and in the
   * key order) exactly when some counted touch has that key; its commit set is
   * the set of distinct hashes, its author set the set of distinct e-mails, and
   * its counters are the sums of insertions and deletions over those touches.
   */
  lemma {:induction false} TallyOfMeaning(ts: seq<Touch>, k: string)
    ensures var t := TallyOf(ts);
      (k in t.commits <==> Seen(ts, k)) && (k in t.authors <==> Seen(ts, k))
      && (k in t.additions <==> Seen(ts, k)) && (k in t.deletions <==> Seen(ts, k))
      && (k in t.order <==> Seen(ts, k))
      && Get(t.commits, k, {}) == ShasOf(ts, k)
      && Get(t.authors, k, {}) == AuthorsOf(ts, k)
      && Get(t.additions, k, 0) == Inserted(ts, k)
      && Get(t.deletions, k, 0) == Deleted(ts, k)
  {
    if ts != [] {
      var p, e := ts[..|ts| - 1], ts[|ts| - 1];
      assert ts == p + [e];
      TallyOfMeaning(p, k);
      TallyOfMeaning(p, e.key);
      SnocSight(p, e, k);
    }
  }

  ghost predicate Distinct<T>(s: seq<T>)
  {
    forall i, j :: 0 <= i < j < |s| ==> s[i] != s[j]
  }

  /** Each path key is listed once. */
  lemma {:induction false} TallyOrderDistinct(ts: seq<Touch>)
    ensures Distinct(TallyOf(ts).order)
  {
    if ts != [] {
      var p, e := ts[..|ts| - 1], ts[|ts| - 1];
      TallyOrderDistinct(p);
      TallyOfMeaning(p, e.key);
    }
  }

  /**
   * Keys are listed in the order they were first seen: touches that come
   * later only ever add keys at the end of the order.
   */
  lemma {:induction false} TallyOrderGrows(p: seq<Touch>, q: seq<Touch>)
    ensures TallyOf(p).order <= TallyOf(p + q).order
  {
    if q != [] {
      var q0, e := q[..|q| - 1], q[|q| - 1];
      assert p + q == (p + q0) + [e];
      TallyOrderGrows(p, q0);
      var mid := TallyOf(p + q0);
      TallyOfSnoc(p + q0, e);
      var o := Record(mid, e).order;
      assert mid.order <= o;
      assert TallyOf(p).order == mid.order[..|TallyOf(p).order|] == o[..|TallyOf(p).order|];
    } else {
      assert p + q == p;
    }
  }

  lemma {:induction false} DistinctCardinality<T>(s: seq<T>)
    requires Distinct(s)
    ensures |set i | 0 <= i < |s| :: s[i]| == |s|
  {
    if s != [] {
      var p := s[..|s| - 1];
      DistinctCardinality(p);
      var A := set i | 0 <= i < |p| :: p[i];
      var B := set i | 0 <= i < |s| :: s[i];
      assert B == A + {s[|s| - 1]} by {
        forall x | x in B ensures x in A + {s[|s| - 1]} {
          var i :| 0 <= i < |s| && s[i] == x;
          if i < |p| { assert p[i] == x; }
        }
        forall x | x in A ensures x in B {
          var i :| 0 <= i < |p| && p[i] == x;
          assert s[i] == x;
        }
      }
      assert s[|s| - 1] !in A;
    }
  }

  /** The key order holds each distinct path key exactly once. */
  lemma TallyOrderCounts(ts: seq<Touch>)
    ensures |TallyOf(ts).order| == |KeysOf(ts)|
  {
    var o := TallyOf(ts).order;
    TallyOrderDistinct(ts);
    DistinctCardinality(o);
    var S := set i | 0 <= i < |o| :: o[i];
    forall k ensures k in S <==> k in KeysOf(ts) {
      TallyOfMeaning(ts, k);
      if k in S {
        var i :| 0 <= i < |o| && o[i] == k;
        assert k in o;
      }
      if k in o {
        var i :| 0 <= i < |o| && o[i] == k;
      }
      if k in KeysOf(ts) {
        var i :| 0 <= i < |ts| && ts[i].key == k;
        assert Seen(ts, k);
      }
      if Seen(ts, k) {
        var i :| 0 <= i < |ts| && ts[i].key == k;
      }
    }
    assert S == KeysOf(ts);
  }

  // ---------------------------------------------------------------------------
  // get_git_stats

  /** One dictionary of the result list. */
  function Row(t: Tally, k: string): ChurnFile
  {
    var add, del := Get(t.additions, k, 0), Get(t.deletions, k, 0);
    ChurnFile(k, |Get(t.commits, k, {})|, |Get(t.authors, k, {})|, add, del, add - del)
  }

  function Rows(t: Tally, keys: seq<string>): seq<ChurnFile>
  {
    if keys == [] then [] else Rows(t, keys[..|keys| - 1]) + [Row(t, keys[|keys| - 1])]
  }

  lemma {:induction false} RowsAt(t: Tally, keys: seq<string>)
    ensures |Rows(t, keys)| == |keys|
    ensures forall i :: 0 <= i < |keys| ==> Rows(t, keys)[i] == Row(t, keys[i])
  {
    if keys != [] {
      RowsAt(t, keys[..|keys| - 1]);
    }
  }

  lemma RowsStep(t: Tally, keys: seq<string>, k: nat)
    requires k < |keys|
    ensures Rows(t, keys[..k + 1]) == Rows(t, keys[..k]) + [Row(t, keys[k])]
  {
    assert keys[..k + 1][..k] == keys[..k];
  }

  function TooManyFiles(found: nat, maxFiles: int): string
  {
    "Too many files to analyze. Found " + NatToString(found) + ", max allowed is " + IntToString(maxFiles)
  }

  /**
   * `get_git_stats(repo_path, page, limit, allowed_exts)`; `maxFiles` is
   * MAX_ANALYZABLE_FILES and an empty `exts` means no extension filter.
   */
  function GitStats(co: Checkout, page: int, limit: int, exts: set<string>, maxFiles: int): Result<seq<ChurnFile>, Exception>
  {
    match co
    case NotAGitRepository(reason) => Err(OtherError(reason))
    case Repository(_, commits, _) =>
      var t := TallyOf(Touches(co, exts, commits));
      if |t.order| > maxFiles then Err(ValueError(TooManyFiles(|t.order|, maxFiles)))
      else Ok(Rows(t, Page(t.order, page, limit)))
  }

  lemma TallyOfSnoc(ts: seq<Touch>, e: Touch)
    ensures TallyOf(ts + [e]) == Record(TallyOf(ts), e)
  {
    assert (ts + [e])[..|ts|] == ts;
  }

  lemma CommitTouchesStart(co: Checkout, exts: set<string>, c: Commit, before: seq<Touch>)
    requires co.Repository?
    ensures before + CommitTouches(co, exts, c, c.files[..0]) == before
  {
    assert c.files[..0] == [];
  }

  /** One more changed file of commit c: counted ones add their touch, the others nothing. */
  lemma CommitTouchesStep(co: Checkout, exts: set<string>, c: Commit, j: nat, before: seq<Touch>)
    requires co.Repository? && j < |c.files|
    ensures var done := before + CommitTouches(co, exts, c, c.files[..j]);
      before + CommitTouches(co, exts, c, c.files[..j + 1])
        == if Counted(co, exts, c.files[j]) then done + [TouchOf(c, c.files[j])] else done
  {
    assert c.files[..j + 1][..j] == c.files[..j];
  }

  lemma TouchesStep(co: Checkout, exts: set<string>, commits: seq<Commit>, i: nat)
    requires co.Repository? && i < |commits|
    ensures Touches(co, exts, commits[..i + 1])
      == Touches(co, exts, commits[..i]) + CommitTouches(co, exts, commits[i], commits[i].files)
  {
    assert commits[..i + 1][..i] == commits[..i];
  }

  /**
   * The inner loop of get_git_stats over the changed files of one commit:
   * files outside the requested extensions and files that are not analysable
   * source code are skipped, every other file is recorded.
   */
  method TallyCommit(co: Checkout, exts: set<string>, commit: Commit, tally0: Tally, ghost before: seq<Touch>)
    returns (tally: Tally)
    requires co.Repository? && tally0 == TallyOf(before)
    ensures tally == TallyOf(before + CommitTouches(co, exts, commit, commit.files))
  {
    tally := tally0;
    CommitTouchesStart(co, exts, commit, before);
    var j := 0;
    ghost var done := before;
    while j < |commit.files|
      invariant 0 <= j <= |commit.files|
      invariant done == before + CommitTouches(co, exts, commit, commit.files[..j])
      invariant tally == TallyOf(done)
    {
      var file := commit.files[j];
      var fullPath := co.workingDir + "/" + file.path;
      var ext := Extension(file.path);
      CommitTouchesStep(co, exts, commit, j, before);
      if exts != {} && ext !in exts {
        // not one of the requested extensions
      } else if !IsCodeFileIn(co.tree, fullPath) {
        // not an analysable source file
      } else {
        TallyOfSnoc(done, TouchOf(commit, file));
        tally := Record(tally, TouchOf(commit, file));
        done := done + [TouchOf(commit, file)];
      }
      j := j + 1;
    }
    assert commit.files[..j] == commit.files;
  }

  /** The outer loop of get_git_stats over `repo.iter_commits('--all')`. */
  method TallyHistory(co: Checkout, exts: set<string>) returns (tally: Tally)
    requires co.Repository?
    ensures tally == TallyOf(Touches(co, exts, co.commits))
  {
    tally := EmptyTally;
    var i := 0;
    while i < |co.commits|
      invariant 0 <= i <= |co.commits|
      invariant tally == TallyOf(Touches(co, exts, co.commits[..i]))
    {
      tally := TallyCommit(co, exts, co.commits[i], tally, Touches(co, exts, co.commits[..i]));
      TouchesStep(co, exts, co.commits, i);
      i := i + 1;
    }
    assert co.commits[..i] == co.commits;
  }

  /**
   * get_git_stats. The four defaultdicts and the list of their keys in
   * insertion order are held together in one Tally.
   */
  method GetGitStats(co: Checkout, page: int, limit: int, exts: set<string>, maxFiles: int)
    returns (r: Result<seq<ChurnFile>, Exception>)
    ensures r == GitStats(co, page, limit, exts, maxFiles)
  {
    if co.NotAGitRepository? {
      return Err(OtherError(co.reason));
    }
    var tally := TallyHistory(co, exts);

    var allFiles := tally.order;
    if |allFiles| > maxFiles {
      return Err(ValueError(TooManyFiles(|allFiles|, maxFiles)));
    }

    var start := (page - 1) * limit;
    var end := start + limit;
    var paginatedFiles := Slice(allFiles, start, end);

    var stats: seq<ChurnFile> := [];
    for k := 0 to |paginatedFiles|
      invariant stats == Rows(tally, paginatedFiles[..k])
    {
      var file := paginatedFiles[k];
      var additions := Get(tally.additions, file, 0);
      var deletions := Get(tally.deletions, file, 0);
      var row := ChurnFile(file, |Get(tally.commits, file, {})|, |Get(tally.authors, file, {})|,
                           additions, deletions, additions - deletions);
      assert row == Row(tally, file);
      RowsStep(tally, paginatedFiles, k);
      stats := stats + [row];
    }
    assert paginatedFiles[..|paginatedFiles|] == paginatedFiles;
    return Ok(stats);
  }

  // ---------------------------------------------------------------------------
  // Properties of get_git_stats

  /**
   * Each returned entry is a distinct lower-case path key that some counted
   * change produced; `commits` is the number of distinct commit hashes and
   * `authors` the number of distinct author e-mails that touched it;
   * `additions` and `deletions` are the summed insertions and deletions and
   * `net_changes` their difference. There are at most `limit` entries.
   */
  lemma GitStatsRows(co: Checkout, page: int, limit: int, exts: set<string>, maxFiles: int)
    requires co.Repository? && page >= 1 && limit >= 0
    requires GitStats(co, page, limit, exts, maxFiles).Ok?
    ensures var rows := GitStats(co, page, limit, exts, maxFiles).value;
      var ts := Touches(co, exts, co.commits);
      |rows| <= limit
      && (forall i, j :: 0 <= i < j < |rows| ==> rows[i].file != rows[j].file)
      && (forall i :: 0 <= i < |rows| ==>
            Seen(ts, rows[i].file)
            && rows[i].commits == |ShasOf(ts, rows[i].file)|
            && rows[i].authors == |AuthorsOf(ts, rows[i].file)|
            && rows[i].additions == Inserted(ts, rows[i].file)
            && rows[i].deletions == Deleted(ts, rows[i].file)
            && rows[i].netChanges == rows[i].additions - rows[i].deletions)
  {
    var ts := Touches(co, exts, co.commits);
    var t := TallyOf(ts);
    var keys := Page(t.order, page, limit);
    assert GitStats(co, page, limit, exts, maxFiles).value == Rows(t, keys);
    PageBounds(t.order, page, limit);
    TallyOrderDistinct(ts);
    PageOfDistinct(t.order, page, limit);
    RowsMeaning(ts, keys);
  }

  /** A page of a list without repetitions has none either, and takes its elements from the list. */
  lemma PageOfDistinct<T>(xs: seq<T>, page: int, limit: int)
    requires Distinct(xs)
    ensures var ys := Page(xs, page, limit);
      Distinct(ys) && forall i :: 0 <= i < |ys| ==> ys[i] in xs
  {
    var start := PageStart(page, limit);
    var lo, hi := Bound(start, |xs|), Bound(start + limit, |xs|);
    if lo < hi {
      var ys := xs[lo..hi];
      assert Page(xs, page, limit) == ys;
      forall i | 0 <= i < |ys| ensures ys[i] in xs {
        assert ys[i] == xs[lo + i];
      }
      forall i, j | 0 <= i < j < |ys| ensures ys[i] != ys[j] {
        assert ys[i] == xs[lo + i] && ys[j] == xs[lo + j];
      }
    } else {
      assert Page(xs, page, limit) == [];
    }
  }

  /** The rows built for keys of the order describe those keys. */
  lemma RowsMeaning(ts: seq<Touch>, keys: seq<string>)
    requires forall i :: 0 <= i < |keys| ==> keys[i] in TallyOf(ts).order
    ensures var rows := Rows(TallyOf(ts), keys);
      |rows| == |keys|
      && forall i :: 0 <= i < |rows| ==>
            rows[i].file == keys[i]
            && Seen(ts, rows[i].file)
            && rows[i].commits == |ShasOf(ts, rows[i].file)|
            && rows[i].authors == |AuthorsOf(ts, rows[i].file)|
            && rows[i].additions == Inserted(ts, rows[i].file)
            && rows[i].deletions == Deleted(ts, rows[i].file)
            && rows[i].netChanges == rows[i].additions - rows[i].deletions
  {
    var t := TallyOf(ts);
    RowsAt(t, keys);
    forall i | 0 <= i < |keys|
      ensures var r := Row(t, keys[i]);
        Seen(ts, r.file) && r.commits == |ShasOf(ts, r.file)| && r.authors == |AuthorsOf(ts, r.file)|
        && r.additions == Inserted(ts, r.file) && r.deletions == Deleted(ts, r.file)
    {
      TallyOfMeaning(ts, keys[i]);
    }
  }

  /**
   * The size check comes before pagination: get_git_stats raises ValueError
   * exactly when the number of distinct counted path keys exceeds the maximum,
   * whatever page and limit are asked for.
   */
  lemma GitStatsTooMany(co: Checkout, page: int, limit: int, exts: set<string>, maxFiles: int)
    requires co.Repository?
    ensures GitStats(co, page, limit, exts, maxFiles).Err?
      <==> |KeysOf(Touches(co, exts, co.commits))| > maxFiles
    ensures GitStats(co, page, limit, exts, maxFiles).Err? ==>
      GitStats(co, page, limit, exts, maxFiles).error
        == ValueError(TooManyFiles(|KeysOf(Touches(co, exts, co.commits))|, maxFiles))
  {
    TallyOrderCounts(Touches(co, exts, co.commits));
  }

  lemma {:induction false} NothingCountedNoTouches(co: Checkout, exts: set<string>, commits: seq<Commit>)
    requires co.Repository?
    requires forall f: FileChange :: !Counted(co, exts, f)
    ensures Touches(co, exts, commits) == []
  {
    if commits != [] {
      NothingCountedNoTouches(co, exts, commits[..|commits| - 1]);
      var c := commits[|commits| - 1];
      NothingCountedNoCommitTouches(co, exts, c, c.files);
    }
  }

  lemma {:induction false} NothingCountedNoCommitTouches(co: Checkout, exts: set<string>, c: Commit, files: seq<FileChange>)
    requires co.Repository?
    requires forall f: FileChange :: !Counted(co, exts, f)
    ensures CommitTouches(co, exts, c, files) == []
  {
    if files != [] {
      NothingCountedNoCommitTouches(co, exts, c, files[..|files| - 1]);
    }
  }

  /**
   * A repository checked out below an excluded directory (say inside
   * `node_modules`) has no analysable files: every path joined to the working
   * directory is rejected, so the result is an empty list.
   */
  lemma ExcludedWorkingDirectory(co: Checkout, page: int, limit: int, exts: set<string>, maxFiles: int)
    requires co.Repository? && maxFiles >= 0
    requires exists i :: 0 <= i < |Parts(co.workingDir)| && Lower(Parts(co.workingDir)[i]) in EXCLUDED_DIRS
    ensures GitStats(co, page, limit, exts, maxFiles) == Ok([])
  {
    forall f: FileChange ensures !Counted(co, exts, f) {
      var full := co.workingDir + "/" + f.path;
      ExcludedDirectoryAbove(co.workingDir, f.path, full in co.tree, Get(co.tree, full, None));
    }
    NothingCountedNoTouches(co, exts, co.commits);
    assert TallyOf([]) == EmptyTally;
  }
}
