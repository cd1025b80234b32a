/**
 * backend/services/churn_metrics.py: hotspots are the files with both high
 * churn and high complexity. `os.path.normpath` is an input (`normpath`).
 */
module ChurnMetrics {
  import opened Base
  import opened Text
  import opened PyList
  import opened FileUtils
  import opened Models

  const HIGH_LABEL := "High \U{1F525}"
  const MEDIUM_LABEL := "Medium \U{26A0}\U{FE0F}"
  const LOW_LABEL := "Low \U{2705}"

  // ---------------------------------------------------------------------------
  // normalize and the extension filter

  /** `s.replace("\\", "/")` */
  function ForwardSlashes(s: string): (r: string)
    ensures |r| == |s|
    ensures forall i :: 0 <= i < |s| ==> r[i] == (if s[i] == '\\' then '/' else s[i])
  {
    if s == [] then [] else [if s[0] == '\\' then '/' else s[0]] + ForwardSlashes(s[1..])
  }

  /** `normalize(path)`: normpath, forward slashes, lower case. */
  function Normalize(normpath: string -> string, path: string): (r: string)
  {
    Lower(ForwardSlashes(normpath(path)))
  }

  /** A normalised path has no backslash and no upper-case letter. */
  lemma NormalizeShape(normpath: string -> string, path: string)
    ensures var r := Normalize(normpath, path);
      '\\' !in r && NoUpper(r)
  {
    var f := ForwardSlashes(normpath(path));
    var r := Lower(f);
    LowerIsLower(f);
    forall i | 0 <= i < |r| ensures r[i] != '\\' {
      assert r[i] == LowerChar(f[i]);
    }
  }

  /** `Path(file).suffix.lower()` */
  function ExtOf(file: string): string
  {
    Lower(Suffix(file))
  }

  function FilterChurn(xs: seq<ChurnFile>, exts: set<string>): seq<ChurnFile>
  {
    if exts == {} then xs else Filter(xs, (f: ChurnFile) => ExtOf(f.file) in exts)
  }

  function FilterComplexity(xs: seq<ComplexityFile>, exts: set<string>): seq<ComplexityFile>
  {
    if exts == {} then xs else Filter(xs, (f: ComplexityFile) => ExtOf(f.file) in exts)
  }

  /**
   * An empty extension set filters nothing; a non-empty one keeps exactly the
   * entries whose lower-cased suffix it contains.
   */
  lemma ExtensionFilter(churn: seq<ChurnFile>, complexity: seq<ComplexityFile>, exts: set<string>)
    ensures exts == {} ==> FilterChurn(churn, exts) == churn && FilterComplexity(complexity, exts) == complexity
    ensures forall c :: c in FilterChurn(churn, exts) <==> c in churn && (exts == {} || ExtOf(c.file) in exts)
    ensures forall c :: c in FilterComplexity(complexity, exts) <==> c in complexity && (exts == {} || ExtOf(c.file) in exts)
  {
    FilterMeans(churn, (f: ChurnFile) => ExtOf(f.file) in exts);
    FilterMeans(complexity, (f: ComplexityFile) => ExtOf(f.file) in exts);
  }

  // ---------------------------------------------------------------------------
  // The complexity lookup

  /** `{normalize(item['file']): item['complexity'] for item in items}` */
  function ComplexityMap(normpath: string -> string, items: seq<ComplexityFile>): map<string, real>
  {
    if items == [] then map[]
    else
      var last := items[|items| - 1];
      ComplexityMap(normpath, items[..|items| - 1])[Normalize(normpath, last.file) := last.complexity]
  }

  /**
   * A path has an entry exactly when some item normalises to it, and when
   * several do, the entry holds the complexity of the last of them.
   */
  lemma {:induction false} ComplexityMapLastWins(normpath: string -> string, items: seq<ComplexityFile>, k: string)
    ensures k in ComplexityMap(normpath, items) <==>
      exists i :: 0 <= i < |items| && Normalize(normpath, items[i].file) == k
    ensures k in ComplexityMap(normpath, items) ==>
      exists j :: 0 <= j < |items| && Normalize(normpath, items[j].file) == k
        && ComplexityMap(normpath, items)[k] == items[j].complexity
        && forall i :: j < i < |items| ==> Normalize(normpath, items[i].file) != k
  {
    if items != [] {
      var n := |items| - 1;
      var p := items[..n];
      ComplexityMapLastWins(normpath, p, k);
      if Normalize(normpath, items[n].file) == k {
        assert ComplexityMap(normpath, items)[k] == items[n].complexity;
      } else {
        if k in ComplexityMap(normpath, p) {
          var j :| 0 <= j < |p| && Normalize(normpath, p[j].file) == k
            && ComplexityMap(normpath, p)[k] == p[j].complexity
            && forall i :: j < i < |p| ==> Normalize(normpath, p[i].file) != k;
          assert items[j] == p[j];
          assert forall i :: j < i < |items| ==> Normalize(normpath, items[i].file) != k by {
            forall i | j < i < |items| ensures Normalize(normpath, items[i].file) != k {
              if i < n { assert items[i] == p[i]; }
            }
          }
        }
        if exists i :: 0 <= i < |items| && Normalize(normpath, items[i].file) == k {
          var i :| 0 <= i < |items| && Normalize(normpath, items[i].file) == k;
          assert i < n && p[i] == items[i];
        }
      }
    }
  }

  // ---------------------------------------------------------------------------
  // Risk classification

  /** The risk label and colour of a file with these commits and this complexity. */
  function Classify(commits: int, complexity: real): (labelAndColor: (string, string))
  {
    if commits >= 10 || complexity >= 15.0 then (HIGH_LABEL, "red")
    else if commits >= 5 || complexity >= 8.0 then (MEDIUM_LABEL, "orange")
    else (LOW_LABEL, "green")
  }

  /** Each of the three classes, with both directions of its condition. */
  lemma ClassifyMeans(commits: int, complexity: real)
    ensures Classify(commits, complexity) == (HIGH_LABEL, "red") <==> commits >= 10 || complexity >= 15.0
    ensures Classify(commits, complexity) == (MEDIUM_LABEL, "orange") <==>
      !(commits >= 10 || complexity >= 15.0) && (commits >= 5 || complexity >= 8.0)
    ensures Classify(commits, complexity) == (LOW_LABEL, "green") <==> commits < 5 && complexity < 8.0
  {
    assert HIGH_LABEL != MEDIUM_LABEL && HIGH_LABEL != LOW_LABEL && MEDIUM_LABEL != LOW_LABEL by {
      assert HIGH_LABEL[0] == 'H' && MEDIUM_LABEL[0] == 'M' && LOW_LABEL[0] == 'L';
    }
  }

  /** More commits or more complexity never lowers the class. */
  lemma ClassifyMonotone(c1: int, x1: real, c2: int, x2: real)
    requires c1 <= c2 && x1 <= x2
    ensures Classify(c1, x1).0 == HIGH_LABEL ==> Classify(c2, x2).0 == HIGH_LABEL
    ensures Classify(c2, x2).0 == LOW_LABEL ==> Classify(c1, x1).0 == LOW_LABEL
  {
    ClassifyMeans(c1, x1);
    ClassifyMeans(c2, x2);
    assert HIGH_LABEL[0] == 'H' && MEDIUM_LABEL[0] == 'M' && LOW_LABEL[0] == 'L';
  }

  // ---------------------------------------------------------------------------
  // The join

  /** The hotspot a churn item that passes both thresholds becomes. */
  function HotspotOf(item: ChurnFile, complexity: real): HotspotFile
  {
    var c := Classify(item.commits, complexity);
    HotspotFile(item.file, item.commits, complexity, c.0, c.1)
  }

  predicate Passes(normpath: string -> string, cmap: map<string, real>, item: ChurnFile,
                   churnThreshold: int, complexityThreshold: real)
  {
    var path := Normalize(normpath, item.file);
    path in cmap && item.commits >= churnThreshold && cmap[path] >= complexityThreshold
  }

  /** The hotspots the matching loop appends for `churn`, in churn order. */
  function Matches(normpath: string -> string, cmap: map<string, real>, churn: seq<ChurnFile>,
                   churnThreshold: int, complexityThreshold: real): seq<HotspotFile>
  {
    if churn == [] then []
    else
      var item := churn[|churn| - 1];
      Matches(normpath, cmap, churn[..|churn| - 1], churnThreshold, complexityThreshold)
        + (if Passes(normpath, cmap, item, churnThreshold, complexityThreshold)
           then [HotspotOf(item, cmap[Normalize(normpath, item.file)])] else [])
  }

  lemma MatchesStep(normpath: string -> string, cmap: map<string, real>, churn: seq<ChurnFile>, i: nat,
                    churnThreshold: int, complexityThreshold: real)
    requires i < |churn|
    ensures Matches(normpath, cmap, churn[..i + 1], churnThreshold, complexityThreshold)
      == Matches(normpath, cmap, churn[..i], churnThreshold, complexityThreshold)
         + (if Passes(normpath, cmap, churn[i], churnThreshold, complexityThreshold)
            then [HotspotOf(churn[i], cmap[Normalize(normpath, churn[i].file)])] else [])
  {
    assert churn[..i + 1][..i] == churn[..i];
  }

  /** What a joined hotspot is made of: a churn item that passed, with the complexity of its path. */
  predicate JoinedFrom(normpath: string -> string, cmap: map<string, real>, churn: seq<ChurnFile>,
                       churnThreshold: int, complexityThreshold: real, h: HotspotFile)
  {
    exists i :: 0 <= i < |churn| && Passes(normpath, cmap, churn[i], churnThreshold, complexityThreshold)
      && h == HotspotOf(churn[i], cmap[Normalize(normpath, churn[i].file)])
  }

  lemma {:induction false} MatchesMeans(normpath: string -> string, cmap: map<string, real>, churn: seq<ChurnFile>,
                                        churnThreshold: int, complexityThreshold: real)
    ensures var m := Matches(normpath, cmap, churn, churnThreshold, complexityThreshold);
      forall h :: h in m ==> JoinedFrom(normpath, cmap, churn, churnThreshold, complexityThreshold, h)
  {
    if churn != [] {
      var n := |churn| - 1;
      MatchesMeans(normpath, cmap, churn[..n], churnThreshold, complexityThreshold);
      var m := Matches(normpath, cmap, churn, churnThreshold, complexityThreshold);
      forall h | h in m ensures JoinedFrom(normpath, cmap, churn, churnThreshold, complexityThreshold, h) {
        if h in Matches(normpath, cmap, churn[..n], churnThreshold, complexityThreshold) {
          assert JoinedFrom(normpath, cmap, churn[..n], churnThreshold, complexityThreshold, h);
          var i :| 0 <= i < n && Passes(normpath, cmap, churn[..n][i], churnThreshold, complexityThreshold)
            && h == HotspotOf(churn[..n][i], cmap[Normalize(normpath, churn[..n][i].file)]);
          assert churn[..n][i] == churn[i];
        } else {
          assert Passes(normpath, cmap, churn[n], churnThreshold, complexityThreshold);
        }
      }
    }
  }

  /** Conversely, every churn item that passes both thresholds is joined. */
  lemma {:induction false} MatchesComplete(normpath: string -> string, cmap: map<string, real>, churn: seq<ChurnFile>,
                                           churnThreshold: int, complexityThreshold: real, i: nat)
    requires i < |churn| && Passes(normpath, cmap, churn[i], churnThreshold, complexityThreshold)
    ensures HotspotOf(churn[i], cmap[Normalize(normpath, churn[i].file)])
      in Matches(normpath, cmap, churn, churnThreshold, complexityThreshold)
  {
    var n := |churn| - 1;
    if i < n {
      MatchesComplete(normpath, cmap, churn[..n], churnThreshold, complexityThreshold, i);
      assert churn[..n][i] == churn[i];
    }
  }

  // ---------------------------------------------------------------------------
  // hotspots.sort(key=lambda x: x['commits'] * x['complexity'], reverse=True)

  function Score(h: HotspotFile): real
  {
    h.commits as real * h.complexity
  }

  /** Non-increasing risk score. */
  predicate SortedByRisk(xs: seq<HotspotFile>)
  {
    forall i, j :: 0 <= i < j < |xs| ==> Score(xs[i]) >= Score(xs[j])
  }

  /** Puts x in front of the first element whose score is not higher than its own. */
  function Insert(x: HotspotFile, ys: seq<HotspotFile>): seq<HotspotFile>
  {
    if ys == [] || Score(x) >= Score(ys[0]) then [x] + ys else [ys[0]] + Insert(x, ys[1..])
  }

  /** Python's sort with reverse=True: stable, non-increasing by key. */
  function SortByRisk(xs: seq<HotspotFile>): seq<HotspotFile>
  {
    if xs == [] then [] else Insert(xs[0], SortByRisk(xs[1..]))
  }

  lemma {:induction false} InsertPermutes(x: HotspotFile, ys: seq<HotspotFile>)
    ensures multiset(Insert(x, ys)) == multiset(ys) + multiset{x}
  {
    if ys != [] && Score(x) < Score(ys[0]) {
      InsertPermutes(x, ys[1..]);
      assert ys == [ys[0]] + ys[1..];
    }
  }

  lemma {:induction false} InsertSorted(x: HotspotFile, ys: seq<HotspotFile>)
    requires SortedByRisk(ys)
    ensures SortedByRisk(Insert(x, ys))
  {
    if ys != [] && Score(x) < Score(ys[0]) {
      var rest := ys[1..];
      assert SortedByRisk(rest);
      InsertSorted(x, rest);
      InsertPermutes(x, rest);
      var r := Insert(x, rest);
      forall k | 0 <= k < |r| ensures Score(ys[0]) >= Score(r[k]) {
        assert r[k] in multiset(r);
        if r[k] != x {
          assert r[k] in multiset(rest);
          var m :| 0 <= m < |rest| && rest[m] == r[k];
          assert rest[m] == ys[m + 1];
        }
      }
      assert Insert(x, ys) == [ys[0]] + r;
    }
  }

  /** The sort orders by non-increasing score and only reorders. */
  lemma {:induction false} SortByRiskSorted(xs: seq<HotspotFile>)
    ensures SortedByRisk(SortByRisk(xs))
    ensures multiset(SortByRisk(xs)) == multiset(xs)
  {
    if xs != [] {
      SortByRiskSorted(xs[1..]);
      InsertSorted(xs[0], SortByRisk(xs[1..]));
      InsertPermutes(xs[0], SortByRisk(xs[1..]));
      assert xs == [xs[0]] + xs[1..];
    }
  }

  /** The elements with score v, in order. */
  function WithScore(xs: seq<HotspotFile>, v: real): seq<HotspotFile>
  {
    if xs == [] then [] else (if Score(xs[0]) == v then [xs[0]] else []) + WithScore(xs[1..], v)
  }

  lemma {:induction false} InsertWithScore(x: HotspotFile, ys: seq<HotspotFile>, v: real)
    ensures WithScore(Insert(x, ys), v) == (if Score(x) == v then [x] else []) + WithScore(ys, v)
  {
    if ys != [] && Score(x) < Score(ys[0]) {
      InsertWithScore(x, ys[1..], v);
      assert ([ys[0]] + Insert(x, ys[1..]))[1..] == Insert(x, ys[1..]);
    }
  }

  /** Stability: elements with equal scores keep their relative order. */
  lemma {:induction false} SortByRiskStable(xs: seq<HotspotFile>, v: real)
    ensures WithScore(SortByRisk(xs), v) == WithScore(xs, v)
  {
    if xs != [] {
      SortByRiskStable(xs[1..], v);
      InsertWithScore(xs[0], SortByRisk(xs[1..]), v);
    }
  }

  /** Sorting a list that is already in order changes nothing. */
  lemma {:induction false} SortByRiskOfSorted(xs: seq<HotspotFile>)
    requires SortedByRisk(xs)
    ensures SortByRisk(xs) == xs
  {
    if xs != [] {
      assert SortedByRisk(xs[1..]);
      SortByRiskOfSorted(xs[1..]);
    }
  }

  /** A slice of a sorted list is sorted. */
  lemma SliceSorted(xs: seq<HotspotFile>, start: int, stop: int)
    requires SortedByRisk(xs)
    ensures SortedByRisk(Slice(xs, start, stop))
  {
    SliceElements(xs, start, stop);
  }

  // ---------------------------------------------------------------------------
  // get_hotspots

  /** `get_hotspots(...)`; an empty `exts` stands for `allowed_exts` being falsy. */
  function Hotspots(normpath: string -> string, churn: seq<ChurnFile>, complexity: seq<ComplexityFile>,
                    churnThreshold: int, complexityThreshold: real, topN: int, page: int, limit: int,
                    exts: set<string>): seq<HotspotFile>
  {
    var cmap := ComplexityMap(normpath, FilterComplexity(complexity, exts));
    var joined := Matches(normpath, cmap, FilterChurn(churn, exts), churnThreshold, complexityThreshold);
    Page(Slice(SortByRisk(joined), 0, topN), page, limit)
  }

  method GetHotspots(normpath: string -> string, churnData: seq<ChurnFile>, complexityData: seq<ComplexityFile>,
                     churnThreshold: int, complexityThreshold: real, topN: int, page: int, limit: int,
                     exts: set<string>)
    returns (r: seq<HotspotFile>)
    ensures r == Hotspots(normpath, churnData, complexityData, churnThreshold, complexityThreshold, topN, page, limit, exts)
  {
    var churn := FilterChurn(churnData, exts);
    var complexity := FilterComplexity(complexityData, exts);
    var complexityMap := ComplexityMap(normpath, complexity);

    var hotspots: seq<HotspotFile> := [];
    for i := 0 to |churn|
      invariant hotspots == Matches(normpath, complexityMap, churn[..i], churnThreshold, complexityThreshold)
    {
      var item := churn[i];
      var filePath := Normalize(normpath, item.file);
      MatchesStep(normpath, complexityMap, churn, i, churnThreshold, complexityThreshold);
      if filePath in complexityMap && item.commits >= churnThreshold && complexityMap[filePath] >= complexityThreshold {
        var complexity := complexityMap[filePath];
        var riskLevel, color;
        if item.commits >= 10 || complexity >= 15.0 {
          riskLevel, color := HIGH_LABEL, "red";
        } else if item.commits >= 5 || complexity >= 8.0 {
          riskLevel, color := MEDIUM_LABEL, "orange";
        } else {
          riskLevel, color := LOW_LABEL, "green";
        }
        assert (riskLevel, color) == Classify(item.commits, complexity);
        hotspots := hotspots + [HotspotFile(item.file, item.commits, complexity, riskLevel, color)];
      }
    }
    assert churn[..|churn|] == churn;

    hotspots := SortByRisk(hotspots);
    var topHotspots := Slice(hotspots, 0, topN);
    var start := (page - 1) * limit;
    var end := start + limit;
    return Slice(topHotspots, start, end);
  }

  // ---------------------------------------------------------------------------
  // Properties of get_hotspots

  /**
   * Every hotspot comes from a churn item (after the extension filter) whose
   * normalised path has a complexity entry, that has at least
   * `churnThreshold` commits and whose complexity is at least
   * `complexityThreshold`; it keeps the item's original file string and
   * commits, takes the complexity from the lookup, and carries the class
   * that Classify gives.
   */
  lemma HotspotsJoined(normpath: string -> string, churn: seq<ChurnFile>, complexity: seq<ComplexityFile>,
                       churnThreshold: int, complexityThreshold: real, topN: int, page: int, limit: int,
                       exts: set<string>)
    ensures var cmap := ComplexityMap(normpath, FilterComplexity(complexity, exts));
      forall h :: h in Hotspots(normpath, churn, complexity, churnThreshold, complexityThreshold, topN, page, limit, exts) ==>
        exists i :: 0 <= i < |FilterChurn(churn, exts)| && (
          var item := FilterChurn(churn, exts)[i];
          var path := Normalize(normpath, item.file);
          path in cmap && item.commits >= churnThreshold && cmap[path] >= complexityThreshold
          && h.file == item.file && h.commits == item.commits && h.complexity == cmap[path]
          && (h.riskLevel, h.color) == Classify(item.commits, cmap[path]))
  {
    var cmap := ComplexityMap(normpath, FilterComplexity(complexity, exts));
    var fc := FilterChurn(churn, exts);
    var joined := Matches(normpath, cmap, fc, churnThreshold, complexityThreshold);
    var sorted := SortByRisk(joined);
    var top := Slice(sorted, 0, topN);
    var out := Page(top, page, limit);
    MatchesMeans(normpath, cmap, fc, churnThreshold, complexityThreshold);
    SortByRiskSorted(joined);
    SliceSubMultiset(sorted, 0, topN);
    SliceSubMultiset(top, PageStart(page, limit), PageStart(page, limit) + limit);
    forall h | h in out ensures JoinedFrom(normpath, cmap, fc, churnThreshold, complexityThreshold, h) {
      assert h in multiset(out);
      assert h in multiset(joined);
    }
  }

  /**
   * The result is ordered by non-increasing commits*complexity, holds at most
   * `limit` entries on a page, and at most `topN` when topN is not negative.
   */
  lemma HotspotsOrderedAndBounded(normpath: string -> string, churn: seq<ChurnFile>, complexity: seq<ComplexityFile>,
                                  churnThreshold: int, complexityThreshold: real, topN: int, page: int, limit: int,
                                  exts: set<string>)
    requires page >= 1 && limit >= 0
    ensures var r := Hotspots(normpath, churn, complexity, churnThreshold, complexityThreshold, topN, page, limit, exts);
      SortedByRisk(r) && |r| <= limit && (topN >= 0 ==> |r| <= topN)
  {
    var cmap := ComplexityMap(normpath, FilterComplexity(complexity, exts));
    var joined := Matches(normpath, cmap, FilterChurn(churn, exts), churnThreshold, complexityThreshold);
    var sorted := SortByRisk(joined);
    var top := Slice(sorted, 0, topN);
    SortByRiskSorted(joined);
    SliceSorted(sorted, 0, topN);
    SliceSorted(top, PageStart(page, limit), PageStart(page, limit) + limit);
    PageBounds(top, page, limit);
    if topN >= 0 {
      SliceNonNegative(sorted, 0, topN);
    }
  }

  /** With the default churn threshold of 5 or more, no hotspot is classed Low. */
  lemma NoLowAtDefaultThreshold(normpath: string -> string, churn: seq<ChurnFile>, complexity: seq<ComplexityFile>,
                                churnThreshold: int, complexityThreshold: real, topN: int, page: int, limit: int,
                                exts: set<string>)
    requires churnThreshold >= 5
    ensures forall h :: h in Hotspots(normpath, churn, complexity, churnThreshold, complexityThreshold, topN, page, limit, exts) ==>
      h.riskLevel != LOW_LABEL && h.color != "green"
  {
    HotspotsJoined(normpath, churn, complexity, churnThreshold, complexityThreshold, topN, page, limit, exts);
    forall h | h in Hotspots(normpath, churn, complexity, churnThreshold, complexityThreshold, topN, page, limit, exts)
      ensures h.riskLevel != LOW_LABEL && h.color != "green"
    {
      ClassifyMeans(h.commits, h.complexity);
      assert HIGH_LABEL[0] == 'H' && MEDIUM_LABEL[0] == 'M' && LOW_LABEL[0] == 'L';
    }
  }

  /** Reading pages 1..k of the sorted top list in turn yields its first k*limit entries. */
  lemma HotspotPagesCover(normpath: string -> string, churn: seq<ChurnFile>, complexity: seq<ComplexityFile>,
                          churnThreshold: int, complexityThreshold: real, topN: int, limit: nat,
                          exts: set<string>, k: nat)
    ensures var cmap := ComplexityMap(normpath, FilterComplexity(complexity, exts));
      var top := Slice(SortByRisk(Matches(normpath, cmap, FilterChurn(churn, exts), churnThreshold, complexityThreshold)), 0, topN);
      FirstPages(top, k, limit) == Slice(top, 0, k * limit)
      && forall p :: 1 <= p <= k ==>
        Page(top, p, limit) == Hotspots(normpath, churn, complexity, churnThreshold, complexityThreshold, topN, p, limit, exts)
  {
    var cmap := ComplexityMap(normpath, FilterComplexity(complexity, exts));
    var top := Slice(SortByRisk(Matches(normpath, cmap, FilterChurn(churn, exts), churnThreshold, complexityThreshold)), 0, topN);
    FirstPagesCover(top, k, limit);
  }
}
