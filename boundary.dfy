/**
 * Where the frontend tables meet the backend endpoints: what the tables show
 * for the replies the endpoints can actually send. The JSON between them is
 * taken to carry every field unchanged; the churn table reads only the
 * fields of its own record shape.
 */
module Boundary {
  import opened Base
  import opened PyList
  import opened Models
  import opened GitAnalyzer
  import opened ChurnMetrics
  import opened Api
  import ChurnTable
  import HotspotsTable

  /**
   * Every label the backend classifier produces gets a coloured badge, never
   * the gray fallback, and the badge matches the server's own colour
   * (the server says "orange" where the badge is yellow).
   */
  lemma ServerLabelsHaveBadges(commits: int, complexity: real)
    ensures var c := Classify(commits, complexity);
      var badge := HotspotsTable.RiskColor(c.0);
      badge != HotspotsTable.GrayRisk
      && (badge == HotspotsTable.RedRisk <==> c.1 == "red")
      && (badge == HotspotsTable.YellowRisk <==> c.1 == "orange")
      && (badge == HotspotsTable.GreenRisk <==> c.1 == "green")
  {
    HotspotsTable.RiskColorMeans(Classify(commits, complexity).0);
  }

  /** A hotspot whose label is the classifier's label for its own numbers. */
  predicate Classified(h: HotspotFile)
  {
    h.riskLevel == Classify(h.commits, h.complexity).0
  }

  /** Every entry `get_hotspots` returns carries the classifier's label for its numbers. */
  lemma HotspotsClassified(normpath: string -> string, churn: seq<ChurnFile>, complexity: seq<ComplexityFile>,
                           churnThreshold: int, complexityThreshold: real, topN: int, page: int, limit: int,
                           exts: set<string>)
    ensures forall h :: h in Hotspots(normpath, churn, complexity, churnThreshold, complexityThreshold, topN, page, limit, exts) ==>
      Classified(h)
  {
    HotspotsJoined(normpath, churn, complexity, churnThreshold, complexityThreshold, topN, page, limit, exts);
  }

  /** No gray badge and non-increasing scores in the table of a list of classified hotspots. */
  predicate WellShown(items: seq<HotspotFile>)
  {
    var rows := HotspotsTable.Rows(items);
    (forall i, j :: 0 <= i < j < |rows| ==> rows[i].score >= rows[j].score)
    && (forall i :: 0 <= i < |rows| ==> rows[i].badge != HotspotsTable.GrayRisk)
  }

  /** Sorted, classified hotspots show non-increasing scores and no gray badge. */
  lemma ClassifiedShownWell(items: seq<HotspotFile>)
    requires SortedByRisk(items)
    requires forall h :: h in items ==> Classified(h)
    ensures WellShown(items)
  {
    var rows := HotspotsTable.Rows(items);
    forall i | 0 <= i < |rows| ensures rows[i].badge != HotspotsTable.GrayRisk {
      assert items[i] in items;
      ServerLabelsHaveBadges(items[i].commits, items[i].complexity);
    }
    forall i, j | 0 <= i < j < |rows| ensures rows[i].score >= rows[j].score {
      assert Score(items[i]) >= Score(items[j]);
    }
  }

  /** A reply built from sorted, classified candidates shows well. */
  lemma ReplyShownWell(candidates: seq<HotspotFile>, topN: int, page: int, limit: int)
    requires page >= 1 && limit >= 1 && SortedByRisk(candidates)
    requires forall h :: h in candidates ==> Classified(h)
    ensures var r := HotspotsReply(candidates, topN, page, limit);
      r.Rows? ==> WellShown(r.items)
  {
    var r := HotspotsReply(candidates, topN, page, limit);
    if r.Rows? {
      HotspotsReplyOfSorted(candidates, topN, page, limit);
      var top := Slice(candidates, 0, topN);
      SliceSubMultiset(candidates, 0, topN);
      SliceSubMultiset(top, PageStart(page, limit), PageStart(page, limit) + limit);
      assert multiset(r.items) <= multiset(candidates);
      forall h | h in r.items ensures Classified(h) {
        assert h in multiset(r.items);
      }
      ClassifiedShownWell(r.items);
    }
  }

  /**
   * The hotspots table fed by the `/hotspots` endpoint: the risk scores it
   * shows never increase down the table, and no row has the gray badge.
   */
  lemma HotspotsTableOfReply(lastRepo: Option<string>, checkout: string -> Checkout, maxFiles: int,
                             analyse: (string, set<string>) -> Result<seq<ComplexityFile>, Exception>,
                             normpath: string -> string,
                             churnThreshold: int, complexityThreshold: real, topN: int,
                             page: int, limit: int, ext: Option<string>)
    ensures var r := GetHotspotsEndpoint(lastRepo, checkout, maxFiles, analyse, normpath, churnThreshold,
                                         complexityThreshold, topN, page, limit, ext);
      r.Rows? ==> WellShown(r.items)
  {
    if ValidPaging(page, limit) && HasRepo(lastRepo) {
      var churn := GitStats(checkout(lastRepo.value), 1, 100, {}, maxFiles);
      var complexity := GetComplexity(analyse(lastRepo.value, {}), 1, 100);
      if churn.Ok? && complexity.Ok? {
        var candidates := HotspotCandidates(normpath, churn.value, complexity.value,
                                            churnThreshold, complexityThreshold, topN, ext);
        CandidatesBounded(normpath, churn.value, complexity.value, churnThreshold, complexityThreshold, topN, ext);
        var (c, x) := EndpointFilter(churn.value, complexity.value, ext);
        HotspotsClassified(normpath, c, x, churnThreshold, complexityThreshold, topN, 1, 10, {});
        ReplyShownWell(candidates, topN, page, limit);
      }
    }
  }

  /** The fields of a churn row that `ChurnTable` reads. */
  function AsChurnData(f: ChurnFile): ChurnTable.ChurnData
  {
    ChurnTable.ChurnData(f.file, f.commits, f.additions, f.deletions)
  }

  /**
   * The churn table fed by the `/churn-metrics` endpoint: the table computes
   * the net change itself from additions and deletions, and the text it shows
   * reads back as the server's own `net_changes`, with a `+` exactly when it
   * is positive.
   */
  lemma ChurnTableOfReply(lastRepo: Option<string>, checkout: string -> Checkout, maxFiles: int,
                          page: int, limit: int, ext: Option<string>)
    ensures var r := GetChurn(lastRepo, checkout, maxFiles, page, limit, ext);
      r.Rows? ==>
        var rows := ChurnTable.Rows(seq(|r.items|, i requires 0 <= i < |r.items| => AsChurnData(r.items[i])));
        |rows| == |r.items|
        && forall i :: 0 <= i < |rows| ==>
          Text.DecimalValue(rows[i].net) == Some(r.items[i].netChanges)
          && (rows[i].net[0] == '+' <==> r.items[i].netChanges > 0)
  {
    var r := GetChurn(lastRepo, checkout, maxFiles, page, limit, ext);
    if r.Rows? {
      var co := checkout(lastRepo.value);
      var g := GitStats(co, page, limit, ParseExtensions(ext), maxFiles);
      RespondMeans(g);
      GitStatsRows(co, page, limit, ParseExtensions(ext), maxFiles);
      var data := seq(|r.items|, i requires 0 <= i < |r.items| => AsChurnData(r.items[i]));
      var rows := ChurnTable.Rows(data);
      forall i | 0 <= i < |rows|
        ensures Text.DecimalValue(rows[i].net) == Some(r.items[i].netChanges)
        ensures rows[i].net[0] == '+' <==> r.items[i].netChanges > 0
      {
        ChurnTable.NetTextMeans(data[i]);
      }
    }
  }
}
