/**
 * frontend/src/components/HotspotsTable.tsx: one row per hotspot, with the
 * risk score `commits * complexity`, the server's risk label shown as it
 * came, and a badge colour chosen from that label.
 */
module HotspotsTable {
  import opened Models

  /** The badge classes, as the colour they select. */
  datatype RiskBadge = RedRisk | YellowRisk | GreenRisk | GrayRisk

  datatype HotspotRow = HotspotRow(
    file: string,
    commits: int,
    complexity: real,
    score: real,
    badge: RiskBadge,
    riskLevel: string)

  /** `getRiskScore`. */
  function RiskScore(commits: int, complexity: real): real
  {
    commits as real * complexity
  }

  /** `getRiskColor`: a switch on the exact label text, gray for anything else. */
  function RiskColor(riskLevel: string): RiskBadge
  {
    if riskLevel == "High \U{1F525}" then RedRisk
    else if riskLevel == "Medium \U{26A0}\U{FE0F}" then YellowRisk
    else if riskLevel == "Low \U{2705}" then GreenRisk
    else GrayRisk
  }

  /** The colour map, both ways: gray is what every unknown label gets. */
  lemma RiskColorMeans(riskLevel: string)
    ensures RiskColor(riskLevel) == RedRisk <==> riskLevel == "High \U{1F525}"
    ensures RiskColor(riskLevel) == YellowRisk <==> riskLevel == "Medium \U{26A0}\U{FE0F}"
    ensures RiskColor(riskLevel) == GreenRisk <==> riskLevel == "Low \U{2705}"
    ensures RiskColor(riskLevel) == GrayRisk <==>
      riskLevel !in {"High \U{1F525}", "Medium \U{26A0}\U{FE0F}", "Low \U{2705}"}
  {
  }

  function Row(h: HotspotFile): (row: HotspotRow)
  {
    HotspotRow(h.file, h.commits, h.complexity, RiskScore(h.commits, h.complexity),
               RiskColor(h.riskLevel), h.riskLevel)
  }

  /**
   * `data.map(...)`: one row per hotspot, in input order; the label is the
   * server's `risk_level` verbatim and the score is `commits * complexity`.
   */
  function Rows(data: seq<HotspotFile>): (rows: seq<HotspotRow>)
    ensures |rows| == |data|
    ensures forall i :: 0 <= i < |data| ==> rows[i] == Row(data[i])
    ensures forall i :: 0 <= i < |data| ==>
      rows[i].riskLevel == data[i].riskLevel && rows[i].score == data[i].commits as real * data[i].complexity
  {
    seq(|data|, i requires 0 <= i < |data| => Row(data[i]))
  }
}
