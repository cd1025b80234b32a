/**
 * frontend/src/components/ChurnTable.tsx: one table row per churn record,
 * with additions shown as `+a`, deletions as `-d`, and the net change
 * `additions - deletions` coloured by its sign. Class strings are modelled as
 * the tone they select.
 */
module ChurnTable {
  import opened Base
  import opened Text

  /** The record shape the table reads (`ChurnData`). */
  datatype ChurnData = ChurnData(file: string, commits: int, additions: int, deletions: int)

  /** `text-green-600` or `text-red-600` on the net cell. */
  datatype Tone = Green | Red

  datatype ChurnRow = ChurnRow(
    file: string,
    commits: string,
    additions: string,
    deletions: string,
    netTone: Tone,
    net: string)

  /** The sign class of the net cell: green only for a positive net. */
  function NetTone(net: int): (t: Tone)
  {
    if net > 0 then Green else Red
  }

  /** The net cell's text: a `+` in front of a positive net, then the number. */
  function NetText(net: int): (s: string)
  {
    (if net > 0 then "+" else "") + IntToString(net)
  }

  function Row(item: ChurnData): (row: ChurnRow)
  {
    var net := item.additions - item.deletions;
    ChurnRow(item.file, IntToString(item.commits), "+" + IntToString(item.additions),
             "-" + IntToString(item.deletions), NetTone(net), NetText(net))
  }

  /** `data.map(...)`: one row per record, in input order. */
  function Rows(data: seq<ChurnData>): (rows: seq<ChurnRow>)
    ensures |rows| == |data|
    ensures forall i :: 0 <= i < |data| ==> rows[i] == Row(data[i])
  {
    seq(|data|, i requires 0 <= i < |data| => Row(data[i]))
  }

  /** Green exactly for a positive net; zero and negative nets are red. */
  lemma NetToneMeans(net: int)
    ensures NetTone(net) == Green <==> net > 0
    ensures NetTone(net) == Red <==> net <= 0
  {
  }

  /**
   * The net cell starts with `+` exactly when the net is positive, and its
   * text reads back as `additions - deletions`, so a zero net shows a plain `0`.
   */
  lemma NetTextMeans(item: ChurnData)
    ensures var s := Row(item).net;
      |s| >= 1 && (s[0] == '+' <==> item.additions > item.deletions)
      && DecimalValue(s) == Some(item.additions - item.deletions)
  {
    var net := item.additions - item.deletions;
    assert Row(item).net == NetText(net);
    if net > 0 {
      PositiveNetText(net);
    } else {
      NonPositiveNetText(net);
    }
  }

  lemma PositiveNetText(net: int)
    requires net > 0
    ensures NetText(net) == "+" + NatToString(net)
    ensures DecimalValue(NetText(net)) == Some(net)
  {
    PlusNatToStringValue(net);
  }

  lemma NonPositiveNetText(net: int)
    requires net <= 0
    ensures |NetText(net)| >= 1 && NetText(net)[0] != '+'
    ensures DecimalValue(NetText(net)) == Some(net)
  {
    assert NetText(net) == IntToString(net);
    IntToStringValue(net);
    if net == 0 {
      assert IntToString(net) == NatToString(0) == "0";
    } else {
      assert IntToString(net)[0] == '-';
    }
  }

  /** Additions read back from `+a` and deletions from `-d` (for counts, which are never negative). */
  lemma CountCells(item: ChurnData)
    requires item.additions >= 0 && item.deletions >= 0
    ensures Row(item).additions[0] == '+' && DecimalValue(Row(item).additions) == Some(item.additions)
    ensures Row(item).deletions[0] == '-' && DecimalValue(Row(item).deletions) == Some(-item.deletions)
  {
    PlusNatToStringValue(item.additions);
    IntToStringValue(-item.deletions);
    if item.deletions > 0 {
      assert IntToString(-item.deletions) == "-" + NatToString(item.deletions);
    } else {
      assert "-" + IntToString(0) == "-0";
      assert DecimalValue("-0") == Some(0) by {
        assert "-0"[1..] == "0";
        assert DigitsValue("0") == DigitsValue("0"[..0]) * 10 + DigitValue('0');
      }
    }
  }
}
