/**
 * frontend/src/components/ComplexityTable.tsx: one row per complexity
 * record, with a banded badge for the complexity, and `N/A` cells for values
 * that are not numbers. A JSON field that is a number is `Some(n)`; any other
 * value (missing, null, a string) is `None`. Number formatting (`toFixed`,
 * `toLocaleString`) is not modelled: a shown cell carries the number itself.
 */
module ComplexityTable {
  import opened Base

  /** The record shape the table reads; only `complexity` is always a number. */
  datatype ComplexityData = ComplexityData(
    file: string,
    complexity: real,
    lines: Option<real>,
    functions: Option<real>)

  /** The badge classes, as the colour they select. */
  datatype Badge = RedBadge | YellowBadge | GreenBadge

  datatype Cell = NotAvailable | Number(value: real) | Percent(value: real)

  datatype ComplexityRow = ComplexityRow(
    file: string,
    badge: Badge,
    bandLabel: string,
    complexity: real,
    lines: Cell,
    functions: Cell,
    ratio: Cell)

  /** `getComplexityColor`. */
  function ComplexityColor(c: real): Badge
  {
    if c >= 15.0 then RedBadge
    else if c >= 8.0 then YellowBadge
    else GreenBadge
  }

  /** `getComplexityLabel`. */
  function ComplexityLabel(c: real): string
  {
    if c >= 15.0 then "High"
    else if c >= 8.0 then "Medium"
    else "Low"
  }

  /** The bands: High from 15, Medium from 8 below 15, Low below 8. */
  lemma LabelBands(c: real)
    ensures ComplexityLabel(c) == "High" <==> c >= 15.0
    ensures ComplexityLabel(c) == "Medium" <==> 8.0 <= c < 15.0
    ensures ComplexityLabel(c) == "Low" <==> c < 8.0
  {
  }

  /** The badge colour agrees with the label. */
  lemma ColorAgreesWithLabel(c: real)
    ensures ComplexityColor(c) == RedBadge <==> ComplexityLabel(c) == "High"
    ensures ComplexityColor(c) == YellowBadge <==> ComplexityLabel(c) == "Medium"
    ensures ComplexityColor(c) == GreenBadge <==> ComplexityLabel(c) == "Low"
  {
  }

  /** Low < Medium < High. */
  function Rank(band: string): nat
  {
    if band == "High" then 2 else if band == "Medium" then 1 else 0
  }

  /** A larger complexity never gets a lower band. */
  lemma BandsMonotone(c: real, d: real)
    requires c <= d
    ensures Rank(ComplexityLabel(c)) <= Rank(ComplexityLabel(d))
  {
  }

  /** `typeof v === 'number' ? v.toLocaleString() : 'N/A'`. */
  function NumberCell(v: Option<real>): (cell: Cell)
  {
    match v
    case Some(n) => Number(n)
    case None => NotAvailable
  }

  /** `typeof lines === 'number' && lines !== 0 ? ((complexity / lines) * 100).toFixed(2) + '%' : 'N/A'`. */
  function RatioCell(complexity: real, lines: Option<real>): (cell: Cell)
  {
    if lines.Some? && lines.value != 0.0 then Percent((complexity / lines.value) * 100.0)
    else NotAvailable
  }

  /** A number cell shows the number itself, and `N/A` exactly when the value is not a number. */
  lemma NumberCellMeans(v: Option<real>)
    ensures NumberCell(v) == NotAvailable <==> v.None?
    ensures v.Some? ==> NumberCell(v) == Number(v.value)
  {
  }

  /**
   * The ratio is `N/A` exactly when lines is not a number or is zero;
   * otherwise it is the percentage `p` with `p * lines == complexity * 100`.
   */
  lemma RatioCellMeans(complexity: real, lines: Option<real>)
    ensures RatioCell(complexity, lines) == NotAvailable <==> lines.None? || lines.value == 0.0
    ensures RatioCell(complexity, lines).Percent? ==>
      RatioCell(complexity, lines).value * lines.value == complexity * 100.0
  {
  }

  function Row(item: ComplexityData): (row: ComplexityRow)
  {
    ComplexityRow(item.file, ComplexityColor(item.complexity), ComplexityLabel(item.complexity),
                  item.complexity, NumberCell(item.lines), NumberCell(item.functions),
                  RatioCell(item.complexity, item.lines))
  }

  /** `data.map(...)`: one row per record, in input order. */
  function Rows(data: seq<ComplexityData>): (rows: seq<ComplexityRow>)
    ensures |rows| == |data|
    ensures forall i :: 0 <= i < |data| ==> rows[i] == Row(data[i])
  {
    seq(|data|, i requires 0 <= i < |data| => Row(data[i]))
  }
}
