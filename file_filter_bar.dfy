/**
 * frontend/src/components/FileFilterBar.tsx: the filter box, the page-size
 * select and the Previous/Next buttons. The component keeps no state; each
 * user action becomes at most one callback to the dashboard.
 */
module FileFilterBar {
  import opened Base
  import opened Text
  import opened PyList

  /** The `<option>` values of the page-size select, in display order. */
  const LIMIT_OPTIONS: seq<nat> := [10, 25, 50, 100]

  /** What the user does to the bar. A select can only deliver one of its options. */
  datatype Action =
    | TypeFilter(text: string)
    | SelectLimit(option: nat)   // index into LIMIT_OPTIONS
    | ClickPrevious
    | ClickNext

  /** The callback the bar invokes. */
  datatype Callback =
    | FileFilterChange(text: string)
    | LimitChange(limit: int)
    | PageChange(page: int)

  /** `Math.max(1, page - 1)`: the page Previous asks for. */
  function PreviousPage(page: int): (r: int)
    ensures r >= 1
    ensures page >= 2 ==> r == page - 1
    ensures page <= 1 ==> r == 1
  {
    Max(1, page - 1)
  }

  /** `disabled={page <= 1}` on Previous. */
  predicate PreviousDisabled(page: int) { page <= 1 }

  /** `page + 1`: the page Next asks for; Next has no `disabled` rule. */
  function NextPage(page: int): (r: int)
    ensures r > page
  {
    page + 1
  }

  /** `Number(e.target.value)` on the selected option's text. */
  function SelectedLimit(option: nat): (r: Option<int>)
    requires option < |LIMIT_OPTIONS|
  {
    DecimalValue(NatToString(LIMIT_OPTIONS[option]))
  }

  /**
   * The callback an action produces; a click on a disabled button produces
   * none, and an option index outside the select cannot be chosen.
   */
  function OnAction(page: int, a: Action): (r: Option<Callback>)
    requires a.SelectLimit? ==> a.option < |LIMIT_OPTIONS|
  {
    match a
    case TypeFilter(text) => Some(FileFilterChange(text))
    case SelectLimit(option) => Some(LimitChange(SelectedLimit(option).GetOr(0)))
    case ClickPrevious => if PreviousDisabled(page) then None else Some(PageChange(PreviousPage(page)))
    case ClickNext => Some(PageChange(NextPage(page)))
  }

  /** Previous is disabled exactly on the first page (and below it). */
  lemma PreviousDisabledMeans(page: int)
    ensures PreviousDisabled(page) <==> OnAction(page, ClickPrevious).None?
    ensures !PreviousDisabled(page) ==> OnAction(page, ClickPrevious) == Some(PageChange(page - 1))
  {
  }

  /** Next is never disabled and always asks for the following page. */
  lemma NextAlwaysEnabled(page: int)
    ensures OnAction(page, ClickNext) == Some(PageChange(page + 1))
  {
  }

  /** The filter text is handed on verbatim, with no parsing. */
  lemma FilterVerbatim(page: int, text: string)
    ensures OnAction(page, TypeFilter(text)) == Some(FileFilterChange(text))
  {
  }

  /**
   * Choosing a page size reports exactly the option's number, which is one
   * of 10, 25, 50 and 100; no page change goes with it.
   */
  lemma LimitIsAnOption(page: int, option: nat)
    requires option < |LIMIT_OPTIONS|
    ensures OnAction(page, SelectLimit(option)) == Some(LimitChange(LIMIT_OPTIONS[option]))
    ensures LIMIT_OPTIONS[option] in {10, 25, 50, 100}
  {
    NatToStringValue(LIMIT_OPTIONS[option]);
    assert NatToString(LIMIT_OPTIONS[option])[0] != '-' && NatToString(LIMIT_OPTIONS[option])[0] != '+';
  }

  /** The page the dashboard holds after a sequence of Previous/Next clicks. */
  function AfterClicks(page: int, clicks: seq<Action>): int
    requires forall i :: 0 <= i < |clicks| ==> clicks[i] == ClickPrevious || clicks[i] == ClickNext
    decreases |clicks|
  {
    if clicks == [] then page
    else
      var next := match OnAction(page, clicks[0])
        case Some(PageChange(p)) => p
        case _ => page;
      AfterClicks(next, clicks[1..])
  }

  /** Starting on a valid page, no sequence of clicks leaves the valid pages. */
  lemma {:induction false} ClicksKeepPageValid(page: int, clicks: seq<Action>)
    requires page >= 1
    requires forall i :: 0 <= i < |clicks| ==> clicks[i] == ClickPrevious || clicks[i] == ClickNext
    ensures AfterClicks(page, clicks) >= 1
    decreases |clicks|
  {
    if clicks != [] {
      var next := match OnAction(page, clicks[0])
        case Some(PageChange(p)) => p
        case _ => page;
      assert next >= 1;
      ClicksKeepPageValid(next, clicks[1..]);
    }
  }
}
