/**
 * frontend/src/pages/Metrics.tsx: the metrics dashboard. Its `useState`
 * variables are the fields of a `Dashboard` object. An asynchronous load is
 * split at its `await`: `StartLoad` is what runs before the request goes out,
 * and `FinishChurn`/`FinishComplexity`/`FinishHotspots` are what runs when it
 * comes back, with the response as a parameter. The browser, React's
 * scheduling and the network are not modelled; which response arrives when is
 * the caller's choice.
 */
module Metrics {
  import opened Base
  import opened Text
  import opened Models
  import opened FileFilterBar
  import ChurnTable
  import ComplexityTable
  import HotspotsTable

  /** The three tabs; each loads one kind of data. */
  datatype Kind = Churn | Complexity | Hotspots

  function Endpoint(k: Kind): string
  {
    match k
    case Churn => "churn-metrics"
    case Complexity => "complexity-metrics"
    case Hotspots => "hotspots"
  }

  /** A GET request: the path and the query parameters in order. */
  datatype Request = Request(endpoint: string, query: seq<(string, string)>)

  /**
   * The extra parameters of the hotspots load. `complexity_threshold: 5.0`
   * is a JavaScript number, whose text is "5".
   */
  const HOTSPOT_PARAMS: seq<(string, string)> :=
    [("churn_threshold", "5"), ("complexity_threshold", "5"), ("top_n", "10000")]

  /** The `URLSearchParams` of `fetchData`: page, limit, `ext` if the filter is non-empty, then the extras. */
  function Query(k: Kind, page: int, limit: int, filter: string): seq<(string, string)>
  {
    [("page", IntToString(page)), ("limit", IntToString(limit))]
    + (if filter != "" then [("ext", filter)] else [])
    + (if k == Hotspots then HOTSPOT_PARAMS else [])
  }

  function RequestFor(k: Kind, page: int, limit: int, filter: string): Request
  {
    Request(Endpoint(k), Query(k, page, limit, filter))
  }

  /**
   * Every query carries page and limit first, as decimal texts that read back
   * as the numbers; `ext` appears exactly when the filter is non-empty and
   * then carries the filter text unchanged; only a hotspots load adds the
   * three threshold parameters.
   */
  lemma QueryMeans(k: Kind, page: int, limit: int, filter: string)
    ensures var q := Query(k, page, limit, filter);
      |q| >= 2 && q[0].0 == "page" && q[1].0 == "limit"
      && DecimalValue(q[0].1) == Some(page) && DecimalValue(q[1].1) == Some(limit)
      && ((exists i :: 0 <= i < |q| && q[i].0 == "ext") <==> filter != "")
      && (forall i :: 0 <= i < |q| && q[i].0 == "ext" ==> q[i].1 == filter)
      && (k == Hotspots ==> |q| >= 5 && q[|q| - 3..] == HOTSPOT_PARAMS)
      && (k != Hotspots ==> |q| == if filter != "" then 3 else 2)
  {
    var q := Query(k, page, limit, filter);
    IntToStringValue(page);
    IntToStringValue(limit);
    if filter != "" {
      assert q[2].0 == "ext";
    }
  }

  /** What the server sent: an array, an object with a `detail` field, or a body that is not JSON. */
  datatype Body<T> = Json(rows: seq<T>) | ErrorJson(detail: Option<string>) | NotJson(parseError: string)

  /** How a `fetch` ends: it throws, or a response arrives. */
  datatype FetchOutcome<T> = NetworkError(message: string) | Response(status: int, body: Body<T>)

  /** What `fetchData` returns, and the message it passes to `setError`, if any. */
  datatype Settled<T> = Settled(data: seq<T>, failure: Option<string>)

  const FAILED_TO_FETCH := "Failed to fetch data"

  /** `response.ok`. */
  predicate IsOk(status: int) { 200 <= status <= 299 }

  /**
   * The completion of `fetchData`. An ok response whose JSON is an object
   * rather than an array has no `length`, so the page shows it as it shows
   * an empty list; it settles as [] here.
   */
  function Settle<T>(outcome: FetchOutcome<T>): Settled<T>
  {
    match outcome
    case NetworkError(message) => Settled([], Some(message))
    case Response(status, body) =>
      if status == 204 then Settled([], None)
      else if !IsOk(status) then
        match body
        case NotJson(parseError) => Settled([], Some(parseError))
        case ErrorJson(detail) =>
          Settled([], Some(if detail.Some? && detail.value != "" then detail.value else FAILED_TO_FETCH))
        case Json(_) => Settled([], Some(FAILED_TO_FETCH))
      else
        match body
        case Json(rows) => Settled(rows, None)
        case ErrorJson(_) => Settled([], None)
        case NotJson(parseError) => Settled([], Some(parseError))
  }

  /**
   * A 204 is not a failure; a non-ok response is a failure carrying the
   * body's non-empty `detail` or the fixed fallback; every failure yields [];
   * and data arrives only from an ok JSON array, unchanged.
   */
  lemma SettleMeans<T>(outcome: FetchOutcome<T>)
    ensures outcome.Response? && outcome.status == 204 ==> Settle(outcome) == Settled([], None)
    ensures outcome.Response? && !IsOk(outcome.status) ==>
      Settle(outcome).data == [] && Settle(outcome).failure.Some?
    ensures outcome.Response? && !IsOk(outcome.status) && outcome.body.ErrorJson? ==>
      Settle(outcome).failure ==
        Some(if outcome.body.detail.Some? && outcome.body.detail.value != "" then outcome.body.detail.value
             else FAILED_TO_FETCH)
    ensures Settle(outcome).failure.Some? ==> Settle(outcome).data == []
    ensures Settle(outcome).data != [] <==>
      outcome.Response? && IsOk(outcome.status) && outcome.status != 204
      && outcome.body.Json? && outcome.body.rows != []
    ensures Settle(outcome).data != [] ==> Settle(outcome).data == outcome.body.rows
  {
  }

  /** A snapshot of every state variable of the page. */
  datatype DashboardState = DashboardState(
    activeTab: Kind,
    churnData: seq<ChurnTable.ChurnData>,
    complexityData: seq<ComplexityTable.ComplexityData>,
    hotspotsData: seq<HotspotFile>,
    loading: bool,
    error: Option<string>,
    fileFilter: string,
    page: int,
    limit: int,
    churnLoaded: bool,
    complexityLoaded: bool,
    hotspotsLoaded: bool)

  /** The `useState` initial values. */
  const INITIAL := DashboardState(Hotspots, [], [], [], true, None, "", 1, 10, false, false, false)

  /** The page number is a real page and the page size one the select offers. */
  predicate Valid(s: DashboardState)
  {
    s.page >= 1 && s.limit in FileFilterBar.LIMIT_OPTIONS
  }

  function Loaded(s: DashboardState, k: Kind): bool
  {
    match k
    case Churn => s.churnLoaded
    case Complexity => s.complexityLoaded
    case Hotspots => s.hotspotsLoaded
  }

  function Count(s: DashboardState, k: Kind): nat
  {
    match k
    case Churn => |s.churnData|
    case Complexity => |s.complexityData|
    case Hotspots => |s.hotspotsData|
  }

  /** `setXLoaded(false)`, then the synchronous start of `fetchData`. */
  function Started(s: DashboardState, k: Kind): DashboardState
  {
    var t := match k
      case Churn => s.(churnLoaded := false)
      case Complexity => s.(complexityLoaded := false)
      case Hotspots => s.(hotspotsLoaded := false);
    t.(loading := true, error := None)
  }

  /** The end of `fetchData`: `loading` cleared, and `error` set on a failure. */
  function Fetched(s: DashboardState, failure: Option<string>): DashboardState
  {
    s.(loading := false, error := if failure.Some? then failure else s.error)
  }

  /** The continuations of `loadChurnData`, `loadComplexityData` and `loadHotspotsData`. */
  function FinishedChurn(s: DashboardState, r: Settled<ChurnTable.ChurnData>): DashboardState
  {
    Fetched(s, r.failure).(churnData := r.data, churnLoaded := true)
  }

  function FinishedComplexity(s: DashboardState, r: Settled<ComplexityTable.ComplexityData>): DashboardState
  {
    Fetched(s, r.failure).(complexityData := r.data, complexityLoaded := true)
  }

  function FinishedHotspots(s: DashboardState, r: Settled<HotspotFile>): DashboardState
  {
    Fetched(s, r.failure).(hotspotsData := r.data, hotspotsLoaded := true)
  }

  /** Starting a load touches only its own kind's flag, and the shared `loading` and `error`. */
  lemma StartedMeans(s: DashboardState, k: Kind)
    ensures var t := Started(s, k);
      t.loading && t.error == None && !Loaded(t, k)
      && (forall j :: j != k ==> Loaded(t, j) == Loaded(s, j))
      && (forall j :: Count(t, j) == Count(s, j))
      && t.churnData == s.churnData && t.complexityData == s.complexityData
      && t.hotspotsData == s.hotspotsData
      && (t.activeTab, t.fileFilter, t.page, t.limit) == (s.activeTab, s.fileFilter, s.page, s.limit)
  {
  }

  /**
   * Finishing a churn load stores what `fetchData` returned and marks churn
   * loaded; the other kinds are untouched, `loading` is cleared, and `error`
   * changes only on a failure.
   */
  lemma FinishedChurnMeans(s: DashboardState, r: Settled<ChurnTable.ChurnData>)
    ensures var t := FinishedChurn(s, r);
      t.churnData == r.data && t.churnLoaded && !t.loading
      && t.complexityData == s.complexityData && t.complexityLoaded == s.complexityLoaded
      && t.hotspotsData == s.hotspotsData && t.hotspotsLoaded == s.hotspotsLoaded
      && (r.failure.None? ==> t.error == s.error)
      && (r.failure.Some? ==> t.error == r.failure)
      && (t.activeTab, t.fileFilter, t.page, t.limit) == (s.activeTab, s.fileFilter, s.page, s.limit)
  {
  }

  /** What the user can do on the page: pick a tab, or use the filter bar. */
  datatype Event = SelectTab(tab: Kind) | Bar(action: FileFilterBar.Action)

  predicate Possible(e: Event)
  {
    e.Bar? && e.action.SelectLimit? ==> e.action.option < |FileFilterBar.LIMIT_OPTIONS|
  }

  /** The state setter the event calls (`setActiveTab`, or the bar's callback). */
  function Apply(s: DashboardState, e: Event): DashboardState
    requires Possible(e)
  {
    match e
    case SelectTab(t) => s.(activeTab := t)
    case Bar(a) =>
      match FileFilterBar.OnAction(s.page, a)
      case None => s
      case Some(FileFilterChange(text)) => s.(fileFilter := text)
      case Some(LimitChange(l)) => s.(limit := l)
      case Some(PageChange(p)) => s.(page := p)
  }

  /** The dependency list of the reload effect. */
  function Deps(s: DashboardState): (Kind, int, int, string)
  {
    (s.activeTab, s.page, s.limit, s.fileFilter)
  }

  /** Events keep the page and the page size valid. */
  lemma ApplyKeepsValid(s: DashboardState, e: Event)
    requires Valid(s) && Possible(e)
    ensures Valid(Apply(s, e))
  {
    if e.Bar? {
      match e.action
      case SelectLimit(option) => FileFilterBar.LimitIsAnOption(s.page, option);
      case ClickPrevious => FileFilterBar.PreviousDisabledMeans(s.page);
      case _ =>
    }
  }

  /**
   * Choosing a page size changes only the limit: the page stays where it
   * was, and a reload follows exactly when the size differs from the current one.
   */
  lemma LimitChangeKeepsPage(s: DashboardState, option: nat)
    requires option < |FileFilterBar.LIMIT_OPTIONS|
    ensures var t := Apply(s, Bar(FileFilterBar.SelectLimit(option)));
      t == s.(limit := FileFilterBar.LIMIT_OPTIONS[option])
      && t.page == s.page
      && (Deps(t) != Deps(s) <==> s.limit != FileFilterBar.LIMIT_OPTIONS[option])
  {
    FileFilterBar.LimitIsAnOption(s.page, option);
  }

  /** What `renderContent` shows. */
  datatype View =
    | Spinner
    | ErrorBox(message: string)
    | Blank
    | NoData(kind: Kind)
    | ChurnView(churnRows: seq<ChurnTable.ChurnRow>)
    | ComplexityView(complexityRows: seq<ComplexityTable.ComplexityRow>)
    | HotspotsView(hotspotRows: seq<HotspotsTable.HotspotRow>)

  function Render(s: DashboardState): View
  {
    if s.loading then Spinner
    else if s.error.Some? && s.error.value != "" then ErrorBox(s.error.value)
    else match s.activeTab
      case Hotspots =>
        if !s.hotspotsLoaded then Blank
        else if |s.hotspotsData| > 0 then HotspotsView(HotspotsTable.Rows(s.hotspotsData))
        else NoData(Hotspots)
      case Churn =>
        if !s.churnLoaded then Blank
        else if |s.churnData| > 0 then ChurnView(ChurnTable.Rows(s.churnData))
        else NoData(Churn)
      case Complexity =>
        if !s.complexityLoaded then Blank
        else if |s.complexityData| > 0 then ComplexityView(ComplexityTable.Rows(s.complexityData))
        else NoData(Complexity)
  }

  /** The view shows a table of the active tab's kind. */
  predicate IsTableOf(v: View, k: Kind)
  {
    match k
    case Churn => v.ChurnView?
    case Complexity => v.ComplexityView?
    case Hotspots => v.HotspotsView?
  }

  /**
   * The precedence of `renderContent`: the spinner while loading, else a
   * non-empty error, else nothing until the active kind is loaded, else the
   * "no data" panel for an empty list, else that kind's table.
   */
  lemma RenderPrecedence(s: DashboardState)
    ensures Render(s) == Spinner <==> s.loading
    ensures Render(s).ErrorBox? <==> !s.loading && s.error.Some? && s.error.value != ""
    ensures var quiet := !s.loading && (s.error.None? || s.error.value == "");
      (Render(s) == Blank <==> quiet && !Loaded(s, s.activeTab))
      && (Render(s).NoData? <==> quiet && Loaded(s, s.activeTab) && Count(s, s.activeTab) == 0)
      && (IsTableOf(Render(s), s.activeTab) <==> quiet && Loaded(s, s.activeTab) && Count(s, s.activeTab) > 0)
    ensures Render(s).NoData? ==> Render(s).kind == s.activeTab
    ensures forall k :: k != s.activeTab ==> !IsTableOf(Render(s), k)
  {
  }

  /** The first render shows the spinner, and the initial state is valid. */
  lemma InitialState()
    ensures Render(INITIAL) == Spinner && Valid(INITIAL)
    ensures forall k :: !Loaded(INITIAL, k) && Count(INITIAL, k) == 0
  {
  }

  /**
   * No generation check: with two churn loads in flight, whichever finishes
   * last decides the churn data, even when it answers the older request.
   */
  lemma LastCompletionWins(s: DashboardState, first: Settled<ChurnTable.ChurnData>,
                           last: Settled<ChurnTable.ChurnData>)
    ensures var t := FinishedChurn(FinishedChurn(Started(Started(s, Churn), Churn), first), last);
      t.churnData == last.data && t.churnLoaded && !t.loading
  {
  }

  /**
   * `loading` is shared: when the user leaves the churn tab for the complexity
   * tab and the churn load finishes first, the spinner goes away although the
   * complexity load is still pending, and the page shows nothing.
   */
  lemma SharedLoadingFlag(s: DashboardState, churn: Settled<ChurnTable.ChurnData>)
    requires s.activeTab == Complexity && churn.failure.None?
    ensures var t := FinishedChurn(Started(Started(s, Churn), Complexity), churn);
      !t.loading && !t.complexityLoaded && Render(t) == Blank
  {
  }

  class Dashboard {
    var activeTab: Kind
    var churnData: seq<ChurnTable.ChurnData>
    var complexityData: seq<ComplexityTable.ComplexityData>
    var hotspotsData: seq<HotspotFile>
    var loading: bool
    var error: Option<string>
    var fileFilter: string
    var page: int
    var limit: int
    var churnLoaded: bool
    var complexityLoaded: bool
    var hotspotsLoaded: bool

    function State(): DashboardState
      reads this
    {
      DashboardState(activeTab, churnData, complexityData, hotspotsData, loading, error,
                     fileFilter, page, limit, churnLoaded, complexityLoaded, hotspotsLoaded)
    }

    constructor()
      ensures State() == INITIAL
    {
      activeTab := Hotspots;
      churnData := [];
      complexityData := [];
      hotspotsData := [];
      loading := true;
      error := None;
      fileFilter := "";
      page := 1;
      limit := 10;
      churnLoaded := false;
      complexityLoaded := false;
      hotspotsLoaded := false;
    }

    /** `setXLoaded(false)` and `fetchData` up to its `await`: returns the request sent. */
    method StartLoad(k: Kind) returns (request: Request)
      modifies this
      ensures State() == Started(old(State()), k)
      ensures request == RequestFor(k, page, limit, fileFilter)
    {
      match k {
        case Churn => churnLoaded := false;
        case Complexity => complexityLoaded := false;
        case Hotspots => hotspotsLoaded := false;
      }
      loading := true;
      error := None;
      var query := [("page", IntToString(page)), ("limit", IntToString(limit))];
      if fileFilter != "" {
        query := query + [("ext", fileFilter)];
      }
      if k == Hotspots {
        query := query + HOTSPOT_PARAMS;
      }
      request := Request(Endpoint(k), query);
    }

    /** The rest of `fetchData`, from the response (or the thrown error) to its return value. */
    method CompleteFetch<T>(outcome: FetchOutcome<T>) returns (data: seq<T>)
      modifies this
      ensures data == Settle(outcome).data
      ensures State() == Fetched(old(State()), Settle(outcome).failure)
    {
      var failure: Option<string> := None;
      data := [];
      match outcome {
        case NetworkError(message) =>
          failure := Some(message);
        case Response(status, body) =>
          if status == 204 {
            loading := false;
            return;
          }
          if !IsOk(status) {
            match body {
              case NotJson(parseError) => failure := Some(parseError);
              case ErrorJson(detail) =>
                failure := Some(if detail.Some? && detail.value != "" then detail.value else FAILED_TO_FETCH);
              case Json(_) => failure := Some(FAILED_TO_FETCH);
            }
          } else {
            match body {
              case Json(rows) => data := rows;
              case ErrorJson(_) =>
              case NotJson(parseError) => failure := Some(parseError);
            }
          }
      }
      if failure.Some? {
        error := failure;
      }
      loading := false;
    }

    method FinishChurn(outcome: FetchOutcome<ChurnTable.ChurnData>)
      modifies this
      ensures State() == FinishedChurn(old(State()), Settle(outcome))
    {
      var data := CompleteFetch(outcome);
      churnData := data;
      churnLoaded := true;
    }

    method FinishComplexity(outcome: FetchOutcome<ComplexityTable.ComplexityData>)
      modifies this
      ensures State() == FinishedComplexity(old(State()), Settle(outcome))
    {
      var data := CompleteFetch(outcome);
      complexityData := data;
      complexityLoaded := true;
    }

    method FinishHotspots(outcome: FetchOutcome<HotspotFile>)
      modifies this
      ensures State() == FinishedHotspots(old(State()), Settle(outcome))
    {
      var data := CompleteFetch(outcome);
      hotspotsData := data;
      hotspotsLoaded := true;
    }

    /** The effect's first run, after the first render: loads the active tab's kind. */
    method Mount() returns (request: Request)
      modifies this
      ensures State() == Started(old(State()), old(activeTab))
      ensures request == RequestFor(activeTab, page, limit, fileFilter)
    {
      request := StartLoad(activeTab);
    }

    /** The state setter an event calls. */
    method Set(e: Event)
      requires Possible(e)
      modifies this
      ensures State() == Apply(old(State()), e)
    {
      match e {
        case SelectTab(t) => activeTab := t;
        case Bar(a) =>
          match OnAction(page, a) {
            case None =>
            case Some(FileFilterChange(text)) => fileFilter := text;
            case Some(LimitChange(l)) => limit := l;
            case Some(PageChange(p)) => page := p;
          }
      }
    }

    /**
     * An event calls its state setter; when that changes one of the effect's
     * dependencies, the effect reloads the active tab's kind, and only that kind.
     */
    method Handle(e: Event) returns (request: Option<Request>)
      requires Possible(e)
      modifies this
      ensures var s := Apply(old(State()), e);
        if Deps(s) != Deps(old(State())) then
          State() == Started(s, s.activeTab)
          && request == Some(RequestFor(s.activeTab, s.page, s.limit, s.fileFilter))
        else
          State() == s && request == None
    {
      var before := (activeTab, page, limit, fileFilter);
      Set(e);
      if (activeTab, page, limit, fileFilter) != before {
        var r := StartLoad(activeTab);
        request := Some(r);
      } else {
        request := None;
      }
    }
  }
}
