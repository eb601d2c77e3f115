/** The paging and detail state of the practice history (`PracticeHistory.jsx`) and its focus
    labels. The fetchers themselves are HTTP calls; their results are inputs here. */
module PracticeHistory {
  import opened Wrappers
  import Disclosure
  import PS = PracticeService

  /** `pageSize`, fixed at 10. */
  const PageSize := 10

  /** A stored practice plan, reduced to its id. */
  datatype Plan = Plan(planId: string)

  datatype HistoryView = HistoryView(
    history: seq<Plan>,
    currentPage: int,
    hasMorePages: bool,
    expandedPlan: Option<string>,
    error: Option<string>)

  /** The page index never drops below zero. */
  predicate Valid(v: HistoryView) {
    v.currentPage >= 0
  }

  const InitialView := HistoryView([], 0, false, None, None)

  /** What a history fetch produced. */
  datatype FetchOutcome = Loaded(plans: seq<Plan>) | Failed(message: Option<string>)

  /** The end of `fetchPracticeHistory`: a loaded page replaces the history, and there is a
      next page exactly when this one came back full; a failure only records the error. */
  function PageFetched(v: HistoryView, outcome: FetchOutcome): (w: HistoryView)
    ensures w.currentPage == v.currentPage && w.expandedPlan == v.expandedPlan
    ensures outcome.Loaded? ==> w.history == outcome.plans && w.error.None?
    ensures outcome.Loaded? ==> (w.hasMorePages <==> |outcome.plans| == PageSize)
    ensures outcome.Failed? ==> w.history == v.history && w.hasMorePages == v.hasMorePages && w.error.Some?
  {
    match outcome
    case Loaded(plans) => v.(history := plans, hasMorePages := |plans| == PageSize, error := None)
    case Failed(message) => v.(error := Some(if message.Some? && message.value != [] then message.value else "Error loading practice history"))
  }

  /** `handlePreviousPage`: on a later page, step back one page and collapse the open plan;
      on the first page, do nothing. */
  function PreviousPage(v: HistoryView): (w: HistoryView)
    ensures Valid(v) ==> Valid(w)
    ensures v.currentPage > 0 ==> w.currentPage == v.currentPage - 1 && w.expandedPlan.None?
    ensures v.currentPage <= 0 ==> w == v
    ensures w.history == v.history && w.hasMorePages == v.hasMorePages
  {
    if v.currentPage > 0 then v.(currentPage := v.currentPage - 1, expandedPlan := None) else v
  }

  /** `handleNextPage`: when another page exists, step forward one page and collapse the open
      plan; otherwise do nothing. */
  function NextPage(v: HistoryView): (w: HistoryView)
    ensures Valid(v) ==> Valid(w)
    ensures v.hasMorePages ==> w.currentPage == v.currentPage + 1 && w.expandedPlan.None?
    ensures !v.hasMorePages ==> w == v
    ensures w.history == v.history && w.hasMorePages == v.hasMorePages
  {
    if v.hasMorePages then v.(currentPage := v.currentPage + 1, expandedPlan := None) else v
  }

  /** `handleRefresh`: back to the first page. */
  function Refresh(v: HistoryView): (w: HistoryView)
    ensures Valid(w) && w.currentPage == 0
    ensures w.history == v.history && w.expandedPlan == v.expandedPlan
  {
    v.(currentPage := 0)
  }

  /** Stepping back `n` times. */
  function Back(v: HistoryView, n: nat): (w: HistoryView)
    decreases n
  {
    if n == 0 then v else Back(PreviousPage(v), n - 1)
  }

  /** Stepping back `n` pages from a later page lands `n` pages earlier with nothing expanded. */
  lemma {:induction false} BackSteps(v: HistoryView, n: nat)
    requires 0 < n <= v.currentPage
    ensures Back(v, n) == v.(currentPage := v.currentPage - n, expandedPlan := None)
    decreases n
  {
    if n > 1 {
      BackSteps(PreviousPage(v), n - 1);
    }
  }

  /** Refresh lands where stepping back page by page ends, except that it leaves the
      expanded plan open; and there is nothing before the page it lands on. */
  lemma RefreshIsFirstPage(v: HistoryView)
    requires Valid(v)
    ensures v.currentPage > 0 ==> Back(v, v.currentPage) == Refresh(v).(expandedPlan := None)
    ensures PreviousPage(Refresh(v)) == Refresh(v)
  {
    if v.currentPage > 0 {
      BackSteps(v, v.currentPage);
    }
  }

  /** `togglePlanDetails`. */
  function TogglePlanDetails(v: HistoryView, planId: string): (w: HistoryView)
    ensures v.expandedPlan == Some(planId) ==> w.expandedPlan.None?
    ensures v.expandedPlan != Some(planId) ==> w.expandedPlan == Some(planId)
    ensures w.(expandedPlan := v.expandedPlan) == v
  {
    v.(expandedPlan := Disclosure.Toggle(v.expandedPlan, planId))
  }

  /** Going forward and back returns to the same page, with nothing expanded. */
  lemma NextThenPrevious(v: HistoryView)
    requires Valid(v) && v.hasMorePages
    ensures PreviousPage(NextPage(v)) == v.(expandedPlan := None)
  {
  }

  /** A full page never leads past the last plan: after a short page, next does nothing. */
  lemma ShortPageEndsPaging(v: HistoryView, plans: seq<Plan>)
    requires |plans| < PageSize
    ensures NextPage(PageFetched(v, Loaded(plans))) == PageFetched(v, Loaded(plans))
  {
  }

  /** The query string of a history request: `limit`, and a page index when one is sent. */
  datatype Query = Query(limit: int, page: Option<int>)

  /** The request the component makes for a page. The component passes the page number and
      the page size, but both fetchers take a single `limit` argument, so the page number is
      sent as `limit` and neither a page nor the page size reaches the server. */
  function HistoryQuery(currentPage: int): (q: Query)
    ensures q.page.None?
  {
    Query(currentPage, None)
  }

  /** The request the paging evidently intends: a page of `PageSize` plans at `currentPage`. */
  function PagedHistoryQuery(currentPage: int): (q: Query)
    ensures q.page == Some(currentPage) && q.limit == PageSize
  {
    Query(PageSize, Some(currentPage))
  }

  /** The plans a history endpoint answers with, newest first, given all stored plans: at
      most `limit` of them, starting at `page * limit` when a page is sent. The server is not
      part of this model; this is the meaning of `limit` the fetchers document. */
  function Served(q: Query, all: seq<Plan>): (r: seq<Plan>)
    ensures |r| <= (if q.limit < 0 then 0 else q.limit)
  {
    var size := if q.limit < 0 then 0 else q.limit;
    var start := if q.page.Some? && q.page.value > 0 then q.page.value * size else 0;
    var lo := if start < |all| then start else |all|;
    var hi := if start + size < |all| then start + size else |all|;
    all[lo..hi]
  }

  /** As written, the first page asks for no plans at all: the history shows nothing and
      offers no next page, however many plans are stored. */
  lemma AsWrittenFirstPageEmpty(v: HistoryView, all: seq<Plan>)
    requires v.currentPage == 0
    ensures var w := PageFetched(v, Loaded(Served(HistoryQuery(v.currentPage), all)));
      w.history == [] && NextPage(w) == w
  {
  }

  /** As written, a later page repeats every plan of the page before it. */
  lemma AsWrittenPagesOverlap(p: nat, all: seq<Plan>)
    requires p > 0
    ensures Served(HistoryQuery(p - 1), all) <= Served(HistoryQuery(p), all)
  {
  }

  /** The paged requests for pages 0 to `n - 1`, one after the other. */
  function PagesUpTo(all: seq<Plan>, n: nat): (r: seq<Plan>)
    decreases n
  {
    if n == 0 then [] else PagesUpTo(all, n - 1) + Served(PagedHistoryQuery(n - 1), all)
  }

  /** With paged requests, reading pages 0 to `n - 1` shows the first `n * PageSize` plans
      exactly once and in order. */
  lemma {:induction false} PagedHistoryTiles(all: seq<Plan>, n: nat)
    ensures PagesUpTo(all, n) == all[..if n * PageSize < |all| then n * PageSize else |all|]
    decreases n
  {
    if n > 0 {
      PagedHistoryTiles(all, n - 1);
      var lo := if (n - 1) * PageSize < |all| then (n - 1) * PageSize else |all|;
      var hi := if n * PageSize < |all| then n * PageSize else |all|;
      assert Served(PagedHistoryQuery(n - 1), all) == all[lo..hi];
      assert all[..lo] + all[lo..hi] == all[..hi];
    }
  }

  /** With paged requests, the first page shows the newest plans, and a next page is offered
      exactly when more than a page of plans might exist. */
  lemma PagedFirstPageShowsPlans(v: HistoryView, all: seq<Plan>)
    requires v.currentPage == 0
    ensures var w := PageFetched(v, Loaded(Served(PagedHistoryQuery(v.currentPage), all)));
      && (all != [] ==> w.history != [] && w.history[0] == all[0])
      && (w.hasMorePages <==> |all| >= PageSize)
  {
  }

  /** The labels `getFocusDisplayName` knows. */
  const FocusLabels: map<string, string> := map[
    "AIM_TRAINING" := "Aim Training",
    "GAME_SENSE" := "Game Sense",
    "MOVEMENT_MECHANICS" := "Movement",
    "MAP_KNOWLEDGE" := "Map Knowledge",
    "TEAM_COORDINATION" := "Team Coordination",
    "STRATEGY_REVIEW" := "Strategy Review",
    "VOD_ANALYSIS" := "VOD Analysis",
    "COMMUNICATION" := "Communication",
    "POST_PLANT_SCENARIOS" := "Post-Plant Scenarios",
    "SITE_HOLDS" := "Site Holds"
  ]

  /** `getFocusDisplayName`: the label of a known focus key, any other key unchanged. */
  function FocusDisplayName(key: string): (name: string)
    ensures key !in FocusLabels ==> name == key
    ensures key in FocusLabels ==> name != key && name != [] && name !in FocusLabels
  {
    if key in FocusLabels && FocusLabels[key] != [] then FocusLabels[key] else key
  }

  /** The labelled keys are exactly the ten practice focuses of the practice service. */
  lemma LabelsCoverEveryFocus()
    ensures FocusLabels.Keys == set f | f in PS.PracticeFocuses
  {
  }

  /** Different focuses get different labels. */
  lemma FocusLabelsDistinct(a: string, b: string)
    requires a in FocusLabels && b in FocusLabels && a != b
    ensures FocusDisplayName(a) != FocusDisplayName(b)
  {
  }
}
