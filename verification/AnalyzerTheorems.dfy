/** What the user can ever see in the analyzer window. */
module AnalyzerTheorems {
  import opened AnalyzerInvariant
  import opened AnalyzerProtocol
  import opened AnalyzerRuns
  import opened BuiltVolume
  import opened DiskModel
  import opened FilteredWeights
  import opened ForestTheory
  import opened RollUpAnswers
  import opened Saturating
  import opened SizeFilter
  import opened SubtreeSearch
  import opened Walks
  import opened Wrappers

  // ---- The answers for exactly the current inputs ------------------------------------------

  /** The roll-up that the current filter calls for. */
  function RollUpNow(e: Engine, ui: Ui): Option<FilteredResult>
    requires ui.model.Some?
  {
    if ui.filter.IsActive() then Some(e.weights(ui.model.value.value, CurrentRoot(ui), ui.filter, ui.metric)) else None
  }

  function RowsNow(e: Engine, ui: Ui): seq<nat>
    requires ui.model.Some?
  {
    e.largest(ui.model.value.value, CurrentRoot(ui), ui.sort, ui.metric, RollUpNow(e, ui))
  }

  function HitsNow(e: Engine, ui: Ui): seq<nat>
    requires ui.model.Some?
  {
    if e.trim(ui.searchText) == "" then []
    else
      var rollUp := RollUpNow(e, ui);
      e.search(ui.model.value.value, CurrentRoot(ui), e.trim(ui.searchText), if rollUp.None? then None else Some(rollUp.value.matches))
  }

  /** Visible lists are empty or the answer for the inputs on screen. */
  ghost predicate ShowsOnlyCurrent(e: Engine, ui: Ui) {
    if ui.model.None? then ui.rows == [] && ui.hits == [] && ui.weights.None?
    else
      && (ui.rows == [] || ui.rows == RowsNow(e, ui))
      && (ui.hits == [] || ui.hits == HitsNow(e, ui))
      && (ui.weights.Some? ==> RollUpNow(e, ui) == Some(ui.weights.value.result))
  }

  /** No job is running and no edit waits for its debounce. */
  predicate Quiet(ui: Ui) {
    !ui.weightsPending && !ui.largestPending && !ui.searchPending && ui.filterPendingAt.None? && ui.searchPendingAt.None?
  }

  /** Everything the inputs call for is on screen. */
  ghost predicate ShowsEverything(e: Engine, ui: Ui) {
    ui.model.Some? ==>
      && ui.rows == RowsNow(e, ui) && ui.hits == HitsNow(e, ui)
      && RollUpNow(e, ui) == ResultOf(ui.weights)
  }

  // ---- After scheduling ----------------------------------------------------------------------

  lemma WeightsAreNow(e: Engine, ui: Ui)
    requires UiInv(e, ui) && ui.model.Some? && ui.context == Here(ui) && Based(ui)
    ensures RollUpNow(e, ui) == ResultOf(ui.weights)
  {
  }

  lemma InvShowsOnlyCurrent(e: Engine, ui: Ui)
    requires UiInv(e, ui) && (ui.model.Some? ==> ui.context == Here(ui))
    requires ui.model.Some? && ui.weights.Some? ==> ui.weights.value.root == CurrentRoot(ui) && ui.weights.value.metric == ui.metric
    ensures ShowsOnlyCurrent(e, ui)
  {
    if ui.model.Some? && Based(ui) {
      WeightsAreNow(e, ui);
    }
  }

  lemma SyncEntersContext(e: Engine, ui: Ui, now: nat)
    requires ui.model.Some?
    ensures Sync(e, ui, now).ui.context == Here(Sync(e, ui, now).ui)
  {
    EnteredContext(ui);
    WeightsStayInContext(DropStaleWeights(EnterContext(ui)), now);
    ListsStayInContext(e, ScheduleWeights(DropStaleWeights(EnterContext(ui)), now).ui, now);
  }

  lemma EnteredContext(ui: Ui)
    requires ui.model.Some?
    ensures DropStaleWeights(EnterContext(ui)).context == Here(DropStaleWeights(EnterContext(ui)))
  {
    assert EnterContext(ui).context == Here(ui);
    DroppingKeepsContext(EnterContext(ui));
  }

  lemma DroppingKeepsContext(ui: Ui)
    requires ui.model.Some?
    ensures DropStaleWeights(ui).context == ui.context
  {
  }

  lemma WeightsStayInContext(ui: Ui, now: nat)
    requires ui.model.Some? && ui.context == Here(ui)
    ensures ScheduleWeights(ui, now).ui.context == Here(ScheduleWeights(ui, now).ui)
  {
  }

  lemma ListsStayInContext(e: Engine, ui: Ui, now: nat)
    requires ui.model.Some? && ui.context == Here(ui)
    ensures ScheduleLists(e, ui, now).ui.context == Here(ScheduleLists(e, ui, now).ui)
  {
    ListsKeepBasis(e, ui, now);
  }

  ghost predicate SameBasis(ui: Ui, ui': Ui) {
    && ui'.context == ui.context && ui'.weights == ui.weights && ui'.weightsPending == ui.weightsPending
    && ui'.filterPendingAt == ui.filterPendingAt && ui'.scheduled == ui.scheduled && ui'.searchText == ui.searchText
  }

  lemma LargestKeepsBasis(ui: Ui)
    requires ui.model.Some?
    ensures SameBasis(ui, ScheduleLargest(ui).ui)
  {
  }

  lemma SearchKeepsBasis(e: Engine, ui: Ui, now: nat)
    requires ui.model.Some?
    ensures SameBasis(ui, ScheduleSearch(e, ui, now).ui) && ScheduleSearch(e, ui, now).ui.largestSig == ui.largestSig
  {
  }

  lemma ListsKeepBasis(e: Engine, ui: Ui, now: nat)
    requires ui.model.Some?
    ensures SameBasis(ui, ScheduleLists(e, ui, now).ui)
  {
    LargestKeepsBasis(ui);
    SearchKeepsBasis(e, ScheduleLargest(ui).ui, now);
  }

  lemma AttachedAreOfContext(e: Engine, ui: Ui)
    requires UiInv(e, ui) && ui.model.Some? && ui.context == Here(ui) && ui.weights.Some?
    ensures ui.weights.value.root == CurrentRoot(ui) && ui.weights.value.metric == ui.metric
  {
  }

  lemma SyncShowsOnlyCurrent(e: Engine, before: Ui, ui: Ui, now: nat)
    requires UiInv(e, before) && EditOf(before, ui)
    ensures ShowsOnlyCurrent(e, Sync(e, ui, now).ui)
  {
    var u := Sync(e, ui, now).ui;
    SyncKeeps(e, before, ui, now);
    if ui.model.Some? {
      SyncEntersContext(e, ui, now);
      if u.weights.Some? {
        AttachedAreOfContext(e, u);
      }
    }
    InvShowsOnlyCurrent(e, u);
  }

  /** Scheduling leaves no gap: what is not attached is running or waits for its debounce. */
  lemma ListsLeaveNoGap(e: Engine, ui: Ui, now: nat)
    requires WeightsSettled(e, ui) && Quiet(ScheduleLists(e, ui, now).ui)
    ensures WeightsValid(ui)
    ensures ScheduleLists(e, ui, now).ui.largestSig.Some?
    ensures e.trim(ui.searchText) != "" ==> ScheduleLists(e, ui, now).ui.searchSig.Some?
  {
    ListsKeepBasis(e, ui, now);
    if ui.filter.IsActive() {
      WeightsAreValid(e, ui);
    }
    SearchKeepsBasis(e, ScheduleLargest(ui).ui, now);
    LargestKeepsBasis(ui);
  }

  lemma NothingMissing(e: Engine, u: Ui)
    requires UiInv(e, u) && Quiet(u) && u.model.Some? && u.context == Here(u) && u.largestSig.Some?
    requires e.trim(u.searchText) != "" ==> u.searchSig.Some?
    ensures ShowsEverything(e, u)
  {
    assert LargestLive(u);
    WeightsAreNow(e, u);
    assert u.rows == RowsNow(e, u);
    assert u.hits == HitsNow(e, u);
  }

  lemma SyncLeavesNoGap(e: Engine, before: Ui, ui: Ui, now: nat)
    requires UiInv(e, before) && EditOf(before, ui) && ui.model.Some? && Quiet(Sync(e, ui, now).ui)
    ensures Sync(e, ui, now).ui.largestSig.Some?
    ensures e.trim(Sync(e, ui, now).ui.searchText) != "" ==> Sync(e, ui, now).ui.searchSig.Some?
  {
    EnterSettles(e, before, ui);
    var entered := DropStaleWeights(EnterContext(ui));
    WeightsSettle(e, before, entered, now);
    var w := ScheduleWeights(entered, now);
    ListsKeepBasis(e, w.ui, now);
    ListsLeaveNoGap(e, w.ui, now);
  }

  lemma SyncShowsEverything(e: Engine, before: Ui, ui: Ui, now: nat)
    requires UiInv(e, before) && EditOf(before, ui) && Quiet(Sync(e, ui, now).ui)
    ensures ShowsEverything(e, Sync(e, ui, now).ui)
  {
    SyncKeeps(e, before, ui, now);
    if ui.model.Some? {
      SyncEntersContext(e, ui, now);
      SyncLeavesNoGap(e, before, ui, now);
      NothingMissing(e, Sync(e, ui, now).ui);
    }
  }

  // ---- The theorems over all runs ----------------------------------------------------------------

  predicate Schedules(event: Event) {
    event.Frame? || event.MetricSelected? || event.SortChanged?
  }

  /** The edit that comes with an event, before its scheduling. */
  function Edited(e: Engine, ui: Ui, event: Event): Ui {
    match event
    case MetricSelected(metric, sort, _) => ui.(metric := metric, sort := sort)
    case SortChanged(sort, resort, _) => if resort then Sorted(e, ui.(sort := sort)) else ui.(sort := sort)
    case _ => ui
  }

  lemma SyncShows(e: Engine, before: Ui, edited: Ui, now: nat)
    requires UiInv(e, before) && EditOf(before, edited)
    ensures ShowsOnlyCurrent(e, Sync(e, edited, now).ui)
    ensures Quiet(Sync(e, edited, now).ui) ==> ShowsEverything(e, Sync(e, edited, now).ui)
  {
    SyncShowsOnlyCurrent(e, before, edited, now);
    if Quiet(Sync(e, edited, now).ui) {
      SyncShowsEverything(e, before, edited, now);
    }
  }

  lemma EditedIsEdit(e: Engine, ui: Ui, event: Event)
    requires UiInv(e, ui) && e.Lawful() && Schedules(event)
    ensures EditOf(ui, Edited(e, ui, event))
  {
    if event.SortChanged? {
      SortKeeps(e, ui, event.sort, event.resort);
    }
  }

  lemma StepIsSync(e: Engine, s: System, event: Event)
    requires Schedules(event)
    ensures Step(e, s, event).ui == Sync(e, Edited(e, s.ui, event), event.now).ui
  {
  }

  lemma SchedulingStep(e: Engine, s: System, event: Event)
    requires UiInv(e, s.ui) && e.Lawful() && Schedules(event)
    ensures ShowsOnlyCurrent(e, Step(e, s, event).ui)
    ensures Quiet(Step(e, s, event).ui) ==> ShowsEverything(e, Step(e, s, event).ui)
  {
    EditedIsEdit(e, s.ui, event);
    SyncShows(e, s.ui, Edited(e, s.ui, event), event.now);
    StepIsSync(e, s, event);
  }

  /**
    Safety over all runs. However edits, navigation, arrivals of models, deliveries and the worker
    interleave: after each scheduling the visible lists are empty or the answer for exactly the
    inputs on screen, and once nothing runs or waits they are that answer.
   */
  lemma EveryRunShowsOnlyCurrent(e: Engine, events: seq<Event>)
    requires e.Lawful() && events != [] && Schedules(events[|events| - 1])
    ensures ShowsOnlyCurrent(e, Run(e, events).ui)
    ensures Quiet(Run(e, events).ui) ==> ShowsEverything(e, Run(e, events).ui)
  {
    var earlier := events[..|events| - 1];
    RunKeeps(e, earlier);
    SchedulingStep(e, Run(e, earlier), events[|events| - 1]);
  }

  /** A pending flag never stays up without a job in flight that will answer it. */
  lemma EveryFlagIsAnswered(e: Engine, events: seq<Event>, kind: Kind)
    requires e.Lawful() && Pending(Run(e, events).ui, kind)
    ensures Ticket(kind, JobOf(Run(e, events).ui, kind)) in Tickets(Run(e, events))
  {
    RunKeeps(e, events);
  }

  // ---- With the queries of the tree -------------------------------------------------------------------

  /** An engine that answers with the roll-ups of the tree. */
  ghost predicate RollsUp(e: Engine) {
    forall m, root, filter, metric {:trigger e.weights(m, root, filter, metric)} ::
      IsTree(m) && Rooted(Links(m), root) ==> e.weights(m, root, filter, metric) == FilterAnswer(m, root, filter, metric)
  }

  /** In a quiet window with an active filter every node shows the clamped sum of the matching leaves below it. */
  lemma QuietWindowShowsRollUp(e: Engine, events: seq<Event>, ui: Ui, m: DiskAnalysisModel, root: nat, x: nat)
    requires e.Lawful() && RollsUp(e) && events != [] && Schedules(events[|events| - 1])
    requires ui == Run(e, events).ui && ui.model.Some? && m == ui.model.value.value && root == CurrentRoot(ui)
    requires ui.filter.IsActive() && Quiet(ui) && IsTree(m) && Rooted(Links(m), root) && Reached(Links(m), root, x)
    ensures ui.weights.Some? && x < |ui.weights.value.result.weights| && x < |ui.weights.value.result.matches|
    ensures ui.weights.value.result.weights[x] == Sat(Weight(TreesOf(m), x, LeafValues(m.nodes, ui.filter, ui.metric)))
    ensures ui.weights.value.result.matches[x] <==> Weight(TreesOf(m), x, Hits(m.nodes, ui.filter)) > 0
  {
    EveryRunShowsOnlyCurrent(e, events);
    assert RollUpNow(e, ui) == ResultOf(ui.weights);
    FilterAnswerAt(m, root, ui.filter, ui.metric, x);
  }

  const SEARCH_LIMIT: nat := 200

  /** An engine that answers with the breadth-first search of the tree. */
  ghost predicate SearchesTrees(e: Engine, lower: string -> string) {
    forall m, root, query, matches {:trigger e.search(m, root, query, matches)} ::
      IsTree(m) && Rooted(Links(m), root) ==>
        e.search(m, root, query, matches) == FirstHits(m, root, query, matches, SEARCH_LIMIT, e.trim, lower)
  }

  /** `x` is below `root`, its name or path contains the needle, and an active filter lets something in it through. */
  ghost predicate Qualifies(m: DiskAnalysisModel, root: nat, filter: DiskAnalysisFilter, needle: Needle, x: nat)
    requires IsTree(m) && Rooted(Links(m), root)
  {
    && x != root && Reached(Links(m), root, x) && TextMatches(m, x, needle)
    && (filter.IsActive() ==> Weight(TreesOf(m), x, Hits(m.nodes, filter)) > 0)
  }

  /** Of reached nodes, the mask of a roll-up lets exactly those through that contain a passing leaf. */
  lemma MaskOfRollUp(m: DiskAnalysisModel, root: nat, filter: DiskAnalysisFilter, metric: SizeMetric, x: nat)
    requires IsTree(m) && Rooted(Links(m), root) && Reached(Links(m), root, x)
    ensures Masked(Some(FilterAnswer(m, root, filter, metric).matches), x) <==> Weight(TreesOf(m), x, Hits(m.nodes, filter)) > 0
  {
    FilterAnswerAt(m, root, filter, metric, x);
  }

  /** The hits of a quiet window are the first nodes in breadth-first order that qualify, up to the limit. */
  lemma QuietWindowShowsHits(e: Engine, lower: string -> string, events: seq<Event>, ui: Ui, m: DiskAnalysisModel, root: nat, x: nat)
    requires e.Lawful() && RollsUp(e) && SearchesTrees(e, lower) && events != [] && Schedules(events[|events| - 1])
    requires ui == Run(e, events).ui && ui.model.Some? && m == ui.model.value.value && root == CurrentRoot(ui)
    requires Quiet(ui) && IsTree(m) && Rooted(Links(m), root)
    requires e.trim(ui.searchText) != "" && lower(e.trim(e.trim(ui.searchText))) != ""
    ensures |ui.hits| <= SEARCH_LIMIT && Distinct(ui.hits)
    ensures ui.hits <= AllHits(m, root, if ui.filter.IsActive() then Some(FilterAnswer(m, root, ui.filter, ui.metric).matches) else None,
                               Needle(lower(e.trim(e.trim(ui.searchText))), lower))
    ensures x in ui.hits ==> Qualifies(m, root, ui.filter, Needle(lower(e.trim(e.trim(ui.searchText))), lower), x)
    ensures |ui.hits| < SEARCH_LIMIT && Qualifies(m, root, ui.filter, Needle(lower(e.trim(e.trim(ui.searchText))), lower), x) ==> x in ui.hits
  {
    EveryRunShowsOnlyCurrent(e, events);
    var matches := if ui.filter.IsActive() then Some(FilterAnswer(m, root, ui.filter, ui.metric).matches) else None;
    assert ui.hits == e.search(m, root, e.trim(ui.searchText), matches);
    FirstHitsAreHits(m, root, e.trim(ui.searchText), matches, SEARCH_LIMIT, e.trim, lower, x);
    if ui.filter.IsActive() && Reached(Links(m), root, x) {
      MaskOfRollUp(m, root, ui.filter, ui.metric, x);
    }
  }
}
