/** Every query of the analyzer walks a tree from a node where its walk ends, whatever the user clicks on. */
module AnalyzerQueries {
  import opened AnalyzerProtocol
  import opened BuiltVolume
  import opened DiskModel
  import opened ForestTheory
  import opened Paths
  import opened SubtreeSearch
  import opened Wrappers

  /** What the filtered roll-up and the search demand of a model and a start. */
  ghost predicate Walkable(m: DiskAnalysisModel, root: nat) {
    IsTree(m) && Rooted(Links(m), root)
  }

  ghost predicate ScreenWalkable(ui: Ui) {
    ui.model.Some? ==> Walkable(ui.model.value.value, CurrentRoot(ui))
  }

  ghost predicate AllWalkable(requests: seq<QueryRequest>) {
    forall r :: r in requests ==> Walkable(r.model.value, r.root)
  }

  /** The current root and every request in flight can be walked. */
  ghost predicate QueriesEnd(s: System) {
    ScreenWalkable(s.ui) && AllWalkable(s.requests) && (s.worker.Running? ==> Walkable(s.worker.request.model.value, s.worker.request.root))
  }

  /** Models that arrive were built, and navigation ends at a node whose parents lead to the root. */
  ghost predicate Allowed(s: System, event: Event) {
    match event
    case ModelArrives(_, model, _) => IsTree(model.value)
    case Drills(stack) => ScreenWalkable(s.ui.(drill := stack))
    case _ => true
  }

  ghost predicate AllowedRun(e: Engine, events: seq<Event>) {
    events == [] || (AllowedRun(e, events[..|events| - 1]) && Allowed(Run(e, events[..|events| - 1]), events[|events| - 1]))
  }

  // ---- Scheduling asks about the screen ---------------------------------------------------------

  ghost predicate SameScreen(ui: Ui, ui': Ui) {
    ui'.model == ui.model && ui'.drill == ui.drill
  }

  ghost predicate AsksAbout(ui: Ui, requests: seq<QueryRequest>)
    requires ui.model.Some?
  {
    forall r :: r in requests ==> r.model == ui.model.value && r.root == CurrentRoot(ui)
  }

  lemma ListsAskAboutScreen(e: Engine, ui: Ui, now: nat)
    requires ui.model.Some?
    ensures SameScreen(ui, ScheduleLists(e, ui, now).ui) && AsksAbout(ui, ScheduleLists(e, ui, now).sent)
  {
    if !ui.filter.IsActive() || WeightsValid(ui) {
      var l := ScheduleLargest(ui);
      assert AsksAbout(ui, l.sent);
      assert AsksAbout(l.ui, ScheduleSearch(e, l.ui, now).sent);
    }
  }

  lemma WeightsAskAboutScreen(ui: Ui, now: nat)
    requires ui.model.Some?
    ensures AsksAbout(ui, ScheduleWeights(ui, now).sent)
  {
  }

  lemma SyncAsksAboutScreen(e: Engine, ui: Ui, now: nat)
    ensures SameScreen(ui, Sync(e, ui, now).ui)
    ensures ui.model.Some? ==> AsksAbout(ui, Sync(e, ui, now).sent)
    ensures ui.model.None? ==> Sync(e, ui, now).sent == []
  {
    if ui.model.Some? {
      var entered := DropStaleWeights(EnterContext(ui));
      WeightsAskAboutScreen(entered, now);
      ListsAskAboutScreen(e, ScheduleWeights(entered, now).ui, now);
    }
  }

  // ---- Every step ---------------------------------------------------------------------------------

  lemma SyncQueriesEnd(e: Engine, s: System, edited: Ui, now: nat)
    requires QueriesEnd(s) && SameScreen(s.ui, edited)
    ensures QueriesEnd(Queue(s, Sync(e, edited, now)))
  {
    SyncAsksAboutScreen(e, edited, now);
  }

  lemma RootIsWalkable(m: DiskAnalysisModel)
    requires IsTree(m)
    ensures Walkable(m, m.root)
  {
    assert AtDepth(Links(m), m.root, 0);
  }

  lemma ViewQueriesEnd(s: System, ui: Ui)
    requires QueriesEnd(s) && ScreenWalkable(ui)
    ensures QueriesEnd(s.(ui := ui))
  {
  }

  lemma ArrivalQueriesEnd(s: System, requestId: nat, model: Shared, now: nat)
    requires QueriesEnd(s) && IsTree(model.value)
    ensures QueriesEnd(s.(ui := ModelReady(s.ui, requestId, model, now)))
  {
    RootIsWalkable(model.value);
  }

  lemma DeliveryKeepsScreen(e: Engine, ui: Ui, m: QueryMessage)
    ensures SameScreen(ui, Deliver(e, ui, m))
  {
  }

  lemma WorkerQueriesEnd(e: Engine, s: System, event: Event)
    requires QueriesEnd(s) && (event.WorkerTakes? || event.WorkerPolls? || event.WorkerEnds?)
    ensures QueriesEnd(Step(e, s, event))
  {
    if event.WorkerTakes? && s.requests != [] {
      assert s.requests[0] in s.requests;
    }
  }

  lemma EditQueriesEnd(e: Engine, s: System, event: Event)
    requires QueriesEnd(s) && Allowed(s, event)
    requires event.Asks? || event.FetchFails? || event.FilterEdited? || event.SearchEdited? || event.Drills?
    ensures QueriesEnd(Step(e, s, event))
  {
    ViewQueriesEnd(s, Step(e, s, event).ui);
  }

  lemma StepQueriesEnd(e: Engine, s: System, event: Event)
    requires QueriesEnd(s) && Allowed(s, event)
    ensures QueriesEnd(Step(e, s, event))
  {
    match event
    case ModelArrives(requestId, model, now) =>
      ArrivalQueriesEnd(s, requestId, model, now);
    case MetricSelected(metric, sort, now) =>
      SyncQueriesEnd(e, s, s.ui.(metric := metric, sort := sort), now);
    case SortChanged(sort, resort, now) =>
      SyncQueriesEnd(e, s, if resort then Sorted(e, s.ui.(sort := sort)) else s.ui.(sort := sort), now);
    case Frame(now) =>
      SyncQueriesEnd(e, s, s.ui, now);
    case MessageDelivered =>
      if s.messages != [] {
        DeliveryKeepsScreen(e, s.ui, s.messages[0]);
      }
    case WorkerTakes => WorkerQueriesEnd(e, s, event);
    case WorkerPolls => WorkerQueriesEnd(e, s, event);
    case WorkerEnds(_) => WorkerQueriesEnd(e, s, event);
    case _ => EditQueriesEnd(e, s, event);
  }

  /** Over every allowed run the current root and every request in flight meet what the queries demand. */
  lemma {:induction false} EveryQueryEnds(e: Engine, events: seq<Event>)
    requires AllowedRun(e, events)
    ensures QueriesEnd(Run(e, events))
  {
    if events != [] {
      EveryQueryEnds(e, events[..|events| - 1]);
      StepQueriesEnd(e, Run(e, events[..|events| - 1]), events[|events| - 1]);
    }
  }

  // ---- What can be clicked on ------------------------------------------------------------------------

  lemma ReachedIsWalkable(m: DiskAnalysisModel, root: nat, x: nat)
    requires Walkable(m, root) && Reached(Links(m), root, x)
    ensures Walkable(m, x)
  {
    WalkMeetsExactly(m, root);
    assert x in Met(m, root);
  }

  /** All ancestors in the breadcrumb of such a node are such nodes. */
  lemma AncestorsAreWalkable(m: DiskAnalysisModel, chain: seq<nat>, x: nat, i: nat)
    requires Walkable(m, x) && i < |chain| && chain[|chain| - 1] == x && ParentChain(m.nodes, chain)
    requires m.nodes[chain[0]].parent == chain[0] || |chain| == |m.nodes| + 1
    ensures Walkable(m, chain[i])
  {
    var d: nat :| AtDepth(Links(m), x, d);
    BreadcrumbReachesRoot(m, chain, x, d);
    ClimbDepths(Links(m), x, d, i);
  }

  /** A click on a hit of the search, whatever mask it had, leads to such a node. */
  lemma HitsAreWalkable(m: DiskAnalysisModel, root: nat, matches: Option<seq<bool>>, needle: Needle, x: nat)
    requires Walkable(m, root) && x in AllHits(m, root, matches, needle)
    ensures Walkable(m, x)
  {
    SearchFindsExactly(m, root, matches, needle, x);
    ReachedIsWalkable(m, root, x);
  }

  lemma TrailIsWalkable(m: DiskAnalysisModel, root: nat, x: nat, chain: seq<nat>, n: nat)
    requires Walkable(m, root) && Reached(Links(m), root, x)
    requires 0 < n <= |chain| && chain[|chain| - 1] == x && ParentChain(m.nodes, chain)
    requires m.nodes[chain[0]].parent == chain[0] || |chain| == |m.nodes| + 1
    ensures Walkable(m, chain[n - 1])
  {
    ReachedIsWalkable(m, root, x);
    AncestorsAreWalkable(m, chain, x, n - 1);
  }

  /**
    Whatever is reached from the current root may be clicked on, and so may every entry of the breadcrumb
    that this leads to: navigating to the `n`-th entry of its chain is allowed.
   */
  lemma ClicksAreAllowed(s: System, m: DiskAnalysisModel, x: nat, chain: seq<nat>, n: nat)
    requires QueriesEnd(s) && s.ui.model.Some? && m == s.ui.model.value.value && Reached(Links(m), CurrentRoot(s.ui), x)
    requires 0 < n <= |chain| && chain[|chain| - 1] == x && ParentChain(m.nodes, chain)
    requires m.nodes[chain[0]].parent == chain[0] || |chain| == |m.nodes| + 1
    ensures Allowed(s, Drills(chain[..n]))
  {
    TrailIsWalkable(m, CurrentRoot(s.ui), x, chain, n);
    assert CurrentRoot(s.ui.(drill := chain[..n])) == chain[n - 1];
  }
}
