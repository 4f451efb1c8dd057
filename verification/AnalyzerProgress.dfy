/** The analyzer settles: without further edits only finitely many steps do anything, and then everything is on screen. */
module AnalyzerProgress {
  import opened AnalyzerInvariant
  import opened AnalyzerProtocol
  import opened AnalyzerRuns
  import opened AnalyzerTheorems
  import opened Wrappers

  // ---- The debounce of the search text ---------------------------------------------------------

  /** Hits are not asked for while an edit of the text waits. */
  ghost predicate TextWaits(ui: Ui) {
    ui.searchPendingAt.Some? ==> ui.searchSig.None?
  }

  lemma EnterKeepsText(ui: Ui)
    requires ui.model.Some? && TextWaits(ui)
    ensures TextWaits(DropStaleWeights(EnterContext(ui)))
  {
  }

  lemma WeightsKeepText(ui: Ui, now: nat)
    requires ui.model.Some? && TextWaits(ui)
    ensures TextWaits(ScheduleWeights(ui, now).ui)
  {
  }

  lemma ListsKeepText(e: Engine, ui: Ui, now: nat)
    requires ui.model.Some? && TextWaits(ui)
    ensures TextWaits(ScheduleLists(e, ui, now).ui)
  {
  }

  lemma SyncKeepsText(e: Engine, ui: Ui, now: nat)
    requires TextWaits(ui)
    ensures TextWaits(Sync(e, ui, now).ui)
  {
    if ui.model.Some? {
      EnterKeepsText(ui);
      var entered := DropStaleWeights(EnterContext(ui));
      WeightsKeepText(entered, now);
      ListsKeepText(e, ScheduleWeights(entered, now).ui, now);
    }
  }

  lemma OtherStepKeepsText(e: Engine, s: System, event: Event)
    requires TextWaits(s.ui) && !Schedules(event)
    ensures TextWaits(Step(e, s, event).ui)
  {
  }

  lemma StepKeepsText(e: Engine, s: System, event: Event)
    requires TextWaits(s.ui)
    ensures TextWaits(Step(e, s, event).ui)
  {
    if Schedules(event) {
      SyncKeepsText(e, Edited(e, s.ui, event), event.now);
      assert Step(e, s, event).ui == Sync(e, Edited(e, s.ui, event), event.now).ui;
    } else {
      OtherStepKeepsText(e, s, event);
    }
  }

  lemma {:induction false} RunKeepsText(e: Engine, events: seq<Event>)
    ensures TextWaits(Run(e, events).ui)
  {
    if events != [] {
      RunKeepsText(e, events[..|events| - 1]);
      StepKeepsText(e, Run(e, events[..|events| - 1]), events[|events| - 1]);
    }
  }

  // ---- Steps without edits -------------------------------------------------------------------------

  /** A delivery, a step of the worker, or a frame after the debounce. */
  predicate Idles(event: Event, late: nat) {
    event.MessageDelivered? || event.WorkerTakes? || event.WorkerPolls? || event.WorkerEnds? || (event.Frame? && event.now >= late)
  }

  /** The event does something other than looking. */
  predicate Moves(e: Engine, s: System, event: Event) {
    match event
    case MessageDelivered => s.messages != []
    case WorkerTakes => s.requests != [] && s.worker.Waiting?
    case WorkerEnds(_) => s.worker.Running?
    case Frame(now) => Sync(e, s.ui, now).sent != []
    case _ => false
  }

  function RunFrom(e: Engine, s: System, events: seq<Event>): System {
    if events == [] then s else Step(e, RunFrom(e, s, events[..|events| - 1]), events[|events| - 1])
  }

  /** How many of the events did something. */
  function Moving(e: Engine, s: System, events: seq<Event>): nat {
    if events == [] then 0
    else
      Moving(e, s, events[..|events| - 1]) +
      if Moves(e, RunFrom(e, s, events[..|events| - 1]), events[|events| - 1]) then 1 else 0
  }

  // ---- What is left to do --------------------------------------------------------------------------

  function OwesRows(ui: Ui): nat
    requires ui.model.Some?
  {
    if ui.largestSig != Some(LargestSigOf(ui)) then 4 else 0
  }

  function OwesHits(e: Engine, ui: Ui): nat
    requires ui.model.Some?
  {
    if e.trim(ui.searchText) != "" && ui.searchSig != Some(SearchSigOf(e, ui)) then 4 else 0
  }

  /** Jobs that scheduling will still queue; an awaited roll-up will call for both lists again. */
  function Owed(e: Engine, ui: Ui): nat
    requires ui.model.Some?
  {
    OwesRows(ui) + OwesHits(e, ui) + if ui.weightsPending then 8 else 0
  }

  function InPipeline(s: System): nat {
    3 * |s.requests| + (if s.worker.Running? then 2 else 0) + |s.messages|
  }

  function Remaining(e: Engine, s: System): nat
    requires s.ui.model.Some?
  {
    InPipeline(s) + Owed(e, s.ui)
  }

  /** The context is entered and no filter edit waits; a text edit waits for no longer than until `late`. */
  ghost predicate Steady(e: Engine, ui: Ui, late: nat) {
    && UiInv(e, ui) && TextWaits(ui) && ui.model.Some? && ui.context == Here(ui)
    && ui.filterPendingAt.None? && Due(ui.searchPendingAt, late)
    && (ui.filter.IsActive() ==> ui.scheduled == Some(WeightsSignature(ui.filterGen, CurrentRoot(ui), ui.metric)))
  }

  /** Nothing about the view changes but results and what is asked for. */
  ghost predicate SameInputs(ui: Ui, ui': Ui) {
    && ui'.model == ui.model && ui'.drill == ui.drill && ui'.metric == ui.metric && ui'.filter == ui.filter && ui'.filterGen == ui.filterGen
    && ui'.sort == ui.sort && ui'.searchText == ui.searchText && ui'.context == ui.context
  }

  // ---- Frames ----------------------------------------------------------------------------------------

  /** What a steady view keeps of its weights when they are scheduled. */
  function Checked(ui: Ui): Ui {
    if ui.filter.IsActive() then ui else ui.(scheduled := None)
  }

  lemma SteadyContext(e: Engine, ui: Ui, late: nat)
    requires Steady(e, ui, late)
    ensures DropStaleWeights(EnterContext(ui)) == ui
  {
    if ui.weights.Some? {
      AttachedAreOfContext(e, ui);
    }
  }

  lemma SteadyWeights(e: Engine, ui: Ui, late: nat, now: nat)
    requires Steady(e, ui, late)
    ensures ScheduleWeights(ui, now) == Outcome(Checked(ui), [])
  {
  }

  /** In a steady view scheduling is about the lists only. */
  lemma SteadySync(e: Engine, ui: Ui, late: nat, now: nat)
    requires Steady(e, ui, late)
    ensures Sync(e, ui, now) == ScheduleLists(e, Checked(ui), now)
  {
    SteadyContext(e, ui, late);
    SteadyWeights(e, ui, late, now);
    var lists := ScheduleLists(e, Checked(ui), now);
    assert [] + lists.sent == lists.sent;
  }

  lemma RowsQueued(e: Engine, ui: Ui)
    requires ui.model.Some?
    ensures OwesRows(ui) == 4 * |ScheduleLargest(ui).sent| && OwesRows(ScheduleLargest(ui).ui) == 0
    ensures OwesHits(e, ScheduleLargest(ui).ui) == OwesHits(e, ui) && SameInputs(ui, ScheduleLargest(ui).ui)
  {
  }

  lemma HitsQueued(e: Engine, ui: Ui, now: nat)
    requires ui.model.Some? && Due(ui.searchPendingAt, now)
    ensures OwesHits(e, ui) == 4 * |ScheduleSearch(e, ui, now).sent| && OwesHits(e, ScheduleSearch(e, ui, now).ui) == 0
    ensures OwesRows(ScheduleSearch(e, ui, now).ui) == OwesRows(ui) && SameInputs(ui, ScheduleSearch(e, ui, now).ui)
    ensures TextWaits(ui) ==> ScheduleSearch(e, ui, now).ui.searchPendingAt.None?
  {
  }

  /** Every job that is queued is one less owed, and nothing that can be queued stays owed. */
  lemma ListsQueued(e: Engine, ui: Ui, now: nat)
    requires ui.model.Some? && Due(ui.searchPendingAt, now) && TextWaits(ui)
    ensures Owed(e, ScheduleLists(e, ui, now).ui) + 4 * |ScheduleLists(e, ui, now).sent| == Owed(e, ui)
    ensures SameInputs(ui, ScheduleLists(e, ui, now).ui)
    ensures ScheduleLists(e, ui, now).ui.searchPendingAt == ui.searchPendingAt || ScheduleLists(e, ui, now).ui.searchPendingAt.None?
    ensures !ui.filter.IsActive() || WeightsValid(ui) ==>
      ScheduleLists(e, ui, now).ui.searchPendingAt.None? && ScheduleLists(e, ui, now).ui.largestSig.Some?
  {
    ListsKeepBasis(e, ui, now);
    if !ui.filter.IsActive() || WeightsValid(ui) {
      RowsQueued(e, ui);
      HitsQueued(e, ScheduleLargest(ui).ui, now);
    }
  }

  lemma SteadyFrame(e: Engine, ui: Ui, late: nat, now: nat)
    requires Steady(e, ui, late) && now >= late
    ensures Steady(e, Sync(e, ui, now).ui, late)
    ensures Owed(e, Sync(e, ui, now).ui) + 4 * |Sync(e, ui, now).sent| == Owed(e, ui)
  {
    var u := Sync(e, ui, now).ui;
    SteadySync(e, ui, late, now);
    SyncKeeps(e, ui, ui, now);
    SyncKeepsText(e, ui, now);
    SyncEntersContext(e, ui, now);
    ListsQueued(e, Checked(ui), now);
    ListsKeepBasis(e, Checked(ui), now);
    assert Owed(e, Checked(ui)) == Owed(e, ui);
  }

  // ---- Deliveries ----------------------------------------------------------------------------------------

  lemma SteadyDelivery(e: Engine, ui: Ui, late: nat, m: QueryMessage)
    requires Steady(e, ui, late) && e.Lawful() && MessageOk(e, ui, m)
    ensures Steady(e, Deliver(e, ui, m), late) && Owed(e, Deliver(e, ui, m)) <= Owed(e, ui)
  {
    DeliverKeeps(e, ui, m);
  }

  // ---- All steps -----------------------------------------------------------------------------------------

  lemma FrameStep(e: Engine, s: System, late: nat, now: nat)
    requires Steady(e, s.ui, late) && now >= late
    ensures Steady(e, Step(e, s, Frame(now)).ui, late)
    ensures Remaining(e, Step(e, s, Frame(now))) + |Sync(e, s.ui, now).sent| == Remaining(e, s)
  {
    SteadyFrame(e, s.ui, late, now);
    assert Step(e, s, Frame(now)) == Queue(s, Sync(e, s.ui, now));
  }

  lemma DeliveryStep(e: Engine, s: System, late: nat)
    requires SystemInv(e, s) && e.Lawful() && Steady(e, s.ui, late) && s.messages != []
    ensures Steady(e, Step(e, s, MessageDelivered).ui, late)
    ensures Remaining(e, Step(e, s, MessageDelivered)) < Remaining(e, s)
  {
    assert s.messages[0] in s.messages;
    SteadyDelivery(e, s.ui, late, s.messages[0]);
  }

  lemma WorkerStep(e: Engine, s: System, event: Event)
    requires event.WorkerTakes? || event.WorkerPolls? || event.WorkerEnds?
    ensures Step(e, s, event).ui == s.ui
    ensures InPipeline(Step(e, s, event)) + (if Moves(e, s, event) then 1 else 0) <= InPipeline(s)
  {
    if event.WorkerEnds? && s.worker.Running? {
      assert |Sends(e, s.ui, s.worker.request, s.worker.cut, event.partial)| <= 1;
    }
  }

  /** A step without edits keeps the view steady, and if it does anything, less remains. */
  lemma IdleStep(e: Engine, s: System, late: nat, event: Event)
    requires SystemInv(e, s) && e.Lawful() && Steady(e, s.ui, late) && Idles(event, late)
    ensures Steady(e, Step(e, s, event).ui, late)
    ensures Remaining(e, Step(e, s, event)) + (if Moves(e, s, event) then 1 else 0) <= Remaining(e, s)
  {
    if event.Frame? {
      FrameStep(e, s, late, event.now);
    } else if event.MessageDelivered? {
      if s.messages != [] {
        DeliveryStep(e, s, late);
      }
    } else {
      WorkerStep(e, s, event);
    }
  }

  lemma {:induction false} IdleRun(e: Engine, s: System, late: nat, steps: seq<Event>)
    requires SystemInv(e, s) && e.Lawful() && Steady(e, s.ui, late) && forall i :: 0 <= i < |steps| ==> Idles(steps[i], late)
    ensures SystemInv(e, RunFrom(e, s, steps)) && Steady(e, RunFrom(e, s, steps).ui, late)
    ensures Remaining(e, RunFrom(e, s, steps)) + Moving(e, s, steps) <= Remaining(e, s)
  {
    if steps != [] {
      var before, last := steps[..|steps| - 1], steps[|steps| - 1];
      IdleRun(e, s, late, before);
      IdleStep(e, RunFrom(e, s, before), late, last);
      StepKeeps(e, RunFrom(e, s, before), last);
    }
  }

  // ---- The first frame after the debounce -----------------------------------------------------------

  lemma WeightsCaughtUp(e: Engine, ui: Ui, now: nat)
    requires Settling(e, ui) && Due(ui.filterPendingAt, now)
    ensures ScheduleWeights(ui, now).ui.filterPendingAt.None?
    ensures ui.filter.IsActive() ==>
      ScheduleWeights(ui, now).ui.scheduled == Some(WeightsSignature(ScheduleWeights(ui, now).ui.filterGen, CurrentRoot(ui), ui.metric))
    ensures ScheduleWeights(ui, now).ui.searchPendingAt == ui.searchPendingAt
  {
  }

  lemma EnterContextKeepsPending(ui: Ui)
    requires ui.model.Some?
    ensures EnterContext(ui).filterPendingAt == ui.filterPendingAt && EnterContext(ui).searchPendingAt == ui.searchPendingAt
  {
  }

  lemma DropKeepsPending(ui: Ui)
    requires ui.model.Some?
    ensures DropStaleWeights(ui).filterPendingAt == ui.filterPendingAt && DropStaleWeights(ui).searchPendingAt == ui.searchPendingAt
  {
  }

  lemma FirstFrame(e: Engine, ui: Ui, late: nat)
    requires UiInv(e, ui) && TextWaits(ui) && ui.model.Some? && Due(ui.filterPendingAt, late) && Due(ui.searchPendingAt, late)
    ensures Steady(e, Sync(e, ui, late).ui, late)
  {
    var entered := DropStaleWeights(EnterContext(ui));
    EnterSettles(e, ui, ui);
    EnterContextKeepsPending(ui);
    DropKeepsPending(EnterContext(ui));
    EnterKeepsText(ui);
    WeightsCaughtUp(e, entered, late);
    WeightsKeepText(entered, late);
    var w := ScheduleWeights(entered, late).ui;
    ListsQueued(e, w, late);
    ListsKeepBasis(e, w, late);
    SyncKeeps(e, ui, ui, late);
    SyncKeepsText(e, ui, late);
    SyncEntersContext(e, ui, late);
  }

  // ---- When nothing moves any more ------------------------------------------------------------------------

  /** No job is in flight and the next frame queues none. */
  predicate AtRest(e: Engine, s: System, now: nat) {
    s.requests == [] && s.worker.Waiting? && s.messages == [] && Sync(e, s.ui, now).sent == []
  }

  lemma NoFlagAtRest(e: Engine, s: System, now: nat, kind: Kind)
    requires SystemInv(e, s) && AtRest(e, s, now)
    ensures !Pending(s.ui, kind) && !Pending(Sync(e, s.ui, now).ui, kind)
  {
    assert Tickets(s) == [];
    SyncQueues(e, s.ui, now);
    assert RequestTickets(Sync(e, s.ui, now).sent) == [];
    match kind
    case WeightsKind =>
    case LargestKind =>
    case SearchKind =>
  }

  lemma RestShowsEverything(e: Engine, s: System, late: nat, now: nat)
    requires SystemInv(e, s) && Steady(e, s.ui, late) && now >= late && AtRest(e, s, now)
    ensures Quiet(Sync(e, s.ui, now).ui) && ShowsEverything(e, Sync(e, s.ui, now).ui)
  {
    NoFlagAtRest(e, s, now, WeightsKind);
    NoFlagAtRest(e, s, now, LargestKind);
    NoFlagAtRest(e, s, now, SearchKind);
    SteadyFrame(e, s.ui, late, now);
    SteadySync(e, s.ui, late, now);
    SteadyIsValid(e, s.ui, late);
    ListsQueued(e, Checked(s.ui), now);
    SyncShowsEverything(e, s.ui, s.ui, now);
  }

  lemma SteadyIsValid(e: Engine, ui: Ui, late: nat)
    requires Steady(e, ui, late) && !ui.weightsPending
    ensures !Checked(ui).filter.IsActive() || WeightsValid(Checked(ui))
  {
    if ui.weights.Some? {
      AttachedAreOfContext(e, ui);
    }
  }

  // ---- Every run settles --------------------------------------------------------------------------------------

  lemma RunOne(e: Engine, events: seq<Event>, event: Event)
    ensures Run(e, events + [event]) == Step(e, Run(e, events), event)
  {
    assert (events + [event])[..|events|] == events;
  }

  lemma RunFromOne(e: Engine, s: System, steps: seq<Event>, last: Event)
    ensures RunFrom(e, s, steps + [last]) == Step(e, RunFrom(e, s, steps), last)
  {
    assert (steps + [last])[..|steps|] == steps;
  }

  lemma AppendStep(e: Engine, events: seq<Event>, front: seq<Event>, last: Event)
    requires RunFrom(e, Run(e, events), front) == Run(e, events + front)
    ensures RunFrom(e, Run(e, events), front + [last]) == Run(e, events + (front + [last]))
  {
    RunFromOne(e, Run(e, events), front, last);
    RunOne(e, events + front, last);
    assert events + front + [last] == events + (front + [last]);
  }

  /** A continued run is a run. */
  lemma {:induction false} RunAppend(e: Engine, events: seq<Event>, steps: seq<Event>)
    ensures RunFrom(e, Run(e, events), steps) == Run(e, events + steps)
  {
    if steps == [] {
      assert events + [] == events;
    } else {
      var front, last := steps[..|steps| - 1], steps[|steps| - 1];
      assert front + [last] == steps;
      RunAppend(e, events, front);
      AppendStep(e, events, front, last);
    }
  }

  lemma FrameAfter(e: Engine, events: seq<Event>, now: nat)
    ensures Run(e, events + [Frame(now)]).ui == Sync(e, Run(e, events).ui, now).ui
  {
    RunOne(e, events, Frame(now));
  }

  /** With a model, the first frame after the debounce leaves a steady view. */
  lemma FrameSteadies(e: Engine, s: System, late: nat)
    requires SystemInv(e, s) && TextWaits(s.ui) && e.Lawful()
    requires s.ui.model.Some? && Due(s.ui.filterPendingAt, late) && Due(s.ui.searchPendingAt, late)
    ensures SystemInv(e, Step(e, s, Frame(late))) && Steady(e, Step(e, s, Frame(late)).ui, late)
  {
    FirstFrame(e, s.ui, late);
    StepKeeps(e, s, Frame(late));
  }

  lemma SteadySettles(e: Engine, s: System, late: nat, steps: seq<Event>, now: nat)
    requires SystemInv(e, s) && e.Lawful() && Steady(e, s.ui, late) && now >= late
    requires forall i :: 0 <= i < |steps| ==> Idles(steps[i], late)
    ensures Moving(e, s, steps) <= Remaining(e, s)
    ensures AtRest(e, RunFrom(e, s, steps), now) ==>
      Quiet(Sync(e, RunFrom(e, s, steps).ui, now).ui) && ShowsEverything(e, Sync(e, RunFrom(e, s, steps).ui, now).ui)
  {
    IdleRun(e, s, late, steps);
    if AtRest(e, RunFrom(e, s, steps), now) {
      RestShowsEverything(e, RunFrom(e, s, steps), late, now);
    }
  }

  lemma ReachableSettles(e: Engine, events: seq<Event>, s: System, late: nat, begun: System, steps: seq<Event>, now: nat)
    requires e.Lawful() && s == Run(e, events) && s.ui.model.Some? && now >= late
    requires Due(s.ui.filterPendingAt, late) && Due(s.ui.searchPendingAt, late) && begun == Step(e, s, Frame(late))
    requires forall i :: 0 <= i < |steps| ==> Idles(steps[i], late)
    ensures begun.ui.model.Some? && Moving(e, begun, steps) <= Remaining(e, begun)
    ensures AtRest(e, RunFrom(e, begun, steps), now) ==>
      Quiet(Sync(e, RunFrom(e, begun, steps).ui, now).ui) && ShowsEverything(e, Sync(e, RunFrom(e, begun, steps).ui, now).ui)
  {
    RunKeeps(e, events);
    RunKeepsText(e, events);
    FrameSteadies(e, s, late);
    SteadySettles(e, begun, late, steps, now);
  }

  /**
    Progress over all runs. Take any reachable state with a model and a frame after the debounce. However
    deliveries, worker steps and further frames interleave from there on, no more of them do anything than
    the jobs in flight and the jobs still owed account for; and once none can, the next frame shows everything.
   */
  lemma EveryRunSettles(e: Engine, events: seq<Event>, late: nat, steps: seq<Event>, now: nat)
    requires e.Lawful() && Run(e, events).ui.model.Some? && now >= late
    requires Due(Run(e, events).ui.filterPendingAt, late) && Due(Run(e, events).ui.searchPendingAt, late)
    requires forall i :: 0 <= i < |steps| ==> Idles(steps[i], late)
    ensures Run(e, events + [Frame(late)]).ui.model.Some?
    ensures Moving(e, Run(e, events + [Frame(late)]), steps) <= Remaining(e, Run(e, events + [Frame(late)]))
    ensures AtRest(e, Run(e, events + [Frame(late)] + steps), now) ==>
      Quiet(Run(e, events + [Frame(late)] + steps + [Frame(now)]).ui) &&
      ShowsEverything(e, Run(e, events + [Frame(late)] + steps + [Frame(now)]).ui)
  {
    RunOne(e, events, Frame(late));
    RunAppend(e, events + [Frame(late)], steps);
    FrameAfter(e, events + [Frame(late)] + steps, now);
    ReachableSettles(e, events, Run(e, events), late, Run(e, events + [Frame(late)]), steps, now);
  }

  /** While something can move there is a step without edits that moves it. */
  lemma NextMove(e: Engine, s: System, late: nat) returns (event: Event)
    requires !AtRest(e, s, late)
    ensures Idles(event, late) && Moves(e, s, event)
  {
    if s.messages != [] {
      event := MessageDelivered;
    } else if s.worker.Running? {
      event := WorkerEnds([]);
    } else if s.requests != [] {
      event := WorkerTakes;
    } else {
      event := Frame(late);
    }
  }

  /** `t` is where the steps `done` have led; the result continues them until nothing moves. */
  lemma {:induction false} ComesToRest(e: Engine, s: System, late: nat, done: seq<Event>, t: System) returns (steps: seq<Event>)
    requires t == RunFrom(e, s, done) && SystemInv(e, t) && e.Lawful() && Steady(e, t.ui, late)
    requires forall i :: 0 <= i < |done| ==> Idles(done[i], late)
    ensures forall i :: 0 <= i < |steps| ==> Idles(steps[i], late)
    ensures AtRest(e, RunFrom(e, s, steps), late)
    decreases Remaining(e, t)
  {
    if AtRest(e, t, late) {
      steps := done;
    } else {
      var next := NextMove(e, t, late);
      IdleStep(e, t, late, next);
      StepKeeps(e, t, next);
      RunFromOne(e, s, done, next);
      steps := ComesToRest(e, s, late, done + [next], Step(e, t, next));
    }
  }

  lemma ReachableComesToRest(e: Engine, events: seq<Event>, s: System, late: nat, begun: System) returns (steps: seq<Event>)
    requires e.Lawful() && s == Run(e, events) && s.ui.model.Some?
    requires Due(s.ui.filterPendingAt, late) && Due(s.ui.searchPendingAt, late) && begun == Step(e, s, Frame(late))
    ensures forall i :: 0 <= i < |steps| ==> Idles(steps[i], late)
    ensures AtRest(e, RunFrom(e, begun, steps), late)
  {
    RunKeeps(e, events);
    RunKeepsText(e, events);
    FrameSteadies(e, s, late);
    steps := ComesToRest(e, begun, late, [], begun);
  }

  /** And from every such state there is a way to that point: deliveries and worker steps always get there. */
  lemma EveryRunCanSettle(e: Engine, events: seq<Event>, late: nat) returns (steps: seq<Event>)
    requires e.Lawful() && Run(e, events).ui.model.Some?
    requires Due(Run(e, events).ui.filterPendingAt, late) && Due(Run(e, events).ui.searchPendingAt, late)
    ensures forall i :: 0 <= i < |steps| ==> Idles(steps[i], late)
    ensures AtRest(e, Run(e, events + [Frame(late)] + steps), late)
  {
    RunOne(e, events, Frame(late));
    steps := ReachableComesToRest(e, events, Run(e, events), late, Run(e, events + [Frame(late)]));
    RunAppend(e, events + [Frame(late)], steps);
  }
}
