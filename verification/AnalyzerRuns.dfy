/** Every run of the analyzer: what can ever be visible, whatever the interleaving. */
module AnalyzerRuns {
  import opened AnalyzerInvariant
  import opened AnalyzerProtocol

  // ---- The pipeline of jobs -------------------------------------------------------------------

  function RequestTickets(requests: seq<QueryRequest>): seq<Ticket> {
    seq(|requests|, i requires 0 <= i < |requests| => RequestTicket(requests[i]))
  }

  function MessageTickets(messages: seq<QueryMessage>): seq<Ticket> {
    seq(|messages|, i requires 0 <= i < |messages| => MessageTicket(messages[i]))
  }

  function WorkerTickets(worker: Worker): seq<Ticket> {
    if worker.Waiting? then [] else [RequestTicket(worker.request)]
  }

  /** All jobs in flight, oldest first: answered, being computed, waiting. */
  function Tickets(s: System): seq<Ticket> {
    MessageTickets(s.messages) + WorkerTickets(s.worker) + RequestTickets(s.requests)
  }

  ghost predicate Ascending(tickets: seq<Ticket>, low: nat, high: nat) {
    && (forall i :: 0 <= i < |tickets| ==> low < tickets[i].job <= high)
    && (forall i, j :: 0 <= i < j < |tickets| ==> tickets[i].job < tickets[j].job)
  }

  /** A pending flag never lies: its job is somewhere in the pipeline. */
  ghost predicate FlagTrue(ui: Ui, tickets: seq<Ticket>, kind: Kind) {
    Pending(ui, kind) ==> Ticket(kind, JobOf(ui, kind)) in tickets
  }

  ghost predicate FlagsTrue(ui: Ui, tickets: seq<Ticket>) {
    FlagTrue(ui, tickets, WeightsKind) && FlagTrue(ui, tickets, LargestKind) && FlagTrue(ui, tickets, SearchKind)
  }

  ghost predicate WorkerOk(e: Engine, ui: Ui, worker: Worker) {
    worker.Running? ==>
      RequestOk(e, ui, worker.request) && (worker.cut ==> CellFor(ui, worker.request) != worker.request.job)
  }

  ghost predicate AllInFlightOk(e: Engine, s: System) {
    && (forall r :: r in s.requests ==> RequestOk(e, s.ui, r))
    && (forall m :: m in s.messages ==> MessageOk(e, s.ui, m))
    && WorkerOk(e, s.ui, s.worker)
  }

  ghost predicate SystemInv(e: Engine, s: System) {
    && UiInv(e, s.ui) && AllInFlightOk(e, s)
    && Ascending(Tickets(s), 0, s.ui.nextJob) && FlagsTrue(s.ui, Tickets(s))
  }

  // ---- Steps of the view alone ------------------------------------------------------------------

  lemma InFlightStaysOk(e: Engine, s: System, ui: Ui)
    requires AllInFlightOk(e, s) && JobsInv(s.ui) && JobsInv(ui) && TreatsAll(e, s.ui, ui)
    ensures AllInFlightOk(e, s.(ui := ui))
  {
    forall r | r in s.requests ensures RequestOk(e, ui, r) {
      RequestStaysOk(e, s.ui, ui, r);
    }
    forall m | m in s.messages ensures MessageOk(e, ui, m) {
      MessageStaysOk(e, s.ui, ui, m);
    }
    if s.worker.Running? {
      RequestStaysOk(e, s.ui, ui, s.worker.request);
    }
  }

  lemma ViewStep(e: Engine, s: System, ui: Ui)
    requires SystemInv(e, s) && Follows(e, s.ui, ui)
    ensures SystemInv(e, s.(ui := ui))
  {
    InFlightStaysOk(e, s, ui);
    assert Tickets(s.(ui := ui)) == Tickets(s);
  }

  // ---- Scheduling ----------------------------------------------------------------------------------

  /** A flag that is up after scheduling was up before for the same job, or belongs to a job just queued. */
  ghost predicate FlagOk(ui: Ui, o: Outcome, kind: Kind) {
    Pending(o.ui, kind) ==>
      || (Pending(ui, kind) && JobOf(o.ui, kind) == JobOf(ui, kind))
      || Ticket(kind, JobOf(o.ui, kind)) in RequestTickets(o.sent)
  }

  /** New jobs are numbered after all others, in the order they are queued. */
  ghost predicate Queues(ui: Ui, o: Outcome) {
    && ui.nextJob <= o.ui.nextJob && Ascending(RequestTickets(o.sent), ui.nextJob, o.ui.nextJob)
    && FlagOk(ui, o, WeightsKind) && FlagOk(ui, o, LargestKind) && FlagOk(ui, o, SearchKind)
  }

  lemma QueuesTogether(ui: Ui, a: Outcome, b: Outcome)
    requires Queues(ui, a) && Queues(a.ui, b)
    ensures Queues(ui, Outcome(b.ui, a.sent + b.sent))
  {
    assert RequestTickets(a.sent + b.sent) == RequestTickets(a.sent) + RequestTickets(b.sent);
  }

  lemma OneQueued(ui: Ui, o: Outcome, kind: Kind)
    requires |o.sent| == 1 && o.ui.nextJob == ui.nextJob + 1 && RequestTicket(o.sent[0]) == Ticket(kind, o.ui.nextJob)
    requires JobOf(o.ui, kind) == o.ui.nextJob
    requires forall k: Kind :: k != kind ==> Pending(o.ui, k) == Pending(ui, k) && JobOf(o.ui, k) == JobOf(ui, k)
    ensures Queues(ui, o)
  {
    assert RequestTickets(o.sent)[0] == Ticket(kind, o.ui.nextJob);
  }

  lemma VoidedQueues(ui: Ui, ui': Ui)
    requires ui'.nextJob >= ui.nextJob && ui'.filterJob == ui.filterJob && ui'.weightsPending == ui.weightsPending
    requires !ui'.largestPending && !ui'.searchPending
    ensures Queues(ui, Outcome(ui', []))
  {
  }

  lemma EnterQueues(ui: Ui)
    requires ui.model.Some?
    ensures Queues(ui, Outcome(DropStaleWeights(EnterContext(ui)), []))
  {
    var u := DropStaleWeights(EnterContext(ui));
    if u == ui {
      assert RequestTickets([]) == [];
    } else {
      VoidedQueues(ui, u);
    }
  }

  lemma WeightsQueue(ui: Ui, now: nat)
    requires ui.model.Some?
    ensures Queues(ui, ScheduleWeights(ui, now))
  {
    var o := ScheduleWeights(ui, now);
    if o.sent != [] {
      OneQueued(ui, o, WeightsKind);
    }
  }

  lemma LargestQueues(ui: Ui)
    requires ui.model.Some?
    ensures Queues(ui, ScheduleLargest(ui))
  {
    var o := ScheduleLargest(ui);
    if o.sent != [] {
      OneQueued(ui, o, LargestKind);
    }
  }

  lemma SearchQueues(e: Engine, ui: Ui, now: nat)
    requires ui.model.Some?
    ensures Queues(ui, ScheduleSearch(e, ui, now))
  {
    var o := ScheduleSearch(e, ui, now);
    if o.sent != [] {
      OneQueued(ui, o, SearchKind);
    }
  }

  lemma ListsQueue(e: Engine, ui: Ui, now: nat)
    requires ui.model.Some?
    ensures Queues(ui, ScheduleLists(e, ui, now))
  {
    if !ui.filter.IsActive() || WeightsValid(ui) {
      var l := ScheduleLargest(ui);
      LargestQueues(ui);
      SearchQueues(e, l.ui, now);
      QueuesTogether(ui, l, ScheduleSearch(e, l.ui, now));
    }
  }

  lemma SyncQueues(e: Engine, ui: Ui, now: nat)
    ensures Queues(ui, Sync(e, ui, now))
  {
    if ui.model.Some? {
      var entered := DropStaleWeights(EnterContext(ui));
      EnterQueues(ui);
      WeightsQueue(entered, now);
      var w := ScheduleWeights(entered, now);
      ListsQueue(e, w.ui, now);
      QueuesTogether(entered, w, ScheduleLists(e, w.ui, now));
      QueuesTogether(ui, Outcome(entered, []), Sync(e, ui, now));
    }
  }

  lemma QueueFlags(s: System, o: Outcome)
    requires Ascending(Tickets(s), 0, s.ui.nextJob) && FlagsTrue(s.ui, Tickets(s)) && Queues(s.ui, o)
    ensures Ascending(Tickets(Queue(s, o)), 0, o.ui.nextJob) && FlagsTrue(o.ui, Tickets(Queue(s, o)))
  {
    assert RequestTickets(s.requests + o.sent) == RequestTickets(s.requests) + RequestTickets(o.sent);
    assert Tickets(Queue(s, o)) == Tickets(s) + RequestTickets(o.sent);
  }

  /** Edits of metric and sort order, followed by scheduling. */
  lemma SyncStep(e: Engine, s: System, edited: Ui, now: nat)
    requires SystemInv(e, s) && EditOf(s.ui, edited)
    ensures SystemInv(e, Queue(s, Sync(e, edited, now)))
  {
    var o := Sync(e, edited, now);
    SyncKeeps(e, s.ui, edited, now);
    SyncQueues(e, edited, now);
    assert Queues(s.ui, o);
    InFlightStaysOk(e, s, o.ui);
    QueueFlags(s, o);
    var t := Queue(s, o);
    forall r | r in t.requests ensures RequestOk(e, t.ui, r) {
      assert r in s.requests || r in o.sent;
    }
  }

  // ---- Deliveries and the worker ------------------------------------------------------------------------

  lemma DeliverStep(e: Engine, s: System)
    requires SystemInv(e, s) && e.Lawful() && s.messages != []
    ensures SystemInv(e, s.(ui := Deliver(e, s.ui, s.messages[0]), messages := s.messages[1..]))
  {
    var m, rest := s.messages[0], s.messages[1..];
    var ui := Deliver(e, s.ui, m);
    var t := s.(ui := ui, messages := rest);
    assert m in s.messages;
    DeliverKeeps(e, s.ui, m);
    assert Tickets(s) == [MessageTicket(m)] + Tickets(t) by {
      assert MessageTickets(s.messages) == [MessageTicket(m)] + MessageTickets(rest);
    }
    OthersDiffer(s, t, m);
    OthersStayOk(e, s, t, m);
    DeliverFlags(e, s, t, m);
  }

  lemma OthersStayOk(e: Engine, s: System, t: System, m: QueryMessage)
    requires UiInv(e, s.ui) && AllInFlightOk(e, s) && MessageOk(e, s.ui, m)
    requires t.ui == Deliver(e, s.ui, m) && t.requests == s.requests && t.worker == s.worker
    requires forall n :: n in t.messages ==> n in s.messages && MessageTicket(n) != MessageTicket(m)
    requires forall r :: r in t.requests ==> RequestTicket(r) != MessageTicket(m)
    requires t.worker.Running? ==> RequestTicket(t.worker.request) != MessageTicket(m)
    ensures AllInFlightOk(e, t)
  {
    forall r | r in t.requests ensures RequestOk(e, t.ui, r) {
      DeliverRequest(e, s.ui, m, r);
    }
    forall n | n in t.messages ensures MessageOk(e, t.ui, n) {
      DeliverMessage(e, s.ui, m, n);
    }
    if t.worker.Running? {
      DeliverRequest(e, s.ui, m, t.worker.request);
    }
  }

  /** No other job in flight has the number of the oldest. */
  lemma OthersDiffer(s: System, t: System, m: QueryMessage)
    requires Ascending(Tickets(s), 0, s.ui.nextJob) && Tickets(s) == [MessageTicket(m)] + Tickets(t)
    ensures forall r :: r in t.requests ==> RequestTicket(r) != MessageTicket(m)
    ensures forall n :: n in t.messages ==> MessageTicket(n) != MessageTicket(m)
    ensures t.worker.Running? ==> RequestTicket(t.worker.request) != MessageTicket(m)
    ensures Ascending(Tickets(t), 0, s.ui.nextJob)
  {
    assert Tickets(s)[0] == MessageTicket(m);
    forall k | 0 <= k < |Tickets(t)| ensures m.job < Tickets(t)[k].job <= s.ui.nextJob {
      assert Tickets(s)[k + 1] == Tickets(t)[k];
    }
    forall j, k | 0 <= j < k < |Tickets(t)| ensures Tickets(t)[j].job < Tickets(t)[k].job {
      assert Tickets(s)[j + 1] == Tickets(t)[j] && Tickets(s)[k + 1] == Tickets(t)[k];
    }
    forall r | r in t.requests ensures RequestTicket(r) != MessageTicket(m) {
      RequestInTickets(t, r);
    }
    forall n | n in t.messages ensures MessageTicket(n) != MessageTicket(m) {
      MessageInTickets(t, n);
    }
    if t.worker.Running? {
      assert Tickets(t)[|t.messages|] == RequestTicket(t.worker.request);
    }
  }

  lemma RequestInTickets(s: System, r: QueryRequest)
    requires r in s.requests
    ensures RequestTicket(r) in Tickets(s)
  {
    var i :| 0 <= i < |s.requests| && s.requests[i] == r;
    assert RequestTickets(s.requests)[i] == RequestTicket(r);
  }

  lemma MessageInTickets(s: System, m: QueryMessage)
    requires m in s.messages
    ensures MessageTicket(m) in Tickets(s)
  {
    var i :| 0 <= i < |s.messages| && s.messages[i] == m;
    assert MessageTickets(s.messages)[i] == MessageTicket(m);
  }

  lemma DeliverFlags(e: Engine, s: System, t: System, m: QueryMessage)
    requires FlagsTrue(s.ui, Tickets(s)) && Tickets(s) == [MessageTicket(m)] + Tickets(t) && t.ui == Deliver(e, s.ui, m)
    ensures FlagsTrue(t.ui, Tickets(t))
  {
  }

  lemma TakeStep(e: Engine, s: System)
    requires SystemInv(e, s)
    ensures SystemInv(e, Step(e, s, WorkerTakes))
  {
    var t := Step(e, s, WorkerTakes);
    if s.requests != [] && s.worker.Waiting? {
      var r, rest := s.requests[0], s.requests[1..];
      assert r in s.requests;
      assert RequestTickets(s.requests) == [RequestTicket(r)] + RequestTickets(rest);
      if t.worker.Running? {
        assert Tickets(t) == Tickets(s);
      } else {
        assert MessageTickets(s.messages) + [] == MessageTickets(s.messages);
        ShorterPipeline(e, s, t, MessageTickets(s.messages), r, RequestTickets(rest));
      }
    }
  }

  /** Dropping a job that is not current leaves the pipeline in order and all flags true. */
  lemma ShorterPipeline(e: Engine, s: System, t: System, a: seq<Ticket>, r: QueryRequest, b: seq<Ticket>)
    requires Ascending(Tickets(s), 0, s.ui.nextJob) && FlagsTrue(s.ui, Tickets(s)) && t.ui == s.ui
    requires Tickets(s) == a + [RequestTicket(r)] + b && Tickets(t) == a + b && r.job != JobOf(s.ui, RequestTicket(r).kind)
    ensures Ascending(Tickets(t), 0, s.ui.nextJob) && FlagsTrue(s.ui, Tickets(t))
  {
    forall i | 0 <= i < |Tickets(t)|
      ensures Tickets(t)[i] == Tickets(s)[if i < |a| then i else i + 1]
    {
    }
    forall x | x in Tickets(s) && x != RequestTicket(r) ensures x in Tickets(t) {
    }
  }

  /** A computation that was cut is never sent; what is sent is the complete answer to its request. */
  lemma EndStep(e: Engine, s: System, partial: seq<nat>)
    requires SystemInv(e, s) && s.worker.Running?
    ensures SystemInv(e, Step(e, s, WorkerEnds(partial)))
    ensures s.worker.cut ==> Step(e, s, WorkerEnds(partial)).messages == s.messages
    ensures Step(e, s, WorkerEnds(partial)).messages == s.messages ||
      Step(e, s, WorkerEnds(partial)).messages == s.messages + [Answer(e, s.worker.request)]
  {
    var r := s.worker.request;
    var sent := Sends(e, s.ui, r, s.worker.cut, partial);
    var t := Step(e, s, WorkerEnds(partial));
    if sent == [] {
      assert s.messages + sent == s.messages;
      assert MessageTickets(s.messages) + [] == MessageTickets(s.messages);
      ShorterPipeline(e, s, t, MessageTickets(s.messages), r, RequestTickets(s.requests));
    } else {
      assert !s.worker.cut && sent == [Answer(e, r)];
      assert MessageTickets(t.messages) == MessageTickets(s.messages) + [RequestTicket(r)];
      assert Tickets(t) == Tickets(s);
    }
  }

  // ---- Every run -------------------------------------------------------------------------------------------

  lemma ViewEventKeeps(e: Engine, s: System, event: Event)
    requires SystemInv(e, s)
    requires event.Asks? || event.ModelArrives? || event.FetchFails? || event.FilterEdited? || event.SearchEdited? || event.Drills?
    ensures SystemInv(e, Step(e, s, event))
  {
    match event
    case Asks(letter, deleting) =>
      RequestKeeps(e, s.ui, letter, deleting);
      ViewStep(e, s, Request(s.ui, letter, deleting));
    case ModelArrives(requestId, model, now) =>
      ModelReadyKeeps(e, s.ui, requestId, model, now);
      ViewStep(e, s, ModelReady(s.ui, requestId, model, now));
    case FetchFails(requestId) =>
      FetchFailedKeeps(e, s.ui, requestId);
      ViewStep(e, s, FetchFailed(s.ui, requestId));
    case FilterEdited(filter, now) =>
      FilterChangedKeeps(e, s.ui, filter, now);
      ViewStep(e, s, FilterChanged(s.ui, filter, now));
    case SearchEdited(text, now) =>
      SearchChangedKeeps(e, s.ui, text, now);
      ViewStep(e, s, SearchChanged(s.ui, text, now));
    case Drills(stack) =>
      DrillKeeps(e, s.ui, stack);
      ViewStep(e, s, s.ui.(drill := stack));
  }

  lemma SchedulingEventKeeps(e: Engine, s: System, event: Event)
    requires SystemInv(e, s) && e.Lawful() && (event.MetricSelected? || event.SortChanged? || event.Frame?)
    ensures SystemInv(e, Step(e, s, event))
  {
    match event
    case MetricSelected(metric, sort, now) =>
      SyncStep(e, s, s.ui.(metric := metric, sort := sort), now);
    case SortChanged(sort, resort, now) =>
      SortKeeps(e, s.ui, sort, resort);
      SyncStep(e, s, if resort then Sorted(e, s.ui.(sort := sort)) else s.ui.(sort := sort), now);
    case Frame(now) =>
      SyncStep(e, s, s.ui, now);
  }

  lemma PollKeeps(e: Engine, s: System)
    requires SystemInv(e, s)
    ensures SystemInv(e, Step(e, s, WorkerPolls))
  {
    assert Tickets(Step(e, s, WorkerPolls)) == Tickets(s);
  }

  lemma PipelineEventKeeps(e: Engine, s: System, event: Event)
    requires SystemInv(e, s) && e.Lawful()
    requires event.MessageDelivered? || event.WorkerTakes? || event.WorkerPolls? || event.WorkerEnds?
    ensures SystemInv(e, Step(e, s, event))
  {
    match event
    case MessageDelivered =>
      if s.messages != [] {
        DeliverStep(e, s);
      }
    case WorkerTakes =>
      TakeStep(e, s);
    case WorkerPolls =>
      PollKeeps(e, s);
    case WorkerEnds(partial) =>
      if s.worker.Running? {
        EndStep(e, s, partial);
      }
  }

  lemma StepKeeps(e: Engine, s: System, event: Event)
    requires SystemInv(e, s) && e.Lawful()
    ensures SystemInv(e, Step(e, s, event))
  {
    if event.MetricSelected? || event.SortChanged? || event.Frame? {
      SchedulingEventKeeps(e, s, event);
    } else if event.MessageDelivered? || event.WorkerTakes? || event.WorkerPolls? || event.WorkerEnds? {
      PipelineEventKeeps(e, s, event);
    } else {
      ViewEventKeeps(e, s, event);
    }
  }

  lemma {:induction false} RunKeeps(e: Engine, events: seq<Event>)
    requires e.Lawful()
    ensures SystemInv(e, Run(e, events))
  {
    if events != [] {
      RunKeeps(e, events[..|events| - 1]);
      StepKeeps(e, Run(e, events[..|events| - 1]), events[|events| - 1]);
    }
  }
}
