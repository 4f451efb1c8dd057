/** What holds in every reachable state of the analyzer, and which results can ever be visible. */
module AnalyzerInvariant {
  import opened AnalyzerProtocol
  import opened SizeFilter
  import opened Wrappers

  datatype Kind = WeightsKind | LargestKind | SearchKind

  datatype Ticket = Ticket(kind: Kind, job: nat)

  function RequestTicket(r: QueryRequest): Ticket {
    Ticket(if r.WeightsRequest? then WeightsKind else if r.LargestRequest? then LargestKind else SearchKind, r.job)
  }

  function MessageTicket(m: QueryMessage): Ticket {
    Ticket(if m.WeightsMessage? then WeightsKind else if m.LargestMessage? then LargestKind else SearchKind, m.job)
  }

  function JobOf(ui: Ui, kind: Kind): nat {
    match kind
    case WeightsKind => ui.filterJob
    case LargestKind => ui.largestJob
    case SearchKind => ui.searchJob
  }

  predicate Pending(ui: Ui, kind: Kind) {
    match kind
    case WeightsKind => ui.weightsPending
    case LargestKind => ui.largestPending
    case SearchKind => ui.searchPending
  }

  // ---- What the signatures stand for --------------------------------------------------------

  /** The inputs that rows and hits were requested for are still the inputs of the view, except for navigation. */
  ghost predicate Based(ui: Ui) {
    && ui.model.Some? && ui.context.Some?
    && ui.context.value.address == ui.model.value.address && ui.context.value.metric == ui.metric
    && (ui.filter.IsActive() <==> ui.weights.Some?)
    && (ui.weights.Some? ==> ui.weights.value.root == ui.context.value.root && ui.weights.value.metric == ui.metric)
  }

  ghost predicate LargestLive(ui: Ui) {
    Based(ui) && ui.largestSig ==
      Some(LargestSignature(ui.model.value.address, ui.context.value.root, IdOf(ui.weights), ui.metric, ui.sort))
  }

  ghost predicate SearchLive(e: Engine, ui: Ui) {
    && Based(ui) && e.trim(ui.searchText) != ""
    && ui.searchSig == Some(SearchSignature(ui.model.value.address, ui.context.value.root, IdOf(ui.weights), e.trim(ui.searchText)))
  }

  ghost predicate WeightsLive(ui: Ui) {
    && ui.model.Some? && ui.filter.IsActive() && ui.weights.None?
    && ui.scheduled.Some? && ui.scheduled.value.gen == ui.filterGen
  }

  ghost predicate Live(e: Engine, ui: Ui, kind: Kind) {
    match kind
    case WeightsKind => WeightsLive(ui)
    case LargestKind => LargestLive(ui)
    case SearchKind => SearchLive(e, ui)
  }

  /** The request that a live job of each kind consists of. */
  ghost function Wanted(e: Engine, ui: Ui, kind: Kind): QueryRequest
    requires Live(e, ui, kind)
  {
    match kind
    case WeightsKind => WeightsRequest(ui.filterJob, ui.model.value, ui.scheduled.value.root, ui.filter, ui.scheduled.value.metric)
    case LargestKind => LargestRequest(ui.largestJob, ui.model.value, ui.context.value.root, ui.metric, ui.sort, ResultOf(ui.weights))
    case SearchKind => SearchRequest(ui.searchJob, ui.model.value, ui.context.value.root, e.trim(ui.searchText), MatchesOf(ui.weights))
  }

  // ---- The invariant ------------------------------------------------------------------------------

  ghost predicate JobsInv(ui: Ui) {
    && ui.filterJob <= ui.nextJob && ui.largestJob <= ui.nextJob && ui.searchJob <= ui.nextJob
    && ui.weightsCell == ui.filterJob && ui.largestCell == ui.largestJob && ui.searchCell == ui.searchJob
  }

  ghost predicate ContextInv(ui: Ui) {
    ui.context.Some? ==> ui.model.Some? && ui.context.value.address == ui.model.value.address && ui.context.value.metric == ui.metric
  }

  /** Weights that are attached are the roll-up for the filter of the view. */
  ghost predicate AttachedInv(e: Engine, ui: Ui) {
    ui.weights.Some? ==>
      && ui.model.Some? && ui.filter.IsActive() && ui.weights.value.id == ui.filterJob && !ui.weightsPending
      && ui.scheduled == Some(WeightsSignature(ui.filterGen, ui.weights.value.root, ui.weights.value.metric))
      && ui.weights.value.result == e.weights(ui.model.value.value, ui.weights.value.root, ui.filter, ui.weights.value.metric)
  }

  /** A scheduled roll-up for the current filter was scheduled for the context, and is running or attached. */
  ghost predicate ScheduledInv(ui: Ui) {
    && (ui.scheduled.Some? ==> ui.scheduled.value.gen <= ui.filterGen)
    && (ui.scheduled.Some? && ui.scheduled.value.gen == ui.filterGen ==>
        && ui.filterPendingAt.None? && ui.context.Some?
        && ui.scheduled.value.root == ui.context.value.root && ui.scheduled.value.metric == ui.context.value.metric
        && (ui.weightsPending || ui.weights.Some?))
    && (ui.weightsPending ==> WeightsLive(ui))
  }

  ghost predicate RowsInv(e: Engine, ui: Ui) {
    && (ui.largestSig.Some? ==> LargestLive(ui))
    && (ui.rows != [] ==> ui.largestSig.Some?)
    && (ui.largestPending ==> ui.largestSig.Some? && ui.rows == [])
    && (ui.largestSig.Some? && !ui.largestPending ==> ui.rows == Answer(e, Wanted(e, ui, LargestKind)).rows)
  }

  ghost predicate HitsInv(e: Engine, ui: Ui) {
    && (ui.searchSig.Some? ==> SearchLive(e, ui))
    && (ui.hits != [] ==> ui.searchSig.Some?)
    && (ui.searchPending ==> ui.searchSig.Some? && ui.hits == [])
    && (ui.searchSig.Some? && !ui.searchPending ==> ui.hits == Answer(e, Wanted(e, ui, SearchKind)).hits)
  }

  ghost predicate UiInv(e: Engine, ui: Ui) {
    JobsInv(ui) && ContextInv(ui) && AttachedInv(e, ui) && ScheduledInv(ui) && RowsInv(e, ui) && HitsInv(e, ui)
  }

  /** A request in flight that still carries the current id of its kind asks for exactly what is wanted. */
  ghost predicate RequestOk(e: Engine, ui: Ui, r: QueryRequest) {
    var kind := RequestTicket(r).kind;
    r.job <= ui.nextJob && (r.job == JobOf(ui, kind) ==> Pending(ui, kind) && Live(e, ui, kind) && r == Wanted(e, ui, kind))
  }

  ghost predicate MessageOk(e: Engine, ui: Ui, m: QueryMessage) {
    var kind := MessageTicket(m).kind;
    m.job <= ui.nextJob && (m.job == JobOf(ui, kind) ==> Pending(ui, kind) && Live(e, ui, kind) && m == Answer(e, Wanted(e, ui, kind)))
  }

  // ---- How a step may treat a job kind ----------------------------------------------------------------

  /** The job kind keeps its id and everything that decides what is wanted. */
  ghost predicate Kept(e: Engine, ui: Ui, ui': Ui, kind: Kind) {
    && JobOf(ui', kind) == JobOf(ui, kind)
    && (Pending(ui, kind) ==> Pending(ui', kind))
    && (Pending(ui, kind) && Live(e, ui, kind) ==> Live(e, ui', kind) && Wanted(e, ui', kind) == Wanted(e, ui, kind))
  }

  /** A step gives the kind a fresh id, or keeps it. */
  ghost predicate Treats(e: Engine, ui: Ui, ui': Ui, kind: Kind) {
    ui.nextJob <= ui'.nextJob && (ui.nextJob < JobOf(ui', kind) || Kept(e, ui, ui', kind))
  }

  ghost predicate TreatsAll(e: Engine, ui: Ui, ui': Ui) {
    Treats(e, ui, ui', WeightsKind) && Treats(e, ui, ui', LargestKind) && Treats(e, ui, ui', SearchKind)
  }

  /** Flags that are still up after a step of the view were up before, for the same job. */
  ghost predicate FlagsFrom(ui: Ui, ui': Ui) {
    && (ui'.weightsPending ==> ui.weightsPending && ui'.filterJob == ui.filterJob)
    && (ui'.largestPending ==> ui.largestPending && ui'.largestJob == ui.largestJob)
    && (ui'.searchPending ==> ui.searchPending && ui'.searchJob == ui.searchJob)
  }

  /** A step of the view alone: the invariant holds again and nothing in flight is misread. */
  ghost predicate Follows(e: Engine, ui: Ui, ui': Ui) {
    UiInv(e, ui') && TreatsAll(e, ui, ui') && FlagsFrom(ui, ui')
  }

  lemma RequestStaysOk(e: Engine, ui: Ui, ui': Ui, r: QueryRequest)
    requires RequestOk(e, ui, r) && TreatsAll(e, ui, ui')
    ensures RequestOk(e, ui', r)
  {
  }

  lemma MessageStaysOk(e: Engine, ui: Ui, ui': Ui, m: QueryMessage)
    requires MessageOk(e, ui, m) && TreatsAll(e, ui, ui')
    ensures MessageOk(e, ui', m)
  {
  }

  lemma TreatsTransitive(e: Engine, a: Ui, b: Ui, c: Ui)
    requires TreatsAll(e, a, b) && TreatsAll(e, b, c)
    ensures TreatsAll(e, a, c)
  {
  }

  // ---- Events that reset ---------------------------------------------------------------------------------

  ghost predicate AllFresh(ui: Ui, ui': Ui) {
    ui.nextJob < ui'.filterJob && ui.nextJob < ui'.largestJob && ui.nextJob < ui'.searchJob && ui.nextJob <= ui'.nextJob &&
    !ui'.weightsPending && !ui'.largestPending && !ui'.searchPending
  }

  lemma FreshTreats(e: Engine, ui: Ui, ui': Ui)
    requires AllFresh(ui, ui')
    ensures TreatsAll(e, ui, ui') && FlagsFrom(ui, ui')
  {
  }

  /** Results of list jobs up to number `last` are ignored. */
  ghost predicate VoidsLists(e: Engine, last: nat, ui: Ui) {
    forall m: QueryMessage :: m.job <= last && !m.WeightsMessage? ==> Deliver(e, ui, m) == ui
  }

  /** Results of all jobs up to number `last` are ignored. */
  ghost predicate Voids(e: Engine, last: nat, ui: Ui) {
    forall m: QueryMessage :: m.job <= last ==> Deliver(e, ui, m) == ui
  }

  lemma FreshVoids(e: Engine, ui: Ui, ui': Ui)
    requires AllFresh(ui, ui')
    ensures Voids(e, ui.nextJob, ui')
  {
  }

  lemma ResetKeeps(e: Engine, ui: Ui, dropModel: bool, phase: Phase, at: Option<nat>)
    ensures UiInv(e, ResetView(ui, dropModel).(phase := phase, filterPendingAt := at))
    ensures AllFresh(ui, ResetView(ui, dropModel).(phase := phase, filterPendingAt := at))
  {
  }

  lemma DependentsVoid(e: Engine, ui: Ui)
    ensures VoidsLists(e, ui.nextJob, InvalidateDependents(ui))
  {
  }

  /** Whatever came before, a reset view satisfies the invariant and ignores all earlier jobs. */
  lemma ResetSettles(e: Engine, ui: Ui, dropModel: bool)
    ensures UiInv(e, ResetView(ui, dropModel)) && Voids(e, ui.nextJob, ResetView(ui, dropModel))
  {
    var u := ResetView(ui, dropModel);
    assert u == u.(phase := ui.phase, filterPendingAt := None);
    ResetKeeps(e, ui, dropModel, ui.phase, None);
    FreshVoids(e, ui, u);
  }

  lemma ResetIsFresh(ui: Ui, asked: Ui, dropModel: bool)
    requires asked.nextJob == ui.nextJob
    ensures AllFresh(ui, ResetView(asked, dropModel))
  {
  }

  lemma RequestKeeps(e: Engine, ui: Ui, letter: char, deleting: bool)
    requires UiInv(e, ui)
    ensures Follows(e, ui, Request(ui, letter, deleting))
  {
    if !deleting {
      var drive := Some(UpperLetter(letter));
      var asked := ui.(nextRequest := ui.nextRequest + 1, activeRequest := ui.nextRequest + 1, drive := drive, phase := Fetching);
      ResetSettles(e, asked, ui.drive != drive);
      ResetIsFresh(ui, asked, ui.drive != drive);
      FreshTreats(e, ui, ResetView(asked, ui.drive != drive));
    }
  }

  lemma ModelReadyKeeps(e: Engine, ui: Ui, requestId: nat, model: Shared, now: nat)
    requires UiInv(e, ui)
    ensures Follows(e, ui, ModelReady(ui, requestId, model, now))
  {
    if requestId == ui.activeRequest && Some(model.value.driveLetter) == ui.drive {
      ResetKeeps(e, ui.(drill := [model.value.root], model := Some(model)), false, Ready, Some(now));
      FreshTreats(e, ui, ModelReady(ui, requestId, model, now));
    }
  }

  lemma FetchFailedKeeps(e: Engine, ui: Ui, requestId: nat)
    requires UiInv(e, ui)
    ensures Follows(e, ui, FetchFailed(ui, requestId))
  {
    if requestId == ui.activeRequest {
      ResetKeeps(e, ui, true, Failed, None);
      assert FetchFailed(ui, requestId) == ResetView(ui, true).(phase := Failed, filterPendingAt := None);
      FreshTreats(e, ui, FetchFailed(ui, requestId));
    }
  }

  lemma FilterChangedKeeps(e: Engine, ui: Ui, filter: DiskAnalysisFilter, now: nat)
    requires UiInv(e, ui)
    ensures Follows(e, ui, FilterChanged(ui, filter, now))
  {
  }

  lemma SearchChangedKeeps(e: Engine, ui: Ui, text: string, now: nat)
    requires UiInv(e, ui)
    ensures Follows(e, ui, SearchChanged(ui, text, now))
  {
  }

  lemma DrillKeeps(e: Engine, ui: Ui, stack: seq<nat>)
    requires UiInv(e, ui)
    ensures Follows(e, ui, ui.(drill := stack))
  {
  }

  // ---- Scheduling -------------------------------------------------------------------------------------------

  /** `ui` is `before` with the metric and the sort order edited, and the rows perhaps sorted again. */
  ghost predicate EditOf(before: Ui, ui: Ui) {
    && ui == before.(metric := ui.metric, sort := ui.sort, rows := ui.rows)
    && (before.rows == [] ==> ui.rows == [])
    && (ui.metric == before.metric && ui.sort == before.sort ==> ui.rows == before.rows)
  }

  /** Like TreatsAll, but rows requested for another sort order may wait for their replacement. */
  ghost predicate TreatsLoosely(e: Engine, ui: Ui, ui': Ui) {
    && Treats(e, ui, ui', WeightsKind) && Treats(e, ui, ui', SearchKind)
    && (ui.nextJob < ui'.largestJob || (
          && ui'.largestJob == ui.largestJob && (ui.largestPending ==> ui'.largestPending) && ui'.largestSig == ui.largestSig
          && (ui.largestPending ==> Based(ui'))
          && (ui'.sort == ui.sort ==> Kept(e, ui, ui', LargestKind))))
  }

  function Here(ui: Ui): Option<Context>
    requires ui.model.Some?
  {
    Some(Context(ui.model.value.address, CurrentRoot(ui), ui.metric))
  }

  /** The context is the one on screen, stale weights are gone, and rows may still have another sort order. */
  ghost predicate Settling(e: Engine, ui: Ui) {
    && JobsInv(ui) && AttachedInv(e, ui) && HitsInv(e, ui)
    && ui.model.Some? && ui.context == Here(ui)
    && (ui.weights.Some? ==> ui.weights.value.root == CurrentRoot(ui) && ui.weights.value.metric == ui.metric)
    && (ui.scheduled.Some? ==> ui.scheduled.value.gen <= ui.filterGen)
    && (ui.scheduled.Some? && ui.scheduled.value.gen == ui.filterGen ==> ui.filterPendingAt.None?)
    && (ui.scheduled == Some(WeightsSignature(ui.filterGen, CurrentRoot(ui), ui.metric)) ==> ui.weightsPending || ui.weights.Some?)
    && (ui.weightsPending ==> WeightsLive(ui))
    && (ui.rows != [] ==> ui.largestSig.Some?) && (ui.largestSig.Some? ==> Based(ui))
    && (ui.largestPending ==> ui.largestSig.Some?)
    && (ui.largestSig == Some(LargestSigOf(ui)) ==> RowsInv(e, ui))
  }

  lemma EnterUnchanged(e: Engine, before: Ui, ui: Ui)
    requires UiInv(e, before) && EditOf(before, ui) && ui.model.Some? && ui.context == Here(ui)
    ensures DropStaleWeights(EnterContext(ui)) == ui && Settling(e, ui) && TreatsLoosely(e, before, ui)
  {
    assert ui.metric == before.metric;
  }

  /** What a change of context leaves: both lists are empty and their jobs are void. */
  ghost predicate Emptied(before: Ui, ui: Ui) {
    && before.nextJob < ui.largestJob <= ui.nextJob && before.nextJob < ui.searchJob <= ui.nextJob
    && ui.largestCell == ui.largestJob && ui.searchCell == ui.searchJob
    && ui.largestSig.None? && ui.searchSig.None? && !ui.largestPending && !ui.searchPending && ui.rows == [] && ui.hits == []
  }

  lemma EnterEmpties(before: Ui, ui: Ui)
    requires ui.model.Some? && ui.context != Here(ui) && ui.nextJob == before.nextJob
    ensures Emptied(before, DropStaleWeights(EnterContext(ui)))
  {
  }

  lemma EnterChanged(e: Engine, before: Ui, ui: Ui)
    requires UiInv(e, before) && EditOf(before, ui) && ui.model.Some? && ui.context != Here(ui)
    ensures Settling(e, DropStaleWeights(EnterContext(ui))) && TreatsLoosely(e, before, DropStaleWeights(EnterContext(ui)))
  {
    EnterEmpties(before, ui);
    var u := DropStaleWeights(EnterContext(ui));
    assert u.filterJob == before.filterJob && u.weightsCell == before.weightsCell && u.weightsPending == before.weightsPending;
    assert u.scheduled == before.scheduled && u.filterGen == before.filterGen && u.filterPendingAt == before.filterPendingAt;
    assert before.weightsPending ==> before.weights.None? && u.weights.None?;
    assert Kept(e, before, u, WeightsKind);
  }

  lemma EnterSettles(e: Engine, before: Ui, ui: Ui)
    requires UiInv(e, before) && EditOf(before, ui) && ui.model.Some?
    ensures Settling(e, DropStaleWeights(EnterContext(ui))) && TreatsLoosely(e, before, DropStaleWeights(EnterContext(ui)))
  {
    if ui.context == Here(ui) {
      EnterUnchanged(e, before, ui);
    } else {
      EnterChanged(e, before, ui);
    }
  }

  /** After the weights were scheduled, they are right, on their way, or wait for the debounce. */
  ghost predicate WeightsSettled(e: Engine, ui: Ui) {
    && Settling(e, ui) && ScheduledInv(ui)
    && (ui.filter.IsActive() ==> ui.weights.Some? || ui.weightsPending || ui.filterPendingAt.Some?)
    && (!ui.filter.IsActive() ==> ui.weights.None? && !ui.weightsPending && ui.filterPendingAt.None?)
  }

  ghost predicate AllOk(e: Engine, o: Outcome) {
    forall r :: r in o.sent ==> RequestOk(e, o.ui, r)
  }

  predicate WeightsNeeded(ui: Ui, now: nat)
    requires ui.model.Some?
  {
    ui.filter.IsActive() && ui.scheduled != Some(WeightsSignature(ui.filterGen, CurrentRoot(ui), ui.metric)) && Due(ui.filterPendingAt, now)
  }

  lemma WeightsScheduled(e: Engine, before: Ui, ui: Ui, now: nat)
    requires Settling(e, ui) && TreatsLoosely(e, before, ui) && before.nextJob <= ui.nextJob && WeightsNeeded(ui, now)
    ensures WeightsSettled(e, ScheduleWeights(ui, now).ui) && TreatsLoosely(e, before, ScheduleWeights(ui, now).ui)
    ensures AllOk(e, ScheduleWeights(ui, now))
  {
    var u := ScheduleWeights(ui, now).ui;
    assert ui.weights.None?;
    assert RowsInv(e, ui) ==> RowsInv(e, u);
  }

  lemma WeightsSettle(e: Engine, before: Ui, ui: Ui, now: nat)
    requires Settling(e, ui) && TreatsLoosely(e, before, ui) && before.nextJob <= ui.nextJob
    ensures WeightsSettled(e, ScheduleWeights(ui, now).ui) && TreatsLoosely(e, before, ScheduleWeights(ui, now).ui)
    ensures AllOk(e, ScheduleWeights(ui, now))
  {
    if WeightsNeeded(ui, now) {
      WeightsScheduled(e, before, ui, now);
    } else if ui.filter.IsActive() {
      assert ScheduleWeights(ui, now).ui == ui;
    } else {
      assert ui.weights.None? && !ui.weightsPending;
    }
  }

  lemma LargestScheduled(e: Engine, before: Ui, ui: Ui)
    requires WeightsSettled(e, ui) && TreatsLoosely(e, before, ui) && before.nextJob <= ui.nextJob && WeightsValid(ui)
    requires ui.largestSig != Some(LargestSigOf(ui))
    ensures UiInv(e, ScheduleLargest(ui).ui) && TreatsAll(e, before, ScheduleLargest(ui).ui)
    ensures TreatsAll(e, ui, ScheduleLargest(ui).ui) && AllOk(e, ScheduleLargest(ui))
    ensures LargestLive(ScheduleLargest(ui).ui) && ScheduleLargest(ui).ui.context == Here(ScheduleLargest(ui).ui)
  {
    var u := ScheduleLargest(ui).ui;
    assert Based(ui) && Based(u);
    assert HitsInv(e, u);
    assert Treats(e, before, u, WeightsKind) && Treats(e, before, u, SearchKind);
  }

  lemma LargestSettles(e: Engine, before: Ui, ui: Ui)
    requires WeightsSettled(e, ui) && TreatsLoosely(e, before, ui) && before.nextJob <= ui.nextJob && WeightsValid(ui)
    ensures UiInv(e, ScheduleLargest(ui).ui) && TreatsAll(e, before, ScheduleLargest(ui).ui)
    ensures TreatsAll(e, ui, ScheduleLargest(ui).ui) && AllOk(e, ScheduleLargest(ui))
    ensures LargestLive(ScheduleLargest(ui).ui) && ScheduleLargest(ui).ui.context == Here(ScheduleLargest(ui).ui)
  {
    if ui.largestSig != Some(LargestSigOf(ui)) {
      LargestScheduled(e, before, ui);
    } else {
      assert ScheduleLargest(ui).ui == ui;
    }
  }

  lemma SearchScheduled(e: Engine, ui: Ui, now: nat)
    requires UiInv(e, ui) && Based(ui) && ui.context == Here(ui) && e.trim(ui.searchText) != ""
    requires ui.searchSig != Some(SearchSigOf(e, ui)) && Due(ui.searchPendingAt, now)
    ensures UiInv(e, ScheduleSearch(e, ui, now).ui) && TreatsAll(e, ui, ScheduleSearch(e, ui, now).ui)
    ensures AllOk(e, ScheduleSearch(e, ui, now))
  {
  }

  lemma SearchSettles(e: Engine, ui: Ui, now: nat)
    requires UiInv(e, ui) && Based(ui) && ui.context == Here(ui)
    ensures UiInv(e, ScheduleSearch(e, ui, now).ui) && TreatsAll(e, ui, ScheduleSearch(e, ui, now).ui)
    ensures AllOk(e, ScheduleSearch(e, ui, now))
  {
    if e.trim(ui.searchText) != "" && ui.searchSig != Some(SearchSigOf(e, ui)) && Due(ui.searchPendingAt, now) {
      SearchScheduled(e, ui, now);
    }
  }

  lemma SentStaysOk(e: Engine, o: Outcome, ui: Ui)
    requires AllOk(e, o) && TreatsAll(e, o.ui, ui)
    ensures forall r :: r in o.sent ==> RequestOk(e, ui, r)
  {
    forall r | r in o.sent ensures RequestOk(e, ui, r) {
      RequestStaysOk(e, o.ui, ui, r);
    }
  }

  /** Without valid weights for an active filter nothing is requested, and nothing was pending. */
  lemma NothingWithoutWeights(e: Engine, before: Ui, ui: Ui)
    requires WeightsSettled(e, ui) && TreatsLoosely(e, before, ui) && ui.filter.IsActive() && !WeightsValid(ui)
    ensures UiInv(e, ui) && TreatsAll(e, before, ui)
  {
    assert ui.weights.None? && !Based(ui);
    assert RowsInv(e, ui) && Treats(e, before, ui, LargestKind);
  }

  lemma WeightsAreValid(e: Engine, ui: Ui)
    requires WeightsSettled(e, ui) && ui.filter.IsActive() && ui.weights.Some?
    ensures WeightsValid(ui)
  {
  }

  lemma ListsKeep(e: Engine, before: Ui, ui: Ui, now: nat)
    requires WeightsSettled(e, ui) && TreatsLoosely(e, before, ui) && before.nextJob <= ui.nextJob
    ensures UiInv(e, ScheduleLists(e, ui, now).ui) && TreatsAll(e, before, ScheduleLists(e, ui, now).ui)
    ensures AllOk(e, ScheduleLists(e, ui, now)) && TreatsAll(e, ui, ScheduleLists(e, ui, now).ui)
  {
    if ui.filter.IsActive() && !WeightsValid(ui) {
      NothingWithoutWeights(e, before, ui);
    } else {
      LargestSettles(e, before, ui);
      var l := ScheduleLargest(ui);
      SearchSettles(e, l.ui, now);
      var s := ScheduleSearch(e, l.ui, now);
      TreatsTransitive(e, before, l.ui, s.ui);
      TreatsTransitive(e, ui, l.ui, s.ui);
      SentStaysOk(e, l, s.ui);
    }
  }

  /** Scheduling keeps the invariant, whatever was edited just before. */
  lemma SyncKeeps(e: Engine, before: Ui, ui: Ui, now: nat)
    requires UiInv(e, before) && EditOf(before, ui)
    ensures UiInv(e, Sync(e, ui, now).ui) && TreatsAll(e, before, Sync(e, ui, now).ui) && AllOk(e, Sync(e, ui, now))
  {
    if ui.model.Some? {
      EnterSettles(e, before, ui);
      var entered := DropStaleWeights(EnterContext(ui));
      WeightsSettle(e, before, entered, now);
      var w := ScheduleWeights(entered, now);
      ListsKeep(e, before, w.ui, now);
      SentStaysOk(e, w, ScheduleLists(e, w.ui, now).ui);
    }
  }

  lemma SortKeeps(e: Engine, before: Ui, sort: LargestSort, resort: bool)
    requires UiInv(e, before) && e.Lawful()
    ensures EditOf(before, if resort then Sorted(e, before.(sort := sort)) else before.(sort := sort))
  {
  }

  // ---- Results --------------------------------------------------------------------------------------------

  lemma DeliverWeights(e: Engine, ui: Ui, m: QueryMessage)
    requires UiInv(e, ui) && MessageOk(e, ui, m) && m.WeightsMessage?
    ensures UiInv(e, Deliver(e, ui, m))
  {
  }

  lemma DeliverLargest(e: Engine, ui: Ui, m: QueryMessage)
    requires UiInv(e, ui) && MessageOk(e, ui, m) && e.Lawful() && m.LargestMessage?
    ensures UiInv(e, Deliver(e, ui, m))
  {
  }

  lemma DeliverKeeps(e: Engine, ui: Ui, m: QueryMessage)
    requires UiInv(e, ui) && MessageOk(e, ui, m) && e.Lawful()
    ensures UiInv(e, Deliver(e, ui, m))
  {
    match m
    case WeightsMessage(_, _, _, _) => DeliverWeights(e, ui, m);
    case LargestMessage(_, _) => DeliverLargest(e, ui, m);
    case SearchMessage(_, _) =>
  }

  /** A delivery does not disturb other jobs in flight. */
  lemma DeliverRequest(e: Engine, ui: Ui, m: QueryMessage, r: QueryRequest)
    requires UiInv(e, ui) && MessageOk(e, ui, m) && RequestOk(e, ui, r) && RequestTicket(r) != MessageTicket(m)
    ensures RequestOk(e, Deliver(e, ui, m), r)
  {
  }

  lemma DeliverMessage(e: Engine, ui: Ui, m: QueryMessage, n: QueryMessage)
    requires UiInv(e, ui) && MessageOk(e, ui, m) && MessageOk(e, ui, n) && MessageTicket(n) != MessageTicket(m)
    ensures MessageOk(e, Deliver(e, ui, m), n)
  {
  }
}
