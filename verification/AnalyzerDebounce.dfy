/** When jobs are queued after an edit: not within a quarter of a second, and with the first frame from then on. */
module AnalyzerDebounce {
  import opened AnalyzerHistory
  import opened AnalyzerInvariant
  import opened AnalyzerProgress
  import opened AnalyzerProtocol
  import opened AnalyzerRuns
  import opened AnalyzerTheorems
  import opened Wrappers

  // ---- Quiet stretches -------------------------------------------------------------------------

  /** An event that leaves fetches alone and schedules nothing from `due` on. */
  predicate Harmless(events: seq<Event>, k: nat, due: nat)
    requires k < |events|
  {
    !Resets(events, k) && (Schedules(events[k]) ==> events[k].now < due)
  }

  /** Between the events `i` and `k` everything is harmless, and the filter is not edited again. */
  predicate FilterStays(events: seq<Event>, i: nat, k: nat, due: nat)
    requires i < k <= |events|
  {
    forall j :: i < j < k ==> Harmless(events, j, due) && !events[j].FilterEdited?
  }

  predicate TextStays(events: seq<Event>, i: nat, k: nat, due: nat)
    requires i < k <= |events|
  {
    forall j :: i < j < k ==> Harmless(events, j, due) && !events[j].SearchEdited?
  }

  /** An event that means nothing to the fetches, seen from the view it happens in. */
  predicate Ignores(ui: Ui, event: Event) {
    && (event.Asks? ==> event.deleting)
    && (event.ModelArrives? ==> event.requestId != ui.activeRequest || Some(event.model.value.driveLetter) != ui.drive)
    && (event.FetchFails? ==> event.requestId != ui.activeRequest)
  }

  lemma HarmlessIsIgnored(e: Engine, events: seq<Event>, k: nat, due: nat)
    requires k < |events| && Harmless(events, k, due)
    ensures Ignores(Run(e, events[..k]).ui, events[k])
  {
    ChoicesOfRun(e, events, k);
    DriveAt(events, k);
  }

  // ---- The filter --------------------------------------------------------------------------------

  /** The filter was edited at `t` and still waits, or it lets everything pass. */
  ghost predicate FilterWaits(ui: Ui, t: nat) {
    ui.filterPendingAt == Some(t) || !ui.filter.IsActive()
  }

  lemma ContextKeepsFilter(ui: Ui, t: nat)
    requires ui.model.Some? && FilterWaits(ui, t)
    ensures FilterWaits(DropStaleWeights(EnterContext(ui)), t)
  {
    EnterContextKeepsPending(ui);
    DropKeepsPending(EnterContext(ui));
  }

  lemma WeightsNotYet(ui: Ui, t: nat, now: nat)
    requires ui.model.Some? && FilterWaits(ui, t) && now < t + 250
    ensures FilterWaits(ScheduleWeights(ui, now).ui, t) && ScheduleWeights(ui, now).sent == []
  {
  }

  lemma ListsAskNoWeights(e: Engine, ui: Ui, now: nat)
    requires ui.model.Some?
    ensures forall r :: r in ScheduleLists(e, ui, now).sent ==> !r.WeightsRequest?
  {
  }

  lemma SyncAsksNoWeights(e: Engine, ui: Ui, t: nat, now: nat)
    requires FilterWaits(ui, t) && now < t + 250
    ensures FilterWaits(Sync(e, ui, now).ui, t) && forall r :: r in Sync(e, ui, now).sent ==> !r.WeightsRequest?
  {
    if ui.model.Some? {
      ContextKeepsFilter(ui, t);
      var entered := DropStaleWeights(EnterContext(ui));
      WeightsNotYet(entered, t, now);
      var w := ScheduleWeights(entered, now);
      ListsKeepBasis(e, w.ui, now);
      ListsAskNoWeights(e, w.ui, now);
      assert Sync(e, ui, now) == Outcome(ScheduleLists(e, w.ui, now).ui, w.sent + ScheduleLists(e, w.ui, now).sent);
    }
  }

  /** Every roll-up asked for was asked for before. */
  ghost predicate NoNewWeights(s: System, s': System) {
    forall r :: r in s'.requests && r.WeightsRequest? ==> r in s.requests
  }

  lemma ScheduledFilterStep(e: Engine, s: System, event: Event, t: nat)
    requires FilterWaits(s.ui, t) && Schedules(event) && event.now < t + 250
    ensures FilterWaits(Step(e, s, event).ui, t) && NoNewWeights(s, Step(e, s, event))
  {
    var edited := Edited(e, s.ui, event);
    SyncAsksNoWeights(e, edited, t, event.now);
    assert Step(e, s, event) == Queue(s, Sync(e, edited, event.now));
  }

  lemma FilterStep(e: Engine, s: System, event: Event, t: nat)
    requires FilterWaits(s.ui, t) && Ignores(s.ui, event) && !event.FilterEdited? && (Schedules(event) ==> event.now < t + 250)
    ensures FilterWaits(Step(e, s, event).ui, t) && NoNewWeights(s, Step(e, s, event))
  {
    if Schedules(event) {
      ScheduledFilterStep(e, s, event, t);
    }
  }

  /** The event restarts the debounce of the filter. */
  predicate StartsDebounce(events: seq<Event>, i: nat)
    requires i < |events|
  {
    events[i].FilterEdited? || Arrives(events, i)
  }

  lemma DebounceStarts(e: Engine, events: seq<Event>, i: nat)
    requires i < |events| && StartsDebounce(events, i)
    ensures Run(e, events[..i + 1]).ui.filterPendingAt == Some(events[i].now)
  {
    assert events[..i + 1][..i] == events[..i];
    ChoicesOfRun(e, events, i);
    DriveAt(events, i);
  }

  lemma HarmlessFilterStep(e: Engine, events: seq<Event>, k: nat, t: nat)
    requires k < |events| && Harmless(events, k, t + 250) && !events[k].FilterEdited? && FilterWaits(Run(e, events[..k]).ui, t)
    ensures FilterWaits(Run(e, events[..k + 1]).ui, t) && NoNewWeights(Run(e, events[..k]), Run(e, events[..k + 1]))
  {
    HarmlessIsIgnored(e, events, k, t + 250);
    assert events[..k + 1][..k] == events[..k];
    FilterStep(e, Run(e, events[..k]), events[k], t);
  }

  lemma {:induction false} FilterWaitsAlong(e: Engine, events: seq<Event>, i: nat, k: nat)
    requires i < k <= |events| && StartsDebounce(events, i) && FilterStays(events, i, k, events[i].now + 250)
    ensures FilterWaits(Run(e, events[..k]).ui, events[i].now)
    decreases k
  {
    if k == i + 1 {
      DebounceStarts(e, events, i);
    } else {
      assert Harmless(events, k - 1, events[i].now + 250);
      FilterWaitsAlong(e, events, i, k - 1);
      HarmlessFilterStep(e, events, k - 1, events[i].now);
    }
  }

  /** For 250 ms after an edit of the filter or a new model, no roll-up is asked for, whatever the user navigates, sorts, measures or searches. */
  lemma NoWeightsWithinDebounce(e: Engine, events: seq<Event>, i: nat, k: nat)
    requires i < k < |events| && StartsDebounce(events, i) && FilterStays(events, i, k + 1, events[i].now + 250)
    ensures NoNewWeights(Run(e, events[..k]), Run(e, events[..k + 1]))
  {
    FilterWaitsAlong(e, events, i, k);
    HarmlessFilterStep(e, events, k, events[i].now);
  }

  // ---- The search text -----------------------------------------------------------------------------

  /** The text was edited at `t` and still waits, or it is blank. */
  ghost predicate SearchWaits(e: Engine, ui: Ui, t: nat) {
    ui.searchPendingAt == Some(t) || e.trim(ui.searchText) == ""
  }

  lemma ContextKeepsSearch(e: Engine, ui: Ui, t: nat)
    requires ui.model.Some? && SearchWaits(e, ui, t)
    ensures SearchWaits(e, DropStaleWeights(EnterContext(ui)), t)
  {
    EnterContextKeepsPending(ui);
    DropKeepsPending(EnterContext(ui));
    EnterKeepsChoices(ui);
    DropKeepsChoices(EnterContext(ui));
  }

  lemma WeightsAskNoSearch(e: Engine, ui: Ui, t: nat, now: nat)
    requires ui.model.Some? && SearchWaits(e, ui, t)
    ensures SearchWaits(e, ScheduleWeights(ui, now).ui, t) && forall r :: r in ScheduleWeights(ui, now).sent ==> !r.SearchRequest?
  {
  }

  lemma SearchNotYet(e: Engine, ui: Ui, t: nat, now: nat)
    requires ui.model.Some? && SearchWaits(e, ui, t) && now < t + 250
    ensures SearchWaits(e, ScheduleSearch(e, ui, now).ui, t) && ScheduleSearch(e, ui, now).sent == []
  {
  }

  lemma LargestAsksNoSearch(e: Engine, ui: Ui, t: nat)
    requires ui.model.Some? && SearchWaits(e, ui, t)
    ensures SearchWaits(e, ScheduleLargest(ui).ui, t) && forall r :: r in ScheduleLargest(ui).sent ==> !r.SearchRequest?
  {
  }

  lemma ListsAskNoSearch(e: Engine, ui: Ui, t: nat, now: nat)
    requires ui.model.Some? && SearchWaits(e, ui, t) && now < t + 250
    ensures SearchWaits(e, ScheduleLists(e, ui, now).ui, t) && forall r :: r in ScheduleLists(e, ui, now).sent ==> !r.SearchRequest?
  {
    LargestAsksNoSearch(e, ui, t);
    SearchNotYet(e, ScheduleLargest(ui).ui, t, now);
  }

  lemma SyncAsksNoSearch(e: Engine, ui: Ui, t: nat, now: nat)
    requires SearchWaits(e, ui, t) && now < t + 250
    ensures SearchWaits(e, Sync(e, ui, now).ui, t) && forall r :: r in Sync(e, ui, now).sent ==> !r.SearchRequest?
  {
    if ui.model.Some? {
      ContextKeepsSearch(e, ui, t);
      var entered := DropStaleWeights(EnterContext(ui));
      WeightsAskNoSearch(e, entered, t, now);
      var w := ScheduleWeights(entered, now);
      ListsAskNoSearch(e, w.ui, t, now);
      assert Sync(e, ui, now) == Outcome(ScheduleLists(e, w.ui, now).ui, w.sent + ScheduleLists(e, w.ui, now).sent);
    }
  }

  /** Every search asked for was asked for before. */
  ghost predicate NoNewSearch(s: System, s': System) {
    forall r :: r in s'.requests && r.SearchRequest? ==> r in s.requests
  }

  lemma ScheduledSearchStep(e: Engine, s: System, event: Event, t: nat)
    requires SearchWaits(e, s.ui, t) && Schedules(event) && event.now < t + 250
    ensures SearchWaits(e, Step(e, s, event).ui, t) && NoNewSearch(s, Step(e, s, event))
  {
    var edited := Edited(e, s.ui, event);
    SyncAsksNoSearch(e, edited, t, event.now);
    assert Step(e, s, event) == Queue(s, Sync(e, edited, event.now));
  }

  lemma SearchStep(e: Engine, s: System, event: Event, t: nat)
    requires SearchWaits(e, s.ui, t) && Ignores(s.ui, event) && !event.SearchEdited? && (Schedules(event) ==> event.now < t + 250)
    ensures SearchWaits(e, Step(e, s, event).ui, t) && NoNewSearch(s, Step(e, s, event))
  {
    if Schedules(event) {
      ScheduledSearchStep(e, s, event, t);
    }
  }

  lemma HarmlessSearchStep(e: Engine, events: seq<Event>, k: nat, t: nat)
    requires k < |events| && Harmless(events, k, t + 250) && !events[k].SearchEdited? && SearchWaits(e, Run(e, events[..k]).ui, t)
    ensures SearchWaits(e, Run(e, events[..k + 1]).ui, t) && NoNewSearch(Run(e, events[..k]), Run(e, events[..k + 1]))
  {
    HarmlessIsIgnored(e, events, k, t + 250);
    assert events[..k + 1][..k] == events[..k];
    SearchStep(e, Run(e, events[..k]), events[k], t);
  }

  lemma TextStarts(e: Engine, events: seq<Event>, i: nat)
    requires i < |events| && events[i].SearchEdited?
    ensures Run(e, events[..i + 1]).ui.searchPendingAt == Some(events[i].now)
  {
    assert events[..i + 1][..i] == events[..i];
  }

  lemma {:induction false} SearchWaitsAlong(e: Engine, events: seq<Event>, i: nat, k: nat)
    requires i < k <= |events| && events[i].SearchEdited? && TextStays(events, i, k, events[i].now + 250)
    ensures SearchWaits(e, Run(e, events[..k]).ui, events[i].now)
    decreases k
  {
    if k == i + 1 {
      TextStarts(e, events, i);
    } else {
      assert Harmless(events, k - 1, events[i].now + 250);
      SearchWaitsAlong(e, events, i, k - 1);
      HarmlessSearchStep(e, events, k - 1, events[i].now);
    }
  }

  /** For 250 ms after an edit of the search text no search is asked for. */
  lemma NoSearchWithinDebounce(e: Engine, events: seq<Event>, i: nat, k: nat)
    requires i < k < |events| && events[i].SearchEdited? && TextStays(events, i, k + 1, events[i].now + 250)
    ensures NoNewSearch(Run(e, events[..k]), Run(e, events[..k + 1]))
  {
    SearchWaitsAlong(e, events, i, k);
    HarmlessSearchStep(e, events, k, events[i].now);
  }

  // ---- The frame after the debounce ----------------------------------------------------------------

  /** From 250 ms on, the first frame asks for the roll-up of the filter, the folder and the metric on screen. */
  lemma DueFilterIsAsked(e: Engine, events: seq<Event>, ui: Ui, now: nat)
    requires e.Lawful() && ui == Run(e, events).ui && ui.model.Some? && ui.filter.IsActive()
    requires ui.filterPendingAt.Some? && now >= ui.filterPendingAt.value + 250
    ensures exists job :: WeightsRequest(job, ui.model.value, CurrentRoot(ui), ui.filter, ui.metric) in Sync(e, ui, now).sent
    ensures Sync(e, ui, now).ui.filterPendingAt.None?
  {
    RunKeeps(e, events);
    DueFilter(e, ui, now);
  }

  lemma WeightsAreDue(ui: Ui, now: nat)
    requires ui.model.Some? && ui.filter.IsActive() && Due(ui.filterPendingAt, now)
    requires ui.scheduled.Some? ==> ui.scheduled.value.gen != ui.filterGen
    ensures ScheduleWeights(ui, now).sent == [WeightsRequest(ui.nextJob + 1, ui.model.value, CurrentRoot(ui), ui.filter, ui.metric)]
    ensures ScheduleWeights(ui, now).ui.filterPendingAt.None?
  {
  }

  lemma EnterKeepsPlan(ui: Ui)
    requires ui.model.Some?
    ensures EnterContext(ui).scheduled == ui.scheduled && EnterContext(ui).filterGen == ui.filterGen
  {
  }

  lemma DropKeepsPlan(ui: Ui)
    requires ui.model.Some?
    ensures DropStaleWeights(ui).scheduled == ui.scheduled && DropStaleWeights(ui).filterGen == ui.filterGen
  {
  }

  lemma DueFilter(e: Engine, ui: Ui, now: nat)
    requires UiInv(e, ui) && ui.model.Some? && ui.filter.IsActive()
    requires ui.filterPendingAt.Some? && now >= ui.filterPendingAt.value + 250
    ensures exists job :: WeightsRequest(job, ui.model.value, CurrentRoot(ui), ui.filter, ui.metric) in Sync(e, ui, now).sent
    ensures Sync(e, ui, now).ui.filterPendingAt.None?
  {
    EnterKeepsPlan(ui);
    DropKeepsPlan(EnterContext(ui));
    EnterContextKeepsPending(ui);
    DropKeepsPending(EnterContext(ui));
    var entered := DropStaleWeights(EnterContext(ui));
    WeightsAreDue(entered, now);
    var w := ScheduleWeights(entered, now);
    ListsKeepBasis(e, w.ui, now);
    assert w.sent[0] in w.sent + ScheduleLists(e, w.ui, now).sent;
    assert Sync(e, ui, now) == Outcome(ScheduleLists(e, w.ui, now).ui, w.sent + ScheduleLists(e, w.ui, now).sent);
  }

  /** The lists can be asked for: no roll-up is called for, or the right one is attached. */
  predicate ListsReady(ui: Ui)
    requires ui.model.Some?
  {
    !ui.filter.IsActive() || WeightsValid(ui)
  }

  /** One of the requests is a search for exactly this. */
  ghost predicate AsksSearch(sent: seq<QueryRequest>, model: Shared, root: nat, query: string, matches: Option<seq<bool>>) {
    exists job :: SearchRequest(job, model, root, query, matches) in sent
  }

  lemma SearchIsDue(e: Engine, ui: Ui, now: nat)
    requires ui.model.Some? && TextWaits(ui) && ui.searchPendingAt.Some? && now >= ui.searchPendingAt.value + 250
    requires e.trim(ui.searchText) != ""
    ensures ScheduleSearch(e, ui, now).sent ==
      [SearchRequest(ui.nextJob + 1, ui.model.value, CurrentRoot(ui), e.trim(ui.searchText), MatchesOf(ui.weights))]
    ensures ScheduleSearch(e, ui, now).ui.searchPendingAt.None? && ScheduleSearch(e, ui, now).ui.searchOpen
  {
  }

  lemma BlankTextCloses(e: Engine, ui: Ui, now: nat)
    requires ui.model.Some? && e.trim(ui.searchText) == ""
    ensures !ScheduleSearch(e, ui, now).ui.searchOpen && ScheduleSearch(e, ui, now).ui.hits == []
  {
  }

  lemma LargestKeepsSearch(ui: Ui)
    requires ui.model.Some?
    ensures var u := ScheduleLargest(ui).ui;
      u.searchPendingAt == ui.searchPendingAt && u.searchSig == ui.searchSig && u.weights == ui.weights && u.filterJob == ui.filterJob
  {
  }

  lemma DueListsAskSearch(e: Engine, ui: Ui, now: nat)
    requires ui.model.Some? && ListsReady(ui) && TextWaits(ui)
    requires e.trim(ui.searchText) != "" && ui.searchPendingAt.Some? && now >= ui.searchPendingAt.value + 250
    ensures AsksSearch(ScheduleLists(e, ui, now).sent, ui.model.value, CurrentRoot(ui), e.trim(ui.searchText), MatchesOf(ui.weights))
    ensures ScheduleLists(e, ui, now).ui.searchPendingAt.None? && ScheduleLists(e, ui, now).ui.searchOpen
  {
    LargestKeepsSearch(ui);
    LargestKeepsChoices(ui);
    var l := ScheduleLargest(ui);
    SearchIsDue(e, l.ui, now);
    var s := ScheduleSearch(e, l.ui, now);
    assert s.sent[0] in l.sent + s.sent;
  }

  /** Scheduling is the weights step followed by the lists step. */
  lemma SyncEndsWithLists(e: Engine, ui: Ui, now: nat) returns (w: Outcome)
    requires ui.model.Some?
    ensures w == ScheduleWeights(DropStaleWeights(EnterContext(ui)), now) && ChoicesOf(w.ui) == ChoicesOf(ui)
    ensures Sync(e, ui, now) == Outcome(ScheduleLists(e, w.ui, now).ui, w.sent + ScheduleLists(e, w.ui, now).sent)
    ensures TextWaits(ui) ==> TextWaits(w.ui)
    ensures w.ui.searchPendingAt == ui.searchPendingAt
  {
    EnterKeepsChoices(ui);
    DropKeepsChoices(EnterContext(ui));
    EnterContextKeepsPending(ui);
    DropKeepsPending(EnterContext(ui));
    var entered := DropStaleWeights(EnterContext(ui));
    WeightsKeepChoices(entered, now);
    WeightsKeepSearchTimer(entered, now);
    w := ScheduleWeights(entered, now);
    if TextWaits(ui) {
      EnterKeepsText(ui);
      WeightsKeepText(entered, now);
    }
  }

  lemma WeightsKeepSearchTimer(ui: Ui, now: nat)
    requires ui.model.Some?
    ensures ScheduleWeights(ui, now).ui.searchPendingAt == ui.searchPendingAt
  {
  }

  lemma ListsStayReady(e: Engine, ui: Ui, now: nat)
    requires ui.model.Some?
    ensures ListsReady(ScheduleLists(e, ui, now).ui) <==> ListsReady(ui)
  {
    ListsKeepBasis(e, ui, now);
    ListsKeepJob(e, ui, now);
  }

  lemma ListsKeepJob(e: Engine, ui: Ui, now: nat)
    requires ui.model.Some?
    ensures ScheduleLists(e, ui, now).ui.filterJob == ui.filterJob
  {
    LargestKeepsSearch(ui);
    SearchKeepsJob(e, ScheduleLargest(ui).ui, now);
  }

  lemma SearchKeepsJob(e: Engine, ui: Ui, now: nat)
    requires ui.model.Some?
    ensures ScheduleSearch(e, ui, now).ui.filterJob == ui.filterJob
  {
  }

  /** From 250 ms on, the first frame in which the roll-up of the filter is there asks for the text, and opens the list of hits. */
  lemma DueSearchIsAsked(e: Engine, events: seq<Event>, ui: Ui, now: nat, u: Ui)
    requires ui == Run(e, events).ui && ui.model.Some? && u == Sync(e, ui, now).ui && ListsReady(u)
    requires e.trim(ui.searchText) != "" && ui.searchPendingAt.Some? && now >= ui.searchPendingAt.value + 250
    ensures AsksSearch(Sync(e, ui, now).sent, ui.model.value, CurrentRoot(ui), e.trim(ui.searchText), MatchesOf(u.weights))
    ensures u.searchPendingAt.None? && u.searchOpen
  {
    RunKeepsText(e, events);
    var w := SyncEndsWithLists(e, ui, now);
    ListsStayReady(e, w.ui, now);
    ListsKeepBasis(e, w.ui, now);
    DueListsAskSearch(e, w.ui, now);
    var lists := ScheduleLists(e, w.ui, now);
    var job :| SearchRequest(job, ui.model.value, CurrentRoot(ui), e.trim(ui.searchText), MatchesOf(u.weights)) in lists.sent;
    assert SearchRequest(job, ui.model.value, CurrentRoot(ui), e.trim(ui.searchText), MatchesOf(u.weights)) in w.sent + lists.sent;
  }

  // ---- The list of hits ------------------------------------------------------------------------------

  /** Blank text closes the list. */
  lemma BlankSearchIsClosed(e: Engine, ui: Ui, now: nat)
    requires ui.model.Some? && ListsReady(Sync(e, ui, now).ui) && e.trim(ui.searchText) == ""
    ensures !Sync(e, ui, now).ui.searchOpen && Sync(e, ui, now).ui.hits == []
  {
    var w := SyncEndsWithLists(e, ui, now);
    ListsStayReady(e, w.ui, now);
    LargestKeepsChoices(w.ui);
    BlankTextCloses(e, ScheduleLargest(w.ui).ui, now);
  }

  /** Hits are listed, or asked for, only while the list is open. */
  ghost predicate PanelOpen(ui: Ui) {
    ui.hits != [] || ui.searchSig.Some? ==> ui.searchOpen
  }

  lemma SyncKeepsPanel(e: Engine, ui: Ui, now: nat)
    requires PanelOpen(ui)
    ensures PanelOpen(Sync(e, ui, now).ui)
  {
    if ui.model.Some? {
      ContextKeepsPanel(ui);
      var entered := DropStaleWeights(EnterContext(ui));
      WeightsKeepPanel(entered, now);
      ListsKeepPanel(e, ScheduleWeights(entered, now).ui, now);
    }
  }

  lemma ContextKeepsPanel(ui: Ui)
    requires ui.model.Some? && PanelOpen(ui)
    ensures PanelOpen(DropStaleWeights(EnterContext(ui)))
  {
  }

  lemma WeightsKeepPanel(ui: Ui, now: nat)
    requires ui.model.Some? && PanelOpen(ui)
    ensures PanelOpen(ScheduleWeights(ui, now).ui)
  {
  }

  lemma ListsKeepPanel(e: Engine, ui: Ui, now: nat)
    requires ui.model.Some? && PanelOpen(ui)
    ensures PanelOpen(ScheduleLists(e, ui, now).ui)
  {
  }

  lemma EditedKeepsPanel(e: Engine, ui: Ui, event: Event)
    requires PanelOpen(ui) && Schedules(event)
    ensures PanelOpen(Edited(e, ui, event))
  {
  }

  lemma StepKeepsPanel(e: Engine, s: System, event: Event)
    requires PanelOpen(s.ui)
    ensures PanelOpen(Step(e, s, event).ui)
  {
    if Schedules(event) {
      EditedKeepsPanel(e, s.ui, event);
      SyncKeepsPanel(e, Edited(e, s.ui, event), event.now);
      StepIsSync(e, s, event);
    }
  }

  lemma {:induction false} HitsAreOpen(e: Engine, events: seq<Event>)
    ensures PanelOpen(Run(e, events).ui)
  {
    if events != [] {
      HitsAreOpen(e, events[..|events| - 1]);
      StepKeepsPanel(e, Run(e, events[..|events| - 1]), events[|events| - 1]);
    }
  }
}
