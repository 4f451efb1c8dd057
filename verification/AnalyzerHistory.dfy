/** What the window shows in terms of the events so far: its drive, its model, the last edits, and the debounce. */
module AnalyzerHistory {
  import opened AnalyzerProtocol
  import opened AnalyzerTheorems
  import opened SizeFilter
  import opened Wrappers

  // ---- What an event is for the fetches -------------------------------------------------------

  /** A fetch starts: asking is refused only while files are being deleted. */
  predicate Starts(event: Event) {
    event.Asks? && !event.deleting
  }

  /** How many of the first `j` events started a fetch. */
  function Started(events: seq<Event>, j: nat): nat
    requires j <= |events|
  {
    if j == 0 then 0 else Started(events, j - 1) + if Starts(events[j - 1]) then 1 else 0
  }

  /** The drive that the last of these fetches is for. */
  function Chosen(events: seq<Event>, j: nat): Option<char>
    requires j <= |events|
  {
    if j == 0 then None else if Starts(events[j - 1]) then Some(UpperLetter(events[j - 1].letter)) else Chosen(events, j - 1)
  }

  /** The model of the chosen drive arrives, for the fetch that was started last. */
  predicate Arrives(events: seq<Event>, i: nat)
    requires i < |events|
  {
    events[i].ModelArrives? && events[i].requestId == Started(events, i) && Some(events[i].model.value.driveLetter) == Chosen(events, i)
  }

  /** The fetch that was started last fails. */
  predicate Fails(events: seq<Event>, i: nat)
    requires i < |events|
  {
    events[i].FetchFails? && events[i].requestId == Started(events, i)
  }

  /** Another drive is chosen. */
  predicate Switches(events: seq<Event>, i: nat)
    requires i < |events|
  {
    Starts(events[i]) && Chosen(events, i) != Some(UpperLetter(events[i].letter))
  }

  /** Anything that decides the phase of the window and restarts its jobs. */
  predicate Resets(events: seq<Event>, i: nat)
    requires i < |events|
  {
    Starts(events[i]) || Arrives(events, i) || Fails(events, i)
  }

  // ---- The choices of a view, and what a step does to them -------------------------------------

  /** The part of a view that scheduling and results leave alone. */
  datatype Choices = Choices(
    drive: Option<char>, phase: Phase, model: Option<Shared>, drill: seq<nat>, next: nat, active: nat,
    filter: DiskAnalysisFilter, text: string, metric: SizeMetric, sort: LargestSort)

  function ChoicesOf(ui: Ui): Choices {
    Choices(ui.drive, ui.phase, ui.model, ui.drill, ui.nextRequest, ui.activeRequest, ui.filter, ui.searchText, ui.metric, ui.sort)
  }

  lemma LargestKeepsChoices(ui: Ui)
    requires ui.model.Some?
    ensures ChoicesOf(ScheduleLargest(ui).ui) == ChoicesOf(ui)
  {
  }

  lemma SearchKeepsChoices(e: Engine, ui: Ui, now: nat)
    requires ui.model.Some?
    ensures ChoicesOf(ScheduleSearch(e, ui, now).ui) == ChoicesOf(ui)
  {
  }

  lemma ListsKeepChoices(e: Engine, ui: Ui, now: nat)
    requires ui.model.Some?
    ensures ChoicesOf(ScheduleLists(e, ui, now).ui) == ChoicesOf(ui)
  {
    LargestKeepsChoices(ui);
    SearchKeepsChoices(e, ScheduleLargest(ui).ui, now);
  }

  lemma WeightsKeepChoices(ui: Ui, now: nat)
    requires ui.model.Some?
    ensures ChoicesOf(ScheduleWeights(ui, now).ui) == ChoicesOf(ui)
  {
  }

  lemma EnterKeepsChoices(ui: Ui)
    requires ui.model.Some?
    ensures ChoicesOf(EnterContext(ui)) == ChoicesOf(ui)
  {
  }

  lemma DropKeepsChoices(ui: Ui)
    requires ui.model.Some?
    ensures ChoicesOf(DropStaleWeights(ui)) == ChoicesOf(ui)
  {
  }

  lemma SyncKeepsChoices(e: Engine, ui: Ui, now: nat)
    ensures ChoicesOf(Sync(e, ui, now).ui) == ChoicesOf(ui)
  {
    if ui.model.Some? {
      EnterKeepsChoices(ui);
      var entered := EnterContext(ui);
      DropKeepsChoices(entered);
      var settled := DropStaleWeights(entered);
      WeightsKeepChoices(settled, now);
      var w := ScheduleWeights(settled, now);
      ListsKeepChoices(e, w.ui, now);
      assert Sync(e, ui, now).ui == ScheduleLists(e, w.ui, now).ui;
    }
  }

  lemma DeliverKeepsChoices(e: Engine, ui: Ui, m: QueryMessage)
    ensures ChoicesOf(Deliver(e, ui, m)) == ChoicesOf(ui)
  {
  }

  /** What an event does to the choices, whatever else is going on. */
  function NextChoices(c: Choices, event: Event): Choices {
    match event
    case Asks(letter, deleting) =>
      if deleting then c
      else
        var drive := Some(UpperLetter(letter));
        var asked := c.(drive := drive, phase := Fetching, next := c.next + 1, active := c.next + 1);
        if c.drive == drive then asked else asked.(model := None, drill := [])
    case ModelArrives(requestId, model, _) =>
      if requestId != c.active || Some(model.value.driveLetter) != c.drive then c
      else c.(phase := Ready, model := Some(model), drill := [model.value.root])
    case FetchFails(requestId) => if requestId != c.active then c else c.(phase := Failed, model := None, drill := [])
    case FilterEdited(filter, _) => c.(filter := if filter.IsActive() then filter else NO_FILTER)
    case SearchEdited(text, _) => c.(text := text)
    case Drills(stack) => c.(drill := stack)
    case MetricSelected(metric, sort, _) => c.(metric := metric, sort := sort)
    case SortChanged(sort, _, _) => c.(sort := sort)
    case _ => c
  }

  lemma EditedChoices(e: Engine, ui: Ui, event: Event)
    requires Schedules(event)
    ensures ChoicesOf(Edited(e, ui, event)) == NextChoices(ChoicesOf(ui), event)
  {
  }

  lemma ScheduledChoices(e: Engine, s: System, event: Event)
    requires Schedules(event)
    ensures ChoicesOf(Step(e, s, event).ui) == NextChoices(ChoicesOf(s.ui), event)
  {
    EditedChoices(e, s.ui, event);
    SyncKeepsChoices(e, Edited(e, s.ui, event), event.now);
    StepIsSync(e, s, event);
  }

  lemma StepChoices(e: Engine, s: System, event: Event)
    ensures ChoicesOf(Step(e, s, event).ui) == NextChoices(ChoicesOf(s.ui), event)
  {
    if Schedules(event) {
      ScheduledChoices(e, s, event);
    } else if event.MessageDelivered? && s.messages != [] {
      DeliverKeepsChoices(e, s.ui, s.messages[0]);
    }
  }

  /** The choices after the first `j` events. */
  function ChoicesAt(events: seq<Event>, j: nat): Choices
    requires j <= |events|
  {
    if j == 0 then ChoicesOf(INITIAL) else NextChoices(ChoicesAt(events, j - 1), events[j - 1])
  }

  lemma {:induction false} ChoicesOfRun(e: Engine, events: seq<Event>, j: nat)
    requires j <= |events|
    ensures ChoicesOf(Run(e, events[..j]).ui) == ChoicesAt(events, j)
    decreases j
  {
    if j > 0 {
      ChoicesOfRun(e, events, j - 1);
      assert events[..j][..j - 1] == events[..j - 1];
      StepChoices(e, Run(e, events[..j - 1]), events[j - 1]);
    }
  }

  lemma ChoicesAtEnd(e: Engine, events: seq<Event>)
    ensures ChoicesOf(Run(e, events).ui) == ChoicesAt(events, |events|)
  {
    assert events[..|events|] == events;
    ChoicesOfRun(e, events, |events|);
  }

  // ---- The drive and its model ----------------------------------------------------------------------

  lemma {:induction false} DriveAt(events: seq<Event>, j: nat)
    requires j <= |events|
    ensures ChoicesAt(events, j).drive == Chosen(events, j)
    ensures ChoicesAt(events, j).next == Started(events, j) && ChoicesAt(events, j).active == Started(events, j)
  {
    if j > 0 {
      DriveAt(events, j - 1);
    }
  }

  /** The drive on screen is the one that the last fetch was started for, and the id in force counts the fetches. */
  lemma DriveIsLastChosen(e: Engine, events: seq<Event>)
    ensures Run(e, events).ui.drive == Chosen(events, |events|)
    ensures Run(e, events).ui.activeRequest == Started(events, |events|)
  {
    ChoicesAtEnd(e, events);
    DriveAt(events, |events|);
  }

  lemma {:induction false} ModelOfDriveAt(events: seq<Event>, j: nat)
    requires j <= |events|
    ensures var c := ChoicesAt(events, j); c.model.Some? ==> c.drive == Some(c.model.value.value.driveLetter)
  {
    if j > 0 {
      ModelOfDriveAt(events, j - 1);
    }
  }

  /** Over every run: the model on screen is of the drive that was chosen last. */
  lemma ModelIsOfDrive(e: Engine, events: seq<Event>)
    ensures var ui := Run(e, events).ui; ui.model.Some? ==> ui.drive == Some(ui.model.value.value.driveLetter)
  {
    ChoicesAtEnd(e, events);
    ModelOfDriveAt(events, |events|);
  }

  /** Event `i` brought the model, and among the first `j` no later one replaced it or took it away. */
  predicate ShownSince(events: seq<Event>, i: nat, j: nat)
    requires i < j <= |events|
  {
    Arrives(events, i) && forall k :: i < k < j ==> !Arrives(events, k) && !Fails(events, k) && !Switches(events, k)
  }

  lemma {:induction false} ModelAt(events: seq<Event>, j: nat, m: Shared)
    requires j <= |events|
    ensures ChoicesAt(events, j).model == Some(m) <==> exists i :: 0 <= i < j && ShownSince(events, i, j) && events[i].model == m
  {
    if j > 0 {
      ModelAt(events, j - 1, m);
      DriveAt(events, j - 1);
      if Arrives(events, j - 1) {
        assert ShownSince(events, j - 1, j);
      } else if !Fails(events, j - 1) && !Switches(events, j - 1) {
        assert forall i :: 0 <= i < j - 1 ==> (ShownSince(events, i, j) <==> ShownSince(events, i, j - 1));
      }
    }
  }

  /** A model is on screen exactly if it came in answer to the last fetch of its time, for its drive, and nothing replaced or dropped it. */
  lemma ModelIsLastArrival(e: Engine, events: seq<Event>, m: Shared)
    ensures Run(e, events).ui.model == Some(m) <==>
      exists i :: 0 <= i < |events| && ShownSince(events, i, |events|) && events[i].model == m
  {
    ChoicesAtEnd(e, events);
    ModelAt(events, |events|, m);
  }

  lemma {:induction false} PhaseAt(events: seq<Event>, i: int, j: nat)
    requires -1 <= i < j <= |events|
    requires i >= 0 ==> Resets(events, i)
    requires forall k :: i < k < j ==> !Resets(events, k)
    ensures ChoicesAt(events, j).phase ==
      if i < 0 then Idle else if Starts(events[i]) then Fetching else if Arrives(events, i) then Ready else Failed
    decreases j
  {
    if j > 0 {
      DriveAt(events, j - 1);
      if i < j - 1 {
        assert !Resets(events, j - 1);
        PhaseAt(events, i, j - 1);
      }
    }
  }

  /** The phase is decided by the last event (at `i`, or at -1 for none) that started, answered or failed a fetch. */
  lemma PhaseIsLastOutcome(e: Engine, events: seq<Event>, i: int)
    requires -1 <= i < |events| && (i >= 0 ==> Resets(events, i)) && forall k :: i < k < |events| ==> !Resets(events, k)
    ensures Run(e, events).ui.phase ==
      if i < 0 then Idle else if Starts(events[i]) then Fetching else if Arrives(events, i) then Ready else Failed
  {
    ChoicesAtEnd(e, events);
    PhaseAt(events, i, |events|);
  }

  /** Where a trail comes from: navigation, a new model, or the loss of the model. */
  predicate Moves(events: seq<Event>, i: nat)
    requires i < |events|
  {
    events[i].Drills? || Arrives(events, i) || Fails(events, i) || Switches(events, i)
  }

  lemma {:induction false} TrailAt(events: seq<Event>, i: int, j: nat)
    requires -1 <= i < j <= |events|
    requires i >= 0 ==> Moves(events, i)
    requires forall k :: i < k < j ==> !Moves(events, k)
    ensures ChoicesAt(events, j).drill ==
      if i >= 0 && events[i].Drills? then events[i].stack else if i >= 0 && Arrives(events, i) then [events[i].model.value.root] else []
    decreases j
  {
    if j > 0 {
      DriveAt(events, j - 1);
      if i < j - 1 {
        assert !Moves(events, j - 1);
        TrailAt(events, i, j - 1);
      }
    }
  }

  /** A new model is entered at its root; losing the model leaves no trail. */
  lemma TrailIsLastMove(e: Engine, events: seq<Event>, i: int)
    requires -1 <= i < |events| && (i >= 0 ==> Moves(events, i)) && forall k :: i < k < |events| ==> !Moves(events, k)
    ensures Run(e, events).ui.drill ==
      if i >= 0 && events[i].Drills? then events[i].stack else if i >= 0 && Arrives(events, i) then [events[i].model.value.root] else []
  {
    ChoicesAtEnd(e, events);
    TrailAt(events, i, |events|);
  }

  // ---- The edits ---------------------------------------------------------------------------------------

  lemma {:induction false} FilterAt(events: seq<Event>, i: int, j: nat)
    requires -1 <= i < j <= |events|
    requires i >= 0 ==> events[i].FilterEdited?
    requires forall k :: i < k < j ==> !events[k].FilterEdited?
    ensures ChoicesAt(events, j).filter == if i >= 0 && events[i].filter.IsActive() then events[i].filter else NO_FILTER
    decreases j
  {
    if i < j - 1 {
      FilterAt(events, i, j - 1);
    }
  }

  /** The filter is that of the last edit, an edit without any condition and no edit at all being the filter that lets everything pass. */
  lemma FilterIsLastEdit(e: Engine, events: seq<Event>, i: int)
    requires -1 <= i < |events| && (i >= 0 ==> events[i].FilterEdited?) && forall k :: i < k < |events| ==> !events[k].FilterEdited?
    ensures Run(e, events).ui.filter == if i >= 0 && events[i].filter.IsActive() then events[i].filter else NO_FILTER
  {
    ChoicesAtEnd(e, events);
    FilterAt(events, i, |events|);
  }

  lemma {:induction false} TextAt(events: seq<Event>, i: int, j: nat)
    requires -1 <= i < j <= |events|
    requires i >= 0 ==> events[i].SearchEdited?
    requires forall k :: i < k < j ==> !events[k].SearchEdited?
    ensures ChoicesAt(events, j).text == if i >= 0 then events[i].text else ""
    decreases j
  {
    if i < j - 1 {
      TextAt(events, i, j - 1);
    }
  }

  lemma TextIsLastEdit(e: Engine, events: seq<Event>, i: int)
    requires -1 <= i < |events| && (i >= 0 ==> events[i].SearchEdited?) && forall k :: i < k < |events| ==> !events[k].SearchEdited?
    ensures Run(e, events).ui.searchText == if i >= 0 then events[i].text else ""
  {
    ChoicesAtEnd(e, events);
    TextAt(events, i, |events|);
  }

  lemma {:induction false} MetricAt(events: seq<Event>, i: int, j: nat)
    requires -1 <= i < j <= |events|
    requires i >= 0 ==> events[i].MetricSelected?
    requires forall k :: i < k < j ==> !events[k].MetricSelected?
    ensures ChoicesAt(events, j).metric == if i >= 0 then events[i].metric else Allocated
    decreases j
  {
    if i < j - 1 {
      MetricAt(events, i, j - 1);
    }
  }

  lemma MetricIsLastChoice(e: Engine, events: seq<Event>, i: int)
    requires -1 <= i < |events| && (i >= 0 ==> events[i].MetricSelected?) && forall k :: i < k < |events| ==> !events[k].MetricSelected?
    ensures Run(e, events).ui.metric == if i >= 0 then events[i].metric else Allocated
  {
    ChoicesAtEnd(e, events);
    MetricAt(events, i, |events|);
  }

  predicate SetsSort(event: Event) {
    event.MetricSelected? || event.SortChanged?
  }

  lemma {:induction false} SortAt(events: seq<Event>, i: int, j: nat)
    requires -1 <= i < j <= |events|
    requires i >= 0 ==> SetsSort(events[i])
    requires forall k :: i < k < j ==> !SetsSort(events[k])
    ensures ChoicesAt(events, j).sort == if i >= 0 then events[i].sort else LargestSort(Mixed, AllocatedColumn, false)
    decreases j
  {
    if i < j - 1 {
      SortAt(events, i, j - 1);
    }
  }

  lemma SortIsLastChoice(e: Engine, events: seq<Event>, i: int)
    requires -1 <= i < |events| && (i >= 0 ==> SetsSort(events[i])) && forall k :: i < k < |events| ==> !SetsSort(events[k])
    ensures Run(e, events).ui.sort == if i >= 0 then events[i].sort else LargestSort(Mixed, AllocatedColumn, false)
  {
    ChoicesAtEnd(e, events);
    SortAt(events, i, |events|);
  }
}
