/** The analyzer window as an object whose methods update its fields. Each event keeps the invariant and shows nothing out of date. */
module AnalyzerState {
  import opened AnalyzerInvariant
  import opened AnalyzerProtocol
  import opened AnalyzerTheorems
  import opened Paths
  import opened SizeFilter
  import opened Wrappers

  /** One kind of job: its current id, the cell the worker compares with it, and whether a result is awaited. */
  datatype Job = Job(id: nat, cell: nat, pending: bool)

  datatype FetchFields = FetchFields(drive: Option<char>, phase: Phase, nextRequest: nat, activeRequest: nat)

  datatype FilterFields = FilterFields(
    filter: DiskAnalysisFilter, gen: nat, pendingAt: Option<nat>, scheduled: Option<WeightsSignature>, weights: Option<ActiveWeights>)

  datatype LargestFields = LargestFields(sig: Option<LargestSignature>, rows: seq<nat>, sort: LargestSort)

  datatype SearchFields = SearchFields(sig: Option<SearchSignature>, text: string, pendingAt: Option<nat>, hits: seq<nat>, open: bool)

  class DiskAnalysisState {
    /** The queries that the worker answers, and the functions the window applies itself. */
    const engine: Engine
    var fetch: FetchFields
    var model: Option<Shared>
    var drill: seq<nat>
    var metric: SizeMetric
    var filtering: FilterFields
    var filterJob: Job
    var largest: LargestFields
    var largestJob: Job
    var search: SearchFields
    var searchJob: Job
    var context: Option<Context>
    var nextJob: nat
    /** Everything sent to the query worker so far. */
    var sent: seq<QueryRequest>

    ghost function View(): Ui
      reads this
    {
      Ui(fetch.drive, fetch.phase, model, drill, metric,
         filtering.filter, filtering.gen, filtering.pendingAt, filtering.scheduled, filterJob.id, filterJob.pending, filtering.weights,
         largest.sig, largestJob.id, largestJob.pending, largest.rows, largest.sort,
         search.sig, search.text, search.pendingAt, searchJob.id, searchJob.pending, search.hits, search.open,
         context, fetch.nextRequest, fetch.activeRequest, nextJob, filterJob.cell, largestJob.cell, searchJob.cell)
    }

    ghost predicate Valid()
      reads this
    {
      engine.Lawful() && UiInv(engine, View())
    }

    /** Everything sent since `from` asks for exactly what is wanted now. */
    ghost predicate AsksForCurrent(from: nat)
      reads this
    {
      forall i :: from <= i < |sent| ==> RequestOk(engine, View(), sent[i])
    }

    constructor (engine: Engine)
      requires engine.Lawful()
      ensures View() == INITIAL && sent == [] && this.engine == engine && Valid()
    {
      this.engine := engine;
      fetch := FetchFields(None, Idle, 0, 0);
      model, drill, metric := None, [], Allocated;
      filtering := FilterFields(NO_FILTER, 0, None, None, None);
      largest := LargestFields(None, [], LargestSort(Mixed, AllocatedColumn, false));
      search := SearchFields(None, "", None, [], false);
      filterJob, largestJob, searchJob := Job(0, 0, false), Job(0, 0, false), Job(0, 0, false);
      context, nextJob, sent := None, 1, [];
    }

    method InvalidateDependentQueryJobs()
      modifies this`nextJob, this`largestJob, this`searchJob, this`largest, this`search
      ensures View() == InvalidateDependents(old(View()))
      ensures VoidsLists(engine, old(nextJob), View())
    {
      DependentsVoid(engine, View());
      nextJob := nextJob + 2;
      largestJob := Job(nextJob - 1, nextJob - 1, false);
      searchJob := Job(nextJob, nextJob, false);
      largest := largest.(sig := None);
      search := search.(sig := None);
    }

    method InvalidateQueryJobs()
      modifies this`nextJob, this`filterJob, this`largestJob, this`searchJob, this`largest, this`search
      ensures View() == InvalidateAll(old(View()))
      ensures Voids(engine, old(nextJob), View())
    {
      nextJob := nextJob + 1;
      filterJob := Job(nextJob, nextJob, false);
      InvalidateDependentQueryJobs();
    }

    method ClearQueryResults()
      modifies this`largest, this`search
      ensures View() == ClearResults(old(View()))
    {
      largest := largest.(rows := []);
      search := search.(hits := []);
    }

    method ResetViewState(dropModel: bool)
      modifies this
      ensures View() == ResetView(old(View()), dropModel) && sent == old(sent)
      ensures UiInv(engine, View()) && Voids(engine, old(nextJob), View())
    {
      ResetSettles(engine, View(), dropModel);
      InvalidateQueryJobs();
      search := search.(open := false, pendingAt := None, hits := [], sig := None);
      largest := largest.(rows := [], sig := None);
      filtering := filtering.(weights := None, pendingAt := None, scheduled := None);
      context := None;
      if dropModel {
        model := None;
        drill := [];
      }
    }

    /** Start or restart a snapshot fetch, unless a deletion is running. */
    method RequestSnapshot(letter: char, deleting: bool)
      requires Valid()
      modifies this
      ensures View() == Request(old(View()), letter, deleting) && sent == old(sent)
      ensures Valid() && Follows(engine, old(View()), View())
      ensures !deleting ==> fetch.drive == Some(UpperLetter(letter)) && model == if old(fetch.drive) == fetch.drive then old(model) else None
    {
      RequestKeeps(engine, View(), letter, deleting);
      if deleting {
        return;
      }
      var drive := Some(UpperLetter(letter));
      var switched := fetch.drive != drive;
      fetch := FetchFields(drive, Fetching, fetch.nextRequest + 1, fetch.nextRequest + 1);
      ResetViewState(switched);
    }

    method Install(arrived: Shared, now: nat)
      modifies this
      ensures View() == ResetView(old(View()).(drill := [arrived.value.root], model := Some(arrived)), false).(
        phase := Ready, filterPendingAt := Some(now))
      ensures sent == old(sent)
    {
      drill := [arrived.value.root];
      model := Some(arrived);
      ResetViewState(false);
      fetch := fetch.(phase := Ready);
      filtering := filtering.(scheduled := None, pendingAt := Some(now));
    }

    method ApplyModelReady(requestId: nat, arrived: Shared, now: nat)
      requires Valid()
      modifies this
      ensures View() == ModelReady(old(View()), requestId, arrived, now) && sent == old(sent)
      ensures Valid() && Follows(engine, old(View()), View())
      ensures model == old(model) || (model == Some(arrived) && fetch.drive == Some(arrived.value.driveLetter))
    {
      ModelReadyKeeps(engine, View(), requestId, arrived, now);
      if requestId != fetch.activeRequest || Some(arrived.value.driveLetter) != fetch.drive {
        return;
      }
      Install(arrived, now);
    }

    method ApplyFailed(requestId: nat)
      requires Valid()
      modifies this
      ensures View() == FetchFailed(old(View()), requestId) && sent == old(sent)
      ensures Valid() && Follows(engine, old(View()), View())
    {
      FetchFailedKeeps(engine, View(), requestId);
      if requestId != fetch.activeRequest {
        return;
      }
      ResetViewState(true);
      fetch := fetch.(phase := Failed);
    }

    method MarkFilterChanged(draft: DiskAnalysisFilter, now: nat)
      requires Valid()
      modifies this
      ensures View() == FilterChanged(old(View()), draft, now) && sent == old(sent)
      ensures Valid() && Follows(engine, old(View()), View())
    {
      FilterChangedKeeps(engine, View(), draft, now);
      filtering := filtering.(
        filter := if draft.IsActive() then draft else NO_FILTER, gen := filtering.gen + 1, pendingAt := Some(now), weights := None);
      InvalidateQueryJobs();
      ClearQueryResults();
    }

    method MarkSearchChanged(text: string, now: nat)
      requires Valid()
      modifies this`search, this`searchJob, this`nextJob
      ensures View() == SearchChanged(old(View()), text, now)
      ensures Valid() && Follows(engine, old(View()), View())
    {
      SearchChangedKeeps(engine, View(), text, now);
      search := search.(text := text, pendingAt := Some(now), sig := None, hits := []);
      nextJob := nextJob + 1;
      searchJob := Job(nextJob, nextJob, false);
    }

    method SetTrail(trail: seq<nat>)
      requires Valid()
      modifies this`drill
      ensures drill == trail && View() == old(View()).(drill := trail)
      ensures Valid() && Follows(engine, old(View()), View())
    {
      DrillKeeps(engine, View(), trail);
      drill := trail;
    }

    /** Drill into a directory: the trail becomes the chain of its ancestors. */
    method NavigateTo(idx: nat) returns (navigated: bool)
      requires Valid()
      requires model.Some? ==> ParentsInRange(model.value.value)
      modifies this`drill
      ensures Valid() && Follows(engine, old(View()), View())
      ensures View() == old(View()).(drill := drill) && (!navigated ==> drill == old(drill))
      ensures navigated <==> (model.Some? && idx < |model.value.value.nodes| &&
        model.value.value.nodes[idx].isDir && !model.value.value.nodes[idx].isReparse)
      ensures navigated ==> CurrentRoot(View()) == idx && ParentChain(model.value.value.nodes, drill)
    {
      navigated := false;
      DrillKeeps(engine, View(), drill);
      if model.None? || idx >= |model.value.value.nodes| {
        return;
      }
      var node := model.value.value.nodes[idx];
      if !node.isDir || node.isReparse {
        return;
      }
      var trail := ChainTo(model.value.value, idx);
      SetTrail(trail);
      navigated := true;
    }

    method SortLargestRows()
      modifies this`largest
      ensures View() == Sorted(engine, old(View()))
    {
      if model.Some? {
        largest := largest.(rows := engine.reorder(model.value.value, largest.rows, largest.sort, metric, ResultOf(filtering.weights)));
      }
    }

    // ---- Scheduling ------------------------------------------------------------------------------

    method CheckContext(here: Context)
      requires model.Some? && here == Context(model.value.address, CurrentRoot(View()), metric)
      modifies this
      ensures View() == EnterContext(old(View())) && sent == old(sent)
    {
      if context != Some(here) {
        context := Some(here);
        InvalidateDependentQueryJobs();
        ClearQueryResults();
      }
    }

    method CheckWeights(root: nat)
      requires model.Some? && root == CurrentRoot(View())
      modifies this
      ensures View() == DropStaleWeights(old(View())) && sent == old(sent)
    {
      var weights := filtering.weights;
      if weights.Some? && (weights.value.root != root || weights.value.metric != metric) {
        filtering := filtering.(weights := None);
        InvalidateDependentQueryJobs();
        ClearQueryResults();
      }
    }

    method QueueWeights(root: nat, now: nat)
      requires model.Some? && root == CurrentRoot(View())
      modifies this`nextJob, this`filterJob, this`filtering, this`sent
      ensures View() == ScheduleWeights(old(View()), now).ui
      ensures sent == old(sent) + ScheduleWeights(old(View()), now).sent
    {
      if filtering.filter.IsActive() {
        var sig := WeightsSignature(filtering.gen, root, metric);
        if filtering.scheduled != Some(sig) && Due(filtering.pendingAt, now) {
          nextJob := nextJob + 1;
          filterJob := Job(nextJob, nextJob, true);
          filtering := filtering.(scheduled := Some(sig), pendingAt := None);
          sent := sent + [WeightsRequest(nextJob, model.value, root, filtering.filter, metric)];
        }
      } else {
        filtering := filtering.(weights := None, scheduled := None, pendingAt := None);
        filterJob := filterJob.(pending := false);
      }
    }

    method QueueLargest(root: nat)
      requires model.Some? && root == CurrentRoot(View())
      modifies this`nextJob, this`largestJob, this`largest, this`sent
      ensures View() == ScheduleLargest(old(View())).ui && sent == old(sent) + ScheduleLargest(old(View())).sent
    {
      var sig := LargestSignature(model.value.address, root, IdOf(filtering.weights), metric, largest.sort);
      if largest.sig != Some(sig) {
        nextJob := nextJob + 1;
        largest := largest.(sig := Some(sig), rows := []);
        largestJob := Job(nextJob, nextJob, true);
        sent := sent + [LargestRequest(nextJob, model.value, root, metric, largest.sort, ResultOf(filtering.weights))];
      }
    }

    method QueueSearch(root: nat, now: nat)
      requires model.Some? && root == CurrentRoot(View())
      modifies this`nextJob, this`searchJob, this`search, this`sent
      ensures View() == ScheduleSearch(engine, old(View()), now).ui && sent == old(sent) + ScheduleSearch(engine, old(View()), now).sent
    {
      var trimmed := engine.trim(search.text);
      if trimmed == "" {
        search := search.(hits := [], open := false, pendingAt := None, sig := None);
      } else {
        var sig := SearchSignature(model.value.address, root, IdOf(filtering.weights), trimmed);
        if search.sig != Some(sig) && Due(search.pendingAt, now) {
          nextJob := nextJob + 1;
          search := search.(sig := Some(sig), open := true, pendingAt := None, hits := []);
          searchJob := Job(nextJob, nextJob, true);
          sent := sent + [SearchRequest(nextJob, model.value, root, trimmed, MatchesOf(filtering.weights))];
        }
      }
    }

    method QueueLists(root: nat, now: nat)
      requires model.Some? && root == CurrentRoot(View())
      modifies this
      ensures View() == ScheduleLists(engine, old(View()), now).ui && sent == old(sent) + ScheduleLists(engine, old(View()), now).sent
    {
      var weights := filtering.weights;
      var valid :=
        if weights.None? then !filtering.filter.IsActive()
        else weights.value.root == root && weights.value.metric == metric && weights.value.id == filterJob.id;
      if filtering.filter.IsActive() && !valid {
        return;
      }
      ghost var l := ScheduleLargest(View());
      QueueLargest(root);
      QueueSearch(root, now);
      assert sent == old(sent) + (l.sent + ScheduleSearch(engine, l.ui, now).sent);
    }

    method SettleContext(root: nat)
      requires model.Some? && root == CurrentRoot(View())
      modifies this
      ensures View() == DropStaleWeights(EnterContext(old(View()))) && sent == old(sent)
    {
      CheckContext(Context(model.value.address, root, metric));
      CheckWeights(root);
    }

    method QueueJobs(root: nat, now: nat)
      requires model.Some? && root == CurrentRoot(View())
      modifies this
      ensures View() == ScheduleLists(engine, ScheduleWeights(old(View()), now).ui, now).ui
      ensures sent == old(sent) + (ScheduleWeights(old(View()), now).sent + ScheduleLists(engine, ScheduleWeights(old(View()), now).ui, now).sent)
    {
      QueueWeights(root, now);
      QueueLists(root, now);
    }

    /** What scheduling queues, and that it is one scheduling event. */
    method Schedule(now: nat)
      modifies this
      ensures View() == Sync(engine, old(View()), now).ui && sent == old(sent) + Sync(engine, old(View()), now).sent
    {
      if model.None? {
        return;
      }
      var root := if drill == [] then model.value.value.root else drill[|drill| - 1];
      SettleContext(root);
      QueueJobs(root, now);
    }

    /**
      Runs every frame and after edits of metric and sort order, `before` being the view before the edit.
      Afterwards the lists are empty or answer what is on screen, and only what is on screen is asked for.
     */
    method SyncQueryJobs(ghost before: Ui, now: nat)
      requires engine.Lawful() && UiInv(engine, before) && EditOf(before, View())
      modifies this
      ensures View() == Sync(engine, old(View()), now).ui && sent == old(sent) + Sync(engine, old(View()), now).sent
      ensures Valid() && TreatsAll(engine, before, View()) && AsksForCurrent(|old(sent)|)
      ensures ShowsOnlyCurrent(engine, View()) && (Quiet(View()) ==> ShowsEverything(engine, View()))
    {
      SyncKeeps(engine, before, View(), now);
      SyncShowsOnlyCurrent(engine, before, View(), now);
      if Quiet(Sync(engine, View(), now).ui) {
        SyncShowsEverything(engine, before, View(), now);
      }
      Schedule(now);
    }

    method SelectMetric(chosen: SizeMetric, sort: LargestSort, now: nat)
      requires Valid()
      modifies this
      ensures Valid() && TreatsAll(engine, old(View()), View()) && AsksForCurrent(|old(sent)|)
      ensures View() == Sync(engine, old(View()).(metric := chosen, sort := sort), now).ui
      ensures ShowsOnlyCurrent(engine, View()) && (Quiet(View()) ==> ShowsEverything(engine, View()))
    {
      ghost var before := View();
      metric := chosen;
      largest := largest.(sort := sort);
      SyncQueryJobs(before, now);
    }

    method ChangeLargestSort(sort: LargestSort, resort: bool, now: nat)
      requires Valid()
      modifies this
      ensures Valid() && TreatsAll(engine, old(View()), View()) && AsksForCurrent(|old(sent)|)
      ensures View() == Sync(engine, if resort then Sorted(engine, old(View()).(sort := sort)) else old(View()).(sort := sort), now).ui
      ensures ShowsOnlyCurrent(engine, View()) && (Quiet(View()) ==> ShowsEverything(engine, View()))
    {
      ghost var before := View();
      SortKeeps(engine, before, sort, resort);
      largest := largest.(sort := sort);
      if resort {
        SortLargestRows();
      }
      SyncQueryJobs(before, now);
    }

    // ---- Results -----------------------------------------------------------------------------------

    method AttachWeights(arrived: ActiveWeights)
      modifies this`filterJob, this`filtering, this`largest, this`search
      ensures View() == old(View()).(weightsPending := false, weights := Some(arrived), largestSig := None, searchSig := None)
    {
      filterJob := filterJob.(pending := false);
      filtering := filtering.(weights := Some(arrived));
      largest := largest.(sig := None);
      search := search.(sig := None);
    }

    method ShowRows(found: seq<nat>)
      modifies this`largestJob, this`largest
      ensures View() == Sorted(engine, old(View()).(largestPending := false, rows := found))
    {
      largestJob := largestJob.(pending := false);
      largest := largest.(rows := found);
      SortLargestRows();
    }

    method ShowHits(found: seq<nat>)
      modifies this`searchJob, this`search
      ensures View() == old(View()).(searchPending := false, hits := found, searchOpen := true)
    {
      searchJob := searchJob.(pending := false);
      search := search.(hits := found, open := true);
    }

    /** Take a result unless its id is out of date. */
    method ApplyQueryMessage(message: QueryMessage) returns (changed: bool)
      requires Valid()
      modifies this
      ensures View() == Deliver(engine, old(View()), message) && sent == old(sent)
      ensures changed <==> message.job == JobOf(old(View()), MessageTicket(message).kind)
      ensures !changed ==> View() == old(View())
      ensures MessageOk(engine, old(View()), message) ==> Valid()
    {
      if MessageOk(engine, View(), message) {
        DeliverKeeps(engine, View(), message);
      }
      changed := false;
      match message
      case WeightsMessage(job, root, metric', result) =>
        if job == filterJob.id {
          AttachWeights(ActiveWeights(job, root, metric', result));
          changed := true;
        }
      case LargestMessage(job, found) =>
        if job == largestJob.id {
          ShowRows(found);
          changed := true;
        }
      case SearchMessage(job, found) =>
        if job == searchJob.id {
          ShowHits(found);
          changed := true;
        }
    }
  }
}
