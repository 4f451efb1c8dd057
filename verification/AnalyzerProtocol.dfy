/** The analyzer window as a state machine: what each event does to the view and which jobs it queues. */
module AnalyzerProtocol {
  import opened DiskModel
  import opened FilteredWeights
  import opened SizeFilter
  import opened Wrappers

  // ---- Data ------------------------------------------------------------------------------

  datatype LargestGrouping = Mixed | FoldersFirst | FilesFirst

  datatype LargestColumn = NameColumn | PathColumn | TypeColumn | LogicalColumn | AllocatedColumn | DifferenceColumn | FilesColumn

  datatype LargestSort = LargestSort(grouping: LargestGrouping, column: LargestColumn, ascending: bool)

  datatype Phase = Idle | Fetching | Ready | Failed

  /** A shared model. Signatures compare the address only, and a later model may get an address used before. */
  datatype Shared = Shared(address: nat, value: DiskAnalysisModel)

  datatype ActiveWeights = ActiveWeights(id: nat, root: nat, metric: SizeMetric, result: FilteredResult)

  datatype WeightsSignature = WeightsSignature(gen: nat, root: nat, metric: SizeMetric)
  datatype LargestSignature = LargestSignature(address: nat, root: nat, weights: nat, metric: SizeMetric, sort: LargestSort)
  datatype SearchSignature = SearchSignature(address: nat, root: nat, weights: nat, query: string)
  datatype Context = Context(address: nat, root: nat, metric: SizeMetric)

  /** The fields of the window state that the jobs depend on. Each job kind has an id, a shared cell and a pending flag. */
  datatype Ui = Ui(
    drive: Option<char>, phase: Phase, model: Option<Shared>, drill: seq<nat>, metric: SizeMetric,
    filter: DiskAnalysisFilter, filterGen: nat, filterPendingAt: Option<nat>, scheduled: Option<WeightsSignature>,
    filterJob: nat, weightsPending: bool, weights: Option<ActiveWeights>,
    largestSig: Option<LargestSignature>, largestJob: nat, largestPending: bool, rows: seq<nat>, sort: LargestSort,
    searchSig: Option<SearchSignature>, searchText: string, searchPendingAt: Option<nat>,
    searchJob: nat, searchPending: bool, hits: seq<nat>, searchOpen: bool,
    context: Option<Context>, nextRequest: nat, activeRequest: nat, nextJob: nat,
    weightsCell: nat, largestCell: nat, searchCell: nat)

  datatype QueryRequest =
    | WeightsRequest(job: nat, model: Shared, root: nat, filter: DiskAnalysisFilter, metric: SizeMetric)
    | LargestRequest(job: nat, model: Shared, root: nat, metric: SizeMetric, sort: LargestSort, filtered: Option<FilteredResult>)
    | SearchRequest(job: nat, model: Shared, root: nat, query: string, matches: Option<seq<bool>>)

  datatype QueryMessage =
    | WeightsMessage(job: nat, root: nat, metric: SizeMetric, result: FilteredResult)
    | LargestMessage(job: nat, rows: seq<nat>)
    | SearchMessage(job: nat, hits: seq<nat>)

  /** The queries, as pure functions of what a request carries. */
  datatype Engine = Engine(
    weights: (DiskAnalysisModel, nat, DiskAnalysisFilter, SizeMetric) -> FilteredResult,
    largest: (DiskAnalysisModel, nat, LargestSort, SizeMetric, Option<FilteredResult>) -> seq<nat>,
    reorder: (DiskAnalysisModel, seq<nat>, LargestSort, SizeMetric, Option<FilteredResult>) -> seq<nat>,
    search: (DiskAnalysisModel, nat, string, Option<seq<bool>>) -> seq<nat>,
    trim: string -> string)
  {
    /** Sorting the table again changes nothing in rows that were selected by the same order, nor in no rows. */
    ghost predicate Lawful() {
      && (forall m, root, sort, metric, w :: reorder(m, largest(m, root, sort, metric, w), sort, metric, w) == largest(m, root, sort, metric, w))
      && (forall m, sort, metric, w :: reorder(m, [], sort, metric, w) == [])
    }
  }

  const DEBOUNCE: nat := 250

  const NO_FILTER := DiskAnalysisFilter(ALL_CATEGORIES, [], None, None, LogicalBase)

  const INITIAL := Ui(
    None, Idle, None, [], Allocated, NO_FILTER, 0, None, None, 0, false, None, None, 0, false, [],
    LargestSort(Mixed, AllocatedColumn, false), None, "", None, 0, false, [], false, None, 0, 0, 1, 0, 0, 0)

  // ---- Small steps ---------------------------------------------------------------------------

  function CurrentRoot(ui: Ui): nat
    requires ui.model.Some?
  {
    if ui.drill == [] then ui.model.value.value.root else ui.drill[|ui.drill| - 1]
  }

  function InvalidateDependents(ui: Ui): Ui {
    ui.(nextJob := ui.nextJob + 2,
        largestJob := ui.nextJob + 1, largestCell := ui.nextJob + 1, largestPending := false, largestSig := None,
        searchJob := ui.nextJob + 2, searchCell := ui.nextJob + 2, searchPending := false, searchSig := None)
  }

  function InvalidateAll(ui: Ui): Ui {
    InvalidateDependents(ui.(nextJob := ui.nextJob + 1, filterJob := ui.nextJob + 1, weightsCell := ui.nextJob + 1, weightsPending := false))
  }

  function ClearResults(ui: Ui): Ui {
    ui.(rows := [], hits := [])
  }

  function ResetView(ui: Ui, dropModel: bool): Ui {
    var cleared := InvalidateAll(ui).(
      searchOpen := false, searchPendingAt := None, hits := [], rows := [], weights := None,
      filterPendingAt := None, scheduled := None, largestSig := None, searchSig := None, context := None);
    if dropModel then cleared.(model := None, drill := []) else cleared
  }

  function ResultOf(weights: Option<ActiveWeights>): Option<FilteredResult> {
    if weights.None? then None else Some(weights.value.result)
  }

  function MatchesOf(weights: Option<ActiveWeights>): Option<seq<bool>> {
    if weights.None? then None else Some(weights.value.result.matches)
  }

  function IdOf(weights: Option<ActiveWeights>): nat {
    if weights.None? then 0 else weights.value.id
  }

  function Sorted(e: Engine, ui: Ui): Ui {
    if ui.model.None? then ui
    else ui.(rows := e.reorder(ui.model.value.value, ui.rows, ui.sort, ui.metric, ResultOf(ui.weights)))
  }

  // ---- Events of the user and of the fetch worker ------------------------------------------------

  /** Both cases of an ASCII letter name the same drive. */
  function UpperLetter(letter: char): (upper: char)
    ensures !('a' <= upper <= 'z') && (upper == letter || ('a' <= letter <= 'z' && 'A' <= upper <= 'Z'))
  {
    if 'a' <= letter <= 'z' then (letter as int - 32) as char else letter
  }

  /** Ask for another snapshot; the old model stays until the new one arrives, unless the drive changes. */
  function Request(ui: Ui, letter: char, deleting: bool): Ui {
    if deleting then ui
    else
      var drive := Some(UpperLetter(letter));
      ResetView(ui.(nextRequest := ui.nextRequest + 1, activeRequest := ui.nextRequest + 1, drive := drive, phase := Fetching),
                ui.drive != drive)
  }

  function ModelReady(ui: Ui, requestId: nat, model: Shared, now: nat): Ui {
    if requestId != ui.activeRequest || Some(model.value.driveLetter) != ui.drive then ui
    else ResetView(ui.(drill := [model.value.root], model := Some(model)), false).(phase := Ready, filterPendingAt := Some(now))
  }

  function FetchFailed(ui: Ui, requestId: nat): Ui {
    if requestId != ui.activeRequest then ui else ResetView(ui, true).(phase := Failed)
  }

  function FilterChanged(ui: Ui, filter: DiskAnalysisFilter, now: nat): Ui {
    var next := if filter.IsActive() then filter else NO_FILTER;
    ClearResults(InvalidateAll(ui.(filter := next, filterGen := ui.filterGen + 1, filterPendingAt := Some(now), weights := None)))
  }

  function SearchChanged(ui: Ui, text: string, now: nat): Ui {
    ui.(searchText := text, searchPendingAt := Some(now), searchSig := None, nextJob := ui.nextJob + 1,
        searchJob := ui.nextJob + 1, searchCell := ui.nextJob + 1, searchPending := false, hits := [])
  }

  // ---- Scheduling jobs -------------------------------------------------------------------------------

  datatype Outcome = Outcome(ui: Ui, sent: seq<QueryRequest>)

  function EnterContext(ui: Ui): (r: Ui)
    requires ui.model.Some?
    ensures r.model == ui.model && r.drill == ui.drill && r.metric == ui.metric && r.filter == ui.filter
  {
    var here := Context(ui.model.value.address, CurrentRoot(ui), ui.metric);
    if ui.context == Some(here) then ui else ClearResults(InvalidateDependents(ui.(context := Some(here))))
  }

  function DropStaleWeights(ui: Ui): (r: Ui)
    requires ui.model.Some?
    ensures r.model == ui.model && r.drill == ui.drill && r.metric == ui.metric && r.filter == ui.filter
  {
    if ui.weights.Some? && (ui.weights.value.root != CurrentRoot(ui) || ui.weights.value.metric != ui.metric)
      then ClearResults(InvalidateDependents(ui.(weights := None)))
    else ui
  }

  predicate Due(at: Option<nat>, now: nat) {
    at.None? || now - at.value >= DEBOUNCE
  }

  function ScheduleWeights(ui: Ui, now: nat): (o: Outcome)
    requires ui.model.Some?
    ensures o.ui.model == ui.model && o.ui.drill == ui.drill && o.ui.metric == ui.metric && o.ui.filter == ui.filter
  {
    if ui.filter.IsActive() then
      var sig := WeightsSignature(ui.filterGen, CurrentRoot(ui), ui.metric);
      if ui.scheduled != Some(sig) && Due(ui.filterPendingAt, now) then
        var job := ui.nextJob + 1;
        Outcome(ui.(nextJob := job, filterJob := job, weightsCell := job, scheduled := Some(sig), filterPendingAt := None, weightsPending := true),
                [WeightsRequest(job, ui.model.value, CurrentRoot(ui), ui.filter, ui.metric)])
      else Outcome(ui, [])
    else Outcome(ui.(weights := None, scheduled := None, filterPendingAt := None, weightsPending := false), [])
  }

  predicate WeightsValid(ui: Ui)
    requires ui.model.Some?
  {
    if ui.weights.None? then !ui.filter.IsActive()
    else ui.weights.value.root == CurrentRoot(ui) && ui.weights.value.metric == ui.metric && ui.weights.value.id == ui.filterJob
  }

  function LargestSigOf(ui: Ui): LargestSignature
    requires ui.model.Some?
  {
    LargestSignature(ui.model.value.address, CurrentRoot(ui), IdOf(ui.weights), ui.metric, ui.sort)
  }

  function ScheduleLargest(ui: Ui): (o: Outcome)
    requires ui.model.Some?
    ensures o.ui.model == ui.model && o.ui.drill == ui.drill && o.ui.metric == ui.metric && o.ui.filter == ui.filter
  {
    if ui.largestSig != Some(LargestSigOf(ui)) then
      var job := ui.nextJob + 1;
      Outcome(ui.(nextJob := job, largestJob := job, largestCell := job, largestSig := Some(LargestSigOf(ui)), rows := [], largestPending := true),
              [LargestRequest(job, ui.model.value, CurrentRoot(ui), ui.metric, ui.sort, ResultOf(ui.weights))])
    else Outcome(ui, [])
  }

  function SearchSigOf(e: Engine, ui: Ui): SearchSignature
    requires ui.model.Some?
  {
    SearchSignature(ui.model.value.address, CurrentRoot(ui), IdOf(ui.weights), e.trim(ui.searchText))
  }

  function ScheduleSearch(e: Engine, ui: Ui, now: nat): (o: Outcome)
    requires ui.model.Some?
    ensures o.ui.model == ui.model && o.ui.drill == ui.drill && o.ui.metric == ui.metric && o.ui.filter == ui.filter
  {
    if e.trim(ui.searchText) == "" then
      Outcome(ui.(hits := [], searchOpen := false, searchPendingAt := None, searchSig := None), [])
    else if ui.searchSig != Some(SearchSigOf(e, ui)) && Due(ui.searchPendingAt, now) then
      var job := ui.nextJob + 1;
      Outcome(ui.(nextJob := job, searchJob := job, searchCell := job, searchSig := Some(SearchSigOf(e, ui)), searchOpen := true,
                  searchPendingAt := None, hits := [], searchPending := true),
              [SearchRequest(job, ui.model.value, CurrentRoot(ui), e.trim(ui.searchText), MatchesOf(ui.weights))])
    else Outcome(ui, [])
  }

  /** The lists are scheduled once the weights are known to be right. */
  function ScheduleLists(e: Engine, ui: Ui, now: nat): Outcome
    requires ui.model.Some?
  {
    if ui.filter.IsActive() && !WeightsValid(ui) then Outcome(ui, [])
    else
      var l := ScheduleLargest(ui);
      var s := ScheduleSearch(e, l.ui, now);
      Outcome(s.ui, l.sent + s.sent)
  }

  /** Runs every frame: queue the jobs whose inputs changed. */
  function Sync(e: Engine, ui: Ui, now: nat): Outcome {
    if ui.model.None? then Outcome(ui, [])
    else
      var w := ScheduleWeights(DropStaleWeights(EnterContext(ui)), now);
      var lists := ScheduleLists(e, w.ui, now);
      Outcome(lists.ui, w.sent + lists.sent)
  }

  // ---- Results ---------------------------------------------------------------------------------------

  function Deliver(e: Engine, ui: Ui, message: QueryMessage): Ui {
    match message
    case WeightsMessage(job, root, metric, result) =>
      if job != ui.filterJob then ui
      else ui.(weightsPending := false, weights := Some(ActiveWeights(job, root, metric, result)), largestSig := None, searchSig := None)
    case LargestMessage(job, rows) =>
      if job != ui.largestJob then ui else Sorted(e, ui.(largestPending := false, rows := rows))
    case SearchMessage(job, hits) =>
      if job != ui.searchJob then ui else ui.(searchPending := false, hits := hits, searchOpen := true)
  }

  // ---- The whole system --------------------------------------------------------------------------------

  /** The query worker between two of its steps; `cut` once a poll saw that the running job is cancelled. */
  datatype Worker = Waiting | Running(request: QueryRequest, cut: bool)

  datatype System = System(ui: Ui, requests: seq<QueryRequest>, worker: Worker, messages: seq<QueryMessage>)

  datatype Event =
    | Asks(letter: char, deleting: bool)
    | ModelArrives(requestId: nat, model: Shared, now: nat)
    | FetchFails(requestId: nat)
    | FilterEdited(filter: DiskAnalysisFilter, now: nat)
    | SearchEdited(text: string, now: nat)
    | Drills(stack: seq<nat>)
    | MetricSelected(metric: SizeMetric, sort: LargestSort, now: nat)
    | SortChanged(sort: LargestSort, resort: bool, now: nat)
    | Frame(now: nat)
    | MessageDelivered
    | WorkerTakes
    | WorkerPolls
    | WorkerEnds(partial: seq<nat>)

  function CellFor(ui: Ui, request: QueryRequest): nat {
    match request
    case WeightsRequest(_, _, _, _, _) => ui.weightsCell
    case LargestRequest(_, _, _, _, _, _) => ui.largestCell
    case SearchRequest(_, _, _, _, _) => ui.searchCell
  }

  /** The complete answer to a request. */
  function Answer(e: Engine, request: QueryRequest): QueryMessage {
    match request
    case WeightsRequest(job, model, root, filter, metric) => WeightsMessage(job, root, metric, e.weights(model.value, root, filter, metric))
    case LargestRequest(job, model, root, metric, sort, filtered) => LargestMessage(job, e.largest(model.value, root, sort, metric, filtered))
    case SearchRequest(job, model, root, query, matches) => SearchMessage(job, e.search(model.value, root, query, matches))
  }

  /**
    What the worker sends when a computation ends: a cut roll-up gives nothing; a cut list gives
    whatever was found so far, but lists are sent only if the cell still names the job.
   */
  function Sends(e: Engine, ui: Ui, request: QueryRequest, cut: bool, partial: seq<nat>): seq<QueryMessage> {
    if request.WeightsRequest? then if cut then [] else [Answer(e, request)]
    else if CellFor(ui, request) != request.job then []
    else if !cut then [Answer(e, request)]
    else if request.LargestRequest? then [LargestMessage(request.job, partial)]
    else [SearchMessage(request.job, partial)]
  }

  function Queue(s: System, o: Outcome): System {
    s.(ui := o.ui, requests := s.requests + o.sent)
  }

  /** One event. Edits of metric and sort order are followed by scheduling before anything else can happen. */
  function Step(e: Engine, s: System, event: Event): System {
    match event
    case Asks(letter, deleting) => s.(ui := Request(s.ui, letter, deleting))
    case ModelArrives(requestId, model, now) => s.(ui := ModelReady(s.ui, requestId, model, now))
    case FetchFails(requestId) => s.(ui := FetchFailed(s.ui, requestId))
    case FilterEdited(filter, now) => s.(ui := FilterChanged(s.ui, filter, now))
    case SearchEdited(text, now) => s.(ui := SearchChanged(s.ui, text, now))
    case Drills(stack) => s.(ui := s.ui.(drill := stack))
    case MetricSelected(metric, sort, now) => Queue(s, Sync(e, s.ui.(metric := metric, sort := sort), now))
    case SortChanged(sort, resort, now) =>
      var edited := s.ui.(sort := sort);
      Queue(s, Sync(e, if resort then Sorted(e, edited) else edited, now))
    case Frame(now) => Queue(s, Sync(e, s.ui, now))
    case MessageDelivered =>
      if s.messages == [] then s
      else s.(ui := Deliver(e, s.ui, s.messages[0]), messages := s.messages[1..])
    case WorkerTakes =>
      if s.requests == [] || s.worker.Running? then s
      else
        var request := s.requests[0];
        s.(requests := s.requests[1..], worker := if CellFor(s.ui, request) != request.job then Waiting else Running(request, false))
    case WorkerPolls =>
      if s.worker.Waiting? then s
      else s.(worker := s.worker.(cut := s.worker.cut || CellFor(s.ui, s.worker.request) != s.worker.request.job))
    case WorkerEnds(partial) =>
      if s.worker.Waiting? then s
      else s.(worker := Waiting, messages := s.messages + Sends(e, s.ui, s.worker.request, s.worker.cut, partial))
  }

  /** A whole run. */
  function Run(e: Engine, events: seq<Event>): System {
    if events == [] then System.System(INITIAL, [], Waiting, [])
    else Step(e, Run(e, events[..|events| - 1]), events[|events| - 1])
  }
}
