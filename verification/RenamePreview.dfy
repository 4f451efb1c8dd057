/** The preview of a batch rename and its conflicts. */
module RenamePreview {
  import opened BatchRename
  import opened LowerCase
  import opened Saturating
  import opened Wrappers

  /** A file to rename, taken apart as the path library does it: an extension holds no dot. */
  datatype Source = Source(fileName: string, ext: string, parent: Option<string>)

  datatype PreviewRow = PreviewRow(source: Source, oldName: string, newName: string, conflict: bool)

  datatype BatchRenameState = BatchRenameState(
    sources: seq<Source>, nameTemplate: string, position: NumberPosition, separator: NumberSeparator,
    start: nat, step: nat, padding: nat)
  {
    ghost predicate Valid() {
      start <= U32_MAX && step <= U32_MAX && forall s :: s in sources ==> DotFree(s.ext)
    }
  }

  // ---- What each row gets ------------------------------------------------------------------

  /** The counter of a row: start plus the steps so far, clamped to 64 bits. */
  function Counter(state: BatchRenameState, i: nat): U64 {
    Sat(state.start + i * state.step)
  }

  /** Rows are numbered from the start on, each one step further until the counter is full. */
  lemma CounterSteps(state: BatchRenameState, i: nat)
    requires state.start <= U64_MAX && state.step <= U64_MAX
    ensures Counter(state, 0) == state.start
    ensures Counter(state, i + 1) == SatAdd(Counter(state, i), state.step)
  {
    assert 0 * state.step == 0;
    CounterNext(state, i);
  }

  lemma CounterNext(state: BatchRenameState, i: nat)
    requires state.step <= U64_MAX
    ensures Counter(state, i + 1) == SatAdd(Counter(state, i), state.step)
  {
    assert (i + 1) * state.step == i * state.step + state.step;
  }

  function NameOf(state: BatchRenameState, i: nat): string
    requires i < |state.sources|
  {
    BuildNewName(state.position, state.separator, state.nameTemplate, NumberText(Counter(state, i), state.padding), state.sources[i].ext)
  }

  /** A folder path up to where a name starts: a separator is added unless there is one, or nothing to separate. */
  function Folder(parent: string): string {
    if parent == "" || parent[|parent| - 1] in "\\/" then parent else parent + "\\"
  }

  function Join(parent: string, name: string): string {
    Folder(parent) + name
  }

  function DestinationOf(state: BatchRenameState, i: nat): Option<string>
    requires i < |state.sources|
  {
    if state.sources[i].parent.None? then None else Some(Join(state.sources[i].parent.value, NameOf(state, i)))
  }

  /** Destinations are compared without case. */
  function KeyOf(state: BatchRenameState, lower: char -> string, i: nat): Option<string>
    requires i < |state.sources|
  {
    var dest := DestinationOf(state, i);
    if dest.None? then None else Some(Lowered(lower, dest.value))
  }

  /** Another row generates the same destination. */
  ghost predicate Clashes(state: BatchRenameState, lower: char -> string, i: nat, j: nat)
    requires i < |state.sources| && j < |state.sources|
  {
    i != j && KeyOf(state, lower, i).Some? && KeyOf(state, lower, i) == KeyOf(state, lower, j)
  }

  ghost predicate InConflict(state: BatchRenameState, lower: char -> string, onDisk: string -> bool, i: nat)
    requires i < |state.sources|
  {
    DestinationOf(state, i).Some? &&
    (onDisk(DestinationOf(state, i).value) || exists j :: 0 <= j < |state.sources| && Clashes(state, lower, i, j))
  }

  // ---- Counting destinations ----------------------------------------------------------------

  function Count(keys: seq<Option<string>>, key: string, n: nat): nat
    requires n <= |keys|
  {
    if n == 0 then 0 else Count(keys, key, n - 1) + if keys[n - 1] == Some(key) then 1 else 0
  }

  ghost predicate CountsAre(counts: map<string, nat>, keys: seq<Option<string>>, n: nat)
    requires n <= |keys|
  {
    forall key {:trigger Count(keys, key, n)} :: Count(keys, key, n) == if key in counts then counts[key] else 0
  }

  function Counted(counts: map<string, nat>, key: Option<string>): map<string, nat> {
    if key.None? then counts
    else counts[key.value := 1 + if key.value in counts then counts[key.value] else 0]
  }

  lemma CountsNext(counts: map<string, nat>, keys: seq<Option<string>>, n: nat)
    requires n < |keys| && CountsAre(counts, keys, n)
    ensures CountsAre(Counted(counts, keys[n]), keys, n + 1)
  {
    forall key ensures Count(keys, key, n + 1) == if key in Counted(counts, keys[n]) then Counted(counts, keys[n])[key] else 0 {
      assert Count(keys, key, n) == if key in counts then counts[key] else 0;
    }
  }

  lemma {:induction false} CountPositive(keys: seq<Option<string>>, key: string, n: nat) returns (j: nat)
    requires n <= |keys| && Count(keys, key, n) > 0
    ensures j < n && keys[j] == Some(key)
  {
    j := n - 1;
    if keys[n - 1] != Some(key) {
      j := CountPositive(keys, key, n - 1);
    }
  }

  lemma {:induction false} CountHas(keys: seq<Option<string>>, key: string, i: nat, n: nat)
    requires i < n <= |keys| && keys[i] == Some(key)
    ensures Count(keys, key, n) > 0
    decreases n
  {
    if i < n - 1 {
      CountHas(keys, key, i, n - 1);
    }
  }

  /** More than one row with a key: besides row `i` there is another one. */
  lemma {:induction false} CountTwo(keys: seq<Option<string>>, key: string, i: nat, n: nat) returns (j: nat)
    requires i < n <= |keys| && keys[i] == Some(key) && Count(keys, key, n) > 1
    ensures j < n && j != i && keys[j] == Some(key)
    decreases n
  {
    if i == n - 1 {
      j := CountPositive(keys, key, n - 1);
    } else if keys[n - 1] == Some(key) {
      j := n - 1;
    } else {
      j := CountTwo(keys, key, i, n - 1);
    }
  }

  lemma {:induction false} TwoCount(keys: seq<Option<string>>, key: string, i: nat, j: nat, n: nat)
    requires i < j < n <= |keys| && keys[i] == Some(key) && keys[j] == Some(key)
    ensures Count(keys, key, n) > 1
    decreases n
  {
    if j == n - 1 {
      CountHas(keys, key, i, n - 1);
    } else {
      TwoCount(keys, key, i, j, n - 1);
    }
  }

  ghost function Keys(state: BatchRenameState, lower: char -> string): seq<Option<string>> {
    seq(|state.sources|, i requires 0 <= i < |state.sources| => KeyOf(state, lower, i))
  }

  lemma CountIsClash(state: BatchRenameState, lower: char -> string, i: nat)
    requires i < |state.sources| && KeyOf(state, lower, i).Some?
    ensures Count(Keys(state, lower), KeyOf(state, lower, i).value, |state.sources|) > 1 <==>
      exists j :: 0 <= j < |state.sources| && Clashes(state, lower, i, j)
  {
    var keys, key, n := Keys(state, lower), KeyOf(state, lower, i).value, |state.sources|;
    assert keys[i] == Some(key);
    if Count(keys, key, n) > 1 {
      var j := CountTwo(keys, key, i, n);
      assert Clashes(state, lower, i, j);
    }
    forall j | 0 <= j < n && Clashes(state, lower, i, j) ensures Count(keys, key, n) > 1 {
      assert keys[j] == Some(key);
      if i < j {
        TwoCount(keys, key, i, j, n);
      } else {
        TwoCount(keys, key, j, i, n);
      }
    }
  }

  /** Rows clash exactly if they are two rows with destinations that differ at most in case. */
  lemma ClashIgnoresCase(state: BatchRenameState, lower: char -> string, i: nat, j: nat)
    requires i < |state.sources| && j < |state.sources|
    ensures Clashes(state, lower, i, j) <==>
      && i != j && DestinationOf(state, i).Some? && DestinationOf(state, j).Some?
      && Lowered(lower, DestinationOf(state, i).value) == Lowered(lower, DestinationOf(state, j).value)
  {
  }

  // ---- The preview ------------------------------------------------------------------------------

  datatype PendingRow = PendingRow(source: Source, oldName: string, newName: string, dest: Option<string>)

  ghost predicate PendingAre(pending: seq<PendingRow>, state: BatchRenameState) {
    |pending| <= |state.sources| && forall i :: 0 <= i < |pending| ==>
      pending[i] == PendingRow(state.sources[i], state.sources[i].fileName, NameOf(state, i), DestinationOf(state, i))
  }

  method NumberRow(state: BatchRenameState, n: U64, i: nat) returns (row: PendingRow)
    requires i < |state.sources| && n == Counter(state, i)
    ensures row == PendingRow(state.sources[i], state.sources[i].fileName, NameOf(state, i), DestinationOf(state, i))
  {
    var source := state.sources[i];
    var newName := BuildNewName(state.position, state.separator, state.nameTemplate, NumberText(n, state.padding), source.ext);
    var dest := if source.parent.None? then None else Some(Join(source.parent.value, newName));
    row := PendingRow(source, source.fileName, newName, dest);
  }

  method CountDestination(ghost state: BatchRenameState, lower: char -> string, counts: map<string, nat>, dest: Option<string>, ghost i: nat)
    returns (counts': map<string, nat>)
    requires i < |state.sources| && dest == DestinationOf(state, i) && CountsAre(counts, Keys(state, lower), i)
    ensures CountsAre(counts', Keys(state, lower), i + 1)
  {
    counts' := counts;
    CountsNext(counts, Keys(state, lower), i);
    if dest.Some? {
      var key := Lowered(lower, dest.value);
      counts' := counts[key := 1 + if key in counts then counts[key] else 0];
    }
  }

  /** First pass: number the rows and count their destinations. */
  method NumberRows(state: BatchRenameState, lower: char -> string) returns (pending: seq<PendingRow>, counts: map<string, nat>)
    requires state.Valid()
    ensures |pending| == |state.sources| && PendingAre(pending, state) && CountsAre(counts, Keys(state, lower), |state.sources|)
  {
    pending, counts := [], map[];
    var n: U64 := state.start;
    for i := 0 to |state.sources|
      invariant n == Counter(state, i) && |pending| == i && PendingAre(pending, state)
      invariant CountsAre(counts, Keys(state, lower), i)
    {
      var row := NumberRow(state, n, i);
      counts := CountDestination(state, lower, counts, row.dest, i);
      pending := pending + [row];
      CounterNext(state, i);
      n := SatAdd(n, state.step);
    }
  }

  /** Second pass, one row. */
  method Marked(state: BatchRenameState, lower: char -> string, onDisk: string -> bool, counts: map<string, nat>, dest: Option<string>,
                ghost i: nat)
    returns (conflict: bool)
    requires i < |state.sources| && dest == DestinationOf(state, i) && CountsAre(counts, Keys(state, lower), |state.sources|)
    ensures conflict == InConflict(state, lower, onDisk, i)
  {
    conflict := false;
    if dest.Some? {
      var key := Lowered(lower, dest.value);
      CountIsClash(state, lower, i);
      assert Count(Keys(state, lower), key, |state.sources|) == if key in counts then counts[key] else 0;
      conflict := onDisk(dest.value) || (key in counts && counts[key] > 1);
    }
  }

  ghost predicate IsPreview(rows: seq<PreviewRow>, state: BatchRenameState, lower: char -> string, onDisk: string -> bool) {
    |rows| <= |state.sources| && forall i :: 0 <= i < |rows| ==>
      rows[i] == PreviewRow(state.sources[i], state.sources[i].fileName, NameOf(state, i), InConflict(state, lower, onDisk, i))
  }

  /** A row is marked exactly if its destination is on disk or another row has it too. */
  method ComputePreview(state: BatchRenameState, lower: char -> string, onDisk: string -> bool) returns (rows: seq<PreviewRow>)
    requires state.Valid()
    ensures |rows| == |state.sources| && IsPreview(rows, state, lower, onDisk)
  {
    var pending, counts := NumberRows(state, lower);
    rows := [];
    for i := 0 to |pending|
      invariant |rows| == i && IsPreview(rows, state, lower, onDisk)
    {
      var row := pending[i];
      var conflict := Marked(state, lower, onDisk, counts, row.dest, i);
      rows := rows + [PreviewRow(row.source, row.oldName, row.newName, conflict)];
    }
  }

  // ---- No two rows clash -----------------------------------------------------------------------------

  lemma StepsBounded(i: nat, step: nat)
    requires i <= U32_MAX && step <= U32_MAX
    ensures i * step <= U32_MAX * U32_MAX
  {
    assert i * step <= i * U32_MAX;
    assert i * U32_MAX <= U32_MAX * U32_MAX;
  }

  /** With fewer than 2^32 rows no counter saturates, so a positive step numbers all rows differently. */
  lemma CountersDiffer(state: BatchRenameState, i: nat, j: nat)
    requires state.Valid() && state.step > 0 && i < j <= U32_MAX
    ensures Counter(state, i) < Counter(state, j)
  {
    StepsBounded(i, state.step);
    StepsBounded(j, state.step);
    assert j * state.step == i * state.step + (j - i) * state.step;
    assert (j - i) * state.step > 0;
  }

  /** Below 2^32 rows: the name of row `i` shows the number start + i * step, as wide as asked for, and stays in the row's folder. */
  lemma RowShowsItsNumber(state: BatchRenameState, i: nat) returns (num: string)
    requires state.Valid() && i < |state.sources| && i <= U32_MAX
    ensures AllDigits(num) && Value(num) == state.start + i * state.step && |num| >= state.padding
    ensures NameOf(state, i) ==
      Front(state.position, state.separator, state.nameTemplate) + num +
      Back(state.position, state.separator, state.nameTemplate, state.sources[i].ext)
    ensures state.sources[i].parent.Some? ==>
      var parent := state.sources[i].parent.value;
      DestinationOf(state, i) == Some(
        if parent == "" || parent[|parent| - 1] == '\\' || parent[|parent| - 1] == '/' then parent + NameOf(state, i)
        else parent + "\\" + NameOf(state, i))
  {
    num := NumberText(Counter(state, i), state.padding);
    StepsBounded(i, state.step);
    NumberReadsBack(Counter(state, i), state.padding);
    NumberIsPadded(Counter(state, i), state.padding);
    NameParts(state.position, state.separator, state.nameTemplate, num, state.sources[i].ext);
  }

  lemma JoinedNames(lower: char -> string, parent: string, a: string, b: string)
    requires Lowered(lower, Join(parent, a)) == Lowered(lower, Join(parent, b))
    ensures Lowered(lower, a) == Lowered(lower, b)
  {
    LoweredConcat(lower, Folder(parent), a);
    LoweredConcat(lower, Folder(parent), b);
    var front := Lowered(lower, Folder(parent));
    assert (front + Lowered(lower, a))[|front|..] == Lowered(lower, a);
    assert (front + Lowered(lower, b))[|front|..] == Lowered(lower, b);
  }

  /** Rows of one folder with different counters have different destinations, even without case. */
  lemma DifferentCountersDoNotClash(state: BatchRenameState, lower: char -> string, i: nat, j: nat)
    requires state.Valid() && LowersNames(lower) && i < |state.sources| && j < |state.sources|
    requires state.sources[i].parent == state.sources[j].parent && Counter(state, i) != Counter(state, j)
    ensures !Clashes(state, lower, i, j)
  {
    if Clashes(state, lower, i, j) {
      var a, b := NumberText(Counter(state, i), state.padding), NumberText(Counter(state, j), state.padding);
      var extA, extB := state.sources[i].ext, state.sources[j].ext;
      NumberReadsBack(Counter(state, i), state.padding);
      NumberReadsBack(Counter(state, j), state.padding);
      assert state.sources[i] in state.sources && state.sources[j] in state.sources;
      JoinedNames(lower, state.sources[i].parent.value, NameOf(state, i), NameOf(state, j));
      LoweredName(lower, state.position, state.separator, state.nameTemplate, a, extA);
      LoweredName(lower, state.position, state.separator, state.nameTemplate, b, extB);
      LoweredDotFree(lower, extA);
      LoweredDotFree(lower, extB);
      TemplatesAreInjective(state.position, state.separator, Lowered(lower, state.nameTemplate), a, b, Lowered(lower, extA), Lowered(lower, extB));
    }
  }

  /** In one folder and with a positive step the only conflicts are with files that already exist. */
  lemma OnlyExistingFilesConflict(state: BatchRenameState, lower: char -> string, onDisk: string -> bool, parent: string, i: nat)
    requires state.Valid() && LowersNames(lower) && state.step > 0 && i < |state.sources| <= U32_MAX
    requires forall s :: s in state.sources ==> s.parent == Some(parent)
    ensures DestinationOf(state, i).Some?
    ensures InConflict(state, lower, onDisk, i) <==> onDisk(DestinationOf(state, i).value)
  {
    assert state.sources[i] in state.sources;
    forall j | 0 <= j < |state.sources| && j != i ensures !Clashes(state, lower, i, j) {
      assert state.sources[j] in state.sources;
      if i < j {
        CountersDiffer(state, i, j);
      } else {
        CountersDiffer(state, j, i);
      }
      DifferentCountersDoNotClash(state, lower, i, j);
    }
  }
}
