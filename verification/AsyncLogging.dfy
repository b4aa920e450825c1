/** The multi-buffer hand-off of `mytinyhttpd/base/async_logging.cc`.

    Any thread appends lines to the current buffer under a lock, moving full buffers to a list; one
    writer thread takes the list and the current buffer, leaves its spare buffers in their place,
    writes what it took and makes spares of two of the written buffers again. Buffers change hands as
    `unique_ptr`s, so a pointer is null wherever its buffer has been moved from. Appends interleave
    with every step of the writer.
 */
module AsyncLogging {

  type Line = string

  const BUFFER_SIZE: nat := 4000 * 1000
  const MAX_BATCH: nat := 25

  /** A `unique_ptr` to a buffer, as the lines in the buffer. */
  datatype BufferPtr = Null | Ptr(lines: seq<Line>)

  datatype Item = Logged(line: Line) | Notice(dropped: nat)

  datatype Pc =
    | Head              // at the loop condition
    | Waiting           // inside the loop, before or in the condition wait
    | Collected         // the lock is released; the batch is to be written
    | Writing(i: nat)   // `i` buffers of the batch have been written
    | Exited

  datatype Log = Log(
    current: BufferPtr,
    next: BufferPtr,
    buffers: seq<seq<Line>>,
    running: bool,
    // the writer's locals
    pc: Pc,
    spare1: BufferPtr,
    spare2: BufferPtr,
    batch: seq<seq<Line>>,
    output: seq<Item>,   // the file
    crashed: bool)       // an assertion failed or a null pointer was used

  datatype Step = Append(line: Line) | Stop | Enter | Collect | Drop | WriteOne | Recycle | Exit

  function Length(lines: seq<Line>): (n: nat) {
    if lines == [] then 0 else Length(lines[..|lines| - 1]) + |lines[|lines| - 1]|
  }

  /** `FixedBuffer::Append`: a line that does not leave a byte free is not taken. */
  predicate Takes(buffer: seq<Line>, line: Line) {
    BUFFER_SIZE - Length(buffer) > |line|
  }

  function AfterAppend(s: Log, line: Line): (s': Log) {
    if s.current.Null? then s.(crashed := true)
    else if Takes(s.current.lines, line) then
      s.(current := Ptr(s.current.lines + [line]))
    else
      var spare := if s.next.Ptr? then s.next.lines else [];
      var s1 := s.(buffers := s.buffers + [s.current.lines], next := Null);
      s1.(current := Ptr(if Takes(spare, line) then spare + [line] else spare))
  }

  /** The writer's critical section. */
  function AfterCollect(s: Log): (s': Log) {
    if s.current.Null? then s.(crashed := true)
    else
      s.(batch := s.buffers + [s.current.lines],
         buffers := [],
         current := s.spare1,
         spare1 := Null,
         next := if s.next.Null? then s.spare2 else s.next,
         spare2 := if s.next.Null? then Null else s.spare2,
         pc := Collected)
  }

  function AfterDrop(s: Log): (s': Log) {
    if |s.batch| > MAX_BATCH then
      s.(output := s.output + [Notice(|s.batch| - 2)], batch := s.batch[..2], pc := Writing(0))
    else s.(pc := Writing(0))
  }

  function Items(lines: seq<Line>): (items: seq<Item>)
    ensures |items| == |lines| && forall i :: 0 <= i < |lines| ==> items[i] == Logged(lines[i])
  {
    seq(|lines|, i requires 0 <= i < |lines| => Logged(lines[i]))
  }

  function AfterWriteOne(s: Log): (s': Log)
    requires s.pc.Writing? && s.pc.i < |s.batch|
  {
    s.(output := s.output + Items(s.batch[s.pc.i]), pc := Writing(s.pc.i + 1))
  }

  /** Refilling a spare pointer from the back of the batch. */
  function AfterRefill1(s: Log): (s': Log) {
    if s.spare1.Ptr? then s
    else if s.batch == [] then s.(crashed := true)
    else s.(spare1 := Ptr([]), batch := s.batch[..|s.batch| - 1])
  }

  function AfterRefill2(s: Log): (s': Log) {
    if s.spare2.Ptr? then s
    else if s.batch == [] then s.(crashed := true)
    else s.(spare2 := Ptr([]), batch := s.batch[..|s.batch| - 1])
  }

  function AfterRecycle(s: Log): (s': Log) {
    var kept := if |s.batch| > 2 then s.batch[..2] else s.batch;
    AfterRefill2(AfterRefill1(s.(batch := kept))).(batch := [], pc := Head)
  }

  predicate Enabled(s: Log, step: Step) {
    match step
    case Append(line) => true
    case Stop => true
    case Enter => s.pc.Head? && s.running
    case Collect => s.pc.Waiting?
    case Drop => s.pc.Collected?
    case WriteOne => s.pc.Writing? && s.pc.i < |s.batch|
    case Recycle => s.pc.Writing? && s.pc.i == |s.batch|
    case Exit => s.pc.Head? && !s.running
  }

  function Apply(s: Log, step: Step): (s': Log) {
    if !Enabled(s, step) then s
    else
      match step
      case Append(line) => AfterAppend(s, line)
      case Stop => s.(running := false)
      case Enter => s.(pc := Waiting)
      case Collect => AfterCollect(s)
      case Drop => AfterDrop(s)
      case WriteOne => AfterWriteOne(s)
      case Recycle => AfterRecycle(s)
      case Exit => s.(pc := Exited)
  }

  function Run(s: Log, steps: seq<Step>): (s': Log)
    decreases |steps|
  {
    if steps == [] then s else Run(Apply(s, steps[0]), steps[1..])
  }

  const Started := Log(Ptr([]), Ptr([]), [], true, Head, Ptr([]), Ptr([]), [], [], false)

  // ---------------------------------------------------------------- pointers

  /** The producers' side. */
  predicate Front(s: Log) {
    && !s.crashed
    && s.current.Ptr?
    && (s.next.Ptr? ==> s.next.lines == [])
    && (s.next.Null? ==> s.buffers != [])
  }

  /** The writer's side. */
  predicate Back(s: Log) {
    && (s.pc.Head? || s.pc.Waiting? || s.pc.Exited? ==>
          s.spare1 == Ptr([]) && s.spare2 == Ptr([]) && s.batch == [])
    && (s.pc.Collected? || s.pc.Writing? ==>
          s.spare1.Null? && (s.spare2.Null? || s.spare2 == Ptr([]))
          && |s.batch| >= (if s.spare2.Null? then 2 else 1))
    && (s.pc.Writing? ==> s.pc.i <= |s.batch|)
  }

  predicate Pointers(s: Log) {
    Front(s) && Back(s)
  }

  lemma AppendKeepsPointers(s: Log, line: Line)
    requires Pointers(s)
    ensures Pointers(AfterAppend(s, line))
  {
    hide Takes;
    var s' := AfterAppend(s, line);
    assert s'.pc == s.pc && s'.spare1 == s.spare1 && s'.spare2 == s.spare2 && s'.batch == s.batch;
  }

  lemma RecycleKeepsPointers(s: Log)
    requires Pointers(s) && s.pc.Writing?
    ensures Pointers(AfterRecycle(s))
  {
  }

  lemma StepKeepsPointers(s: Log, step: Step)
    requires Pointers(s)
    ensures Pointers(Apply(s, step))
  {
    hide AfterAppend, AfterRecycle, Items;
    if Enabled(s, step) {
      match step
      case Append(line) => AppendKeepsPointers(s, line);
      case Recycle => RecycleKeepsPointers(s);
      case _ =>
    }
  }

  lemma {:induction false} RunKeepsPointers(s: Log, steps: seq<Step>)
    requires Pointers(s)
    ensures Pointers(Run(s, steps))
    decreases |steps|
  {
    hide Apply, Pointers;
    if steps != [] {
      StepKeepsPointers(s, steps[0]);
      RunKeepsPointers(Apply(s, steps[0]), steps[1..]);
    }
  }

  /** No assertion fails and no null pointer is used; at every loop head both spares are there and
      empty, because a taken `next` buffer means a nonempty list, and so a batch of at least two. */
  lemma SparesAreReady(steps: seq<Step>)
    ensures var s := Run(Started, steps);
            !s.crashed && (s.pc.Head? ==> s.spare1 == Ptr([]) && s.spare2 == Ptr([]) && s.batch == [])
  {
    RunKeepsPointers(Started, steps);
  }

  // ---------------------------------------------------------------- lines

  function Flat(bs: seq<seq<Line>>): (lines: seq<Line>) {
    if bs == [] then [] else bs[0] + Flat(bs[1..])
  }

  /** The lines among the items written. */
  function Lines(items: seq<Item>): (lines: seq<Line>) {
    if items == [] then []
    else Lines(items[..|items| - 1])
         + (if items[|items| - 1].Logged? then [items[|items| - 1].line] else [])
  }

  lemma Assoc<T>(a: seq<T>, b: seq<T>, c: seq<T>)
    ensures a + (b + c) == a + b + c
  {
  }

  lemma {:induction false} FlatAppend(bs: seq<seq<Line>>, b: seq<Line>)
    ensures Flat(bs + [b]) == Flat(bs) + b
  {
    if bs == [] {
      assert bs + [b] == [b];
      assert Flat([b]) == b + Flat([]);
    } else {
      FlatAppend(bs[1..], b);
      assert (bs + [b])[1..] == bs[1..] + [b];
    }
  }

  lemma {:induction false} FlatSplit(bs: seq<seq<Line>>, k: nat)
    requires k <= |bs|
    ensures Flat(bs) == Flat(bs[..k]) + Flat(bs[k..])
  {
    if k == 0 {
      assert bs[0..] == bs;
    } else {
      FlatSplit(bs[1..], k - 1);
      assert bs[..k][1..] == bs[1..][..k - 1];
      assert bs[1..][k - 1..] == bs[k..];
    }
  }

  // ---------------------------------------------------------------- what is appended, and when it is collected

  /** The lines appended since the last collection, and those before each collection. */
  datatype History = History(given: seq<Line>, batches: seq<seq<Line>>)

  const Nothing := History([], [])

  function Note(h: History, s: Log, step: Step): (h': History) {
    if step.Append? then h.(given := h.given + [step.line])
    else if step.Collect? && s.pc.Waiting? then History([], h.batches + [h.given])
    else h
  }

  function Past(h: History, s: Log, steps: seq<Step>): (h': History)
    decreases |steps|
  {
    if steps == [] then h else Past(Note(h, s, steps[0]), Apply(s, steps[0]), steps[1..])
  }

  /** All lines of the appends of a run. */
  function Appended(steps: seq<Step>): (lines: seq<Line>) {
    if steps == [] then [] else (if steps[0].Append? then [steps[0].line] else []) + Appended(steps[1..])
  }

  // ---------------------------------------------------------------- buffers, as the lines fill them

  /** How lines fill buffers: a line joins the last one if that leaves a byte free, and else starts another,
      which stays empty if the line is too long for any. */
  function Pack(given: seq<Line>): (bs: seq<seq<Line>>)
    ensures bs != []
  {
    if given == [] then [[]]
    else
      var bs, line := Pack(given[..|given| - 1]), given[|given| - 1];
      var last := bs[|bs| - 1];
      if Length(last) + |line| < BUFFER_SIZE then bs[..|bs| - 1] + [last + [line]]
      else bs + [if |line| < BUFFER_SIZE then [line] else []]
  }

  /** What the writer puts in the file for a batch: its lines, or a notice and the lines of the first two. */
  function Report(bs: seq<seq<Line>>): (items: seq<Item>) {
    if |bs| > MAX_BATCH then [Notice(|bs| - 2)] + Items(Flat(bs[..2])) else Items(Flat(bs))
  }

  function File(batches: seq<seq<Line>>): (items: seq<Item>) {
    if batches == [] then [] else File(batches[..|batches| - 1]) + Report(Pack(batches[|batches| - 1]))
  }

  /** What is still to be written of the batch. */
  function Rest(s: Log): (items: seq<Item>) {
    if s.pc.Collected? then Report(s.batch)
    else if s.pc.Writing? && s.pc.i <= |s.batch| then Items(Flat(s.batch[s.pc.i..]))
    else []
  }

  predicate Follows(s: Log, h: History) {
    && Pointers(s)
    && s.buffers + [s.current.lines] == Pack(h.given)
    && s.output + Rest(s) == File(h.batches)
  }

  /** A line that the current buffer has room for joins it, and nothing else changes; else that buffer goes to
      the end of the list, and the line starts the next one. */
  lemma AppendIs(s: Log, line: Line)
    requires Pointers(s)
    ensures var s' := AfterAppend(s, line);
            if Length(s.current.lines) + |line| < BUFFER_SIZE then s' == s.(current := Ptr(s.current.lines + [line]))
            else s' == s.(buffers := s.buffers + [s.current.lines], next := Null,
                          current := Ptr(if |line| < BUFFER_SIZE then [line] else []))
  {
    assert Length([]) == 0 && [] + [line] == [line];
  }

  /** One more line. */
  lemma PackStep(given: seq<Line>, line: Line)
    ensures var bs := Pack(given);
            var front, last := bs[..|bs| - 1], bs[|bs| - 1];
            Pack(given + [line]) ==
            if Length(last) + |line| < BUFFER_SIZE then front + [last + [line]]
            else bs + [if |line| < BUFFER_SIZE then [line] else []]
  {
    hide Length;
    assert (given + [line])[..|given|] == given;
  }

  lemma AppendFollows(s: Log, h: History, line: Line)
    requires Follows(s, h)
    ensures Follows(AfterAppend(s, line), h.(given := h.given + [line]))
  {
    hide AfterAppend, Length, Report, File, Items, Flat, Pack;
    AppendKeepsPointers(s, line);
    AppendIs(s, line);
    PackStep(h.given, line);
    var bs := Pack(h.given);
    assert bs[|bs| - 1] == s.current.lines && bs[..|bs| - 1] == s.buffers;
    hide Pointers;
  }

  lemma CollectFollows(s: Log, h: History)
    requires Follows(s, h) && s.pc.Waiting?
    ensures Follows(AfterCollect(s), History([], h.batches + [h.given]))
  {
    StepKeepsPointers(s, Collect);
    hide Pack, Report, Items, Flat;
    var s', h' := AfterCollect(s), History([], h.batches + [h.given]);
    assert h'.batches[..|h.batches|] == h.batches;
    assert Pack([]) == [[]] by { PackNothing(); }
    assert s.output + [] == s.output;
  }

  lemma PackNothing()
    ensures Pack([]) == [[]]
  {
  }

  lemma DropKeepsRest(s: Log)
    requires s.pc.Collected?
    ensures var s' := AfterDrop(s); s'.output + Rest(s') == s.output + Rest(s)
  {
    hide Flat, Items;
    var s' := AfterDrop(s);
    assert s'.batch[0..] == s'.batch;
    if |s.batch| > MAX_BATCH {
      Assoc(s.output, [Notice(|s.batch| - 2)], Items(Flat(s.batch[..2])));
    }
  }

  lemma DropFollows(s: Log, h: History)
    requires Follows(s, h) && s.pc.Collected?
    ensures Follows(AfterDrop(s), h)
  {
    hide Pack, File, Flat, Items, Report, Rest;
    StepKeepsPointers(s, Drop);
    DropKeepsRest(s);
    hide Pointers;
  }

  lemma RestStep(bs: seq<seq<Line>>, i: nat)
    requires i < |bs|
    ensures Items(Flat(bs[i..])) == Items(bs[i]) + Items(Flat(bs[i + 1..]))
  {
    assert bs[i..][0] == bs[i] && bs[i..][1..] == bs[i + 1..];
    assert Flat(bs[i..]) == bs[i] + Flat(bs[i + 1..]);
    hide Flat;
  }

  lemma WriteFollows(s: Log, h: History)
    requires Follows(s, h) && s.pc.Writing? && s.pc.i < |s.batch|
    ensures Follows(AfterWriteOne(s), h)
  {
    hide Pack, File, Flat, Items, Report;
    StepKeepsPointers(s, WriteOne);
    RestStep(s.batch, s.pc.i);
    hide Pointers;
    Assoc(s.output, Items(s.batch[s.pc.i]), Items(Flat(s.batch[s.pc.i + 1..])));
  }

  lemma StepFollows(s: Log, h: History, step: Step)
    requires Follows(s, h)
    ensures Follows(Apply(s, step), Note(h, s, step))
  {
    hide Pack, File, Report, Items, Pointers, AfterAppend, AfterCollect, AfterDrop, AfterWriteOne;
    StepKeepsPointers(s, step);
    if Enabled(s, step) {
      match step
      case Append(line) => AppendFollows(s, h, line);
      case Collect => CollectFollows(s, h);
      case Drop => DropFollows(s, h);
      case WriteOne => WriteFollows(s, h);
      case Recycle => RecycleLeaves(s);
      case _ =>
    }
  }

  lemma RecycleLeaves(s: Log)
    requires Pointers(s) && s.pc.Writing? && s.pc.i == |s.batch|
    ensures var s' := AfterRecycle(s);
            s'.buffers == s.buffers && s'.current == s.current && s'.output == s.output && Rest(s) == [] == Rest(s')
  {
    assert s.batch[|s.batch|..] == [];
  }

  lemma AllWritten(s: Log, h: History)
    requires Follows(s, h) && s.pc == Writing(|s.batch|)
    ensures s.output == File(h.batches)
  {
    hide Pack, File, Report, Pointers;
    assert s.batch[|s.batch|..] == [];
    assert s.output + [] == s.output;
  }

  lemma {:induction false} RunFollows(s: Log, h: History, steps: seq<Step>)
    requires Follows(s, h)
    ensures Follows(Run(s, steps), Past(h, s, steps))
    decreases |steps|
  {
    hide Apply, Note, Follows;
    if steps != [] {
      StepFollows(s, h, steps[0]);
      RunFollows(Apply(s, steps[0]), Note(h, s, steps[0]), steps[1..]);
    }
  }

  /** In every interleaving: the list and the current buffer are the lines appended since the last collection,
      packed; and the file, with what is still to be written of the batch, is the report of each collection
      on the lines appended before it, packed. */
  lemma FileIs(steps: seq<Step>)
    ensures var s, h := Run(Started, steps), Past(Nothing, Started, steps);
            && s.current.Ptr? && s.buffers + [s.current.lines] == Pack(h.given)
            && s.output + Rest(s) == File(h.batches)
  {
    PackNothing();
    assert Started.buffers + [Started.current.lines] == [[]];
    RunFollows(Started, Nothing, steps);
  }

  function Writes(n: nat): (steps: seq<Step>) {
    if n == 0 then [] else [WriteOne] + Writes(n - 1)
  }

  /** One turn of the writer's loop over a batch of `n` buffers, with no appends in between. */
  function Round(n: nat): (steps: seq<Step>) {
    [Enter, Collect, Drop] + (Writes(if n > MAX_BATCH then 2 else n) + [Recycle])
  }

  lemma RunStep(s: Log, step: Step, rest: seq<Step>)
    ensures Run(s, [step] + rest) == Run(Apply(s, step), rest)
  {
    hide Apply;
    assert ([step] + rest)[1..] == rest;
  }

  /** The producers' side is left alone by the writer outside its critical section. */
  predicate SameFront(s: Log, s': Log) {
    s'.running == s.running && s'.buffers == s.buffers && s'.current == s.current
  }

  lemma WriteOneIs(s: Log)
    requires s.pc.Writing? && s.pc.i < |s.batch|
    ensures var s' := Apply(s, WriteOne);
            s'.pc == Writing(s.pc.i + 1) && s'.batch == s.batch && SameFront(s, s')
  {
    hide Items;
  }

  lemma RecycleIs(s: Log)
    requires s.pc.Writing? && s.pc.i == |s.batch|
    ensures Apply(s, Recycle).pc.Head? && SameFront(s, Apply(s, Recycle))
  {
  }

  lemma {:induction false} WritesEnd(s: Log, h: History, n: nat)
    requires Follows(s, h) && s.pc.Writing? && s.pc.i + n == |s.batch|
    ensures var s' := Run(s, Writes(n) + [Recycle]); Follows(s', h) && s'.pc.Head? && SameFront(s, s')
    decreases n
  {
    hide Follows, Apply;
    if n == 0 {
      assert Writes(n) + [Recycle] == [Recycle] + [];
      RunStep(s, Recycle, []);
      StepFollows(s, h, Recycle);
      RecycleIs(s);
    } else {
      assert Writes(n) + [Recycle] == [WriteOne] + (Writes(n - 1) + [Recycle]);
      RunStep(s, WriteOne, Writes(n - 1) + [Recycle]);
      StepFollows(s, h, WriteOne);
      WriteOneIs(s);
      WritesEnd(Apply(s, WriteOne), h, n - 1);
    }
  }

  /** A turn of the loop ends, and by then the file has the report on every line appended before it. */
  lemma OneRound(s: Log, h: History)
    requires Follows(s, h) && s.pc.Head? && s.running
    ensures var s' := Run(s, Round(|Pack(h.given)|));
            && s'.pc.Head? && s'.output == File(h.batches + [h.given])
            && s'.buffers == [] && s'.current == Ptr([])
  {
    hide Pack, File, Report, Items;
    var n := |Pack(h.given)|;
    var h1 := History([], h.batches + [h.given]);
    var s1 := Apply(s, Enter);
    StepFollows(s, h, Enter);
    StepFollows(s1, h, Collect);
    var s2 := Apply(s1, Collect);
    StepFollows(s2, h1, Drop);
    var s3 := Apply(s2, Drop);
    var rest := Writes(if n > MAX_BATCH then 2 else n) + [Recycle];
    RunThree(s, rest);
    WritesEnd(s3, h1, |s3.batch|);
    AtHead(Run(s3, rest), h1);
  }

  lemma RunThree(s: Log, rest: seq<Step>)
    ensures Run(s, [Enter, Collect, Drop] + rest) == Run(Apply(Apply(Apply(s, Enter), Collect), Drop), rest)
  {
    hide Apply, Run;
    var s1 := Apply(s, Enter);
    RunStep(s, Enter, [Collect] + ([Drop] + rest));
    RunStep(s1, Collect, [Drop] + rest);
    RunStep(Apply(s1, Collect), Drop, rest);
    assert [Enter, Collect, Drop] + rest == [Enter] + ([Collect] + ([Drop] + rest));
  }

  lemma AtHead(s: Log, h: History)
    requires Follows(s, h) && s.pc.Head?
    ensures s.output == File(h.batches)
  {
    assert s.output + [] == s.output;
    hide File;
  }

  /** How many buffers there are. */
  function Buffers(s: Log): (n: nat) {
    (if s.current.Ptr? then 1 else 0) + (if s.next.Ptr? then 1 else 0) + (if s.spare1.Ptr? then 1 else 0)
    + (if s.spare2.Ptr? then 1 else 0) + |s.buffers| + |s.batch|
  }

  /** Buffers are moved, never shared: a step makes one only when an append finds no room and no next buffer,
      and frees only what is dropped from the batch or left of it when the spares are filled again. */
  lemma BuffersAreMoved(s: Log, step: Step)
    requires Pointers(s) && Enabled(s, step)
    ensures var s' := Apply(s, step);
            match step {
              case Append(line) =>
                Buffers(s') == Buffers(s)
                  + (if Length(s.current.lines) + |line| >= BUFFER_SIZE && s.next.Null? then 1 else 0)
              case Drop => Buffers(s') == Buffers(s) - (if |s.batch| > MAX_BATCH then |s.batch| - 2 else 0)
              case Recycle => Buffers(s') == Buffers(s) - |s.batch| + (if s.spare2.Null? then 2 else 1)
              case _ => Buffers(s') == Buffers(s)
            }
  {
    hide Length, Items;
  }

  // ---------------------------------------------------------------- what packing does

  /** The lines a buffer can take. */
  function Short(lines: seq<Line>): (short: seq<Line>) {
    if lines == [] then []
    else
      var line := lines[|lines| - 1];
      Short(lines[..|lines| - 1]) + (if |line| < BUFFER_SIZE then [line] else [])
  }

  /** Packing keeps every line shorter than a buffer, once and in order. */
  lemma {:induction false} PackHolds(given: seq<Line>)
    ensures Flat(Pack(given)) == Short(given)
  {
    if given == [] {
      assert Flat([[]]) == [];
    } else {
      var prior, line := given[..|given| - 1], given[|given| - 1];
      PackHolds(prior);
      PackStep(prior, line);
      assert prior + [line] == given;
      var bs := Pack(prior);
      assert bs == bs[..|bs| - 1] + [bs[|bs| - 1]];
      JoinFlat(bs[..|bs| - 1], bs[|bs| - 1], line);
      FlatAppend(bs, if |line| < BUFFER_SIZE then [line] else []);
      hide Pack, Flat, Length;
    }
  }

  lemma JoinFlat(front: seq<seq<Line>>, last: seq<Line>, line: Line)
    ensures Flat(front + [last + [line]]) == Flat(front + [last]) + [line]
  {
    hide Flat;
    FlatAppend(front, last + [line]);
    FlatAppend(front, last);
    Assoc(Flat(front), last, [line]);
  }

  /** The buffers before the last stay as they are. */
  lemma PackGrows(given: seq<Line>, line: Line, k: nat)
    requires k < |Pack(given)|
    ensures k < |Pack(given + [line])| && Pack(given + [line])[..k] == Pack(given)[..k]
  {
    hide Length, Pack;
    PackStep(given, line);
    var bs, bs' := Pack(given), Pack(given + [line]);
    assert forall i :: 0 <= i < k ==> bs'[i] == bs[i];
  }

  lemma LengthAppend(b: seq<Line>, line: Line)
    ensures Length(b + [line]) == Length(b) + |line| && Length([line]) == |line|
  {
    assert (b + [line])[..|b|] == b && [line][..0] == [];
  }

  lemma SamePrefix(a: seq<seq<Line>>, b: seq<seq<Line>>, i: nat)
    requires i < |a| && i < |b| && a[..i + 1] == b[..i + 1]
    ensures a[i] == b[i]
  {
    assert a[i] == a[..i + 1][i] && b[i] == b[..i + 1][i];
  }

  /** The number of buffers after one more line, and the length of the last. */
  lemma PackNext(given: seq<Line>, line: Line)
    ensures var bs, bs' := Pack(given), Pack(given + [line]);
            var last, last' := Length(bs[|bs| - 1]), Length(bs'[|bs'| - 1]);
            if last + |line| < BUFFER_SIZE then |bs'| == |bs| && last' == last + |line|
            else |bs'| == |bs| + 1 && last' == (if |line| < BUFFER_SIZE then |line| else 0)
  {
    assert Length([]) == 0;
    hide Pack, Length;
    PackStep(given, line);
    var bs := Pack(given);
    LengthAppend(bs[|bs| - 1], line);
  }

  /** No buffer is filled to the end. */
  lemma {:induction false} PackLeavesRoom(given: seq<Line>, i: nat)
    requires i < |Pack(given)|
    ensures Length(Pack(given)[i]) < BUFFER_SIZE
    decreases |given|
  {
    if given == [] {
      PackNothing();
    } else {
      hide Pack, Length;
      var prior, line := given[..|given| - 1], given[|given| - 1];
      assert prior + [line] == given;
      PackNext(prior, line);
      if i + 1 < |Pack(given)| {
        PackGrowsAt(prior, line, i);
        PackLeavesRoom(prior, i);
      }
    }
  }

  lemma PackGrowsAt(given: seq<Line>, line: Line, i: nat)
    requires i + 1 < |Pack(given + [line])|
    ensures i < |Pack(given)| && Pack(given + [line])[i] == Pack(given)[i]
  {
    hide Pack, Length;
    PackStep(given, line);
  }

  /** A line that starts a buffer had no room in the last one. */
  lemma PackStarts(given: seq<Line>, line: Line)
    requires |Pack(given + [line])| != |Pack(given)|
    ensures var bs, bs' := Pack(given), Pack(given + [line]);
            |bs'| == |bs| + 1 && bs'[..|bs|] == bs && Length(bs[|bs| - 1]) + |line| >= BUFFER_SIZE
  {
    hide Length, Pack;
    PackStep(given, line);
  }

  /** Every buffer but the last was full: it has no room for the line that came when it and the buffers before
      it were all there was. */
  lemma {:induction false} PackIsTight(given: seq<Line>, i: nat) returns (j: nat)
    requires i + 1 < |Pack(given)|
    ensures j < |given| && Pack(given[..j]) == Pack(given)[..i + 1]
    ensures Length(Pack(given)[i]) + |given[j]| >= BUFFER_SIZE
  {
    assert given != [] by { PackNothing(); }
    hide Pack, Length;
    var prior, line := given[..|given| - 1], given[|given| - 1];
    assert prior + [line] == given;
    if i + 1 < |Pack(prior)| {
      j := PackIsTight(prior, i);
      PackGrows(prior, line, i + 1);
      SamePrefix(Pack(prior), Pack(given), i);
      assert prior[..j] == given[..j];
    } else {
      j := |given| - 1;
      PackCases(prior, line);
      PackStarts(prior, line);
      SamePrefix(Pack(given)[..i + 1], Pack(given), i);
    }
  }

  lemma PackCases(given: seq<Line>, line: Line)
    ensures |Pack(given)| <= |Pack(given + [line])| <= |Pack(given)| + 1
  {
    hide Length, Pack;
    PackStep(given, line);
  }

  /** The bytes make up `n` full buffers of at least `k` bytes each, and the last. */
  predicate MakeUp(bytes: nat, n: nat, k: nat, last: nat) {
    bytes >= n * k + last
  }

  lemma OneMoreBuffer(n: nat, k: nat, bytes: nat, last: nat, line: nat)
    requires MakeUp(bytes, n, k, last)
    ensures MakeUp(bytes + line, n, k, last + line)
    ensures last >= k ==> MakeUp(bytes + line, n + 1, k, line)
  {
  }

  lemma NothingMakesUp(k: nat)
    ensures MakeUp(Length([]), 0, k, Length([]))
  {
  }

  lemma {:induction false} PackNeedsBytes(given: seq<Line>, m: nat)
    requires m < BUFFER_SIZE && forall i :: 0 <= i < |given| ==> |given[i]| <= m
    ensures var bs := Pack(given);
            MakeUp(Length(given), |bs| - 1, BUFFER_SIZE - m, Length(bs[|bs| - 1]))
  {
    hide Pack, Length, MakeUp;
    if given == [] {
      PackNothing();
      NothingMakesUp(BUFFER_SIZE - m);
    } else {
      var prior, line := given[..|given| - 1], given[|given| - 1];
      assert prior + [line] == given;
      PackNeedsBytes(prior, m);
      PackNext(prior, line);
      LengthAppend(prior, line);
      var bs := Pack(prior);
      OneMoreBuffer(|bs| - 1, BUFFER_SIZE - m, Length(prior), Length(bs[|bs| - 1]), |line|);
    }
  }

  lemma AtLeast(n: nat, k: nat, c: nat)
    requires n >= c
    ensures n * k >= c * k
  {
    assert n * k == c * k + (n - c) * k;
  }

  /** Lines of at most `m` bytes are dropped only if there are at least 25 buffers of them, less `m` each. */
  lemma DropNeedsBytes(given: seq<Line>, m: nat)
    requires m < BUFFER_SIZE && forall i :: 0 <= i < |given| ==> |given[i]| <= m
    ensures |Pack(given)| > MAX_BATCH ==> Length(given) >= MAX_BATCH * (BUFFER_SIZE - m)
  {
    hide Pack, Length;
    PackNeedsBytes(given, m);
    if |Pack(given)| > MAX_BATCH {
      AtLeast(|Pack(given)| - 1, BUFFER_SIZE - m, MAX_BATCH);
    }
  }

  // ---------------------------------------------------------------- subsequences

  /** `a` is left when some elements of `b` are taken out. */
  predicate Subsequence(a: seq<Line>, b: seq<Line>)
    decreases |b|
  {
    if a == [] then true
    else if b == [] then false
    else (a[0] == b[0] && Subsequence(a[1..], b[1..])) || Subsequence(a, b[1..])
  }

  lemma {:induction false} SubsequenceRefl(a: seq<Line>)
    ensures Subsequence(a, a)
  {
    if a != [] {
      SubsequenceRefl(a[1..]);
    }
  }

  lemma {:induction false} SubsequenceTrans(a: seq<Line>, b: seq<Line>, c: seq<Line>)
    requires Subsequence(a, b) && Subsequence(b, c)
    ensures Subsequence(a, c)
    decreases |c|
  {
    if a != [] && b != [] && c != [] {
      if b[0] == c[0] && Subsequence(b[1..], c[1..]) {
        if a[0] == b[0] && Subsequence(a[1..], b[1..]) {
          SubsequenceTrans(a[1..], b[1..], c[1..]);
        } else {
          SubsequenceTrans(a, b[1..], c[1..]);
        }
      } else {
        SubsequenceTrans(a, b, c[1..]);
      }
    }
  }

  lemma {:induction false} SubsequenceAppend(a: seq<Line>, b: seq<Line>, z: seq<Line>)
    requires Subsequence(a, b)
    ensures Subsequence(a + z, b + z)
    decreases |b|
  {
    if b == [] {
      assert a + z == z && b + z == z;
      SubsequenceRefl(z);
    } else {
      assert (b + z)[1..] == b[1..] + z;
      if a != [] && a[0] == b[0] && Subsequence(a[1..], b[1..]) {
        SubsequenceAppend(a[1..], b[1..], z);
        assert (a + z)[1..] == a[1..] + z;
      } else {
        SubsequenceAppend(a, b[1..], z);
        SubsequenceLater(a + z, b + z);
      }
    }
  }

  lemma SubsequenceLater(a: seq<Line>, b: seq<Line>)
    requires b != [] && Subsequence(a, b[1..])
    ensures Subsequence(a, b)
  {
  }

  lemma {:induction false} SubsequenceSkip(x: seq<Line>, y: seq<Line>, z: seq<Line>)
    ensures Subsequence(x + z, x + y + z)
    decreases |x|, |y|
  {
    if x != [] {
      SubsequenceSkip(x[1..], y, z);
      assert (x + z)[1..] == x[1..] + z;
      assert (x + y + z)[1..] == x[1..] + y + z;
    } else if y != [] {
      SubsequenceSkip(x, y[1..], z);
      assert (x + y + z)[1..] == x + y[1..] + z;
      SubsequenceLater(x + z, x + y + z);
    } else {
      assert x + z == x + y + z;
      SubsequenceRefl(z);
      assert x + z == z;
    }
  }

  lemma {:induction false} PrefixIsSubsequence(a: seq<Line>, b: seq<Line>, c: seq<Line>)
    requires Subsequence(a + b, c)
    ensures Subsequence(a, c)
  {
    SubsequenceSkip(a, b, []);
    assert a + [] == a && a + b + [] == a + b;
    SubsequenceTrans(a, a + b, c);
  }

  lemma SubsequenceBoth(a: seq<Line>, b: seq<Line>, p: seq<Line>, q: seq<Line>)
    requires Subsequence(a, b) && Subsequence(p, q)
    ensures Subsequence(a + p, b + q)
  {
    hide Subsequence;
    SubsequenceAppend(a, b, p);
    SubsequencePrepend(b, p, q);
    SubsequenceTrans(a + p, b + p, b + q);
  }

  lemma {:induction false} SubsequencePrepend(z: seq<Line>, p: seq<Line>, q: seq<Line>)
    requires Subsequence(p, q)
    ensures Subsequence(z + p, z + q)
  {
    if z == [] {
      assert z + p == p && z + q == q;
    } else {
      SubsequencePrepend(z[1..], p, q);
      assert (z + p)[1..] == z[1..] + p && (z + q)[1..] == z[1..] + q;
    }
  }

  // ---------------------------------------------------------------- what reaches the file

  lemma {:induction false} LinesAppend(a: seq<Item>, b: seq<Item>)
    ensures Lines(a + b) == Lines(a) + Lines(b)
    decreases |b|
  {
    if b == [] {
      assert a + b == a;
    } else {
      var front, last := b[..|b| - 1], b[|b| - 1];
      LinesAppend(a, front);
      assert (a + b)[..|a + b| - 1] == a + front;
    }
  }

  lemma {:induction false} LinesOfItems(lines: seq<Line>)
    ensures Lines(Items(lines)) == lines
    decreases |lines|
  {
    if lines != [] {
      var items := Items(lines);
      LinesOfItems(lines[..|lines| - 1]);
      assert items[..|items| - 1] == Items(lines[..|lines| - 1]);
    }
  }

  lemma LinesOfNotice(n: nat)
    ensures Lines([Notice(n)]) == []
  {
    assert [Notice(n)][..0] == [];
  }

  lemma {:induction false} ShortAppend(a: seq<Line>, b: seq<Line>)
    ensures Short(a + b) == Short(a) + Short(b)
    decreases |b|
  {
    if b == [] {
      assert a + b == a;
    } else {
      ShortAppend(a, b[..|b| - 1]);
      assert (a + b)[..|a + b| - 1] == a + b[..|b| - 1];
    }
  }

  lemma {:induction false} PastIsAppended(h: History, s: Log, steps: seq<Step>)
    ensures var h' := Past(h, s, steps);
            Flat(h'.batches) + h'.given == Flat(h.batches) + h.given + Appended(steps)
    decreases |steps|
  {
    hide Apply, Flat;
    if steps != [] {
      var h1 := Note(h, s, steps[0]);
      PastIsAppended(h1, Apply(s, steps[0]), steps[1..]);
      FlatAppend(h.batches, h.given);
      var now := Flat(h.batches) + h.given;
      var one := if steps[0].Append? then [steps[0].line] else [];
      assert Flat(h1.batches) + h1.given == now + one by { NoteAdds(h, s, steps[0]); }
      Assoc(now, one, Appended(steps[1..]));
    }
  }

  lemma NoteAdds(h: History, s: Log, step: Step)
    ensures var h' := Note(h, s, step);
            Flat(h'.batches) + h'.given == Flat(h.batches) + h.given + (if step.Append? then [step.line] else [])
  {
    hide Flat;
    FlatAppend(h.batches, h.given);
    if step.Append? {
      Assoc(Flat(h.batches), h.given, [step.line]);
    }
  }

  /** The lines of a report: all the lines the buffers took, or those of the first two buffers. */
  lemma ReportLines(given: seq<Line>)
    ensures var bs := Pack(given);
            Lines(Report(bs)) == if |bs| > MAX_BATCH then Flat(bs[..2]) else Short(given)
  {
    hide Pack, Lines, Flat;
    var bs := Pack(given);
    PackHolds(given);
    if |bs| > MAX_BATCH {
      LinesAppend([Notice(|bs| - 2)], Items(Flat(bs[..2])));
      LinesOfItems(Flat(bs[..2]));
      LinesOfNotice(|bs| - 2);
    } else {
      LinesOfItems(Flat(bs));
    }
  }

  /** No batch is over the limit. */
  predicate AllWithin(batches: seq<seq<Line>>) {
    forall i :: 0 <= i < |batches| ==> |Pack(batches[i])| <= MAX_BATCH
  }

  lemma {:induction false} FileLines(batches: seq<seq<Line>>)
    ensures AllWithin(batches) ==> Lines(File(batches)) == Short(Flat(batches))
    ensures Subsequence(Lines(File(batches)), Short(Flat(batches)))
  {
    hide Pack, Report, Lines, Flat, Short, Subsequence;
    if batches == [] {
      NoLines();
    } else {
      var front, last := batches[..|batches| - 1], batches[|batches| - 1];
      assert batches == front + [last];
      FileLines(front);
      assert AllWithin(batches) ==> AllWithin(front);
      FlatAppend(front, last);
      ShortAppend(Flat(front), last);
      LinesAppend(File(front), Report(Pack(last)));
      ReportSubsequence(last);
      ReportLines(last);
      var r := Lines(Report(Pack(last)));
      SubsequenceBoth(Lines(File(front)), Short(Flat(front)), r, Short(last));
    }
  }

  lemma NoLines()
    ensures Lines([]) == [] && Short(Flat([])) == [] && Subsequence([], [])
  {
  }

  lemma ReportSubsequence(given: seq<Line>)
    ensures Subsequence(Lines(Report(Pack(given))), Short(given))
  {
    hide Pack, Report, Lines, Flat, Short, Subsequence;
    ReportLines(given);
    var bs := Pack(given);
    if |bs| > MAX_BATCH {
      PackHolds(given);
      FlatSplit(bs, 2);
      SubsequenceRefl(Short(given));
      PrefixIsSubsequence(Flat(bs[..2]), Flat(bs[2..]), Short(given));
    } else {
      SubsequenceRefl(Short(given));
    }
  }

  /** In every run: if no batch is over the limit, the file, the batch being written, the list and the current
      buffer hold all lines appended that are shorter than a buffer, each once and in order. When the writer
      has stopped, what the file lacks is what was appended after its last collection. */
  lemma NoLineIsLost(steps: seq<Step>)
    ensures var s := Run(Started, steps);
            AllWithin(Past(Nothing, Started, steps).batches) ==>
              && s.current.Ptr?
              && Lines(s.output) + Lines(Rest(s)) + Flat(s.buffers + [s.current.lines]) == Short(Appended(steps))
              && (s.pc.Exited? ==> Rest(s) == [])
  {
    hide Pack, Lines, Flat, Short, File, Run, Past, Report, Subsequence;
    var s, h := Run(Started, steps), Past(Nothing, Started, steps);
    FileIs(steps);
    LinesAppend(s.output, Rest(s));
    FileLines(h.batches);
    PackHolds(h.given);
    HistoryIs(steps);
    ShortAppend(Flat(h.batches), h.given);
  }

  lemma HistoryIs(steps: seq<Step>)
    ensures var h := Past(Nothing, Started, steps); Flat(h.batches) + h.given == Appended(steps)
  {
    hide Past, Appended;
    PastIsAppended(Nothing, Started, steps);
    assert Flat(Nothing.batches) + Nothing.given == [];
    assert [] + Appended(steps) == Appended(steps);
  }

  /** Whatever is dropped, the lines in the file are whole lines, each at most once, in the order they
      were appended. */
  lemma OutputIsInOrder(steps: seq<Step>)
    ensures Subsequence(Lines(Run(Started, steps).output), Short(Appended(steps)))
  {
    hide Pack, Lines, Flat, Short, File, Run, Past, Report, Subsequence;
    var s, h := Run(Started, steps), Past(Nothing, Started, steps);
    FileIs(steps);
    LinesAppend(s.output, Rest(s));
    FileLines(h.batches);
    HistoryIs(steps);
    ShortAppend(Flat(h.batches), h.given);
    var all := Short(Flat(h.batches)) + Short(h.given);
    PrefixIsSubsequence(Lines(s.output), Lines(Rest(s)), Short(Flat(h.batches)));
    SubsequenceSkip(Short(Flat(h.batches)), Short(h.given), []);
    assert Short(Flat(h.batches)) + [] == Short(Flat(h.batches)) && all + [] == all;
    SubsequenceTrans(Lines(s.output), Short(Flat(h.batches)), all);
  }

  // ---------------------------------------------------------------- the object

  class Logger {
    var current: BufferPtr
    var next: BufferPtr
    var buffers: seq<seq<Line>>
    // locals of ThreadFunc
    var newBuffer1: BufferPtr
    var newBuffer2: BufferPtr
    var buffersToWrite: seq<seq<Line>>
    var output: seq<Item>
    ghost var past: Log           // the writer's position
    ghost var history: History    // what was appended

    ghost function View(): (s: Log)
      reads this
    {
      past.(current := current, next := next, buffers := buffers, spare1 := newBuffer1, spare2 := newBuffer2,
            batch := buffersToWrite, output := output)
    }

    ghost predicate Valid()
      reads this
    {
      Follows(View(), history)
    }

    constructor ()
      ensures Valid() && View() == Started && history == Nothing
    {
      current, next, buffers := Ptr([]), Ptr([]), [];
      newBuffer1, newBuffer2, buffersToWrite := Ptr([]), Ptr([]), [];
      output := [];
      past, history := Started, Nothing;
      new;
      PackNothing();
      assert View().buffers + [View().current.lines] == [[]];
    }

    method AppendLine(line: Line)
      requires Valid()
      modifies this
      ensures Valid() && View() == AfterAppend(old(View()), line)
      ensures history == old(history).(given := old(history.given) + [line])
    {
      hide Takes, Pack, File, Report;
      AppendFollows(View(), history, line);
      history := history.(given := history.given + [line]);
      if Takes(current.lines, line) {
        current := Ptr(current.lines + [line]);
      } else {
        buffers := buffers + [current.lines];
        if next.Ptr? {
          current := next;
          next := Null;
        } else {
          current := Ptr([]);
        }
        if Takes(current.lines, line) {
          current := Ptr(current.lines + [line]);
        }
      }
    }

    method CollectBatch()
      requires Valid() && past.pc.Waiting?
      modifies this
      ensures Valid() && View() == AfterCollect(old(View())) && buffersToWrite != []
      ensures history == History([], old(history.batches) + [old(history.given)])
    {
      hide Pack, File, Report, Rest;
      CollectFollows(View(), history);
      history := History([], history.batches + [history.given]);
      buffers := buffers + [current.lines];
      current := newBuffer1;
      newBuffer1 := Null;
      buffersToWrite, buffers := buffers, [];
      if next.Null? {
        next := newBuffer2;
        newBuffer2 := Null;
      }
      past := past.(pc := Collected);
    }

    method DropExcess()
      requires Valid() && past.pc.Collected?
      modifies this
      ensures Valid() && View() == AfterDrop(old(View())) && history == old(history)
    {
      hide Pack, File, Report, Rest;
      DropFollows(View(), history);
      if |buffersToWrite| > MAX_BATCH {
        output := output + [Notice(|buffersToWrite| - 2)];
        buffersToWrite := buffersToWrite[..2];
      }
      past := past.(pc := Writing(0));
    }

    method WriteNext(i: nat)
      requires Valid() && past.pc == Writing(i) && i < |buffersToWrite|
      modifies this
      ensures Valid() && View() == AfterWriteOne(old(View())) && history == old(history)
    {
      hide Pack, File, Report, Rest;
      WriteFollows(View(), history);
      output := output + Items(buffersToWrite[i]);
      past := past.(pc := Writing(i + 1));
    }

    /** The loop over the batch: every line of it reaches the file, in order. */
    method WriteBatch()
      requires Valid() && past.pc == Writing(0)
      modifies this
      ensures Valid() && View() == old(View()).(output := output, pc := Writing(|buffersToWrite|))
      ensures history == old(history) && output == File(history.batches)
    {
      hide Follows, Pack, File, Report, Items, Flat;
      ghost var t := View();
      for i := 0 to |buffersToWrite|
        invariant Valid() && View() == t.(output := output, pc := Writing(i)) && history == old(history)
      {
        WriteNext(i);
      }
      AllWritten(View(), history);
    }

    method RecycleBuffers()
      requires Valid() && past.pc.Writing? && past.pc.i == |buffersToWrite|
      modifies this
      ensures Valid() && View() == AfterRecycle(old(View())) && history == old(history)
    {
      hide Pack, File, Report;
      RecycleKeepsPointers(View());
      RecycleLeaves(View());
      if |buffersToWrite| > 2 {
        buffersToWrite := buffersToWrite[..2];
      }
      if newBuffer1.Null? {
        buffersToWrite := buffersToWrite[..|buffersToWrite| - 1];
        newBuffer1 := Ptr([]);
      }
      if newBuffer2.Null? {
        buffersToWrite := buffersToWrite[..|buffersToWrite| - 1];
        newBuffer2 := Ptr([]);
      }
      buffersToWrite := [];
      past := past.(pc := Head);
    }
  }
}
