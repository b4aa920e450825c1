/** What `mytinyhttpd/net/timer_id.h` names a timer by. */
module TimerIds {
  type Addr = nat

  datatype TimerId = TimerId(addr: Addr, sequence: int)
}

/** How `mytinyhttpd/net/timer.h` tells timers apart.

    A timer takes its sequence number from a counter shared by all threads, incremented and then
    read in two separate atomic steps (`(++num_created_).Load()`), and its memory from an allocator
    that reuses addresses. A `TimerId` is the pair of address and sequence number.
 */
module TimerIdentity {
  import opened TimerIds

  type Thread = nat

  /** A thread inside `new Timer`: it has the memory, and may have incremented the counter. */
  datatype Building = Allocated(addr: Addr) | Incremented(addr: Addr)

  datatype State = State(
    counter: int,                     // num_created_
    building: map<Thread, Building>,
    live: map<Addr, nat>,             // the constructed timers, as positions in `issued`
    issued: seq<TimerId>)             // the id of every timer ever constructed, in order

  datatype Step =
    | Allocate(t: Thread, addr: Addr)
    | Increment(t: Thread)
    | Load(t: Thread)
    | Free(freed: Addr)

  predicate Occupied(s: State, addr: Addr) {
    addr in s.live || exists t :: t in s.building && s.building[t].addr == addr
  }

  predicate Enabled(s: State, step: Step) {
    match step
    case Allocate(t, addr) => t !in s.building && !Occupied(s, addr)
    case Increment(t) => t in s.building && s.building[t].Allocated?
    case Load(t) => t in s.building && s.building[t].Incremented?
    case Free(freed) => freed in s.live
  }

  function Apply(s: State, step: Step): (s': State) {
    if !Enabled(s, step) then s
    else
      match step
      case Allocate(t, addr) => s.(building := s.building[t := Allocated(addr)])
      case Increment(t) =>
        s.(counter := s.counter + 1, building := s.building[t := Incremented(s.building[t].addr)])
      case Load(t) =>
        var addr := s.building[t].addr;
        s.(building := s.building - {t},
           live := s.live[addr := |s.issued|],
           issued := s.issued + [TimerId(addr, s.counter)])
      case Free(freed) => s.(live := s.live - {freed})
  }

  function Run(s: State, steps: seq<Step>): (s': State)
    decreases |steps|
  {
    if steps == [] then s else Run(Apply(s, steps[0]), steps[1..])
  }

  const Start := State(0, map[], map[], [])

  // ---------------------------------------------------------------- what every step keeps

  predicate Disjoint(s: State) {
    && (forall t, u :: t in s.building && u in s.building && t != u ==> s.building[t].addr != s.building[u].addr)
    && (forall t :: t in s.building ==> s.building[t].addr !in s.live)
  }

  predicate Inv(s: State) {
    && Disjoint(s)
    && s.counter >= 0
    && (forall i :: 0 <= i < |s.issued| ==> 1 <= s.issued[i].sequence <= s.counter)
    && (forall t, i :: t in s.building && s.building[t].Incremented? && 0 <= i < |s.issued| ==>
          (s.issued[i].addr == s.building[t].addr ==> s.issued[i].sequence < s.counter))
    && (forall t :: t in s.building && s.building[t].Incremented? ==> 1 <= s.counter)
    && (forall i, j :: 0 <= i < j < |s.issued| && s.issued[i].addr == s.issued[j].addr ==>
          s.issued[i].sequence < s.issued[j].sequence)
    && (forall addr :: addr in s.live ==> s.live[addr] < |s.issued| && s.issued[s.live[addr]].addr == addr)
  }

  lemma LoadKeepsInv(s: State, t: Thread)
    requires Inv(s) && Enabled(s, Load(t))
    ensures Inv(Apply(s, Load(t)))
  {
    var s' := Apply(s, Load(t));
    var addr := s.building[t].addr;
    forall i, j | 0 <= i < j < |s'.issued| && s'.issued[i].addr == s'.issued[j].addr
      ensures s'.issued[i].sequence < s'.issued[j].sequence
    {
      if j == |s.issued| {
        assert s.issued[i].addr == addr;
      }
    }
    forall u, i | u in s'.building && s'.building[u].Incremented? && 0 <= i < |s'.issued|
      && s'.issued[i].addr == s'.building[u].addr
      ensures s'.issued[i].sequence < s'.counter
    {
      assert u in s.building && u != t;
    }
  }

  lemma StepKeepsInv(s: State, step: Step)
    requires Inv(s)
    ensures Inv(Apply(s, step))
  {
    if step.Load? && Enabled(s, step) {
      LoadKeepsInv(s, step.t);
    }
  }

  lemma {:induction false} RunKeepsInv(s: State, steps: seq<Step>)
    requires Inv(s)
    ensures Inv(Run(s, steps))
    decreases |steps|
  {
    hide Apply, Inv;
    if steps != [] {
      StepKeepsInv(s, steps[0]);
      RunKeepsInv(Apply(s, steps[0]), steps[1..]);
    }
  }

  // ---------------------------------------------------------------- results

  /** In every run of any number of threads, with any reuse of addresses, no pair of address and
      sequence number is issued twice. */
  lemma PairsNeverRepeat(steps: seq<Step>, i: nat, j: nat)
    requires i < j < |Run(Start, steps).issued|
    ensures Run(Start, steps).issued[i] != Run(Start, steps).issued[j]
  {
    RunKeepsInv(Start, steps);
  }

  /** What `CancelInLoop` looks up: the live timer with this address and this sequence number. */
  predicate Names(s: State, id: TimerId, serial: nat)
  {
    id.addr in s.live && s.live[id.addr] == serial && serial < |s.issued| && s.issued[serial].sequence == id.sequence
  }

  /** A `TimerId` never names a timer other than the one it was issued for: a stale one, whose memory
      has been given to another timer, names none. */
  lemma StaleIdNamesNothing(steps: seq<Step>, i: nat, serial: nat)
    requires var s := Run(Start, steps); i < |s.issued| && Names(s, s.issued[i], serial)
    ensures serial == i
  {
    RunKeepsInv(Start, steps);
    var s := Run(Start, steps);
    assert s.issued[serial].addr == s.issued[i].addr;
  }

  predicate Lives(s: State, i: nat, addr: Addr) {
    addr in s.live && s.live[addr] == i
  }

  lemma {:induction false} StaysDead(s: State, i: nat, addr: Addr, steps: seq<Step>)
    requires i < |s.issued| && !Lives(s, i, addr)
    ensures !Lives(Run(s, steps), i, addr)
    decreases |steps|
  {
    if steps != [] {
      var s1 := Apply(s, steps[0]);
      assert i < |s1.issued| && !Lives(s1, i, addr);
      hide Apply, Lives;
      StaysDead(s1, i, addr, steps[1..]);
    }
  }

  lemma {:induction false} LivesUntil(s: State, i: nat, addr: Addr, steps: seq<Step>)
    requires Inv(s) && i < |s.issued| && Lives(s, i, addr)
    ensures Lives(Run(s, steps), i, addr) <==> Free(addr) !in steps
    decreases |steps|
  {
    if steps != [] {
      var s1 := Apply(s, steps[0]);
      StepKeepsInv(s, steps[0]);
      assert i < |s1.issued| && (Lives(s1, i, addr) <==> steps[0] != Free(addr));
      assert steps == [steps[0]] + steps[1..];
      hide Apply, Lives, Inv;
      if Lives(s1, i, addr) {
        LivesUntil(s1, i, addr, steps[1..]);
      } else {
        StaysDead(s1, i, addr, steps[1..]);
      }
    }
  }

  /** The `TimerId` of a timer just made names it until its memory is freed, and never after. */
  lemma NamesUntilFreed(before: seq<Step>, t: Thread, after: seq<Step>)
    requires Enabled(Run(Start, before), Load(t))
    ensures var s := Run(Start, before);
            var i, addr := |s.issued|, s.building[t].addr;
            var s' := Run(Apply(s, Load(t)), after);
            i < |s'.issued| && (Names(s', s'.issued[i], i) <==> Free(addr) !in after)
  {
    RunKeepsInv(Start, before);
    var s := Run(Start, before);
    var i, addr := |s.issued|, s.building[t].addr;
    var s1 := Apply(s, Load(t));
    StepKeepsInv(s, Load(t));
    assert Lives(s1, i, addr) && s1.issued[i].addr == addr;
    hide Apply, Inv, Start;
    LivesUntil(s1, i, addr, after);
    RunIssues(s1, after);
  }

  lemma {:induction false} RunIssues(s: State, steps: seq<Step>)
    ensures s.issued <= Run(s, steps).issued
    decreases |steps|
  {
    if steps != [] {
      var s1 := Apply(s, steps[0]);
      assert s.issued <= s1.issued;
      hide Apply;
      RunIssues(s1, steps[1..]);
    }
  }

  const Racing := [Allocate(0, 10), Allocate(1, 11), Increment(0), Increment(1), Load(0), Load(1)]

  lemma RacingStates() returns (s1: State, s2: State, s3: State, s4: State, s5: State, s6: State)
    ensures s1 == Apply(Start, Racing[0]) && s2 == Apply(s1, Racing[1]) && s3 == Apply(s2, Racing[2])
    ensures s4 == Apply(s3, Racing[3]) && s5 == Apply(s4, Racing[4]) && s6 == Apply(s5, Racing[5])
    ensures s6.issued == [TimerId(10, 2), TimerId(11, 2)]
  {
    s1 := Apply(Start, Racing[0]);
    assert s1.building == map[0 := Allocated(10)];
    s2 := Apply(s1, Racing[1]);
    assert s2.building == map[0 := Allocated(10), 1 := Allocated(11)];
    s3 := Apply(s2, Racing[2]);
    assert s3.building[0] == Incremented(10) && s3.building[1] == Allocated(11);
    s4 := Apply(s3, Racing[3]);
    assert s4.building[0] == Incremented(10) && s4.building[1] == Incremented(11) && s4.counter == 2;
    s5 := Apply(s4, Racing[4]);
    s6 := Apply(s5, Racing[5]);
  }

  /** Sequence numbers alone do repeat: two threads increment before either reads. */
  lemma SequenceNumbersRepeat()
    ensures exists steps :: var s := Run(Start, steps);
                            |s.issued| == 2 && s.issued[0].sequence == s.issued[1].sequence
  {
    hide Apply;
    var s1, s2, s3, s4, s5, s6 := RacingStates();
    RunStep(s5, Racing, 5);
    RunStep(s4, Racing, 4);
    RunStep(s3, Racing, 3);
    RunStep(s2, Racing, 2);
    RunStep(s1, Racing, 1);
    RunStep(Start, Racing, 0);
    assert Racing[0..] == Racing;
    assert Run(Start, Racing) == s6;
  }

  lemma RunStep(s: State, steps: seq<Step>, i: nat)
    requires i < |steps|
    ensures Run(s, steps[i..]) == Run(Apply(s, steps[i]), steps[i + 1..])
  {
    hide Apply;
    assert steps[i..][1..] == steps[i + 1..];
  }

  // ---------------------------------------------------------------- when sequence numbers repeat

  /** The threads between their increment and their load. */
  function Between(s: State): (ts: set<Thread>) {
    set t | t in s.building && s.building[t].Incremented?
  }

  /** Every load is made by the only thread between its increment and its load. */
  predicate LoadsAlone(s: State, steps: seq<Step>)
    decreases |steps|
  {
    steps != [] ==>
    && (steps[0].Load? && Enabled(s, steps[0]) ==> Between(s) == {steps[0].t})
    && LoadsAlone(Apply(s, steps[0]), steps[1..])
  }

  predicate Counted(s: State) {
    s.counter == |s.issued| + |Between(s)|
  }

  lemma BetweenAfter(s: State, step: Step)
    requires Enabled(s, step)
    ensures var ts, ts' := Between(s), Between(Apply(s, step));
            match step {
              case Increment(t) => t !in ts && ts' == ts + {t}
              case Load(t) => t !in ts' && ts == ts' + {t}
              case _ => ts' == ts
            }
  {
  }

  lemma StepKeepsCounted(s: State, step: Step)
    requires Counted(s)
    ensures Counted(Apply(s, step))
  {
    if Enabled(s, step) {
      BetweenAfter(s, step);
      hide Between;
      var ts, ts' := Between(s), Between(Apply(s, step));
      match step
      case Increment(t) => OneMore(ts, t);
      case Load(t) => OneMore(ts', t);
      case _ =>
    }
  }

  lemma OneMore(ts: set<Thread>, t: Thread)
    requires t !in ts
    ensures |ts + {t}| == |ts| + 1
  {
  }

  /** A thread that loads alone gets the number of timers issued so far, itself included; with company it
      gets more. */
  lemma LoadedNumber(s: State, t: Thread)
    requires Counted(s) && Enabled(s, Load(t))
    ensures s.counter >= |s.issued| + 1
    ensures s.counter == |s.issued| + 1 <==> Between(s) == {t}
  {
    assert t in Between(s);
    assert Between(s) == Between(s) - {t} + {t};
    assert |Between(s)| == |Between(s) - {t}| + 1;
  }

  /** The timers issued in a run are numbered in order, exactly when every load of the run was alone. */
  lemma {:induction false} NumberedIff(s: State, steps: seq<Step>)
    requires Counted(s)
    ensures var s' := Run(s, steps);
            && Counted(s') && |s.issued| <= |s'.issued| && s'.issued[..|s.issued|] == s.issued
            && (forall i :: |s.issued| <= i < |s'.issued| ==> s'.issued[i].sequence >= i + 1)
            && (LoadsAlone(s, steps) <==> forall i :: |s.issued| <= i < |s'.issued| ==> s'.issued[i].sequence == i + 1)
    decreases |steps|
  {
    if steps != [] {
      var step := steps[0];
      var s1 := Apply(s, step);
      StepKeepsCounted(s, step);
      NumberedIff(s1, steps[1..]);
      if step.Load? && Enabled(s, step) {
        LoadedNumber(s, step.t);
        assert Run(s, steps).issued[|s.issued|] == s1.issued[|s.issued|];
      }
      hide Apply, Between, Counted, LoadsAlone;
    }
  }

  predicate DistinctNumbers(ids: seq<TimerId>) {
    forall i, j :: 0 <= i < j < |ids| ==> ids[i].sequence != ids[j].sequence
  }

  /** Distinct numbers up to the length, none below its place: each is its place. */
  lemma {:induction false} NoRoomForOthers(ids: seq<TimerId>, k: nat)
    requires k <= |ids| && DistinctNumbers(ids)
    requires forall i :: 0 <= i < |ids| ==> i + 1 <= ids[i].sequence <= |ids|
    ensures forall i :: k <= i < |ids| ==> ids[i].sequence == i + 1
    decreases |ids| - k
  {
    if k < |ids| {
      NoRoomForOthers(ids, k + 1);
      var m := |ids|;
      while m > k + 1
        invariant k + 1 <= m <= |ids| && ids[k].sequence <= m
      {
        assert ids[m - 1].sequence == m;
        m := m - 1;
      }
    }
  }

  /** In every run that leaves no thread in between, the sequence numbers are distinct if and only if no two
      threads were in between at a load. */
  lemma SequenceNumbersDistinctIff(steps: seq<Step>)
    requires Between(Run(Start, steps)) == {}
    ensures DistinctNumbers(Run(Start, steps).issued) <==> LoadsAlone(Start, steps)
  {
    assert Between(Start) == {};
    NumberedIff(Start, steps);
    RunKeepsInv(Start, steps);
    var ids := Run(Start, steps).issued;
    if DistinctNumbers(ids) {
      NoRoomForOthers(ids, 0);
    }
  }

  // ---------------------------------------------------------------- the counter is 64 bits wide

  const TWO_64: int := 0x1_0000_0000_0000_0000

  function Wrap64(x: int): (w: int)
    ensures -TWO_64 / 2 <= w < TWO_64 / 2
  {
    (x + TWO_64 / 2) % TWO_64 - TWO_64 / 2
  }

  lemma WrapInjective(x: int, y: int)
    requires 1 <= x <= y <= TWO_64 && Wrap64(x) == Wrap64(y)
    ensures x == y
  {
    var h := TWO_64 / 2;
    assert (x + h) % TWO_64 == (y + h) % TWO_64;
    assert (y + h) - (x + h) == TWO_64 * ((y + h) / TWO_64 - (x + h) / TWO_64);
  }

  /** With the counter wrapping around at 64 bits, the pairs are still distinct as long as at most
      2^64 timers have been started. */
  lemma WrappedPairsNeverRepeat(steps: seq<Step>, i: nat, j: nat)
    requires var s := Run(Start, steps); i < j < |s.issued| && s.counter <= TWO_64
    ensures var s := Run(Start, steps);
            (s.issued[i].addr, Wrap64(s.issued[i].sequence)) != (s.issued[j].addr, Wrap64(s.issued[j].sequence))
  {
    hide Wrap64, Apply;
    RunKeepsInv(Start, steps);
    var s := Run(Start, steps);
    if s.issued[i].addr == s.issued[j].addr && Wrap64(s.issued[i].sequence) == Wrap64(s.issued[j].sequence) {
      WrapInjective(s.issued[i].sequence, s.issued[j].sequence);
    }
  }
}
