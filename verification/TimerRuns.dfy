/** Timers made by any number of threads, as `TimerIdentity` has it, and the queues of the loops they are
    added to, each as `TimerQueues` has it, in one machine: the threads share one counter and one allocator, and
    the memory of a timer that one queue frees may be used again for a timer of another. */
module TimerRuns {
  import opened TimerIds
  import I = TimerIdentity
  import Q = TimerQueues

  type LoopId = nat

  datatype System = System(makers: I.State, queues: map<LoopId, Q.Queue>)

  datatype Step =
    | Allocate(t: I.Thread, addr: Addr)
    | Increment(t: I.Thread)
    | Construct(t: I.Thread, l: LoopId, expiration: int, interval: nat, isRepeat: bool)   // the load: it is made
    | InQueue(l: LoopId, step: Q.Step)                                                    // anything but making a timer

  /** The timer a thread is about to construct. */
  function Made(i: I.State, step: Step): (q: Q.Step)
    requires step.Construct? && step.t in i.building
  {
    Q.Creating(i.building[step.t].addr, Q.Timer(i.counter, step.expiration, step.interval, step.isRepeat))
  }

  /** Some queue has a timer at the address. */
  predicate InSome(queues: map<LoopId, Q.Queue>, a: Addr) {
    exists l :: l in queues && a in queues[l].heap
  }

  /** The memory of the timers the queues have freed. */
  function GiveBack(i: I.State, queues: map<LoopId, Q.Queue>): (i': I.State) {
    i.(live := map a | a in i.live && InSome(queues, a) :: i.live[a])
  }

  ghost predicate AllInv(queues: map<LoopId, Q.Queue>) {
    forall l :: l in queues ==> Q.Inv(queues[l])
  }

  predicate Enabled(s: System, step: Step) {
    match step
    case Allocate(t, addr) => addr < Q.ADDRESS_MAX
    case Increment(t) => true
    case Construct(t, l, _, _, _) => I.Enabled(s.makers, I.Load(t)) && l in s.queues
    case InQueue(l, q) => l in s.queues && !q.Creating?
  }

  ghost function Apply(s: System, step: Step): (s': System)
    requires AllInv(s.queues)
    ensures AllInv(s'.queues)
  {
    if !Enabled(s, step) then s
    else
      match step
      case Allocate(t, addr) => s.(makers := I.Apply(s.makers, I.Allocate(t, addr)))
      case Increment(t) => s.(makers := I.Apply(s.makers, I.Increment(t)))
      case Construct(t, l, _, _, _) =>
        System(I.Apply(s.makers, I.Load(t)), s.queues[l := Q.Apply(s.queues[l], Made(s.makers, step))])
      case InQueue(l, q) =>
        var queues := s.queues[l := Q.Apply(s.queues[l], q)];
        System(GiveBack(s.makers, queues), queues)
  }

  ghost function Run(s: System, steps: seq<Step>): (s': System)
    requires AllInv(s.queues)
    ensures AllInv(s'.queues)
    decreases |steps|
  {
    if steps == [] then s else Run(Apply(s, steps[0]), steps[1..])
  }

  function Start(loops: set<LoopId>): (s: System) {
    System(I.Start, map l | l in loops :: Q.Empty)
  }

  // ---------------------------------------------------------------- what every step keeps

  /** A queue knows the timers it has under the ids they were issued. */
  ghost predicate Knows(i: I.State, q: Q.Queue) {
    && (forall a :: a in q.heap ==>
          a in i.live && i.live[a] < |i.issued| && i.issued[i.live[a]] == Q.IdOf(q, a))
    && (forall id :: id in q.issued ==> id in i.issued)
  }

  predicate Apart(q: Q.Queue, q': Q.Queue) {
    forall a :: a in q.heap ==> a !in q'.heap
  }

  ghost predicate AllKnow(i: I.State, queues: map<LoopId, Q.Queue>) {
    forall l :: l in queues ==> Knows(i, queues[l])
  }

  predicate AllApart(queues: map<LoopId, Q.Queue>) {
    forall l, k :: l in queues && k in queues && l != k ==> Apart(queues[l], queues[k])
  }

  predicate Covered(i: I.State, queues: map<LoopId, Q.Queue>) {
    forall a :: a in i.live ==> InSome(queues, a)
  }

  predicate Addressable(i: I.State) {
    forall t :: t in i.building ==> i.building[t].addr < Q.ADDRESS_MAX
  }

  /** The timers the makers take to be alive are those of the queues, each in one. */
  ghost predicate Joined(i: I.State, queues: map<LoopId, Q.Queue>) {
    Addressable(i) && Covered(i, queues) && AllKnow(i, queues) && AllApart(queues)
  }

  ghost predicate Inv(s: System) {
    I.Inv(s.makers) && AllInv(s.queues) && Joined(s.makers, s.queues)
  }

  /** What a queue asks of a new timer: its address is free and its id was never issued. */
  lemma ConstructedIsNew(s: System, step: Step)
    requires Inv(s) && step.Construct? && Enabled(s, step)
    ensures Q.Enabled(s.queues[step.l], Made(s.makers, step))
  {
    hide Q.Inv;
    var i := s.makers;
    var id := TimerId(i.building[step.t].addr, i.counter);
    assert Knows(i, s.queues[step.l]);
    assert forall k :: 0 <= k < |i.issued| ==> i.issued[k] != id;
  }

  lemma GiveBackKeepsInv(i: I.State, queues: map<LoopId, Q.Queue>)
    requires I.Inv(i)
    ensures I.Inv(GiveBack(i, queues))
  {
  }

  /** A queue has one more timer. */
  ghost predicate Grown(q: Q.Queue, q': Q.Queue, addr: Addr, timer: Q.Timer) {
    q'.heap == q.heap[addr := timer] && q'.issued == q.issued + {TimerId(addr, timer.sequence)}
  }

  lemma CreatingIs(q: Q.Queue, addr: Addr, timer: Q.Timer)
    requires Q.Inv(q) && Q.Enabled(q, Q.Creating(addr, timer))
    ensures Grown(q, Q.Apply(q, Q.Creating(addr, timer)), addr, timer)
  {
    hide Q.SetsAgree, Q.Partition, Q.Ledger;
  }

  /** Canceling frees at most the timer that has the id. */
  lemma CancelingIs(q: Q.Queue, id: TimerId)
    requires Q.Inv(q)
    ensures var q' := Q.Apply(q, Q.Canceling(id));
            forall a :: a in q.heap && a !in q'.heap ==> a == id.addr && Q.IdOf(q, a) == id
  {
    Q.InvFacts(q);
    hide Q.SetsAgree, Q.Partition, Q.Ledger, Q.Erase;
  }

  /** A queue has at most the timers it had. */
  predicate Shrunk(q: Q.Queue, q': Q.Queue) {
    && q'.issued == q.issued && q'.heap.Keys <= q.heap.Keys
    && (forall a :: a in q'.heap ==> Q.IdOf(q', a) == Q.IdOf(q, a))
  }

  /** A queue alone: timers that stay keep their ids, and none are added. */
  lemma QueueKeepsIds(q: Q.Queue, step: Q.Step)
    requires Q.Inv(q) && !step.Creating?
    ensures Shrunk(q, Q.Apply(q, step))
  {
    hide Q.SetsAgree, Q.Partition, Q.Ledger;
    Q.IssuedOnlyByCreating(q, step);
    Q.InvFacts(q);
    if step.Finishing? && Q.Enabled(q, step) {
      ResetKeepsIds(q);
    }
  }

  lemma {:induction false} ResetKeepsIds(q: Q.Queue)
    requires Q.BatchLive(q)
    ensures var q' := Q.ResetAll(q);
            q'.heap.Keys <= q.heap.Keys && (forall a :: a in q'.heap ==> Q.IdOf(q', a) == Q.IdOf(q, a))
    decreases |q.batch|
  {
    if q.batch != [] {
      hide Q.InsertSorted;
      Q.ResetFirstLive(q);
      var q1 := Q.ResetFirst(q);
      assert q1.heap.Keys <= q.heap.Keys;
      assert forall a :: a in q1.heap ==> Q.IdOf(q1, a) == Q.IdOf(q, a);
      ResetKeepsIds(q1);
    }
  }

  /** The memory a thread builds in belongs to no queue. */
  lemma BuildingIsFree(i: I.State, queues: map<LoopId, Q.Queue>, t: I.Thread, l: LoopId)
    requires I.Inv(i) && AllKnow(i, queues) && t in i.building && l in queues
    ensures i.building[t].addr !in queues[l].heap
  {
    assert Knows(i, queues[l]);
  }

  lemma LoadKnows(i: I.State, q: Q.Queue, t: I.Thread)
    requires I.Enabled(i, I.Load(t)) && Knows(i, q) && i.building[t].addr !in q.heap
    ensures Knows(I.Apply(i, I.Load(t)), q)
  {
    var i' := I.Apply(i, I.Load(t));
    assert forall id :: id in i.issued ==> id in i'.issued;
  }

  lemma LoadKnowsNew(i: I.State, q: Q.Queue, q': Q.Queue, t: I.Thread, timer: Q.Timer)
    requires I.Enabled(i, I.Load(t)) && Knows(i, q) && timer.sequence == i.counter
    requires i.building[t].addr !in q.heap && Grown(q, q', i.building[t].addr, timer)
    ensures Knows(I.Apply(i, I.Load(t)), q')
  {
    LoadKnows(i, q, t);
    var i' := I.Apply(i, I.Load(t));
    assert i'.issued[|i.issued|] == TimerId(i.building[t].addr, i.counter);
  }

  lemma GrownKnow(i: I.State, queues: map<LoopId, Q.Queue>, l: LoopId, q': Q.Queue, t: I.Thread, timer: Q.Timer)
    requires I.Inv(i) && AllKnow(i, queues) && I.Enabled(i, I.Load(t)) && timer.sequence == i.counter && l in queues
    requires Grown(queues[l], q', i.building[t].addr, timer)
    ensures AllKnow(I.Apply(i, I.Load(t)), queues[l := q'])
  {
    hide I.Inv, I.Apply, Knows;
    var queues' := queues[l := q'];
    forall k | k in queues'
      ensures Knows(I.Apply(i, I.Load(t)), queues'[k])
    {
      BuildingIsFree(i, queues, t, k);
      if k == l {
        LoadKnowsNew(i, queues[l], q', t, timer);
      } else {
        LoadKnows(i, queues[k], t);
      }
    }
  }

  lemma GrownApart(queues: map<LoopId, Q.Queue>, l: LoopId, q': Q.Queue, addr: Addr, timer: Q.Timer)
    requires AllApart(queues) && l in queues && Grown(queues[l], q', addr, timer) && !InSome(queues, addr)
    ensures AllApart(queues[l := q'])
  {
    var queues' := queues[l := q'];
    forall k, j | k in queues' && j in queues' && k != j
      ensures Apart(queues'[k], queues'[j])
    {
      assert Apart(queues[k], queues[j]);
    }
  }

  lemma GrownCovered(i: I.State, queues: map<LoopId, Q.Queue>, l: LoopId, q': Q.Queue, t: I.Thread, timer: Q.Timer)
    requires Covered(i, queues) && I.Enabled(i, I.Load(t)) && l in queues
    requires Grown(queues[l], q', i.building[t].addr, timer)
    ensures Covered(I.Apply(i, I.Load(t)), queues[l := q'])
  {
    var i', queues' := I.Apply(i, I.Load(t)), queues[l := q'];
    forall a | a in i'.live
      ensures InSome(queues', a)
    {
      if a == i.building[t].addr {
        assert a in queues'[l].heap;
      } else {
        var k :| k in queues && a in queues[k].heap;
        assert a in queues'[k].heap;
      }
    }
  }

  lemma InNone(i: I.State, queues: map<LoopId, Q.Queue>, t: I.Thread)
    requires I.Inv(i) && AllKnow(i, queues) && t in i.building
    ensures !InSome(queues, i.building[t].addr)
  {
    hide I.Inv, AllKnow;
    forall l | l in queues
      ensures i.building[t].addr !in queues[l].heap
    {
      BuildingIsFree(i, queues, t, l);
    }
  }

  lemma LoadKeepsJoined(i: I.State, queues: map<LoopId, Q.Queue>, l: LoopId, q': Q.Queue, t: I.Thread, timer: Q.Timer)
    requires I.Inv(i) && Joined(i, queues) && I.Enabled(i, I.Load(t)) && timer.sequence == i.counter && l in queues
    requires Grown(queues[l], q', i.building[t].addr, timer)
    ensures Joined(I.Apply(i, I.Load(t)), queues[l := q'])
  {
    hide I.Inv, Covered, AllKnow, AllApart, Grown, InSome;
    var addr := i.building[t].addr;
    GrownKnow(i, queues, l, q', t, timer);
    GrownCovered(i, queues, l, q', t, timer);
    assert !InSome(queues, addr) by { InNone(i, queues, t); }
    GrownApart(queues, l, q', addr, timer);
  }

  lemma ConstructKeepsInv(s: System, step: Step)
    requires Inv(s) && step.Construct? && Enabled(s, step)
    ensures Inv(Apply(s, step))
  {
    hide Q.Inv, I.Inv, Q.Apply, I.Apply, Joined;
    ConstructedIsNew(s, step);
    var q, made := s.queues[step.l], Made(s.makers, step);
    I.StepKeepsInv(s.makers, I.Load(step.t));
    CreatingIs(q, made.addr, made.timer);
    LoadKeepsJoined(s.makers, s.queues, step.l, Q.Apply(q, made), step.t, made.timer);
  }

  lemma MakerKeepsJoined(i: I.State, queues: map<LoopId, Q.Queue>, step: I.Step)
    requires Joined(i, queues) && (step.Increment? || (step.Allocate? && step.addr < Q.ADDRESS_MAX))
    ensures Joined(I.Apply(i, step), queues)
  {
    hide AllApart;
    forall l | l in queues
      ensures Knows(I.Apply(i, step), queues[l])
    {
      assert Knows(i, queues[l]);
    }
  }

  lemma ShrunkKnows(i: I.State, queues: map<LoopId, Q.Queue>, q: Q.Queue, q': Q.Queue, k: LoopId)
    requires Knows(i, q) && Shrunk(q, q') && k in queues && queues[k] == q'
    ensures Knows(GiveBack(i, queues), q')
  {
    assert forall a :: a in q'.heap ==> InSome(queues, a);
    hide InSome;
  }

  lemma ShrunkKnow(i: I.State, queues: map<LoopId, Q.Queue>, l: LoopId, q': Q.Queue)
    requires AllKnow(i, queues) && l in queues && Shrunk(queues[l], q')
    ensures AllKnow(GiveBack(i, queues[l := q']), queues[l := q'])
  {
    var queues' := queues[l := q'];
    forall k | k in queues'
      ensures Knows(GiveBack(i, queues'), queues'[k])
    {
      assert Knows(i, queues[k]);
      assert Shrunk(queues[k], queues'[k]);
      hide Knows, Shrunk, GiveBack;
      ShrunkKnows(i, queues', queues[k], queues'[k], k);
    }
  }

  lemma ShrunkApart(queues: map<LoopId, Q.Queue>, l: LoopId, q': Q.Queue)
    requires AllApart(queues) && l in queues && Shrunk(queues[l], q')
    ensures AllApart(queues[l := q'])
  {
    var queues' := queues[l := q'];
    forall k, j | k in queues' && j in queues' && k != j
      ensures Apart(queues'[k], queues'[j])
    {
      assert Apart(queues[k], queues[j]);
    }
  }

  lemma QueueKeepsJoined(i: I.State, queues: map<LoopId, Q.Queue>, l: LoopId, q': Q.Queue)
    requires Joined(i, queues) && l in queues && Shrunk(queues[l], q')
    ensures Joined(GiveBack(i, queues[l := q']), queues[l := q'])
  {
    hide AllKnow, AllApart, Shrunk, InSome;
    ShrunkKnow(i, queues, l, q');
    ShrunkApart(queues, l, q');
  }

  lemma StepKeepsInv(s: System, step: Step)
    requires Inv(s)
    ensures Inv(Apply(s, step))
  {
    hide Q.Inv, I.Inv, Q.Apply, I.Apply, Joined;
    if Enabled(s, step) {
      match step
      case Allocate(t, addr) =>
        I.StepKeepsInv(s.makers, I.Allocate(t, addr));
        MakerKeepsJoined(s.makers, s.queues, I.Allocate(t, addr));
      case Increment(t) =>
        I.StepKeepsInv(s.makers, I.Increment(t));
        MakerKeepsJoined(s.makers, s.queues, I.Increment(t));
      case Construct(t, l, _, _, _) =>
        ConstructKeepsInv(s, step);
      case InQueue(l, q) =>
        QueueKeepsIds(s.queues[l], q);
        GiveBackKeepsInv(s.makers, s.queues[l := Q.Apply(s.queues[l], q)]);
        QueueKeepsJoined(s.makers, s.queues, l, Q.Apply(s.queues[l], q));
    }
  }

  lemma {:induction false} RunKeepsInv(s: System, steps: seq<Step>)
    requires Inv(s)
    ensures Inv(Run(s, steps))
    decreases |steps|
  {
    hide Apply, I.Inv, AllInv, Joined;
    if steps != [] {
      StepKeepsInv(s, steps[0]);
      RunKeepsInv(Apply(s, steps[0]), steps[1..]);
    }
  }

  lemma StartInv(loops: set<LoopId>)
    ensures Inv(Start(loops))
  {
    Q.EmptyInv();
    hide Q.Inv;
  }

  // ---------------------------------------------------------------- result

  lemma LeftQueue(queues: map<LoopId, Q.Queue>, l: LoopId, q': Q.Queue, a: Addr)
    requires InSome(queues, a) && l in queues
    ensures InSome(queues[l := q'], a) || (a in queues[l].heap && a !in q'.heap)
  {
    var queues' := queues[l := q'];
    var m :| m in queues && a in queues[m].heap;
    if m != l {
      assert a in queues'[m].heap;
    } else if a in q'.heap {
      assert a in queues'[l].heap;
    }
  }

  lemma IsTheKth(i: I.State, q: Q.Queue, k: nat, a: Addr)
    requires I.Inv(i) && Knows(i, q) && k < |i.issued| && a in q.heap && Q.IdOf(q, a) == i.issued[k]
    ensures i.live[a] == k
  {
  }

  lemma CancelTakes(s: System, k: nat, l: LoopId)
    requires Inv(s) && k < |s.makers.issued| && l in s.queues
    ensures var id := s.makers.issued[k];
            forall a :: InSome(s.queues, a) && !InSome(Apply(s, InQueue(l, Q.Canceling(id))).queues, a) ==>
              a == id.addr && a in s.makers.live && s.makers.live[a] == k
  {
    hide Q.Inv, Q.Apply, I.Inv, AllApart, Covered, Addressable, InSome;
    var id := s.makers.issued[k];
    var q, q' := s.queues[l], Q.Apply(s.queues[l], Q.Canceling(id));
    assert Knows(s.makers, q);
    CancelingIs(q, id);
    forall a | InSome(s.queues, a) && !InSome(s.queues[l := q'], a)
      ensures a == id.addr && a in s.makers.live && s.makers.live[a] == k
    {
      LeftQueue(s.queues, l, q', a);
      IsTheKth(s.makers, q, k, a);
    }
  }

  /** In every run of the threads and the queues together, canceling the id of the `k`-th timer ever made, in
      any loop, frees that timer or nothing. */
  lemma CancelFreesItsOwn(loops: set<LoopId>, steps: seq<Step>, k: nat, l: LoopId)
    ensures AllInv(Start(loops).queues)
    ensures var s := Run(Start(loops), steps);
            k < |s.makers.issued| && l in s.queues ==>
              var id := s.makers.issued[k];
              var s' := Apply(s, InQueue(l, Q.Canceling(id)));
              forall a :: InSome(s.queues, a) && !InSome(s'.queues, a) ==>
                a == id.addr && a in s.makers.live && s.makers.live[a] == k
  {
    hide Q.Inv, Q.Apply, Run, AllInv, Joined, I.Inv, InSome;
    StartInv(loops);
    RunKeepsInv(Start(loops), steps);
    var s := Run(Start(loops), steps);
    if k < |s.makers.issued| && l in s.queues {
      CancelTakes(s, k, l);
    }
  }
}
