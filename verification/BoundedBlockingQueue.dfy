/** The monitor of `mytinyhttpd/base/bounded_blocking_queue.h`.

    A thread that holds the lock runs to the end of its call or to a wait, so a step is one such stretch.
    Waiting is as loose as POSIX allows: a signal wakes one or more of the threads asleep, sleepers also
    wake for no reason, and a woken thread competes for the lock with threads that have just called.
 */
module BoundedBlockingQueues {

  import opened Options

  type Thread = nat

  /** Threads inside a call: `called` have not had the lock yet, `asleep` wait on the condition, `woken` are
      on their way back from it. */
  datatype Callers = Callers(called: set<Thread>, asleep: set<Thread>, woken: set<Thread>)

  datatype Queue<T> = Queue(
    capacity: nat,
    items: seq<T>,
    poppers: Callers,
    pushers: Callers,
    item: map<Thread, T>,   // what the pushers push
    // what has happened so far
    pushed: seq<T>,
    popped: seq<T>)

  datatype Step<T> =
    | CallPush(t: Thread, x: T)
    | CallPop(t: Thread)
    | RunPush(t: Thread, wake: set<Thread>)   // with the lock, to the end or to a wait
    | RunPop(t: Thread, wake: set<Thread>)
    | SpuriousPush(t: Thread)
    | SpuriousPop(t: Thread)

  function Inside(c: Callers): (ts: set<Thread>) {
    c.called + c.asleep + c.woken
  }

  /** What `Notify` may do: nothing if nobody sleeps, else wake somebody. */
  predicate MayWake(c: Callers, wake: set<Thread>) {
    wake <= c.asleep && (c.asleep != {} ==> wake != {})
  }

  function Wake(c: Callers, wake: set<Thread>): (c': Callers) {
    c.(asleep := c.asleep - wake, woken := c.woken + wake)
  }

  function Leave(c: Callers, t: Thread): (c': Callers) {
    c.(called := c.called - {t}, woken := c.woken - {t})
  }

  function Sleep(c: Callers, t: Thread): (c': Callers) {
    var c1 := Leave(c, t);
    c1.(asleep := c1.asleep + {t})
  }

  predicate Runnable(c: Callers, t: Thread) {
    t in c.called || t in c.woken
  }

  function Full<T>(s: Queue<T>): (full: bool) {
    |s.items| == s.capacity
  }

  function AfterRunPush<T>(s: Queue<T>, t: Thread, wake: set<Thread>): (s': Queue<T>)
    requires t in s.item
  {
    if Full(s) then s.(pushers := Sleep(s.pushers, t))
    else
      s.(items := s.items + [s.item[t]],
         pushed := s.pushed + [s.item[t]],
         item := s.item - {t},
         pushers := Leave(s.pushers, t),
         poppers := Wake(s.poppers, wake))
  }

  function AfterRunPop<T>(s: Queue<T>, t: Thread, wake: set<Thread>): (s': Queue<T>) {
    if |s.items| == 0 then s.(poppers := Sleep(s.poppers, t))
    else
      s.(items := s.items[1..],
         popped := s.popped + [s.items[0]],
         poppers := Leave(s.poppers, t),
         pushers := Wake(s.pushers, wake))
  }

  predicate Enabled<T>(s: Queue<T>, step: Step<T>) {
    match step
    case CallPush(t, x) => t !in Inside(s.poppers) + Inside(s.pushers)
    case CallPop(t) => t !in Inside(s.poppers) + Inside(s.pushers)
    case RunPush(t, wake) => Runnable(s.pushers, t) && t in s.item && (Full(s) || MayWake(s.poppers, wake))
    case RunPop(t, wake) => Runnable(s.poppers, t) && (|s.items| == 0 || MayWake(s.pushers, wake))
    case SpuriousPush(t) => t in s.pushers.asleep
    case SpuriousPop(t) => t in s.poppers.asleep
  }

  function Apply<T>(s: Queue<T>, step: Step<T>): (s': Queue<T>) {
    if !Enabled(s, step) then s
    else
      match step
      case CallPush(t, x) => s.(pushers := s.pushers.(called := s.pushers.called + {t}), item := s.item[t := x])
      case CallPop(t) => s.(poppers := s.poppers.(called := s.poppers.called + {t}))
      case RunPush(t, wake) => AfterRunPush(s, t, wake)
      case RunPop(t, wake) => AfterRunPop(s, t, wake)
      case SpuriousPush(t) => s.(pushers := Wake(s.pushers, {t}))
      case SpuriousPop(t) => s.(poppers := Wake(s.poppers, {t}))
  }

  function Run<T>(s: Queue<T>, steps: seq<Step<T>>): (s': Queue<T>)
    decreases |steps|
  {
    if steps == [] then s else Run(Apply(s, steps[0]), steps[1..])
  }

  function Start<T>(capacity: nat): (s: Queue<T>) {
    var nobody := Callers({}, {}, {});
    Queue(capacity, [], nobody, nobody, map[], [], [])
  }

  // ---------------------------------------------------------------- the invariant

  predicate Distinct(c: Callers) {
    c.called !! c.asleep && c.called !! c.woken && c.asleep !! c.woken
  }

  /** Nobody sleeps through work: while somebody is asleep, there are woken threads for all of it. */
  predicate Attended(c: Callers, work: int) {
    c.asleep != {} ==> work <= |c.woken|
  }

  ghost predicate InOrder<T>(s: Queue<T>) {
    s.pushed == s.popped + s.items && |s.items| <= s.capacity
  }

  predicate Sorted<T>(s: Queue<T>) {
    Distinct(s.poppers) && Distinct(s.pushers) && s.item.Keys == Inside(s.pushers)
  }

  predicate NoneStranded<T>(s: Queue<T>) {
    Attended(s.poppers, |s.items|) && Attended(s.pushers, s.capacity - |s.items|)
  }

  ghost predicate Inv<T>(s: Queue<T>) {
    InOrder(s) && Sorted(s) && NoneStranded(s)
  }

  lemma SizeOfUnion(a: set<Thread>, b: set<Thread>)
    requires a !! b
    ensures |a + b| == |a| + |b|
  {
  }

  lemma SizeWithout(a: set<Thread>, t: Thread)
    ensures |a - {t}| >= |a| - 1
  {
    assert a - {t} + {t} >= a;
    if t in a {
      assert a - {t} + {t} == a;
    } else {
      assert a - {t} == a;
    }
  }

  lemma WakeKeepsApart(c: Callers, wake: set<Thread>)
    requires Distinct(c) && wake <= c.asleep
    ensures Distinct(Wake(c, wake)) && Inside(Wake(c, wake)) == Inside(c)
  {
    assert c.asleep - wake + wake == c.asleep;
  }

  lemma WakeAttends(c: Callers, wake: set<Thread>, work: int)
    requires Distinct(c) && wake <= c.asleep && wake != {} && Attended(c, work - 1)
    ensures Attended(Wake(c, wake), work)
  {
    assert wake !! c.woken;
    SizeOfUnion(c.woken, wake);
  }

  lemma LeaveKeepsApart(c: Callers, t: Thread)
    requires Distinct(c) && Runnable(c, t)
    ensures Distinct(Leave(c, t)) && Inside(Leave(c, t)) == Inside(c) - {t}
    ensures Distinct(Sleep(c, t)) && Inside(Sleep(c, t)) == Inside(c)
  {
    assert t !in c.asleep;
  }

  lemma LeaveAttends(c: Callers, t: Thread, work: int)
    requires Attended(c, work)
    ensures Attended(Leave(c, t), work - 1)
  {
    SizeWithout(c.woken, t);
  }

  /** A signal to nobody is lost, and nobody needed it. */
  lemma NotifyAttends(c: Callers, wake: set<Thread>, work: int)
    requires Distinct(c) && MayWake(c, wake) && Attended(c, work - 1)
    ensures Attended(Wake(c, wake), work)
  {
    if c.asleep != {} {
      WakeAttends(c, wake, work);
    } else {
      assert Wake(c, wake).asleep == {};
    }
  }

  lemma StepKeepsSorted<T>(s: Queue<T>, step: Step<T>)
    requires Sorted(s)
    ensures Sorted(Apply(s, step))
  {
    if Enabled(s, step) {
      match step
      case CallPush(t, x) =>
      case CallPop(t) =>
      case RunPush(t, wake) =>
        LeaveKeepsApart(s.pushers, t);
        if !Full(s) {
          WakeKeepsApart(s.poppers, wake);
        }
        hide Distinct, Leave, Wake, Sleep, Inside;
      case RunPop(t, wake) =>
        LeaveKeepsApart(s.poppers, t);
        if |s.items| != 0 {
          WakeKeepsApart(s.pushers, wake);
        }
        hide Distinct, Leave, Wake, Sleep, Inside;
      case SpuriousPush(t) => WakeKeepsApart(s.pushers, {t});
      case SpuriousPop(t) => WakeKeepsApart(s.poppers, {t});
    }
  }

  lemma StepKeepsOrder<T>(s: Queue<T>, step: Step<T>)
    requires InOrder(s)
    ensures InOrder(Apply(s, step)) && Apply(s, step).capacity == s.capacity
  {
    hide Leave, Wake, Sleep, Inside, MayWake, Runnable;
    if Enabled(s, step) && step.RunPop? && |s.items| != 0 {
      assert s.popped + s.items == s.popped + [s.items[0]] + s.items[1..];
    }
  }

  lemma SleepAttends(c: Callers, t: Thread)
    ensures Attended(Sleep(c, t), 0)
  {
  }

  lemma PushStrandsNone<T>(s: Queue<T>, t: Thread, wake: set<Thread>)
    requires Sorted(s) && NoneStranded(s) && Enabled(s, RunPush(t, wake))
    ensures NoneStranded(AfterRunPush(s, t, wake))
  {
    hide Attended, Leave, Wake, Sleep, Distinct, Inside, MayWake, Runnable;
    if Full(s) {
      SleepAttends(s.pushers, t);
    } else {
      LeaveAttends(s.pushers, t, s.capacity - |s.items|);
      NotifyAttends(s.poppers, wake, |s.items| + 1);
    }
  }

  lemma PopStrandsNone<T>(s: Queue<T>, t: Thread, wake: set<Thread>)
    requires Sorted(s) && NoneStranded(s) && Enabled(s, RunPop(t, wake))
    ensures NoneStranded(AfterRunPop(s, t, wake))
  {
    hide Attended, Leave, Wake, Sleep, Distinct, Inside, MayWake, Runnable;
    if |s.items| == 0 {
      SleepAttends(s.poppers, t);
    } else {
      LeaveAttends(s.poppers, t, |s.items|);
      NotifyAttends(s.pushers, wake, s.capacity - |s.items| + 1);
    }
  }

  lemma StepStrandsNone<T>(s: Queue<T>, step: Step<T>)
    requires Sorted(s) && NoneStranded(s)
    ensures NoneStranded(Apply(s, step))
  {
    hide AfterRunPush, AfterRunPop;
    if Enabled(s, step) {
      match step
      case RunPush(t, wake) => PushStrandsNone(s, t, wake);
      case RunPop(t, wake) => PopStrandsNone(s, t, wake);
      case SpuriousPush(t) => WakeAttends(s.pushers, {t}, s.capacity - |s.items|);
      case SpuriousPop(t) => WakeAttends(s.poppers, {t}, |s.items|);
      case _ =>
    }
  }

  lemma StepKeepsInv<T>(s: Queue<T>, step: Step<T>)
    requires Inv(s)
    ensures Inv(Apply(s, step)) && Apply(s, step).capacity == s.capacity
  {
    hide Apply, Sorted, InOrder, NoneStranded;
    StepKeepsSorted(s, step);
    StepKeepsOrder(s, step);
    StepStrandsNone(s, step);
  }

  lemma StartInv<T>(capacity: nat)
    ensures Inv(Start<T>(capacity))
  {
  }

  lemma {:induction false} RunKeepsInv<T>(s: Queue<T>, steps: seq<Step<T>>)
    requires Inv(s)
    ensures Inv(Run(s, steps)) && Run(s, steps).capacity == s.capacity
    decreases |steps|
  {
    hide Apply, Inv;
    if steps != [] {
      StepKeepsInv(s, steps[0]);
      RunKeepsInv(Apply(s, steps[0]), steps[1..]);
    }
  }

  // ---------------------------------------------------------------- what the queue is for

  /** The item a step puts into the queue: that of a producer with the lock, when there is a place. */
  function Put<T>(s: Queue<T>, step: Step<T>): (xs: seq<T>) {
    if step.RunPush? && Enabled(s, step) && |s.items| != s.capacity then [s.item[step.t]] else []
  }

  /** The item a step takes out: the oldest, for a consumer with the lock, when there is one. */
  function Got<T>(s: Queue<T>, step: Step<T>): (xs: seq<T>) {
    if step.RunPop? && Enabled(s, step) && s.items != [] then [s.items[0]] else []
  }

  function AllPut<T>(s: Queue<T>, steps: seq<Step<T>>): (xs: seq<T>)
    decreases |steps|
  {
    if steps == [] then [] else Put(s, steps[0]) + AllPut(Apply(s, steps[0]), steps[1..])
  }

  function AllGot<T>(s: Queue<T>, steps: seq<Step<T>>): (xs: seq<T>)
    decreases |steps|
  {
    if steps == [] then [] else Got(s, steps[0]) + AllGot(Apply(s, steps[0]), steps[1..])
  }

  lemma {:induction false} HistoriesAre<T>(s: Queue<T>, steps: seq<Step<T>>)
    ensures Run(s, steps).pushed == s.pushed + AllPut(s, steps)
    ensures Run(s, steps).popped == s.popped + AllGot(s, steps)
    decreases |steps|
  {
    if steps == [] {
      assert s.pushed + [] == s.pushed && s.popped + [] == s.popped;
    } else {
      var s1 := Apply(s, steps[0]);
      StepHistories(s, steps[0]);
      hide Apply, Put, Got;
      HistoriesAre(s1, steps[1..]);
      Joins(s.pushed, Put(s, steps[0]), AllPut(s1, steps[1..]));
      Joins(s.popped, Got(s, steps[0]), AllGot(s1, steps[1..]));
    }
  }

  lemma Joins<T>(a: seq<T>, b: seq<T>, c: seq<T>)
    ensures a + b + c == a + (b + c)
  {
  }

  lemma StepHistories<T>(s: Queue<T>, step: Step<T>)
    ensures Apply(s, step).pushed == s.pushed + Put(s, step)
    ensures Apply(s, step).popped == s.popped + Got(s, step)
  {
    hide Sleep, Leave, Wake, Inside, MayWake, Runnable;
  }

  /** Items come out in the order they went in, each once; what has not come out is in the queue, which is
      never over its capacity. */
  lemma FirstInFirstOut<T>(capacity: nat, steps: seq<Step<T>>)
    ensures var s0 := Start<T>(capacity);
            var s := Run(s0, steps);
            AllPut(s0, steps) == AllGot(s0, steps) + s.items && |s.items| <= capacity
  {
    hide Run, AllPut, AllGot, Apply, Sorted, NoneStranded;
    var s0 := Start<T>(capacity);
    assert Inv(s0) by { StartInv<T>(capacity); }
    RunKeepsInv(s0, steps);
    HistoriesAre(s0, steps);
    assert s0.pushed + AllPut(s0, steps) == AllPut(s0, steps);
    assert s0.popped + AllGot(s0, steps) == AllGot(s0, steps);
  }

  /** The items of the calls a producer makes. */
  function CallsOf<T>(s: Queue<T>, steps: seq<Step<T>>, t: Thread): (xs: seq<T>)
    decreases |steps|
  {
    if steps == [] then []
    else
      (if steps[0].CallPush? && steps[0].t == t && Enabled(s, steps[0]) then [steps[0].x] else [])
      + CallsOf(Apply(s, steps[0]), steps[1..], t)
  }

  /** What a producer has put into the queue. */
  function PutBy<T>(s: Queue<T>, steps: seq<Step<T>>, t: Thread): (xs: seq<T>)
    decreases |steps|
  {
    if steps == [] then []
    else (if steps[0].t == t then Put(s, steps[0]) else []) + PutBy(Apply(s, steps[0]), steps[1..], t)
  }

  function Waiting<T>(s: Queue<T>, t: Thread): (xs: seq<T>) {
    if t in s.item then [s.item[t]] else []
  }

  lemma StepPuts<T>(s: Queue<T>, step: Step<T>, t: Thread)
    requires Inv(s)
    ensures var called := if step.CallPush? && step.t == t && Enabled(s, step) then [step.x] else [];
            Waiting(s, t) + called == (if step.t == t then Put(s, step) else []) + Waiting(Apply(s, step), t)
  {
    hide InOrder, NoneStranded, Sleep, Leave, Wake, MayWake, Runnable;
  }

  lemma {:induction false} RunPuts<T>(s: Queue<T>, steps: seq<Step<T>>, t: Thread)
    requires Inv(s)
    ensures Waiting(s, t) + CallsOf(s, steps, t) == PutBy(s, steps, t) + Waiting(Run(s, steps), t)
    decreases |steps|
  {
    if steps == [] {
      assert Waiting(s, t) + [] == [] + Waiting(s, t);
    } else {
      hide Inv, Apply, Put, Waiting, Enabled;
      var step, s1 := steps[0], Apply(s, steps[0]);
      var called := if step.CallPush? && step.t == t && Enabled(s, step) then [step.x] else [];
      var put := if step.t == t then Put(s, step) else [];
      StepKeepsInv(s, step);
      StepPuts(s, step, t);
      RunPuts(s1, steps[1..], t);
      Joins(Waiting(s, t), called, CallsOf(s1, steps[1..], t));
      Joins(put, Waiting(s1, t), CallsOf(s1, steps[1..], t));
      Joins(put, PutBy(s1, steps[1..], t), Waiting(Run(s1, steps[1..]), t));
    }
  }

  /** Every call puts its item in once, in the order of the calls; only the last one may still be inside. */
  lemma EachCallPutsOnce<T>(capacity: nat, steps: seq<Step<T>>, t: Thread)
    ensures var s0 := Start<T>(capacity);
            var s := Run(s0, steps);
            && (t in s.item <==> t in Inside(s.pushers))
            && CallsOf(s0, steps, t) == PutBy(s0, steps, t) + (if t in s.item then [s.item[t]] else [])
  {
    hide Run, Apply, CallsOf, PutBy, InOrder, NoneStranded, Inside;
    var s0 := Start<T>(capacity);
    assert Inv(s0) by { StartInv<T>(capacity); }
    RunKeepsInv(s0, steps);
    RunPuts(s0, steps, t);
    assert [] + CallsOf(s0, steps, t) == CallsOf(s0, steps, t);
  }

  function PopCalls<T>(s: Queue<T>, steps: seq<Step<T>>, t: Thread): (n: nat)
    decreases |steps|
  {
    if steps == [] then 0
    else
      (if steps[0].CallPop? && steps[0].t == t && Enabled(s, steps[0]) then 1 else 0)
      + PopCalls(Apply(s, steps[0]), steps[1..], t)
  }

  function GotBy<T>(s: Queue<T>, steps: seq<Step<T>>, t: Thread): (xs: seq<T>)
    decreases |steps|
  {
    if steps == [] then []
    else (if steps[0].t == t then Got(s, steps[0]) else []) + GotBy(Apply(s, steps[0]), steps[1..], t)
  }

  lemma StepGets<T>(s: Queue<T>, step: Step<T>, t: Thread)
    requires Inv(s)
    ensures var called := if step.CallPop? && step.t == t && Enabled(s, step) then 1 else 0;
            var s' := Apply(s, step);
            (if t in Inside(s.poppers) then 1 else 0) + called
            == (if step.t == t then |Got(s, step)| else 0) + (if t in Inside(s'.poppers) then 1 else 0)
  {
    hide InOrder, NoneStranded;
  }

  lemma {:induction false} RunGets<T>(s: Queue<T>, steps: seq<Step<T>>, t: Thread)
    requires Inv(s)
    ensures (if t in Inside(s.poppers) then 1 else 0) + PopCalls(s, steps, t)
            == |GotBy(s, steps, t)| + (if t in Inside(Run(s, steps).poppers) then 1 else 0)
    decreases |steps|
  {
    if steps != [] {
      hide Inv, Apply, Got, Inside, Enabled;
      StepKeepsInv(s, steps[0]);
      StepGets(s, steps[0], t);
      RunGets(Apply(s, steps[0]), steps[1..], t);
    }
  }

  /** Every call of a consumer gets one item, or is still inside. */
  lemma EachCallGetsOne<T>(capacity: nat, steps: seq<Step<T>>, t: Thread)
    ensures var s0 := Start<T>(capacity);
            PopCalls(s0, steps, t)
            == |GotBy(s0, steps, t)| + (if t in Inside(Run(s0, steps).poppers) then 1 else 0)
  {
    StartInv<T>(capacity);
    RunGets(Start<T>(capacity), steps, t);
  }

  /** Consumers asleep and not signalled leave at most as many items as there are woken consumers, and
      producers as many free places as there are woken producers. */
  lemma NobodySleepsThroughWork<T>(capacity: nat, steps: seq<Step<T>>)
    ensures var s := Run(Start<T>(capacity), steps);
            && (s.poppers.asleep != {} ==> |s.items| <= |s.poppers.woken|)
            && (s.pushers.asleep != {} ==> capacity - |s.items| <= |s.pushers.woken|)
  {
    RunKeepsInv(Start<T>(capacity), steps);
  }

  predicate SomebodyRuns<T>(s: Queue<T>) {
    exists t :: t in Inside(s.poppers) + Inside(s.pushers) && (Runnable(s.poppers, t) || Runnable(s.pushers, t))
  }

  lemma RunnersRun<T>(s: Queue<T>)
    ensures !SomebodyRuns(s) ==> s.poppers.woken == {} && s.pushers.woken == {}
  {
    if s.poppers.woken != {} {
      var t :| t in s.poppers.woken;
      assert Runnable(s.poppers, t);
    }
    if s.pushers.woken != {} {
      var t :| t in s.pushers.woken;
      assert Runnable(s.pushers, t);
    }
  }

  /** When everybody inside a call is asleep, all wait for the same: the consumers for items, with the queue
      empty, or the producers for places, with the queue full. */
  lemma StuckMeansWaiting<T>(capacity: nat, steps: seq<Step<T>>)
    requires capacity >= 1
    ensures var s := Run(Start<T>(capacity), steps);
            !SomebodyRuns(s) ==>
              && (s.poppers.asleep != {} ==> s.items == [])
              && (s.pushers.asleep != {} ==> Full(s))
              && (s.poppers.asleep == {} || s.pushers.asleep == {})
  {
    RunKeepsInv(Start<T>(capacity), steps);
    RunnersRun(Run(Start<T>(capacity), steps));
    hide Run;
  }

  lemma {:induction false} StaysEmpty<T>(s: Queue<T>, steps: seq<Step<T>>)
    requires s.capacity == 0 && |s.items| == 0
    ensures var s' := Run(s, steps); |s'.items| == 0 && s'.pushed == s.pushed && s'.popped == s.popped
    decreases |steps|
  {
    if steps != [] {
      var s1 := Apply(s, steps[0]);
      assert s1.capacity == 0 && |s1.items| == 0 && s1.pushed == s.pushed && s1.popped == s.popped;
      hide Apply;
      StaysEmpty(s1, steps[1..]);
    }
  }

  /** A queue without places is full and empty at once: whatever its callers do, no item ever goes in or
      comes out. With places, `StuckMeansWaiting` excludes that both sides wait. */
  lemma NoPlacesNoProgress<T>(steps: seq<Step<T>>)
    ensures AllPut(Start<T>(0), steps) == [] && AllGot(Start<T>(0), steps) == []
  {
    StaysEmpty(Start<T>(0), steps);
    HistoriesAre(Start<T>(0), steps);
  }

  // ---------------------------------------------------------------- the object, with its lock held

  /** Position `i` behind `first` in a ring of `n`. */
  function Place(first: nat, i: nat, n: nat): (p: nat)
    requires first < n && i < n
    ensures p < n
  {
    if first + i < n then first + i else first + i - n
  }

  /** The items of a ring, oldest first. */
  function Items<T>(ring: seq<T>, first: nat, size: nat): (items: seq<T>)
    requires size <= |ring| && (size > 0 ==> first < |ring|)
    ensures |items| == size
  {
    seq(size, i requires 0 <= i < size => ring[Place(first, i, |ring|)])
  }

  lemma PushedItems<T>(ring: seq<T>, first: nat, size: nat, x: T)
    requires size < |ring| && first < |ring|
    ensures Items(ring[Place(first, size, |ring|) := x], first, size + 1) == Items(ring, first, size) + [x]
  {
  }

  lemma PoppedItems<T>(ring: seq<T>, first: nat, size: nat)
    requires 0 < size <= |ring| && first < |ring|
    ensures var next := if first + 1 == |ring| then 0 else first + 1;
            Items(ring, first, size) == [ring[first]] + Items(ring, next, size - 1)
  {
    var next := if first + 1 == |ring| then 0 else first + 1;
    assert forall i :: 0 <= i < size - 1 ==> Place(first, i + 1, |ring|) == Place(next, i, |ring|);
  }

  /** The queue with its ring of storage and its two conditions. A turn is what a thread does with the lock
      held: to the end of its call, with the signal, or to a wait. */
  class BoundedBlockingQueue<T(0)> {
    const ring: array<T>
    var first: nat
    var size: nat
    var poppers: Callers
    var pushers: Callers
    var item: map<Thread, T>
    ghost var pushed: seq<T>
    ghost var popped: seq<T>

    ghost predicate Shaped()
      reads this
    {
      size <= ring.Length && (ring.Length > 0 ==> first < ring.Length)
    }

    ghost function View(): (s: Queue<T>)
      requires Shaped()
      reads this, ring
    {
      Queue(ring.Length, Items(ring[..], first, size), poppers, pushers, item, pushed, popped)
    }

    ghost predicate Valid()
      reads this, ring
    {
      Shaped() && Inv(View())
    }

    constructor (maxSize: nat)
      ensures Valid() && fresh(ring) && View() == Start<T>(maxSize)
    {
      ring := new T[maxSize];
      first, size := 0, 0;
      poppers, pushers := Callers({}, {}, {}), Callers({}, {}, {});
      item, pushed, popped := map[], [], [];
    }

    /** `push_back` of the circular buffer. */
    method Store(x: T)
      requires Shaped() && size < ring.Length
      modifies this`size, ring
      ensures Shaped() && View() == old(View()).(items := old(View()).items + [x])
    {
      PushedItems(ring[..], first, size, x);
      ghost var before := ring[..];
      var p := Place(first, size, ring.Length);
      ring[p] := x;
      assert ring[..] == before[p := x];
      hide Items;
      size := size + 1;
    }

    /** `front` and `pop_front` of the circular buffer. */
    method TakeFront() returns (x: T)
      requires Shaped() && size > 0
      modifies this`first, this`size
      ensures Shaped() && View() == old(View()).(items := old(View()).items[1..]) && x == old(View()).items[0]
    {
      PoppedItems(ring[..], first, size);
      hide Items;
      x := ring[first];
      first := if first + 1 == ring.Length then 0 else first + 1;
      size := size - 1;
    }

    method PushTurn(t: Thread, wake: set<Thread>)
      requires Valid() && Enabled(View(), RunPush(t, wake))
      modifies this, ring
      ensures Valid() && View() == AfterRunPush(old(View()), t, wake)
      ensures t in pushers.asleep <==> old(size) == ring.Length
      ensures old(size) < ring.Length ==> t in old(item) && View().items == old(View().items) + [old(item)[t]]
    {
      hide Inv, Apply, Items, Sleep, Leave, Wake, MayWake, Runnable;
      StepKeepsInv(View(), RunPush(t, wake));
      PushIs(View(), t, wake);
      if size == ring.Length {
        pushers := Sleep(pushers, t);
      } else {
        Store(item[t]);
        pushed := pushed + [item[t]];
        item := item - {t};
        pushers := Leave(pushers, t);
        poppers := Wake(poppers, wake);
      }
    }

    method PopTurn(t: Thread, wake: set<Thread>) returns (front: Option<T>)
      requires Valid() && Enabled(View(), RunPop(t, wake))
      modifies this
      ensures Valid() && View() == AfterRunPop(old(View()), t, wake)
      ensures popped == old(popped) + (if front.Some? then [front.value] else [])
      ensures front.None? <==> t in poppers.asleep
    {
      hide Inv, Apply, Items, Sleep, Leave, Wake, MayWake, Runnable;
      StepKeepsInv(View(), RunPop(t, wake));
      PopIs(View(), t, wake);
      if size == 0 {
        poppers := Sleep(poppers, t);
        return None;
      }
      var x := TakeFront();
      popped := popped + [x];
      poppers := Leave(poppers, t);
      pushers := Wake(pushers, wake);
      front := Some(x);
    }
  }

  /** A thread that is asleep after its turn found no place. */
  lemma PushIs<T>(s: Queue<T>, t: Thread, wake: set<Thread>)
    requires Inv(s) && Enabled(s, RunPush(t, wake))
    ensures Apply(s, RunPush(t, wake)) == AfterRunPush(s, t, wake)
    ensures t in AfterRunPush(s, t, wake).pushers.asleep <==> |s.items| == s.capacity
  {
    hide InOrder, NoneStranded;
  }

  /** A thread that is asleep after its turn found nothing. */
  lemma PopIs<T>(s: Queue<T>, t: Thread, wake: set<Thread>)
    requires Inv(s) && Enabled(s, RunPop(t, wake))
    ensures Apply(s, RunPop(t, wake)) == AfterRunPop(s, t, wake)
    ensures t in AfterRunPop(s, t, wake).poppers.asleep <==> |s.items| == 0
  {
  }
}
