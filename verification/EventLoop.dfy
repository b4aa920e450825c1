/** The cross-thread functor queue of `mytinyhttpd/net/event_loop.cc`.

    The loop thread polls, handles the active channels, swaps the pending functors out and runs
    them. Any thread queues functors; it writes the eventfd only after releasing the lock, and a
    push from the loop thread itself writes it only while functors are being run. Each step below is
    one access to shared state, so every interleaving of the threads is a sequence of steps.
 */
module EventLoops {

  type Thread = nat

  /** A functor and the functors it queues on this loop when it runs. */
  datatype Functor = Functor(id: nat, queues: seq<Functor>)

  /** Where the loop thread is. */
  datatype Pc =
    | Polling              // in Poll, or about to enter it
    | Handling(wake: bool) // sweeping the active channels; the wake-up channel is still to be handled
    | Swapping             // is_calling_pending_functors_ is set, the queue is not yet swapped
    | Calling              // running the swapped batch
    | Stopped              // Loop() has returned

  datatype Loop = Loop(
    pc: Pc,
    pending: seq<Functor>,
    batch: seq<Functor>,     // what is left of the batch being run
    eventfd: nat,
    owing: set<Thread>,      // other threads that pushed, or asked to quit, and have not called Wakeup yet
    loopOwes: bool,          // the same for the loop thread
    quit: bool,
    iteration: nat,
    // what has happened so far
    enqueued: seq<Functor>,
    executed: seq<Functor>)

  datatype Step =
    | Push(t: Thread, f: Functor)   // QueueInLoop from another thread, the locked block
    | AskQuit(t: Thread)            // Quit from another thread, before its Wakeup
    | Wake(t: Thread)               // the Wakeup that follows either
    | PollReturn(wake: bool)        // `wake`: the wake-up channel is among the active ones
    | HandleRead                    // the wake-up channel's read callback
    | LoopPush(f: Functor)          // QueueInLoop from the loop thread
    | LoopWake                      // its Wakeup
    | LoopQuit                      // Quit from the loop thread
    | StartPending                  // the sweep is over
    | Swap
    | RunFunctor
    | FinishBatch

  /** The largest value an eventfd holds: a write that would exceed it fails. */
  const EVENTFD_MAX: nat := 0xffff_ffff_ffff_fffe

  function Increment(eventfd: nat): (e: nat)
    ensures e > 0
  {
    if eventfd < EVENTFD_MAX then eventfd + 1 else eventfd
  }

  predicate Enabled(s: Loop, step: Step) {
    match step
    case Push(t, f) => t !in s.owing
    case AskQuit(t) => t !in s.owing
    case Wake(t) => t in s.owing
    case PollReturn(wake) => s.pc.Polling? && (wake ==> s.eventfd > 0)
    case HandleRead => s.pc == Handling(true)
    case LoopPush(f) => (s.pc.Handling? || s.pc.Calling?) && !s.loopOwes
    case LoopWake => s.loopOwes
    case LoopQuit => (s.pc.Handling? || s.pc.Calling?) && !s.loopOwes
    case StartPending => s.pc == Handling(false)
    case Swap => s.pc.Swapping?
    case RunFunctor => s.pc.Calling? && s.batch != [] && !s.loopOwes
    case FinishBatch => s.pc.Calling? && s.batch == [] && !s.loopOwes
  }

  function Apply(s: Loop, step: Step): (s': Loop) {
    if !Enabled(s, step) then s
    else
      match step
      case Push(t, f) => Queue(s, f).(owing := s.owing + {t})
      case AskQuit(t) => s.(quit := true, owing := s.owing + {t})
      case Wake(t) => s.(owing := s.owing - {t}, eventfd := Increment(s.eventfd))
      case PollReturn(wake) => s.(pc := Handling(wake), iteration := s.iteration + 1)
      case HandleRead => s.(pc := Handling(false), eventfd := 0)
      case LoopPush(f) => Queue(s, f).(loopOwes := s.pc.Calling?)
      case LoopWake => s.(loopOwes := false, eventfd := Increment(s.eventfd))
      case LoopQuit => s.(quit := true)
      case StartPending => s.(pc := Swapping)
      case Swap => s.(pc := Calling, batch := s.pending, pending := [])
      case RunFunctor => s.(executed := s.executed + [s.batch[0]], batch := s.batch[1..])
      case FinishBatch => s.(pc := if s.quit then Stopped else Polling)
  }

  function Queue(s: Loop, f: Functor): (s': Loop) {
    s.(pending := s.pending + [f], enqueued := s.enqueued + [f])
  }

  function Run(s: Loop, steps: seq<Step>): (s': Loop)
    decreases |steps|
  {
    if steps == [] then s else Run(Apply(s, steps[0]), steps[1..])
  }

  lemma {:induction false} RunAppend(s: Loop, a: seq<Step>, b: seq<Step>)
    ensures Run(s, a + b) == Run(Run(s, a), b)
    decreases |a|
  {
    hide Apply;
    if a == [] {
      assert a + b == b;
    } else {
      RunAppend(Apply(s, a[0]), a[1..], b);
      assert (a + b)[1..] == a[1..] + b;
    }
  }

  lemma RunOne(s: Loop, a: seq<Step>, step: Step)
    ensures Run(s, a + [step]) == Apply(Run(s, a), step)
  {
    hide Apply;
    RunAppend(s, a, [step]);
    assert Run(Run(s, a), [step]) == Run(Apply(Run(s, a), step), []);
  }

  /** `Loop()` entered with functors `q` in the queue and `e` in the eventfd. */
  function Entered(q: seq<Functor>, e: nat): (s: Loop) {
    Loop(Polling, q, [], e, {}, false, false, 0, q, [])
  }

  // ---------------------------------------------------------------- no wake-up is lost

  predicate WakeComing(s: Loop) {
    s.eventfd > 0 || s.owing != {} || s.loopOwes
  }

  /** Poll can block although there is work, or a request to quit, and nobody is going to end it. */
  predicate Stranded(s: Loop) {
    s.pc.Polling? && (s.pending != [] || s.quit) && s.eventfd == 0 && s.owing == {}
  }

  predicate Inv(s: Loop) {
    && s.executed + s.batch + s.pending == s.enqueued
    && (!s.pc.Calling? ==> s.batch == [] && !s.loopOwes)
    && (s.pc == Handling(true) ==> s.eventfd > 0)
    && (s.pc.Polling? && (s.pending != [] || s.quit) ==> WakeComing(s))
    && (s.pc.Calling? && s.pending != [] ==> WakeComing(s))
  }

  lemma StepKeepsInv(s: Loop, step: Step)
    requires Inv(s)
    ensures Inv(Apply(s, step))
  {
    if Enabled(s, step) {
      match step
      case Push(t, f) => QueueKeepsOrder(s, f); assert t in Apply(s, step).owing;
      case AskQuit(t) => assert t in Apply(s, step).owing;
      case LoopPush(f) => QueueKeepsOrder(s, f);
      case RunFunctor =>
        assert s.executed + [s.batch[0]] + s.batch[1..] == s.executed + s.batch;
      case Swap => assert s.executed + s.batch + s.pending == s.executed + s.pending + [];
      case _ =>
    }
  }

  lemma QueueKeepsOrder(s: Loop, f: Functor)
    requires s.executed + s.batch + s.pending == s.enqueued
    ensures var s' := Queue(s, f); s'.executed + s'.batch + s'.pending == s'.enqueued
  {
    assert s.executed + s.batch + (s.pending + [f]) == s.executed + s.batch + s.pending + [f];
  }

  lemma {:induction false} RunKeepsInv(s: Loop, steps: seq<Step>)
    requires Inv(s)
    ensures Inv(Run(s, steps))
    decreases |steps|
  {
    hide Apply, Inv;
    if steps != [] {
      StepKeepsInv(s, steps[0]);
      RunKeepsInv(Apply(s, steps[0]), steps[1..]);
    }
  }

  /** In every interleaving, from any queue at entry: no state of the run is stranded if and only if
      the queue was empty or the eventfd set when the loop was entered. */
  lemma NoLostWakeup(q: seq<Functor>, e: nat)
    ensures (forall steps :: !Stranded(Run(Entered(q, e), steps))) <==> q == [] || e > 0
  {
    var s := Entered(q, e);
    if q == [] || e > 0 {
      forall steps ensures !Stranded(Run(s, steps)) {
        assert s.executed + s.batch + s.pending == s.enqueued;
        RunKeepsInv(s, steps);
      }
    } else {
      var none: seq<Step> := [];
      assert Run(s, none) == s;
      assert Stranded(Run(s, none));
    }
  }

  /** The last thing a thread did was to push or to ask to quit: its Wakeup is still to come. */
  predicate Owes(steps: seq<Step>, t: Thread)
    decreases |steps|
  {
    if steps == [] then false
    else
      match steps[|steps| - 1]
      case Push(u, _) => u == t || Owes(steps[..|steps| - 1], t)
      case AskQuit(u) => u == t || Owes(steps[..|steps| - 1], t)
      case Wake(u) => u != t && Owes(steps[..|steps| - 1], t)
      case _ => Owes(steps[..|steps| - 1], t)
  }

  /** The threads counted on to end a Poll are exactly those in the middle of a call. */
  lemma {:induction false} OwingIs(q: seq<Functor>, e: nat, steps: seq<Step>, t: Thread)
    ensures t in Run(Entered(q, e), steps).owing <==> Owes(steps, t)
    decreases |steps|
  {
    if steps != [] {
      var front, last := steps[..|steps| - 1], steps[|steps| - 1];
      OwingIs(q, e, front, t);
      RunOne(Entered(q, e), front, last);
      assert front + [last] == steps;
    }
  }

  // ---------------------------------------------------------------- every functor, once, in order

  /** The functor a step queues. */
  function Pushed(s: Loop, step: Step): (fs: seq<Functor>) {
    if (step.Push? || step.LoopPush?) && Enabled(s, step) then [step.f] else []
  }

  /** The functors a run queues, in order. */
  function AllPushed(s: Loop, steps: seq<Step>): (fs: seq<Functor>)
    decreases |steps|
  {
    if steps == [] then [] else Pushed(s, steps[0]) + AllPushed(Apply(s, steps[0]), steps[1..])
  }

  /** How often Poll returns in a run. */
  function Polls(s: Loop, steps: seq<Step>): (n: nat)
    decreases |steps|
  {
    if steps == [] then 0
    else (if steps[0].PollReturn? && Enabled(s, steps[0]) then 1 else 0) + Polls(Apply(s, steps[0]), steps[1..])
  }

  lemma {:induction false} HistoriesAre(s: Loop, steps: seq<Step>)
    ensures Run(s, steps).enqueued == s.enqueued + AllPushed(s, steps)
    ensures Run(s, steps).iteration == s.iteration + Polls(s, steps)
    decreases |steps|
  {
    if steps == [] {
      assert s.enqueued + [] == s.enqueued;
    } else {
      var s1 := Apply(s, steps[0]);
      assert s1.enqueued == s.enqueued + Pushed(s, steps[0]);
      hide Apply, Pushed;
      HistoriesAre(s1, steps[1..]);
      var one, more := Pushed(s, steps[0]), AllPushed(s1, steps[1..]);
      assert s.enqueued + one + more == s.enqueued + (one + more);
    }
  }

  /** Functors run, the rest of the batch and the pending ones are all that were queued, in order, at all
      times. */
  lemma RunsInEnqueueOrder(e: nat, steps: seq<Step>)
    ensures var s := Run(Entered([], e), steps);
            s.executed + s.batch + s.pending == AllPushed(Entered([], e), steps)
  {
    RunKeepsInv(Entered([], e), steps);
    HistoriesAre(Entered([], e), steps);
    assert [] + AllPushed(Entered([], e), steps) == AllPushed(Entered([], e), steps);
  }

  /** What has been run or will be, relative to an earlier state `s`. */
  predicate Since(s: Loop, t: Loop) {
    && s.iteration <= t.iteration
    && s.enqueued <= t.enqueued
    && (t.iteration == s.iteration + 1 && t.pc.Calling? ==> s.enqueued <= t.executed + t.batch)
    && (t.iteration == s.iteration + 1 && (t.pc.Polling? || t.pc.Stopped?) ==> s.enqueued <= t.executed)
    && (t.iteration > s.iteration + 1 ==> s.enqueued <= t.executed)
  }

  lemma StepKeepsSince(s: Loop, t: Loop, step: Step)
    requires Inv(t) && Since(s, t)
    ensures Since(s, Apply(t, step))
  {
    if Enabled(t, step) {
      match step
      case RunFunctor => RunningKeepsSince(s, t);
      case Push(_, f) => QueueKeepsSince(s, t, f);
      case LoopPush(f) => QueueKeepsSince(s, t, f);
      case _ =>
    }
  }

  lemma RunningKeepsSince(s: Loop, t: Loop)
    requires Since(s, t) && t.pc.Calling? && t.batch != []
    ensures Since(s, t.(executed := t.executed + [t.batch[0]], batch := t.batch[1..]))
  {
    assert t.executed + [t.batch[0]] + t.batch[1..] == t.executed + t.batch;
  }

  lemma QueueKeepsSince(s: Loop, t: Loop, f: Functor)
    requires Since(s, t)
    ensures Since(s, Queue(t, f))
  {
  }

  lemma {:induction false} RunKeepsSince(s: Loop, t: Loop, steps: seq<Step>)
    requires Inv(t) && Since(s, t)
    ensures Since(s, Run(t, steps))
    decreases |steps|
  {
    hide Apply, Inv, Since;
    if steps != [] {
      StepKeepsInv(t, steps[0]);
      StepKeepsSince(s, t, steps[0]);
      RunKeepsSince(s, Apply(t, steps[0]), steps[1..]);
    }
  }

  /** Bounded delay: whatever was queued by some moment has run by the second return of Poll after
      it, however the other threads interleave. */
  lemma RunsWithinTwoIterations(e: nat, before: seq<Step>, after: seq<Step>)
    ensures var s := Run(Entered([], e), before);
            Polls(s, after) >= 2 ==> AllPushed(Entered([], e), before) <= Run(s, after).executed
  {
    var s := Run(Entered([], e), before);
    RunKeepsInv(Entered([], e), before);
    RunKeepsSince(s, s, after);
    HistoriesAre(s, after);
    HistoriesAre(Entered([], e), before);
    assert [] + AllPushed(Entered([], e), before) == AllPushed(Entered([], e), before);
    hide Run;
  }

  predicate Wakes(step: Step) {
    step.Wake? || step.LoopWake?
  }

  lemma {:induction false} StaysUnset(s: Loop, steps: seq<Step>)
    requires s.eventfd == 0 && forall i :: 0 <= i < |steps| ==> !Wakes(steps[i])
    ensures Run(s, steps).eventfd == 0
    decreases |steps|
  {
    if steps != [] {
      assert !Wakes(steps[0]);
      var s1 := Apply(s, steps[0]);
      assert s1.eventfd == 0;
      hide Apply;
      StaysUnset(s1, steps[1..]);
    }
  }

  /** One read takes all wake-ups: after it, Poll reports the wake-up channel again only if there was another. */
  lemma WakeupsAreSpent(s: Loop, after: seq<Step>)
    requires Enabled(s, HandleRead)
    ensures Enabled(Run(Apply(s, HandleRead), after), PollReturn(true)) ==>
              exists i :: 0 <= i < |after| && Wakes(after[i])
  {
    if forall i :: 0 <= i < |after| ==> !Wakes(after[i]) {
      StaysUnset(Apply(s, HandleRead), after);
    }
  }

  lemma {:induction false} QuitPolls(s: Loop, steps: seq<Step>)
    requires s.quit
    ensures Polls(s, steps) <= if s.pc.Polling? then 1 else 0
    decreases |steps|
  {
    if steps != [] {
      var s1 := Apply(s, steps[0]);
      assert s1.quit && (s1.pc.Polling? ==> s.pc.Polling?);
      assert steps[0].PollReturn? && Enabled(s, steps[0]) ==> s.pc.Polling? && !s1.pc.Polling?;
      hide Apply;
      QuitPolls(s1, steps[1..]);
    }
  }

  /** Once a thread has asked to quit, Poll returns once more at most. */
  lemma QuitStops(s: Loop, step: Step, after: seq<Step>)
    requires (step.AskQuit? || step.LoopQuit?) && Enabled(s, step)
    ensures Polls(Apply(s, step), after) <= 1
  {
    QuitPolls(Apply(s, step), after);
  }

  /** A batch is fixed when it is swapped out: until the loop polls again, only its own functors run. */
  lemma BatchIsFixed(s: Loop, step: Step)
    requires Inv(s) && s.pc.Calling?
    ensures var s' := Apply(s, step);
            s'.executed + s'.batch == s.executed + s.batch && |s'.batch| <= |s.batch|
  {
    if step.RunFunctor? && Enabled(s, step) {
      assert s.executed + [s.batch[0]] + s.batch[1..] == s.executed + s.batch;
    }
  }

  // ---------------------------------------------------------------- the object

  function AllQueued(fs: seq<Functor>): (q: seq<Functor>) {
    if fs == [] then [] else AllQueued(fs[..|fs| - 1]) + fs[|fs| - 1].queues
  }

  /** The loop thread's side, with no other thread running in between. */
  class EventLoop {
    var isCallingPendingFunctors: bool
    var pendingFunctors: seq<Functor>
    var eventfd: nat
    ghost var past: Loop   // the loop's position, the rest of its batch and the histories

    ghost function View(): (s: Loop)
      reads this
    {
      past.(pending := pendingFunctors, eventfd := eventfd)
    }

    /** The fields agree with a position in the loop thread's own code. */
    ghost predicate Valid()
      reads this
    {
      isCallingPendingFunctors == (past.pc.Swapping? || past.pc.Calling?) && !past.loopOwes && Inv(View())
    }

    constructor ()
      ensures Valid() && View() == Entered([], 0)
    {
      isCallingPendingFunctors, pendingFunctors, eventfd := false, [], 0;
      past := Entered([], 0);
    }

    method Wakeup()
      modifies this`eventfd
      ensures eventfd == Increment(old(eventfd))
    {
      if eventfd < EVENTFD_MAX {
        eventfd := eventfd + 1;
      }
    }

    method HandleRead()
      requires Valid() && past.pc == Handling(true)
      modifies this
      ensures Valid() && View() == Apply(old(View()), Step.HandleRead) && eventfd == 0
    {
      StepKeepsInv(View(), Step.HandleRead);
      eventfd := 0;
      past := past.(pc := Handling(false));
    }

    /** `QueueInLoop` called in the loop thread: a push and, while functors are being run, a wake-up. */
    method QueueInLoop(f: Functor)
      requires Valid() && (past.pc.Handling? || past.pc.Calling?)
      modifies this
      ensures Valid()
      ensures View() == Run(old(View()), [LoopPush(f)] + (if old(past.pc.Calling?) then [LoopWake] else []))
    {
      ghost var s0 := View();
      ghost var s1 := Apply(s0, LoopPush(f));
      StepKeepsInv(s0, LoopPush(f));
      pendingFunctors := pendingFunctors + [f];
      past := past.(enqueued := past.enqueued + [f]);
      if isCallingPendingFunctors {
        StepKeepsInv(s1, LoopWake);
        Wakeup();
        assert View() == Apply(s1, LoopWake);
        RunOne(s0, [LoopPush(f)], LoopWake);
      } else {
        assert View() == s1;
      }
      RunOne(s0, [], LoopPush(f));
      assert [LoopPush(f)] + [] == [LoopPush(f)] && [] + [LoopPush(f)] == [LoopPush(f)];
    }

    /** Running a functor queues the functors it carries. */
    method Call(f: Functor)
      requires Valid() && past.pc.Calling?
      modifies this
      ensures Valid() && past.pc == old(past.pc)
      ensures View().batch == old(View().batch) && View().executed == old(View().executed)
      ensures pendingFunctors == old(pendingFunctors) + f.queues
      ensures exists steps :: View() == Run(old(View()), steps)
    {
      ghost var steps: seq<Step> := [];
      ghost var s0 := View();
      for i := 0 to |f.queues|
        invariant Valid() && past.pc == old(past.pc)
        invariant View() == Run(s0, steps)
        invariant View().batch == s0.batch && View().executed == s0.executed
        invariant pendingFunctors == old(pendingFunctors) + f.queues[..i]
      {
        ghost var s := View();
        QueueInLoop(f.queues[i]);
        RunAppend(s0, steps, [LoopPush(f.queues[i])] + [LoopWake]);
        steps := steps + ([LoopPush(f.queues[i])] + [LoopWake]);
        PushThenWake(s, f.queues[i]);
        assert f.queues[..i + 1] == f.queues[..i] + [f.queues[i]];
      }
      assert f.queues[..|f.queues|] == f.queues;
    }

    /** The locked block of `DoPendingFunctors`. */
    method SwapOut() returns (functors: seq<Functor>)
      requires Valid() && past.pc == Handling(false)
      modifies this
      ensures Valid() && past.pc.Calling? && functors == old(pendingFunctors)
      ensures View() == Apply(Apply(old(View()), StartPending), Swap)
    {
      isCallingPendingFunctors := true;
      StepKeepsInv(View(), StartPending);
      past := past.(pc := Swapping);
      StepKeepsInv(View(), Swap);
      functors := pendingFunctors;
      pendingFunctors := [];
      past := past.(pc := Calling, batch := functors);
    }

    /** Takes the first functor of the batch off it and calls it. */
    method CallNext(f: Functor)
      requires Valid() && past.pc.Calling? && past.batch != [] && past.batch[0] == f
      modifies this
      ensures Valid() && past.pc.Calling? && past.batch == old(past.batch)[1..]
      ensures past.executed == old(past.executed) + [f]
      ensures pendingFunctors == old(pendingFunctors) + f.queues
    {
      StepKeepsInv(View(), RunFunctor);
      past := past.(executed := past.executed + [f], batch := past.batch[1..]);
      Call(f);
    }

    /** Runs every functor that was pending, in order; the ones they queue are left for the next
        time, and the eventfd says so. */
    method DoPendingFunctors()
      requires Valid() && past.pc == Handling(false)
      modifies this
      ensures Valid() && past.pc == (if past.quit then Stopped else Polling)
      ensures View().executed == old(View().executed) + old(pendingFunctors)
      ensures pendingFunctors == AllQueued(old(pendingFunctors))
      ensures past.pc.Polling? ==> !Stranded(View())
    {
      hide Inv;
      var functors := SwapOut();
      for i := 0 to |functors|
        invariant Valid() && past.pc.Calling? && past.batch == functors[i..]
        invariant past.executed == old(past.executed) + functors[..i]
        invariant pendingFunctors == AllQueued(functors[..i])
      {
        CallNext(functors[i]);
        assert functors[..i + 1][..i] == functors[..i];
      }
      assert functors[..|functors|] == functors;
      Finish();
    }

    method Finish()
      requires Valid() && past.pc.Calling? && past.batch == []
      modifies this
      ensures Valid() && View() == Apply(old(View()), FinishBatch) && pendingFunctors == old(pendingFunctors)
      ensures past.pc == (if past.quit then Stopped else Polling)
      ensures past.pc.Polling? ==> !Stranded(View())
    {
      StepKeepsInv(View(), FinishBatch);
      isCallingPendingFunctors := false;
      past := past.(pc := if past.quit then Stopped else Polling);
    }
  }

  lemma PushThenWake(s: Loop, f: Functor)
    requires s.pc.Calling? && !s.loopOwes
    ensures var t := Run(s, [LoopPush(f)] + [LoopWake]);
            t == Queue(s, f).(eventfd := Increment(s.eventfd))
  {
    RunAppend(s, [LoopPush(f)], [LoopWake]);
    RunOne(s, [], LoopPush(f));
    assert [] + [LoopPush(f)] == [LoopPush(f)];
    var s1 := Apply(s, LoopPush(f));
    assert Run(s1, [LoopWake]) == Run(Apply(s1, LoopWake), []);
  }
}
