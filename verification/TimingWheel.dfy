/** The timing wheel of `mytinyhttpd/net/timing_wheel.cc`, which shuts idle connections down.

    A ring of `N` buckets is turned once a second. A bucket holds shared pointers to entries, one entry
    per connection; the entry of a connection that shows activity is put into the back bucket, and an
    entry dies, shutting its connection down, when the last bucket holding it leaves the ring. An entry
    remembers where the ring stood when it was last put in, so that it is not put in twice in a second.
    Here an entry goes by the name of its connection: a connection never has two.
 */
module TimingWheel {

  import opened Options

  type Conn = nat

  datatype Step =
    | Up(conn: Conn)        // OnConnection with a connected connection
    | Message(conn: Conn)
    | Down(conn: Conn)      // OnConnection with a closed connection
    | Release(conn: Conn)   // the last pointer to the connection goes away
    | Tick                  // OnTimer

  // ---------------------------------------------------------------- the wheel

  datatype Wheel = Wheel(
    buckets: seq<set<Conn>>,    // the ring, front first; always full
    first: nat,                 // where in the ring's storage the front is
    index: map<Conn, int>,      // `index_` of the entry a connection's timing context points to
    released: set<Conn>,
    shutdowns: seq<set<Conn>>,  // the connections shut down, tick by tick
    crashed: bool)              // an assertion failed

  /** `begin() - buckets_begin_`. The iterator kept from construction stands at the start of the storage,
      and iterators are compared by their distance from the front. */
  function Index(first: nat, capacity: nat): (i: int)
    requires first < capacity
  {
    if first == 0 then 0 else first - capacity
  }

  predicate Held(buckets: seq<set<Conn>>, c: Conn) {
    exists j :: 0 <= j < |buckets| && c in buckets[j]
  }

  predicate Shaped(s: Wheel) {
    s.first < |s.buckets|
  }

  function Insert(s: Wheel, c: Conn): (s': Wheel)
    requires Shaped(s)
  {
    var n := |s.buckets|;
    s.(buckets := s.buckets[n - 1 := s.buckets[n - 1] + {c}], index := s.index[c := Index(s.first, n)])
  }

  /** `push_back` on a full ring: the front bucket goes, and the entries only it held die. */
  function AfterTimer(s: Wheel): (s': Wheel)
    requires Shaped(s)
  {
    var turned := s.buckets[1..] + [{}];
    var dead := set c | c in s.buckets[0] && !Held(turned, c);
    s.(buckets := turned,
       first := if s.first + 1 == |s.buckets| then 0 else s.first + 1,
       shutdowns := s.shutdowns + [dead - s.released])
  }

  function AfterUp(s: Wheel, c: Conn): (s': Wheel)
    requires Shaped(s)
  {
    if c in s.index then s.(crashed := true) else Insert(s, c)
  }

  function AfterMessage(s: Wheel, c: Conn): (s': Wheel)
    requires Shaped(s)
  {
    if c !in s.index || !Held(s.buckets, c) then s.(crashed := true)
    else if s.index[c] != Index(s.first, |s.buckets|) then Insert(s, c)
    else s
  }

  function Apply(s: Wheel, step: Step): (s': Wheel)
    requires Shaped(s)
    ensures Shaped(s') && |s'.buckets| == |s.buckets|
  {
    if s.crashed then s
    else
      match step
      case Up(c) => AfterUp(s, c)
      case Message(c) => AfterMessage(s, c)
      case Down(c) => if c in s.index then s else s.(crashed := true)
      case Release(c) => s.(released := s.released + {c})
      case Tick => AfterTimer(s)
  }

  /** Runs are read from the end: the last step is the newest. */
  function Run(s: Wheel, steps: seq<Step>): (s': Wheel)
    requires Shaped(s)
    ensures Shaped(s') && |s'.buckets| == |s.buckets|
    decreases |steps|
  {
    if steps == [] then s else Apply(Run(s, steps[..|steps| - 1]), steps[|steps| - 1])
  }

  function Start(capacity: nat): (s: Wheel)
    requires capacity >= 1
    ensures Shaped(s) && |s.buckets| == capacity
  {
    Wheel(seq(capacity, _ => {}), 0, map[], {}, [], false)
  }

  // ---------------------------------------------------------------- the idle times it stands for

  /** The ticks among the steps. */
  function Ticks(steps: seq<Step>): (n: nat) {
    if steps == [] then 0
    else Ticks(steps[..|steps| - 1]) + (if steps[|steps| - 1].Tick? then 1 else 0)
  }

  /** The tick of the newest connect or message of `c`. */
  function LastActivity(steps: seq<Step>, c: Conn): (t: Option<nat>)
    ensures t.Some? ==> t.value <= Ticks(steps)
  {
    if steps == [] then None
    else
      var pre, step := steps[..|steps| - 1], steps[|steps| - 1];
      if step == Up(c) || step == Message(c) then Some(Ticks(pre)) else LastActivity(pre, c)
  }

  predicate Connected(steps: seq<Step>, c: Conn) {
    LastActivity(steps, c).Some?
  }

  /** Seconds since the last activity, at least `n` of them. */
  predicate IdleFor(steps: seq<Step>, c: Conn, n: nat)
    requires Connected(steps, c)
  {
    Ticks(steps) - LastActivity(steps, c).value >= n
  }

  /** The connection was gone before tick `k` (the first is tick 0). */
  predicate GoneBefore(steps: seq<Step>, c: Conn, k: nat) {
    if steps == [] then false
    else
      var pre, step := steps[..|steps| - 1], steps[|steps| - 1];
      (step == Release(c) && Ticks(pre) <= k) || GoneBefore(pre, c, k)
  }

  lemma {:induction false} GoneIsReleased(steps: seq<Step>, c: Conn, k: nat)
    requires k >= Ticks(steps)
    ensures GoneBefore(steps, c, k) <==> Release(c) in steps
  {
    if steps != [] {
      GoneIsReleased(steps[..|steps| - 1], c, k);
      assert steps == steps[..|steps| - 1] + [steps[|steps| - 1]];
    }
  }

  // ---------------------------------------------------------------- the invariant

  ghost predicate Basics(s: Wheel, steps: seq<Step>) {
    && Shaped(s)
    && s.first == Ticks(steps) % |s.buckets|
    && |s.shutdowns| == Ticks(steps)
    && (forall c :: c in s.released <==> Release(c) in steps)
  }

  ghost predicate Indexed(s: Wheel, steps: seq<Step>)
    requires Shaped(s)
  {
    forall c {:trigger c in s.index} {:trigger LastActivity(steps, c)} ::
      && (c in s.index <==> Connected(steps, c))
      && (c in s.index ==> s.index[c] == Index(LastActivity(steps, c).value % |s.buckets|, |s.buckets|))
  }

  /** A bucket holds no connection that has been idle since the bucket left the back. */
  ghost predicate NoneTooOld(s: Wheel, steps: seq<Step>) {
    forall j, c :: 0 <= j < |s.buckets| && c in s.buckets[j] ==>
      Connected(steps, c) && Ticks(steps) - LastActivity(steps, c).value <= |s.buckets| - 1 - j
  }

  /** A connection is in the bucket that was at the back when it was last active. */
  ghost predicate AllThere(s: Wheel, steps: seq<Step>) {
    forall c :: Connected(steps, c) ==>
      var age := Ticks(steps) - LastActivity(steps, c).value;
      age < |s.buckets| ==> c in s.buckets[|s.buckets| - 1 - age]
  }

  /** A shut down connection was idle for exactly the length of the ring and has been idle since. */
  ghost predicate NotEarly(s: Wheel, steps: seq<Step>) {
    forall k, c :: 0 <= k < |s.shutdowns| && c in s.shutdowns[k] ==>
      Connected(steps, c) && LastActivity(steps, c).value + |s.buckets| == k + 1 && !GoneBefore(steps, c, k)
  }

  ghost predicate NotLate(s: Wheel, steps: seq<Step>) {
    forall c :: Connected(steps, c) ==>
      var k := LastActivity(steps, c).value + |s.buckets| - 1;
      0 <= k < |s.shutdowns| && !GoneBefore(steps, c, k) ==> c in s.shutdowns[k]
  }

  ghost predicate Inv(s: Wheel, steps: seq<Step>) {
    && Basics(s, steps)
    && Indexed(s, steps)
    && NoneTooOld(s, steps)
    && AllThere(s, steps)
    && NotEarly(s, steps)
    && NotLate(s, steps)
  }

  lemma StartInv(capacity: nat)
    requires capacity >= 1
    ensures Inv(Start(capacity), [])
  {
  }

  /** An entry is alive exactly while its connection has been idle for less than the ring's length. */
  lemma HeldIff(s: Wheel, steps: seq<Step>, c: Conn)
    requires Shaped(s) && NoneTooOld(s, steps) && AllThere(s, steps)
    ensures Held(s.buckets, c) <==> Connected(steps, c) && !IdleFor(steps, c, |s.buckets|)
  {
    if Connected(steps, c) && !IdleFor(steps, c, |s.buckets|) {
      var age := Ticks(steps) - LastActivity(steps, c).value;
      assert c in s.buckets[|s.buckets| - 1 - age];
    }
  }

  lemma Multiple(n: int, k: int)
    requires n >= 1
    ensures k >= 1 ==> n * k >= n
    ensures k <= -1 ==> n * k + n <= 0
  {
    if k >= 1 {
      assert n * k == n + n * (k - 1);
    } else if k <= -1 {
      assert n * k + n == n * (k + 1);
    }
  }

  lemma Remainder(x: int, n: int, q: int, r: int)
    requires n >= 1 && 0 <= r < n && x == n * q + r
    ensures x % n == r
  {
    var k := x / n - q;
    assert n * k == n * (x / n) - n * q;
    Multiple(n, k);
  }

  /** Within one turn of the ring, equal positions mean the same tick. */
  lemma SamePlaceSameTick(now: nat, last: nat, n: nat)
    requires n >= 1 && last <= now < last + n
    ensures now % n == last % n <==> now == last
  {
    var turns := now / n - last / n;
    assert n * turns == n * (now / n) - n * (last / n);
    Multiple(n, turns);
  }

  lemma IndexIsInjective(a: nat, b: nat, n: nat)
    requires a < n && b < n
    ensures Index(a, n) == Index(b, n) <==> a == b
  {
  }

  /** The shortcut in `OnMessage`: an unchanged index means the entry is in the back bucket already. */
  lemma SameIndexMeansInBack(s: Wheel, steps: seq<Step>, c: Conn)
    requires Inv(s, steps) && c in s.index && Held(s.buckets, c)
    ensures s.index[c] == Index(s.first, |s.buckets|) <==> LastActivity(steps, c) == Some(Ticks(steps))
    ensures s.index[c] == Index(s.first, |s.buckets|) ==> c in s.buckets[|s.buckets| - 1]
  {
    HeldIff(s, steps, c);
    var n, now, last := |s.buckets|, Ticks(steps), LastActivity(steps, c).value;
    SamePlaceSameTick(now, last, n);
    IndexIsInjective(last % n, now % n, n);
  }

  // ---------------------------------------------------------------- every step keeps it

  lemma Newest(steps: seq<Step>, step: Step)
    ensures Ticks(steps + [step]) == Ticks(steps) + (if step.Tick? then 1 else 0)
    ensures forall c :: LastActivity(steps + [step], c) ==
                        if step == Up(c) || step == Message(c) then Some(Ticks(steps)) else LastActivity(steps, c)
    ensures forall c, k: nat :: GoneBefore(steps + [step], c, k) <==>
                                GoneBefore(steps, c, k) || (step == Release(c) && Ticks(steps) <= k)
    ensures forall c :: Release(c) in steps + [step] <==> Release(c) in steps || step == Release(c)
  {
    assert (steps + [step])[..|steps|] == steps;
  }

  /** The same connections are gone, and were gone at the same ticks. */
  ghost predicate SameGone(steps: seq<Step>, steps': seq<Step>) {
    && (forall c, k: nat :: GoneBefore(steps', c, k) <==> GoneBefore(steps, c, k))
    && (forall c :: Release(c) in steps' <==> Release(c) in steps)
  }

  /** `steps'` is `steps` and one activity of `c`. */
  ghost predicate Touched(steps: seq<Step>, steps': seq<Step>, c: Conn) {
    && Ticks(steps') == Ticks(steps) && SameGone(steps, steps')
    && forall d :: LastActivity(steps', d) == if d == c then Some(Ticks(steps)) else LastActivity(steps, d)
  }

  lemma InsertKeepsPlaces(s: Wheel, steps: seq<Step>, steps': seq<Step>, c: Conn)
    requires Inv(s, steps) && Touched(steps, steps', c)
    ensures var s' := Insert(s, c);
            Basics(s', steps') && Indexed(s', steps') && NoneTooOld(s', steps') && AllThere(s', steps')
  {
    hide NotEarly, NotLate;
  }

  lemma InsertKeepsShutdowns(s: Wheel, steps: seq<Step>, steps': seq<Step>, c: Conn)
    requires Inv(s, steps) && Touched(steps, steps', c)
    requires Connected(steps, c) ==> !IdleFor(steps, c, |s.buckets|)
    ensures NotEarly(Insert(s, c), steps') && NotLate(Insert(s, c), steps')
  {
    hide NoneTooOld, AllThere, Indexed, GoneBefore, LastActivity, Ticks;
  }

  lemma AgainKeepsInv(s: Wheel, steps: seq<Step>, steps': seq<Step>, c: Conn)
    requires Inv(s, steps) && Touched(steps, steps', c) && LastActivity(steps, c) == Some(Ticks(steps))
    ensures Inv(s, steps')
  {
    assert forall d :: LastActivity(steps', d) == LastActivity(steps, d);
    SameTimesKeepInv(s, s, steps, steps');
  }

  /** Nothing but the set of released connections has changed, at the current tick. */
  lemma SameTimesKeepInv(s: Wheel, s': Wheel, steps: seq<Step>, steps': seq<Step>)
    requires Inv(s, steps) && s' == s.(released := s'.released)
    requires Ticks(steps') == Ticks(steps) && forall c :: LastActivity(steps', c) == LastActivity(steps, c)
    requires forall c :: c in s'.released <==> Release(c) in steps'
    requires forall c, k: nat :: k < Ticks(steps) ==> (GoneBefore(steps', c, k) <==> GoneBefore(steps, c, k))
    ensures Inv(s', steps')
  {
    hide Ticks, LastActivity, GoneBefore;
    assert Basics(s', steps') && Indexed(s', steps');
    assert NoneTooOld(s', steps') && AllThere(s', steps');
    assert NotEarly(s', steps') && NotLate(s', steps');
  }

  lemma UpKeepsInv(s: Wheel, steps: seq<Step>, c: Conn)
    requires Inv(s, steps) && c !in s.index
    ensures Inv(AfterUp(s, c), steps + [Up(c)])
  {
    Newest(steps, Up(c));
    hide Ticks, LastActivity, GoneBefore;
    InsertKeepsPlaces(s, steps, steps + [Up(c)], c);
    InsertKeepsShutdowns(s, steps, steps + [Up(c)], c);
  }

  lemma MessageKeepsInv(s: Wheel, steps: seq<Step>, c: Conn)
    requires Inv(s, steps) && c in s.index && Held(s.buckets, c)
    ensures Inv(AfterMessage(s, c), steps + [Message(c)])
  {
    Newest(steps, Message(c));
    HeldIff(s, steps, c);
    SameIndexMeansInBack(s, steps, c);
    hide Ticks, LastActivity, GoneBefore;
    var steps' := steps + [Message(c)];
    if s.index[c] == Index(s.first, |s.buckets|) {
      AgainKeepsInv(s, steps, steps', c);
    } else {
      InsertKeepsPlaces(s, steps, steps', c);
      InsertKeepsShutdowns(s, steps, steps', c);
    }
  }

  /** `steps'` is `steps` and a tick. */
  ghost predicate Ticked(steps: seq<Step>, steps': seq<Step>) {
    && Ticks(steps') == Ticks(steps) + 1 && SameGone(steps, steps')
    && forall c :: LastActivity(steps', c) == LastActivity(steps, c)
  }

  lemma TickAdvances(now: nat, n: nat)
    requires n >= 1
    ensures (now + 1) % n == if now % n + 1 == n then 0 else now % n + 1
  {
    var q, r := now / n, now % n;
    if r + 1 == n {
      assert n * (q + 1) == n * q + n;
      Remainder(now + 1, n, q + 1, 0);
    } else {
      Remainder(now + 1, n, q, r + 1);
    }
  }

  lemma TickKeepsPlaces(s: Wheel, steps: seq<Step>, steps': seq<Step>)
    requires Inv(s, steps) && Ticked(steps, steps')
    ensures var s' := AfterTimer(s);
            Basics(s', steps') && Indexed(s', steps') && NoneTooOld(s', steps') && AllThere(s', steps')
  {
    hide NotEarly, NotLate, Held;
    TickAdvances(Ticks(steps), |s.buckets|);
  }

  /** The entries that die are those of the connections idle for as many ticks as the ring is long. */
  lemma DeadIff(s: Wheel, steps: seq<Step>, steps': seq<Step>, c: Conn)
    requires Inv(s, steps) && Ticked(steps, steps')
    ensures c in s.buckets[0] && !Held(AfterTimer(s).buckets, c)
            <==> Connected(steps, c) && LastActivity(steps, c).value + |s.buckets| == Ticks(steps')
  {
    TickKeepsPlaces(s, steps, steps');
    HeldIff(AfterTimer(s), steps', c);
  }

  /** Those that die on this tick are shut down, unless they are gone. */
  lemma TickShuts(s: Wheel, steps: seq<Step>, steps': seq<Step>, c: Conn)
    requires Inv(s, steps) && Ticked(steps, steps')
    ensures var s', k := AfterTimer(s), Ticks(steps);
            && |s.shutdowns| == k && s'.shutdowns[..k] == s.shutdowns && |s'.shutdowns| == k + 1
            && (c in s'.shutdowns[k] <==>
                  Connected(steps, c) && LastActivity(steps, c).value + |s.buckets| == k + 1
                  && !GoneBefore(steps, c, k))
  {
    DeadIff(s, steps, steps', c);
    GoneIsReleased(steps, c, Ticks(steps));
    hide NoneTooOld, AllThere, Indexed, Held, GoneBefore, LastActivity, Ticks, NotEarly, NotLate;
  }

  lemma SameSize(s: Wheel)
    requires Shaped(s)
    ensures |AfterTimer(s).buckets| == |s.buckets|
  {
  }

  lemma EarlyAfterTick(s: Wheel, steps: seq<Step>, steps': seq<Step>, k: nat, c: Conn)
    requires Inv(s, steps) && Ticked(steps, steps') && k < |AfterTimer(s).shutdowns| && c in AfterTimer(s).shutdowns[k]
    ensures Connected(steps, c) && LastActivity(steps, c).value + |s.buckets| == k + 1 && !GoneBefore(steps, c, k)
  {
    TickShuts(s, steps, steps', c);
    hide NoneTooOld, AllThere, Indexed, GoneBefore, LastActivity, Ticks, NotLate, AfterTimer, Ticked, Basics;
    var s' := AfterTimer(s);
    if k < Ticks(steps) {
      assert s'.shutdowns[k] == s'.shutdowns[..Ticks(steps)][k] == s.shutdowns[k];
    }
  }

  lemma TickKeepsEarly(s: Wheel, steps: seq<Step>, steps': seq<Step>)
    requires Inv(s, steps) && Ticked(steps, steps')
    ensures NotEarly(AfterTimer(s), steps')
  {
    assert Shaped(s);
    SameSize(s);
    hide Inv, GoneBefore, LastActivity, Ticks, AfterTimer;
    var s' := AfterTimer(s);
    forall k: nat, c | k < |s'.shutdowns| && c in s'.shutdowns[k]
      ensures Connected(steps', c) && LastActivity(steps', c).value + |s'.buckets| == k + 1 && !GoneBefore(steps', c, k)
    {
      EarlyAfterTick(s, steps, steps', k, c);
    }
  }

  lemma TickKeepsLate(s: Wheel, steps: seq<Step>, steps': seq<Step>)
    requires Inv(s, steps) && Ticked(steps, steps')
    ensures NotLate(AfterTimer(s), steps')
  {
    assert Shaped(s);
    hide Basics, NoneTooOld, AllThere, Indexed, Held, GoneBefore, LastActivity, Ticks, NotEarly, AfterTimer;
    var s' := AfterTimer(s);
    forall c | Connected(steps', c)
      ensures var k := LastActivity(steps', c).value + |s'.buckets| - 1;
              0 <= k < |s'.shutdowns| && !GoneBefore(steps', c, k) ==> c in s'.shutdowns[k]
    {
      TickShuts(s, steps, steps', c);
      SameSize(s);
      var k := LastActivity(steps', c).value + |s'.buckets| - 1;
      assert 0 <= k < Ticks(steps) ==> s'.shutdowns[k] == s'.shutdowns[..Ticks(steps)][k];
    }
  }

  lemma TickKeepsInv(s: Wheel, steps: seq<Step>)
    requires Inv(s, steps)
    ensures Inv(AfterTimer(s), steps + [Tick])
  {
    Newest(steps, Tick);
    hide Ticks, LastActivity, GoneBefore;
    TickKeepsPlaces(s, steps, steps + [Tick]);
    TickKeepsEarly(s, steps, steps + [Tick]);
    TickKeepsLate(s, steps, steps + [Tick]);
  }

  lemma QuietStepKeepsInv(s: Wheel, steps: seq<Step>, step: Step)
    requires Inv(s, steps) && !s.crashed && (step.Down? || step.Release?) && !Apply(s, step).crashed
    ensures Inv(Apply(s, step), steps + [step])
  {
    Newest(steps, step);
    hide Ticks, LastActivity, GoneBefore;
    SameTimesKeepInv(s, Apply(s, step), steps, steps + [step]);
  }

  lemma StepKeepsInv(s: Wheel, steps: seq<Step>, step: Step)
    requires Inv(s, steps) && !s.crashed && !Apply(s, step).crashed
    ensures Inv(Apply(s, step), steps + [step])
  {
    hide Inv, Held, Insert;
    match step
    case Up(c) => UpKeepsInv(s, steps, c);
    case Message(c) => MessageKeepsInv(s, steps, c);
    case Tick => TickKeepsInv(s, steps);
    case _ => QuietStepKeepsInv(s, steps, step);
  }

  lemma {:induction false} RunKeepsInv(capacity: nat, steps: seq<Step>)
    requires capacity >= 1 && !Run(Start(capacity), steps).crashed
    ensures Inv(Run(Start(capacity), steps), steps)
    decreases |steps|
  {
    hide Inv, Apply;
    if steps == [] {
      StartInv(capacity);
    } else {
      var pre, step := steps[..|steps| - 1], steps[|steps| - 1];
      assert steps == pre + [step];
      CrashStops(Run(Start(capacity), pre), step);
      RunKeepsInv(capacity, pre);
      StepKeepsInv(Run(Start(capacity), pre), pre, step);
    }
  }

  lemma CrashStops(s: Wheel, step: Step)
    requires Shaped(s)
    ensures s.crashed ==> Apply(s, step) == s
  {
  }

  // ---------------------------------------------------------------- what the wheel is for

  /** A connection is shut down on the tick that ends its `capacity`-th idle second, neither earlier nor
      later, and never if it is active before that, if and only if it still exists then. */
  lemma ShutWhenIdle(capacity: nat, steps: seq<Step>, c: Conn, k: nat)
    requires capacity >= 1 && !Run(Start(capacity), steps).crashed && k < Ticks(steps)
    ensures var s := Run(Start(capacity), steps);
            && |s.shutdowns| == Ticks(steps)
            && (c in s.shutdowns[k] <==>
                  Connected(steps, c) && LastActivity(steps, c).value + capacity == k + 1 && !GoneBefore(steps, c, k))
  {
    RunKeepsInv(capacity, steps);
  }

  lemma ShutAtMostOnce(capacity: nat, steps: seq<Step>, c: Conn, i: nat, j: nat)
    requires capacity >= 1 && !Run(Start(capacity), steps).crashed && i < Ticks(steps) && j < Ticks(steps)
    ensures var s := Run(Start(capacity), steps);
            && |s.shutdowns| == Ticks(steps)
            && (c in s.shutdowns[i] && c in s.shutdowns[j] ==> i == j)
  {
    ShutWhenIdle(capacity, steps, c, i);
    ShutWhenIdle(capacity, steps, c, j);
  }

  /** An entry is alive exactly while its connection has been idle for less than `capacity` ticks. */
  lemma EntryLivesIff(capacity: nat, steps: seq<Step>, c: Conn)
    requires capacity >= 1 && !Run(Start(capacity), steps).crashed
    ensures Held(Run(Start(capacity), steps).buckets, c) <==> Connected(steps, c) && !IdleFor(steps, c, capacity)
  {
    RunKeepsInv(capacity, steps);
    HeldIff(Run(Start(capacity), steps), steps, c);
  }

  /** What the wheel asks of its callers: one connect per connection, the rest after it, and no message
      from a connection that it has shut down. */
  predicate Allowed(capacity: nat, steps: seq<Step>, step: Step) {
    match step
    case Up(c) => !Connected(steps, c)
    case Message(c) => Connected(steps, c) && !IdleFor(steps, c, capacity)
    case Down(c) => Connected(steps, c)
    case Release(_) => true
    case Tick => true
  }

  predicate Orderly(capacity: nat, steps: seq<Step>) {
    steps == [] ||
    (Orderly(capacity, steps[..|steps| - 1]) && Allowed(capacity, steps[..|steps| - 1], steps[|steps| - 1]))
  }

  lemma StepFailsIff(s: Wheel, steps: seq<Step>, step: Step)
    requires Inv(s, steps) && !s.crashed
    ensures Apply(s, step).crashed <==> !Allowed(|s.buckets|, steps, step)
  {
    hide Held, NotEarly, NotLate;
    match step
    case Message(c) => HeldIff(s, steps, c);
    case Up(c) => assert c in s.index <==> Connected(steps, c);
    case Down(c) => assert c in s.index <==> Connected(steps, c);
    case _ =>
  }

  /** The assertions hold in exactly the orderly runs. */
  lemma {:induction false} FailsIff(capacity: nat, steps: seq<Step>)
    requires capacity >= 1
    ensures Run(Start(capacity), steps).crashed <==> !Orderly(capacity, steps)
    decreases |steps|
  {
    hide Apply, Inv, Allowed;
    if steps != [] {
      var pre, step := steps[..|steps| - 1], steps[|steps| - 1];
      var s := Run(Start(capacity), pre);
      FailsIff(capacity, pre);
      if s.crashed {
        CrashStops(s, step);
      } else {
        RunKeepsInv(capacity, pre);
        StepFailsIff(s, pre, step);
      }
    }
  }

  /** Shutting down closes only the sending side, so the peer may still send: the next message then
      finds its entry gone. */
  lemma MessageAfterShutdownFails(c: Conn)
    ensures var steps := [Up(c), Tick, Message(c)];
            && Run(Start(1), steps).crashed
            && Run(Start(1), steps[..2]).shutdowns == [{c}]
  {
    var up, idle := [Up(c)], [Up(c), Tick];
    assert [Up(c), Tick, Message(c)][..2] == idle && idle[..1] == up && up[..0] == [];
    assert Run(Start(1), []) == Start(1);
    var s := Insert(Start(1), c);
    assert Run(Start(1), up) == s;
    assert Run(Start(1), idle) == AfterTimer(s);
    assert AfterTimer(s).buckets == [{}];
    assert s.buckets[0] == {c} && !Held([{}], c);
    assert AfterTimer(s).shutdowns[0] == {c};
  }

  // ---------------------------------------------------------------- the ring and the reference counts

  /** The buckets of a ring, front first. */
  function Rotated(ring: seq<set<Conn>>, front: nat): (buckets: seq<set<Conn>>)
    requires front < |ring|
  {
    ring[front..] + ring[..front]
  }

  lemma RotatedTurns(ring: seq<set<Conn>>, front: nat)
    requires front < |ring|
    ensures var next := if front + 1 == |ring| then 0 else front + 1;
            Rotated(ring[front := {}], next) == Rotated(ring, front)[1..] + [{}]
  {
    if front + 1 < |ring| {
      assert ring[front := {}][front + 1..] == ring[front + 1..];
      assert ring[front := {}][..front + 1] == ring[..front] + [{}];
    }
  }

  /** Where the back bucket is. */
  function BackOf(size: nat, front: nat): (i: nat)
    requires front < size
    ensures i < size
  {
    if front == 0 then size - 1 else front - 1
  }

  lemma RotatedBack(ring: seq<set<Conn>>, front: nat, b: set<Conn>)
    requires front < |ring|
    ensures var back := BackOf(|ring|, front);
            && Rotated(ring, front)[|ring| - 1] == ring[back]
            && Rotated(ring[back := b], front) == Rotated(ring, front)[|ring| - 1 := b]
  {
    if front > 0 {
      assert ring[front - 1 := b][..front] == ring[..front][front - 1 := b];
      assert ring[front - 1 := b][front..] == ring[front..];
    }
  }

  /** In how many buckets an entry is: the count of its shared pointers. */
  function Count(buckets: seq<set<Conn>>, c: Conn): (n: nat) {
    if buckets == [] then 0
    else Count(buckets[..|buckets| - 1], c) + (if c in buckets[|buckets| - 1] then 1 else 0)
  }

  lemma CountSnoc(buckets: seq<set<Conn>>, b: set<Conn>, c: Conn)
    ensures Count(buckets + [b], c) == Count(buckets, c) + (if c in b then 1 else 0)
  {
    assert (buckets + [b])[..|buckets|] == buckets;
  }

  lemma {:induction false} CountFront(buckets: seq<set<Conn>>, c: Conn)
    requires buckets != []
    ensures Count(buckets, c) == (if c in buckets[0] then 1 else 0) + Count(buckets[1..], c)
  {
    if |buckets| > 1 {
      var k := |buckets| - 1;
      CountFront(buckets[..k], c);
      assert buckets[1..] == buckets[..k][1..] + [buckets[k]];
      CountSnoc(buckets[..k][1..], buckets[k], c);
    }
  }

  lemma {:induction false} CountHeld(buckets: seq<set<Conn>>, c: Conn)
    ensures Count(buckets, c) > 0 <==> Held(buckets, c)
  {
    if buckets != [] {
      var k := |buckets| - 1;
      CountHeld(buckets[..k], c);
      assert Held(buckets, c) <==> Held(buckets[..k], c) || c in buckets[k] by {
        assert forall j :: 0 <= j < k ==> buckets[..k][j] == buckets[j];
      }
    }
  }

  /** Turning the ring takes one pointer from each entry of the front bucket. */
  lemma CountTurned(buckets: seq<set<Conn>>, c: Conn)
    requires buckets != []
    ensures Count(buckets[1..] + [{}], c) == Count(buckets, c) - (if c in buckets[0] then 1 else 0)
  {
    CountFront(buckets, c);
    CountSnoc(buckets[1..], {}, c);
  }

  /** Inserting into the back bucket adds one to an entry that is not there. */
  lemma CountInserted(buckets: seq<set<Conn>>, c: Conn, d: Conn)
    requires buckets != []
    ensures var k := |buckets| - 1;
            Count(buckets[k := buckets[k] + {c}], d) ==
            Count(buckets, d) + (if d == c && c !in buckets[k] then 1 else 0)
  {
    var k := |buckets| - 1;
    assert buckets[k := buckets[k] + {c}][..k] == buckets[..k];
  }

  /** The count of every entry is the number of buckets that hold it. */
  ghost predicate Counts(useCount: map<Conn, nat>, buckets: seq<set<Conn>>) {
    forall c: Conn :: Count(buckets, c) == if c in useCount then useCount[c] else 0
  }

  // ---------------------------------------------------------------- the object

  /** The wheel with a ring of fixed storage, and entries that die when their last shared pointer goes. */
  class Timing {
    const ring: array<set<Conn>>
    var front: nat
    var useCount: map<Conn, nat>     // shared pointers to the entries
    var entryIndex: map<Conn, int>   // `index_` of the entries the timing contexts point to
    ghost var released: set<Conn>
    ghost var shutdowns: seq<set<Conn>>

    ghost function View(): (s: Wheel)
      requires front < ring.Length
      reads this, ring
    {
      Wheel(Rotated(ring[..], front), front, entryIndex, released, shutdowns, false)
    }

    ghost predicate Valid()
      reads this, ring
    {
      front < ring.Length && useCount.Keys == entryIndex.Keys && Counts(useCount, Rotated(ring[..], front))
    }

    constructor (idleSeconds: nat)
      requires idleSeconds >= 1
      ensures Valid() && fresh(ring) && View() == Start(idleSeconds)
    {
      ring := new set<Conn>[idleSeconds](_ => {});
      front, useCount, entryIndex := 0, map[], map[];
      released, shutdowns := {}, [];
      new;
      assert ring[..] == seq(idleSeconds, _ => {});
      assert Rotated(ring[..], 0) == ring[..];
      forall c: Conn
        ensures Count(ring[..], c) == 0
      {
        CountHeld(ring[..], c);
      }
    }

    /** The bucket's entries lose a pointer each; the connections of those that had no other are shut down. */
    method OnTimer() returns (dead: set<Conn>)
      requires Valid()
      modifies this, ring
      ensures Valid() && View() == AfterTimer(old(View()))
      ensures shutdowns == old(shutdowns) + [dead - released]
    {
      ghost var buckets := Rotated(ring[..], front);
      RotatedTurns(ring[..], front);
      var bucket := ring[front];
      assert buckets[0] == bucket;
      ghost var before := ring[..];
      ring[front] := {};
      assert ring[..] == before[front := {}];
      front := if front + 1 == ring.Length then 0 else front + 1;
      ghost var turned := buckets[1..] + [{}];
      assert Rotated(ring[..], front) == turned;
      forall c: Conn
        ensures Count(turned, c) == Count(buckets, c) - (if c in bucket then 1 else 0)
        ensures Count(turned, c) > 0 <==> Held(turned, c)
      {
        CountTurned(buckets, c);
        CountHeld(turned, c);
      }
      hide Count, Held, Rotated;
      dead := Drop(bucket, turned);
      assert dead == set c | c in buckets[0] && !Held(turned, c);
      shutdowns := shutdowns + [dead - released];
    }

    /** Destroys the pointers in a bucket that has left the ring. */
    method Drop(bucket: set<Conn>, ghost turned: seq<set<Conn>>) returns (dead: set<Conn>)
      requires forall c: Conn ::
                 Count(turned, c) + (if c in bucket then 1 else 0) == if c in useCount then useCount[c] else 0
      requires useCount.Keys == entryIndex.Keys
      modifies this`useCount
      ensures Counts(useCount, turned) && useCount.Keys == entryIndex.Keys
      ensures dead == set c | c in bucket && Count(turned, c) == 0
    {
      hide Count;
      dead := {};
      var left := bucket;
      while left != {}
        invariant left <= bucket && useCount.Keys == entryIndex.Keys
        invariant forall c: Conn ::
                    Count(turned, c) + (if c in left then 1 else 0) == if c in useCount then useCount[c] else 0
        invariant dead == set c | c in bucket && c !in left && Count(turned, c) == 0
        decreases |left|
      {
        var c :| c in left;
        assert c in useCount && useCount[c] == Count(turned, c) + 1;
        left := left - {c};
        useCount := useCount[c := useCount[c] - 1];
        if useCount[c] == 0 {
          dead := dead + {c};
        }
      }
    }

    /** Puts an entry into the back bucket, which holds it once. */
    method InsertBack(conn: Conn)
      requires front < ring.Length && useCount.Keys == entryIndex.Keys + {conn}
      requires Counts(useCount, Rotated(ring[..], front))
      modifies this`useCount, this`entryIndex, ring
      ensures Valid() && View() == Insert(old(View()), conn)
    {
      ghost var buckets := Rotated(ring[..], front);
      var back := BackOf(ring.Length, front);
      RotatedBack(ring[..], front, ring[back] + {conn});
      ghost var before := ring[..];
      if conn !in ring[back] {
        useCount := useCount[conn := useCount[conn] + 1];
      }
      entryIndex := entryIndex[conn := Index(front, ring.Length)];
      ring[back] := ring[back] + {conn};
      assert ring[..] == before[back := before[back] + {conn}];
      ghost var k := |buckets| - 1;
      assert Rotated(ring[..], front) == buckets[k := buckets[k] + {conn}];
      hide Rotated, Count;
      forall d: Conn
        ensures Count(Rotated(ring[..], front), d) == if d in useCount then useCount[d] else 0
      {
        CountInserted(buckets, conn, d);
      }
    }

    method OnConnection(conn: Conn, isConnected: bool)
      requires Valid()
      requires isConnected <==> conn !in entryIndex
      modifies this, ring
      ensures Valid() && View() == Apply(old(View()), if isConnected then Up(conn) else Down(conn))
    {
      if isConnected {
        useCount := useCount[conn := 0];
        InsertBack(conn);
      }
    }

    /** The weak pointer of the timing context can be locked while there are shared ones. */
    method OnMessage(conn: Conn)
      requires Valid() && conn in entryIndex && useCount[conn] > 0
      modifies this, ring
      ensures Valid() && View() == AfterMessage(old(View()), conn)
    {
      CountHeld(Rotated(ring[..], front), conn);
      if entryIndex[conn] != Index(front, ring.Length) {
        InsertBack(conn);
      }
    }
  }
}
