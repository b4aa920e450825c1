/** The timer queue of `mytinyhttpd/net/timer_queue.cc`.

    Timers are kept twice, ordered by expiration in `timers_` and by identity in `active_timers_`,
    and are freed by hand. Callbacks run while a batch of expired timers is held outside both sets,
    and may add and cancel timers themselves. A run is a sequence of steps: creating a timer (in any
    thread), `AddTimerInLoop`, `CancelInLoop`, and the three parts of `HandleRead`, so that every
    moment between two callbacks, or inside one, is a state of the run.
 */
module TimerQueues {
  import opened TimerIds

  /** One past the largest address of a timer: the sentry of `GetExpired`. */
  const ADDRESS_MAX: nat := 0xffff_ffff_ffff_ffff

  datatype Timer = Timer(sequence: int, expiration: int, interval: nat, isRepeat: bool)

  datatype Entry = Entry(when: int, addr: Addr)

  /** The timerfd, armed at `setAt` to fire at `deadline`; times are in microseconds. */
  datatype Arming = Unarmed | ArmedFor(deadline: int, setAt: int)

  datatype Queue = Queue(
    heap: map<Addr, Timer>,          // timers that have not been deleted
    waiting: set<Addr>,              // created, but AddTimerInLoop has not run for them
    timers: seq<Entry>,              // timers_, in the order of the set
    active: set<TimerId>,            // active_timers_
    canceling: set<TimerId>,         // canceling_timers_
    calling: bool,                   // is_calling_expired_timers_
    batch: seq<Entry>,               // the expired timers being run or reset
    next: nat,                       // how many of them have run
    now: int,                        // HandleRead's clock reading
    arming: Arming,
    // what has happened so far
    issued: set<TimerId>,
    freed: set<TimerId>,
    ran: seq<TimerId>)               // the timers whose callbacks were called

  // ---------------------------------------------------------------- the ordered set

  /** The order of `std::pair<Timestamp, Timer*>`. */
  predicate Less(e: Entry, f: Entry) {
    e.when < f.when || (e.when == f.when && e.addr < f.addr)
  }

  predicate Sorted(ts: seq<Entry>) {
    forall i, j :: 0 <= i < j < |ts| ==> Less(ts[i], ts[j])
  }

  function InsertSorted(ts: seq<Entry>, e: Entry): (r: seq<Entry>) {
    if ts == [] || Less(e, ts[0]) then [e] + ts
    else [ts[0]] + InsertSorted(ts[1..], e)
  }

  lemma {:induction false} InsertMembers(ts: seq<Entry>, e: Entry)
    ensures forall x :: x in InsertSorted(ts, e) <==> x in ts || x == e
  {
    if ts != [] && !Less(e, ts[0]) {
      InsertMembers(ts[1..], e);
      assert ts == [ts[0]] + ts[1..];
    }
  }

  /** A head before every element of a sorted tail makes a sorted sequence. */
  lemma SortedCons(e: Entry, ts: seq<Entry>)
    requires Sorted(ts) && forall x :: x in ts ==> Less(e, x)
    ensures Sorted([e] + ts)
  {
    assert forall i :: 0 <= i < |ts| ==> ts[i] in ts;
  }

  lemma SortedTail(ts: seq<Entry>)
    requires Sorted(ts) && ts != []
    ensures Sorted(ts[1..]) && forall x :: x in ts[1..] ==> Less(ts[0], x)
  {
  }

  lemma {:induction false} InsertSortedIs(ts: seq<Entry>, e: Entry)
    requires Sorted(ts) && e !in ts
    ensures var r := InsertSorted(ts, e);
            && Sorted(r)
            && (forall x :: x in r <==> x in ts || x == e)
            && r[0] == (if ts == [] || Less(e, ts[0]) then e else ts[0])
  {
    InsertMembers(ts, e);
    if ts != [] {
      SortedTail(ts);
      assert ts == [ts[0]] + ts[1..];
      hide Sorted;
      if Less(e, ts[0]) {
        SortedCons(e, ts);
      } else {
        InsertSortedIs(ts[1..], e);
        InsertMembers(ts[1..], e);
        SortedCons(ts[0], InsertSorted(ts[1..], e));
      }
    }
  }

  function Erase(ts: seq<Entry>, e: Entry): (r: seq<Entry>) {
    if ts == [] then [] else if ts[0] == e then ts[1..] else [ts[0]] + Erase(ts[1..], e)
  }

  lemma {:induction false} EraseIs(ts: seq<Entry>, e: Entry)
    requires Sorted(ts)
    ensures var r := Erase(ts, e);
            && Sorted(r)
            && (forall x :: x in r <==> x in ts && x != e)
            && |r| == (if e in ts then |ts| - 1 else |ts|)
            && (r != [] ==> ts[0].when <= r[0].when)
  {
    if ts != [] {
      var tail := ts[1..];
      assert ts == [ts[0]] + tail;
      assert forall x :: x in tail ==> Less(ts[0], x);
      if ts[0] != e {
        EraseIs(tail, e);
        var r := Erase(tail, e);
        assert forall i :: 0 <= i < |r| ==> r[i] in r;
      }
    }
  }

  /** `lower_bound` of the sentry `(now, UINTPTR_MAX)`: how many entries come before it. */
  function ExpiredCount(ts: seq<Entry>, now: int): (k: nat)
    ensures k <= |ts|
  {
    if ts == [] || !Less(ts[0], Entry(now, ADDRESS_MAX)) then 0 else 1 + ExpiredCount(ts[1..], now)
  }

  lemma {:induction false} ExpiredCountIs(ts: seq<Entry>, now: int)
    requires Sorted(ts) && forall i :: 0 <= i < |ts| ==> ts[i].addr < ADDRESS_MAX
    ensures var k := ExpiredCount(ts, now);
            && (forall i :: 0 <= i < k ==> ts[i].when <= now)
            && (forall i :: k <= i < |ts| ==> now < ts[i].when)
  {
    if ts != [] && Less(ts[0], Entry(now, ADDRESS_MAX)) {
      var tail := ts[1..];
      ExpiredCountIs(tail, now);
      var k := ExpiredCount(tail, now);
      assert forall i :: 0 < i < |ts| ==> ts[i] == tail[i - 1];
    }
  }

  // ---------------------------------------------------------------- the operations

  function IdOf(q: Queue, addr: Addr): (id: TimerId)
    requires addr in q.heap
  {
    TimerId(addr, q.heap[addr].sequence)
  }

  /** `ResetTimerfd` at time `clock`: never less than 100 microseconds ahead. */
  function Arm(when: int, clock: int): (a: Arming) {
    ArmedFor(clock + (if when - clock < 100 then 100 else when - clock), clock)
  }

  predicate EarliestChanges(q: Queue, addr: Addr)
    requires addr in q.heap
  {
    q.timers == [] || q.heap[addr].expiration < q.timers[0].when
  }

  function Insert(q: Queue, addr: Addr): (q': Queue)
    requires addr in q.heap
  {
    q.(timers := InsertSorted(q.timers, Entry(q.heap[addr].expiration, addr)),
       active := q.active + {IdOf(q, addr)})
  }

  function Create(q: Queue, addr: Addr, timer: Timer): (q': Queue) {
    q.(heap := q.heap[addr := timer],
       waiting := q.waiting + {addr},
       issued := q.issued + {TimerId(addr, timer.sequence)})
  }

  function AddTimerInLoop(q: Queue, addr: Addr, clock: int): (q': Queue)
    requires addr in q.heap
  {
    Insert(q, addr).(waiting := q.waiting - {addr},
                     arming := if EarliestChanges(q, addr) then Arm(q.heap[addr].expiration, clock) else q.arming)
  }

  function Delete(q: Queue, addr: Addr): (q': Queue)
    requires addr in q.heap
  {
    q.(heap := q.heap - {addr}, freed := q.freed + {IdOf(q, addr)})
  }

  predicate BatchHolds(q: Queue, addr: Addr) {
    exists e :: e in q.batch && e.addr == addr
  }

  predicate InBatch(q: Queue, id: TimerId) {
    id.addr in q.heap && IdOf(q, id.addr) == id && BatchHolds(q, id.addr)
  }

  function CancelInLoop(q: Queue, id: TimerId): (q': Queue)
    requires id in q.active ==> id.addr in q.heap && IdOf(q, id.addr) == id
  {
    if id in q.active then
      Delete(q, id.addr).(timers := Erase(q.timers, Entry(q.heap[id.addr].expiration, id.addr)),
                          active := q.active - {id})
    else if q.calling then q.(canceling := q.canceling + {id})
    else q
  }

  function Ids(q: Queue, es: seq<Entry>): (ids: set<TimerId>)
    requires forall e :: e in es ==> e.addr in q.heap
  {
    set e | e in es :: IdOf(q, e.addr)
  }

  /** `GetExpired`, and the start of the calling phase. The timerfd has fired, or has been armed
      again by an earlier callback of the same sweep. */
  function Expire(q: Queue, now: int, armedAgain: bool): (q': Queue)
    requires forall e :: e in q.timers ==> e.addr in q.heap
  {
    var k := ExpiredCount(q.timers, now);
    var expired := q.timers[..k];
    q.(timers := q.timers[k..],
       active := q.active - Ids(q, expired),
       canceling := {},
       calling := true,
       batch := expired,
       next := 0,
       now := now,
       arming := if armedAgain then q.arming else Unarmed)
  }

  function RunNext(q: Queue): (q': Queue)
    requires q.next < |q.batch| && q.batch[q.next].addr in q.heap
  {
    q.(ran := q.ran + [IdOf(q, q.batch[q.next].addr)], next := q.next + 1)
  }

  /** One turn of the loop in `Reset`, on the first timer of the batch. */
  function ResetFirst(q: Queue): (q': Queue)
    requires q.batch != [] && q.batch[0].addr in q.heap
  {
    var addr := q.batch[0].addr;
    var timer := q.heap[addr];
    var rest := q.(batch := q.batch[1..], next := 0);
    if timer.isRepeat && IdOf(q, addr) !in q.canceling then
      Insert(rest.(heap := q.heap[addr := timer.(expiration := q.now + timer.interval)]), addr)
    else Delete(rest, addr)
  }

  predicate BatchLive(q: Queue) {
    && (forall e :: e in q.batch ==> e.addr in q.heap)
    && (forall i, j :: 0 <= i < j < |q.batch| ==> q.batch[i].addr != q.batch[j].addr)
  }

  function ResetAll(q: Queue): (q': Queue)
    requires BatchLive(q)
    decreases |q.batch|
  {
    if q.batch == [] then q
    else
      ResetFirstLive(q);
      ResetAll(ResetFirst(q))
  }

  lemma ResetFirstLive(q: Queue)
    requires BatchLive(q) && q.batch != []
    ensures BatchLive(ResetFirst(q))
  {
    hide InsertSorted;
    var q' := ResetFirst(q);
    assert forall i :: 0 <= i < |q'.batch| ==> q'.batch[i] == q.batch[i + 1];
  }

  /** The end of `HandleRead`: `Reset`. */
  function Finish(q: Queue, clock: int): (q': Queue)
    requires BatchLive(q)
  {
    var r := ResetAll(q);
    r.(calling := false,
       next := 0,
       arming := if r.timers != [] && r.timers[0].when > 0 then Arm(r.timers[0].when, clock) else r.arming)
  }

  // ---------------------------------------------------------------- what every step keeps

  /** `timers_` is exactly the pairs of expiration and address of the timers in `active_timers_`. */
  predicate SetsAgree(q: Queue) {
    && Sorted(q.timers)
    && (forall e :: e in q.timers ==>
          e.addr in q.heap && q.heap[e.addr].expiration == e.when && IdOf(q, e.addr) in q.active)
    && (forall id :: id in q.active ==>
          id.addr in q.heap && IdOf(q, id.addr) == id && Entry(q.heap[id.addr].expiration, id.addr) in q.timers)
  }

  /** Every timer not yet freed is in exactly one place: waiting to be added, queued, or in the
      batch. */
  predicate Partition(q: Queue) {
    && BatchLive(q)
    && q.waiting <= q.heap.Keys
    && (forall a :: a in q.heap ==>
          && (a in q.waiting || IdOf(q, a) in q.active || BatchHolds(q, a))
          && !(a in q.waiting && IdOf(q, a) in q.active)
          && !(a in q.waiting && BatchHolds(q, a))
          && !(IdOf(q, a) in q.active && BatchHolds(q, a)))
  }

  /** Every id issued names a timer that is live, or was freed: never both. */
  predicate Ledger(q: Queue) {
    && (forall a :: a in q.heap ==> a < ADDRESS_MAX && IdOf(q, a) in q.issued && IdOf(q, a) !in q.freed)
    && (forall id :: id in q.issued ==> id in q.freed || (id.addr in q.heap && IdOf(q, id.addr) == id))
    && q.freed <= q.issued
  }

  predicate Inv(q: Queue) {
    && SetsAgree(q)
    && Partition(q)
    && Ledger(q)
    && (!q.calling ==> q.batch == [])
    && q.next <= |q.batch|
  }

  lemma CreateKeepsInv(q: Queue, addr: Addr, timer: Timer)
    requires Inv(q) && addr !in q.heap && addr < ADDRESS_MAX && TimerId(addr, timer.sequence) !in q.issued
    ensures Inv(Create(q, addr, timer))
  {
  }

  lemma SameSets(q: Queue, q': Queue)
    requires SetsAgree(q) && Partition(q) && q'.heap == q.heap && q'.timers == q.timers
    requires q'.active == q.active && q'.waiting == q.waiting && q'.batch == q.batch
    ensures SetsAgree(q') && Partition(q')
  {
    assert forall a :: BatchHolds(q', a) <==> BatchHolds(q, a);
  }

  lemma SameLedger(q: Queue, q': Queue)
    requires Ledger(q) && q'.heap == q.heap && q'.issued == q.issued && q'.freed == q.freed
    ensures Ledger(q')
  {
  }

  /** Inserting a timer that is in neither set keeps the sets in agreement, and the earliest
      expiration is the one `Insert` reports. */
  lemma InsertAgrees(q: Queue, addr: Addr, q': Queue)
    requires SetsAgree(q) && addr in q.heap && IdOf(q, addr) !in q.active
    requires var r := Insert(q, addr); q'.heap == r.heap && q'.timers == r.timers && q'.active == r.active
    ensures SetsAgree(q') && q'.timers != []
    ensures q'.timers[0].when == if EarliestChanges(q, addr) then q.heap[addr].expiration else q.timers[0].when
  {
    var e := Entry(q.heap[addr].expiration, addr);
    assert e !in q.timers;
    InsertSortedIs(q.timers, e);
  }

  lemma AddPartitions(q: Queue, addr: Addr, clock: int)
    requires Partition(q) && addr in q.waiting
    ensures addr in q.heap && IdOf(q, addr) !in q.active && Partition(AddTimerInLoop(q, addr, clock))
  {
    hide InsertSorted;
  }

  lemma AddKeepsInv(q: Queue, addr: Addr, clock: int)
    requires Inv(q) && addr in q.waiting
    ensures Inv(AddTimerInLoop(q, addr, clock))
  {
    hide InsertSorted, SetsAgree, Partition, Ledger;
    AddPartitions(q, addr, clock);
    var q' := AddTimerInLoop(q, addr, clock);
    InsertAgrees(q, addr, q');
    SameLedger(q, q');
  }

  // -- canceling a queued timer

  lemma CancelAgrees(q: Queue, id: TimerId)
    requires SetsAgree(q) && id in q.active
    ensures SetsAgree(CancelInLoop(q, id))
  {
    var e := Entry(q.heap[id.addr].expiration, id.addr);
    EraseIs(q.timers, e);
    assert forall x :: x in q.timers && x != e ==> x.addr != id.addr;
  }

  lemma CancelPartitions(q: Queue, id: TimerId)
    requires SetsAgree(q) && Partition(q) && id in q.active
    ensures Partition(CancelInLoop(q, id)) && !BatchHolds(q, id.addr)
  {
    hide Erase, Sorted;
  }

  lemma CancelLedger(q: Queue, id: TimerId)
    requires SetsAgree(q) && Ledger(q) && id in q.active
    ensures Ledger(CancelInLoop(q, id)) && id in q.issued
  {
    hide Erase, Sorted;
  }

  lemma CancelKeepsInv(q: Queue, id: TimerId)
    requires Inv(q)
    ensures Inv(CancelInLoop(q, id))
  {
    if id in q.active {
      hide Partition, Ledger, Sorted, Erase;
      CancelAgrees(q, id);
      CancelPartitions(q, id);
      CancelLedger(q, id);
    }
  }

  // -- taking a batch

  lemma DistinctAddresses(q: Queue)
    requires SetsAgree(q)
    ensures forall i, j :: 0 <= i < j < |q.timers| ==> q.timers[i].addr != q.timers[j].addr
  {
    forall i, j | 0 <= i < j < |q.timers| ensures q.timers[i].addr != q.timers[j].addr {
      assert Less(q.timers[i], q.timers[j]);
      assert q.timers[i] in q.timers && q.timers[j] in q.timers;
    }
  }

  /** `q'` is `q` with the first part of its timers, `a`, moved to the batch. */
  predicate Takes(q: Queue, a: seq<Entry>, b: seq<Entry>, q': Queue)
    requires forall e :: e in a ==> e.addr in q.heap
  {
    && q.timers == a + b && q'.timers == b && q'.batch == a
    && q'.active == q.active - Ids(q, a) && q'.heap == q.heap && q'.waiting == q.waiting
  }

  lemma TakeSplits(q: Queue, a: seq<Entry>, b: seq<Entry>)
    requires SetsAgree(q) && q.timers == a + b
    ensures Sorted(b)
    ensures forall e :: e in a || e in b ==> e in q.timers
    ensures forall i, j :: 0 <= i < j < |a| ==> a[i].addr != a[j].addr
    ensures forall e, f :: e in a && f in b ==> e.addr != f.addr
  {
    DistinctAddresses(q);
    assert forall i :: 0 <= i < |b| ==> b[i] == q.timers[|a| + i];
    assert forall i :: 0 <= i < |a| ==> a[i] == q.timers[i];
  }

  lemma TakeAgrees(q: Queue, a: seq<Entry>, b: seq<Entry>, q': Queue)
    requires SetsAgree(q) && q.timers == a + b && (forall e :: e in a ==> e.addr in q.heap) && Takes(q, a, b, q')
    ensures SetsAgree(q')
  {
    hide Sorted;
    TakeSplits(q, a, b);
    forall id | id in q'.active ensures Entry(q.heap[id.addr].expiration, id.addr) in b {
      var e := Entry(q.heap[id.addr].expiration, id.addr);
      assert e in a + b;
      assert e !in a;
    }
  }

  lemma TakePartitions(q: Queue, a: seq<Entry>, b: seq<Entry>, q': Queue)
    requires SetsAgree(q) && Partition(q) && q.batch == []
    requires q.timers == a + b && (forall e :: e in a ==> e.addr in q.heap) && Takes(q, a, b, q')
    ensures Partition(q')
  {
    TakeSplits(q, a, b);
    hide Sorted;
    forall x | x in q.heap ensures BatchHolds(q', x) <==> IdOf(q, x) in q.active && IdOf(q, x) !in q'.active {
      if BatchHolds(q', x) {
        var e :| e in a && e.addr == x;
        assert e in q.timers && IdOf(q, e.addr) in Ids(q, a);
      }
    }
  }

  lemma ExpireTakes(q: Queue, now: int, armedAgain: bool)
    requires SetsAgree(q)
    ensures var q' := Expire(q, now, armedAgain);
            (forall e :: e in q'.batch ==> e.addr in q.heap) && Takes(q, q'.batch, q'.timers, q')
  {
    hide Sorted;
    var k := ExpiredCount(q.timers, now);
    assert q.timers == q.timers[..k] + q.timers[k..];
    assert forall e :: e in q.timers[..k] ==> e in q.timers;
  }

  lemma ExpireKeepsInv(q: Queue, now: int, armedAgain: bool)
    requires Inv(q) && !q.calling
    ensures Inv(Expire(q, now, armedAgain))
  {
    ExpireTakes(q, now, armedAgain);
    hide Partition, Ledger, Takes;
    var q' := Expire(q, now, armedAgain);
    TakeAgrees(q, q'.batch, q'.timers, q');
    TakePartitions(q, q'.batch, q'.timers, q');
    SameLedger(q, q');
  }

  /** The batch is exactly the timers due by `now`, in order of expiration. */
  lemma ExpireTakesDueTimers(q: Queue, now: int, armedAgain: bool)
    requires Inv(q)
    ensures var q' := Expire(q, now, armedAgain);
            && q'.batch + q'.timers == q.timers
            && (forall e :: e in q'.batch ==> e.when <= now)
            && (forall e :: e in q'.timers ==> now < e.when)
            && (forall i, j :: 0 <= i < j < |q'.batch| ==> q'.batch[i].when <= q'.batch[j].when)
  {
    hide Partition;
    assert forall e :: e in q.timers ==> e.addr < ADDRESS_MAX;
    hide SetsAgree, Ledger;
    assert Sorted(q.timers) by { TimersAreSorted(q); }
    hide Sorted;
    DueFirst(q.timers, now);
  }

  lemma TimersAreSorted(q: Queue)
    requires SetsAgree(q)
    ensures Sorted(q.timers)
  {
  }

  /** The due entries of an ordered set come first, in order. */
  lemma DueFirst(ts: seq<Entry>, now: int)
    requires Sorted(ts) && forall e :: e in ts ==> e.addr < ADDRESS_MAX
    ensures var k := ExpiredCount(ts, now);
            && ts[..k] + ts[k..] == ts
            && (forall e :: e in ts[..k] ==> e.when <= now)
            && (forall e :: e in ts[k..] ==> now < e.when)
            && (forall i, j :: 0 <= i < j < |ts[..k]| ==> ts[..k][i].when <= ts[..k][j].when)
  {
    assert forall i :: 0 <= i < |ts| ==> ts[i] in ts;
    ExpiredCountIs(ts, now);
    hide ExpiredCount;
    var k := ExpiredCount(ts, now);
    SplitByTime(ts, k, now);
    PrefixInOrder(ts, k);
  }

  lemma SplitByTime(ts: seq<Entry>, k: nat, now: int)
    requires k <= |ts|
    requires forall i :: 0 <= i < k ==> ts[i].when <= now
    requires forall i :: k <= i < |ts| ==> now < ts[i].when
    ensures ts[..k] + ts[k..] == ts
    ensures forall e :: e in ts[..k] ==> e.when <= now
    ensures forall e :: e in ts[k..] ==> now < e.when
  {
  }

  lemma PrefixInOrder(ts: seq<Entry>, k: nat)
    requires Sorted(ts) && k <= |ts|
    ensures forall i, j :: 0 <= i < j < |ts[..k]| ==> ts[..k][i].when <= ts[..k][j].when
  {
    forall i, j | 0 <= i < j < |ts[..k]|
      ensures ts[..k][i].when <= ts[..k][j].when
    {
      assert Less(ts[i], ts[j]);
    }
  }

  // -- running and resetting it

  lemma RunNextKeepsInv(q: Queue)
    requires Inv(q) && q.next < |q.batch|
    ensures q.batch[q.next].addr in q.heap
    ensures IdOf(q, q.batch[q.next].addr) !in q.freed
    ensures Inv(RunNext(q))
  {
    assert q.batch[q.next] in q.batch;
  }

  /** What `Reset` leaves alone. */
  predicate SameOtherwise(q: Queue, q': Queue) {
    && q'.heap.Keys <= q.heap.Keys && q'.waiting == q.waiting && q'.canceling == q.canceling
    && q'.now == q.now && q'.issued == q.issued && q'.ran == q.ran
    && q'.arming == q.arming && q.freed <= q'.freed
  }

  lemma {:induction false} ResetAllSame(q: Queue)
    requires BatchLive(q)
    ensures SameOtherwise(q, ResetAll(q))
    decreases |q.batch|
  {
    if q.batch != [] {
      hide InsertSorted;
      ResetFirstLive(q);
      ResetAllSame(ResetFirst(q));
    }
  }

  lemma ResetAgrees(q: Queue)
    requires SetsAgree(q) && Partition(q) && q.batch != []
    ensures BatchLive(q) && SetsAgree(ResetFirst(q)) && IdOf(q, q.batch[0].addr) !in q.active
  {
    var addr := q.batch[0].addr;
    assert q.batch[0] in q.batch && BatchHolds(q, addr);
    assert forall e :: e in q.timers ==> e.addr != addr;
    var timer := q.heap[addr];
    if timer.isRepeat && IdOf(q, addr) !in q.canceling {
      var again := timer.(expiration := q.now + timer.interval);
      var r := q.(batch := q.batch[1..], next := 0, heap := q.heap[addr := again]);
      assert SetsAgree(r);
      InsertAgrees(r, addr, ResetFirst(q));
    }
  }

  lemma BatchTail(q: Queue, a: Addr)
    requires BatchLive(q) && q.batch != []
    ensures BatchHolds(q.(batch := q.batch[1..]), a) <==> BatchHolds(q, a) && a != q.batch[0].addr
  {
    var tail := q.(batch := q.batch[1..]);
    assert q.batch == [q.batch[0]] + tail.batch;
  }

  lemma ResetBatch(q: Queue, a: Addr)
    requires BatchLive(q) && q.batch != []
    ensures BatchHolds(ResetFirst(q), a) <==> BatchHolds(q, a) && a != q.batch[0].addr
  {
    hide InsertSorted;
    BatchTail(q, a);
    assert BatchHolds(ResetFirst(q), a) <==> BatchHolds(q.(batch := q.batch[1..]), a);
  }

  lemma ResetPartitions(q: Queue)
    requires SetsAgree(q) && Partition(q) && q.batch != []
    ensures Partition(ResetFirst(q))
  {
    hide InsertSorted, Sorted;
    assert q.batch[0] in q.batch;
    assert BatchHolds(q, q.batch[0].addr);
    ResetFirstLive(q);
    forall a
      ensures BatchHolds(ResetFirst(q), a) <==> BatchHolds(q, a) && a != q.batch[0].addr
    {
      ResetBatch(q, a);
    }
    hide BatchHolds, BatchLive;
  }

  lemma ResetLedger(q: Queue)
    requires Ledger(q) && BatchLive(q) && q.batch != []
    ensures Ledger(ResetFirst(q))
    ensures q.freed <= ResetFirst(q).freed
  {
    hide InsertSorted;
  }

  lemma ResetKeepsInv(q: Queue)
    requires Inv(q) && q.calling && q.batch != []
    ensures Inv(ResetFirst(q)) && ResetFirst(q).calling
    ensures |ResetFirst(q).batch| == |q.batch| - 1
  {
    hide InsertSorted, SetsAgree, Partition, Ledger;
    ResetAgrees(q);
    ResetPartitions(q);
    ResetLedger(q);
  }

  lemma {:induction false} ResetAllKeepsInv(q: Queue)
    requires Inv(q) && q.calling
    ensures Inv(ResetAll(q)) && ResetAll(q).batch == [] && q.freed <= ResetAll(q).freed
    decreases |q.batch|
  {
    if q.batch != [] {
      hide InsertSorted, SetsAgree, Partition, Ledger;
      ResetKeepsInv(q);
      ResetLedger(q);
      ResetAllKeepsInv(ResetFirst(q));
    }
  }

  lemma FinishKeepsInv(q: Queue, clock: int)
    requires Inv(q) && q.calling
    ensures Inv(Finish(q, clock))
  {
    InvFacts(q);
    hide SetsAgree, Partition, Ledger, ResetAll;
    ResetAllKeepsInv(q);
    var r, q' := ResetAll(q), Finish(q, clock);
    SameSets(r, q');
    SameLedger(r, q');
  }

  // ---------------------------------------------------------------- runs

  datatype Step =
    | Creating(addr: Addr, timer: Timer)
    | Adding(addr: Addr, clock: int)
    | Canceling(id: TimerId)
    | Expiring(now: int, armedAgain: bool)
    | Running
    | Finishing(clock: int)

  /** A new timer has an address that is not in use and, as `TimerRuns` shows, an id that was
      never issued; the rest is the order in which `HandleRead` proceeds. */
  predicate Enabled(q: Queue, step: Step) {
    match step
    case Creating(addr, timer) =>
      addr !in q.heap && addr < ADDRESS_MAX && TimerId(addr, timer.sequence) !in q.issued
    case Adding(addr, clock) => addr in q.waiting
    case Canceling(id) => true
    case Expiring(now, again) => !q.calling
    case Running => q.calling && q.next < |q.batch|
    case Finishing(clock) => q.calling && q.next == |q.batch|
  }

  function Apply(q: Queue, step: Step): (q': Queue)
    requires Inv(q)
    ensures Inv(q')
  {
    hide SetsAgree, Partition, Ledger;
    if !Enabled(q, step) then q
    else
      match step
      case Creating(addr, timer) => CreateKeepsInv(q, addr, timer); Create(q, addr, timer)
      case Adding(addr, clock) => AddKeepsInv(q, addr, clock); InvFacts(q); AddTimerInLoop(q, addr, clock)
      case Canceling(id) => CancelKeepsInv(q, id); InvFacts(q); CancelInLoop(q, id)
      case Expiring(now, again) => ExpireKeepsInv(q, now, again); InvFacts(q); Expire(q, now, again)
      case Running => RunNextKeepsInv(q); RunNext(q)
      case Finishing(clock) => FinishKeepsInv(q, clock); InvFacts(q); Finish(q, clock)
  }

  lemma InvFacts(q: Queue)
    requires Inv(q)
    ensures q.waiting <= q.heap.Keys && BatchLive(q)
    ensures forall e :: e in q.timers ==> e.addr in q.heap
    ensures forall id :: id in q.active ==> id.addr in q.heap && IdOf(q, id.addr) == id
  {
  }

  function Run(q: Queue, steps: seq<Step>): (q': Queue)
    requires Inv(q)
    ensures Inv(q')
    decreases |steps|
  {
    if steps == [] then q else Run(Apply(q, steps[0]), steps[1..])
  }

  const Empty := Queue(map[], {}, [], {}, {}, false, [], 0, 0, Unarmed, {}, {}, [])

  lemma EmptyInv()
    ensures Inv(Empty)
  {
  }

  lemma {:induction false} IdsSize(q: Queue, es: seq<Entry>)
    requires forall e :: e in es ==> e.addr in q.heap
    requires forall i, j :: 0 <= i < j < |es| ==> es[i].addr != es[j].addr
    ensures |Ids(q, es)| == |es|
  {
    if es != [] {
      var tail := es[1..];
      assert es == [es[0]] + tail;
      IdsSize(q, tail);
      assert Ids(q, es) == Ids(q, tail) + {IdOf(q, es[0].addr)};
      assert forall e :: e in tail ==> e.addr != es[0].addr;
      assert IdOf(q, es[0].addr) !in Ids(q, tail);
    }
  }

  /** The two sets have the same size, as the code asserts throughout. */
  lemma SizesAgree(q: Queue)
    requires SetsAgree(q)
    ensures |q.timers| == |q.active|
  {
    DistinctAddresses(q);
    IdsSize(q, q.timers);
    assert Ids(q, q.timers) == q.active;
  }

  /** In every reachable state, inside callbacks as well as between events: the two sets agree, every
      timer that was ever issued and not freed is in exactly one place, and every other one is freed. */
  lemma ReachableStatesAgree(steps: seq<Step>)
    ensures Inv(Empty)
    ensures var q := Run(Empty, steps);
            SetsAgree(q) && |q.timers| == |q.active| && Partition(q) && Ledger(q)
  {
    EmptyInv();
    SizesAgree(Run(Empty, steps));
  }

  /** No step runs, restarts or frees a timer that has been freed. */
  lemma NoUseAfterFree(q: Queue, step: Step)
    requires Inv(q)
    ensures var q' := Apply(q, step);
            && q.freed <= q'.freed
            && (forall id :: id in q'.freed && id !in q.freed ==> id.addr in q.heap && IdOf(q, id.addr) == id)
            && (forall i :: |q.ran| <= i < |q'.ran| ==> q'.ran[i] !in q.freed)
            && (forall a :: a in q'.heap ==> IdOf(q', a) !in q.freed)
  {
    var q' := Apply(q, step);
    FreedOnlyGrows(q, step);
    RanOnlyLive(q, step);
    hide Apply, SetsAgree, Partition;
    forall id | id in q'.freed && id !in q.freed ensures id.addr in q.heap && IdOf(q, id.addr) == id {
      assert id in q'.issued;
      IssuedOnlyByCreating(q, step);
    }
  }

  lemma FreedOnlyGrows(q: Queue, step: Step)
    requires Inv(q)
    ensures q.freed <= Apply(q, step).freed
  {
    if Enabled(q, step) && step.Finishing? {
      InvFacts(q);
      ResetAllSame(q);
    }
  }

  lemma RanOnlyLive(q: Queue, step: Step)
    requires Inv(q)
    ensures forall i :: |q.ran| <= i < |Apply(q, step).ran| ==> Apply(q, step).ran[i] !in q.freed
  {
    if Enabled(q, step) {
      hide SetsAgree, Partition;
      InvFacts(q);
      match step
      case Running => RunNextKeepsInv(q);
      case Finishing(clock) => ResetAllSame(q);
      case _ =>
    }
  }

  lemma IssuedOnlyByCreating(q: Queue, step: Step)
    requires Inv(q)
    ensures step.Creating? ==> Apply(q, step).freed == q.freed
    ensures !step.Creating? ==> Apply(q, step).issued == q.issued
  {
    if step.Finishing? && Enabled(q, step) {
      InvFacts(q);
      ResetAllSame(q);
    }
  }

  // ---------------------------------------------------------------- canceling

  lemma {:induction false} RunAppend(q: Queue, a: seq<Step>, b: seq<Step>)
    requires Inv(q)
    ensures Run(q, a + b) == Run(Run(q, a), b)
    decreases |a|
  {
    hide Apply, Inv;
    if a == [] {
      assert a + b == b;
    } else {
      RunAppend(Apply(q, a[0]), a[1..], b);
      assert (a + b)[1..] == a[1..] + b;
    }
  }

  lemma RunOne(q: Queue, a: seq<Step>, step: Step)
    requires Inv(q)
    ensures Run(q, a + [step]) == Apply(Run(q, a), step)
  {
    hide Apply, Inv;
    RunAppend(q, a, [step]);
    assert Run(Run(q, a), [step]) == Run(Apply(Run(q, a), step), []);
  }

  /** The callbacks leave the batch, and the timers in it, alone. */
  predicate KeepsBatch(q: Queue, q': Queue) {
    Follows(q, q') && q'.next == q.next && q'.calling == q.calling && q'.ran == q.ran
  }

  lemma CallbackKeepsBatch(q: Queue, step: Step)
    requires Inv(q) && (step.Creating? || step.Adding? || step.Canceling?)
    ensures KeepsBatch(q, Apply(q, step))
  {
    hide SetsAgree, Ledger, InsertSorted, Erase;
    InvFacts(q);
    if step.Canceling? && step.id in q.active {
      assert !BatchHolds(q, step.id.addr);
    }
  }

  /** A later state of the same batch: the timers in it are still there. */
  predicate Follows(q: Queue, q': Queue) {
    && q'.batch == q.batch && q'.now == q.now
    && (forall e :: e in q.batch ==> e.addr in q.heap && e.addr in q'.heap && IdOf(q', e.addr) == IdOf(q, e.addr))
  }

  /** Canceling a queued timer takes it out of both sets and frees it, and nothing else happens; canceling
      any other is remembered until the batch is over, if one is being run. */
  lemma CancelIs(q: Queue, id: TimerId)
    requires Inv(q)
    ensures var q' := Apply(q, Canceling(id));
            if id in q.active then
              && q'.heap == q.heap - {id.addr} && q'.active == q.active - {id} && q'.freed == q.freed + {id}
              && (forall e :: e in q'.timers <==> e in q.timers && e.addr != id.addr)
              && q' == q.(heap := q'.heap, active := q'.active, freed := q'.freed, timers := q'.timers)
            else q' == q.(canceling := if q.calling then q.canceling + {id} else q.canceling)
  {
    hide Partition, Ledger;
    if id in q.active {
      var e := Entry(q.heap[id.addr].expiration, id.addr);
      EraseIs(q.timers, e);
      assert forall x :: x in q.timers && x != e ==> x.addr != id.addr;
    }
  }

  /** The timer is freed, or will be when its batch is over. */
  predicate Stopping(q: Queue, id: TimerId) {
    id in q.freed || (InBatch(q, id) && id in q.canceling)
  }

  lemma CancelStops(q: Queue, id: TimerId)
    requires Inv(q) && (id in q.active || (InBatch(q, id) && q.calling))
    ensures Stopping(Apply(q, Canceling(id)), id)
    ensures id in q.active ==> id in Apply(q, Canceling(id)).freed
  {
    hide SetsAgree, Ledger;
    InvFacts(q);
  }

  /** A timer of the batch stays in it until the batch is over. */
  lemma StepKeepsStopping(q: Queue, step: Step, id: TimerId)
    requires Inv(q) && Stopping(q, id)
    ensures Stopping(Apply(q, step), id)
  {
    FreedOnlyGrows(q, step);
    if id !in q.freed && Enabled(q, step) {
      InvFacts(q);
      match step
      case Finishing(clock) => ResetFrees(q, id);
      case Expiring(now, again) =>
      case Running =>
      case _ => CallbackKeepsBatch(q, step);
    }
  }

  lemma {:induction false} ResetFrees(q: Queue, id: TimerId)
    requires BatchLive(q) && InBatch(q, id) && id in q.canceling
    ensures id in ResetAll(q).freed
    decreases |q.batch|
  {
    hide InsertSorted;
    ResetFirstLive(q);
    var q1 := ResetFirst(q);
    if q.batch[0].addr == id.addr {
      ResetAllSame(q1);
    } else {
      BatchTail(q, id.addr);
      assert BatchHolds(q1, id.addr);
      ResetFrees(q1, id);
    }
  }

  lemma {:induction false} RunKeepsStopping(q: Queue, steps: seq<Step>, id: TimerId)
    requires Inv(q) && Stopping(q, id)
    ensures Stopping(Run(q, steps), id)
    ensures id in q.freed ==> id in Run(q, steps).freed
    decreases |steps|
  {
    hide Apply, Inv, Stopping;
    if steps != [] {
      StepKeepsStopping(q, steps[0], id);
      FreedOnlyGrows(q, steps[0]);
      RunKeepsStopping(Apply(q, steps[0]), steps[1..], id);
    }
  }

  lemma StepNotRun(q: Queue, step: Step, id: TimerId)
    requires Inv(q) && id in q.freed
    ensures var q' := Apply(q, step);
            && id in q'.freed && |q.ran| <= |q'.ran| && q'.ran[..|q.ran|] == q.ran
            && (forall i :: |q.ran| <= i < |q'.ran| ==> q'.ran[i] != id)
  {
    FreedOnlyGrows(q, step);
    RanOnlyLive(q, step);
    RanOnlyGrows(q, step);
    hide Apply, Inv;
  }

  lemma RanOnlyGrows(q: Queue, step: Step)
    requires Inv(q)
    ensures |q.ran| <= |Apply(q, step).ran| && Apply(q, step).ran[..|q.ran|] == q.ran
  {
    hide SetsAgree, Partition, Ledger;
    if step.Finishing? && Enabled(q, step) {
      InvFacts(q);
      ResetAllSame(q);
    }
  }

  /** A freed timer is never run. */
  lemma {:induction false} FreedNotRun(q: Queue, steps: seq<Step>, id: TimerId)
    requires Inv(q) && id in q.freed
    ensures var q' := Run(q, steps);
            && |q.ran| <= |q'.ran| && q'.ran[..|q.ran|] == q.ran
            && (forall i :: |q.ran| <= i < |q'.ran| ==> q'.ran[i] != id)
    decreases |steps|
  {
    hide Apply, Inv;
    if steps != [] {
      StepNotRun(q, steps[0], id);
      var q1 := Apply(q, steps[0]);
      FreedNotRun(q1, steps[1..], id);
      var q' := Run(q, steps);
      assert q'.ran[..|q.ran|] == q'.ran[..|q1.ran|][..|q.ran|];
      assert forall i :: |q.ran| <= i < |q1.ran| ==> q'.ran[i] == q'.ran[..|q1.ran|][i];
    }
  }

  /** In every run: a timer canceled while it is queued never runs again, and one canceled while the batch it
      is in is run, by its own callback or another's, never runs again once that batch is over. */
  lemma CanceledTimersStop(before: seq<Step>, id: TimerId, after: seq<Step>, more: seq<Step>)
    ensures Inv(Empty)
    ensures var q := Run(Empty, before);
            var m := Run(Empty, before + [Canceling(id)] + after);
            var end := Run(Empty, before + [Canceling(id)] + after + more);
            && (id in q.active ==> forall i :: |q.ran| <= i < |m.ran| ==> m.ran[i] != id)
            && (InBatch(q, id) && !m.calling ==> forall i :: |m.ran| <= i < |end.ran| ==> end.ran[i] != id)
  {
    EmptyInv();
    hide Inv, Apply, Stopping;
    var q := Run(Empty, before);
    RunOne(Empty, before, Canceling(id));
    RunAppend(Empty, before + [Canceling(id)], after);
    RunAppend(Empty, before + [Canceling(id)] + after, more);
    if id in q.active {
      CancelStops(q, id);
      CancelRan(q, id);
      FreedNotRun(Apply(q, Canceling(id)), after, id);
    }
    if InBatch(q, id) {
      InBatchCalling(q, id);
      CancelStops(q, id);
      RunKeepsStopping(Apply(q, Canceling(id)), after, id);
      var m := Run(Empty, before + [Canceling(id)] + after);
      if !m.calling {
        NoBatchFreed(m, id);
        FreedNotRun(m, more, id);
      }
    }
  }

  lemma CancelRan(q: Queue, id: TimerId)
    requires Inv(q)
    ensures Apply(q, Canceling(id)).ran == q.ran
  {
    hide SetsAgree, Partition, Ledger;
  }

  lemma InBatchCalling(q: Queue, id: TimerId)
    requires Inv(q) && InBatch(q, id)
    ensures q.calling
  {
    hide SetsAgree, Partition, Ledger;
  }

  lemma NoBatchFreed(q: Queue, id: TimerId)
    requires Inv(q) && Stopping(q, id) && !q.calling
    ensures id in q.freed
  {
    hide SetsAgree, Partition, Ledger;
  }

  // ---------------------------------------------------------------- resetting

  /** What becomes of the timer at `a` when a batch is over: in the batch, it is restarted from the time of the
      batch if it repeats and was not canceled meanwhile, and freed if not; out of it, it is left alone. */
  predicate ResetAt(q: Queue, q': Queue, a: Addr)
    requires a in q.heap
  {
    var timer, id := q.heap[a], IdOf(q, a);
    if !BatchHolds(q, a) then
      && a in q'.heap && q'.heap[a] == timer
      && (id in q'.active <==> id in q.active) && (id in q'.freed <==> id in q.freed)
    else if timer.isRepeat && id !in q.canceling then
      && a in q'.heap && q'.heap[a] == timer.(expiration := q.now + timer.interval)
      && id in q'.active && (id in q'.freed <==> id in q.freed)
    else a !in q'.heap && id in q'.freed
  }

  lemma ResetFirstAt(q: Queue, a: Addr)
    requires BatchLive(q) && q.batch != [] && a in q.heap
    ensures var q1 := ResetFirst(q);
            && SameOtherwise(q, q1)
            && (BatchHolds(q1, a) <==> BatchHolds(q, a) && a != q.batch[0].addr)
            && (a == q.batch[0].addr ==> ResetAt(q, q1, a) && BatchHolds(q, a))
            && (a != q.batch[0].addr ==>
                  && a in q1.heap && q1.heap[a] == q.heap[a]
                  && (IdOf(q, a) in q1.active <==> IdOf(q, a) in q.active)
                  && (IdOf(q, a) in q1.freed <==> IdOf(q, a) in q.freed))
  {
    hide InsertSorted;
    var q1 := ResetFirst(q);
    BatchTail(q, a);
    assert BatchHolds(q1, a) <==> BatchHolds(q.(batch := q.batch[1..]), a);
    assert q.batch[0] in q.batch;
  }

  lemma {:induction false} ResetAllAt(q: Queue, a: Addr)
    requires BatchLive(q) && a in q.heap
    ensures ResetAt(q, ResetAll(q), a)
    decreases |q.batch|
  {
    if q.batch != [] {
      ResetFirstLive(q);
      ResetFirstAt(q, a);
      var q1 := ResetFirst(q);
      hide InsertSorted, ResetFirst, BatchLive;
      if a in q1.heap {
        ResetAllAt(q1, a);
      } else {
        ResetAllGone(q1, a);
        ResetAllSame(q1);
      }
    }
  }

  lemma {:induction false} ResetAllGone(q: Queue, a: Addr)
    requires BatchLive(q) && a !in q.heap
    ensures a !in ResetAll(q).heap
    decreases |q.batch|
  {
    if q.batch != [] {
      hide InsertSorted;
      ResetFirstLive(q);
      ResetAllGone(ResetFirst(q), a);
    }
  }

  /** The end of a batch, in any state of a run: every timer of the batch is restarted or freed, as its
      flags ask for, and no other timer is touched. With the sets in agreement, so much for `timers` too. */
  lemma FinishIs(q: Queue, clock: int)
    requires Inv(q) && q.calling
    ensures BatchLive(q)
    ensures var q' := Finish(q, clock);
            && (forall a :: a in q.heap ==> ResetAt(q, q', a))
            && SameOtherwise(q, q'.(arming := q.arming)) && !q'.calling && q'.batch == [] && q'.next == 0
            && SetsAgree(q')
  {
    InvFacts(q);
    FinishKeepsInv(q, clock);
    hide SetsAgree, Partition, Ledger, ResetAll, BatchLive;
    var r, q' := ResetAll(q), Finish(q, clock);
    forall a | a in q.heap
      ensures ResetAt(q, q', a)
    {
      ResetAllAt(q, a);
    }
    ResetAllSame(q);
  }

  // ---------------------------------------------------------------- what the queue means

  /** Where a timer is: created but not added, queued, or in the batch, canceled meanwhile or not. */
  datatype Place = Unadded | Queued | Due(canceled: bool)

  datatype Plan = Plan(timer: Timer, place: Place)

  /** The queue without its sets: the timers with their places, and how many of the batch are left to run. */
  datatype Agenda = Agenda(
    plans: map<Addr, Plan>,
    issued: set<TimerId>,
    calling: bool,
    now: int,
    left: nat)

  function DueBy(plans: map<Addr, Plan>, now: int): (due: set<Addr>) {
    set a | a in plans && plans[a].place.Queued? && plans[a].timer.expiration <= now
  }

  function Canceled(plans: map<Addr, Plan>, id: TimerId): (plans': map<Addr, Plan>) {
    if id.addr !in plans || plans[id.addr].timer.sequence != id.sequence then plans
    else
      match plans[id.addr].place
      case Unadded => plans
      case Queued => plans - {id.addr}
      case Due(_) => plans[id.addr := plans[id.addr].(place := Due(true))]
  }

  function Taken(plans: map<Addr, Plan>, now: int): (plans': map<Addr, Plan>) {
    map a | a in plans :: if a in DueBy(plans, now) then plans[a].(place := Due(false)) else plans[a]
  }

  /** A timer of a batch that is over and comes back. */
  predicate Returns(p: Plan) {
    p.place.Due? && p.timer.isRepeat && !p.place.canceled
  }

  function Returned(plans: map<Addr, Plan>, now: int): (plans': map<Addr, Plan>) {
    map a | a in plans && (plans[a].place.Due? ==> Returns(plans[a])) ::
      if plans[a].place.Due? then Plan(plans[a].timer.(expiration := now + plans[a].timer.interval), Queued)
      else plans[a]
  }

  function Turn(g: Agenda, step: Step): (g': Agenda) {
    match step
    case Creating(addr, timer) =>
      var id := TimerId(addr, timer.sequence);
      if addr in g.plans || addr >= ADDRESS_MAX || id in g.issued then g
      else g.(plans := g.plans[addr := Plan(timer, Unadded)], issued := g.issued + {id})
    case Adding(addr, _) =>
      if addr in g.plans && g.plans[addr].place.Unadded?
      then g.(plans := g.plans[addr := g.plans[addr].(place := Queued)])
      else g
    case Canceling(id) => g.(plans := Canceled(g.plans, id))
    case Expiring(now, _) =>
      if g.calling then g
      else Agenda(Taken(g.plans, now), g.issued, true, now, |DueBy(g.plans, now)|)
    case Running => if g.left > 0 then g.(left := g.left - 1) else g
    case Finishing(_) =>
      if !g.calling || g.left > 0 then g else g.(plans := Returned(g.plans, g.now), calling := false)
  }

  function Turns(g: Agenda, steps: seq<Step>): (g': Agenda)
    decreases |steps|
  {
    if steps == [] then g else Turns(Turn(g, steps[0]), steps[1..])
  }

  function PlaceOf(q: Queue, a: Addr): (p: Place)
    requires a in q.heap
  {
    if a in q.waiting then Unadded
    else if IdOf(q, a) in q.active then Queued
    else Due(IdOf(q, a) in q.canceling)
  }

  function AgendaOf(q: Queue): (g: Agenda)
    requires q.next <= |q.batch|
  {
    Agenda(map a | a in q.heap :: Plan(q.heap[a], PlaceOf(q, a)), q.issued, q.calling, q.now, |q.batch| - q.next)
  }

  lemma CreatingMeans(q: Queue, addr: Addr, timer: Timer)
    requires Inv(q) && Enabled(q, Creating(addr, timer))
    ensures AgendaOf(Create(q, addr, timer)) == Turn(AgendaOf(q), Creating(addr, timer))
  {
    hide SetsAgree;
  }

  lemma AddingMeans(q: Queue, addr: Addr, clock: int)
    requires Inv(q)
    ensures AgendaOf(Apply(q, Adding(addr, clock))) == Turn(AgendaOf(q), Adding(addr, clock))
  {
    hide SetsAgree, Ledger, InsertSorted;
  }

  /** The two maps of plans agree at an address. */
  predicate AgreeAt(m: map<Addr, Plan>, n: map<Addr, Plan>, a: Addr) {
    (a in m <==> a in n) && (a in m && a in n ==> m[a] == n[a])
  }

  lemma AgreeEverywhere(m: map<Addr, Plan>, n: map<Addr, Plan>)
    requires forall a :: AgreeAt(m, n, a)
    ensures m == n
  {
    assert forall a :: a in m ==> AgreeAt(m, n, a);
    assert forall a :: a in n ==> AgreeAt(m, n, a);
  }

  /** Canceling a queued timer, for its own address and the others. */
  lemma CancelQueuedAt(q: Queue, q': Queue, id: TimerId, a: Addr)
    requires id in q.active && id.addr in q.heap && IdOf(q, id.addr) == id && id.addr !in q.waiting
    requires q'.heap == q.heap - {id.addr} && q'.active == q.active - {id} && q'.waiting == q.waiting
    requires q'.canceling == q.canceling && q.next <= |q.batch| && q'.next <= |q'.batch|
    ensures AgreeAt(AgendaOf(q').plans, Canceled(AgendaOf(q).plans, id), a)
  {
    var plans := AgendaOf(q).plans;
    assert plans[id.addr] == Plan(q.heap[id.addr], Queued);
    assert Canceled(plans, id) == plans - {id.addr};
    hide Canceled;
    assert a in q'.heap ==> PlaceOf(q', a) == PlaceOf(q, a);
  }

  /** Canceling one that is not queued. */
  lemma CancelUnqueuedAt(q: Queue, q': Queue, id: TimerId, a: Addr)
    requires id !in q.active && q'.heap == q.heap && q'.active == q.active && q'.waiting == q.waiting
    requires q'.canceling == (if q.calling then q.canceling + {id} else q.canceling)
    requires q.next <= |q.batch| && q'.next <= |q'.batch|
    requires a in q.heap && PlaceOf(q, a).Due? ==> q.calling
    ensures AgreeAt(AgendaOf(q').plans, Canceled(AgendaOf(q).plans, id), a)
  {
    if a in q.heap {
      assert IdOf(q', a) == IdOf(q, a);
    }
  }

  lemma CancelingMeansAt(q: Queue, id: TimerId, a: Addr)
    requires Inv(q)
    ensures AgreeAt(AgendaOf(Apply(q, Canceling(id))).plans, Canceled(AgendaOf(q).plans, id), a)
  {
    CancelIs(q, id);
    InvFacts(q);
    InvBatch(q);
    QueuedNotWaiting(q, id);
    hide Apply, Inv, BatchLive, AgreeAt, AgendaOf, PlaceOf, Canceled;
    var q' := Apply(q, Canceling(id));
    if id in q.active {
      CancelQueuedAt(q, q', id, a);
    } else {
      CancelUnqueuedAt(q, q', id, a);
    }
  }

  lemma QueuedNotWaiting(q: Queue, id: TimerId)
    requires Inv(q)
    ensures id in q.active ==> id.addr !in q.waiting
  {
    hide Ledger;
  }

  lemma CancelingMeans(q: Queue, id: TimerId)
    requires Inv(q)
    ensures AgendaOf(Apply(q, Canceling(id))) == Turn(AgendaOf(q), Canceling(id))
  {
    var q' := Apply(q, Canceling(id));
    CancelIs(q, id);
    forall a
      ensures AgreeAt(AgendaOf(q').plans, Canceled(AgendaOf(q).plans, id), a)
    {
      CancelingMeansAt(q, id, a);
    }
    AgreeEverywhere(AgendaOf(q').plans, Canceled(AgendaOf(q).plans, id));
    hide Apply, Inv, Canceled, AgreeAt;
  }

  /** The timers in neither the sets nor waiting are those of the batch. */
  lemma InvBatch(q: Queue)
    requires Inv(q)
    ensures forall a :: a in q.heap ==> (PlaceOf(q, a).Due? <==> BatchHolds(q, a))
    ensures q.next <= |q.batch| && (!q.calling ==> q.batch == [])
  {
    hide SetsAgree, Ledger;
  }

  lemma FinishingMeansAt(q: Queue, q': Queue, a: Addr)
    requires Inv(q) && Inv(q') && SameOtherwise(q, q'.(arming := q.arming)) && (a in q.heap ==> ResetAt(q, q', a))
    ensures AgreeAt(AgendaOf(q').plans, Returned(AgendaOf(q).plans, q.now), a)
  {
    InvFacts(q);
    InvBatch(q);
    hide Inv, BatchLive, BatchHolds;
  }

  lemma FinishingMeans(q: Queue, clock: int)
    requires Inv(q) && Enabled(q, Finishing(clock))
    ensures AgendaOf(Apply(q, Finishing(clock))) == Turn(AgendaOf(q), Finishing(clock))
  {
    var q' := Apply(q, Finishing(clock));
    FinishIs(q, clock);
    InvFacts(q);
    assert q' == Finish(q, clock);
    hide Apply, Inv, Finish, BatchLive, ResetAt;
    forall a
      ensures AgreeAt(AgendaOf(q').plans, Returned(AgendaOf(q).plans, q.now), a)
    {
      FinishingMeansAt(q, q', a);
    }
    AgreeEverywhere(AgendaOf(q').plans, Returned(AgendaOf(q).plans, q.now));
    hide AgreeAt, Returned;
  }

  lemma ExpiringMeansAt(q: Queue, now: int, again: bool, a: Addr)
    requires Inv(q) && !q.calling
    ensures AgreeAt(AgendaOf(Apply(q, Expiring(now, again))).plans, Taken(AgendaOf(q).plans, now), a)
    ensures a in DueBy(AgendaOf(q).plans, now) <==> BatchHolds(Apply(q, Expiring(now, again)), a)
  {
    var q' := Apply(q, Expiring(now, again));
    InvBatch(q);
    InvBatch(q');
    ExpireTakesDueTimers(q, now, again);
    ExpireEntry(q, now, again, a);
    hide Apply, Inv, BatchLive;
  }

  lemma ExpireEntry(q: Queue, now: int, again: bool, a: Addr)
    requires Inv(q) && !q.calling
    ensures var q' := Apply(q, Expiring(now, again));
            && q'.heap == q.heap && q'.waiting == q.waiting && q'.canceling == {}
            && q'.issued == q.issued && q'.calling && q'.now == now && q'.next == 0
            && (a in q.heap ==> (BatchHolds(q', a) <==> IdOf(q, a) in q.active && q.heap[a].expiration <= now))
            && (BatchHolds(q', a) ==> a in q.heap)
  {
    InvFacts(q);
    ExpireTakesDueTimers(q, now, again);
    hide Partition, Ledger;
    var q' := Apply(q, Expiring(now, again));
    assert forall e :: e in q.timers <==> e in q'.batch || e in q'.timers;
    if a in q.heap && IdOf(q, a) in q.active {
      var e := Entry(q.heap[a].expiration, a);
      assert e in q.timers;
    }
  }

  lemma {:induction false} AddressesSize(es: seq<Entry>, addrs: set<Addr>)
    requires forall i, j :: 0 <= i < j < |es| ==> es[i].addr != es[j].addr
    requires forall a :: a in addrs <==> exists e :: e in es && e.addr == a
    ensures |addrs| == |es|
  {
    if es == [] {
      assert addrs == {};
    } else {
      var tail, first := es[1..], es[0];
      assert es == [first] + tail;
      assert first in es;
      forall a
        ensures a in addrs - {first.addr} <==> exists e :: e in tail && e.addr == a
      {
        assert forall e :: e in tail ==> e in es && e.addr != first.addr;
      }
      AddressesSize(tail, addrs - {first.addr});
      assert addrs == (addrs - {first.addr}) + {first.addr};
    }
  }

  lemma ExpiringMeans(q: Queue, now: int, again: bool)
    requires Inv(q) && !q.calling
    ensures AgendaOf(Apply(q, Expiring(now, again))) == Turn(AgendaOf(q), Expiring(now, again))
  {
    var q' := Apply(q, Expiring(now, again));
    var plans := AgendaOf(q).plans;
    ExpireEntry(q, now, again, 0);
    InvFacts(q');
    hide Apply, Inv;
    forall a
      ensures AgreeAt(AgendaOf(q').plans, Taken(plans, now), a)
      ensures a in DueBy(plans, now) <==> BatchHolds(q', a)
    {
      ExpiringMeansAt(q, now, again, a);
    }
    AgreeEverywhere(AgendaOf(q').plans, Taken(plans, now));
    hide AgreeAt, Taken, DueBy;
    AddressesSize(q'.batch, DueBy(plans, now));
  }

  lemma StepMeans(q: Queue, step: Step)
    requires Inv(q)
    ensures AgendaOf(Apply(q, step)) == Turn(AgendaOf(q), step)
  {
    InvBatch(q);
    hide SetsAgree, Partition, Ledger;
    match step
    case Creating(addr, timer) =>
      if Enabled(q, step) {
        CreatingMeans(q, addr, timer);
      }
    case Adding(addr, clock) => AddingMeans(q, addr, clock);
    case Canceling(id) => CancelingMeans(q, id);
    case Expiring(now, again) =>
      if !q.calling {
        ExpiringMeans(q, now, again);
      }
    case Running =>
      hide PlaceOf;
      assert AgendaOf(Apply(q, step)).plans == AgendaOf(q).plans;
    case Finishing(clock) =>
      if Enabled(q, step) {
        FinishingMeans(q, clock);
      }
  }

  lemma {:induction false} RunMeans(q: Queue, steps: seq<Step>)
    requires Inv(q)
    ensures AgendaOf(Run(q, steps)) == Turns(AgendaOf(q), steps)
    decreases |steps|
  {
    InvBatch(q);
    hide Apply, Inv, AgendaOf, Turn;
    if steps != [] {
      StepMeans(q, steps[0]);
      RunMeans(Apply(q, steps[0]), steps[1..]);
    }
  }

  /** In every run, the two sets, the batch and the set of timers being canceled amount to one map: a timer is
      queued until it is due or canceled, comes back `interval` after its batch if it repeats and was not
      canceled meanwhile, and is gone otherwise. */
  lemma QueueMeans(steps: seq<Step>)
    ensures Inv(Empty) && AgendaOf(Run(Empty, steps)) == Turns(Agenda(map[], {}, false, 0, 0), steps)
  {
    EmptyInv();
    RunMeans(Empty, steps);
    assert AgendaOf(Empty) == Agenda(map[], {}, false, 0, 0);
  }

  // ---------------------------------------------------------------- the timerfd

  predicate Positive(q: Queue) {
    (forall a :: a in q.heap ==> q.heap[a].expiration > 0) && (q.calling ==> q.now > 0)
  }

  /** A nonempty queue has the timerfd armed for its earliest expiration or before, up to the floor of
      100 microseconds from when it was set. */
  predicate ArmedInTime(q: Queue) {
    !q.calling && q.timers != [] ==>
      q.arming.ArmedFor? && (q.arming.deadline <= q.timers[0].when || q.arming.deadline <= q.arming.setAt + 100)
  }

  /** Times after the epoch. */
  predicate PositiveTimes(step: Step) {
    match step
    case Creating(addr, timer) => timer.expiration > 0
    case Expiring(now, again) => now > 0
    case _ => true
  }

  lemma {:induction false} ResetAllPositive(q: Queue)
    requires BatchLive(q) && Positive(q) && q.calling
    ensures Positive(ResetAll(q))
    decreases |q.batch|
  {
    if q.batch != [] {
      hide InsertSorted;
      ResetFirstLive(q);
      ResetAllPositive(ResetFirst(q));
    }
  }

  lemma StepArmed(q: Queue, step: Step)
    requires Inv(q) && Positive(q) && ArmedInTime(q) && PositiveTimes(step)
    ensures Positive(Apply(q, step)) && ArmedInTime(Apply(q, step))
  {
    if Enabled(q, step) {
      match step
      case Adding(addr, clock) => AddArmed(q, addr, clock);
      case Canceling(id) =>
        if id in q.active {
          EraseIs(q.timers, Entry(q.heap[id.addr].expiration, id.addr));
        }
      case Finishing(clock) => FinishArmed(q, clock);
      case _ =>
    }
  }

  lemma AddArmed(q: Queue, addr: Addr, clock: int)
    requires Inv(q) && addr in q.waiting && ArmedInTime(q)
    ensures addr in q.heap && ArmedInTime(AddTimerInLoop(q, addr, clock))
  {
    AddPartitions(q, addr, clock);
    InsertAgrees(q, addr, AddTimerInLoop(q, addr, clock));
  }

  lemma FinishArmed(q: Queue, clock: int)
    requires Inv(q) && q.calling && Positive(q)
    ensures BatchLive(q) && Positive(Finish(q, clock)) && ArmedInTime(Finish(q, clock))
  {
    InvFacts(q);
    ResetAllPositive(q);
    ResetAllKeepsInv(q);
    var r := ResetAll(q);
    hide ResetAll;
    if r.timers != [] {
      assert r.timers[0] in r.timers;
    }
  }

  lemma {:induction false} RunArmed(q: Queue, steps: seq<Step>)
    requires Inv(q) && Positive(q) && ArmedInTime(q) && forall i :: 0 <= i < |steps| ==> PositiveTimes(steps[i])
    ensures ArmedInTime(Run(q, steps))
    decreases |steps|
  {
    hide Inv, Apply, ArmedInTime, Positive;
    if steps != [] {
      StepArmed(q, steps[0]);
      RunArmed(Apply(q, steps[0]), steps[1..]);
    }
  }

  /** In every run with times after the epoch, whenever no batch is being run a nonempty queue has
      the timerfd armed in time. */
  lemma TimerfdIsArmed(steps: seq<Step>)
    requires forall i :: 0 <= i < |steps| ==> PositiveTimes(steps[i])
    ensures Inv(Empty) && ArmedInTime(Run(Empty, steps))
  {
    EmptyInv();
    RunArmed(Empty, steps);
  }

  /** When `ResetTimerfd` is called at `clock` for the time `when`: at that time, and not before 100
      microseconds have passed. */
  predicate IsArmedFor(a: Arming, when: int, clock: int) {
    a.ArmedFor? && a.setAt == clock && a.deadline >= when && a.deadline >= clock + 100
    && (a.deadline == when || a.deadline == clock + 100)
  }

  /** Without that condition: after a batch, the timerfd is armed for the earliest expiration if and only if
      that is after the epoch; otherwise it is left as it is. */
  lemma FinishArmsIff(q: Queue, clock: int)
    requires Inv(q) && q.calling
    ensures BatchLive(q)
    ensures var r := Finish(q, clock);
            if exists e :: e in r.timers && e.when > 0 && (forall f :: f in r.timers ==> e.when <= f.when)
            then IsArmedFor(r.arming, r.timers[0].when, clock)
            else r.arming == q.arming
  {
    InvFacts(q);
    ResetAllSame(q);
    FinishKeepsInv(q, clock);
    var r := Finish(q, clock);
    assert r.timers != [] ==> r.timers[0] in r.timers;
    FirstIsEarliest(r);
    hide Inv, ResetAll, Sorted;
  }

  lemma FirstIsEarliest(q: Queue)
    requires Inv(q)
    ensures forall e :: e in q.timers ==> q.timers[0].when <= e.when
  {
    hide Partition, Ledger;
    forall e | e in q.timers
      ensures q.timers[0].when <= e.when
    {
      var i :| 0 <= i < |q.timers| && q.timers[i] == e;
      assert i > 0 ==> Less(q.timers[0], q.timers[i]);
    }
  }

  /** Adding a timer arms the timerfd for it if and only if it expires before all others. */
  lemma AddArmsIff(q: Queue, addr: Addr, clock: int)
    requires Inv(q) && addr in q.waiting
    ensures addr in q.heap
    ensures var when, q' := q.heap[addr].expiration, Apply(q, Adding(addr, clock));
            if forall e :: e in q.timers ==> when < e.when then IsArmedFor(q'.arming, when, clock)
            else q'.arming == q.arming
  {
    InvFacts(q);
    FirstIsEarliest(q);
    assert q.timers != [] ==> q.timers[0] in q.timers;
    hide SetsAgree, Partition, Ledger, InsertSorted;
  }

  // ---------------------------------------------------------------- the object

  /** What a callback does to the queue it runs in. */
  datatype Op = AddOp(addr: Addr, timer: Timer, clock: int) | CancelOp(id: TimerId)

  class TimerQueue {
    var heap: map<Addr, Timer>
    var timers: seq<Entry>
    var active: set<TimerId>
    var canceling: set<TimerId>
    var calling: bool
    var arming: Arming
    var issued: set<TimerId>   // what `new Timer` never returns again
    ghost var past: Queue      // the batch being run, and the histories

    ghost function View(): (q: Queue)
      reads this
    {
      past.(heap := heap, timers := timers, active := active, canceling := canceling, calling := calling,
            arming := arming, issued := issued)
    }

    ghost predicate Valid()
      reads this
    {
      Inv(View())
    }

    constructor ()
      ensures Valid() && View() == Empty
    {
      heap, timers, active, canceling, calling, arming := map[], [], {}, {}, false, Unarmed;
      issued := {};
      past := Empty;
      new;
      EmptyInv();
    }

    method InsertTimer(addr: Addr) returns (earliestChanged: bool)
      requires addr in heap
      modifies this`timers, this`active
      ensures View() == Insert(old(View()), addr) && earliestChanged == EarliestChanges(old(View()), addr)
    {
      earliestChanged := false;
      var when := heap[addr].expiration;
      if timers == [] || when < timers[0].when {
        earliestChanged := true;
      }
      timers := InsertSorted(timers, Entry(when, addr));
      active := active + {TimerId(addr, heap[addr].sequence)};
    }

    /** `new Timer`, in any thread. */
    method CreateTimer(addr: Addr, timer: Timer)
      requires Valid() && Enabled(View(), Creating(addr, timer))
      modifies this
      ensures Valid() && View() == Apply(old(View()), Creating(addr, timer)) && addr in View().waiting
    {
      ghost var q := Apply(View(), Creating(addr, timer));
      heap := heap[addr := timer];
      issued := issued + {TimerId(addr, timer.sequence)};
      past := past.(waiting := past.waiting + {addr});
      assert View() == q;
    }

    method AddTimerInLoop(addr: Addr, clock: int)
      requires Valid() && addr in View().waiting
      modifies this
      ensures Valid() && View() == Apply(old(View()), Adding(addr, clock))
    {
      hide SetsAgree, Partition, Ledger;
      ghost var q := Apply(View(), Adding(addr, clock));
      InvFacts(View());
      var earliestChanged := InsertTimer(addr);
      if earliestChanged {
        arming := Arm(heap[addr].expiration, clock);
      }
      past := past.(waiting := past.waiting - {addr});
      assert View() == q;
    }

    method CancelInLoop(id: TimerId)
      requires Valid()
      modifies this
      ensures Valid() && View() == Apply(old(View()), Canceling(id))
      ensures id !in active && (id in old(active) ==> id.addr !in heap && forall e :: e in timers ==> e.addr != id.addr)
    {
      ghost var q0 := View();
      ghost var q := Apply(q0, Canceling(id));
      CancelIs(q0, id);
      assert |timers| == |active| by { SizesAgree(q0); }
      hide SetsAgree, Partition, Ledger;
      InvFacts(q0);
      if id in active {
        timers := Erase(timers, Entry(heap[id.addr].expiration, id.addr));
        past := past.(freed := past.freed + {id});
        heap := heap - {id.addr};
        active := active - {id};
      } else if calling {
        canceling := canceling + {id};
      }
      assert View() == q;
    }

    method GetExpired(now: int) returns (expired: seq<Entry>)
      requires Valid() && !calling
      modifies this`timers, this`active
      ensures expired == old(timers)[..ExpiredCount(old(timers), now)]
      ensures timers == old(timers)[ExpiredCount(old(timers), now)..]
      ensures (forall e :: e in expired ==> e.addr in heap) && active == old(active) - Ids(old(View()), expired)
    {
      hide Partition, Ledger, Sorted;
      InvFacts(View());
      var end := ExpiredCount(timers, now);
      expired := timers[..end];
      assert forall e :: e in expired ==> e in timers;
      timers := timers[end..];
      for i := 0 to |expired|
        invariant timers == old(timers)[end..] && active == old(active) - Ids(old(View()), expired[..i])
      {
        active := active - {TimerId(expired[i].addr, heap[expired[i].addr].sequence)};
        assert expired[..i + 1] == expired[..i] + [expired[i]];
        assert Ids(old(View()), expired[..i + 1])
            == Ids(old(View()), expired[..i]) + {IdOf(old(View()), expired[i].addr)};
      }
      assert expired[..|expired|] == expired;
    }

    /** One turn of the loop in `Reset`. */
    method ResetOne(e: Entry, now: int)
      requires Valid() && View().batch != [] && View().batch[0] == e && e.addr in heap && View().now == now
      modifies this
      ensures View() == ResetFirst(old(View()))
    {
      var timer := heap[e.addr];
      past := past.(batch := past.batch[1..], next := 0);
      if timer.isRepeat && TimerId(e.addr, timer.sequence) !in canceling {
        heap := heap[e.addr := timer.(expiration := now + timer.interval)];
        var _ := InsertTimer(e.addr);
      } else {
        past := past.(freed := past.freed + {TimerId(e.addr, timer.sequence)});
        heap := heap - {e.addr};
      }
    }

    /** The loop of `Reset`. */
    method ResetEach(expired: seq<Entry>, now: int)
      requires Valid() && calling && View().batch == expired && View().now == now && BatchLive(View())
      modifies this
      ensures View() == ResetAll(old(View()))
    {
      hide SetsAgree, Partition, Ledger;
      ghost var q0 := View();
      for i := 0 to |expired|
        invariant Valid() && calling && View().batch == expired[i..] && View().now == now
        invariant BatchLive(View()) && ResetAll(View()) == ResetAll(q0)
      {
        assert expired[i..][0] == expired[i] && expired[i] in View().batch;
        ResetKeepsInv(View());
        ResetOne(expired[i], now);
        InvFacts(View());
      }
    }

    method Reset(expired: seq<Entry>, now: int, clock: int)
      requires Valid() && calling && View().batch == expired && View().next == |expired| && View().now == now
      modifies this
      ensures Valid() && View() == Apply(old(View()), Finishing(clock))
      ensures !calling && View().batch == [] && View().ran == old(View().ran)
      ensures forall a :: a in old(heap) ==> ResetAt(old(View()), View(), a)
    {
      hide SetsAgree, Partition, Ledger, ResetAt, ResetAll, BatchLive;
      InvFacts(View());
      ghost var q0 := View();
      FinishKeepsInv(q0, clock);
      FinishIs(q0, clock);
      ResetEach(expired, now);
      SetTimerfd(clock);
      assert View() == Finish(q0, clock);
    }

    /** The end of `Reset`, and of the calling phase. */
    method SetTimerfd(clock: int)
      modifies this`arming, this`calling, this`past
      ensures View() == old(View()).(calling := false, next := 0,
                                     arming := if timers != [] && timers[0].when > 0 then Arm(timers[0].when, clock)
                                               else old(arming))
    {
      if timers != [] {
        var nextExpire := timers[0].when;
        if nextExpire > 0 {
          arming := Arm(nextExpire, clock);
        }
      }
      calling := false;
      past := past.(next := 0);
    }

    method RunCallback(ops: seq<Op>)
      requires Valid() && calling
      modifies this
      ensures Valid() && KeepsBatch(old(View()), View())
      ensures exists steps :: View() == Run(old(View()), steps)
    {
      hide Inv, Apply;
      ghost var q0 := View();
      ghost var steps: seq<Step> := [];
      KeepsBatchRefl(q0);
      for i := 0 to |ops|
        invariant Valid() && calling && KeepsBatch(q0, View()) && View() == Run(q0, steps)
      {
        match ops[i]
        case AddOp(addr, timer, clock) =>
          if addr !in heap && addr < ADDRESS_MAX && TimerId(addr, timer.sequence) !in issued {
            CallbackKeepsBatch(View(), Creating(addr, timer));
            RunOne(q0, steps, Creating(addr, timer));
            CreateTimer(addr, timer);
            steps := steps + [Creating(addr, timer)];
            CallbackKeepsBatch(View(), Adding(addr, clock));
            RunOne(q0, steps, Adding(addr, clock));
            AddTimerInLoop(addr, clock);
            steps := steps + [Adding(addr, clock)];
          }
        case CancelOp(id) =>
          CallbackKeepsBatch(View(), Canceling(id));
          RunOne(q0, steps, Canceling(id));
          CancelInLoop(id);
          steps := steps + [Canceling(id)];
      }
    }

    /** Takes the batch that is due and starts calling it. */
    method StartBatch(now: int, armedAgain: bool) returns (expired: seq<Entry>)
      requires Valid() && !calling
      modifies this
      ensures Valid() && View() == Apply(old(View()), Expiring(now, armedAgain)) && expired == View().batch
      ensures calling && View().next == 0 && View().now == now && BatchLive(View())
      ensures |expired| == ExpiredCount(old(timers), now) && View().ran == old(View().ran)
    {
      hide SetsAgree, Partition, Ledger;
      ghost var q := Apply(View(), Expiring(now, armedAgain));
      InvFacts(View());
      expired := GetExpired(now);
      if !armedAgain {
        arming := Unarmed;
      }
      calling := true;
      canceling := {};
      past := past.(batch := expired, next := 0, now := now);
      assert View() == q;
      InvFacts(q);
    }

    /** Runs the callback of the next timer of the batch. */
    method RunOneTimer(e: Entry, ops: seq<Op>)
      requires Valid() && calling && View().next < |View().batch| && View().batch[View().next] == e
      modifies this
      ensures Valid() && calling && Follows(old(View()), View()) && View().next == old(View().next) + 1
      ensures e.addr in old(heap)
      ensures View().ran == old(View().ran) + [IdOf(old(View()), e.addr)]
      ensures exists steps :: View() == Run(Apply(old(View()), Running), steps)
    {
      hide SetsAgree, Partition, Ledger;
      RunNextKeepsInv(View());
      ghost var q := Apply(View(), Running);
      past := RunNext(View());
      assert View() == q;
      RunCallback(ops);
    }

    /** The loop over the expired timers. */
    method RunBatch(expired: seq<Entry>, callbacks: seq<seq<Op>>)
      requires Valid() && calling && View().next == 0 && View().batch == expired && BatchLive(View())
      requires |callbacks| == |expired|
      modifies this
      ensures Valid() && calling && Follows(old(View()), View()) && View().next == |expired|
      ensures View().ran == old(View().ran) + RanInOrder(old(View()), |expired|)
    {
      hide Inv, Apply, Run;
      ghost var q := View();
      FollowsRefl(q);
      for i := 0 to |expired|
        invariant Valid() && calling && Follows(q, View()) && View().next == i
        invariant View().ran == q.ran + RanInOrder(q, i)
      {
        ghost var v := View();
        FollowsId(q, v, expired[i]);
        RunOneTimer(expired[i], callbacks[i]);
        FollowsTrans(q, v, View());
      }
    }

    /** `HandleRead`, with what each callback does to the queue: every timer due by `now` is run once,
        in order of expiration, and the two sets agree again afterwards. */
    method HandleRead(now: int, armedAgain: bool, clock: int, callbacks: seq<seq<Op>>)
      requires Valid() && !calling
      requires |callbacks| == ExpiredCount(timers, now)
      modifies this
      ensures Valid() && !calling && View().batch == []
      ensures var q := Apply(old(View()), Expiring(now, armedAgain));
              BatchLive(q) && View().ran == old(View().ran) + RanInOrder(q, |q.batch|)
    {
      hide Inv, Apply, Run, RanInOrder;
      var expired := StartBatch(now, armedAgain);
      RunBatch(expired, callbacks);
      Reset(expired, now, clock);
    }
  }

  lemma FollowsRefl(q: Queue)
    requires BatchLive(q)
    ensures Follows(q, q)
  {
  }

  lemma FollowsTrans(q: Queue, r: Queue, t: Queue)
    requires Follows(q, r) && Follows(r, t)
    ensures Follows(q, t)
  {
  }

  lemma FollowsId(q: Queue, r: Queue, e: Entry)
    requires Follows(q, r) && e in q.batch
    ensures e.addr in q.heap && e.addr in r.heap && IdOf(r, e.addr) == IdOf(q, e.addr)
  {
  }

  /** What running a batch in order adds to the history. */
  function RanInOrder(q: Queue, n: nat): (ran: seq<TimerId>)
    requires n <= |q.batch| && forall e :: e in q.batch ==> e.addr in q.heap
  {
    if n == 0 then [] else RanInOrder(q, n - 1) + [IdOf(q, q.batch[n - 1].addr)]
  }

  lemma KeepsBatchRefl(q: Queue)
    requires Inv(q)
    ensures KeepsBatch(q, q)
  {
    InvFacts(q);
  }
}
