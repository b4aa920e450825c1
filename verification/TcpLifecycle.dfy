/** The life of a connection across `mytinyhttpd/net/tcp_server.cc`, `tcp_connnection.cc`,
    `channel.cc` and the channel checks of `event_loop.cc`.

    A connection is created by the base loop, established, closed and destroyed in its own loop, and
    erased from the server's map in the base loop in between; the loops hand it on through their
    functor queues. Every step below is one handler, one queued functor or one public call. The
    functors queued on a loop are a bag from which it may take any one, which allows every order the
    queue can produce; the class at the end has the queues. An assertion of the code that would fail
    sets `crashed`. `ShutdownAndForceCloseAfter` is a `Shutdown` in the loop and a `ShutdownAfter` from
    another thread, with a `TimerForceClose` some time later; `ForceCloseWithDelay` is a `Shutdown` with
    a `ForceClose` later.
 */
module TcpLifecycle {
  import opened ConnStates
  import opened Options

  type ConnId = nat
  type LoopId = nat

  const BASE: LoopId := 0

  datatype Event = Established | Closed | Erased | Destroyed

  const FullLife := [Established, Closed, Erased, Destroyed]

  datatype Conn = Conn(
    loop: LoopId,
    state: ConnState,
    reading: bool,       // the channel's interest
    writing: bool,
    added: bool,         // the channel is in its loop's poller
    log: seq<Event>)     // what has happened to it

  /** Functors that hold a connection. */
  datatype Task =
    | Establish(c: ConnId)
    | Remove(c: ConnId)       // RemoveConnectionInLoop, on the base loop
    | Destroy(c: ConnId)      // ConnectDestroyed
    | ForceClosing(c: ConnId) // ForceCloseInLoop
    | Sending(c: ConnId)      // SendInLoop
    | RawShutdown(c: ConnId)  // ShutdownAndForceCloseInLoop, which does not hold the connection

  /** The events `poll` reports for a channel. */
  datatype Mask = Mask(hup: bool, readable: bool, pri: bool, rdhup: bool, writable: bool)

  datatype Stage = CloseStage | ReadStage | WriteStage

  datatype Phase =
    | Polling
    | Sweeping(active: seq<ConnId>, polled: seq<ConnId>)   // channels still to be handled, and all reported
    | Handling(current: ConnId, stage: Stage, mask: Mask,  // inside HandleEvent
               active: seq<ConnId>, polled: seq<ConnId>)
    | Calling                                              // running functors

  datatype System = System(
    phase: map<LoopId, Phase>,
    conns: map<ConnId, Conn>,
    connections: set<ConnId>,   // connections_
    nextId: nat,
    tasks: multiset<Task>,
    crashed: bool)

  // ---------------------------------------------------------------- the handlers

  function Put(s: System, c: ConnId, conn: Conn): (s': System) {
    s.(conns := s.conns[c := conn])
  }

  function ConnectEstablished(s: System, c: ConnId): (s': System)
    requires c in s.conns
  {
    var conn := s.conns[c];
    Put(s, c, conn.(state := Connected, reading := true, added := true, log := conn.log + [Established]))
      .(crashed := s.crashed || !conn.state.Connecting?)
  }

  function RemoveConnectionInLoop(s: System, c: ConnId): (s': System)
    requires c in s.conns
  {
    var conn := s.conns[c];
    Put(s, c, conn.(log := conn.log + [Erased]))
      .(connections := s.connections - {c},
        tasks := s.tasks + multiset{Destroy(c)},
        crashed := s.crashed || c !in s.connections)
  }

  /** `HandleClose`, with its close callback `RemoveConnection`: in the base loop the connection is
      erased at once, elsewhere the base loop is asked to. */
  function HandleClose(s: System, c: ConnId): (s': System)
    requires c in s.conns
  {
    var conn := s.conns[c];
    var s1 := Put(s, c, conn.(state := Disconnected, reading := false, writing := false, log := conn.log + [Closed]))
                .(crashed := s.crashed || !Open(s, c));
    if conn.loop == BASE then RemoveConnectionInLoop(s1, c)
    else s1.(tasks := s1.tasks + multiset{Remove(c)})
  }

  predicate Open(s: System, c: ConnId)
    requires c in s.conns
  {
    s.conns[c].state.Connected? || s.conns[c].state.Disconnecting?
  }

  function ForceCloseInLoop(s: System, c: ConnId): (s': System)
    requires c in s.conns
  {
    if Open(s, c) then HandleClose(s, c) else s
  }

  /** The channel is in the list of active channels its loop is working through, and is not the one
      being handled. */
  predicate InSweep(s: System, c: ConnId)
    requires c in s.conns
  {
    var l := s.conns[c].loop;
    && l in s.phase && (s.phase[l].Sweeping? || s.phase[l].Handling?)
    && c in s.phase[l].polled && !(s.phase[l].Handling? && s.phase[l].current == c)
  }

  /** `ConnectDestroyed`: its `channel_->Remove()` needs a channel in the poller, interested in
      nothing, and not waiting to be handled. */
  function ConnectDestroyed(s: System, c: ConnId): (s': System)
    requires c in s.conns
  {
    var conn := s.conns[c];
    var conn1 := if conn.state.Connected? then conn.(state := Disconnected, reading := false, writing := false)
                 else conn;
    Put(s, c, conn1.(added := false, log := conn.log + [Destroyed]))
      .(crashed := s.crashed || conn1.reading || conn1.writing || !conn.added || InSweep(s, c))
  }

  /** `SendInLoop`: what `write` does not take is left to the channel. */
  function SendInLoop(s: System, c: ConnId, leftover: bool): (s': System)
    requires c in s.conns
  {
    if s.conns[c].state.Disconnected? then s
    else Put(s, c, s.conns[c].(writing := s.conns[c].writing || leftover))
  }

  /** `HandleWrite`. */
  function HandleWrite(s: System, c: ConnId, drained: bool): (s': System)
    requires c in s.conns
  {
    if s.conns[c].writing && drained then Put(s, c, s.conns[c].(writing := false)) else s
  }

  // ---------------------------------------------------------------- steps

  datatype Step =
    | Accept(l: LoopId)                       // NewConnection, in the base loop's sweep
    | Poll(l: LoopId, active: seq<ConnId>)
    | Begin(l: LoopId, mask: Mask)            // HandleEvent of the next active channel
    | CloseCallback(l: LoopId)                // its close callback, if called for
    | ReadCallback(l: LoopId, eof: bool)      // its read callback, if called for
    | WriteCallback(l: LoopId, drained: bool)
    | EndSweep(l: LoopId)
    | RunTask(l: LoopId, task: Task, leftover: bool)
    | EndCalling(l: LoopId)
    | Shutdown(c: ConnId)                     // from any thread
    | ShutdownAfter(c: ConnId)                // from another thread
    | ForceClose(c: ConnId)                   // from any thread
    | Send(c: ConnId, inLoop: bool, leftover: bool)
    | TimerForceClose(c: ConnId)              // ForceCloseInLoop run by the loop's timer channel

  /** The loop a functor is queued on. */
  function TaskLoop(s: System, task: Task): (l: LoopId)
    requires task.c in s.conns
  {
    if task.Remove? then BASE else s.conns[task.c].loop
  }

  predicate Distinct(cs: seq<ConnId>) {
    forall i, j :: 0 <= i < j < |cs| ==> cs[i] != cs[j]
  }

  predicate InPhase(s: System, l: LoopId, p: Phase) {
    l in s.phase && s.phase[l] == p
  }

  predicate InCallbacks(s: System, l: LoopId) {
    l in s.phase && !s.phase[l].Polling?
  }

  predicate AtStage(s: System, l: LoopId, stage: Stage) {
    l in s.phase && s.phase[l].Handling? && s.phase[l].stage == stage && s.phase[l].current in s.conns
  }

  predicate Enabled(s: System, step: Step) {
    match step
    case Accept(l) => l in s.phase && BASE in s.phase && s.phase[BASE].Sweeping?
    case Poll(l, active) =>
      && InPhase(s, l, Polling) && Distinct(active)
      && (forall c :: c in active ==> c in s.conns && s.conns[c].loop == l && s.conns[c].added
                                      && (s.conns[c].reading || s.conns[c].writing))
    case Begin(l, mask) => l in s.phase && s.phase[l].Sweeping? && s.phase[l].active != []
    case CloseCallback(l) => AtStage(s, l, CloseStage)
    case ReadCallback(l, eof) => AtStage(s, l, ReadStage)
    case WriteCallback(l, drained) => AtStage(s, l, WriteStage)
    case EndSweep(l) => l in s.phase && s.phase[l].Sweeping? && s.phase[l].active == []
    case RunTask(l, task, leftover) =>
      InPhase(s, l, Calling) && task in s.tasks && task.c in s.conns && TaskLoop(s, task) == l
    case EndCalling(l) => InPhase(s, l, Calling)
    case Shutdown(c) => c in s.conns
    case ShutdownAfter(c) => c in s.conns
    case ForceClose(c) => c in s.conns
    case Send(c, inLoop, leftover) => c in s.conns && (inLoop ==> InCallbacks(s, s.conns[c].loop))
    case TimerForceClose(c) =>
      c in s.conns && s.conns[c].loop in s.phase && s.phase[s.conns[c].loop].Sweeping?
  }

  function SetPhase(s: System, l: LoopId, p: Phase): (s': System) {
    s.(phase := s.phase[l := p])
  }

  function Accepted(s: System, l: LoopId): (s': System) {
    var c := s.nextId;
    var s1 := Put(s, c, Conn(l, Connecting, false, false, false, []))
                .(connections := s.connections + {c}, nextId := c + 1);
    if l == BASE then ConnectEstablished(s1, c) else s1.(tasks := s.tasks + multiset{Establish(c)})
  }

  function Perform(s: System, task: Task, leftover: bool): (s': System)
    requires task.c in s.conns
  {
    match task
    case Establish(c) => ConnectEstablished(s, c)
    case Remove(c) => RemoveConnectionInLoop(s, c)
    case Destroy(c) => ConnectDestroyed(s, c)
    case ForceClosing(c) => ForceCloseInLoop(s, c)
    case Sending(c) => SendInLoop(s, c, leftover)
    case RawShutdown(c) => s
  }

  function Execute(s: System, task: Task, leftover: bool): (s': System)
    requires task.c in s.conns
  {
    Perform(s.(tasks := s.tasks - multiset{task}), task, leftover)
  }

  predicate CallsClose(mask: Mask) {
    mask.hup && !mask.readable
  }

  predicate CallsRead(mask: Mask) {
    mask.readable || mask.pri || mask.rdhup
  }

  function CloseEvent(s: System, c: ConnId, mask: Mask): (s': System)
    requires c in s.conns
  {
    if CallsClose(mask) then HandleClose(s, c) else s
  }

  function ReadEvent(s: System, c: ConnId, mask: Mask, eof: bool): (s': System)
    requires c in s.conns
  {
    if CallsRead(mask) && eof then HandleClose(s, c) else s
  }

  function WriteEvent(s: System, c: ConnId, mask: Mask, drained: bool): (s': System)
    requires c in s.conns
  {
    if mask.writable then HandleWrite(s, c, drained) else s
  }

  function Apply(s: System, step: Step): (s': System) {
    if !Enabled(s, step) then s
    else
      match step
      case Accept(l) => Accepted(s, l)
      case Poll(l, active) => SetPhase(s, l, Sweeping(active, active))
      case Begin(l, mask) =>
        var p := s.phase[l];
        SetPhase(s, l, Handling(p.active[0], CloseStage, mask, p.active[1..], p.polled))
      case CloseCallback(l) =>
        var p := s.phase[l];
        SetPhase(CloseEvent(s, p.current, p.mask), l, p.(stage := ReadStage))
      case ReadCallback(l, eof) =>
        var p := s.phase[l];
        SetPhase(ReadEvent(s, p.current, p.mask, eof), l, p.(stage := WriteStage))
      case WriteCallback(l, drained) =>
        var p := s.phase[l];
        SetPhase(WriteEvent(s, p.current, p.mask, drained), l, Sweeping(p.active, p.polled))
      case EndSweep(l) => SetPhase(s, l, Calling)
      case RunTask(l, task, leftover) => Execute(s, task, leftover)
      case EndCalling(l) => SetPhase(s, l, Polling)
      case Shutdown(c) =>
        if s.conns[c].state.Connected? then Put(s, c, s.conns[c].(state := Disconnecting)) else s
      case ShutdownAfter(c) =>
        if s.conns[c].state.Connected? then
          Put(s, c, s.conns[c].(state := Disconnecting)).(tasks := s.tasks + multiset{RawShutdown(c)})
        else s
      case ForceClose(c) =>
        if Open(s, c) then
          Put(s, c, s.conns[c].(state := Disconnecting)).(tasks := s.tasks + multiset{ForceClosing(c)})
        else s
      case Send(c, inLoop, leftover) =>
        if !s.conns[c].state.Connected? then s
        else if inLoop then SendInLoop(s, c, leftover)
        else s.(tasks := s.tasks + multiset{Sending(c)})
      case TimerForceClose(c) => ForceCloseInLoop(s, c)
  }

  function Run(s: System, steps: seq<Step>): (s': System)
    decreases |steps|
  {
    if steps == [] then s else Run(Apply(s, steps[0]), steps[1..])
  }

  function Start(loops: set<LoopId>): (s: System) {
    System(map l | l in loops :: Polling, map[], {}, 0, multiset{}, false)
  }

  // ---------------------------------------------------------------- what every step keeps

  /** The tokens that carry a connection through its life, and the stage each one marks. */
  predicate Tokens(s: System, c: ConnId, e: nat, r: nat, d: nat) {
    s.tasks[Establish(c)] == e && s.tasks[Remove(c)] == r && s.tasks[Destroy(c)] == d
  }

  predicate Fresh(s: System, c: ConnId)
    requires c in s.conns
  {
    var conn := s.conns[c];
    && conn.state.Connecting? && !conn.added && !conn.reading && !conn.writing && conn.log == []
    && c in s.connections && Tokens(s, c, 1, 0, 0) && s.tasks[Sending(c)] == 0
  }

  predicate Live(s: System, c: ConnId)
    requires c in s.conns
  {
    var conn := s.conns[c];
    && (conn.state.Connected? || conn.state.Disconnecting?) && conn.added && conn.reading
    && conn.log == FullLife[..1] && c in s.connections && Tokens(s, c, 0, 0, 0)
  }

  predicate Leaving(s: System, c: ConnId)
    requires c in s.conns
  {
    var conn := s.conns[c];
    && conn.state.Disconnected? && conn.added && !conn.reading && !conn.writing
    && ((conn.log == FullLife[..2] && c in s.connections && Tokens(s, c, 0, 1, 0))
        || (conn.log == FullLife[..3] && c !in s.connections && Tokens(s, c, 0, 0, 1)))
  }

  predicate Gone(s: System, c: ConnId)
    requires c in s.conns
  {
    var conn := s.conns[c];
    && conn.state.Disconnected? && !conn.added && !conn.reading && !conn.writing
    && conn.log == FullLife && c !in s.connections && Tokens(s, c, 0, 0, 0)
  }

  predicate OnCourse(s: System, c: ConnId)
    requires c in s.conns
  {
    Fresh(s, c) || Live(s, c) || Leaving(s, c) || Gone(s, c)
  }

  /** The channels a loop is working through are its own. */
  predicate SweepOk(s: System, l: LoopId)
    requires l in s.phase
  {
    var p := s.phase[l];
    && (p.Sweeping? || p.Handling? ==> forall c :: c in p.active ==> c in s.conns && s.conns[c].loop == l)
    && (p.Handling? ==> p.current in s.conns && s.conns[p.current].loop == l)
  }

  predicate Inv(s: System) {
    && !s.crashed
    && (forall c :: c in s.conns ==> c < s.nextId)
    && s.connections <= s.conns.Keys
    && (forall c :: c in s.conns ==> s.conns[c].loop in s.phase && OnCourse(s, c))
    && (forall t :: t in s.tasks ==> t.c in s.conns)
    && (forall l :: l in s.phase ==> SweepOk(s, l))
  }

  // ---------------------------------------------------------------- why they keep it

  /** Only connection `c`, and its tokens, differ. */
  ghost predicate SameElsewhere(s: System, s': System, c: ConnId) {
    && s'.phase == s.phase
    && (forall d :: d in s.conns && d != c ==> d in s'.conns && s'.conns[d] == s.conns[d])
    && (forall d :: d in s'.conns && d != c ==> d in s.conns)
    && (forall d :: d != c ==> (d in s'.connections <==> d in s.connections))
    && (forall t: Task :: t.c != c ==> s'.tasks[t] == s.tasks[t])
  }

  lemma OthersOnCourse(s: System, s': System, c: ConnId, d: ConnId)
    requires SameElsewhere(s, s', c) && d in s.conns && d != c
    ensures OnCourse(s', d) <==> OnCourse(s, d)
  {
    assert s'.tasks[Establish(d)] == s.tasks[Establish(d)];
    assert s'.tasks[Remove(d)] == s.tasks[Remove(d)];
    assert s'.tasks[Destroy(d)] == s.tasks[Destroy(d)];
    assert s'.tasks[Sending(d)] == s.tasks[Sending(d)];
  }

  /** A step of one connection from one point of its course to another. */
  lemma Transition(s: System, s': System, c: ConnId)
    requires Inv(s) && SameElsewhere(s, s', c) && !s'.crashed
    requires c in s'.conns && c < s'.nextId && s.nextId <= s'.nextId
    requires s'.connections <= s'.conns.Keys && s'.conns[c].loop in s.phase
    requires c in s.conns ==> s'.conns[c].loop == s.conns[c].loop
    requires OnCourse(s', c)
    ensures Inv(s')
  {
    hide OnCourse;
    forall d | d in s'.conns ensures d < s'.nextId && s'.conns[d].loop in s'.phase && OnCourse(s', d) {
      if d != c { OthersOnCourse(s, s', c, d); }
    }
    forall t | t in s'.tasks ensures t.c in s'.conns {
      if t.c != c { assert t in s.tasks; }
    }
    forall l | l in s'.phase ensures SweepOk(s', l) {
      assert SweepOk(s, l);
    }
  }

  lemma PhaseKeepsCourse(s: System, l: LoopId, p: Phase, c: ConnId)
    requires c in s.conns && OnCourse(s, c)
    ensures OnCourse(SetPhase(s, l, p), c)
  {
  }

  lemma PhaseKeepsInv(s: System, l: LoopId, p: Phase)
    requires Inv(s) && l in s.phase && SweepOk(SetPhase(s, l, p), l)
    ensures Inv(SetPhase(s, l, p))
  {
    hide OnCourse;
    var s' := SetPhase(s, l, p);
    forall k | k in s'.phase ensures SweepOk(s', k) {
      assert k in s.phase && SweepOk(s, k);
    }
    forall c | c in s'.conns ensures OnCourse(s', c) {
      PhaseKeepsCourse(s, l, p, c);
    }
  }

  /** Connection `c` moves along its course and nothing else changes. */
  ghost predicate Moves(s: System, s': System, c: ConnId) {
    && SameElsewhere(s, s', c)
    && c in s.conns && c in s'.conns && s'.conns[c].loop == s.conns[c].loop
    && OnCourse(s', c)
    && s'.nextId == s.nextId && s'.crashed == s.crashed
  }

  lemma MovesKeepsInv(s: System, s': System, c: ConnId)
    requires Inv(s) && Moves(s, s', c)
    ensures Inv(s')
  {
    hide OnCourse, SweepOk;
    assert s.conns[c].loop in s.phase;
    Transition(s, s', c);
  }

  lemma LiveOrNot(s: System, c: ConnId)
    requires c in s.conns && OnCourse(s, c)
    ensures Live(s, c) <==> Open(s, c)
  {
  }

  lemma CloseMoves(s: System, c: ConnId)
    requires c in s.conns && Live(s, c)
    ensures Moves(s, HandleClose(s, c), c)
  {
    assert FullLife[..1] + [Closed] == FullLife[..2];
    assert FullLife[..2] + [Erased] == FullLife[..3];
  }

  lemma CloseKeepsInv(s: System, c: ConnId)
    requires Inv(s) && c in s.conns && Open(s, c)
    ensures Inv(HandleClose(s, c))
  {
    assert OnCourse(s, c);
    LiveOrNot(s, c);
    CloseMoves(s, c);
    hide Inv, Live, Moves, HandleClose;
    MovesKeepsInv(s, HandleClose(s, c), c);
  }

  lemma ForceCloseKeepsInv(s: System, c: ConnId)
    requires Inv(s) && c in s.conns
    ensures Inv(ForceCloseInLoop(s, c))
  {
    hide Inv, HandleClose;
    if Open(s, c) {
      CloseKeepsInv(s, c);
    }
  }

  lemma AcceptFrame(s: System, l: LoopId)
    requires forall t :: t in s.tasks ==> t.c != s.nextId
    requires s.nextId !in s.conns && s.nextId !in s.connections
    ensures var c, s' := s.nextId, Accepted(s, l);
            && SameElsewhere(s, s', c) && c in s'.conns && s'.conns[c].loop == l && OnCourse(s', c)
            && s'.connections == s.connections + {c} && s'.conns.Keys == s.conns.Keys + {c}
            && s'.crashed == s.crashed && s'.nextId == c + 1
  {
    hide OnCourse, SameElsewhere;
    AcceptedCourse(s, l);
    AcceptedElsewhere(s, l);
  }

  lemma AcceptedElsewhere(s: System, l: LoopId)
    ensures SameElsewhere(s, Accepted(s, l), s.nextId)
  {
  }

  lemma AcceptedCourse(s: System, l: LoopId)
    requires forall t :: t in s.tasks ==> t.c != s.nextId
    requires s.nextId !in s.conns
    ensures s.nextId in Accepted(s, l).conns && OnCourse(Accepted(s, l), s.nextId)
  {
    var c := s.nextId;
    assert Establish(c) !in s.tasks && Remove(c) !in s.tasks && Destroy(c) !in s.tasks && Sending(c) !in s.tasks;
    assert [] + [Established] == FullLife[..1];
  }

  lemma AcceptKeepsInv(s: System, l: LoopId)
    requires Inv(s) && l in s.phase
    ensures Inv(Accepted(s, l))
  {
    AcceptFrame(s, l);
    hide SweepOk, OnCourse, SameElsewhere, Accepted;
    Transition(s, Accepted(s, l), s.nextId);
  }

  lemma EstablishMoves(s: System, c: ConnId, leftover: bool)
    requires c in s.conns && OnCourse(s, c) && Establish(c) in s.tasks
    ensures Moves(s, Execute(s, Establish(c), leftover), c)
  {
    assert [] + [Established] == FullLife[..1];
  }

  lemma RemoveMoves(s: System, c: ConnId, leftover: bool)
    requires c in s.conns && OnCourse(s, c) && Remove(c) in s.tasks
    ensures Moves(s, Execute(s, Remove(c), leftover), c)
  {
    assert FullLife[..2] + [Erased] == FullLife[..3];
  }

  lemma DestroyMoves(s: System, c: ConnId, leftover: bool)
    requires c in s.conns && OnCourse(s, c) && Destroy(c) in s.tasks && InPhase(s, s.conns[c].loop, Calling)
    ensures Moves(s, Execute(s, Destroy(c), leftover), c)
  {
    assert FullLife[..3] + [Destroyed] == FullLife;
  }

  /** Dropping a functor that is not a token, or sending, leaves the connection where it is. */
  lemma SendMoves(s: System, c: ConnId, leftover: bool)
    requires c in s.conns && OnCourse(s, c) && Sending(c) in s.tasks
    ensures Moves(s, Execute(s, Sending(c), leftover), c)
  {
  }

  lemma DropForceCloseMoves(s: System, c: ConnId)
    requires c in s.conns && OnCourse(s, c)
    ensures Moves(s, s.(tasks := s.tasks - multiset{ForceClosing(c)}), c)
  {
  }

  lemma DropRawMoves(s: System, c: ConnId)
    requires c in s.conns && OnCourse(s, c)
    ensures Moves(s, s.(tasks := s.tasks - multiset{RawShutdown(c)}), c)
  {
  }

  lemma ExecuteKeepsInv(s: System, task: Task, leftover: bool)
    requires Inv(s) && task in s.tasks && task.c in s.conns && InPhase(s, TaskLoop(s, task), Calling)
    ensures Inv(Execute(s, task, leftover))
  {
    var c := task.c;
    var s' := Execute(s, task, leftover);
    assert OnCourse(s, c);
    hide Inv, OnCourse, Moves;
    match task
    case Establish(_) =>
      hide Execute;
      EstablishMoves(s, c, leftover);
      MovesKeepsInv(s, s', c);
    case Remove(_) =>
      hide Execute;
      RemoveMoves(s, c, leftover);
      MovesKeepsInv(s, s', c);
    case Destroy(_) =>
      hide Execute;
      DestroyMoves(s, c, leftover);
      MovesKeepsInv(s, s', c);
    case Sending(_) =>
      hide Execute;
      SendMoves(s, c, leftover);
      MovesKeepsInv(s, s', c);
    case RawShutdown(_) =>
      DropRawMoves(s, c);
      MovesKeepsInv(s, s', c);
    case ForceClosing(_) =>
      var s1 := s.(tasks := s.tasks - multiset{ForceClosing(c)});
      DropForceCloseMoves(s, c);
      MovesKeepsInv(s, s1, c);
      ForceCloseKeepsInv(s1, c);
  }

  // ---------------------------------------------------------------- the whole machine

  /** The callback that is due closes a connection that is not open: the peer hung up with nothing to read,
      or its end of file is read, after the event itself or a timer has closed the connection. */
  predicate ClosesAgain(s: System, step: Step) {
    match step
    case CloseCallback(l) =>
      AtStage(s, l, CloseStage) && !Open(s, s.phase[l].current)
      && var mask := s.phase[l].mask; mask.hup && !mask.readable
    case ReadCallback(l, eof) =>
      AtStage(s, l, ReadStage) && eof && !Open(s, s.phase[l].current)
      && var mask := s.phase[l].mask; mask.readable || mask.pri || mask.rdhup
    case _ => false
  }

  lemma PollKeepsInv(s: System, l: LoopId, active: seq<ConnId>)
    requires Inv(s) && Enabled(s, Poll(l, active))
    ensures Inv(SetPhase(s, l, Sweeping(active, active)))
  {
    hide OnCourse;
    PhaseKeepsInv(s, l, Sweeping(active, active));
  }

  lemma BeginKeepsInv(s: System, l: LoopId, mask: Mask)
    requires Inv(s) && Enabled(s, Begin(l, mask))
    ensures Inv(Apply(s, Begin(l, mask)))
  {
    hide OnCourse;
    var q := s.phase[l];
    var p := Handling(q.active[0], CloseStage, mask, q.active[1..], q.polled);
    assert SweepOk(s, l);
    assert forall c :: c in q.active[1..] ==> c in q.active;
    PhaseKeepsInv(s, l, p);
  }

  /** The next stage of the event being handled, before its callback runs. */
  lemma AdvanceStage(s: System, l: LoopId, next: Stage)
    requires Inv(s) && l in s.phase && s.phase[l].Handling?
    ensures var p := s.phase[l];
            Inv(SetPhase(s, l, p.(stage := next))) && p.current in s.conns
  {
    hide OnCourse;
    assert SweepOk(s, l);
    PhaseKeepsInv(s, l, s.phase[l].(stage := next));
  }

  lemma CloseCallbackKeepsInv(s: System, l: LoopId)
    requires Inv(s) && AtStage(s, l, CloseStage) && !ClosesAgain(s, CloseCallback(l))
    ensures Inv(Apply(s, CloseCallback(l)))
  {
    hide Inv;
    var p := s.phase[l];
    AdvanceStage(s, l, ReadStage);
    if CallsClose(p.mask) {
      var s1 := SetPhase(s, l, p.(stage := ReadStage));
      CloseKeepsInv(s1, p.current);
      assert Apply(s, CloseCallback(l)) == HandleClose(s1, p.current);
    }
  }

  lemma ReadCallbackKeepsInv(s: System, l: LoopId, eof: bool)
    requires Inv(s) && AtStage(s, l, ReadStage) && !ClosesAgain(s, ReadCallback(l, eof))
    ensures Inv(Apply(s, ReadCallback(l, eof)))
  {
    hide Inv;
    var p := s.phase[l];
    AdvanceStage(s, l, WriteStage);
    if CallsRead(p.mask) && eof {
      var s1 := SetPhase(s, l, p.(stage := WriteStage));
      CloseKeepsInv(s1, p.current);
      assert Apply(s, ReadCallback(l, eof)) == HandleClose(s1, p.current);
    }
  }

  /** At most one functor of `c`, not one of those that carry it through its life. */
  predicate NoToken(more: multiset<Task>, c: ConnId) {
    || more == multiset{} || more == multiset{Sending(c)}
    || more == multiset{ForceClosing(c)} || more == multiset{RawShutdown(c)}
  }

  /** Changes of interest in writing, of the state within `Live`, and new functors that are not
      tokens. */
  lemma AdjustMoves(s: System, c: ConnId, writing: bool, state: ConnState, more: multiset<Task>)
    requires c in s.conns && Live(s, c) && (state.Connected? || state.Disconnecting?)
    requires NoToken(more, c)
    ensures var s' := Put(s, c, s.conns[c].(writing := writing, state := state)).(tasks := s.tasks + more);
            Moves(s, s', c)
  {
  }

  lemma AdjustKeepsInv(s: System, c: ConnId, writing: bool, state: ConnState, more: multiset<Task>)
    requires Inv(s) && c in s.conns && Open(s, c) && (state.Connected? || state.Disconnecting?)
    requires NoToken(more, c)
    ensures Inv(Put(s, c, s.conns[c].(writing := writing, state := state)).(tasks := s.tasks + more))
  {
    assert OnCourse(s, c);
    hide Inv, Moves, Live;
    LiveOrNot(s, c);
    AdjustMoves(s, c, writing, state, more);
    MovesKeepsInv(s, Put(s, c, s.conns[c].(writing := writing, state := state)).(tasks := s.tasks + more), c);
  }

  lemma WritingIsOpen(s: System, c: ConnId)
    requires c in s.conns && OnCourse(s, c) && s.conns[c].writing
    ensures Open(s, c)
  {
  }

  lemma EndOfEvent(s: System, l: LoopId)
    requires Inv(s) && AtStage(s, l, WriteStage)
    ensures var p := s.phase[l];
            Inv(SetPhase(s, l, Sweeping(p.active, p.polled))) && OnCourse(s, p.current)
  {
    hide OnCourse;
    assert SweepOk(s, l);
    PhaseKeepsInv(s, l, Sweeping(s.phase[l].active, s.phase[l].polled));
  }

  lemma WriteCallbackIs(s: System, l: LoopId, drained: bool)
    requires AtStage(s, l, WriteStage)
    ensures var p := s.phase[l];
            var s1, conn := SetPhase(s, l, Sweeping(p.active, p.polled)), s.conns[p.current];
            Apply(s, WriteCallback(l, drained)) ==
            if p.mask.writable && drained && conn.writing
            then Put(s1, p.current, conn.(writing := false, state := conn.state)).(tasks := s1.tasks + multiset{})
            else s1
  {
    assert s.tasks + multiset{} == s.tasks;
  }

  lemma WriteCallbackKeepsInv(s: System, l: LoopId, drained: bool)
    requires Inv(s) && AtStage(s, l, WriteStage)
    ensures Inv(Apply(s, WriteCallback(l, drained)))
  {
    hide Inv, OnCourse, Apply, Put;
    var p := s.phase[l];
    var c := p.current;
    EndOfEvent(s, l);
    WriteCallbackIs(s, l, drained);
    if p.mask.writable && drained && s.conns[c].writing {
      WritingIsOpen(s, c);
      AdjustKeepsInv(SetPhase(s, l, Sweeping(p.active, p.polled)), c, false, s.conns[c].state, multiset{});
    }
  }

  lemma PublicCallKeepsInv(s: System, step: Step)
    requires Inv(s) && (step.Shutdown? || step.ShutdownAfter? || step.ForceClose? || step.Send?)
    ensures Inv(Apply(s, step))
  {
    hide Inv;
    var c := step.c;
    if Enabled(s, step) && Open(s, c) {
      var conn := s.conns[c];
      assert s.tasks + multiset{} == s.tasks;
      match step
      case Shutdown(_) => AdjustKeepsInv(s, c, conn.writing, Disconnecting, multiset{});
      case ShutdownAfter(_) => AdjustKeepsInv(s, c, conn.writing, Disconnecting, multiset{RawShutdown(c)});
      case ForceClose(_) => AdjustKeepsInv(s, c, conn.writing, Disconnecting, multiset{ForceClosing(c)});
      case Send(_, inLoop, leftover) =>
        if inLoop {
          AdjustKeepsInv(s, c, conn.writing || leftover, conn.state, multiset{});
        } else {
          AdjustKeepsInv(s, c, conn.writing, conn.state, multiset{Sending(c)});
          assert conn.(writing := conn.writing, state := conn.state) == conn;
          assert s.conns[c := conn] == s.conns;
        }
    }
  }

  lemma StepKeepsInv(s: System, step: Step)
    requires Inv(s) && !ClosesAgain(s, step)
    ensures Inv(Apply(s, step))
  {
    hide Inv, ClosesAgain, Accepted, Execute, CloseEvent, ReadEvent, WriteEvent, ForceCloseInLoop;
    if Enabled(s, step) {
      match step
      case Accept(l) => AcceptKeepsInv(s, l);
      case CloseCallback(l) => CloseCallbackKeepsInv(s, l);
      case ReadCallback(l, eof) => ReadCallbackKeepsInv(s, l, eof);
      case WriteCallback(l, drained) => WriteCallbackKeepsInv(s, l, drained);
      case RunTask(l, task, leftover) => ExecuteKeepsInv(s, task, leftover);
      case TimerForceClose(c) => ForceCloseKeepsInv(s, c);
      case Shutdown(c) => PublicCallKeepsInv(s, step);
      case ShutdownAfter(c) => PublicCallKeepsInv(s, step);
      case ForceClose(c) => PublicCallKeepsInv(s, step);
      case Send(c, inLoop, leftover) => PublicCallKeepsInv(s, step);
      case Poll(l, active) => PollKeepsInv(s, l, active);
      case Begin(l, mask) => BeginKeepsInv(s, l, mask);
      case EndSweep(l) => PhaseKeepsInv(s, l, Calling);
      case EndCalling(l) => PhaseKeepsInv(s, l, Polling);
    }
  }

  lemma ClosingAgainCrashes(s: System, step: Step)
    requires ClosesAgain(s, step)
    ensures Apply(s, step).crashed
  {
  }

  lemma CrashStays(s: System, step: Step)
    requires s.crashed
    ensures Apply(s, step).crashed
  {
  }

  /** A step fails an assertion exactly when it closes a connection that is not open. */
  lemma StepCrashesIff(s: System, step: Step)
    requires Inv(s)
    ensures Apply(s, step).crashed <==> ClosesAgain(s, step)
    ensures !ClosesAgain(s, step) ==> Inv(Apply(s, step))
  {
    hide Apply, ClosesAgain, OnCourse, SweepOk;
    if ClosesAgain(s, step) {
      ClosingAgainCrashes(s, step);
    } else {
      StepKeepsInv(s, step);
    }
  }

  /** Some step of the run closes a connection that is not open when its turn comes. */
  predicate SomeClosesAgain(s: System, steps: seq<Step>)
    decreases |steps|
  {
    steps != [] && (ClosesAgain(s, steps[0]) || SomeClosesAgain(Apply(s, steps[0]), steps[1..]))
  }

  lemma {:induction false} CrashStaysInRun(s: System, steps: seq<Step>)
    requires s.crashed
    ensures Run(s, steps).crashed
    decreases |steps|
  {
    hide Apply;
    if steps != [] {
      CrashStays(s, steps[0]);
      CrashStaysInRun(Apply(s, steps[0]), steps[1..]);
    }
  }

  lemma {:induction false} RunCrashesIff(s: System, steps: seq<Step>)
    requires Inv(s)
    ensures Run(s, steps).crashed <==> SomeClosesAgain(s, steps)
    ensures !SomeClosesAgain(s, steps) ==> Inv(Run(s, steps))
    decreases |steps|
  {
    if steps == [] {
      assert !s.crashed;
    } else {
      hide Inv, Apply, ClosesAgain;
      StepCrashesIff(s, steps[0]);
      if ClosesAgain(s, steps[0]) {
        CrashStaysInRun(Apply(s, steps[0]), steps[1..]);
      } else {
        RunCrashesIff(Apply(s, steps[0]), steps[1..]);
      }
    }
  }

  lemma StartInv(loops: set<LoopId>)
    ensures Inv(Start(loops))
  {
  }

  // ---------------------------------------------------------------- results

  /** Over any interleaving of the loops and of calls from any thread: an assertion fails if and only if
      some callback closes a connection that is not open. */
  lemma CrashesIff(loops: set<LoopId>, steps: seq<Step>)
    ensures Run(Start(loops), steps).crashed <==> SomeClosesAgain(Start(loops), steps)
  {
    StartInv(loops);
    RunCrashesIff(Start(loops), steps);
  }

  lemma UncrashedInv(loops: set<LoopId>, steps: seq<Step>)
    requires !Run(Start(loops), steps).crashed
    ensures Inv(Run(Start(loops), steps))
  {
    hide Inv;
    StartInv(loops);
    RunCrashesIff(Start(loops), steps);
  }

  /** As long as none does, what has happened to a connection is always a beginning of established, closed,
      erased, destroyed, each once and in that order. */
  lemma LivesAreOrderly(loops: set<LoopId>, steps: seq<Step>)
    requires !SomeClosesAgain(Start(loops), steps)
    ensures var s := Run(Start(loops), steps);
            !s.crashed && forall c :: c in s.conns ==> s.conns[c].log <= FullLife
  {
    CrashesIff(loops, steps);
    UncrashedInv(loops, steps);
    var s := Run(Start(loops), steps);
    hide Run, SomeClosesAgain, SweepOk;
    forall c | c in s.conns ensures s.conns[c].log <= FullLife {
      LogOnCourse(s, c);
    }
  }

  lemma LogOnCourse(s: System, c: ConnId)
    requires c in s.conns && OnCourse(s, c)
    ensures s.conns[c].log <= FullLife
  {
  }

  /** Nothing is left behind: when no functor is queued, every connection is live and in the map, or
      has come to the end of its life. */
  lemma NothingLeaks(loops: set<LoopId>, steps: seq<Step>, c: ConnId)
    requires !SomeClosesAgain(Start(loops), steps)
    requires var s := Run(Start(loops), steps); c in s.conns && s.tasks == multiset{}
    ensures var s := Run(Start(loops), steps);
            && (c in s.connections <==> Open(s, c))
            && (c !in s.connections <==> s.conns[c].log == FullLife)
  {
    CrashesIff(loops, steps);
    UncrashedInv(loops, steps);
    assert OnCourse(Run(Start(loops), steps), c);
  }

  /** What the destructors assert: a connection that neither the map nor a functor holds is
      disconnected and its channel is out of the poller. */
  lemma UnheldIsFinished(loops: set<LoopId>, steps: seq<Step>, c: ConnId)
    requires !SomeClosesAgain(Start(loops), steps)
    requires var s := Run(Start(loops), steps);
             c in s.conns && c !in s.connections && forall t :: t in s.tasks ==> t.c != c
    ensures var s := Run(Start(loops), steps);
            s.conns[c].state.Disconnected? && !s.conns[c].added && s.conns[c].log == FullLife
  {
    CrashesIff(loops, steps);
    UncrashedInv(loops, steps);
    var s := Run(Start(loops), steps);
    assert OnCourse(s, c);
    assert Establish(c) !in s.tasks && Remove(c) !in s.tasks && Destroy(c) !in s.tasks;
  }

  // ---------------------------------------------------------------- which thread does it

  /** The loop whose thread makes a step; the public calls may be made by any thread. */
  function Runner(s: System, step: Step): (l: Option<LoopId>) {
    match step
    case Accept(_) => Some(BASE)
    case Poll(l, _) => Some(l)
    case Begin(l, _) => Some(l)
    case CloseCallback(l) => Some(l)
    case ReadCallback(l, _) => Some(l)
    case WriteCallback(l, _) => Some(l)
    case EndSweep(l) => Some(l)
    case RunTask(l, _, _) => Some(l)
    case EndCalling(l) => Some(l)
    case Send(c, inLoop, _) => if inLoop && c in s.conns then Some(s.conns[c].loop) else None
    case TimerForceClose(c) => if c in s.conns then Some(s.conns[c].loop) else None
    case _ => None
  }

  /** The channel of a connection, and whether it is established or closed, are for its own loop; other
      threads may only have it start closing. */
  predicate LeftAlone(conn: Conn, conn': Conn) {
    && conn'.reading == conn.reading && conn'.writing == conn.writing && conn'.added == conn.added
    && (conn'.state == conn.state
        || ((conn.state.Connected? || conn.state.Disconnecting?) && conn'.state.Disconnecting?))
  }

  /** The map of connections is changed by the base loop's thread alone, and the channel of a connection by
      its own loop's. */
  predicate Confined(s: System, step: Step, s': System, c: ConnId)
    requires c in s.conns
  {
    && c in s'.conns && s'.conns[c].loop == s.conns[c].loop
    && (Runner(s, step) != Some(BASE) ==> s'.connections == s.connections)
    && (Runner(s, step) != Some(s.conns[c].loop) ==> LeftAlone(s.conns[c], s'.conns[c]))
  }

  /** Of the connections only `c` differs, and the map only if `c` is one of the base loop's. */
  predicate Touches(s: System, s': System, c: ConnId)
    requires c in s.conns
  {
    && c in s'.conns && s'.conns == s.conns[c := s'.conns[c]] && s'.conns[c].loop == s.conns[c].loop
    && (s.conns[c].loop != BASE ==> s'.connections == s.connections)
  }

  lemma TouchIsConfined(s: System, step: Step, s': System, d: ConnId, c: ConnId)
    requires d in s.conns && c in s.conns && Touches(s, s', d) && Runner(s, step) == Some(s.conns[d].loop)
    ensures Confined(s, step, s', c)
  {
  }

  lemma CloseTouches(s: System, c: ConnId)
    requires c in s.conns
    ensures Touches(s, HandleClose(s, c), c)
  {
  }

  lemma EventTouches(s: System, c: ConnId, mask: Mask, more: bool)
    requires c in s.conns
    ensures Touches(s, CloseEvent(s, c, mask), c) && Touches(s, ReadEvent(s, c, mask, more), c)
    ensures Touches(s, WriteEvent(s, c, mask, more), c)
  {
    CloseTouches(s, c);
    assert Touches(s, s, c);
    hide HandleClose;
  }

  lemma TaskTouches(s: System, task: Task, leftover: bool)
    requires task.c in s.conns && !task.Remove?
    ensures Touches(s, Execute(s, task, leftover), task.c)
  {
    var s1 := s.(tasks := s.tasks - multiset{task});
    if task.ForceClosing? {
      CloseTouches(s1, task.c);
      hide HandleClose;
    }
  }

  lemma RemoveIsConfined(s: System, step: Step, d: ConnId, c: ConnId)
    requires d in s.conns && c in s.conns && Runner(s, step) == Some(BASE)
    ensures Confined(s, step, RemoveConnectionInLoop(s, d), c)
  {
  }

  lemma PhaseIsConfined(s: System, step: Step, s': System, l: LoopId, p: Phase, c: ConnId)
    requires c in s.conns && Confined(s, step, s', c)
    ensures Confined(s, step, SetPhase(s', l, p), c)
  {
  }

  lemma CallbackIsConfined(s: System, step: Step, c: ConnId)
    requires Inv(s) && Enabled(s, step) && c in s.conns
    requires step.CloseCallback? || step.ReadCallback? || step.WriteCallback?
    ensures Confined(s, step, Apply(s, step), c)
  {
    var l := step.l;
    var p := s.phase[l];
    assert p.current in s.conns && s.conns[p.current].loop == l by { assert SweepOk(s, l); }
    hide Inv, Confined, Touches, CloseEvent, ReadEvent, WriteEvent, SetPhase;
    match step
    case CloseCallback(_) =>
      EventTouches(s, p.current, p.mask, false);
      var s1 := CloseEvent(s, p.current, p.mask);
      TouchIsConfined(s, step, s1, p.current, c);
      PhaseIsConfined(s, step, s1, l, p.(stage := ReadStage), c);
    case ReadCallback(_, eof) =>
      EventTouches(s, p.current, p.mask, eof);
      var s1 := ReadEvent(s, p.current, p.mask, eof);
      TouchIsConfined(s, step, s1, p.current, c);
      PhaseIsConfined(s, step, s1, l, p.(stage := WriteStage), c);
    case WriteCallback(_, drained) =>
      EventTouches(s, p.current, p.mask, drained);
      var s1 := WriteEvent(s, p.current, p.mask, drained);
      TouchIsConfined(s, step, s1, p.current, c);
      PhaseIsConfined(s, step, s1, l, Sweeping(p.active, p.polled), c);
  }

  lemma TaskIsConfined(s: System, step: Step, c: ConnId)
    requires step.RunTask? && Enabled(s, step) && c in s.conns
    ensures Confined(s, step, Apply(s, step), c)
  {
    hide Confined, Touches;
    var task := step.task;
    if task.Remove? {
      RemoveIsConfined(s.(tasks := s.tasks - multiset{task}), step, task.c, c);
      SameConfined(s, s.(tasks := s.tasks - multiset{task}), step, Apply(s, step), c);
    } else {
      TaskTouches(s, task, step.leftover);
      TouchIsConfined(s, step, Execute(s, task, step.leftover), task.c, c);
      hide Execute;
    }
  }

  lemma SameConfined(s: System, s1: System, step: Step, s': System, c: ConnId)
    requires c in s.conns && s1 == s.(tasks := s1.tasks) && Confined(s1, step, s', c)
    ensures Confined(s, step, s', c)
  {
  }

  lemma AcceptIsConfined(s: System, l: LoopId, c: ConnId)
    requires Inv(s) && c in s.conns
    ensures Confined(s, Accept(l), Accepted(s, l), c)
  {
    assert c < s.nextId;
    hide Inv;
  }

  lemma TimerIsConfined(s: System, d: ConnId, c: ConnId)
    requires Enabled(s, TimerForceClose(d)) && c in s.conns
    ensures Confined(s, TimerForceClose(d), Apply(s, TimerForceClose(d)), c)
  {
    CloseTouches(s, d);
    assert Touches(s, s, d);
    hide HandleClose, Confined, Touches;
    TouchIsConfined(s, TimerForceClose(d), Apply(s, TimerForceClose(d)), d, c);
  }

  lemma OtherStepIsConfined(s: System, step: Step, c: ConnId)
    requires Enabled(s, step) && c in s.conns
    requires !step.CloseCallback? && !step.ReadCallback? && !step.WriteCallback? && !step.RunTask?
    requires !step.Accept? && !step.TimerForceClose?
    ensures Confined(s, step, Apply(s, step), c)
  {
    match step
    case Shutdown(d) => CallIsConfined(s, step, d, c);
    case ShutdownAfter(d) => CallIsConfined(s, step, d, c);
    case ForceClose(d) => CallIsConfined(s, step, d, c);
    case Send(d, inLoop, leftover) =>
      if inLoop {
        SendIsConfined(s, step, c);
      }
    case _ =>
  }

  lemma CallIsConfined(s: System, step: Step, d: ConnId, c: ConnId)
    requires d in s.conns && c in s.conns && (step == Shutdown(d) || step == ShutdownAfter(d) || step == ForceClose(d))
    ensures Confined(s, step, Apply(s, step), c)
  {
  }

  lemma SendIsConfined(s: System, step: Step, c: ConnId)
    requires c in s.conns && step.Send? && step.inLoop && Enabled(s, step)
    ensures Confined(s, step, Apply(s, step), c)
  {
    hide Confined;
    TouchIsConfined(s, step, Apply(s, step), step.c, c);
  }

  /** What the handlers assert with `AssertInLoopThread`, for every step of a run. */
  lemma StepsAreConfined(s: System, step: Step, c: ConnId)
    requires Inv(s) && Enabled(s, step) && c in s.conns
    ensures Confined(s, step, Apply(s, step), c)
  {
    if step.CloseCallback? || step.ReadCallback? || step.WriteCallback? {
      CallbackIsConfined(s, step, c);
    } else if step.RunTask? {
      TaskIsConfined(s, step, c);
    } else if step.Accept? {
      AcceptIsConfined(s, step.l, c);
      hide Inv, Accepted, Confined;
    } else if step.TimerForceClose? {
      TimerIsConfined(s, step.c, c);
    } else {
      OtherStepIsConfined(s, step, c);
    }
    hide Inv, Apply, Confined;
  }

  /** The step is a call from another thread that has the functor `t` queued. */
  predicate Asks(s: System, step: Step, t: Task)
    requires t.c in s.conns
  {
    match t
    case Sending(c) => step.Send? && step.c == c && !step.inLoop && s.conns[c].state.Connected?
    case RawShutdown(c) => step == ShutdownAfter(c) && s.conns[c].state.Connected?
    case ForceClosing(c) => step == ForceClose(c) && Open(s, c)
    case _ => false
  }

  predicate OfCall(t: Task) {
    t.Sending? || t.RawShutdown? || t.ForceClosing?
  }

  lemma CloseQueuesNoCall(s: System, c: ConnId, t: Task)
    requires c in s.conns && OfCall(t)
    ensures HandleClose(s, c).tasks[t] == s.tasks[t]
  {
  }

  lemma TaskQueuesNoCall(s: System, task: Task, leftover: bool, t: Task)
    requires task.c in s.conns && OfCall(t) && task in s.tasks
    ensures Execute(s, task, leftover).tasks[t] == s.tasks[t] - (if task == t then 1 else 0)
  {
    var s1 := s.(tasks := s.tasks - multiset{task});
    CloseQueuesNoCall(s1, task.c, t);
    hide HandleClose;
  }

  lemma EventQueuesNoCall(s: System, c: ConnId, mask: Mask, eof: bool, t: Task)
    requires c in s.conns && OfCall(t)
    ensures CloseEvent(s, c, mask).tasks[t] == s.tasks[t] && ReadEvent(s, c, mask, eof).tasks[t] == s.tasks[t]
  {
    CloseQueuesNoCall(s, c, t);
    hide HandleClose;
  }

  /** Every call from another thread has its functor queued once, and a loop runs each one once: no other step
      adds or takes any. */
  lemma CallsAreQueued(s: System, step: Step, t: Task)
    requires Enabled(s, step) && t.c in s.conns && OfCall(t)
    ensures Apply(s, step).tasks[t] + (if step.RunTask? && step.task == t then 1 else 0)
            == s.tasks[t] + (if Asks(s, step, t) then 1 else 0)
  {
    hide CloseEvent, ReadEvent, Execute, HandleClose;
    match step
    case CloseCallback(l) => EventQueuesNoCall(s, s.phase[l].current, s.phase[l].mask, false, t);
    case ReadCallback(l, eof) => EventQueuesNoCall(s, s.phase[l].current, s.phase[l].mask, eof, t);
    case RunTask(l, task, leftover) => TaskQueuesNoCall(s, task, leftover, t);
    case TimerForceClose(c) => CloseQueuesNoCall(s, c, t);
    case _ =>
  }

  // ---------------------------------------------------------------- how it fails

  const READABLE := Mask(false, true, false, false, false)
  const HANGUP := Mask(true, false, false, true, false)

  lemma RunStep(s: System, step: Step, steps: seq<Step>)
    ensures Run(s, [step] + steps) == Run(Apply(s, step), steps)
  {
    hide Apply;
    assert ([step] + steps)[1..] == steps;
  }

  lemma {:induction false} RunAppend(s: System, a: seq<Step>, b: seq<Step>)
    ensures Run(s, a + b) == Run(Run(s, a), b)
    decreases |a|
  {
    hide Apply;
    if a == [] {
      assert a + b == b;
    } else {
      RunAppend(Apply(s, a[0]), a[1..], b);
      assert (a + b)[1..] == a[1..] + b;
    }
  }

  /** An event whose read callback finds the end of file crashes on a connection that is closed. */
  lemma ClosedEventCrashes(s: System, l: LoopId, mask: Mask)
    requires l in s.phase && s.phase[l].Sweeping? && s.phase[l].active != [] && CallsRead(mask)
    requires s.phase[l].active[0] in s.conns && !Open(s, s.phase[l].active[0])
    ensures Run(s, [Begin(l, mask), CloseCallback(l), ReadCallback(l, true)]).crashed
  {
    var c := s.phase[l].active[0];
    var s1 := Apply(s, Begin(l, mask));
    var s2 := Apply(s1, CloseCallback(l));
    assert s1.phase[l].current == c && s1.conns == s.conns;
    assert AtStage(s2, l, ReadStage) && s2.phase[l].current == c && s2.phase[l].mask == mask && !Open(s2, c);
    ClosingAgainCrashes(s2, ReadCallback(l, true));
    hide Apply;
    ThreeSteps(s, Begin(l, mask), CloseCallback(l), ReadCallback(l, true));
  }

  lemma ThreeSteps(s: System, a: Step, b: Step, c: Step)
    ensures Run(s, [a, b, c]) == Apply(Apply(Apply(s, a), b), c)
  {
    hide Apply;
    RunStep(s, a, [b, c]);
    RunStep(Apply(s, a), b, [c]);
    RunStep(Apply(Apply(s, a), b), c, []);
    assert [a] + [b, c] == [a, b, c] && [b] + [c] == [b, c] && [c] + [] == [c];
  }

  lemma TimerCloses(s: System, l: LoopId)
    requires l in s.phase && s.phase[l].Sweeping? && s.phase[l].active != []
    requires s.phase[l].active[0] in s.conns && s.conns[s.phase[l].active[0]].loop == l
    ensures var c := s.phase[l].active[0];
            var s1 := Apply(s, TimerForceClose(c));
            s1.phase == s.phase && c in s1.conns && !Open(s1, c)
  {
  }

  /** The timer of `ShutdownAndForceCloseAfter` runs `ForceCloseInLoop` from the timer channel, in
      the sweep. Wherever a channel is next to be handled, a timer that closes its connection first and
      an end of file reported for it make `HandleClose` fail its assertion. */
  lemma TimerBeforeEventCrashes(s: System, l: LoopId, mask: Mask)
    requires l in s.phase && s.phase[l].Sweeping? && s.phase[l].active != [] && CallsRead(mask)
    requires s.phase[l].active[0] in s.conns && s.conns[s.phase[l].active[0]].loop == l
    ensures var timer := TimerForceClose(s.phase[l].active[0]);
            Run(s, [timer] + [Begin(l, mask), CloseCallback(l), ReadCallback(l, true)]).crashed
  {
    var timer := TimerForceClose(s.phase[l].active[0]);
    var s1 := Apply(s, timer);
    TimerCloses(s, l);
    hide Apply, Run;
    ClosedEventCrashes(s1, l, mask);
    RunStep(s, timer, [Begin(l, mask), CloseCallback(l), ReadCallback(l, true)]);
  }

  /** Hanging up and the end of file are reported in one event. */
  lemma HangUpCrashes(s: System, l: LoopId, mask: Mask)
    requires l in s.phase && s.phase[l].Sweeping? && s.phase[l].active != [] && CallsClose(mask) && CallsRead(mask)
    requires s.phase[l].active[0] in s.conns
    ensures Run(s, [Begin(l, mask), CloseCallback(l), ReadCallback(l, true)]).crashed
  {
    var c := s.phase[l].active[0];
    var s1 := Apply(s, Begin(l, mask));
    var s2 := Apply(s1, CloseCallback(l));
    assert s1.phase[l].current == c && s1.conns == s.conns;
    assert AtStage(s2, l, ReadStage) && s2.phase[l].current == c && s2.phase[l].mask == mask && !Open(s2, c);
    ClosingAgainCrashes(s2, ReadCallback(l, true));
    hide Apply;
    ThreeSteps(s, Begin(l, mask), CloseCallback(l), ReadCallback(l, true));
  }

  const OPENING := [Poll(BASE, []), Accept(BASE), EndSweep(BASE), EndCalling(BASE), Poll(BASE, [0])]

  /** One connection in the base loop, about to be handled. */
  lemma Opened()
    ensures var s := Run(Start({BASE}), OPENING);
            s.phase == map[BASE := Sweeping([0], [0])] && 0 in s.conns && s.conns[0].loop == BASE && Open(s, 0)
  {
    var s0 := Start({BASE});
    var s1 := Apply(s0, OPENING[0]);
    assert s1.phase[BASE] == Sweeping([], []);
    var s2 := Apply(s1, OPENING[1]);
    assert [] + [Established] == [Established];
    assert s2.conns == map[0 := Conn(BASE, Connected, true, false, true, [Established])];
    var s3 := Apply(s2, OPENING[2]);
    assert s3.phase[BASE] == Calling;
    var s4 := Apply(s3, OPENING[3]);
    assert s4.phase[BASE] == Polling;
    var s5 := Apply(s4, OPENING[4]);
    assert s5.phase[BASE] == Sweeping([0], [0]) && s5.conns == s2.conns;
    assert s5.phase == map[BASE := Sweeping([0], [0])];
    hide Apply;
    ThreeSteps(s0, OPENING[0], OPENING[1], OPENING[2]);
    RunStep(s3, OPENING[3], [OPENING[4]]);
    RunStep(s4, OPENING[4], []);
    assert [OPENING[3]] + [OPENING[4]] == [OPENING[3], OPENING[4]] && [OPENING[4]] + [] == [OPENING[4]];
    RunAppend(s0, [OPENING[0], OPENING[1], OPENING[2]], [OPENING[3], OPENING[4]]);
    assert OPENING == [OPENING[0], OPENING[1], OPENING[2]] + [OPENING[3], OPENING[4]];
  }

  predicate UsesTimer(steps: seq<Step>) {
    exists i :: 0 <= i < |steps| && steps[i].TimerForceClose?
  }

  /** Both failures are reached from the start: with the timer, and with one event alone. */
  lemma CrashesAreReachable()
    ensures exists steps :: SomeClosesAgain(Start({BASE}), steps) && UsesTimer(steps)
    ensures exists steps :: SomeClosesAgain(Start({BASE}), steps) && !UsesTimer(steps)
  {
    hide Run, Apply, SomeClosesAgain;
    var s0, s := Start({BASE}), Run(Start({BASE}), OPENING);
    Opened();
    var event := [Begin(BASE, READABLE), CloseCallback(BASE), ReadCallback(BASE, true)];
    var timer := [TimerForceClose(0)] + event;
    TimerBeforeEventCrashes(s, BASE, READABLE);
    RunAppend(s0, OPENING, timer);
    CrashesIff({BASE}, OPENING + timer);
    assert (OPENING + timer)[5].TimerForceClose?;
    var both := [Begin(BASE, HANGUP), CloseCallback(BASE), ReadCallback(BASE, true)];
    HangUpCrashes(s, BASE, HANGUP);
    RunAppend(s0, OPENING, both);
    CrashesIff({BASE}, OPENING + both);
  }

  // ---------------------------------------------------------------- the functor queues

  /** How often a functor is in the queue of its loop. */
  function CountIn(queues: map<LoopId, seq<Task>>, s: System, t: Task): (n: nat) {
    if t.c in s.conns && TaskLoop(s, t) in queues then multiset(queues[TaskLoop(s, t)])[t] else 0
  }

  /** The queues of the loops hold, in some order, the functors of the bag, each in the queue of its loop. */
  ghost predicate Holds(queues: map<LoopId, seq<Task>>, s: System) {
    && queues.Keys == s.phase.Keys
    && (forall l, t :: l in queues && t in queues[l] ==> t.c in s.conns && TaskLoop(s, t) == l)
    && (forall t: Task :: s.tasks[t] == CountIn(queues, s, t))
  }

  ghost predicate SameLoops(s: System, s': System) {
    && s'.phase.Keys == s.phase.Keys
    && (forall c :: c in s.conns ==> c in s'.conns && s'.conns[c].loop == s.conns[c].loop)
  }

  lemma KeepHolds(queues: map<LoopId, seq<Task>>, s: System, s': System)
    requires Holds(queues, s) && SameLoops(s, s') && s'.tasks == s.tasks
    ensures Holds(queues, s')
  {
    forall t: Task
      ensures CountIn(queues, s', t) == CountIn(queues, s, t)
    {
      if t.c in s'.conns && TaskLoop(s', t) in queues {
        assert t.c !in s.conns ==> t !in queues[TaskLoop(s', t)];
      }
    }
  }

  lemma PushHolds(queues: map<LoopId, seq<Task>>, s: System, t: Task)
    requires Holds(queues, s) && t.c in s.conns && TaskLoop(s, t) in queues
    ensures var l := TaskLoop(s, t);
            Holds(queues[l := queues[l] + [t]], s.(tasks := s.tasks + multiset{t}))
  {
    var l := TaskLoop(s, t);
    var queues', s' := queues[l := queues[l] + [t]], s.(tasks := s.tasks + multiset{t});
    assert multiset(queues[l] + [t]) == multiset(queues[l]) + multiset{t};
    forall u: Task
      ensures s'.tasks[u] == CountIn(queues', s', u)
    {
      assert s.tasks[u] == CountIn(queues, s, u);
    }
    forall k, u: Task | k in queues' && u in queues'[k]
      ensures u.c in s'.conns && TaskLoop(s', u) == k
    {
      assert u == t || u in queues[k];
    }
  }

  lemma FirstIsTask(queues: map<LoopId, seq<Task>>, s: System, l: LoopId)
    requires Holds(queues, s) && l in queues && queues[l] != []
    ensures var t := queues[l][0]; t in s.tasks && t.c in s.conns && TaskLoop(s, t) == l
  {
    var t := queues[l][0];
    assert t in queues[l];
    assert s.tasks[t] == CountIn(queues, s, t);
  }

  lemma PopCounts(queues: map<LoopId, seq<Task>>, s: System, l: LoopId, u: Task)
    requires l in queues && queues[l] != [] && s.tasks[u] == CountIn(queues, s, u)
    requires queues[l][0].c in s.conns && TaskLoop(s, queues[l][0]) == l
    ensures var t := queues[l][0];
            var s' := s.(tasks := s.tasks - multiset{t});
            s'.tasks[u] == CountIn(queues[l := queues[l][1..]], s', u)
  {
    var q := queues[l];
    assert q == [q[0]] + q[1..];
    assert multiset(q) == multiset{q[0]} + multiset(q[1..]);
  }

  lemma PopHolds(queues: map<LoopId, seq<Task>>, s: System, l: LoopId)
    requires Holds(queues, s) && l in queues && queues[l] != []
    ensures Holds(queues[l := queues[l][1..]], s.(tasks := s.tasks - multiset{queues[l][0]}))
  {
    FirstIsTask(queues, s, l);
    var queues', s' := queues[l := queues[l][1..]], s.(tasks := s.tasks - multiset{queues[l][0]});
    forall u: Task
      ensures s'.tasks[u] == CountIn(queues', s', u)
    {
      PopCounts(queues, s, l, u);
    }
    hide CountIn;
    forall k, u: Task | k in queues' && u in queues'[k]
      ensures u.c in s'.conns && TaskLoop(s', u) == k
    {
      assert u in queues[k];
    }
  }

  /** The functor at `i` does not hold its connection: the channel is still in the poller, and no functor that
      destroys the connection is ahead. */
  predicate RawOk(queue: seq<Task>, i: nat, conns: map<ConnId, Conn>)
    requires i < |queue|
  {
    var c := queue[i].c;
    c in conns && conns[c].added && forall j :: 0 <= j < i ==> queue[j] != Destroy(c)
  }

  predicate RawFirst(queue: seq<Task>, conns: map<ConnId, Conn>) {
    forall i :: 0 <= i < |queue| && queue[i].RawShutdown? ==> RawOk(queue, i, conns)
  }

  predicate AllRawFirst(queues: map<LoopId, seq<Task>>, conns: map<ConnId, Conn>) {
    forall l :: l in queues ==> RawFirst(queues[l], conns)
  }

  predicate NoRaw(queues: map<LoopId, seq<Task>>, c: ConnId) {
    forall l :: l in queues ==> RawShutdown(c) !in queues[l]
  }

  lemma RawUpdate(queues: map<LoopId, seq<Task>>, conns: map<ConnId, Conn>, c: ConnId, conn: Conn)
    requires AllRawFirst(queues, conns) && (conn.added || NoRaw(queues, c) || (c in conns && !conns[c].added))
    ensures AllRawFirst(queues, conns[c := conn])
  {
    forall l | l in queues
      ensures RawFirst(queues[l], conns[c := conn])
    {
      var q := queues[l];
      assert RawFirst(q, conns);
      forall i | 0 <= i < |q| && q[i].RawShutdown?
        ensures RawOk(q, i, conns[c := conn])
      {
        assert RawOk(q, i, conns) && q[i] in q;
      }
    }
  }

  lemma RawPush(queue: seq<Task>, conns: map<ConnId, Conn>, t: Task)
    requires RawFirst(queue, conns)
    requires t.RawShutdown? ==> t.c in conns && conns[t.c].added && Destroy(t.c) !in queue
    ensures RawFirst(queue + [t], conns)
  {
    var q := queue + [t];
    forall i | 0 <= i < |q| && q[i].RawShutdown?
      ensures RawOk(q, i, conns)
    {
      if i < |queue| {
        assert RawOk(queue, i, conns);
      }
    }
  }

  lemma RawPop(queue: seq<Task>, conns: map<ConnId, Conn>)
    requires RawFirst(queue, conns) && queue != []
    ensures RawFirst(queue[1..], conns)
    ensures queue[0].Destroy? ==> RawShutdown(queue[0].c) !in queue[1..]
  {
    var q := queue[1..];
    forall i | 0 <= i < |q| && q[i].RawShutdown?
      ensures RawOk(q, i, conns) && (queue[0].Destroy? ==> q[i] != RawShutdown(queue[0].c))
    {
      assert RawOk(queue, i + 1, conns);
      assert forall j :: 0 <= j < i ==> q[j] == queue[j + 1];
    }
  }

  /** When a connection's destruction is taken off the queue, no functor that does not hold it is left. */
  lemma TakenDestroy(queues: map<LoopId, seq<Task>>, s: System, l: LoopId)
    requires Holds(queues, s) && l in queues && queues[l] != [] && RawFirst(queues[l], s.conns)
    ensures queues[l][0].Destroy? ==> NoRaw(queues[l := queues[l][1..]], queues[l][0].c)
  {
    RawPop(queues[l], s.conns);
    FirstIsTask(queues, s, l);
    var t := queues[l][0];
    if t.Destroy? {
      forall k | k in queues && k != l
        ensures RawShutdown(t.c) !in queues[k]
      {
        assert RawShutdown(t.c) in queues[k] ==> TaskLoop(s, RawShutdown(t.c)) == k;
      }
    }
  }

  lemma TakeKeepsRawFirst(queues: map<LoopId, seq<Task>>, s: System, l: LoopId)
    requires Holds(queues, s) && AllRawFirst(queues, s.conns) && l in queues && queues[l] != []
    ensures AllRawFirst(queues[l := queues[l][1..]], s.conns)
    ensures queues[l][0].Destroy? ==> NoRaw(queues[l := queues[l][1..]], queues[l][0].c)
  {
    hide Holds, RawFirst, NoRaw;
    assert RawFirst(queues[l], s.conns);
    RawPop(queues[l], s.conns);
    TakenDestroy(queues, s, l);
  }

  /** A connection whose channel is in the poller is held: by the map, or by a functor that removes or
      destroys it. */
  predicate IsHeld(s: System, c: ConnId) {
    c in s.connections || Remove(c) in s.tasks || Destroy(c) in s.tasks
  }

  lemma AddedIsHeld(s: System, c: ConnId)
    requires c in s.conns && OnCourse(s, c) && s.conns[c].added
    ensures IsHeld(s, c)
  {
  }

  lemma ConnectedIsUndestroyed(queues: map<LoopId, seq<Task>>, s: System, c: ConnId)
    requires Holds(queues, s) && c in s.conns && OnCourse(s, c) && s.conns[c].state.Connected?
    requires s.conns[c].loop in s.phase
    ensures s.conns[c].loop in queues && s.conns[c].added && Destroy(c) !in queues[s.conns[c].loop]
  {
    assert s.tasks[Destroy(c)] == CountIn(queues, s, Destroy(c));
  }

  /** What a functor asserts when it runs. */
  predicate CanRun(s: System, task: Task)
    requires task.c in s.conns
  {
    var conn := s.conns[task.c];
    match task
    case Establish(_) => conn.state.Connecting?
    case Remove(c) => c in s.connections
    case Destroy(c) => conn.added && !conn.state.Connected? && !conn.reading && !conn.writing && !InSweep(s, c)
    case ForceClosing(c) => Open(s, c) ==> c in s.connections
    case Sending(_) => true
    case RawShutdown(_) => true
  }

  lemma TokenCanRun(s: System, t: Task)
    requires t in s.tasks && t.c in s.conns && OnCourse(s, t.c) && InPhase(s, TaskLoop(s, t), Calling)
    ensures CanRun(s.(tasks := s.tasks - multiset{t}), t)
  {
  }

  /** The oldest functor of a loop that is running functors. */
  lemma OldestFacts(queues: map<LoopId, seq<Task>>, s: System, l: LoopId, leftover: bool)
    requires Holds(queues, s) && Inv(s) && InPhase(s, l, Calling) && l in queues && queues[l] != []
    ensures var t := queues[l][0];
            && t.c in s.conns && CanRun(s.(tasks := s.tasks - multiset{t}), t)
            && Apply(s, RunTask(l, t, leftover)) == Perform(s.(tasks := s.tasks - multiset{t}), t, leftover)
            && Inv(Apply(s, RunTask(l, t, leftover)))
  {
    hide Holds, Inv, CanRun, Apply, Perform;
    var t := queues[l][0];
    FirstIsTask(queues, s, l);
    CourseOf(s, t.c);
    TokenCanRun(s, t);
    RunTaskIs(s, l, t, leftover);
    ExecuteKeepsInv(s, t, leftover);
  }

  lemma CourseOf(s: System, c: ConnId)
    requires Inv(s) && c in s.conns
    ensures OnCourse(s, c)
  {
  }

  lemma RunTaskIs(s: System, l: LoopId, t: Task, leftover: bool)
    requires InPhase(s, l, Calling) && t in s.tasks && t.c in s.conns && TaskLoop(s, t) == l
    ensures Apply(s, RunTask(l, t, leftover)) == Execute(s, t, leftover)
  {
    hide Execute;
  }

  lemma AcceptFacts(s: System, l: LoopId)
    requires Inv(s) && l in s.phase && BASE in s.phase && s.phase[BASE].Sweeping?
    ensures Inv(Accepted(s, l)) && s.nextId !in s.conns && Apply(s, Accept(l)) == Accepted(s, l)
  {
    hide OnCourse, SweepOk, Accepted;
    AcceptKeepsInv(s, l);
  }

  function EventSteps(l: LoopId, mask: Mask, eof: bool, drained: bool): (steps: seq<Step>) {
    [Begin(l, mask), CloseCallback(l), ReadCallback(l, eof), WriteCallback(l, drained)]
  }

  lemma EventRun(s: System, l: LoopId, mask: Mask, eof: bool, drained: bool)
    ensures var s1 := Apply(s, Begin(l, mask));
            var s2 := Apply(s1, CloseCallback(l));
            var s3 := Apply(s2, ReadCallback(l, eof));
            && Run(s, EventSteps(l, mask, eof, drained)) == Apply(s3, WriteCallback(l, drained))
            && (!SomeClosesAgain(s, EventSteps(l, mask, eof, drained)) ==>
                  !ClosesAgain(s1, CloseCallback(l)) && !ClosesAgain(s2, ReadCallback(l, eof)))
  {
    hide Apply, ClosesAgain;
    var steps := EventSteps(l, mask, eof, drained);
    assert steps[1..][1..] == steps[2..] && steps[2..][1..] == steps[3..] && steps[3..][1..] == [];
    var s1 := Apply(s, steps[0]);
    var s2 := Apply(s1, steps[1]);
    var s3 := Apply(s2, steps[2]);
    assert Run(s3, steps[3..]) == Apply(s3, steps[3]);
    assert Run(s2, steps[2..]) == Run(s3, steps[3..]);
    assert Run(s1, steps[1..]) == Run(s2, steps[2..]);
    assert SomeClosesAgain(s1, steps[1..]) == (ClosesAgain(s1, steps[1]) || SomeClosesAgain(s2, steps[2..]));
    assert SomeClosesAgain(s2, steps[2..]) == (ClosesAgain(s2, steps[2]) || SomeClosesAgain(s3, steps[3..]));
  }

  /** Where an event stands after each of its callbacks. */
  lemma EventStages(s: System, l: LoopId, mask: Mask, eof: bool)
    requires Enabled(s, Begin(l, mask)) && s.phase[l].active[0] in s.conns
    ensures var s1 := Apply(s, Begin(l, mask));
            var s2 := Apply(s1, CloseCallback(l));
            && AtStage(s1, l, CloseStage) && AtStage(s2, l, ReadStage)
            && AtStage(Apply(s2, ReadCallback(l, eof)), l, WriteStage)
  {
  }

  /** A connection that may be closed is in the map. */
  lemma OpenIsMapped(s: System, c: ConnId)
    requires Inv(s) && c in s.conns
    ensures Open(s, c) ==> c in s.connections
  {
    assert OnCourse(s, c);
  }

  /** The server, its connections and the functor queues of its loops. What the handlers assert, the
      methods for them require; the methods that drive them show it holds. */
  class TcpServer {
    var connections: set<ConnId>
    var nextConnId: nat
    var conns: map<ConnId, Conn>
    var queues: map<LoopId, seq<Task>>   // pending_functors_ of the loops, oldest first
    var phase: map<LoopId, Phase>
    ghost var tasks: multiset<Task>

    ghost function View(): (s: System)
      reads this
    {
      System(phase, conns, connections, nextConnId, tasks, false)
    }

    ghost predicate Linked()
      reads this
    {
      && Holds(queues, View()) && BASE in phase && (forall c :: c in conns ==> conns[c].loop in phase)
      && AllRawFirst(queues, conns)
    }

    ghost predicate Valid()
      reads this
    {
      Linked() && Inv(View())
    }

    constructor (loops: set<LoopId>)
      requires BASE in loops
      ensures Valid() && View() == Start(loops)
    {
      connections, nextConnId, conns, tasks := {}, 0, map[], multiset{};
      queues := map l | l in loops :: [];
      phase := map l | l in loops :: Polling;
      new;
      StartInv(loops);
    }

    method Update(c: ConnId, conn: Conn)
      requires Linked() && c in conns && conn.loop == conns[c].loop
      requires (conns[c].added ==> conn.added) || NoRaw(queues, c)
      modifies this`conns
      ensures Linked() && View() == Put(old(View()), c, conn)
    {
      KeepHolds(queues, View(), Put(View(), c, conn));
      RawUpdate(queues, conns, c, conn);
      hide Holds, AllRawFirst;
      conns := conns[c := conn];
    }

    method Queue(t: Task)
      requires Linked() && t.c in conns
      requires t.RawShutdown? ==> conns[t.c].added && Destroy(t.c) !in queues[conns[t.c].loop]
      modifies this`queues, this`tasks
      ensures Linked() && View() == old(View()).(tasks := old(tasks) + multiset{t})
    {
      PushHolds(queues, View(), t);
      RawPush(queues[TaskLoop(View(), t)], conns, t);
      hide Holds, RawFirst;
      var l := if t.Remove? then BASE else conns[t.c].loop;
      queues := queues[l := queues[l] + [t]];
      tasks := tasks + multiset{t};
    }

    method Establish(c: ConnId)
      requires Linked() && c in conns && conns[c].state.Connecting?
      modifies this`conns
      ensures Linked() && View() == ConnectEstablished(old(View()), c)
    {
      var conn := conns[c];
      Update(c, conn.(state := Connected, reading := true, added := true, log := conn.log + [Established]));
    }

    method Erase(c: ConnId)
      requires Linked() && c in conns && c in connections
      modifies this
      ensures Linked() && View() == RemoveConnectionInLoop(old(View()), c)
    {
      Update(c, conns[c].(log := conns[c].log + [Erased]));
      Queue(Destroy(c));
      KeepHolds(queues, View(), View().(connections := connections - {c}));
      hide Holds, AllRawFirst;
      connections := connections - {c};
    }

    method Close(c: ConnId)
      requires Linked() && c in conns && Open(View(), c) && c in connections
      modifies this
      ensures Linked() && View() == HandleClose(old(View()), c)
    {
      var conn := conns[c];
      Update(c, conn.(state := Disconnected, reading := false, writing := false, log := conn.log + [Closed]));
      if conn.loop == BASE {
        Erase(c);
      } else {
        Queue(Remove(c));
      }
    }

    method DestroyConnection(c: ConnId)
      requires Linked() && c in conns && conns[c].added && !conns[c].state.Connected?
      requires !conns[c].reading && !conns[c].writing && !InSweep(View(), c) && NoRaw(queues, c)
      modifies this`conns
      ensures Linked() && View() == ConnectDestroyed(old(View()), c)
    {
      Update(c, conns[c].(added := false, log := conns[c].log + [Destroyed]));
    }

    /** The connection object is made and put into the map. */
    method Register(ioLoop: LoopId) returns (c: ConnId)
      requires Linked() && ioLoop in phase && nextConnId !in conns
      modifies this`nextConnId, this`conns, this`connections
      ensures Linked() && c == old(nextConnId)
      ensures View() == Put(old(View()), c, Conn(ioLoop, Connecting, false, false, false, []))
                          .(connections := old(connections) + {c}, nextId := c + 1)
    {
      c := nextConnId;
      var conn := Conn(ioLoop, Connecting, false, false, false, []);
      KeepHolds(queues, View(), Put(View(), c, conn).(connections := connections + {c}, nextId := c + 1));
      NewHasNoRaw(queues, View(), c);
      RawUpdate(queues, conns, c, conn);
      hide Holds, AllRawFirst;
      nextConnId := nextConnId + 1;
      conns := conns[c := conn];
      connections := connections + {c};
    }

    /** `NewConnection`, with the establishment run at once in the base loop and queued elsewhere. */
    method NewConnection(ioLoop: LoopId)
      requires Valid() && ioLoop in phase && phase[BASE].Sweeping?
      modifies this
      ensures Valid() && View() == Apply(old(View()), Accept(ioLoop))
    {
      hide Holds, Inv, Apply, AllRawFirst;
      AcceptFacts(View(), ioLoop);
      var c := Register(ioLoop);
      if ioLoop == BASE {
        Establish(c);
      } else {
        Queue(Task.Establish(c));
      }
    }

    method Take(l: LoopId) returns (task: Task)
      requires Linked() && l in queues && queues[l] != []
      modifies this`queues, this`tasks
      ensures Linked() && task == old(queues[l][0]) && queues == old(queues)[l := old(queues[l][1..])]
      ensures View() == old(View()).(tasks := old(tasks) - multiset{task})
      ensures task.Destroy? ==> NoRaw(queues, task.c)
    {
      hide Holds, AllRawFirst, NoRaw;
      PopHolds(queues, View(), l);
      TakeKeepsRawFirst(queues, View(), l);
      task := queues[l][0];
      queues := queues[l := queues[l][1..]];
      tasks := tasks - multiset{task};
    }

    method Call(task: Task, leftover: bool)
      requires Linked() && task.c in conns && CanRun(View(), task) && (task.Destroy? ==> NoRaw(queues, task.c))
      modifies this
      ensures Linked() && View() == Perform(old(View()), task, leftover)
    {
      hide Holds, AllRawFirst, NoRaw;
      match task
      case Establish(c) => Establish(c);
      case Remove(c) => Erase(c);
      case Destroy(c) => DestroyConnection(c);
      case Sending(c) =>
        if !conns[c].state.Disconnected? {
          Update(c, conns[c].(writing := conns[c].writing || leftover));
        }
      case ForceClosing(c) =>
        if conns[c].state.Connected? || conns[c].state.Disconnecting? {
          Close(c);
        }
      case RawShutdown(_) =>
    }

    /** The loop takes its oldest functor off the queue and runs it: what the functor asserts holds, the
        connections stay on their course, and a functor that does not hold its connection finds it held. */
    method RunOldest(l: LoopId, leftover: bool)
      requires Valid() && InPhase(View(), l, Calling) && l in queues && queues[l] != []
      modifies this
      ensures Valid() && View() == Apply(old(View()), RunTask(l, old(queues[l][0]), leftover))
      ensures old(queues[l][0]).RawShutdown? ==> IsHeld(old(View()), old(queues[l][0]).c)
    {
      OldestIsHeld(queues, View(), l);
      hide Holds, Inv, Apply, Perform, CanRun, AllRawFirst, NoRaw, IsHeld;
      OldestFacts(queues, View(), l, leftover);
      var task := Take(l);
      Call(task, leftover);
    }

    /** `ShutdownAndForceCloseAfter` from another thread: the functor it queues has only a plain pointer. */
    method ShutdownAfterFrom(c: ConnId)
      requires Valid() && c in conns
      modifies this
      ensures Valid() && View() == Apply(old(View()), ShutdownAfter(c))
    {
      hide Holds, Inv, Apply, AllRawFirst, OnCourse;
      PublicCallKeepsInv(View(), ShutdownAfter(c));
      ShutdownAfterIs(View(), c);
      if conns[c].state.Connected? {
        CourseOf(View(), c);
        ConnectedIsUndestroyed(queues, View(), c);
        Update(c, conns[c].(state := Disconnecting));
        Queue(RawShutdown(c));
      }
    }

    method Enter(l: LoopId, p: Phase)
      requires Linked() && l in phase
      modifies this`phase
      ensures Linked() && View() == SetPhase(old(View()), l, p)
    {
      KeepHolds(queues, View(), SetPhase(View(), l, p));
      hide Holds, AllRawFirst;
      phase := phase[l := p];
    }

    method CloseIf(c: ConnId, closes: bool)
      requires Linked() && c in conns && (closes ==> Open(View(), c) && c in connections)
      modifies this
      ensures Linked() && View() == if closes then HandleClose(old(View()), c) else old(View())
    {
      hide Holds, AllRawFirst;
      if closes {
        Close(c);
      }
    }

    /** The close callback, if the event calls for it. */
    method OnClose(l: LoopId)
      requires Valid() && AtStage(View(), l, CloseStage) && !ClosesAgain(View(), CloseCallback(l))
      modifies this
      ensures Valid() && View() == Apply(old(View()), CloseCallback(l))
    {
      CloseCallbackKeepsInv(View(), l);
      OpenIsMapped(View(), phase[l].current);
      hide Holds, Inv, HandleClose, AllRawFirst;
      var p := phase[l];
      CloseIf(p.current, p.mask.hup && !p.mask.readable);
      Enter(l, p.(stage := ReadStage));
    }

    /** The read callback, if the event calls for it. */
    method OnRead(l: LoopId, eof: bool)
      requires Valid() && AtStage(View(), l, ReadStage) && !ClosesAgain(View(), ReadCallback(l, eof))
      modifies this
      ensures Valid() && View() == Apply(old(View()), ReadCallback(l, eof))
    {
      ReadCallbackKeepsInv(View(), l, eof);
      OpenIsMapped(View(), phase[l].current);
      hide Holds, Inv, HandleClose, AllRawFirst;
      var p := phase[l];
      CloseIf(p.current, (p.mask.readable || p.mask.pri || p.mask.rdhup) && eof);
      Enter(l, p.(stage := WriteStage));
    }

    method OnWrite(l: LoopId, drained: bool)
      requires Valid() && AtStage(View(), l, WriteStage)
      modifies this
      ensures Valid() && View() == Apply(old(View()), WriteCallback(l, drained))
    {
      hide Holds, Inv, Apply, AllRawFirst;
      WriteCallbackKeepsInv(View(), l, drained);
      WriteCallbackSteps(View(), l, drained);
      var p := phase[l];
      if p.mask.writable && conns[p.current].writing && drained {
        Update(p.current, conns[p.current].(writing := false));
      }
      Enter(l, Sweeping(p.active, p.polled));
    }

    /** All callbacks of the next event, in the order of `HandleEventWithGuard`. */
    method HandleEvent(l: LoopId, mask: Mask, eof: bool, drained: bool)
      requires Valid() && Enabled(View(), Begin(l, mask))
      requires !SomeClosesAgain(View(), EventSteps(l, mask, eof, drained))
      modifies this
      ensures Valid() && View() == Run(old(View()), EventSteps(l, mask, eof, drained))
    {
      ghost var s := View();
      BeginFacts(s, l, mask);
      EventStages(s, l, mask, eof);
      EventRun(s, l, mask, eof, drained);
      hide Holds, Inv, Run, SomeClosesAgain, Apply, ClosesAgain, AtStage, AllRawFirst;
      var p := phase[l];
      Enter(l, Handling(p.active[0], CloseStage, mask, p.active[1..], p.polled));
      OnClose(l);
      OnRead(l, eof);
      OnWrite(l, drained);
    }
  }

  lemma ShutdownAfterIs(s: System, c: ConnId)
    requires c in s.conns
    ensures Apply(s, ShutdownAfter(c)) ==
            if s.conns[c].state.Connected?
            then Put(s, c, s.conns[c].(state := Disconnecting)).(tasks := s.tasks + multiset{RawShutdown(c)})
            else s
  {
  }

  lemma NewHasNoRaw(queues: map<LoopId, seq<Task>>, s: System, c: ConnId)
    requires Holds(queues, s) && c !in s.conns
    ensures NoRaw(queues, c)
  {
    forall l | l in queues
      ensures RawShutdown(c) !in queues[l]
    {
      assert RawShutdown(c) in queues[l] ==> c in s.conns;
    }
  }

  lemma OldestIsHeld(queues: map<LoopId, seq<Task>>, s: System, l: LoopId)
    requires Inv(s) && AllRawFirst(queues, s.conns) && l in queues && queues[l] != []
    ensures queues[l][0].RawShutdown? ==> IsHeld(s, queues[l][0].c)
  {
    hide SweepOk;
    assert RawFirst(queues[l], s.conns);
    var t := queues[l][0];
    if t.RawShutdown? {
      assert RawOk(queues[l], 0, s.conns);
      AddedIsHeld(s, t.c);
    }
  }

  lemma WriteCallbackSteps(s: System, l: LoopId, drained: bool)
    requires AtStage(s, l, WriteStage)
    ensures var p := s.phase[l];
            Apply(s, WriteCallback(l, drained)) ==
            SetPhase(WriteEvent(s, p.current, p.mask, drained), l, Sweeping(p.active, p.polled))
  {
    hide WriteEvent;
  }

  lemma BeginFacts(s: System, l: LoopId, mask: Mask)
    requires Inv(s) && Enabled(s, Begin(l, mask))
    ensures var p := s.phase[l];
            && p.active[0] in s.conns && Inv(Apply(s, Begin(l, mask)))
            && Apply(s, Begin(l, mask)) ==
               SetPhase(s, l, Handling(p.active[0], CloseStage, mask, p.active[1..], p.polled))
  {
    assert SweepOk(s, l) && s.phase[l].active[0] in s.phase[l].active;
    hide OnCourse;
    BeginKeepsInv(s, l, mask);
  }
}
