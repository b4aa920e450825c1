/** The state of a `TcpConnection`. */
module ConnStates {
  datatype ConnState = Disconnected | Connecting | Connected | Disconnecting
}

/** The send path and half-close of `mytinyhttpd/net/tcp_connnection.cc`.

    A connection is driven by its loop thread (events, queued functors, calls made in the loop) and
    by calls from other threads, each taken as one step; what `write` returns is part of the step.
    The bytes handed to the socket and the messages accepted for sending are recorded, so that what
    the peer receives can be compared with what was sent over whole runs.
 */
module TcpConnections {
  import opened Buffers
  import opened ConnStates

  /** The functors a connection queues on its loop. */
  datatype Task =
    | SendTask(message: string)
    | ShutdownTask(thenClose: bool)   // ShutdownInLoop, or ShutdownAndForceCloseInLoop
    | ForceCloseTask

  /** What `write` does: it takes a prefix, would block, fails, or finds the connection broken
      (EPIPE or ECONNRESET). */
  datatype WriteResult = Wrote(n: nat) | WouldBlock | Failed | Broken

  datatype Conn = Conn(
    state: ConnState,
    writing: bool,          // channel_->IsWriting()
    out: string,            // readable bytes of output_buffer_
    queue: seq<Task>,       // this connection's functors in the loop, oldest first
    mark: nat,              // high_water_mark_
    closeTimers: nat,       // timers that will call ForceCloseInLoop
    delayTimers: nat,       // timers that will call ForceClose
    // what has happened so far
    socket: string,         // bytes `write` took
    accepted: string,       // bytes of the messages SendInLoop took on
    shuts: nat,             // ShutdownWrite calls on the open connection
    lateShuts: nat,         // ShutdownWrite calls after it was closed
    shutLength: int,        // |socket| at the first of the former, or -1
    highWater: seq<nat>,    // arguments of the queued high-water-mark callbacks
    complete: nat)          // queued write-complete callbacks

  datatype Step =
    | Send(message: string, inLoop: bool, w: WriteResult)
    | Shutdown(inLoop: bool, thenClose: bool)   // Shutdown, or ShutdownAndForceCloseAfter
    | ForceClose
    | ForceCloseWithDelay
    | CloseTimer
    | DelayTimer
    | RunTask(w: WriteResult)
    | WriteEvent(w: WriteResult)
    | CloseEvent

  // ---------------------------------------------------------------- one call at a time

  /** The prefix `write` takes: never more than it is offered. */
  function Taken(w: WriteResult, offered: nat): (n: nat)
    ensures n <= offered
  {
    if w.Wrote? then (if w.n <= offered then w.n else offered) else 0
  }

  /** A message is taken on and its first `n` bytes are written. */
  function Offer(c: Conn, data: string, n: nat): (c': Conn)
    requires n <= |data|
  {
    c.(accepted := c.accepted + data, socket := c.socket + data[..n])
  }

  /** The unwritten rest of a message joins the backlog. */
  function Backlog(c: Conn, rest: string): (c': Conn) {
    var crosses := |c.out| + |rest| >= c.mark && |c.out| < c.mark;
    c.(highWater := if crosses then c.highWater + [|c.out| + |rest|] else c.highWater,
       out := c.out + rest,
       writing := true)
  }

  function AfterSend(c: Conn, data: string, w: WriteResult): (c': Conn) {
    if c.state.Disconnected? then c
    else if c.writing || c.out != "" then
      (if data == "" then c else Backlog(Offer(c, data, 0), data))
    else if w.Broken? then c
    else
      var n := Taken(w, |data|);
      var c1 := Offer(c, data, n);
      if n < |data| then Backlog(c1, data[n..])
      else if w.Wrote? then c1.(complete := c.complete + 1)
      else c1
  }

  function AfterShutdown(c: Conn): (c': Conn) {
    if c.writing then c
    else if c.state.Disconnected? then c.(lateShuts := c.lateShuts + 1)
    else c.(shuts := c.shuts + 1, shutLength := if c.shuts == 0 then |c.socket| else c.shutLength)
  }

  /** `ShutdownInLoop` and, with a timer to force the close, `ShutdownAndForceCloseInLoop`. */
  function AfterShutdownTask(c: Conn, thenClose: bool): (c': Conn) {
    var c1 := AfterShutdown(c);
    if thenClose then c1.(closeTimers := c.closeTimers + 1) else c1
  }

  function AfterWriteEvent(c: Conn, w: WriteResult): (c': Conn) {
    var n := Taken(w, |c.out|);
    if !c.writing || n == 0 then c
    else
      var c1 := c.(socket := c.socket + c.out[..n], out := c.out[n..]);
      if c1.out != "" then c1
      else
        var c2 := c1.(writing := false, complete := c.complete + 1);
        if c.state.Disconnecting? then AfterShutdown(c2) else c2
  }

  function AfterClose(c: Conn): (c': Conn) {
    c.(state := Disconnected, writing := false)
  }

  predicate Open(c: Conn) {
    c.state.Connected? || c.state.Disconnecting?
  }

  /** `ForceCloseInLoop`. */
  function AfterForceClose(c: Conn): (c': Conn) {
    if Open(c) then AfterClose(c) else c
  }

  /** `ForceClose`. */
  function QueueForceClose(c: Conn): (c': Conn) {
    if Open(c) then c.(state := Disconnecting, queue := c.queue + [ForceCloseTask]) else c
  }

  function Apply(c: Conn, step: Step): (c': Conn) {
    match step
    case Send(m, inLoop, w) =>
      if !c.state.Connected? then c
      else if inLoop then AfterSend(c, m, w)
      else c.(queue := c.queue + [SendTask(m)])
    case Shutdown(inLoop, thenClose) =>
      if !c.state.Connected? then c
      else if inLoop then AfterShutdownTask(c.(state := Disconnecting), thenClose)
      else c.(state := Disconnecting, queue := c.queue + [ShutdownTask(thenClose)])
    case ForceClose => QueueForceClose(c)
    case ForceCloseWithDelay =>
      if Open(c) then c.(state := Disconnecting, delayTimers := c.delayTimers + 1) else c
    case CloseTimer =>
      if c.closeTimers == 0 then c else AfterForceClose(c.(closeTimers := c.closeTimers - 1))
    case DelayTimer =>
      if c.delayTimers == 0 then c else QueueForceClose(c.(delayTimers := c.delayTimers - 1))
    case RunTask(w) =>
      if c.queue == [] then c
      else
        var c1 := c.(queue := c.queue[1..]);
        (match c.queue[0]
         case SendTask(m) => AfterSend(c1, m, w)
         case ShutdownTask(thenClose) => AfterShutdownTask(c1, thenClose)
         case ForceCloseTask => AfterForceClose(c1))
    case WriteEvent(w) => AfterWriteEvent(c, w)
    case CloseEvent => AfterForceClose(c)
  }

  function Run(c: Conn, steps: seq<Step>): (c': Conn)
    decreases |steps|
  {
    if steps == [] then c else Run(Apply(c, steps[0]), steps[1..])
  }

  /** A connection just established. */
  function Established(mark: nat): (c: Conn) {
    Conn(Connected, false, "", [], mark, 0, 0, "", "", 0, 0, -1, [], 0)
  }

  // ---------------------------------------------------------------- no byte is lost or reordered

  /** What every step keeps: the socket and the backlog make up the accepted bytes, in order, and
      the channel waits for writability exactly while there is a backlog, until the connection is closed. */
  predicate Conserves(c: Conn) {
    && c.socket + c.out == c.accepted
    && (c.writing <==> c.out != "" && !c.state.Disconnected?)
  }

  lemma SendConserves(c: Conn, data: string, w: WriteResult)
    requires Conserves(c)
    ensures Conserves(AfterSend(c, data, w))
  {
    var n := if !c.writing && c.out == "" then Taken(w, |data|) else 0;
    assert data == data[..n] + data[n..];
    assert c.socket + c.out + data == c.socket + (c.out + data);
    assert c.out == "" ==> c.socket + c.out == c.socket;
  }

  lemma WriteConserves(c: Conn, w: WriteResult)
    requires Conserves(c)
    ensures Conserves(AfterWriteEvent(c, w))
  {
    var n := Taken(w, |c.out|);
    assert c.socket + c.out[..n] + c.out[n..] == c.socket + c.out;
  }

  lemma StepConserves(c: Conn, step: Step)
    requires Conserves(c)
    ensures Conserves(Apply(c, step))
  {
    hide AfterSend, AfterWriteEvent;
    match step
    case Send(m, inLoop, w) => SendConserves(c, m, w);
    case RunTask(w) =>
      if c.queue != [] && c.queue[0].SendTask? {
        SendConserves(c.(queue := c.queue[1..]), c.queue[0].message, w);
      }
    case WriteEvent(w) => WriteConserves(c, w);
    case _ =>
  }

  lemma {:induction false} RunConserves(c: Conn, steps: seq<Step>)
    requires Conserves(c)
    ensures Conserves(Run(c, steps))
    decreases |steps|
  {
    hide Apply, Conserves;
    if steps != [] {
      StepConserves(c, steps[0]);
      RunConserves(Apply(c, steps[0]), steps[1..]);
    }
  }

  /** The message a step hands to `SendInLoop` on a connection that is not closed: by a call in the loop, or
      by a queued functor. */
  function Given(c: Conn, step: Step): (data: string) {
    if step.Send? && step.inLoop && c.state.Connected? then step.message
    else if step.RunTask? && c.queue != [] && c.queue[0].SendTask? && !c.state.Disconnected? then c.queue[0].message
    else ""
  }

  /** The step calls `write`: for a message when nothing is waiting before it, or for the backlog. */
  predicate Writes(c: Conn, step: Step) {
    if step.WriteEvent? then c.out != "" && !c.state.Disconnected?
    else
      && c.out == "" && !c.state.Disconnected?
      && ((step.Send? && step.inLoop && c.state.Connected?)
          || (step.RunTask? && c.queue != [] && c.queue[0].SendTask?))
  }

  /** The bytes `write` is offered. */
  function Offered(c: Conn, step: Step): (data: string) {
    if step.WriteEvent? then c.out else Given(c, step)
  }

  /** What the step adds to the stream: its message, unless the `write` for it found the connection broken. */
  function Kept(c: Conn, step: Step): (data: string) {
    if Writes(c, step) && step.w.Broken? then "" else Given(c, step)
  }

  function Took(c: Conn, step: Step): (n: nat) {
    if Writes(c, step) then Taken(step.w, |Offered(c, step)|) else 0
  }

  function AllKept(c: Conn, steps: seq<Step>): (data: string)
    decreases |steps|
  {
    if steps == [] then "" else Kept(c, steps[0]) + AllKept(Apply(c, steps[0]), steps[1..])
  }

  function AllTook(c: Conn, steps: seq<Step>): (n: nat)
    decreases |steps|
  {
    if steps == [] then 0 else Took(c, steps[0]) + AllTook(Apply(c, steps[0]), steps[1..])
  }

  lemma SendStreams(c: Conn, data: string, w: WriteResult)
    requires Conserves(c) && !c.state.Disconnected?
    ensures var c' := AfterSend(c, data, w);
            && c'.accepted == c.accepted + (if c.out == "" && w.Broken? then "" else data)
            && |c'.socket| == |c.socket| + (if c.out == "" then Taken(w, |data|) else 0)
            && c'.complete == c.complete + (if c.out == "" && w.Wrote? && c'.out == "" then 1 else 0)
  {
  }

  lemma MessageStreams(c: Conn, data: string, w: WriteResult)
    requires Conserves(c) && !c.state.Disconnected?
    ensures var c' := AfterSend(c, data, w);
            && c'.socket + c'.out == c.socket + c.out + (if c.out == "" && w.Broken? then "" else data)
            && |c'.socket| == |c.socket| + (if c.out == "" then Taken(w, |data|) else 0)
  {
    SendStreams(c, data, w);
    SendConserves(c, data, w);
    hide AfterSend;
  }

  lemma EventStreams(c: Conn, w: WriteResult)
    requires Conserves(c)
    ensures var c' := AfterWriteEvent(c, w);
            && c'.socket + c'.out == c.socket + c.out
            && |c'.socket| == |c.socket| + (if c.writing then Taken(w, |c.out|) else 0)
  {
    WriteConserves(c, w);
  }

  /** Every step adds its message to the stream, and to the socket what `write` took. */
  lemma StepStreams(c: Conn, step: Step)
    requires Conserves(c)
    ensures var c' := Apply(c, step);
            && c'.socket + c'.out == c.socket + c.out + Kept(c, step)
            && |c'.socket| == |c.socket| + Took(c, step)
  {
    hide AfterSend, AfterWriteEvent, Taken;
    assert c.socket + c.out + "" == c.socket + c.out;
    match step
    case Send(m, inLoop, w) =>
      if inLoop && c.state.Connected? {
        MessageStreams(c, m, w);
      }
    case RunTask(w) =>
      if c.queue != [] && c.queue[0].SendTask? {
        var c1 := c.(queue := c.queue[1..]);
        if c.state.Disconnected? {
          ClosedSend(c1, c.queue[0].message, w);
        } else {
          MessageStreams(c1, c.queue[0].message, w);
        }
      }
    case WriteEvent(w) => EventStreams(c, w);
    case _ =>
  }

  lemma {:induction false} RunStreams(c: Conn, steps: seq<Step>)
    requires Conserves(c)
    ensures var c' := Run(c, steps);
            && c'.socket + c'.out == c.socket + c.out + AllKept(c, steps)
            && |c'.socket| == |c.socket| + AllTook(c, steps)
    decreases |steps|
  {
    hide Apply, Conserves, Kept, Took;
    if steps == [] {
      assert c.socket + c.out + "" == c.socket + c.out;
    } else {
      StepConserves(c, steps[0]);
      StepStreams(c, steps[0]);
      var c1 := Apply(c, steps[0]);
      RunStreams(c1, steps[1..]);
      var now, one, rest := c.socket + c.out, Kept(c, steps[0]), AllKept(c1, steps[1..]);
      assert now + one + rest == now + (one + rest);
    }
  }

  /** In every run from establishment, with any partial writes: the bytes written followed by the backlog are
      the messages handed over, in order, but for those whose `write` found the connection broken; as many are
      written as the calls of `write` took; and the channel waits for writability while there is a backlog. */
  lemma BytesArriveInOrder(mark: nat, steps: seq<Step>)
    ensures var c := Run(Established(mark), steps);
            && c.socket + c.out == AllKept(Established(mark), steps)
            && |c.socket| == AllTook(Established(mark), steps)
            && (c.writing <==> c.out != "" && !c.state.Disconnected?)
  {
    RunConserves(Established(mark), steps);
    RunStreams(Established(mark), steps);
  }

  // ---------------------------------------------------------------- messages from other threads

  function Messages(queue: seq<Task>): (ms: seq<string>) {
    if queue == [] then []
    else (if queue[0].SendTask? then [queue[0].message] else []) + Messages(queue[1..])
  }

  lemma {:induction false} MessagesPush(queue: seq<Task>, t: Task)
    ensures Messages(queue + [t]) == Messages(queue) + (if t.SendTask? then [t.message] else [])
  {
    if queue == [] {
      assert queue + [t] == [t];
    } else {
      MessagesPush(queue[1..], t);
      assert (queue + [t])[1..] == queue[1..] + [t];
    }
  }

  /** The message of a call from another thread, made while the connection is connected. */
  function SentAcross(c: Conn, step: Step): (ms: seq<string>) {
    if step.Send? && !step.inLoop && c.state.Connected? then [step.message] else []
  }

  /** The message of the functor a step runs. */
  function TakenOff(c: Conn, step: Step): (ms: seq<string>) {
    if step.RunTask? && c.queue != [] && c.queue[0].SendTask? then [c.queue[0].message] else []
  }

  function AllSentAcross(c: Conn, steps: seq<Step>): (ms: seq<string>)
    decreases |steps|
  {
    if steps == [] then [] else SentAcross(c, steps[0]) + AllSentAcross(Apply(c, steps[0]), steps[1..])
  }

  function AllTakenOff(c: Conn, steps: seq<Step>): (ms: seq<string>)
    decreases |steps|
  {
    if steps == [] then [] else TakenOff(c, steps[0]) + AllTakenOff(Apply(c, steps[0]), steps[1..])
  }

  lemma StepKeepsMessages(c: Conn, step: Step)
    ensures Messages(c.queue) + SentAcross(c, step) == TakenOff(c, step) + Messages(Apply(c, step).queue)
  {
    hide AfterSend, AfterWriteEvent;
    assert Messages(c.queue) + [] == [] + Messages(c.queue);
    match step
    case Send(m, inLoop, w) =>
      SendKeepsControl(c, m, w);
      MessagesPush(c.queue, SendTask(m));
    case Shutdown(inLoop, thenClose) => MessagesPush(c.queue, ShutdownTask(thenClose));
    case RunTask(w) => TaskKeepsMessages(c, w);
    case WriteEvent(w) => WriteKeepsQueue(c, w);
    case _ => MessagesPush(c.queue, ForceCloseTask);
  }

  lemma TaskKeepsMessages(c: Conn, w: WriteResult)
    ensures var step := RunTask(w);
            Messages(c.queue) + SentAcross(c, step) == TakenOff(c, step) + Messages(Apply(c, step).queue)
  {
    if c.queue != [] {
      TaskOpenOrClosed(c, w);
      hide Apply;
      assert Messages(c.queue) + [] == Messages(c.queue) && [] + Messages(c.queue[1..]) == Messages(c.queue[1..]);
    }
  }

  lemma WriteKeepsQueue(c: Conn, w: WriteResult)
    ensures AfterWriteEvent(c, w).queue == c.queue
  {
  }

  /** The messages sent from other threads while the connection is connected are handed to `SendInLoop` in the
      order of the calls, each once; the others are still queued. */
  lemma {:induction false} MessagesKeepOrder(c: Conn, steps: seq<Step>)
    ensures Messages(c.queue) + AllSentAcross(c, steps) == AllTakenOff(c, steps) + Messages(Run(c, steps).queue)
    decreases |steps|
  {
    hide Apply, SentAcross, TakenOff, Messages;
    if steps == [] {
      assert Messages(c.queue) + [] == [] + Messages(c.queue);
    } else {
      StepKeepsMessages(c, steps[0]);
      var c1 := Apply(c, steps[0]);
      MessagesKeepOrder(c1, steps[1..]);
      var sent, off := SentAcross(c, steps[0]), TakenOff(c, steps[0]);
      var moreSent, moreOff := AllSentAcross(c1, steps[1..]), AllTakenOff(c1, steps[1..]);
      var last := Messages(Run(c, steps).queue);
      assert Messages(c.queue) + (sent + moreSent) == Messages(c.queue) + sent + moreSent;
      assert off + Messages(c1.queue) + moreSent == off + (Messages(c1.queue) + moreSent);
      assert off + (moreOff + last) == off + moreOff + last;
    }
  }

  // ---------------------------------------------------------------- the state

  predicate OnlySends(queue: seq<Task>) {
    forall i :: 0 <= i < |queue| ==> queue[i].SendTask?
  }

  /** The calls that start closing a connected connection. */
  predicate StartsClosing(step: Step) {
    step.Shutdown? || step.ForceClose? || step.ForceCloseWithDelay?
  }

  /** The steps after which a connection no longer takes messages. */
  predicate Ends(step: Step) {
    StartsClosing(step) || step.CloseEvent?
  }

  predicate Untimed(c: Conn) {
    c.state.Connected? ==> c.closeTimers == 0 && c.delayTimers == 0 && OnlySends(c.queue)
  }

  lemma StepKeepsUntimed(c: Conn, step: Step)
    requires Untimed(c)
    ensures Untimed(Apply(c, step))
    ensures Apply(c, step).state.Connected? <==> c.state.Connected? && !Ends(step)
  {
  }

  lemma {:induction false} RunConnectedIff(c: Conn, steps: seq<Step>)
    requires Untimed(c)
    ensures Run(c, steps).state.Connected? <==> c.state.Connected? && forall i :: 0 <= i < |steps| ==> !Ends(steps[i])
    decreases |steps|
  {
    hide Apply, Untimed, Ends;
    if steps != [] {
      StepKeepsUntimed(c, steps[0]);
      RunConnectedIff(Apply(c, steps[0]), steps[1..]);
      assert forall i :: 0 < i < |steps| ==> steps[i] == steps[1..][i - 1];
    }
  }

  /** A connection takes messages exactly until it is shut down or closed. */
  lemma ConnectedIff(mark: nat, steps: seq<Step>)
    ensures Run(Established(mark), steps).state.Connected? <==> forall i :: 0 <= i < |steps| ==> !Ends(steps[i])
  {
    RunConnectedIff(Established(mark), steps);
  }

  /** The loop runs `n` functors. */
  function RunTasks(c: Conn, n: nat, w: WriteResult): (c': Conn)
    decreases n
  {
    if n == 0 then c else RunTasks(Apply(c, RunTask(w)), n - 1, w)
  }

  lemma {:induction false} QueuedCloseCloses(c: Conn, k: nat, n: nat, w: WriteResult)
    requires c.state.Disconnected? || (Open(c) && k < n && k < |c.queue| && c.queue[k].ForceCloseTask?)
    ensures RunTasks(c, n, w).state.Disconnected?
    decreases n
  {
    if n > 0 {
      TaskOpenOrClosed(c, w);
      var c1 := Apply(c, RunTask(w));
      assert k > 0 && k < |c.queue| ==> c.queue[1..][k - 1] == c.queue[k];
      hide Apply;
      QueuedCloseCloses(c1, if k > 0 then k - 1 else 0, n - 1, w);
    }
  }

  lemma TaskOpenOrClosed(c: Conn, w: WriteResult)
    ensures var c' := Apply(c, RunTask(w));
            && (c.queue != [] ==> c'.queue == c.queue[1..])
            && (c'.state == c.state || (c'.state.Disconnected? && Open(c) && c.queue != []))
            && (c.queue != [] && c.queue[0].ForceCloseTask? && Open(c) ==> c'.state.Disconnected?)
            && c'.delayTimers == c.delayTimers
            && c'.closeTimers == c.closeTimers + (if c.queue != [] && c.queue[0] == ShutdownTask(true) then 1 else 0)
  {
  }

  /** The timers and the functors that will close the connection stay until they do. */
  lemma {:induction false} TasksKeepTimers(c: Conn, k: nat, n: nat, w: WriteResult)
    requires Open(c)
    ensures var c' := RunTasks(c, n, w);
            && (Open(c') || c'.state.Disconnected?)
            && c'.delayTimers == c.delayTimers && c'.closeTimers >= c.closeTimers
            && (k < n && k < |c.queue| && c.queue[k] == ShutdownTask(true) && Open(c') ==> c'.closeTimers > 0)
    decreases n
  {
    if n > 0 {
      TaskOpenOrClosed(c, w);
      var c1 := Apply(c, RunTask(w));
      assert k > 0 && k < |c.queue| ==> c.queue[1..][k - 1] == c.queue[k];
      hide Apply;
      if Open(c1) {
        TasksKeepTimers(c1, if k > 0 then k - 1 else 0, n - 1, w);
      } else {
        ClosedTasks(c1, n - 1, w);
      }
    }
  }

  lemma {:induction false} ClosedTasks(c: Conn, n: nat, w: WriteResult)
    requires c.state.Disconnected?
    ensures var c' := RunTasks(c, n, w);
            c'.state.Disconnected? && c'.delayTimers == c.delayTimers && c'.closeTimers >= c.closeTimers
    decreases n
  {
    if n > 0 {
      TaskOpenOrClosed(c, w);
      hide Apply;
      ClosedTasks(Apply(c, RunTask(w)), n - 1, w);
    }
  }

  /** Everything queued is run, the timers fire, and what they queue is run. */
  function Settled(c: Conn, w: WriteResult): (c': Conn) {
    var c1 := Apply(Apply(RunTasks(c, |c.queue|, w), CloseTimer), DelayTimer);
    RunTasks(c1, |c1.queue|, w)
  }

  lemma TimersClose(c: Conn, w: WriteResult)
    requires c.state.Disconnected? || (Open(c) && (c.closeTimers > 0 || c.delayTimers > 0))
    ensures var c1 := Apply(Apply(c, CloseTimer), DelayTimer);
            RunTasks(c1, |c1.queue|, w).state.Disconnected?
  {
    var c1 := Apply(Apply(c, CloseTimer), DelayTimer);
    var n := |c1.queue|;
    QueuedCloseCloses(c1, if n > 0 then n - 1 else 0, n, w);
  }

  /** Each way to close a connection does, once what is queued has run and the timers have fired. */
  lemma ClosedInTheEnd(c: Conn, call: Step, w: WriteResult)
    requires c.state.Connected? && Ends(call) && (call.Shutdown? ==> call.thenClose)
    ensures Settled(Apply(c, call), w).state.Disconnected?
  {
    var c0 := Apply(c, call);
    var n := |c0.queue|;
    if c0.state.Disconnected? {
      ClosedTasks(c0, n, w);
    } else if call.ForceClose? {
      QueuedCloseCloses(c0, n - 1, n, w);
    } else {
      TasksKeepTimers(c0, if n > 0 then n - 1 else 0, n, w);
    }
    TimersClose(RunTasks(c0, n, w), w);
  }

  // ---------------------------------------------------------------- half-close

  predicate SendsQueued(queue: seq<Task>) {
    exists i :: 0 <= i < |queue| && queue[i].SendTask?
  }

  /** The step does not shut the write side down while messages are still queued behind it. */
  predicate ShutsAfterSends(c: Conn, step: Step) {
    Apply(c, step).shuts > c.shuts ==> !SendsQueued(c.queue)
  }

  predicate AllShutAfterSends(c: Conn, steps: seq<Step>)
    decreases |steps|
  {
    steps == [] || (ShutsAfterSends(c, steps[0]) && AllShutAfterSends(Apply(c, steps[0]), steps[1..]))
  }

  predicate ShutdownQueued(queue: seq<Task>) {
    exists i :: 0 <= i < |queue| && queue[i].ShutdownTask?
  }

  predicate AtMostOneShutdown(queue: seq<Task>) {
    forall i, j :: 0 <= i < j < |queue| ==> !(queue[i].ShutdownTask? && queue[j].ShutdownTask?)
  }

  /** What half-closing keeps, on runs that shut down after the queued sends. */
  predicate HalfClose(c: Conn) {
    && Conserves(c)
    && !c.state.Connecting?
    && AtMostOneShutdown(c.queue)
    && (c.state.Connected? ==> c.shuts == 0 && !ShutdownQueued(c.queue))
    && (c.shuts > 0 ==> !c.writing && !SendsQueued(c.queue) && c.shutLength == |c.socket|)
    && (c.shuts > 0 ==> c.socket == c.accepted)
    && c.shuts <= (if ShutdownQueued(c.queue) then 1 else 2)
  }

  lemma QueuedAfterPush(queue: seq<Task>, t: Task)
    ensures ShutdownQueued(queue + [t]) <==> ShutdownQueued(queue) || t.ShutdownTask?
    ensures SendsQueued(queue + [t]) <==> SendsQueued(queue) || t.SendTask?
  {
    var q := queue + [t];
    assert q[|queue|] == t && forall i :: 0 <= i < |queue| ==> q[i] == queue[i];
  }

  /** Sending touches neither the state nor the functors nor the shutdowns. */
  lemma SendKeepsControl(c: Conn, data: string, w: WriteResult)
    ensures var c' := AfterSend(c, data, w);
            c'.state == c.state && c'.queue == c.queue && c'.shuts == c.shuts
  {
  }

  lemma PopHalfClose(c: Conn)
    requires HalfClose(c) && c.queue != []
    ensures var c' := c.(queue := c.queue[1..]);
            && HalfClose(c')
            && (c.queue[0].ShutdownTask? ==> !c.state.Connected? && c.shuts <= 1 && !ShutdownQueued(c'.queue))
            && (SendsQueued(c'.queue) ==> SendsQueued(c.queue))
            && (c.queue[0].SendTask? ==> c.shuts == 0)
  {
    var q := c.queue;
    assert forall i :: 0 <= i < |q[1..]| ==> q[1..][i] == q[i + 1];
  }

  lemma PushHalfClose(c: Conn, t: Task)
    requires HalfClose(c) && !c.state.Disconnected? && (c.state.Connected? || t.ForceCloseTask?)
    ensures HalfClose(c.(queue := c.queue + [t], state := if t.SendTask? then c.state else Disconnecting))
  {
    QueuedAfterPush(c.queue, t);
  }

  lemma SendHalfClose(c: Conn, data: string, w: WriteResult)
    requires HalfClose(c) && c.shuts == 0
    ensures HalfClose(AfterSend(c, data, w))
  {
    SendConserves(c, data, w);
    SendKeepsControl(c, data, w);
    hide AfterSend, Conserves;
  }

  lemma CloseHalfClose(c: Conn)
    requires HalfClose(c)
    ensures HalfClose(AfterForceClose(c))
  {
  }

  lemma TaskHalfClose(c: Conn, w: WriteResult)
    requires HalfClose(c) && c.queue != [] && ShutsAfterSends(c, RunTask(w))
    ensures HalfClose(Apply(c, RunTask(w)))
  {
    PopHalfClose(c);
    var c1 := c.(queue := c.queue[1..]);
    hide AfterSend, AfterForceClose, HalfClose;
    match c.queue[0]
    case SendTask(m) => SendHalfClose(c1, m, w);
    case ShutdownTask(thenClose) => ShutHalfClose(c1, thenClose);
    case ForceCloseTask => CloseHalfClose(c1);
  }

  lemma ShutdownHalfClose(c: Conn, inLoop: bool, thenClose: bool)
    requires HalfClose(c) && c.state.Connected? && ShutsAfterSends(c, Shutdown(inLoop, thenClose))
    ensures HalfClose(Apply(c, Shutdown(inLoop, thenClose)))
  {
    if inLoop {
      ShutHalfClose(c.(state := Disconnecting), thenClose);
    } else {
      PushHalfClose(c, ShutdownTask(thenClose));
    }
  }

  /** Only the state goes from connected to disconnecting, or a timer is set or spent. */
  lemma TimerHalfClose(c: Conn, c': Conn)
    requires HalfClose(c) && (c'.state == c.state || (c.state.Connected? && c'.state.Disconnecting?))
    requires c' == c.(state := c'.state, closeTimers := c'.closeTimers, delayTimers := c'.delayTimers)
    ensures HalfClose(c')
  {
  }

  lemma StepHalfClose(c: Conn, step: Step)
    requires HalfClose(c) && ShutsAfterSends(c, step)
    ensures HalfClose(Apply(c, step))
  {
    if c.state.Connected? { ConnectedNotShut(c); }
    hide AfterSend, AfterWriteEvent, AfterForceClose, HalfClose;
    match step
    case Send(m, inLoop, w) =>
      if c.state.Connected? {
        if inLoop {
          SendHalfClose(c, m, w);
        } else {
          PushHalfClose(c, SendTask(m));
        }
      }
    case Shutdown(inLoop, thenClose) => if c.state.Connected? { ShutdownHalfClose(c, inLoop, thenClose); }
    case ForceClose => if Open(c) { PushHalfClose(c, ForceCloseTask); }
    case ForceCloseWithDelay => TimerHalfClose(c, Apply(c, step));
    case DelayTimer =>
      if c.delayTimers > 0 {
        var c1 := c.(delayTimers := c.delayTimers - 1);
        TimerHalfClose(c, c1);
        if Open(c1) { PushHalfClose(c1, ForceCloseTask); }
      }
    case CloseTimer =>
      if c.closeTimers > 0 {
        var c1 := c.(closeTimers := c.closeTimers - 1);
        TimerHalfClose(c, c1);
        CloseHalfClose(c1);
      }
    case WriteEvent(w) => WriteHalfClose(c, w);
    case RunTask(w) => if c.queue != [] { TaskHalfClose(c, w); }
    case CloseEvent => CloseHalfClose(c);
  }

  lemma ConnectedNotShut(c: Conn)
    requires HalfClose(c) && c.state.Connected?
    ensures c.shuts == 0
  {
  }

  /** The write side is shut down unless there is a backlog. */
  lemma ShutHalfClose(c: Conn, thenClose: bool)
    requires HalfClose(c) && !c.state.Connected? && !ShutdownQueued(c.queue) && c.shuts <= 1
    requires AfterShutdown(c).shuts > c.shuts ==> !SendsQueued(c.queue)
    ensures HalfClose(AfterShutdownTask(c, thenClose))
  {
    assert c.out == "" ==> c.socket + c.out == c.socket;
  }

  /** Taking bytes off the backlog, perhaps the last. */
  lemma WriteHalfClose(c: Conn, w: WriteResult)
    requires HalfClose(c) && (AfterWriteEvent(c, w).shuts > c.shuts ==> !SendsQueued(c.queue))
    ensures HalfClose(AfterWriteEvent(c, w))
  {
    WriteConserves(c, w);
  }

  lemma {:induction false} RunHalfClose(c: Conn, steps: seq<Step>)
    requires HalfClose(c) && AllShutAfterSends(c, steps)
    ensures HalfClose(Run(c, steps))
    decreases |steps|
  {
    hide Apply, HalfClose, ShutsAfterSends;
    if steps != [] {
      StepHalfClose(c, steps[0]);
      RunHalfClose(Apply(c, steps[0]), steps[1..]);
    }
  }

  /** Sends made in the loop never leave a message queued, so they are all before any shutdown. */
  predicate SendsInLoop(steps: seq<Step>) {
    forall i :: 0 <= i < |steps| && steps[i].Send? ==> steps[i].inLoop
  }

  lemma NoSendQueued(c: Conn, step: Step)
    requires !SendsQueued(c.queue) && (step.Send? ==> step.inLoop)
    ensures !SendsQueued(Apply(c, step).queue)
  {
  }

  lemma {:induction false} LoopSendsShutAfterSends(c: Conn, steps: seq<Step>)
    requires SendsInLoop(steps) && !SendsQueued(c.queue)
    ensures AllShutAfterSends(c, steps)
    decreases |steps|
  {
    hide Apply;
    if steps != [] {
      NoSendQueued(c, steps[0]);
      LoopSendsShutAfterSends(Apply(c, steps[0]), steps[1..]);
    }
  }

  /** Sends from the loop thread, shutdowns and closes from any thread: on the open connection the
      write side is shut down only once every accepted byte is written, and nothing is written after
      it. */
  lemma HalfCloseIsClean(mark: nat, steps: seq<Step>)
    requires SendsInLoop(steps)
    ensures var c := Run(Established(mark), steps);
            && (c.shuts > 0 ==> c.shutLength == |c.socket|)
            && (c.shuts > 0 ==> c.socket == c.accepted)
            && c.shuts <= 2
  {
    LoopSendsShutAfterSends(Established(mark), steps);
    RunHalfClose(Established(mark), steps);
  }

  // ---------------------------------------------------------------- how often it is shut down

  /** A connected connection has not been shut down and has nothing but messages queued. */
  predicate Untouched(c: Conn) {
    Conserves(c) && (c.state.Connected? ==> c.shuts == 0 && OnlySends(c.queue))
  }

  lemma StepKeepsUntouched(c: Conn, step: Step)
    requires Untouched(c)
    ensures Untouched(Apply(c, step))
  {
    StepConserves(c, step);
    hide AfterSend, Conserves;
    match step
    case Send(m, inLoop, w) => SendKeepsControl(c, m, w);
    case RunTask(w) =>
      if c.queue != [] && c.queue[0].SendTask? { SendKeepsControl(c.(queue := c.queue[1..]), c.queue[0].message, w); }
    case _ =>
  }

  lemma {:induction false} ConnectedIsUntouched(c: Conn, steps: seq<Step>)
    requires Untouched(c)
    ensures Untouched(Run(c, steps))
    decreases |steps|
  {
    if steps != [] {
      StepKeepsUntouched(c, steps[0]);
      hide Apply, Untouched;
      ConnectedIsUntouched(Apply(c, steps[0]), steps[1..]);
    }
  }

  lemma RunStep(c: Conn, step: Step, steps: seq<Step>)
    ensures Run(c, [step] + steps) == Run(Apply(c, step), steps)
  {
    hide Apply;
    assert ([step] + steps)[1..] == steps;
  }

  lemma {:induction false} RunAppend(c: Conn, a: seq<Step>, b: seq<Step>)
    ensures Run(c, a + b) == Run(Run(c, a), b)
    decreases |a|
  {
    hide Apply;
    if a == [] {
      assert a + b == b;
    } else {
      RunAppend(Apply(c, a[0]), a[1..], b);
      assert (a + b)[1..] == a[1..] + b;
    }
  }

  /** The queued functors that can each lead to a shutdown: messages, whose last byte is written while the
      connection is disconnecting, and shutdowns. A forced close ends it. */
  function Bursts(queue: seq<Task>): (n: nat) {
    if queue == [] || queue[0].ForceCloseTask? then 0
    else (if queue[0] == SendTask("") then 0 else 1) + Bursts(queue[1..])
  }

  /** How often the write side can have been shut down in the end: a backlog counts once more. */
  function Bound(c: Conn): (n: nat) {
    if c.state.Disconnected? then c.shuts
    else c.shuts + (if c.writing then 1 else 0) + Bursts(c.queue)
  }

  predicate Closing(c: Conn) {
    Conserves(c) && (c.state.Disconnecting? || c.state.Disconnected?)
  }

  lemma {:induction false} ForceCloseAddsNone(queue: seq<Task>)
    ensures Bursts(queue + [ForceCloseTask]) == Bursts(queue)
  {
    if queue == [] {
      assert queue + [ForceCloseTask] == [ForceCloseTask];
    } else {
      ForceCloseAddsNone(queue[1..]);
      assert (queue + [ForceCloseTask])[1..] == queue[1..] + [ForceCloseTask];
    }
  }

  /** A message can start a backlog, if it has bytes and there is none. */
  lemma SendBound(c: Conn, data: string, w: WriteResult)
    requires c.state.Disconnecting?
    ensures var c' := AfterSend(c, data, w);
            c'.state == c.state && c'.queue == c.queue && c'.shuts == c.shuts
            && (c'.writing ==> c.writing || data != "")
            && (c.writing ==> c'.writing)
  {
  }

  lemma TaskKeepsBound(c: Conn, w: WriteResult)
    requires Closing(c) && c.queue != []
    ensures Bound(Apply(c, RunTask(w))) <= Bound(c)
  {
    hide AfterSend, Conserves;
    var c1 := c.(queue := c.queue[1..]);
    match c.queue[0]
    case SendTask(m) =>
      if c.state.Disconnecting? {
        SendBound(c1, m, w);
      } else {
        ClosedSend(c1, m, w);
      }
    case _ =>
  }

  lemma ClosedSend(c: Conn, data: string, w: WriteResult)
    requires c.state.Disconnected?
    ensures AfterSend(c, data, w) == c
  {
  }

  lemma StepKeepsBound(c: Conn, step: Step)
    requires Closing(c)
    ensures Closing(Apply(c, step)) && Bound(Apply(c, step)) <= Bound(c)
  {
    StepConserves(c, step);
    ForceCloseAddsNone(c.queue);
    hide AfterSend, Conserves, Bursts;
    match step
    case RunTask(w) =>
      if c.queue != [] {
        TaskKeepsBound(c, w);
        TaskKeepsClosing(c, w);
      }
    case _ =>
  }

  lemma TaskKeepsClosing(c: Conn, w: WriteResult)
    requires (c.state.Disconnecting? || c.state.Disconnected?) && c.queue != []
    ensures var c' := Apply(c, RunTask(w)); c'.state.Disconnecting? || c'.state.Disconnected?
  {
    hide AfterSend;
    if c.queue[0].SendTask? {
      SendKeepsControl(c.(queue := c.queue[1..]), c.queue[0].message, w);
    }
  }

  lemma {:induction false} RunKeepsBound(c: Conn, steps: seq<Step>)
    requires Closing(c)
    ensures Run(c, steps).shuts <= Bound(c)
    decreases |steps|
  {
    if steps != [] {
      hide Apply, Closing, Bound;
      StepKeepsBound(c, steps[0]);
      RunKeepsBound(Apply(c, steps[0]), steps[1..]);
    }
  }

  /** The next step that wastes no shutdown: drain the backlog at once, or let a queued message make one. */
  function Spending(c: Conn): (step: Step) {
    if c.writing then WriteEvent(Wrote(|c.out|)) else RunTask(WouldBlock)
  }

  lemma SpendingKeepsBound(c: Conn)
    requires Closing(c) && c.state.Disconnecting? && (c.writing || (c.queue != [] && !c.queue[0].ForceCloseTask?))
    ensures var c' := Apply(c, Spending(c));
            && Closing(c') && c'.state.Disconnecting? && Bound(c') == Bound(c)
            && (if c.writing then !c'.writing && c'.queue == c.queue else c'.queue == c.queue[1..])
  {
    StepConserves(c, Spending(c));
  }

  /** A run that shuts down as often as can be. */
  lemma {:induction false} BoundIsReached(c: Conn) returns (steps: seq<Step>)
    requires Closing(c)
    ensures Run(c, steps).shuts == Bound(c)
    decreases |c.queue|, c.writing
  {
    if c.state.Disconnecting? && (c.writing || (c.queue != [] && !c.queue[0].ForceCloseTask?)) {
      SpendingKeepsBound(c);
      hide Apply;
      var more := BoundIsReached(Apply(c, Spending(c)));
      steps := [Spending(c)] + more;
      RunStep(c, Spending(c), more);
    } else {
      steps := [];
    }
  }

  /** The exact number of shutdowns a connection that is being closed can come to, over everything that may
      still happen to it. */
  lemma HowOftenShut(c: Conn)
    requires Closing(c)
    ensures forall steps :: Run(c, steps).shuts <= Bound(c)
    ensures exists steps :: Run(c, steps).shuts == Bound(c)
  {
    forall steps
      ensures Run(c, steps).shuts <= Bound(c)
    {
      RunKeepsBound(c, steps);
    }
    var steps := BoundIsReached(c);
    assert Run(c, steps).shuts == Bound(c);
  }

  /** What the bound comes to at such a call: one for every queued message with bytes, one for a backlog, and
      one for a shutdown, which in the loop is the one of the backlog if there is any. */
  function MostShuts(c: Conn, step: Step): (n: nat) {
    var backlog := if c.out != "" then 1 else 0;
    Bursts(c.queue) + (if step.Shutdown? then (if step.inLoop then 1 else backlog + 1) else backlog)
  }

  lemma {:induction false} ShutdownAddsOne(queue: seq<Task>, thenClose: bool)
    requires OnlySends(queue)
    ensures Bursts(queue + [ShutdownTask(thenClose)]) == Bursts(queue) + 1
  {
    if queue == [] {
      assert queue + [ShutdownTask(thenClose)] == [ShutdownTask(thenClose)];
    } else {
      assert queue[0].SendTask?;
      ShutdownAddsOne(queue[1..], thenClose);
      assert (queue + [ShutdownTask(thenClose)])[1..] == queue[1..] + [ShutdownTask(thenClose)];
    }
  }

  lemma BoundAfterCall(c: Conn, step: Step)
    requires Untouched(c) && c.state.Connected? && StartsClosing(step)
    ensures Closing(Apply(c, step)) && Bound(Apply(c, step)) == MostShuts(c, step)
  {
    StepConserves(c, step);
    ForceCloseAddsNone(c.queue);
    if step.Shutdown? {
      ShutdownAddsOne(c.queue, step.thenClose);
    }
    hide Bursts;
  }

  /** In any run, whatever happens after the call that starts closing the connection: how often the write side
      is shut down, at most and in some run. */
  lemma HowOftenShutAfter(mark: nat, before: seq<Step>, step: Step)
    requires Run(Established(mark), before).state.Connected? && StartsClosing(step)
    ensures var c := Run(Established(mark), before);
            && (forall after :: Run(Apply(c, step), after).shuts <= MostShuts(c, step))
            && (exists after :: Run(Apply(c, step), after).shuts == MostShuts(c, step))
  {
    ConnectedIsUntouched(Established(mark), before);
    var c := Run(Established(mark), before);
    BoundAfterCall(c, step);
    HowOftenShut(Apply(c, step));
  }

  /** So it is shut down at most once, if and only if at most one of these is there at the call: a queued
      message with bytes, a backlog, a shutdown. */
  lemma ShutAtMostOnceIff(mark: nat, before: seq<Step>, step: Step)
    requires Run(Established(mark), before).state.Connected? && StartsClosing(step)
    ensures var c := Run(Established(mark), before);
            (forall after :: Run(Apply(c, step), after).shuts <= 1) <==> MostShuts(c, step) <= 1
  {
    HowOftenShutAfter(mark, before, step);
    var c := Run(Established(mark), before);
    hide Run, Apply, MostShuts;
    var after :| Run(Apply(c, step), after).shuts == MostShuts(c, step);
  }

  function Repeat(step: Step, n: nat): (steps: seq<Step>) {
    if n == 0 then [] else Repeat(step, n - 1) + [step]
  }

  lemma {:induction false} MessagesQueueUp(mark: nat, n: nat)
    ensures var c := Run(Established(mark), Repeat(Send("a", false, WouldBlock), n));
            c.state.Connected? && c.out == "" && OnlySends(c.queue) && Bursts(c.queue) == n
  {
    if n > 0 {
      var step := Send("a", false, WouldBlock);
      MessagesQueueUp(mark, n - 1);
      var c := Run(Established(mark), Repeat(step, n - 1));
      RunAppend(Established(mark), Repeat(step, n - 1), [step]);
      RunStep(c, step, []);
      assert [step] + [] == [step];
      MessageAddsOne(c.queue, "a");
    }
  }

  lemma {:induction false} MessageAddsOne(queue: seq<Task>, m: string)
    requires OnlySends(queue) && m != ""
    ensures Bursts(queue + [SendTask(m)]) == Bursts(queue) + 1
  {
    if queue == [] {
      assert queue + [SendTask(m)] == [SendTask(m)];
    } else {
      assert queue[0].SendTask?;
      MessageAddsOne(queue[1..], m);
      assert (queue + [SendTask(m)])[1..] == queue[1..] + [SendTask(m)];
    }
  }

  /** There is no cap: after `n` messages from another thread, a delayed forced close and no `Shutdown` at all
      can shut the write side down `n` times. */
  lemma ShutAnyNumberOfTimes(mark: nat, n: nat)
    ensures var c := Run(Established(mark), Repeat(Send("a", false, WouldBlock), n));
            exists after :: Run(Apply(c, ForceCloseWithDelay), after).shuts == n
  {
    MessagesQueueUp(mark, n);
    HowOftenShutAfter(mark, Repeat(Send("a", false, WouldBlock), n), ForceCloseWithDelay);
  }

  /** A second `ShutdownWrite` on the open connection: a `Shutdown` from another thread is seen by
      `HandleWrite` before its queued `ShutdownInLoop` runs. */
  lemma ShutDownTwice()
    ensures exists steps :: SendsInLoop(steps) && Run(Established(100), steps).shuts == 2
  {
    var s0 := Send("ab", true, Wrote(1));
    var s1, s2, s3 := Shutdown(false, false), WriteEvent(Wrote(1)), RunTask(WouldBlock);
    var c0 := Established(100);
    var c1 := Apply(c0, s0);
    assert c1.out == "b" && c1.writing;
    var c2 := Apply(c1, s1);
    var c3 := Apply(c2, s2);
    assert c3.out == "" && c3.shuts == 1;
    var c4 := Apply(c3, s3);
    assert c4.shuts == 2;
    Run4(c0, s0, s1, s2, s3);
  }

  lemma Run4(c: Conn, s0: Step, s1: Step, s2: Step, s3: Step)
    ensures Run(c, [s0, s1, s2, s3]) == Apply(Apply(Apply(Apply(c, s0), s1), s2), s3)
  {
    hide Apply;
    var c1 := Apply(c, s0);
    var c2 := Apply(c1, s1);
    var c3 := Apply(c2, s2);
    RunStep(c, s0, [s1, s2, s3]);
    RunStep(c1, s1, [s2, s3]);
    RunStep(c2, s2, [s3]);
    RunStep(c3, s3, []);
    assert [s0] + [s1, s2, s3] == [s0, s1, s2, s3] && [s1] + [s2, s3] == [s1, s2, s3];
    assert [s2] + [s3] == [s2, s3] && [s3] + [] == [s3];
  }

  // ---------------------------------------------------------------- sends behind the shutdown

  /** Some bytes are queued with no forced close before them. */
  predicate WillSend(queue: seq<Task>) {
    queue != [] && !queue[0].ForceCloseTask?
    && ((queue[0].SendTask? && queue[0].message != "") || WillSend(queue[1..]))
  }

  lemma {:induction false} ForceCloseIsNoSend(queue: seq<Task>)
    requires !WillSend(queue)
    ensures !WillSend(queue + [ForceCloseTask])
  {
    if queue == [] {
      assert queue + [ForceCloseTask] == [ForceCloseTask];
    } else if !queue[0].ForceCloseTask? {
      ForceCloseIsNoSend(queue[1..]);
      assert (queue + [ForceCloseTask])[1..] == queue[1..] + [ForceCloseTask];
    }
  }

  /** Nothing is left to write and nothing will be. */
  predicate Silent(c: Conn) {
    !c.writing && (c.state.Disconnected? || (c.state.Disconnecting? && c.out == "" && !WillSend(c.queue)))
  }

  lemma StepKeepsSilent(c: Conn, step: Step)
    requires Silent(c)
    ensures Silent(Apply(c, step)) && Apply(c, step).socket == c.socket
  {
    if c.state.Disconnecting? {
      ForceCloseIsNoSend(c.queue);
    }
  }

  lemma {:induction false} RunKeepsSilent(c: Conn, steps: seq<Step>)
    requires Silent(c)
    ensures Silent(Run(c, steps)) && Run(c, steps).socket == c.socket
    decreases |steps|
  {
    hide Apply, Silent;
    if steps != [] {
      StepKeepsSilent(c, steps[0]);
      RunKeepsSilent(Apply(c, steps[0]), steps[1..]);
    }
  }

  lemma {:induction false} QueuedBytesAreWritten(c: Conn) returns (steps: seq<Step>)
    requires c.state.Disconnecting? && !c.writing && c.out == "" && WillSend(c.queue)
    ensures Run(c, steps).socket != c.socket
    decreases |c.queue|
  {
    var t := c.queue[0];
    var step := RunTask(Wrote(if t.SendTask? then |t.message| else 0));
    var c1 := Apply(c, step);
    if t.SendTask? && t.message != "" {
      steps := [step];
      assert c1.socket == c.socket + t.message;
      hide Apply;
      RunStep(c, step, []);
      assert [step] + [] == [step];
      assert Run(c, steps) == c1;
    } else {
      assert c1.socket == c.socket && c1.queue == c.queue[1..] && !c1.writing && c1.out == "";
      hide Apply;
      var more := QueuedBytesAreWritten(c1);
      steps := [step] + more;
      RunStep(c, step, more);
    }
  }

  /** On a disconnecting connection with no backlog, as the shutdown leaves it: no byte is written any more,
      whatever happens, if and only if no bytes are queued ahead of a forced close. */
  lemma NothingAfterShutdownIff(c: Conn)
    requires Conserves(c) && c.state.Disconnecting? && !c.writing
    ensures (forall steps :: Run(c, steps).socket == c.socket) <==> !WillSend(c.queue)
  {
    if WillSend(c.queue) {
      var steps := QueuedBytesAreWritten(c);
      assert Run(c, steps).socket != c.socket;
    } else {
      forall steps
        ensures Run(c, steps).socket == c.socket
      {
        RunKeepsSilent(c, steps);
      }
    }
  }

  /** Such a state is reached by a thread that sends twice and shuts down. */
  lemma QueuedSendReachable()
    ensures exists steps ::
              var c := Run(Established(100), steps);
              && c.state.Disconnecting? && !c.writing && c.shuts == 1 && c.shutLength == |c.socket|
              && c.queue != [] && c.queue[0] == SendTask("b")
  {
    var a, b, q := Send("a", false, WouldBlock), Send("b", false, WouldBlock), Shutdown(false, false);
    var r, w := RunTask(WouldBlock), WriteEvent(Wrote(1));
    var c1, c5 := QueuedSendStates(a, b, q, r, w);
    hide Apply;
    Run4(c1, b, q, r, w);
    assert [a, b, q, r, w][1..] == [b, q, r, w];
    assert Run(Established(100), [a, b, q, r, w]) == c5;
  }

  lemma QueuedSendStates(a: Step, b: Step, q: Step, r: Step, w: Step) returns (c1: Conn, c5: Conn)
    requires a == Send("a", false, WouldBlock) && b == Send("b", false, WouldBlock) && q == Shutdown(false, false)
    requires r == RunTask(WouldBlock) && w == WriteEvent(Wrote(1))
    ensures c1 == Apply(Established(100), a) && c5 == Apply(Apply(Apply(Apply(c1, b), q), r), w)
    ensures c5.state.Disconnecting? && !c5.writing && c5.shuts == 1 && c5.shutLength == |c5.socket|
    ensures c5.queue != [] && c5.queue[0] == SendTask("b")
  {
    c1 := Apply(Established(100), a);
    var c3 := Apply(Apply(c1, b), q);
    assert c3.queue == [SendTask("a"), SendTask("b"), ShutdownTask(false)];
    var c4 := Apply(c3, r);
    assert c4.out == "a" && c4.writing && c4.queue == [SendTask("b"), ShutdownTask(false)];
    c5 := Apply(c4, w);
    assert c5.out == "" && c5.shuts == 1;
  }

  // ---------------------------------------------------------------- high-water mark

  /** The high-water-mark callback is queued when the backlog rises to or across the mark. */
  predicate FiresOnCrossing(c: Conn, c': Conn) {
    && c'.mark == c.mark
    && c'.highWater == (if |c.out| < c.mark <= |c'.out| then c.highWater + [|c'.out|] else c.highWater)
  }

  lemma SendCrossing(c: Conn, data: string, w: WriteResult)
    ensures FiresOnCrossing(c, AfterSend(c, data, w))
  {
  }

  /** Every step queues the callback exactly when it takes the backlog up to or across the mark,
      with the new length of the backlog. */
  lemma HighWaterOnCrossing(c: Conn, step: Step)
    ensures FiresOnCrossing(c, Apply(c, step))
  {
    hide AfterSend;
    match step
    case Send(m, inLoop, w) => SendCrossing(c, m, w);
    case RunTask(w) =>
      if c.queue != [] && c.queue[0].SendTask? {
        SendCrossing(c.(queue := c.queue[1..]), c.queue[0].message, w);
      }
    case _ =>
  }

  /** The upward crossings of a run, as the backlog lengths they end in. */
  function Crossings(c: Conn, steps: seq<Step>): (lengths: seq<nat>)
    decreases |steps|
  {
    if steps == [] then []
    else
      var c' := Apply(c, steps[0]);
      (if |c.out| < c.mark <= |c'.out| then [|c'.out|] else []) + Crossings(c', steps[1..])
  }

  lemma {:induction false} HighWaterOverRuns(c: Conn, steps: seq<Step>)
    ensures Run(c, steps).highWater == c.highWater + Crossings(c, steps)
    decreases |steps|
  {
    hide Apply;
    if steps == [] {
      assert c.highWater + [] == c.highWater;
    } else {
      HighWaterOnCrossing(c, steps[0]);
      HighWaterOverRuns(Apply(c, steps[0]), steps[1..]);
    }
  }

  /** A write-complete callback is queued exactly when a `write` succeeds and leaves nothing unwritten. */
  lemma WriteCompleteIff(c: Conn, step: Step)
    requires Conserves(c)
    ensures var c' := Apply(c, step);
            && c'.complete == c.complete + (if Writes(c, step) && step.w.Wrote? && c'.out == "" then 1 else 0)
            && (c'.out == "" ==> c'.socket == c'.accepted)
  {
    StepConserves(c, step);
    hide AfterSend;
    match step
    case Send(m, inLoop, w) =>
      if inLoop && c.state.Connected? {
        SendStreams(c, m, w);
      }
    case RunTask(w) =>
      if c.queue != [] && c.queue[0].SendTask? {
        if c.state.Disconnected? {
          ClosedSend(c.(queue := c.queue[1..]), c.queue[0].message, w);
        } else {
          SendStreams(c.(queue := c.queue[1..]), c.queue[0].message, w);
        }
      }
    case _ =>
  }

  // ---------------------------------------------------------------- the object

  function Completed(c: Conn, done: bool): (c': Conn) {
    if done then c.(complete := c.complete + 1) else c
  }

  /** `AfterSend` by the variables of the code. */
  lemma SendIs(c: Conn, data: string, w: WriteResult)
    requires !c.state.Disconnected?
    ensures var direct := !c.writing && c.out == "";
            var nwrote := if direct then Taken(w, |data|) else 0;
            var c1 := Offer(Completed(c, direct && w.Wrote? && nwrote == |data|), data, nwrote);
            AfterSend(c, data, w) ==
            if direct && w.Broken? then c
            else if nwrote < |data| then Backlog(c1, data[nwrote..])
            else c1
  {
    assert c.accepted + "" == c.accepted && c.socket + "" == c.socket && data[0..] == data;
    assert data[..0] == "" && (data == "" ==> c.accepted + data == c.accepted);
  }

  class TcpConnection {
    var state: ConnState
    var writing: bool
    const output: Buffer
    var queue: seq<Task>
    const mark: nat
    ghost var past: Conn   // timers and histories; its other fields are not used

    predicate Ready()
      reads this, output
    {
      output.Valid() && CHEAP_PREPEND <= output.reader
    }

    ghost function View(): (c: Conn)
      requires Ready()
      reads this, output
    {
      past.(state := state, writing := writing, out := output.Contents(), queue := queue, mark := mark)
    }

    /** The bytes on the socket and those in the buffer are the accepted ones, in order, and the channel
        waits for writability exactly while the buffer has some. */
    ghost predicate Valid()
      reads this, output
    {
      Ready() && Conserves(View())
    }

    constructor (mark: nat, output: Buffer)
      requires output.Valid() && output.Contents() == "" && CHEAP_PREPEND <= output.reader
      ensures Valid() && View() == Established(mark) && this.output == output
    {
      state, writing, queue := Connected, false, [];
      this.mark, this.output := mark, output;
      past := Established(mark);
    }

    method SendInLoop(data: string, w: WriteResult)
      requires Valid()
      modifies this, output
      ensures Valid() && View() == AfterSend(old(View()), data, w)
      ensures !state.Disconnected? ==>
                past.socket + output.Contents() == old(past.socket + output.Contents())
                                                   + (if old(output.Contents()) == "" && w.Broken? then "" else data)
    {
      SendConserves(View(), data, w);
      if !state.Disconnected? {
        MessageStreams(View(), data, w);
      }
      SendKeepsControl(View(), data, w);
      hide AfterSend, Conserves;
      WriteOrKeep(data, w);
    }

    method WriteOrKeep(data: string, w: WriteResult)
      requires Ready()
      modifies this, output
      ensures Ready() && View() == AfterSend(old(View()), data, w)
    {
      var nwrote := 0;
      var faultError := false;
      if state.Disconnected? {
        return;
      }
      SendIs(View(), data, w);
      hide AfterSend;
      if !writing && output.Contents() == "" {
        nwrote, faultError := WriteNow(data, w);
      }
      var remaining := |data| - nwrote;
      if !faultError {
        past := Offer(past, data, nwrote);
        if remaining > 0 {
          AddBacklog(data[nwrote..]);
        }
      }
    }

    /** The block of `SendInLoop` that calls `write`. */
    method WriteNow(data: string, w: WriteResult) returns (nwrote: nat, faultError: bool)
      requires Ready()
      modifies this`past
      ensures nwrote == Taken(w, |data|) && faultError == w.Broken?
      ensures View() == Completed(old(View()), w.Wrote? && nwrote == |data|)
    {
      nwrote, faultError := Taken(w, |data|), false;
      match w
      case Wrote(n) =>
        if nwrote == |data| {
          past := past.(complete := past.complete + 1);
        }
      case Broken => faultError := true;
      case _ =>
    }

    /** The block of `SendInLoop` that keeps what `write` did not take. */
    method AddBacklog(rest: string)
      requires Ready()
      modifies this, output
      ensures Ready() && View() == Backlog(old(View()), rest)
    {
      var oldLen := |output.Contents()|;
      if oldLen + |rest| >= mark && oldLen < mark {
        past := past.(highWater := past.highWater + [oldLen + |rest|]);
      }
      output.Append(rest);
      if !writing {
        writing := true;
      }
    }

    method Send(message: string, inLoop: bool, w: WriteResult)
      requires Valid()
      modifies this, output
      ensures Valid() && View() == Apply(old(View()), Step.Send(message, inLoop, w))
    {
      if state.Connected? {
        if inLoop {
          SendInLoop(message, w);
        } else {
          queue := queue + [SendTask(message)];
        }
      }
    }

    /** The write side of an open connection is shut down only when every accepted byte is written. */
    method ShutdownInLoop()
      requires Valid()
      modifies this`past
      ensures Valid() && View() == AfterShutdown(old(View()))
      ensures past.shuts != old(past.shuts) ==>
                output.Contents() == "" && past.socket == past.accepted
      ensures past.shuts == old(past.shuts) && !state.Disconnected? ==> output.Contents() != ""
    {
      CallShutdown();
    }

    method CallShutdown()
      requires Ready()
      modifies this`past
      ensures View() == AfterShutdown(old(View()))
    {
      if !writing {
        // socket_->ShutdownWrite()
        if state.Disconnected? {
          past := past.(lateShuts := past.lateShuts + 1);
        } else {
          past := past.(shutLength := if past.shuts == 0 then |past.socket| else past.shutLength);
          past := past.(shuts := past.shuts + 1);
        }
      }
    }

    /** `Shutdown` and, with `thenClose`, `ShutdownAndForceCloseAfter`. */
    method Shutdown(inLoop: bool, thenClose: bool)
      requires Valid()
      modifies this
      ensures Valid() && View() == Apply(old(View()), Step.Shutdown(inLoop, thenClose))
      ensures past.shuts != old(past.shuts) ==>
                output.Contents() == "" && past.socket == past.accepted
    {
      if state.Connected? {
        state := Disconnecting;
        if inLoop {
          ShutdownInLoop();
          if thenClose {
            past := past.(closeTimers := past.closeTimers + 1);
          }
        } else {
          queue := queue + [ShutdownTask(thenClose)];
        }
      }
    }

    method ForceClose()
      requires Valid()
      modifies this
      ensures Valid() && View() == QueueForceClose(old(View()))
    {
      if state.Connected? || state.Disconnecting? {
        state := Disconnecting;
        queue := queue + [ForceCloseTask];
      }
    }

    method HandleWrite(w: WriteResult)
      requires Valid()
      modifies this, output
      ensures Valid() && View() == AfterWriteEvent(old(View()), w)
    {
      WriteConserves(View(), w);
      hide Conserves;
      if writing {
        var n := Taken(w, |output.Contents()|);
        if n > 0 {
          past := past.(socket := past.socket + output.Contents()[..n]);
          output.Retrieve(n);
          if output.Contents() == "" {
            writing := false;
            past := past.(complete := past.complete + 1);
            if state.Disconnecting? {
              CallShutdown();
            }
          }
        }
      }
    }

    method HandleClose()
      requires Valid() && (state.Connected? || state.Disconnecting?)
      modifies this
      ensures Valid() && View() == AfterClose(old(View()))
    {
      state := Disconnected;
      writing := false;
    }

    /** The loop runs this connection's oldest functor. */
    method RunTask(w: WriteResult)
      requires Valid() && queue != []
      modifies this, output
      ensures Valid() && View() == Apply(old(View()), Step.RunTask(w))
    {
      var task := queue[0];
      assert Conserves(View().(queue := queue[1..]));
      hide Conserves, AfterSend;
      queue := queue[1..];
      match task
      case SendTask(m) => SendInLoop(m, w);
      case ShutdownTask(thenClose) =>
        ShutdownInLoop();
        if thenClose {
          past := past.(closeTimers := past.closeTimers + 1);
        }
      case ForceCloseTask =>
        if state.Connected? || state.Disconnecting? {
          HandleClose();
        }
    }
  }
}
