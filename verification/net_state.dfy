/**
 * The network output sink as a state machine on values.
 *
 * `Sink` holds the fields of a `NetOutput`; each function below is one of its
 * operations, taking the old state and the outside world's answers (did the
 * dial succeed, did the write succeed, what time is it, which event did the
 * control loop receive) and giving the new state and what was sent. The class
 * in net_output.dfy performs the same operations in place and is proved
 * against these functions; the properties of the sink are proved here.
 */
module NetState {

  import opened Wrappers
  import opened ConnSpec

  /**
   * Wall-clock time, in nanoseconds (the resolution of Go's `time.Duration`),
   * counted so that the zero `time.Time` of a new sink is 0 and every real
   * clock reading is positive. A tick at `now <= 0` therefore never happens;
   * the model does not exclude it, and such a tick leaves a new sink as it is.
   */
  type Time = int

  const Second: Time := 1_000_000_000

  /** The fixed back-off before a disconnected sink tries to reconnect. */
  const ReconnectDelay: Time := 5 * Second

  /** Linux signal numbers of the two signals that stop the control loop. */
  const SIGINT: int := 2
  const SIGTERM: int := 15

  /**
   * The `outputSocket` field: nil (never dialled, or the last dial failed),
   * a live connection, or a connection that has been closed (still non-nil).
   */
  datatype Socket = Nil | Live | Closed

  /** The state of one `NetOutput`. Timestamps are `Time`; the zero `time.Time` is 0. */
  datatype Sink = Sink(
    netConn: string,
    remoteHostname: string,
    protocolName: string,
    socket: Socket,
    addNewline: bool,
    connectTime: Time,
    reconnectTime: Time,
    connected: bool,
    droppedEventCount: int,
    droppedEventSinceConnection: int)

  datatype Error =
    | DialError(netConn: string)   // "Error connecting to '<netConn>': ..."
    | WriteError                   // the error returned by the socket's Write
    | SocketNotOpen                // "Output socket not open"

  /** The snapshot `Statistics()` hands out. */
  datatype NetStatistics = NetStatistics(
    lastOpenTime: Time,
    protocol: string,
    remoteHostname: string,
    droppedEventCount: int,
    connected: bool)

  /** What one iteration of the control loop can receive. */
  datatype Event =
    | Message(m: string, writeOk: bool, now: Time)   // a message; whether the socket accepts it; the time
    | Tick(now: Time, dialOk: bool)                  // the 1-second ticker; whether a dial would succeed
    | Signal(signo: int)                             // an OS signal

  /** A connection specification has been parsed into this sink. */
  predicate Initialized(s: Sink)
  {
    Colon in s.netConn
  }

  /**
   * The invariant every reachable sink keeps: only a live socket counts as
   * connected, the since-connection count never runs ahead of the total, and
   * a sink that was never given a spec has no socket.
   */
  predicate Valid(s: Sink)
  {
    && (s.connected ==> s.socket == Live)
    && 0 <= s.droppedEventSinceConnection <= s.droppedEventCount
    && (!Initialized(s) ==>
          s.netConn == [] && s.protocolName == [] && s.remoteHostname == [] && s.socket == Nil)
  }

  /**
   * The second invariant, about the connection specification: protocol and
   * remote target are the two halves of the spec, and a tcp-prefixed protocol has
   * framing on.
   */
  predicate Configured(s: Sink)
  {
    && (Initialized(s) ==>
          s.netConn == s.protocolName + [Colon] + s.remoteHostname && Colon !in s.protocolName)
    && (HasTcpPrefix(s.protocolName) ==> s.addNewline)
  }

  /** `NewNetOutputfromConfig`: every field at its zero value. */
  function NewSink(): (s: Sink)
    ensures Valid(s) && Configured(s) && !Initialized(s)
    ensures !s.connected && s.socket == Nil && s.droppedEventCount == 0
  {
    Sink([], [], [], Nil, false, 0, 0, false, 0, 0)
  }

  /**
   * `markConnected`: the sink is connected as of `now`, and the count of
   * events dropped since the last connection is brought up to the running total.
   */
  function MarkConnected(s: Sink, now: Time): (r: Sink)
    requires Valid(s) && s.socket == Live
    ensures Valid(r)
    ensures r.connected && r.connectTime == now
    ensures r.droppedEventSinceConnection == r.droppedEventCount == s.droppedEventCount
    ensures r.(connected := s.connected, connectTime := s.connectTime,
               droppedEventSinceConnection := s.droppedEventSinceConnection) == s
  {
    var c := s.(connectTime := now, connected := true);
    if c.droppedEventCount != c.droppedEventSinceConnection then
      c.(droppedEventSinceConnection := c.droppedEventCount)
    else
      c
  }

  /**
   * Closing the socket of a connected sink: it becomes disconnected and its
   * socket closed. A disconnected sink is left as it is.
   */
  function Close(s: Sink): (r: Sink)
    requires Valid(s)
    ensures Valid(r) && !r.connected
    ensures r.socket == if s.connected then Closed else s.socket
    ensures r.(socket := s.socket, connected := s.connected) == s
  {
    if s.connected then s.(socket := Closed, connected := false) else s
  }

  /**
   * `closeAndScheduleReconnection`: a connected sink closes its socket and
   * becomes disconnected; either way the next reconnection is due 5 s after `now`.
   */
  function CloseAndScheduleReconnection(s: Sink, now: Time): (r: Sink)
    requires Valid(s)
    ensures Valid(r)
    ensures !r.connected && r.reconnectTime == now + ReconnectDelay
    ensures r.socket == if s.connected then Closed else s.socket
    ensures r.(socket := s.socket, connected := s.connected, reconnectTime := s.reconnectTime) == s
  {
    Close(s).(reconnectTime := now + ReconnectDelay)
  }

  /** A second close-and-schedule changes nothing but the time of the next attempt. */
  lemma CloseAndScheduleAgainOnlyMovesReconnectTime(s: Sink, first: Time, second: Time)
    requires Valid(s)
    ensures var once := CloseAndScheduleReconnection(s, first);
            CloseAndScheduleReconnection(once, second) == once.(reconnectTime := second + ReconnectDelay)
  {
  }

  datatype InitResult = InitResult(next: Sink, err: Option<Error>)

  /**
   * The parsing half of `Initialize`: record the spec, split it on its first
   * colon into protocol and remote target, and turn framing on for a
   * tcp-prefixed protocol (nothing turns it off).
   */
  function Configure(s: Sink, spec: string): (r: Sink)
    requires Valid(s) && Colon in spec
    ensures Valid(r) && Initialized(r) && Configured(r)
    ensures r.netConn == spec
    ensures spec == r.protocolName + [Colon] + r.remoteHostname && Colon !in r.protocolName
    ensures r.addNewline == (s.addNewline || HasTcpPrefix(r.protocolName))
    ensures r.(netConn := s.netConn, protocolName := s.protocolName,
               remoteHostname := s.remoteHostname, addNewline := s.addNewline) == s
  {
    var parts := SplitSpec(spec);
    var parsed := s.(netConn := spec, protocolName := parts.0, remoteHostname := parts.1);
    if HasTcpPrefix(parsed.protocolName) then parsed.(addNewline := true) else parsed
  }

  /**
   * The dialling half of `Initialize`: a successful dial opens a live socket
   * and marks the sink connected; a failed one leaves it without a socket and
   * reports the spec it could not reach.
   */
  function Dial(s: Sink, dialOk: bool, now: Time): (r: InitResult)
    requires Valid(s) && Initialized(s) && !s.connected
    ensures Valid(r.next)
    ensures r.err.None? <==> dialOk
    ensures r.err.Some? ==> r.err.value == DialError(s.netConn)
    ensures dialOk ==> r.next.connected && r.next.socket == Live && r.next.connectTime == now
    ensures dialOk ==> r.next.droppedEventSinceConnection == s.droppedEventCount
    ensures !dialOk ==> r.next == s.(socket := Nil)
    ensures r.next.(socket := s.socket, connected := s.connected, connectTime := s.connectTime,
                    droppedEventSinceConnection := s.droppedEventSinceConnection) == s
  {
    if !dialOk then
      InitResult(s.(socket := Nil), Some(DialError(s.netConn)))
    else
      InitResult(MarkConnected(s.(socket := Live), now), None)
  }

  /**
   * `Initialize(spec)`: a connected sink first closes its socket (and, with
   * the fix described in README's findings, stops being connected); then the
   * spec is parsed and dialled. A successful dial connects the sink, a failed
   * one leaves it without a socket and returns the error.
   */
  function Initialize(s: Sink, spec: string, dialOk: bool, now: Time): (r: InitResult)
    requires Valid(s) && Colon in spec
    ensures Valid(r.next) && Initialized(r.next) && Configured(r.next)
    ensures r.next.netConn == spec
    ensures spec == r.next.protocolName + [Colon] + r.next.remoteHostname && Colon !in r.next.protocolName
    ensures r.next.addNewline == (s.addNewline || HasTcpPrefix(r.next.protocolName))
    ensures r.err.None? <==> dialOk
    ensures r.err.Some? ==> r.err.value == DialError(spec)
    ensures dialOk ==> r.next.connected && r.next.socket == Live && r.next.connectTime == now
    ensures dialOk ==> r.next.droppedEventSinceConnection == s.droppedEventCount
    ensures !dialOk ==> !r.next.connected && r.next.socket == Nil
    ensures !dialOk ==> r.next.connectTime == s.connectTime
    ensures !dialOk ==> r.next.droppedEventSinceConnection == s.droppedEventSinceConnection
    ensures r.next.reconnectTime == s.reconnectTime && r.next.droppedEventCount == s.droppedEventCount
  {
    Dial(Configure(Close(s), spec), dialOk, now)
  }

  /**
   * `attempted` is the payload passed to the socket's `Write`, whether or not
   * the write succeeded: a message whose write fails is lost, and it is not
   * counted among the dropped events.
   */
  datatype OutputResult = OutputResult(next: Sink, attempted: Option<string>, err: Option<Error>)

  /**
   * `output(m)`: a disconnected sink drops the message and counts it, without
   * error; a connected one hands the framed message to the socket, and on a
   * failed write disconnects, schedules a reconnection and returns the error.
   */
  function Output(s: Sink, m: string, writeOk: bool, now: Time): (r: OutputResult)
    requires Valid(s)
    ensures Valid(r.next)
    ensures !s.connected ==> r == OutputResult(s.(droppedEventCount := s.droppedEventCount + 1), None, None)
    ensures s.connected ==> r.attempted == Some(Frame(m, s.addNewline))
    ensures s.connected && writeOk ==> r.next == s && r.err.None?
    ensures s.connected && !writeOk ==> r.err == Some(WriteError)
    // the failed message is lost without being counted
    ensures s.connected && !writeOk ==> r.next.droppedEventCount == s.droppedEventCount
    ensures s.connected && !writeOk ==> r.next == CloseAndScheduleReconnection(s, now)
  {
    var payload := Frame(m, s.addNewline);
    if !s.connected then
      OutputResult(s.(droppedEventCount := s.droppedEventCount + 1), None, None)
    else if writeOk then
      OutputResult(s, Some(payload), None)
    else
      OutputResult(CloseAndScheduleReconnection(s, now), Some(payload), Some(WriteError))
  }

  /** Whether a signal ends the control loop. */
  predicate IsTermination(signo: int)
  {
    signo == SIGTERM || signo == SIGINT
  }

  /** As in `OutputResult`, `attempted` includes a payload whose write failed. */
  datatype StepResult = StepResult(next: Sink, attempted: Option<string>, dropped: bool, exit: bool)

  /**
   * One iteration of the `for`/`select` loop in `Go`: a message goes to
   * `output`; a tick retries `Initialize` once the back-off has passed and, if
   * that fails, reschedules; a termination signal ends the loop.
   */
  function Step(s: Sink, ev: Event): (r: StepResult)
    requires Valid(s) && Initialized(s)
    ensures Valid(r.next) && Initialized(r.next)
    // every message is either dropped (and counted once) or passed to `Write`, never both
    ensures r.dropped <==> ev.Message? && !s.connected
    ensures r.attempted.Some? <==> ev.Message? && s.connected
    ensures r.attempted.Some? ==> r.attempted.value == Frame(ev.m, s.addNewline)
    ensures r.next.droppedEventCount == s.droppedEventCount + (if r.dropped then 1 else 0)
    ensures s.droppedEventSinceConnection <= r.next.droppedEventSinceConnection
    ensures s.addNewline ==> r.next.addNewline
    ensures r.next.netConn == s.netConn
    // a failed write disconnects and backs off
    ensures ev.Message? && s.connected && !ev.writeOk ==>
              !r.next.connected && r.next.reconnectTime == ev.now + ReconnectDelay
    // ticks while connected, or before the back-off has passed, change nothing
    ensures ev.Tick? && (s.connected || ev.now <= s.reconnectTime) ==> r.next == s
    // a tick after the back-off reconnects, or backs off again
    ensures ev.Tick? && !s.connected && ev.now > s.reconnectTime ==>
              if ev.dialOk then
                r.next.connected && r.next.connectTime == ev.now
                && r.next.droppedEventSinceConnection == r.next.droppedEventCount
              else
                !r.next.connected && r.next.reconnectTime == ev.now + ReconnectDelay
    // signals change nothing; only SIGTERM and SIGINT end the loop
    ensures ev.Signal? ==> r.next == s
    ensures r.exit <==> ev.Signal? && IsTermination(ev.signo)
  {
    match ev
    case Message(m, writeOk, now) =>
      var o := Output(s, m, writeOk, now);
      StepResult(o.next, o.attempted, !s.connected, false)
    case Tick(now, dialOk) =>
      if !s.connected && now > s.reconnectTime then
        var init := Initialize(s, s.netConn, dialOk, now);
        if init.err.Some? then
          StepResult(CloseAndScheduleReconnection(init.next, now), None, false, false)
        else
          StepResult(init.next, None, false, false)
      else
        StepResult(s, None, false, false)
    case Signal(signo) =>
      StepResult(s, None, false, IsTermination(signo))
  }

  /**
   * A tick re-initialises from the spec already recorded, which splits back
   * into the same protocol and remote target; so no event changes the
   * configuration, and framing stays as it was.
   */
  lemma StepKeepsConfiguration(s: Sink, ev: Event)
    requires Valid(s) && Initialized(s) && Configured(s)
    ensures var r := Step(s, ev).next;
            && Configured(r)
            && r.protocolName == s.protocolName && r.remoteHostname == s.remoteHostname
            && r.addNewline == s.addNewline
  {
    if ev.Tick? {
      SplitSpecOfJoin(s.protocolName, s.remoteHostname);
    }
  }

  /** The messages among `events`, in order. */
  function Messages(events: seq<Event>): (ms: seq<string>)
    ensures |ms| <= |events|
  {
    if events == [] then []
    else (if events[0].Message? then [events[0].m] else []) + Messages(events[1..])
  }

  /** The payloads a step hands to the socket, as a sequence. */
  function Sent(attempted: Option<string>): (payloads: seq<string>)
    ensures |payloads| == if attempted.Some? then 1 else 0
  {
    if attempted.Some? then [attempted.value] else []
  }

  /** The number of messages a step drops. */
  function Count(dropped: bool): nat
  {
    if dropped then 1 else 0
  }

  datatype RunResult = RunResult(next: Sink, attempted: seq<string>, dropped: nat, exited: bool)

  /**
   * The control loop over a sequence of events, up to and including the first
   * termination signal: the final state, the payloads passed to `Write` in
   * order (failed writes included), the number of messages dropped, and
   * whether the loop exited.
   */
  function Run(s: Sink, events: seq<Event>): (r: RunResult)
    requires Valid(s) && Initialized(s)
    ensures Valid(r.next) && Initialized(r.next)
    decreases |events|
  {
    if events == [] then RunResult(s, [], 0, false)
    else
      var st := Step(s, events[0]);
      if st.exit then
        RunResult(st.next, Sent(st.attempted), Count(st.dropped), true)
      else
        var rest := Run(st.next, events[1..]);
        RunResult(rest.next, Sent(st.attempted) + rest.attempted, Count(st.dropped) + rest.dropped, rest.exited)
  }

  /** The extension of a run by one more event: unless the run has already exited, that event's step. */
  lemma {:induction false} RunSnoc(s: Sink, events: seq<Event>, e: Event)
    requires Valid(s) && Initialized(s)
    requires !Run(s, events).exited
    ensures var r := Run(s, events);
            var st := Step(r.next, e);
            Run(s, events + [e]) ==
            RunResult(st.next, r.attempted + Sent(st.attempted), r.dropped + Count(st.dropped), st.exit)
    decreases |events|
  {
    if events == [] {
      assert [] + [e] == [e];
    } else {
      var st := Step(s, events[0]);
      assert (events + [e])[0] == events[0];
      assert (events + [e])[1..] == events[1..] + [e];
      RunSnoc(st.next, events[1..], e);
      var rest := Run(st.next, events[1..]);
      var last := Step(rest.next, e);
      assert Sent(st.attempted) + (rest.attempted + Sent(last.attempted))
          == (Sent(st.attempted) + rest.attempted) + Sent(last.attempted);
    }
  }

  /**
   * Over any run: the drop counter grows by exactly the number of messages
   * dropped, neither counter decreases, framing once on stays on, and every
   * message processed is either dropped or passed to `Write`, never both (so
   * a message whose write failed is in neither the drop count nor the output).
   */
  lemma {:induction false} RunAccountsForEveryMessage(s: Sink, events: seq<Event>)
    requires Valid(s) && Initialized(s)
    ensures var r := Run(s, events);
            && r.next.droppedEventCount == s.droppedEventCount + r.dropped
            && s.droppedEventSinceConnection <= r.next.droppedEventSinceConnection
            && (s.addNewline ==> r.next.addNewline)
            && r.dropped + |r.attempted| <= |Messages(events)|
            && (!r.exited ==> r.dropped + |r.attempted| == |Messages(events)|)
    decreases |events|
  {
    if events != [] {
      var st := Step(s, events[0]);
      if !st.exit {
        RunAccountsForEveryMessage(st.next, events[1..]);
      }
    }
  }

  /** The configuration invariant holds throughout the control loop. */
  lemma {:induction false} RunKeepsConfiguration(s: Sink, events: seq<Event>)
    requires Valid(s) && Initialized(s) && Configured(s)
    ensures var r := Run(s, events).next;
            && Configured(r)
            && r.protocolName == s.protocolName && r.remoteHostname == s.remoteHostname
            && r.addNewline == s.addNewline
    decreases |events|
  {
    if events != [] {
      StepKeepsConfiguration(s, events[0]);
      var st := Step(s, events[0]);
      if !st.exit {
        RunKeepsConfiguration(st.next, events[1..]);
      }
    }
  }

  /** Every event is a message. */
  predicate AllMessages(events: seq<Event>)
  {
    forall i :: 0 <= i < |events| ==> events[i].Message?
  }

  /**
   * While disconnected, and with no tick to reconnect, every message is
   * dropped and counted exactly once and nothing reaches the socket.
   */
  lemma {:induction false} DisconnectedDropsEveryMessage(s: Sink, events: seq<Event>)
    requires Valid(s) && Initialized(s) && !s.connected
    requires AllMessages(events)
    ensures Run(s, events) ==
            RunResult(s.(droppedEventCount := s.droppedEventCount + |events|), [], |events|, false)
    decreases |events|
  {
    if events != [] {
      var next := s.(droppedEventCount := s.droppedEventCount + 1);
      assert Step(s, events[0]).next == next;
      assert AllMessages(events[1..]) by {
        forall i | 0 <= i < |events[1..]| ensures events[1..][i].Message? {
          assert events[1..][i] == events[i + 1];
        }
      }
      DisconnectedDropsEveryMessage(next, events[1..]);
    }
  }

  /**
   * While connected and every write succeeds, the sink hands the socket each
   * message, framed, in the order received, and its state does not change.
   */
  lemma {:induction false} ConnectedDeliversInOrder(s: Sink, events: seq<Event>)
    requires Valid(s) && Initialized(s) && s.connected
    requires AllMessages(events)
    requires forall i :: 0 <= i < |events| ==> events[i].writeOk
    ensures Run(s, events) == RunResult(s, FrameAll(Messages(events), s.addNewline), 0, false)
    decreases |events|
  {
    if events != [] {
      assert AllMessages(events[1..]) && forall i :: 0 <= i < |events[1..]| ==> events[1..][i].writeOk by {
        forall i | 0 <= i < |events[1..]| ensures events[1..][i].Message? && events[1..][i].writeOk {
          assert events[1..][i] == events[i + 1];
        }
      }
      ConnectedDeliversInOrder(s, events[1..]);
      assert Messages(events) == [events[0].m] + Messages(events[1..]);
    }
  }

  /** Once the loop has exited, later events are never processed. */
  lemma {:induction false} NothingAfterExit(s: Sink, events: seq<Event>, later: seq<Event>)
    requires Valid(s) && Initialized(s)
    requires Run(s, events).exited
    ensures Run(s, events + later) == Run(s, events)
    decreases |events|
  {
    assert events != [];
    assert (events + later)[0] == events[0];
    var st := Step(s, events[0]);
    if !st.exit {
      assert (events + later)[1..] == events[1..] + later;
      NothingAfterExit(st.next, events[1..], later);
    }
  }

  /** The control loop ends at the first SIGTERM or SIGINT and processes every event before it. */
  lemma {:induction false} RunExitsAtTermination(s: Sink, events: seq<Event>, signo: int, later: seq<Event>)
    requires Valid(s) && Initialized(s) && IsTermination(signo)
    requires forall i :: 0 <= i < |events| ==> !(events[i].Signal? && IsTermination(events[i].signo))
    ensures !Run(s, events).exited
    ensures Run(s, events + [Signal(signo)] + later) ==
            var r := Run(s, events); RunResult(r.next, r.attempted, r.dropped, true)
    decreases |events|
  {
    if events == [] {
      assert ([] + [Signal(signo)] + later)[0] == Signal(signo);
    } else {
      var st := Step(s, events[0]);
      assert (events + [Signal(signo)] + later)[0] == events[0];
      assert (events + [Signal(signo)] + later)[1..] == events[1..] + [Signal(signo)] + later;
      assert forall i :: 0 <= i < |events[1..]| ==> events[1..][i] == events[i + 1];
      RunExitsAtTermination(st.next, events[1..], signo, later);
    }
  }

  datatype GoResult = GoResult(err: Option<Error>, run: RunResult)

  /**
   * `Go`: refuses to start when no socket was ever opened (or the last dial
   * failed); otherwise runs the control loop over `events`.
   */
  function Go(s: Sink, events: seq<Event>): (r: GoResult)
    requires Valid(s)
    ensures r.err.Some? <==> s.socket == Nil
    ensures r.err.Some? ==> r.err.value == SocketNotOpen && r.run == RunResult(s, [], 0, false)
    ensures r.err.None? ==> Initialized(s) && r.run == Run(s, events)
  {
    if s.socket == Nil then GoResult(Some(SocketNotOpen), RunResult(s, [], 0, false))
    else GoResult(None, Run(s, events))
  }

  /** `Go` starts only once some dial has succeeded: a fresh sink, or one whose last dial failed, is refused. */
  lemma GoNeedsASuccessfulDial(s: Sink, spec: string, dialOk: bool, now: Time, events: seq<Event>)
    requires Valid(s) && Colon in spec
    ensures Go(NewSink(), events).err == Some(SocketNotOpen)
    ensures Go(Initialize(s, spec, dialOk, now).next, events).err.None? <==> dialOk
  {
  }

}
