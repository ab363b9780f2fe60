/**
 * `NetOutput`, the network output sink, as an object whose methods update its
 * fields in place. Each method is proved to leave the object in the state the
 * matching function of `NetState` computes from the old one; the socket is the
 * `socket` field, and the outside world's answers are parameters.
 */
module Outputs {

  import opened Wrappers
  import opened ConnSpec
  import opened NetState

  class NetOutput {
    var netConn: string
    var remoteHostname: string
    var protocolName: string
    var socket: Socket
    var addNewline: bool

    var connectTime: Time
    var reconnectTime: Time
    var connected: bool
    var droppedEventCount: int
    var droppedEventSinceConnection: int

    /** The fields as a `NetState.Sink` value. */
    ghost function State(): Sink
      reads this
    {
      Sink(netConn, remoteHostname, protocolName, socket, addNewline,
           connectTime, reconnectTime, connected, droppedEventCount, droppedEventSinceConnection)
    }

    /** The two invariants of `NetState`, on the fields. */
    ghost predicate Valid()
      reads this
    {
      NetState.Valid(State()) && Configured(State())
    }

    /** `NewNetOutputfromConfig`. */
    constructor ()
      ensures State() == NewSink()
      ensures Valid()
    {
      netConn, remoteHostname, protocolName := [], [], [];
      socket, addNewline := Nil, false;
      connectTime, reconnectTime, connected := 0, 0, false;
      droppedEventCount, droppedEventSinceConnection := 0, 0;
    }

    method Initialize(netConn: string, dialOk: bool, now: Time) returns (err: Option<Error>)
      requires Valid() && Colon in netConn
      modifies this
      ensures Valid()
      ensures var r := NetState.Initialize(old(State()), netConn, dialOk, now);
              State() == r.next && err == r.err
    {
      Close();
      Configure(netConn);
      err := Dial(dialOk, now);
    }

    /** Closes the socket of a connected sink. */
    method Close()
      requires Valid()
      modifies this
      ensures Valid()
      ensures State() == NetState.Close(old(State()))
    {
      if connected {
        socket := Closed;
        connected := false;
      }
    }

    /** The parsing half of `Initialize`. */
    method Configure(netConn: string)
      requires Valid() && Colon in netConn
      modifies this
      ensures Valid()
      ensures State() == NetState.Configure(old(State()), netConn)
    {
      this.netConn := netConn;
      var connSpecification := SplitSpec(netConn);
      protocolName := connSpecification.0;
      remoteHostname := connSpecification.1;
      if HasPrefix(protocolName, TcpPrefix) {
        addNewline := true;
      }
    }

    /** The dialling half of `Initialize`. */
    method Dial(dialOk: bool, now: Time) returns (err: Option<Error>)
      requires Valid() && Initialized(State()) && !connected
      modifies this
      ensures Valid()
      ensures var r := NetState.Dial(old(State()), dialOk, now);
              State() == r.next && err == r.err
    {
      if !dialOk {
        socket := Nil;
        return Some(DialError(netConn));
      }
      socket := Live;
      MarkConnected(now);
      return None;
    }

    method MarkConnected(now: Time)
      requires Valid() && socket == Live
      modifies this
      ensures Valid()
      ensures State() == NetState.MarkConnected(old(State()), now)
    {
      connectTime := now;
      connected := true;
      if droppedEventCount != droppedEventSinceConnection {
        droppedEventSinceConnection := droppedEventCount;
      }
    }

    method CloseAndScheduleReconnection(now: Time)
      requires Valid()
      modifies this
      ensures Valid()
      ensures State() == NetState.CloseAndScheduleReconnection(old(State()), now)
    {
      Close();
      reconnectTime := now + ReconnectDelay;
    }

    /** The sink's identity: its connection specification, from which protocol and remote target were split. */
    function Key(): (key: string)
      reads this
      requires Valid()
      ensures key == [] <==> !Initialized(State())
      ensures Initialized(State()) ==> key == protocolName + [Colon] + remoteHostname
      ensures key == [] ==> !connected && socket == Nil
    {
      netConn
    }

    /** The display name, the same string as the key. */
    function String(): (name: string)
      reads this
      requires Valid()
      ensures name == Key()
    {
      netConn
    }

    /** A copy of the observable state, consistent with the key. */
    function Statistics(): (st: NetStatistics)
      reads this
      requires Valid()
      ensures st.connected == connected && st.droppedEventCount == droppedEventCount
      ensures st.lastOpenTime == connectTime
      ensures st.protocol == protocolName && st.remoteHostname == remoteHostname
      ensures Initialized(State()) ==> Key() == st.protocol + [Colon] + st.remoteHostname
      ensures st.droppedEventCount >= 0
    {
      NetStatistics(connectTime, protocolName, remoteHostname, droppedEventCount, connected)
    }

    method Output(m: string, writeOk: bool, now: Time) returns (attempted: Option<string>, err: Option<Error>)
      requires Valid()
      modifies this
      ensures Valid()
      ensures var r := NetState.Output(old(State()), m, writeOk, now);
              State() == r.next && attempted == r.attempted && err == r.err
    {
      var payload := m;
      if addNewline {
        payload := payload + CrLf;
      }
      if !connected {
        droppedEventCount := droppedEventCount + 1;
        return None, None;
      }
      attempted := Some(payload);
      if writeOk {
        err := None;
      } else {
        err := Some(WriteError);
        CloseAndScheduleReconnection(now);
      }
    }

    /** One iteration of the control loop's `select`. */
    method Step(ev: Event) returns (attempted: Option<string>, dropped: bool, exit: bool)
      requires Valid() && Initialized(State())
      modifies this
      ensures Valid() && Initialized(State())
      ensures var r := NetState.Step(old(State()), ev);
              State() == r.next && attempted == r.attempted && dropped == r.dropped && exit == r.exit
    {
      StepKeepsConfiguration(State(), ev);
      match ev
      case Message(m, writeOk, now) =>
        dropped := !connected;
        var err;
        attempted, err := Output(m, writeOk, now);
        exit := false;
      case Tick(now, dialOk) =>
        if !connected && now > reconnectTime {
          var err := Initialize(netConn, dialOk, now);
          if err.Some? {
            CloseAndScheduleReconnection(now);
          }
        }
        attempted, dropped, exit := None, false, false;
      case Signal(signo) =>
        attempted, dropped := None, false;
        exit := signo == SIGTERM || signo == SIGINT;
    }

    /**
     * `Go`: refuses to start without a socket; otherwise starts the control
     * loop, here run to the end of `events`. Returns the payloads passed to
     * `Write` (failed writes included) and whether the loop completed
     * (signalled its exit).
     */
    method Go(events: seq<Event>) returns (err: Option<Error>, attempted: seq<string>, completed: bool)
      requires Valid()
      modifies this
      ensures Valid()
      ensures var g := NetState.Go(old(State()), events);
              err == g.err && State() == g.run.next && attempted == g.run.attempted && completed == g.run.exited
    {
      if socket == Nil {
        return Some(SocketNotOpen), [], false;
      }
      err := None;
      attempted, completed := Serve(events);
    }

    /** One pass of the control loop, extending the run so far by the event `e`. */
    method Iterate(ghost start: Sink, ghost done: seq<Event>, e: Event, attempted: seq<string>, ghost dropped: nat)
        returns (attempted': seq<string>, ghost dropped': nat, exit: bool)
      requires NetState.Valid(start) && Initialized(start)
      requires Valid() && Run(start, done) == RunResult(State(), attempted, dropped, false)
      modifies this
      ensures Valid()
      ensures Run(start, done + [e]) == RunResult(State(), attempted', dropped', exit)
    {
      RunSnoc(start, done, e);
      var w, d;
      w, d, exit := Step(e);
      attempted', dropped' := attempted + Sent(w), dropped + Count(d);
    }

    /**
     * The body of the goroutine `Go` starts: one `select` per event until a
     * termination signal arrives or the events run out.
     */
    method Serve(events: seq<Event>) returns (attempted: seq<string>, completed: bool)
      requires Valid() && Initialized(State())
      modifies this
      ensures Valid() && Initialized(State())
      ensures var r := Run(old(State()), events);
              State() == r.next && attempted == r.attempted && completed == r.exited
    {
      ghost var start := State();
      ghost var dropped: nat := 0;
      attempted, completed := [], false;
      var i := 0;
      while i < |events| && !completed
        invariant 0 <= i <= |events|
        invariant Valid()
        invariant Run(start, events[..i]) == RunResult(State(), attempted, dropped, completed)
        decreases |events| - i
      {
        assert events[..i + 1] == events[..i] + [events[i]];
        attempted, dropped, completed := Iterate(start, events[..i], events[i], attempted, dropped);
        i := i + 1;
      }
      if completed {
        NothingAfterExit(start, events[..i], events[i..]);
        assert events[..i] + events[i..] == events;
      } else {
        assert events[..i] == events;
      }
    }
  }

}
