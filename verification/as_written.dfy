/**
 * `Initialize` as the source writes it, kept beside the corrected version in
 * `NetState` to exhibit the one place they differ: re-initialising a
 * connected sink whose new dial fails.
 */
module AsWritten {

  import opened Wrappers
  import opened ConnSpec
  import opened NetState

  /**
   * `Initialize` exactly as written: when the sink is connected the old socket
   * is closed but `connected` is left set, so a failed dial leaves a sink that
   * believes it is connected and has no socket (the next message would call
   * Write on a nil connection).
   */
  function InitializeAsWritten(s: Sink, spec: string, dialOk: bool, now: Time): (r: InitResult)
    requires Valid(s) && Colon in spec
    ensures r.err.None? <==> dialOk
    ensures s.connected && !dialOk ==> r.next.connected && r.next.socket == Nil && !Valid(r.next)
    ensures !s.connected || dialOk ==> r == Initialize(s, spec, dialOk, now)
  {
    var closed := if s.connected then s.(socket := Closed) else s;
    var parts := SplitSpec(spec);
    var parsed := closed.(netConn := spec, protocolName := parts.0, remoteHostname := parts.1);
    var framed := if HasTcpPrefix(parsed.protocolName) then parsed.(addNewline := true) else parsed;
    if !dialOk then
      InitResult(framed.(socket := Nil), Some(DialError(spec)))
    else
      InitResult(MarkConnected(framed.(socket := Live), now), None)
  }

  /**
   * The concrete case: connect to "tcp:127.0.0.1:9999", then initialise again
   * while the listener is gone. As written, the sink stays connected without a socket.
   */
  lemma ReinitializeAfterListenerGone()
    ensures Colon in "tcp:127.0.0.1:9999"
    ensures var first := Initialize(NewSink(), "tcp:127.0.0.1:9999", true, Second).next;
            var again := InitializeAsWritten(first, "tcp:127.0.0.1:9999", false, 2 * Second);
            first.connected && again.err.Some? && again.next.connected && again.next.socket == Nil
  {
    assert "tcp:127.0.0.1:9999"[3] == Colon;
  }

}
