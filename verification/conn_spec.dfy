/**
 * The pure string handling of the network output: parsing a connection
 * specification `<protocol>:<remote-target>` on its first colon, recognising
 * tcp-prefixed protocols, and framing a message for the wire.
 */
module ConnSpec {

  /** The separator between protocol and remote target. */
  const Colon: char := ':'

  /** Protocols whose name starts with this get CRLF framing. */
  const TcpPrefix: string := "tcp"

  /** The record delimiter appended for tcp-prefixed protocols. */
  const CrLf: string := "\r\n"

  /** Position of the first colon of `s`. */
  function FirstColon(s: string): (i: nat)
    requires Colon in s
    ensures i < |s| && s[i] == Colon
    ensures Colon !in s[..i]
  {
    if s[0] == Colon then 0
    else
      assert Colon in s[1..] by {
        var k :| 0 <= k < |s| && s[k] == Colon;
        assert s[1..][k - 1] == Colon;
      }
      var j := FirstColon(s[1..]);
      assert s[..j + 1] == [s[0]] + s[1..][..j];
      j + 1
  }

  /**
   * `strings.SplitN(spec, ":", 2)`: the protocol is everything before the
   * first colon, the remote target everything after it, later colons included.
   */
  function SplitSpec(spec: string): (parts: (string, string))
    requires Colon in spec
    ensures spec == parts.0 + [Colon] + parts.1
    ensures Colon !in parts.0
  {
    var i := FirstColon(spec);
    assert spec == spec[..i] + [Colon] + spec[i + 1..];
    (spec[..i], spec[i + 1..])
  }

  /** Splitting undoes joining on a colon whenever the protocol part has no colon of its own. */
  lemma SplitSpecOfJoin(protocol: string, target: string)
    requires Colon !in protocol
    ensures Colon in protocol + [Colon] + target
    ensures SplitSpec(protocol + [Colon] + target) == (protocol, target)
  {
    var spec := protocol + [Colon] + target;
    assert spec[|protocol|] == Colon;
    var i := FirstColon(spec);
    assert i >= |protocol| by {
      assert spec[..|protocol|] == protocol;
    }
    assert spec[..i] == protocol;
    assert spec[i + 1..] == target;
  }

  /** The remote target keeps the colon before the port. */
  lemma SplitSpecKeepsLaterColons()
    ensures Colon in "tcp:127.0.0.1:9999"
    ensures SplitSpec("tcp:127.0.0.1:9999") == ("tcp", "127.0.0.1:9999")
  {
    SplitSpecOfJoin("tcp", "127.0.0.1:9999");
    assert "tcp" + [Colon] + "127.0.0.1:9999" == "tcp:127.0.0.1:9999";
  }

  /** `strings.HasPrefix`. */
  predicate HasPrefix(s: string, prefix: string)
  {
    |prefix| <= |s| && s[..|prefix|] == prefix
  }

  /**
   * The only test framing depends on: the protocol name starts with "tcp"
   * ("tcp", "tcp4", "tcp6"). Other stream sockets, such as "unix", get no framing.
   */
  predicate HasTcpPrefix(protocol: string)
  {
    HasPrefix(protocol, TcpPrefix)
  }

  /** The bytes handed to the socket for message `m`: `m` itself, followed by CRLF exactly when `addNewline` is set. */
  function Frame(m: string, addNewline: bool): (payload: string)
    ensures |payload| == |m| + (if addNewline then |CrLf| else 0)
    ensures payload[..|m|] == m
    ensures addNewline ==> payload[|m|..] == CrLf
  {
    if addNewline then m + CrLf else m
  }

  /** Framing loses nothing: two messages framed alike are equal exactly when their frames are. */
  lemma FrameInjective(m1: string, m2: string, addNewline: bool)
    ensures Frame(m1, addNewline) == Frame(m2, addNewline) <==> m1 == m2
  {
    if Frame(m1, addNewline) == Frame(m2, addNewline) {
      assert |m1| == |m2|;
      assert m1 == Frame(m1, addNewline)[..|m1|];
    }
  }

  /** The frames of a sequence of messages, in order. */
  function FrameAll(ms: seq<string>, addNewline: bool): (payloads: seq<string>)
    ensures |payloads| == |ms|
    ensures forall i :: 0 <= i < |ms| ==> payloads[i] == Frame(ms[i], addNewline)
  {
    if ms == [] then [] else [Frame(ms[0], addNewline)] + FrameAll(ms[1..], addNewline)
  }

}
