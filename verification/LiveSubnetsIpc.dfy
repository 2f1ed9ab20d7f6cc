/**
 Length-prefixed framing between the fetch parent and its child. The peer is a byte stream; every
 loop is driven by a script of what the kernel answers: readiness, partial counts, would-block
 results, errors and the deadline, in any order. Running out of script is the deadline passing.
 */
module LiveSubnetsIpc {
  import opened Prelude

  type Byte = b: int | 0 <= b < 256

  const HEADER_SIZE := 4
  const MAX_PAYLOAD := 8 * 1024 * 1024

  // ---------------------------------------------------------------- frames

  /** `struct.Struct("!I")`: four bytes, most significant first. */
  function PackHeader(n: nat): (h: seq<Byte>)
    requires n < 0x1_0000_0000
    ensures |h| == HEADER_SIZE
  {
    [n / 0x100_0000, n / 0x1_0000 % 0x100, n / 0x100 % 0x100, n % 0x100]
  }

  function UnpackHeader(h: seq<Byte>): nat
    requires |h| == HEADER_SIZE
  {
    ((h[0] as int * 0x100 + h[1]) * 0x100 + h[2]) * 0x100 + h[3]
  }

  lemma HeaderRoundTrip(n: nat)
    requires n < 0x1_0000_0000
    ensures UnpackHeader(PackHeader(n)) == n
  {
    var a, b := n / 0x100, n / 0x1_0000;
    assert n == a * 0x100 + n % 0x100 && a == b * 0x100 + a % 0x100;
    assert n / 0x1_0000 == n / 0x100 / 0x100 && n / 0x100_0000 == n / 0x1_0000 / 0x100;
  }

  predicate Sendable(body: seq<Byte>) { |body| <= MAX_PAYLOAD }

  function Frame(body: seq<Byte>): (f: seq<Byte>)
    requires Sendable(body)
    ensures |f| == HEADER_SIZE + |body|
  {
    PackHeader(|body|) + body
  }

  function Frames(bodies: seq<seq<Byte>>): seq<Byte>
    requires forall i :: 0 <= i < |bodies| ==> Sendable(bodies[i])
  {
    if bodies == [] then [] else Frame(bodies[0]) + Frames(bodies[1..])
  }

  /** What a receiver at the start of `wire` makes of it: the first body and what follows. */
  datatype Parsed = NeedMore | TooLarge | Body(body: seq<Byte>, rest: seq<Byte>)

  function ParseFrame(wire: seq<Byte>): Parsed
  {
    if |wire| < HEADER_SIZE then NeedMore
    else
      var n := UnpackHeader(wire[..HEADER_SIZE]);
      if n > MAX_PAYLOAD then TooLarge
      else if |wire| < HEADER_SIZE + n then NeedMore
      else Body(wire[HEADER_SIZE..HEADER_SIZE + n], wire[HEADER_SIZE + n..])
  }

  /** A frame the sender accepts parses back to its body, whatever follows on the wire. */
  lemma FrameRoundTrip(body: seq<Byte>, rest: seq<Byte>)
    requires Sendable(body)
    ensures ParseFrame(Frame(body) + rest) == Body(body, rest)
  {
    var wire := Frame(body) + rest;
    assert wire[..HEADER_SIZE] == PackHeader(|body|);
    HeaderRoundTrip(|body|);
    assert wire[HEADER_SIZE..HEADER_SIZE + |body|] == body && wire[HEADER_SIZE + |body|..] == rest;
  }

  /** A frame that is still incomplete never looks like another frame or like an oversized one. */
  lemma CutFrameNeedsMore(body: seq<Byte>, k: nat)
    requires Sendable(body) && k < |Frame(body)|
    ensures ParseFrame(Frame(body)[..k]) == NeedMore
  {
    var wire := Frame(body)[..k];
    if k >= HEADER_SIZE {
      assert wire[..HEADER_SIZE] == PackHeader(|body|);
      HeaderRoundTrip(|body|);
    }
  }

  // ---------------------------------------------------------------- the two ends

  /** What one turn of a send or read loop meets. `Moved(n)` offers up to `n` bytes. */
  datatype Io = DeadlinePassed | NotReady | WouldBlock | Fails | Moved(n: nat)

  /** The script moves `need` bytes before it fails, stalls on an empty transfer or runs out. */
  predicate Carries(script: seq<Io>, need: nat)
  {
    if need == 0 then true
    else if script == [] then false
    else
      match script[0]
      case DeadlinePassed => false
      case Fails => false
      case NotReady => Carries(script[1..], need)
      case WouldBlock => Carries(script[1..], need)
      case Moved(n) => n > 0 && Carries(script[1..], if n < need then need - n else 0)
  }

  /** What one successful receive after another reads from `wire`. */
  function ParseMany(wire: seq<Byte>, k: nat): Option<(seq<seq<Byte>>, seq<Byte>)>
  {
    if k == 0 then Some(([], wire))
    else
      match ParseFrame(wire)
      case Body(body, rest) =>
        var more := ParseMany(rest, k - 1);
        if more.None? then None else Some(([body] + more.value.0, more.value.1))
      case _ => None
  }

  lemma {:induction false} ParseOneMore(wire: seq<Byte>, k: nat)
    requires ParseMany(wire, k).Some? && ParseFrame(ParseMany(wire, k).value.1).Body?
    ensures
      var (bodies, rest) := ParseMany(wire, k).value;
      ParseMany(wire, k + 1) == Some((bodies + [ParseFrame(rest).body], ParseFrame(rest).rest))
    decreases k
  {
    hide ParseFrame;
    var (bodies, rest) := ParseMany(wire, k).value;
    if k == 0 {
      assert ParseMany(ParseFrame(wire).rest, 0) == Some(([], ParseFrame(wire).rest));
      assert [] + [ParseFrame(wire).body] == [ParseFrame(wire).body] + [];
    } else {
      ParseOneMore(ParseFrame(wire).rest, k - 1);
      var b := ParseFrame(wire).body;
      assert bodies == [b] + bodies[1..];
      assert [b] + (bodies[1..] + [ParseFrame(rest).body]) == bodies + [ParseFrame(rest).body];
    }
  }

  lemma {:induction false} FramesOneMore(bodies: seq<seq<Byte>>, body: seq<Byte>)
    requires (forall i :: 0 <= i < |bodies| ==> Sendable(bodies[i])) && Sendable(body)
    ensures Frames(bodies + [body]) == Frames(bodies) + Frame(body)
  {
    if bodies != [] {
      FramesOneMore(bodies[1..], body);
      assert (bodies + [body])[1..] == bodies[1..] + [body];
    }
  }

  predicate IsCutOf(cut: seq<Byte>, body: seq<Byte>)
    requires Sendable(body)
  {
    |cut| < |Frame(body)| && cut == Frame(body)[..|cut|]
  }

  /** The writing end: everything the kernel has accepted so far. */
  class Outgoing {
    var sent: seq<Byte>

    constructor ()
      ensures sent == []
    {
      sent := [];
    }

    /** Success, exactly when the script carries it, has written all of `data`; failure only a
        proper prefix of it. */
    method SendExact(data: seq<Byte>, script: seq<Io>) returns (ok: bool)
      modifies this
      ensures ok <==> Carries(script, |data|)
      ensures ok ==> sent == old(sent) + data
      ensures !ok ==> exists k :: 0 <= k < |data| && sent == old(sent) + data[..k]
    {
      var offset := 0;
      var turn := 0;
      while offset < |data|
        invariant 0 <= offset <= |data| && 0 <= turn <= |script|
        invariant sent == old(sent) + data[..offset]
        invariant Carries(script, |data|) <==> Carries(script[turn..], |data| - offset)
        decreases |script| - turn
      {
        if turn == |script| { return false; }
        var io := script[turn];
        assert script[turn..][1..] == script[turn + 1..];
        turn := turn + 1;
        match io {
          case DeadlinePassed => return false;
          case NotReady => continue;
          case WouldBlock => continue;
          case Fails => return false;
          case Moved(n) =>
            var count := Min(n, |data| - offset);
            if count <= 0 { return false; }
            sent := sent + data[offset..offset + count];
            assert data[..offset + count] == data[..offset] + data[offset..offset + count];
            offset := offset + count;
        }
      }
      assert data[..offset] == data;
      return true;
    }

    /** `send_framed_body`: an oversized body is refused before a byte is written. */
    method SendFramedBody(body: seq<Byte>, script: seq<Io>) returns (ok: bool)
      modifies this
      ensures ok <==> |body| <= 8 * 1024 * 1024 && Carries(script, HEADER_SIZE + |body|)
      ensures ok ==> Sendable(body) && sent == old(sent) + Frame(body)
      ensures !ok && !Sendable(body) ==> sent == old(sent)
      ensures !ok && Sendable(body) ==> exists k :: 0 <= k < |Frame(body)| && sent == old(sent) + Frame(body)[..k]
    {
      if |body| > MAX_PAYLOAD { return false; }
      ok := SendExact(Frame(body), script);
    }

    /** One framed body after another, until one fails: then `whole` frames are on the wire, and after
        them a proper prefix of the next, nothing of it if it is too large. */
    method SendFramedBodies(bodies: seq<seq<Byte>>, scripts: seq<seq<Io>>)
      returns (ok: bool, whole: nat, cut: seq<Byte>)
      requires |scripts| == |bodies|
      modifies this
      ensures whole <= |bodies| && (ok <==> whole == |bodies|)
      ensures forall i :: 0 <= i < whole ==> Sendable(bodies[i])
      ensures sent == old(sent) + Frames(bodies[..whole]) + cut
      ensures ok ==> cut == []
      ensures !ok ==> if Sendable(bodies[whole]) then IsCutOf(cut, bodies[whole]) else cut == []
    {
      whole, cut := 0, [];
      while whole < |bodies|
        invariant whole <= |bodies| && cut == []
        invariant forall k :: 0 <= k < whole ==> Sendable(bodies[k])
        invariant sent == old(sent) + Frames(bodies[..whole])
      {
        var before := |sent|;
        ok := SendFramedBody(bodies[whole], scripts[whole]);
        if !ok {
          cut := sent[before..];
          return;
        }
        FramesOneMore(bodies[..whole], bodies[whole]);
        assert bodies[..whole] + [bodies[whole]] == bodies[..whole + 1];
        whole := whole + 1;
      }
      return true, whole, [];
    }
  }

  /** The reading end of a stream whose whole future content is `wire`. */
  class Incoming {
    const wire: seq<Byte>
    var at: nat
    var closed: bool

    predicate Valid()
      reads this
    {
      at <= |wire|
    }

    constructor (content: seq<Byte>)
      ensures wire == content && at == 0 && !closed && Valid()
    {
      wire, at, closed := content, 0, false;
    }

    /** Success takes exactly the next `nbytes`, whenever the stream has them and the script carries
        them; an end of stream in between is a failure. */
    method ReadExact(nbytes: nat, script: seq<Io>) returns (r: Option<seq<Byte>>)
      requires Valid()
      modifies this`at
      ensures Valid() && old(at) <= at
      ensures r.Some? <==> old(at) + nbytes <= |wire| && Carries(script, nbytes)
      ensures r.Some? ==> at == old(at) + nbytes && r.value == wire[old(at)..at]
      ensures r.None? ==> at < old(at) + nbytes
    {
      var buf: seq<Byte> := [];
      var turn := 0;
      while |buf| < nbytes
        invariant Valid() && |buf| <= nbytes && 0 <= turn <= |script|
        invariant at == old(at) + |buf| && buf == wire[old(at)..at]
        invariant old(at) + nbytes <= |wire| ==>
                    (Carries(script, nbytes) <==> Carries(script[turn..], nbytes - |buf|))
        decreases |script| - turn
      {
        if turn == |script| { return None; }
        var io := script[turn];
        assert script[turn..][1..] == script[turn + 1..];
        turn := turn + 1;
        match io {
          case DeadlinePassed => return None;
          case NotReady => continue;
          case WouldBlock => continue;
          case Fails => return None;
          case Moved(n) =>
            var count := Min(Min(n, nbytes - |buf|), |wire| - at);
            if count <= 0 { return None; }
            buf := buf + wire[at..at + count];
            at := at + count;
        }
      }
      return Some(buf);
    }

    /** `recv_message` up to unpickling: a body is exactly the frame at the reading position, and
        anything else closes the connection. */
    method RecvBody(headerScript: seq<Io>, bodyScript: seq<Io>) returns (r: Option<seq<Byte>>)
      requires Valid()
      modifies this
      ensures Valid() && old(at) <= at
      ensures r.Some? ==>
              && closed == old(closed)
              && ParseFrame(wire[old(at)..]) == Body(r.value, wire[at..])
      ensures r.None? ==> closed
      ensures r.Some? <==>
              && ParseFrame(wire[old(at)..]).Body?
              && Carries(headerScript, HEADER_SIZE) && Carries(bodyScript, |ParseFrame(wire[old(at)..]).body|)
      ensures r.None? && ParseFrame(wire[old(at)..]).Body? ==>
              at < old(at) + HEADER_SIZE + |ParseFrame(wire[old(at)..]).body|
    {
      ghost var rest := wire[at..];
      var header := ReadExact(HEADER_SIZE, headerScript);
      if header.None? {
        closed := true;
        return None;
      }
      assert rest[..HEADER_SIZE] == header.value;
      var n := UnpackHeader(header.value);
      if n > MAX_PAYLOAD {
        closed := true;
        return None;
      }
      r := ReadExact(n, bodyScript);
      if r.None? {
        closed := true;
        return None;
      }
      assert rest[HEADER_SIZE..HEADER_SIZE + n] == r.value && rest[HEADER_SIZE + n..] == wire[at..];
    }

    /** `recv_message`; `loads` is what unpickling makes of a body, None when it raises. */
    method RecvMessage<T>(headerScript: seq<Io>, bodyScript: seq<Io>, loads: seq<Byte> -> Option<T>)
      returns (r: Option<T>)
      requires Valid()
      modifies this
      ensures Valid() && old(at) <= at
      ensures r.None? ==> closed
      ensures r.Some? <==>
              && ParseFrame(wire[old(at)..]).Body?
              && Carries(headerScript, HEADER_SIZE) && Carries(bodyScript, |ParseFrame(wire[old(at)..]).body|)
              && loads(ParseFrame(wire[old(at)..]).body).Some?
      ensures r.Some? ==>
              && closed == old(closed)
              && ParseFrame(wire[old(at)..]).Body?
              && loads(ParseFrame(wire[old(at)..]).body) == r
              && wire[at..] == ParseFrame(wire[old(at)..]).rest
    {
      var body := RecvBody(headerScript, bodyScript);
      if body.None? { return None; }
      r := loads(body.value);
      if r.None? { closed := true; }
    }

    /** One receive after another, until one fails. */
    method RecvBodies(scripts: seq<(seq<Io>, seq<Io>)>) returns (bodies: seq<seq<Byte>>)
      requires Valid()
      modifies this
      ensures Valid() && old(at) <= at && |bodies| <= |scripts|
      ensures |bodies| < |scripts| ==> closed
      ensures |bodies| == |scripts| ==> ParseMany(wire[old(at)..], |bodies|) == Some((bodies, wire[at..]))
      ensures ParseMany(wire[old(at)..], |bodies|).Some? && ParseMany(wire[old(at)..], |bodies|).value.0 == bodies
    {
      bodies := [];
      for i := 0 to |scripts|
        invariant Valid() && old(at) <= at && |bodies| == i
        invariant ParseMany(wire[old(at)..], i) == Some((bodies, wire[at..]))
      {
        ghost var before := wire[at..];
        var body := RecvBody(scripts[i].0, scripts[i].1);
        if body.None? { return; }
        assert ParseFrame(before) == Body(body.value, wire[at..]);
        ParseOneMore(wire[old(at)..], i);
        bodies := bodies + [body.value];
      }
    }
  }

  /** Back-to-back frames stay in sync: `k` receives return the first `k` bodies that were sent, in
      order, and leave the stream at the boundary of the next frame. */
  lemma {:induction false} FramesStayInSync(sent: seq<seq<Byte>>, tail: seq<Byte>, k: nat)
    requires k <= |sent| && forall i :: 0 <= i < |sent| ==> Sendable(sent[i])
    ensures ParseMany(Frames(sent) + tail, k) == Some((sent[..k], Frames(sent[k..]) + tail))
  {
    if k == 0 {
      assert sent[0..] == sent;
    } else {
      var rest := Frames(sent[1..]) + tail;
      assert Frames(sent) + tail == Frame(sent[0]) + rest;
      FrameRoundTrip(sent[0], rest);
      FramesStayInSync(sent[1..], tail, k - 1);
      assert sent[1..][k - 1..] == sent[k..] && [sent[0]] + sent[1..][..k - 1] == sent[..k];
    }
  }

  /** After the frames that were sent whole, a cut one gives a receiver nothing. */
  lemma {:induction false} NothingAfterTheCut(sent: seq<seq<Byte>>, cut: seq<Byte>, k: nat)
    requires (forall i :: 0 <= i < |sent| ==> Sendable(sent[i])) && ParseFrame(cut).NeedMore?
    requires ParseMany(Frames(sent) + cut, k).Some?
    ensures k <= |sent|
    decreases k
  {
    hide ParseFrame, Frame;
    assert [] + cut == cut;
    if k > 0 && sent != [] {
      var rest := Frames(sent[1..]) + cut;
      assert Frames(sent) + cut == Frame(sent[0]) + rest;
      FrameRoundTrip(sent[0], rest);
      NothingAfterTheCut(sent[1..], cut, k - 1);
    }
  }

  lemma CutGivesNothing(cut: seq<Byte>, body: seq<Byte>)
    requires if Sendable(body) then IsCutOf(cut, body) else cut == []
    ensures ParseFrame(cut).NeedMore?
  {
    if Sendable(body) { CutFrameNeedsMore(body, |cut|); }
  }

  /** Both ends over one connection, however the transfers are cut up on either side, and wherever
      either end fails: what arrives is what was sent, in order, from the first body on; and once all is
      sent and all is received the stream is left at a frame boundary. */
  method Transfer(bodies: seq<seq<Byte>>, tail: seq<Byte>, sends: seq<seq<Io>>, receives: seq<(seq<Io>, seq<Io>)>)
    returns (received: seq<seq<Byte>>, whole: nat, rest: seq<Byte>)
    requires |sends| == |bodies|
    ensures whole <= |bodies| && forall i :: 0 <= i < whole ==> Sendable(bodies[i])
    ensures tail == [] || |received| <= whole ==> received <= bodies[..whole]
    ensures whole == |bodies| && |received| == |receives| <= |bodies| ==>
            received == bodies[..|receives|] && rest == Frames(bodies[|receives|..]) + tail
  {
    hide ParseMany, Frames, ParseFrame, Carries, Frame, IsCutOf;
    var out := new Outgoing();
    var sentAll, cut;
    sentAll, whole, cut := out.SendFramedBodies(bodies, sends);
    var inc := new Incoming(out.sent + tail);
    ghost var sent := bodies[..whole];
    assert inc.wire[0..] == Frames(sent) + (cut + tail);
    received := inc.RecvBodies(receives);
    rest := inc.wire[inc.at..];
    if |received| <= whole {
      FramesStayInSync(sent, cut + tail, |received|);
      assert received == sent[..|received|];
      assert whole == |bodies| ==> sent == bodies && cut + tail == tail;
    } else if tail == [] {
      assert cut + tail == cut;
      if !sentAll { CutGivesNothing(cut, bodies[whole]); } else { EmptyGivesNothing(cut); }
      NothingAfterTheCut(sent, cut, |received|);
    }
  }

  lemma EmptyGivesNothing(cut: seq<Byte>)
    requires cut == []
    ensures ParseFrame(cut).NeedMore?
  {
  }

  /** A message pickled, framed and sent is the message received, for any pickling that `loads`
      undoes, and the stream is left at the next frame. */
  lemma MessageRoundTrip<T>(m: T, dumps: T -> seq<Byte>, loads: seq<Byte> -> Option<T>, rest: seq<Byte>)
    requires loads(dumps(m)) == Some(m) && Sendable(dumps(m))
    ensures
      var p := ParseFrame(Frame(dumps(m)) + rest);
      p.Body? && loads(p.body) == Some(m) && p.rest == rest
  {
    FrameRoundTrip(dumps(m), rest);
  }

  /** Only a frame parses as a frame. */
  lemma ParsedIsFrame(wire: seq<Byte>)
    requires ParseFrame(wire).Body?
    ensures Sendable(ParseFrame(wire).body)
    ensures wire == Frame(ParseFrame(wire).body) + ParseFrame(wire).rest
  {
    var n := UnpackHeader(wire[..HEADER_SIZE]);
    HeaderIsPacked(wire[..HEADER_SIZE]);
    assert wire == wire[..HEADER_SIZE] + wire[HEADER_SIZE..HEADER_SIZE + n] + wire[HEADER_SIZE + n..];
  }

  lemma HeaderIsPacked(h: seq<Byte>)
    requires |h| == HEADER_SIZE
    ensures UnpackHeader(h) < 0x1_0000_0000 && PackHeader(UnpackHeader(h)) == h
  {
    var n := UnpackHeader(h);
    assert n / 0x100 == (h[0] as int * 0x100 + h[1]) * 0x100 + h[2];
    assert n / 0x1_0000 == h[0] as int * 0x100 + h[1];
    assert n / 0x100_0000 == h[0];
  }
}
