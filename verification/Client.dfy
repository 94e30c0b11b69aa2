/** The Cortex side of the framed protocol. */
module Client {
  import opened Common
  import opened Ipc
  import opened Framing
  import opened FramedIo

  datatype Outcome = Reply(body: seq<Byte>) | NoSession | SendFailed | ClosedEarly | InvalidLength | NotText

  /** _read_exact: None stands for the error of a stream that ends early or breaks. */
  method ReadExact(sock: Connection, length: nat) returns (r: Option<seq<Byte>>)
    modifies sock`input, sock`sizes
    ensures r == if length <= |old(sock.input)| then Some(old(sock.input)[..length]) else None
    ensures r.Some? ==> sock.input == old(sock.input)[length..]
  {
    ghost var data := sock.input;
    var chunks: seq<Byte> := [];
    var remaining := length;
    while remaining > 0
      invariant 0 <= remaining <= length && |chunks| == length - remaining && |chunks| <= |data|
      invariant chunks == data[..|chunks|] && sock.input == data[|chunks|..]
    {
      var chunk, ok := sock.Read(remaining);
      if !ok || chunk == [] {
        return None;
      }
      ghost var k := |chunks|;
      assert data[..k + |chunk|] == data[..k] + chunk;
      assert data[k..][|chunk|..] == data[k + |chunk|..];
      chunks := chunks + chunk;
      remaining := remaining - |chunk|;
    }
    assert remaining == 0 && |chunks| == length;
    assert chunks == data[..length];
    return Some(chunks);
  }

  /** The exchange of _send_frame on an open session. Unlike the daemon, the client reads its
      header with a single recv, so once the request is out, against a stream that carries the
      whole reply it succeeds exactly when that one recv returns all four bytes; a success
      consumes the reply and nothing else. */
  method Exchange(sock: Connection, payload: seq<Byte>, ghost reply: seq<Byte>,
                  ghost more: seq<Byte>) returns (r: Outcome)
    modifies sock
    ensures sock.output == old(sock.output) + Sent(Encode(payload), old(sock.room))
    ensures r == SendFailed <==> old(sock.room) < |Encode(payload)|
    ensures r != SendFailed && Fits(reply) && old(sock.input) == Encode(reply) + more ==>
      && r == (if old(sock.Offered(4)) == 4 then Reply(reply) else ClosedEarly)
      && (r.Reply? ==> sock.input == more)
    ensures r.Reply? ==> Fits(r.body) && Encode(r.body) + sock.input == old(sock.input)
    ensures r.Reply? || r.SendFailed? || r.ClosedEarly? || r.InvalidLength?
  {
    ghost var data := sock.input;
    var out := sock.WriteAll(Encode(payload));
    if !out {
      return SendFailed;
    }
    assert sock.Offered(4) == old(sock.Offered(4));
    var header, ok := sock.Read(4);
    if !ok || |header| != 4 {
      return ClosedEarly;
    }
    var length := FromBigEndian(header);
    HeaderOfLength(header);
    SplitReply(data, header, reply, more);
    if length == 0 || length > MAX_FRAME_BYTES {
      return InvalidLength;
    }
    var body := ReadExact(sock, length);
    if body.None? {
      return ClosedEarly;
    }
    JoinReply(data, header, body.value, sock.input);
    return Reply(body.value);
  }

  lemma {:induction false} SplitReply(data: seq<Byte>, header: seq<Byte>, reply: seq<Byte>, more: seq<Byte>)
    requires |header| == 4 && 4 <= |data| && header == data[..4]
    ensures Fits(reply) && data == Encode(reply) + more ==>
      && FromBigEndian(header) == |reply|
      && data[4..] == reply + more && (reply + more)[..|reply|] == reply && (reply + more)[|reply|..] == more
  {
    if Fits(reply) && data == Encode(reply) + more {
      LengthRoundTrip(|reply|);
      assert data[..4] == BigEndian(|reply|);
      assert data[4..] == reply + more;
    }
  }

  lemma {:induction false} JoinReply(data: seq<Byte>, header: seq<Byte>, body: seq<Byte>, rest: seq<Byte>)
    requires 4 <= |data| && header == data[..4] && FromBigEndian(header) == |body| <= |data| - 4
    requires body == data[4..][..|body|] && rest == data[4..][|body|..]
    ensures Encode(body) + rest == data
  {
    HeaderOfLength(header);
    assert Encode(body) + rest == header + (body + rest);
  }

  /** A reply that arrives whole but whose first read returns one byte: the client gives up. */
  method OneByteHeader() returns (r: Outcome)
    ensures r == ClosedEarly
  {
    var sock := new Connection(Encode([7]), [1], false, 5);
    assert Encode([7]) + [] == Encode([7]);
    r := Exchange(sock, [7], [7], []);
  }

  // ----- the client object -----

  class ConstitutionClient {
    /** Whether bytes decode as UTF-8. */
    const isText: seq<Byte> -> bool
    var session: Connection?

    constructor (isText: seq<Byte> -> bool)
      ensures this.isText == isText && session == null
    {
      this.isText := isText;
      session := null;
    }

    /** _send_frame: needs a session, and the reply must be text. */
    method SendFrame(payload: seq<Byte>, ghost reply: seq<Byte>, ghost more: seq<Byte>) returns (r: Outcome)
      modifies session
      ensures session == null <==> r == NoSession
      ensures session != null ==> session.output == old(session.output) + Sent(Encode(payload), old(session.room))
      ensures session != null ==> (r == SendFailed <==> old(session.room) < |Encode(payload)|)
      ensures session != null && r != SendFailed && Fits(reply) && old(session.input) == Encode(reply) + more ==>
        && r == (if old(session.Offered(4)) != 4 then ClosedEarly else if isText(reply) then Reply(reply) else NotText)
        && (r.Reply? ==> session.input == more)
      ensures r.Reply? ==> Fits(r.body) && isText(r.body) && Encode(r.body) + session.input == old(session.input)
    {
      if session == null {
        return NoSession;
      }
      r := Exchange(session, payload, reply, more);
      if r.Reply? && !isText(r.body) {
        return NotText;
      }
    }

    /** A caller's loop of requests on one session, up to the first failure. Against a stream
        that carries the replies, whatever the schedule of short reads, the bodies returned are
        the first replies in order; if all are returned, all were requested and nothing else
        was consumed. */
    method Converse(requests: seq<seq<Byte>>, ghost replies: seq<seq<Byte>>,
                    ghost more: seq<Byte>) returns (bodies: seq<seq<Byte>>)
      requires session != null && |replies| == |requests| && AllFit(replies)
      requires session.input == EncodeAll(replies) + more
      modifies session
      ensures bodies <= replies
      ensures |bodies| == |requests| ==>
        session.input == more && session.output == old(session.output) + EncodeAll(requests)
    {
      bodies := [];
      ghost var sent := session.output;
      for i := 0 to |requests|
        invariant |bodies| == i && bodies == replies[..i]
        invariant session.input == EncodeAll(replies[i..]) + more
        invariant session.output == sent + EncodeAll(requests[..i])
      {
        ghost var rest := EncodeAll(replies[i + 1..]) + more;
        NextReply(replies, i, more);
        AllFitAt(replies, i);
        assert session.input == Encode(replies[i]) + rest;
        var r := SendFrame(requests[i], replies[i], rest);
        if !r.Reply? {
          return;
        }
        bodies := bodies + [r.body];
        assert Sent(Encode(requests[i]), |Encode(requests[i])|) == Encode(requests[i]);
        NextRequest(sent, requests, i);
      }
      assert replies[|requests|..] == [] && requests[..|requests|] == requests;
    }
  }

  lemma {:induction false} NextReply(replies: seq<seq<Byte>>, i: nat, more: seq<Byte>)
    requires i < |replies|
    ensures EncodeAll(replies[i..]) + more == Encode(replies[i]) + (EncodeAll(replies[i + 1..]) + more)
  {
    assert replies[i..][1..] == replies[i + 1..];
  }

  lemma {:induction false} NextRequest(sent: seq<Byte>, requests: seq<seq<Byte>>, i: nat)
    requires i < |requests|
    ensures sent + EncodeAll(requests[..i]) + Encode(requests[i]) == sent + EncodeAll(requests[..i + 1])
  {
    assert requests[..i + 1] == requests[..i] + [requests[i]];
    EncodeOneMore(requests[..i], requests[i]);
  }
}
