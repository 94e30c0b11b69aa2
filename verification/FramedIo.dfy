/** The two ends of the framed connection as loops over short reads, and the one kernel that
    any number of interleaved connections share. */
module FramedIo {
  import opened Common
  import opened Ipc
  import opened Framing
  import Kernel
  import RiskGate

  /** As much of data as there is room for. */
  function Sent(data: seq<Byte>, room: nat): seq<Byte> {
    data[..Least(|data|, room)]
  }

  /** One end of a TCP stream. sizes says how much each coming read happens to return; any
      schedule of short reads is some choice of it. A broken stream raises where it would have
      ended. room is how many more bytes can be written before writing fails. */
  class Connection {
    var input: seq<Byte>
    var output: seq<Byte>
    var sizes: seq<nat>
    var room: nat
    const broken: bool

    constructor (input: seq<Byte>, sizes: seq<nat>, broken: bool, room: nat)
      ensures this.input == input && this.sizes == sizes && this.broken == broken && this.room == room && output == []
    {
      this.input, this.sizes, this.broken, this.room, output := input, sizes, broken, room, [];
    }

    /** How many bytes the next read of at most max bytes returns: at least one unless the
        stream has ended or nothing is asked for. */
    function Offered(max: nat): (n: nat)
      reads this
      ensures n <= max && n <= |input|
      ensures n == 0 <==> max == 0 || input == []
    {
      var whole := Least(max, |input|);
      if sizes == [] || sizes[0] == 0 then Least(whole, 1) else Least(whole, sizes[0])
    }

    /** Not ok stands for the error of a broken stream. */
    method Read(max: nat) returns (chunk: seq<Byte>, ok: bool)
      modifies this`input, this`sizes
      ensures chunk == old(input)[..old(Offered(max))] && input == old(input)[old(Offered(max))..]
      ensures ok <==> !(broken && old(input) == [] && max > 0)
    {
      var n := Offered(max);
      ok := !(broken && input == [] && max > 0);
      chunk := input[..n];
      input := input[n..];
      sizes := if sizes == [] then [] else sizes[1..];
    }

    /** write_all: not ok stands for the error of a write that fails, part of the data sent. */
    method WriteAll(data: seq<Byte>) returns (ok: bool)
      modifies this`output, this`room
      ensures output == old(output) + Sent(data, old(room)) && room == old(room) - |Sent(data, old(room))|
      ensures ok <==> |data| <= old(room)
    {
      var sent := Sent(data, room);
      output := output + sent;
      room := room - |sent|;
      return |sent| == |data|;
    }

    method WriteFrame(payload: seq<Byte>) returns (ok: bool)
      modifies this`output, this`room
      ensures output == old(output) + Sent(Encode(payload), old(room))
      ensures room == old(room) - |Sent(Encode(payload), old(room))|
      ensures ok <==> |Encode(payload)| <= old(room)
    {
      ghost var before := output;
      SentInParts(before, BigEndian(|payload|), payload, room);
      ok := WriteAll(BigEndian(|payload|));
      if ok {
        ok := WriteAll(payload);
      }
    }
  }

  /** Writing two parts one after the other, the second only if there was room for the first. */
  lemma {:induction false} SentInParts(before: seq<Byte>, a: seq<Byte>, b: seq<Byte>, room: nat)
    ensures |a| <= room ==> before + Sent(a + b, room) == before + Sent(a, room) + Sent(b, room - |a|)
    ensures |a| > room ==> Sent(a + b, room) == Sent(a, room)
  {
    if |a| <= room {
      assert Sent(a, room) == a;
      assert Sent(a + b, room) == a + Sent(b, room - |a|);
    }
  }

  /** buf[at..at + |chunk|] := chunk. */
  method Store(buf: array<Byte>, at: nat, chunk: seq<Byte>)
    requires at + |chunk| <= buf.Length
    modifies buf
    ensures buf[..] == old(buf[..at]) + chunk + old(buf[at + |chunk|..])
  {
    for i := 0 to |chunk|
      invariant buf[..at] == old(buf[..at])
      invariant buf[at..at + i] == chunk[..i]
      invariant buf[at + i..] == old(buf[at + i..])
    {
      buf[at + i] := chunk[i];
    }
  }

  /** What has been read so far overlays what the buffer held before. */
  ghost predicate Overlaid(buf: seq<Byte>, data: seq<Byte>, before: seq<Byte>, read: nat) {
    read <= |data| && read <= |before| && buf == data[..read] + before[read..]
  }

  lemma {:induction false} OverlaidIsFilled(buf: seq<Byte>, data: seq<Byte>, before: seq<Byte>, read: nat)
    requires Overlaid(buf, data, before, read) && (read == |data| || read == |before|)
    ensures read == Least(|data|, |before|) && buf == Filled(data, before)
  {}

  lemma {:induction false} NothingRead(before: seq<Byte>, data: seq<Byte>)
    ensures Overlaid(before, data, before, 0)
  {}

  /** One read of the loop, straight into the buffer. */
  method ReadChunk(conn: Connection, buf: array<Byte>, read: nat, ghost data: seq<Byte>, ghost before: seq<Byte>)
    returns (n: nat, ok: bool)
    requires read < buf.Length == |before| && Overlaid(buf[..], data, before, read) && conn.input == data[read..]
    modifies conn`input, conn`sizes, buf
    ensures read + n <= buf.Length && Overlaid(buf[..], data, before, read + n) && conn.input == data[read + n..]
    ensures n == 0 <==> read == |data|
    ensures ok <==> !(conn.broken && read == |data|)
  {
    var chunk;
    chunk, ok := conn.Read(buf.Length - read);
    n := |chunk|;
    ghost var half := buf[..];
    Store(buf, read, chunk);
    Extend(data, before, half, read, chunk, buf[..]);
  }

  /** read_full: loops over short reads, filling the buffer in place. */
  method ReadFull(conn: Connection, buf: array<Byte>) returns (read: nat, ok: bool)
    modifies conn`input, conn`sizes, buf
    ensures ok <==> !(conn.broken && |old(conn.input)| < buf.Length)
    ensures read == Least(|old(conn.input)|, buf.Length)
    ensures buf[..] == Filled(old(conn.input), old(buf[..]))
    ensures conn.input == old(conn.input)[read..]
  {
    ghost var data, before := conn.input, buf[..];
    NothingRead(before, data);
    read, ok := 0, true;
    var n := 1;
    while read < buf.Length && ok && n > 0
      invariant read <= buf.Length && Overlaid(buf[..], data, before, read) && conn.input == data[read..]
      invariant n == 0 ==> read == |data| && read < buf.Length
      invariant ok <==> !(conn.broken && n == 0)
      decreases buf.Length - read, n
    {
      n, ok := ReadChunk(conn, buf, read, data, before);
      read := read + n;
    }
    OverlaidIsFilled(buf[..], data, before, read);
  }

  lemma {:induction false} Extend(data: seq<Byte>, before: seq<Byte>, half: seq<Byte>, read: nat, chunk: seq<Byte>,
                                  after: seq<Byte>)
    requires read + |chunk| <= |before| && read <= |data|
    requires half == data[..read] + before[read..]
    requires chunk <= data[read..]
    requires after == half[..read] + chunk + half[read + |chunk|..]
    ensures after == data[..read + |chunk|] + before[read + |chunk|..]
    ensures data[read..][|chunk|..] == data[read + |chunk|..]
  {
    assert half[..read] == data[..read];
    assert half[read + |chunk|..] == before[read + |chunk|..];
    assert data[..read + |chunk|] == data[..read] + chunk;
  }

  // ----- the kernel behind the frames -----

  function Answer(k: Kernel.Value, frame: seq<Byte>, parse: seq<Byte> -> Option<Envelope>, rp: RiskGate.RiskParameters):
    (Kernel.Value, Result)
  {
    Dispatch(k, LastN(k.trace, Kernel.MAX_TRANSITION_HISTORY), |frame|, parse(frame), rp)
  }

  /** The kernel and the results after handling the frames one after the other. */
  function HandleAll(k: Kernel.Value, frames: seq<seq<Byte>>, parse: seq<Byte> -> Option<Envelope>,
                     rp: RiskGate.RiskParameters): (r: (Kernel.Value, seq<Result>))
    ensures |r.1| == |frames|
  {
    if frames == [] then (k, [])
    else
      var (m, results) := HandleAll(k, frames[..|frames| - 1], parse, rp);
      var (n, last) := Answer(m, frames[|frames| - 1], parse, rp);
      (n, results + [last])
  }

  lemma {:induction false} HandleOneMore(k: Kernel.Value, frames: seq<seq<Byte>>, f: seq<Byte>,
                                         parse: seq<Byte> -> Option<Envelope>,
                      rp: RiskGate.RiskParameters)
    ensures var (m, results) := HandleAll(k, frames, parse, rp); var (n, last) := Answer(m, f, parse, rp);
      HandleAll(k, frames + [f], parse, rp) == (n, results + [last])
  {
    assert (frames + [f])[..|frames|] == frames;
  }

  /** One framed reply per result, in order. */
  function Replies(results: seq<Result>, render: Result -> seq<Byte>): seq<Byte> {
    if results == [] then []
    else Replies(results[..|results| - 1], render) + Encode(render(results[|results| - 1]))
  }

  lemma {:induction false} ReplyOneMore(results: seq<Result>, r: Result, render: Result -> seq<Byte>)
    ensures Replies(results + [r], render) == Replies(results, render) + Encode(render(r))
  {
    assert (results + [r])[..|results|] == results;
  }

  function Rendered(results: seq<Result>, render: Result -> seq<Byte>): (bodies: seq<seq<Byte>>)
    ensures |bodies| == |results|
    ensures forall i :: 0 <= i < |results| ==> bodies[i] == render(results[i])
  {
    if results == [] then [] else Rendered(results[..|results| - 1], render) + [render(results[|results| - 1])]
  }

  lemma {:induction false} EncodeOneMore(frames: seq<seq<Byte>>, f: seq<Byte>)
    ensures EncodeAll(frames + [f]) == EncodeAll(frames) + Encode(f)
  {
    if frames == [] {
      assert [f][1..] == [] && EncodeAll([f]) == Encode(f) + EncodeAll([]);
    } else {
      assert (frames + [f])[1..] == frames[1..] + [f];
      EncodeOneMore(frames[1..], f);
    }
  }

  lemma {:induction false} RepliesAreFrames(results: seq<Result>, render: Result -> seq<Byte>)
    ensures Replies(results, render) == EncodeAll(Rendered(results, render))
  {
    if results != [] {
      var front := results[..|results| - 1];
      RepliesAreFrames(front, render);
      EncodeOneMore(Rendered(front, render), render(results[|results| - 1]));
    }
  }

  lemma {:induction false} AnswerFits(k: Kernel.Value, frame: seq<Byte>, parse: seq<Byte> -> Option<Envelope>,
                                      rp: RiskGate.RiskParameters, number: real -> string)
    requires CountersFit(k) && ShortNumbers(number)
    ensures CountersFit(Answer(k, frame, parse, rp).0) && Fits(Rendering(number)(Answer(k, frame, parse, rp).1))
  {
    var h := LastN(k.trace, Kernel.MAX_TRANSITION_HISTORY);
    DispatchCountersFit(k, h, |frame|, parse(frame), rp);
    var r := Answer(k, frame, parse, rp).1;
    if r.Ok? && r.response.StatusResponse? {
      StatusReportFits(k, h, |frame|, parse(frame), rp);
    } else {
      ReplyLength(r, number);
    }
  }

  lemma {:induction false} RenderOneMore(results: seq<Result>, r: Result, render: Result -> seq<Byte>)
    requires AllFit(Rendered(results, render)) && Fits(render(r))
    ensures AllFit(Rendered(results + [r], render))
  {
    assert (results + [r])[..|results|] == results;
    assert Rendered(results + [r], render) == Rendered(results, render) + [render(r)];
    AllFitAppend(Rendered(results, render), render(r));
  }

  /** Whatever the kernel answers renders to a legal frame. */
  ghost predicate RendersFrames(render: Result -> seq<Byte>, parse: seq<Byte> -> Option<Envelope>, rp: RiskGate.RiskParameters) {
    forall k, frame :: CountersFit(k) ==>
      CountersFit(Answer(k, frame, parse, rp).0) && Fits(render(Answer(k, frame, parse, rp).1))
  }

  lemma {:induction false} RenderedFramesFit(k: Kernel.Value, frames: seq<seq<Byte>>, parse: seq<Byte> -> Option<Envelope>,
                                             rp: RiskGate.RiskParameters, render: Result -> seq<Byte>)
    requires CountersFit(k) && RendersFrames(render, parse, rp)
    ensures CountersFit(HandleAll(k, frames, parse, rp).0)
    ensures AllFit(Rendered(HandleAll(k, frames, parse, rp).1, render))
  {
    if frames != [] {
      var n := |frames| - 1;
      RenderedFramesFit(k, frames[..n], parse, rp, render);
      var (m, results) := HandleAll(k, frames[..n], parse, rp);
      RenderOneMore(results, Answer(m, frames[n], parse, rp).1, render);
    }
  }

  /** Every reply of a kernel whose counters are in range fits a frame: verdicts, errors and
      status reports alike. */
  lemma {:induction false} AnswersFit(k: Kernel.Value, frames: seq<seq<Byte>>, parse: seq<Byte> -> Option<Envelope>,
                                      rp: RiskGate.RiskParameters, number: real -> string)
    requires CountersFit(k) && ShortNumbers(number)
    ensures CountersFit(HandleAll(k, frames, parse, rp).0)
    ensures AllFit(Rendered(HandleAll(k, frames, parse, rp).1, Rendering(number)))
  {
    forall m, frame | CountersFit(m)
      ensures CountersFit(Answer(m, frame, parse, rp).0) && Fits(Rendering(number)(Answer(m, frame, parse, rp).1))
    {
      AnswerFits(m, frame, parse, rp, number);
    }
    RenderedFramesFit(k, frames, parse, rp, Rendering(number));
  }

  /** The round trip of a session: frames of legal length, however the reads split them, are
      handled once each and in order; and the daemon's output is one encoded frame of legal
      length per request, the rendering of its own result. */
  lemma {:induction false} SessionRoundTrip(k: Kernel.Value, frames: seq<seq<Byte>>, parse: seq<Byte> -> Option<Envelope>,
                                            rp: RiskGate.RiskParameters, number: real -> string, header: seq<Byte>)
    requires |header| == 4 && AllFit(frames) && CountersFit(k) && ShortNumbers(number)
    ensures Serve(EncodeAll(frames), header) == Served(frames, true)
    ensures var results := HandleAll(k, frames, parse, rp).1; var bodies := Rendered(results, Rendering(number));
      Replies(results, Rendering(number)) == EncodeAll(bodies) && AllFit(bodies) && |bodies| == |frames|
  {
    ServeWhole(frames, header);
    RepliesAreFrames(HandleAll(k, frames, parse, rp).1, Rendering(number));
    AnswersFit(k, frames, parse, rp, number);
  }

  /** The two reads of one round of the connection loop; None is a read that raises. */
  method ReadRound(conn: Connection, header: array<Byte>) returns (seen: Option<Incoming>)
    requires header.Length == 4
    modifies conn`input, conn`sizes, header
    ensures seen == NextOn(conn.broken, old(conn.input), old(header[..]))
    ensures seen.Some? && seen.value.Frame? ==> conn.input == seen.value.rest && header[..] == seen.value.header
  {
    ghost var data, held := conn.input, header[..];
    var n, ok := ReadFull(conn, header);
    if !ok {
      return None;
    }
    if n == 0 {
      return Some(Closed);
    }
    var length := FromBigEndian(header[..]);
    HeaderRead(conn.broken, data, held, header[..]);
    if length == 0 || length > MAX_FRAME_BYTES {
      return Some(BadLength);
    }
    var frame := new Byte[length](_ => 0);
    assert frame[..] == Zeros(length);
    var got, more := ReadFull(conn, frame);
    if !more {
      return None;
    }
    return Some(Frame(frame[..], header[..], conn.input));
  }

  lemma {:induction false} HeaderRead(broken: bool, data: seq<Byte>, held: seq<Byte>, header: seq<Byte>)
    requires |held| == 4 && data != [] && header == Filled(data, held) && (broken ==> 4 <= |data|)
    ensures broken ==> header == data[..4]
    ensures broken ==> (ReadsPastEnd(data) <==>
      1 <= FromBigEndian(header) <= MAX_FRAME_BYTES && |data| - 4 < FromBigEndian(header))
  {
    if broken {
      assert Filled(data, held) == data[..4];
    }
  }

  /** Lock, handle, reply. The frame has been handled even when its reply cannot be written. */
  method Respond(conn: Connection, server: IpcServer, render: Result -> seq<Byte>, body: seq<Byte>) returns (ok: bool)
    requires server.kernel.Valid()
    modifies conn`output, conn`room, server.kernel
    ensures server.kernel.Valid()
    ensures var (n, r) := Answer(old(server.kernel.AsValue()), body, server.parse, server.kernel.params);
      var reply := Encode(render(r));
      && server.kernel.AsValue() == n && conn.output == old(conn.output) + Sent(reply, old(conn.room))
      && conn.room == old(conn.room) - |Sent(reply, old(conn.room))| && (ok <==> |reply| <= old(conn.room))
  {
    var r := server.HandleFrame(body);
    ok := conn.WriteFrame(render(r));
  }

  /** What has happened so far, and what is still to come, add up to the whole run. */
  ghost predicate Progress(all: Served, done: seq<seq<Byte>>, broken: bool, input: seq<Byte>, header: seq<Byte>)
    requires |header| == 4
  {
    all == Served(done + ServeOn(broken, input, header).frames, ServeOn(broken, input, header).clean)
  }

  lemma {:induction false} ProgressFrame(all: Served, done: seq<seq<Byte>>, broken: bool, input: seq<Byte>, header: seq<Byte>)
    requires |header| == 4 && Progress(all, done, broken, input, header)
    requires var r := NextOn(broken, input, header); r.Some? && r.value.Frame?
    ensures var f := NextOn(broken, input, header).value;
      Progress(all, done + [f.body], broken, f.rest, f.header) && done + [f.body] <= all.frames
  {
    var f := NextOn(broken, input, header).value;
    var more := ServeOn(broken, f.rest, f.header).frames;
    assert done + ([f.body] + more) == done + [f.body] + more;
  }

  lemma {:induction false} ProgressEnd(all: Served, done: seq<seq<Byte>>, broken: bool, input: seq<Byte>, header: seq<Byte>)
    requires |header| == 4 && Progress(all, done, broken, input, header)
    requires var r := NextOn(broken, input, header); r.None? || !r.value.Frame?
    ensures all == Served(done, NextOn(broken, input, header) == Some(Closed))
  {
    assert done + [] == done;
  }

  /** The kernel and the replies after the frames done so far, all of them written. */
  ghost predicate Handled(k0: Kernel.Value, out0: seq<Byte>, room0: nat, done: seq<seq<Byte>>,
                          k: Kernel.Value, out: seq<Byte>, room: nat,
                          parse: seq<Byte> -> Option<Envelope>, rp: RiskGate.RiskParameters, render: Result -> seq<Byte>)
  {
    var r := HandleAll(k0, done, parse, rp);
    var text := Replies(r.1, render);
    k == r.0 && out == out0 + text && room + |text| == room0
  }

  /** The connection is over: the frames done are all that the stream holds, or the reply to the
      last of them is the first that could not be written. */
  ghost predicate Finished(all: Served, k0: Kernel.Value, out0: seq<Byte>, room0: nat, done: seq<seq<Byte>>, ok: bool,
                           k: Kernel.Value, out: seq<Byte>,
                           parse: seq<Byte> -> Option<Envelope>, rp: RiskGate.RiskParameters, render: Result -> seq<Byte>)
  {
    var r := HandleAll(k0, done, parse, rp);
    var text := Replies(r.1, render);
    && done <= all.frames && k == r.0 && out == out0 + Sent(text, room0)
    && (if |text| <= room0 then done == all.frames && ok == all.clean
        else !ok && done != [] && |Replies(r.1[..|done| - 1], render)| <= room0)
  }

  lemma {:induction false} HandledIsFinished(all: Served, k0: Kernel.Value, out0: seq<Byte>, room0: nat, done: seq<seq<Byte>>,
                                             ok: bool, k: Kernel.Value, out: seq<Byte>, room: nat,
                                             parse: seq<Byte> -> Option<Envelope>, rp: RiskGate.RiskParameters,
                                             render: Result -> seq<Byte>)
    requires Handled(k0, out0, room0, done, k, out, room, parse, rp, render) && all == Served(done, ok)
    ensures Finished(all, k0, out0, room0, done, ok, k, out, parse, rp, render)
  {
    var text := Replies(HandleAll(k0, done, parse, rp).1, render);
    assert Sent(text, room0) == text;
  }

  /** One reply more: written whole, or the first one that could not be. */
  lemma {:induction false} HandledOneMore(all: Served, k0: Kernel.Value, out0: seq<Byte>, room0: nat, done: seq<seq<Byte>>,
                                          k: Kernel.Value, out: seq<Byte>, room: nat,
                                          parse: seq<Byte> -> Option<Envelope>, rp: RiskGate.RiskParameters,
                                          render: Result -> seq<Byte>, body: seq<Byte>)
    requires Handled(k0, out0, room0, done, k, out, room, parse, rp, render)
    ensures var (n, r) := Answer(k, body, parse, rp); var reply := Encode(render(r));
      if |reply| <= room then
        Handled(k0, out0, room0, done + [body], n, out + Sent(reply, room), room - |reply|, parse, rp, render)
      else done + [body] <= all.frames ==>
        Finished(all, k0, out0, room0, done + [body], false, n, out + Sent(reply, room), parse, rp, render)
  {
    var results := HandleAll(k0, done, parse, rp).1;
    var (n, r) := Answer(k, body, parse, rp);
    HandleOneMore(k0, done, body, parse, rp);
    ReplyOneMore(results, r, render);
    SentInParts(out0, Replies(results, render), Encode(render(r)), room0);
    WholeText(out0, Replies(results, render), Encode(render(r)), room0);
    assert (results + [r])[..|results|] == results;
  }

  /** A text that fits leaves the rest of the room to the next. */
  lemma {:induction false} WholeText(out: seq<Byte>, text: seq<Byte>, reply: seq<Byte>, room: nat)
    requires |text| <= room
    ensures out + Sent(text, room) == out + text
    ensures |reply| <= room - |text| ==> out + text + Sent(reply, room - |text|) == out + (text + reply)
  {
    assert Sent(text, room) == text;
    if |reply| <= room - |text| {
      assert Sent(reply, room - |text|) == reply;
    }
  }

  /** One frame of a run. */
  method RespondNext(conn: Connection, server: IpcServer, render: Result -> seq<Byte>, body: seq<Byte>, ghost all: Served,
                     ghost k0: Kernel.Value, ghost out0: seq<Byte>, ghost room0: nat, ghost done: seq<seq<Byte>>)
    returns (ok: bool)
    requires server.kernel.Valid() && done + [body] <= all.frames
    requires Handled(k0, out0, room0, done, server.kernel.AsValue(), conn.output, conn.room,
                     server.parse, server.kernel.params, render)
    modifies conn`output, conn`room, server.kernel
    ensures server.kernel.Valid()
    ensures ok ==> Handled(k0, out0, room0, done + [body], server.kernel.AsValue(), conn.output, conn.room,
                           server.parse, server.kernel.params, render)
    ensures !ok ==> Finished(all, k0, out0, room0, done + [body], false, server.kernel.AsValue(), conn.output,
                             server.parse, server.kernel.params, render)
  {
    HandledOneMore(all, k0, out0, room0, done, server.kernel.AsValue(), conn.output, conn.room,
                   server.parse, server.kernel.params, render, body);
    ok := Respond(conn, server, render, body);
  }

  /** One round of the loop: either a frame is handled and the run goes on, or it is over. */
  method Round(conn: Connection, server: IpcServer, render: Result -> seq<Byte>, header: array<Byte>, ghost all: Served,
               ghost k0: Kernel.Value, ghost out0: seq<Byte>, ghost room0: nat, ghost done: seq<seq<Byte>>)
    returns (more: bool, ok: bool, ghost now: seq<seq<Byte>>)
    requires server.kernel.Valid() && header.Length == 4
    requires Progress(all, done, conn.broken, conn.input, header[..])
    requires Handled(k0, out0, room0, done, server.kernel.AsValue(), conn.output, conn.room,
                     server.parse, server.kernel.params, render)
    modifies conn, server.kernel, header
    ensures server.kernel.Valid()
    ensures more ==> Progress(all, now, conn.broken, conn.input, header[..]) && |conn.input| < |old(conn.input)|
    ensures more ==> Handled(k0, out0, room0, now, server.kernel.AsValue(), conn.output, conn.room,
                             server.parse, server.kernel.params, render)
    ensures !more ==> Finished(all, k0, out0, room0, now, ok, server.kernel.AsValue(), conn.output,
                               server.parse, server.kernel.params, render)
  {
    ghost var data, held := conn.input, header[..];
    var seen := ReadRound(conn, header);
    if seen.None? || !seen.value.Frame? {
      ProgressEnd(all, done, conn.broken, data, held);
      HandledIsFinished(all, k0, out0, room0, done, seen == Some(Closed), server.kernel.AsValue(), conn.output, conn.room,
                        server.parse, server.kernel.params, render);
      return false, seen == Some(Closed), done;
    }
    ProgressFrame(all, done, conn.broken, data, held);
    ok := RespondNext(conn, server, render, seen.value.body, all, k0, out0, room0, done);
    return ok, ok, done + [seen.value.body];
  }

  /** handle_connection: reads frames until the stream ends or breaks, a length is invalid or a
      reply cannot be written; the kernel sees exactly the frames that ServeOn defines, up to the
      one whose reply failed, and each gets one framed reply. */
  method HandleConnection(conn: Connection, server: IpcServer, render: Result -> seq<Byte>)
    returns (ok: bool, ghost done: seq<seq<Byte>>)
    requires server.kernel.Valid()
    modifies conn, server.kernel
    ensures server.kernel.Valid()
    ensures Finished(ServeOn(conn.broken, old(conn.input), [0, 0, 0, 0]), old(server.kernel.AsValue()), old(conn.output),
                     old(conn.room), done, ok, server.kernel.AsValue(), conn.output,
                     server.parse, server.kernel.params, render)
  {
    var header: array<Byte> := new Byte[4](_ => 0);
    assert header[..] == [0, 0, 0, 0];
    ghost var k0, out0, room0 := server.kernel.AsValue(), conn.output, conn.room;
    ghost var all := ServeOn(conn.broken, conn.input, [0, 0, 0, 0]);
    done := [];
    assert [] + all.frames == all.frames;
    assert out0 + Replies([], render) == out0;
    var more := true;
    ok := true;
    while more
      invariant server.kernel.Valid() && fresh(header)
      invariant more ==> Progress(all, done, conn.broken, conn.input, header[..])
      invariant more ==> Handled(k0, out0, room0, done, server.kernel.AsValue(), conn.output, conn.room,
                                 server.parse, server.kernel.params, render)
      invariant !more ==> Finished(all, k0, out0, room0, done, ok, server.kernel.AsValue(), conn.output,
                                   server.parse, server.kernel.params, render)
      decreases if more then |conn.input| + 1 else 0
    {
      more, ok, done := Round(conn, server, render, header, all, k0, out0, room0, done);
    }
  }
}
