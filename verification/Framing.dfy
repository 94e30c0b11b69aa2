/** Length-prefixed frames over a byte stream with short reads: the daemon's read loops into
    reused buffers, the client's, and what interleaved connections do to the one kernel. */
module Framing {
  import opened Common
  import opened Ipc
  import Kernel
  import RiskGate

  // ----- the wire format -----

  const U32: nat := 0x1_0000_0000

  /** The k low bytes of n, most significant first. */
  function BytesOf(n: nat, k: nat): (h: seq<Byte>)
    ensures |h| == k
  {
    if k == 0 then [] else BytesOf(n / 0x100, k - 1) + [n % 0x100]
  }

  function NumberOf(h: seq<Byte>): nat {
    if h == [] then 0
    else
      var low: int := h[|h| - 1];
      NumberOf(h[..|h| - 1]) * 0x100 + low
  }

  /** u32::to_be_bytes of a length cast to u32. */
  function BigEndian(n: nat): (h: seq<Byte>)
    ensures |h| == 4
  {
    BytesOf(n % U32, 4)
  }

  function FromBigEndian(h: seq<Byte>): nat
    requires |h| == 4
  {
    NumberOf(h)
  }

  function Pow256(k: nat): nat {
    if k == 0 then 1 else 0x100 * Pow256(k - 1)
  }

  lemma {:induction false} NumberOfBytes(n: nat, k: nat)
    requires n < Pow256(k)
    ensures NumberOf(BytesOf(n, k)) == n
    decreases k
  {
    if k > 0 {
      NumberOfBytes(n / 0x100, k - 1);
    }
  }

  lemma {:induction false} BytesOfNumber(h: seq<Byte>)
    ensures BytesOf(NumberOf(h), |h|) == h
    ensures NumberOf(h) < Pow256(|h|)
  {
    if h != [] {
      BytesOfNumber(h[..|h| - 1]);
      assert NumberOf(h) / 0x100 == NumberOf(h[..|h| - 1]);
    }
  }

  lemma {:induction false} U32IsFourBytes()
    ensures Pow256(4) == U32
  {
    assert Pow256(2) == 0x100 * Pow256(1) && Pow256(1) == 0x100 * Pow256(0);
  }

  lemma {:induction false} LengthRoundTrip(n: nat)
    requires n < U32
    ensures FromBigEndian(BigEndian(n)) == n
  {
    U32IsFourBytes();
    assert n % U32 == n;
    NumberOfBytes(n % U32, 4);
  }

  lemma {:induction false} HeaderOfLength(h: seq<Byte>)
    requires |h| == 4
    ensures BigEndian(FromBigEndian(h)) == h
  {
    U32IsFourBytes();
    BytesOfNumber(h);
  }

  /** Most significant byte first. */
  lemma {:induction false} HeaderIsBigEndian(n: nat)
    requires n < 0x1_0000_0000
    ensures var h := BigEndian(n);
      && h[0] as int == n / 0x100 / 0x100 / 0x100 && h[1] as int == n / 0x100 / 0x100 % 0x100
      && h[2] as int == n / 0x100 % 0x100 && h[3] as int == n % 0x100
  {
    assert n % U32 == n;
    ThreeBytes(n / 0x100);
  }

  lemma {:induction false} ThreeBytes(n: nat)
    requires n < 0x100_0000
    ensures var h := BytesOf(n, 3);
      h[0] as int == n / 0x100 / 0x100 && h[1] as int == n / 0x100 % 0x100 && h[2] as int == n % 0x100
  {
    assert BytesOf(n / 0x100, 2) == BytesOf(n / 0x100 / 0x100, 1) + [n / 0x100 % 0x100];
  }

  /** write_frame. */
  function Encode(frame: seq<Byte>): seq<Byte> {
    BigEndian(|frame|) + frame
  }

  function EncodeAll(frames: seq<seq<Byte>>): seq<Byte> {
    if frames == [] then [] else Encode(frames[0]) + EncodeAll(frames[1..])
  }

  predicate Fits(frame: seq<Byte>) {
    1 <= |frame| <= MAX_FRAME_BYTES
  }

  predicate AllFit(frames: seq<seq<Byte>>) {
    frames == [] || (Fits(frames[0]) && AllFit(frames[1..]))
  }

  // ----- what the daemon reads -----

  lemma {:induction false} AllFitAt(frames: seq<seq<Byte>>, i: nat)
    requires AllFit(frames) && i < |frames|
    ensures Fits(frames[i])
  {
    if i > 0 {
      AllFitAt(frames[1..], i - 1);
    }
  }

  lemma {:induction false} AllFitAppend(frames: seq<seq<Byte>>, f: seq<Byte>)
    requires AllFit(frames) && Fits(f)
    ensures AllFit(frames + [f])
  {
    if frames == [] {
      assert [f][1..] == [];
    } else {
      assert (frames + [f])[1..] == frames[1..] + [f];
      AllFitAppend(frames[1..], f);
    }
  }

  function Zeros(n: nat): (z: seq<Byte>)
    ensures |z| == n && forall i :: 0 <= i < n ==> z[i] == 0
  {
    if n == 0 then [] else [0] + Zeros(n - 1)
  }

  function Least(a: nat, b: nat): nat {
    if a <= b then a else b
  }

  /** A buffer after read_full: the bytes available, then whatever it held before. */
  function Filled(data: seq<Byte>, buffer: seq<Byte>): (b: seq<Byte>)
    ensures |b| == |buffer|
  {
    var n := Least(|data|, |buffer|);
    data[..n] + buffer[n..]
  }

  datatype Incoming =
    | Closed
    | BadLength
    | Frame(body: seq<Byte>, header: seq<Byte>, rest: seq<Byte>)

  /** One round of the connection loop. The 4-byte header buffer is reused between rounds, and
      neither read checks that it was filled: only an empty header read ends the loop. */
  function Next(data: seq<Byte>, header: seq<Byte>): (r: Incoming)
    requires |header| == 4
    ensures r.Frame? ==> |r.header| == 4 && |r.rest| < |data|
  {
    if data == [] then Closed
    else
      var h := Filled(data, header);
      var length := FromBigEndian(h);
      if length == 0 || length > MAX_FRAME_BYTES then BadLength
      else
        var rest := data[Least(|data|, 4)..];
        Frame(Filled(rest, Zeros(length)), h, rest[Least(|rest|, length)..])
  }

  /** A whole header is refused iff it declares no byte or more than 16384. */
  lemma {:induction false} LengthLimits(data: seq<Byte>, header: seq<Byte>)
    requires |header| == 4 && 4 <= |data|
    ensures var length := FromBigEndian(data[..4]); Next(data, header).BadLength? <==> length == 0 || length > 16384
    ensures Fits(data) <==> |data| <= 16384
  {
    assert Filled(data, header) == data[..4];
  }

  /** All frames the loop hands to the kernel, and whether it ends without an error. */
  datatype Served = Served(frames: seq<seq<Byte>>, clean: bool)

  function Serve(data: seq<Byte>, header: seq<Byte>): Served
    requires |header| == 4
    decreases |data|
  {
    match Next(data, header)
    case Closed => Served([], true)
    case BadLength => Served([], false)
    case Frame(body, h, rest) =>
      var more := Serve(rest, h);
      Served([body] + more.frames, more.clean)
  }

  // ----- streams that fail instead of ending -----

  /** The round asks for bytes beyond the end of the data. */
  predicate ReadsPastEnd(data: seq<Byte>) {
    || |data| < 4
    || var length := FromBigEndian(data[..4]); 1 <= length <= MAX_FRAME_BYTES && |data| - 4 < length
  }

  /** One round on a stream that, once broken, raises where it would have ended. None is that
      error, which leaves the loop at once. */
  function NextOn(broken: bool, data: seq<Byte>, header: seq<Byte>): (r: Option<Incoming>)
    requires |header| == 4
    ensures r.Some? && r.value.Frame? ==> |r.value.header| == 4 && |r.value.rest| < |data|
  {
    if broken && ReadsPastEnd(data) then None else Some(Next(data, header))
  }

  function ServeOn(broken: bool, data: seq<Byte>, header: seq<Byte>): Served
    requires |header| == 4
    decreases |data|
  {
    match NextOn(broken, data, header)
    case None => Served([], false)
    case Some(Closed) => Served([], true)
    case Some(BadLength) => Served([], false)
    case Some(Frame(body, h, rest)) =>
      var more := ServeOn(broken, rest, h);
      Served([body] + more.frames, more.clean)
  }

  /** A stream that ends in order is served as defined before. */
  lemma {:induction false} OrderlyStream(data: seq<Byte>, header: seq<Byte>)
    requires |header| == 4
    ensures ServeOn(false, data, header) == Serve(data, header)
    decreases |data|
  {
    match Next(data, header)
    case Frame(body, h, rest) => OrderlyStream(rest, h);
    case _ =>
  }

  lemma {:induction false} NextOfEncoded(frame: seq<Byte>, more: seq<Byte>, header: seq<Byte>)
    requires Fits(frame) && |header| == 4
    ensures Next(Encode(frame) + more, header) == Frame(frame, BigEndian(|frame|), more)
  {
    var data := Encode(frame) + more;
    LengthRoundTrip(|frame|);
    assert data[..4] == BigEndian(|frame|);
    assert data[4..] == frame + more;
    assert Filled(data, header) == BigEndian(|frame|);
    assert Filled(frame + more, Zeros(|frame|)) == frame;
    assert (frame + more)[|frame|..] == more;
  }

  /** The header buffer after the given whole frames. */
  function LastHeader(frames: seq<seq<Byte>>, header: seq<Byte>): (h: seq<Byte>)
    requires |header| == 4
    ensures |h| == 4
  {
    if frames == [] then header else LastHeader(frames[1..], BigEndian(|frames[0]|))
  }

  lemma {:induction false} EncodeAllSplit(frames: seq<seq<Byte>>, tail: seq<Byte>)
    requires frames != []
    ensures EncodeAll(frames) + tail == Encode(frames[0]) + (EncodeAll(frames[1..]) + tail)
  {}

  lemma {:induction false} Regroup(frames: seq<seq<Byte>>, more: seq<seq<Byte>>)
    requires frames != []
    ensures [frames[0]] + (frames[1..] + more) == frames + more
  {}

  lemma {:induction false} ServePrefix(frames: seq<seq<Byte>>, tail: seq<Byte>, header: seq<Byte>, end: Served)
    requires |header| == 4 && AllFit(frames)
    requires end == Serve(tail, LastHeader(frames, header))
    ensures Serve(EncodeAll(frames) + tail, header) == Served(frames + end.frames, end.clean)
  {
    if frames == [] {
      assert EncodeAll(frames) + tail == tail;
      assert [] + end.frames == end.frames;
    } else {
      var h := BigEndian(|frames[0]|);
      var more := EncodeAll(frames[1..]) + tail;
      EncodeAllSplit(frames, tail);
      Regroup(frames, end.frames);
      ServePrefix(frames[1..], tail, h, end);
      ServeStep(frames[0], more, header);
    }
  }

  /** Whole frames arrive exactly: every frame in order, once each, then a clean close. */
  lemma {:induction false} ServeWhole(frames: seq<seq<Byte>>, header: seq<Byte>)
    requires |header| == 4 && AllFit(frames)
    ensures Serve(EncodeAll(frames), header) == Served(frames, true)
  {
    assert Serve([], LastHeader(frames, header)) == Served([], true);
    ServePrefix(frames, [], header, Served([], true));
    assert EncodeAll(frames) + [] == EncodeAll(frames);
    assert frames + [] == frames;
  }

  lemma {:induction false} ServeStep(f: seq<Byte>, more: seq<Byte>, header: seq<Byte>)
    requires Fits(f) && |header| == 4
    ensures var s := Serve(more, BigEndian(|f|)); Serve(Encode(f) + more, header) == Served([f] + s.frames, s.clean)
  {
    NextOfEncoded(f, more, header);
  }

  lemma {:induction false} CutBodyRound(tail: seq<Byte>, frame: seq<Byte>, header: seq<Byte>)
    requires |header| == 4 && Fits(frame) && 4 <= |tail| < |Encode(frame)| && tail == Encode(frame)[..|tail|]
    ensures Next(tail, header) == Frame(tail[4..] + Zeros(|frame| - (|tail| - 4)), BigEndian(|frame|), [])
  {
    LengthRoundTrip(|frame|);
    var h := BigEndian(|frame|);
    assert tail[..4] == h;
    assert Filled(tail, header) == h;
    ZerosDrop(|frame|, |tail| - 4);
    assert Filled(tail[4..], Zeros(|frame|)) == tail[4..] + Zeros(|frame| - (|tail| - 4));
  }

  /** The round that meets the end of the stream inside a body. */
  lemma {:induction false} CutBody(tail: seq<Byte>, frame: seq<Byte>, header: seq<Byte>)
    requires |header| == 4 && Fits(frame) && 4 <= |tail| < |Encode(frame)| && tail == Encode(frame)[..|tail|]
    ensures Serve(tail, header) == Served([tail[4..] + Zeros(|frame| - (|tail| - 4))], true)
  {
    CutBodyRound(tail, frame, header);
    LastRound(tail, header);
  }

  lemma {:induction false} LastRound(data: seq<Byte>, header: seq<Byte>)
    requires |header| == 4
    requires Next(data, header).Frame? && Next(data, header).rest == []
    ensures Serve(data, header) == Served([Next(data, header).body], true)
  {
    var f := Next(data, header);
    assert Serve([], f.header) == Served([], true);
    assert [f.body] + [] == [f.body];
  }

  lemma {:induction false} ZerosDrop(n: nat, k: nat)
    requires k <= n
    ensures Zeros(n)[k..] == Zeros(n - k)
  {}

  /** The round that meets the end of the stream inside a header. */
  lemma {:induction false} CutHeader(tail: seq<Byte>, header: seq<Byte>)
    requires |header| == 4 && 0 < |tail| < 4
    ensures var length := FromBigEndian(Filled(tail, header));
      Serve(tail, header) == if 1 <= length <= MAX_FRAME_BYTES then Served([Zeros(length)], true) else Served([], false)
  {
    var h := Filled(tail, header);
    var length := FromBigEndian(h);
    if 1 <= length <= MAX_FRAME_BYTES {
      assert Filled([], Zeros(length)) == Zeros(length);
      assert Next(tail, header) == Frame(Zeros(length), h, []);
      assert Serve([], h) == Served([], true);
      assert [Zeros(length)] + [] == [Zeros(length)];
    }
  }

  /** A stream cut inside a frame is not detected. A body cut short is handled padded with
      zeros; a header cut short is completed with the previous header's bytes, and an all-zero
      frame of that length is handled unless the length happens to be invalid. */
  lemma {:induction false} CutStream(frames: seq<seq<Byte>>, tail: seq<Byte>, frame: seq<Byte>, header: seq<Byte>)
    requires |header| == 4 && AllFit(frames)
    requires Fits(frame) && 0 < |tail| < |Encode(frame)| && tail == Encode(frame)[..|tail|]
    ensures Serve(EncodeAll(frames) + tail, header) ==
      if |tail| >= 4 then Served(frames + [tail[4..] + Zeros(|frame| - (|tail| - 4))], true)
      else
        var length := FromBigEndian(Filled(tail, LastHeader(frames, header)));
        if 1 <= length <= MAX_FRAME_BYTES then Served(frames + [Zeros(length)], true) else Served(frames, false)
  {
    ServePrefix(frames, tail, header, Serve(tail, LastHeader(frames, header)));
    var h := LastHeader(frames, header);
    if |tail| >= 4 {
      CutBody(tail, frame, h);
    } else {
      CutHeader(tail, h);
      assert frames + [] == frames;
    }
  }

  /** The stream is a concatenation of whole frames of legal length. */
  predicate Whole(data: seq<Byte>)
    decreases |data|
  {
    data == [] || (StartsWhole(data) && Whole(data[4 + FromBigEndian(data[..4])..]))
  }

  /** The stream starts with a whole frame of legal length. */
  predicate StartsWhole(data: seq<Byte>) {
    && |data| >= 4
    && 1 <= FromBigEndian(data[..4]) <= MAX_FRAME_BYTES
    && 4 + FromBigEndian(data[..4]) <= |data|
  }

  lemma {:induction false} WholeRound(data: seq<Byte>, header: seq<Byte>)
    requires |header| == 4 && StartsWhole(data)
    ensures var n := FromBigEndian(data[..4]);
      && Next(data, header) == Frame(data[4..4 + n], data[..4], data[4 + n..])
      && data == Encode(data[4..4 + n]) + data[4 + n..]
  {
    var n := FromBigEndian(data[..4]);
    HeaderOfLength(data[..4]);
    assert Filled(data, header) == data[..4];
    assert Filled(data[4..], Zeros(n)) == data[4..4 + n];
    assert data[4..][n..] == data[4 + n..];
  }

  lemma {:induction false} CutRound(data: seq<Byte>, header: seq<Byte>)
    requires |header| == 4 && !StartsWhole(data) && Next(data, header).Frame?
    ensures |Next(data, header).body| + 4 > |data|
  {
    if |data| >= 4 {
      assert Filled(data, header) == data[..4];
    }
  }

  /** The daemon handles exactly what was sent if and only if the stream is whole. */
  lemma {:induction false} ExactIffWhole(data: seq<Byte>, header: seq<Byte>)
    requires |header| == 4
    ensures Exact(data, Serve(data, header)) <==> Whole(data)
    decreases |data|
  {
    if data == [] {
    } else if StartsWhole(data) {
      WholeRound(data, header);
      var n := FromBigEndian(data[..4]);
      var rest := data[4 + n..];
      ExactIffWhole(rest, data[..4]);
      ExactStep(data, data[4..4 + n], rest, Serve(rest, data[..4]));
    } else if Next(data, header).Frame? {
      CutRound(data, header);
      var f := Next(data, header);
      LongStep(f.body, Serve(f.rest, f.header).frames);
    } else if |data| >= 4 {
      assert Filled(data, header) == data[..4];
    }
  }

  ghost predicate Exact(data: seq<Byte>, s: Served) {
    s.clean && EncodeAll(s.frames) == data
  }

  lemma {:induction false} ExactStep(data: seq<Byte>, body: seq<Byte>, rest: seq<Byte>, s: Served)
    requires data == Encode(body) + rest
    ensures Exact(data, Served([body] + s.frames, s.clean)) <==> Exact(rest, s)
  {
    EncodeAllSplit([body] + s.frames, []);
    assert ([body] + s.frames)[1..] == s.frames;
    var all := EncodeAll([body] + s.frames);
    assert all == Encode(body) + EncodeAll(s.frames);
    assert all[|Encode(body)|..] == EncodeAll(s.frames) && data[|Encode(body)|..] == rest;
  }

  lemma {:induction false} LongStep(body: seq<Byte>, frames: seq<seq<Byte>>)
    ensures |EncodeAll([body] + frames)| >= |body| + 4
  {
    EncodeAllSplit([body] + frames, []);
  }

  lemma {:induction false} OneHeader()
    ensures BigEndian(1) == [0, 0, 0, 1]
    ensures FromBigEndian([0, 0, 0, 1]) == 1
  {
    assert BytesOf(0, 1) == [0];
    assert BytesOf(0, 2) == [0, 0];
    assert BytesOf(0, 3) == [0, 0, 0];
    LengthRoundTrip(1);
  }

  /** A lone zero byte keeps the rest of the old header. */
  lemma {:induction false} StaleHeader(h: seq<Byte>, stray: seq<Byte>)
    requires h == [0, 0, 0, 1] && stray == [0]
    ensures Filled(stray, h) == h && Zeros(1) == stray
  {}

  /** And so its length: it is a frame of its own. */
  lemma {:induction false} StrayIsFrame(n: nat, stray: seq<Byte>)
    requires n == 1 && stray == [0]
    ensures Serve(stray, BigEndian(n)) == Served([stray], true)
  {
    var h := BigEndian(n);
    OneHeader();
    StaleHeader(h, stray);
    CutHeader(stray, h);
  }

  lemma {:induction false} TwoFrames(frame: seq<Byte>, stray: seq<Byte>, header: seq<Byte>)
    requires |header| == 4 && Fits(frame) && Serve(stray, BigEndian(|frame|)) == Served([stray], true)
    ensures Serve(Encode(frame) + stray, header) == Served([frame, stray], true)
  {
    ServeStep(frame, stray, header);
    assert [frame] + [stray] == [frame, stray];
  }

  /** One stray byte after a one-byte frame makes the kernel see a second frame. */
  lemma {:induction false} StrayByte(frame: seq<Byte>, stray: seq<Byte>, header: seq<Byte>)
    requires |header| == 4 && |frame| == 1 && stray == [0]
    ensures Serve(Encode(frame) + stray, header) == Served([frame, stray], true)
  {
    StrayIsFrame(|frame|, stray);
    TwoFrames(frame, stray, header);
  }

  lemma {:induction false} BrokenRound(data: seq<Byte>, header: seq<Byte>)
    requires |header| == 4
    ensures NextOn(true, data, header) == (
      if StartsWhole(data) then Some(Frame(data[4..4 + FromBigEndian(data[..4])], data[..4], data[4 + FromBigEndian(data[..4])..]))
      else if ReadsPastEnd(data) then None
      else Some(BadLength))
  {
    if StartsWhole(data) {
      WholeRound(data, header);
    } else if !ReadsPastEnd(data) {
      assert Filled(data, header) == data[..4];
    }
  }

  /** The data is what these frames were encoded as, then something that starts no whole frame. */
  ghost predicate WholeUpTo(data: seq<Byte>, frames: seq<seq<Byte>>) {
    AllFit(frames) && var sent := EncodeAll(frames); sent <= data && !StartsWhole(data[|sent|..])
  }

  lemma {:induction false} OneMoreWhole(data: seq<Byte>, body: seq<Byte>, rest: seq<Byte>, frames: seq<seq<Byte>>)
    requires data == Encode(body) + rest && Fits(body) && WholeUpTo(rest, frames)
    ensures WholeUpTo(data, [body] + frames)
  {
    assert ([body] + frames)[1..] == frames;
    var sent := EncodeAll(frames);
    assert EncodeAll([body] + frames) == Encode(body) + sent;
    assert data[|Encode(body) + sent|..] == rest[|sent|..];
  }

  /** A stream that breaks is safe where one that ends is not: exactly its whole leading frames
      are handled, none is made up, and the error is reported. */
  lemma {:induction false} BrokenStream(data: seq<Byte>, header: seq<Byte>)
    requires |header| == 4
    ensures !ServeOn(true, data, header).clean && WholeUpTo(data, ServeOn(true, data, header).frames)
    decreases |data|
  {
    BrokenRound(data, header);
    if StartsWhole(data) {
      WholeRound(data, header);
      var n := FromBigEndian(data[..4]);
      var body, rest := data[4..4 + n], data[4 + n..];
      BrokenStream(rest, data[..4]);
      OneMoreWhole(data, body, rest, ServeOn(true, rest, data[..4]).frames);
    } else {
      assert data[0..] == data;
    }
  }
}
