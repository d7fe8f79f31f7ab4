/**
 * The BiliBili danmaku wire format: a 16-byte big-endian header (packet length,
 * header length, protocol version, operation, sequence) followed by a body, as
 * `createPacket` writes it and `parseDanmakuPacket` reads it back.
 *
 * The parser is specified by `ParseFrom` and implemented, loop for loop, by the
 * method `ParseDanmakuPacket`. zlib inflation is a parameter, and `depth`
 * bounds how many compressed layers may be opened.
 */
module DanmakuPacket {
  import opened Wrappers
  import opened Text
  import opened Bytes
  import opened LiveMessages

  const OpHandshake: Int32 := 7
  const OpHandshakeReply: Int32 := 8
  const OpHeartbeat: Int32 := 2
  const OpHeartbeatReply: Int32 := 3
  const OpMessage: Int32 := 5

  const VersionNormal: Int16 := 0
  const VersionHeartbeat: Int16 := 1
  const VersionDeflate: Int16 := 2

  const HeaderLength: Int16 := 16

  datatype Header = Header(packetLength: Int32, headerLength: Int16, version: Int16, operation: Int32, sequence: Int32)

  /** The five header fields as `putInt`/`putShort` lay them out. */
  function EncodeHeader(h: Header): (r: seq<byte>)
    ensures |r| == HeaderLength as int
  {
    Int32Bytes(h.packetLength) + Int16Bytes(h.headerLength) + Int16Bytes(h.version)
      + Int32Bytes(h.operation) + Int32Bytes(h.sequence)
  }

  /** The header fields read with `getInt`/`getShort` at index `at`. */
  function ReadHeader(data: seq<byte>, at: nat): Header
    requires at + HeaderLength as int <= |data|
  {
    Header(ReadInt32(data, at), ReadInt16(data, at + 4), ReadInt16(data, at + 6),
      ReadInt32(data, at + 8), ReadInt32(data, at + 12))
  }

  /** A header is read back as written, wherever it sits in the buffer. */
  lemma ReadEncodedHeader(h: Header, pre: seq<byte>, post: seq<byte>)
    ensures ReadHeader(pre + EncodeHeader(h) + post, |pre|) == h
  {
    var a, b, c, d, e := Int32Bytes(h.packetLength), Int16Bytes(h.headerLength), Int16Bytes(h.version),
      Int32Bytes(h.operation), Int32Bytes(h.sequence);
    var s := pre + EncodeHeader(h) + post;
    assert s == pre + a + (b + c + d + e + post);
    ReadInt32Bytes(h.packetLength, pre, b + c + d + e + post);
    assert s == (pre + a) + b + (c + d + e + post);
    ReadInt16Bytes(h.headerLength, pre + a, c + d + e + post);
    assert s == (pre + a + b) + c + (d + e + post);
    ReadInt16Bytes(h.version, pre + a + b, d + e + post);
    assert s == (pre + a + b + c) + d + (e + post);
    ReadInt32Bytes(h.operation, pre + a + b + c, e + post);
    assert s == (pre + a + b + c + d) + e + post;
    ReadInt32Bytes(h.sequence, pre + a + b + c + d, post);
  }

  /** `getInt` depends only on the four bytes it reads. */
  lemma ReadInt32Same(s: seq<byte>, at: nat, t: seq<byte>, k: nat)
    requires at + 4 <= |s| && k + 4 <= |t|
    requires s[at..at + 4] == t[k..k + 4]
    ensures ReadInt32(s, at) == ReadInt32(t, k)
  {
    assert s[at] == t[k] && s[at + 1] == t[k + 1] && s[at + 2] == t[k + 2] && s[at + 3] == t[k + 3] by {
      assert s[at..at + 4][0] == s[at] && s[at..at + 4][3] == s[at + 3];
      assert s[at..at + 4][1] == s[at + 1] && s[at..at + 4][2] == s[at + 2];
    }
  }

  // ---------------------------------------------------------------------------
  // Writing packets

  /** One frame as a sender lays it out: a 16-byte header, then the body. */
  datatype Frame = Frame(version: Int16, operation: Int32, sequence: Int32, body: seq<byte>)

  /** The frame's bytes; the length field is `HEADER_LENGTH + body.size` in `Int` arithmetic. */
  function Encode(f: Frame): (r: seq<byte>)
    ensures |r| == HeaderLength as int + |f.body|
  {
    EncodeHeader(Header(Wrap32(HeaderLength as int + |f.body|), HeaderLength, f.version, f.operation, f.sequence)) + f.body
  }

  function EncodeAll(fs: seq<Frame>): (r: seq<byte>)
    ensures fs == [] <==> r == []
  {
    if fs == [] then [] else Encode(fs[0]) + EncodeAll(fs[1..])
  }

  /** What `createPacket(operation, body)` returns: protocol version 2, sequence 1. */
  function Packet(operation: Int32, body: seq<byte>): seq<byte> {
    Encode(Frame(VersionDeflate, operation, 1, body))
  }

  /** The frame's header fields and body are read back from its bytes. */
  lemma EncodeReadBack(f: Frame, pre: seq<byte>, post: seq<byte>)
    requires HeaderLength as int + |f.body| < 0x8000_0000
    ensures var s := pre + Encode(f) + post;
      ReadHeader(s, |pre|) == Header(HeaderLength as int + |f.body|, HeaderLength, f.version, f.operation, f.sequence)
      && s[|pre| + HeaderLength as int..|pre| + HeaderLength as int + |f.body|] == f.body
  {
    var h := Header(HeaderLength as int + |f.body|, HeaderLength, f.version, f.operation, f.sequence);
    var s := pre + Encode(f) + post;
    assert s == pre + EncodeHeader(h) + (f.body + post);
    ReadEncodedHeader(h, pre, f.body + post);
  }

  /** `ByteBuffer.put`: write `bytes` into `buf` from index `at`. */
  method Put(buf: array<byte>, at: nat, bytes: seq<byte>)
    requires at + |bytes| <= buf.Length
    modifies buf
    ensures buf[..at + |bytes|] == old(buf[..at]) + bytes
  {
    var i := 0;
    while i < |bytes|
      invariant 0 <= i <= |bytes|
      invariant buf[..at + i] == old(buf[..at]) + bytes[..i]
    {
      buf[at + i] := bytes[i];
      assert bytes[..i + 1] == bytes[..i] + [bytes[i]];
      i := i + 1;
    }
  }

  /** `createPacket`: allocate the packet and put the header fields, then the body, in order. */
  method CreatePacket(operation: Int32, body: ByteArray) returns (packet: array<byte>)
    requires HeaderLength as int + |body| < 0x8000_0000
    ensures fresh(packet)
    ensures packet[..] == Packet(operation, body)
  {
    var packetLength: Int32 := HeaderLength as int + |body|;
    packet := new byte[packetLength];
    Put(packet, 0, Int32Bytes(packetLength));
    Put(packet, 4, Int16Bytes(HeaderLength));
    Put(packet, 6, Int16Bytes(VersionDeflate));
    Put(packet, 8, Int32Bytes(operation));
    Put(packet, 12, Int32Bytes(1));
    Put(packet, 16, body);
    assert packet[..] == packet[..packetLength];
  }

  /** The handshake body `{"roomid":<roomId>,"uid":0,"protover":2}`. */
  function HandshakeBody(roomId: string): string {
    "{\"roomid\":" + roomId + ",\"uid\":0,\"protover\":2}"
  }

  function HandshakePacket(roomId: string): seq<byte> {
    Packet(OpHandshake, Utf8(HandshakeBody(roomId)))
  }

  const HeartbeatText := "[object Object]"

  /** The bytes `"[object Object]".toByteArray()` sends as the heartbeat body. */
  const HeartbeatBody: seq<byte> :=
    [0x5B, 0x6F, 0x62, 0x6A, 0x65, 0x63, 0x74, 0x20, 0x4F, 0x62, 0x6A, 0x65, 0x63, 0x74, 0x5D]

  /** The heartbeat text is ASCII, so its UTF-8 encoding is one byte per character. */
  lemma HeartbeatBodyIsText()
    ensures Utf8(HeartbeatText) == HeartbeatBody
  {
    Utf8Codes(HeartbeatText, HeartbeatBody);
  }

  function HeartbeatPacket(): seq<byte> {
    Packet(OpHeartbeat, HeartbeatBody)
  }

  // ---------------------------------------------------------------------------
  // Reading packets

  /**
   * Why a parse ends in an exception (or, for `NoProgress`, may not end). The
   * JVM exception class is not modelled, only that the call fails.
   */
  datatype Fault =
      /** An `Int` sum of offset and length wrapped, so the next read runs outside the buffer. */
    | LengthOverflow
      /**
       * A packet announces a length of zero or less and its `when` block did not throw:
       * the offset stays put (the loop never ends) or moves back before the packet.
       */
    | NoProgress
      /** The body range lies outside the buffer (`ByteBuffer.wrap` or `copyOfRange` throws). */
    | BodyOutOfRange
      /** An uncompressed body that is the whole buffer: the recursion never ends. */
    | SelfRecursion
      /** The body is not a zlib stream `Inflater` can finish. */
    | InflateFailed
      /** More nested compressed layers than `depth` allows. */
    | DepthExhausted

  type Parsed = Result<seq<LiveMessage>, Fault>

  /** `decompressData`: the inflated bytes, or `None` when `Inflater` throws or never finishes. */
  type Inflate = ByteArray -> Option<ByteArray>

  /** How the offset sums are computed: in `Int` as the source does, or without wrap-around. */
  datatype Arithmetic = Wrapping | Exact

  /** The messages of `a` followed by those of `b`; the first failure wins. */
  function Then(a: Parsed, b: Parsed): (r: Parsed)
    ensures r.Success? <==> a.Success? && b.Success?
    ensures r.Success? ==> r.value == a.value + b.value
    ensures a.Failure? ==> r == a
    ensures a.Success? && b.Failure? ==> r == b
  {
    if a.Failure? then a else if b.Failure? then b else Success(a.value + b.value)
  }

  lemma ThenAssoc(a: Parsed, b: Parsed, c: Parsed)
    ensures Then(a, Then(b, c)) == Then(Then(a, b), c)
  {
    if a.Success? && b.Success? && c.Success? {
      assert a.value + (b.value + c.value) == a.value + b.value + c.value;
    }
  }

  /** No messages, then `b`, is `b`. */
  lemma ThenEmpty(b: Parsed)
    ensures Then(Success([]), b) == b
  {
    if b.Success? {
      assert [] + b.value == b.value;
    }
  }

  /** The ONLINE message a heartbeat reply produces. */
  function OnlineMessage(online: Int32): LiveMessage {
    LiveMessage(Online, "", "", Some(Decimal(online)), White)
  }

  /** The `Int` sum `a + b` compared with the buffer size the way the chosen arithmetic does. */
  function Sum(a: int, b: int, arith: Arithmetic): int {
    if arith == Wrapping then Wrap32(a + b) else a + b
  }

  /** The `while (offset < data.size)` loop of `parseDanmakuPacket`, from `offset` on. */
  function ParseFrom(data: ByteArray, offset: nat, inflate: Inflate, depth: nat, arith: Arithmetic): Parsed
    requires offset <= |data|
    decreases depth, |data|, |data| - offset, 3
  {
    if offset == |data| then Success([]) else PacketAt(data, offset, inflate, depth, arith)
  }

  /** One pass of the loop at `offset`: the check that a header fits, then the packet. */
  function PacketAt(data: ByteArray, offset: nat, inflate: Inflate, depth: nat, arith: Arithmetic): Parsed
    requires offset < |data|
    decreases depth, |data|, |data| - offset, 2
  {
    if Sum(offset, HeaderLength as int, arith) > |data| then Success([])
    else if offset + HeaderLength as int > |data| then Failure(LengthOverflow)
    else HeaderAt(data, offset, inflate, depth, arith)
  }

  /** The packet whose header starts at `offset`, then the rest of the loop. */
  function HeaderAt(data: ByteArray, offset: nat, inflate: Inflate, depth: nat, arith: Arithmetic): Parsed
    requires offset + HeaderLength as int <= |data|
    decreases depth, |data|, |data| - offset, 1
  {
    var h := ReadHeader(data, offset);
    var end := offset + h.packetLength;
    if Sum(offset, h.packetLength, arith) > |data| then Success([])
    else if h.packetLength <= 0 then Then(FrameAt(data, offset, h, inflate, depth, arith), Failure(NoProgress))
    else if end > |data| then Then(FrameAt(data, offset, h, inflate, depth, arith), Failure(LengthOverflow))
    else Then(FrameAt(data, offset, h, inflate, depth, arith), ParseFrom(data, end, inflate, depth, arith))
  }

  /** The `when (operation)` block for the packet at `offset` whose header is `h`. */
  function FrameAt(data: ByteArray, offset: nat, h: Header, inflate: Inflate, depth: nat, arith: Arithmetic): Parsed
    requires offset < |data|
    decreases depth, |data|, |data| - offset, 0
  {
    var bodyOffset := Wrap32(offset + h.headerLength);
    var bodyLength := Wrap32(h.packetLength - h.headerLength);
    if h.operation == OpHeartbeatReply then
      if bodyLength < 4 then Success([])
      else if bodyOffset < 0 || bodyOffset + 4 > |data| then Failure(BodyOutOfRange)
      else Success([OnlineMessage(ReadInt32(data, bodyOffset))])
    else if h.operation == OpMessage then
      var to := Wrap32(bodyOffset + bodyLength);
      if !(0 <= bodyOffset <= to <= |data|) then Failure(BodyOutOfRange)
      else
        var body: ByteArray := data[bodyOffset..to];
        if h.version == VersionDeflate then
          if depth == 0 then Failure(DepthExhausted)
          else
            match inflate(body)
            case None => Failure(InflateFailed)
            case Some(plain) => ParseFrom(plain, 0, inflate, depth - 1, arith)
        else if |body| == |data| then Failure(SelfRecursion)
        else ParseFrom(body, 0, inflate, depth, arith)
    else Success([])
  }

  /** `parseDanmakuPacket(data)`. */
  function ParseStream(data: ByteArray, inflate: Inflate, depth: nat): Parsed {
    ParseFrom(data, 0, inflate, depth, Wrapping)
  }

  // ---------------------------------------------------------------------------
  // What a stream of frames means

  predicate Fits(f: Frame) {
    HeaderLength as int + |f.body| < 0x8000_0000
  }

  predicate AllFit(fs: seq<Frame>) {
    forall i :: 0 <= i < |fs| ==> Fits(fs[i])
  }

  /**
   * The messages one frame carries on its own: a heartbeat reply its online
   * count, a message frame whatever its (inflated) body carries, anything else
   * nothing.
   */
  function Carried(f: Frame, inflate: Inflate, depth: nat, arith: Arithmetic): Parsed
    requires Fits(f)
  {
    if f.operation == OpHeartbeatReply then
      if |f.body| >= 4 then Success([OnlineMessage(ReadInt32(f.body, 0))]) else Success([])
    else if f.operation == OpMessage then
      if f.version == VersionDeflate then
        if depth == 0 then Failure(DepthExhausted)
        else
          match inflate(f.body)
          case None => Failure(InflateFailed)
          case Some(plain) => ParseFrom(plain, 0, inflate, depth - 1, arith)
      else ParseFrom(f.body, 0, inflate, depth, arith)
    else Success([])
  }

  /** The messages of the frames, in order; the first failure wins. */
  function CarriedAll(fs: seq<Frame>, inflate: Inflate, depth: nat, arith: Arithmetic): Parsed
    requires AllFit(fs)
  {
    if fs == [] then Success([]) else Then(Carried(fs[0], inflate, depth, arith), CarriedAll(fs[1..], inflate, depth, arith))
  }

  /** Where a frame sits in the buffer does not change what its `when` block yields. */
  lemma FrameAtEncoded(data: ByteArray, pre: seq<byte>, f: Frame, post: seq<byte>, inflate: Inflate, depth: nat, arith: Arithmetic)
    requires data == pre + Encode(f) + post
    ensures FrameAt(data, |pre|, ReadHeader(data, |pre|), inflate, depth, arith) == Carried(f, inflate, depth, arith)
  {
    EncodeReadBack(f, pre, post);
    var h := ReadHeader(data, |pre|);
    var start := |pre| + HeaderLength as int;
    assert Wrap32(|pre| + h.headerLength) == start;
    assert Wrap32(h.packetLength - h.headerLength) == |f.body|;
    assert Wrap32(start + |f.body|) == start + |f.body|;
    assert data[start..start + |f.body|] == f.body;
    if f.operation == OpHeartbeatReply && |f.body| >= 4 {
      assert data[start..start + 4] == f.body[0..4];
      ReadInt32Same(data, start, f.body, 0);
    }
  }

  /** One turn of the loop over a complete packet at `offset`: its `when` block, then the rest. */
  lemma ParseFromAt(data: ByteArray, offset: nat, inflate: Inflate, depth: nat, arith: Arithmetic)
    requires offset + HeaderLength as int <= |data|
    requires 0 < ReadHeader(data, offset).packetLength
    requires offset + ReadHeader(data, offset).packetLength <= |data|
    ensures var h := ReadHeader(data, offset);
      ParseFrom(data, offset, inflate, depth, arith)
        == Then(FrameAt(data, offset, h, inflate, depth, arith), ParseFrom(data, offset + h.packetLength, inflate, depth, arith))
  {
    assert ParseFrom(data, offset, inflate, depth, arith) == HeaderAt(data, offset, inflate, depth, arith);
  }

  /** A complete frame at `|pre|` yields what it carries, then parsing goes on right after it. */
  lemma FirstFrame(data: ByteArray, pre: seq<byte>, f: Frame, post: seq<byte>, inflate: Inflate, depth: nat, arith: Arithmetic)
    requires data == pre + Encode(f) + post
    ensures ParseFrom(data, |pre|, inflate, depth, arith)
      == Then(Carried(f, inflate, depth, arith), ParseFrom(data, |pre| + |Encode(f)|, inflate, depth, arith))
  {
    EncodeReadBack(f, pre, post);
    ParseFromAt(data, |pre|, inflate, depth, arith);
    FrameAtEncoded(data, pre, f, post, inflate, depth, arith);
  }

  /** `data` holds the encodings of `fs`, one after another, from `offset` on. */
  predicate FramesAt(data: seq<byte>, offset: nat, fs: seq<Frame>)
    decreases |fs|
  {
    offset <= |data|
    && (fs != [] ==>
      var n := |Encode(fs[0])|;
      offset + n <= |data| && data[offset..offset + n] == Encode(fs[0]) && FramesAt(data, offset + n, fs[1..]))
  }

  lemma AllFitTail(fs: seq<Frame>)
    requires fs != [] && AllFit(fs)
    ensures AllFit(fs[1..]) && Fits(fs[0])
  {
    forall i | 0 <= i < |fs| - 1 ensures Fits(fs[1..][i]) {
      assert fs[1..][i] == fs[i + 1];
    }
  }

  /** Encoding the frames one after another puts each where `FramesAt` expects it. */
  lemma {:induction false} EncodedFramesAt(pre: seq<byte>, fs: seq<Frame>, post: seq<byte>)
    ensures FramesAt(pre + EncodeAll(fs) + post, |pre|, fs)
    decreases |fs|
  {
    var data := pre + EncodeAll(fs) + post;
    if fs != [] {
      var f, rest := fs[0], fs[1..];
      assert EncodeAll(fs) == Encode(f) + EncodeAll(rest);
      assert data == (pre + Encode(f)) + (EncodeAll(rest) + post);
      assert data == (pre + Encode(f)) + EncodeAll(rest) + post;
      assert data[|pre|..|pre| + |Encode(f)|] == Encode(f);
      EncodedFramesAt(pre + Encode(f), rest, post);
    }
  }

  lemma FramesAtTail(data: seq<byte>, offset: nat, fs: seq<Frame>)
    requires fs != [] && FramesAt(data, offset, fs)
    ensures offset + |Encode(fs[0])| <= |data| && data[offset..offset + |Encode(fs[0])|] == Encode(fs[0])
    ensures FramesAt(data, offset + |Encode(fs[0])|, fs[1..])
  {
  }

  /** `FirstFrame` for a frame found at `offset` of any buffer. */
  lemma FirstFrameAt(data: ByteArray, offset: nat, f: Frame, inflate: Inflate, depth: nat, arith: Arithmetic)
    requires Fits(f)
    requires offset + |Encode(f)| <= |data| && data[offset..offset + |Encode(f)|] == Encode(f)
    ensures ParseFrom(data, offset, inflate, depth, arith)
      == Then(Carried(f, inflate, depth, arith), ParseFrom(data, offset + |Encode(f)|, inflate, depth, arith))
  {
    var end := offset + |Encode(f)|;
    var pre, post := data[..offset], data[end..];
    assert data[..end] == pre + Encode(f);
    assert data == data[..end] + post;
    FirstFrame(data, pre, f, post, inflate, depth, arith);
  }

  /**
   * Parsing a run of complete frames yields the messages each frame carries, in
   * order, and then goes on after the last of them.
   */
  lemma {:induction false} ParseFrames(data: ByteArray, offset: nat, fs: seq<Frame>, inflate: Inflate, depth: nat, arith: Arithmetic)
    requires AllFit(fs) && FramesAt(data, offset, fs)
    ensures offset + |EncodeAll(fs)| <= |data|
    ensures ParseFrom(data, offset, inflate, depth, arith)
      == Then(CarriedAll(fs, inflate, depth, arith), ParseFrom(data, offset + |EncodeAll(fs)|, inflate, depth, arith))
    decreases |fs|
  {
    if fs == [] {
      ThenEmpty(ParseFrom(data, offset, inflate, depth, arith));
    } else {
      var f, rest := fs[0], fs[1..];
      var next := offset + |Encode(f)|;
      assert EncodeAll(fs) == Encode(f) + EncodeAll(rest);
      AllFitTail(fs);
      FramesAtTail(data, offset, fs);
      FirstFrameAt(data, offset, f, inflate, depth, arith);
      ParseFrames(data, next, rest, inflate, depth, arith);
      assert next + |EncodeAll(rest)| == offset + |EncodeAll(fs)|;
      Chain(ParseFrom(data, offset, inflate, depth, arith), ParseFrom(data, next, inflate, depth, arith),
        ParseFrom(data, next + |EncodeAll(rest)|, inflate, depth, arith),
        Carried(f, inflate, depth, arith), CarriedAll(rest, inflate, depth, arith), CarriedAll(fs, inflate, depth, arith));
    }
  }

  /** Two steps of "messages, then the rest" make one. */
  lemma Chain(x0: Parsed, x1: Parsed, x2: Parsed, c: Parsed, cs: Parsed, all: Parsed)
    requires x0 == Then(c, x1) && x1 == Then(cs, x2) && all == Then(c, cs)
    ensures x0 == Then(all, x2)
  {
    ThenAssoc(c, cs, x2);
  }

  /**
   * A tail too short for a header, or whose header announces more bytes than
   * remain, ends the parse quietly. With `Int` sums this holds only while
   * offset plus announced length stays below 2^31.
   */
  lemma TruncatedTail(pre: seq<byte>, tail: seq<byte>, inflate: Inflate, depth: nat, arith: Arithmetic)
    requires |pre| + |tail| < 0x8000_0000
    requires |tail| < HeaderLength as int || ReadInt32(tail, 0) > |tail|
    requires arith == Wrapping ==> |pre| + HeaderLength as int < 0x8000_0000
    requires arith == Wrapping && |tail| >= HeaderLength as int ==> |pre| + ReadInt32(tail, 0) < 0x8000_0000
    ensures ParseFrom(pre + tail, |pre|, inflate, depth, arith) == Success([])
  {
    var data: ByteArray := pre + tail;
    if |tail| >= HeaderLength as int {
      assert data[|pre|..|pre| + 4] == tail[0..4];
      ReadInt32Same(data, |pre|, tail, 0);
      assert ParseFrom(data, |pre|, inflate, depth, arith) == HeaderAt(data, |pre|, inflate, depth, arith);
    }
  }

  /** A buffer of complete frames, possibly followed by a truncated one, yields exactly the frames' messages. */
  lemma StreamMessages(fs: seq<Frame>, tail: seq<byte>, inflate: Inflate, depth: nat)
    requires AllFit(fs)
    requires |EncodeAll(fs)| + |tail| < 0x8000_0000 - HeaderLength as int
    requires |tail| < HeaderLength as int || ReadInt32(tail, 0) > |tail|
    requires |tail| >= HeaderLength as int ==> |EncodeAll(fs)| + ReadInt32(tail, 0) < 0x8000_0000
    ensures ParseStream(EncodeAll(fs) + tail, inflate, depth) == CarriedAll(fs, inflate, depth, Wrapping)
  {
    var data: ByteArray := EncodeAll(fs) + tail;
    assert data == [] + EncodeAll(fs) + tail;
    EncodedFramesAt([], fs, tail);
    ParseFrames(data, 0, fs, inflate, depth, Wrapping);
    TruncatedTail(EncodeAll(fs), tail, inflate, depth, Wrapping);
    var c := CarriedAll(fs, inflate, depth, Wrapping);
    if c.Success? {
      assert c.value + [] == c.value;
    }
  }

  /** A buffer holding one frame yields what that frame carries. */
  lemma SingleFrame(f: Frame, inflate: Inflate, depth: nat)
    requires Fits(f)
    ensures ParseStream(Encode(f), inflate, depth) == Carried(f, inflate, depth, Wrapping)
  {
    var data: ByteArray := Encode(f);
    assert data == [] + Encode(f) + [];
    FirstFrame(data, [], f, [], inflate, depth, Wrapping);
    var c := Carried(f, inflate, depth, Wrapping);
    if c.Success? {
      assert c.value + [] == c.value;
    }
  }

  /** A heartbeat reply yields one ONLINE message whose text reads back as the count. */
  lemma HeartbeatReplyOnline(v: Int16, sequence: Int32, n: Int32, rest: seq<byte>, inflate: Inflate, depth: nat)
    requires |rest| < 0x8000_0000 - 2 * HeaderLength as int
    ensures ParseStream(Encode(Frame(v, OpHeartbeatReply, sequence, Int32Bytes(n) + rest)), inflate, depth)
      == Success([OnlineMessage(n)])
    ensures ParseInt(OnlineMessage(n).data.value, 10) == Some(n)
  {
    var f := Frame(v, OpHeartbeatReply, sequence, Int32Bytes(n) + rest);
    SingleFrame(f, inflate, depth);
    ReadInt32Bytes(n, [], rest);
    assert [] + Int32Bytes(n) + rest == f.body;
    ParseIntToString(n, 10);
  }

  /** An uncompressed message frame yields the messages of the frames packed in its body. */
  lemma NestedFrames(v: Int16, sequence: Int32, fs: seq<Frame>, inflate: Inflate, depth: nat)
    requires v != VersionDeflate && AllFit(fs)
    requires |EncodeAll(fs)| < 0x8000_0000 - HeaderLength as int
    ensures ParseStream(Encode(Frame(v, OpMessage, sequence, EncodeAll(fs))), inflate, depth)
      == CarriedAll(fs, inflate, depth, Wrapping)
  {
    SingleFrame(Frame(v, OpMessage, sequence, EncodeAll(fs)), inflate, depth);
    WholeFrames(fs, inflate, depth);
  }

  /** A buffer of complete frames yields their messages. */
  lemma WholeFrames(fs: seq<Frame>, inflate: Inflate, depth: nat)
    requires AllFit(fs)
    requires |EncodeAll(fs)| < 0x8000_0000
    ensures ParseStream(EncodeAll(fs), inflate, depth) == CarriedAll(fs, inflate, depth, Wrapping)
  {
    var data: ByteArray := EncodeAll(fs);
    assert data == [] + EncodeAll(fs) + [];
    EncodedFramesAt([], fs, []);
    ParseFrames(data, 0, fs, inflate, depth, Wrapping);
    var c := CarriedAll(fs, inflate, depth, Wrapping);
    if c.Success? {
      assert c.value + [] == c.value;
    }
  }

  /** A compressed message frame yields the messages of the frames its body inflates to, one layer deeper. */
  lemma CompressedFrames(sequence: Int32, z: seq<byte>, fs: seq<Frame>, inflate: Inflate, depth: nat)
    requires AllFit(fs) && depth >= 1
    requires |z| < 0x8000_0000 - HeaderLength as int
    requires |EncodeAll(fs)| < 0x8000_0000
    requires inflate(z) == Some(EncodeAll(fs))
    ensures ParseStream(Encode(Frame(VersionDeflate, OpMessage, sequence, z)), inflate, depth)
      == CarriedAll(fs, inflate, depth - 1, Wrapping)
  {
    SingleFrame(Frame(VersionDeflate, OpMessage, sequence, z), inflate, depth);
    WholeFrames(fs, inflate, depth - 1);
  }

  /**
   * A packet this client creates carries no messages when parsed back unless its
   * operation is a heartbeat reply or a message: in particular the handshake
   * and the heartbeat.
   */
  lemma CreatedPacketCarriesNothing(operation: Int32, body: seq<byte>, inflate: Inflate, depth: nat)
    requires operation != OpHeartbeatReply && operation != OpMessage
    requires HeaderLength as int + |body| < 0x8000_0000
    ensures ParseStream(Packet(operation, body), inflate, depth) == Success([])
  {
    SingleFrame(Frame(VersionDeflate, operation, 1, body), inflate, depth);
  }

  /**
   * Two packets as a server might send them: a 16-byte handshake reply, then a header
   * announcing 0x7FFF_FFFF bytes.
   */
  function OverflowingStream(): seq<byte> {
    Encode(Frame(VersionNormal, OpHandshakeReply, 1, []))
      + EncodeHeader(Header(0x7FFF_FFFF, HeaderLength, VersionNormal, OpHandshakeReply, 1))
  }

  /**
   * A frame that carries nothing, then a header whose length field reaches past
   * `Int.MAX_VALUE` when added to its offset: `offset + packetLength > data.size`
   * wraps, so the source goes on and throws, where with exact sums the truncated
   * packet ends the parse quietly.
   */
  lemma OverflowAfterFrame(f: Frame, h: Header, inflate: Inflate, depth: nat)
    requires f.operation != OpHeartbeatReply && f.operation != OpMessage
    requires h.operation != OpHeartbeatReply && h.operation != OpMessage
    requires |Encode(f)| + HeaderLength as int < 0x8000_0000 <= |Encode(f)| + h.packetLength
    ensures |Encode(f) + EncodeHeader(h)| < 0x8000_0000
    ensures ParseStream(Encode(f) + EncodeHeader(h), inflate, depth) == Failure(LengthOverflow)
    ensures ParseFrom(Encode(f) + EncodeHeader(h), 0, inflate, depth, Exact) == Success([])
  {
    var data: ByteArray := Encode(f) + EncodeHeader(h);
    assert data == [] + Encode(f) + EncodeHeader(h);
    FirstFrame(data, [], f, EncodeHeader(h), inflate, depth, Wrapping);
    FirstFrame(data, [], f, EncodeHeader(h), inflate, depth, Exact);
    OverflowingHeader(data, Encode(f), h, inflate, depth);
  }

  /**
   * The last header of a buffer announces a packet that ends past `Int.MAX_VALUE`:
   * the wrapped sum passes the bounds check and the read throws, where the exact
   * sum ends the parse.
   */
  lemma OverflowingHeader(data: ByteArray, pre: seq<byte>, h: Header, inflate: Inflate, depth: nat)
    requires data == pre + EncodeHeader(h)
    requires h.operation != OpHeartbeatReply && h.operation != OpMessage
    requires |pre| + HeaderLength as int < 0x8000_0000 <= |pre| + h.packetLength
    ensures ParseFrom(data, |pre|, inflate, depth, Wrapping) == Failure(LengthOverflow)
    ensures ParseFrom(data, |pre|, inflate, depth, Exact) == Success([])
  {
    var k := |pre|;
    assert data == pre + EncodeHeader(h) + [];
    ReadEncodedHeader(h, pre, []);
    assert ParseFrom(data, k, inflate, depth, Wrapping) == HeaderAt(data, k, inflate, depth, Wrapping);
    assert FrameAt(data, k, h, inflate, depth, Wrapping) == Success([]);
    assert ParseFrom(data, k, inflate, depth, Exact) == HeaderAt(data, k, inflate, depth, Exact);
  }

  /** `OverflowAfterFrame` for `OverflowingStream`: the input that shows the wrap. */
  lemma LengthOverflowAfterFirstPacket(inflate: Inflate, depth: nat)
    ensures ParseStream(OverflowingStream(), inflate, depth) == Failure(LengthOverflow)
    ensures ParseFrom(OverflowingStream(), 0, inflate, depth, Exact) == Success([])
  {
    OverflowAfterFrame(Frame(VersionNormal, OpHandshakeReply, 1, []),
      Header(0x7FFF_FFFF, HeaderLength, VersionNormal, OpHandshakeReply, 1), inflate, depth);
  }

  /**
   * A message packet announcing length 0 with the usual 16-byte header: its `when`
   * block runs before the offset would fail to move, and `copyOfRange` throws on the
   * range that ends before it starts.
   */
  lemma ZeroLengthMessageThrows(inflate: Inflate, depth: nat)
    ensures ParseStream(EncodeHeader(Header(0, HeaderLength, VersionNormal, OpMessage, 1)), inflate, depth) == Failure(BodyOutOfRange)
  {
    var h := Header(0, HeaderLength, VersionNormal, OpMessage, 1);
    var data := EncodeHeader(h);
    ReadEncodedHeader(h, [], []);
    assert [] + data + [] == data;
    assert ParseFrom(data, 0, inflate, depth, Wrapping) == HeaderAt(data, 0, inflate, depth, Wrapping);
    assert FrameAt(data, 0, h, inflate, depth, Wrapping) == Failure(BodyOutOfRange);
  }

  /** `parseDanmakuPacket`: walk the buffer packet by packet, recursing into message bodies. */
  method ParseDanmakuPacket(data: ByteArray, inflate: Inflate, depth: nat) returns (r: Parsed)
    ensures r == ParseStream(data, inflate, depth)
    decreases depth, |data|, 1
  {
    var messages: seq<LiveMessage> := [];
    var offset: Int32 := 0;
    ThenEmpty(ParseStream(data, inflate, depth));
    while offset < |data|
      invariant 0 <= offset <= |data|
      invariant Then(Success(messages), ParseFrom(data, offset, inflate, depth, Wrapping)) == ParseStream(data, inflate, depth)
      decreases |data| - offset
    {
      if Wrap32(offset + HeaderLength as int) > |data| {
        assert ParseFrom(data, offset, inflate, depth, Wrapping) == Success([]);
        break;
      }
      if offset + HeaderLength as int > |data| {
        // The wrapped sum let the loop go on: reading the header throws.
        return Failure(LengthOverflow);
      }
      assert ParseFrom(data, offset, inflate, depth, Wrapping) == HeaderAt(data, offset, inflate, depth, Wrapping);
      var h := ReadHeader(data, offset);
      if Wrap32(offset + h.packetLength) > |data| {
        assert ParseFrom(data, offset, inflate, depth, Wrapping) == Success([]);
        break;
      }
      var found := HandlePacket(data, offset, h, inflate, depth);
      if found.Failure? {
        return found;
      }
      if h.packetLength <= 0 {
        return Failure(NoProgress);
      }
      if offset + h.packetLength >= 0x8000_0000 {
        // `offset += packetLength` wraps negative: the next header read throws.
        return Failure(LengthOverflow);
      }
      ThenAssoc(Success(messages), found, ParseFrom(data, offset + h.packetLength, inflate, depth, Wrapping));
      messages := messages + found.value;
      offset := offset + h.packetLength;
    }
    assert messages + [] == messages;
    return Success(messages);
  }

  /** The `when (operation)` block of `parseDanmakuPacket` for the packet at `offset`. */
  method HandlePacket(data: ByteArray, offset: nat, h: Header, inflate: Inflate, depth: nat) returns (r: Parsed)
    requires offset < |data|
    ensures r == FrameAt(data, offset, h, inflate, depth, Wrapping)
    decreases depth, |data|, 0
  {
    var bodyOffset := Wrap32(offset + h.headerLength);
    var bodyLength := Wrap32(h.packetLength - h.headerLength);
    if h.operation == OpHandshakeReply {
      return Success([]);
    } else if h.operation == OpHeartbeatReply {
      if bodyLength >= 4 {
        if bodyOffset < 0 || bodyOffset + 4 > |data| {
          return Failure(BodyOutOfRange);
        }
        return Success([OnlineMessage(ReadInt32(data, bodyOffset))]);
      }
      return Success([]);
    } else if h.operation == OpMessage {
      var to := Wrap32(bodyOffset + bodyLength);
      if !(0 <= bodyOffset <= to <= |data|) {
        return Failure(BodyOutOfRange);
      }
      var bodyData: ByteArray := data[bodyOffset..to];
      if h.version == VersionDeflate {
        if depth == 0 {
          return Failure(DepthExhausted);
        }
        var decompressed := inflate(bodyData);
        if decompressed.None? {
          return Failure(InflateFailed);
        }
        r := ParseDanmakuPacket(decompressed.value, inflate, depth - 1);
      } else {
        if |bodyData| == |data| {
          return Failure(SelfRecursion);
        }
        r := ParseDanmakuPacket(bodyData, inflate, depth);
      }
    } else {
      return Success([]);
    }
  }
}
