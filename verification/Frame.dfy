/** Frames on the wire: the encoder, the fast request encoder, and a reference parser over a whole byte stream. */
module Frame {
  import opened Bytes
  import opened Results
  import RpcMetadata

  const MAGIC := 0x5250_4352
  const VERSION := 1
  const HEADER_SIZE := 32

  const REQUEST: Byte := 1
  const RESPONSE: Byte := 2
  const CANCEL: Byte := 3
  const PONG: Byte := 5

  datatype Header = Header(flags: U32, messageType: Byte, requestId: U64)
  datatype Frame = Frame(header: Header, metadata: seq<Byte>, body: seq<Byte>)
  datatype Limits = Limits(maxMetadata: U32, maxBody: U32, maxBuffer: nat)

  const DEFAULT_LIMITS := Limits(64 * 1024, 16 * 1024 * 1024, 17 * 1024 * 1024)

  datatype Error =
    | FieldTooLong | InvalidEnum | MissingRequestId | BadMetadata
    | BadMagic | BadVersion | BadHeaderSize | BadEnumOrReserved | OverLimit
    | NullInput | BufferLimit | InvalidCommit

  predicate ValidType(t: Byte) { REQUEST <= t <= PONG }

  predicate NeedsId(t: Byte) { t == REQUEST || t == RESPONSE }

  function BuildHeader(h: Header, metadataSize: U32, bodySize: U32): (out: seq<Byte>)
    ensures |out| == HEADER_SIZE
  {
    Put(MAGIC, 4) + Put(VERSION, 2) + Put(HEADER_SIZE, 2) + Put(h.flags, 4) + [h.messageType, 0, 0, 0]
    + Put(h.requestId, 8) + Put(metadataSize, 4) + Put(bodySize, 4)
  }

  function Encode(f: Frame): (r: Result<seq<Byte>, Error>) {
    if |f.metadata| > U32_MAX || |f.body| > U32_MAX then Failure(FieldTooLong)
    else if !ValidType(f.header.messageType) then Failure(InvalidEnum)
    else if NeedsId(f.header.messageType) && f.header.requestId == 0 then Failure(MissingRequestId)
    else Success(BuildHeader(f.header, |f.metadata|, |f.body|) + f.metadata + f.body)
  }

  /** The fast path: header and metadata are laid out directly from the metadata fields. */
  function EncodeRequest(m: RpcMetadata.Metadata, body: seq<Byte>, requestId: U64): (r: Result<seq<Byte>, Error>) {
    if requestId == 0 then Failure(MissingRequestId)
    else
      match RpcMetadata.EncodedSize(m)
      case Failure(_) => Failure(if |body| > U32_MAX then FieldTooLong else BadMetadata)
      case Success(size) =>
        if |body| > U32_MAX then Failure(FieldTooLong)
        else
          match RpcMetadata.Append(m, BuildHeader(Header(0, REQUEST, requestId), size, |body|))
          case Failure(_) => Failure(BadMetadata)
          case Success(out) => Success(out + body)
  }

  /** The fast path and the generic encoder produce the same bytes, and refuse the same requests. */
  lemma FastPathAgrees(m: RpcMetadata.Metadata, body: seq<Byte>, requestId: U64)
    ensures EncodeRequest(m, body, requestId).Success? <==>
            && RpcMetadata.Encode(m).Success?
            && Encode(Frame(Header(0, REQUEST, requestId), RpcMetadata.Encode(m).value, body)).Success?
    ensures EncodeRequest(m, body, requestId).Success? ==>
              EncodeRequest(m, body, requestId)
              == Encode(Frame(Header(0, REQUEST, requestId), RpcMetadata.Encode(m).value, body))
  {
    if RpcMetadata.FieldsFit(m) && requestId != 0 && |body| <= U32_MAX {
      var h := BuildHeader(Header(0, REQUEST, requestId), |RpcMetadata.Encode(m).value|, |body|);
      assert RpcMetadata.Append(m, h).value == h + RpcMetadata.Encode(m).value by {
        var e := RpcMetadata.EnvelopeHeader(m);
        assert [] + e == e;
        Part(h, e, RpcMetadata.Fields(m));
      }
    }
  }

  // ---------------------------------------------------------------------------------------------
  // Reference parser
  // ---------------------------------------------------------------------------------------------

  datatype HeaderParse = BadHeader(error: Error) | GoodHeader(header: Header, metadataSize: U32, bodySize: U32)

  function ParseHeader(data: seq<Byte>, limits: Limits): (r: HeaderParse)
    requires |data| == HEADER_SIZE
    ensures r.GoodHeader? ==> r.metadataSize <= limits.maxMetadata && r.bodySize <= limits.maxBody
  {
    if Get(data[0..4]) != MAGIC then BadHeader(BadMagic)
    else if Get(data[4..6]) != VERSION then BadHeader(BadVersion)
    else if Get(data[6..8]) != HEADER_SIZE then BadHeader(BadHeaderSize)
    else if !ValidType(data[12]) || data[13] != 0 || data[14] != 0 || data[15] != 0 then BadHeader(BadEnumOrReserved)
    else
      var h := Header(GetU32(data[8..12]), data[12], GetU64(data[16..24]));
      var m, b := GetU32(data[24..28]), GetU32(data[28..32]);
      if NeedsId(h.messageType) && h.requestId == 0 then BadHeader(MissingRequestId)
      else if m > limits.maxMetadata || b > limits.maxBody then BadHeader(OverLimit)
      else GoodHeader(h, m, b)
  }

  datatype StreamStatus = Incomplete | Malformed(error: Error)

  datatype Head = NoFrame(status: StreamStatus) | WholeFrame(frame: Frame, size: nat)

  /** The frame a stream starts with, if it starts with one. */
  function First(s: seq<Byte>, limits: Limits): (r: Head)
    ensures r.WholeFrame? ==> HEADER_SIZE <= r.size <= |s|
  {
    if |s| < HEADER_SIZE then NoFrame(Incomplete)
    else
      match ParseHeader(s[..HEADER_SIZE], limits)
      case BadHeader(e) => NoFrame(Malformed(e))
      case GoodHeader(h, m, b) =>
        if |s| - HEADER_SIZE < m + b then NoFrame(Incomplete)
        else WholeFrame(FrameAt(s, h, m, b), HEADER_SIZE + m + b)
  }

  function FrameAt(s: seq<Byte>, h: Header, m: U32, b: U32): (f: Frame)
    requires |s| >= HEADER_SIZE + m + b
  {
    Frame(h, s[HEADER_SIZE..HEADER_SIZE + m], s[HEADER_SIZE + m..HEADER_SIZE + m + b])
  }

  datatype Parse = Parse(frames: seq<Frame>, consumed: nat, status: StreamStatus)

  /** All frames of a byte stream, how many bytes they take, and why the parse stopped there. */
  function ParseAll(s: seq<Byte>, limits: Limits): (r: Parse)
    ensures r.consumed <= |s|
    decreases |s|
  {
    match First(s, limits)
    case NoFrame(status) => Parse([], 0, status)
    case WholeFrame(f, n) =>
      var rest := ParseAll(s[n..], limits);
      Parse([f] + rest.frames, n + rest.consumed, rest.status)
  }

  /** Once a stream starts with a whole frame, later bytes do not matter to it. */
  lemma FirstExtends(s: seq<Byte>, t: seq<Byte>, limits: Limits)
    requires First(s, limits).WholeFrame?
    ensures First(s + t, limits) == First(s, limits)
  {
    hide ParseHeader;
    assert (s + t)[..HEADER_SIZE] == s[..HEADER_SIZE];
    var p := ParseHeader(s[..HEADER_SIZE], limits);
    var mid, end := HEADER_SIZE + p.metadataSize, HEADER_SIZE + p.metadataSize + p.bodySize;
    assert (s + t)[..|s|] == s;
    SliceOfPrefix(s + t, |s|, HEADER_SIZE, mid);
    SliceOfPrefix(s + t, |s|, mid, end);
  }

  lemma FirstShrinks(s: seq<Byte>, k: nat, limits: Limits)
    requires First(s, limits).WholeFrame? && First(s, limits).size <= k <= |s|
    ensures First(s[..k], limits) == First(s, limits)
  {
    hide ParseHeader;
    var p := ParseHeader(s[..HEADER_SIZE], limits);
    var mid, end := HEADER_SIZE + p.metadataSize, HEADER_SIZE + p.metadataSize + p.bodySize;
    assert s[..k][..HEADER_SIZE] == s[..HEADER_SIZE];
    SliceOfPrefix(s, k, HEADER_SIZE, mid);
    SliceOfPrefix(s, k, mid, end);
  }

  /** A stream whose bytes all belong to whole frames. */
  ghost predicate Whole(s: seq<Byte>, limits: Limits) {
    ParseAll(s, limits).consumed == |s|
  }

  /** Parsing continues after whole frames as if it started there. */
  lemma {:induction false} ParseResumes(s: seq<Byte>, t: seq<Byte>, limits: Limits)
    requires Whole(s, limits)
    ensures ParseAll(s + t, limits).frames == ParseAll(s, limits).frames + ParseAll(t, limits).frames
    ensures ParseAll(s + t, limits).consumed == |s| + ParseAll(t, limits).consumed
    ensures ParseAll(s + t, limits).status == ParseAll(t, limits).status
    decreases |s|
  {
    hide First;
    match First(s, limits)
    case NoFrame(_) =>
      assert s + t == t;
    case WholeFrame(f, n) =>
      FirstExtends(s, t, limits);
      Beyond(s, t, n);
      ParseResumes(s[n..], t, limits);
  }

  lemma {:induction false} ConsumedIsWhole(s: seq<Byte>, limits: Limits)
    ensures var p := ParseAll(s, limits);
            Whole(s[..p.consumed], limits) && ParseAll(s[..p.consumed], limits).frames == p.frames
    decreases |s|
  {
    hide First;
    var p := ParseAll(s, limits);
    match First(s, limits)
    case NoFrame(_) =>
      assert ParseAll(s[..0], limits).consumed == 0;
      EmptyParse(limits);
      assert s[..0] == [];
    case WholeFrame(f, n) =>
      FirstShrinks(s, p.consumed, limits);
      ConsumedIsWhole(s[n..], limits);
      assert s[..p.consumed][n..] == s[n..][..p.consumed - n];
  }

  lemma EmptyParse(limits: Limits)
    ensures ParseAll([], limits) == Parse([], 0, Incomplete)
  {
  }

  /** More bytes never change the frames already found. */
  lemma ParseMonotone(s: seq<Byte>, t: seq<Byte>, limits: Limits)
    ensures ParseAll(s, limits).frames <= ParseAll(s + t, limits).frames
  {
    hide First;
    var n := ParseAll(s, limits).consumed;
    ConsumedIsWhole(s, limits);
    assert s + t == s[..n] + (s[n..] + t);
    ParseResumes(s[..n], s[n..] + t, limits);
  }

  // ---------------------------------------------------------------------------------------------
  // Round trips
  // ---------------------------------------------------------------------------------------------

  predicate WithinLimits(f: Frame, limits: Limits) {
    |f.metadata| <= limits.maxMetadata && |f.body| <= limits.maxBody
  }

  lemma HeaderSlices(h: Header, m: U32, b: U32)
    ensures var d := BuildHeader(h, m, b);
            && d[0..4] == Put(MAGIC, 4) && d[4..6] == Put(VERSION, 2) && d[6..8] == Put(HEADER_SIZE, 2)
            && d[8..12] == Put(h.flags, 4) && d[12..16] == [h.messageType, 0, 0, 0]
            && d[16..24] == Put(h.requestId, 8) && d[24..28] == Put(m, 4) && d[28..32] == Put(b, 4)
  {
  }

  lemma ParseBuiltHeader(h: Header, m: U32, b: U32, limits: Limits)
    requires ValidType(h.messageType) && (NeedsId(h.messageType) ==> h.requestId != 0)
    ensures ParseHeader(BuildHeader(h, m, b), limits)
            == if m <= limits.maxMetadata && b <= limits.maxBody then GoodHeader(h, m, b) else BadHeader(OverLimit)
  {
    var d := BuildHeader(h, m, b);
    HeaderSlices(h, m, b);
    Widths();
    GetPut(MAGIC, 4);
    GetPut(VERSION, 2);
    GetPut(HEADER_SIZE, 2);
    GetPut(h.flags, 4);
    GetPut(h.requestId, 8);
    GetPut(m, 4);
    GetPut(b, 4);
    assert d[12] == d[12..16][0] && d[13] == d[12..16][1] && d[14] == d[12..16][2] && d[15] == d[12..16][3];
  }

  lemma HeaderFromSlices(d: seq<Byte>, h: Header, m: U32, b: U32)
    requires |d| == HEADER_SIZE
    requires d[0..4] == Put(MAGIC, 4) && d[4..6] == Put(VERSION, 2) && d[6..8] == Put(HEADER_SIZE, 2)
    requires d[8..12] == Put(h.flags, 4) && d[12..16] == [h.messageType, 0, 0, 0]
    requires d[16..24] == Put(h.requestId, 8) && d[24..28] == Put(m, 4) && d[28..32] == Put(b, 4)
    ensures BuildHeader(h, m, b) == d
  {
    hide Put;
    Join(d, 0, 4, 6);
    Join(d, 0, 6, 8);
    Join(d, 0, 8, 12);
    Join(d, 0, 12, 16);
    Join(d, 0, 16, 24);
    Join(d, 0, 24, 28);
    Join(d, 0, 28, 32);
    assert d[0..32] == d;
  }

  lemma RebuildParsedHeader(d: seq<Byte>, limits: Limits)
    requires |d| == HEADER_SIZE && ParseHeader(d, limits).GoodHeader?
    ensures var p := ParseHeader(d, limits);
            && BuildHeader(p.header, p.metadataSize, p.bodySize) == d
            && ValidType(p.header.messageType)
            && (NeedsId(p.header.messageType) ==> p.header.requestId != 0)
  {
    var p := ParseHeader(d, limits);
    PutGet(d[0..4]);
    PutGet(d[4..6]);
    PutGet(d[6..8]);
    PutGet(d[8..12]);
    PutGet(d[16..24]);
    PutGet(d[24..28]);
    PutGet(d[28..32]);
    HeaderFromSlices(d, p.header, p.metadataSize, p.bodySize);
  }

  /** An encoded frame starts any stream it is put in front of, exactly when it respects the limits. */
  lemma FirstEncoded(f: Frame, rest: seq<Byte>, limits: Limits)
    requires Encode(f).Success?
    ensures First(Encode(f).value + rest, limits)
            == if WithinLimits(f, limits) then WholeFrame(f, |Encode(f).value|) else NoFrame(Malformed(OverLimit))
  {
    hide ParseHeader, BuildHeader;
    var head := BuildHeader(f.header, |f.metadata|, |f.body|);
    var s := Encode(f).value + rest;
    ParseBuiltHeader(f.header, |f.metadata|, |f.body|, limits);
    assert s[..HEADER_SIZE] == head;
    if WithinLimits(f, limits) {
      assert s == head + f.metadata + (f.body + rest) by { Part(head + f.metadata, f.body, rest); }
      Part(head, f.metadata, f.body + rest);
      Part(head + f.metadata, f.body, rest);
    }
  }

  /** A frame a stream starts with encodes to the bytes it came from. */
  lemma EncodeFirst(s: seq<Byte>, limits: Limits)
    requires First(s, limits).WholeFrame?
    ensures var h := First(s, limits);
            WithinLimits(h.frame, limits) && Encode(h.frame) == Success(s[..h.size])
  {
    hide ParseHeader, BuildHeader;
    RebuildParsedHeader(s[..HEADER_SIZE], limits);
    var h := First(s, limits);
    assert s[..HEADER_SIZE] + h.frame.metadata + h.frame.body == s[..h.size];
  }

  function EncodeStream(fs: seq<Frame>): (r: seq<Byte>)
    requires forall f :: f in fs ==> Encode(f).Success?
  {
    if fs == [] then [] else Encode(fs[0]).value + EncodeStream(fs[1..])
  }

  /** A stream of encoded frames parses back to exactly those frames, and to no more of whatever follows. */
  lemma {:induction false} StreamRoundTrip(fs: seq<Frame>, rest: seq<Byte>, limits: Limits)
    requires forall f :: f in fs ==> Encode(f).Success? && WithinLimits(f, limits)
    ensures ParseAll(EncodeStream(fs) + rest, limits).frames == fs + ParseAll(rest, limits).frames
    ensures ParseAll(EncodeStream(fs) + rest, limits).status == ParseAll(rest, limits).status
    ensures ParseAll(EncodeStream(fs) + rest, limits).consumed
            == |EncodeStream(fs)| + ParseAll(rest, limits).consumed
  {
    hide First, Encode;
    if fs == [] {
      assert EncodeStream(fs) + rest == rest;
    } else {
      var e, es := Encode(fs[0]).value, EncodeStream(fs[1..]);
      Part(e, es, rest);
      FirstEncoded(fs[0], es + rest, limits);
      StreamRoundTrip(fs[1..], rest, limits);
      assert (e + (es + rest))[|e|..] == es + rest;
      assert fs == [fs[0]] + fs[1..];
    }
  }

  /** Re-encoding what a stream parsed to reproduces exactly the bytes that were consumed. */
  lemma {:induction false} ReencodeParsed(s: seq<Byte>, limits: Limits)
    ensures var p := ParseAll(s, limits);
            && (forall f :: f in p.frames ==> Encode(f).Success? && WithinLimits(f, limits))
            && EncodeStream(p.frames) == s[..p.consumed]
    decreases |s|
  {
    hide First, Encode, WithinLimits;
    var p := ParseAll(s, limits);
    match First(s, limits)
    case NoFrame(_) =>
    case WholeFrame(f, n) =>
      EncodeFirst(s, limits);
      ReencodeParsed(s[n..], limits);
      var rest := ParseAll(s[n..], limits);
      assert p.frames == [f] + rest.frames && p.consumed == n + rest.consumed;
      hide ParseAll;
      assert p.frames[0] == f && p.frames[1..] == rest.frames;
      assert s[..n] + s[n..][..rest.consumed] == s[..p.consumed];
  }

  // ---------------------------------------------------------------------------------------------
  // The layout
  // ---------------------------------------------------------------------------------------------

  /** Which frames can be encoded: a request or a response needs an id, and both parts a 32-bit length. */
  lemma EncodesExactly(f: Frame)
    ensures Encode(f).Success? <==>
      && |f.metadata| <= 0xFFFF_FFFF && |f.body| <= 0xFFFF_FFFF && 1 <= f.header.messageType <= 5
      && (f.header.messageType == 1 || f.header.messageType == 2 ==> f.header.requestId != 0)
  {
  }

  /** Every byte of an encoded frame. */
  lemma FrameBytes(f: Frame)
    requires Encode(f).Success?
    ensures var e := Encode(f).value;
      && |e| == 32 + |f.metadata| + |f.body|
      && e[..8] == [0x52, 0x50, 0x43, 0x52, 0, 1, 0, 32]
      && e[8..12] == RpcMetadata.Size(f.header.flags)
      && e[12..16] == [f.header.messageType, 0, 0, 0]
      && (forall i :: 0 <= i < 8 ==> e[16..24][i] == f.header.requestId / Pow256(7 - i) % 256)
      && e[24..28] == RpcMetadata.Size(|f.metadata|) && e[28..32] == RpcMetadata.Size(|f.body|)
      && e[32..] == f.metadata + f.body
  {
    var e, d := Encode(f).value, BuildHeader(f.header, |f.metadata|, |f.body|);
    assert e == d + f.metadata + f.body;
    hide Encode, BuildHeader, Put;
    HeaderSlices(f.header, |f.metadata|, |f.body|);
    Part(d, f.metadata, f.body);
    assert e[..32] == d && e[32..] == f.metadata + f.body;
    FixedBytes(d);
    PutBytes(f.header.flags);
    PutBytes(f.header.requestId);
    PutBytes(|f.metadata|);
    PutBytes(|f.body|);
    assert e[..8] == d[..8] && e[8..12] == d[8..12] && e[12..16] == d[12..16];
    assert e[16..24] == d[16..24] && e[24..28] == d[24..28] && e[28..32] == d[28..32];
  }

  lemma FixedBytes(d: seq<Byte>)
    requires |d| == 32 && d[0..4] == Put(MAGIC, 4) && d[4..6] == Put(VERSION, 2) && d[6..8] == Put(HEADER_SIZE, 2)
    ensures d[..8] == [0x52, 0x50, 0x43, 0x52, 0, 1, 0, 32]
  {
    hide Put;
    PutBytes(MAGIC);
    PutBytes(VERSION);
    PutBytes(HEADER_SIZE);
    assert d[..8] == d[0..4] + d[4..6] + d[6..8];
  }
}
