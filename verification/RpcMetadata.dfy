/** The request metadata envelope: a 28-byte header and four length-delimited fields. */
module RpcMetadata {
  import opened Bytes
  import opened Results

  const MAGIC: seq<Byte> := [82, 77, 49, 0]
  const HEADER_SIZE := 28
  const MAX_FIELD_SIZE := 64 * 1024

  datatype Metadata = Metadata(service: seq<Byte>, procedure: seq<Byte>, key: seq<Byte>,
                               application: seq<Byte>, timeoutMs: U64)

  datatype MetadataError = FieldTooLong | MissingEnvelope | InvalidEnvelope

  predicate FieldsFit(m: Metadata) {
    && |m.service| <= MAX_FIELD_SIZE && |m.procedure| <= MAX_FIELD_SIZE
    && |m.key| <= MAX_FIELD_SIZE && |m.application| <= MAX_FIELD_SIZE
  }

  /** Fields within their limits can never exceed the 32-bit envelope limit, so that check never refuses. */
  function EncodedSize(m: Metadata): (r: Result<nat, MetadataError>)
    ensures r.Success? ==> r.value <= U32_MAX
  {
    if !FieldsFit(m) then Failure(FieldTooLong)
    else Success(HEADER_SIZE + |m.service| + |m.procedure| + |m.key| + |m.application|)
  }

  function EnvelopeHeader(m: Metadata): (h: seq<Byte>)
    ensures |h| == HEADER_SIZE
  {
    MAGIC + Put(m.timeoutMs, 8) + Put(|m.service|, 4) + Put(|m.procedure|, 4) + Put(|m.key|, 4)
    + Put(|m.application|, 4)
  }

  function Fields(m: Metadata): (f: seq<Byte>) {
    m.service + m.procedure + m.key + m.application
  }

  /** Appends the envelope to `output`, leaving it alone when the fields do not fit. */
  function Append(m: Metadata, output: seq<Byte>): (r: Result<seq<Byte>, MetadataError>)
    ensures r.Success? <==> FieldsFit(m)
    ensures r.Success? ==> output <= r.value
    ensures r.Success? ==> EncodedSize(m) == Success(|r.value| - |output|)
  {
    match EncodedSize(m)
    case Failure(e) => Failure(e)
    case Success(_) =>
      Success(output + EnvelopeHeader(m) + Fields(m))
  }

  function Encode(m: Metadata): (r: Result<seq<Byte>, MetadataError>) {
    Append(m, [])
  }

  function Decode(input: seq<Byte>): (r: Result<Metadata, MetadataError>) {
    if |input| < HEADER_SIZE || input[..4] != MAGIC then Failure(MissingEnvelope)
    else
      var s, p, k, a := GetU32(input[12..16]), GetU32(input[16..20]), GetU32(input[20..24]), GetU32(input[24..28]);
      if s > MAX_FIELD_SIZE || p > MAX_FIELD_SIZE || k > MAX_FIELD_SIZE || a > MAX_FIELD_SIZE ||
         s + p + k + a > |input| - HEADER_SIZE then Failure(InvalidEnvelope)
      else
        var o1 := HEADER_SIZE;
        var o2 := o1 + s;
        var o3 := o2 + p;
        var o4 := o3 + k;
        Success(Metadata(input[o1..o2], input[o2..o3], input[o3..o4], input[o4..o4 + a], GetU64(input[4..12])))
  }

  lemma EnvelopeSlices(m: Metadata, tail: seq<Byte>)
    ensures var h := EnvelopeHeader(m) + tail;
            && h[..4] == MAGIC && h[4..12] == Put(m.timeoutMs, 8) && h[12..16] == Put(|m.service|, 4)
            && h[16..20] == Put(|m.procedure|, 4) && h[20..24] == Put(|m.key|, 4)
            && h[24..28] == Put(|m.application|, 4) && h[28..] == tail
  {
  }

  lemma FieldSlices(header: seq<Byte>, m: Metadata, suffix: seq<Byte>)
    ensures var input := header + Fields(m) + suffix;
            var o1 := |header|;
            var o2 := o1 + |m.service|;
            var o3 := o2 + |m.procedure|;
            var o4 := o3 + |m.key|;
            && input[o1..o2] == m.service && input[o2..o3] == m.procedure
            && input[o3..o4] == m.key && input[o4..o4 + |m.application|] == m.application
            && |Fields(m)| == o4 + |m.application| - o1
  {
    var rest4 := m.application + suffix;
    var rest3 := m.key + rest4;
    var rest2 := m.procedure + rest3;
    assert Fields(m) + suffix == m.service + rest2 by {
      Part(m.service + m.procedure + m.key, m.application, suffix);
      Part(m.service + m.procedure, m.key, rest4);
      Part(m.service, m.procedure, rest3);
    }
    Part(header, Fields(m), suffix);
    Part(header, m.service, rest2);
    Part(header + m.service, m.procedure, rest3);
    Part(header + m.service + m.procedure, m.key, rest4);
    Part(header + m.service + m.procedure + m.key, m.application, suffix);
  }

  /** The numbers read from an envelope's header are the ones written. */
  lemma HeaderReadsBack(m: Metadata, tail: seq<Byte>)
    requires FieldsFit(m)
    ensures var h := EnvelopeHeader(m) + tail;
            && h[..4] == MAGIC && GetU64(h[4..12]) == m.timeoutMs && GetU32(h[12..16]) == |m.service|
            && GetU32(h[16..20]) == |m.procedure| && GetU32(h[20..24]) == |m.key|
                && GetU32(h[24..28]) == |m.application|
  {
    EnvelopeSlices(m, tail);
    Widths();
    GetPut(m.timeoutMs, 8);
    GetPut(|m.service|, 4);
    GetPut(|m.procedure|, 4);
    GetPut(|m.key|, 4);
    GetPut(|m.application|, 4);
  }

  /** An encoded envelope decodes back to the fields it was made from, whatever follows it. */
  lemma DecodeEncoded(m: Metadata, suffix: seq<Byte>)
    requires FieldsFit(m)
    ensures Decode(Encode(m).value + suffix) == Success(m)
  {
    hide EnvelopeHeader, Fields, GetU32, GetU64;
    var h, f := EnvelopeHeader(m), Fields(m);
    assert Encode(m).value == h + f;
    assert h + (f + suffix) == h + f + suffix;
    HeaderReadsBack(m, f + suffix);
    FieldSlices(h, m, suffix);
  }

  lemma HeaderFromSlices(input: seq<Byte>, m: Metadata)
    requires |input| >= HEADER_SIZE && input[..4] == MAGIC
    requires input[4..12] == Put(m.timeoutMs, 8)
    requires input[12..16] == Put(|m.service|, 4) && input[16..20] == Put(|m.procedure|, 4)
    requires input[20..24] == Put(|m.key|, 4) && input[24..28] == Put(|m.application|, 4)
    ensures EnvelopeHeader(m) == input[..HEADER_SIZE]
  {
    assert input[..HEADER_SIZE] == input[..4] + input[4..12] + input[12..16] + input[16..20] + input[20..24]
                                   + input[24..28];
  }

  /** The fields of a decoded envelope are the bytes right after its header. */
  lemma FieldsFromSlices(input: seq<Byte>)
    requires Decode(input).Success?
    ensures var m := Decode(input).value;
        && HEADER_SIZE + |Fields(m)| <= |input|
        && Fields(m) == input[HEADER_SIZE..HEADER_SIZE + |Fields(m)|]
  {
    var m := Decode(input).value;
    var o2 := HEADER_SIZE + |m.service|;
    var o3 := o2 + |m.procedure|;
    var o4 := o3 + |m.key|;
    var o5 := o4 + |m.application|;
    assert m.service == input[HEADER_SIZE..o2] && m.procedure == input[o2..o3] && m.key == input[o3..o4]
        && m.application == input[o4..o5];
    hide Decode;
    Join(input, HEADER_SIZE, o2, o3);
    Join(input, HEADER_SIZE, o3, o4);
    Join(input, HEADER_SIZE, o4, o5);
  }

  lemma HeaderFromDecoded(input: seq<Byte>)
    requires Decode(input).Success?
    ensures FieldsFit(Decode(input).value) && EnvelopeHeader(Decode(input).value) == input[..HEADER_SIZE]
  {
    var m := Decode(input).value;
    PutGet(input[4..12]);
    PutGet(input[12..16]);
    PutGet(input[16..20]);
    PutGet(input[20..24]);
    PutGet(input[24..28]);
    HeaderFromSlices(input, m);
  }

  /** Whatever decodes is exactly the encoding of the decoded fields followed by ignored bytes. */
  lemma EncodeDecoded(input: seq<Byte>)
    requires Decode(input).Success?
    ensures FieldsFit(Decode(input).value)
    ensures Encode(Decode(input).value).value <= input
  {
    var m := Decode(input).value;
    HeaderFromDecoded(input);
    FieldsFromSlices(input);
    hide Decode, EnvelopeHeader, Fields;
    Join(input, 0, HEADER_SIZE, HEADER_SIZE + |Fields(m)|);
  }

  // ---------------------------------------------------------------------------------------------
  // The layout
  // ---------------------------------------------------------------------------------------------

  /** Which metadata can be encoded, and every byte of what it is encoded to. */
  lemma EnvelopeBytes(m: Metadata)
    ensures Encode(m).Success? <==>
      |m.service| <= 65536 && |m.procedure| <= 65536 && |m.key| <= 65536 && |m.application| <= 65536
    ensures Encode(m).Success? ==>
      var e := Encode(m).value;
      && |e| == 28 + |m.service| + |m.procedure| + |m.key| + |m.application|
      && e[..4] == [82, 77, 49, 0]
      && (forall i :: 0 <= i < 8 ==> e[4..12][i] == m.timeoutMs / Pow256(7 - i) % 256)
      && e[12..16] == Size(|m.service|) && e[16..20] == Size(|m.procedure|)
      && e[20..24] == Size(|m.key|) && e[24..28] == Size(|m.application|)
      && e[28..] == m.service + m.procedure + m.key + m.application
  {
    if Encode(m).Success? {
      var e := Encode(m).value;
      assert e == EnvelopeHeader(m) + Fields(m);
      hide EnvelopeHeader, Put;
      EnvelopeSlices(m, Fields(m));
      PutBytes(m.timeoutMs);
      PutBytes(|m.service|);
      PutBytes(|m.procedure|);
      PutBytes(|m.key|);
      PutBytes(|m.application|);
    }
  }

  /** A size in four bytes, the most significant first. */
  ghost function Size(n: nat): (b: seq<int>) {
    [n / 0x100_0000 % 256, n / 0x1_0000 % 256, n / 0x100 % 256, n % 256]
  }
}
