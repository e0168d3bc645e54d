/**
 The streaming decoder: a growing, compacting receive buffer that is filled in chunks of any size and yields
 frames one at a time. The ghost fields record everything that was committed and everything that was produced,
 and `Valid` says that the two agree with the reference parser of module Frame.
 */
module FrameDecoder {
  import opened Bytes
  import opened Results
  import opened Frame

  datatype Status = NeedMore | FrameReady | ProtocolError

  datatype State = ReadFixedHeader | ReadMetadata | Failed

  const MIN_CAPACITY := 16 * 1024

  function Max(a: nat, b: nat): nat { if a < b then b else a }
  function Min(a: nat, b: nat): nat { if a < b then a else b }

  class Decoder {
    const limits: Limits
    var state: State
    var buffer: array<Byte>
    var bufferSize: nat
    var preparedSize: nat
    var readOffset: nat
    var pendingHeader: Header
    var pendingMetadataSize: U32
    var pendingBodySize: U32
    var error: Option<Error>

    ghost var stream: seq<Byte>    // every byte committed so far
    ghost var produced: seq<Frame> // every frame handed out so far
    ghost var frameStart: nat      // where in `stream` the next frame begins

    ghost predicate Layout()
      reads this
    {
      && readOffset <= bufferSize <= buffer.Length <= limits.maxBuffer
      && HEADER_SIZE + limits.maxMetadata + limits.maxBody <= limits.maxBuffer
    }

    /** The bytes not yet handed out, and how far the frame they belong to has been read. */
    ghost predicate Unread()
      requires Layout()
      reads this, buffer
    {
      UnreadUpTo(bufferSize)
    }

    ghost predicate UnreadUpTo(end: nat)
      requires readOffset <= end <= buffer.Length
      reads this, buffer
    {
      && frameStart <= |stream|
      && match state {
           case ReadFixedHeader => buffer[readOffset..end] == stream[frameStart..]
           case ReadMetadata =>
             && frameStart + HEADER_SIZE <= |stream|
             && buffer[readOffset..end] == stream[frameStart + HEADER_SIZE..]
             && ParseHeader(stream[frameStart..frameStart + HEADER_SIZE], limits)
                == GoodHeader(pendingHeader, pendingMetadataSize, pendingBodySize)
           case Failed => true
         }
    }

    ghost predicate Agrees()
      reads this
    {
      && frameStart <= |stream|
      && ParseAll(stream[..frameStart], limits).consumed == frameStart
      && ParseAll(stream[..frameStart], limits).frames == produced
    }

    ghost predicate Valid()
      reads this, buffer
    {
      Layout() && Unread() && Agrees() && (error.Some? <==> state == Failed)
    }

    constructor (limits: Limits)
      ensures Valid() && fresh(buffer)
      ensures this.limits.maxMetadata == limits.maxMetadata && this.limits.maxBody == limits.maxBody
      ensures this.limits.maxBuffer == Max(limits.maxBuffer, HEADER_SIZE + limits.maxMetadata + limits.maxBody)
      ensures state == ReadFixedHeader && stream == [] && produced == []
      ensures preparedSize == 0 && bufferSize == readOffset == 0
    {
      this.limits := limits.(maxBuffer := Max(limits.maxBuffer, HEADER_SIZE + limits.maxMetadata + limits.maxBody));
      state := ReadFixedHeader;
      buffer := new Byte[0];
      bufferSize, preparedSize, readOffset := 0, 0, 0;
      pendingHeader, pendingMetadataSize, pendingBodySize := Header(0, REQUEST, 0), 0, 0;
      error := None;
      stream, produced, frameStart := [], [], 0;
    }

    /** What the run so far is worth: frames come out in the order, and with the contents, of the whole stream. */
    lemma ProducedIsPrefix()
      requires Agrees()
      ensures produced <= ParseAll(stream, limits).frames
      ensures ParseAll(stream, limits).frames == produced + ParseAll(stream[frameStart..], limits).frames
      ensures ParseAll(stream, limits).status == ParseAll(stream[frameStart..], limits).status
    {
      hide First;
      assert stream == stream[..frameStart] + stream[frameStart..];
      ParseResumes(stream[..frameStart], stream[frameStart..], limits);
    }

    /** With no whole frame left in the stream, everything in it has been produced. */
    lemma Exhausted(status: StreamStatus)
      requires Agrees() && First(stream[frameStart..], limits) == NoFrame(status)
      ensures produced == ParseAll(stream, limits).frames && ParseAll(stream, limits).status == status
    {
      hide First;
      ProducedIsPrefix();
    }

    /** A decoder that has produced nothing has all of its stream in the buffer. */
    lemma HasUnread()
      requires Valid() && state == ReadFixedHeader && produced == []
      ensures bufferSize >= |stream|
    {
      hide First;
    }

    method Fail(e: Error)
      requires Valid()
      modifies this`state, this`error
      ensures Valid() && state == Failed && error == Some(e)
    {
      state := Failed;
      error := Some(e);
    }

    method CompactBuffer()
      requires Valid()
      modifies this`bufferSize, this`readOffset, buffer
      ensures Valid()
      ensures readOffset == 0 && bufferSize == old(bufferSize) - old(readOffset)
      ensures buffer[..bufferSize] == old(buffer[readOffset..bufferSize])
    {
      hide ParseHeader, First, ParseAll;
      if readOffset == 0 {
        return;
      }
      var readable := bufferSize - readOffset;
      var i := 0;
      while i < readable
        invariant 0 <= i <= readable && unchanged(this)
        invariant forall k :: 0 <= k < i ==> buffer[k] == old(buffer[readOffset + k])
        invariant forall k :: i <= k < buffer.Length ==> buffer[k] == old(buffer[k])
      {
        buffer[i] := buffer[readOffset + i];
        i := i + 1;
      }
      assert buffer[..readable] == old(buffer[readOffset..bufferSize]);
      bufferSize, readOffset := readable, 0;
    }

    method EnsureWritable(size: nat) returns (ok: bool)
      requires Valid() && state != Failed
      modifies this`state, this`error, this`buffer
      ensures Valid()
      ensures ok <==> bufferSize + size <= limits.maxBuffer
      ensures ok ==> state == old(state) && error == old(error) && bufferSize + size <= buffer.Length
      ensures !ok ==> state == Failed && error == Some(BufferLimit) && buffer == old(buffer)
      ensures buffer == old(buffer) || fresh(buffer)
      ensures buffer[..bufferSize] == old(buffer[..bufferSize])
    {
      hide ParseHeader, First, ParseAll;
      if size > limits.maxBuffer - bufferSize {
        Fail(BufferLimit);
        return false;
      }
      var required := bufferSize + size;
      if required <= buffer.Length {
        return true;
      }
      var capacity := Min(Max(Max(MIN_CAPACITY, buffer.Length * 2), required), limits.maxBuffer);
      var next := new Byte[capacity](_ => 0);
      var i := 0;
      while i < bufferSize
        invariant 0 <= i <= bufferSize && unchanged(this) && unchanged(buffer)
        invariant forall k :: 0 <= k < i ==> next[k] == buffer[k]
      {
        next[i] := buffer[i];
        i := i + 1;
      }
      assert next[..bufferSize] == buffer[..bufferSize];
      assert next[readOffset..bufferSize] == next[..bufferSize][readOffset..];
      assert buffer[readOffset..bufferSize] == buffer[..bufferSize][readOffset..];
      buffer := next;
      return true;
    }

    /** Room for `size` more bytes without or with compaction. */
    ghost predicate HasRoom(size: nat)
      requires Layout()
      reads this
    {
      size <= buffer.Length - bufferSize || bufferSize - readOffset + size <= limits.maxBuffer
    }

    method MakeRoom(size: nat) returns (ok: bool)
      requires Valid() && state != Failed
      modifies this`state, this`error, this`buffer, this`bufferSize, this`readOffset, buffer
      ensures Valid()
      ensures ok <==> old(HasRoom(size))
      ensures ok ==> state == old(state) && error == old(error) && bufferSize + size <= buffer.Length
      ensures !ok ==> state == Failed && error == Some(BufferLimit)
      ensures buffer == old(buffer) || fresh(buffer)
      ensures bufferSize - readOffset == old(bufferSize - readOffset)
    {
      hide ParseHeader, First, ParseAll;
      if size > buffer.Length - bufferSize {
        CompactBuffer();
      }
      ok := EnsureWritable(size);
    }

    /** Data given directly. An open reservation does not stop it: the data takes the place of the reserved bytes. */
    method Feed(data: Option<seq<Byte>>) returns (status: Status)
      requires Valid()
      modifies this, buffer
      ensures Valid() && preparedSize == old(preparedSize) && produced == old(produced)
      ensures buffer == old(buffer) || fresh(buffer)
      ensures status == NeedMore <==>
                old(state) != Failed && data.Some? && (data.value == [] || old(HasRoom(|data.value|)))
      ensures status == NeedMore ==> state == old(state) && stream == old(stream) + data.value
      ensures status != NeedMore ==> status == ProtocolError && state == Failed && stream == old(stream)
    {
      hide ParseHeader, First, ParseAll, Unread, UnreadUpTo, Agrees;
      if state == Failed {
        return ProtocolError;
      }
      if data == Some([]) {
        return NeedMore;
      }
      if data.None? {
        Fail(NullInput);
        return ProtocolError;
      }
      var input := data.value;
      var ok := MakeRoom(|input|);
      if !ok {
        return ProtocolError;
      }
      CopyIn(input);
      Grow(|input|);
      status := NeedMore;
    }

    /** Copies `input` behind the data already in the buffer. */
    method CopyIn(input: seq<Byte>)
      requires Valid() && bufferSize + |input| <= buffer.Length
      modifies buffer
      ensures Valid()
      ensures buffer[..bufferSize] == old(buffer[..bufferSize])
      ensures buffer[bufferSize..bufferSize + |input|] == input
      ensures buffer[readOffset..bufferSize + |input|] == old(buffer[readOffset..bufferSize]) + input
    {
      hide ParseHeader, First, ParseAll;
      var i := 0;
      while i < |input|
        invariant 0 <= i <= |input|
        invariant buffer[..bufferSize] == old(buffer[..bufferSize])
        invariant buffer[bufferSize..bufferSize + i] == input[..i]
      {
        buffer[bufferSize + i] := input[i];
        i := i + 1;
      }
      assert buffer[readOffset..bufferSize] == buffer[..bufferSize][readOffset..];
      assert old(buffer[readOffset..bufferSize]) == old(buffer[..bufferSize])[readOffset..];
      assert buffer[readOffset..bufferSize + |input|]
          == buffer[readOffset..bufferSize] + buffer[bufferSize..bufferSize + |input|];
    }

    /** Takes the next `size` bytes of the buffer, if it has that many, into the received data and into the history. */
    method Grow(size: nat)
      requires Valid()
      modifies this`bufferSize, this`stream
      ensures bufferSize == old(bufferSize) + size && (Valid() <==> bufferSize <= buffer.Length)
      ensures stream == old(stream) + if Valid() then buffer[old(bufferSize)..bufferSize] else []
    {
      hide ParseHeader, First, ParseAll;
      bufferSize := bufferSize + size;
      if bufferSize <= buffer.Length {
        Record(old(bufferSize));
      }
    }

    /** The bytes of the buffer from `from` on are new. */
    ghost method Record(from: nat)
      requires Layout() && readOffset <= from <= bufferSize && (error.Some? <==> state == Failed)
      requires Agrees() && UnreadUpTo(from)
      modifies this`stream
      ensures Valid() && stream == old(stream) + buffer[from..bufferSize]
    {
      hide ParseHeader, First, ParseAll;
      var was, bytes := stream, buffer[from..bufferSize];
      stream := was + bytes;
      assert buffer[readOffset..bufferSize] == buffer[readOffset..from] + bytes;
      Beyond(was, bytes, frameStart);
      if state == ReadMetadata {
        Beyond(was, bytes, frameStart + HEADER_SIZE);
        assert stream[frameStart..frameStart + HEADER_SIZE] == stream[..frameStart + HEADER_SIZE][frameStart..];
        assert was[frameStart..frameStart + HEADER_SIZE] == was[..frameStart + HEADER_SIZE][frameStart..];
      }
    }

    /** Reserves `size` bytes behind the unread data; the caller fills them and commits. */
    method PrepareWritable(size: nat) returns (offset: Option<nat>)
      requires Valid()
      modifies this, buffer
      ensures Valid() && stream == old(stream) && produced == old(produced)
      ensures buffer == old(buffer) || fresh(buffer)
      ensures offset.Some? <==> old(state) != Failed && size != 0 && old(preparedSize) == 0 && old(HasRoom(size))
      ensures offset.Some? ==>
                offset.value == bufferSize <= buffer.Length - size && preparedSize == size && state == old(state)
      ensures offset.None? ==> preparedSize == old(preparedSize)
      ensures offset.None? && old(state) != Failed && size != 0 && old(preparedSize) == 0 ==> state == Failed
    {
      hide ParseHeader, First, ParseAll;
      if state == Failed || size == 0 || preparedSize != 0 {
        return None;
      }
      var ok := MakeRoom(size);
      if !ok {
        return None;
      }
      preparedSize := size;
      offset := Some(bufferSize);
    }

    /**
     A reservation makes sure that its bytes are in the buffer. If others were fed in between they may not be any more,
     and a commit that counts bytes beyond the buffer leaves the decoder out of order.
     */
    method CommitWritable(size: nat) returns (status: Status)
      requires Valid()
      modifies this
      ensures preparedSize == 0 && produced == old(produced) && buffer == old(buffer)
      ensures status == NeedMore <==> old(preparedSize) != 0 && size <= old(preparedSize)
      ensures Valid() <==> status != NeedMore || old(bufferSize) + size <= buffer.Length
      ensures status == NeedMore ==> state == old(state) && bufferSize == old(bufferSize) + size
      ensures status == NeedMore ==>
                stream == old(stream) + if Valid() then buffer[old(bufferSize)..bufferSize] else []
      ensures status != NeedMore ==>
                status == ProtocolError && state == Failed && error == Some(InvalidCommit) && stream == old(stream)
    {
      hide ParseHeader, First, ParseAll;
      if preparedSize == 0 || size > preparedSize {
        Fail(InvalidCommit);
        preparedSize := 0;
        return ProtocolError;
      }
      preparedSize := 0;
      Grow(size);
      status := NeedMore;
    }

    method DecodeHeader() returns (ok: bool)
      requires Valid() && state == ReadFixedHeader && bufferSize - readOffset >= HEADER_SIZE
      modifies this`state, this`error, this`readOffset, this`pendingHeader, this`pendingMetadataSize,
          this`pendingBodySize
      ensures Valid()
      ensures ok ==> state == ReadMetadata && error == old(error)
      ensures !ok ==> state == Failed && error.Some?
                      && First(stream[frameStart..], limits) == NoFrame(Malformed(error.value))
    {
      hide ParseHeader, ParseAll;
      var data := buffer[readOffset..readOffset + HEADER_SIZE];
      assert data == buffer[readOffset..bufferSize][..HEADER_SIZE];
      assert data == stream[frameStart..][..HEADER_SIZE];
      assert data == stream[frameStart..frameStart + HEADER_SIZE];
      match ParseHeader(data, limits)
      case BadHeader(e) =>
        Fail(e);
        return false;
      case GoodHeader(h, m, b) =>
        pendingHeader, pendingMetadataSize, pendingBodySize := h, m, b;
        assert buffer[readOffset + HEADER_SIZE..bufferSize] == buffer[readOffset..bufferSize][HEADER_SIZE..];
        assert stream[frameStart + HEADER_SIZE..] == stream[frameStart..][HEADER_SIZE..];
        readOffset := readOffset + HEADER_SIZE;
        state := ReadMetadata;
        return true;
    }

    /** A whole frame behind a decoded header is what the reference parser finds next. */
    lemma PendingIsFirst()
      requires Valid() && state == ReadMetadata
      ensures var have := bufferSize - readOffset;
              var want := pendingMetadataSize + pendingBodySize;
              First(stream[frameStart..], limits)
              == if have < want then NoFrame(Incomplete)
                 else WholeFrame(Frame(pendingHeader, buffer[readOffset..readOffset + pendingMetadataSize],
                                       buffer[readOffset + pendingMetadataSize..readOffset + want]), HEADER_SIZE + want)
    {
      hide ParseHeader, ParseAll;
      var s := stream[frameStart..];
      var unread := buffer[readOffset..bufferSize];
      assert s[..HEADER_SIZE] == stream[frameStart..frameStart + HEADER_SIZE];
      assert unread == s[HEADER_SIZE..];
      var m: int, b: int := pendingMetadataSize, pendingBodySize;
      if |unread| >= m + b {
        var o := readOffset;
        assert buffer[o..o + m] == unread[..m] == s[HEADER_SIZE..HEADER_SIZE + m];
        assert buffer[o + m..o + m + b] == unread[m..][..b];
        assert s[HEADER_SIZE + m..HEADER_SIZE + m + b] == s[HEADER_SIZE..][m..][..b];
      }
    }

    /** Extends the agreement with the reference parser by the next frame of the stream. */
    lemma Extends(f: Frame, size: nat)
      requires Agrees() && First(stream[frameStart..], limits) == WholeFrame(f, size)
      ensures frameStart + size <= |stream|
      ensures ParseAll(stream[..frameStart + size], limits).consumed == frameStart + size
      ensures ParseAll(stream[..frameStart + size], limits).frames == produced + [f]
    {
      hide First;
      var s, t := stream[..frameStart], stream[frameStart..];
      FirstShrinks(t, size, limits);
      EmptyParse(limits);
      assert t[..size][size..] == [];
      assert ParseAll(t[..size], limits).frames == [f] && ParseAll(t[..size], limits).consumed == size;
      ParseResumes(s, t[..size], limits);
      assert stream[..frameStart + size] == s + t[..size];
    }

    /** Hands out the frame behind a decoded header once all of it has arrived. */
    method TakeFrame() returns (f: Frame)
      requires Valid() && state == ReadMetadata && bufferSize - readOffset >= pendingMetadataSize + pendingBodySize
      modifies this`state, this`readOffset, this`produced, this`frameStart
      ensures Valid() && state == ReadFixedHeader && produced == old(produced) + [f] && frameStart > old(frameStart)
    {
      hide ParseHeader, First, ParseAll;
      PendingIsFirst();
      var bodyStart := readOffset + pendingMetadataSize;
      f := Frame(pendingHeader, buffer[readOffset..bodyStart], buffer[bodyStart..bodyStart + pendingBodySize]);
      ghost var want: nat := pendingMetadataSize + pendingBodySize;
      Extends(f, HEADER_SIZE + want);
      assert buffer[bodyStart + pendingBodySize..bufferSize] == buffer[readOffset..bufferSize][want..];
      assert stream[frameStart + HEADER_SIZE + want..] == stream[frameStart + HEADER_SIZE..][want..];
      readOffset := bodyStart + pendingBodySize;
      state := ReadFixedHeader;
      produced, frameStart := produced + [f], frameStart + HEADER_SIZE + want;
    }

    /** The next frame of the stream, if it is complete. */
    method NextView() returns (status: Status, frame: Option<Frame>)
      requires Valid()
      modifies this`state, this`error, this`readOffset, this`pendingHeader, this`pendingMetadataSize,
               this`pendingBodySize, this`produced, this`frameStart
      ensures Valid()
      ensures status == FrameReady <==> frame.Some?
      ensures produced == old(produced) + if frame.Some? then [frame.value] else []
      ensures frame.Some? ==> frameStart > old(frameStart) && state != Failed
      ensures status == NeedMore ==>
                && state != Failed
                && produced == ParseAll(stream, limits).frames && ParseAll(stream, limits).status == Incomplete
                && bufferSize - readOffset < Max(HEADER_SIZE, limits.maxMetadata + limits.maxBody)
      ensures status == ProtocolError ==> state == Failed
      ensures status == ProtocolError && old(state) != Failed ==>
                produced == ParseAll(stream, limits).frames && ParseAll(stream, limits).status == Malformed(error.value)
      ensures old(state) == Failed ==> status == ProtocolError && error == old(error)
    {
      hide ParseHeader, ParseAll;
      if state == Failed {
        return ProtocolError, None;
      }
      if state == ReadFixedHeader {
        if bufferSize - readOffset < HEADER_SIZE {
          assert |stream[frameStart..]| < HEADER_SIZE;
          Exhausted(Incomplete);
          return NeedMore, None;
        }
        var ok := DecodeHeader();
        if !ok {
          Exhausted(Malformed(error.value));
          return ProtocolError, None;
        }
      }
      if bufferSize - readOffset < pendingMetadataSize + pendingBodySize {
        PendingIsFirst();
        Exhausted(Incomplete);
        return NeedMore, None;
      }
      var f := TakeFrame();
      return FrameReady, Some(f);
    }

    method Reset()
      requires Layout()
      modifies this
      ensures Valid() && state == ReadFixedHeader && stream == [] && produced == [] && preparedSize == 0
      ensures buffer == old(buffer) && bufferSize == 0
    {
      hide ParseHeader, First, ParseAll;
      state := ReadFixedHeader;
      bufferSize, readOffset, preparedSize := 0, 0, 0;
      pendingHeader, pendingMetadataSize, pendingBodySize := Header(0, REQUEST, 0), 0, 0;
      error := None;
      stream, produced, frameStart := [], [], 0;
      EmptyParse(limits);
    }
  }

  /** The whole buffer is reserved, a byte is fed, and the reservation is committed: it no longer fits. */
  method FeedInReservation() returns (d: Decoder, offset: Option<nat>, fed: Status, committed: Status)
    ensures offset.Some? && fed == NeedMore && committed == NeedMore
    ensures d.stream == [0] && d.bufferSize > d.buffer.Length && !d.Valid()
  {
    hide ParseHeader, First, ParseAll;
    d := new Decoder(DEFAULT_LIMITS);
    offset := d.PrepareWritable(d.limits.maxBuffer);
    fed := d.Feed(Some([0]));
    d.HasUnread();
    committed := d.CommitWritable(d.limits.maxBuffer);
  }

  function Flatten(chunks: seq<seq<Byte>>): (all: seq<Byte>) {
    if chunks == [] then [] else Flatten(chunks[..|chunks| - 1]) + chunks[|chunks| - 1]
  }

  /** A malformed stream stays malformed, and yields no further frame, whatever else arrives. */
  lemma {:induction false} MalformedForGood(s: seq<Byte>, t: seq<Byte>, limits: Limits)
    requires ParseAll(s, limits).status.Malformed?
    ensures ParseAll(s + t, limits).frames == ParseAll(s, limits).frames
    ensures ParseAll(s + t, limits).status == ParseAll(s, limits).status
    decreases |s|
  {
    hide ParseHeader;
    match First(s, limits)
    case NoFrame(_) =>
      assert (s + t)[..HEADER_SIZE] == s[..HEADER_SIZE];
    case WholeFrame(f, n) =>
      FirstExtends(s, t, limits);
      assert (s + t)[n..] == s[n..] + t;
      MalformedForGood(s[n..], t, limits);
  }

  lemma {:induction false} FlattenPrefix(chunks: seq<seq<Byte>>, k: nat)
    requires k <= |chunks|
    ensures Flatten(chunks[..k]) <= Flatten(chunks)
  {
    if k < |chunks| {
      FlattenPrefix(chunks[..|chunks| - 1], k);
      assert chunks[..|chunks| - 1][..k] == chunks[..k];
    } else {
      assert chunks[..k] == chunks;
    }
  }

  const READ_SIZE := 16 * 1024

  /** Drains every complete frame out of the decoder. */
  method Drain(d: Decoder) returns (frames: seq<Frame>, ok: bool)
    requires d.Valid() && d.state != Failed
    modifies d
    ensures d.Valid() && d.stream == old(d.stream) && d.buffer == old(d.buffer) && d.preparedSize == old(d.preparedSize)
    ensures d.produced == old(d.produced) + frames
    ensures d.produced == ParseAll(d.stream, d.limits).frames
    ensures ok ==> d.state != Failed && ParseAll(d.stream, d.limits).status == Incomplete
                   && d.bufferSize - d.readOffset < Max(HEADER_SIZE, d.limits.maxMetadata + d.limits.maxBody)
    ensures !ok ==> ParseAll(d.stream, d.limits).status.Malformed?
  {
    hide ParseAll, First, ParseHeader;
    frames := [];
    while true
      invariant d.Valid() && d.state != Failed
      invariant d.stream == old(d.stream) && d.buffer == old(d.buffer) && d.preparedSize == old(d.preparedSize)
      invariant d.produced == old(d.produced) + frames
      decreases |d.stream| - d.frameStart
    {
      var status, frame := d.NextView();
      match status
      case NeedMore => return frames, true;
      case ProtocolError => return frames, false;
      case FrameReady => frames := frames + [frame.value];
    }
  }

  /** One read of the reader: reserve, let the peer's bytes fill part of the reservation, commit that part. */
  method Receive(d: Decoder, chunk: seq<Byte>) returns (status: Status)
    requires d.Valid() && d.preparedSize == 0 && |chunk| <= READ_SIZE
    modifies d, d.buffer
    ensures d.Valid() && d.preparedSize == 0 && d.produced == old(d.produced)
    ensures d.buffer == old(d.buffer) || fresh(d.buffer)
    ensures status == NeedMore <==> old(d.state != Failed && d.HasRoom(READ_SIZE))
    ensures status == NeedMore ==> d.state == old(d.state) && d.stream == old(d.stream) + chunk
  {
    hide ParseAll, First, ParseHeader;
    var offset := d.PrepareWritable(READ_SIZE);
    if offset.None? {
      return ProtocolError;
    }
    d.CopyIn(chunk);
    status := d.CommitWritable(|chunk|);
  }

  /** Nothing is reserved, and what is buffered is less than a whole frame of default limits. */
  ghost predicate Drained(d: Decoder)
    reads d
  {
    && d.limits == DEFAULT_LIMITS && d.state != Failed && d.preparedSize == 0
    && d.bufferSize - d.readOffset < Max(HEADER_SIZE, d.limits.maxMetadata + d.limits.maxBody)
  }

  /** One turn of the reader's loop. A drained decoder of default limits never refuses the reservation. */
  method ReadOnce(d: Decoder, chunk: seq<Byte>) returns (more: seq<Frame>, drained: bool)
    requires d.Valid() && Drained(d) && |chunk| <= READ_SIZE
    modifies d, d.buffer
    ensures d.Valid() && (d.buffer == old(d.buffer) || fresh(d.buffer))
    ensures d.stream == old(d.stream) + chunk
    ensures d.produced == old(d.produced) + more == ParseAll(d.stream, DEFAULT_LIMITS).frames
    ensures drained ==> Drained(d) && ParseAll(d.stream, DEFAULT_LIMITS).status == Incomplete
    ensures !drained ==> ParseAll(d.stream, DEFAULT_LIMITS).status.Malformed?
  {
    hide ParseAll, First, ParseHeader;
    var status := Receive(d, chunk);
    assert status == NeedMore;
    more, drained := Drain(d);
  }

  lemma MalformedPrefix(chunks: seq<seq<Byte>>, i: nat, limits: Limits)
    requires i <= |chunks| && ParseAll(Flatten(chunks[..i]), limits).status.Malformed?
    ensures ParseAll(Flatten(chunks), limits).frames == ParseAll(Flatten(chunks[..i]), limits).frames
    ensures ParseAll(Flatten(chunks), limits).status.Malformed?
  {
    hide ParseAll, First, ParseHeader;
    FlattenPrefix(chunks, i);
    var rest := Flatten(chunks)[|Flatten(chunks[..i])|..];
    MalformedForGood(Flatten(chunks[..i]), rest, limits);
    assert Flatten(chunks) == Flatten(chunks[..i]) + rest;
  }

  /**
   The reader of a connection with default limits. Each read fills part of a fixed reservation, so `chunks` is how
   the peer's bytes happened to arrive. The frames are those of the whole input however it was cut up, the reader
   stops early only on a malformed stream, and the reservation itself is never refused.
   */
  method ReadConnection(chunks: seq<seq<Byte>>) returns (frames: seq<Frame>, ok: bool)
    requires forall c :: c in chunks ==> 0 < |c| <= READ_SIZE
    ensures frames == ParseAll(Flatten(chunks), DEFAULT_LIMITS).frames
    ensures ok <==> ParseAll(Flatten(chunks), DEFAULT_LIMITS).status == Incomplete
  {
    hide ParseAll, First, ParseHeader, Decoder.Valid;
    EmptyParse(DEFAULT_LIMITS);
    var d := new Decoder(DEFAULT_LIMITS);
    frames := [];
    var i := 0;
    while i < |chunks|
      invariant 0 <= i <= |chunks|
      invariant fresh(d) && fresh(d.buffer) && d.Valid() && Drained(d)
      invariant d.stream == Flatten(chunks[..i])
      invariant frames == d.produced == ParseAll(d.stream, DEFAULT_LIMITS).frames
      invariant ParseAll(d.stream, DEFAULT_LIMITS).status == Incomplete
    {
      assert chunks[..i + 1][..i] == chunks[..i];
      var more, drained := ReadOnce(d, chunks[i]);
      i, frames := i + 1, frames + more;
      if !drained {
        MalformedPrefix(chunks, i, DEFAULT_LIMITS);
        return frames, false;
      }
    }
    assert chunks[..i] == chunks;
    ok := true;
  }
}
