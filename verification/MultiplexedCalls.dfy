/**
 Calls multiplexed over one connection, as values. A segment that a coroutine runs between two waits is one step; the
 reader, the writer and the callers take turns in any order. The rest is a record of what happened: `pushed` are the
 frames queued, `fates` what became of each, `wire` the bytes handed to the socket and `results` what callers got.
 Accepted calls are numbered in order, `calls` has the request id of each, and `answered` those whose request the peer
 has answered. The connection itself knows calls by request id only.
 */
module MultiplexedCalls {
  import opened Bytes
  import opened Results
  import F = Frame

  const BATCH_BYTES := 64 * 1024

  datatype Phase = Disconnected | Ready | Closing | Closed

  datatype CallStatus =
    | Ok | TimedOut | NotConnected | InvalidRequest | DuplicateRequestId | EncodeError | ConnectionClosed
    | ProtocolError | LocalOverloaded

  /** Call number `number`; its response answers the request of call `answers`. */
  datatype Call = Call(
    completed: bool, sent: bool, status: CallStatus, response: Option<F.Frame>, number: nat, answers: nat)

  datatype Out = Out(frame: F.Frame, control: bool, number: nat)

  /**
   What became of a queued frame: written, and then whether its own call had finished before; dropped because the call
   under its id had finished; or lost with the connection.
   */
  datatype Fate = Kept(out: Out, late: bool) | Dropped(out: Out) | Lost(out: Out)

  datatype CallResult = CallResult(id: U64, status: CallStatus, response: Option<F.Frame>)

  datatype Outcome = Outcome(number: nat, answers: nat, result: CallResult)

  datatype Mux = Mux(
    maxPending: nat, maxBytes: nat, phase: Phase, nextId: U64, pending: map<U64, Call>, outbound: seq<Out>,
    outboundBytes: int, batch: seq<Byte>, pushed: seq<Out>, fates: seq<Fate>, wire: seq<Byte>, results: seq<Outcome>,
    calls: seq<U64>, answered: set<nat>)

  datatype Answer = Refused(status: CallStatus) | Waiting(id: U64)

  function Initial(maxPending: nat, maxBytes: nat): (m: Mux) {
    Mux(maxPending, maxBytes, Ready, 1, map[], [], 0, [], [], [], [], [], [], {})
  }

  function BytesOf(frame: F.Frame): (b: seq<Byte>) {
    match F.Encode(frame) case Success(b) => b case Failure(_) => []
  }

  // ---------------------------------------------------------------------------------------------
  // Calls by number
  // ---------------------------------------------------------------------------------------------

  predicate Returned(m: Mux, n: nat) {
    exists i :: 0 <= i < |m.results| && m.results[i].number == n
  }

  predicate Live(m: Mux, n: nat) {
    n < |m.calls| && m.calls[n] in m.pending && m.pending[m.calls[n]].number == n
  }

  predicate Finished(m: Mux, n: nat) {
    Returned(m, n) || (Live(m, n) && m.pending[m.calls[n]].completed)
  }

  // ---------------------------------------------------------------------------------------------
  // Completing calls
  // ---------------------------------------------------------------------------------------------

  function Finish(c: Call, status: CallStatus, response: Option<F.Frame>): (c': Call) {
    if c.completed then c else c.(completed := true, status := status, response := response)
  }

  function CompleteAll(m: Mux, status: CallStatus): (m': Mux) {
    m.(pending := map id | id in m.pending :: Finish(m.pending[id], status, None))
  }

  /** The queue is thrown away. */
  function Clear(m: Mux): (m': Mux) {
    m.(fates := m.fates + Losses(m.outbound), outbound := [], outboundBytes := 0)
  }

  function Losses(outs: seq<Out>): (f: seq<Fate>)
    ensures |f| == |outs| && forall i :: 0 <= i < |outs| ==> f[i] == Lost(outs[i])
  {
    if outs == [] then [] else [Lost(outs[0])] + Losses(outs[1..])
  }

  function Close(m: Mux): (m': Mux) {
    if m.phase == Closed || m.phase == Disconnected then m
    else CompleteAll(Clear(m), ConnectionClosed).(phase := Closed)
  }

  function Fail(m: Mux, status: CallStatus): (m': Mux) {
    if m.phase == Closed || m.phase == Disconnected then m
    else CompleteAll(Clear(m).(phase := Closed), status)
  }

  predicate Unfinished(m: Mux) {
    exists id :: id in m.pending && !m.pending[id].completed
  }

  function MaybeFinishDrain(m: Mux): (m': Mux) {
    if m.phase == Closing && m.outbound == [] && !Unfinished(m) then Close(m) else m
  }

  function BeginDrain(m: Mux): (m': Mux) {
    if m.phase != Ready then m else MaybeFinishDrain(m.(phase := Closing))
  }

  // ---------------------------------------------------------------------------------------------
  // Callers
  // ---------------------------------------------------------------------------------------------

  function Push(m: Mux, out: Out): (m': Mux) {
    m.(outbound := m.outbound + [out], outboundBytes := m.outboundBytes + |BytesOf(out.frame)|,
       pushed := m.pushed + [out])
  }

  predicate Fits(m: Mux, size: nat) {
    size <= m.maxBytes && m.outboundBytes <= m.maxBytes - size
  }

  function AfterId(id: U64): (next: U64) {
    if id == U64_MAX then 1 else id + 1
  }

  function Start(m: Mux, request: F.Frame, timeout: nat): (r: (Mux, Answer)) {
    if m.phase != Ready then (m, Refused(NotConnected))
    else if request.header.messageType != F.REQUEST then (m, Refused(InvalidRequest))
    else if timeout == 0 then (m, Refused(TimedOut))
    else if |m.pending| >= m.maxPending then (m, Refused(LocalOverloaded))
    else
      var unnumbered := request.header.requestId == 0;
      var id := if unnumbered then m.nextId else request.header.requestId;
      var counted := if unnumbered then m.(nextId := AfterId(m.nextId)) else m;
      Enqueue(counted, id, request.(header := request.header.(requestId := id)))
  }

  function Enqueue(m: Mux, id: U64, frame: F.Frame): (r: (Mux, Answer)) {
    if F.Encode(frame).Failure? then (m, Refused(EncodeError))
    else if id in m.pending then (m, Refused(DuplicateRequestId))
    else if !Fits(m, |BytesOf(frame)|) then (m, Refused(LocalOverloaded))
    else (Push(Accept(m, id), Out(frame, false, |m.calls|)), Waiting(id))
  }

  function Accept(m: Mux, id: U64): (m': Mux) {
    var n := |m.calls|;
    m.(pending := m.pending[id := Call(false, false, NotConnected, None, n, n)], calls := m.calls + [id])
  }

  function CancelFrame(id: U64): (f: F.Frame) {
    F.Frame(F.Header(0, F.CANCEL, id), [], [])
  }

  function QueueCancel(m: Mux, id: U64, number: nat): (m': Mux) {
    if m.phase != Ready || id == 0 || !Fits(m, |BytesOf(CancelFrame(id))|) then m
    else Push(m, Out(CancelFrame(id), true, number))
  }

  /** A caller that wakes up: a call nobody completed has timed out; then the result is handed back and forgotten. */
  function Return(m: Mux, id: U64): (m': Mux)
    requires id in m.pending
    ensures m'.maxPending == m.maxPending
  {
    var settled := if m.pending[id].completed then m else Expire(m, id);
    if id in settled.pending then Leave(settled, id) else settled
  }

  function Leave(m: Mux, id: U64): (m': Mux)
    requires id in m.pending
  {
    var c := m.pending[id];
    m.(pending := m.pending - {id},
       results := m.results + [Outcome(c.number, c.answers, CallResult(id, c.status, c.response))])
  }

  function Expire(m: Mux, id: U64): (m': Mux)
    requires id in m.pending
    ensures m'.maxPending == m.maxPending
  {
    var call := m.pending[id];
    var marked := m.(pending := m.pending[id := call.(completed := true, status := TimedOut)]);
    MaybeFinishDrain(if call.sent then QueueCancel(marked, id, call.number) else marked)
  }

  // ---------------------------------------------------------------------------------------------
  // Reader and writer
  // ---------------------------------------------------------------------------------------------

  /**
   A response, to the request of call `number` as far as the peer is concerned, is matched by its request id alone; one
   that nobody waits for is only counted.
   */
  function Deliver(m: Mux, frame: F.Frame, number: nat): (m': Mux) {
    if m.phase != Ready && m.phase != Closing then m
    else if frame.header.messageType != F.RESPONSE then Fail(m, ProtocolError)
    else
      var id, heard := frame.header.requestId, m.(answered := m.answered + {number});
      if id !in m.pending || m.pending[id].completed then heard
      else MaybeFinishDrain(heard.(pending := m.pending[id := Answered(m.pending[id], frame, number)]))
  }

  function Answered(c: Call, frame: F.Frame, number: nat): (c': Call) {
    c.(completed := true, status := Ok, response := Some(frame), answers := number)
  }

  /** One frame leaves the queue for the batch, or is dropped because its call has finished. */
  function Pop(m: Mux): (m': Mux)
    requires m.outbound != []
  {
    var out := m.outbound[0];
    var id := out.frame.header.requestId;
    var rest := m.(outbound := m.outbound[1..], outboundBytes := m.outboundBytes - |BytesOf(out.frame)|);
    var kept := rest.(batch := m.batch + BytesOf(out.frame), wire := m.wire + BytesOf(out.frame),
                      fates := m.fates + [Kept(out, Finished(m, out.number))]);
    if out.control then kept
    else if id !in m.pending || m.pending[id].completed then rest.(fates := m.fates + [Dropped(out)])
    else kept.(pending := m.pending[id := m.pending[id].(sent := true)])
  }

  predicate More(m: Mux) {
    m.outbound != [] && (m.batch == [] || |m.batch| + |BytesOf(m.outbound[0].frame)| <= BATCH_BYTES)
  }

  function Fill(m: Mux): (m': Mux)
    decreases |m.outbound|
  {
    if More(m) then Fill(Pop(m)) else m
  }

  /** The writer gathers a batch, unless it is still writing the last one. */
  function Gather(m: Mux): (m': Mux) {
    if m.phase !in {Ready, Closing} || m.batch != [] then m else Fill(m)
  }

  /** The write of a batch ends. A gathering that leaves the batch empty is not followed by one. */
  function Written(m: Mux, whole: bool): (m': Mux) {
    if m.phase !in {Ready, Closing} || m.batch == [] then m
    else (if whole then MaybeFinishDrain(m) else Fail(m, ConnectionClosed)).(batch := [])
  }

  // ---------------------------------------------------------------------------------------------
  // The invariant
  // ---------------------------------------------------------------------------------------------

  ghost function Total(outs: seq<Out>): (n: nat) {
    if outs == [] then 0 else |BytesOf(outs[0].frame)| + Total(outs[1..])
  }

  lemma {:induction false} TotalAdd(outs: seq<Out>, out: Out)
    ensures Total(outs + [out]) == Total(outs) + |BytesOf(out.frame)|
  {
    if outs == [] {
      assert [] + [out] == [out] && [out][1..] == [];
    } else {
      assert (outs + [out])[1..] == outs[1..] + [out];
      TotalAdd(outs[1..], out);
    }
  }

  /** The frames written, in order. */
  ghost function Sent(fates: seq<Fate>): (fs: seq<F.Frame>) {
    if fates == [] then []
    else
      var last := fates[|fates| - 1];
      Sent(fates[..|fates| - 1]) + if last.Kept? then [last.out.frame] else []
  }

  ghost function Outs(fates: seq<Fate>): (outs: seq<Out>)
    ensures |outs| == |fates| && forall i :: 0 <= i < |fates| ==> outs[i] == fates[i].out
  {
    if fates == [] then [] else Outs(fates[..|fates| - 1]) + [fates[|fates| - 1].out]
  }

  ghost predicate IsRequest(f: Fate, id: U64) {
    f.Kept? && !f.out.control && f.out.frame.header.requestId == id
  }

  /** The request of call `id` has been written. */
  ghost predicate Requested(fates: seq<Fate>, id: U64) {
    exists j :: 0 <= j < |fates| && IsRequest(fates[j], id)
  }

  /** A queued frame encodes, is a request or a cancellation, and a cancellation follows its request. */
  ghost predicate OutOk(fates: seq<Fate>, out: Out) {
    && F.Encode(out.frame).Success?
    && out.frame.header.messageType == (if out.control then F.CANCEL else F.REQUEST)
    && (out.control ==> Requested(fates, out.frame.header.requestId))
  }

  ghost predicate Answering(response: F.Frame, id: U64) {
    response.header.messageType == F.RESPONSE && response.header.requestId == id
  }

  ghost predicate CallOk(fates: seq<Fate>, id: U64, c: Call) {
    && (c.sent ==> Requested(fates, id))
    && (c.status == Ok ==> c.completed && c.response.Some? && Answering(c.response.value, id))
    && (c.response.Some? ==> c.status == Ok)
  }

  ghost predicate Queue(m: Mux) {
    && m.outboundBytes == Total(m.outbound) <= m.maxBytes
    && (forall i :: 0 <= i < |m.outbound| ==> OutOk(m.fates, m.outbound[i]))
    && m.pushed == Outs(m.fates) + m.outbound
  }

  ghost predicate Calls(m: Mux) {
    |m.pending| <= m.maxPending && forall id :: id in m.pending ==> CallOk(m.fates, id, m.pending[id])
  }

  ghost predicate Wire(m: Mux) {
    && (forall i :: 0 <= i < |m.fates| ==> OutOk(m.fates[..i], m.fates[i].out))
    && Encodes(Sent(m.fates)) && m.wire == F.EncodeStream(Sent(m.fates))
  }

  ghost predicate Encodes(fs: seq<F.Frame>) {
    forall f :: f in fs ==> F.Encode(f).Success?
  }

  ghost predicate Answers(m: Mux) {
    forall i :: 0 <= i < |m.results| && m.results[i].result.status == Ok ==>
      m.results[i].result.response.Some? && Answering(m.results[i].result.response.value, m.results[i].result.id)
  }

  ghost predicate Inv(m: Mux) {
    Queue(m) && Calls(m) && Wire(m) && Answers(m)
  }

  // ---------------------------------------------------------------------------------------------
  // Frames leave the queue
  // ---------------------------------------------------------------------------------------------

  lemma RequestedStays(fates: seq<Fate>, more: seq<Fate>, id: U64)
    requires Requested(fates, id)
    ensures Requested(fates + more, id)
  {
    var j :| 0 <= j < |fates| && IsRequest(fates[j], id);
    assert (fates + more)[j] == fates[j];
  }

  lemma OutStays(fates: seq<Fate>, more: seq<Fate>, out: Out)
    requires OutOk(fates, out)
    ensures OutOk(fates + more, out)
  {
    if out.control { RequestedStays(fates, more, out.frame.header.requestId); }
  }

  lemma CallStays(fates: seq<Fate>, more: seq<Fate>, id: U64, c: Call)
    requires CallOk(fates, id, c)
    ensures CallOk(fates + more, id, c)
  {
    if c.sent { RequestedStays(fates, more, id); }
  }

  lemma {:induction false} StreamAdd(fs: seq<F.Frame>, f: F.Frame)
    requires Encodes(fs) && F.Encode(f).Success?
    ensures Encodes(fs + [f]) && F.EncodeStream(fs + [f]) == F.EncodeStream(fs) + BytesOf(f)
  {
    hide F.Encode;
    if fs == [] {
      assert [] + [f] == [f] && [f][1..] == [];
      assert F.EncodeStream([f]) == F.Encode(f).value + F.EncodeStream([]);
    } else {
      assert (fs + [f])[1..] == fs[1..] + [f];
      StreamAdd(fs[1..], f);
    }
  }

  lemma SentAdd(fates: seq<Fate>, fate: Fate)
    ensures Sent(fates + [fate]) == Sent(fates) + if fate.Kept? then [fate.out.frame] else []
  {
    var all := fates + [fate];
    assert all[..|all| - 1] == fates;
  }

  lemma FateAdd(m: Mux, m': Mux, fate: Fate)
    requires Wire(m) && OutOk(m.fates, fate.out) && m'.fates == m.fates + [fate]
    requires m'.wire == if fate.Kept? then m.wire + BytesOf(fate.out.frame) else m.wire
    ensures Wire(m')
  {
    hide F.Encode, F.EncodeStream, BytesOf, OutOk, Sent;
    forall i | 0 <= i < |m'.fates| ensures OutOk(m'.fates[..i], m'.fates[i].out) {
      if i < |m.fates| { assert m'.fates[..i] == m.fates[..i]; } else { assert m'.fates[..i] == m.fates; }
    }
    SentAdd(m.fates, fate);
    if fate.Kept? {
      assert F.Encode(fate.out.frame).Success? by { OutEncodes(m.fates, fate.out); }
      StreamAdd(Sent(m.fates), fate.out.frame);
    } else {
      assert Sent(m.fates) + [] == Sent(m.fates);
    }
  }

  lemma OutEncodes(fates: seq<Fate>, out: Out)
    requires OutOk(fates, out)
    ensures F.Encode(out.frame).Success?
  {
  }

  lemma PoppedQueue(m: Mux, m': Mux, fate: Fate)
    requires Queue(m) && m.outbound != [] && fate.out == m.outbound[0]
    requires m'.fates == m.fates + [fate] && m'.outbound == m.outbound[1..]
    requires m'.outboundBytes == m.outboundBytes - |BytesOf(m.outbound[0].frame)|
    requires m'.maxBytes == m.maxBytes && m'.pushed == m.pushed
    ensures Queue(m')
  {
    hide F.Encode, BytesOf, OutOk;
    forall i | 0 <= i < |m'.outbound| ensures OutOk(m'.fates, m'.outbound[i]) {
      assert m'.outbound[i] == m.outbound[i + 1];
      OutStays(m.fates, [fate], m.outbound[i + 1]);
    }
    assert Outs(m.fates) + m.outbound == Outs(m'.fates) + m'.outbound;
  }

  lemma PoppedCalls(m: Mux, m': Mux, fate: Fate)
    requires Calls(m) && m'.fates == m.fates + [fate]
    requires m'.maxPending == m.maxPending && m'.pending.Keys == m.pending.Keys
    requires forall x :: x in m.pending ==>
      m'.pending[x] == m.pending[x] || (m'.pending[x] == m.pending[x].(sent := true) && IsRequest(fate, x))
    ensures Calls(m')
  {
    SameSize(m'.pending, m.pending);
    forall x | x in m'.pending ensures CallOk(m'.fates, x, m'.pending[x]) {
      CallStays(m.fates, [fate], x, m.pending[x]);
      if m'.pending[x] != m.pending[x] { assert IsRequest(m'.fates[|m.fates|], x); }
    }
  }

  lemma PopKeeps(m: Mux)
    requires Inv(m) && m.outbound != []
    ensures Inv(Pop(m))
  {
    hide Queue, Calls, Wire, Answers, F.Encode, BytesOf, OutOk;
    FirstOut(m);
    var m' := Pop(m);
    var fate := m'.fates[|m.fates|];
    assert m'.fates == m.fates + [fate] && fate.out == m.outbound[0];
    FateAdd(m, m', fate);
    PoppedQueue(m, m', fate);
    PoppedCalls(m, m', fate);
    SameAnswers(m, m');
  }

  lemma FirstOut(m: Mux)
    requires Queue(m) && m.outbound != []
    ensures OutOk(m.fates, m.outbound[0])
  {
  }

  lemma SameAnswers(m: Mux, m': Mux)
    requires Answers(m) && m'.results == m.results
    ensures Answers(m')
  {
  }

  lemma SameSize<K, V>(a: map<K, V>, b: map<K, V>)
    requires a.Keys == b.Keys
    ensures |a| == |b|
  {
    assert |a| == |a.Keys| && |b| == |b.Keys|;
  }

  lemma {:induction false} FillKeeps(m: Mux)
    requires Inv(m)
    ensures Inv(Fill(m)) && !More(Fill(m))
    ensures |m.batch| <= BATCH_BYTES ==> |Fill(m).batch| <= BATCH_BYTES || Single(Fill(m))
    decreases |m.outbound|
  {
    hide Inv;
    if More(m) {
      PopKeeps(m);
      var m1 := Pop(m);
      assert m1.batch == m.batch || m1.batch == m.batch + BytesOf(m.outbound[0].frame);
      if |m.batch| <= BATCH_BYTES && |m1.batch| > BATCH_BYTES {
        SingleStays(m1);
      } else {
        FillKeeps(m1);
      }
    }
  }

  lemma {:induction false} FillPhase(m: Mux)
    ensures Fill(m).phase == m.phase
    decreases |m.outbound|
  {
    hide BytesOf, Finished;
    if More(m) { FillPhase(Pop(m)); }
  }

  /** The batch is the bytes of the last frame written, alone. */
  ghost predicate Single(m: Mux) {
    m.fates != [] && m.fates[|m.fates| - 1].Kept? && m.batch == BytesOf(m.fates[|m.fates| - 1].out.frame)
  }

  lemma SingleStays(m: Mux)
    requires Inv(m) && |m.batch| > BATCH_BYTES && Single(m)
    ensures Fill(m) == m
  {
  }

  // ---------------------------------------------------------------------------------------------
  // The connection ends
  // ---------------------------------------------------------------------------------------------

  lemma {:induction false} LossesKeep(m: Mux, k: nat)
    requires Inv(m) && k <= |m.outbound|
    ensures Wire(m.(fates := m.fates + Losses(m.outbound[..k])))
    decreases k
  {
    hide F.Encode, Sent, F.EncodeStream;
    if k == 0 {
      assert m.fates + Losses(m.outbound[..0]) == m.fates;
    } else {
      LossesKeep(m, k - 1);
      var before := m.(fates := m.fates + Losses(m.outbound[..k - 1]));
      var out := m.outbound[k - 1];
      assert OutOk(m.fates, out);
      OutStays(m.fates, Losses(m.outbound[..k - 1]), out);
      var after := m.(fates := m.fates + Losses(m.outbound[..k]));
      assert after.fates == before.fates + [Lost(out)];
      FateAdd(before, after, Lost(out));
    }
  }

  lemma ClearedQueue(m: Mux)
    requires Queue(m)
    ensures Queue(Clear(m))
  {
    hide F.Encode, BytesOf, OutOk, Outs, Losses;
    OutsLosses(m.fates, m.outbound);
  }

  lemma OutsLosses(fates: seq<Fate>, outs: seq<Out>)
    ensures Outs(fates + Losses(outs)) + [] == Outs(fates) + outs
  {
    hide Outs, Losses;
  }

  lemma ClearedCalls(m: Mux)
    requires Calls(m)
    ensures Calls(Clear(m))
  {
    forall id | id in m.pending ensures CallOk(m.fates + Losses(m.outbound), id, m.pending[id]) {
      CallStays(m.fates, Losses(m.outbound), id, m.pending[id]);
    }
  }

  lemma ClearKeeps(m: Mux)
    requires Inv(m)
    ensures Inv(Clear(m))
  {
    hide Queue, Calls, Wire, Losses;
    LossesKeep(m, |m.outbound|);
    assert m.outbound[..|m.outbound|] == m.outbound;
    assert Wire(Clear(m)) by { SameWire(m.(fates := m.fates + Losses(m.outbound)), Clear(m)); }
    ClearedQueue(m);
    ClearedCalls(m);
  }

  /** Only calls change, and each is still in order. */
  lemma CallsKeep(m: Mux, m': Mux)
    requires m' == m.(pending := m'.pending, phase := m'.phase, nextId := m'.nextId, results := m'.results,
                      calls := m'.calls, answered := m'.answered)
    requires Inv(m) && Answers(m')
    requires |m'.pending| <= m.maxPending && forall id :: id in m'.pending ==> CallOk(m.fates, id, m'.pending[id])
    ensures Inv(m')
  {
  }

  lemma CompleteAllKeeps(m: Mux, phase: Phase, status: CallStatus)
    requires Inv(m) && status != Ok
    ensures Inv(CompleteAll(m, status).(phase := phase))
  {
    var m' := CompleteAll(m, status).(phase := phase);
    assert m'.pending.Keys == m.pending.Keys;
    SameSize(m'.pending, m.pending);
    hide Queue, Wire;
    CallsKeep(m, m');
  }

  lemma CloseKeeps(m: Mux)
    requires Inv(m)
    ensures Inv(Close(m))
  {
    hide Inv;
    ClearKeeps(m);
    CompleteAllKeeps(Clear(m), Closed, ConnectionClosed);
  }

  lemma FailKeeps(m: Mux, status: CallStatus)
    requires Inv(m) && status != Ok
    ensures Inv(Fail(m, status))
  {
    hide Inv;
    ClearKeeps(m);
    CompleteAllKeeps(Clear(m), Closed, status);
    assert CompleteAll(Clear(m), status).(phase := Closed) == CompleteAll(Clear(m).(phase := Closed), status);
  }

  lemma DrainKeeps(m: Mux)
    requires Inv(m)
    ensures Inv(MaybeFinishDrain(m))
  {
    hide Inv;
    CloseKeeps(m);
  }

  lemma BeginDrainKeeps(m: Mux)
    requires Inv(m)
    ensures Inv(BeginDrain(m))
  {
    if m.phase == Ready {
      CallsKeep(m, m.(phase := Closing));
      hide Inv;
      DrainKeeps(m.(phase := Closing));
    }
  }

  // ---------------------------------------------------------------------------------------------
  // Callers, reader and writer
  // ---------------------------------------------------------------------------------------------

  lemma PushKeeps(m: Mux, out: Out)
    requires Inv(m) && OutOk(m.fates, out) && Fits(m, |BytesOf(out.frame)|)
    ensures Inv(Push(m, out))
  {
    var m' := Push(m, out);
    hide Wire, Calls, F.Encode, OutOk;
    TotalAdd(m.outbound, out);
    forall i | 0 <= i < |m'.outbound| ensures OutOk(m'.fates, m'.outbound[i]) {
      if i < |m.outbound| { assert m'.outbound[i] == m.outbound[i]; }
    }
    assert Outs(m.fates) + (m.outbound + [out]) == Outs(m.fates) + m.outbound + [out];
    assert Queue(m');
    hide Queue;
    assert Wire(m') by { SameWire(m, m'); }
    assert Calls(m') by { SameCalls(m, m'); }
  }

  lemma SameWire(m: Mux, m': Mux)
    requires Wire(m) && m'.fates == m.fates && m'.wire == m.wire
    ensures Wire(m')
  {
  }

  lemma SameCalls(m: Mux, m': Mux)
    requires Calls(m) && m'.fates == m.fates && m'.pending == m.pending && m'.maxPending == m.maxPending
    ensures Calls(m')
  {
  }

  lemma EnqueueKeeps(m: Mux, id: U64, frame: F.Frame)
    requires Inv(m) && |m.pending| < m.maxPending && frame.header.messageType == F.REQUEST
    ensures Inv(Enqueue(m, id, frame).0)
  {
    if Enqueue(m, id, frame).1.Waiting? {
      var added := Accept(m, id);
      assert |added.pending| == |m.pending| + 1;
      CallsKeep(m, added);
      hide Inv, F.Encode;
      PushKeeps(added, Out(frame, false, |m.calls|));
    }
  }

  lemma StartKeeps(m: Mux, request: F.Frame, timeout: nat)
    requires Inv(m)
    ensures Inv(Start(m, request, timeout).0)
  {
    var counted := m.(nextId := AfterId(m.nextId));
    assert Inv(counted) by { CallsKeep(m, counted); }
    hide Inv, Enqueue;
    if m.phase == Ready && request.header.messageType == F.REQUEST && timeout != 0 && |m.pending| < m.maxPending {
      var unnumbered := request.header.requestId == 0;
      var id := if unnumbered then m.nextId else request.header.requestId;
      EnqueueKeeps(if unnumbered then counted else m, id, request.(header := request.header.(requestId := id)));
    }
  }

  lemma QueueCancelKeeps(m: Mux, id: U64, number: nat)
    requires Inv(m) && Requested(m.fates, id)
    ensures Inv(QueueCancel(m, id, number))
  {
    assert OutOk(m.fates, Out(CancelFrame(id), true, number));
    hide Inv, F.Encode, OutOk;
    if m.phase == Ready && id != 0 && Fits(m, |BytesOf(CancelFrame(id))|) {
      PushKeeps(m, Out(CancelFrame(id), true, number));
    }
  }

  lemma ExpireKeeps(m: Mux, id: U64)
    requires Inv(m) && id in m.pending && !m.pending[id].completed
    ensures Inv(Expire(m, id))
  {
    var call := m.pending[id];
    assert CallOk(m.fates, id, call);
    var marked := m.(pending := m.pending[id := call.(completed := true, status := TimedOut)]);
    assert marked.pending.Keys == m.pending.Keys;
    SameSize(marked.pending, m.pending);
    assert Inv(marked) by { CallsKeep(m, marked); }
    hide Inv;
    if call.sent { QueueCancelKeeps(marked, id, call.number); }
    DrainKeeps(if call.sent then QueueCancel(marked, id, call.number) else marked);
  }

  lemma ReturnKeeps(m: Mux, id: U64)
    requires Inv(m) && id in m.pending
    ensures Inv(Return(m, id))
  {
    hide Inv, Expire, Leave;
    if m.pending[id].completed {
      LeaveKeeps(m, id);
    } else {
      ExpireKeeps(m, id);
      StillPending(m, id);
      LeaveKeeps(Expire(m, id), id);
    }
  }

  lemma StillPending(m: Mux, id: U64)
    requires id in m.pending
    ensures id in Expire(m, id).pending
  {
    hide BytesOf, F.Encode;
  }

  /** A finished call leaves, and its result stays. */
  lemma LeaveKeeps(m: Mux, id: U64)
    requires Inv(m) && id in m.pending
    ensures Inv(Leave(m, id))
  {
    hide Queue, Wire;
    assert CallOk(m.fates, id, m.pending[id]);
    var m' := Leave(m, id);
    assert m'.pending.Keys == m.pending.Keys - {id};
    assert |m'.pending| == |m'.pending.Keys| && |m.pending| == |m.pending.Keys|;
    assert Answers(m');
    CallsKeep(m, m');
  }

  lemma DeliverKeeps(m: Mux, frame: F.Frame, number: nat)
    requires Inv(m)
    ensures Inv(Deliver(m, frame, number))
  {
    if m.phase == Ready || m.phase == Closing {
      var heard := m.(answered := m.answered + {number});
      assert Inv(heard) by { CallsKeep(m, heard); }
      if frame.header.messageType != F.RESPONSE {
        FailKeeps(m, ProtocolError);
      } else if frame.header.requestId in m.pending && !m.pending[frame.header.requestId].completed {
        var id := frame.header.requestId;
        assert CallOk(m.fates, id, m.pending[id]);
        var done := heard.(pending := m.pending[id := Answered(m.pending[id], frame, number)]);
        assert done.pending.Keys == m.pending.Keys;
        SameSize(done.pending, m.pending);
        assert Inv(done) by { CallsKeep(m, done); }
        hide Inv;
        DrainKeeps(done);
      }
    }
  }

  lemma GatherKeeps(m: Mux)
    requires Inv(m)
    ensures Inv(Gather(m))
    ensures m.batch == [] ==> |Gather(m).batch| <= BATCH_BYTES || Single(Gather(m))
  {
    hide Inv, Fill;
    FillKeeps(m);
  }

  lemma WrittenKeeps(m: Mux, whole: bool)
    requires Inv(m)
    ensures Inv(Written(m, whole))
  {
    hide Queue, Calls, Wire, Answers;
    DrainKeeps(m);
    FailKeeps(m, ConnectionClosed);
    BatchKeeps(if whole then MaybeFinishDrain(m) else Fail(m, ConnectionClosed));
  }

  lemma BatchKeeps(m: Mux)
    requires Inv(m)
    ensures Inv(m.(batch := []))
  {
    var m' := m.(batch := []);
    assert Queue(m') && Calls(m') && Wire(m') && Answers(m');
  }

  // ---------------------------------------------------------------------------------------------
  // Every run
  // ---------------------------------------------------------------------------------------------

  datatype Action =
    | DoStart(request: F.Frame, timeout: nat)
    | DoReturn(id: U64)
    | DoDeliver(frame: F.Frame, number: nat)
    | DoGather
    | DoWritten(whole: bool)
    | DoFail(status: CallStatus)
    | DoDrain
    | DoClose

  function Step(m: Mux, a: Action): (m': Mux) {
    match a
    case DoStart(request, timeout) => Start(m, request, timeout).0
    case DoReturn(id) => if id in m.pending then Return(m, id) else m
    case DoDeliver(frame, number) => Deliver(m, frame, number)
    case DoGather => Gather(m)
    case DoWritten(whole) => Written(m, whole)
    case DoFail(status) => if status == Ok then m else Fail(m, status)
    case DoDrain => BeginDrain(m)
    case DoClose => Close(m)
  }

  lemma StepKeepsInv(m: Mux, a: Action)
    requires Inv(m)
    ensures Inv(Step(m, a))
  {
    hide Inv, Start, Return, Deliver, Gather, Written, Fail, BeginDrain, Close;
    match a
    case DoStart(request, timeout) => StartKeeps(m, request, timeout);
    case DoReturn(id) => if id in m.pending { ReturnKeeps(m, id); }
    case DoDeliver(frame, number) => DeliverKeeps(m, frame, number);
    case DoGather => GatherKeeps(m);
    case DoWritten(whole) => WrittenKeeps(m, whole);
    case DoFail(status) => if status != Ok { FailKeeps(m, status); }
    case DoDrain => BeginDrainKeeps(m);
    case DoClose => CloseKeeps(m);
  }

  function Run(m: Mux, actions: seq<Action>): (m': Mux)
    decreases |actions|
  {
    if actions == [] then m else Step(Run(m, actions[..|actions| - 1]), actions[|actions| - 1])
  }

  lemma RunNothing(m: Mux)
    ensures Run(m, []) == m
  {
  }

  lemma RunLast(m: Mux, actions: seq<Action>)
    requires actions != []
    ensures Run(m, actions) == Step(Run(m, actions[..|actions| - 1]), actions[|actions| - 1])
  {
    hide Step;
  }

  lemma Three(m: Mux, a: Action, b: Action, c: Action)
    ensures Run(m, [a, b, c]) == Step(Step(Step(m, a), b), c)
  {
    hide Step, Run;
    RunLast(m, [a, b, c]);
    assert [a, b, c][..2] == [a, b];
    RunLast(m, [a, b]);
    assert [a, b][..1] == [a];
    RunLast(m, [a]);
    assert [a][..0] == [];
    RunNothing(m);
  }

  lemma {:induction false} RunConcat(m: Mux, first: seq<Action>, second: seq<Action>)
    ensures Run(m, first + second) == Run(Run(m, first), second)
    decreases |second|
  {
    hide Step;
    if second == [] {
      assert first + second == first;
    } else {
      assert (first + second)[..|first + second| - 1] == first + second[..|second| - 1];
      RunConcat(m, first, second[..|second| - 1]);
    }
  }

  lemma Four(m: Mux, a: Action, b: Action, c: Action, d: Action)
    ensures Run(m, [a, b, c, d]) == Step(Step(Step(Step(m, a), b), c), d)
  {
    hide Step, Run;
    RunLast(m, [a, b, c, d]);
    assert [a, b, c, d][..3] == [a, b, c];
    Three(m, a, b, c);
  }

  ghost predicate Reachable(m: Mux) {
    exists maxPending: nat, maxBytes: nat, actions :: m == Run(Initial(maxPending, maxBytes), actions)
  }

  lemma InitialInv(maxPending: nat, maxBytes: nat)
    ensures Inv(Initial(maxPending, maxBytes))
  {
  }

  lemma {:induction false} RunKeepsInv(maxPending: nat, maxBytes: nat, actions: seq<Action>)
    ensures Inv(Run(Initial(maxPending, maxBytes), actions))
    decreases |actions|
  {
    if actions == [] {
      InitialInv(maxPending, maxBytes);
    } else {
      hide Inv, Step;
      RunKeepsInv(maxPending, maxBytes, actions[..|actions| - 1]);
      StepKeepsInv(Run(Initial(maxPending, maxBytes), actions[..|actions| - 1]), actions[|actions| - 1]);
    }
  }

  lemma ReachableInv(m: Mux)
    requires Reachable(m)
    ensures Inv(m)
  {
    hide Inv;
    var maxPending: nat, maxBytes: nat, actions :| m == Run(Initial(maxPending, maxBytes), actions);
    RunKeepsInv(maxPending, maxBytes, actions);
  }

  /**
   The byte counter is the size of what is queued; both limits hold; the queue and what left it are everything pushed,
   in order.
   */
  lemma AccountsBalance(m: Mux)
    requires Reachable(m)
    ensures m.outboundBytes == Total(m.outbound) <= m.maxBytes && |m.pending| <= m.maxPending
    ensures m.pushed == Outs(m.fates) + m.outbound
  {
    ReachableInv(m);
  }

  /** The bytes given to the socket encode the frames kept, in queue order, so the peer reads back those frames. */
  lemma PeerReadsWhatWasSent(m: Mux, limits: F.Limits)
    requires Reachable(m) && forall f :: f in Sent(m.fates) ==> F.WithinLimits(f, limits)
    ensures F.ParseAll(m.wire, limits).frames == Sent(m.fates)
  {
    ReachableInv(m);
    hide F.ParseAll;
    F.StreamRoundTrip(Sent(m.fates), [], limits);
    assert m.wire + [] == m.wire;
    F.EmptyParse(limits);
  }

  /** A cancellation is written only after the request it cancels. */
  lemma CancelFollowsRequest(m: Mux, i: nat)
    requires Reachable(m) && i < |m.fates| && m.fates[i].Kept? && m.fates[i].out.control
    ensures m.fates[i].out.frame.header.messageType == F.CANCEL
    ensures exists j :: 0 <= j < i && IsRequest(m.fates[j], m.fates[i].out.frame.header.requestId)
  {
    ReachableInv(m);
    assert OutOk(m.fates[..i], m.fates[i].out);
    var j :| 0 <= j < |m.fates[..i]| && IsRequest(m.fates[..i][j], m.fates[i].out.frame.header.requestId);
    assert m.fates[..i][j] == m.fates[j];
  }

  /** A successful result carries a response with the call's request id, whatever the peer sends. */
  lemma OwnResponse(m: Mux, i: nat)
    requires Reachable(m) && i < |m.results| && m.results[i].result.status == Ok
    ensures m.results[i].result.response.Some? && Answering(m.results[i].result.response.value, m.results[i].result.id)
  {
    ReachableInv(m);
  }

  /** A batch of more than 64 KiB is one frame. */
  lemma BigBatchIsOneFrame(m: Mux)
    requires Reachable(m) && m.batch == []
    ensures var m' := Gather(m); |m'.batch| <= BATCH_BYTES || Single(m')
  {
    ReachableInv(m);
    hide Inv;
    GatherKeeps(m);
  }
}
