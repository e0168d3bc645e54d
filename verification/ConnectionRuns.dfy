/**
 A connection from the bytes that arrive to the results of its calls: the decoder, the entries and their pool, the
 queue of encoded frames. Whatever the callers, the socket and the network do, it goes through a run of the state
 functions in which the responses are the frames of the bytes received, however those were cut up.
 */
module ConnectionRuns {
  import opened Bytes
  import opened Results
  import F = Frame
  import D = FrameDecoder
  import opened MultiplexedCalls
  import opened MultiplexedConnections

  /**
   What happens to a connection: a step of callers, writer or owner; bytes that arrive in the reader's buffer; the
   reader taking one frame, which the peer sent in answer to call `number`.
   */
  datatype Event = Acts(action: Action) | Arrives(chunk: seq<Byte>) | Reads(number: nat)

  datatype ReaderPhase = Listening | Reading | Stopped

  datatype Reader = Reader(received: seq<Byte>, taken: nat, phase: ReaderPhase)

  /** What an event means for the reader, by the reference parser, and which step of the connection it is. */
  function Interpret(r: Reader, e: Event): (o: (Reader, seq<Action>)) {
    match e
    case Acts(a) => (r, if a.DoDeliver? then [] else [a])
    case Arrives(chunk) =>
      if r.phase == Listening && 0 < |chunk| <= D.READ_SIZE
      then (r.(received := r.received + chunk, phase := Reading), [])
      else (r, [])
    case Reads(number) =>
      if r.phase != Reading then (r, [])
      else
        var parse := F.ParseAll(r.received, F.DEFAULT_LIMITS);
        if r.taken < |parse.frames| then
          var frame := parse.frames[r.taken];
          (r.(taken := r.taken + 1, phase := if frame.header.messageType == F.RESPONSE then Reading else Stopped),
           [DoDeliver(frame, number)])
        else if parse.status == F.Incomplete then (r.(phase := Listening), [])
        else (r.(phase := Stopped), [DoFail(ProtocolError)])
  }

  function Interpreted(script: seq<Event>): (o: (Reader, seq<Action>)) {
    if script == [] then (Reader([], 0, Listening), [])
    else
      var (r, actions) := Interpreted(script[..|script| - 1]);
      var (r', more) := Interpret(r, script[|script| - 1]);
      (r', actions + more)
  }

  /** The frames given to the connection, in order. */
  ghost function Delivered(actions: seq<Action>): (frames: seq<F.Frame>) {
    if actions == [] then []
    else
      var last := actions[|actions| - 1];
      Delivered(actions[..|actions| - 1]) + if last.DoDeliver? then [last.frame] else []
  }

  lemma InterpretDelivers(r: Reader, e: Event)
    requires r.taken <= |F.ParseAll(r.received, F.DEFAULT_LIMITS).frames|
    ensures var (r', more) := Interpret(r, e);
      var frames := F.ParseAll(r'.received, F.DEFAULT_LIMITS).frames;
      && r'.taken <= |frames|
      && frames[..r'.taken] == F.ParseAll(r.received, F.DEFAULT_LIMITS).frames[..r.taken] + Delivered(more)
  {
    hide F.ParseAll;
    var (r', more) := Interpret(r, e);
    if e.Arrives? { F.ParseMonotone(r.received, e.chunk, F.DEFAULT_LIMITS); }
    if more != [] { assert more == [more[0]] && more[..0] == []; }
  }

  lemma DeliveredMore(actions: seq<Action>, more: seq<Action>)
    requires |more| <= 1
    ensures Delivered(actions + more) == Delivered(actions) + Delivered(more)
  {
    if more == [] {
      assert actions + more == actions;
    } else {
      assert (actions + more)[..|actions|] == actions && more[..0] == [];
    }
  }

  /** What the connection is given are the first frames of all bytes received, however they were cut up on the way. */
  lemma {:induction false} DeliversInOrder(script: seq<Event>)
    ensures var (r, actions) := Interpreted(script);
      var frames := F.ParseAll(r.received, F.DEFAULT_LIMITS).frames;
      r.taken <= |frames| && Delivered(actions) == frames[..r.taken]
  {
    hide F.ParseAll, Interpret;
    if script != [] {
      var (r, actions) := Interpreted(script[..|script| - 1]);
      DeliversInOrder(script[..|script| - 1]);
      InterpretDelivers(r, script[|script| - 1]);
      AtMostOne(r, script[|script| - 1]);
      DeliveredMore(actions, Interpret(r, script[|script| - 1]).1);
    }
  }

  lemma AtMostOne(r: Reader, e: Event)
    ensures |Interpret(r, e).1| <= 1
  {
    hide F.ParseAll;
  }

  ghost function ResultsOf(outcomes: seq<Outcome>): (results: seq<CallResult>)
    ensures |results| == |outcomes| && forall i :: 0 <= i < |outcomes| ==> results[i] == outcomes[i].result
  {
    if outcomes == [] then [] else ResultsOf(outcomes[..|outcomes| - 1]) + [outcomes[|outcomes| - 1].result]
  }

  // ---------------------------------------------------------------------------------------------
  // Steps
  // ---------------------------------------------------------------------------------------------

  lemma {:induction false} FillResults(m: Mux)
    ensures Fill(m).results == m.results
    decreases |m.outbound|
  {
    hide BytesOf, Finished;
    if More(m) { FillResults(Pop(m)); }
  }

  /** Only a caller that returns adds a result. */
  lemma StepResults(m: Mux, a: Action)
    requires !a.DoReturn?
    ensures Step(m, a).results == m.results
  {
    hide BytesOf, F.Encode, Fill, Finished;
    if a.DoGather? { FillResults(m); }
  }

  lemma ReturnResults(m: Mux, id: U64)
    requires id in m.pending
    ensures |Return(m, id).results| == |m.results| + 1 && Return(m, id).results[..|m.results|] == m.results
  {
    hide BytesOf;
  }

  /** One step; `callers` are the pointers that the waiting callers keep. */
  method Perform(c: MultiplexedConnection, a: Action, callers: map<U64, PendingCall>)
    returns (callers': map<U64, PendingCall>, result: Option<CallResult>)
    requires c.Valid() && callers == c.pending
    modifies c.Repr()
    ensures c.Valid() && callers' == c.pending && fresh(c.Repr() - old(c.Repr()))
    ensures c.State() == Step(old(c.State()), a)
    ensures result.Some? <==> a.DoReturn? && a.id in callers
    ensures result.Some? ==> |c.results| > 0 && c.results[|c.results| - 1].result == result.value
  {
    hide MultiplexedConnection.Valid, Views, Start, Return, Deliver, Gather, Written, Fail, BeginDrain, Close;
    callers', result := callers, None;
    c.SameKeys();
    match a
    case DoStart(request, timeout) =>
      var answer, entry := c.Call(request, timeout);
      if answer.Waiting? { callers' := callers[answer.id := entry]; }
    case DoReturn(id) =>
      if id in callers {
        var got := c.Return(id, callers[id]);
        callers', result := callers - {id}, Some(got);
      }
    case DoDeliver(frame, number) => c.Deliver(frame, number);
    case DoGather => c.GatherBatch();
    case DoWritten(whole) => c.Written(whole);
    case DoFail(status) => if status != Ok { c.FailConnection(status); }
    case DoDrain => c.BeginDrain();
    case DoClose => c.Close();
  }

  /** The decoder holds what the reader has received and taken, and has room for more whenever the reader listens. */
  ghost predicate Tracks(d: D.Decoder, r: Reader)
    reads d, d.buffer
  {
    && d.Valid() && d.limits == F.DEFAULT_LIMITS && d.preparedSize == 0
    && d.stream == r.received && |d.produced| == r.taken
    && (r.phase == Listening ==> D.Drained(d)) && (r.phase == Reading ==> d.state != D.Failed)
  }

  method Listen(d: D.Decoder, chunk: seq<Byte>, ghost r: Reader)
    requires Tracks(d, r) && r.phase == Listening && 0 < |chunk| <= D.READ_SIZE
    modifies d, d.buffer
    ensures Tracks(d, Interpret(r, Arrives(chunk)).0) && (d.buffer == old(d.buffer) || fresh(d.buffer))
  {
    hide D.Decoder.Valid, F.ParseAll;
    assert d.HasRoom(D.READ_SIZE) by { Roomy(d); }
    var status := D.Receive(d, chunk);
    assert status == D.NeedMore;
  }

  lemma Roomy(d: D.Decoder)
    requires d.Valid() && D.Drained(d)
    ensures d.Layout() && d.HasRoom(D.READ_SIZE)
  {
  }

  method Take(d: D.Decoder, ghost number: nat, ghost r: Reader) returns (frame: Option<F.Frame>, phase: ReaderPhase)
    requires Tracks(d, r) && r.phase == Reading
    modifies d
    ensures d.buffer == old(d.buffer)
    ensures var (r', actions) := Interpret(r, Reads(number));
      && Tracks(d, r') && phase == r'.phase
      && (frame.Some? ==> actions == [DoDeliver(frame.value, number)])
      && (frame.None? ==> actions == if phase == Stopped then [DoFail(ProtocolError)] else [])
  {
    hide F.ParseAll, D.Decoder.Unread, D.Decoder.Layout;
    var status;
    status, frame := d.NextView();
    d.ProducedIsPrefix();
    match status
    case FrameReady => phase := if frame.value.header.messageType == F.RESPONSE then Reading else Stopped;
    case NeedMore => phase := Listening;
    case ProtocolError => phase := Stopped;
  }

  // ---------------------------------------------------------------------------------------------
  // Every run
  // ---------------------------------------------------------------------------------------------

  /** The connection after `actions`, with the results so far. */
  ghost predicate Follows(c: MultiplexedConnection, start: Mux, actions: seq<Action>, callers: map<U64, PendingCall>,
                          results: seq<CallResult>)
    reads c, c.pending.Values, c.pool
  {
    c.Valid() && callers == c.pending && c.State() == Run(start, actions) && results == ResultsOf(c.results)
  }

  method Advance(c: MultiplexedConnection, a: Action, callers: map<U64, PendingCall>, results: seq<CallResult>,
                 ghost start: Mux, ghost actions: seq<Action>)
    returns (callers': map<U64, PendingCall>, results': seq<CallResult>)
    requires Follows(c, start, actions, callers, results)
    modifies c.Repr()
    ensures Follows(c, start, actions + [a], callers', results') && fresh(c.Repr() - old(c.Repr()))
  {
    hide MultiplexedConnection.Valid, Views, Step;
    RunLast(start, actions + [a]);
    assert (actions + [a])[..|actions|] == actions;
    ghost var before := c.State();
    c.SameKeys();
    var result;
    callers', result := Perform(c, a, callers);
    results' := if result.Some? then results + [result.value] else results;
    NewResults(before, a, results, results');
  }

  lemma NewResults(m: Mux, a: Action, results: seq<CallResult>, results': seq<CallResult>)
    requires results == ResultsOf(m.results)
    requires var m' := Step(m, a);
      if a.DoReturn? && a.id in m.pending
      then |m'.results| > 0 && results' == results + [m'.results[|m'.results| - 1].result]
      else results' == results
    ensures results' == ResultsOf(Step(m, a).results)
  {
    hide Start, Return, Deliver, Gather, Written, Fail, BeginDrain, Close;
    if a.DoReturn? && a.id in m.pending {
      ReturnResults(m, a.id);
    } else if !a.DoReturn? {
      StepResults(m, a);
    }
  }

  /**
   For every script of events, the bytes written and the results of the calls are those of the state functions, run on
   the steps that the reference parser makes of the script.
   */
  method Converse(maxPending: nat, maxBytes: nat, script: seq<Event>)
    returns (wire: seq<Byte>, results: seq<CallResult>)
    ensures var m := Run(Initial(maxPending, maxBytes), Interpreted(script).1);
      wire == m.wire && results == ResultsOf(m.results)
  {
    hide Run, Initial, Interpret, Interpreted, Tracks, Follows;
    var c, d := Open(maxPending, maxBytes);
    ghost var start, r, actions: seq<Action> := Initial(maxPending, maxBytes), Reader([], 0, Listening), [];
    NothingInterpreted();
    var callers: map<U64, PendingCall>, phase := map[], Listening;
    results := [];
    var i := 0;
    while i < |script|
      invariant 0 <= i <= |script| && Interpreted(script[..i]) == (r, actions)
      invariant fresh(c.Repr()) && fresh(d) && fresh(d.buffer)
      invariant Tracks(d, r) && phase == r.phase && Follows(c, start, actions, callers, results)
    {
      InterpretedNext(script, i);
      phase, callers, results := Handle(c, d, script[i], phase, callers, results, start, r, actions);
      r, actions := Interpret(r, script[i]).0, actions + Interpret(r, script[i]).1;
      i := i + 1;
    }
    assert script[..i] == script;
    Outputs(c, start, actions, callers, results);
    wire := c.wire;
  }

  lemma NothingInterpreted()
    ensures Interpreted([]) == (Reader([], 0, Listening), [])
  {
  }

  lemma InterpretedNext(script: seq<Event>, i: nat)
    requires i < |script|
    ensures var (r, actions) := Interpreted(script[..i]);
      Interpreted(script[..i + 1]) == (Interpret(r, script[i]).0, actions + Interpret(r, script[i]).1)
  {
    hide Interpret;
    assert script[..i + 1][..i] == script[..i];
  }

  method Open(maxPending: nat, maxBytes: nat) returns (c: MultiplexedConnection, d: D.Decoder)
    ensures fresh(c.Repr()) && fresh(d) && fresh(d.buffer)
    ensures Follows(c, Initial(maxPending, maxBytes), [], map[], []) && Tracks(d, Reader([], 0, Listening))
  {
    hide Run, MultiplexedConnection.Valid, Views, D.Decoder.Valid, Tracks, Follows;
    c := new MultiplexedConnection(maxPending, maxBytes);
    d := new D.Decoder(F.DEFAULT_LIMITS);
    Begins(c, d, Initial(maxPending, maxBytes));
  }

  lemma Outputs(c: MultiplexedConnection, start: Mux, actions: seq<Action>, callers: map<U64, PendingCall>,
                results: seq<CallResult>)
    requires Follows(c, start, actions, callers, results)
    ensures c.wire == Run(start, actions).wire && results == ResultsOf(Run(start, actions).results)
  {
    hide Run, Views;
  }

  method Handle(c: MultiplexedConnection, d: D.Decoder, e: Event, phase: ReaderPhase, callers: map<U64, PendingCall>,
                results: seq<CallResult>, ghost start: Mux, ghost r: Reader, ghost actions: seq<Action>)
    returns (phase': ReaderPhase, callers': map<U64, PendingCall>, results': seq<CallResult>)
    requires Tracks(d, r) && phase == r.phase && Follows(c, start, actions, callers, results)
    modifies c.Repr(), d, d.buffer
    ensures var (r', more) := Interpret(r, e);
      Tracks(d, r') && phase' == r'.phase && Follows(c, start, actions + more, callers', results')
    ensures fresh(c.Repr() - old(c.Repr())) && (d.buffer == old(d.buffer) || fresh(d.buffer))
  {
    hide Run, Tracks, Follows, F.ParseAll;
    phase', callers', results' := phase, callers, results;
    assert actions + [] == actions;
    match e
    case Acts(a) =>
      if !a.DoDeliver? {
        callers', results' := Advance(c, a, callers, results, start, actions);
      }
    case Arrives(chunk) =>
      if phase == Listening && 0 < |chunk| <= D.READ_SIZE {
        Listen(d, chunk, r);
        phase' := Reading;
      }
    case Reads(number) =>
      if phase == Reading {
        var frame;
        frame, phase' := Take(d, number, r);
        if frame.Some? {
          callers', results' := Advance(c, DoDeliver(frame.value, number), callers, results, start, actions);
        } else if phase' == Stopped {
          callers', results' := Advance(c, DoFail(ProtocolError), callers, results, start, actions);
        }
      }
  }

  lemma Begins(c: MultiplexedConnection, d: D.Decoder, start: Mux)
    requires c.Valid() && c.pending == map[] && c.State() == start && start.results == []
    requires d.Valid() && d.limits == F.DEFAULT_LIMITS && D.Drained(d) && d.stream == [] && d.produced == []
    ensures Follows(c, start, [], map[], []) && Tracks(d, Reader([], 0, Listening))
  {
  }
}
