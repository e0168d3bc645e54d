/**
 Which call a frame, a response and a result belong to. The connection matches by request id, and a caller may choose
 an id that an earlier call has used. What holds for every run is said per call; then exactly when a reused id lets one
 call's frame or answer pass for another's.
 */
module CallIdentities {
  import opened Bytes
  import opened Results
  import F = Frame
  import opened MultiplexedCalls

  // ---------------------------------------------------------------------------------------------
  // Every accepted call is live or has returned, and frames know their call
  // ---------------------------------------------------------------------------------------------

  ghost predicate Numbers(m: Mux) {
    && (forall id :: id in m.pending ==> Registered(m, m.pending[id].number, id) && !Returned(m, m.pending[id].number))
    && (forall i :: 0 <= i < |m.results| ==> Registered(m, m.results[i].number, m.results[i].result.id))
    && (forall i, j :: 0 <= i < j < |m.results| ==> m.results[i].number != m.results[j].number)
    && (forall n :: 0 <= n < |m.calls| ==> Live(m, n) || Returned(m, n))
  }

  ghost predicate Registered(m: Mux, n: nat, id: U64) {
    n < |m.calls| && m.calls[n] == id
  }

  ghost predicate Tagged(m: Mux, out: Out) {
    Registered(m, out.number, out.frame.header.requestId)
  }

  ghost predicate FateOk(m: Mux, f: Fate) {
    Tagged(m, f.out) && (f.Dropped? ==> Finished(m, f.out.number))
  }

  ghost predicate Tags(m: Mux) {
    && (forall i :: 0 <= i < |m.outbound| ==> Tagged(m, m.outbound[i]))
    && (forall i :: 0 <= i < |m.fates| ==> FateOk(m, m.fates[i]))
  }

  /** Calls go on; those that are completed stay as they are. */
  ghost predicate Proceeds(m: Mux, m': Mux) {
    && m'.calls == m.calls && m'.results == m.results && m'.pending.Keys == m.pending.Keys
    && forall id :: id in m.pending ==>
         m'.pending[id].number == m.pending[id].number && (m.pending[id].completed ==> m'.pending[id] == m.pending[id])
  }

  /** Queued frames were queued before or are cancellations, and frames that left say why. */
  ghost predicate Traced(m: Mux, m': Mux) {
    && (forall i :: 0 <= i < |m'.outbound| ==>
          m'.outbound[i] in m.outbound || (m'.outbound[i].control && Tagged(m', m'.outbound[i])))
    && (forall i :: 0 <= i < |m'.fates| ==> m'.fates[i] in m.fates || FateOk(m', m'.fates[i]))
  }

  lemma ProceedsNumbers(m: Mux, m': Mux)
    requires Numbers(m) && Proceeds(m, m')
    ensures Numbers(m')
  {
    assert forall n: nat :: Returned(m', n) <==> Returned(m, n);
    forall n | 0 <= n < |m'.calls| ensures Live(m', n) || Returned(m', n) {
      assert Live(m, n) || Returned(m, n);
    }
  }

  lemma StillFinished(m: Mux, m': Mux, n: nat)
    requires Finished(m, n) && Proceeds(m, m')
    ensures Finished(m', n)
  {
  }

  lemma ProceedsTags(m: Mux, m': Mux)
    requires Tags(m) && Proceeds(m, m') && Traced(m, m')
    ensures Tags(m')
  {
    forall i | 0 <= i < |m'.fates| ensures FateOk(m', m'.fates[i]) {
      if m'.fates[i] in m.fates {
        assert FateOk(m, m'.fates[i]);
        if m'.fates[i].Dropped? { StillFinished(m, m', m'.fates[i].out.number); }
      }
    }
  }

  lemma ProceedsKeeps(m: Mux, m': Mux)
    requires Numbers(m) && Tags(m) && Proceeds(m, m') && Traced(m, m')
    ensures Numbers(m') && Tags(m')
  {
    hide *;
    ProceedsNumbers(m, m');
    ProceedsTags(m, m');
  }

  lemma ProceedsOn(m: Mux, m1: Mux, m2: Mux)
    requires Proceeds(m, m1) && Proceeds(m1, m2)
    ensures Proceeds(m, m2)
  {
  }

  // ---------------------------------------------------------------------------------------------
  // Steps of the connection
  // ---------------------------------------------------------------------------------------------

  lemma EndProceeds(m: Mux, phase: Phase, status: CallStatus)
    ensures Proceeds(m, CompleteAll(Clear(m), status).(phase := phase))
  {
  }

  lemma EndTraced(m: Mux, phase: Phase, status: CallStatus)
    requires Tags(m)
    ensures Traced(m, CompleteAll(Clear(m), status).(phase := phase))
  {
    var m' := CompleteAll(Clear(m), status).(phase := phase);
    forall i | 0 <= i < |m'.fates| ensures m'.fates[i] in m.fates || FateOk(m', m'.fates[i]) {
      if i >= |m.fates| {
        assert m'.fates[i] == Lost(m.outbound[i - |m.fates|]);
        assert Tagged(m, m.outbound[i - |m.fates|]);
      }
    }
  }

  lemma EndKeeps(m: Mux, phase: Phase, status: CallStatus)
    requires Numbers(m) && Tags(m)
    ensures var m' := CompleteAll(Clear(m), status).(phase := phase); Proceeds(m, m') && Numbers(m') && Tags(m')
  {
    hide *;
    EndProceeds(m, phase, status);
    EndTraced(m, phase, status);
    ProceedsKeeps(m, CompleteAll(Clear(m), status).(phase := phase));
  }

  lemma Ends(m: Mux, status: CallStatus)
    ensures Close(m) == m || Close(m) == CompleteAll(Clear(m), ConnectionClosed).(phase := Closed)
    ensures Fail(m, status) == m || Fail(m, status) == CompleteAll(Clear(m), status).(phase := Closed)
    ensures MaybeFinishDrain(m) == m || MaybeFinishDrain(m) == Close(m)
  {
    hide Clear;
  }

  lemma Same(m: Mux)
    ensures Proceeds(m, m)
  {
  }

  lemma CloseKeepsTags(m: Mux)
    requires Numbers(m) && Tags(m)
    ensures Proceeds(m, Close(m)) && Numbers(Close(m)) && Tags(Close(m))
    ensures var m' := MaybeFinishDrain(m); Proceeds(m, m') && Numbers(m') && Tags(m')
  {
    hide *;
    Ends(m, Ok);
    Same(m);
    EndKeeps(m, Closed, ConnectionClosed);
  }

  lemma FailKeepsTags(m: Mux, status: CallStatus)
    requires Numbers(m) && Tags(m)
    ensures Proceeds(m, Fail(m, status)) && Numbers(Fail(m, status)) && Tags(Fail(m, status))
  {
    hide *;
    Ends(m, status);
    Same(m);
    EndKeeps(m, Closed, status);
  }

  lemma PopProceeds(m: Mux)
    requires m.outbound != []
    ensures Proceeds(m, Pop(m))
  {
    hide BytesOf, Finished;
  }

  /** A frame is dropped because the call under its id has finished; then its own call has, or has even returned. */
  lemma PopTraced(m: Mux)
    requires Numbers(m) && Tags(m) && m.outbound != []
    ensures Traced(m, Pop(m))
  {
    hide BytesOf;
    var m', out := Pop(m), m.outbound[0];
    assert Tagged(m, out) && (Live(m, out.number) || Returned(m, out.number));
    var fate := m'.fates[|m.fates|];
    assert m'.fates == m.fates + [fate] && fate.out == out;
    PopProceeds(m);
    if fate.Dropped? {
      assert Finished(m, out.number);
      StillFinished(m, m', out.number);
    }
    assert FateOk(m', fate);
  }

  lemma PopKeepsTags(m: Mux)
    requires Numbers(m) && Tags(m) && m.outbound != []
    ensures Proceeds(m, Pop(m)) && Numbers(Pop(m)) && Tags(Pop(m))
  {
    hide *;
    PopProceeds(m);
    PopTraced(m);
    ProceedsKeeps(m, Pop(m));
  }

  lemma {:induction false} FillKeepsTags(m: Mux)
    requires Numbers(m) && Tags(m)
    ensures Proceeds(m, Fill(m)) && Numbers(Fill(m)) && Tags(Fill(m))
    decreases |m.outbound|
  {
    hide Numbers, Tags, Proceeds, BytesOf, Pop;
    if More(m) {
      PopKeepsTags(m);
      assert |Pop(m).outbound| < |m.outbound| by { PopShortens(m); }
      FillKeepsTags(Pop(m));
      ProceedsOn(m, Pop(m), Fill(m));
    } else {
      Same(m);
    }
  }

  lemma PopShortens(m: Mux)
    requires m.outbound != []
    ensures Pop(m).outbound == m.outbound[1..]
  {
    hide BytesOf, Finished;
  }

  /** Only calls, phase, batch and what has been answered change, and calls only go on. */
  lemma PlainKeepsTags(m: Mux, m': Mux)
    requires Numbers(m) && Tags(m) && Proceeds(m, m') && m'.outbound == m.outbound && m'.fates == m.fates
    ensures Numbers(m') && Tags(m')
  {
    ProceedsKeeps(m, m');
  }

  lemma GatherKeepsTags(m: Mux)
    requires Numbers(m) && Tags(m)
    ensures Proceeds(m, Gather(m)) && Numbers(Gather(m)) && Tags(Gather(m))
  {
    hide Numbers, Tags, Proceeds, Fill;
    Same(m);
    FillKeepsTags(m);
  }

  lemma DeliverKeepsTags(m: Mux, frame: F.Frame, number: nat)
    requires Numbers(m) && Tags(m)
    ensures var m' := Deliver(m, frame, number); Proceeds(m, m') && Numbers(m') && Tags(m')
  {
    var id, heard := frame.header.requestId, m.(answered := m.answered + {number});
    assert Proceeds(m, heard);
    PlainKeepsTags(m, heard);
    Same(m);
    FailKeepsTags(m, ProtocolError);
    if id in m.pending && !m.pending[id].completed {
      var done := heard.(pending := m.pending[id := Answered(m.pending[id], frame, number)]);
      assert Proceeds(m, done);
      PlainKeepsTags(m, done);
      hide Numbers, Tags, Proceeds, MaybeFinishDrain, Fail;
      CloseKeepsTags(done);
      ProceedsOn(m, done, MaybeFinishDrain(done));
    }
  }

  lemma WrittenKeepsTags(m: Mux, whole: bool)
    requires Numbers(m) && Tags(m)
    ensures var m' := Written(m, whole); Proceeds(m, m') && Numbers(m') && Tags(m')
  {
    hide Numbers, Tags, MaybeFinishDrain, Fail;
    Same(m);
    CloseKeepsTags(m);
    FailKeepsTags(m, ConnectionClosed);
    var ended := if whole then MaybeFinishDrain(m) else Fail(m, ConnectionClosed);
    PlainKeepsTags(ended, ended.(batch := []));
  }

  lemma DrainKeepsTags(m: Mux)
    requires Numbers(m) && Tags(m)
    ensures var m' := BeginDrain(m); Proceeds(m, m') && Numbers(m') && Tags(m')
  {
    Same(m);
    var closing := m.(phase := Closing);
    assert Proceeds(m, closing);
    PlainKeepsTags(m, closing);
    hide Numbers, Tags, Proceeds, MaybeFinishDrain;
    CloseKeepsTags(closing);
    ProceedsOn(m, closing, MaybeFinishDrain(closing));
  }

  lemma CancelKeepsTags(m: Mux, id: U64, number: nat)
    requires Numbers(m) && Tags(m) && Registered(m, number, id)
    ensures var m' := QueueCancel(m, id, number); Proceeds(m, m') && Numbers(m') && Tags(m')
  {
    hide BytesOf, Numbers;
    var m' := QueueCancel(m, id, number);
    assert Tagged(m', Out(CancelFrame(id), true, number));
    ProceedsKeeps(m, m');
  }

  lemma ExpireKeepsTags(m: Mux, id: U64)
    requires Numbers(m) && Tags(m) && id in m.pending && !m.pending[id].completed
    ensures var m' := Expire(m, id); Proceeds(m, m') && Numbers(m') && Tags(m')
  {
    var call := m.pending[id];
    var marked := m.(pending := m.pending[id := call.(completed := true, status := TimedOut)]);
    assert Proceeds(m, marked) && Registered(m, call.number, id);
    PlainKeepsTags(m, marked);
    hide Numbers, Tags, Proceeds, MaybeFinishDrain, QueueCancel;
    CancelKeepsTags(marked, id, call.number);
    var queued := if call.sent then QueueCancel(marked, id, call.number) else marked;
    assert Proceeds(m, queued) by { if call.sent { ProceedsOn(m, marked, queued); } }
    CloseKeepsTags(queued);
    ProceedsOn(m, queued, MaybeFinishDrain(queued));
  }

  // ---------------------------------------------------------------------------------------------
  // Steps of callers
  // ---------------------------------------------------------------------------------------------

  lemma LeaveReturned(m: Mux, id: U64, n: nat)
    requires id in m.pending
    ensures Returned(Leave(m, id), n) <==> Returned(m, n) || n == m.pending[id].number
  {
    var m' := Leave(m, id);
    assert m'.results[|m.results|].number == m.pending[id].number;
    if Returned(m, n) {
      var i :| 0 <= i < |m.results| && m.results[i].number == n;
      assert m'.results[i] == m.results[i];
    }
  }

  lemma LeaveNumbers(m: Mux, id: U64)
    requires Numbers(m) && id in m.pending
    ensures Numbers(Leave(m, id))
  {
    hide Returned;
    var m' := Leave(m, id);
    forall x | x in m'.pending ensures Registered(m', m'.pending[x].number, x) && !Returned(m', m'.pending[x].number) {
      LeaveReturned(m, id, m.pending[x].number);
    }
    forall n | 0 <= n < |m'.calls| ensures Live(m', n) || Returned(m', n) {
      LeaveReturned(m, id, n);
      assert Live(m, n) || Returned(m, n);
    }
    forall i, j | 0 <= i < j < |m'.results| ensures m'.results[i].number != m'.results[j].number {
      if j == |m.results| && m'.results[i].number == m.pending[id].number {
        AmongReturned(m, i);
      }
    }
  }

  lemma AmongReturned(m: Mux, i: nat)
    requires i < |m.results|
    ensures Returned(m, m.results[i].number)
  {
  }

  lemma LeaveTags(m: Mux, id: U64)
    requires Tags(m) && id in m.pending
    ensures Tags(Leave(m, id))
  {
    hide Returned;
    var m' := Leave(m, id);
    forall i | 0 <= i < |m'.fates| ensures FateOk(m', m'.fates[i]) {
      assert FateOk(m, m.fates[i]);
      LeaveReturned(m, id, m.fates[i].out.number);
    }
  }

  lemma ReturnShape(m: Mux, id: U64)
    requires Numbers(m) && Tags(m) && id in m.pending
    ensures var settled := if m.pending[id].completed then m else Expire(m, id);
      && Proceeds(m, settled) && Numbers(settled) && Tags(settled)
      && id in settled.pending && Return(m, id) == Leave(settled, id)
  {
    hide Numbers, Tags, Expire, Leave;
    Same(m);
    if !m.pending[id].completed { ExpireKeepsTags(m, id); }
  }

  lemma ReturnKeepsTags(m: Mux, id: U64)
    requires Numbers(m) && Tags(m) && id in m.pending
    ensures Numbers(Return(m, id)) && Tags(Return(m, id))
  {
    hide *;
    ReturnShape(m, id);
    var settled := if m.pending[id].completed then m else Expire(m, id);
    LeaveNumbers(settled, id);
    LeaveTags(settled, id);
  }

  lemma AcceptNumbers(m: Mux, id: U64)
    requires Numbers(m) && id !in m.pending
    ensures Numbers(Accept(m, id))
  {
    var m' := Accept(m, id);
    assert forall n: nat :: Returned(m', n) <==> Returned(m, n);
    assert !Returned(m, |m.calls|);
    forall n | 0 <= n < |m'.calls| ensures Live(m', n) || Returned(m', n) {
      if n < |m.calls| {
        assert Live(m, n) || Returned(m, n);
        assert m'.calls[n] == m.calls[n];
      }
    }
  }

  lemma AcceptTags(m: Mux, id: U64)
    requires Tags(m) && Numbers(m) && id !in m.pending
    ensures Tags(Accept(m, id))
  {
    var m' := Accept(m, id);
    assert forall n: nat :: Returned(m', n) <==> Returned(m, n);
    forall i | 0 <= i < |m'.fates| ensures FateOk(m', m'.fates[i]) {
      assert FateOk(m, m.fates[i]);
    }
  }

  lemma PushKeepsTags(m: Mux, out: Out)
    requires Numbers(m) && Tags(m) && Tagged(m, out)
    ensures Numbers(Push(m, out)) && Tags(Push(m, out))
  {
    hide BytesOf, Numbers;
    var m' := Push(m, out);
    assert Proceeds(m, m');
    ProceedsNumbers(m, m');
    forall i | 0 <= i < |m'.fates| ensures FateOk(m', m'.fates[i]) { assert FateOk(m, m.fates[i]); }
  }

  lemma EnqueueKeepsTags(m: Mux, id: U64, frame: F.Frame)
    requires Numbers(m) && Tags(m) && frame.header.requestId == id
    ensures var m' := Enqueue(m, id, frame).0; Numbers(m') && Tags(m')
  {
    hide Numbers, Tags, BytesOf, F.Encode, Push;
    if Enqueue(m, id, frame).1.Waiting? {
      AcceptNumbers(m, id);
      AcceptTags(m, id);
      PushKeepsTags(Accept(m, id), Out(frame, false, |m.calls|));
    }
  }

  lemma StartKeepsTags(m: Mux, request: F.Frame, timeout: nat)
    requires Numbers(m) && Tags(m)
    ensures var m' := Start(m, request, timeout).0; Numbers(m') && Tags(m')
  {
    var counted := m.(nextId := AfterId(m.nextId));
    assert Proceeds(m, counted);
    PlainKeepsTags(m, counted);
    hide Numbers, Tags, Enqueue;
    var unnumbered := request.header.requestId == 0;
    var id := if unnumbered then m.nextId else request.header.requestId;
    EnqueueKeepsTags(if unnumbered then counted else m, id, request.(header := request.header.(requestId := id)));
  }

  // ---------------------------------------------------------------------------------------------
  // Every run
  // ---------------------------------------------------------------------------------------------

  lemma StepKeepsTags(m: Mux, a: Action)
    requires Numbers(m) && Tags(m)
    ensures Numbers(Step(m, a)) && Tags(Step(m, a))
    ensures !a.DoStart? && !a.DoReturn? ==> Proceeds(m, Step(m, a))
  {
    hide Numbers, Tags, Proceeds, Start, Return, Deliver, Gather, Written, Fail, BeginDrain, Close;
    Same(m);
    match a
    case DoStart(request, timeout) => StartKeepsTags(m, request, timeout);
    case DoReturn(id) => if id in m.pending { ReturnKeepsTags(m, id); }
    case DoDeliver(frame, number) => DeliverKeepsTags(m, frame, number);
    case DoGather => GatherKeepsTags(m);
    case DoWritten(whole) => WrittenKeepsTags(m, whole);
    case DoFail(status) => FailKeepsTags(m, status);
    case DoDrain => DrainKeepsTags(m);
    case DoClose => CloseKeepsTags(m);
  }

  lemma {:induction false} RunKeepsTags(m: Mux, actions: seq<Action>)
    requires Numbers(m) && Tags(m)
    ensures Numbers(Run(m, actions)) && Tags(Run(m, actions))
    decreases |actions|
  {
    if actions != [] {
      hide Numbers, Tags, Step;
      RunKeepsTags(m, actions[..|actions| - 1]);
      StepKeepsTags(Run(m, actions[..|actions| - 1]), actions[|actions| - 1]);
    }
  }

  lemma ReachableTags(m: Mux)
    requires Reachable(m)
    ensures Numbers(m) && Tags(m)
  {
    var maxPending: nat, maxBytes: nat, actions :| m == Run(Initial(maxPending, maxBytes), actions);
    RunKeepsTags(Initial(maxPending, maxBytes), actions);
  }

  /** Every accepted call is waiting or has returned, never both, and returns at most once. */
  lemma CallsReturnOnce(m: Mux, n: nat)
    requires Reachable(m) && n < |m.calls|
    ensures Live(m, n) <==> !Returned(m, n)
    ensures forall i, j :: 0 <= i < j < |m.results| ==> m.results[i].number != m.results[j].number
  {
    ReachableTags(m);
  }

  /** A frame is dropped only if the very call it belongs to has finished, though only ids are compared. */
  lemma OnlyFinishedDropped(m: Mux, i: nat)
    requires Reachable(m) && i < |m.fates| && m.fates[i].Dropped?
    ensures Finished(m, m.fates[i].out.number)
  {
    ReachableTags(m);
    assert FateOk(m, m.fates[i]);
  }

  /** Call `n` has ended as `c` says. */
  ghost predicate EndedAs(m: Mux, n: nat, c: Call) {
    || (Live(m, n) && m.pending[m.calls[n]] == c)
    || (n < |m.calls| && Outcome(n, c.answers, CallResult(m.calls[n], c.status, c.response)) in m.results)
  }

  lemma StepEndedAs(m: Mux, a: Action, n: nat, c: Call)
    requires Numbers(m) && Tags(m) && EndedAs(m, n, c) && c.completed && c.number == n
    ensures EndedAs(Step(m, a), n, c)
  {
    hide Numbers, Tags, Start, Return, Deliver, Gather, Written, Fail, BeginDrain, Close;
    StepKeepsTags(m, a);
    if a.DoStart? {
      StartEndedAs(m, a.request, a.timeout, n, c);
    } else if a.DoReturn? && a.id in m.pending {
      ReturnEndedAs(m, a.id, n, c);
    }
  }

  lemma StartEndedAs(m: Mux, request: F.Frame, timeout: nat, n: nat, c: Call)
    requires EndedAs(m, n, c)
    ensures EndedAs(Start(m, request, timeout).0, n, c)
  {
    hide BytesOf, F.Encode;
  }

  lemma ReturnEndedAs(m: Mux, id: U64, n: nat, c: Call)
    requires Numbers(m) && Tags(m) && id in m.pending && EndedAs(m, n, c) && c.completed && c.number == n
    ensures EndedAs(Return(m, id), n, c)
  {
    ReturnShape(m, id);
    hide Numbers, Tags, Expire;
    var settled := if m.pending[id].completed then m else Expire(m, id);
    assert EndedAs(settled, n, c);
    var m' := Leave(settled, id);
    if Live(settled, n) && settled.pending[settled.calls[n]] == c {
      if settled.calls[n] == id {
        assert m'.results[|settled.results|] == Outcome(n, c.answers, CallResult(id, c.status, c.response));
      }
    } else {
      assert Outcome(n, c.answers, CallResult(settled.calls[n], c.status, c.response)) in m'.results;
    }
  }

  /** The outcome of a call is set once: whatever happens later, that outcome is what its caller gets. */
  lemma {:induction false} OutcomeIsFinal(m: Mux, actions: seq<Action>, n: nat)
    requires Reachable(m) && Live(m, n) && m.pending[m.calls[n]].completed
    ensures EndedAs(Run(m, actions), n, m.pending[m.calls[n]])
    decreases |actions|
  {
    if actions != [] {
      hide Numbers, Tags, Step, EndedAs, Reachable;
      OutcomeIsFinal(m, actions[..|actions| - 1], n);
      ReachableTags(m);
      RunKeepsTags(m, actions[..|actions| - 1]);
      StepEndedAs(Run(m, actions[..|actions| - 1]), actions[|actions| - 1], n, m.pending[m.calls[n]]);
    }
  }

  // ---------------------------------------------------------------------------------------------
  // Reused ids
  // ---------------------------------------------------------------------------------------------

  /** A request that was written. */
  ghost predicate Asked(f: Fate) {
    f.Kept? && !f.out.control
  }

  ghost predicate Queued(m: Mux, id: U64) {
    exists i :: 0 <= i < |m.outbound| && !m.outbound[i].control && m.outbound[i].frame.header.requestId == id
  }

  ghost predicate Awaited(m: Mux, f: Fate, id: U64) {
    Asked(f) && f.out.frame.header.requestId == id && f.out.number !in m.answered
  }

  ghost predicate Unanswered(m: Mux, id: U64) {
    exists j :: 0 <= j < |m.fates| && Awaited(m, m.fates[j], id)
  }

  /** A request with this id is still queued, or was written and not answered. */
  ghost predicate Outstanding(m: Mux, id: U64) {
    Queued(m, id) || Unanswered(m, id)
  }

  /** A request was written for a call that had finished, or a call was given the answer to another one's request. */
  ghost predicate Crossed(m: Mux) {
    || (exists i :: 0 <= i < |m.fates| && Asked(m.fates[i]) && m.fates[i].late)
    || (exists id :: id in m.pending && m.pending[id].status == Ok && m.pending[id].answers != m.pending[id].number)
    || (exists i ::
           && 0 <= i < |m.results| && m.results[i].result.status == Ok
           && m.results[i].answers != m.results[i].number)
  }

  /** The peer answers only requests it was sent, each at most once and under its id. */
  ghost predicate Honest(m: Mux, a: Action) {
    a.DoDeliver? && a.frame.header.messageType == F.RESPONSE ==>
      exists j :: 0 <= j < |m.fates| && m.fates[j].out.number == a.number
          && Awaited(m, m.fates[j], a.frame.header.requestId)
  }

  /** A call is not given an id that is outstanding. */
  ghost predicate Careful(m: Mux, a: Action) {
    a.DoStart? && Start(m, a.request, a.timeout).1.Waiting? ==> !Outstanding(m, Start(m, a.request, a.timeout).1.id)
  }

  ghost predicate GoodRun(m: Mux, actions: seq<Action>)
    decreases |actions|
  {
    actions == [] ||
    var before := Run(m, actions[..|actions| - 1]);
    GoodRun(m, actions[..|actions| - 1]) && Honest(before, actions[|actions| - 1])
        && Careful(before, actions[|actions| - 1])
  }

  /** A frame outstanding under the id of a waiting call is that call's. */
  ghost predicate Matches(m: Mux, out: Out) {
    var id := out.frame.header.requestId;
    id in m.pending ==> m.pending[id].number == out.number
  }

  ghost predicate FateOwn(m: Mux, f: Fate) {
    Asked(f) ==> !f.late && (f.out.number !in m.answered ==> Matches(m, f.out))
  }

  ghost predicate CallOwn(c: Call) {
    c.status == Ok ==> c.answers == c.number
  }

  ghost predicate OutcomeOwn(o: Outcome) {
    o.result.status == Ok ==> o.answers == o.number
  }

  ghost predicate Own(m: Mux) {
    && (forall i :: 0 <= i < |m.outbound| && !m.outbound[i].control ==> Matches(m, m.outbound[i]))
    && (forall i :: 0 <= i < |m.fates| ==> FateOwn(m, m.fates[i]))
    && (forall id :: id in m.pending ==> CallOwn(m.pending[id]))
    && (forall i :: 0 <= i < |m.results| ==> OutcomeOwn(m.results[i]))
  }

  lemma OwnNotCrossed(m: Mux)
    requires Own(m)
    ensures !Crossed(m)
  {
    assert forall i :: 0 <= i < |m.fates| ==> FateOwn(m, m.fates[i]);
    assert forall i :: 0 <= i < |m.results| ==> OutcomeOwn(m.results[i]);
  }

  /** What a step of the connection may do. */
  ghost predicate StaysOwn(m: Mux, m': Mux) {
    && Proceeds(m, m') && m.answered <= m'.answered
    && (forall id :: id in m'.pending ==> CallOwn(m'.pending[id]))
    && (forall i :: 0 <= i < |m'.outbound| ==> m'.outbound[i] in m.outbound || m'.outbound[i].control)
    && (forall i :: 0 <= i < |m'.fates| ==> m'.fates[i] in m.fates || FateOwn(m', m'.fates[i]))
  }

  lemma StaysKeepsOwn(m: Mux, m': Mux)
    requires Own(m) && StaysOwn(m, m')
    ensures Own(m')
  {
    forall i | 0 <= i < |m'.outbound| && !m'.outbound[i].control ensures Matches(m', m'.outbound[i]) {
      assert Matches(m, m'.outbound[i]);
    }
    forall i | 0 <= i < |m'.fates| ensures FateOwn(m', m'.fates[i]) {
      if m'.fates[i] in m.fates { assert FateOwn(m, m'.fates[i]); }
    }
    forall i | 0 <= i < |m'.results| ensures OutcomeOwn(m'.results[i]) { assert m'.results[i] == m.results[i]; }
  }

  lemma EndOwn(m: Mux, phase: Phase, status: CallStatus)
    requires Own(m) && status != Ok
    ensures Own(CompleteAll(Clear(m), status).(phase := phase))
  {
    var m' := CompleteAll(Clear(m), status).(phase := phase);
    EndProceeds(m, phase, status);
    forall id | id in m'.pending ensures CallOwn(m'.pending[id]) { assert CallOwn(m.pending[id]); }
    forall i | 0 <= i < |m'.fates| ensures m'.fates[i] in m.fates || FateOwn(m', m'.fates[i]) {
      if i >= |m.fates| { assert m'.fates[i] == Lost(m.outbound[i - |m.fates|]); }
    }
    StaysKeepsOwn(m, m');
  }

  lemma CloseOwn(m: Mux)
    requires Own(m)
    ensures Own(Close(m)) && Own(MaybeFinishDrain(m))
  {
    hide Own, Clear;
    EndOwn(m, Closed, ConnectionClosed);
  }

  lemma FailOwn(m: Mux, status: CallStatus)
    requires Own(m) && status != Ok
    ensures Own(Fail(m, status))
  {
    hide *;
    Ends(m, status);
    EndOwn(m, Closed, status);
  }

  /** A request that is written belongs to the waiting call under its id, which has not finished. */
  lemma PopOwn(m: Mux)
    requires Own(m) && Numbers(m) && m.outbound != []
    ensures Own(Pop(m))
  {
    hide BytesOf;
    var m', out := Pop(m), m.outbound[0];
    var fate := m'.fates[|m.fates|];
    assert m'.fates == m.fates + [fate] && fate.out == out;
    PopProceeds(m);
    if Asked(fate) {
      assert Matches(m, out);
      assert Registered(m, out.number, out.frame.header.requestId) && !Returned(m, out.number);
      assert !Finished(m, out.number);
    }
    assert FateOwn(m', fate);
    forall id | id in m'.pending ensures CallOwn(m'.pending[id]) { assert CallOwn(m.pending[id]); }
    StaysKeepsOwn(m, m');
  }

  lemma {:induction false} FillOwn(m: Mux)
    requires Own(m) && Numbers(m) && Tags(m)
    ensures Own(Fill(m))
    decreases |m.outbound|
  {
    hide Own, Numbers, Tags, BytesOf, Pop;
    if More(m) {
      PopOwn(m);
      PopKeepsTags(m);
      PopShortens(m);
      FillOwn(Pop(m));
    }
  }

  lemma GatherOwn(m: Mux)
    requires Own(m) && Numbers(m) && Tags(m)
    ensures Own(Gather(m))
  {
    hide Own, Numbers, Tags, Fill;
    FillOwn(m);
  }

  lemma DeliverOwn(m: Mux, frame: F.Frame, number: nat)
    requires Own(m) && Honest(m, DoDeliver(frame, number))
    ensures Own(Deliver(m, frame, number))
  {
    var id, heard := frame.header.requestId, m.(answered := m.answered + {number});
    assert StaysOwn(m, heard);
    StaysKeepsOwn(m, heard);
    FailOwn(m, ProtocolError);
    if frame.header.messageType == F.RESPONSE && id in m.pending && !m.pending[id].completed {
      var done := heard.(pending := m.pending[id := Answered(m.pending[id], frame, number)]);
      AnswerOwn(m, frame, number);
      hide Own, MaybeFinishDrain, Fail;
      CloseOwn(done);
    }
  }

  lemma AnswerOwn(m: Mux, frame: F.Frame, number: nat)
    requires Own(m) && Honest(m, DoDeliver(frame, number)) && frame.header.messageType == F.RESPONSE
    requires frame.header.requestId in m.pending && !m.pending[frame.header.requestId].completed
    ensures var id := frame.header.requestId;
      Own(m.(answered := m.answered + {number}, pending := m.pending[id := Answered(m.pending[id], frame, number)]))
  {
    var id := frame.header.requestId;
    var done := m.(answered := m.answered + {number},
        pending := m.pending[id := Answered(m.pending[id], frame, number)]);
    var j :| 0 <= j < |m.fates| && m.fates[j].out.number == number && Awaited(m, m.fates[j], id);
    assert FateOwn(m, m.fates[j]);
    assert CallOwn(done.pending[id]);
    StaysKeepsOwn(m, done);
  }

  lemma DrainOwn(m: Mux)
    requires Own(m)
    ensures Own(BeginDrain(m))
  {
    var closing := m.(phase := Closing);
    assert StaysOwn(m, closing);
    StaysKeepsOwn(m, closing);
    hide Own, MaybeFinishDrain;
    CloseOwn(closing);
  }

  lemma CancelOwn(m: Mux, id: U64, number: nat)
    requires Own(m)
    ensures Own(QueueCancel(m, id, number))
  {
    hide BytesOf;
    assert StaysOwn(m, QueueCancel(m, id, number));
    StaysKeepsOwn(m, QueueCancel(m, id, number));
  }

  lemma ExpireOwn(m: Mux, id: U64)
    requires Own(m) && id in m.pending && !m.pending[id].completed
    ensures Own(Expire(m, id))
  {
    var call := m.pending[id];
    var marked := m.(pending := m.pending[id := call.(completed := true, status := TimedOut)]);
    assert CallOwn(marked.pending[id]);
    assert StaysOwn(m, marked);
    StaysKeepsOwn(m, marked);
    hide Own, MaybeFinishDrain, QueueCancel;
    CancelOwn(marked, id, call.number);
    CloseOwn(if call.sent then QueueCancel(marked, id, call.number) else marked);
  }

  lemma LeaveOwn(m: Mux, id: U64)
    requires Own(m) && id in m.pending
    ensures Own(Leave(m, id))
  {
    var m' := Leave(m, id);
    forall i | 0 <= i < |m'.fates| ensures FateOwn(m', m'.fates[i]) { assert FateOwn(m, m.fates[i]); }
    forall i | 0 <= i < |m'.results| ensures OutcomeOwn(m'.results[i]) {
      if i < |m.results| { assert OutcomeOwn(m.results[i]); } else { assert CallOwn(m.pending[id]); }
    }
  }

  lemma ReturnOwn(m: Mux, id: U64)
    requires Own(m) && Numbers(m) && Tags(m) && id in m.pending
    ensures Own(Return(m, id))
  {
    hide *;
    ReturnShape(m, id);
    if !m.pending[id].completed { ExpireOwn(m, id); }
    LeaveOwn(if m.pending[id].completed then m else Expire(m, id), id);
  }

  lemma AcceptOwn(m: Mux, id: U64, frame: F.Frame)
    requires Own(m) && !Outstanding(m, id)
    ensures Own(Push(Accept(m, id), Out(frame.(header := frame.header.(requestId := id)), false, |m.calls|)))
  {
    hide BytesOf;
    var m' := Push(Accept(m, id), Out(frame.(header := frame.header.(requestId := id)), false, |m.calls|));
    forall i | 0 <= i < |m'.outbound| && !m'.outbound[i].control ensures Matches(m', m'.outbound[i]) {
      if i < |m.outbound| { assert m'.outbound[i] == m.outbound[i] && Matches(m, m.outbound[i]); }
    }
    forall i | 0 <= i < |m'.fates| ensures FateOwn(m', m'.fates[i]) {
      assert FateOwn(m, m.fates[i]) && !Awaited(m, m.fates[i], id);
    }
    forall i | 0 <= i < |m'.results| ensures OutcomeOwn(m'.results[i]) { assert OutcomeOwn(m.results[i]); }
  }

  /** A request is accepted as call number `|m.calls|`, under its own id or the next free one. */
  lemma StartShape(m: Mux, request: F.Frame, timeout: nat)
    ensures var (m', answer) := Start(m, request, timeout);
      && (answer.Refused? ==> m' == m.(nextId := m'.nextId))
      && (answer.Waiting? ==>
            var id, counted := answer.id, m.(nextId := m'.nextId);
            && id !in m.pending && m.phase == Ready
            && m' == Push(Accept(counted, id),
                          Out(request.(header := request.header.(requestId := id)), false, |m.calls|)))
  {
    hide F.Encode, BytesOf;
  }

  lemma StartOwn(m: Mux, request: F.Frame, timeout: nat)
    requires Own(m) && Careful(m, DoStart(request, timeout))
    ensures Own(Start(m, request, timeout).0)
  {
    StartShape(m, request, timeout);
    var (m', answer) := Start(m, request, timeout);
    var counted := m.(nextId := m'.nextId);
    assert StaysOwn(m, counted);
    StaysKeepsOwn(m, counted);
    hide Own, Start, Push, Accept;
    if answer.Waiting? {
      assert forall f :: Awaited(counted, f, answer.id) <==> Awaited(m, f, answer.id);
      AcceptOwn(counted, answer.id, request);
    }
  }

  lemma StepOwn(m: Mux, a: Action)
    requires Own(m) && Numbers(m) && Tags(m) && Honest(m, a) && Careful(m, a)
    ensures Own(Step(m, a))
  {
    hide Own, Numbers, Tags, Honest, Careful, Start, Return, Deliver, Gather, Written, Fail, BeginDrain, Close;
    match a
    case DoStart(request, timeout) => StartOwn(m, request, timeout);
    case DoReturn(id) => if id in m.pending { ReturnOwn(m, id); }
    case DoDeliver(frame, number) => DeliverOwn(m, frame, number);
    case DoGather => GatherOwn(m);
    case DoWritten(whole) => WrittenOwn(m, whole);
    case DoFail(status) => if status != Ok { FailOwn(m, status); }
    case DoDrain => DrainOwn(m);
    case DoClose => CloseOwn(m);
  }

  lemma WrittenOwn(m: Mux, whole: bool)
    requires Own(m)
    ensures Own(Written(m, whole))
  {
    hide Own, MaybeFinishDrain, Fail;
    CloseOwn(m);
    FailOwn(m, ConnectionClosed);
    BatchOwn(if whole then MaybeFinishDrain(m) else Fail(m, ConnectionClosed));
  }

  lemma BatchOwn(m: Mux)
    requires Own(m)
    ensures Own(m.(batch := []))
  {
    assert StaysOwn(m, m.(batch := []));
    StaysKeepsOwn(m, m.(batch := []));
  }

  lemma {:induction false} GoodRunOwn(m: Mux, actions: seq<Action>)
    requires Own(m) && Numbers(m) && Tags(m) && GoodRun(m, actions)
    ensures Own(Run(m, actions))
    decreases |actions|
  {
    if actions != [] {
      hide Own, Numbers, Tags, Step, Honest, Careful;
      GoodRunOwn(m, actions[..|actions| - 1]);
      RunKeepsTags(m, actions[..|actions| - 1]);
      StepOwn(Run(m, actions[..|actions| - 1]), actions[|actions| - 1]);
    }
  }

  ghost predicate WellReached(m: Mux) {
    exists maxPending: nat, maxBytes: nat, actions ::
      GoodRun(Initial(maxPending, maxBytes), actions) && m == Run(Initial(maxPending, maxBytes), actions)
  }

  lemma WellReachedOwn(m: Mux)
    requires WellReached(m)
    ensures Own(m) && Numbers(m) && Tags(m)
  {
    var maxPending: nat, maxBytes: nat, actions :|
      GoodRun(Initial(maxPending, maxBytes), actions) && m == Run(Initial(maxPending, maxBytes), actions);
    RunKeepsTags(Initial(maxPending, maxBytes), actions);
    GoodRunOwn(Initial(maxPending, maxBytes), actions);
  }

  /**
   With an honest peer and no id given out while outstanding, no call's frame or answer is ever taken for another's.
   */
  lemma NeverCrossed(m: Mux)
    requires WellReached(m)
    ensures !Crossed(m)
  {
    hide *;
    WellReachedOwn(m);
    OwnNotCrossed(m);
  }

  // ---------------------------------------------------------------------------------------------
  // An outstanding id given to a new call can always cross
  // ---------------------------------------------------------------------------------------------

  /** A queued request of a call that has returned, under the id of one that waits. */
  ghost predicate Stale(m: Mux, i: nat) {
    && i < |m.outbound| && !m.outbound[i].control && Returned(m, m.outbound[i].number)
    && m.outbound[i].frame.header.requestId in m.pending && !m.pending[m.outbound[i].frame.header.requestId].completed
  }

  ghost predicate WrittenLate(m: Mux) {
    exists i :: 0 <= i < |m.fates| && Asked(m.fates[i]) && m.fates[i].late
  }

  lemma PopStale(m: Mux, i: nat)
    requires Stale(m, i)
    ensures if i == 0 then WrittenLate(Pop(m)) else Stale(Pop(m), i - 1)
  {
    hide BytesOf;
    var m' := Pop(m);
    PopProceeds(m);
    PopShortens(m);
    if i == 0 {
      assert m'.fates[|m.fates|] == Kept(m.outbound[0], true);
    } else {
      assert m'.outbound[i - 1] == m.outbound[i];
    }
  }

  lemma {:induction false} FillLate(m: Mux)
    requires WrittenLate(m)
    ensures WrittenLate(Fill(m))
    decreases |m.outbound|
  {
    hide BytesOf, Finished;
    if More(m) {
      var i :| 0 <= i < |m.fates| && Asked(m.fates[i]) && m.fates[i].late;
      assert Pop(m).fates[i] == m.fates[i];
      FillLate(Pop(m));
    }
  }

  lemma {:induction false} FillStale(m: Mux, i: nat) returns (k: nat)
    requires Stale(m, i)
    ensures WrittenLate(Fill(m)) || (k <= i && Stale(Fill(m), k) && (More(m) ==> k < i))
    decreases |m.outbound|
  {
    k := i;
    hide Stale, WrittenLate, BytesOf, Pop;
    if More(m) {
      PopStale(m, i);
      PopShortens(m);
      if i == 0 {
        FillLate(Pop(m));
      } else {
        k := FillStale(Pop(m), i - 1);
      }
    }
  }

  /** The writer finishes what it is at and takes the next batch. */
  function Round(m: Mux): (m': Mux) { Gather(Written(m, true)) }

  lemma RoundStale(m: Mux, i: nat) returns (k: nat)
    requires Stale(m, i) && m.phase == Ready
    ensures Round(m).phase == Ready
    ensures WrittenLate(Round(m)) || (k < i && Stale(Round(m), k))
  {
    var m1 := Written(m, true);
    assert Stale(m1, i) && m1.phase == Ready && m1.batch == [];
    hide Stale, WrittenLate, Fill, Written;
    FillPhase(m1);
    assert More(m1) by { StaleMore(m1, i); }
    k := FillStale(m1, i);
  }

  lemma StaleMore(m: Mux, i: nat)
    requires Stale(m, i) && m.batch == []
    ensures More(m)
  {
  }

  lemma RoundLate(m: Mux)
    requires WrittenLate(m) && m.phase == Ready
    ensures WrittenLate(Round(m)) && Round(m).phase == Ready
  {
    var m1 := Written(m, true);
    assert WrittenLate(m1) && m1.phase == Ready;
    hide WrittenLate, Fill, Written;
    FillLate(m1);
    FillPhase(m1);
  }

  ghost function Rounds(n: nat): (actions: seq<Action>)
    ensures |actions| == 2 * n
  {
    if n == 0 then [] else Rounds(n - 1) + [DoWritten(true), DoGather]
  }

  lemma RoundRun(m: Mux, n: nat)
    requires n > 0
    ensures Run(m, Rounds(n)) == Round(Run(m, Rounds(n - 1)))
    ensures GoodRun(m, Rounds(n - 1)) ==> GoodRun(m, Rounds(n))
  {
    hide Gather, Written, Start, Outstanding;
    var r := Rounds(n - 1);
    assert Rounds(n)[..2 * n - 1] == r + [DoWritten(true)] && (r + [DoWritten(true)])[..2 * n - 2] == r;
    assert Run(m, r + [DoWritten(true)]) == Written(Run(m, r), true);
    assert GoodRun(m, r) ==> GoodRun(m, r + [DoWritten(true)]);
  }

  lemma NoRounds(m: Mux)
    ensures Run(m, Rounds(0)) == m && GoodRun(m, Rounds(0))
  {
  }

  lemma {:induction false} RoundsCross(m: Mux, i: nat, n: nat) returns (k: nat)
    requires Stale(m, i) && m.phase == Ready
    ensures GoodRun(m, Rounds(n))
    ensures var m' := Run(m, Rounds(n)); m'.phase == Ready && (WrittenLate(m') || (k + n <= i && Stale(m', k)))
  {
    hide Stale, WrittenLate, Round, Run, GoodRun, Rounds;
    k := i;
    if n == 0 {
      NoRounds(m);
    } else {
      k := RoundsCross(m, i, n - 1);
      var before := Run(m, Rounds(n - 1));
      RoundRun(m, n);
      if WrittenLate(before) {
        RoundLate(before);
      } else {
        k := RoundStale(before, k);
      }
    }
  }

  /** A call under an id whose old request is queued: the writer sends that request for it. */
  lemma QueuedCrosses(m: Mux, request: F.Frame, timeout: nat) returns (actions: seq<Action>)
    requires Numbers(m) && Tags(m)
    requires Start(m, request, timeout).1.Waiting? && Queued(m, Start(m, request, timeout).1.id)
    ensures var m' := Start(m, request, timeout).0; GoodRun(m', actions) && Crossed(Run(m', actions))
  {
    var (m', answer) := Start(m, request, timeout);
    var i: nat :| i < |m.outbound| && !m.outbound[i].control && m.outbound[i].frame.header.requestId == answer.id;
    StaleStart(m, request, timeout, i);
    hide Start, Numbers, Tags, GoodRun, Stale;
    var _ := RoundsCross(m', i, i + 1);
    actions := Rounds(i + 1);
  }

  lemma StaleStart(m: Mux, request: F.Frame, timeout: nat, i: nat)
    requires Numbers(m) && Tags(m) && Start(m, request, timeout).1.Waiting?
    requires i < |m.outbound| && !m.outbound[i].control
    requires m.outbound[i].frame.header.requestId == Start(m, request, timeout).1.id
    ensures var m' := Start(m, request, timeout).0; Stale(m', i) && m'.phase == Ready
  {
    StartShape(m, request, timeout);
    hide Start, BytesOf;
    assert Tagged(m, m.outbound[i]);
    assert Live(m, m.outbound[i].number) || Returned(m, m.outbound[i].number);
  }

  /** A call under an id whose old request is unanswered: the late answer completes it. */
  lemma UnansweredCrosses(m: Mux, request: F.Frame, timeout: nat) returns (actions: seq<Action>)
    requires Tags(m) && Start(m, request, timeout).1.Waiting? && Unanswered(m, Start(m, request, timeout).1.id)
    ensures var m' := Start(m, request, timeout).0; GoodRun(m', actions) && Crossed(Run(m', actions))
  {
    StartShape(m, request, timeout);
    hide Start, BytesOf;
    var (m', answer) := Start(m, request, timeout);
    var j :| 0 <= j < |m.fates| && Awaited(m, m.fates[j], answer.id);
    assert FateOk(m, m.fates[j]);
    var response := F.Frame(F.Header(0, F.RESPONSE, answer.id), [], []);
    var a := DoDeliver(response, m.fates[j].out.number);
    actions := [a];
    assert actions[..0] == [] && Run(m', []) == m';
    assert Awaited(m', m'.fates[j], answer.id);
    assert GoodRun(m', []) && Honest(m', a) && Careful(m', a);
    assert Run(m', actions) == Deliver(m', response, a.number);
    assert Deliver(m', response, a.number).pending[answer.id] == Answered(m'.pending[answer.id], response, a.number);
  }

  /**
   Exactly when a new call is safe from the earlier ones under its id: whatever callers, connection and an honest peer
   do next, nothing is crossed, if and only if the id was not outstanding.
   */
  lemma ReuseExactly(m: Mux, request: F.Frame, timeout: nat)
    requires WellReached(m) && Start(m, request, timeout).1.Waiting?
    ensures var (m', answer) := Start(m, request, timeout);
      !Outstanding(m, answer.id) <==> forall actions :: GoodRun(m', actions) ==> !Crossed(Run(m', actions))
  {
    var (m', answer) := Start(m, request, timeout);
    WellReachedOwn(m);
    hide Start, Own, Numbers, Tags, Crossed, GoodRun, Queued, Unanswered;
    if Queued(m, answer.id) {
      var actions := QueuedCrosses(m, request, timeout);
    } else if Unanswered(m, answer.id) {
      var actions := UnansweredCrosses(m, request, timeout);
    } else {
      StartOwn(m, request, timeout);
      StartKeepsTags(m, request, timeout);
      forall actions | GoodRun(m', actions) ensures !Crossed(Run(m', actions)) {
        GoodRunOwn(m', actions);
        OwnNotCrossed(Run(m', actions));
      }
    }
  }

  /** The first call under id 7 times out before it is written; its frame is written for the second. */
  lemma IdReused()
    ensures var m := Run(Initial(1, 1000), [DoStart(REUSING, 5), DoReturn(7), DoStart(REUSING, 5)]);
      && Outstanding(m, 7) && Crossed(Gather(m))
      && Gather(m).fates != [] && Gather(m).fates[0] == Kept(Out(REUSING, false, 0), true)
  {
    var start, leave := DoStart(REUSING, 5), DoReturn(7);
    var out := Out(REUSING, false, 0);
    Three(Initial(1, 1000), start, leave, start);
    ReuseLengths();
    hide F.Encode, BytesOf, Run, Fill;
    var m1 := Step(Initial(1, 1000), start);
    assert m1 == Push(Accept(Initial(1, 1000), 7), out);
    var m2 := Step(m1, leave);
    assert m2.pending == map[] && m2.outbound == [out] && m2.phase == Ready && m2.calls == [7] && m2.fates == [];
    assert m2.results[0].number == 0;
    var m3 := Step(m2, start);
    assert m3.pending[7] == Call(false, false, NotConnected, None, 1, 1) && m3.outbound[0] == out;
    assert Returned(m3, 0) && m3.fates == [];
    assert m3.batch == [];
    FillFirst(m3);
    assert Asked(Gather(m3).fates[0]);
  }

  const REUSING := F.Frame(F.Header(0, F.REQUEST, 7), [], [])
  const RESPONSE_7 := F.Frame(F.Header(0, F.RESPONSE, 7), [], [])

  lemma ReuseLengths()
    ensures F.Encode(REUSING).Success? && |BytesOf(REUSING)| == 32 && |BytesOf(CancelFrame(7))| == 32
  {
  }

  lemma FirstWritten()
    ensures var m := Step(Step(Initial(1, 1000), DoStart(REUSING, 5)), DoGather);
      && m.phase == Ready && m.pending == map[7 := Call(false, true, NotConnected, None, 0, 0)] && m.calls == [7]
      && m.fates == [Kept(Out(REUSING, false, 0), false)] && m.outbound == [] && m.outboundBytes == 0
      && m.maxPending == 1 && m.maxBytes == 1000 && m.answered == {}
  {
    ReuseLengths();
    hide F.Encode, BytesOf;
    var m1 := Step(Initial(1, 1000), DoStart(REUSING, 5));
    assert m1 == Push(Accept(Initial(1, 1000), 7), Out(REUSING, false, 0));
    assert !Finished(m1, 0);
    assert Fill(m1) == Fill(Pop(m1)) && Pop(m1).outbound == [];
  }

  lemma FirstTimesOut(m: Mux)
    requires m.phase == Ready && m.pending == map[7 := Call(false, true, NotConnected, None, 0, 0)] && m.outbound == []
    requires m.outboundBytes == 0 && m.maxBytes == 1000
    ensures var m' := Step(m, DoReturn(7));
      && m' == m.(pending := map[], results := m'.results, outbound := m'.outbound, pushed := m'.pushed,
                  outboundBytes := 32)
  {
    ReuseLengths();
    hide F.Encode, BytesOf;
  }

  lemma SecondStarts(m: Mux)
    requires m.phase == Ready && m.pending == map[] && m.outboundBytes == 32 && m.maxBytes == 1000 && m.maxPending == 1
    ensures Step(m, DoStart(REUSING, 5)) == Push(Accept(m, 7), Out(REUSING, false, |m.calls|))
  {
    ReuseLengths();
    hide F.Encode, BytesOf;
  }

  lemma ReusedUnanswered(m: Mux)
    requires m == Step(Step(Initial(1, 1000), DoStart(REUSING, 5)), DoGather)
    ensures var m' := Step(Step(m, DoReturn(7)), DoStart(REUSING, 5));
      && m'.phase == Ready && m'.pending == map[7 := Call(false, false, NotConnected, None, 1, 1)]
      && m'.fates == [Kept(Out(REUSING, false, 0), false)] && m'.answered == {}
  {
    hide Step, BytesOf;
    FirstWritten();
    FirstTimesOut(m);
    SecondStarts(Step(m, DoReturn(7)));
  }

  /** The first call under id 7 is written and times out; the answer to it completes the second. */
  lemma IdAnswered()
    ensures var script := [DoStart(REUSING, 5), DoGather, DoReturn(7), DoStart(REUSING, 5)];
      var m := Run(Initial(1, 1000), script);
      var answered := Run(Initial(1, 1000), script + [DoDeliver(RESPONSE_7, 0)]);
      && Outstanding(m, 7) && Honest(m, DoDeliver(RESPONSE_7, 0)) && Crossed(answered)
      && answered.pending == map[7 := Call(true, false, Ok, Some(RESPONSE_7), 1, 0)]
  {
    var script := [DoStart(REUSING, 5), DoGather, DoReturn(7), DoStart(REUSING, 5)];
    hide Step, Run;
    Four(Initial(1, 1000), DoStart(REUSING, 5), DoGather, DoReturn(7), DoStart(REUSING, 5));
    ReusedUnanswered(Step(Step(Initial(1, 1000), DoStart(REUSING, 5)), DoGather));
    var m := Run(Initial(1, 1000), script);
    RunLast(Initial(1, 1000), script + [DoDeliver(RESPONSE_7, 0)]);
    assert (script + [DoDeliver(RESPONSE_7, 0)])[..4] == script;
    assert Awaited(m, m.fates[0], 7);
    AnswerSecond(m);
  }

  lemma AnswerSecond(m: Mux)
    requires m.phase == Ready && m.pending == map[7 := Call(false, false, NotConnected, None, 1, 1)]
    ensures var m' := Step(m, DoDeliver(RESPONSE_7, 0));
      Crossed(m') && m'.pending == map[7 := Call(true, false, Ok, Some(RESPONSE_7), 1, 0)]
  {
    assert 7 in Step(m, DoDeliver(RESPONSE_7, 0)).pending;
  }

  /** The first frame goes into an empty batch. */
  lemma FillFirst(m: Mux)
    requires m.outbound != [] && m.batch == [] && m.fates == []
    ensures Fill(m).fates != [] && Fill(m).fates[0] == Pop(m).fates[0]
  {
    hide BytesOf, Finished;
    FillFates(Pop(m));
  }

  lemma {:induction false} FillFates(m: Mux)
    ensures m.fates <= Fill(m).fates
    decreases |m.outbound|
  {
    hide BytesOf, Finished;
    if More(m) { FillFates(Pop(m)); }
  }

  // ---------------------------------------------------------------------------------------------
  // Ids handed out by the connection
  // ---------------------------------------------------------------------------------------------

  /** No caller chooses an id. */
  predicate Unchosen(actions: seq<Action>) {
    forall i :: 0 <= i < |actions| && actions[i].DoStart? ==> actions[i].request.header.requestId == 0
  }

  ghost predicate Fresh(m: Mux) {
    forall n :: 0 <= n < |m.calls| ==> m.calls[n] < m.nextId
  }

  lemma StepFresh(m: Mux, a: Action)
    requires Numbers(m) && Tags(m) && Fresh(m) && m.nextId < U64_MAX
    requires a.DoStart? ==> a.request.header.requestId == 0
    ensures Fresh(Step(m, a)) && Step(m, a).nextId <= m.nextId + 1 && Careful(m, a)
  {
    if a.DoStart? {
      StartShape(m, a.request, a.timeout);
      FreshStart(m, a.request, a.timeout);
    } else {
      SameIds(m, a);
    }
  }

  lemma FreshStart(m: Mux, request: F.Frame, timeout: nat)
    requires Numbers(m) && Tags(m) && Fresh(m) && m.nextId < U64_MAX && request.header.requestId == 0
    ensures var (m', answer) := Start(m, request, timeout);
      && Fresh(m') && m'.nextId <= m.nextId + 1
      && (answer.Waiting? ==> answer.id == m.nextId && !Outstanding(m, answer.id))
  {
    hide BytesOf, F.Encode;
  }

  lemma SameIds(m: Mux, a: Action)
    requires !a.DoStart?
    ensures Step(m, a).nextId == m.nextId && Step(m, a).calls == m.calls
  {
    hide BytesOf, F.Encode, Fill, Finished;
    if a.DoGather? { FillIds(m); }
  }

  lemma {:induction false} FillIds(m: Mux)
    ensures Fill(m).nextId == m.nextId && Fill(m).calls == m.calls
    decreases |m.outbound|
  {
    hide BytesOf, Finished;
    if More(m) { FillIds(Pop(m)); }
  }

  /**
   As long as callers leave the ids to the connection, and it has not gone through all of them, nothing is crossed.
   */
  lemma UnchosenNeverCross(maxPending: nat, maxBytes: nat, actions: seq<Action>)
    requires Unchosen(actions) && |actions| < U64_MAX
    requires forall i {:trigger actions[..i]} :: 0 <= i < |actions| ==>
      Honest(Run(Initial(maxPending, maxBytes), actions[..i]), actions[i])
    ensures !Crossed(Run(Initial(maxPending, maxBytes), actions))
  {
    hide Crossed, Honest, Unchosen, Fresh;
    RunFresh(maxPending, maxBytes, actions);
    NeverCrossed(Run(Initial(maxPending, maxBytes), actions));
  }

  lemma {:induction false} RunFresh(maxPending: nat, maxBytes: nat, actions: seq<Action>)
    requires Unchosen(actions) && |actions| < U64_MAX
    requires forall i {:trigger actions[..i]} :: 0 <= i < |actions| ==>
      Honest(Run(Initial(maxPending, maxBytes), actions[..i]), actions[i])
    ensures var m := Run(Initial(maxPending, maxBytes), actions); Fresh(m) && m.nextId <= |actions| + 1
    ensures GoodRun(Initial(maxPending, maxBytes), actions)
    decreases |actions|
  {
    if actions != [] {
      var before := actions[..|actions| - 1];
      assert forall i :: 0 <= i < |before| ==> before[..i] == actions[..i];
      hide Numbers, Tags, Step, Honest, Careful, Fresh;
      RunFresh(maxPending, maxBytes, before);
      RunKeepsTags(Initial(maxPending, maxBytes), before);
      StepFresh(Run(Initial(maxPending, maxBytes), before), actions[|actions| - 1]);
    }
  }
}
