/**
 How a connection ends. A closed one is settled for good. A draining one should close once nothing is queued, being
 written or waited for; the writer misses the case where all that it finds in the queue is dropped, and then the
 connection stays open with nothing left to do.
 */
module ConnectionDrains {
  import opened Bytes
  import opened Results
  import F = Frame
  import opened MultiplexedCalls

  // ---------------------------------------------------------------------------------------------
  // Closed
  // ---------------------------------------------------------------------------------------------

  ghost predicate Settled(m: Mux) {
    m.phase == Closed ==> m.outbound == [] && !Unfinished(m)
  }

  lemma EndSettled(m: Mux, status: CallStatus)
    requires Settled(m)
    ensures Settled(Close(m)) && Settled(Fail(m, status)) && Settled(MaybeFinishDrain(m))
  {
  }

  lemma ReturnSettled(m: Mux, id: U64)
    requires Settled(m) && id in m.pending
    ensures Settled(Return(m, id))
  {
    hide BytesOf;
    if !m.pending[id].completed {
      var call := m.pending[id];
      var marked := m.(pending := m.pending[id := call.(completed := true, status := TimedOut)]);
      EndSettled(if call.sent then QueueCancel(marked, id, call.number) else marked, Ok);
    }
  }

  lemma DeliverSettled(m: Mux, frame: F.Frame, number: nat)
    requires Settled(m)
    ensures Settled(Deliver(m, frame, number))
  {
    EndSettled(m, ProtocolError);
    var id := frame.header.requestId;
    if id in m.pending {
      EndSettled(m.(answered := m.answered + {number},
          pending := m.pending[id := Answered(m.pending[id], frame, number)]), Ok);
    }
  }

  lemma StepSettled(m: Mux, a: Action)
    requires Settled(m)
    ensures Settled(Step(m, a))
  {
    hide BytesOf, F.Encode, Fill, Deliver, Return, Close, Fail, MaybeFinishDrain;
    EndSettled(m, if a.DoFail? then a.status else ConnectionClosed);
    match a
    case DoReturn(id) => if id in m.pending { ReturnSettled(m, id); }
    case DoDeliver(frame, number) => DeliverSettled(m, frame, number);
    case DoGather => FillPhase(m);
    case DoDrain => EndSettled(m.(phase := Closing), Ok);
    case _ =>
  }

  lemma {:induction false} RunSettled(maxPending: nat, maxBytes: nat, actions: seq<Action>)
    ensures Settled(Run(Initial(maxPending, maxBytes), actions))
    decreases |actions|
  {
    if actions != [] {
      hide Settled, Step;
      RunSettled(maxPending, maxBytes, actions[..|actions| - 1]);
      StepSettled(Run(Initial(maxPending, maxBytes), actions[..|actions| - 1]), actions[|actions| - 1]);
    }
  }

  ghost predicate SameEnd(m: Mux, m': Mux) {
    && m'.phase == Closed && m'.outbound == [] && !Unfinished(m')
    && m'.wire == m.wire && m'.calls == m.calls && m'.fates == m.fates
  }

  lemma StepSameEnd(m: Mux, m': Mux, a: Action)
    requires SameEnd(m, m')
    ensures SameEnd(m, Step(m', a))
  {
    hide BytesOf, F.Encode;
  }

  /** Once closed, nothing is written or accepted any more, every call is completed, and that stays so. */
  lemma {:induction false} ClosedIsFinal(m: Mux, actions: seq<Action>)
    requires Reachable(m) && m.phase == Closed
    ensures SameEnd(m, Run(m, actions))
    decreases |actions|
  {
    hide Step;
    if actions == [] {
      var maxPending: nat, maxBytes: nat, before :| m == Run(Initial(maxPending, maxBytes), before);
      RunSettled(maxPending, maxBytes, before);
    } else {
      hide SameEnd, Reachable;
      ClosedIsFinal(m, actions[..|actions| - 1]);
      StepSameEnd(m, Run(m, actions[..|actions| - 1]), actions[|actions| - 1]);
    }
  }

  // ---------------------------------------------------------------------------------------------
  // Draining
  // ---------------------------------------------------------------------------------------------

  /** Draining with nothing queued, being written or waited for, and not closed. */
  ghost predicate Stalled(m: Mux) {
    m.phase == Closing && m.outbound == [] && m.batch == [] && !Unfinished(m)
  }

  /** The writer looks at a queue of nothing but requests, while no call is unfinished. */
  ghost predicate Stalls(m: Mux, a: Action) {
    && a.DoGather? && m.phase == Closing && m.batch == [] && m.outbound != [] && !Unfinished(m)
    && forall i :: 0 <= i < |m.outbound| ==> !m.outbound[i].control
  }

  /** What closes any connection. */
  predicate Ending(a: Action) {
    a.DoClose? || (a.DoFail? && a.status != Ok) || (a.DoDeliver? && a.frame.header.messageType != F.RESPONSE)
  }

  lemma DrainNotStalled(m: Mux, status: CallStatus)
    ensures !Stalled(MaybeFinishDrain(m)) && !Stalled(MaybeFinishDrain(m).(batch := []))
    ensures !Stalled(m) ==> !Stalled(Close(m)) && !Stalled(Fail(m, status))
    ensures m.phase in {Ready, Closing} ==> !Stalled(Fail(m, status).(batch := []))
  {
  }

  lemma {:induction false} FillBatch(m: Mux)
    ensures |Fill(m).batch| >= |m.batch|
    decreases |m.outbound|
  {
    hide BytesOf, Finished;
    if More(m) { FillBatch(Pop(m)); }
  }

  ghost predicate Idle(m: Mux) {
    m.outbound == [] && m.batch == [] && !Unfinished(m)
  }

  ghost predicate Requests(outs: seq<Out>) {
    forall i :: 0 <= i < |outs| ==> !outs[i].control
  }

  lemma KeptFills(m: Mux)
    requires Queue(m) && m.outbound != [] && m.batch == []
    ensures var out, id := m.outbound[0], m.outbound[0].frame.header.requestId;
      Pop(m).batch == [] <==> !out.control && (id !in m.pending || m.pending[id].completed)
    ensures Pop(m).batch == [] ==> Pop(m).pending == m.pending
    ensures Pop(m).outbound == m.outbound[1..]
  {
    hide Finished;
    assert OutOk(m.fates, m.outbound[0]);
    assert |BytesOf(m.outbound[0].frame)| >= F.HEADER_SIZE;
  }

  lemma RequestsFirst(outs: seq<Out>)
    requires outs != []
    ensures Requests(outs) <==> !outs[0].control && Requests(outs[1..])
  {
    if !outs[0].control && Requests(outs[1..]) {
      forall i | 0 <= i < |outs| ensures !outs[i].control { if i > 0 { assert outs[i] == outs[1..][i - 1]; } }
    }
  }

  /** A gathering leaves nothing to do if and only if it finds no cancellation and no call waits. */
  lemma {:induction false} FillIdles(m: Mux)
    requires Inv(m) && m.batch == []
    ensures Idle(Fill(m)) <==> !Unfinished(m) && Requests(m.outbound)
    decreases |m.outbound|
  {
    hide Inv, Pop, BytesOf, Requests;
    if m.outbound == [] {
      assert Requests([]) by { NoRequests(); }
    } else {
      assert Queue(m) by { Queueing(m); }
      KeptFills(m);
      PopKeeps(m);
      RequestsFirst(m.outbound);
      if Pop(m).batch == [] {
        FillIdles(Pop(m));
      } else {
        FillBatch(Pop(m));
      }
    }
  }

  lemma NoRequests()
    ensures Requests([])
  {
  }

  lemma Queueing(m: Mux)
    requires Inv(m)
    ensures Queue(m)
  {
  }

  lemma GatherStalls(m: Mux)
    requires Inv(m) && !Stalled(m)
    ensures Stalled(Gather(m)) <==> Stalls(m, DoGather)
  {
    hide Inv, Fill;
    if m.batch == [] {
      FillPhase(m);
      FillIdles(m);
    }
  }

  lemma ReturnNotStalled(m: Mux, id: U64)
    requires !Stalled(m) && id in m.pending
    ensures !Stalled(Return(m, id))
  {
    hide BytesOf;
    if !m.pending[id].completed {
      var call := m.pending[id];
      var marked := m.(pending := m.pending[id := call.(completed := true, status := TimedOut)]);
      var queued := if call.sent then QueueCancel(marked, id, call.number) else marked;
      DrainNotStalled(queued, Ok);
      LeaveNotStalled(MaybeFinishDrain(queued), id);
    } else {
      LeaveNotStalled(m, id);
    }
  }

  lemma LeaveNotStalled(m: Mux, id: U64)
    requires !Stalled(m) && id in m.pending && m.pending[id].completed
    ensures !Stalled(Leave(m, id))
  {
    if Unfinished(m) {
      var x :| x in m.pending && !m.pending[x].completed;
      assert x in Leave(m, id).pending;
    }
  }

  lemma DeliverNotStalled(m: Mux, frame: F.Frame, number: nat)
    requires !Stalled(m)
    ensures !Stalled(Deliver(m, frame, number))
  {
    DrainNotStalled(m, ProtocolError);
    var id := frame.header.requestId;
    if id in m.pending {
      var done := m.(answered := m.answered + {number},
          pending := m.pending[id := Answered(m.pending[id], frame, number)]);
      DrainNotStalled(done, Ok);
    }
  }

  /** The only step by which a draining connection comes to have nothing left to do without closing. */
  lemma StallsExactly(m: Mux, a: Action)
    requires Inv(m) && !Stalled(m)
    ensures Stalled(Step(m, a)) <==> Stalls(m, a)
  {
    hide Inv, BytesOf, F.Encode, Gather, Deliver, Return, Close, Fail, MaybeFinishDrain, Stalls;
    NotGathering(m, a);
    DrainNotStalled(m, if a.DoFail? then a.status else ConnectionClosed);
    match a
    case DoReturn(id) => if id in m.pending { ReturnNotStalled(m, id); }
    case DoDeliver(frame, number) => DeliverNotStalled(m, frame, number);
    case DoGather => GatherStalls(m);
    case DoDrain => DrainNotStalled(m.(phase := Closing), Ok);
    case _ =>
  }

  lemma NotGathering(m: Mux, a: Action)
    ensures !a.DoGather? ==> !Stalls(m, a)
  {
  }

  /** And there it stays, whatever callers and the writer do and whatever is answered, until something closes it. */
  lemma StallStays(m: Mux, a: Action)
    requires Stalled(m)
    ensures Stalled(Step(m, a)) <==> !Ending(a)
  {
    hide BytesOf, F.Encode;
  }

  /** Step `k` stalls the connection, and nothing closes it later. */
  ghost predicate StallsAt(m: Mux, actions: seq<Action>, k: nat) {
    && k < |actions| && Stalls(Run(m, actions[..k]), actions[k])
    && forall j :: k < j < |actions| ==> !Ending(actions[j])
  }

  ghost predicate LeftStalled(m: Mux, actions: seq<Action>) {
    exists k :: StallsAt(m, actions, k)
  }

  lemma StallsAtEarlier(m: Mux, actions: seq<Action>, k: nat)
    requires k < |actions| - 1
    ensures var n := |actions| - 1; StallsAt(m, actions, k) <==> StallsAt(m, actions[..n], k) && !Ending(actions[n])
  {
    hide Stalls, Run, Ending;
    assert actions[..|actions| - 1][..k] == actions[..k];
  }

  lemma LeftStalledLast(m: Mux, actions: seq<Action>)
    requires actions != []
    ensures var n := |actions| - 1;
      LeftStalled(m, actions) <==>
        Stalls(Run(m, actions[..n]), actions[n]) || (LeftStalled(m, actions[..n]) && !Ending(actions[n]))
  {
    hide Stalls, Run, Ending;
    var n := |actions| - 1;
    assert StallsAt(m, actions, n) <==> Stalls(Run(m, actions[..n]), actions[n]);
    forall k: nat | k < n { StallsAtEarlier(m, actions, k); }
    if LeftStalled(m, actions[..n]) {
      var k: nat :| StallsAt(m, actions[..n], k);
      assert k < n && (!Ending(actions[n]) ==> StallsAt(m, actions, k));
    }
    if LeftStalled(m, actions) {
      var k: nat :| StallsAt(m, actions, k);
      assert k < n ==> StallsAt(m, actions[..n], k);
    }
  }

  lemma NothingStalls(maxPending: nat, maxBytes: nat)
    ensures var m := Initial(maxPending, maxBytes); Run(m, []) == m && !Stalled(m) && !LeftStalled(m, [])
  {
  }

  /**
   A draining connection is left with nothing to do if and only if at some step the writer found only requests of
   finished calls, and nothing has closed the connection since.
   */
  lemma {:induction false} DrainStallsExactly(maxPending: nat, maxBytes: nat, actions: seq<Action>)
    ensures var m := Initial(maxPending, maxBytes); Stalled(Run(m, actions)) <==> LeftStalled(m, actions)
    decreases |actions|
  {
    hide *;
    var m := Initial(maxPending, maxBytes);
    if actions == [] {
      NothingStalls(maxPending, maxBytes);
    } else {
      var n := |actions| - 1;
      var before := Run(m, actions[..n]);
      DrainStallsExactly(maxPending, maxBytes, actions[..n]);
      LeftStalledLast(m, actions);
      RunLast(m, actions);
      RunKeepsInv(maxPending, maxBytes, actions[..n]);
      if Stalled(before) {
        StallStays(before, actions[n]);
        NoStallTwice(before, actions[n]);
      } else {
        StallsExactly(before, actions[n]);
      }
    }
  }

  lemma NoStallTwice(m: Mux, a: Action)
    requires Stalled(m)
    ensures !Stalls(m, a)
  {
  }

  const REQUEST_1 := F.Frame(F.Header(0, F.REQUEST, 1), [], [])
  const REQUEST_2 := F.Frame(F.Header(0, F.REQUEST, 2), [], [])

  lemma Lengths()
    ensures F.Encode(REQUEST_1).Success? && |BytesOf(REQUEST_1)| == 32
    ensures F.Encode(REQUEST_2).Success? && |BytesOf(REQUEST_2)| == 32
  {
  }

  /** One request is being written, another is queued. */
  ghost predicate Halfway(m: Mux) {
    && m.phase == Ready && m.batch != [] && m.outbound == [Out(REQUEST_2, false, 1)]
    && m.pending == map[1 := Call(false, true, NotConnected, None, 0, 0),
        2 := Call(false, false, NotConnected, None, 1, 1)]
  }

  lemma FirstQueued()
    ensures var m := Step(Initial(2, 1000), DoStart(REQUEST_1, 5));
      && m.phase == Ready && m.batch == [] && m.outbound == [Out(REQUEST_1, false, 0)] && m.outboundBytes == 32
      && m.pending == map[1 := Call(false, false, NotConnected, None, 0, 0)]
      && m.maxPending == 2 && m.maxBytes == 1000 && m.calls == [1]
  {
    Lengths();
    hide F.Encode, BytesOf;
  }

  lemma ReachHalfway()
    ensures Halfway(Step(Step(Step(Initial(2, 1000), DoStart(REQUEST_1, 5)), DoGather), DoStart(REQUEST_2, 5)))
  {
    FirstQueued();
    Lengths();
    hide F.Encode, BytesOf, Finished;
    var m1 := Step(Initial(2, 1000), DoStart(REQUEST_1, 5));
    var m2 := Step(m1, DoGather);
    assert m2.outbound == [] && m2.batch == BytesOf(REQUEST_1) && m2.outboundBytes == 0;
    assert m2.pending == map[1 := Call(false, true, NotConnected, None, 0, 0)];
  }

  lemma TimeOut(m: Mux)
    requires Halfway(m)
    ensures var m' := Step(Step(Step(m, DoDrain), DoReturn(1)), DoReturn(2));
      m'.phase == Closing && m'.batch == m.batch && m'.outbound == m.outbound && m'.pending == map[]
  {
    hide F.Encode, BytesOf;
    var m1 := Step(m, DoDrain);
    assert m1 == m.(phase := Closing) by { assert Unfinished(m) by { assert 1 in m.pending; } }
    var m2 := Step(m1, DoReturn(1));
    assert m2.phase == Closing && m2.pending == map[2 := Call(false, false, NotConnected, None, 1, 1)];
  }

  lemma DropLast(m: Mux)
    requires m.phase == Closing && m.batch != [] && m.outbound == [Out(REQUEST_2, false, 1)] && m.pending == map[]
    ensures Stalled(Step(Step(m, DoWritten(true)), DoGather))
  {
    hide F.Encode, BytesOf, Finished;
    var m1 := Step(m, DoWritten(true));
    assert m1 == m.(batch := []) && Fill(m1) == Fill(Pop(m1));
    assert Pop(m1).outbound == [] && Pop(m1).batch == [] && Pop(m1).phase == Closing && Pop(m1).pending == map[];
  }

  /**
   The first request is being written when the second is queued and draining begins. Both calls time out, the write
   ends, and the writer drops the second request.
   */
  lemma DrainCanStall()
    ensures Stalled(Run(Initial(2, 1000), [DoStart(REQUEST_1, 5), DoGather, DoStart(REQUEST_2, 5), DoDrain]
                                        + [DoReturn(1), DoReturn(2), DoWritten(true), DoGather]))
  {
    hide Step, Run, Halfway, Stalled, Initial;
    ReachHalfway();
    var m := Step(Step(Step(Initial(2, 1000), DoStart(REQUEST_1, 5)), DoGather), DoStart(REQUEST_2, 5));
    assert m.batch != [] && m.outbound == [Out(REQUEST_2, false, 1)] by { Midway(m); }
    TimeOut(m);
    DropLast(Step(Step(Step(m, DoDrain), DoReturn(1)), DoReturn(2)));
    var first := [DoStart(REQUEST_1, 5), DoGather, DoStart(REQUEST_2, 5), DoDrain];
    var second := [DoReturn(1), DoReturn(2), DoWritten(true), DoGather];
    Four(Initial(2, 1000), DoStart(REQUEST_1, 5), DoGather, DoStart(REQUEST_2, 5), DoDrain);
    Four(Run(Initial(2, 1000), first), DoReturn(1), DoReturn(2), DoWritten(true), DoGather);
    RunConcat(Initial(2, 1000), first, second);
  }

  lemma Midway(m: Mux)
    requires Halfway(m)
    ensures m.batch != [] && m.outbound == [Out(REQUEST_2, false, 1)]
  {
  }
}
