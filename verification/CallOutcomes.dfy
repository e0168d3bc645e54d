/**
 What a caller gets, and why: which step of the connection ends a call and with which result, and which frames are
 queued for the calls that were accepted.
 */
module CallOutcomes {
  import opened Bytes
  import opened Results
  import F = Frame
  import opened MultiplexedCalls
  import CallIdentities

  // ---------------------------------------------------------------------------------------------
  // What ends a call
  // ---------------------------------------------------------------------------------------------

  ghost predicate Open(m: Mux) { m.phase == Ready || m.phase == Closing }

  /**
   The step ends every unfinished call under this id with this status and response: a response under its id, anything
   else from the peer, the caller's own wake-up, or the end of the connection.
   */
  ghost predicate CallsFor(m: Mux, a: Action, id: U64, status: CallStatus, response: Option<F.Frame>) {
    match a
    case DoDeliver(frame, _) =>
      Open(m) && if frame.header.messageType == 2
                 then frame.header.requestId == id && status == Ok && response == Some(frame)
                 else status == ProtocolError && response == None
    case DoReturn(x) => x == id && status == TimedOut && response == None
    case DoFail(s) => Open(m) && s != Ok && status == s && response == None
    case DoWritten(whole) => Open(m) && !whole && m.batch != [] && status == ConnectionClosed && response == None
    case DoClose => Open(m) && status == ConnectionClosed && response == None
    case _ => false
  }

  ghost predicate Unended(m: Mux, n: nat) {
    Live(m, n) && !m.pending[m.calls[n]].completed
  }

  ghost predicate ResultOf(o: Outcome, n: nat, status: CallStatus, response: Option<F.Frame>) {
    o.number == n && o.result.status == status && o.result.response == response
  }

  /** The call has ended like this: its caller has the result, or will get it. */
  ghost predicate Ended(m: Mux, n: nat, status: CallStatus, response: Option<F.Frame>) {
    || (Live(m, n) && m.pending[m.calls[n]].completed && m.pending[m.calls[n]].status == status
        && m.pending[m.calls[n]].response == response)
    || (exists i :: 0 <= i < |m.results| && ResultOf(m.results[i], n, status, response))
  }

  /** One call in two states that have the same calls and results. */
  ghost predicate SameCall(m: Mux, m': Mux, id: U64)
    requires id in m.pending
  {
    && m'.calls == m.calls && m'.results == m.results
    && id in m'.pending && m'.pending[id].number == m.pending[id].number
  }

  lemma NotYet(m: Mux, n: nat, status: CallStatus, response: Option<F.Frame>)
    requires CallIdentities.Numbers(m) && Unended(m, n)
    ensures !Ended(m, n, status, response) && !Returned(m, n)
  {
  }

  lemma EndedNow(m: Mux, m': Mux, n: nat, status: CallStatus, response: Option<F.Frame>)
    requires CallIdentities.Numbers(m) && Unended(m, n) && SameCall(m, m', m.calls[n])
    ensures var c := m'.pending[m.calls[n]];
      Ended(m', n, status, response) <==> c.completed && c.status == status && c.response == response
  {
    NotYet(m, n, status, response);
  }

  lemma NoResponse(m: Mux, n: nat)
    requires Inv(m) && Unended(m, n)
    ensures m.pending[m.calls[n]].response == None
  {
    assert CallOk(m.fates, m.calls[n], m.pending[m.calls[n]]);
  }

  /** Draining cannot finish while the call has not ended. */
  lemma DrainWaits(m: Mux, id: U64)
    requires id in m.pending && !m.pending[id].completed
    ensures MaybeFinishDrain(m) == m
  {
  }

  /** Nor does finishing it change a call that has. */
  lemma DrainSpares(m: Mux, id: U64)
    requires id in m.pending && m.pending[id].completed
    ensures SameCall(m, MaybeFinishDrain(m), id) && MaybeFinishDrain(m).pending[id] == m.pending[id]
  {
    hide Losses;
  }

  lemma EndOfConnection(m: Mux, m': Mux, n: nat, s: CallStatus, status: CallStatus, response: Option<F.Frame>)
    requires Inv(m) && CallIdentities.Numbers(m) && Unended(m, n) && SameCall(m, m', m.calls[n])
    requires m'.pending[m.calls[n]] == Finish(m.pending[m.calls[n]], s, None)
    ensures Ended(m', n, status, response) <==> status == s && response == None
  {
    EndedNow(m, m', n, status, response);
  }

  lemma FailEnds(m: Mux, n: nat, s: CallStatus, status: CallStatus, response: Option<F.Frame>)
    requires Inv(m) && CallIdentities.Numbers(m) && Unended(m, n) && s != Ok
    ensures Ended(Fail(m, s), n, status, response) <==> Open(m) && status == s && response == None
  {
    if Open(m) {
      EndOfConnection(m, Fail(m, s), n, s, status, response);
    } else {
      NotYet(m, n, status, response);
    }
  }

  lemma CloseEnds(m: Mux, n: nat, status: CallStatus, response: Option<F.Frame>)
    requires Inv(m) && CallIdentities.Numbers(m) && Unended(m, n)
    ensures Ended(Close(m), n, status, response) <==> Open(m) && status == ConnectionClosed && response == None
  {
    if Open(m) {
      EndOfConnection(m, Close(m), n, ConnectionClosed, status, response);
    } else {
      NotYet(m, n, status, response);
    }
  }

  lemma DeliverEnds(m: Mux, n: nat, frame: F.Frame, number: nat, status: CallStatus, response: Option<F.Frame>)
    requires Inv(m) && CallIdentities.Numbers(m) && Unended(m, n)
    ensures Ended(Deliver(m, frame, number), n, status, response) <==>
      CallsFor(m, DoDeliver(frame, number), m.calls[n], status, response)
  {
    hide Inv, CallIdentities.Numbers, Fail, MaybeFinishDrain;
    var id, x := m.calls[n], frame.header.requestId;
    var m' := Deliver(m, frame, number);
    if !Open(m) {
      NotYet(m, n, status, response);
    } else if frame.header.messageType != 2 {
      FailEnds(m, n, ProtocolError, status, response);
    } else {
      var heard := m.(answered := m.answered + {number});
      if x in m.pending && !m.pending[x].completed {
        var done := heard.(pending := m.pending[x := Answered(m.pending[x], frame, number)]);
        if x == id { DrainSpares(done, id); } else { DrainWaits(done, id); }
      }
      EndedNow(m, m', n, status, response);
    }
  }

  lemma WrittenEnds(m: Mux, n: nat, whole: bool, status: CallStatus, response: Option<F.Frame>)
    requires Inv(m) && CallIdentities.Numbers(m) && Unended(m, n)
    ensures Ended(Written(m, whole), n, status, response) <==>
      CallsFor(m, DoWritten(whole), m.calls[n], status, response)
  {
    hide Inv, CallIdentities.Numbers, Fail, MaybeFinishDrain;
    DrainWaits(m, m.calls[n]);
    if !Open(m) || m.batch == [] || whole {
      EndedNow(m, Written(m, whole), n, status, response);
    } else {
      FailEnds(m, n, ConnectionClosed, status, response);
      assert Written(m, whole) == Fail(m, ConnectionClosed).(batch := []);
    }
  }

  lemma {:induction false} FillSpares(m: Mux, id: U64)
    requires id in m.pending
    ensures SameCall(m, Fill(m), id) && Fill(m).pending[id] == m.pending[id].(sent := Fill(m).pending[id].sent)
    decreases |m.outbound|
  {
    hide BytesOf, Finished;
    if More(m) { FillSpares(Pop(m), id); }
  }

  lemma CancelSpares(m: Mux, x: U64, number: nat)
    ensures var m' := QueueCancel(m, x, number);
      m'.pending == m.pending && m'.calls == m.calls && m'.results == m.results
  {
    hide BytesOf;
  }

  lemma ExpireMarks(m: Mux, x: U64, id: U64)
    requires x in m.pending && id in m.pending && (id == x || !m.pending[id].completed)
    ensures SameCall(m, Expire(m, x), id)
    ensures Expire(m, x).pending[id] ==
      if id == x then m.pending[id].(completed := true, status := TimedOut) else m.pending[id]
  {
    hide QueueCancel, MaybeFinishDrain;
    var call := m.pending[x];
    var marked := m.(pending := m.pending[x := call.(completed := true, status := TimedOut)]);
    CancelSpares(marked, x, call.number);
    var queued := if call.sent then QueueCancel(marked, x, call.number) else marked;
    if id == x { DrainSpares(queued, x); } else { DrainWaits(queued, id); }
  }

  lemma LeaveEnds(m: Mux, n: nat, x: U64, status: CallStatus, response: Option<F.Frame>)
    requires CallIdentities.Numbers(m) && Live(m, n) && x in m.pending
    ensures Ended(Leave(m, x), n, status, response) <==>
      var c := m.pending[m.calls[n]];
      (c.completed || m.calls[n] == x) && c.status == status && c.response == response
  {
    var m', o := Leave(m, x), Leave(m, x).results[|m.results|];
    if m.calls[n] == x {
      if ResultOf(o, n, status, response) { assert ResultOf(m'.results[|m.results|], n, status, response); }
      forall i | 0 <= i < |m.results| ensures !ResultOf(m'.results[i], n, status, response) {
        assert m'.results[i] == m.results[i];
        assert !Returned(m, n);
      }
    } else {
      assert Live(m', n) && !Returned(m, n);
      forall i | 0 <= i < |m'.results| ensures !ResultOf(m'.results[i], n, status, response) { }
    }
  }

  lemma ReturnEnds(m: Mux, n: nat, x: U64, status: CallStatus, response: Option<F.Frame>)
    requires Inv(m) && CallIdentities.Numbers(m) && CallIdentities.Tags(m) && Unended(m, n) && x in m.pending
    ensures Ended(Return(m, x), n, status, response) <==>
      CallsFor(m, DoReturn(x), m.calls[n], status, response)
  {
    hide Inv, CallIdentities.Numbers, CallIdentities.Tags, CallIdentities.Proceeds, Expire, Leave, Ended;
    CallIdentities.ReturnShape(m, x);
    NoResponse(m, n);
    if !m.pending[x].completed { ExpireMarks(m, x, m.calls[n]); }
    LeaveEnds(if m.pending[x].completed then m else Expire(m, x), n, x, status, response);
  }

  lemma StartEnds(m: Mux, n: nat, request: F.Frame, timeout: nat, status: CallStatus, response: Option<F.Frame>)
    requires CallIdentities.Numbers(m) && Unended(m, n)
    ensures !Ended(Start(m, request, timeout).0, n, status, response)
  {
    hide Start, BytesOf;
    CallIdentities.StartShape(m, request, timeout);
    NotYet(m, n, status, response);
  }

  /** Exactly the steps that call for it end a call, with exactly the result they call for. */
  lemma StepEnds(m: Mux, a: Action, n: nat, status: CallStatus, response: Option<F.Frame>)
    requires Inv(m) && CallIdentities.Numbers(m) && CallIdentities.Tags(m) && Unended(m, n)
    ensures Ended(Step(m, a), n, status, response) <==> CallsFor(m, a, m.calls[n], status, response)
  {
    hide Inv, CallIdentities.Numbers, CallIdentities.Tags, Ended, Start, Return, Deliver, Fill, Written, Fail, Close;
    NotYet(m, n, status, response);
    match a
    case DoStart(request, timeout) => StartEnds(m, n, request, timeout, status, response);
    case DoReturn(x) => if x in m.pending { ReturnEnds(m, n, x, status, response); }
    case DoDeliver(frame, number) => DeliverEnds(m, n, frame, number, status, response);
    case DoGather =>
      FillSpares(m, m.calls[n]);
      EndedNow(m, Fill(m), n, status, response);
    case DoWritten(whole) => WrittenEnds(m, n, whole, status, response);
    case DoFail(s) => if s != Ok { FailEnds(m, n, s, status, response); }
    case DoDrain =>
      DrainWaits(m.(phase := Closing), m.calls[n]);
      EndedNow(m, BeginDrain(m), n, status, response);
    case DoClose => CloseEnds(m, n, status, response);
  }

  // ---------------------------------------------------------------------------------------------
  // Over whole runs
  // ---------------------------------------------------------------------------------------------

  lemma EndedFrom(m: Mux, n: nat, c: Call)
    requires CallIdentities.EndedAs(m, n, c) && c.completed
    ensures Ended(m, n, c.status, c.response)
  {
    var o := Outcome(n, c.answers, CallResult(if n < |m.calls| then m.calls[n] else 0, c.status, c.response));
    if o in m.results {
      var i :| 0 <= i < |m.results| && m.results[i] == o;
      assert ResultOf(m.results[i], n, c.status, c.response);
    }
  }

  lemma EndedStays(m: Mux, a: Action, n: nat, status: CallStatus, response: Option<F.Frame>)
    requires CallIdentities.Numbers(m) && CallIdentities.Tags(m) && Ended(m, n, status, response)
    ensures Ended(Step(m, a), n, status, response)
  {
    hide Step;
    var c: Call;
    if Live(m, n) && m.pending[m.calls[n]].completed && m.pending[m.calls[n]].status == status
       && m.pending[m.calls[n]].response == response {
      c := m.pending[m.calls[n]];
    } else {
      var i :| 0 <= i < |m.results| && ResultOf(m.results[i], n, status, response);
      c := Call(true, false, status, response, n, m.results[i].answers);
      assert CallIdentities.Registered(m, n, m.results[i].result.id);
      assert m.results[i] == Outcome(n, c.answers, CallResult(m.calls[n], status, response));
    }
    CallIdentities.StepEndedAs(m, a, n, c);
    EndedFrom(Step(m, a), n, c);
  }

  lemma EndOfLive(m: Mux, n: nat, s: CallStatus, r: Option<F.Frame>)
    requires CallIdentities.Numbers(m) && Live(m, n) && Ended(m, n, s, r)
    ensures m.pending[m.calls[n]].status == s && m.pending[m.calls[n]].response == r
  {
    assert !Returned(m, n);
  }

  lemma EndOfReturned(m: Mux, n: nat, s: CallStatus, r: Option<F.Frame>, i: nat)
    requires CallIdentities.Numbers(m) && i < |m.results| && m.results[i].number == n && Ended(m, n, s, r)
    ensures m.results[i].result.status == s && m.results[i].result.response == r
  {
    assert Returned(m, n);
    assert !Live(m, n);
    var j :| 0 <= j < |m.results| && ResultOf(m.results[j], n, s, r);
  }

  lemma OneEnd(m: Mux, n: nat, s: CallStatus, r: Option<F.Frame>, s': CallStatus, r': Option<F.Frame>)
    requires CallIdentities.Numbers(m) && Ended(m, n, s, r) && Ended(m, n, s', r')
    ensures s == s' && r == r'
  {
    hide CallIdentities.Numbers;
    if Live(m, n) {
      EndOfLive(m, n, s, r);
      EndOfLive(m, n, s', r');
    } else {
      var i :| 0 <= i < |m.results| && ResultOf(m.results[i], n, s, r);
      EndOfReturned(m, n, s', r', i);
    }
  }

  lemma EndedOrNot(m: Mux, n: nat) returns (status: CallStatus, response: Option<F.Frame>)
    requires CallIdentities.Numbers(m) && n < |m.calls| && !Unended(m, n)
    ensures Ended(m, n, status, response)
  {
    if Live(m, n) {
      status, response := m.pending[m.calls[n]].status, m.pending[m.calls[n]].response;
    } else {
      assert Returned(m, n);
      var i :| 0 <= i < |m.results| && m.results[i].number == n;
      status, response := m.results[i].result.status, m.results[i].result.response;
      assert ResultOf(m.results[i], n, status, response);
    }
  }

  ghost function At(maxPending: nat, maxBytes: nat, actions: seq<Action>, k: nat): (m: Mux)
    requires k <= |actions|
  {
    Run(Initial(maxPending, maxBytes), actions[..k])
  }

  /** Step `k` of the run ends call `n` like this. */
  ghost predicate EndsAt(maxPending: nat, maxBytes: nat, actions: seq<Action>, k: nat, n: nat,
                         status: CallStatus, response: Option<F.Frame>)
    requires k < |actions|
  {
    var m := At(maxPending, maxBytes, actions, k);
    Unended(m, n) && CallsFor(m, actions[k], m.calls[n], status, response)
  }

  ghost predicate EndsBefore(maxPending: nat, maxBytes: nat, actions: seq<Action>, j: nat, n: nat,
                             status: CallStatus, response: Option<F.Frame>)
    requires j <= |actions|
  {
    exists k :: 0 <= k < j && EndsAt(maxPending, maxBytes, actions, k, n, status, response)
  }

  lemma AtNext(maxPending: nat, maxBytes: nat, actions: seq<Action>, k: nat)
    requires k < |actions|
    ensures At(maxPending, maxBytes, actions, k + 1) == Step(At(maxPending, maxBytes, actions, k), actions[k])
  {
    hide Step;
    assert actions[..k + 1][..k] == actions[..k];
  }

  lemma AtInv(maxPending: nat, maxBytes: nat, actions: seq<Action>, k: nat)
    requires k <= |actions|
    ensures var m := At(maxPending, maxBytes, actions, k);
      Inv(m) && CallIdentities.Numbers(m) && CallIdentities.Tags(m)
  {
    hide Inv, CallIdentities.Numbers, CallIdentities.Tags;
    RunKeepsInv(maxPending, maxBytes, actions[..k]);
    assert Reachable(Run(Initial(maxPending, maxBytes), actions[..k]));
    CallIdentities.ReachableTags(Run(Initial(maxPending, maxBytes), actions[..k]));
  }

  /** A call that has just been accepted has not ended. */
  lemma NewUnended(m: Mux, a: Action, n: nat)
    requires CallIdentities.Numbers(m) && CallIdentities.Tags(m) && |m.calls| <= n < |Step(m, a).calls|
    ensures Unended(Step(m, a), n)
  {
    hide CallIdentities.Numbers, CallIdentities.Tags, Start, Return, Deliver, Gather, Written, Fail, BeginDrain, Close;
    CallIdentities.StepKeepsTags(m, a);
    if a.DoStart? {
      CallIdentities.StartShape(m, a.request, a.timeout);
    } else {
      SameCalls(m, a);
    }
  }

  lemma SameCalls(m: Mux, a: Action)
    requires CallIdentities.Numbers(m) && CallIdentities.Tags(m) && !a.DoStart?
    ensures Step(m, a).calls == m.calls
  {
    hide CallIdentities.Numbers, CallIdentities.Tags, Return, Expire, Deliver, Gather, Written, Fail, BeginDrain, Close;
    CallIdentities.StepKeepsTags(m, a);
    if a.DoReturn? && a.id in m.pending { CallIdentities.ReturnShape(m, a.id); }
  }

  lemma {:induction false} EndedExactly(maxPending: nat, maxBytes: nat, actions: seq<Action>, j: nat, n: nat,
                                       status: CallStatus, response: Option<F.Frame>)
    requires j <= |actions|
    ensures Ended(At(maxPending, maxBytes, actions, j), n, status, response) <==>
      EndsBefore(maxPending, maxBytes, actions, j, n, status, response)
    decreases j
  {
    hide Inv, CallIdentities.Numbers, CallIdentities.Tags, Ended, Step, CallsFor;
    if j == 0 {
      NothingAtFirst(maxPending, maxBytes, actions, n, status, response);
    } else {
      var k := j - 1;
      var m := At(maxPending, maxBytes, actions, k);
      EndedExactly(maxPending, maxBytes, actions, k, n, status, response);
      AtInv(maxPending, maxBytes, actions, k);
      AtNext(maxPending, maxBytes, actions, k);
      StepEndedExactly(m, actions[k], n, status, response);
      assert EndsBefore(maxPending, maxBytes, actions, j, n, status, response) <==>
        EndsBefore(maxPending, maxBytes, actions, k, n, status, response)
        || EndsAt(maxPending, maxBytes, actions, k, n, status, response);
    }
  }

  lemma NothingAtFirst(maxPending: nat, maxBytes: nat, actions: seq<Action>, n: nat,
                       status: CallStatus, response: Option<F.Frame>)
    ensures !Ended(At(maxPending, maxBytes, actions, 0), n, status, response)
  {
    assert actions[..0] == [];
  }

  lemma StepEndedExactly(m: Mux, a: Action, n: nat, status: CallStatus, response: Option<F.Frame>)
    requires Inv(m) && CallIdentities.Numbers(m) && CallIdentities.Tags(m)
    ensures Ended(Step(m, a), n, status, response) <==>
      Ended(m, n, status, response) || (Unended(m, n) && CallsFor(m, a, m.calls[n], status, response))
  {
    hide Inv, CallIdentities.Numbers, CallIdentities.Tags, Ended, Step, CallsFor;
    CallIdentities.StepKeepsTags(m, a);
    var m' := Step(m, a);
    if Unended(m, n) {
      StepEnds(m, a, n, status, response);
      NotYet(m, n, status, response);
    } else if n < |m.calls| {
      var s, r := EndedOrNot(m, n);
      EndedStays(m, a, n, s, r);
      if Ended(m', n, status, response) { OneEnd(m', n, s, r, status, response); }
      if Ended(m, n, status, response) { OneEnd(m, n, s, r, status, response); }
    } else {
      UnknownCall(m, n, status, response);
      if n < |m'.calls| { NewUnended(m, a, n); NotYet(m', n, status, response); }
      else { UnknownCall(m', n, status, response); }
    }
  }

  lemma UnknownCall(m: Mux, n: nat, status: CallStatus, response: Option<F.Frame>)
    requires CallIdentities.Numbers(m) && n >= |m.calls|
    ensures !Ended(m, n, status, response)
  {
    forall i | 0 <= i < |m.results| ensures !ResultOf(m.results[i], n, status, response) {
      assert CallIdentities.Registered(m, m.results[i].number, m.results[i].result.id);
    }
  }

  /**
   Every result a caller has got, over every run: some step called for the end of that very call, while it had not
   ended, with that status and that response. In particular an `Ok` carries, as it arrived, the first response frame
   under the call's id that came in on the open connection while the call was unfinished.
   */
  lemma ResultsAreEarned(maxPending: nat, maxBytes: nat, actions: seq<Action>, i: nat)
    requires i < |At(maxPending, maxBytes, actions, |actions|).results|
    ensures var o := At(maxPending, maxBytes, actions, |actions|).results[i];
      EndsBefore(maxPending, maxBytes, actions, |actions|, o.number, o.result.status, o.result.response)
  {
    hide EndsBefore, At;
    var m := At(maxPending, maxBytes, actions, |actions|);
    var o := m.results[i];
    assert ResultOf(m.results[i], o.number, o.result.status, o.result.response);
    EndedExactly(maxPending, maxBytes, actions, |actions|, o.number, o.result.status, o.result.response);
  }

  // ---------------------------------------------------------------------------------------------
  // What is queued
  // ---------------------------------------------------------------------------------------------

  /** The caller's request under the id it is sent with: flags, type, metadata and body are the caller's. */
  ghost function Numbered(request: F.Frame, id: U64): (f: F.Frame) {
    F.Frame(F.Header(request.header.flags, request.header.messageType, id), request.metadata, request.body)
  }

  ghost function IdFor(m: Mux, request: F.Frame): (id: U64) {
    if request.header.requestId == 0 then m.nextId else request.header.requestId
  }

  /** What a call is answered at once, in the order of the checks. */
  ghost function Verdict(m: Mux, request: F.Frame, timeout: nat): (a: Answer) {
    var id, size := IdFor(m, request), 32 + |request.metadata| + |request.body|;
    if m.phase != Ready then Refused(NotConnected)
    else if request.header.messageType != 1 then Refused(InvalidRequest)
    else if timeout == 0 then Refused(TimedOut)
    else if |m.pending| >= m.maxPending then Refused(LocalOverloaded)
    else if id == 0 || |request.metadata| > 0xFFFF_FFFF || |request.body| > 0xFFFF_FFFF then Refused(EncodeError)
    else if id in m.pending then Refused(DuplicateRequestId)
    else if Total(m.outbound) + size > m.maxBytes then Refused(LocalOverloaded)
    else Waiting(id)
  }

  lemma RequestSize(request: F.Frame, id: U64)
    requires request.header.messageType == 1
    ensures F.Encode(Numbered(request, id)).Success? <==>
      id != 0 && |request.metadata| <= 0xFFFF_FFFF && |request.body| <= 0xFFFF_FFFF
    ensures F.Encode(Numbered(request, id)).Success? ==>
      |BytesOf(Numbered(request, id))| == 32 + |request.metadata| + |request.body|
  {
    F.EncodesExactly(Numbered(request, id));
    if F.Encode(Numbered(request, id)).Success? { F.FrameBytes(Numbered(request, id)); }
  }

  /** A call is accepted exactly if no check refuses it, and then its request, and nothing else, is queued last. */
  lemma StartExactly(m: Mux, request: F.Frame, timeout: nat)
    requires Inv(m)
    ensures var (m', a) := Start(m, request, timeout);
      && a == Verdict(m, request, timeout)
      && (a.Waiting? ==>
            && m'.calls == m.calls + [a.id] && m'.pushed == m.pushed + [Out(Numbered(request, a.id), false, |m.calls|)]
            && Unended(m', |m.calls|) && !m'.pending[a.id].sent)
      && (a.Refused? ==> m'.calls == m.calls && m'.pushed == m.pushed && m'.pending == m.pending)
  {
    hide Calls, Wire, Answers, F.Encode, BytesOf, OutOk, Outs;
    var id := IdFor(m, request);
    if request.header.messageType == 1 { RequestSize(request, id); }
    assert request.(header := request.header.(requestId := id)) == Numbered(request, id);
  }

  /** The requests among the frames queued. */
  ghost function Requests(outs: seq<Out>): (fs: seq<F.Frame>) {
    if outs == [] then []
    else
      var last := outs[|outs| - 1];
      Requests(outs[..|outs| - 1]) + if last.control then [] else [last.frame]
  }

  /** The requests accepted in the first `k` steps of a run, under the ids their callers were told. */
  ghost function Accepted(maxPending: nat, maxBytes: nat, actions: seq<Action>, k: nat): (fs: seq<F.Frame>)
    requires k <= |actions|
  {
    if k == 0 then []
    else
      var before, m := Accepted(maxPending, maxBytes, actions, k - 1), At(maxPending, maxBytes, actions, k - 1);
      if actions[k - 1].DoStart? && Verdict(m, actions[k - 1].request, actions[k - 1].timeout).Waiting?
      then before + [Numbered(actions[k - 1].request, IdFor(m, actions[k - 1].request))]
      else before
  }

  lemma RequestsAdd(outs: seq<Out>, out: Out)
    ensures Requests(outs + [out]) == Requests(outs) + if out.control then [] else [out.frame]
  {
    assert (outs + [out])[..|outs|] == outs;
  }

  lemma {:induction false} FillPushes(m: Mux)
    ensures Fill(m).pushed == m.pushed
    decreases |m.outbound|
  {
    hide BytesOf, Finished;
    if More(m) { FillPushes(Pop(m)); }
  }

  ghost function Cancellation(id: U64): (f: F.Frame) {
    F.Frame(F.Header(0, 3, id), [], [])
  }

  lemma CancelSize(id: U64)
    ensures |BytesOf(Cancellation(id))| == 32 && CancelFrame(id) == Cancellation(id)
  {
    F.EncodesExactly(Cancellation(id));
    F.FrameBytes(Cancellation(id));
  }

  /**
   A caller that gives up has a cancellation queued exactly if its request was handed to the socket, the connection is
   not closing and there is room for the 32 bytes.
   */
  lemma ReturnQueues(m: Mux, id: U64)
    requires Inv(m) && id in m.pending
    ensures var c := m.pending[id];
      Return(m, id).pushed == m.pushed +
      if !c.completed && c.sent && m.phase == Ready && id != 0 && Total(m.outbound) + 32 <= m.maxBytes
      then [Out(Cancellation(id), true, c.number)] else []
  {
    hide Calls, Wire, Answers, F.Encode, BytesOf, OutOk, Outs, Losses, CancelFrame;
    CancelSize(id);
    assert m.pushed + [] == m.pushed;
  }

  lemma OthersPush(m: Mux, a: Action)
    requires !a.DoStart? && !a.DoReturn?
    ensures Step(m, a).pushed == m.pushed
  {
    hide Fill, Losses;
    FillPushes(m);
  }

  lemma StepRequests(m: Mux, a: Action)
    requires Inv(m)
    ensures Requests(Step(m, a).pushed) == Requests(m.pushed) +
      if a.DoStart? && Verdict(m, a.request, a.timeout).Waiting? then [Numbered(a.request, IdFor(m, a.request))] else []
  {
    hide Inv, Start, Return, Requests, Deliver, Gather, Written, Fail, BeginDrain, Close;
    assert Requests(m.pushed) + [] == Requests(m.pushed);
    match a
    case DoStart(request, timeout) =>
      StartExactly(m, request, timeout);
      var id := IdFor(m, request);
      RequestsAdd(m.pushed, Out(Numbered(request, id), false, |m.calls|));
    case DoReturn(id) =>
      if id in m.pending {
        ReturnQueues(m, id);
        RequestsAdd(m.pushed, Out(Cancellation(id), true, m.pending[id].number));
        assert m.pushed + [] == m.pushed;
      }
    case _ => OthersPush(m, a);
  }

  /** Over every run, the requests queued are those accepted, in order, as their callers wrote them. */
  lemma {:induction false} RequestsAreCallers(maxPending: nat, maxBytes: nat, actions: seq<Action>, k: nat)
    requires k <= |actions|
    ensures Requests(At(maxPending, maxBytes, actions, k).pushed) == Accepted(maxPending, maxBytes, actions, k)
  {
    hide Inv, Step, Verdict;
    if k == 0 {
      assert actions[..0] == [];
    } else {
      RequestsAreCallers(maxPending, maxBytes, actions, k - 1);
      AtInv(maxPending, maxBytes, actions, k - 1);
      AtNext(maxPending, maxBytes, actions, k - 1);
      var before := Accepted(maxPending, maxBytes, actions, k - 1);
      assert before + [] == before;
      StepRequests(At(maxPending, maxBytes, actions, k - 1), actions[k - 1]);
    }
  }

  // ---------------------------------------------------------------------------------------------
  // The writer, and the phases of the connection
  // ---------------------------------------------------------------------------------------------

  /** A request under this id is among the frames written since. */
  ghost predicate WrittenSince(m: Mux, m': Mux, id: U64) {
    exists j :: |m.fates| <= j < |m'.fates| && IsRequest(m'.fates[j], id)
  }

  lemma {:induction false} FillSends(m: Mux, id: U64)
    requires id in m.pending
    ensures id in Fill(m).pending && |m.fates| <= |Fill(m).fates| && m.fates <= Fill(m).fates
    ensures Fill(m).pending[id].sent <==> m.pending[id].sent || WrittenSince(m, Fill(m), id)
    decreases |m.outbound|
  {
    hide BytesOf, Finished;
    if More(m) {
      var m1 := Pop(m);
      FillSends(m1, id);
      var m' := Fill(m);
      assert m' == Fill(m1) && m1.fates == m.fates + [m1.fates[|m.fates|]];
      assert m'.fates[|m.fates|] == m1.fates[|m.fates|];
      assert WrittenSince(m, m', id) <==> IsRequest(m1.fates[|m.fates|], id) || WrittenSince(m1, m', id);
    }
  }

  /** A gathering takes frames until the queue is empty or the next one would make the batch larger than 64 KiB. */
  lemma GatherTakesAll(m: Mux)
    requires Inv(m) && Open(m) && m.batch == []
    ensures var m' := Gather(m);
      && (m'.outbound == [] || (m'.batch != [] && |m'.batch| + |BytesOf(m'.outbound[0].frame)| > 65536))
      && (|m'.batch| <= 65536 || Single(m'))
  {
    hide Inv, Fill, BytesOf, Single;
    FillKeeps(m);
  }

  ghost predicate OthersUnfinished(m: Mux, id: U64) {
    exists x :: x in m.pending && x != id && !m.pending[x].completed
  }

  ghost predicate NoneUnfinished(m: Mux) {
    forall x :: x in m.pending ==> m.pending[x].completed
  }

  /** The phase after a step. */
  ghost function NextPhase(m: Mux, a: Action): (p: Phase) {
    if !Open(m) then m.phase
    else
      match a
      case DoDeliver(frame, _) =>
        var id := frame.header.requestId;
        if frame.header.messageType != 2 then Closed
        else if m.phase == Closing && id in m.pending && !m.pending[id].completed && m.outbound == []
                && !OthersUnfinished(m, id) then Closed
        else m.phase
      case DoReturn(id) =>
        if m.phase == Closing && id in m.pending && !m.pending[id].completed && m.outbound == []
           && !OthersUnfinished(m, id) then Closed
        else m.phase
      case DoWritten(whole) =>
        if m.batch == [] then m.phase
        else if !whole || (m.phase == Closing && m.outbound == [] && NoneUnfinished(m)) then Closed
        else m.phase
      case DoDrain =>
        if m.phase == Closing then Closing else if m.outbound == [] && NoneUnfinished(m) then Closed else Closing
      case DoFail(s) => if s == Ok then m.phase else Closed
      case DoClose => Closed
      case _ => m.phase
  }

  lemma DrainPhase(m: Mux)
    ensures MaybeFinishDrain(m).phase == if m.phase == Closing && m.outbound == [] && NoneUnfinished(m) then Closed
                                         else m.phase
  {
  }

  lemma OneFewer(m: Mux, m': Mux, id: U64)
    requires id in m.pending && id in m'.pending && m'.pending[id].completed
    requires m'.pending == m.pending[id := m'.pending[id]]
    ensures NoneUnfinished(m') <==> !OthersUnfinished(m, id)
  {
    if !NoneUnfinished(m') {
      var x :| x in m'.pending && !m'.pending[x].completed;
      assert x in m.pending && x != id && !m.pending[x].completed;
    }
    if OthersUnfinished(m, id) {
      var x :| x in m.pending && x != id && !m.pending[x].completed;
      assert x in m'.pending && !m'.pending[x].completed;
    }
  }

  lemma DeliverPhase(m: Mux, frame: F.Frame, number: nat)
    ensures Deliver(m, frame, number).phase == NextPhase(m, DoDeliver(frame, number))
  {
    hide MaybeFinishDrain;
    var id := frame.header.requestId;
    if Open(m) && frame.header.messageType == 2 && id in m.pending && !m.pending[id].completed {
      var done := m.(answered := m.answered + {number},
                     pending := m.pending[id := Answered(m.pending[id], frame, number)]);
      DrainPhase(done);
      OneFewer(m, done, id);
    }
  }

  lemma ReturnPhase(m: Mux, id: U64)
    requires id in m.pending
    ensures Return(m, id).phase == NextPhase(m, DoReturn(id))
  {
    hide MaybeFinishDrain, BytesOf;
    if !m.pending[id].completed {
      var call := m.pending[id];
      var marked := m.(pending := m.pending[id := call.(completed := true, status := TimedOut)]);
      var queued := if call.sent then QueueCancel(marked, id, call.number) else marked;
      DrainPhase(queued);
      OneFewer(m, queued, id);
    }
  }

  /** When the connection closes, and when it only begins to. */
  lemma PhaseExactly(m: Mux, a: Action)
    ensures Step(m, a).phase == NextPhase(m, a)
  {
    hide Deliver, Return, Fill, BytesOf, Losses, F.Encode;
    match a
    case DoDeliver(frame, number) => DeliverPhase(m, frame, number);
    case DoReturn(id) => if id in m.pending { ReturnPhase(m, id); }
    case DoGather => FillPhase(m);
    case DoStart(_, _) =>
    case _ => DrainPhase(m); DrainPhase(m.(phase := Closing));
  }
}
