/**
 The connection as the object it is. The entry of a waiting call is an object that is recycled once the call has
 returned, and the caller keeps a pointer to it over its wait; the queue holds encoded bytes. `State` gives the value
 that all this amounts to, and every operation is proved against the functions on such values.
 */
module MultiplexedConnections {
  import opened Bytes
  import opened Results
  import F = Frame
  import opened MultiplexedCalls

  const POOL_SIZE := 256

  class PendingCall {
    var id: U64
    var completed: bool
    var sent: bool
    var status: CallStatus
    var response: Option<F.Frame>
    ghost var number: nat
    ghost var answers: nat

    ghost predicate Blank()
      reads this
    {
      id == 0 && !completed && !sent && status == NotConnected && response == None
    }

    ghost function View(): (c: Call)
      reads this
    {
      Call(completed, sent, status, response, number, answers)
    }

    constructor ()
      ensures Blank()
    {
      id, completed, sent, status, response := 0, false, false, NotConnected, None;
    }

    method Reset()
      modifies this
      ensures Blank()
    {
      id, status, response, completed, sent := 0, NotConnected, None, false, false;
    }
  }

  datatype OutboundFrame = OutboundFrame(id: U64, bytes: seq<Byte>, control: bool)

  ghost function Record(out: Out): (f: OutboundFrame) {
    OutboundFrame(out.frame.header.requestId, BytesOf(out.frame), out.control)
  }

  ghost function Views(pending: map<U64, PendingCall>): (calls: map<U64, Call>)
    reads pending.Values
  {
    map id | id in pending :: pending[id].View()
  }

  /** The calls in `ids` are still to be completed, and all others are. */
  ghost predicate Completing(start: map<U64, Call>, pending: map<U64, Call>, ids: set<U64>, status: CallStatus) {
    && pending.Keys == start.Keys && ids <= pending.Keys
    && (forall id :: id in ids ==> pending[id] == start[id])
    && (forall id :: id in start && id !in ids ==> pending[id] == Finish(start[id], status, None))
  }

  lemma CompletingStarts(start: map<U64, Call>, status: CallStatus, ids: set<U64>)
    requires forall id :: id in ids <==> id in start && !start[id].completed
    ensures Completing(start, start, ids, status)
  {
  }

  lemma CompletingStep(start: map<U64, Call>, pending: map<U64, Call>, ids: set<U64>, id: U64, status: CallStatus)
    requires Completing(start, pending, ids, status) && id in ids
    ensures id in pending && Completing(start, pending[id := Finish(pending[id], status, None)], ids - {id}, status)
    ensures pending[id].completed ==> pending[id := Finish(pending[id], status, None)] == pending
  {
  }

  lemma Completed(start: map<U64, Call>, pending: map<U64, Call>, status: CallStatus)
    requires Completing(start, pending, {}, status)
    ensures pending == map id | id in start :: Finish(start[id], status, None)
  {
  }

  lemma ClosingFirst(m: Mux)
    ensures CompleteAll(Clear(m.(phase := Closing)), ConnectionClosed).(phase := Closed)
         == CompleteAll(Clear(m), ConnectionClosed).(phase := Closed)
  {
  }

  class MultiplexedConnection {
    const maxPending: nat
    const maxBytes: nat
    var phase: Phase
    var nextId: U64
    var pending: map<U64, PendingCall>
    var pool: seq<PendingCall>
    var outbound: seq<OutboundFrame>
    var outboundBytes: int
    var batch: seq<Byte>
    var wire: seq<Byte>
    ghost var queued: seq<Out>
    ghost var pushed: seq<Out>
    ghost var fates: seq<Fate>
    ghost var results: seq<Outcome>
    ghost var calls: seq<U64>
    ghost var answered: set<nat>

    ghost function State(): (m: Mux)
      reads this, pending.Values
    {
      Mux(maxPending, maxBytes, phase, nextId, Views(pending), queued, outboundBytes, batch, pushed, fates, wire,
          results, calls, answered)
    }

    /** An entry is in use under one id only, or blank in the pool. */
    ghost predicate Entries()
      reads this, pending.Values, pool
    {
      && (forall id :: id in pending ==> pending[id].id == id)
      && (forall i :: 0 <= i < |pool| ==> pool[i].Blank() && pool[i] !in pending.Values)
      && (forall i, j :: 0 <= i < j < |pool| ==> pool[i] != pool[j])
      && |pool| <= POOL_SIZE
    }

    ghost predicate Encoded()
      reads this
    {
      |queued| == |outbound| && forall i :: 0 <= i < |outbound| ==> outbound[i] == Record(queued[i])
    }

    ghost predicate Valid()
      reads this, pending.Values, pool
    {
      Entries() && Encoded()
    }

    ghost function Repr(): (r: set<object>)
      reads this
    {
      {this} + pending.Values + (set p | p in pool)
    }

    constructor (maxPending: nat, maxBytes: nat)
      ensures Valid() && State() == Initial(maxPending, maxBytes) && pending == map[] && pool == []
    {
      this.maxPending, this.maxBytes := maxPending, maxBytes;
      phase, nextId, pending, pool, outbound, outboundBytes, batch := Ready, 1, map[], [], [], 0, [];
      queued, pushed, fates, wire, results, calls, answered := [], [], [], [], [], [], {};
    }

    // -------------------------------------------------------------------------------------------
    // Entries
    // -------------------------------------------------------------------------------------------

    /** An entry nobody uses: from the pool if there is one, otherwise a new one. */
    method AcquirePendingCall() returns (p: PendingCall)
      requires Valid()
      modifies `pool
      ensures Valid() && State() == old(State())
      ensures p.Blank() && p !in pending.Values && p !in pool && (p in old(pool) || fresh(p))
      ensures forall q :: q in pool ==> q in old(pool)
    {
      if pool == [] {
        p := new PendingCall();
      } else {
        p := pool[|pool| - 1];
        pool := pool[..|pool| - 1];
      }
    }

    /** Blanks an entry that has left the map, and keeps it unless the pool is full. */
    method ReleasePendingCall(p: PendingCall)
      requires Valid() && p !in pending.Values && p !in pool
      modifies `pool, p
      ensures Valid() && State() == old(State())
      ensures forall q :: q in pool ==> q in old(pool) || q == p
    {
      if |pool| >= POOL_SIZE { return; }
      p.Reset();
      pool := pool + [p];
    }

    /** Writes the outcome into the entry of a call. */
    method Settle(id: U64, status: CallStatus, response: Option<F.Frame>, ghost answers: nat)
      requires Valid() && id in pending
      modifies pending[id]
      ensures Valid()
      ensures var call := old(pending[id].View()).(completed := true, status := status, response := response,
                                                   answers := answers);
        Views(pending) == old(Views(pending))[id := call]
    {
      var p := pending[id];
      p.completed, p.status, p.response, p.answers := true, status, response, answers;
      assert forall x :: x in pending && x != id ==> pending[x] != p;
    }

    method MarkSent(id: U64)
      requires Valid() && id in pending
      modifies pending[id]
      ensures Valid() && Views(pending) == old(Views(pending))[id := old(pending[id].View()).(sent := true)]
    {
      var p := pending[id];
      p.sent := true;
      assert forall x :: x in pending && x != id ==> pending[x] != p;
    }

    // -------------------------------------------------------------------------------------------
    // Callers
    // -------------------------------------------------------------------------------------------

    method Push(f: OutboundFrame, ghost out: Out)
      requires Valid() && f == Record(out)
      modifies `outbound, `outboundBytes, `queued, `pushed
      ensures Valid() && State() == MultiplexedCalls.Push(old(State()), out)
    {
      hide BytesOf;
      outbound := outbound + [f];
      outboundBytes := outboundBytes + |f.bytes|;
      queued, pushed := queued + [out], pushed + [out];
    }

    predicate Fitting(size: nat)
      reads this
    {
      size <= maxBytes && outboundBytes <= maxBytes - size
    }

    /** A call up to its wait. What comes back is the entry that the caller keeps a pointer to. */
    method Call(request: F.Frame, timeout: nat) returns (answer: Answer, entry: PendingCall?)
      requires Valid()
      modifies this, pool
      ensures Valid() && (State(), answer) == Start(old(State()), request, timeout)
      ensures fresh(Repr() - old(Repr())) && Kept(answer, entry, old(pending))
    {
      hide F.Encode, BytesOf, Enqueue, Views, Valid;
      entry := null;
      if phase != Ready { return Refused(NotConnected), null; }
      if request.header.messageType != F.REQUEST { return Refused(InvalidRequest), null; }
      if timeout == 0 { return Refused(TimedOut), null; }
      SameSizes();
      if |pending| >= maxPending { return Refused(LocalOverloaded), null; }
      var id := request.header.requestId;
      if id == 0 {
        id := NextRequestId();
      }
      var frame := request.(header := request.header.(requestId := id));
      answer, entry := CallEncoded(id, F.Encode(frame), frame);
    }

    ghost predicate Kept(answer: Answer, entry: PendingCall?, before: map<U64, PendingCall>)
      reads this
    {
      if answer.Waiting? then entry != null && pending == before[answer.id := entry] else pending == before
    }

    lemma SameSizes()
      ensures |Views(pending)| == |pending|
    {
      assert Views(pending).Keys == pending.Keys;
      assert |Views(pending)| == |Views(pending).Keys| && |pending| == |pending.Keys|;
    }

    method NextRequestId() returns (id: U64)
      requires Valid()
      modifies `nextId
      ensures Valid() && id == old(nextId) && State() == old(State()).(nextId := AfterId(old(nextId)))
    {
      id := nextId;
      nextId := if nextId == U64_MAX then 1 else nextId + 1;
    }

    method CallEncoded(id: U64, encoded: Result<seq<Byte>, F.Error>, ghost frame: F.Frame)
      returns (answer: Answer, entry: PendingCall?)
      requires Valid() && encoded == F.Encode(frame) && frame.header.requestId == id
      modifies this, pool
      ensures Valid() && (State(), answer) == Enqueue(old(State()), id, frame)
      ensures fresh(Repr() - old(Repr())) && Kept(answer, entry, old(pending))
    {
      hide F.Encode, MultiplexedCalls.Push, Encoded;
      entry := null;
      if encoded.Failure? { return Refused(EncodeError), null; }
      var bytes := encoded.value;
      assert bytes == BytesOf(frame);
      hide BytesOf;
      if id in pending { return Refused(DuplicateRequestId), null; }
      if !Fitting(|bytes|) { return Refused(LocalOverloaded), null; }
      var p := Enter(id);
      Push(OutboundFrame(id, bytes, false), Out(frame, false, |old(calls)|));
      return Waiting(id), p;
    }

    /** The call gets an entry under its id. */
    method Enter(id: U64) returns (p: PendingCall)
      requires Valid() && id !in pending
      modifies this, pool
      ensures Valid() && State() == Accept(old(State()), id) && outbound == old(outbound)
      ensures fresh(Repr() - old(Repr())) && pending == old(pending)[id := p]
    {
      hide Valid, Views;
      p := AcquirePendingCall();
      Register(id, p);
    }

    method Register(id: U64, p: PendingCall)
      requires Valid() && id !in pending && p.Blank() && p !in pending.Values && p !in pool
      modifies `pending, `calls, p
      ensures Valid() && pending == old(pending)[id := p] && calls == old(calls) + [id]
      ensures Views(pending) == Accept(old(State()), id).pending
    {
      hide BytesOf;
      p.id, p.number, p.answers := id, |calls|, |calls|;
      pending, calls := pending[id := p], calls + [id];
      assert forall x :: x in old(pending) ==> pending[x] == old(pending)[x] && pending[x] != p;
      forall i | 0 <= i < |pool| ensures pool[i].Blank() && pool[i] !in pending.Values {
        assert pool[i] != p && pool[i] !in old(pending).Values;
      }
    }

    /** A cancellation is queued only while the connection takes calls, and only if it fits. */
    method QueueCancel(id: U64, ghost number: nat)
      requires Valid()
      modifies `outbound, `outboundBytes, `queued, `pushed
      ensures Valid() && State() == MultiplexedCalls.QueueCancel(old(State()), id, number)
    {
      hide MultiplexedCalls.Push, Valid, Views;
      if phase != Ready || id == 0 { return; }
      var frame := CancelFrame(id);
      var bytes := F.Encode(frame).value;
      assert bytes == BytesOf(frame);
      hide BytesOf, F.Encode;
      if !Fitting(|bytes|) { return; }
      Push(OutboundFrame(id, bytes, true), Out(frame, true, number));
    }

    /**
     The caller's own code after its wait. The entry it points to is still the one under its id, though entries of other
     calls have come and gone; and it is only given back afterwards.
     */
    method Return(id: U64, entry: PendingCall) returns (result: CallResult)
      requires Valid() && id in pending && pending[id] == entry
      modifies this, pending.Values
      ensures Valid() && State() == MultiplexedCalls.Return(old(State()), id)
      ensures pending == old(pending) - {id} && (forall q :: q in pool ==> q in old(pool) || q == entry)
      ensures |results| > 0 && results[|results| - 1].result == result
    {
      hide Valid, Views, MultiplexedCalls.Leave, MultiplexedCalls.Expire;
      ViewOf(id);
      if !entry.completed {
        Expire(id, entry);
        ViewOf(id);
      }
      result := Leave(id, entry);
    }

    lemma ViewOf(id: U64)
      requires id in pending
      ensures id in Views(pending) && Views(pending)[id] == pending[id].View()
    {
    }

    method Expire(id: U64, entry: PendingCall)
      requires Valid() && id in pending && pending[id] == entry && !entry.completed
      modifies this, pending.Values
      ensures Valid() && pending == old(pending) && pool == old(pool)
      ensures id in old(State()).pending && State() == MultiplexedCalls.Expire(old(State()), id)
    {
      hide Valid, Views, MultiplexedCalls.QueueCancel, MultiplexedCalls.MaybeFinishDrain;
      ViewOf(id);
      Settle(id, TimedOut, entry.response, entry.answers);
      ViewOf(id);
      if entry.sent {
        QueueCancel(id, entry.number);
      }
      MaybeFinishDrain();
    }

    method Leave(id: U64, entry: PendingCall) returns (result: CallResult)
      requires Valid() && id in pending && pending[id] == entry
      modifies `pending, `pool, `results, entry
      ensures Valid() && id in old(State()).pending && State() == MultiplexedCalls.Leave(old(State()), id)
      ensures pending == old(pending) - {id} && (forall q :: q in pool ==> q in old(pool) || q == entry)
      ensures |results| > 0 && results[|results| - 1].result == result
    {
      hide BytesOf;
      result := CallResult(id, entry.status, entry.response);
      results := results + [Outcome(entry.number, entry.answers, result)];
      pending := pending - {id};
      assert forall x :: x in pending ==> pending[x] != entry;
      assert Views(pending) == old(Views(pending)) - {id};
      ReleasePendingCall(entry);
    }

    // -------------------------------------------------------------------------------------------
    // Reader and writer
    // -------------------------------------------------------------------------------------------

    method Deliver(frame: F.Frame, ghost number: nat)
      requires Valid()
      modifies this, pending.Values
      ensures Valid() && pending == old(pending) && pool == old(pool)
      ensures State() == MultiplexedCalls.Deliver(old(State()), frame, number)
    {
      hide Valid, Views, Fail, MultiplexedCalls.MaybeFinishDrain;
      if phase != Ready && phase != Closing { return; }
      if frame.header.messageType != F.RESPONSE {
        FailConnection(ProtocolError);
        return;
      }
      var id := frame.header.requestId;
      Hear(number);
      SameKeys();
      if id in pending {
        ViewOf(id);
        if !pending[id].completed {
          Settle(id, Ok, Some(frame), number);
          MaybeFinishDrain();
        }
      }
    }

    lemma SameKeys()
      ensures Views(pending).Keys == pending.Keys
    {
    }

    ghost method Hear(number: nat)
      requires Valid()
      modifies `answered
      ensures Valid() && answered == old(answered) + {number}
    {
      answered := answered + {number};
    }

    /** The writer takes frames while the batch has room; a frame of a finished call is skipped. */
    method GatherBatch()
      requires Valid()
      modifies this, pending.Values
      ensures Valid() && pending == old(pending) && pool == old(pool) && State() == Gather(old(State()))
    {
      hide Valid, Views, Pop, BytesOf;
      if (phase != Ready && phase != Closing) || batch != [] { return; }
      while outbound != [] && (batch == [] || |batch| + |outbound[0].bytes| <= BATCH_BYTES)
        invariant Valid() && pending == old(pending) && pool == old(pool)
        invariant Fill(State()) == Fill(old(State()))
        decreases |outbound|
      {
        FrontIs();
        PopFront();
      }
      FrontIs();
    }

    lemma FrontIs()
      requires Valid()
      ensures |queued| == |outbound| && (outbound != [] ==> outbound[0] == Record(queued[0]))
    {
    }

    method PopFront()
      requires Valid() && outbound != []
      modifies this, pending.Values
      ensures Valid() && pending == old(pending) && pool == old(pool) && |outbound| == |old(outbound)| - 1
      ensures old(queued) != [] && State() == Pop(old(State()))
    {
      hide Valid, Views, BytesOf, Finished;
      FrontIs();
      SameKeys();
      ghost var before, out := State(), queued[0];
      var frame := outbound[0];
      Drop();
      if !frame.control {
        if frame.id !in pending || pending[frame.id].completed {
          if frame.id in pending { ViewOf(frame.id); }
          Note(MultiplexedCalls.Dropped(out));
          return;
        }
        ViewOf(frame.id);
        MarkSent(frame.id);
      }
      Keep(frame.bytes, MultiplexedCalls.Kept(out, Finished(before, out.number)));
    }

    method Drop()
      requires Valid() && outbound != []
      modifies `outbound, `outboundBytes, `queued
      ensures Valid() && |queued| == |outbound| == |old(outbound)| - 1 && queued == old(queued[1..])
      ensures outboundBytes == old(outboundBytes) - |old(outbound)[0].bytes|
    {
      hide BytesOf;
      outboundBytes := outboundBytes - |outbound[0].bytes|;
      outbound, queued := outbound[1..], queued[1..];
    }

    ghost method Note(fate: Fate)
      requires Valid()
      modifies `fates
      ensures Valid() && fates == old(fates) + [fate]
    {
      fates := fates + [fate];
    }

    method Keep(bytes: seq<Byte>, ghost fate: Fate)
      requires Valid()
      modifies `batch, `wire, `fates
      ensures Valid() && batch == old(batch) + bytes && wire == old(wire) + bytes && fates == old(fates) + [fate]
    {
      batch, wire, fates := batch + bytes, wire + bytes, fates + [fate];
    }

    method Written(whole: bool)
      requires Valid()
      modifies this, pending.Values
      ensures Valid() && pending == old(pending) && pool == old(pool)
      ensures State() == MultiplexedCalls.Written(old(State()), whole)
    {
      hide Valid, Views, Fail, MultiplexedCalls.MaybeFinishDrain;
      if (phase != Ready && phase != Closing) || batch == [] { return; }
      if whole {
        MaybeFinishDrain();
      } else {
        FailConnection(ConnectionClosed);
      }
      ClearBatch();
    }

    method ClearBatch()
      requires Valid()
      modifies `batch
      ensures Valid() && batch == []
    {
      batch := [];
    }

    // -------------------------------------------------------------------------------------------
    // The end
    // -------------------------------------------------------------------------------------------

    method ClearOutbound()
      requires Valid()
      modifies `outbound, `outboundBytes, `queued, `fates
      ensures Valid() && State() == Clear(old(State()))
    {
      hide Losses;
      fates := fates + Losses(queued);
      outbound, outboundBytes, queued := [], 0, [];
    }

    method SetPhase(phase': Phase)
      requires Valid()
      modifies `phase
      ensures Valid() && phase == phase'
    {
      phase := phase';
    }

    method FailConnection(status: CallStatus)
      requires Valid()
      modifies this, pending.Values
      ensures Valid() && pending == old(pending) && pool == old(pool)
      ensures State() == Fail(old(State()), status)
    {
      hide Valid, Views, Clear, CompleteAll;
      if phase == Closed || phase == Disconnected { return; }
      ClearOutbound();
      SetPhase(Closed);
      CompleteAllPending(status);
    }

    method Close()
      requires Valid()
      modifies this, pending.Values
      ensures Valid() && pending == old(pending) && pool == old(pool)
      ensures State() == MultiplexedCalls.Close(old(State()))
    {
      hide Valid, Views, Clear, CompleteAll;
      if phase == Closed || phase == Disconnected { return; }
      ClosingFirst(State());
      SetPhase(Closing);
      ClearOutbound();
      CompleteAllPending(ConnectionClosed);
      SetPhase(Closed);
    }

    /** Collects the ids of the unfinished calls, then completes each that is still unfinished. */
    method CompleteAllPending(status: CallStatus)
      requires Valid()
      modifies pending.Values
      ensures Valid() && State() == CompleteAll(old(State()), status)
    {
      hide Completing, Valid, Views;
      var ids := UnfinishedIds();
      CompletingStarts(Views(pending), status, ids);
      CompleteEach(ids, status);
      Completed(old(Views(pending)), Views(pending), status);
    }

    method UnfinishedIds() returns (ids: set<U64>)
      requires Valid()
      ensures forall id :: id in ids <==> id in Views(pending) && !Views(pending)[id].completed
    {
      ids := set id | id in pending && !pending[id].completed;
    }

    method CompleteEach(ids: set<U64>, status: CallStatus)
      requires Valid() && Completing(Views(pending), Views(pending), ids, status)
      modifies pending.Values
      ensures Valid() && Completing(old(Views(pending)), Views(pending), {}, status)
    {
      hide Completing, Valid, Views;
      var todo := ids;
      while todo != {}
        invariant Valid() && Completing(old(Views(pending)), Views(pending), todo, status)
        decreases |todo|
      {
        var id :| id in todo;
        CompletingStep(old(Views(pending)), Views(pending), todo, id, status);
        SameKeys();
        ViewOf(id);
        todo := todo - {id};
        if id in pending && !pending[id].completed {
          Settle(id, status, None, pending[id].answers);
        }
      }
    }

    method HasUnfinishedPending() returns (found: bool)
      requires Valid()
      ensures found <==> Unfinished(State())
    {
      hide Valid, Views;
      SameKeys();
      forall id | id in pending { ViewOf(id); }
      var ids := pending.Keys;
      while ids != {}
        invariant ids <= pending.Keys && forall id :: id in pending && id !in ids ==> pending[id].completed
        decreases |ids|
      {
        var id :| id in ids;
        if !pending[id].completed { return true; }
        ids := ids - {id};
      }
      return false;
    }

    method MaybeFinishDrain()
      requires Valid()
      modifies this, pending.Values
      ensures Valid() && pending == old(pending) && pool == old(pool)
      ensures State() == MultiplexedCalls.MaybeFinishDrain(old(State()))
    {
      hide Valid, Views, MultiplexedCalls.Close, Unfinished;
      FrontIs();
      if phase == Closing && outbound == [] {
        var unfinished := HasUnfinishedPending();
        if !unfinished {
          Close();
        }
      }
    }

    method BeginDrain()
      requires Valid()
      modifies this, pending.Values
      ensures Valid() && pending == old(pending) && pool == old(pool)
      ensures State() == MultiplexedCalls.BeginDrain(old(State()))
    {
      hide Valid, Views, MultiplexedCalls.MaybeFinishDrain;
      if phase != Ready { return; }
      SetPhase(Closing);
      MaybeFinishDrain();
    }
  }
}
