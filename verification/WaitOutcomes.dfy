/**
 Which waits end, and with which result, at each operation of the I/O manager: read off the log, the waits and the
 operation itself. And which routines a poll wakes.
 */
module WaitOutcomes {
  import opened Results
  import opened Sequences
  import AlarmClocks
  import opened IoWaits

  // ---------------------------------------------------------------------------------------------
  // What ends a wait
  // ---------------------------------------------------------------------------------------------

  /** An event that concerns the wait: its descriptor, with a bit its direction is woken by. */
  ghost predicate Concerns(wait: Wait, event: (int, Mask)) {
    && event.0 == wait.fd
    && if wait.direction == Read then event.1.input || event.1.err || event.1.hup || event.1.rdhup
       else event.1.output || event.1.err || event.1.hup
  }

  ghost predicate Roused(wait: Wait, events: seq<(int, Mask)>) {
    exists i :: 0 <= i < |events| && Concerns(wait, events[i])
  }

  ghost predicate Overdue(wait: Wait, now: nat) {
    wait.deadline.Some? && wait.deadline.value <= now
  }

  /** The operation ends an open wait like this with this result at this time. */
  ghost predicate CallsFor(wait: Wait, op: Action, result: WaitResult, at: nat) {
    match op
    case DoCancelWait(r, now) => result == Cancelled && at == now && wait.routine == r
    case DoCancelFd(fd, now) => result == Cancelled && at == now && wait.fd == fd
    case DoPoll(events, before, now, _) =>
      if Roused(wait, events) then result == IoReady && at == before
      else result == Timeout && at == now && Overdue(wait, now)
    case _ => false
  }

  /** What the operation added to the log. */
  ghost function NewNotes(io: Io, io': Io): (notes: seq<Note>) {
    if |io.log| <= |io'.log| then io'.log[|io.log|..] else []
  }

  // ---------------------------------------------------------------------------------------------
  // Steps that end waits
  // ---------------------------------------------------------------------------------------------

  /** From `io` to `io'` exactly the waits in `who` end, all with this result. */
  ghost predicate Ends(io: Io, io': Io, who: set<nat>, result: WaitResult, at: nat) {
    && io'.ops == io.ops && io.log <= io'.log
    && (forall n :: n in NewNotes(io, io') ==> n.Ended? && n.result == result && n.at == at)
    && (forall w :: Ended(w, result, at) in NewNotes(io, io') <==> w in who)
    && (forall w: nat :: Pending(io', w) <==> Pending(io, w) && w !in who)
  }

  lemma NoneEnd(io: Io, io': Io, result: WaitResult, at: nat)
    requires io'.ops == io.ops && io'.log == io.log && io'.ioWait == io.ioWait
    ensures Ends(io, io', {}, result, at)
  {
    forall w: nat ensures Pending(io', w) <==> Pending(io, w) { }
  }

  lemma EndsThen(io: Io, io1: Io, io2: Io, s: set<nat>, t: set<nat>, result: WaitResult, at: nat)
    requires Ends(io, io1, s, result, at) && Ends(io1, io2, t, result, at)
    ensures Ends(io, io2, s + t, result, at)
  {
    assert NewNotes(io, io2) == NewNotes(io, io1) + NewNotes(io1, io2);
    forall w: nat ensures Pending(io2, w) <==> Pending(io, w) && w !in s + t {
      assert Pending(io1, w) <==> Pending(io, w) && w !in s;
    }
  }

  lemma CompleteEnds(io: Io, w: nat, result: WaitResult, now: nat)
    requires Pending(io, w) && Routines(io)
    ensures Ends(io, CompleteWait(io, w, result, now), {w}, result, now)
  {
    hide CompleteWait;
    var io' := CompleteWait(io, w, result, now);
    CompleteShape(io, w, result, now);
    assert NewNotes(io, io') == [Ended(w, result, now)];
    forall x: nat ensures Pending(io', x) <==> Pending(io, x) && x !in {w} {
      StillPending(io, io', w, result, now, x);
    }
  }

  /** The waits pending on one side of a descriptor: at most one. */
  ghost function On(io: Io, fd: int, d: Direction): (ws: set<nat>) {
    set w: nat | w < |io.ops| && Pending(io, w) && io.ops[w].fd == fd && io.ops[w].direction == d
  }

  lemma OneOnSide(io: Io, fd: int, d: Direction)
    requires Consistent(io, {}, {})
    ensures On(io, fd, d) == AsSet(Waiter(io, fd, d))
  {
    hide Routines, KeysOk, Recorded, Awaited;
    assert SlotOk(io, fd, d);
    forall w: nat ensures w in On(io, fd, d) <==> Waiter(io, fd, d) == Some(w) {
      if w in On(io, fd, d) { assert WaitOk(io, w, {}, {}); }
    }
  }

  lemma SideEnds(io: Io, fd: int, d: Direction, wakes: bool, now: nat)
    requires Consistent(io, {}, {})
    ensures Ends(io, CompleteSide(io, fd, d, wakes, now), if wakes then On(io, fd, d) else {}, IoReady, now)
  {
    hide WaitsOk, KeysOk, Recorded, Awaited, CompleteWait, Ends, Routines;
    assert SlotOk(io, fd, d);
    OneOnSide(io, fd, d);
    var w := Waiter(io, fd, d);
    if wakes && w.Some? {
      CompleteEnds(io, w.value, IoReady, now);
    } else {
      NoneEnd(io, io, IoReady, now);
    }
  }

  ghost function Affected(io: Io, events: seq<(int, Mask)>): (ws: set<nat>) {
    set w: nat | w < |io.ops| && Pending(io, w) && Roused(io.ops[w], events)
  }

  lemma {:induction false} EventsEnd(io: Io, events: seq<(int, Mask)>, now: nat)
    requires Consistent(io, {}, {})
    ensures Ends(io, CompleteEvents(io, events, now), Affected(io, events), IoReady, now)
    decreases |events|
  {
    hide Consistent, CompleteSide, Ends, WakesRead, WakesWrite, On;
    if events == [] {
      NoneEnd(io, io, IoReady, now);
      assert Affected(io, events) == {};
    } else {
      var init := events[..|events| - 1];
      var (fd, m) := events[|events| - 1];
      EventsEnd(io, init, now);
      EventsKeep(io, init, now);
      var a := CompleteEvents(io, init, now);
      var b := CompleteSide(a, fd, Read, WakesRead(m), now);
      SideEnds(a, fd, Read, WakesRead(m), now);
      SideKeeps(a, fd, Read, WakesRead(m), now);
      SideEnds(b, fd, Write, WakesWrite(m), now);
      var s := if WakesRead(m) then On(a, fd, Read) else {};
      var t := if WakesWrite(m) then On(b, fd, Write) else {};
      EndsThen(io, a, b, Affected(io, init), s, IoReady, now);
      EndsThen(io, b, CompleteIo(a, fd, m, now), Affected(io, init) + s, t, IoReady, now);
      OneMoreEvent(io, a, b, events, s, t, now);
    }
  }

  lemma RousedMore(wait: Wait, events: seq<(int, Mask)>)
    requires events != []
    ensures Roused(wait, events) <==>
      Roused(wait, events[..|events| - 1]) || Concerns(wait, events[|events| - 1])
  {
    hide Concerns;
    var init := events[..|events| - 1];
    if Roused(wait, init) {
      var i :| 0 <= i < |init| && Concerns(wait, init[i]);
      assert Concerns(wait, events[i]);
    }
    if Roused(wait, events) {
      var i :| 0 <= i < |events| && Concerns(wait, events[i]);
      assert i < |init| ==> Concerns(wait, init[i]);
    }
  }

  lemma OneMoreEvent(io: Io, a: Io, b: Io, events: seq<(int, Mask)>, s: set<nat>, t: set<nat>, now: nat)
    requires events != []
    requires var (fd, m) := events[|events| - 1];
      && Ends(io, a, Affected(io, events[..|events| - 1]), IoReady, now) && Ends(a, b, s, IoReady, now)
      && s == (if WakesRead(m) then On(a, fd, Read) else {}) && t == (if WakesWrite(m) then On(b, fd, Write) else {})
    ensures Affected(io, events) == Affected(io, events[..|events| - 1]) + s + t
  {
    hide Roused, NewNotes;
    var init := events[..|events| - 1];
    forall w: nat ensures w in Affected(io, events) <==> w in Affected(io, init) + s + t {
      if w < |io.ops| {
        RousedMore(io.ops[w], events);
        assert Pending(a, w) <==> Pending(io, w) && w !in Affected(io, init);
        assert Pending(b, w) <==> Pending(a, w) && w !in s;
      }
    }
  }

  ghost function Lapsed(io: Io, keys: seq<Key>, now: nat): (ws: set<nat>) {
    set w: nat | w < |io.ops| && IoKey(w) in keys && Overdue(io.ops[w], now)
  }

  lemma KeyEnds(io: Io, key: Key, now: nat, loose: set<Key>)
    requires Consistent(io, {}, loose) && key in loose && io.clock.tick == now
    ensures io.clock.slots > 0 && Ends(io, CompleteKey(io, key, now), Lapsed(io, [key], now), Timeout, now)
  {
    hide WaitsOk, SlotsOk, Recorded, Awaited, CompleteWait, Ends, Routines;
    LooseOwner(io, key, loose);
    match key
    case IoKey(w) =>
      if now < io.ops[w].deadline.value {
        assert Lapsed(io, [key], now) == {};
        NoneEnd(io, CompleteKey(io, key, now), Timeout, now);
      } else {
        assert Lapsed(io, [key], now) == {w};
        CompleteEnds(io, w, Timeout, now);
      }
    case TimerKey(r) =>
      assert Lapsed(io, [key], now) == {};
      NoneEnd(io, CompleteKey(io, key, now), Timeout, now);
  }

  lemma {:induction false} KeysEnd(io: Io, keys: seq<Key>, now: nat, loose: set<Key>)
    requires Consistent(io, {}, loose + Elements(keys)) && io.clock.tick == now
    requires forall i, j :: 0 <= i < j < |keys| ==> keys[i] != keys[j]
    requires forall k :: k in keys ==> k !in loose
    ensures io.clock.slots > 0 && Ends(io, CompleteKeys(io, keys, now), Lapsed(io, keys, now), Timeout, now)
    decreases |keys|
  {
    hide Consistent, CompleteKey, Ends, Lapsed;
    SlotsKnown(io, loose + Elements(keys));
    if keys == [] {
      LapsedNone(io, now);
      NoneEnd(io, io, Timeout, now);
    } else {
      var init, key := keys[..|keys| - 1], keys[|keys| - 1];
      assert keys == init + [key];
      assert loose + Elements(keys) == loose + {key} + Elements(init);
      KeysEnd(io, init, now, loose + {key});
      KeysKeep(io, init, now, loose + {key});
      var io1 := CompleteKeys(io, init, now);
      KeyEnds(io1, key, now, loose + {key});
      EndsThen(io, io1, CompleteKeys(io, keys, now), Lapsed(io, init, now), Lapsed(io1, [key], now), Timeout, now);
      LapsedMore(io, io1, init, key, now);
    }
  }

  lemma SlotsKnown(io: Io, loose: set<Key>)
    requires Consistent(io, {}, loose)
    ensures io.clock.slots > 0
  {
  }

  lemma LapsedNone(io: Io, now: nat)
    ensures Lapsed(io, [], now) == {}
  {
  }

  lemma LapsedMore(io: Io, io1: Io, init: seq<Key>, key: Key, now: nat)
    requires io1.ops == io.ops
    ensures Lapsed(io, init + [key], now) == Lapsed(io, init, now) + Lapsed(io1, [key], now)
  {
  }

  ghost function Late(io: Io, now: nat): (ws: set<nat>) {
    set w: nat | w < |io.ops| && Pending(io, w) && Overdue(io.ops[w], now)
  }

  /** The timers that come out of the wheel in time are those of the pending waits that are overdue. */
  lemma OverdueCome(io: Io, keys: seq<Key>, now: nat)
    requires Consistent(io, {}, {}) && Orders(keys, io.clock, now)
    ensures Lapsed(io, keys, now) == Late(io, now)
  {
    hide Routines, SlotsOk, Recorded, Awaited;
    forall w: nat | w < |io.ops| && Overdue(io.ops[w], now) ensures IoKey(w) in keys <==> Pending(io, w) {
      if Pending(io, w) { assert WaitOk(io, w, {}, {}); }
      if IoKey(w) in keys { assert KeyOk(io, IoKey(w)); }
    }
  }

  lemma FlushEnds(io: Io, now: nat)
    requires io.flushInterval > 0
    ensures Flush(io, now).ops == io.ops && Flush(io, now).log == io.log && Flush(io, now).ioWait == io.ioWait
  {
    if io.flushQueue != [] && now >= io.nextFlush {
      WakeEnds(io.(nextFlush := NextFlush(io.nextFlush, io.flushInterval, now)), io.flushQueue);
    }
  }

  lemma {:induction false} WakeEnds(io: Io, queue: seq<nat>)
    ensures var io' := WakeEach(io, queue); io'.ops == io.ops && io'.log == io.log && io'.ioWait == io.ioWait
    decreases |queue|
  {
    if queue != [] { WakeEnds(io, queue[..|queue| - 1]); }
  }

  // ---------------------------------------------------------------------------------------------
  // Every operation
  // ---------------------------------------------------------------------------------------------

  /** The operation ends exactly the open waits it calls for, with the result and at the time it calls for. */
  ghost predicate EndsAsCalled(io: Io, op: Action, io': Io) {
    && io.log <= io'.log
    && forall w: nat, result, at: nat :: Ended(w, result, at) in NewNotes(io, io') <==>
         w in Open(io.log) && w < |io.ops| && CallsFor(io.ops[w], op, result, at)
  }

  lemma OpenIsPending(io: Io, w: nat)
    requires Consistent(io, {}, {})
    ensures w in Open(io.log) <==> Pending(io, w)
  {
  }

  /** From the set of waits that end, all with one result. */
  lemma CalledFor(io: Io, op: Action, io': Io, who: set<nat>, result: WaitResult, at: nat)
    requires Consistent(io, {}, {}) && Ends(io, io', who, result, at)
    requires forall w: nat, r, t: nat :: w < |io.ops| && CallsFor(io.ops[w], op, r, t) ==> r == result && t == at
    requires forall w: nat :: w in who <==> Pending(io, w) && CallsFor(io.ops[w], op, result, at)
    ensures EndsAsCalled(io, op, io')
  {
    hide Consistent, CallsFor, Open;
    forall w: nat, r, t: nat
      ensures Ended(w, r, t) in NewNotes(io, io') <==>
        w in Open(io.log) && w < |io.ops| && CallsFor(io.ops[w], op, r, t)
    {
      OpenIsPending(io, w);
    }
  }

  lemma CancelWaitEnds(io: Io, r: nat, now: nat)
    requires Consistent(io, {}, {})
    ensures EndsAsCalled(io, DoCancelWait(r, now), CancelWait(io, r, now).0)
  {
    hide WaitsOk, SlotsOk, KeysOk, Recorded, Awaited, CompleteWait, Ends;
    if CancelWait(io, r, now).1 {
      var w := io.ioWait[r];
      CompleteEnds(io, w, Cancelled, now);
      CalledFor(io, DoCancelWait(r, now), CancelWait(io, r, now).0, {w}, Cancelled, now);
    } else {
      NoneEnd(io, io, Cancelled, now);
      CalledFor(io, DoCancelWait(r, now), io, {}, Cancelled, now);
    }
  }

  lemma CancelSideEnds(io: Io, w: Option<nat>, now: nat)
    requires Routines(io) && (w.Some? ==> Pending(io, w.value))
    ensures Ends(io, CancelSide(io, w, now), AsSet(w), Cancelled, now) && Routines(CancelSide(io, w, now))
  {
    hide CompleteWait, Routines, Ends;
    if w.Some? {
      CompleteEnds(io, w.value, Cancelled, now);
      CompleteShape(io, w.value, Cancelled, now);
      CompleteRoutines(io, CompleteWait(io, w.value, Cancelled, now), w.value, Cancelled, now);
    } else {
      NoneEnd(io, io, Cancelled, now);
    }
  }

  lemma CancelBothEnd(io: Io, read: Option<nat>, write: Option<nat>, now: nat)
    requires Routines(io) && (read.Some? ==> Pending(io, read.value) && read != write)
    requires write.Some? ==> Pending(io, write.value)
    ensures Ends(io, CancelSide(CancelSide(io, read, now), write, now), AsSet(read) + AsSet(write), Cancelled, now)
  {
    hide Routines, CancelSide;
    var io1 := CancelSide(io, read, now);
    CancelSideEnds(io, read, now);
    assert write.Some? ==> Pending(io1, write.value);
    CancelSideEnds(io1, write, now);
    EndsThen(io, io1, CancelSide(io1, write, now), AsSet(read), AsSet(write), Cancelled, now);
  }

  lemma CancelFdEnds(io: Io, fd: int, now: nat)
    requires Consistent(io, {}, {})
    ensures EndsAsCalled(io, DoCancelFd(fd, now), CancelFd(io, fd, now))
  {
    hide Consistent, Ends, CancelFd, EndsAsCalled, AsSet;
    var who := On(io, fd, Read) + On(io, fd, Write);
    var io' := CancelFd(io, fd, now);
    OneOnSide(io, fd, Read);
    OneOnSide(io, fd, Write);
    CancelFdSteps(io, fd, now);
    CalledFor(io, DoCancelFd(fd, now), io', who, Cancelled, now);
  }

  lemma CancelFdSteps(io: Io, fd: int, now: nat)
    requires Consistent(io, {}, {})
    ensures Ends(io, CancelFd(io, fd, now), AsSet(Waiter(io, fd, Read)) + AsSet(Waiter(io, fd, Write)), Cancelled, now)
  {
    hide WaitsOk, KeysOk, Recorded, Awaited, CancelSide, Ends;
    if fd !in io.fds {
      NoneEnd(io, io, Cancelled, now);
      assert AsSet<nat>(None) + AsSet<nat>(None) == {};
    } else {
      var c := io.fds[fd];
      TwoWaiters(io, fd);
      var io1 := io.(fds := io.fds[fd := Context(None, None)]);
      NoneEnd(io, io1, Cancelled, now);
      SameRoutines(io, io1);
      CancelBothEnd(io1, c.read, c.write, now);
      var io2 := CancelSide(CancelSide(io1, c.read, now), c.write, now);
      var who := AsSet(c.read) + AsSet(c.write);
      EndsThen(io, io1, io2, {}, who, Cancelled, now);
      NoneEnd(io2, io2.(fds := io2.fds - {fd}), Cancelled, now);
      EndsThen(io, io2, io2.(fds := io2.fds - {fd}), {} + who, {}, Cancelled, now);
      assert {} + who + {} == who;
    }
  }

  /** The timers of a poll. */
  lemma HandledEnd(io: Io, keys: seq<Key>, now: nat)
    requires Consistent(io, {}, {} + Elements(keys)) && forall k :: k in keys ==> io.clock.tick == now
    requires forall i, j :: 0 <= i < j < |keys| ==> keys[i] != keys[j]
    ensures io.clock.slots > 0 && Ends(io, CompleteKeys(io, keys, now), Lapsed(io, keys, now), Timeout, now)
  {
    hide Consistent, CompleteKey, Ends, Lapsed;
    SlotsKnown(io, {} + Elements(keys));
    if keys == [] {
      LapsedNone(io, now);
      NoneEnd(io, io, Timeout, now);
    } else {
      assert keys[0] in keys;
      KeysEnd(io, keys, now, {});
    }
  }

  lemma TimersEnd(io: Io, keys: seq<Key>, now: nat)
    requires Consistent(io, {}, {}) && Orders(keys, io.clock, now)
    ensures io.clock.slots > 0
    ensures var lapsed := io.(clock := AlarmClocks.Wait(io.clock, now));
      Ends(io, CompleteKeys(lapsed, keys, now), Late(io, now), Timeout, now)
  {
    hide Consistent, CompleteKeys, Ends;
    SlotsKnown(io, {});
    var lapsed := io.(clock := AlarmClocks.Wait(io.clock, now));
    OverdueCome(io, keys, now);
    if now > io.clock.tick {
      LapseKeeps(io, now);
      assert {} + Elements(keys) == AlarmClocks.Due(io.clock, now);
    } else {
      assert {} + Elements(keys) == {};
    }
    HandledEnd(lapsed, keys, now);
    NoneEnd(io, lapsed, Timeout, now);
    var who := Lapsed(io, keys, now);
    assert Lapsed(lapsed, keys, now) == who;
    EndsThen(io, lapsed, CompleteKeys(lapsed, keys, now), {}, who, Timeout, now);
    assert {} + who == who;
  }

  lemma PollEnds(io: Io, events: seq<(int, Mask)>, before: nat, now: nat, keys: seq<Key>)
    requires Consistent(io, {}, {}) && io.clock.slots > 0
    requires io.flushInterval > 0 && Orders(keys, BeforeTimers(io, events, before, now).clock, now)
    ensures EndsAsCalled(io, DoPoll(events, before, now, keys), Poll(io, events, before, now, keys))
  {
    hide Consistent, CompleteEvents, Flush, CompleteKeys, Orders, Open;
    var a := CompleteEvents(io, events, before);
    EventsEnd(io, events, before);
    EventsKeep(io, events, before);
    FlushKeeps(a, now);
    FlushEnds(a, now);
    var f := BeforeTimers(io, events, before, now);
    TimersEnd(f, keys, now);
    var d := CompleteKeys(f.(clock := AlarmClocks.Wait(f.clock, now)), keys, now);
    PollNotes(io, a, f, d, Poll(io, events, before, now, keys), events, before, now, keys);
  }

  lemma PollNotes(io: Io, a: Io, f: Io, d: Io, io': Io, events: seq<(int, Mask)>, before: nat, now: nat, keys: seq<Key>)
    requires Consistent(io, {}, {}) && Ends(io, a, Affected(io, events), IoReady, before)
    requires f.ops == a.ops && f.log == a.log && f.ioWait == a.ioWait
    requires Ends(f, d, Late(f, now), Timeout, now)
    requires io' == d.(log := d.log + [Polled(now)])
    ensures EndsAsCalled(io, DoPoll(events, before, now, keys), io')
  {
    hide Consistent, Open, Roused, Overdue;
    assert NewNotes(io, io') == NewNotes(io, a) + NewNotes(f, d) + [Polled(now)];
    var op := DoPoll(events, before, now, keys);
    forall w: nat, r, t: nat
      ensures Ended(w, r, t) in NewNotes(io, io') <==>
        w in Open(io.log) && w < |io.ops| && CallsFor(io.ops[w], op, r, t)
    {
      OpenIsPending(io, w);
      assert Ended(w, r, t) in NewNotes(io, io') <==>
        Ended(w, r, t) in NewNotes(io, a) || Ended(w, r, t) in NewNotes(f, d);
      assert Pending(f, w) <==> Pending(a, w);
    }
  }

  /** The other operations end nothing. */
  lemma OthersEndNothing(io: Io, op: Action)
    requires Consistent(io, {}, {}) && !op.DoPoll? && !op.DoCancelWait? && !op.DoCancelFd?
    ensures io.clock.slots > 0 && io.flushInterval > 0 && EndsAsCalled(io, op, Apply(io, op))
  {
    hide Consistent, Open, Apply;
    ConsistentBasics(io);
    OthersNote(io, op);
    var io' := Apply(io, op);
    assert forall n :: n in NewNotes(io, io') ==> !n.Ended?;
  }

  lemma OthersNote(io: Io, op: Action)
    requires io.clock.slots > 0 && io.flushInterval > 0 && !op.DoPoll? && !op.DoCancelWait? && !op.DoCancelFd?
    ensures var io' := Apply(io, op);
      io.log <= io'.log && |io'.log| <= |io.log| + 1 && (|io'.log| > |io.log| ==> !io'.log[|io.log|].Ended?)
  {
    hide AlarmClocks.Rearm, AlarmClocks.Clear, DeadlineAfter;
    match op
    case DoAwait(r, fd, d, timeout, now, controlled) =>
    case DoResume(r) =>
    case _ =>
  }

  /**
   In every run, a wait ends exactly when an operation calls for it: readiness when a poll has an event for its
   descriptor with a bit that wakes its direction, timeout when a poll passes its deadline without such an event,
   cancellation when its routine's wait or its descriptor is cancelled.
   */
  lemma WaitsEndAsCalled(states: seq<Io>, ops: seq<Action>, i: nat)
    requires Run(states, ops) && i < |ops|
    ensures EndsAsCalled(states[i], ops[i], states[i + 1])
  {
    hide Consistent, EndsAsCalled, CancelWait, CancelFd, Poll, Orders;
    RunConsistent(states, ops, i);
    assert Follows(states[i], ops[i], states[i + 1]);
    var io, op := states[i], ops[i];
    match op
    case DoPoll(events, before, now, keys) => PollEnds(io, events, before, now, keys);
    case DoCancelWait(r, now) => CancelWaitEnds(io, r, now);
    case DoCancelFd(fd, now) => CancelFdEnds(io, fd, now);
    case _ => OthersEndNothing(io, op);
  }

  // ---------------------------------------------------------------------------------------------
  // How a wait begins
  // ---------------------------------------------------------------------------------------------

  /** A deadline in 64 bits: the last instant there is, if the sum does not fit. */
  ghost function Saturated(now: nat, timeout: nat): (d: nat) {
    if now + timeout > 0xFFFF_FFFF_FFFF_FFFF then 0xFFFF_FFFF_FFFF_FFFF else now + timeout
  }

  ghost predicate Occupied(io: Io, fd: int, d: Direction) {
    exists w: nat :: w in Open(io.log) && w < |io.ops| && io.ops[w].fd == fd && io.ops[w].direction == d
  }

  ghost function WaitFor(r: nat, fd: int, d: Direction, timeout: nat, now: nat): (wait: Wait) {
    Wait(r, fd, d, if timeout == 0xFFFF_FFFF_FFFF_FFFF then None else Some(Saturated(now, timeout)))
  }

  /**
   A call by a running routine with a timeout of zero returns at once. With another timeout it begins a wait, for the
   descriptor and direction asked for and until the deadline asked for, unless that side of the descriptor is taken, the
   deadline is not in the future of the wheel, or the kernel refuses.
   */
  lemma AwaitBeginsExactly(io: Io, r: nat, fd: int, d: Direction, timeout: nat, now: nat, controlled: bool)
    requires Consistent(io, {}, {}) && now <= 0xFFFF_FFFF_FFFF_FFFF
    ensures io.clock.slots > 0
    ensures var (io', o) := Await(io, r, fd, d, timeout, now, controlled);
      var running := r in io.states && io.states[r] == Running;
      var wait := WaitFor(r, fd, d, timeout, now);
      && (o == Immediately(Timeout) <==> running && timeout == 0)
      && (o.Suspended? <==> running && timeout != 0 && !Occupied(io, fd, d) && controlled
                            && (wait.deadline.Some? ==> wait.deadline.value > io.clock.tick))
      && (o.Suspended? ==>
            o == Suspended(|io.ops|) && io'.ops == io.ops + [wait] && io'.states == io.states[r := WaitIo])
      && (!o.Suspended? ==> io'.ops == io.ops && io'.log == io.log && io'.states == io.states)
  {
    assert Occupied(io, fd, d) <==> Waiter(io, fd, d).Some? by { TakenSide(io, fd, d); }
    ConsistentBasics(io);
    hide Consistent, AlarmClocks.Rearm, Open, Occupied;
  }

  lemma TakenSide(io: Io, fd: int, d: Direction)
    requires Consistent(io, {}, {})
    ensures Occupied(io, fd, d) <==> Waiter(io, fd, d).Some?
  {
    hide Consistent, Open, Waiter;
    OneOnSide(io, fd, d);
    if Occupied(io, fd, d) {
      var w: nat :| w in Open(io.log) && w < |io.ops| && io.ops[w].fd == fd && io.ops[w].direction == d;
      OpenIsPending(io, w);
      assert w in On(io, fd, d);
    }
    if Waiter(io, fd, d).Some? {
      var w := Waiter(io, fd, d).value;
      assert w in On(io, fd, d);
      OpenIsPending(io, w);
    }
  }

  /** A sleep of no time is none; any other lasts until the deadline asked for, if that is in the wheel's future. */
  lemma SleepBeginsExactly(io: Io, r: nat, ms: nat, now: nat)
    requires Consistent(io, {}, {}) && now <= 0xFFFF_FFFF_FFFF_FFFF
    ensures io.clock.slots > 0
    ensures var (io', o) := YieldFor(io, r, ms, now);
      var running := r in io.states && io.states[r] == Running;
      && (o == NotAtAll <==> running && ms == 0)
      && (o == Asleep <==> running && ms > 0 && Saturated(now, ms) > io.clock.tick)
      && (o == Asleep ==>
            io'.states == io.states[r := WaitTimer] && r in io'.sleep && io'.sleep[r] == Saturated(now, ms))
      && (o != Asleep ==> io'.states == io.states && io'.clock == io.clock)
  {
    hide Routines, WaitsOk, SlotsOk, Recorded, Awaited, AlarmClocks.Rearm;
    if TimerKey(r) in io.clock.pending { assert KeyOk(io, TimerKey(r)); }
  }

  // ---------------------------------------------------------------------------------------------
  // Whom a poll wakes
  // ---------------------------------------------------------------------------------------------

  /** From `io` to `io'` exactly the routines in `who` become ready, each once. */
  ghost predicate Wakes(io: Io, io': Io, who: set<nat>) {
    && io'.states.Keys == io.states.Keys
    && (forall r :: r in who ==> r in io.states && io.states[r] in {WaitIo, WaitTimer, WaitEvent})
    && (forall r :: r in io.states ==> io'.states[r] == if r in who then Ready else io.states[r])
    && io.ready <= io'.ready && NoDup(io'.ready[|io.ready|..])
    && (forall r :: r in io'.ready[|io.ready|..] <==> r in who)
  }

  lemma NoneWake(io: Io, io': Io)
    requires io'.states == io.states && io'.ready == io.ready
    ensures Wakes(io, io', {})
  {
  }

  lemma WakesThen(io: Io, io1: Io, io2: Io, s: set<nat>, t: set<nat>)
    requires Wakes(io, io1, s) && Wakes(io1, io2, t)
    ensures Wakes(io, io2, s + t)
  {
    var a, b := io1.ready[|io.ready|..], io2.ready[|io1.ready|..];
    assert io2.ready[|io.ready|..] == a + b;
    forall i, j | 0 <= i < j < |a + b| ensures (a + b)[i] != (a + b)[j] {
      if i < |a| <= j { assert a[i] in a && b[j - |a|] in b; }
    }
  }

  lemma MakeReadyWakes(io: Io, r: nat)
    ensures Wakes(io, MakeReady(io, r),
                  if r in io.states && io.states[r] in {WaitIo, WaitTimer, WaitEvent} then {r} else {})
  {
  }

  lemma CompleteWakes(io: Io, w: nat, result: WaitResult, now: nat)
    requires Pending(io, w) && Routines(io)
    ensures Wakes(io, CompleteWait(io, w, result, now), {io.ops[w].routine})
  {
  }

  ghost function Owners(io: Io, ws: set<nat>): (rs: set<nat>) {
    set w | w in ws && w < |io.ops| :: io.ops[w].routine
  }

  lemma OwnersAdd(io: Io, s: set<nat>, t: set<nat>)
    ensures Owners(io, s + t) == Owners(io, s) + Owners(io, t)
  {
    forall r ensures r in Owners(io, s + t) <==> r in Owners(io, s) + Owners(io, t) {
      if r in Owners(io, s) { var w :| w in s && w < |io.ops| && io.ops[w].routine == r; assert w in s + t; }
      if r in Owners(io, t) { var w :| w in t && w < |io.ops| && io.ops[w].routine == r; assert w in s + t; }
    }
  }

  lemma SideWakes(io: Io, fd: int, d: Direction, wakes: bool, now: nat)
    requires Consistent(io, {}, {})
    ensures Wakes(io, CompleteSide(io, fd, d, wakes, now), Owners(io, if wakes then On(io, fd, d) else {}))
  {
    hide WaitsOk, KeysOk, Recorded, Awaited, CompleteWait, Wakes, Routines;
    assert SlotOk(io, fd, d);
    OneOnSide(io, fd, d);
    var w := Waiter(io, fd, d);
    if wakes && w.Some? {
      CompleteWakes(io, w.value, IoReady, now);
      assert w.value in AsSet(w) && Owners(io, AsSet(w)) == {io.ops[w.value].routine};
    } else {
      NoneWake(io, io);
      OwnersNone(io);
    }
  }

  lemma {:induction false} EventsWake(io: Io, events: seq<(int, Mask)>, now: nat)
    requires Consistent(io, {}, {})
    ensures Wakes(io, CompleteEvents(io, events, now), Owners(io, Affected(io, events)))
    decreases |events|
  {
    hide Consistent, CompleteSide, Ends, Wakes, WakesRead, WakesWrite, On, Owners;
    if events == [] {
      NoneWake(io, io);
      assert Affected(io, events) == {};
      OwnersNone(io);
    } else {
      var init := events[..|events| - 1];
      var (fd, m) := events[|events| - 1];
      EventsEnd(io, init, now);
      EventsWake(io, init, now);
      EventsKeep(io, init, now);
      var a := CompleteEvents(io, init, now);
      var b := CompleteSide(a, fd, Read, WakesRead(m), now);
      SideEnds(a, fd, Read, WakesRead(m), now);
      SideWakes(a, fd, Read, WakesRead(m), now);
      SideKeeps(a, fd, Read, WakesRead(m), now);
      SideWakes(b, fd, Write, WakesWrite(m), now);
      var s := if WakesRead(m) then On(a, fd, Read) else {};
      var t := if WakesWrite(m) then On(b, fd, Write) else {};
      OneMoreEvent(io, a, b, events, s, t, now);
      OwnersSame(io, a, s);
      OwnersSame(io, b, t);
      WakesThen(io, a, b, Owners(io, Affected(io, init)), Owners(io, s));
      OwnersAdd(io, Affected(io, init), s);
      WakesThen(io, b, CompleteIo(a, fd, m, now), Owners(io, Affected(io, init) + s), Owners(io, t));
      OwnersAdd(io, Affected(io, init) + s, t);
    }
  }

  lemma OwnersNone(io: Io)
    ensures Owners(io, {}) == {}
  {
  }

  lemma OwnersSame(io: Io, io': Io, ws: set<nat>)
    requires io'.ops == io.ops
    ensures Owners(io', ws) == Owners(io, ws)
  {
  }

  /** The routines of the queue that still wait for an event. */
  ghost function Due(io: Io, queue: seq<nat>): (rs: set<nat>) {
    set r | r in queue && r in io.states && io.states[r] == WaitEvent
  }

  lemma {:induction false} EachWakes(io: Io, queue: seq<nat>)
    ensures Wakes(io, WakeEach(io, queue), Due(io, queue))
    decreases |queue|
  {
    hide Wakes, MakeReady;
    if queue == [] {
      NoneWake(io, io);
      assert Due(io, queue) == {};
    } else {
      var init, r := queue[..|queue| - 1], queue[|queue| - 1];
      assert queue == init + [r];
      EachWakes(io, init);
      var b := WakeEach(io, init);
      var t := if r in b.states && b.states[r] == WaitEvent then {r} else {};
      if t == {} { NoneWake(b, b); } else { MakeReadyWakes(b, r); }
      WakesThen(io, b, WakeEach(io, queue), Due(io, init), t);
      LastInQueue(io, b, init, r, t);
    }
  }

  lemma LastInQueue(io: Io, b: Io, init: seq<nat>, r: nat, t: set<nat>)
    requires Wakes(io, b, Due(io, init)) && t == if r in b.states && b.states[r] == WaitEvent then {r} else {}
    ensures Due(io, init + [r]) == Due(io, init) + t
  {
  }

  ghost function FlushDue(io: Io, now: nat): (rs: set<nat>) {
    if now < io.nextFlush then {} else Due(io, io.flushQueue)
  }

  lemma FlushWakes(io: Io, now: nat)
    requires io.flushInterval > 0
    ensures Wakes(io, Flush(io, now), FlushDue(io, now))
    ensures Flush(io, now).flushQueue == if now < io.nextFlush then io.flushQueue else []
    ensures Flush(io, now).nextFlush == if io.flushQueue == [] || now < io.nextFlush then io.nextFlush
                                        else NextFlush(io.nextFlush, io.flushInterval, now)
  {
    hide Wakes, NextFlush;
    if io.flushQueue == [] || now < io.nextFlush {
      NoneWake(io, io);
      assert FlushDue(io, now) == {};
    } else {
      var io1 := io.(nextFlush := NextFlush(io.nextFlush, io.flushInterval, now));
      EachWakes(io1, io.flushQueue);
      assert Due(io1, io.flushQueue) == Due(io, io.flushQueue);
      SameWakes(io, io1, WakeEach(io1, io.flushQueue), Flush(io, now), Due(io, io.flushQueue));
    }
  }

  lemma SameWakes(io: Io, io1: Io, io2: Io, io': Io, who: set<nat>)
    requires Wakes(io1, io2, who) && io1.states == io.states && io1.ready == io.ready
    requires io'.states == io2.states && io'.ready == io2.ready
    ensures Wakes(io, io', who)
  {
  }

  /** The sleepers among the timers that came out whose time has come. */
  ghost function Rested(io: Io, keys: seq<Key>, now: nat): (rs: set<nat>) {
    set r | r in io.sleep && TimerKey(r) in keys && io.sleep[r] <= now
  }

  lemma KeyWakes(io: Io, key: Key, now: nat, loose: set<Key>)
    requires Consistent(io, {}, loose) && key in loose && io.clock.tick == now
    ensures io.clock.slots > 0
    ensures Wakes(io, CompleteKey(io, key, now), Owners(io, Lapsed(io, [key], now)) + Rested(io, [key], now))
  {
    hide WaitsOk, SlotsOk, Recorded, Awaited, CompleteWait, Wakes, Routines;
    LooseOwner(io, key, loose);
    var who := Owners(io, Lapsed(io, [key], now)) + Rested(io, [key], now);
    match key
    case IoKey(w) =>
      if now < io.ops[w].deadline.value {
        assert who == {};
        NoneWake(io, CompleteKey(io, key, now));
      } else {
        assert w in Lapsed(io, [key], now);
        assert who == {io.ops[w].routine};
        CompleteWakes(io, w, Timeout, now);
      }
    case TimerKey(r) =>
      if now < io.sleep[r] {
        assert who == {};
        NoneWake(io, CompleteKey(io, key, now));
      } else {
        assert who == {r};
        MakeReadyWakes(io, r);
      }
  }

  lemma {:induction false} KeysWake(io: Io, keys: seq<Key>, now: nat, loose: set<Key>)
    requires Consistent(io, {}, loose + Elements(keys)) && io.clock.tick == now
    requires forall i, j :: 0 <= i < j < |keys| ==> keys[i] != keys[j]
    requires forall k :: k in keys ==> k !in loose
    ensures io.clock.slots > 0
    ensures Wakes(io, CompleteKeys(io, keys, now), Owners(io, Lapsed(io, keys, now)) + Rested(io, keys, now))
    decreases |keys|
  {
    hide Consistent, CompleteKey, Wakes, Owners, Lapsed, Rested;
    SlotsKnown(io, loose + Elements(keys));
    if keys == [] {
      NobodyRests(io, now);
      NoneWake(io, io);
    } else {
      var init, key := keys[..|keys| - 1], keys[|keys| - 1];
      assert keys == init + [key];
      assert loose + Elements(keys) == loose + {key} + Elements(init);
      KeysWake(io, init, now, loose + {key});
      KeysKeep(io, init, now, loose + {key});
      var io1 := CompleteKeys(io, init, now);
      KeyWakes(io1, key, now, loose + {key});
      MoreRested(io, io1, init, key, now);
      WakesThen(io, io1, CompleteKeys(io, keys, now), Owners(io, Lapsed(io, init, now)) + Rested(io, init, now),
                Owners(io1, Lapsed(io1, [key], now)) + Rested(io1, [key], now));
    }
  }

  lemma NobodyRests(io: Io, now: nat)
    ensures Owners(io, Lapsed(io, [], now)) + Rested(io, [], now) == {}
  {
  }

  lemma MoreRested(io: Io, io1: Io, init: seq<Key>, key: Key, now: nat)
    requires io1.ops == io.ops && io1.sleep == io.sleep
    ensures Owners(io, Lapsed(io, init + [key], now)) + Rested(io, init + [key], now) ==
      Owners(io, Lapsed(io, init, now)) + Rested(io, init, now)
      + (Owners(io1, Lapsed(io1, [key], now)) + Rested(io1, [key], now))
  {
    hide Owners;
    assert Lapsed(io, init + [key], now) == Lapsed(io, init, now) + Lapsed(io1, [key], now);
    OwnersAdd(io, Lapsed(io, init, now), Lapsed(io1, [key], now));
    OwnersSame(io, io1, Lapsed(io1, [key], now));
    assert Rested(io, init + [key], now) == Rested(io, init, now) + Rested(io1, [key], now);
  }

  /** The sleeping routines whose time has come. */
  ghost function Slept(io: Io, now: nat): (rs: set<nat>) {
    set r | r in io.states && io.states[r] == WaitTimer && r in io.sleep && io.sleep[r] <= now
  }

  lemma SleptCome(io: Io, keys: seq<Key>, now: nat)
    requires Consistent(io, {}, {}) && Orders(keys, io.clock, now)
    ensures Rested(io, keys, now) == Slept(io, now)
  {
    hide Routines, WaitsOk, SlotsOk, Recorded, Awaited;
    forall r | r in io.sleep && io.sleep[r] <= now
      ensures TimerKey(r) in keys <==> r in io.states && io.states[r] == WaitTimer
    {
      if TimerKey(r) in io.clock.pending { assert KeyOk(io, TimerKey(r)); }
    }
  }

  lemma TimersWake(io: Io, keys: seq<Key>, now: nat)
    requires Consistent(io, {}, {}) && Orders(keys, io.clock, now)
    ensures io.clock.slots > 0
    ensures var lapsed := io.(clock := AlarmClocks.Wait(io.clock, now));
      Wakes(io, CompleteKeys(lapsed, keys, now), Owners(io, Late(io, now)) + Slept(io, now))
  {
    hide Consistent, CompleteKeys, Wakes, Owners;
    SlotsKnown(io, {});
    var lapsed := io.(clock := AlarmClocks.Wait(io.clock, now));
    OverdueCome(io, keys, now);
    SleptCome(io, keys, now);
    if now > io.clock.tick {
      LapseKeeps(io, now);
      assert {} + Elements(keys) == AlarmClocks.Due(io.clock, now);
    } else {
      assert {} + Elements(keys) == {};
    }
    assert Lapsed(lapsed, keys, now) == Lapsed(io, keys, now) && Rested(lapsed, keys, now) == Rested(io, keys, now);
    OwnersSame(io, lapsed, Lapsed(io, keys, now));
    HandledWake(lapsed, keys, now);
    var done := CompleteKeys(lapsed, keys, now);
    SameWakes(io, lapsed, done, done, Owners(io, Late(io, now)) + Slept(io, now));
  }

  lemma HandledWake(io: Io, keys: seq<Key>, now: nat)
    requires Consistent(io, {}, {} + Elements(keys)) && forall k :: k in keys ==> io.clock.tick == now
    requires forall i, j :: 0 <= i < j < |keys| ==> keys[i] != keys[j]
    ensures io.clock.slots > 0
    ensures Wakes(io, CompleteKeys(io, keys, now), Owners(io, Lapsed(io, keys, now)) + Rested(io, keys, now))
  {
    hide Consistent, CompleteKey, Wakes, Owners, Lapsed, Rested;
    SlotsKnown(io, {} + Elements(keys));
    if keys == [] {
      NobodyRests(io, now);
      NoneWake(io, io);
    } else {
      assert keys[0] in keys;
      KeysWake(io, keys, now, {});
    }
  }

  /** What a poll wakes a routine for. */
  ghost predicate Called(io: Io, r: nat, events: seq<(int, Mask)>, now: nat) {
    && r in io.states
    && match io.states[r]
       case WaitIo =>
         exists w: nat :: w in Open(io.log) && w < |io.ops| && io.ops[w].routine == r
                          && (Roused(io.ops[w], events) || Overdue(io.ops[w], now))
       case WaitTimer => r in io.sleep && io.sleep[r] <= now
       case WaitEvent => r in io.flushQueue && now >= io.nextFlush
       case _ => false
  }

  /** Exactly the routines a poll is called for become ready, each once; all others stay as they are. */
  ghost predicate WakesAsCalled(io: Io, io': Io, events: seq<(int, Mask)>, now: nat) {
    && io'.states.Keys == io.states.Keys && io.ready <= io'.ready && NoDup(io'.ready[|io.ready|..])
    && (forall r :: r in io.states ==> io'.states[r] == if Called(io, r, events, now) then Ready else io.states[r])
    && (forall r :: r in io'.ready[|io.ready|..] <==> Called(io, r, events, now))
  }

  lemma WakesCalled(io: Io, io': Io, who: set<nat>, events: seq<(int, Mask)>, now: nat)
    requires Wakes(io, io', who) && forall r :: r in who <==> Called(io, r, events, now)
    ensures WakesAsCalled(io, io', events, now)
  {
    hide Called;
  }

  /** The waits of a routine: the pending one, if it waits for I/O. */
  lemma OneWait(io: Io, w: nat)
    requires Consistent(io, {}, {}) && Pending(io, w)
    ensures w in Open(io.log) && io.ops[w].routine in io.states && io.states[io.ops[w].routine] == WaitIo
  {
    hide WaitsOk, SlotsOk, KeysOk, Awaited;
  }

  lemma OwnerCalled(io: Io, r: nat, events: seq<(int, Mask)>, now: nat)
    requires Consistent(io, {}, {})
    ensures r in Owners(io, Affected(io, events)) + Owners(io, Late(io, now)) <==>
      r in io.states && io.states[r] == WaitIo && Called(io, r, events, now)
  {
    hide Consistent, Roused, Overdue, Open;
    var rs := Owners(io, Affected(io, events)) + Owners(io, Late(io, now));
    if r in rs {
      var w :| w < |io.ops| && w in Affected(io, events) + Late(io, now) && io.ops[w].routine == r;
      OneWait(io, w);
    }
    if r in io.states && io.states[r] == WaitIo && Called(io, r, events, now) {
      var w: nat :| w in Open(io.log) && w < |io.ops| && io.ops[w].routine == r
        && (Roused(io.ops[w], events) || Overdue(io.ops[w], now));
      OpenIsPending(io, w);
      assert w in Affected(io, events) || w in Late(io, now);
    }
  }

  /** The three stages of a poll: the events, the flush, the timers. */
  ghost predicate Stages(io: Io, a: Io, f: Io, d: Io, events: seq<(int, Mask)>, now: nat) {
    && Late(f, now) == Late(io, now) - Affected(io, events) && Wakes(io, a, Owners(io, Affected(io, events)))
    && Wakes(a, f, FlushDue(a, now)) && Wakes(f, d, Owners(f, Late(f, now)) + Slept(f, now))
    && Alike(io, a) && f.ops == a.ops && f.ioWait == a.ioWait && f.sleep == a.sleep
  }

  ghost function AllWoken(io: Io, a: Io, f: Io, events: seq<(int, Mask)>, now: nat): (rs: set<nat>) {
    Owners(io, Affected(io, events)) + FlushDue(a, now) + (Owners(f, Late(f, now)) + Slept(f, now))
  }

  lemma LaterWaits(io: Io, a: Io, f: Io, events: seq<(int, Mask)>, now: nat, at: nat)
    requires Ends(io, a, Affected(io, events), IoReady, at) && f.ops == a.ops && f.ioWait == a.ioWait
    ensures Late(f, now) == Late(io, now) - Affected(io, events)
  {
    hide Roused, Overdue, NewNotes;
    forall w: nat ensures w in Late(f, now) <==> w in Late(io, now) - Affected(io, events) {
      assert Pending(f, w) <==> Pending(a, w);
      assert Pending(a, w) <==> Pending(io, w) && w !in Affected(io, events);
    }
  }

  lemma OwnersLess(io: Io, s: set<nat>, t: set<nat>)
    ensures Owners(io, s) + Owners(io, t - s) == Owners(io, s) + Owners(io, t)
  {
    OwnersAdd(io, s, t - s);
    OwnersAdd(io, s, t);
    assert s + (t - s) == s + t;
  }

  lemma StagesCall(io: Io, a: Io, f: Io, d: Io, events: seq<(int, Mask)>, now: nat, r: nat)
    requires Consistent(io, {}, {}) && Stages(io, a, f, d, events, now)
    ensures r in AllWoken(io, a, f, events, now) <==> Called(io, r, events, now)
  {
    hide Consistent, Called, Owners, Late, Affected;
    var s, t := Owners(io, Affected(io, events)), Owners(io, Late(io, now));
    OwnerCalled(io, r, events, now);
    OwnersSame(io, f, Late(f, now));
    OwnersLess(io, Affected(io, events), Late(io, now));
    assert r in s + Owners(f, Late(f, now)) <==> r in s + t;
    assert r in s + t ==> r in io.states && io.states[r] == WaitIo;
    FlushStage(io, a, s, events, now, r);
    SleepStage(io, a, f, s, events, now, r);
    CalledAwake(io, r, events, now);
  }

  lemma FlushStage(io: Io, a: Io, s: set<nat>, events: seq<(int, Mask)>, now: nat, r: nat)
    requires Wakes(io, a, s) && Alike(io, a) && (r in s ==> r in io.states && io.states[r] == WaitIo)
    ensures r in FlushDue(a, now) <==> r in io.states && io.states[r] == WaitEvent && Called(io, r, events, now)
  {
  }

  lemma SleepStage(io: Io, a: Io, f: Io, s: set<nat>, events: seq<(int, Mask)>, now: nat, r: nat)
    requires Wakes(io, a, s) && Wakes(a, f, FlushDue(a, now)) && (r in s ==> r in io.states && io.states[r] == WaitIo)
    requires Alike(io, a) && f.sleep == a.sleep
    ensures r in Slept(f, now) <==> r in io.states && io.states[r] == WaitTimer && Called(io, r, events, now)
  {
  }

  lemma CalledAwake(io: Io, r: nat, events: seq<(int, Mask)>, now: nat)
    ensures Called(io, r, events, now) ==> r in io.states && io.states[r] in {WaitIo, WaitTimer, WaitEvent}
  {
  }

  lemma StagesWake(io: Io, a: Io, f: Io, d: Io, io': Io, events: seq<(int, Mask)>, now: nat)
    requires Consistent(io, {}, {}) && Stages(io, a, f, d, events, now)
    requires io'.states == d.states && io'.ready == d.ready
    ensures WakesAsCalled(io, io', events, now)
  {
    hide Consistent, Called, Owners, Late, Affected, Slept, FlushDue, Wakes, WakesAsCalled;
    var who := AllWoken(io, a, f, events, now);
    WakesThen(io, a, f, Owners(io, Affected(io, events)), FlushDue(a, now));
    WakesThen(io, f, d, Owners(io, Affected(io, events)) + FlushDue(a, now), Owners(f, Late(f, now)) + Slept(f, now));
    SameWakes(io, io, d, io', who);
    forall r ensures r in who <==> Called(io, r, events, now) { StagesCall(io, a, f, d, events, now, r); }
    WakesCalled(io, io', who, events, now);
  }

  /**
   A poll makes ready exactly the routines whose wait has an event or is overdue, the sleepers whose time has come, and,
   once the flush instant is reached, the routines queued for the flush that still wait for it.
   */
  lemma PollWakesExactly(io: Io, events: seq<(int, Mask)>, before: nat, now: nat, keys: seq<Key>)
    requires Consistent(io, {}, {}) && io.clock.slots > 0
    requires io.flushInterval > 0 && Orders(keys, BeforeTimers(io, events, before, now).clock, now)
    ensures WakesAsCalled(io, Poll(io, events, before, now, keys), events, now)
    ensures Poll(io, events, before, now, keys).flushQueue == if now < io.nextFlush then io.flushQueue else []
  {
    hide Consistent, CompleteEvents, Flush, CompleteKeys, Orders, Open, Wakes, WakesAsCalled, Ends, Affected, Late;
    var a := CompleteEvents(io, events, before);
    EventsEnd(io, events, before);
    EventsWake(io, events, before);
    EventsKeep(io, events, before);
    FlushKeeps(a, now);
    FlushEnds(a, now);
    FlushWakes(a, now);
    var f := BeforeTimers(io, events, before, now);
    TimersWake(f, keys, now);
    LaterWaits(io, a, f, events, now, before);
    var d := CompleteKeys(f.(clock := AlarmClocks.Wait(f.clock, now)), keys, now);
    StagesWake(io, a, f, d, Poll(io, events, before, now, keys), events, now);
  }

  // ---------------------------------------------------------------------------------------------
  // The states of a routine
  // ---------------------------------------------------------------------------------------------

  ghost function StateOf(io: Io, r: nat): (state: Option<RoutineState>) {
    if r in io.states then Some(io.states[r]) else None
  }

  ghost predicate WaitsOn(io: Io, r: nat, fd: int) {
    exists w: nat :: w in Open(io.log) && w < |io.ops| && io.ops[w].routine == r && io.ops[w].fd == fd
  }

  /** Where an operation takes a routine that is in state `s`. */
  ghost function NextState(io: Io, op: Action, r: nat): (state: Option<RoutineState>) {
    var s := StateOf(io, r);
    match op
    case DoStart(x) => if x == r && s == None then Some(Running) else s
    case DoAwait(x, fd, d, timeout, now, controlled) =>
      var deadline := WaitFor(x, fd, d, timeout, now).deadline;
      if x == r && s == Some(Running) && timeout != 0 && !Occupied(io, fd, d) && controlled
         && (deadline.Some? ==> deadline.value > io.clock.tick) then Some(WaitIo) else s
    case DoSleep(x, ms, now) =>
      if x == r && s == Some(Running) && ms > 0 && Saturated(now, ms) > io.clock.tick then Some(WaitTimer) else s
    case DoWakeSleeper(x) => if x == r && s == Some(WaitTimer) then Some(Ready) else s
    case DoYield(x) => if x == r && s == Some(Running) then Some(WaitEvent) else s
    case DoYieldUntilFlush(x) => if x == r && s == Some(Running) && r !in io.flushQueue then Some(WaitEvent) else s
    case DoScheduleAtFlush(_) => s
    case DoResume(x) => if x == r && s == Some(Ready) then Some(Running) else s
    case DoCancelWait(x, _) => if x == r && s == Some(WaitIo) then Some(Ready) else s
    case DoCancelFd(fd, _) => if WaitsOn(io, r, fd) then Some(Ready) else s
    case DoPoll(events, _, now, _) => if Called(io, r, events, now) then Some(Ready) else s
  }

  lemma CancelSideWakes(io: Io, w: Option<nat>, now: nat)
    requires Routines(io) && (w.Some? ==> Pending(io, w.value))
    ensures Wakes(io, CancelSide(io, w, now), Owners(io, AsSet(w)))
  {
    hide CompleteWait, Routines, Wakes;
    if w.Some? {
      assert w.value in AsSet(w) && Owners(io, AsSet(w)) == {io.ops[w.value].routine};
      CompleteWakes(io, w.value, Cancelled, now);
    } else {
      OwnersNone(io);
      NoneWake(io, io);
    }
  }

  lemma CancelBothWake(io: Io, read: Option<nat>, write: Option<nat>, now: nat)
    requires Routines(io) && (read.Some? ==> Pending(io, read.value) && read != write)
    requires write.Some? ==> Pending(io, write.value)
    ensures Wakes(io, CancelSide(CancelSide(io, read, now), write, now), Owners(io, AsSet(read) + AsSet(write)))
  {
    hide Routines, CancelSide, Wakes, Owners;
    var io1 := CancelSide(io, read, now);
    CancelSideEnds(io, read, now);
    CancelSideWakes(io, read, now);
    assert write.Some? ==> Pending(io1, write.value);
    CancelSideWakes(io1, write, now);
    OwnersSame(io, io1, AsSet(write));
    WakesThen(io, io1, CancelSide(io1, write, now), Owners(io, AsSet(read)), Owners(io, AsSet(write)));
    OwnersAdd(io, AsSet(read), AsSet(write));
  }

  lemma CancelFdWakes(io: Io, fd: int, now: nat)
    requires Consistent(io, {}, {})
    ensures Wakes(io, CancelFd(io, fd, now), Owners(io, On(io, fd, Read) + On(io, fd, Write)))
  {
    hide WaitsOk, KeysOk, Recorded, Awaited, CancelSide, Wakes, Owners, On;
    OneOnSide(io, fd, Read);
    OneOnSide(io, fd, Write);
    if fd !in io.fds {
      NoneWake(io, io);
      assert AsSet<nat>(None) + AsSet<nat>(None) == {};
      OwnersNone(io);
    } else {
      var c := io.fds[fd];
      TwoWaiters(io, fd);
      var io1 := io.(fds := io.fds[fd := Context(None, None)]);
      SameRoutines(io, io1);
      CancelBothWake(io1, c.read, c.write, now);
      OwnersSame(io, io1, AsSet(c.read) + AsSet(c.write));
      var io2 := CancelSide(CancelSide(io1, c.read, now), c.write, now);
      SameWakes(io, io1, io2, CancelFd(io, fd, now), Owners(io, AsSet(c.read) + AsSet(c.write)));
    }
  }

  lemma CancelFdMoves(io: Io, fd: int, now: nat, r: nat)
    requires Consistent(io, {}, {})
    ensures StateOf(CancelFd(io, fd, now), r) == NextState(io, DoCancelFd(fd, now), r)
  {
    hide Consistent, CancelFd, Open;
    CancelFdWakes(io, fd, now);
    var who := On(io, fd, Read) + On(io, fd, Write);
    if WaitsOn(io, r, fd) {
      var w: nat :| w in Open(io.log) && w < |io.ops| && io.ops[w].routine == r && io.ops[w].fd == fd;
      OpenIsPending(io, w);
      assert w in who;
    }
    if r in Owners(io, who) {
      var w :| w in who && w < |io.ops| && io.ops[w].routine == r;
      OpenIsPending(io, w);
    }
  }

  lemma CancelWaitMoves(io: Io, x: nat, now: nat, r: nat)
    requires Consistent(io, {}, {})
    ensures StateOf(CancelWait(io, x, now).0, r) == NextState(io, DoCancelWait(x, now), r)
  {
    hide WaitsOk, SlotsOk, KeysOk, Recorded, Awaited, CompleteWait;
    if CancelWait(io, x, now).1 { CompleteShape(io, io.ioWait[x], Cancelled, now); }
  }

  /** In every run, every operation takes every routine exactly where its state and the operation call for. */
  lemma StatesMoveExactly(states: seq<Io>, ops: seq<Action>, i: nat, r: nat)
    requires Run(states, ops) && i < |ops|
    requires ops[i].DoAwait? || ops[i].DoSleep? ==> ops[i].now <= 0xFFFF_FFFF_FFFF_FFFF
    ensures StateOf(states[i + 1], r) == NextState(states[i], ops[i], r)
  {
    hide Consistent, CancelWait, CancelFd, Poll, Orders, Await, YieldFor, NextState, StateOf;
    RunConsistent(states, ops, i);
    assert Follows(states[i], ops[i], states[i + 1]);
    var io, op := states[i], ops[i];
    match op
    case DoPoll(events, before, now, keys) => PollMoves(io, events, before, now, keys, r);
    case DoCancelWait(x, now) => CancelWaitMoves(io, x, now, r);
    case DoCancelFd(fd, now) => CancelFdMoves(io, fd, now, r);
    case DoAwait(x, fd, d, timeout, now, controlled) => AwaitMoves(io, x, fd, d, timeout, now, controlled, r);
    case DoSleep(x, ms, now) => SleepMoves(io, x, ms, now, r);
    case _ => PlainMoves(io, op, r);
  }

  lemma PollMoves(io: Io, events: seq<(int, Mask)>, before: nat, now: nat, keys: seq<Key>, r: nat)
    requires Consistent(io, {}, {}) && io.clock.slots > 0
    requires io.flushInterval > 0 && Orders(keys, BeforeTimers(io, events, before, now).clock, now)
    ensures StateOf(Poll(io, events, before, now, keys), r) == NextState(io, DoPoll(events, before, now, keys), r)
  {
    hide Consistent, Poll, Orders, Called, BeforeTimers;
    PollWakesExactly(io, events, before, now, keys);
    CalledAwake(io, r, events, now);
  }

  lemma AwaitMoves(io: Io, x: nat, fd: int, d: Direction, timeout: nat, now: nat, controlled: bool, r: nat)
    requires Consistent(io, {}, {}) && io.clock.slots > 0 && now <= 0xFFFF_FFFF_FFFF_FFFF
    ensures StateOf(Await(io, x, fd, d, timeout, now, controlled).0, r) ==
      NextState(io, DoAwait(x, fd, d, timeout, now, controlled), r)
  {
    hide Consistent, Await, Occupied, WaitFor;
    AwaitBeginsExactly(io, x, fd, d, timeout, now, controlled);
  }

  lemma SleepMoves(io: Io, x: nat, ms: nat, now: nat, r: nat)
    requires Consistent(io, {}, {}) && io.clock.slots > 0 && now <= 0xFFFF_FFFF_FFFF_FFFF
    ensures StateOf(YieldFor(io, x, ms, now).0, r) == NextState(io, DoSleep(x, ms, now), r)
  {
    hide Consistent, YieldFor, Saturated;
    SleepBeginsExactly(io, x, ms, now);
  }

  lemma PlainMoves(io: Io, op: Action, r: nat)
    requires io.clock.slots > 0 && io.flushInterval > 0
    requires !op.DoPoll? && !op.DoCancelWait? && !op.DoCancelFd? && !op.DoAwait? && !op.DoSleep?
    ensures StateOf(Apply(io, op), r) == NextState(io, op, r)
  {
    hide Dropped, Poll, CancelFd, CancelWait, Await, YieldFor, Called, WaitsOn, Occupied, WaitFor, Saturated;
  }

  /** A routine is queued for the flush from its request to the first poll at or after the flush instant. */
  lemma FlushQueueMovesExactly(states: seq<Io>, ops: seq<Action>, i: nat, r: nat)
    requires Run(states, ops) && i < |ops|
    ensures var io, op := states[i], ops[i];
      r in states[i + 1].flushQueue <==>
        || (r in io.flushQueue && (op.DoPoll? ==> op.now < io.nextFlush))
        || (op == DoYieldUntilFlush(r) && StateOf(io, r) == Some(Running))
        || (op == DoScheduleAtFlush(r) && StateOf(io, r) == Some(WaitEvent))
  {
    hide Consistent, CancelWait, CancelFd, Poll, Orders, WakesAsCalled;
    RunConsistent(states, ops, i);
    assert Follows(states[i], ops[i], states[i + 1]);
    var io, op := states[i], ops[i];
    match op
    case DoPoll(events, before, now, keys) => PollWakesExactly(io, events, before, now, keys);
    case DoCancelWait(x, now) => CancelWaitQueue(io, x, now);
    case DoCancelFd(fd, now) => CancelFdQueue(io, fd, now);
    case _ =>
  }

  lemma CancelWaitQueue(io: Io, r: nat, now: nat)
    ensures CancelWait(io, r, now).0.flushQueue == io.flushQueue
  {
    hide CompleteWait;
  }

  lemma CancelFdQueue(io: Io, fd: int, now: nat)
    ensures CancelFd(io, fd, now).flushQueue == io.flushQueue
  {
    hide CancelSide;
  }

  // ---------------------------------------------------------------------------------------------
  // Results are delivered once
  // ---------------------------------------------------------------------------------------------

  ghost predicate ReturnedIn(log: seq<Note>, w: nat) {
    exists i :: 0 <= i < |log| && log[i].Returned? && log[i].wait == w
  }

  lemma ReturnedGrows(log: seq<Note>, more: seq<Note>, w: nat)
    ensures ReturnedIn(log + more, w) <==> ReturnedIn(log, w) || ReturnedIn(more, w)
  {
    if ReturnedIn(log, w) {
      var i :| 0 <= i < |log| && log[i].Returned? && log[i].wait == w;
      assert (log + more)[i] == log[i];
    }
    if ReturnedIn(more, w) {
      var i :| 0 <= i < |more| && more[i].Returned? && more[i].wait == w;
      assert (log + more)[|log| + i] == more[i];
    }
  }

  ghost predicate Undelivered(io: Io, w: nat)
    requires w < |io.ops|
  {
    io.ops[w].routine in io.awaiting && io.awaiting[io.ops[w].routine] == w
  }

  /** A wait is awaited until its result has been returned. */
  ghost predicate Delivered(io: Io) {
    && (forall r :: r in io.awaiting ==> io.awaiting[r] < |io.ops| && io.ops[io.awaiting[r]].routine == r)
    && (forall w: nat :: ReturnedIn(io.log, w) ==> w < |io.ops|)
    && (forall w: nat :: w < |io.ops| ==> (ReturnedIn(io.log, w) <==> !Undelivered(io, w)))
  }

  lemma SameDelivered(io: Io, io': Io)
    requires Delivered(io) && io'.ops == io.ops && io'.awaiting == io.awaiting && io.log <= io'.log
    requires forall n :: n in NewNotes(io, io') ==> !n.Returned?
    ensures Delivered(io')
  {
    assert io'.log == io.log + NewNotes(io, io');
    forall w: nat ensures ReturnedIn(io'.log, w) <==> ReturnedIn(io.log, w) {
      ReturnedGrows(io.log, NewNotes(io, io'), w);
    }
  }

  lemma BeginDelivers(io: Io, io': Io, r: nat, op: Wait)
    requires Delivered(io) && Awaited(io) && Begins(io, io', r, op)
    ensures Delivered(io')
  {
    assert r !in io.awaiting;
    forall w: nat ensures ReturnedIn(io'.log, w) <==> ReturnedIn(io.log, w) {
      ReturnedGrows(io.log, [Began(|io.ops|, op.deadline)], w);
    }
  }

  lemma ResumeDelivers(io: Io, r: nat)
    requires Delivered(io)
    ensures Delivered(Resume(io, r).0)
  {
    hide Dropped;
    var io' := Resume(io, r).0;
    if io'.log == io.log {
      SameDelivered(io, io');
    } else {
      var n := Returned(io.awaiting[r], io.results[io.awaiting[r]]);
      forall w: nat ensures ReturnedIn(io'.log, w) <==> ReturnedIn(io.log, w) || w == io.awaiting[r] {
        ReturnedGrows(io.log, [n], w);
        assert [n][0].Returned?;
      }
    }
  }

  lemma QuietDelivers(io: Io, io': Io)
    requires Delivered(io) && io'.ops == io.ops && io'.awaiting == io.awaiting && io'.log == io.log
    ensures Delivered(io')
  {
    SameDelivered(io, io');
  }

  lemma SleepDelivers(io: Io, r: nat, ms: nat, now: nat)
    requires Delivered(io) && io.clock.slots > 0
    ensures Delivered(YieldFor(io, r, ms, now).0)
  {
    hide Delivered, AlarmClocks.Rearm;
    QuietDelivers(io, YieldFor(io, r, ms, now).0);
  }

  lemma PrepareDelivers(io: Io, r: nat)
    requires Delivered(io)
    ensures Delivered(PrepareTimerResume(io, r).0)
  {
    hide Delivered;
    QuietDelivers(io, PrepareTimerResume(io, r).0);
  }

  /** Waits that end are not thereby returned from. */
  lemma EndsDeliver(io: Io, io': Io, who: set<nat>, result: WaitResult, at: nat)
    requires Delivered(io) && Ends(io, io', who, result, at) && io'.awaiting == io.awaiting
    ensures Delivered(io')
  {
    hide Delivered, Pending;
    assert forall n :: n in NewNotes(io, io') ==> n.Ended?;
    SameDelivered(io, io');
  }

  lemma PollDelivers(io: Io, events: seq<(int, Mask)>, before: nat, now: nat, keys: seq<Key>)
    requires Consistent(io, {}, {}) && io.clock.slots > 0 && Delivered(io)
    requires io.flushInterval > 0 && Orders(keys, BeforeTimers(io, events, before, now).clock, now)
    ensures Delivered(Poll(io, events, before, now, keys))
  {
    hide Consistent, CompleteEvents, CompleteKeys, WakeEach, Orders, Delivered, Ends, NextFlush, Late;
    var a := CompleteEvents(io, events, before);
    EventsEnd(io, events, before);
    EventsKeep(io, events, before);
    EndsDeliver(io, a, Affected(io, events), IoReady, before);
    FlushKeeps(a, now);
    FlushEnds(a, now);
    var f := BeforeTimers(io, events, before, now);
    QuietDelivers(a, f);
    TimersEnd(f, keys, now);
    var lapsed := f.(clock := AlarmClocks.Wait(f.clock, now));
    var d := CompleteKeys(lapsed, keys, now);
    EndsDeliver(f, d, Late(f, now), Timeout, now);
    var io' := Poll(io, events, before, now, keys);
    assert NewNotes(d, io') == [Polled(now)];
    SameDelivered(d, io');
  }

  lemma CancelDelivers(io: Io, r: nat, now: nat)
    requires Consistent(io, {}, {}) && Delivered(io)
    ensures Delivered(CancelWait(io, r, now).0)
  {
    hide WaitsOk, SlotsOk, KeysOk, Recorded, Awaited, Ends, Delivered;
    if CancelWait(io, r, now).1 {
      CompleteEnds(io, io.ioWait[r], Cancelled, now);
      EndsDeliver(io, CancelWait(io, r, now).0, {io.ioWait[r]}, Cancelled, now);
    }
  }

  lemma CancelFdDelivers(io: Io, fd: int, now: nat)
    requires Consistent(io, {}, {}) && Delivered(io)
    ensures Delivered(CancelFd(io, fd, now))
  {
    hide Consistent, Ends, Delivered;
    CancelFdSteps(io, fd, now);
    EndsDeliver(io, CancelFd(io, fd, now), AsSet(Waiter(io, fd, Read)) + AsSet(Waiter(io, fd, Write)), Cancelled, now);
  }

  lemma ApplyDelivers(io: Io, op: Action)
    requires Consistent(io, {}, {}) && Possible(io, op) && Delivered(io)
    ensures io.clock.slots > 0 && io.flushInterval > 0 && Delivered(Apply(io, op))
  {
    hide Consistent, Delivered, Poll, CancelWait, CancelFd, Orders, YieldFor, PrepareTimerResume, Await, Resume;
    ConsistentBasics(io);
    match op
    case DoPoll(events, before, now, keys) => PollDelivers(io, events, before, now, keys);
    case DoCancelWait(r, now) => CancelDelivers(io, r, now);
    case DoCancelFd(fd, now) => CancelFdDelivers(io, fd, now);
    case DoSleep(r, ms, now) => SleepDelivers(io, r, ms, now);
    case DoWakeSleeper(r) => PrepareDelivers(io, r);
    case DoResume(r) => ResumeDelivers(io, r);
    case DoAwait(r, fd, d, timeout, now, controlled) => AwaitDelivers(io, r, fd, d, timeout, now, controlled);
    case _ => QuietDelivers(io, Apply(io, op));
  }

  lemma {:induction false} RunDelivers(states: seq<Io>, ops: seq<Action>, i: nat)
    requires Run(states, ops) && i <= |ops|
    ensures Delivered(states[i])
    decreases i
  {
    if i == 0 {
      assert states[0].log == [] && states[0].ops == [] && states[0].awaiting == map[];
    } else {
      hide Consistent, Apply, Possible, Delivered;
      RunConsistent(states, ops, i - 1);
      RunDelivers(states, ops, i - 1);
      assert Follows(states[i - 1], ops[i - 1], states[i - 1 + 1]);
      ApplyDelivers(states[i - 1], ops[i - 1]);
    }
  }

  lemma AwaitDelivers(io: Io, r: nat, fd: int, d: Direction, timeout: nat, now: nat, controlled: bool)
    requires Consistent(io, {}, {}) && io.clock.slots > 0 && Delivered(io)
    ensures Delivered(Await(io, r, fd, d, timeout, now, controlled).0)
  {
    hide Routines, WaitsOk, SlotsOk, KeysOk, Recorded, Awaited, Delivered, Begins;
    var (io', o) := Await(io, r, fd, d, timeout, now, controlled);
    if o.Suspended? {
      AwaitBegins(io, r, fd, d, timeout, now, controlled);
      BeginDelivers(io, io', r, io'.ops[|io.ops|]);
    } else {
      QuietDelivers(io, io');
    }
  }

  lemma {:induction false} EndedIsClosed(log: seq<Note>, w: nat, result: WaitResult)
    requires Behaved(log) && EndedWith(log, w, result)
    ensures w !in Open(log) && w < Begun(log)
    decreases |log|
  {
    if Last(log).Ended? && Last(log).wait == w && Last(log).result == result {
      OpenBegun(Init(log), w);
    } else {
      EndedIsClosed(Init(log), w, result);
    }
  }

  lemma {:induction false} OneResult(log: seq<Note>, w: nat, a: WaitResult, b: WaitResult)
    requires Behaved(log) && EndedWith(log, w, a) && EndedWith(log, w, b)
    ensures a == b
    decreases |log|
  {
    if EndedWith(Init(log), w, a) { EndedIsClosed(Init(log), w, a); }
    if EndedWith(Init(log), w, b) { EndedIsClosed(Init(log), w, b); }
    if EndedWith(Init(log), w, a) && EndedWith(Init(log), w, b) { OneResult(Init(log), w, a, b); }
  }

  /**
   In every run, resuming a ready routine returns from the wait of that routine which has ended and has not been
   returned from, with the result it ended with, and from no other.
   */
  lemma ResumeReturnsExactly(states: seq<Io>, ops: seq<Action>, i: nat, w: nat, result: WaitResult)
    requires Run(states, ops) && i < |ops| && ops[i].DoResume?
    ensures var io, r := states[i], ops[i].r;
      Returned(w, result) in NewNotes(io, states[i + 1]) <==>
        && r in io.states && io.states[r] == Ready
        && w < |io.ops| && io.ops[w].routine == r && EndedWith(io.log, w, result) && !ReturnedIn(io.log, w)
  {
    hide Consistent, Delivered, Behaved, EndedWith;
    RunConsistent(states, ops, i);
    RunDelivers(states, ops, i);
    assert Follows(states[i], ops[i], states[i + 1]);
    ResumeReturns(states[i], ops[i].r, w, result);
  }

  lemma ResumeReturns(io: Io, r: nat, w: nat, result: WaitResult)
    requires Consistent(io, {}, {}) && Delivered(io)
    ensures Returned(w, result) in NewNotes(io, Resume(io, r).0) <==>
      && r in io.states && io.states[r] == Ready
      && w < |io.ops| && io.ops[w].routine == r && EndedWith(io.log, w, result) && !ReturnedIn(io.log, w)
  {
    hide Routines, WaitsOk, SlotsOk, KeysOk, ReturnedIn, EndedWith, Behaved, Open, Dropped;
    if r in io.awaiting && io.awaiting[r] in io.results && EndedWith(io.log, io.awaiting[r], result) {
      OneResult(io.log, io.awaiting[r], result, io.results[io.awaiting[r]]);
    }
    if r in io.states && io.states[r] == Ready && r in io.awaiting { ReadyIsEnded(io, r); }
  }

  lemma ReadyIsEnded(io: Io, r: nat)
    requires Consistent(io, {}, {}) && r in io.states && io.states[r] == Ready && r in io.awaiting
    ensures io.awaiting[r] in io.results
  {
    hide WaitsOk, SlotsOk, KeysOk, Recorded;
  }
}
