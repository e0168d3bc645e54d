/**
 The I/O manager as the object it is. Its timers are nodes on a real wheel, and their deadlines are kept in the nodes
 only; the clock and the deadlines of the specification are what those amount to.
 */
module IoManagers {
  import opened Results
  import opened WheelTime
  import opened AlarmClocks
  import opened TimerRuns
  import opened KeyedTimers
  import opened IoWaits
  import WaitOutcomes

  const INT_MAX: int := 0x7FFF_FFFF

  function Capped(remaining: nat): (ms: int)
    ensures 0 <= ms <= remaining && ms <= INT_MAX
  {
    if remaining > INT_MAX then INT_MAX else remaining
  }

  function Sooner(timeout: int, wait: int): (t: int) {
    if timeout < 0 || wait < timeout then wait else timeout
  }

  function Until(now: nat, instant: nat): (ms: nat) {
    if instant > now then instant - now else 0
  }

  /**
   How long one poll may sleep: never beyond the caller's bound, the next flush or the earliest deadline, and without
   limit only if there is none of the three. A limited sleep ends at one of them, or after the longest sleep there is.
   */
  function PollTimeout(bound: int, flush: Option<nat>, deadline: Option<nat>, now: nat): (t: int)
    ensures t < 0 <==> bound < 0 && flush.None? && deadline.None?
    ensures bound >= 0 ==> t <= bound
    ensures flush.Some? ==> t == 0 || now + t <= flush.value
    ensures deadline.Some? ==> t == 0 || now + t <= deadline.value
    ensures t >= 0 ==>
      || t == bound || t == 0x7FFF_FFFF || (flush.Some? && t == Until(now, flush.value))
      || (deadline.Some? && t == Until(now, deadline.value))
  {
    var t := if flush.Some? then Sooner(bound, Capped(if flush.value > now then flush.value - now else 0)) else bound;
    if deadline.Some? then Sooner(t, Capped(if deadline.value > now then deadline.value - now else 0)) else t
  }

  /** The nodes hold the deadlines of waits and sleeps, and no timer has a number that no wait has yet. */
  ghost predicate Noted(deadlines: map<Key, nat>, clock: Clock<Key>, ops: seq<Wait>, sleep: map<nat, nat>) {
    && (forall w: nat :: w < |ops| && ops[w].deadline.Some? ==>
          IoKey(w) in deadlines && deadlines[IoKey(w)] == ops[w].deadline.value)
    && (forall r :: TimerKey(r) in deadlines <==> r in sleep)
    && (forall r :: r in sleep ==> deadlines[TimerKey(r)] == sleep[r])
    && (forall w: nat :: IoKey(w) in clock.pending ==> w < |ops|)
  }

  ghost function WithNode(deadlines: map<Key, nat>, op: Wait, w: nat): (deadlines': map<Key, nat>) {
    if op.deadline.Some? then deadlines[IoKey(w) := op.deadline.value] else deadlines
  }

  ghost function WithTimer(clock: Clock<Key>, op: Wait, w: nat): (clock': Clock<Key>)
    requires clock.slots > 0
  {
    if op.deadline.Some? then Rearm(clock, IoKey(w), op.deadline.value) else clock
  }

  /** A node for the next wait: good if the wait comes about, and good if it does not. */
  lemma NodeNoted(deadlines: map<Key, nat>, clock: Clock<Key>, ops: seq<Wait>, sleep: map<nat, nat>, op: Wait)
    requires Noted(deadlines, clock, ops, sleep) && clock.slots > 0
    ensures Noted(WithNode(deadlines, op, |ops|), WithTimer(clock, op, |ops|), ops + [op], sleep)
    ensures Noted(WithNode(deadlines, op, |ops|), clock, ops, sleep) && IoKey(|ops|) !in clock.pending
  {
    hide Offset;
  }

  /** The earliest deadline pending is the value that the wheel also reports if there is none. */
  ghost predicate Unseen(clock: Clock<Key>) {
    && (exists k :: k in clock.pending && clock.pending[k].deadline == NO_TIMEOUT)
    && (forall k :: k in clock.pending ==> clock.pending[k].deadline >= NO_TIMEOUT)
  }

  class IoManager {
    const timed: KeyedTimers<Key>
    var fds: map<int, Context>
    var ops: seq<Wait>
    var results: map<nat, WaitResult>
    var ioWait: map<nat, nat>
    var awaiting: map<nat, nat>
    var states: map<nat, RoutineState>
    var ready: seq<nat>
    var flushQueue: seq<nat>
    const flushInterval: nat
    var nextFlush: nat
    var log: seq<Note>
    /** What the wheel shows, and the deadline each routine last asked for. */
    ghost var clock: Clock<Key>
    ghost var sleep: map<nat, nat>

    ghost function State(): (io: Io)
      reads this
    {
      Io(clock, fds, ops, results, ioWait, awaiting, states, sleep, ready, flushQueue, flushInterval, nextFlush, log)
    }

    ghost predicate Valid()
      reads this, timed, timed.timers, timed.timers.wheel, timed.timers.wheel.slots, timed.timers.wheel.heap
      reads timed.timers.wheel.due.Keys, timed.timers.nodes
    {
      timed.Valid(clock) && this !in timed.Repr() && Noted(timed.deadlines, clock, ops, sleep)
    }

    constructor (slots: nat, start: nat, flushInterval: nat)
      requires slots > 0
      ensures Valid() && fresh(timed.Repr()) && State() == Initial(slots, start, flushInterval)
    {
      hide KeyedTimers.Valid;
      timed := new KeyedTimers(slots, start);
      clock := Clock(slots, start, map[]);
      fds, ops, results, ioWait, awaiting, states, sleep := map[], [], map[], map[], map[], map[], map[];
      ready, flushQueue, log := [], [], [];
      this.flushInterval := flushInterval;
      nextFlush := start + flushInterval;
    }

    // -------------------------------------------------------------------------------------------
    // Timers
    // -------------------------------------------------------------------------------------------

    method Disarm(key: Key)
      requires Valid()
      modifies `clock, timed.Repr()
      ensures Valid() && timed.Repr() == old(timed.Repr())
      ensures State() == old(State()).(clock := Clear(old(clock), key))
    {
      hide KeyedTimers.Valid, KeyedTimers.Repr;
      timed.Disarm(key, clock);
      clock := Clear(clock, key);
    }

    /** Asks the wheel to take the timer in; the node keeps the deadline either way. */
    method Arm(key: Key, deadline: nat) returns (ok: bool)
      requires Valid()
      modifies `clock, `sleep, timed.Repr()
      ensures timed.Valid(clock) && this !in timed.Repr() && fresh(timed.Repr() - old(timed.Repr()))
      ensures ok <==> deadline > old(clock).tick
      ensures old(clock).slots > 0 && clock == Rearm(old(clock), key, deadline)
      ensures sleep == if key.TimerKey? then old(sleep)[key.routine := deadline] else old(sleep)
      ensures timed.deadlines == old(timed.deadlines)[key := deadline]
    {
      hide KeyedTimers.Valid, KeyedTimers.Repr, Rearm;
      ok := timed.Arm(key, deadline, clock);
      clock := Rearm(clock, key, deadline);
      sleep := if key.TimerKey? then sleep[key.routine := deadline] else sleep;
    }

    /** Puts a timer back that came out before its deadline. */
    method Readd(key: Key)
      requires Valid() && key in timed.index && (key.IoKey? ==> key.wait < |ops|)
      modifies `clock, `sleep, timed.Repr()
      ensures Valid() && fresh(timed.Repr() - old(timed.Repr())) && sleep == old(sleep)
      ensures key in old(timed.deadlines) && old(clock).slots > 0
      ensures clock == Rearm(old(clock), key, old(timed.deadlines)[key])
    {
      hide KeyedTimers.Valid, KeyedTimers.Repr, Offset;
      timed.DeadlineShown(key, clock);
      var _ := Arm(key, timed.DeadlineOf(key));
      assert timed.deadlines == old(timed.deadlines) && sleep == old(sleep);
    }

    // -------------------------------------------------------------------------------------------
    // Completion
    // -------------------------------------------------------------------------------------------

    method MakeReady(r: nat)
      modifies `states, `ready
      ensures State() == IoWaits.MakeReady(old(State()), r)
    {
      if r in states && states[r] in {WaitIo, WaitTimer, WaitEvent} {
        states := states[r := Ready];
        ready := ready + [r];
      }
    }

    /** Takes the timer out of the wheel, and frees slot and routine if they still are the wait's. */
    method CompleteWait(w: nat, result: WaitResult, now: nat)
      requires Valid() && w < |ops|
      modifies this, timed.Repr()
      ensures Valid() && timed.Repr() == old(timed.Repr())
      ensures State() == IoWaits.CompleteWait(old(State()), w, result, now)
    {
      hide Valid, KeyedTimers.Repr, Clear, IoWaits.MakeReady, IoWaits.Forget, IoWaits.ClearSlot;
      Settle(w, result, now);
      if ops[w].deadline.Some? {
        Disarm(IoKey(w));
      }
      Free(w);
    }

    method Settle(w: nat, result: WaitResult, now: nat)
      requires Valid()
      modifies `results, `log
      ensures Valid() && results == old(results)[w := result] && log == old(log) + [Ended(w, result, now)]
    {
      hide KeyedTimers.Valid, KeyedTimers.Repr;
      results, log := results[w := result], log + [Ended(w, result, now)];
    }

    method Free(w: nat)
      requires Valid() && w < |ops|
      modifies `fds, `ioWait, `states, `ready
      ensures Valid()
      ensures State() == IoWaits.MakeReady(IoWaits.Forget(IoWaits.ClearSlot(old(State()), w), w), ops[w].routine)
    {
      hide KeyedTimers.Valid, KeyedTimers.Repr, IoWaits.MakeReady, IoWaits.Forget, IoWaits.ClearSlot;
      Release(w);
      MakeReady(ops[w].routine);
    }

    method Release(w: nat)
      requires w < |ops|
      modifies `fds, `ioWait
      ensures State() == IoWaits.Forget(IoWaits.ClearSlot(old(State()), w), w)
    {
      var op := ops[w];
      if op.fd in fds && Slot(fds[op.fd], op.direction) == Some(w) {
        fds := fds[op.fd := WithSlot(fds[op.fd], op.direction, None)];
      }
      if op.routine in ioWait && ioWait[op.routine] == w {
        ioWait := ioWait - {op.routine};
      }
    }

    method CompleteIo(fd: int, m: Mask, now: nat)
      requires Valid()
      modifies this, timed.Repr()
      ensures Valid() && timed.Repr() == old(timed.Repr())
      ensures State() == IoWaits.CompleteIo(old(State()), fd, m, now)
    {
      hide Valid, KeyedTimers.Repr, IoWaits.CompleteWait;
      if fd in fds && fds[fd].read.Some? && fds[fd].read.value < |ops| && WakesRead(m) {
        CompleteWait(fds[fd].read.value, IoReady, now);
      }
      if fd in fds && fds[fd].write.Some? && fds[fd].write.value < |ops| && WakesWrite(m) {
        CompleteWait(fds[fd].write.value, IoReady, now);
      }
    }

    /** A node that came out of the wheel: what happens depends on the deadline in the node. */
    method CompleteKey(key: Key, now: nat)
      requires Valid()
      modifies this, timed.Repr()
      ensures Valid() && fresh(timed.Repr() - old(timed.Repr())) && old(clock).slots > 0
      ensures State() == IoWaits.CompleteKey(old(State()), key, now)
    {
      hide KeyedTimers.Valid, KeyedTimers.Repr, IoWaits.CompleteWait, IoWaits.MakeReady, Rearm;
      timed.NowShown(clock);
      timed.Indexed(clock);
      if key !in timed.index || (key.IoKey? && (key.wait >= |ops| || ops[key.wait].deadline.None?)) { return; }
      timed.DeadlineShown(key, clock);
      if now < timed.DeadlineOf(key) {
        Readd(key);
      } else if key.IoKey? {
        CompleteWait(key.wait, Timeout, now);
      } else {
        MakeReady(key.routine);
      }
    }

    // -------------------------------------------------------------------------------------------
    // Calls of routines
    // -------------------------------------------------------------------------------------------

    method Await(r: nat, fd: int, d: Direction, timeout: nat, now: nat, controlled: bool) returns (outcome: Outcome)
      requires Valid()
      modifies this, timed.Repr()
      ensures Valid() && fresh(timed.Repr() - old(timed.Repr())) && old(clock).slots > 0
      ensures (State(), outcome) == IoWaits.Await(old(State()), r, fd, d, timeout, now, controlled)
    {
      hide Valid, Rearm, DeadlineAfter, Beginning, Slot, WithSlot;
      Started();
      if r !in states || states[r] != Running { return Threw; }
      if timeout == 0 { return Immediately(Timeout); }
      Find(fd);
      if Slot(fds[fd], d).Some? { return Threw; }
      var op := Wait(r, fd, d, if timeout == NO_TIMEOUT then None else Some(DeadlineAfter(now, timeout)));
      var ok := Register(op, controlled);
      if !ok { return Threw; }
      return Suspended(|ops| - 1);
    }

    lemma Started()
      requires Valid()
      ensures clock.slots > 0
    {
      hide KeyedTimers.Valid;
      timed.NowShown(clock);
    }

    /** The context of a descriptor is made on first use. */
    method Find(fd: int)
      requires Valid()
      modifies `fds
      ensures Valid() && fds == old(fds)[fd := if fd in old(fds) then old(fds)[fd] else Context(None, None)]
    {
      hide KeyedTimers.Valid, KeyedTimers.Repr;
      if fd !in fds {
        fds := fds[fd := Context(None, None)];
      }
    }

    /**
     The wait takes its slot and its timer and the routine gives up control, unless the wheel or the kernel refuses:
     then timer and slot are taken back.
     */
    method Register(op: Wait, controlled: bool) returns (ok: bool)
      requires Valid() && op.fd in fds && Slot(fds[op.fd], op.direction).None?
      modifies this, timed.Repr()
      ensures Valid() && fresh(timed.Repr() - old(timed.Repr())) && old(clock).slots > 0
      ensures ok <==> (op.deadline.Some? ==> op.deadline.value > old(clock).tick) && controlled
      ensures !ok ==> State() == old(State())
      ensures ok ==> State() == Beginning(old(State()), op, WithSlot(old(fds)[op.fd], op.direction, Some(|old(ops)|)))
      ensures ok ==> |ops| == |old(ops)| + 1
    {
      hide KeyedTimers.Valid, Slot, WithSlot, Rearm, Noted;
      Started();
      NodeNoted(timed.deadlines, clock, ops, sleep, op);
      var context := fds[op.fd];
      SetFds(fds[op.fd := WithSlot(context, op.direction, Some(|ops|))]);
      ok := Enter(op);
      if ok && controlled {
        Suspend(op);
      } else {
        TakeBack(op, context, old(clock));
        assert fds == old(fds);
        ok := false;
      }
    }

    method Enter(op: Wait) returns (ok: bool)
      requires Valid()
      modifies `clock, `sleep, timed.Repr()
      ensures timed.Valid(clock) && this !in timed.Repr() && fresh(timed.Repr() - old(timed.Repr()))
      ensures ok <==> op.deadline.Some? ==> op.deadline.value > old(clock).tick
      ensures old(clock).slots > 0 && State() == old(State()).(clock := WithTimer(old(clock), op, |ops|))
      ensures timed.deadlines == WithNode(old(timed.deadlines), op, |ops|)
    {
      hide KeyedTimers.Valid, KeyedTimers.Repr, Rearm;
      Started();
      ok := true;
      if op.deadline.Some? {
        ok := Arm(IoKey(|ops|), op.deadline.value);
      }
    }

    method Suspend(op: Wait)
      requires timed.Valid(clock) && this !in timed.Repr() && Noted(timed.deadlines, clock, ops + [op], sleep)
      modifies `ops, `log, `ioWait, `awaiting, `states
      ensures Valid() && timed.Repr() == old(timed.Repr())
      ensures ops == old(ops) + [op] && log == old(log) + [Began(|old(ops)|, op.deadline)]
      ensures ioWait == old(ioWait)[op.routine := |old(ops)|] && awaiting == old(awaiting)[op.routine := |old(ops)|]
      ensures states == old(states)[op.routine := WaitIo]
    {
      hide KeyedTimers.Valid, Noted;
      var w := |ops|;
      ops, log := ops + [op], log + [Began(w, op.deadline)];
      ioWait, awaiting, states := ioWait[op.routine := w], awaiting[op.routine := w], states[op.routine := WaitIo];
    }

    method TakeBack(op: Wait, context: Context, ghost before: Clock<Key>)
      requires timed.Valid(clock) && this !in timed.Repr() && before.slots > 0 && IoKey(|ops|) !in before.pending
      requires clock == WithTimer(before, op, |ops|) && Noted(timed.deadlines, before, ops, sleep)
      modifies `fds, `clock, timed.Repr()
      ensures Valid() && timed.Repr() == old(timed.Repr())
      ensures State() == old(State()).(clock := before, fds := old(fds)[op.fd := context])
    {
      hide KeyedTimers.Valid, KeyedTimers.Repr, Offset, Noted;
      if op.deadline.Some? {
        timed.Disarm(IoKey(|ops|), clock);
        clock := Clear(clock, IoKey(|ops|));
        assert clock.pending == before.pending;
      }
      fds := fds[op.fd := context];
    }

    method YieldFor(r: nat, ms: nat, now: nat) returns (outcome: Sleep)
      requires Valid()
      modifies this, timed.Repr()
      ensures Valid() && fresh(timed.Repr() - old(timed.Repr())) && old(clock).slots > 0
      ensures (State(), outcome) == IoWaits.YieldFor(old(State()), r, ms, now)
    {
      hide KeyedTimers.Valid, KeyedTimers.Repr, DeadlineAfter, Offset;
      timed.NowShown(clock);
      if r !in states || states[r] != Running { return SleepThrew; }
      if ms == 0 { return NotAtAll; }
      timed.PendingShown(TimerKey(r), clock);
      if timed.Pending(TimerKey(r)) { return SleepThrew; }
      var ok := Arm(TimerKey(r), DeadlineAfter(now, ms));
      if !ok {
        assert clock.pending == old(clock).pending;
        return SleepThrew;
      }
      states := states[r := WaitTimer];
      return Asleep;
    }

    method PrepareTimerResume(r: nat) returns (ok: bool)
      requires Valid()
      modifies this, timed.Repr()
      ensures Valid() && timed.Repr() == old(timed.Repr())
      ensures (State(), ok) == IoWaits.PrepareTimerResume(old(State()), r)
    {
      hide Valid, KeyedTimers.Repr, Clear;
      if r !in states || states[r] != WaitTimer { return false; }
      Disarm(TimerKey(r));
      Mark(r, Ready);
      return true;
    }

    method Mark(r: nat, state: RoutineState)
      requires Valid()
      modifies `states
      ensures Valid() && states == old(states)[r := state]
    {
      hide KeyedTimers.Valid, KeyedTimers.Repr;
      states := states[r := state];
    }

    method CancelWait(r: nat, now: nat) returns (ok: bool)
      requires Valid()
      modifies this, timed.Repr()
      ensures Valid() && timed.Repr() == old(timed.Repr())
      ensures (State(), ok) == IoWaits.CancelWait(old(State()), r, now)
    {
      hide Valid, KeyedTimers.Repr, IoWaits.CompleteWait;
      if r !in states || states[r] != WaitIo || r !in ioWait || ioWait[r] >= |ops| { return false; }
      CompleteWait(ioWait[r], Cancelled, now);
      return true;
    }

    /** Both sides are detached before either wait is completed, and the descriptor is dropped at the end. */
    method CancelFd(fd: int, now: nat)
      requires Valid()
      modifies this, timed.Repr()
      ensures Valid() && timed.Repr() == old(timed.Repr())
      ensures State() == IoWaits.CancelFd(old(State()), fd, now)
    {
      hide Valid, KeyedTimers.Repr, IoWaits.CompleteWait;
      if fd !in fds { return; }
      var read, write := fds[fd].read, fds[fd].write;
      SetFds(fds[fd := Context(None, None)]);
      if read.Some? && read.value < |ops| {
        CompleteWait(read.value, Cancelled, now);
      }
      if write.Some? && write.value < |ops| {
        CompleteWait(write.value, Cancelled, now);
      }
      SetFds(fds - {fd});
    }

    method SetFds(fds': map<int, Context>)
      requires Valid()
      modifies `fds
      ensures Valid() && timed.Repr() == old(timed.Repr()) && fds == fds'
    {
      hide KeyedTimers.Valid, Noted;
      fds := fds';
    }

    // -------------------------------------------------------------------------------------------
    // Flushing and polling
    // -------------------------------------------------------------------------------------------

    /** The flush instants are `nextFlush` plus multiples of the interval; the loop stops at the first after `now`. */
    method Flush(now: nat)
      requires Valid() && flushInterval > 0
      modifies `nextFlush, `flushQueue, `states, `ready
      ensures Valid() && timed.Repr() == old(timed.Repr()) && State() == IoWaits.Flush(old(State()), now)
    {
      hide KeyedTimers.Valid, Noted;
      if flushQueue == [] || now < nextFlush { return; }
      AdvanceFlush(now);
      WakeQueue();
      flushQueue := [];
    }

    method AdvanceFlush(now: nat)
      requires flushInterval > 0 && nextFlush <= now
      modifies `nextFlush
      ensures nextFlush == NextFlush(old(nextFlush), flushInterval, now)
    {
      ghost var k := 0;
      while nextFlush <= now
        invariant nextFlush == old(nextFlush) + k * flushInterval && k >= 0
        invariant nextFlush <= now + flushInterval
        decreases now + flushInterval - nextFlush
      {
        nextFlush := nextFlush + flushInterval;
        k := k + 1;
      }
      FirstAfter(old(nextFlush), flushInterval, now, k);
    }

    method WakeQueue()
      modifies `states, `ready
      ensures State() == WakeEach(old(State()), old(flushQueue))
    {
      hide IoWaits.MakeReady;
      ghost var io := State();
      var queue := flushQueue;
      var i := 0;
      while i < |queue|
        invariant 0 <= i <= |queue|
        invariant State() == WakeEach(io, queue[..i])
      {
        assert queue[..i + 1][..i] == queue[..i];
        if queue[i] in states && states[queue[i]] == WaitEvent {
          MakeReady(queue[i]);
        }
        i := i + 1;
      }
      assert queue[..i] == queue;
    }

    method HandleEvents(events: seq<(int, Mask)>, before: nat)
      requires Valid()
      modifies this, timed.Repr()
      ensures Valid() && timed.Repr() == old(timed.Repr())
      ensures State() == CompleteEvents(old(State()), events, before)
    {
      hide Valid, KeyedTimers.Repr, IoWaits.CompleteIo;
      ghost var io := State();
      var i := 0;
      while i < |events|
        invariant 0 <= i <= |events| && Valid() && timed.Repr() == old(timed.Repr())
        invariant State() == CompleteEvents(io, events[..i], before)
      {
        assert events[..i + 1][..i] == events[..i];
        CompleteIo(events[i].0, events[i].1, before);
        i := i + 1;
      }
      assert events[..i] == events;
    }

    /** Handles the expired timers in the order the wheel gave them out. */
    method HandleExpired(keys: seq<Key>, now: nat)
      requires Valid()
      modifies this, timed.Repr()
      ensures Valid() && fresh(timed.Repr() - old(timed.Repr())) && old(clock).slots > 0
      ensures State() == CompleteKeys(old(State()), keys, now)
    {
      hide Valid, IoWaits.CompleteKey;
      Started();
      ghost var io := State();
      var i := 0;
      while i < |keys|
        invariant 0 <= i <= |keys| && Valid() && fresh(timed.Repr() - old(timed.Repr()))
        invariant State() == CompleteKeys(io, keys[..i], now)
      {
        assert keys[..i + 1][..i] == keys[..i];
        CompleteKey(keys[i], now);
        i := i + 1;
      }
      assert keys[..i] == keys;
    }

    /** Time passes on the wheel. */
    method Expire(now: nat) returns (keys: seq<Key>)
      requires Valid()
      modifies `clock, timed.Repr()
      ensures Valid() && timed.Repr() == old(timed.Repr())
      ensures State() == old(State()).(clock := AlarmClocks.Wait(old(clock), now))
      ensures Orders(keys, old(clock), now)
    {
      hide KeyedTimers.Valid, KeyedTimers.Repr;
      keys := timed.Pass(now, clock);
      clock := AlarmClocks.Wait(clock, now);
    }

    method Poll(events: seq<(int, Mask)>, before: nat, now: nat) returns (keys: seq<Key>)
      requires Valid() && flushInterval > 0
      modifies this, timed.Repr()
      ensures Valid() && fresh(timed.Repr() - old(timed.Repr())) && old(clock).slots > 0
      ensures Orders(keys, BeforeTimers(old(State()), events, before, now).clock, now)
      ensures State() == IoWaits.Poll(old(State()), events, before, now, keys)
    {
      hide Valid, CompleteEvents, IoWaits.Flush, CompleteKeys, Orders, AlarmClocks.Wait;
      Started();
      HandleEvents(events, before);
      Flush(now);
      keys := Elapse(now);
      Note(Polled(now));
    }

    method Elapse(now: nat) returns (keys: seq<Key>)
      requires Valid()
      modifies this, timed.Repr()
      ensures Valid() && fresh(timed.Repr() - old(timed.Repr())) && old(clock).slots > 0
      ensures Orders(keys, old(clock), now)
      ensures State() == CompleteKeys(old(State()).(clock := AlarmClocks.Wait(old(clock), now)), keys, now)
    {
      hide Valid, CompleteKeys, Orders, AlarmClocks.Wait;
      Started();
      keys := Expire(now);
      HandleExpired(keys, now);
    }

    method Note(note: Note)
      requires Valid()
      modifies `log
      ensures Valid() && timed.Repr() == old(timed.Repr()) && log == old(log) + [note]
    {
      hide KeyedTimers.Valid, Noted;
      log := log + [note];
    }

    /**
     How long a poll may sleep: not beyond its bound, the next flush or, unless they go unseen, any pending deadline;
     and without limit exactly if there is no bound, no flush and no deadline to be seen. A limited sleep ends at one
     of these, or after the longest sleep there is.
     */
    method PollWait(bound: int, now: nat) returns (t: int)
      requires Valid()
      ensures t < 0 <==> bound < 0 && flushQueue == [] && (clock.pending == map[] || Unseen(clock))
      ensures bound >= 0 ==> t <= bound
      ensures flushQueue != [] ==> t == 0 || now + t <= nextFlush
      ensures !Unseen(clock) ==> forall k :: k in clock.pending ==> t == 0 || now + t <= clock.pending[k].deadline
      ensures t >= 0 ==>
        || t == bound || t == 0x7FFF_FFFF || (flushQueue != [] && t == Until(now, nextFlush))
        || exists k :: k in clock.pending && t == Until(now, clock.pending[k].deadline)
    {
      hide KeyedTimers.Valid, KeyedTimers.Repr, PollTimeout, Least;
      var first := timed.NextDeadline(clock);
      var deadline := if first == Some(NO_TIMEOUT) then None else first;
      t := PollTimeout(bound, if flushQueue == [] then None else Some(nextFlush), deadline, now);
      assert forall k :: k in clock.pending ==> clock.pending[k].deadline in Deadlines(clock);
      assert Deadlines(clock) == {} ==> clock.pending == map[];
      if deadline.Some? {
        ghost var k :| k in clock.pending && clock.pending[k].deadline == deadline.value;
      }
    }

    // -------------------------------------------------------------------------------------------
    // Scheduling
    // -------------------------------------------------------------------------------------------

    /** The operations that concern no timer. */
    method Plain(op: Action)
      requires Valid() && flushInterval > 0 && Untimed(op)
      modifies `states, `flushQueue, `ready, `log, `awaiting
      ensures Valid() && old(clock).slots > 0 && State() == IoWaits.Apply(old(State()), op)
    {
      hide KeyedTimers.Valid, KeyedTimers.Repr, IoWaits.Apply, Untimed;
      Started();
      Schedule(op);
    }

    method Schedule(op: Action)
      requires clock.slots > 0 && flushInterval > 0 && Untimed(op)
      modifies `states, `flushQueue, `ready, `log, `awaiting
      ensures State() == IoWaits.Apply(old(State()), op)
    {
      hide Dropped, IoWaits.Await, IoWaits.YieldFor, IoWaits.PrepareTimerResume, IoWaits.CancelWait, IoWaits.CancelFd;
      hide IoWaits.Poll, IoWaits.Resume;
      match op
      case DoStart(r) => if r !in states { states := states[r := Running]; }
      case DoYield(r) => if r in states && states[r] == Running { states := states[r := WaitEvent]; }
      case DoYieldUntilFlush(r) =>
        if r in states && states[r] == Running && r !in flushQueue {
          flushQueue, states := flushQueue + [r], states[r := WaitEvent];
        }
      case DoScheduleAtFlush(r) =>
        if r in states && states[r] == WaitEvent && r !in flushQueue { flushQueue := flushQueue + [r]; }
      case DoResume(r) => Resume(r);
    }

    /** A routine that goes on after a wait is told the result. */
    method Resume(r: nat)
      modifies `states, `ready, `log, `awaiting
      ensures State() == IoWaits.Resume(old(State()), r).0
    {
      hide Dropped;
      if r in states && states[r] == Ready {
        states, ready := states[r := Running], Dropped(ready, r);
        if r in awaiting && awaiting[r] in results {
          log, awaiting := log + [Returned(awaiting[r], results[awaiting[r]])], awaiting - {r};
        }
      }
    }

    /** The operations that change timers one by one. */
    method Single(op: Action)
      requires Valid() && flushInterval > 0 && (op.DoAwait? || op.DoSleep? || op.DoWakeSleeper?)
      modifies this, timed.Repr()
      ensures Valid() && fresh(timed.Repr() - old(timed.Repr())) && old(clock).slots > 0
      ensures State() == IoWaits.Apply(old(State()), op)
    {
      hide Valid, KeyedTimers.Repr, IoWaits.Await, IoWaits.YieldFor, IoWaits.PrepareTimerResume;
      Started();
      match op
      case DoAwait(r, fd, d, timeout, now, controlled) => var _ := Await(r, fd, d, timeout, now, controlled);
      case DoSleep(r, ms, now) => var _ := YieldFor(r, ms, now);
      case DoWakeSleeper(r) => var _ := PrepareTimerResume(r);
    }

    /** Does `op`; the order in which a poll takes its expired timers is the wheel's. */
    method Perform(op: Action) returns (done: Action)
      requires Valid() && flushInterval > 0
      modifies this, timed.Repr()
      ensures Valid() && fresh(timed.Repr() - old(timed.Repr()))
      ensures Follows(old(State()), done, State()) && Same(op, done)
    {
      hide Valid, KeyedTimers.Repr, IoWaits.CancelWait, IoWaits.CancelFd, IoWaits.Poll, IoWaits.Apply, Orders,
          BeforeTimers;
      Started();
      done := op;
      if op.DoCancelWait? {
        var _ := CancelWait(op.r, op.now);
      } else if op.DoCancelFd? {
        CancelFd(op.fd, op.now);
      } else if op.DoPoll? {
        var keys := Poll(op.events, op.before, op.now);
        done := op.(keys := keys);
      } else if Untimed(op) {
        Plain(op);
      } else {
        Single(op);
      }
      Applied(old(State()), done);
    }
  }

  lemma Applied(io: Io, op: Action)
    requires io.clock.slots > 0 && io.flushInterval > 0
    ensures op.DoCancelWait? ==> IoWaits.Apply(io, op) == CancelWait(io, op.r, op.now).0
    ensures op.DoCancelFd? ==> IoWaits.Apply(io, op) == CancelFd(io, op.fd, op.now)
    ensures op.DoPoll? ==> IoWaits.Apply(io, op) == Poll(io, op.events, op.before, op.now, op.keys)
  {
  }

  /** A routine sleeps for so long that its deadline is cut to the largest value, and the poll sleeps without limit. */
  method SleepUnseen() returns (io: IoManager, slept: Sleep, t: int)
    ensures slept == Asleep && TimerKey(0) in io.clock.pending && t < 0
  {
    hide IoManager.Valid, KeyedTimers.Repr, IoWaits.Resume, Offset;
    io := new IoManager(64, 1, 5);
    io.Plain(DoStart(0));
    slept := io.YieldFor(0, NO_TIMEOUT - 1, 2);
    assert Unseen(io.clock) by { assert io.clock.pending[TimerKey(0)].deadline == NO_TIMEOUT; }
    t := io.PollWait(-1, 2);
  }

  predicate Untimed(op: Action) {
    op.DoStart? || op.DoYield? || op.DoYieldUntilFlush? || op.DoScheduleAtFlush? || op.DoResume?
  }

  /** The same request, up to the order in which a poll took its expired timers. */
  predicate Same(asked: Action, done: Action) {
    if asked.DoPoll? then done.DoPoll? && done == asked.(keys := done.keys) else done == asked
  }

  /** Whatever routines, the kernel and the clock do, a manager goes through a run of the state functions. */
  method Serve(slots: nat, start: nat, flushInterval: nat, script: seq<Action>)
    returns (log: seq<Note>, done: seq<Action>, ghost states: seq<Io>)
    requires slots > 0 && flushInterval > 0
    ensures |done| == |script| && forall i :: 0 <= i < |script| ==> Same(script[i], done[i])
    ensures IoWaits.Run(states, done) && states[0] == Initial(slots, start, flushInterval)
    ensures log == states[|script|].log
    ensures Behaved(log)
    ensures forall i :: 0 <= i < |script| ==> WaitOutcomes.EndsAsCalled(states[i], done[i], states[i + 1])
  {
    hide Consistent, Follows, Behaved, Initial, IoManager.Valid, WaitOutcomes.EndsAsCalled;
    var io := new IoManager(slots, start, flushInterval);
    InitialConsistent(slots, start, flushInterval);
    done, states := [], [io.State()];
    while |done| < |script|
      invariant |done| <= |script| && fresh(io) && io.Valid() && fresh(io.timed.Repr())
      invariant Consistent(io.State(), {}, {})
      invariant |states| == |done| + 1 && states[|done|] == io.State()
      invariant states[0] == Initial(slots, start, flushInterval)
      invariant forall i :: 0 <= i < |done| ==> Same(script[i], done[i])
      invariant forall i :: 0 <= i < |done| ==> Follows(states[i], done[i], states[i + 1])
    {
      Configured(io.State());
      var act := io.Perform(script[|done|]);
      FollowsKeeps(states[|done|], act, io.State());
      done, states := done + [act], states + [io.State()];
    }
    LogBehaved(io.State());
    forall i | 0 <= i < |script| ensures WaitOutcomes.EndsAsCalled(states[i], done[i], states[i + 1]) {
      WaitOutcomes.WaitsEndAsCalled(states, done, i);
    }
    return io.log, done, states;
  }

  lemma Configured(io: Io)
    requires Consistent(io, {}, {})
    ensures io.clock.slots > 0 && io.flushInterval > 0
  {
  }

  lemma FollowsKeeps(io: Io, op: Action, io': Io)
    requires Consistent(io, {}, {}) && Follows(io, op, io')
    ensures Consistent(io', {}, {})
  {
    hide Consistent, IoWaits.Apply, Possible;
    ApplyKeeps(io, op);
  }

  lemma FirstAfter(next: nat, interval: nat, now: nat, k: nat)
    requires interval > 0 && next <= now && k > 0
    requires next + (k - 1) * interval <= now < next + k * interval
    ensures next + k * interval == NextFlush(next, interval, now)
  {
    var q := (now - next) / interval;
    assert (k - 1) * interval <= now - next < k * interval;
    QuotientUnique(q, (now - next) % interval, k - 1, now - next - (k - 1) * interval, interval);
  }
}
