/**
 I/O waits, timer waits and flush waits of routines, as values: each operation of the
 manager is a function from state to state. Descriptors, event masks and clock readings
 are inputs. The timer wheel is the alarm clock that it agrees with.
 */
module IoWaits {
  import opened Results
  import opened Sequences
  import opened WheelTime
  import opened AlarmClocks

  const U64_MAX: nat := 0xFFFF_FFFF_FFFF_FFFF
  const NO_TIMEOUT: nat := U64_MAX

  datatype Direction = Read | Write

  datatype WaitResult = IoReady | Timeout | Cancelled | Error

  datatype RoutineState = Running | Ready | WaitIo | WaitTimer | WaitEvent

  /** The event mask of one descriptor. */
  datatype Mask = Mask(input: bool, output: bool, err: bool, hup: bool, rdhup: bool)

  datatype Wait = Wait(routine: nat, fd: int, direction: Direction, deadline: Option<nat>)

  datatype Context = Context(read: Option<nat>, write: Option<nat>)

  /** What happened: a wait began, ended with a result, was returned from, or a poll finished at a clock reading. */
  datatype Note =
    | Began(wait: nat, deadline: Option<nat>)
    | Ended(wait: nat, result: WaitResult, at: nat)
    | Returned(wait: nat, result: WaitResult)
    | Polled(at: nat)

  /** A timer node: the one of a wait, or the one of a routine. */
  datatype Key = IoKey(wait: nat) | TimerKey(routine: nat)

  datatype Io = Io(
    clock: Clock<Key>, fds: map<int, Context>, ops: seq<Wait>, results: map<nat, WaitResult>,
    ioWait: map<nat, nat>, awaiting: map<nat, nat>, states: map<nat, RoutineState>, sleep: map<nat, nat>,
    ready: seq<nat>, flushQueue: seq<nat>, flushInterval: nat, nextFlush: nat, log: seq<Note>)

  function DeadlineAfter(now: nat, timeout: nat): (d: nat) {
    if now <= U64_MAX && timeout > U64_MAX - now then U64_MAX else now + timeout
  }

  // ---------------------------------------------------------------------------------------------
  // Completion
  // ---------------------------------------------------------------------------------------------

  /** What completions leave alone. */
  predicate Alike(io: Io, io': Io) {
    && io'.clock.slots == io.clock.slots && io'.clock.tick == io.clock.tick
    && io'.flushInterval == io.flushInterval && io'.nextFlush == io.nextFlush && io'.flushQueue == io.flushQueue
    && io'.ops == io.ops && io'.sleep == io.sleep && io'.awaiting == io.awaiting
  }

  function MakeReady(io: Io, r: nat): (io': Io)
    ensures Alike(io, io') && io'.clock == io.clock
  {
    if r in io.states && io.states[r] in {WaitIo, WaitTimer, WaitEvent}
    then io.(states := io.states[r := Ready], ready := io.ready + [r])
    else io
  }

  function Slot(c: Context, d: Direction): (w: Option<nat>) {
    if d == Read then c.read else c.write
  }

  function WithSlot(c: Context, d: Direction, w: Option<nat>): (c': Context) {
    if d == Read then c.(read := w) else c.(write := w)
  }

  function Waiter(io: Io, fd: int, d: Direction): (w: Option<nat>) {
    if fd in io.fds then Slot(io.fds[fd], d) else None
  }

  /** The slot of a wait is cleared only if it still is that wait's. */
  function ClearSlot(io: Io, w: nat): (io': Io)
    requires w < |io.ops|
    ensures Alike(io, io')
  {
    var op := io.ops[w];
    if Waiter(io, op.fd, op.direction) == Some(w)
    then io.(fds := io.fds[op.fd := WithSlot(io.fds[op.fd], op.direction, None)])
    else io
  }

  function Forget(io: Io, w: nat): (io': Io)
    requires w < |io.ops|
    ensures Alike(io, io')
  {
    var r := io.ops[w].routine;
    if r in io.ioWait && io.ioWait[r] == w then io.(ioWait := io.ioWait - {r}) else io
  }

  function CompleteWait(io: Io, w: nat, result: WaitResult, now: nat): (io': Io)
    requires w < |io.ops|
    ensures Alike(io, io')
  {
    var op := io.ops[w];
    var marked := io.(results := io.results[w := result], log := io.log + [Ended(w, result, now)],
                      clock := if op.deadline.Some? then Clear(io.clock, IoKey(w)) else io.clock);
    MakeReady(Forget(ClearSlot(marked, w), w), op.routine)
  }

  function WakesRead(m: Mask): (b: bool) { m.input || m.err || m.hup || m.rdhup }

  function WakesWrite(m: Mask): (b: bool) { m.output || m.err || m.hup }

  function CompleteSide(io: Io, fd: int, d: Direction, wakes: bool, now: nat): (io': Io)
    ensures Alike(io, io')
  {
    var w := Waiter(io, fd, d);
    if wakes && w.Some? && w.value < |io.ops| then CompleteWait(io, w.value, IoReady, now) else io
  }

  function CompleteIo(io: Io, fd: int, m: Mask, now: nat): (io': Io)
    ensures Alike(io, io')
  {
    CompleteSide(CompleteSide(io, fd, Read, WakesRead(m), now), fd, Write, WakesWrite(m), now)
  }

  /** A timer node that came out of the wheel: put back if it came out early, completed otherwise. */
  function CompleteKey(io: Io, key: Key, now: nat): (io': Io)
    requires io.clock.slots > 0
    ensures Alike(io, io')
  {
    match key
    case IoKey(w) =>
      if w >= |io.ops| || io.ops[w].deadline.None? then io
      else if now < io.ops[w].deadline.value then io.(clock := Rearm(io.clock, key, io.ops[w].deadline.value))
      else CompleteWait(io, w, Timeout, now)
    case TimerKey(r) =>
      if r !in io.sleep then io
      else if now < io.sleep[r] then io.(clock := Rearm(io.clock, key, io.sleep[r]))
      else MakeReady(io, r)
  }

  // ---------------------------------------------------------------------------------------------
  // Calls of routines
  // ---------------------------------------------------------------------------------------------

  datatype Outcome = Threw | Immediately(result: WaitResult) | Suspended(wait: nat)

  /**
   `controlled` says whether the kernel accepts the registration of the descriptor. When it does not, or when the wheel
   refuses the deadline, the slot and the timer are taken back.
   */
  function Await(io: Io, r: nat, fd: int, d: Direction, timeout: nat, now: nat, controlled: bool): (o: (Io, Outcome))
    requires io.clock.slots > 0
  {
    if r !in io.states || io.states[r] != Running then (io, Threw)
    else if timeout == 0 then (io, Immediately(Timeout))
    else
      var context := if fd in io.fds then io.fds[fd] else Context(None, None);
      var listed := io.(fds := io.fds[fd := context]);
      if Slot(context, d).Some? then (listed, Threw)
      else
        var deadline := if timeout == NO_TIMEOUT then None else Some(DeadlineAfter(now, timeout));
        if (deadline.Some? && deadline.value <= io.clock.tick) || !controlled then (listed, Threw)
        else
          (Beginning(listed, Wait(r, fd, d, deadline), WithSlot(context, d, Some(|io.ops|))), Suspended(|io.ops|))
  }

  /** The wait takes its slot and its timer, and its routine gives up control. */
  function Beginning(io: Io, op: Wait, context: Context): (io': Io)
    requires io.clock.slots > 0
  {
    var w := |io.ops|;
    io.(fds := io.fds[op.fd := context],
        clock := if op.deadline.Some? then Rearm(io.clock, IoKey(w), op.deadline.value) else io.clock,
        ops := io.ops + [op], ioWait := io.ioWait[op.routine := w], awaiting := io.awaiting[op.routine := w],
        states := io.states[op.routine := WaitIo], log := io.log + [Began(w, op.deadline)])
  }

  datatype Sleep = SleepThrew | NotAtAll | Asleep

  /** The routine's deadline is set before the wheel is asked, and stays set if the wheel refuses. */
  function YieldFor(io: Io, r: nat, ms: nat, now: nat): (o: (Io, Sleep))
    requires io.clock.slots > 0
  {
    if r !in io.states || io.states[r] != Running then (io, SleepThrew)
    else if ms == 0 then (io, NotAtAll)
    else if TimerKey(r) in io.clock.pending then (io, SleepThrew)
    else
      var deadline := DeadlineAfter(now, ms);
      if deadline <= io.clock.tick then (io.(sleep := io.sleep[r := deadline]), SleepThrew)
      else
        (io.(clock := Rearm(io.clock, TimerKey(r), deadline), sleep := io.sleep[r := deadline],
             states := io.states[r := WaitTimer]), Asleep)
  }

  /** An early wake-up of a sleeping routine takes its timer out first. */
  function PrepareTimerResume(io: Io, r: nat): (o: (Io, bool)) {
    if r in io.states && io.states[r] == WaitTimer
    then (io.(clock := Clear(io.clock, TimerKey(r)), states := io.states[r := Ready]), true)
    else (io, false)
  }

  function CancelWait(io: Io, r: nat, now: nat): (o: (Io, bool)) {
    if r in io.states && io.states[r] == WaitIo && r in io.ioWait && io.ioWait[r] < |io.ops|
    then (CompleteWait(io, io.ioWait[r], Cancelled, now), true)
    else (io, false)
  }

  function CancelSide(io: Io, w: Option<nat>, now: nat): (io': Io)
    ensures Alike(io, io')
  {
    if w.Some? && w.value < |io.ops| then CompleteWait(io, w.value, Cancelled, now) else io
  }

  function CancelFd(io: Io, fd: int, now: nat): (io': Io) {
    if fd !in io.fds then io
    else
      var c := io.fds[fd];
      var detached := io.(fds := io.fds[fd := Context(None, None)]);
      var done := CancelSide(CancelSide(detached, c.read, now), c.write, now);
      done.(fds := done.fds - {fd})
  }

  /** The scheduler gives control to a ready routine; a routine that was awaiting reads its operation's result. */
  function Resume(io: Io, r: nat): (o: (Io, Option<WaitResult>)) {
    if r !in io.states || io.states[r] != Ready then (io, None)
    else
      var running := io.(states := io.states[r := Running], ready := Dropped(io.ready, r));
      if r in io.awaiting && io.awaiting[r] in io.results then
        var result := io.results[io.awaiting[r]];
        (running.(awaiting := io.awaiting - {r}, log := io.log + [Returned(io.awaiting[r], result)]), Some(result))
      else (running, None)
  }

  function Dropped(s: seq<nat>, r: nat): (s': seq<nat>) {
    if s == [] then [] else if s[0] == r then s[1..] else [s[0]] + Dropped(s[1..], r)
  }

  /** A new routine, or one giving up control until an event. */
  function Start(io: Io, r: nat): (io': Io) {
    if r in io.states then io else io.(states := io.states[r := Running])
  }

  function YieldEvent(io: Io, r: nat): (io': Io) {
    if r in io.states && io.states[r] == Running then io.(states := io.states[r := WaitEvent]) else io
  }

  // ---------------------------------------------------------------------------------------------
  // Flushing and polling
  // ---------------------------------------------------------------------------------------------

  function ScheduleAtFlush(io: Io, r: nat): (o: (Io, bool)) {
    if r !in io.states || io.states[r] != WaitEvent then (io, false)
    else if r in io.flushQueue then (io, true)
    else (io.(flushQueue := io.flushQueue + [r]), true)
  }

  function YieldUntilFlush(io: Io, r: nat): (o: (Io, bool)) {
    if r !in io.states || io.states[r] != Running || r in io.flushQueue then (io, false)
    else (io.(flushQueue := io.flushQueue + [r], states := io.states[r := WaitEvent]), true)
  }

  /** The first flush instant after `now`, on the grid of the interval. */
  function NextFlush(next: nat, interval: nat, now: nat): (n: nat)
    requires interval > 0 && next <= now
    ensures now < n <= now + interval
  {
    next + ((now - next) / interval + 1) * interval
  }

  function WakeEach(io: Io, queue: seq<nat>): (io': Io)
    ensures Alike(io, io') && io'.clock == io.clock
    decreases |queue|
  {
    if queue == [] then io
    else
      var before := WakeEach(io, queue[..|queue| - 1]);
      var r := queue[|queue| - 1];
      if r in before.states && before.states[r] == WaitEvent then MakeReady(before, r) else before
  }

  function Flush(io: Io, now: nat): (io': Io)
    requires io.flushInterval > 0
    ensures io'.clock == io.clock && io'.flushInterval == io.flushInterval
  {
    if io.flushQueue == [] || now < io.nextFlush then io
    else WakeEach(io.(nextFlush := NextFlush(io.nextFlush, io.flushInterval, now)), io.flushQueue).(flushQueue := [])
  }

  function CompleteEvents(io: Io, events: seq<(int, Mask)>, now: nat): (io': Io)
    ensures Alike(io, io')
    decreases |events|
  {
    if events == [] then io
    else
      var last := events[|events| - 1];
      CompleteIo(CompleteEvents(io, events[..|events| - 1], now), last.0, last.1, now)
  }

  function CompleteKeys(io: Io, keys: seq<Key>, now: nat): (io': Io)
    requires io.clock.slots > 0
    ensures Alike(io, io')
    decreases |keys|
  {
    if keys == [] then io else CompleteKey(CompleteKeys(io, keys[..|keys| - 1], now), keys[|keys| - 1], now)
  }

  /** `keys` lists, in some order, the timer nodes that come out when the clock passes `now`. */
  ghost predicate Orders(keys: seq<Key>, clock: Clock<Key>, now: nat) {
    && (forall i, j :: 0 <= i < j < |keys| ==> keys[i] != keys[j])
    && (forall k :: k in keys <==> now > clock.tick && k in Due(clock, now))
  }

  /** One poll: the events of the kernel at `before`, then a flush, then the timers at `now`. */
  function Poll(io: Io, events: seq<(int, Mask)>, before: nat, now: nat, keys: seq<Key>): (io': Io)
    requires io.clock.slots > 0 && io.flushInterval > 0
  {
    var flushed := BeforeTimers(io, events, before, now);
    var done := CompleteKeys(flushed.(clock := AlarmClocks.Wait(flushed.clock, now)), keys, now);
    done.(log := done.log + [Polled(now)])
  }

  function BeforeTimers(io: Io, events: seq<(int, Mask)>, before: nat, now: nat): (io': Io)
    requires io.clock.slots > 0 && io.flushInterval > 0
    ensures io'.clock == CompleteEvents(io, events, before).clock && io'.ops == io.ops && io'.sleep == io.sleep
  {
    var completed := CompleteEvents(io, events, before);
    Flush(completed, now)
  }

  // ---------------------------------------------------------------------------------------------
  // What a log may look like
  // ---------------------------------------------------------------------------------------------

  function Init(log: seq<Note>): (r: seq<Note>)
    requires log != []
    ensures |r| == |log| - 1
  {
    log[..|log| - 1]
  }

  function Last(log: seq<Note>): (n: Note)
    requires log != []
  {
    log[|log| - 1]
  }

  /** The waits that have begun and not ended. */
  ghost function Open(log: seq<Note>): (ws: set<nat>)
    decreases |log|
  {
    if log == [] then {}
    else match Last(log)
      case Began(w, _) => Open(Init(log)) + {w}
      case Ended(w, _, _) => Open(Init(log)) - {w}
      case _ => Open(Init(log))
  }

  ghost function Begun(log: seq<Note>): (n: nat)
    decreases |log|
  {
    if log == [] then 0 else Begun(Init(log)) + if Last(log).Began? then 1 else 0
  }

  ghost function DeadlineIn(log: seq<Note>, w: nat): (d: Option<nat>)
    decreases |log|
  {
    if log == [] then None
    else if Last(log).Began? && Last(log).wait == w then Last(log).deadline
    else DeadlineIn(Init(log), w)
  }

  ghost predicate EndedWith(log: seq<Note>, w: nat, result: WaitResult)
    decreases |log|
  {
    log != [] && ((Last(log).Ended? && Last(log).wait == w && Last(log).result == result)
        || EndedWith(Init(log), w, result))
  }

  /**
   A wait begins under a new number, ends while it is open, times out only at or after its deadline, and returns the
   result it ended with; when a poll finishes, no open wait has reached its deadline.
   */
  ghost predicate Allowed(log: seq<Note>, note: Note) {
    match note
    case Began(w, _) => w == Begun(log)
    case Ended(w, result, at) =>
      w in Open(log) && (result == Timeout ==> DeadlineIn(log, w).Some? && DeadlineIn(log, w).value <= at)
    case Returned(w, result) => EndedWith(log, w, result)
    case Polled(now) => forall w :: w in Open(log) && DeadlineIn(log, w).Some? ==> DeadlineIn(log, w).value > now
  }

  ghost predicate Behaved(log: seq<Note>)
    decreases |log|
  {
    log != [] ==> Behaved(Init(log)) && Allowed(Init(log), Last(log))
  }

  lemma Added(log: seq<Note>, note: Note)
    ensures Init(log + [note]) == log && Last(log + [note]) == note
  {
  }

  // ---------------------------------------------------------------------------------------------
  // The invariant
  // ---------------------------------------------------------------------------------------------

  predicate Pending(io: Io, w: nat) {
    w < |io.ops| && io.ops[w].routine in io.ioWait && io.ioWait[io.ops[w].routine] == w
  }

  ghost predicate Routines(io: Io) {
    && (forall r :: r in io.ioWait ==> io.ioWait[r] < |io.ops| && io.ops[io.ioWait[r]].routine == r)
    && (forall r :: r in io.states && io.states[r] == WaitIo ==> r in io.ioWait)
    && (forall r :: r in io.ioWait ==> r in io.states && io.states[r] == WaitIo)
  }

  /** A pending wait holds its slot unless it is being detached, and its timer unless that has just come out. */
  ghost predicate WaitOk(io: Io, w: nat, detached: set<nat>, loose: set<Key>)
    requires w < |io.ops|
  {
    var op := io.ops[w];
    && (w in detached || Waiter(io, op.fd, op.direction) == Some(w))
    && (op.deadline.Some? ==>
          IoKey(w) in loose || (IoKey(w) in io.clock.pending
              && io.clock.pending[IoKey(w)].deadline == op.deadline.value))
  }

  ghost predicate WaitsOk(io: Io, detached: set<nat>, loose: set<Key>) {
    forall w: nat :: Pending(io, w) ==> WaitOk(io, w, detached, loose)
  }

  ghost predicate SlotOk(io: Io, fd: int, d: Direction) {
    var w := Waiter(io, fd, d);
    w.Some? ==> Pending(io, w.value) && io.ops[w.value].fd == fd && io.ops[w.value].direction == d
  }

  ghost predicate SlotsOk(io: Io) {
    forall fd, d :: SlotOk(io, fd, d)
  }

  /** A timer node belongs to a pending wait or to a sleeping routine. */
  ghost predicate OwnerOk(io: Io, key: Key) {
    match key
    case IoKey(w) => Pending(io, w) && io.ops[w].deadline.Some?
    case TimerKey(r) => r in io.states && io.states[r] == WaitTimer && r in io.sleep
  }

  ghost predicate KeyOk(io: Io, key: Key)
    requires key in io.clock.pending
  {
    && OwnerOk(io, key)
    && io.clock.pending[key].deadline
       == (match key case IoKey(w) => io.ops[w].deadline.value case TimerKey(r) => io.sleep[r])
  }

  ghost predicate KeysOk(io: Io, loose: set<Key>) {
    && Sound(io.clock)
    && (forall k :: k in io.clock.pending ==> KeyOk(io, k))
    && (forall k :: k in loose ==> k !in io.clock.pending && OwnerOk(io, k))
    && (forall r :: r in io.states && io.states[r] == WaitTimer ==>
        TimerKey(r) in loose || TimerKey(r) in io.clock.pending)
  }

  ghost predicate Recorded(io: Io) {
    && Behaved(io.log) && Begun(io.log) == |io.ops|
    && (forall w: nat :: w in Open(io.log) <==> Pending(io, w))
    && (forall w: nat :: w < |io.ops| ==> DeadlineIn(io.log, w) == io.ops[w].deadline)
    && (forall w: nat :: w in io.results ==> EndedWith(io.log, w, io.results[w]))
  }

  ghost predicate Awaited(io: Io) {
    && (forall r :: r in io.ioWait ==> r in io.awaiting && io.awaiting[r] == io.ioWait[r])
    && (forall r :: r in io.awaiting ==> io.awaiting[r] < |io.ops| && (r in io.ioWait || io.awaiting[r] in io.results))
    && (forall r :: r in io.awaiting ==> r in io.states && io.states[r] in {WaitIo, Ready})
  }

  ghost predicate Consistent(io: Io, detached: set<nat>, loose: set<Key>) {
    && io.flushInterval > 0 && Routines(io) && WaitsOk(io, detached, loose) && SlotsOk(io) && KeysOk(io, loose)
    && Recorded(io) && Awaited(io)
  }

  // ---------------------------------------------------------------------------------------------
  // Completing a wait
  // ---------------------------------------------------------------------------------------------

  /** What completing a pending wait changes, field by field. */
  ghost predicate Completes(io: Io, io': Io, w: nat, result: WaitResult, now: nat)
    requires Pending(io, w)
  {
    var op := io.ops[w];
    && Alike(io, io') && io'.awaiting == io.awaiting
    && io'.results == io.results[w := result] && io'.log == io.log + [Ended(w, result, now)]
    && io'.clock == (if op.deadline.Some? then Clear(io.clock, IoKey(w)) else io.clock)
    && io'.ioWait == io.ioWait - {op.routine} && io'.states == io.states[op.routine := Ready]
    && (forall fd, d :: Waiter(io', fd, d) == if Waiter(io, fd, d) == Some(w) && fd == op.fd && d == op.direction
        then None else Waiter(io, fd, d))
  }

  lemma CompleteShape(io: Io, w: nat, result: WaitResult, now: nat)
    requires Pending(io, w) && Routines(io)
    ensures Completes(io, CompleteWait(io, w, result, now), w, result, now)
  {
  }

  /** The other waits stay pending, and no wait of the same routine was. */
  lemma StillPending(io: Io, io': Io, w: nat, result: WaitResult, now: nat, x: nat)
    requires Pending(io, w) && Completes(io, io', w, result, now)
    ensures Pending(io', x) <==> Pending(io, x) && x != w
  {
  }

  lemma CompleteRoutines(io: Io, io': Io, w: nat, result: WaitResult, now: nat)
    requires Pending(io, w) && Routines(io) && Completes(io, io', w, result, now)
    ensures Routines(io')
  {
  }

  lemma CompleteWaits(io: Io, io': Io, w: nat, result: WaitResult, now: nat, detached: set<nat>, loose: set<Key>)
    requires Pending(io, w) && WaitsOk(io, detached, loose) && Completes(io, io', w, result, now)
    ensures WaitsOk(io', detached - {w}, loose - {IoKey(w)})
  {
    forall x: nat | Pending(io', x) ensures WaitOk(io', x, detached - {w}, loose - {IoKey(w)}) {
      StillPending(io, io', w, result, now, x);
      assert WaitOk(io, x, detached, loose);
    }
  }

  lemma CompleteSlots(io: Io, io': Io, w: nat, result: WaitResult, now: nat)
    requires Pending(io, w) && SlotsOk(io) && Completes(io, io', w, result, now)
    ensures SlotsOk(io')
  {
    forall fd, d ensures SlotOk(io', fd, d) {
      assert SlotOk(io, fd, d);
      if Waiter(io', fd, d).Some? {
        StillPending(io, io', w, result, now, Waiter(io', fd, d).value);
      }
    }
  }

  lemma CompleteOwner(io: Io, io': Io, w: nat, result: WaitResult, now: nat, key: Key)
    requires Pending(io, w) && Routines(io) && Completes(io, io', w, result, now) && OwnerOk(io, key) && key != IoKey(w)
    ensures OwnerOk(io', key)
  {
    if key.IoKey? {
      StillPending(io, io', w, result, now, key.wait);
    }
  }

  lemma CompleteKeysOk(io: Io, io': Io, w: nat, result: WaitResult, now: nat, loose: set<Key>)
    requires Pending(io, w) && Routines(io) && KeysOk(io, loose) && Completes(io, io', w, result, now)
    ensures KeysOk(io', loose - {IoKey(w)})
  {
    forall k | k in io'.clock.pending ensures KeyOk(io', k) {
      assert KeyOk(io, k);
      CompleteOwner(io, io', w, result, now, k);
    }
    forall k | k in loose - {IoKey(w)} ensures k !in io'.clock.pending && OwnerOk(io', k) {
      CompleteOwner(io, io', w, result, now, k);
    }
  }

  lemma CompleteRecorded(io: Io, io': Io, w: nat, result: WaitResult, now: nat)
    requires Pending(io, w) && Recorded(io) && Completes(io, io', w, result, now)
    requires result == Timeout ==> io.ops[w].deadline.Some? && io.ops[w].deadline.value <= now
    ensures Recorded(io')
  {
    Added(io.log, Ended(w, result, now));
    forall x: nat ensures x in Open(io'.log) <==> Pending(io', x) {
      StillPending(io, io', w, result, now, x);
    }
  }

  lemma CompleteAwaited(io: Io, io': Io, w: nat, result: WaitResult, now: nat)
    requires Pending(io, w) && Routines(io) && Awaited(io) && Completes(io, io', w, result, now)
    ensures Awaited(io')
  {
  }

  lemma CompleteKeeps(io: Io, w: nat, result: WaitResult, now: nat, detached: set<nat>, loose: set<Key>)
    requires Consistent(io, detached, loose) && Pending(io, w)
    requires result == Timeout ==> io.ops[w].deadline.Some? && io.ops[w].deadline.value <= now
    ensures Consistent(CompleteWait(io, w, result, now), detached - {w}, loose - {IoKey(w)})
    ensures Completes(io, CompleteWait(io, w, result, now), w, result, now)
  {
    hide Routines, WaitsOk, SlotsOk, KeysOk, Recorded, Awaited, Completes, CompleteWait;
    var io' := CompleteWait(io, w, result, now);
    CompleteShape(io, w, result, now);
    CompleteRoutines(io, io', w, result, now);
    CompleteWaits(io, io', w, result, now, detached, loose);
    CompleteSlots(io, io', w, result, now);
    CompleteKeysOk(io, io', w, result, now, loose);
    CompleteRecorded(io, io', w, result, now);
    CompleteAwaited(io, io', w, result, now);
  }

  // ---------------------------------------------------------------------------------------------
  // Readiness and cancellation
  // ---------------------------------------------------------------------------------------------

  lemma SideKeeps(io: Io, fd: int, d: Direction, wakes: bool, now: nat)
    requires Consistent(io, {}, {})
    ensures Consistent(CompleteSide(io, fd, d, wakes, now), {}, {})
  {
    hide Routines, WaitsOk, KeysOk, Recorded, Awaited, CompleteWait;
    var w := Waiter(io, fd, d);
    assert SlotOk(io, fd, d);
    if wakes && w.Some? {
      CompleteKeeps(io, w.value, IoReady, now, {}, {});
      assert {} - {w.value} == {} && {} - {IoKey(w.value)} == {};
    }
  }

  lemma {:induction false} EventsKeep(io: Io, events: seq<(int, Mask)>, now: nat)
    requires Consistent(io, {}, {})
    ensures Consistent(CompleteEvents(io, events, now), {}, {})
    decreases |events|
  {
    hide Consistent, CompleteSide;
    if events != [] {
      var (fd, m) := events[|events| - 1];
      EventsKeep(io, events[..|events| - 1], now);
      var before := CompleteEvents(io, events[..|events| - 1], now);
      SideKeeps(before, fd, Read, WakesRead(m), now);
      SideKeeps(CompleteSide(before, fd, Read, WakesRead(m), now), fd, Write, WakesWrite(m), now);
    }
  }

  lemma CancelKeeps(io: Io, r: nat, now: nat)
    requires Consistent(io, {}, {})
    ensures Consistent(CancelWait(io, r, now).0, {}, {})
  {
    hide WaitsOk, SlotsOk, KeysOk, Recorded, Awaited, CompleteWait;
    if CancelWait(io, r, now).1 {
      var w := io.ioWait[r];
      CompleteKeeps(io, w, Cancelled, now, {}, {});
      assert {} - {w} == {} && {} - {IoKey(w)} == {};
    }
  }

  function AsSet<T>(w: Option<T>): (s: set<T>) {
    if w.Some? then {w.value} else {}
  }

  /** Clearing both slots of a descriptor detaches exactly the waits that held them. */
  lemma DetachKeeps(io: Io, fd: int)
    requires Consistent(io, {}, {}) && fd in io.fds
    ensures Consistent(io.(fds := io.fds[fd := Context(None, None)]),
        AsSet(io.fds[fd].read) + AsSet(io.fds[fd].write), {})
  {
    hide Routines, KeysOk, Recorded, Awaited;
    var io' := io.(fds := io.fds[fd := Context(None, None)]);
    var detached := AsSet(io.fds[fd].read) + AsSet(io.fds[fd].write);
    forall w: nat | Pending(io', w) ensures WaitOk(io', w, detached, {}) {
      assert Pending(io, w) && WaitOk(io, w, {}, {});
    }
    forall f, d ensures SlotOk(io', f, d) {
      assert SlotOk(io, f, d);
    }
    assert Routines(io') by { SameRoutines(io, io'); }
    assert KeysOk(io', {}) by { SameKeys(io, io', {}); }
    assert Recorded(io') by { SameRecord(io, io'); }
    assert Awaited(io') by { SameAwaited(io, io'); }
  }

  lemma SameRoutines(io: Io, io': Io)
    requires Routines(io) && io'.ioWait == io.ioWait && io'.ops == io.ops && io'.states == io.states
    ensures Routines(io')
  {
  }

  lemma SameKeys(io: Io, io': Io, loose: set<Key>)
    requires KeysOk(io, loose) && io'.ioWait == io.ioWait && io'.ops == io.ops && io'.states == io.states
    requires io'.clock == io.clock && io'.sleep == io.sleep
    ensures KeysOk(io', loose)
  {
    forall k | k in io'.clock.pending ensures KeyOk(io', k) {
      assert KeyOk(io, k);
    }
    forall k | k in loose ensures OwnerOk(io', k) {
      assert OwnerOk(io, k);
    }
  }

  lemma SameRecord(io: Io, io': Io)
    requires Recorded(io) && io'.ioWait == io.ioWait && io'.ops == io.ops && io'.log == io.log
    requires io'.results == io.results
    ensures Recorded(io')
  {
    forall w: nat ensures w in Open(io'.log) <==> Pending(io', w) {
      assert Pending(io, w) <==> Pending(io', w);
    }
  }

  lemma SameSlots(io: Io, io': Io, detached: set<nat>, loose: set<Key>)
    requires WaitsOk(io, detached, loose) && SlotsOk(io)
    requires io'.ioWait == io.ioWait && io'.ops == io.ops && io'.fds == io.fds && io'.clock == io.clock
    ensures WaitsOk(io', detached, loose) && SlotsOk(io')
  {
    forall w: nat | Pending(io', w) ensures WaitOk(io', w, detached, loose) {
      assert Pending(io, w) && WaitOk(io, w, detached, loose);
    }
    forall fd, d ensures SlotOk(io', fd, d) {
      assert SlotOk(io, fd, d);
    }
  }

  lemma SameAwaited(io: Io, io': Io)
    requires Awaited(io) && io'.ioWait == io.ioWait && io'.ops == io.ops && io'.awaiting == io.awaiting
    requires io'.results == io.results && io'.states == io.states
    ensures Awaited(io')
  {
  }

  lemma CancelSideKeeps(io: Io, w: Option<nat>, now: nat, detached: set<nat>)
    requires Consistent(io, detached, {}) && (w.Some? ==> Pending(io, w.value))
    ensures Consistent(CancelSide(io, w, now), detached - AsSet(w), {})
    ensures forall x: nat :: Pending(io, x) && w != Some(x) ==> Pending(CancelSide(io, w, now), x)
    ensures forall fd, d :: Waiter(io, fd, d) == None ==> Waiter(CancelSide(io, w, now), fd, d) == None
  {
    hide Routines, WaitsOk, SlotsOk, KeysOk, Recorded, Awaited, CompleteWait;
    if w.Some? {
      CompleteKeeps(io, w.value, Cancelled, now, detached, {});
      assert {} - {IoKey(w.value)} == {};
      forall x: nat | Pending(io, x) && w != Some(x) ensures Pending(CancelSide(io, w, now), x) {
        StillPending(io, CancelSide(io, w, now), w.value, Cancelled, now, x);
      }
    } else {
      assert detached - AsSet(w) == detached;
    }
  }

  /** A descriptor without waiters can be dropped. */
  lemma DropKeeps(io: Io, fd: int)
    requires Consistent(io, {}, {}) && Waiter(io, fd, Read).None? && Waiter(io, fd, Write).None?
    ensures Consistent(io.(fds := io.fds - {fd}), {}, {})
  {
    hide Routines, KeysOk, Recorded, Awaited;
    var io' := io.(fds := io.fds - {fd});
    forall w: nat | Pending(io', w) ensures WaitOk(io', w, {}, {}) {
      assert Pending(io, w) && WaitOk(io, w, {}, {});
    }
    forall f, d ensures SlotOk(io', f, d) {
      assert SlotOk(io, f, d);
    }
    assert Routines(io') by { SameRoutines(io, io'); }
    assert KeysOk(io', {}) by { SameKeys(io, io', {}); }
    assert Recorded(io') by { SameRecord(io, io'); }
    assert Awaited(io') by { SameAwaited(io, io'); }
  }

  /** The two waiters of a descriptor are different pending waits. */
  lemma TwoWaiters(io: Io, fd: int)
    requires SlotsOk(io) && fd in io.fds
    ensures io.fds[fd].read.Some? ==> Pending(io, io.fds[fd].read.value) && io.fds[fd].write != io.fds[fd].read
    ensures io.fds[fd].write.Some? ==> Pending(io, io.fds[fd].write.value)
  {
    assert SlotOk(io, fd, Read) && SlotOk(io, fd, Write);
  }

  lemma CancelFdKeeps(io: Io, fd: int, now: nat)
    requires Consistent(io, {}, {})
    ensures Consistent(CancelFd(io, fd, now), {}, {})
  {
    if fd in io.fds {
      var c := io.fds[fd];
      TwoWaiters(io, fd);
      DetachKeeps(io, fd);
      var detached := io.(fds := io.fds[fd := Context(None, None)]);
      assert forall w: nat :: Pending(io, w) ==> Pending(detached, w);
      assert Waiter(detached, fd, Read).None? && Waiter(detached, fd, Write).None?;
      hide Consistent, CancelSide, Pending, Waiter;
      CancelBoth(detached, c.read, c.write, fd, now);
      DropKeeps(CancelSide(CancelSide(detached, c.read, now), c.write, now), fd);
    }
  }

  lemma CancelBoth(io: Io, read: Option<nat>, write: Option<nat>, fd: int, now: nat)
    requires Consistent(io, AsSet(read) + AsSet(write), {})
    requires read.Some? ==> Pending(io, read.value) && read != write
    requires write.Some? ==> Pending(io, write.value)
    requires Waiter(io, fd, Read).None? && Waiter(io, fd, Write).None?
    ensures var done := CancelSide(CancelSide(io, read, now), write, now);
      Consistent(done, {}, {}) && Waiter(done, fd, Read).None? && Waiter(done, fd, Write).None?
  {
    hide Consistent, Pending, Waiter;
    CancelSideKeeps(io, read, now, AsSet(read) + AsSet(write));
    var one := CancelSide(io, read, now);
    CancelSideKeeps(one, write, now, AsSet(read) + AsSet(write) - AsSet(read));
    assert AsSet(read) + AsSet(write) - AsSet(read) - AsSet(write) == {};
  }

  // ---------------------------------------------------------------------------------------------
  // Routines that run, yield and wake
  // ---------------------------------------------------------------------------------------------

  lemma StateRoutines(io: Io, io': Io, r: nat, s: RoutineState)
    requires Routines(io) && Awaited(io) && io'.states == io.states[r := s]
    requires io'.ioWait == io.ioWait && io'.ops == io.ops && io'.awaiting == io.awaiting && io'.results == io.results
    requires (r in io.states ==> io.states[r] != WaitIo) && s != WaitIo && (r in io.awaiting ==> s == Ready)
    ensures Routines(io') && Awaited(io')
  {
  }

  /** A change of state between running, ready and waiting for an event. */
  lemma StateKeeps(io: Io, io': Io, r: nat, s: RoutineState)
    requires Consistent(io, {}, {})
    requires io' == io.(states := io.states[r := s], ready := io'.ready, flushQueue := io'.flushQueue,
        nextFlush := io'.nextFlush)
    requires r in io.states ==> io.states[r] !in {WaitIo, WaitTimer}
    requires s !in {WaitIo, WaitTimer} && (r in io.awaiting ==> s == Ready)
    ensures Consistent(io', {}, {})
  {
    hide WaitsOk, SlotsOk, Recorded, Routines, Awaited;
    assert KeysOk(io', {}) by {
      forall k | k in io'.clock.pending ensures KeyOk(io', k) { assert KeyOk(io, k); }
    }
    StateRoutines(io, io', r, s);
    SameSlots(io, io', {}, {});
    SameRecord(io, io');
  }

  lemma ResumeKeeps(io: Io, r: nat)
    requires Consistent(io, {}, {})
    ensures Consistent(Resume(io, r).0, {}, {})
  {
    if r in io.states && io.states[r] == Ready {
      if r in io.awaiting {
        var w := io.awaiting[r];
        assert w in io.results && EndedWith(io.log, w, io.results[w]);
        var noted := io.(awaiting := io.awaiting - {r}, log := io.log + [Returned(w, io.results[w])]);
        NotedKeeps(io, noted, r, w);
        StateKeeps(noted, Resume(io, r).0, r, Running);
      } else {
        StateKeeps(io, Resume(io, r).0, r, Running);
      }
    }
  }

  lemma NotedKeeps(io: Io, io': Io, r: nat, w: nat)
    requires Consistent(io, {}, {}) && r !in io.ioWait && r in io.awaiting && io.awaiting[r] == w && w in io.results
    requires io' == io.(awaiting := io.awaiting - {r}, log := io.log + [Returned(w, io.results[w])])
    ensures Consistent(io', {}, {})
  {
    hide Routines, WaitsOk, SlotsOk, KeysOk;
    SameRoutines(io, io');
    SameSlots(io, io', {}, {});
    SameKeys(io, io', {});
    assert Awaited(io') by { hide Recorded; }
    hide Awaited;
    Added(io.log, Returned(w, io.results[w]));
    forall x: nat ensures x in Open(io'.log) <==> Pending(io', x) { assert Pending(io, x) <==> Pending(io', x); }
  }

  lemma {:induction false} WakeKeeps(io: Io, queue: seq<nat>)
    requires Consistent(io, {}, {})
    ensures Consistent(WakeEach(io, queue), {}, {})
    decreases |queue|
  {
    if queue != [] {
      WakeKeeps(io, queue[..|queue| - 1]);
      var before := WakeEach(io, queue[..|queue| - 1]);
      var r := queue[|queue| - 1];
      if r in before.states && before.states[r] == WaitEvent {
        StateKeeps(before, MakeReady(before, r), r, Ready);
      }
    }
  }

  /** Bookkeeping of flushes does not matter to the waits. */
  lemma FlushFieldsKeep(io: Io, io': Io)
    requires Consistent(io, {}, {})
    requires io' == io.(flushQueue := io'.flushQueue, nextFlush := io'.nextFlush)
    ensures Consistent(io', {}, {})
  {
    hide Routines, WaitsOk, SlotsOk, KeysOk, Recorded, Awaited;
    SameRoutines(io, io');
    SameSlots(io, io', {}, {});
    SameKeys(io, io', {});
    SameRecord(io, io');
    SameAwaited(io, io');
  }

  lemma FlushKeeps(io: Io, now: nat)
    requires Consistent(io, {}, {})
    ensures Consistent(Flush(io, now), {}, {})
  {
    if io.flushQueue != [] && now >= io.nextFlush {
      hide Routines, WaitsOk, SlotsOk, KeysOk, Recorded, Awaited, WakeEach, NextFlush;
      var next := io.(nextFlush := NextFlush(io.nextFlush, io.flushInterval, now));
      FlushFieldsKeep(io, next);
      WakeKeeps(next, io.flushQueue);
      FlushFieldsKeep(WakeEach(next, io.flushQueue), Flush(io, now));
    }
  }

  // ---------------------------------------------------------------------------------------------
  // Beginning a wait
  // ---------------------------------------------------------------------------------------------

  /** A wait of a running routine begins. */
  ghost predicate Begins(io: Io, io': Io, r: nat, op: Wait) {
    var w := |io.ops|;
    && r in io.states && io.states[r] == Running && op.routine == r
    && io'.ops == io.ops + [op] && io'.ioWait == io.ioWait[r := w] && io'.awaiting == io.awaiting[r := w]
    && io'.states == io.states[r := WaitIo] && io'.log == io.log + [Began(w, op.deadline)]
    && io'.results == io.results && io'.sleep == io.sleep && io'.flushInterval == io.flushInterval
    && io.clock.slots > 0 && (op.deadline.Some? ==> op.deadline.value > io.clock.tick)
    && io'.clock == (if op.deadline.Some? then Rearm(io.clock, IoKey(w), op.deadline.value) else io.clock)
    && Waiter(io, op.fd, op.direction).None?
    && (forall fd, d :: Waiter(io', fd, d) == if fd == op.fd && d == op.direction then Some(w) else Waiter(io, fd, d))
  }

  lemma BeginPending(io: Io, io': Io, r: nat, op: Wait, x: nat)
    requires Begins(io, io', r, op) && Routines(io)
    ensures Pending(io', x) <==> Pending(io, x) || x == |io.ops|
  {
  }

  lemma BeginWaits(io: Io, io': Io, r: nat, op: Wait)
    requires Begins(io, io', r, op) && Routines(io) && WaitsOk(io, {}, {})
    ensures WaitsOk(io', {}, {})
  {
    forall x: nat | Pending(io', x) ensures WaitOk(io', x, {}, {}) {
      BeginPending(io, io', r, op, x);
      if x != |io.ops| { assert WaitOk(io, x, {}, {}); }
    }
  }

  lemma BeginSlots(io: Io, io': Io, r: nat, op: Wait)
    requires Begins(io, io', r, op) && Routines(io) && SlotsOk(io)
    ensures SlotsOk(io')
  {
    forall fd, d ensures SlotOk(io', fd, d) {
      assert SlotOk(io, fd, d);
      if Waiter(io', fd, d).Some? { BeginPending(io, io', r, op, Waiter(io', fd, d).value); }
    }
  }

  lemma BeginKeys(io: Io, io': Io, r: nat, op: Wait)
    requires Begins(io, io', r, op) && Routines(io) && KeysOk(io, {})
    ensures KeysOk(io', {})
  {
    hide Offset;
    forall k | k in io'.clock.pending ensures KeyOk(io', k) {
      if k.IoKey? { BeginPending(io, io', r, op, k.wait); }
      if k in io.clock.pending { assert KeyOk(io, k); }
    }
  }

  lemma BeginRecorded(io: Io, io': Io, r: nat, op: Wait)
    requires Begins(io, io', r, op) && Routines(io) && Recorded(io)
    ensures Recorded(io')
  {
    Added(io.log, Began(|io.ops|, op.deadline));
    forall x: nat ensures x in Open(io'.log) <==> Pending(io', x) { BeginPending(io, io', r, op, x); }
  }

  lemma BeginKeeps(io: Io, io': Io, r: nat, op: Wait)
    requires Consistent(io, {}, {}) && Begins(io, io', r, op)
    ensures Consistent(io', {}, {})
  {
    hide Begins, Routines, WaitsOk, SlotsOk, KeysOk, Recorded, Awaited;
    BeginRoutines(io, io', r, op);
    BeginWaits(io, io', r, op);
    BeginSlots(io, io', r, op);
    BeginKeys(io, io', r, op);
    BeginRecorded(io, io', r, op);
    assert io'.flushInterval > 0 by { BeginInterval(io, io', r, op); }
  }

  lemma BeginRoutines(io: Io, io': Io, r: nat, op: Wait)
    requires Routines(io) && Awaited(io) && Begins(io, io', r, op)
    ensures Routines(io') && Awaited(io')
  {
    hide Waiter, Rearm;
  }

  lemma BeginInterval(io: Io, io': Io, r: nat, op: Wait)
    requires Begins(io, io', r, op)
    ensures io'.flushInterval == io.flushInterval
  {
  }

  lemma ListedKeeps(io: Io, fd: int)
    requires Consistent(io, {}, {})
    ensures Consistent(io.(fds := io.fds[fd := if fd in io.fds then io.fds[fd] else Context(None, None)]), {}, {})
  {
    hide Routines, KeysOk, Recorded, Awaited;
    var io' := io.(fds := io.fds[fd := if fd in io.fds then io.fds[fd] else Context(None, None)]);
    forall w: nat | Pending(io', w) ensures WaitOk(io', w, {}, {}) {
      assert Pending(io, w) && WaitOk(io, w, {}, {});
    }
    forall f, d ensures SlotOk(io', f, d) {
      assert SlotOk(io, f, d);
    }
    SameRoutines(io, io');
    SameKeys(io, io', {});
    SameRecord(io, io');
    SameAwaited(io, io');
  }

  lemma AwaitKeeps(io: Io, r: nat, fd: int, d: Direction, timeout: nat, now: nat, controlled: bool)
    requires Consistent(io, {}, {})
    ensures Consistent(Await(io, r, fd, d, timeout, now, controlled).0, {}, {})
  {
    assert io.clock.slots > 0;
    hide Consistent, DeadlineAfter, Rearm, Beginning, Begins, Slot, WithSlot;
    var (io', outcome) := Await(io, r, fd, d, timeout, now, controlled);
    ListedKeeps(io, fd);
    if outcome.Suspended? {
      AwaitBegins(io, r, fd, d, timeout, now, controlled);
      BeginKeeps(io, io', r, io'.ops[|io.ops|]);
    }
  }

  lemma AwaitBegins(io: Io, r: nat, fd: int, d: Direction, timeout: nat, now: nat, controlled: bool)
    requires io.clock.slots > 0 && Await(io, r, fd, d, timeout, now, controlled).1.Suspended?
    ensures var io' := Await(io, r, fd, d, timeout, now, controlled).0;
      |io'.ops| == |io.ops| + 1 && Begins(io, io', r, io'.ops[|io.ops|])
  {
    hide DeadlineAfter, Rearm;
  }

  // ---------------------------------------------------------------------------------------------
  // Sleeping
  // ---------------------------------------------------------------------------------------------

  lemma SleepKeeps(io: Io, r: nat, ms: nat, now: nat)
    requires Consistent(io, {}, {})
    ensures Consistent(YieldFor(io, r, ms, now).0, {}, {})
  {
    hide Routines, WaitsOk, SlotsOk, KeysOk, Recorded, Awaited, Offset, DeadlineAfter;
    ConsistentBasics(io);
    var (io', outcome) := YieldFor(io, r, ms, now);
    if outcome == Asleep {
      SleptKeeps(io, io', r, DeadlineAfter(now, ms));
    } else if io' != io {
      RefusedKeys(io, io', r);
      TimerSlots(io, io', {}, {});
      SameRecord(io, io');
      SameRoutines(io, io');
      SameAwaited(io, io');
    }
  }

  lemma SleptKeeps(io: Io, io': Io, r: nat, deadline: nat)
    requires Consistent(io, {}, {}) && io.clock.slots > 0 && deadline > io.clock.tick
    requires r in io.states && io.states[r] == Running && r !in io.awaiting
    requires io' == io.(clock := Rearm(io.clock, TimerKey(r), deadline), sleep := io.sleep[r := deadline],
                        states := io.states[r := WaitTimer])
    ensures Consistent(io', {}, {})
  {
    hide Routines, WaitsOk, SlotsOk, KeysOk, Recorded, Awaited, Offset;
    StateRoutines(io, io', r, WaitTimer);
    SleepKeys(io, io', r, deadline);
    SameRecord(io, io');
    TimerSlots(io, io', {}, {});
  }

  lemma RefusedKeys(io: Io, io': Io, r: nat)
    requires KeysOk(io, {}) && r in io.states && io.states[r] == Running && io' == io.(sleep := io'.sleep)
    requires forall x :: x in io.sleep ==> x in io'.sleep && (x != r ==> io'.sleep[x] == io.sleep[x])
    ensures KeysOk(io', {})
  {
    forall k | k in io'.clock.pending ensures KeyOk(io', k) { assert KeyOk(io, k); }
  }

  lemma SleepKeys(io: Io, io': Io, r: nat, deadline: nat)
    requires KeysOk(io, {}) && r in io.states && io.states[r] == Running && deadline > io.clock.tick
    requires io'.clock == Rearm(io.clock, TimerKey(r), deadline) && io'.sleep == io.sleep[r := deadline]
    requires io'.states == io.states[r := WaitTimer] && io'.ioWait == io.ioWait && io'.ops == io.ops
    ensures KeysOk(io', {})
  {
    hide Offset;
    forall k | k in io'.clock.pending ensures KeyOk(io', k) {
      if k != TimerKey(r) { assert KeyOk(io, k); }
    }
  }

  /** Waits do not depend on the timers of routines. */
  lemma TimerSlots(io: Io, io': Io, loose: set<Key>, loose': set<Key>)
    requires WaitsOk(io, {}, loose) && SlotsOk(io)
    requires io'.ioWait == io.ioWait && io'.ops == io.ops && io'.fds == io.fds
    requires forall w: nat :: IoKey(w) in io.clock.pending ==>
      IoKey(w) in io'.clock.pending && io'.clock.pending[IoKey(w)] == io.clock.pending[IoKey(w)]
    requires forall w: nat :: IoKey(w) in loose ==> IoKey(w) in loose'
    ensures WaitsOk(io', {}, loose') && SlotsOk(io')
  {
    forall w: nat | Pending(io', w) ensures WaitOk(io', w, {}, loose') {
      assert Pending(io, w) && WaitOk(io, w, {}, loose);
    }
    forall fd, d ensures SlotOk(io', fd, d) {
      assert SlotOk(io, fd, d);
    }
  }

  /** A sleeping routine wakes: its timer is out, or has just come out. */
  lemma WokenKeeps(io: Io, io': Io, r: nat, loose: set<Key>)
    requires Consistent(io, {}, loose) && r in io.states && io.states[r] == WaitTimer
    requires io' == io.(states := io.states[r := Ready], ready := io'.ready, clock := Clear(io.clock, TimerKey(r)))
    ensures Consistent(io', {}, loose - {TimerKey(r)})
  {
    hide Routines, WaitsOk, SlotsOk, KeysOk, Recorded, Awaited;
    StateRoutines(io, io', r, Ready);
    WokenKeys(io, io', r, loose);
    SameRecord(io, io');
    TimerSlots(io, io', loose, loose - {TimerKey(r)});
  }

  lemma WokenKeys(io: Io, io': Io, r: nat, loose: set<Key>)
    requires KeysOk(io, loose) && r in io.states && io.states[r] == WaitTimer
    requires io' == io.(states := io.states[r := Ready], ready := io'.ready, clock := Clear(io.clock, TimerKey(r)))
    ensures KeysOk(io', loose - {TimerKey(r)})
  {
    forall k | k in io'.clock.pending ensures KeyOk(io', k) { assert KeyOk(io, k); }
    forall k | k in loose - {TimerKey(r)} ensures k !in io'.clock.pending && OwnerOk(io', k) { assert OwnerOk(io, k); }
  }

  lemma PrepareKeeps(io: Io, r: nat)
    requires Consistent(io, {}, {})
    ensures Consistent(PrepareTimerResume(io, r).0, {}, {})
  {
    hide Consistent;
    if PrepareTimerResume(io, r).1 {
      WokenKeeps(io, PrepareTimerResume(io, r).0, r, {});
      assert {} - {TimerKey(r)} == {};
    }
  }

  // ---------------------------------------------------------------------------------------------
  // Polling
  // ---------------------------------------------------------------------------------------------

  /** Putting a timer that came out early back into the wheel. */
  lemma RearmedKeeps(io: Io, key: Key, deadline: nat, loose: set<Key>)
    requires Consistent(io, {}, loose) && key in loose && deadline > io.clock.tick
    requires match key
      case IoKey(w) => w < |io.ops| && io.ops[w].deadline == Some(deadline)
      case TimerKey(r) => r in io.sleep && io.sleep[r] == deadline
    ensures Consistent(io.(clock := Rearm(io.clock, key, deadline)), {}, loose - {key})
  {
    var io' := io.(clock := Rearm(io.clock, key, deadline));
    assert WaitsOk(io', {}, loose - {key}) && SlotsOk(io') by {
      hide Routines, Recorded, Awaited, KeysOk, Offset;
      RearmedSlots(io, io', key, deadline, loose);
    }
    assert KeysOk(io', loose - {key}) by {
      hide Routines, Recorded, Awaited, WaitsOk, SlotsOk, Offset;
      forall k | k in io'.clock.pending ensures KeyOk(io', k) {
        if k != key { assert KeyOk(io, k); } else { assert OwnerOk(io, k); }
      }
      forall k | k in loose - {key} ensures k !in io'.clock.pending && OwnerOk(io', k) { assert OwnerOk(io, k); }
    }
    hide Routines, WaitsOk, SlotsOk, KeysOk, Recorded, Awaited, Rearm;
    SameRoutines(io, io');
    SameRecord(io, io');
    SameAwaited(io, io');
  }

  lemma RearmedSlots(io: Io, io': Io, key: Key, deadline: nat, loose: set<Key>)
    requires WaitsOk(io, {}, loose) && SlotsOk(io) && io.clock.slots > 0 && deadline > io.clock.tick
    requires io' == io.(clock := Rearm(io.clock, key, deadline))
    requires key.IoKey? ==> key.wait < |io.ops| && io.ops[key.wait].deadline == Some(deadline)
    ensures WaitsOk(io', {}, loose - {key}) && SlotsOk(io')
  {
    forall w: nat | Pending(io', w) ensures WaitOk(io', w, {}, loose - {key}) {
      assert Pending(io, w) && WaitOk(io, w, {}, loose);
    }
    forall fd, d ensures SlotOk(io', fd, d) {
      assert SlotOk(io, fd, d);
    }
  }

  lemma LooseOwner(io: Io, key: Key, loose: set<Key>)
    requires Consistent(io, {}, loose) && key in loose
    ensures OwnerOk(io, key) && key !in io.clock.pending && io.clock.slots > 0
  {
  }

  /** Handling a timer node that came out when the clock reached `now`. */
  lemma KeyKeeps(io: Io, key: Key, now: nat, loose: set<Key>)
    requires Consistent(io, {}, loose) && key in loose && io.clock.tick == now
    ensures Consistent(CompleteKey(io, key, now), {}, loose - {key})
  {
    hide Consistent, CompleteWait, Rearm;
    LooseOwner(io, key, loose);
    match key
    case IoKey(w) =>
      if now < io.ops[w].deadline.value {
        RearmedKeeps(io, key, io.ops[w].deadline.value, loose);
      } else {
        CompleteKeeps(io, w, Timeout, now, {}, loose);
        assert {} - {w} == {};
      }
    case TimerKey(r) =>
      if now < io.sleep[r] {
        RearmedKeeps(io, key, io.sleep[r], loose);
      } else {
        assert Clear(io.clock, key).pending == io.clock.pending;
        WokenKeeps(io, MakeReady(io, r), r, loose);
      }
  }

  lemma {:induction false} KeysKeep(io: Io, keys: seq<Key>, now: nat, loose: set<Key>)
    requires Consistent(io, {}, loose + Elements(keys)) && io.clock.tick == now
    requires forall i, j :: 0 <= i < j < |keys| ==> keys[i] != keys[j]
    requires forall k :: k in keys ==> k !in loose
    ensures io.clock.slots > 0 && Consistent(CompleteKeys(io, keys, now), {}, loose)
    decreases |keys|
  {
    assert io.clock.slots > 0;
    hide Consistent, CompleteKey;
    if keys == [] {
      assert loose + Elements(keys) == loose;
    } else {
      var init, key := keys[..|keys| - 1], keys[|keys| - 1];
      assert loose + Elements(keys) == loose + {key} + Elements(init) by { assert keys == init + [key]; }
      KeysKeep(io, init, now, loose + {key});
      KeyKeeps(CompleteKeys(io, init, now), key, now, loose + {key});
      assert loose + {key} - {key} == loose;
    }
  }

  /** The clock passes `now`: what comes out is loose until it has been handled. */
  lemma LapseKeeps(io: Io, now: nat)
    requires Consistent(io, {}, {}) && now > io.clock.tick
    ensures Consistent(io.(clock := AlarmClocks.Wait(io.clock, now)), {}, Due(io.clock, now))
  {
    var io', loose := io.(clock := AlarmClocks.Wait(io.clock, now)), Due(io.clock, now);
    assert WaitsOk(io', {}, loose) && SlotsOk(io') by {
      hide Routines, Recorded, Awaited;
      LapsedSlots(io, io', now);
    }
    assert KeysOk(io', loose) by {
      hide Routines, Recorded, Awaited, WaitsOk, SlotsOk;
      forall k | k in io'.clock.pending ensures KeyOk(io', k) { assert KeyOk(io, k); }
      forall k | k in loose ensures k !in io'.clock.pending && OwnerOk(io', k) { assert KeyOk(io, k); }
    }
    hide Routines, WaitsOk, SlotsOk, KeysOk, Recorded, Awaited, Due, AlarmClocks.Wait;
    SameRoutines(io, io');
    SameRecord(io, io');
    SameAwaited(io, io');
  }

  lemma LapsedSlots(io: Io, io': Io, now: nat)
    requires WaitsOk(io, {}, {}) && SlotsOk(io) && now > io.clock.tick
    requires io' == io.(clock := AlarmClocks.Wait(io.clock, now))
    ensures WaitsOk(io', {}, Due(io.clock, now)) && SlotsOk(io')
  {
    forall w: nat | Pending(io', w) ensures WaitOk(io', w, {}, Due(io.clock, now)) {
      assert Pending(io, w) && WaitOk(io, w, {}, {});
    }
    forall fd, d ensures SlotOk(io', fd, d) {
      assert SlotOk(io, fd, d);
    }
  }

  /** No pending wait has reached its deadline once its clock has passed it. */
  lemma NothingOverdue(io: Io, now: nat)
    requires Consistent(io, {}, {}) && io.clock.tick >= now
    ensures Allowed(io.log, Polled(now))
  {
    forall w | w in Open(io.log) && DeadlineIn(io.log, w).Some? ensures DeadlineIn(io.log, w).value > now {
      assert Pending(io, w) && WaitOk(io, w, {}, {});
    }
  }

  lemma PolledKeeps(io: Io, now: nat)
    requires Consistent(io, {}, {}) && io.clock.tick >= now
    ensures Consistent(io.(log := io.log + [Polled(now)]), {}, {})
  {
    NothingOverdue(io, now);
    var io' := io.(log := io.log + [Polled(now)]);
    assert Recorded(io') by {
      hide Routines, WaitsOk, SlotsOk, KeysOk, Awaited, Allowed;
      Added(io.log, Polled(now));
      forall x: nat ensures x in Open(io'.log) <==> Pending(io', x) { assert Pending(io, x) <==> Pending(io', x); }
    }
    hide Routines, WaitsOk, SlotsOk, KeysOk, Recorded, Awaited;
    SameRoutines(io, io');
    SameSlots(io, io', {}, {});
    SameKeys(io, io', {});
    SameAwaited(io, io');
  }

  lemma PollKeeps(io: Io, events: seq<(int, Mask)>, before: nat, now: nat, keys: seq<Key>)
    requires Consistent(io, {}, {})
    requires io.clock.slots > 0 && Orders(keys, BeforeTimers(io, events, before, now).clock, now)
    ensures Consistent(Poll(io, events, before, now, keys), {}, {})
  {
    assert io.flushInterval > 0;
    hide Consistent, CompleteEvents, Flush, CompleteKeys;
    EventsKeep(io, events, before);
    FlushKeeps(CompleteEvents(io, events, before), now);
    var flushed := BeforeTimers(io, events, before, now);
    var lapsed := flushed.(clock := AlarmClocks.Wait(flushed.clock, now));
    if now > flushed.clock.tick {
      LapseKeeps(flushed, now);
      assert {} + Elements(keys) == Due(flushed.clock, now);
    } else {
      assert {} + Elements(keys) == {};
    }
    HandledKeep(lapsed, keys, now);
    PolledKeeps(CompleteKeys(lapsed, keys, now), now);
  }

  lemma HandledKeep(io: Io, keys: seq<Key>, now: nat)
    requires Consistent(io, {}, {} + Elements(keys)) && forall k :: k in keys ==> io.clock.tick == now
    requires forall i, j :: 0 <= i < j < |keys| ==> keys[i] != keys[j]
    ensures io.clock.slots > 0 && Consistent(CompleteKeys(io, keys, now), {}, {})
  {
    assert io.clock.slots > 0;
    hide Consistent, CompleteKey;
    if keys == [] {
      assert {} + Elements(keys) == {};
    } else {
      assert keys[0] in keys;
      KeysKeep(io, keys, now, {});
    }
  }

  // ---------------------------------------------------------------------------------------------
  // Every run
  // ---------------------------------------------------------------------------------------------

  datatype Action =
    | DoStart(r: nat)
    | DoAwait(r: nat, fd: int, d: Direction, timeout: nat, now: nat, controlled: bool)
    | DoSleep(r: nat, ms: nat, now: nat)
    | DoWakeSleeper(r: nat)
    | DoYield(r: nat)
    | DoYieldUntilFlush(r: nat)
    | DoScheduleAtFlush(r: nat)
    | DoResume(r: nat)
    | DoCancelWait(r: nat, now: nat)
    | DoCancelFd(fd: int, now: nat)
    | DoPoll(events: seq<(int, Mask)>, before: nat, now: nat, keys: seq<Key>)

  function Initial(slots: nat, start: nat, flushInterval: nat): (io: Io) {
    Io(Clock(slots, start, map[]), map[], [], map[], map[], map[], map[], map[], [], [],
       flushInterval, start + flushInterval, [])
  }

  /** The timers of a poll come out in an order of the wheel's choosing; any order will do. */
  ghost predicate Possible(io: Io, op: Action) {
    op.DoPoll? ==>
      io.clock.slots > 0 && io.flushInterval > 0
          && Orders(op.keys, BeforeTimers(io, op.events, op.before, op.now).clock, op.now)
  }

  function Apply(io: Io, op: Action): (io': Io)
    requires io.clock.slots > 0 && io.flushInterval > 0
  {
    match op
    case DoStart(r) => Start(io, r)
    case DoAwait(r, fd, d, timeout, now, controlled) => Await(io, r, fd, d, timeout, now, controlled).0
    case DoSleep(r, ms, now) => YieldFor(io, r, ms, now).0
    case DoWakeSleeper(r) => PrepareTimerResume(io, r).0
    case DoYield(r) => YieldEvent(io, r)
    case DoYieldUntilFlush(r) => YieldUntilFlush(io, r).0
    case DoScheduleAtFlush(r) => ScheduleAtFlush(io, r).0
    case DoResume(r) => Resume(io, r).0
    case DoCancelWait(r, now) => CancelWait(io, r, now).0
    case DoCancelFd(fd, now) => CancelFd(io, fd, now)
    case DoPoll(events, before, now, keys) => Poll(io, events, before, now, keys)
  }

  lemma InitialConsistent(slots: nat, start: nat, flushInterval: nat)
    requires slots > 0 && flushInterval > 0
    ensures Consistent(Initial(slots, start, flushInterval), {}, {})
  {
  }

  lemma ConsistentBasics(io: Io)
    requires Consistent(io, {}, {})
    ensures io.clock.slots > 0 && io.flushInterval > 0
    ensures forall r :: r in io.awaiting ==> r in io.states && io.states[r] in {WaitIo, Ready}
  {
  }

  lemma ApplyKeeps(io: Io, op: Action)
    requires Consistent(io, {}, {}) && Possible(io, op)
    ensures io.clock.slots > 0 && io.flushInterval > 0 && Consistent(Apply(io, op), {}, {})
  {
    hide Consistent, Await, YieldFor, PrepareTimerResume, Resume, CancelWait, CancelFd, Poll, Orders, BeforeTimers;
    ConsistentBasics(io);
    match op
    case DoStart(r) => if r !in io.states { StateKeeps(io, Start(io, r), r, Running); }
    case DoAwait(r, fd, d, timeout, now, controlled) => AwaitKeeps(io, r, fd, d, timeout, now, controlled);
    case DoSleep(r, ms, now) => SleepKeeps(io, r, ms, now);
    case DoWakeSleeper(r) => PrepareKeeps(io, r);
    case DoYield(r) => if r in io.states && io.states[r] == Running { StateKeeps(io, YieldEvent(io, r), r, WaitEvent); }
    case DoYieldUntilFlush(r) => if YieldUntilFlush(io, r).1 { StateKeeps(io, YieldUntilFlush(io, r).0, r, WaitEvent); }
    case DoScheduleAtFlush(r) => FlushFieldsKeep(io, ScheduleAtFlush(io, r).0);
    case DoResume(r) => ResumeKeeps(io, r);
    case DoCancelWait(r, now) => CancelKeeps(io, r, now);
    case DoCancelFd(fd, now) => CancelFdKeeps(io, fd, now);
    case DoPoll(events, before, now, keys) => PollKeeps(io, events, before, now, keys);
  }

  /** `runs[i]` is the state after the first `i` operations. */
  ghost predicate Run(states: seq<Io>, ops: seq<Action>) {
    && |states| == |ops| + 1
    && (exists slots: nat, start: nat, interval: nat ::
           && slots > 0 && interval > 0
           && states[0] == Initial(slots, start, interval))
    && forall i :: 0 <= i < |ops| ==> Follows(states[i], ops[i], states[i + 1])
  }

  ghost predicate Follows(io: Io, op: Action, io': Io) {
    io.clock.slots > 0 && io.flushInterval > 0 && Possible(io, op) && io' == Apply(io, op)
  }

  /** Every state of every run is consistent. */
  lemma {:induction false} RunConsistent(states: seq<Io>, ops: seq<Action>, i: nat)
    requires Run(states, ops) && i <= |ops|
    ensures Consistent(states[i], {}, {})
    decreases i
  {
    if i == 0 {
      var slots: nat, start: nat, interval: nat :| slots > 0 && interval > 0
          && states[0] == Initial(slots, start, interval);
      InitialConsistent(slots, start, interval);
    } else {
      hide Consistent, Apply, Possible;
      RunConsistent(states, ops, i - 1);
      assert Follows(states[i - 1], ops[i - 1], states[i - 1 + 1]);
      ApplyKeeps(states[i - 1], ops[i - 1]);
    }
  }

  /** Fd slot, waiting state, wait operation and timer always agree. */
  lemma WaitsAgree(states: seq<Io>, ops: seq<Action>, i: nat, r: nat)
    requires Run(states, ops) && i <= |ops| && r in states[i].states
    ensures var io := states[i];
      && (io.states[r] == WaitIo <==> r in io.ioWait)
      && (r in io.ioWait ==>
            var w := io.ioWait[r];
            && w < |io.ops| && io.ops[w].routine == r && Waiter(io, io.ops[w].fd, io.ops[w].direction) == Some(w)
            && (io.ops[w].deadline.Some? <==> IoKey(w) in io.clock.pending)
            && (io.ops[w].deadline.Some? ==>
                   io.clock.pending[IoKey(w)].deadline
                   == io.ops[w].deadline.value > io.clock.tick))
      && (io.states[r] == WaitTimer <==> TimerKey(r) in io.clock.pending)
  {
    RunConsistent(states, ops, i);
    var io := states[i];
    if r in io.ioWait {
      assert Pending(io, io.ioWait[r]) && WaitOk(io, io.ioWait[r], {}, {});
      assert IoKey(io.ioWait[r]) in io.clock.pending ==> KeyOk(io, IoKey(io.ioWait[r]));
    }
    assert TimerKey(r) in io.clock.pending ==> KeyOk(io, TimerKey(r));
  }

  lemma {:induction false} ClosedStays(log: seq<Note>, i: nat, w: nat)
    requires Behaved(log) && i <= |log| && w < Begun(log[..i]) && w !in Open(log[..i])
    ensures w !in Open(log) && w < Begun(log)
    decreases |log|
  {
    if i < |log| {
      assert Init(log)[..i] == log[..i];
      ClosedStays(Init(log), i, w);
    } else {
      assert log[..i] == log;
    }
  }

  lemma {:induction false} OpenBegun(log: seq<Note>, w: nat)
    requires Behaved(log) && w in Open(log)
    ensures w < Begun(log)
    decreases |log|
  {
    if log != [] && w in Open(Init(log)) {
      OpenBegun(Init(log), w);
    }
  }

  lemma {:induction false} PrefixBehaved(log: seq<Note>, i: nat)
    requires Behaved(log) && i <= |log|
    ensures Behaved(log[..i])
    decreases |log|
  {
    if i < |log| {
      assert Init(log)[..i] == log[..i];
      PrefixBehaved(Init(log), i);
    } else {
      assert log[..i] == log;
    }
  }

  /** Each wait ends at most once in any run. */
  lemma EndsOnce(states: seq<Io>, ops: seq<Action>, n: nat, i: nat, j: nat)
    requires Run(states, ops) && n <= |ops| && i < j < |states[n].log|
    requires states[n].log[i].Ended? && states[n].log[j].Ended?
    ensures states[n].log[i].wait != states[n].log[j].wait
  {
    hide Consistent, Follows, Behaved;
    RunConsistent(states, ops, n);
    LogBehaved(states[n]);
    LogEndsOnce(states[n].log, i, j);
  }

  lemma LogEndsOnce(log: seq<Note>, i: nat, j: nat)
    requires Behaved(log) && i < j < |log| && log[i].Ended? && log[j].Ended?
    ensures log[i].wait != log[j].wait
  {
    var w := log[i].wait;
    if log[j].wait == w {
      PrefixBehaved(log, j);
      PrefixBehaved(log, j + 1);
      PrefixBehaved(log, i + 1);
      assert Init(log[..i + 1]) == log[..i] && Init(log[..j + 1]) == log[..j];
      OpenBegun(log[..i], w);
      assert log[..j][..i + 1] == log[..i + 1];
      ClosedStays(log[..j], i + 1, w);
      assert false;
    }
  }

  lemma LogBehaved(io: Io)
    requires Consistent(io, {}, {})
    ensures Behaved(io.log)
  {
  }

  /** A wait that times out does so at or after its deadline, and when a poll ends no wait has passed its deadline. */
  lemma TimelyEnds(states: seq<Io>, ops: seq<Action>, n: nat, i: nat)
    requires Run(states, ops) && n <= |ops| && i < |states[n].log|
    ensures Allowed(states[n].log[..i], states[n].log[i])
  {
    hide Consistent, Allowed;
    var log := states[n].log;
    assert Behaved(log) by { RunConsistent(states, ops, n); LogBehaved(states[n]); }
    PrefixBehaved(log, i + 1);
    assert Init(log[..i + 1]) == log[..i];
  }
}
