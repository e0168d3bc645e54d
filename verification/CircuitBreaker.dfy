/** The breaker's control word: two bits of state, two 16-bit counters and a 30-bit generation. */
module BreakerWords {
  const COUNTER: nat := 0x1_0000
  const GENERATIONS: nat := 0x4000_0000

  datatype Phase = Closed | Open | HalfOpen | Opening

  /** A control word with its generation counted without wrap-around. */
  datatype Control = Control(phase: Phase, generation: nat, inflight: nat, successes: nat)

  function Code(p: Phase): (c: nat)
    ensures c < 4
  {
    match p case Closed => 0 case Open => 1 case HalfOpen => 2 case Opening => 3
  }

  /** The 64-bit word: state, in-flight count, successes and generation, from the low end. */
  function Pack(c: Control): (w: nat) {
    Code(c.phase) + 4 * (c.inflight % COUNTER
        + COUNTER * (c.successes % COUNTER + COUNTER * (c.generation % GENERATIONS)))
  }

  function StateOf(w: nat): (s: nat) { w % 4 }

  function InflightOf(w: nat): (n: nat) { w / 4 % COUNTER }

  function SuccessesOf(w: nat): (n: nat) { w / 4 / COUNTER % COUNTER }

  function GenerationOf(w: nat): (n: nat) { w / 4 / COUNTER / COUNTER % GENERATIONS }

  lemma Layer(low: nat, high: nat, n: nat)
    requires n > 0 && low < n
    ensures (low + n * high) % n == low && (low + n * high) / n == high
  {
    var q, r := (low + n * high) / n, (low + n * high) % n;
    assert low + n * high == q * n + r;
    assert (q - high) * n == low - r;
    if q > high {
      assert (q - high) * n >= n by { Times(q - high, n); }
    } else if q < high {
      assert (high - q) * n >= n by { Times(high - q, n); }
    }
  }

  lemma Times(k: int, n: int)
    requires k >= 1 && n > 0
    ensures k * n >= n
  {
    assert k * n == (k - 1) * n + n;
  }

  /** Each field reads back as what was packed, cut to its width; and the word fits in 64 bits. */
  lemma UnpackPack(c: Control)
    ensures Pack(c) < 0x1_0000_0000_0000_0000
    ensures StateOf(Pack(c)) == Code(c.phase) && InflightOf(Pack(c)) == c.inflight % COUNTER
    ensures SuccessesOf(Pack(c)) == c.successes % COUNTER && GenerationOf(Pack(c)) == c.generation % GENERATIONS
  {
    var g := c.generation % GENERATIONS;
    var s := c.successes % COUNTER + COUNTER * g;
    var i := c.inflight % COUNTER + COUNTER * s;
    Layer(Code(c.phase), i, 4);
    Layer(c.inflight % COUNTER, s, COUNTER);
    Layer(c.successes % COUNTER, g, COUNTER);
  }

  /** Words within the widths that are less than 2^30 generations apart are the same word only if they are the same. */
  lemma PackInjective(a: Control, b: Control)
    requires Pack(a) == Pack(b) && a.inflight < COUNTER && b.inflight < COUNTER && a.successes < COUNTER
    requires b.successes < COUNTER
    requires a.generation <= b.generation < a.generation + GENERATIONS
    ensures a == b
  {
    UnpackPack(a);
    UnpackPack(b);
    SameGeneration(a.generation, b.generation);
  }

  lemma SameGeneration(a: nat, b: nat)
    requires a <= b < a + GENERATIONS && a % GENERATIONS == b % GENERATIONS
    ensures a == b
  {
    var d := b / GENERATIONS - a / GENERATIONS;
    assert b - a == d * GENERATIONS;
  }
}

/**
 The breaker over all interleavings: each load, store and compare-and-swap is a step. The failure window only decides
 when a closed breaker trips, so tripping is an input. `good` counts the successful probes of the current generation
 and `opens` lists the generations that were opened; both are auxiliary.
 */
module CircuitBreakers {
  import opened Results
  import opened BreakerWords

  datatype Kind = Failed | Succeeded | Neutral

  datatype Pc =
    | AllowLoaded(word: Control, now: nat)
    | AllowTimed(word: Control, now: nat)
    | RecordLoaded(pid: nat, word: Control, good: bool)
    | TripLoaded(pid: nat, word: Control, now: nat)
    | OpenTry(pid: nat, expected: Control, word: Control, now: nat)
    | OpeningTime(generation: nat, now: nat)
    | OpeningStore(generation: nat)

  datatype Breaker = Breaker(
    maxProbes: nat, control: Control, reopenAt: nat, threads: map<nat, Pc>,
    permits: map<nat, Control>, recording: set<nat>, nextPid: nat, good: nat, opens: seq<nat>)

  datatype Action =
    | StartAllow(t: nat, now: nat)
    | StartRecord(t: nat, pid: nat, kind: Kind, now: nat)
    | Take(t: nat, spurious: bool, trip: bool, interval: nat)

  function Initial(maxProbes: nat): (b: Breaker) {
    Breaker(maxProbes, Control(Closed, 0, 0, 0), 0, map[], map[], {}, 0, 0, [])
  }

  // ---------------------------------------------------------------------------------------------
  // Steps
  // ---------------------------------------------------------------------------------------------

  function Goto(b: Breaker, t: nat, pc: Pc): (b': Breaker) {
    b.(threads := b.threads[t := pc])
  }

  function Done(b: Breaker, t: nat): (b': Breaker) {
    b.(threads := b.threads - {t})
  }

  function Grant(b: Breaker, t: nat, word: Control): (b': Breaker) {
    Done(b.(permits := b.permits[b.nextPid := word], nextPid := b.nextPid + 1), t)
  }

  /** The permit has been recorded. */
  function Spent(b: Breaker, pid: nat): (b': Breaker) {
    b.(permits := b.permits - {pid}, recording := b.recording - {pid})
  }

  /** The compare-and-swap sees whole words. */
  predicate Swaps(b: Breaker, word: Control, spurious: bool) {
    Pack(b.control) == Pack(word) && !spurious
  }

  function Cut(inflight: nat): (n: nat)
    ensures n < COUNTER && (inflight < COUNTER ==> n == inflight)
  {
    inflight % COUNTER
  }

  function StepAllow(b: Breaker, t: nat, word: Control, now: nat, spurious: bool): (b': Breaker) {
    match word.phase
    case Closed => Grant(b, t, word)
    case Open => if now < b.reopenAt then Done(b, t) else Goto(b, t, AllowTimed(word, now))
    case Opening => Goto(b, t, AllowLoaded(b.control, now))
    case HalfOpen =>
      if word.inflight >= b.maxProbes then Done(b, t)
      else if Swaps(b, word, spurious) then
        var next := Control(HalfOpen, b.control.generation, Cut(word.inflight + 1), word.successes);
        Grant(b.(control := next), t, next)
      else Goto(b, t, AllowLoaded(b.control, now))
  }

  function StepTimed(b: Breaker, t: nat, word: Control, now: nat, spurious: bool): (b': Breaker) {
    if Swaps(b, word, spurious) then
      var half := Control(HalfOpen, b.control.generation + 1, 1, 0);
      Grant(b.(control := half, good := 0), t, half)
    else Goto(b, t, AllowLoaded(b.control, now))
  }

  predicate SameGenerationWord(a: Control, b: Control) {
    GenerationOf(Pack(a)) == GenerationOf(Pack(b))
  }

  function StepRecord(b: Breaker, t: nat, pid: nat, word: Control, good: bool, spurious: bool): (b': Breaker)
    requires pid in b.permits
  {
    if word.phase != HalfOpen || !SameGenerationWord(word, b.permits[pid]) then Done(Spent(b, pid), t)
    else if Swaps(b, word, spurious) then
      var successes := word.successes + if good then 1 else 0;
      var left := if word.inflight == 0 then 0 else word.inflight - 1;
      var next := if word.inflight == 1 && successes >= b.maxProbes then Control(Closed, b.control.generation + 1, 0, 0)
                  else Control(HalfOpen, b.control.generation, left, Cut(successes));
      Done(Spent(b.(control := next, good := b.good + if good then 1 else 0), pid), t)
    else Goto(b, t, RecordLoaded(pid, b.control, good))
  }

  function StepOpen(b: Breaker, t: nat, pid: nat, expected: Control, word: Control, now: nat, spurious: bool)
    : (b': Breaker)
  {
    if word.phase != expected.phase || !SameGenerationWord(word, expected) then Done(Spent(b, pid), t)
    else if Swaps(b, word, spurious) then
      var g := b.control.generation + 1;
      Goto(Spent(b.(control := Control(Opening, g, 0, 0), opens := b.opens + [g]), pid), t, OpeningTime(g, now))
    else Goto(b, t, OpenTry(pid, expected, b.control, now))
  }

  function StepTrip(b: Breaker, t: nat, pid: nat, word: Control, now: nat, trip: bool): (b': Breaker)
    requires pid in b.permits
  {
    if word.phase != Closed || !SameGenerationWord(word, b.permits[pid]) || !trip then Done(Spent(b, pid), t)
    else Goto(b, t, OpenTry(pid, word, word, now))
  }

  function StepTake(b: Breaker, t: nat, spurious: bool, trip: bool, interval: nat): (b': Breaker)
    requires t in b.threads
  {
    match b.threads[t]
    case AllowLoaded(word, now) => StepAllow(b, t, word, now, spurious)
    case AllowTimed(word, now) => StepTimed(b, t, word, now, spurious)
    case RecordLoaded(pid, word, good) => if pid in b.permits then StepRecord(b, t, pid, word, good, spurious) else b
    case TripLoaded(pid, word, now) => if pid in b.permits then StepTrip(b, t, pid, word, now, trip) else b
    case OpenTry(pid, expected, word, now) => StepOpen(b, t, pid, expected, word, now, spurious)
    case OpeningTime(g, now) => Goto(b.(reopenAt := now + interval), t, OpeningStore(g))
    case OpeningStore(g) => Done(b.(control := Control(Open, g, 0, 0)), t)
  }

  function Step(b: Breaker, a: Action): (b': Breaker) {
    match a
    case StartAllow(t, now) => if t in b.threads then b else Goto(b, t, AllowLoaded(b.control, now))
    case StartRecord(t, pid, kind, now) =>
      if t in b.threads || pid !in b.permits || pid in b.recording then b
      else
        var begun := b.(recording := b.recording + {pid});
        var permit := b.permits[pid];
        if permit.phase == HalfOpen then
          if kind == Failed then Goto(begun, t, OpenTry(pid, permit, permit, now))
          else Goto(begun, t, RecordLoaded(pid, b.control, kind == Succeeded))
        else Goto(begun, t, TripLoaded(pid, b.control, now))
    case Take(t, spurious, trip, interval) => if t in b.threads then StepTake(b, t, spurious, trip, interval) else b
  }

  // ---------------------------------------------------------------------------------------------
  // The invariant
  // ---------------------------------------------------------------------------------------------

  /** A word read earlier: of an earlier generation, or of this one in the same phase or just before it opened. */
  ghost predicate Held(control: Control, w: Control) {
    && w.inflight < COUNTER && w.successes < COUNTER && w.generation <= control.generation
    && (w.generation == control.generation ==>
        w.phase == control.phase || (w.phase == Opening && control.phase == Open))
  }

  function PidOf(pc: Pc): (pid: Option<nat>) {
    match pc
    case RecordLoaded(pid, _, _) => Some(pid)
    case TripLoaded(pid, _, _) => Some(pid)
    case OpenTry(pid, _, _, _) => Some(pid)
    case _ => None
  }

  predicate IsOpening(pc: Pc) {
    pc.OpeningTime? || pc.OpeningStore?
  }

  /** The word was read after the permit was given: of the same generation and phase, or of a later generation. */
  ghost predicate After(permit: Control, w: Control) {
    w.generation > permit.generation || (w.generation == permit.generation && w.phase == permit.phase)
  }

  ghost predicate ThreadOk(b: Breaker, pc: Pc) {
    match pc
    case AllowLoaded(w, _) => Held(b.control, w)
    case AllowTimed(w, now) =>
      && Held(b.control, w) && w.phase == Open
      && (w.generation == b.control.generation ==> b.reopenAt <= now)
    case RecordLoaded(pid, w, _) =>
      && Held(b.control, w) && pid in b.permits && pid in b.recording && b.permits[pid].phase == HalfOpen
      && After(b.permits[pid], w)
    case TripLoaded(pid, w, _) =>
      Held(b.control, w) && pid in b.permits && pid in b.recording && b.permits[pid].phase == Closed
    case OpenTry(pid, expected, w, _) =>
      && Held(b.control, expected) && Held(b.control, w) && pid in b.permits && pid in b.recording
      && expected.phase == b.permits[pid].phase && expected.generation == b.permits[pid].generation
      && After(b.permits[pid], w)
    case OpeningTime(g, _) => b.control == Control(Opening, g, 0, 0)
    case OpeningStore(g) => b.control == Control(Opening, g, 0, 0)
  }

  ghost predicate Threads(b: Breaker) {
    && (forall t :: t in b.threads ==> ThreadOk(b, b.threads[t]))
    && (forall t, x :: t in b.threads && x in b.threads && t != x && PidOf(b.threads[t]).Some? ==>
        PidOf(b.threads[t]) != PidOf(b.threads[x]))
    && (forall t, x :: t in b.threads && x in b.threads && t != x && IsOpening(b.threads[t]) ==>
        !IsOpening(b.threads[x]))
    && (forall pid :: pid in b.recording ==> exists t :: t in b.threads && PidOf(b.threads[t]) == Some(pid))
  }

  /** The permits of the current half-open generation that have not been recorded. */
  function Probes(permits: map<nat, Control>, generation: nat): (pids: set<nat>) {
    set pid | pid in permits && permits[pid].phase == HalfOpen && permits[pid].generation == generation
  }

  ghost predicate Permits(b: Breaker) {
    && (forall pid :: pid in b.permits ==>
           && pid < b.nextPid && Held(b.control, b.permits[pid])
           && b.permits[pid].phase in {Closed, HalfOpen})
    && b.recording <= b.permits.Keys
  }

  ghost predicate Counts(b: Breaker) {
    && b.control.inflight < COUNTER && b.control.successes < COUNTER
    && (b.control.phase == HalfOpen ==>
          b.control.inflight == |Probes(b.permits, b.control.generation)| <= b.maxProbes
              && b.control.successes == Cut(b.good))
    && (b.control.phase != HalfOpen ==> b.control.inflight == 0 && b.control.successes == 0)
  }

  ghost predicate Opened(b: Breaker) {
    && (forall i :: 0 <= i < |b.opens| ==> b.opens[i] <= b.control.generation)
    && (forall i, j :: 0 <= i < j < |b.opens| ==> b.opens[i] < b.opens[j])
  }

  ghost predicate Inv(b: Breaker) {
    0 < b.maxProbes < COUNTER && Threads(b) && Permits(b) && Counts(b) && Opened(b)
  }

  function WordOf(pc: Pc): (w: Option<Control>) {
    match pc
    case AllowLoaded(w, _) => Some(w)
    case AllowTimed(w, _) => Some(w)
    case RecordLoaded(_, w, _) => Some(w)
    case TripLoaded(_, w, _) => Some(w)
    case OpenTry(_, _, w, _) => Some(w)
    case _ => None
  }

  ghost predicate Recent(control: Control, w: Control) {
    control.generation < w.generation + GENERATIONS
  }

  /** Fewer than 2^30 generations have passed since any word that is still held was read. */
  ghost predicate Fresh(b: Breaker) {
    && (forall pid :: pid in b.permits ==> Recent(b.control, b.permits[pid]))
    && (forall t :: t in b.threads && WordOf(b.threads[t]).Some? ==> Recent(b.control, WordOf(b.threads[t]).value))
  }

  // ---------------------------------------------------------------------------------------------
  // What a step of one thread leaves alone
  // ---------------------------------------------------------------------------------------------

  /** A compare-and-swap that succeeds has seen the very word that is there. */
  lemma SwapsOnlyItself(b: Breaker, w: Control)
    requires Pack(b.control) == Pack(w) && Held(b.control, w) && Recent(b.control, w)
    requires b.control.inflight < COUNTER && b.control.successes < COUNTER
    ensures b.control == w
  {
    PackInjective(w, b.control);
  }

  lemma GenerationsCompare(control: Control, a: Control, c: Control)
    requires Held(control, a) && Held(control, c) && Recent(control, a) && Recent(control, c)
    ensures SameGenerationWord(a, c) <==> a.generation == c.generation
  {
    UnpackPack(a);
    UnpackPack(c);
    if SameGenerationWord(a, c) {
      if a.generation <= c.generation {
        SameGeneration(a.generation, c.generation);
      } else {
        SameGeneration(c.generation, a.generation);
      }
    }
  }

  /** How the control word can change in one step of thread `t`. */
  ghost predicate ControlStep(b: Breaker, b': Breaker, t: nat) {
    || b'.control == b.control
    || (b.control.phase == HalfOpen && b'.control.phase == HalfOpen && b'.control.generation == b.control.generation)
    || (b'.control.generation > b.control.generation && b.control.phase != Opening)
    || (b.control.phase == Opening && t in b.threads && IsOpening(b.threads[t]) && b'.control.phase == Open
        && b'.control.generation == b.control.generation)
  }

  ghost predicate Moves(b: Breaker, b': Breaker, t: nat) {
    && (forall x :: x in b.threads && x != t ==> x in b'.threads && b'.threads[x] == b.threads[x])
    && (forall x :: x in b'.threads && x != t ==> x in b.threads)
    && ControlStep(b, b', t)
    && (forall pid :: pid in b.permits && !(t in b.threads && PidOf(b.threads[t]) == Some(pid)) ==>
        pid in b'.permits && b'.permits[pid] == b.permits[pid])
    && (forall pid :: pid in b.recording && !(t in b.threads && PidOf(b.threads[t]) == Some(pid)) ==>
        pid in b'.recording)
    && (b'.reopenAt == b.reopenAt || b.control.phase == Opening)
  }

  lemma HeldMoves(b: Breaker, b': Breaker, t: nat, w: Control)
    requires ControlStep(b, b', t) && Held(b.control, w)
    ensures Held(b'.control, w)
  {
  }

  lemma OtherThread(b: Breaker, b': Breaker, t: nat, x: nat)
    requires Threads(b) && Moves(b, b', t) && x in b.threads && x != t
    ensures ThreadOk(b', b.threads[x])
  {
    assert ThreadOk(b, b.threads[x]);
    match b.threads[x]
    case AllowLoaded(w, _) => HeldMoves(b, b', t, w);
    case AllowTimed(w, _) => HeldMoves(b, b', t, w);
    case RecordLoaded(_, w, _) => HeldMoves(b, b', t, w);
    case TripLoaded(_, w, _) => HeldMoves(b, b', t, w);
    case OpenTry(_, e, w, _) => HeldMoves(b, b', t, w); HeldMoves(b, b', t, e);
    case _ =>
  }

  /** The threads after a step: the one that moved is in order, and keeps to itself. */
  lemma ThreadsAfter(b: Breaker, b': Breaker, t: nat)
    requires Threads(b) && Moves(b, b', t)
    requires t in b'.threads ==> ThreadOk(b', b'.threads[t])
    requires t in b'.threads && PidOf(b'.threads[t]).Some? ==>
      (t in b.threads && PidOf(b.threads[t]) == PidOf(b'.threads[t])) || PidOf(b'.threads[t]).value !in b.recording
    requires t in b'.threads && IsOpening(b'.threads[t]) ==>
        (t in b.threads && IsOpening(b.threads[t])) || b.control.phase != Opening
    requires forall pid :: pid in b'.recording ==>
        pid in b.recording || (t in b'.threads && PidOf(b'.threads[t]) == Some(pid))
    requires t in b.threads && PidOf(b.threads[t]).Some? && PidOf(b.threads[t]).value in b'.recording ==>
      t in b'.threads && PidOf(b'.threads[t]) == PidOf(b.threads[t])
    ensures Threads(b')
  {
    hide ThreadOk, ControlStep;
    forall x | x in b'.threads ensures ThreadOk(b', b'.threads[x]) {
      if x != t { OtherThread(b, b', t, x); }
    }
    forall x | x in b.threads ensures PidOf(b.threads[x]).Some? ==> PidOf(b.threads[x]).value in b.recording {
      HeldByThread(b, x);
    }
    forall x | x in b.threads && IsOpening(b.threads[x]) ensures b.control.phase == Opening {
      HeldByThread(b, x);
    }
    forall pid | pid in b'.recording ensures exists x :: x in b'.threads && PidOf(b'.threads[x]) == Some(pid) {
      if pid in b.recording {
        var x :| x in b.threads && PidOf(b.threads[x]) == Some(pid);
        assert x in b'.threads && PidOf(b'.threads[x]) == Some(pid);
      }
    }
  }

  lemma HeldByThread(b: Breaker, x: nat)
    requires Threads(b) && x in b.threads
    ensures PidOf(b.threads[x]).Some? ==> PidOf(b.threads[x]).value in b.recording
    ensures IsOpening(b.threads[x]) ==> b.control.phase == Opening
  {
    assert ThreadOk(b, b.threads[x]);
  }

  lemma PermitsAfter(b: Breaker, b': Breaker, t: nat)
    requires Permits(b) && ControlStep(b, b', t) && b'.nextPid >= b.nextPid && b'.recording <= b'.permits.Keys
    requires forall pid :: pid in b'.permits ==>
      (pid in b.permits && b'.permits[pid] == b.permits[pid]) ||
      (pid < b'.nextPid && Held(b'.control, b'.permits[pid]) && b'.permits[pid].phase in {Closed, HalfOpen})
    ensures Permits(b')
  {
    forall pid | pid in b'.permits ensures Held(b'.control, b'.permits[pid]) {
      if pid in b.permits && b'.permits[pid] == b.permits[pid] { HeldMoves(b, b', t, b.permits[pid]); }
    }
  }

  lemma OpenedAfter(b: Breaker, b': Breaker)
    requires Opened(b) && b'.control.generation >= b.control.generation
    requires b'.opens == b.opens || (b'.opens == b.opens + [b'.control.generation]
        && b'.control.generation > b.control.generation)
    ensures Opened(b')
  {
  }

  // ---------------------------------------------------------------------------------------------
  // Steps of a call for a permit
  // ---------------------------------------------------------------------------------------------

  lemma MoveKeeps(b: Breaker, b': Breaker, t: nat)
    requires Inv(b) && (b' == b.(threads := b'.threads) || b' == b.(threads := b'.threads, recording := b'.recording))
    requires Threads(b') && b'.recording <= b.permits.Keys
    ensures Inv(b')
  {
    hide Threads;
    PermitsAfter(b, b', t);
    OpenedAfter(b, b');
  }

  lemma StartAllowKeeps(b: Breaker, t: nat, now: nat)
    requires Inv(b) && t !in b.threads
    ensures Inv(Step(b, StartAllow(t, now)))
  {
    var b' := Step(b, StartAllow(t, now));
    assert Threads(b') by { hide Permits, Opened; ThreadsAfter(b, b', t); }
    hide Threads;
    MoveKeeps(b, b', t);
  }

  lemma StartRecordKeeps(b: Breaker, t: nat, pid: nat, kind: Kind, now: nat)
    requires Inv(b) && t !in b.threads && pid in b.permits && pid !in b.recording
    ensures Inv(Step(b, StartRecord(t, pid, kind, now)))
  {
    var b' := Step(b, StartRecord(t, pid, kind, now));
    assert Held(b.control, b.permits[pid]);
    assert ThreadOk(b', b'.threads[t]) by { hide Threads, Opened; }
    assert Threads(b') by { hide Permits, Counts, Opened, ThreadOk; ThreadsAfter(b, b', t); }
    hide Threads, ThreadOk;
    MoveKeeps(b, b', t);
  }

  /** A permit is granted, with or without a change of the control word. */
  lemma GrantKeeps(b: Breaker, b': Breaker, t: nat, control: Control, word: Control, good: nat)
    requires Inv(b) && t in b.threads && PidOf(b.threads[t]).None?
    requires b' == Grant(b.(control := control, good := good), t, word)
    requires ControlStep(b, b', t) && Counts(b') && Held(control, word) && word.phase in {Closed, HalfOpen}
    ensures Inv(b')
  {
    hide Counts;
    assert b.nextPid !in b.permits && b.nextPid !in b.recording;
    assert Threads(b') by { hide Opened; ThreadsAfter(b, b', t); }
    hide Threads;
    PermitsAfter(b, b', t);
    OpenedAfter(b, b');
  }

  lemma AllowKeeps(b: Breaker, t: nat, spurious: bool)
    requires Inv(b) && Fresh(b) && t in b.threads && b.threads[t].AllowLoaded?
    ensures Inv(StepAllow(b, t, b.threads[t].word, b.threads[t].now, spurious))
  {
    var w := b.threads[t].word;
    hide Inv, Fresh;
    if w.phase == Closed {
      AllowClosed(b, t, spurious);
    } else if w.phase == HalfOpen && w.inflight < b.maxProbes && Swaps(b, w, spurious) {
      AllowProbe(b, t, spurious);
    } else {
      AllowMoves(b, t, spurious);
    }
  }

  lemma AllowClosed(b: Breaker, t: nat, spurious: bool)
    requires Inv(b) && t in b.threads && b.threads[t].AllowLoaded? && b.threads[t].word.phase == Closed
    ensures Inv(StepAllow(b, t, b.threads[t].word, b.threads[t].now, spurious))
  {
    var w := b.threads[t].word;
    var b' := StepAllow(b, t, w, b.threads[t].now, spurious);
    assert ThreadOk(b, b.threads[t]);
    hide Threads, Permits, Counts, Opened;
    ClosedGrant(b, t, w);
    GrantKeeps(b, b', t, b.control, w, b.good);
  }

  lemma AllowProbe(b: Breaker, t: nat, spurious: bool)
    requires Inv(b) && Fresh(b) && t in b.threads && b.threads[t].AllowLoaded?
    requires var w := b.threads[t].word; w.phase == HalfOpen && w.inflight < b.maxProbes && Swaps(b, w, spurious)
    ensures Inv(StepAllow(b, t, b.threads[t].word, b.threads[t].now, spurious))
  {
    var w := b.threads[t].word;
    var b' := StepAllow(b, t, w, b.threads[t].now, spurious);
    assert ThreadOk(b, b.threads[t]) && Recent(b.control, w) && b.control.inflight < COUNTER
        && b.control.successes < COUNTER;
    hide Threads, Permits, Counts, Opened, Fresh;
    SwapsOnlyItself(b, w);
    ProbeGranted(b, t, w);
    GrantKeeps(b, b', t, b'.control, b'.control, b.good);
  }

  lemma AllowMoves(b: Breaker, t: nat, spurious: bool)
    requires Inv(b) && t in b.threads && b.threads[t].AllowLoaded?
    requires var w := b.threads[t].word;
        && w.phase != Closed
        && !(w.phase == HalfOpen && w.inflight < b.maxProbes && Swaps(b, w, spurious))
    ensures Inv(StepAllow(b, t, b.threads[t].word, b.threads[t].now, spurious))
  {
    hide Swaps;
    var b' := StepAllow(b, t, b.threads[t].word, b.threads[t].now, spurious);
    assert ThreadOk(b, b.threads[t]);
    assert Threads(b') by { hide Permits, Opened; ThreadsAfter(b, b', t); }
    hide Threads, Permits, Counts, Opened;
    MoveKeeps(b, b', t);
  }

  lemma ClosedGrant(b: Breaker, t: nat, w: Control)
    requires Counts(b) && Permits(b) && w.phase == Closed
    ensures Counts(Grant(b, t, w))
  {
    assert Probes(b.permits[b.nextPid := w], b.control.generation) == Probes(b.permits, b.control.generation);
  }

  lemma ProbeGranted(b: Breaker, t: nat, w: Control)
    requires Counts(b) && Permits(b) && w == b.control && w.phase == HalfOpen && w.inflight < b.maxProbes < COUNTER
    ensures var next := Control(HalfOpen, w.generation, Cut(w.inflight + 1), w.successes);
      Counts(Grant(b.(control := next), t, next))
  {
    var next := Control(HalfOpen, w.generation, Cut(w.inflight + 1), w.successes);
    assert b.nextPid !in Probes(b.permits, w.generation);
    assert Probes(b.permits[b.nextPid := next], w.generation) == Probes(b.permits, w.generation) + {b.nextPid};
  }

  lemma TimedKeeps(b: Breaker, t: nat, spurious: bool)
    requires Inv(b) && Fresh(b) && t in b.threads && b.threads[t].AllowTimed?
    ensures Inv(StepTimed(b, t, b.threads[t].word, b.threads[t].now, spurious))
    ensures Swaps(b, b.threads[t].word, spurious) ==> b.control.phase == Open && b.reopenAt <= b.threads[t].now
  {
    var w, now := b.threads[t].word, b.threads[t].now;
    var b' := StepTimed(b, t, w, now, spurious);
    assert ThreadOk(b, b.threads[t]) && Recent(b.control, w);
    if Swaps(b, w, spurious) {
      SwapsOnlyItself(b, w);
      assert Counts(b') by { hide Threads, Opened; FirstProbe(b, t); }
      hide Threads, Permits, Counts, Opened;
      GrantKeeps(b, b', t, b'.control, b'.control, 0);
    } else {
      assert Threads(b') by { hide Permits, Opened; ThreadsAfter(b, b', t); }
      hide Threads;
      MoveKeeps(b, b', t);
    }
  }

  lemma FirstProbe(b: Breaker, t: nat)
    requires Permits(b) && b.maxProbes > 0
    ensures var half := Control(HalfOpen, b.control.generation + 1, 1, 0);
      Counts(Grant(b.(control := half, good := 0), t, half))
  {
    var half := Control(HalfOpen, b.control.generation + 1, 1, 0);
    forall pid | pid in b.permits ensures b.permits[pid].generation != half.generation {
      assert Held(b.control, b.permits[pid]);
    }
    assert Probes(b.permits[b.nextPid := half], half.generation) == {b.nextPid};
  }

  // ---------------------------------------------------------------------------------------------
  // Steps that record a result
  // ---------------------------------------------------------------------------------------------

  /** The permit is dropped, with the control word as it is or as given. */
  ghost predicate Spends(b: Breaker, b': Breaker, t: nat, pid: nat) {
    && t in b.threads && PidOf(b.threads[t]) == Some(pid)
    && b'.permits == b.permits - {pid} && b'.recording == b.recording - {pid} && b'.nextPid == b.nextPid
    && b'.reopenAt == b.reopenAt && b'.maxProbes == b.maxProbes
    && (forall x :: x in b.threads && x != t ==> x in b'.threads && b'.threads[x] == b.threads[x])
    && (forall x :: x in b'.threads && x != t ==> x in b.threads)
    && (t in b'.threads ==> PidOf(b'.threads[t]).None?)
    && ControlStep(b, b', t)
  }

  lemma SpendKeeps(b: Breaker, b': Breaker, t: nat, pid: nat)
    requires Inv(b) && Spends(b, b', t, pid) && Counts(b') && Opened(b')
    requires t in b'.threads ==> ThreadOk(b', b'.threads[t]) && IsOpening(b'.threads[t]) && b.control.phase != Opening
    ensures Inv(b')
  {
    hide Counts, Opened;
    assert Threads(b') by { hide Permits; ThreadsAfter(b, b', t); }
    hide Threads;
    PermitsAfter(b, b', t);
  }

  /** A permit of another generation, or of a closed breaker, is not among the probes. */
  lemma DroppedProbes(permits: map<nat, Control>, generation: nat, pid: nat)
    requires pid in permits && !(permits[pid].phase == HalfOpen && permits[pid].generation == generation)
    ensures Probes(permits - {pid}, generation) == Probes(permits, generation)
  {
  }

  lemma DropKeeps(b: Breaker, b': Breaker, t: nat, pid: nat)
    requires Inv(b) && pid in b.permits && t in b.threads && PidOf(b.threads[t]) == Some(pid)
    requires b' == Done(Spent(b, pid), t)
    requires b.permits[pid].phase == HalfOpen ==> b.permits[pid].generation < b.control.generation
    ensures Inv(b')
  {
    assert Counts(b') by { hide Threads, Permits, Opened; DroppedProbes(b.permits, b.control.generation, pid); }
    hide Threads, Permits, Counts, Opened;
    assert Opened(b') by { OpenedAfter(b, b'); }
    SpendKeeps(b, b', t, pid);
  }

  lemma RecordKeeps(b: Breaker, t: nat, spurious: bool)
    requires Inv(b) && Fresh(b) && t in b.threads && b.threads[t].RecordLoaded? && b.threads[t].pid in b.permits
    ensures Inv(StepRecord(b, t, b.threads[t].pid, b.threads[t].word, b.threads[t].good, spurious))
  {
    var pid, w, good := b.threads[t].pid, b.threads[t].word, b.threads[t].good;
    var b' := StepRecord(b, t, pid, w, good, spurious);
    assert ThreadOk(b, b.threads[t]) && Recent(b.control, w) && Recent(b.control, b.permits[pid])
        && Held(b.control, b.permits[pid]);
    assert b.control.inflight < COUNTER && b.control.successes < COUNTER;
    GenerationsCompare(b.control, w, b.permits[pid]);
    hide Inv, Fresh, SameGenerationWord;
    if w.phase != HalfOpen || !SameGenerationWord(w, b.permits[pid]) {
      DropKeeps(b, b', t, pid);
    } else if Swaps(b, w, spurious) {
      SwapsOnlyItself(b, w);
      RecordedKeeps(b, b', t, pid, good);
    } else {
      RecordReloads(b, b', t);
    }
  }

  lemma RecordReloads(b: Breaker, b': Breaker, t: nat)
    requires Inv(b) && t in b.threads && b.threads[t].RecordLoaded?
    requires b' == Goto(b, t, RecordLoaded(b.threads[t].pid, b.control, b.threads[t].good))
    ensures Inv(b')
  {
    assert ThreadOk(b, b.threads[t]) && Held(b.control, b.permits[b.threads[t].pid]);
    assert ThreadOk(b', b'.threads[t]) by { hide Threads, Opened; }
    assert Threads(b') by { hide Permits, Counts, Opened, ThreadOk; ThreadsAfter(b, b', t); }
    hide Threads, Permits, Counts, Opened, ThreadOk;
    MoveKeeps(b, b', t);
  }

  /** The breaker once a probe of the current generation has been recorded. */
  function Recorded(b: Breaker, t: nat, pid: nat, good: bool): (b': Breaker)
    requires pid in b.permits && t in b.threads
  {
    var c := b.control;
    var successes := c.successes + if good then 1 else 0;
    var next :=
      if c.inflight == 1 && successes >= b.maxProbes then Control(Closed, c.generation + 1, 0, 0)
      else Control(HalfOpen, c.generation, if c.inflight == 0 then 0 else c.inflight - 1, Cut(successes));
    Done(Spent(b.(control := next, good := b.good + if good then 1 else 0), pid), t)
  }

  /** One probe fewer, and one success more if it was one; the last probe may close the breaker. */
  lemma RecordedKeeps(b: Breaker, b': Breaker, t: nat, pid: nat, good: bool)
    requires Inv(b) && pid in b.permits && t in b.threads && PidOf(b.threads[t]) == Some(pid)
    requires b.control.phase == HalfOpen && b.permits[pid].phase == HalfOpen
    requires b.permits[pid].generation == b.control.generation
    requires b' == Recorded(b, t, pid, good)
    ensures Inv(b')
    ensures b'.control.phase == Closed ==> Probes(b'.permits, b.control.generation) == {} && b'.good >= b.maxProbes
  {
    hide Threads, Permits, Opened, Counts;
    RecordedCounts(b, b', t, pid, good);
    assert Opened(b') by { OpenedAfter(b, b'); }
    SpendKeeps(b, b', t, pid);
  }

  lemma RecordedCounts(b: Breaker, b': Breaker, t: nat, pid: nat, good: bool)
    requires Counts(b) && pid in b.permits && t in b.threads && 0 < b.maxProbes < COUNTER
    requires b.control.phase == HalfOpen && b.permits[pid].phase == HalfOpen
    requires b.permits[pid].generation == b.control.generation && b' == Recorded(b, t, pid, good)
    ensures Counts(b')
    ensures b'.control.phase == Closed ==> Probes(b'.permits, b.control.generation) == {} && b'.good >= b.maxProbes
  {
    assert Probes(b.permits - {pid}, b.control.generation) == Probes(b.permits, b.control.generation) - {pid};
    assert b.control.successes <= b.good;
    assert b'.control.phase == Closed ==> |Probes(b'.permits, b.control.generation)| == 0;
  }

  lemma OpenKeeps(b: Breaker, t: nat, spurious: bool)
    requires Inv(b) && Fresh(b) && t in b.threads && b.threads[t].OpenTry?
    ensures var pc := b.threads[t]; Inv(StepOpen(b, t, pc.pid, pc.expected, pc.word, pc.now, spurious))
  {
    var pid, e, w, now := b.threads[t].pid, b.threads[t].expected, b.threads[t].word, b.threads[t].now;
    var b' := StepOpen(b, t, pid, e, w, now, spurious);
    assert ThreadOk(b, b.threads[t]) && Recent(b.control, w) && Recent(b.control, b.permits[pid])
        && Recent(b.control, e);
    assert b.control.inflight < COUNTER && b.control.successes < COUNTER && b.permits[pid].phase in {Closed, HalfOpen};
    GenerationsCompare(b.control, w, e);
    hide Inv, Fresh, SameGenerationWord;
    if w.phase != e.phase || !SameGenerationWord(w, e) {
      DropKeeps(b, b', t, pid);
    } else if Swaps(b, w, spurious) {
      SwapsOnlyItself(b, w);
      OpenedKeeps(b, b', t, pid, now);
    } else {
      OpenReloads(b, b', t);
    }
  }

  lemma OpenedKeeps(b: Breaker, b': Breaker, t: nat, pid: nat, now: nat)
    requires Inv(b) && pid in b.permits && t in b.threads && PidOf(b.threads[t]) == Some(pid)
    requires b.control.phase in {Closed, HalfOpen}
    requires var g := b.control.generation + 1;
      b' == Goto(Spent(b.(control := Control(Opening, g, 0, 0), opens := b.opens + [g]), pid), t, OpeningTime(g, now))
    ensures Inv(b')
  {
    hide Threads, Permits, Opened;
    assert Opened(b') by { OpenedAfter(b, b'); }
    assert Counts(b');
    hide Counts;
    SpendKeeps(b, b', t, pid);
  }

  lemma OpenReloads(b: Breaker, b': Breaker, t: nat)
    requires Inv(b) && t in b.threads && b.threads[t].OpenTry?
    requires var pc := b.threads[t]; b' == Goto(b, t, OpenTry(pc.pid, pc.expected, b.control, pc.now))
    ensures Inv(b')
  {
    assert ThreadOk(b, b.threads[t]) && Held(b.control, b.permits[b.threads[t].pid])
        && b.permits[b.threads[t].pid].phase in {Closed, HalfOpen};
    assert ThreadOk(b', b'.threads[t]) by { hide Threads, Opened; }
    assert Threads(b') by { hide Permits, Counts, Opened, ThreadOk; ThreadsAfter(b, b', t); }
    hide Threads, Permits, Counts, Opened, ThreadOk;
    MoveKeeps(b, b', t);
  }

  lemma TripKeeps(b: Breaker, t: nat, trip: bool)
    requires Inv(b) && Fresh(b) && t in b.threads && b.threads[t].TripLoaded? && b.threads[t].pid in b.permits
    ensures var pc := b.threads[t]; Inv(StepTrip(b, t, pc.pid, pc.word, pc.now, trip))
  {
    var pid, w, now := b.threads[t].pid, b.threads[t].word, b.threads[t].now;
    var b' := StepTrip(b, t, pid, w, now, trip);
    assert ThreadOk(b, b.threads[t]) && Recent(b.control, w) && Recent(b.control, b.permits[pid])
        && Held(b.control, b.permits[pid]);
    GenerationsCompare(b.control, w, b.permits[pid]);
    if w.phase != Closed || !SameGenerationWord(w, b.permits[pid]) || !trip {
      hide Inv, Fresh, SameGenerationWord;
      DropKeeps(b, b', t, pid);
    } else {
      hide Fresh, SameGenerationWord;
      assert ThreadOk(b', b'.threads[t]) by { hide Threads, Opened; }
      assert Threads(b') by { hide Permits, Counts, Opened, ThreadOk; ThreadsAfter(b, b', t); }
      hide Threads, Permits, Counts, Opened, ThreadOk;
      MoveKeeps(b, b', t);
    }
  }

  /** The two stores that finish opening: only the thread that won the compare-and-swap makes them. */
  lemma OpeningKeeps(b: Breaker, t: nat, interval: nat)
    requires Inv(b) && t in b.threads && IsOpening(b.threads[t])
    ensures Inv(StepTake(b, t, false, false, interval))
    ensures StepTake(b, t, true, true, interval) == StepTake(b, t, false, false, interval)
  {
    var b' := StepTake(b, t, false, false, interval);
    assert ThreadOk(b, b.threads[t]);
    assert Threads(b') by { hide Permits, Counts, Opened; ThreadsAfter(b, b', t); }
    hide Threads;
    PermitsAfter(b, b', t);
    OpenedAfter(b, b');
  }

  lemma StepKeepsInv(b: Breaker, a: Action)
    requires Inv(b) && Fresh(b)
    ensures Inv(Step(b, a))
  {
    hide Inv, Fresh, StepAllow, StepTimed, StepRecord, StepTrip, StepOpen;
    match a
    case StartAllow(t, now) => if t !in b.threads { StartAllowKeeps(b, t, now); }
    case StartRecord(t, pid, kind, now) =>
      if t !in b.threads && pid in b.permits && pid !in b.recording { StartRecordKeeps(b, t, pid, kind, now); }
    case Take(t, spurious, trip, interval) =>
      if t in b.threads {
        match b.threads[t]
        case AllowLoaded(_, _) => AllowKeeps(b, t, spurious);
        case AllowTimed(_, _) => TimedKeeps(b, t, spurious);
        case RecordLoaded(pid, _, _) => if pid in b.permits { RecordKeeps(b, t, spurious); }
        case TripLoaded(pid, _, _) => if pid in b.permits { TripKeeps(b, t, trip); }
        case OpenTry(_, _, _, _) => OpenKeeps(b, t, spurious);
        case _ => OpeningKeeps(b, t, interval);
      }
  }

  // ---------------------------------------------------------------------------------------------
  // Every run
  // ---------------------------------------------------------------------------------------------

  /** A run in which no held word ever grows 2^30 generations old. */
  ghost predicate Run(states: seq<Breaker>, actions: seq<Action>, maxProbes: nat) {
    && |states| == |actions| + 1 && states[0] == Initial(maxProbes)
    && (forall i :: 0 <= i < |actions| ==> states[i + 1] == Step(states[i], actions[i]))
    && (forall i :: 0 <= i < |states| ==> Fresh(states[i]))
  }

  ghost predicate Reachable(b: Breaker) {
    exists states, actions :: Run(states, actions, b.maxProbes) && states[|actions|] == b
  }

  lemma {:induction false} RunInv(states: seq<Breaker>, actions: seq<Action>, maxProbes: nat, i: nat)
    requires Run(states, actions, maxProbes) && 0 < maxProbes < COUNTER && i <= |actions|
    ensures Inv(states[i])
    decreases i
  {
    if i > 0 {
      hide Inv, Fresh, Step;
      RunInv(states, actions, maxProbes, i - 1);
      assert states[i - 1 + 1] == Step(states[i - 1], actions[i - 1]);
      StepKeepsInv(states[i - 1], actions[i - 1]);
    }
  }

  lemma ReachableInv(b: Breaker)
    requires Reachable(b) && 0 < b.maxProbes < COUNTER
    ensures Inv(b) && Fresh(b)
  {
    hide Inv, Fresh;
    var states, actions :| Run(states, actions, b.maxProbes) && states[|actions|] == b;
    RunInv(states, actions, b.maxProbes, |actions|);
  }

  lemma ReachableStep(b: Breaker, a: Action)
    requires Reachable(b) && Fresh(Step(b, a)) && Step(b, a).maxProbes == b.maxProbes
    ensures Reachable(Step(b, a))
  {
    hide Fresh, Step;
    var states, actions :| Run(states, actions, b.maxProbes) && states[|actions|] == b;
    var states', actions' := states + [Step(b, a)], actions + [a];
    assert Run(states', actions', b.maxProbes) && states'[|actions'|] == Step(b, a);
  }

  /** The in-flight field is the number of unrecorded probes of this generation, and never above the limit. */
  lemma ProbesAreCounted(b: Breaker)
    requires Reachable(b) && 0 < b.maxProbes < COUNTER && b.control.phase == HalfOpen
    ensures InflightOf(Pack(b.control)) == |Probes(b.permits, b.control.generation)| <= b.maxProbes
    ensures SuccessesOf(Pack(b.control)) == b.good % COUNTER
  {
    ReachableInv(b);
    UnpackPack(b.control);
  }

  /** Each generation is opened at most once. */
  lemma OpenedOnce(b: Breaker, i: nat, j: nat)
    requires Reachable(b) && 0 < b.maxProbes < COUNTER && i < j < |b.opens|
    ensures b.opens[i] != b.opens[j]
  {
    ReachableInv(b);
  }

  /** Recording a permit of another generation than the current one never changes the control word. */
  lemma StaleIsInert(b: Breaker, t: nat, spurious: bool, trip: bool, interval: nat)
    requires Reachable(b) && 0 < b.maxProbes < COUNTER && t in b.threads && PidOf(b.threads[t]).Some?
    requires PidOf(b.threads[t]).value in b.permits
    requires b.permits[PidOf(b.threads[t]).value].generation != b.control.generation
    ensures Step(b, Take(t, spurious, trip, interval)).control == b.control
  {
    ReachableInv(b);
    assert ThreadOk(b, b.threads[t]);
    var pid := PidOf(b.threads[t]).value;
    var w := b.threads[t].word;
    assert Recent(b.control, w) && Recent(b.control, b.permits[pid]) && Held(b.control, b.permits[pid]);
    hide Threads, Permits, Opened, Fresh;
    GenerationsCompare(b.control, w, b.permits[pid]);
    if b.threads[t].OpenTry? { GenerationsCompare(b.control, w, b.threads[t].expected); }
    if Pack(b.control) == Pack(w) { SwapsOnlyItself(b, w); }
  }

  /**
   An open breaker lets nobody through before its reopening time:
   whoever moves it on was called at or after that time.
   */
  lemma NothingBeforeReopening(b: Breaker, a: Action)
    requires Reachable(b) && 0 < b.maxProbes < COUNTER && b.control.phase == Open && Step(b, a).control != b.control
    ensures a.Take? && a.t in b.threads && b.threads[a.t].AllowTimed? && b.reopenAt <= b.threads[a.t].now
    ensures Step(b, a).control == Control(HalfOpen, b.control.generation + 1, 1, 0)
  {
    ReachableInv(b);
    if a.Take? && a.t in b.threads {
      assert ThreadOk(b, b.threads[a.t]);
      var pc := b.threads[a.t];
      if WordOf(pc).Some? && Pack(b.control) == Pack(WordOf(pc).value) {
        SwapsOnlyItself(b, WordOf(pc).value);
      }
    }
  }

  /** The breaker closes only when no probe is outstanding and enough of them succeeded. */
  lemma ClosingIsEarned(b: Breaker, a: Action)
    requires Reachable(b) && 0 < b.maxProbes < COUNTER && b.control.phase == HalfOpen
    requires Step(b, a).control.phase == Closed
    ensures Probes(Step(b, a).permits, b.control.generation) == {} && Step(b, a).good >= b.maxProbes
  {
    hide Reachable, Inv, Fresh, SameGenerationWord;
    ReachableInv(b);
    if a.Take? && a.t in b.threads && b.threads[a.t].RecordLoaded? {
      var pc := b.threads[a.t];
      RecorderFacts(b, a.t);
      if Pack(b.control) == Pack(pc.word) { SwapsOnlyItself(b, pc.word); }
      RecordedKeeps(b, Step(b, a), a.t, pc.pid, pc.good);
    }
  }

  /** A thread records the only probe outstanding, and the word is still as it was read. */
  ghost predicate RecordsLast(b: Breaker, a: Action) {
    && a.Take? && a.t in b.threads && b.threads[a.t].RecordLoaded? && Swaps(b, b.threads[a.t].word, a.spurious)
    && Probes(b.permits, b.control.generation) == {b.threads[a.t].pid}
  }

  /** The last probe closes the breaker if and only if the successes, as far as 16 bits hold them, reach the limit. */
  lemma ClosesExactly(b: Breaker, a: Action)
    requires Reachable(b) && 0 < b.maxProbes < COUNTER && b.control.phase == HalfOpen
    ensures Step(b, a).control.phase == Closed <==>
      RecordsLast(b, a) && b.good % COUNTER + (if b.threads[a.t].good then 1 else 0) >= b.maxProbes
  {
    hide Reachable, Inv, Fresh, SameGenerationWord;
    ReachableInv(b);
    if a.Take? && a.t in b.threads && b.threads[a.t].RecordLoaded? {
      var pc := b.threads[a.t];
      RecorderFacts(b, a.t);
      if Swaps(b, pc.word, a.spurious) {
        SwapsOnlyItself(b, pc.word);
        LastOne(b, pc.pid);
      }
    } else {
      OthersDoNotClose(b, a);
    }
  }

  lemma LastOne(b: Breaker, pid: nat)
    requires Inv(b) && 0 < b.maxProbes < COUNTER && b.control.phase == HalfOpen && pid in b.permits
    requires b.permits[pid].phase == HalfOpen
    ensures Probes(b.permits, b.control.generation) == {pid} <==>
      b.control.inflight == 1 && b.permits[pid].generation == b.control.generation
    ensures b.control.successes == b.good % COUNTER
  {
    var probes := Probes(b.permits, b.control.generation);
    if b.control.inflight == 1 && pid in probes {
      assert |probes - {pid}| == 0;
    }
  }

  lemma OthersDoNotClose(b: Breaker, a: Action)
    requires b.control.phase == HalfOpen && !(a.Take? && a.t in b.threads && b.threads[a.t].RecordLoaded?)
    ensures Step(b, a).control.phase != Closed
  {
  }

  /** What a thread about to record a permit may rely on. */
  lemma RecorderFacts(b: Breaker, t: nat)
    requires Inv(b) && Fresh(b) && 0 < b.maxProbes < COUNTER && t in b.threads && b.threads[t].RecordLoaded?
    ensures var pc := b.threads[t];
      && ThreadOk(b, pc) && Held(b.control, b.permits[pc.pid]) && Recent(b.control, pc.word)
          && Recent(b.control, b.permits[pc.pid])
      && b.control.inflight < COUNTER && b.control.successes < COUNTER
      && (SameGenerationWord(pc.word, b.permits[pc.pid]) <==> pc.word.generation == b.permits[pc.pid].generation)
  {
    var pc := b.threads[t];
    assert ThreadOk(b, pc) && Held(b.control, b.permits[pc.pid]) && Recent(b.control, pc.word)
        && Recent(b.control, b.permits[pc.pid]);
    GenerationsCompare(b.control, pc.word, b.permits[pc.pid]);
  }

  // ---------------------------------------------------------------------------------------------
  // A limit wider than the counter
  // ---------------------------------------------------------------------------------------------

  /** Half-open in generation 2, with `n` probes outstanding and nobody in the middle of anything. */
  function Flooded(maxProbes: nat, n: nat): (b: Breaker)
    ensures b.maxProbes == maxProbes
  {
    var permits := map pid | 1 <= pid <= n :: Control(HalfOpen, 2, Cut(pid), 0);
    Breaker(maxProbes, Control(HalfOpen, 2, Cut(n), 0), 0, map[], permits, {}, n + 1, 0, [1])
  }

  lemma FloodStep(maxProbes: nat, n: nat)
    requires maxProbes >= COUNTER && 1 <= n < COUNTER
    ensures Step(Step(Flooded(maxProbes, n), CALL), NEXT) == Flooded(maxProbes, n + 1)
    ensures Fresh(Step(Flooded(maxProbes, n), CALL)) && Fresh(Flooded(maxProbes, n + 1))
  {
    var b := Flooded(maxProbes, n);
    var b2 := Step(Step(b, CALL), NEXT);
    assert b2.threads == map[];
    assert b2.permits == Flooded(maxProbes, n + 1).permits;
  }

  lemma {:induction false} FloodReachable(maxProbes: nat, n: nat)
    requires maxProbes >= COUNTER && 1 <= n <= COUNTER && Reachable(Flooded(maxProbes, 1))
    ensures Reachable(Flooded(maxProbes, n))
    decreases n
  {
    hide Step, Fresh, Reachable, Flooded;
    if n > 1 {
      FloodReachable(maxProbes, n - 1);
      FloodStep(maxProbes, n - 1);
      var b := Flooded(maxProbes, n - 1);
      KeepsLimit(b, CALL);
      ReachableStep(b, CALL);
      ReachableStep(Step(b, CALL), NEXT);
    }
  }

  lemma KeepsLimit(b: Breaker, a: Action)
    ensures Step(b, a).maxProbes == b.maxProbes
  {
  }

  const CALL := StartAllow(0, 0)
  const NEXT := Take(0, false, true, 0)
  const FAIL := StartRecord(0, 0, Failed, 0)
  const CLOSED := Control(Closed, 0, 0, 0)

  /** The states on the way from a closed breaker to its first probe: a call, a trip, an opening and a call again. */
  function Early(maxProbes: nat, i: nat): (b: Breaker)
    ensures b.maxProbes == maxProbes
  {
    var s0 := Initial(maxProbes);
    var s2 := s0.(permits := map[0 := CLOSED], nextPid := 1);
    var s5 := s0.(nextPid := 1, control := Control(Opening, 1, 0, 0), opens := [1],
        threads := map[0 := OpeningTime(1, 0)]);
    var s7 := s5.(control := Control(Open, 1, 0, 0), threads := map[]);
    match i
    case 0 => s0
    case 1 => s0.(threads := map[0 := AllowLoaded(CLOSED, 0)])
    case 2 => s2
    case 3 => s2.(recording := {0}, threads := map[0 := TripLoaded(0, CLOSED, 0)])
    case 4 => s2.(recording := {0}, threads := map[0 := OpenTry(0, CLOSED, CLOSED, 0)])
    case 5 => s5
    case 6 => s5.(threads := map[0 := OpeningStore(1)])
    case 7 => s7
    case 8 => s7.(threads := map[0 := AllowLoaded(s7.control, 0)])
    case _ => s7.(threads := map[0 := AllowTimed(s7.control, 0)])
  }

  function Move(i: nat): (a: Action) {
    match i case 0 => CALL case 2 => FAIL case 7 => CALL case _ => NEXT
  }

  lemma EarlyStep(maxProbes: nat, i: nat)
    requires i < 9
    ensures Step(Early(maxProbes, i), Move(i)) == Early(maxProbes, i + 1) && Fresh(Early(maxProbes, i + 1))
  {
    var b, b' := Step(Early(maxProbes, i), Move(i)), Early(maxProbes, i + 1);
    assert b.threads == b'.threads && b.permits == b'.permits && b.recording == b'.recording;
  }

  lemma {:induction false} EarlyReachable(maxProbes: nat, i: nat)
    requires i <= 9
    ensures Reachable(Early(maxProbes, i))
  {
    if i == 0 {
      assert Run([Initial(maxProbes)], [], maxProbes);
    } else {
      EarlyReachable(maxProbes, i - 1);
      EarlyStep(maxProbes, i - 1);
      hide Step, Fresh, Reachable, Early;
      ReachableStep(Early(maxProbes, i - 1), Move(i - 1));
    }
  }

  lemma FirstFlood(maxProbes: nat)
    ensures Reachable(Flooded(maxProbes, 1))
  {
    EarlyReachable(maxProbes, 9);
    assert Step(Early(maxProbes, 9), NEXT) == Flooded(maxProbes, 1) by {
      assert Step(Early(maxProbes, 9), NEXT).permits == Flooded(maxProbes, 1).permits;
      assert Step(Early(maxProbes, 9), NEXT).threads == map[];
    }
    assert Fresh(Flooded(maxProbes, 1));
    hide Step, Fresh, Reachable, Early, Flooded;
    ReachableStep(Early(maxProbes, 9), NEXT);
  }

  /** With a limit that does not fit the counter, the field does lose count: 2^16 probes read as none. */
  lemma WideLimitLosesCount(maxProbes: nat)
    requires maxProbes >= COUNTER
    ensures var b := Flooded(maxProbes, COUNTER);
      Reachable(b) && b.control.phase == HalfOpen && InflightOf(Pack(b.control)) == 0
          && |Probes(b.permits, b.control.generation)| == COUNTER
  {
    FirstFlood(maxProbes);
    FloodReachable(maxProbes, COUNTER);
    hide Reachable, Pack, Probes;
    FloodCount(maxProbes, COUNTER);
  }

  lemma FloodCount(maxProbes: nat, n: nat)
    ensures var b := Flooded(maxProbes, n);
      InflightOf(Pack(b.control)) == Cut(n) && |Probes(b.permits, b.control.generation)| == n
  {
    hide Range;
    var b := Flooded(maxProbes, n);
    UnpackPack(b.control);
    assert Probes(b.permits, 2) == Range(n);
  }

  function Range(n: nat): (r: set<nat>)
    ensures |r| == n && forall pid :: pid in r <==> 1 <= pid <= n
  {
    if n == 0 then {} else Range(n - 1) + {n}
  }

  // ---------------------------------------------------------------------------------------------
  // More successes than the field can count
  // ---------------------------------------------------------------------------------------------

  /** Half-open with one probe outstanding after `n` successes. */
  function Churned(n: nat): (b: Breaker) {
    Breaker(2, Control(HalfOpen, 2, 1, Cut(n)), 0, map[], map[n + 1 := ProbeOf(n)], {}, n + 2, n, [1])
  }

  function ProbeOf(n: nat): (permit: Control) {
    if n == 0 then Control(HalfOpen, 2, 1, 0) else Control(HalfOpen, 2, 2, Cut(n - 1))
  }

  /** A second probe starts before the first is recorded. */
  function Paired(n: nat): (b: Breaker) {
    Churned(n).(control := Control(HalfOpen, 2, 2, Cut(n)), nextPid := n + 3,
                permits := map[n + 1 := ProbeOf(n), n + 2 := ProbeOf(n + 1)])
  }

  function Praise(n: nat): (a: Action) { StartRecord(0, n + 1, Succeeded, 0) }

  lemma PairStep(n: nat)
    ensures Step(Step(Churned(n), CALL), NEXT) == Paired(n)
    ensures Fresh(Step(Churned(n), CALL)) && Fresh(Paired(n))
  {
    var b := Step(Step(Churned(n), CALL), NEXT);
    assert b.threads == map[] && b.permits == Paired(n).permits;
  }

  lemma SameWords(n: nat, word: Control)
    requires word.phase == HalfOpen && word.generation == 2
    ensures SameGenerationWord(word, ProbeOf(n))
  {
    hide Pack;
    UnpackPack(word);
    UnpackPack(ProbeOf(n));
  }

  /** The end of the probe with number `n + 1`, with the word unchanged since it was read. */
  lemma PraiseEnds(n: nat, b: Breaker)
    requires b.control.phase == HalfOpen && b.control.generation == 2 && b.threads == map[] && b.recording == {}
    requires n + 1 in b.permits && b.permits[n + 1] == ProbeOf(n)
    ensures var b' := Step(Step(b, Praise(n)), NEXT);
      var c, more := b.control, b.control.successes + 1;
      b' == b.(permits := b.permits - {n + 1}, good := b.good + 1,
               control := if c.inflight == 1 && more >= b.maxProbes then Control(Closed, 3, 0, 0)
                          else Control(HalfOpen, 2, if c.inflight == 0 then 0 else c.inflight - 1, Cut(more)))
  {
    hide SameGenerationWord, Pack;
    SameWords(n, b.control);
    var b1 := Step(b, Praise(n));
    assert b1 == b.(recording := {n + 1}, threads := map[0 := RecordLoaded(n + 1, b.control, true)]);
    assert Step(b1, NEXT).threads == map[] && Step(b1, NEXT).recording == {};
  }

  lemma PraiseStep(n: nat)
    ensures Step(Step(Paired(n), Praise(n)), NEXT) == Churned(n + 1)
    ensures Fresh(Step(Paired(n), Praise(n))) && Fresh(Churned(n + 1))
  {
    PraiseFresh(n);
    hide Step, Fresh;
    PraiseEnds(n, Paired(n));
    assert Paired(n).permits - {n + 1} == Churned(n + 1).permits;
    assert Cut(Cut(n) + 1) == Cut(n + 1);
  }

  lemma PraiseFresh(n: nat)
    ensures Fresh(Step(Paired(n), Praise(n))) && Fresh(Churned(n + 1))
  {
    var b := Step(Paired(n), Praise(n));
    assert b.threads == map[0 := RecordLoaded(n + 1, Paired(n).control, true)];
  }

  lemma {:induction false} ChurnReachable(n: nat)
    ensures Reachable(Churned(n))
  {
    hide Step, Fresh, Reachable, Churned, Paired, Praise, Flooded;
    if n == 0 {
      FirstFlood(2);
      FirstChurn();
    } else {
      ChurnReachable(n - 1);
      PairStep(n - 1);
      PraiseStep(n - 1);
      SameLimits(n - 1);
      ReachableStep(Churned(n - 1), CALL);
      ReachableStep(Step(Churned(n - 1), CALL), NEXT);
      ReachableStep(Paired(n - 1), Praise(n - 1));
      ReachableStep(Step(Paired(n - 1), Praise(n - 1)), NEXT);
    }
  }

  lemma FirstChurn()
    ensures Flooded(2, 1) == Churned(0)
  {
    assert Flooded(2, 1).permits == Churned(0).permits;
  }

  lemma SameLimits(n: nat)
    ensures Step(Churned(n), CALL).maxProbes == Churned(n).maxProbes == Paired(n).maxProbes == 2
    ensures Step(Paired(n), Praise(n)).maxProbes == Churned(n + 1).maxProbes == 2
  {
  }

  /** With a limit of 2, the last of 65537 successful probes leaves the breaker half-open. */
  lemma WrappedStaysHalfOpen()
    ensures Reachable(Churned(COUNTER))
    ensures var b := Step(Step(Churned(COUNTER), Praise(COUNTER)), NEXT);
      && Reachable(b) && b.maxProbes == 2 && b.good == COUNTER + 1
      && b.control.phase == HalfOpen && Probes(b.permits, b.control.generation) == {}
  {
    hide Step, Fresh, Reachable;
    ChurnReachable(COUNTER);
    LastFresh(COUNTER);
    PraiseEnds(COUNTER, Churned(COUNTER));
    KeepsLimit(Churned(COUNTER), Praise(COUNTER));
    ReachableStep(Churned(COUNTER), Praise(COUNTER));
    ReachableStep(Step(Churned(COUNTER), Praise(COUNTER)), NEXT);
  }

  lemma LastFresh(n: nat)
    ensures Fresh(Step(Churned(n), Praise(n))) && Fresh(Step(Step(Churned(n), Praise(n)), NEXT))
  {
    var b := Step(Churned(n), Praise(n));
    assert b.threads == map[0 := RecordLoaded(n + 1, Churned(n).control, true)];
    assert Fresh(b);
    hide Step;
    PraiseEnds(n, Churned(n));
    assert Step(b, NEXT).permits == map[] && Step(b, NEXT).threads == map[];
  }
}
