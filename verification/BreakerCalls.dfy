/** What a call to `Allow` or `Record` does from start to end when no other thread steps in between. */
module BreakerCalls {
  import opened Results
  import opened BreakerWords
  import opened CircuitBreakers

  /** `n` steps of thread `t`, with no spurious failure; `trip` says whether the failure window asks for opening. */
  ghost function Alone(b: Breaker, t: nat, trip: bool, interval: nat, n: nat): (b': Breaker)
    decreases n
  {
    if n == 0 then b else Alone(Step(b, Take(t, false, trip, interval)), t, trip, interval, n - 1)
  }

  lemma AloneOne(b: Breaker, t: nat, trip: bool, interval: nat, n: nat)
    requires n > 0
    ensures Alone(b, t, trip, interval, n) == Alone(Step(b, Take(t, false, trip, interval)), t, trip, interval, n - 1)
    ensures Alone(b, t, trip, interval, 0) == b
  {
  }

  lemma AloneTwo(b: Breaker, t: nat, trip: bool, interval: nat)
    ensures var a := Take(t, false, trip, interval); Alone(b, t, trip, interval, 2) == Step(Step(b, a), a)
    ensures var a := Take(t, false, trip, interval); Alone(b, t, trip, interval, 1) == Step(b, a)
  {
    hide Step;
    var a := Take(t, false, trip, interval);
    AloneOne(b, t, trip, interval, 2);
    AloneOne(Step(b, a), t, trip, interval, 1);
    AloneOne(b, t, trip, interval, 1);
  }

  // ---------------------------------------------------------------------------------------------
  // Allow
  // ---------------------------------------------------------------------------------------------

  /** The word a call is admitted with at time `now`; none if it is turned away. */
  ghost function Admission(b: Breaker, now: nat): (word: Option<Control>) {
    match b.control.phase
    case Closed => Some(b.control)
    case Open => if now < b.reopenAt then None else Some(Control(HalfOpen, b.control.generation + 1, 1, 0))
    case HalfOpen =>
      if b.control.inflight >= b.maxProbes then None
      else Some(Control(HalfOpen, b.control.generation, b.control.inflight + 1, b.control.successes))
    case Opening => None
  }

  /** The call has ended: the permit has been given and is in force, or nothing has changed. */
  ghost predicate Allowed(b: Breaker, b': Breaker, now: nat) {
    && b'.threads == b.threads && b'.recording == b.recording && b'.reopenAt == b.reopenAt
    && match Admission(b, now)
       case None => b'.control == b.control && b'.permits == b.permits
       case Some(word) => b'.control == word && b'.permits == b.permits[b.nextPid := word]
  }

  lemma AllowSteps(b: Breaker, t: nat, now: nat, trip: bool, interval: nat) returns (n: nat)
    requires Inv(b) && t !in b.threads && b.control.phase != Opening
    ensures Allowed(b, Alone(Step(b, StartAllow(t, now)), t, trip, interval, n), now)
  {
    hide Threads, Permits, Opened;
    var b0 := Step(b, StartAllow(t, now));
    assert b0 == Goto(b, t, AllowLoaded(b.control, now));
    AloneTwo(b0, t, trip, interval);
    assert b0.threads - {t} == b.threads;
    n := if b.control.phase == Open && now >= b.reopenAt then 2 else 1;
  }

  /**
   A call alone is admitted when the breaker is closed; when it is open and its time has come, as the first probe of the
   next generation; and when it is half-open with fewer probes out than the limit. Otherwise it is turned away.
   */
  lemma AllowAlone(b: Breaker, t: nat, now: nat, trip: bool, interval: nat)
    requires Inv(b) && t !in b.threads && b.control.phase != Opening
    ensures exists n :: Allowed(b, Alone(Step(b, StartAllow(t, now)), t, trip, interval, n), now)
  {
    hide Inv, Alone, Step, Allowed;
    var n := AllowSteps(b, t, now, trip, interval);
  }

  // ---------------------------------------------------------------------------------------------
  // Record
  // ---------------------------------------------------------------------------------------------

  /** The permit is of the generation the breaker is in. */
  ghost predicate Current(b: Breaker, permit: Control) {
    permit.phase == b.control.phase && permit.generation == b.control.generation
  }

  ghost function Reopened(b: Breaker): (word: Control) {
    Control(Open, b.control.generation + 1, 0, 0)
  }

  /** A permit of an earlier generation is forgotten; one of this generation opens, closes or counts. */
  ghost predicate Recorded(b: Breaker, b': Breaker, pid: nat, kind: Kind, now: nat, trip: bool, interval: nat)
    requires pid in b.permits
  {
    var p := b.permits[pid];
    var opens := Current(b, p) && if p.phase == HalfOpen then kind == Failed else trip;
    && b'.threads == b.threads && b'.recording == b.recording && b'.permits == b.permits - {pid}
    && b'.reopenAt == (if opens then now + interval else b.reopenAt)
    && if opens then b'.control == Reopened(b)
       else if Current(b, p) && p.phase == HalfOpen then
         var successes := b.control.successes + if kind == Succeeded then 1 else 0;
         if b.control.inflight == 1 && successes >= b.maxProbes then
           b'.control == Control(Closed, b.control.generation + 1, 0, 0)
         else
           && b.control.inflight > 0
           && b'.control == Control(HalfOpen, b.control.generation, b.control.inflight - 1, successes % 65536)
       else b'.control == b.control
  }

  ghost predicate Recordable(b: Breaker, t: nat, pid: nat) {
    Inv(b) && Fresh(b) && t !in b.threads && pid in b.permits && pid !in b.recording
  }

  lemma PermitFacts(b: Breaker, t: nat, pid: nat)
    requires Recordable(b, t, pid)
    ensures var p := b.permits[pid];
      && p.phase in {Closed, HalfOpen} && (SameGenerationWord(b.control, p) <==> b.control.generation == p.generation)
      && (Pack(b.control) == Pack(p) ==> b.control == p)
      && (Current(b, p) && p.phase == HalfOpen ==> b.control.inflight > 0)
  {
    var p := b.permits[pid];
    assert Held(b.control, p) && Recent(b.control, p);
    GenerationsCompare(b.control, b.control, p);
    if Pack(b.control) == Pack(p) { SwapsOnlyItself(b, p); }
    if Current(b, p) && p.phase == HalfOpen { assert pid in Probes(b.permits, b.control.generation); }
  }

  /** Once the word is seen unchanged, three steps open the breaker. */
  lemma OpenSteps(b: Breaker, t: nat, pid: nat, now: nat, trip: bool, interval: nat, expected: Control)
    requires t in b.threads && b.threads[t] == OpenTry(pid, expected, b.control, now)
    requires b.control.phase == expected.phase && SameGenerationWord(b.control, expected)
    ensures var b' := Alone(b, t, trip, interval, 3);
      && b'.threads == b.threads - {t} && b'.recording == b.recording - {pid} && b'.permits == b.permits - {pid}
      && b'.reopenAt == now + interval && b'.control == Reopened(b)
  {
    hide Alone;
    var a := Take(t, false, trip, interval);
    var b1 := Step(b, a);
    assert b1.threads[t] == OpeningTime(b.control.generation + 1, now);
    var b2 := Step(b1, a);
    AloneOne(b, t, trip, interval, 3);
    AloneTwo(b1, t, trip, interval);
    assert b.threads[t := b1.threads[t]][t := b2.threads[t]] - {t} == b.threads - {t};
  }

  lemma FailSteps(b: Breaker, t: nat, pid: nat, now: nat, trip: bool, interval: nat) returns (n: nat)
    requires Recordable(b, t, pid) && b.permits[pid].phase == HalfOpen
    ensures Recorded(b, Alone(Step(b, StartRecord(t, pid, Failed, now)), t, trip, interval, n), pid, Failed, now, trip,
                     interval)
  {
    PermitFacts(b, t, pid);
    hide Inv, Fresh, Alone, Pack;
    var p, b0 := b.permits[pid], Step(b, StartRecord(t, pid, Failed, now));
    assert b0 == Goto(b.(recording := b.recording + {pid}), t, OpenTry(pid, p, p, now));
    assert b0.threads - {t} == b.threads && b0.recording - {pid} == b.recording;
    AloneTwo(b0, t, trip, interval);
    if b.control == p {
      OpenSteps(b0, t, pid, now, trip, interval, p);
      n := 3;
    } else {
      var b1 := Step(b0, Take(t, false, trip, interval));
      assert b1 == Goto(b0, t, OpenTry(pid, p, b.control, now));
      assert b1.threads - {t} == b.threads;
      if Current(b, p) {
        AloneOne(b0, t, trip, interval, 4);
        OpenSteps(b1, t, pid, now, trip, interval, p);
        n := 4;
      } else {
        n := 2;
      }
    }
  }

  lemma ProbeSteps(b: Breaker, t: nat, pid: nat, kind: Kind, now: nat, trip: bool, interval: nat) returns (n: nat)
    requires Recordable(b, t, pid) && b.permits[pid].phase == HalfOpen && kind != Failed
    ensures Recorded(b, Alone(Step(b, StartRecord(t, pid, kind, now)), t, trip, interval, n), pid, kind, now, trip,
                     interval)
  {
    PermitFacts(b, t, pid);
    hide Inv, Fresh, Alone, Pack;
    var b0 := Step(b, StartRecord(t, pid, kind, now));
    assert b0 == Goto(b.(recording := b.recording + {pid}), t, RecordLoaded(pid, b.control, kind == Succeeded));
    assert b0.threads - {t} == b.threads && b0.recording - {pid} == b.recording;
    AloneTwo(b0, t, trip, interval);
    n := 1;
  }

  lemma TripSteps(b: Breaker, t: nat, pid: nat, kind: Kind, now: nat, trip: bool, interval: nat) returns (n: nat)
    requires Recordable(b, t, pid) && b.permits[pid].phase == Closed
    ensures Recorded(b, Alone(Step(b, StartRecord(t, pid, kind, now)), t, trip, interval, n), pid, kind, now, trip,
                     interval)
  {
    PermitFacts(b, t, pid);
    hide Inv, Fresh, Alone, Pack;
    var b0 := Step(b, StartRecord(t, pid, kind, now));
    assert b0 == Goto(b.(recording := b.recording + {pid}), t, TripLoaded(pid, b.control, now));
    assert b0.threads - {t} == b.threads && b0.recording - {pid} == b.recording;
    AloneTwo(b0, t, trip, interval);
    if Current(b, b.permits[pid]) && trip {
      var b1 := Step(b0, Take(t, false, trip, interval));
      assert b1 == Goto(b0, t, OpenTry(pid, b.control, b.control, now));
      assert b1.threads - {t} == b.threads;
      AloneOne(b0, t, trip, interval, 4);
      OpenSteps(b1, t, pid, now, trip, interval, b.control);
      n := 4;
    } else {
      n := 1;
    }
  }

  /**
   Recording alone: a failed probe of this generation opens the breaker again, as does the call on a closed breaker that
   trips the window; the last probe closes it if there are enough successes; any other probe gives up its place.
   */
  lemma RecordAlone(b: Breaker, t: nat, pid: nat, kind: Kind, now: nat, trip: bool, interval: nat)
    requires Recordable(b, t, pid)
    ensures exists n ::
      Recorded(b, Alone(Step(b, StartRecord(t, pid, kind, now)), t, trip, interval, n), pid, kind, now, trip, interval)
  {
    PermitFacts(b, t, pid);
    hide Inv, Fresh, Alone, Step, Recorded;
    if b.permits[pid].phase == Closed {
      var n := TripSteps(b, t, pid, kind, now, trip, interval);
    } else if kind == Failed {
      var n := FailSteps(b, t, pid, now, trip, interval);
    } else {
      var n := ProbeSteps(b, t, pid, kind, now, trip, interval);
    }
  }
}
