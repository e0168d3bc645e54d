/** When a timer comes out of a wheel of `n` slots, and the slot arithmetic behind it. */
module WheelTime {
  /** How many ticks ahead a timer is placed: clamped to what the wheel can hold, and never in the current slot. */
  function Offset(remaining: nat, n: nat): (r: nat)
    requires n > 0
    ensures 1 <= r <= n
    ensures remaining > 0 ==> r <= remaining
    ensures 0 < remaining <= n - 1 ==> r == remaining
  {
    var least := if remaining < n - 1 then remaining else n - 1;
    if 1 < least then least else 1
  }

  function Min(a: int, b: int): (m: int) { if a < b then a else b }

  function Max(a: int, b: int): (m: int) { if a < b then b else a }

  /** A deadline is met exactly within a turn less one tick, and no timer is placed further ahead than that. */
  lemma OffsetIs(remaining: nat, n: nat)
    requires n > 0 && remaining > 0
    ensures Offset(remaining, n) == Min(remaining, Max(1, n - 1))
  {
  }

  function SlotOf(slot: nat, ahead: nat, n: nat): (k: nat)
    requires n > 0
    ensures k < n
  {
    (slot + ahead) % n
  }

  lemma AtLeast(k: int, n: int)
    requires k >= 1 && n > 0
    ensures k * n >= n
  {
    assert k * n == (k - 1) * n + n;
  }

  lemma QuotientUnique(q: int, r: int, q': int, r': int, n: int)
    requires n > 0 && 0 <= r < n && 0 <= r' < n && q * n + r == q' * n + r'
    ensures q == q' && r == r'
  {
    assert (q - q') * n == r' - r;
    if q > q' {
      AtLeast(q - q', n);
    } else if q < q' {
      AtLeast(q' - q, n);
    }
  }

  lemma ModSame(a: int, b: int, q: int, n: int)
    requires n > 0 && a == b + q * n
    ensures a % n == b % n
  {
    var d, d' := a / n, b / n;
    assert a == d * n + a % n && b == d' * n + b % n;
    assert (d' + q) * n == d' * n + q * n;
    QuotientUnique(d, a % n, d' + q, b % n, n);
  }

  /** Two distances within one turn that land in the same slot are equal. */
  lemma SlotDistinguishes(slot: nat, a: nat, b: nat, n: nat)
    requires n > 0 && 1 <= a <= n && 1 <= b <= n && SlotOf(slot, a, n) == SlotOf(slot, b, n)
    ensures a == b
  {
    var d, d' := (slot + a) / n, (slot + b) / n;
    assert slot + a == d * n + SlotOf(slot, a, n) && slot + b == d' * n + SlotOf(slot, b, n);
    assert (d - d') * n == a - b;
    if d > d' {
      AtLeast(d - d', n);
    } else if d < d' {
      AtLeast(d' - d, n);
    }
  }

  /** Turning the wheel by `elapsed` ticks keeps every remaining timer in its slot. */
  lemma SlotTurns(slot: nat, ahead: nat, elapsed: nat, n: nat)
    requires n > 0 && elapsed <= ahead
    ensures SlotOf((slot + elapsed % n) % n, ahead - elapsed, n) == SlotOf(slot, ahead, n)
  {
    var q, e := elapsed / n, elapsed % n;
    var d, s := (slot + e) / n, (slot + e) % n;
    TurnedBack(slot, ahead, q, e, d, s, n);
    ModSame(slot + ahead, s + (ahead - (q * n + e)), q + d, n);
    assert elapsed == q * n + e;
  }

  lemma TurnedBack(slot: int, ahead: int, q: int, e: int, d: int, s: int, n: int)
    requires slot + e == d * n + s
    ensures slot + ahead == s + (ahead - (q * n + e)) + (q + d) * n
  {
    assert (q + d) * n == q * n + d * n;
  }
}

/** What the wheel promises, without slots: a clock on which alarms are set, cleared, and go off as time passes. */
module AlarmClocks {
  import opened Results
  import opened WheelTime

  /** An alarm goes off when the clock reaches `due`. */
  datatype Alarm = Alarm(deadline: nat, due: nat)

  datatype Clock<!K> = Clock(slots: nat, tick: nat, pending: map<K, Alarm>)

  datatype Op<K> = Arm(id: K, deadline: nat) | Disarm(id: K) | Pass(now: nat) | Ask

  datatype Answer<!K> = Accepted(ok: bool) | Done | WentOff(ids: set<K>) | Next(deadline: Option<nat>)

  function Clear<K(==)>(c: Clock<K>, id: K): (c': Clock<K>) {
    c.(pending := c.pending - {id})
  }

  /** A timer is taken out before its deadline changes, so a refused one is no longer pending. */
  function Rearm<K(==)>(c: Clock<K>, id: K, deadline: nat): (c': Clock<K>)
    requires c.slots > 0
  {
    if deadline <= c.tick then Clear(c, id)
    else c.(pending := c.pending[id := Alarm(deadline, c.tick + Offset(deadline - c.tick, c.slots))])
  }

  function Due<K(==)>(c: Clock<K>, now: nat): (ids: set<K>) {
    set id | id in c.pending && c.pending[id].due <= now
  }

  function Wait<K(==)>(c: Clock<K>, now: nat): (c': Clock<K>) {
    if now <= c.tick then c else c.(tick := now, pending := c.pending - Due(c, now))
  }

  ghost function Least(s: set<nat>): (m: Option<nat>)
    ensures m.None? <==> s == {}
    ensures m.Some? ==> m.value in s && forall x :: x in s ==> m.value <= x
  {
    if s == {} then None
    else
      var x :| x in s;
      var m := Least(s - {x});
      assert s == s - {x} + {x};
      if m.Some? && m.value <= x then m else Some(x)
  }

  ghost function Deadlines<K>(c: Clock<K>): (s: set<nat>) {
    set id | id in c.pending :: c.pending[id].deadline
  }

  ghost function Apply<K>(c: Clock<K>, op: Op<K>): (r: (Clock<K>, Answer<K>))
    requires c.slots > 0
    ensures r.0.slots == c.slots
  {
    match op
    case Arm(id, deadline) => (Rearm(c, id, deadline), Accepted(deadline > c.tick))
    case Disarm(id) => (Clear(c, id), Done)
    case Pass(now) => (Wait(c, now), WentOff(if now <= c.tick then {} else Due(c, now)))
    case Ask => (c, Next(Least(Deadlines(c))))
  }

  ghost function Run<K>(c: Clock<K>, ops: seq<Op<K>>): (r: (Clock<K>, seq<Answer<K>>))
    requires c.slots > 0
    ensures r.0.slots == c.slots && |r.1| == |ops|
  {
    if ops == [] then (c, [])
    else
      var (before, answers) := Run(c, ops[..|ops| - 1]);
      var (after, answer) := Apply(before, ops[|ops| - 1]);
      (after, answers + [answer])
  }

  /** Alarms are ahead, within one turn of the wheel, and not set for later than asked. */
  ghost predicate Sound<K>(c: Clock<K>) {
    && c.slots > 0
    && forall id :: id in c.pending ==>
         c.tick < c.pending[id].due <= c.pending[id].deadline && c.pending[id].due <= c.tick + c.slots
  }

  lemma {:induction false} RunSound<K>(slots: nat, start: nat, ops: seq<Op<K>>)
    requires slots > 0
    ensures Sound(Run(Clock(slots, start, map[]), ops).0)
  {
    if ops != [] {
      RunSound(slots, start, ops[..|ops| - 1]);
    }
  }

  // What a script of operations means, without clock and slots.

  /** The time that has been reached. */
  ghost function Reached<K>(start: nat, ops: seq<Op<K>>): (t: nat) {
    if ops == [] then start
    else
      var before, op := Reached(start, ops[..|ops| - 1]), ops[|ops| - 1];
      if op.Pass? then Max(before, op.now) else before
  }

  /** When an alarm was set, and for when. */
  datatype Setting = Setting(at: nat, deadline: nat)

  /** When it goes off: at its deadline, or one turn less one tick after it was set if that is sooner. */
  ghost function GoesOff(set_: Setting, slots: nat): (t: int) {
    Min(set_.deadline, set_.at + Max(1, slots - 1))
  }

  /** The last setting of `id`, unless it was refused, has been cleared or has gone off. */
  ghost function LastSet<K>(slots: nat, start: nat, ops: seq<Op<K>>, id: K): (r: Option<Setting>) {
    if ops == [] then None
    else
      var init := ops[..|ops| - 1];
      var now, before := Reached(start, init), LastSet(slots, start, init, id);
      match ops[|ops| - 1]
      case Arm(x, deadline) =>
        if x != id then before else if deadline > now then Some(Setting(now, deadline)) else None
      case Disarm(x) => if x == id then None else before
      case Pass(later) => if before.Some? && GoesOff(before.value, slots) <= later then None else before
      case Ask => before
  }

  /** In every run an alarm is pending exactly if it has been set and has not gone off, and goes off when it should. */
  lemma {:induction false} DueExactly<K>(slots: nat, start: nat, ops: seq<Op<K>>, id: K)
    requires slots > 0
    ensures var c, last := Run(Clock(slots, start, map[]), ops).0, LastSet(slots, start, ops, id);
      && c.tick == Reached(start, ops) && (id in c.pending <==> last.Some?)
      && (last.Some? ==> last.value.at < last.value.deadline)
      && (last.Some? ==> c.pending[id] == Alarm(last.value.deadline,
                                                Min(last.value.deadline, last.value.at + Max(1, slots - 1))))
  {
    if ops != [] {
      hide Offset;
      var init := ops[..|ops| - 1];
      DueExactly(slots, start, init, id);
      RunSound(slots, start, init);
      var before := Run(Clock(slots, start, map[]), init).0;
      match ops[|ops| - 1]
      case Arm(x, deadline) =>
        if x == id && deadline > before.tick {
          OffsetIs(deadline - before.tick, slots);
        }
      case _ =>
    }
  }

  /** What each operation answers: an alarm ahead of the time is accepted, and time gives out exactly what goes off. */
  lemma AnswersExactly<K(!new)>(slots: nat, start: nat, ops: seq<Op<K>>, op: Op<K>)
    requires slots > 0
    ensures var answer := Run(Clock(slots, start, map[]), ops + [op]).1[|ops|];
      match op
      case Arm(_, deadline) => answer == Accepted(deadline > Reached(start, ops))
      case Disarm(_) => answer == Done
      case Pass(now) => answer.WentOff? && GivesOut(slots, start, ops, now, answer.ids)
      case Ask => answer.Next? && NamesLeast(Run(Clock(slots, start, map[]), ops).0, answer.deadline)
  {
    hide Offset, Run, Least, Deadlines, NamesLeast, GivesOut;
    var c := Clock(slots, start, map[]);
    LastAnswer(c, ops, op);
    match op
    case Arm(id, _) => DueExactly(slots, start, ops, id);
    case Disarm(_) =>
    case Pass(now) => GivenOut(slots, start, ops, now);
    case Ask => AskedExactly(slots, start, ops);
  }

  ghost predicate GivesOut<K(!new)>(slots: nat, start: nat, ops: seq<Op<K>>, now: nat, ids: set<K>) {
    forall id ::
      id in ids <==>
        LastSet(slots, start, ops, id).Some? && GoesOff(LastSet(slots, start, ops, id).value, slots) <= now
  }

  lemma GivenOut<K(!new)>(slots: nat, start: nat, ops: seq<Op<K>>, now: nat)
    requires slots > 0
    ensures var c := Run(Clock(slots, start, map[]), ops).0;
      GivesOut(slots, start, ops, now, if now <= c.tick then {} else Due(c, now))
  {
    hide Run;
    RunSound(slots, start, ops);
    forall id { DueExactly(slots, start, ops, id); }
  }

  lemma LastAnswer<K>(c: Clock<K>, ops: seq<Op<K>>, op: Op<K>)
    requires c.slots > 0
    ensures Run(c, ops + [op]).1[|ops|] == Apply(Run(c, ops).0, op).1
  {
    hide Apply;
    assert (ops + [op])[..|ops|] == ops;
  }

  /** Asked for the next deadline, the clock names the least one pending, and none exactly if nothing is pending. */
  lemma AskedExactly<K>(slots: nat, start: nat, ops: seq<Op<K>>)
    requires slots > 0
    ensures var answer := Run(Clock(slots, start, map[]), ops + [Ask]).1[|ops|];
      answer.Next? && NamesLeast(Run(Clock(slots, start, map[]), ops).0, answer.deadline)
  {
    hide Sound, Least, Deadlines, NamesLeast, Run;
    Asked(Clock(slots, start, map[]), ops);
    RunSound(slots, start, ops);
    LeastPending(Run(Clock(slots, start, map[]), ops).0);
  }

  lemma Asked<K>(c: Clock<K>, ops: seq<Op<K>>)
    requires c.slots > 0
    ensures |Run(c, ops + [Ask]).1| == |ops| + 1
    ensures Run(c, ops + [Ask]).1[|ops|] == Next(Least(Deadlines(Run(c, ops).0)))
  {
    hide Least, Deadlines, Due, Wait, Rearm;
    assert (ops + [Ask])[..|ops|] == ops;
  }

  ghost predicate NamesLeast<K>(c: Clock<K>, d: Option<nat>) {
    && (d.None? <==> c.pending == map[])
    && (d.Some? ==> d.value > c.tick && exists id :: id in c.pending && c.pending[id].deadline == d.value)
    && (d.Some? ==> forall id :: id in c.pending ==> d.value <= c.pending[id].deadline)
  }

  lemma LeastPending<K>(c: Clock<K>)
    requires Sound(c)
    ensures NamesLeast(c, Least(Deadlines(c)))
  {
    hide Least;
    var d := Least(Deadlines(c));
    forall id | id in c.pending ensures c.pending[id].deadline in Deadlines(c) { }
    if d.Some? {
      var id :| id in c.pending && c.pending[id].deadline == d.value;
    }
  }

  /** Never late: once the clock has passed `now`, whatever is still pending has its deadline after `now`. */
  lemma NeverLate<K>(slots: nat, start: nat, ops: seq<Op<K>>, now: nat, id: K)
    requires slots > 0
    ensures var c := Run(Clock(slots, start, map[]), ops + [Pass(now)]).0;
      id in c.pending ==> c.pending[id].deadline > now
  {
    var ops' := ops + [Pass(now)];
    assert ops'[..|ops'| - 1] == ops;
    RunSound(slots, start, ops);
  }

  /** Never early: an alarm armed less than a turn ahead goes off at its deadline or after, never before. */
  lemma NeverEarly<K>(slots: nat, start: nat, ops: seq<Op<K>>, now: nat, id: K)
    requires slots > 0
    requires var c := Run(Clock(slots, start, map[]), ops).0; now > c.tick && id in Due(c, now)
    ensures var last := LastSet(slots, start, ops, id);
      last.Some? && (last.value.deadline - last.value.at <= slots - 1 ==> last.value.deadline <= now)
  {
    DueExactly(slots, start, ops, id);
  }
}

/** The hashed timer wheel with its deadline heap. */
module TimerWheels {
  import opened Results
  import opened Sequences
  import opened TimerLists
  import opened DeadlineHeaps
  import opened WheelTime

  ghost function RowsOf(lists: seq<TimerList>): (rows: seq<seq<TimerNode>>)
    reads lists`contents
    ensures |rows| == |lists| && forall k :: 0 <= k < |lists| ==> rows[k] == lists[k].contents
  {
    if lists == [] then [] else [lists[0].contents] + RowsOf(lists[1..])
  }

  /** Each scheduled node is in the slot of the tick it is due at, which is still ahead and within one turn. */
  ghost predicate Timed(rows: seq<seq<TimerNode>>, due: map<TimerNode, nat>, tick: nat, slot: nat) {
    0 < |rows| && forall n :: n in due ==>
        && tick < due[n] <= tick + |rows|
        && n in rows[SlotOf(slot, due[n] - tick, |rows|)]
  }

  lemma TimedRemoved(rows: seq<seq<TimerNode>>, rows': seq<seq<TimerNode>>, due: map<TimerNode, nat>, tick: nat,
      slot: nat, node: TimerNode)
    requires Timed(rows, due, tick, slot) && |rows'| == |rows|
    requires forall k :: 0 <= k < |rows| ==> Removed(rows'[k], rows[k], node)
    ensures Timed(rows', due - {node}, tick, slot)
  {
  }

  lemma TimedAdded(rows: seq<seq<TimerNode>>, due: map<TimerNode, nat>, tick: nat, slot: nat, node: TimerNode,
      ahead: nat)
    requires Timed(rows, due, tick, slot) && 1 <= ahead <= |rows|
    ensures var k := SlotOf(slot, ahead, |rows|);
      Timed(rows[k := rows[k] + [node]], due[node := tick + ahead], tick, slot)
  {
  }

  /** Off the count and out of the heap. */
  ghost predicate Released(s: set<TimerNode>)
    reads s`heapIndex, s`scheduled
  {
    forall n :: n in s ==> n.heapIndex == None && !n.scheduled
  }

  lemma ReleasedTogether(s: set<TimerNode>, r: set<TimerNode>, all: set<TimerNode>)
    requires Released(s) && Released(r) && all == s + r
    ensures Released(all)
  {
  }

  /** Every node is in one row only, and only nodes of `s` are in rows. */
  ghost predicate Partition(rows: seq<seq<TimerNode>>, s: set<TimerNode>) {
    && (forall k, n :: 0 <= k < |rows| && n in rows[k] ==> n in s)
    && (forall j, k, n :: 0 <= j < |rows| && 0 <= k < |rows| && n in rows[j] && n in rows[k] ==> j == k)
  }

  /** The rows of the next `steps` slots, in turn. */
  ghost function Drained(rows: seq<seq<TimerNode>>, slot: nat, steps: nat): (r: seq<TimerNode>)
    requires |rows| > 0
  {
    if steps == 0 then [] else Drained(rows, slot, steps - 1) + rows[SlotOf(slot, steps, |rows|)]
  }

  /** The rows once the next `steps` slots have been emptied. */
  ghost function Emptied(rows: seq<seq<TimerNode>>, slot: nat, steps: nat): (r: seq<seq<TimerNode>>)
    requires |rows| > 0
    ensures |r| == |rows|
  {
    if steps == 0 then rows else Emptied(rows, slot, steps - 1)[SlotOf(slot, steps, |rows|) := []]
  }

  /** The timers due after `now`. */
  ghost function After(due: map<TimerNode, nat>, now: nat): (r: map<TimerNode, nat>) {
    map n | n in due && due[n] > now :: due[n]
  }

  lemma AfterWithin(due: map<TimerNode, nat>, now: nat)
    ensures forall n :: n in After(due, now) ==> n in due && After(due, now)[n] == due[n] > now
  {
  }

  /** A slot holds exactly the timers due at the tick it comes up. */
  lemma RowIsDue(rows: seq<seq<TimerNode>>, due: map<TimerNode, nat>, tick: nat, slot: nat, step: nat, n: TimerNode)
    requires Timed(rows, due, tick, slot) && Partition(rows, due.Keys) && 1 <= step <= |rows|
    ensures n in rows[SlotOf(slot, step, |rows|)] <==> n in due && due[n] == tick + step
  {
    if n in rows[SlotOf(slot, step, |rows|)] {
      assert n in due.Keys;
      SlotDistinguishes(slot, step, due[n] - tick, |rows|);
    }
  }

  lemma {:induction false} EmptiedKeeps(rows: seq<seq<TimerNode>>, slot: nat, steps: nat, step: nat)
    requires steps < step <= |rows|
    ensures Emptied(rows, slot, steps)[SlotOf(slot, step, |rows|)] == rows[SlotOf(slot, step, |rows|)]
    decreases steps
  {
    if steps > 0 {
      EmptiedKeeps(rows, slot, steps - 1, step);
      if SlotOf(slot, steps, |rows|) == SlotOf(slot, step, |rows|) {
        SlotDistinguishes(slot, steps, step, |rows|);
      }
    }
  }

  /** What `Advance` takes out is exactly what is due by then. */
  lemma {:induction false} DrainedIsDue(rows: seq<seq<TimerNode>>, due: map<TimerNode, nat>, tick: nat, slot: nat,
      steps: nat, n: TimerNode)
    requires Timed(rows, due, tick, slot) && Partition(rows, due.Keys) && steps <= |rows|
    ensures n in Drained(rows, slot, steps) <==> n in due && due[n] <= tick + steps
    decreases steps
  {
    if steps > 0 {
      hide Timed, Partition;
      DrainedIsDue(rows, due, tick, slot, steps - 1, n);
      RowIsDue(rows, due, tick, slot, steps, n);
    } else {
      assert n in due ==> due[n] > tick;
    }
  }

  /** `Advance` takes timers out in the order they are due. */
  lemma {:induction false} DrainedInOrder(rows: seq<seq<TimerNode>>, due: map<TimerNode, nat>, tick: nat, slot: nat,
      steps: nat, i: nat, j: nat)
    requires Timed(rows, due, tick, slot) && Partition(rows, due.Keys) && steps <= |rows|
    requires i < j < |Drained(rows, slot, steps)|
    ensures Drained(rows, slot, steps)[i] in due && Drained(rows, slot, steps)[j] in due
    ensures due[Drained(rows, slot, steps)[i]] <= due[Drained(rows, slot, steps)[j]]
    decreases steps
  {
    hide Timed, Partition;
    var d := Drained(rows, slot, steps);
    if steps > 0 {
      var d' := Drained(rows, slot, steps - 1);
      DrainedIsDue(rows, due, tick, slot, steps, d[i]);
      DrainedIsDue(rows, due, tick, slot, steps, d[j]);
      if j < |d'| {
        DrainedInOrder(rows, due, tick, slot, steps - 1, i, j);
      } else {
        assert d[j] == rows[SlotOf(slot, steps, |rows|)][j - |d'|];
        RowIsDue(rows, due, tick, slot, steps, d[j]);
      }
    }
  }

  /** Emptying the slot of one tick takes out exactly the timers due then. */
  lemma TimedDrained(rows: seq<seq<TimerNode>>, due: map<TimerNode, nat>, tick: nat, slot: nat, step: nat)
    requires Timed(rows, due, tick, slot) && Partition(rows, due.Keys) && 1 <= step <= |rows|
    requires forall n :: n in due ==> due[n] >= tick + step
    ensures var k := SlotOf(slot, step, |rows|);
      && Timed(rows[k := []], After(due, tick + step), tick, slot)
      && After(due, tick + step).Keys == due.Keys - Elements(rows[k])
  {
    var k := SlotOf(slot, step, |rows|);
    forall n | n in due ensures n in rows[k] <==> due[n] == tick + step {
      RowIsDue(rows, due, tick, slot, step, n);
    }
  }

  /** Turning the wheel once everything due has been taken out. */
  lemma TimedTurned(rows: seq<seq<TimerNode>>, due: map<TimerNode, nat>, tick: nat, slot: nat, now: nat)
    requires Timed(rows, due, tick, slot) && now >= tick && slot < |rows|
    requires forall n :: n in due ==> due[n] > now
    ensures Timed(rows, due, now, (slot + (now - tick) % |rows|) % |rows|)
  {
    forall n | n in due
      ensures n in rows[SlotOf((slot + (now - tick) % |rows|) % |rows|, due[n] - now, |rows|)]
    {
      SlotTurns(slot, due[n] - tick, now - tick, |rows|);
    }
  }

  class TimerWheel {
    const slots: seq<TimerList>
    const heap: DeadlineHeap
    var tick: nat
    var slot: nat
    var size: nat
    /** For each scheduled node, the tick at which its slot comes up. */
    ghost var due: map<TimerNode, nat>

    /** The slot lists are well formed, separate, and hold nodes of `s` only. */
    ghost predicate Lists(s: set<TimerNode>)
      reads slots, s`previous, s`next, s`list
    {
      && NoDup(slots)
      && (forall k, n :: 0 <= k < |slots| && n in slots[k].contents ==> n in s)
      && (forall k :: 0 <= k < |slots| ==> slots[k].Valid())
    }

    /** The heap holds exactly the nodes of `s`, and `size` is their number. */
    ghost predicate Heaped(s: set<TimerNode>)
      reads this`size, heap, s`heapIndex, s`deadline, s`scheduled
    {
      && (forall n :: n in heap.nodes ==> n in s)
      && (forall n :: n in s ==> n in heap.nodes && n.scheduled)
      && heap.Valid() && size == |heap.nodes|
    }

    /** The same, but for the heap order of `node`. */
    ghost predicate HeapedBut(s: set<TimerNode>, node: TimerNode)
      reads this`size, heap, s`heapIndex, s`deadline, s`scheduled
    {
      && (forall n :: n in heap.nodes ==> n in s)
      && (forall n :: n in s ==> n in heap.nodes && n.scheduled)
      && heap.ValidBut(node) && size == |heap.nodes|
    }

    ghost predicate Valid()
      reads this, slots, heap, due.Keys
    {
      && slot < |slots| && Lists(due.Keys) && Heaped(due.Keys)
      && Timed(RowsOf(slots), due, tick, slot)
      && forall n :: n in due ==> due[n] <= n.deadline
    }

    /** In order but for `node`, whose deadline may have been changed while it was scheduled. */
    ghost predicate ValidBut(node: TimerNode)
      reads this, slots, heap, due.Keys
    {
      && slot < |slots| && Lists(due.Keys) && HeapedBut(due.Keys, node)
      && Timed(RowsOf(slots), due, tick, slot)
      && forall n :: n in due && n != node ==> due[n] <= n.deadline
    }

    lemma ValidIsValidBut(node: TimerNode)
      requires Valid()
      ensures ValidBut(node)
    {
      hide RowsOf, Timed, Lists, DeadlineHeap.Valid, DeadlineHeap.ValidBut;
      heap.ValidIsValidBut(node);
    }

    /** Setting a node's deadline, scheduled or not, is all a caller does before adding it. */
    method SetDeadline(node: TimerNode, deadline: nat)
      requires ValidBut(node)
      modifies node`deadline
      ensures ValidBut(node) && node.deadline == deadline && (old(Accepts(node)) ==> Accepts(node))
    {
      hide RowsOf, Timed, Lists, KeysOf, HeapOff, IsHeap;
      ghost var keys := KeysOf(heap.nodes);
      node.deadline := deadline;
      forall i | 0 <= i < |heap.nodes| && heap.nodes[i] == node ensures HeapOff(KeysOf(heap.nodes), i) {
        Rekeyed(keys, KeysOf(heap.nodes), i);
      }
      assert node !in heap.nodes ==> KeysOf(heap.nodes) == keys;
    }

    /**
     What a refused deadline leaves behind if the node was scheduled: the heap is in order, and its first deadline the
     earliest, exactly if the node is its first; and the node itself comes out only after its deadline.
     */
    lemma RefusedMisKeys(node: TimerNode)
      requires ValidBut(node) && node in due && node.deadline <= tick
      ensures heap.Valid() <==> node.heapIndex == Some(0)
      ensures heap.nodes != [] && (heap.Least(heap.nodes[0].deadline) <==> node.heapIndex == Some(0))
      ensures due[node] > node.deadline && !Valid()
    {
      hide RowsOf, Lists, KeysOf, HeapOff, IsHeap;
      var i :| 0 <= i < |heap.nodes| && heap.nodes[i] == node;
      var k := KeysOf(heap.nodes);
      forall j | 0 <= j < |k| && j != i ensures Before(k[i], k[j]) {
        assert heap.nodes[j] != node && heap.nodes[j] in due && due[heap.nodes[j]] > tick;
      }
      LeastBelongsFirst(k, i);
    }

    /** A node in no list can be handed over. */
    lemma Takes(node: TimerNode)
      requires Valid() && node.list == null && node.heapIndex == None && !node.scheduled && node !in due
      ensures Accepts(node) && ValidBut(node) && ListOf(node) == {} && Neighbours(node) == {}
    {
      hide RowsOf, Timed;
      ValidIsValidBut(node);
      Acceptable(node);
    }

    lemma Inside(node: TimerNode)
      requires Valid() && node in due
      ensures Accepts(node) && ListOf(node) <= Elements(slots) && Neighbours(node) <= due.Keys
    {
      hide RowsOf, Heaped;
      Acceptable(node);
    }

    lemma SecondOfTwo(first: TimerNode, second: TimerNode)
      requires Valid() && due.Keys == {first, second} && first.deadline < second.deadline
      ensures ValidBut(second) && |heap.nodes| > 0 && heap.nodes[0] == first && second.heapIndex.Some?
      ensures second.heapIndex != Some(0)
    {
      hide RowsOf, Timed, Lists, KeysOf;
      ValidIsValidBut(second);
      var i :| 0 <= i < |heap.nodes| && heap.nodes[i] == first;
      FirstIsLeast(KeysOf(heap.nodes), i);
      assert heap.nodes[0] in due;
    }

    constructor (slotCount: nat, start: nat)
      requires slotCount > 0
      ensures Valid() && |slots| == slotCount && tick == start && due == map[] && size == 0
      ensures fresh(slots) && fresh(heap)
    {
      var lists: seq<TimerList> := [];
      while |lists| < slotCount
        invariant |lists| <= slotCount && fresh(lists) && NoDup(lists)
        invariant forall k :: 0 <= k < |lists| ==> lists[k].Valid() && lists[k].contents == []
      {
        var list := new TimerList();
        lists := lists + [list];
      }
      var h := new DeadlineHeap();
      slots, heap := lists, h;
      tick, slot, size, due := start, 0, 0, map[];
    }

    /** What the wheel expects of a node handed to it: its links and its heap position are what they claim to be. */
    ghost predicate Accepts(node: TimerNode)
      reads this, heap, slots, node, node.list, Neighbours(node)
    {
      && heap.Knows(node)
      && (node.list != null ==> node.list.Valid() && node in node.list.contents)
      && (node in due <==> node.list in slots)
      && (node !in due ==> !node.scheduled)
    }

    ghost function ListOf(node: TimerNode): (s: set<TimerList>)
      reads node`list
    {
      if node.list == null then {} else {node.list}
    }

    ghost function Neighbours(node: TimerNode): (s: set<TimerNode>)
      reads node`list, node.list
    {
      if node.list == null then {} else set n | n in node.list.contents
    }

    /** Takes the node out of the heap and off the count. */
    method Unschedule(node: TimerNode, ghost s: set<TimerNode>)
      requires HeapedBut(s, node) && heap.Knows(node) && (node !in s ==> !node.scheduled)
      modifies this`size, heap, s`heapIndex, node`heapIndex, node`scheduled
      ensures Heaped(s - {node})
      ensures node.heapIndex == None && !node.scheduled
    {
      hide DeadlineHeap.Valid, DeadlineHeap.ValidBut, DeadlineHeap.Knows;
      assert node in s <==> node in heap.nodes;
      var wasScheduled := node.scheduled;
      heap.Remove(node, s + {node});
      node.scheduled := false;
      if wasScheduled && size != 0 { size := size - 1; }
    }

    lemma NotHeaped(node: TimerNode, s: set<TimerNode>)
      requires HeapedBut(s, node) && heap.Knows(node) && node !in s
      ensures node.heapIndex == None && Heaped(s)
    {
    }

    lemma Member(list: TimerList, n: TimerNode)
      requires list.Valid() && n in list.contents
      ensures n.list == list
    {
      var i :| 0 <= i < |list.contents| && list.contents[i] == n;
      assert list.Link(i);
    }

    /** Unlinks the node from whichever list it is in. */
    method Unlink(node: TimerNode, ghost s: set<TimerNode>)
      requires Lists(s) && node.list != null && node.list.Valid() && node in node.list.contents
      modifies node.list, Neighbours(node)`previous, Neighbours(node)`next, node`previous, node`next, node`list
      ensures Lists(s - {node}) && node.list == null && old(node.list).Valid()
      ensures forall k :: 0 <= k < |slots| ==> Removed(RowsOf(slots)[k], old(RowsOf(slots))[k], node)
      ensures Removed(old(node.list).contents, old(node.list.contents), node)
    {
      Apart(node, s);
      ghost var list := node.list;
      node.list.Remove(node);
      forall k | 0 <= k < |slots| ensures slots[k].Valid() {
        if slots[k] != list {
          forall i | 0 <= i < |slots[k].contents| ensures slots[k].Link(i) {
            assert old(slots[k].Link(i));
            assert slots[k].contents[i] in slots[k].contents && slots[k].contents[i] !in old(list.contents);
          }
        }
      }
    }

    /** A node of one list is in no other. */
    lemma Apart(node: TimerNode, s: set<TimerNode>)
      requires Lists(s) && node.list != null && node.list.Valid() && node in node.list.contents
      ensures forall k :: 0 <= k < |slots| && slots[k] != node.list ==>
        node !in slots[k].contents && forall n :: n in slots[k].contents ==> n !in node.list.contents
    {
      forall k | 0 <= k < |slots| && slots[k] != node.list
        ensures node !in slots[k].contents && forall n :: n in slots[k].contents ==> n !in node.list.contents
      {
        forall n | n in slots[k].contents ensures n.list == slots[k] { Member(slots[k], n); }
        forall n | n in node.list.contents ensures n.list == node.list { Member(node.list, n); }
      }
    }

    method Remove(node: TimerNode)
      requires ValidBut(node) && Accepts(node)
      modifies this`size, this`due, heap, due.Keys`heapIndex
      modifies node`heapIndex, node`scheduled, node`previous, node`next, node`list
      modifies ListOf(node), Neighbours(node)`previous, Neighbours(node)`next
      ensures Valid() && due == old(due) - {node}
      ensures node.list == null && !node.scheduled && node.heapIndex == None
      ensures old(node.list) != null ==>
        old(node.list).Valid() && Removed(old(node.list).contents, old(node.list.contents), node)
    {
      hide RowsOf, Timed, Lists, Heaped, HeapedBut, Removed, TimerList.Valid;
      if node.list == null {
        NotHeaped(node, due.Keys);
        assert due - {node} == due;
        return;
      }
      ghost var rows, left := RowsOf(slots), due.Keys - {node};
      Unschedule(node, due.Keys);
      assert Lists(due.Keys) && RowsOf(slots) == rows && node.list == old(node.list) && node.list.Valid();
      Unlink(node, due.Keys);
      assert Heaped(left);
      TimedRemoved(rows, RowsOf(slots), due, tick, slot, node);
      due := due - {node};
      assert due.Keys == left;
    }

    /** Links an unlinked node at the end of slot `k`. */
    method Place(k: nat, node: TimerNode, ghost s: set<TimerNode>)
      requires Lists(s) && k < |slots| && node.list == null
      modifies slots[k], s`next, node`previous, node`next, node`list
      ensures Lists(s + {node})
      ensures RowsOf(slots) == old(RowsOf(slots))[k := old(RowsOf(slots))[k] + [node]]
    {
      hide RowsOf;
      forall j, n | 0 <= j < |slots| && n in slots[j].contents ensures n.list == slots[j] {
        Member(slots[j], n);
      }
      var ok := slots[k].PushBack(node);
      forall j | 0 <= j < |slots| ensures slots[j].Valid() {
        if j != k {
          forall i | 0 <= i < |slots[j].contents| ensures slots[j].Link(i) {
            assert old(slots[j].Link(i));
            assert slots[j].contents[i] in slots[j].contents && slots[j].contents[i] !in old(slots[k].contents);
          }
        }
      }
    }

    /** Puts the node in the heap and on the count. */
    method Schedule(node: TimerNode, ghost s: set<TimerNode>)
      requires Heaped(s) && node !in s && node.heapIndex == None
      modifies this`size, heap, s`heapIndex, node`heapIndex, node`scheduled
      ensures Heaped(s + {node})
    {
      node.scheduled := true;
      var ok := heap.Insert(node, s + {node});
      size := size + 1;
    }

    /** Schedules a node that is in no list. */
    method Enter(node: TimerNode)
      requires Valid() && node.list == null && node !in due && node.heapIndex == None && node.deadline > tick
      modifies this`size, this`due, heap, slots, due.Keys`heapIndex, due.Keys`next
      modifies node`heapIndex, node`scheduled, node`previous, node`next, node`list
      ensures Valid()
      ensures due == old(due)[node := tick + Offset(node.deadline - tick, |slots|)]
    {
      hide RowsOf, Timed, Lists, Heaped, Offset, SlotOf;
      var remaining := node.deadline - tick;
      var offset := Offset(remaining, |slots|);
      ghost var rows, more := RowsOf(slots), due.Keys + {node};
      Place(SlotOf(slot, offset, |slots|), node, due.Keys);
      assert Heaped(due.Keys) && node.heapIndex == None;
      ghost var placed := RowsOf(slots);
      Schedule(node, due.Keys);
      assert Lists(more) && RowsOf(slots) == placed;
      TimedAdded(rows, due, tick, slot, node, offset);
      due := due[node := tick + offset];
      assert due.Keys == more;
    }

    /**
     Schedules the node, anew if it was scheduled, also if its deadline has been changed meanwhile. Refuses a deadline
     that the last processed tick has reached, and then leaves everything as it is: see `RefusedMisKeys` for a
     scheduled node.
     */
    method Add(node: TimerNode) returns (ok: bool)
      requires ValidBut(node) && Accepts(node)
      modifies this`size, this`due, heap, slots, due.Keys`heapIndex, due.Keys`next
      modifies node`heapIndex, node`scheduled, node`previous, node`next, node`list
      modifies ListOf(node), Neighbours(node)`previous, Neighbours(node)`next
      ensures ok <==> node.deadline > tick
      ensures ok ==> Valid() && due == old(due)[node := Min(node.deadline, tick + Max(1, |slots| - 1))]
      ensures !ok ==> ValidBut(node) && unchanged(this) && unchanged(heap) && unchanged(node)
      ensures !ok ==> (forall k :: 0 <= k < |slots| ==> unchanged(slots[k])) && (forall n :: n in due ==> unchanged(n))
      ensures !ok && (old(Valid()) || node !in due) ==> Valid()
    {
      hide Valid, ValidBut, Accepts, Offset, Removed;
      if node.deadline <= tick {
        if node !in due { Unscheduled(node); }
        return false;
      }
      Remove(node);
      assert |slots| > 0 by { HasSlots(); }
      ghost var ahead := tick + Offset(node.deadline - tick, |slots|);
      OffsetIs(node.deadline - tick, |slots|);
      assert (old(due) - {node})[node := ahead] == old(due)[node := ahead];
      Enter(node);
      return true;
    }

    /** A caller's change of a deadline and the addition after it, for a node among `region`. */
    method Reschedule(node: TimerNode, deadline: nat, ghost region: set<TimerNode>)
      requires ValidBut(node) && Accepts(node) && deadline > tick
      requires node in region && due.Keys <= region && ListOf(node) <= Elements(slots) && Neighbours(node) <= due.Keys
      modifies this`size, this`due, heap, slots, region
      ensures |slots| > 0 && Valid() && due == old(due)[node := Min(deadline, tick + Max(1, |slots| - 1))]
      ensures forall n :: n in region && n !in old(due) && n != node ==> unchanged(n)
      ensures forall n :: n in region ==> n.deadline == if n == node then deadline else old(n.deadline)
    {
      hide Valid, ValidBut, Removed, Offset, TimerList.Valid, RowsOf, DeadlineHeap.Knows;
      SetDeadline(node, deadline);
      var ok := Add(node);
      HasSlots();
    }

    /** The same for a node that is not scheduled and a deadline that is refused: nothing else changes. */
    method Attempt(node: TimerNode, deadline: nat)
      requires ValidBut(node) && Accepts(node) && deadline <= tick && node !in due && node.list == null
      modifies this`size, this`due, heap, slots, due.Keys`heapIndex, due.Keys`next, node
      ensures Valid() && unchanged(this) && unchanged(heap) && node.deadline == deadline
      ensures node.list == null && node.heapIndex == old(node.heapIndex) && node.scheduled == old(node.scheduled)
      ensures forall k :: 0 <= k < |slots| ==> unchanged(slots[k])
      ensures forall n :: n in due ==> unchanged(n)
    {
      hide Valid, ValidBut, Removed, Offset, TimerList.Valid, RowsOf, DeadlineHeap.Knows;
      SetDeadline(node, deadline);
      var ok := Add(node);
    }

    /** A node that is not scheduled cannot be out of order. */
    lemma Unscheduled(node: TimerNode)
      requires ValidBut(node) && node !in due
      ensures Valid()
    {
    }

    lemma HasSlots()
      requires Valid()
      ensures |slots| > 0
    {
    }

    /** One scheduled node leaves the heap and the count. */
    method Expire(node: TimerNode, ghost s: set<TimerNode>)
      requires Heaped(s) && node in s
      modifies this`size, heap, s`heapIndex, node`scheduled
      ensures Heaped(s - {node})
      ensures node.heapIndex == None && !node.scheduled
    {
      hide DeadlineHeap.Valid, DeadlineHeap.ValidBut, DeadlineHeap.Knows;
      InHeap(node, s);
      heap.ValidIsValidBut(node);
      heap.Remove(node, s);
      node.scheduled := false;
      if size != 0 { size := size - 1; }
    }

    lemma InHeap(node: TimerNode, s: set<TimerNode>)
      requires Heaped(s) && node in s
      ensures heap.Knows(node)
    {
      var i :| 0 <= i < |heap.nodes| && heap.nodes[i] == node;
    }

    /** The inner loop of `Advance`: the nodes of slot `k` leave the heap and the count. */
    method ExpireRow(k: nat, ghost s: set<TimerNode>)
      requires k < |slots| && Lists(s) && Heaped(s)
      modifies this`size, heap, s`heapIndex, s`scheduled
      ensures Heaped(s - Elements(slots[k].contents))
      ensures forall n :: n in slots[k].contents ==> n.heapIndex == None && !n.scheduled
    {
      hide Heaped;
      ghost var row := slots[k].contents;
      var node := slots[k].head;
      ghost var i := 0;
      assert s - Elements(row[..0]) == s;
      while node != null
        invariant 0 <= i <= |row|
        invariant node == if i == |row| then null else row[i]
        invariant Heaped(s - Elements(row[..i]))
        invariant forall j :: 0 <= j < i ==> row[j].heapIndex == None && !row[j].scheduled
        decreases |row| - i
      {
        assert slots[k].Link(i);
        TakeOne(s, row, i);
        Expire(node, s - Elements(row[..i]));
        node, i := node.next, i + 1;
      }
      assert row[..i] == row;
    }

    /** Moves the nodes of slot `k` to the end of the expired list. */
    method SpliceRow(k: nat, expired: TimerList, ghost s: set<TimerNode>)
      requires k < |slots| && Lists(s) && expired.Valid() && expired !in slots
      modifies slots[k], expired, expired.contents`next, s`previous, s`list
      ensures Lists(s - Elements(old(slots[k].contents))) && expired.Valid()
      ensures RowsOf(slots) == old(RowsOf(slots))[k := []]
      ensures expired.contents == old(expired.contents) + old(slots[k].contents)
      ensures forall n :: n in s && n !in old(slots[k].contents) ==> n.list == old(n.list)
    {
      hide RowsOf;
      forall j, n | 0 <= j < |slots| && j != k && n in slots[j].contents
        ensures n !in slots[k].contents && n !in expired.contents
      {
        Member(slots[j], n);
        if n in slots[k].contents { Member(slots[k], n); }
        if n in expired.contents { Member(expired, n); }
      }
      expired.SpliceBack(slots[k]);
      forall j | 0 <= j < |slots|
        ensures slots[j].Valid() && forall n :: n in slots[j].contents ==> n in s && n !in old(slots[k].contents)
      {
        if j != k {
          assert slots[j] != slots[k] && slots[j].contents == old(slots[j].contents);
          forall i | 0 <= i < |slots[j].contents| ensures slots[j].Link(i) {
            assert old(slots[j].Link(i));
            assert slots[j].contents[i] in slots[j].contents;
            assert slots[j].contents[i] !in old(slots[k].contents) && slots[j].contents[i] !in old(expired.contents);
          }
        }
      }
    }

    lemma RowsPartition(s: set<TimerNode>)
      requires Lists(s)
      ensures Partition(RowsOf(slots), s)
    {
      hide RowsOf;
      var rows := RowsOf(slots);
      forall j, k, n | 0 <= j < |rows| && 0 <= k < |rows| && n in rows[j] && n in rows[k] ensures j == k {
        Member(slots[j], n);
        Member(slots[k], n);
      }
    }

    lemma RowWithin(k: nat, s: set<TimerNode>)
      requires Lists(s) && k < |slots|
      ensures Elements(slots[k].contents) <= s
    {
    }

    method ClearRow(k: nat, expired: TimerList, ghost s: set<TimerNode>)
      requires k < |slots| && Lists(s) && Heaped(s) && expired.Valid() && expired !in slots
      modifies this`size, heap, slots[k], expired, expired.contents`next
      modifies s`heapIndex, s`scheduled, s`previous, s`list
      ensures Lists(s - Elements(old(slots[k].contents))) && Heaped(s - Elements(old(slots[k].contents)))
      ensures expired.Valid()
      ensures RowsOf(slots) == old(RowsOf(slots))[k := []]
      ensures expired.contents == old(expired.contents) + old(slots[k].contents)
      ensures forall n :: n in old(slots[k].contents) ==> n.heapIndex == None && !n.scheduled
    {
      hide RowsOf, Lists, Heaped, TimerList.Valid, Elements;
      ExpireRow(k, s);
      SpliceRow(k, expired, s);
    }

    /** Everything due in slot `(slot + step)` moves to the expired list. */
    method ExpireStep(step: nat, expired: TimerList, ghost region: set<TimerNode>)
      requires Valid() && 1 <= step <= |slots| && expired.Valid() && expired !in slots
      requires due.Keys <= region && Elements(expired.contents) <= region
      requires forall n :: n in due ==> due[n] >= tick + step
      modifies this`size, this`due, heap, slots, expired
      modifies due.Keys`heapIndex, due.Keys`scheduled, region`previous, region`next, region`list
      ensures Valid() && expired.Valid()
      ensures due == After(old(due), tick + step) && due.Keys <= old(due.Keys) && Elements(expired.contents) <= region
      ensures RowsOf(slots) == old(RowsOf(slots))[SlotOf(slot, step, |slots|) := []]
      ensures expired.contents == old(expired.contents) + old(RowsOf(slots))[SlotOf(slot, step, |slots|)]
      ensures Released(old(due.Keys) - due.Keys)
    {
      hide RowsOf, Timed, Lists, Heaped, TimerList.Valid, SlotOf, After, Partition;
      var k := SlotOf(slot, step, |slots|);
      RowsPartition(due.Keys);
      TimedDrained(RowsOf(slots), due, tick, slot, step);
      RowWithin(k, due.Keys);
      ClearRow(k, expired, due.Keys);
      AfterWithin(due, tick + step);
      due := After(due, tick + step);
      assert old(due.Keys) - due.Keys == Elements(old(slots[k].contents));
    }

    lemma Ahead()
      requires Valid()
      ensures forall n :: n in due ==> tick < due[n] <= tick + |slots|
    {
    }

    /** How far the outer loop of `Advance` has come after `done` slots. */
    ghost predicate Progress(done: nat, expired: TimerList, region: set<TimerNode>, rows: seq<seq<TimerNode>>,
                             before: seq<TimerNode>, start: map<TimerNode, nat>)
      reads this, slots, heap, expired, region
    {
      && due.Keys <= region && Elements(expired.contents) <= region
      && Valid() && expired.Valid() && expired !in slots
      && |rows| == |slots| && RowsOf(slots) == Emptied(rows, slot, done)
      && expired.contents == before + Drained(rows, slot, done)
      && due == After(start, tick + done) && due.Keys <= start.Keys <= region
      && Released(start.Keys - due.Keys)
    }

    /** The body of the outer loop of `Advance`. */
    method ExpireNext(step: nat, expired: TimerList, ghost region: set<TimerNode>, ghost rows: seq<seq<TimerNode>>,
                      ghost before: seq<TimerNode>, ghost start: map<TimerNode, nat>)
      requires 1 <= step <= |slots| && Progress(step - 1, expired, region, rows, before, start)
      modifies this`size, this`due, heap, slots, expired
      modifies start.Keys`heapIndex, start.Keys`scheduled, region`previous, region`next, region`list
      ensures Progress(step, expired, region, rows, before, start)
    {
      hide Valid, RowsOf, TimerList.Valid, SlotOf, After, Elements, Released, Drained, Emptied;
      EmptiedKeeps(rows, slot, step - 1, step);
      DrainStep(rows, slot, step, before);
      ghost var left := due;
      assert forall n :: n in due ==> due[n] >= tick + step by { AfterWithin(start, tick + step - 1); }
      ExpireStep(step, expired, region);
      assert due == After(start, tick + step) by { AfterAfter(start, tick + step - 1, tick + step); }
      assert Released(start.Keys - due.Keys) by {
        ReleasedTogether(start.Keys - left.Keys, left.Keys - due.Keys, start.Keys - due.Keys);
      }
    }

    /** The outer loop of `Advance`. */
    method ExpireSteps(steps: nat, expired: TimerList, ghost region: set<TimerNode>)
      requires Valid() && expired.Valid() && expired !in slots && steps <= |slots|
      requires due.Keys <= region && Elements(expired.contents) <= region
      modifies this`size, this`due, heap, slots, expired
      modifies due.Keys`heapIndex, due.Keys`scheduled, region`previous, region`next, region`list
      ensures Progress(steps, expired, region, old(RowsOf(slots)), old(expired.contents), old(due))
    {
      hide *;
      ghost var rows, before, start := RowsOf(slots), expired.contents, due;
      Begins(expired, region);
      var step := 1;
      while step <= steps
        invariant 1 <= step <= steps + 1
        invariant Progress(step - 1, expired, region, rows, before, start)
      {
        ExpireNext(step, expired, region, rows, before, start);
        step := step + 1;
      }
    }

    lemma Begins(expired: TimerList, region: set<TimerNode>)
      requires Valid() && expired.Valid() && expired !in slots
      requires due.Keys <= region && Elements(expired.contents) <= region
      ensures Progress(0, expired, region, RowsOf(slots), expired.contents, due)
    {
      hide RowsOf, TimerList.Valid, SlotOf, Elements, After, Lists, Heaped, Timed;
      DrainStart(RowsOf(slots), slot, expired.contents);
      Ahead();
      AfterNothing(due, tick);
    }

    /** The end of `Advance`: the wheel turns to `now`. */
    method TurnTo(now: nat, expired: TimerList, ghost region: set<TimerNode>, ghost rows: seq<seq<TimerNode>>,
                  ghost before: seq<TimerNode>, ghost start: map<TimerNode, nat>)
      requires now > tick && Progress(Steps(tick, now, |slots|), expired, region, rows, before, start)
      requires |rows| > 0 && After(start, tick + Steps(tick, now, |slots|)) == After(start, now)
      modifies this`tick, this`slot
      ensures Valid() && expired.Valid() && tick == now
      ensures due == After(start, now) && Released(start.Keys - due.Keys)
      ensures expired.contents == before + Drained(rows, old(slot), Steps(old(tick), now, |slots|))
    {
      hide RowsOf, Timed, Lists, Heaped, TimerList.Valid, After, Drained, Emptied, Released, Elements, SlotOf, Steps;
      var elapsed := now - tick;
      assert Timed(RowsOf(slots), due, now, (slot + elapsed % |slots|) % |slots|) by {
        AfterWithin(start, now);
        TimedTurned(RowsOf(slots), due, tick, slot, now);
      }
      slot := (slot + elapsed % |slots|) % |slots|;
      tick := now;
    }

    /** `Advance` with time to pass. */
    method AdvanceTo(now: nat, expired: TimerList, ghost region: set<TimerNode>)
      requires Valid() && expired.Valid() && expired !in slots && now > tick
      requires due.Keys <= region && Elements(expired.contents) <= region
      modifies this`tick, this`slot, this`size, this`due, heap, slots, expired
      modifies due.Keys`heapIndex, due.Keys`scheduled, region`previous, region`next, region`list
      ensures Valid() && expired.Valid() && tick == now
      ensures due == After(old(due), now)
      ensures expired.contents == old(expired.contents)
          + Drained(old(RowsOf(slots)), old(slot), Steps(old(tick), now, |slots|))
      ensures Released(old(due.Keys) - due.Keys)
    {
      hide *;
      assert |slots| > 0 by { HasSlots(); }
      assert After(due, tick + Steps(tick, now, |slots|)) == After(due, now) by {
        Ahead(); AfterTurn(due, tick, |slots|, now);
      }
      ghost var rows, before, start := RowsOf(slots), expired.contents, due;
      ExpireSteps(Steps(tick, now, |slots|), expired, region);
      TurnTo(now, expired, region, rows, before, start);
    }

    /** The deadline the heap names; the earliest of all scheduled nodes if the wheel is in order. */
    method NextDeadline() returns (deadline: Option<nat>)
      ensures deadline == if heap.nodes == [] then None else Some(heap.nodes[0].deadline)
      ensures Valid() ==>
        && (deadline.None? <==> due == map[])
        && (deadline.Some? ==> exists n :: n in due && n.deadline == deadline.value)
        && (deadline.Some? ==> forall n :: n in due ==> deadline.value <= n.deadline)
    {
      hide Lists, RowsOf, Timed;
      deadline := heap.Next();
      if Valid() {
        if deadline.None? {
          assert due.Keys == {};
        } else {
          assert heap.nodes[0] in due;
        }
      }
    }

    /** A scheduled node is acceptable to `Add` and `Remove`, and so is one that is in no list. */
    lemma Acceptable(node: TimerNode)
      requires Valid()
      requires node in due || (node.list == null && node.heapIndex == None && !node.scheduled)
      ensures Accepts(node)
    {
      hide RowsOf;
      if node in due {
        InHeap(node, due.Keys);
        var k := SlotOf(slot, due[node] - tick, |slots|);
        assert node in RowsOf(slots)[k];
        Member(slots[k], node);
      } else {
        assert node !in heap.nodes;
      }
    }

    /** Moves to `expired` everything due by `now`, in the order it is due, and turns the wheel to `now`. */
    method Advance(now: nat, expired: TimerList)
      requires Valid() && expired.Valid() && expired !in slots
      modifies this`tick, this`slot, this`size, this`due, heap, slots, expired
      modifies expired.contents`previous, expired.contents`next, expired.contents`list
      modifies due.Keys`heapIndex, due.Keys`scheduled, due.Keys`previous, due.Keys`next, due.Keys`list
      ensures Valid() && expired.Valid()
      ensures tick == if now <= old(tick) then old(tick) else now
      ensures due == After(old(due), tick)
      ensures expired.contents == old(expired.contents)
          + Drained(old(RowsOf(slots)), old(slot), Steps(old(tick), now, |slots|))
      ensures Released(old(due.Keys) - due.Keys)
    {
      Ahead();
      HasSlots();
      AfterNothing(due, tick);
      hide Valid, RowsOf, TimerList.Valid, After, Drained, Released;
      if now <= tick {
        DrainStart(RowsOf(slots), slot, expired.contents);
        assert Released(old(due.Keys) - due.Keys) by { Nothing(); assert old(due.Keys) - due.Keys == {}; }
        return;
      }
      AdvanceTo(now, expired, due.Keys + Elements(expired.contents));
    }
  }

  lemma Nothing()
    ensures Released({})
  {
  }

  lemma DrainStart(rows: seq<seq<TimerNode>>, slot: nat, before: seq<TimerNode>)
    requires |rows| > 0
    ensures before + Drained(rows, slot, 0) == before && Emptied(rows, slot, 0) == rows
  {
  }

  lemma DrainStep(rows: seq<seq<TimerNode>>, slot: nat, step: nat, before: seq<TimerNode>)
    requires |rows| > 0 && step > 0
    ensures before + Drained(rows, slot, step) == before + Drained(rows, slot, step - 1)
        + rows[SlotOf(slot, step, |rows|)]
    ensures Emptied(rows, slot, step) == Emptied(rows, slot, step - 1)[SlotOf(slot, step, |rows|) := []]
  {
  }

  /** Nothing is due more than a turn ahead, so visiting every slot once is enough however far the clock has moved. */
  lemma AfterTurn(due: map<TimerNode, nat>, tick: nat, n: nat, now: nat)
    requires forall x :: x in due ==> tick < due[x] <= tick + n
    requires tick < now
    ensures After(due, tick + Steps(tick, now, n)) == After(due, now)
  {
  }

  /** The number of slots `Advance` visits: each at most once. */
  function Steps(tick: nat, now: nat, n: nat): (steps: nat)
    ensures steps <= n
  {
    if now <= tick then 0 else if now - tick < n then now - tick else n
  }

  lemma AfterNothing(due: map<TimerNode, nat>, now: nat)
    requires forall n :: n in due ==> due[n] > now
    ensures After(due, now) == due
  {
  }

  lemma AfterAfter(due: map<TimerNode, nat>, earlier: nat, later: nat)
    requires earlier <= later
    ensures After(After(due, earlier), later) == After(due, later)
  {
  }

  lemma TakeOne<T>(s: set<T>, row: seq<T>, i: nat)
    requires i < |row| && NoDup(row) && forall n :: n in row ==> n in s
    ensures row[i] in s - Elements(row[..i])
    ensures s - Elements(row[..i]) - {row[i]} == s - Elements(row[..i + 1])
  {
    assert row[..i + 1] == row[..i] + [row[i]];
  }

  method TwoTimers() returns (wheel: TimerWheel, first: TimerNode, second: TimerNode)
    ensures fresh(wheel) && fresh(wheel.heap) && fresh(wheel.slots) && fresh(first) && fresh(second)
    ensures wheel.Valid() && wheel.tick == 1 && wheel.due.Keys == {first, second}
    ensures first.deadline == 10 && second.deadline == 20
  {
    hide TimerWheel.Valid, TimerWheel.ValidBut, TimerWheel.Accepts, Offset, RowsOf;
    wheel := new TimerWheel(64, 1);
    first := new TimerNode(1);
    second := new TimerNode(2);
    wheel.Takes(first);
    wheel.Reschedule(first, 10, {first, second});
    wheel.Takes(second);
    wheel.Reschedule(second, 20, {first, second});
  }

  /**
   Of two scheduled timers the second is given a deadline that has been reached. It is refused and stays where it is:
   the heap is out of order, and the wheel goes on to name the deadline of the first.
   */
  method RefuseSecond() returns (wheel: TimerWheel, first: TimerNode, second: TimerNode, ok: bool, named: Option<nat>)
    ensures !ok && wheel.due.Keys == {first, second} && second.deadline == wheel.tick == 1
    ensures named == Some(10) && !wheel.heap.Valid() && !wheel.heap.Least(10)
  {
    hide TimerWheel.Valid, TimerWheel.ValidBut, TimerWheel.Accepts, Offset, RowsOf;
    hide DeadlineHeap.Valid, DeadlineHeap.Least;
    wheel, first, second := TwoTimers();
    wheel.SecondOfTwo(first, second);
    wheel.Inside(second);
    wheel.SetDeadline(second, 1);
    wheel.RefusedMisKeys(second);
    ok := wheel.Add(second);
    named := wheel.NextDeadline();
  }
}
