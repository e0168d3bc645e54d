/**
 Whole runs of the wheel: any script of arming, disarming, passing time and asking for the next deadline is answered as
 the alarm clock answers it.
 */
module TimerRuns {
  import opened Results
  import opened Sequences
  import opened TimerLists
  import opened DeadlineHeaps
  import opened WheelTime
  import opened AlarmClocks
  import opened TimerWheels

  /** A wheel and the nodes of timers `0` to `|nodes| - 1`. */
  class Timers {
    const wheel: TimerWheel
    var nodes: seq<TimerNode>

    ghost predicate Known()
      reads this, wheel`due
    {
      && (forall id :: 0 <= id < |nodes| ==> nodes[id].address == id)
      && (forall n :: n in wheel.due ==> n.address < |nodes| && nodes[n.address] == n)
    }

    /** A node outside the wheel is in no list and not in the heap. */
    ghost predicate Quiet(n: TimerNode)
      reads n`list, n`heapIndex, n`scheduled
    {
      n.list == null && n.heapIndex == None && !n.scheduled
    }

    ghost predicate Shows(c: Clock<nat>)
      reads this, wheel, nodes`deadline
    {
      && c.slots == |wheel.slots| && c.tick == wheel.tick
      && (forall id: nat :: id in c.pending <==> id < |nodes| && nodes[id] in wheel.due)
      && (forall id :: id in c.pending ==> c.pending[id] == Alarm(nodes[id].deadline, wheel.due[nodes[id]]))
    }

    ghost predicate Valid(c: Clock<nat>)
      reads this, wheel, wheel.slots, wheel.heap, wheel.due.Keys, nodes
    {
      && Known() && wheel.Valid() && Shows(c)
      && (forall id :: 0 <= id < |nodes| && nodes[id] !in wheel.due ==> Quiet(nodes[id]))
    }

    constructor (slotCount: nat, start: nat)
      requires slotCount > 0
      ensures Valid(Clock(slotCount, start, map[])) && nodes == []
      ensures fresh(wheel) && fresh(wheel.slots) && fresh(wheel.heap)
    {
      hide TimerWheel.Valid;
      wheel := new TimerWheel(slotCount, start);
      nodes := [];
    }

    /** A new timer. */
    method Make(ghost c: Clock<nat>) returns (id: nat)
      requires Valid(c)
      modifies this
      ensures Valid(c) && id == |old(nodes)| && |nodes| == id + 1 && nodes[..id] == old(nodes)
      ensures fresh(nodes[id]) && nodes[id].deadline == 0
    {
      hide TimerWheel.Valid;
      id := |nodes|;
      var node := new TimerNode(id);
      assert node !in wheel.due;
      nodes := nodes + [node];
    }

    /** Where the wheel may write when it takes out one of these nodes. */
    lemma Within(id: nat, c: Clock<nat>)
      requires id < |nodes| && Valid(c)
      ensures wheel.Accepts(nodes[id]) && wheel.ValidBut(nodes[id])
      ensures wheel.ListOf(nodes[id]) <= Elements(wheel.slots)
      ensures wheel.Neighbours(nodes[id]) <= wheel.due.Keys <= Elements(nodes)
    {
      assert nodes[id] in wheel.due || Quiet(nodes[id]);
      wheel.Acceptable(nodes[id]);
      wheel.ValidIsValidBut(nodes[id]);
    }

    method Disarm(id: nat, ghost c: Clock<nat>)
      requires Valid(c) && id < |nodes|
      modifies wheel, wheel.heap, wheel.slots, nodes
      ensures Valid(Clear(c, id)) && forall n :: n in nodes ==> n.deadline == old(n.deadline)
    {
      hide TimerWheel.Valid, TimerWheel.ValidBut, TimerWheel.Accepts, TimerWheel.ListOf, TimerWheel.Neighbours,
           TimerList.Valid, Removed;
      var node := nodes[id];
      Within(id, c);
      wheel.Remove(node);
      assert Shows(Clear(c, id));
      forall x | 0 <= x < |nodes| && nodes[x] !in wheel.due ensures Quiet(nodes[x]) {
        assert nodes[x] != node ==> nodes[x] !in old(wheel.due) && old(Quiet(nodes[x]));
      }
    }

    /** Changes the deadline of a timer, pending or not, and adds it: the wheel takes it out first. */
    method Readd(id: nat, deadline: nat, ghost c: Clock<nat>)
      requires Valid(c) && id < |nodes| && deadline > c.tick
      modifies wheel, wheel.heap, wheel.slots, nodes
      ensures c.slots > 0 && Valid(Rearm(c, id, deadline))
      ensures forall n :: n in old(nodes) ==> n.deadline == if n == old(nodes[id]) then deadline else old(n.deadline)
    {
      hide TimerWheel.Valid, TimerWheel.ValidBut, TimerWheel.Accepts, TimerWheel.ListOf, TimerWheel.Neighbours,
           TimerList.Valid, Offset;
      wheel.HasSlots();
      var node := nodes[id];
      Within(id, c);
      wheel.Reschedule(node, deadline, Elements(nodes));
      OffsetIs(deadline - wheel.tick, |wheel.slots|);
      assert Shows(Rearm(c, id, deadline));
      forall x | 0 <= x < |nodes| && nodes[x] !in wheel.due ensures Quiet(nodes[x]) {
        assert nodes[x] in Elements(nodes) && nodes[x] !in old(wheel.due) && old(Quiet(nodes[x]));
      }
    }

    /**
     A deadline already reached is refused. It would leave a pending timer out of order, so that is taken out first.
     */
    method Refuse(id: nat, deadline: nat, ghost c: Clock<nat>)
      requires Valid(c) && id < |nodes| && deadline <= c.tick
      modifies wheel, wheel.heap, wheel.slots, nodes
      ensures Valid(Clear(c, id))
      ensures forall n :: n in nodes ==> n.deadline == if n == nodes[id] then deadline else old(n.deadline)
    {
      hide TimerWheel.Valid, TimerWheel.ValidBut, TimerWheel.Accepts, TimerWheel.ListOf, TimerWheel.Neighbours,
           TimerList.Valid;
      Disarm(id, c);
      Within(id, Clear(c, id));
      assert nodes[id] !in wheel.due;
      wheel.Attempt(nodes[id], deadline);
    }

    method Arm(id: nat, deadline: nat, ghost c: Clock<nat>) returns (ok: bool)
      requires Valid(c) && id < |nodes|
      modifies wheel, wheel.heap, wheel.slots, nodes
      ensures ok <==> deadline > c.tick
      ensures c.slots > 0 && Valid(Rearm(c, id, deadline))
      ensures forall n :: n in nodes ==> n.deadline == if n == nodes[id] then deadline else old(n.deadline)
    {
      hide Valid, Offset;
      Tick(c);
      ok := deadline > wheel.tick;
      if ok { Readd(id, deadline, c); } else { Refuse(id, deadline, c); }
    }

    lemma Tick(c: Clock<nat>)
      requires Valid(c)
      ensures wheel.tick == c.tick && |wheel.slots| == c.slots > 0
    {
      hide TimerWheel.Valid;
      wheel.HasSlots();
    }

    lemma Separate(c: Clock<nat>)
      requires Valid(c)
      ensures forall i, j :: 0 <= i < |nodes| && 0 <= j < |nodes| && i != j ==> nodes[i] != nodes[j]
    {
      hide TimerWheel.Valid;
    }

    lemma ScheduledIsPending(id: nat, c: Clock<nat>)
      requires Valid(c) && id < |nodes|
      ensures nodes[id].scheduled <==> id in c.pending
    {
      assert nodes[id] in wheel.due || Quiet(nodes[id]);
    }

    /** The earliest deadline of all pending timers. */
    method NextDeadline(ghost c: Clock<nat>) returns (deadline: Option<nat>)
      requires Valid(c)
      ensures deadline == Least(Deadlines(c))
    {
      hide TimerWheel.Valid;
      deadline := wheel.NextDeadline();
      LeastShown(c, deadline);
    }

    lemma LeastShown(c: Clock<nat>, deadline: Option<nat>)
      requires Known() && Shows(c) && (deadline.None? <==> wheel.due == map[])
      requires deadline.Some? ==>
        && (exists n :: n in wheel.due && n.deadline == deadline.value)
        && (forall n :: n in wheel.due ==> deadline.value <= n.deadline)
      ensures deadline == Least(Deadlines(c))
    {
      if deadline.Some? {
        var n :| n in wheel.due && n.deadline == deadline.value;
        assert n.address in c.pending && c.pending[n.address].deadline == n.deadline;
        assert deadline.value in Deadlines(c);
        forall d | d in Deadlines(c) ensures deadline.value <= d {
          var k :| k in c.pending && c.pending[k].deadline == d;
          assert nodes[k] in wheel.due;
        }
      } else {
        assert c.pending == map[];
      }
    }

    // -------------------------------------------------------------------------------------------
    // Passing time
    // -------------------------------------------------------------------------------------------

    /** What has gone off is exactly what the clock says is due. */
    lemma ExpiredIsDue(c: Clock<nat>, now: nat, n: TimerNode)
      requires Valid(c) && now > wheel.tick
      ensures |wheel.slots| > 0
      ensures n in Drained(RowsOf(wheel.slots), wheel.slot, Steps(wheel.tick, now, |wheel.slots|)) <==>
        n in wheel.due && wheel.due[n] <= now
    {
      wheel.HasSlots();
      wheel.RowsPartition(wheel.due.Keys);
      var steps := Steps(wheel.tick, now, |wheel.slots|);
      DrainedIsDue(RowsOf(wheel.slots), wheel.due, wheel.tick, wheel.slot, steps, n);
      wheel.Ahead();
    }

    /** Time has passed on the wheel, and the nodes in `gone` are still to be collected. */
    ghost predicate Lapsed(c: Clock<nat>, gone: set<TimerNode>)
      reads this, wheel, wheel.slots, wheel.heap, wheel.due.Keys, nodes, gone
    {
      && Known() && wheel.Valid() && Shows(c)
      && gone <= Elements(nodes) && gone !! wheel.due.Keys && Released(gone)
      && (forall id :: 0 <= id < |nodes| && nodes[id] !in wheel.due && nodes[id] !in gone ==> Quiet(nodes[id]))
    }

    /** The alarms still pending are those due later. */
    lemma WaitShows(c: Clock<nat>, now: nat, start: map<TimerNode, nat>)
      requires |wheel.slots| == c.slots && wheel.tick == Wait(c, now).tick
      requires wheel.due == After(start, wheel.tick) && forall n :: n in start ==> start[n] > c.tick
      requires forall id: nat :: id in c.pending <==> id < |nodes| && nodes[id] in start
      requires forall id :: id in c.pending ==> c.pending[id] == Alarm(nodes[id].deadline, start[nodes[id]])
      ensures Shows(Wait(c, now))
    {
      forall id: nat ensures id in Wait(c, now).pending <==> id < |nodes| && nodes[id] in wheel.due {
        assert id in c.pending ==> c.pending[id].due == start[nodes[id]];
      }
    }

    /** What `Advance` is about to take out: each timer that is due, once. */
    ghost method Expiring(c: Clock<nat>, now: nat) returns (drained: seq<TimerNode>)
      requires Valid(c)
      ensures c.slots == |wheel.slots| > 0 && wheel.tick == c.tick
      ensures drained == Drained(RowsOf(wheel.slots), wheel.slot, Steps(wheel.tick, now, |wheel.slots|))
      ensures forall n :: n in drained <==> n in wheel.due && wheel.due[n] <= Wait(c, now).tick
      ensures forall n :: n in wheel.due ==> wheel.due[n] > c.tick
      ensures NoDup(drained)
    {
      wheel.HasSlots();
      wheel.Ahead();
      NoTwice(c, Steps(wheel.tick, now, |wheel.slots|));
      hide TimerWheel.Valid, RowsOf;
      drained := Drained(RowsOf(wheel.slots), wheel.slot, Steps(wheel.tick, now, |wheel.slots|));
      if now > wheel.tick {
        forall n ensures n in drained <==> n in wheel.due && wheel.due[n] <= now { ExpiredIsDue(c, now, n); }
      } else {
        DrainStart(RowsOf(wheel.slots), wheel.slot, []);
        assert drained == [];
      }
    }

    lemma NoTwice(c: Clock<nat>, steps: nat)
      requires Valid(c) && 0 < |wheel.slots| && steps <= |wheel.slots|
      ensures NoDup(Drained(RowsOf(wheel.slots), wheel.slot, steps))
    {
      wheel.RowsPartition(wheel.due.Keys);
      DrainedOnce(RowsOf(wheel.slots), wheel.slot, steps, wheel.due.Keys);
    }

    /** Time passes on the wheel; what goes off is left in `expired`. */
    method Lapse(now: nat, expired: TimerList, ghost c: Clock<nat>)
      requires Valid(c) && expired.Valid() && expired !in wheel.slots && expired.contents == []
      modifies wheel, wheel.heap, wheel.slots, nodes, expired
      ensures expired.Valid() && Lapsed(Wait(c, now), Elements(expired.contents))
      ensures OnceEach(Ids(expired.contents), if now <= c.tick then {} else Due(c, now))
      ensures forall n :: n in nodes ==> n.deadline == old(n.deadline)
    {
      hide TimerWheel.Valid, TimerList.Valid, RowsOf, Drained, Released, After, NoDup;
      assert forall n :: n in wheel.due.Keys ==> n in nodes;
      ghost var start, tick := wheel.due, Wait(c, now).tick;
      ghost var drained := Expiring(c, now);
      DueListed(c, now, drained);
      hide OnceEach;
      wheel.Advance(now, expired);
      assert expired.contents == drained;
      assert wheel.due == After(start, tick);
      assert Elements(drained) == start.Keys - wheel.due.Keys by { Split(start, tick, drained); }
      assert Known() by { AfterWithin(start, tick); }
      WaitShows(c, now, start);
    }

    lemma DueListed(c: Clock<nat>, now: nat, drained: seq<TimerNode>)
      requires Known() && Shows(c) && NoDup(drained)
      requires forall n :: n in drained <==> n in wheel.due && wheel.due[n] <= Wait(c, now).tick
      requires forall n :: n in wheel.due ==> wheel.due[n] > c.tick
      ensures OnceEach(Ids(drained), if now <= c.tick then {} else Due(c, now))
    {
      var ids, due := Ids(drained), if now <= c.tick then {} else Due(c, now);
      forall i, j | 0 <= i < j < |ids| ensures ids[i] != ids[j] {
        assert drained[i] != drained[j] && drained[i] in drained && drained[j] in drained;
      }
      forall id | id in ids ensures id in due {
        var i :| 0 <= i < |ids| && ids[i] == id;
        assert drained[i] in drained;
      }
      forall id | id in due ensures id in ids {
        assert nodes[id] in drained;
        var i :| 0 <= i < |drained| && drained[i] == nodes[id];
        assert ids[i] == id;
      }
    }

    /** Collects what has gone off, in order. */
    method CollectGone(expired: TimerList, ghost c: Clock<nat>) returns (ids: seq<nat>)
      requires expired.Valid() && expired !in wheel.slots && Lapsed(c, Elements(expired.contents))
      modifies expired, nodes
      ensures Valid(c) && ids == Ids(old(expired.contents))
      ensures forall n :: n in nodes ==> n.deadline == old(n.deadline)
    {
      hide TimerWheel.Valid, TimerList.Valid, Ids;
      ghost var gone := Elements(expired.contents);
      assert forall n :: n in expired.contents ==> n in gone;
      ids := Collect(expired, gone);
      assert forall id :: 0 <= id < |nodes| && nodes[id] !in wheel.due ==> Quiet(nodes[id]);
    }

    method Pass(now: nat, ghost c: Clock<nat>) returns (ids: seq<nat>)
      requires Valid(c)
      modifies wheel, wheel.heap, wheel.slots, nodes
      ensures Valid(Wait(c, now))
      ensures OnceEach(ids, if now <= c.tick then {} else Due(c, now))
      ensures forall n :: n in nodes ==> n.deadline == old(n.deadline)
    {
      hide TimerWheel.Valid, TimerList.Valid, Ids, Lapsed, Elements, OnceEach;
      var expired := new TimerList();
      Lapse(now, expired, c);
      ids := CollectGone(expired, Wait(c, now));
    }
  }

  /** `s` lists each element of `all` once. */
  ghost predicate OnceEach<T(!new)>(s: seq<T>, all: set<T>) {
    (forall i, j :: 0 <= i < j < |s| ==> s[i] != s[j]) && (forall x :: x in s <==> x in all)
  }

  /** The answers of a wheel to any script are those of the alarm clock. */
  method RunTimers(slotCount: nat, start: nat, count: nat, ops: seq<Op<nat>>) returns (answers: seq<Answer<nat>>)
    requires slotCount > 0
    requires forall i :: 0 <= i < |ops| && (ops[i].Arm? || ops[i].Disarm?) ==> ops[i].id < count
    ensures answers == Run(Clock(slotCount, start, map[]), ops).1
  {
    hide Timers.Valid, Rearm, Clear, Wait, Due;
    var timers := new Timers(slotCount, start);
    ghost var c := Clock(slotCount, start, map[]);
    while |timers.nodes| < count
      invariant |timers.nodes| <= count && fresh(timers) && fresh(timers.wheel) && fresh(timers.wheel.slots)
      invariant fresh(timers.wheel.heap) && fresh(timers.nodes) && timers.Valid(c)
    {
      var _ := timers.Make(c);
    }
    answers := [];
    var i := 0;
    while i < |ops|
      invariant 0 <= i <= |ops| && fresh(timers) && fresh(timers.wheel) && fresh(timers.wheel.slots)
      invariant fresh(timers.wheel.heap) && fresh(timers.nodes)
      invariant |timers.nodes| == count && c.slots > 0 && timers.Valid(c)
      invariant (c, answers) == Run(Clock(slotCount, start, map[]), ops[..i])
    {
      assert ops[..i + 1][..i] == ops[..i];
      match ops[i] {
      case Arm(id, deadline) =>
        var ok := timers.Arm(id, deadline, c);
        answers := answers + [Accepted(ok)];
      case Disarm(id) =>
        timers.Disarm(id, c);
        answers := answers + [Done];
      case Pass(now) =>
        var ids := timers.Pass(now, c);
        assert Elements(ids) == if now <= c.tick then {} else Due(c, now);
        answers := answers + [WentOff(Elements(ids))];
      case Ask =>
        var next := timers.NextDeadline(c);
        answers := answers + [Next(next)];
      }
      c := Apply(c, ops[i]).0;
      i := i + 1;
    }
    assert ops[..i] == ops;
  }

  lemma Split(start: map<TimerNode, nat>, tick: nat, drained: seq<TimerNode>)
    requires forall n :: n in drained <==> n in start && start[n] <= tick
    ensures Elements(drained) == start.Keys - After(start, tick).Keys
  {
  }

  /** Where a drained node comes from. */
  lemma {:induction false} DrainedFrom(rows: seq<seq<TimerNode>>, slot: nat, steps: nat, n: TimerNode) returns (j: nat)
    requires |rows| > 0 && n in Drained(rows, slot, steps)
    ensures 1 <= j <= steps && n in rows[SlotOf(slot, j, |rows|)]
    decreases steps
  {
    hide SlotOf;
    if n in rows[SlotOf(slot, steps, |rows|)] {
      j := steps;
    } else {
      j := DrainedFrom(rows, slot, steps - 1, n);
    }
  }

  /** A node is in one row only, and in that once. */
  lemma {:induction false} DrainedOnce(rows: seq<seq<TimerNode>>, slot: nat, steps: nat, s: set<TimerNode>)
    requires Partition(rows, s) && (forall k :: 0 <= k < |rows| ==> NoDup(rows[k])) && steps <= |rows| && |rows| > 0
    ensures NoDup(Drained(rows, slot, steps))
    decreases steps
  {
    if steps > 0 {
      hide SlotOf;
      DrainedOnce(rows, slot, steps - 1, s);
      var before, row := Drained(rows, slot, steps - 1), rows[SlotOf(slot, steps, |rows|)];
      forall n | n in before && n in row ensures false {
        var j := DrainedFrom(rows, slot, steps - 1, n);
        SlotDistinguishes(slot, j, steps, |rows|);
      }
      JoinNoDup(before, row);
    }
  }

  lemma JoinNoDup<T>(a: seq<T>, b: seq<T>)
    requires NoDup(a) && NoDup(b) && forall x :: x in a ==> x !in b
    ensures NoDup(a + b)
  {
    forall i, j | 0 <= i < j < |a + b| ensures (a + b)[i] != (a + b)[j] {
      if i < |a| <= j {
        assert (a + b)[i] in a && (a + b)[j] in b;
      }
    }
  }

  ghost function Ids(s: seq<TimerNode>): (ids: seq<nat>)
    ensures |ids| == |s| && forall i :: 0 <= i < |s| ==> ids[i] == s[i].address
  {
    seq(|s|, i requires 0 <= i < |s| => s[i].address)
  }

  /** Empties the expired list from the front. */
  method Collect(expired: TimerList, ghost region: set<TimerNode>) returns (ids: seq<nat>)
    requires expired.Valid() && forall n :: n in expired.contents ==> n in region
    modifies expired, region`previous, region`next, region`list
    ensures ids == Ids(old(expired.contents))
    ensures forall n :: n in old(expired.contents) ==> n.list == null
  {
    ghost var all := expired.contents;
    assert NoDup(all);
    hide TimerList.Valid, Ids;
    ids := [];
    while !expired.IsEmpty()
      invariant |ids| <= |all| && expired.Valid() && expired.contents == all[|ids|..]
      invariant forall i :: 0 <= i < |ids| ==> ids[i] == all[i].address && all[i].list == null
      decreases |all| - |ids|
    {
      var node := expired.PopFront();
      assert node == all[|ids|];
      ids := ids + [node.address];
    }
  }
}
