/**
 Timers known by keys instead of numbers, each made on first use,
 with the alarm clock of the keys that they amount to.
 */
module KeyedTimers {
  import opened Results
  import opened TimerLists
  import opened WheelTime
  import opened AlarmClocks
  import opened TimerWheels
  import opened TimerRuns

  /** Timer `i` belongs to `keys[i]`. */
  ghost predicate Named<K>(keys: seq<K>, index: map<K, nat>) {
    && (forall i :: 0 <= i < |keys| ==> keys[i] in index && index[keys[i]] == i)
    && (forall k :: k in index ==> index[k] < |keys| && keys[index[k]] == k)
  }

  /** `c` is `d` with keys for numbers. */
  ghost predicate Renames<K>(c: Clock<K>, d: Clock<nat>, keys: seq<K>, index: map<K, nat>) {
    && c.slots == d.slots && c.tick == d.tick
    && (forall k :: k in c.pending ==> k in index && index[k] in d.pending && d.pending[index[k]] == c.pending[k])
    && (forall i :: i in d.pending ==> i < |keys| && keys[i] in c.pending)
  }

  lemma RenameClear<K>(c: Clock<K>, d: Clock<nat>, keys: seq<K>, index: map<K, nat>, k: K)
    requires Named(keys, index) && Renames(c, d, keys, index) && k in index
    ensures Renames(Clear(c, k), Clear(d, index[k]), keys, index)
  {
  }

  lemma RenameRearm<K>(c: Clock<K>, d: Clock<nat>, keys: seq<K>, index: map<K, nat>, k: K, deadline: nat)
    requires Named(keys, index) && Renames(c, d, keys, index) && k in index && c.slots > 0
    ensures Renames(Rearm(c, k, deadline), Rearm(d, index[k], deadline), keys, index)
  {
    hide Offset;
  }

  lemma RenameWait<K>(c: Clock<K>, d: Clock<nat>, keys: seq<K>, index: map<K, nat>, now: nat)
    requires Named(keys, index) && Renames(c, d, keys, index)
    ensures Renames(Wait(c, now), Wait(d, now), keys, index)
  {
  }

  lemma RenameDeadlines<K>(c: Clock<K>, d: Clock<nat>, keys: seq<K>, index: map<K, nat>)
    requires Named(keys, index) && Renames(c, d, keys, index)
    ensures Deadlines(c) == Deadlines(d)
  {
    forall x | x in Deadlines(d) ensures x in Deadlines(c) {
      var i :| i in d.pending && d.pending[i].deadline == x;
      assert keys[i] in c.pending && index[keys[i]] == i;
    }
  }

  /** The keys of what has gone off, in order. */
  lemma RenameDue<K(!new)>(c: Clock<K>, d: Clock<nat>, keys: seq<K>, index: map<K, nat>, now: nat, ids: seq<nat>,
                           ks: seq<K>)
    requires Named(keys, index) && Renames(c, d, keys, index) && |ks| == |ids|
    requires OnceEach(ids, if now <= d.tick then {} else Due(d, now))
    requires forall i :: 0 <= i < |ids| ==> ids[i] < |keys| && ks[i] == keys[ids[i]]
    ensures OnceEach(ks, if now <= c.tick then {} else Due(c, now))
  {
    var due := if now <= c.tick then {} else Due(c, now);
    forall i, j | 0 <= i < j < |ks| ensures ks[i] != ks[j] {
      assert index[ks[i]] == ids[i] && index[ks[j]] == ids[j];
    }
    forall k | k in ks ensures k in due {
      var i :| 0 <= i < |ks| && ks[i] == k;
      assert ids[i] in ids;
    }
    forall k | k in due ensures k in ks {
      assert index[k] in ids;
      var i :| 0 <= i < |ids| && ids[i] == index[k];
      assert ks[i] == k;
    }
  }

  class KeyedTimers<K(==,!new)> {
    const timers: Timers
    var keys: seq<K>
    var index: map<K, nat>
    ghost var inner: Clock<nat>
    /** The deadline last given to each timer. */
    ghost var deadlines: map<K, nat>

    ghost predicate Valid(c: Clock<K>)
      reads this, timers, timers.wheel, timers.wheel.slots, timers.wheel.heap, timers.wheel.due.Keys, timers.nodes
    {
      && |keys| == |timers.nodes| && timers.Valid(inner)
      && Named(keys, index) && Renames(c, inner, keys, index)
      && deadlines.Keys == index.Keys && (forall k :: k in index ==> timers.nodes[index[k]].deadline == deadlines[k])
    }

    ghost function Repr(): (r: set<object>)
      reads this, timers
    {
      {this, timers, timers.wheel, timers.wheel.heap} + (set list | list in timers.wheel.slots)
      + (set node | node in timers.nodes)
    }

    constructor (slotCount: nat, start: nat)
      requires slotCount > 0
      ensures Valid(Clock(slotCount, start, map[])) && deadlines == map[] && fresh(Repr())
    {
      hide Timers.Valid;
      timers := new Timers(slotCount, start);
      keys, index, inner, deadlines := [], map[], Clock(slotCount, start, map[]), map[];
    }

    /** Makes the timer of `k` on first use. */
    method Ensure(k: K, ghost c: Clock<K>)
      requires Valid(c)
      modifies this, timers
      ensures Valid(c) && k in index && fresh(Repr() - old(Repr()))
      ensures deadlines == old(deadlines)[k := if k in old(deadlines) then old(deadlines)[k] else 0]
    {
      hide Timers.Valid;
      if k !in index {
        var id := timers.Make(inner);
        index, keys, deadlines := index[k := id], keys + [k], deadlines[k := 0];
      }
    }

    method Disarm(k: K, ghost c: Clock<K>)
      requires Valid(c)
      modifies Repr()
      ensures Valid(Clear(c, k)) && Repr() == old(Repr()) && deadlines == old(deadlines)
    {
      hide Timers.Valid, Clear, Renames;
      if k in index {
        RenameClear(c, inner, keys, index, k);
        timers.Disarm(index[k], inner);
        inner := Clear(inner, index[k]);
      } else {
        NotPending(c, k);
      }
    }

    lemma NotPending(c: Clock<K>, k: K)
      requires Valid(c) && k !in index
      ensures Clear(c, k) == c
    {
      assert c.pending - {k} == c.pending;
    }

    method Arm(k: K, deadline: nat, ghost c: Clock<K>) returns (ok: bool)
      requires Valid(c)
      modifies Repr()
      ensures ok <==> deadline > c.tick
      ensures c.slots > 0 && Valid(Rearm(c, k, deadline)) && fresh(Repr() - old(Repr()))
      ensures deadlines == old(deadlines)[k := deadline]
    {
      hide Valid, Repr, Rearm;
      assert this in Repr() && timers in Repr() by { Own(); }
      Ensure(k, c);
      ok := Set(k, deadline, c);
      assert old(deadlines)[k := if k in old(deadlines) then old(deadlines)[k] else 0][k := deadline]
          == old(deadlines)[k := deadline];
    }

    lemma Own()
      ensures this in Repr() && timers in Repr()
    {
    }

    method Set(k: K, deadline: nat, ghost c: Clock<K>) returns (ok: bool)
      requires Valid(c) && k in index
      modifies Repr()
      ensures ok <==> deadline > c.tick
      ensures c.slots > 0 && Valid(Rearm(c, k, deadline)) && Repr() == old(Repr())
      ensures deadlines == old(deadlines)[k := deadline]
    {
      hide Timers.Valid, Rearm, Renames;
      assert inner.slots == c.slots > 0 && inner.tick == c.tick by { NowShown(c); timers.Tick(inner); SameNow(c); }
      RenameRearm(c, inner, keys, index, k, deadline);
      assert forall x :: x in index && x != k ==> timers.nodes[index[x]] != timers.nodes[index[k]] by {
        timers.Separate(inner);
      }
      ok := timers.Arm(index[k], deadline, inner);
      inner, deadlines := Rearm(inner, index[k], deadline), deadlines[k := deadline];
    }

    /** Whether the timer of `k` is in the wheel, as its node says. */
    predicate Pending(k: K)
      reads this, timers, timers.nodes
    {
      k in index && index[k] < |timers.nodes| && timers.nodes[index[k]].scheduled
    }

    lemma PendingShown(k: K, c: Clock<K>)
      requires Valid(c)
      ensures Pending(k) <==> k in c.pending
    {
      hide Timers.Valid;
      if k in index { timers.ScheduledIsPending(index[k], inner); }
    }

    /** The deadline in the node of `k`. */
    function DeadlineOf(k: K): (deadline: nat)
      requires k in index && index[k] < |timers.nodes|
      reads this, timers, timers.nodes
    {
      timers.nodes[index[k]].deadline
    }

    lemma Indexed(c: Clock<K>)
      requires Valid(c)
      ensures index.Keys == deadlines.Keys
    {
    }

    lemma DeadlineShown(k: K, c: Clock<K>)
      requires Valid(c) && k in index
      ensures index[k] < |timers.nodes| && k in deadlines && DeadlineOf(k) == deadlines[k]
    {
    }

    function Now(): (tick: nat)
      reads timers.wheel
    {
      timers.wheel.tick
    }

    lemma NowShown(c: Clock<K>)
      requires Valid(c)
      ensures Now() == c.tick && c.slots > 0
    {
      hide Timers.Valid;
      timers.Tick(inner);
    }

    lemma SameNow(c: Clock<K>)
      requires Valid(c)
      ensures c.slots == inner.slots && c.tick == inner.tick
    {
    }

    method NextDeadline(ghost c: Clock<K>) returns (deadline: Option<nat>)
      requires Valid(c)
      ensures deadline == Least(Deadlines(c))
    {
      hide Timers.Valid;
      RenameDeadlines(c, inner, keys, index);
      deadline := timers.NextDeadline(inner);
    }

    /** Time passes; the timers that go off are named in the order the wheel gives them out. */
    method Pass(now: nat, ghost c: Clock<K>) returns (ks: seq<K>)
      requires Valid(c)
      modifies Repr()
      ensures Valid(Wait(c, now)) && Repr() == old(Repr()) && deadlines == old(deadlines)
      ensures OnceEach(ks, if now <= c.tick then {} else Due(c, now))
    {
      hide Timers.Valid, Wait, Due, OnceEach;
      RenameWait(c, inner, keys, index, now);
      var ids := timers.Pass(now, inner);
      assert forall i :: 0 <= i < |ids| ==> ids[i] < |keys| by { Bounded(c, now, ids); }
      ks := [];
      while |ks| < |ids|
        invariant |ks| <= |ids| && forall i :: 0 <= i < |ks| ==> ks[i] == keys[ids[i]]
      {
        ks := ks + [keys[ids[|ks|]]];
      }
      RenameDue(c, inner, keys, index, now, ids, ks);
      inner := Wait(inner, now);
    }

    lemma Bounded(c: Clock<K>, now: nat, ids: seq<nat>)
      requires Renames(c, inner, keys, index) && OnceEach(ids, if now <= inner.tick then {} else Due(inner, now))
      ensures forall i :: 0 <= i < |ids| ==> ids[i] < |keys|
    {
      forall i | 0 <= i < |ids| ensures ids[i] < |keys| { assert ids[i] in ids; }
    }
  }
}
