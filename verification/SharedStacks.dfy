/**
 Stacks shared by several routines. Whoever needs a stack next evicts its occupant, whose bytes are copied to its
 snapshot and copied back when it is resumed. The lemmas here show that nobody's data is lost by that, and that the
 result agrees with the machine of module PrivateStacks, where every routine has a stack of its own.
 */
module SharedStacks {
  import opened Results
  import opened Bytes
  import opened PrivateStacks

  /** The word the entry point finds at the very top of its stack; it belongs to no routine's data. */
  const WORD := 8

  datatype Stack = Stack(base: nat, mem: seq<Byte>) {
    predicate Ok() { base > 0 && |mem| >= WORD }

    function Top(): nat { base + |mem| }

    predicate Contains(p: nat) { base <= p && p + WORD <= Top() }

    /** The bytes a routine has pushed when its stack pointer is `p`. */
    function Above(p: nat): (bytes: seq<Byte>)
      requires Ok() && Contains(p)
      ensures |bytes| == Top() - WORD - p
    {
      mem[p - base..|mem| - WORD]
    }

    /** The same memory with `bytes` copied to address `p`. */
    function Copy(p: nat, bytes: seq<Byte>): (s: Stack)
      requires base <= p && p + |bytes| <= Top()
      ensures s.base == base && |s.mem| == |mem|
    {
      Stack(base, mem[..p - base] + bytes + mem[p - base + |bytes|..])
    }

    predicate SameSpace(s: Stack) { s.base == base && |s.mem| == |mem| }
  }

  datatype Slot = Slot(stack: Stack, occupant: Option<Rid>)

  /** The part of a routine that scheduling looks at. */
  datatype Routine = Routine(slot: Option<nat>, own: Stack, state: State, queued: bool, started: bool, handles: nat)

  /** The part of a routine that switching saves: its stack pointer and its snapshot. */
  datatype Context = Context(rsp: nat, snapshot: seq<Byte>, snapshotBegin: nat)

  datatype Restore = Restore(begin: nat, data: seq<Byte>)

  predicate Alive(rt: Routine) { rt.started && rt.state != Init && rt.state != Finished }

  predicate Placed(slots: seq<Slot>, rt: Routine) {
    (rt.slot.Some? ==> rt.slot.value < |slots|) && StackOf(slots, rt).Ok()
  }

  function StackOf(slots: seq<Slot>, rt: Routine): (s: Stack)
    requires rt.slot.Some? ==> rt.slot.value < |slots|
  {
    if rt.slot.Some? then slots[rt.slot.value].stack else rt.own
  }

  /** The routine's data is in the memory of its stack, rather than in its snapshot. */
  predicate Resident(slots: seq<Slot>, id: Rid, rt: Routine)
    requires rt.slot.Some? ==> rt.slot.value < |slots|
  {
    rt.slot.None? || slots[rt.slot.value].occupant == Some(id)
  }

  predicate InMemory(s: Stack, p: nat, image: seq<Byte>) {
    s.Ok() && s.Contains(p) && s.Above(p) == image
  }

  predicate InSnapshot(s: Stack, c: Context, image: seq<Byte>) {
    && s.Ok() && s.Contains(c.rsp)
    && c.snapshotBegin == c.rsp
    && |c.snapshot| == s.Top() - c.rsp
    && c.snapshot[..|c.snapshot| - WORD] == image
  }

  /** The routine's data, as it was when its stack pointer was `p`, is intact. */
  predicate Kept(slots: seq<Slot>, id: Rid, rt: Routine, c: Context, p: nat, image: seq<Byte>)
    requires rt.slot.Some? ==> rt.slot.value < |slots|
  {
    if Resident(slots, id, rt) then InMemory(StackOf(slots, rt), p, image)
    else InSnapshot(StackOf(slots, rt), c, image) && p == c.rsp
  }

  /** A routine about to run for the first time. */
  predicate Entering(slots: seq<Slot>, rt: Routine, c: Context, image: seq<Byte>)
    requires Placed(slots, rt)
  {
    c.rsp + WORD == StackOf(slots, rt).Top() && c.snapshot == [] && image == []
  }

  /** A context after the bytes above `p` were copied to the snapshot. */
  function Saved(c: Context, s: Stack, p: nat): (r: Context)
    requires s.Contains(p)
  {
    c.(snapshotBegin := p, snapshot := s.mem[p - s.base..])
  }

  /** Slots after routine `to` took over slot `k`, whose memory is now `stack`. */
  function TakeOver(slots: seq<Slot>, k: nat, to: Rid, stack: Stack): (r: seq<Slot>)
    requires k < |slots|
  {
    slots[k := Slot(stack, Some(to))]
  }

  // ---------------------------------------------------------------------------------------------
  // Data survives eviction and restore
  // ---------------------------------------------------------------------------------------------

  /** Copying a snapshot back to where it was taken from restores the data above the pointer. */
  lemma CopyRestores(s: Stack, c: Context, image: seq<Byte>)
    requires InSnapshot(s, c, image)
    ensures InMemory(s.Copy(c.snapshotBegin, c.snapshot), c.rsp, image)
  {
  }

  /** The data of an evicted routine that is resumed, or of one that starts, is in memory after the restore. */
  lemma RestoredInMemory(slots: seq<Slot>, to: Rid, rt: Routine, c: Context, image: seq<Byte>)
    requires Placed(slots, rt) && !Resident(slots, to, rt)
    requires Kept(slots, to, rt, c, c.rsp, image) || Entering(slots, rt, c, image)
    ensures var s := StackOf(slots, rt);
            && (c.snapshot == [] ==> InMemory(s, c.rsp, image))
            && (c.snapshot != [] ==>
                  && c.snapshotBegin != 0 && s.base <= c.snapshotBegin && c.snapshotBegin + |c.snapshot| <= s.Top()
                  && InMemory(s.Copy(c.snapshotBegin, c.snapshot), c.rsp, image))
  {
    if c.snapshot != [] {
      CopyRestores(StackOf(slots, rt), c, image);
    }
  }

  /** Whatever happens to slot `k`, a routine that did not live there is not affected. */
  lemma BystanderKept(slots: seq<Slot>, k: nat, to: Rid, stack: Stack, id: Rid, rt: Routine, c: Context, p: nat,
      image: seq<Byte>)
    requires k < |slots| && Placed(slots, rt) && id != to && stack.SameSpace(slots[k].stack)
    requires Kept(slots, id, rt, c, p, image)
    requires slots[k].occupant != Some(id)
    ensures Kept(TakeOver(slots, k, to, stack), id, rt, c.(rsp := p), p, image)
  {
  }

  /** The evicted routine's data moves to its snapshot. */
  lemma EvictedKept(slots: seq<Slot>, k: nat, to: Rid, stack: Stack, id: Rid, rt: Routine, c: Context, p: nat,
      image: seq<Byte>)
    requires k < |slots| && Placed(slots, rt) && id != to && stack.SameSpace(slots[k].stack)
    requires Kept(slots, id, rt, c, p, image)
    requires slots[k].occupant == Some(id) && rt.slot == Some(k)
    ensures slots[k].stack.Contains(p)
    ensures Kept(TakeOver(slots, k, to, stack), id, rt, Saved(c, slots[k].stack, p).(rsp := p), p, image)
  {
  }

  // ---------------------------------------------------------------------------------------------
  // Switching, on values
  // ---------------------------------------------------------------------------------------------

  /** All stack data: the slots, the saved contexts and the stack pointer of whoever is running. */
  datatype Memory = Memory(slots: seq<Slot>, contexts: map<Rid, Context>, sp: nat)

  ghost predicate Shape(routines: map<Rid, Routine>, m: Memory) {
    && (forall k :: 0 <= k < |m.slots| ==> m.slots[k].stack.Ok())
    && (forall id :: id in routines ==> Placed(m.slots, routines[id]))
    && routines.Keys == m.contexts.Keys
  }

  /** Where the stack pointer of routine `id` is while `from` is running. */
  ghost function Pointer(m: Memory, id: Rid, from: Option<Rid>): nat
    requires id in m.contexts
  {
    if from == Some(id) then m.sp else m.contexts[id].rsp
  }

  ghost predicate Holds(routines: map<Rid, Routine>, m: Memory, id: Rid, from: Option<Rid>, image: seq<Byte>)
    requires Shape(routines, m) && id in routines
  {
    Kept(m.slots, id, routines[id], m.contexts[id], Pointer(m, id, from), image)
  }

  /** Slot `k` is used by a routine of its own that has run; only the one being left can have finished. */
  ghost predicate Occupied(routines: map<Rid, Routine>, m: Memory, k: nat, from: Option<Rid>)
    requires Shape(routines, m) && k < |m.slots| && m.slots[k].occupant.Some?
  {
    var o := m.slots[k].occupant.value;
    && o in routines && routines[o].slot == Some(k)
    && (Alive(routines[o]) || (routines[o].state == Finished && from == Some(o)))
    && m.slots[k].stack.Contains(Pointer(m, o, from))
  }

  ghost predicate AllOccupied(routines: map<Rid, Routine>, m: Memory, from: Option<Rid>)
    requires Shape(routines, m)
  {
    forall k :: 0 <= k < |m.slots| && m.slots[k].occupant.Some? ==> Occupied(routines, m, k, from)
  }

  /** What a switch from `from` to `to` needs: the data of all routines, `images`, is intact. */
  ghost predicate CanSwitch(routines: map<Rid, Routine>, m: Memory, from: Option<Rid>, to: Option<Rid>,
                            images: map<Rid, seq<Byte>>)
  {
    && Shape(routines, m) && routines.Keys <= images.Keys && AllOccupied(routines, m, from)
    && (from.Some? ==> from.value in routines && from != to)
    && (to.Some? ==>
          && to.value in routines
          && (|| Holds(routines, m, to.value, from, images[to.value])
              || Entering(m.slots, routines[to.value], m.contexts[to.value], images[to.value])))
    && (forall id :: id in routines && Alive(routines[id]) && to != Some(id) ==>
        Holds(routines, m, id, from, images[id]))
  }

  /** The context of `id` after the occupant of slot `k` was saved and the registers of `from` were stored. */
  ghost function NewContext(routines: map<Rid, Routine>, m: Memory, k: nat, from: Option<Rid>, id: Rid): (c: Context)
    requires Shape(routines, m) && AllOccupied(routines, m, from) && k < |m.slots| && id in routines
  {
    var p := Pointer(m, id, from);
    var c := m.contexts[id].(rsp := p);
    if m.slots[k].occupant == Some(id) && routines[id].state != Finished && m.slots[k].stack.Contains(p)
    then Saved(c, m.slots[k].stack, p) else c
  }

  /** The memory of the slot of `to` once its snapshot, if it has one, was copied back. */
  function RestoredStack(s: Stack, c: Context): (r: Stack) {
    if s.base <= c.snapshotBegin && c.snapshotBegin + |c.snapshot| <= s.Top() && c.snapshot != []
    then s.Copy(c.snapshotBegin, c.snapshot) else s
  }

  /** `m'` is `m` after a switch to a routine `to` that did not occupy its slot. */
  ghost predicate SwitchedSlot(routines: map<Rid, Routine>, m: Memory, from: Option<Rid>, to: Rid, m': Memory)
    requires Shape(routines, m) && AllOccupied(routines, m, from) && to in routines && routines[to].slot.Some?
  {
    var k := routines[to].slot.value;
    && m'.slots == TakeOver(m.slots, k, to, RestoredStack(m.slots[k].stack, m.contexts[to]))
    && m'.contexts.Keys == routines.Keys
    && (forall id :: id in routines ==> m'.contexts[id] == NewContext(routines, m, k, from, id))
    && m'.sp == m.contexts[to].rsp
  }

  /** Saving the occupant of slot `k` and then the registers of `from` gives every routine its new context. */
  lemma SavedContexts(routines: map<Rid, Routine>, m: Memory, from: Option<Rid>, k: nat, saved: map<Rid, Context>,
      contexts: map<Rid, Context>)
    requires Shape(routines, m) && AllOccupied(routines, m, from) && k < |m.slots|
    requires (from.Some? ==> from.value in routines)
    requires var o := m.slots[k].occupant;
      saved == if o.None? || (o.value in routines && routines[o.value].state == Finished) then m.contexts
               else if o.value in routines && m.slots[k].stack.Contains(Pointer(m, o.value, from))
               then m.contexts[o.value := Saved(m.contexts[o.value], m.slots[k].stack, Pointer(m, o.value, from))]
               else m.contexts
    requires contexts == if from.None? then saved else saved[from.value := saved[from.value].(rsp := m.sp)]
    ensures contexts.Keys == routines.Keys
    ensures forall id :: id in routines ==> contexts[id] == NewContext(routines, m, k, from, id)
  {
    if m.slots[k].occupant.Some? {
      assert Occupied(routines, m, k, from);
    }
  }

  /** What a switch to a routine that is not on its slot may rely on. */
  lemma Restorable(routines: map<Rid, Routine>, m: Memory, from: Option<Rid>, to: Rid, images: map<Rid, seq<Byte>>)
    requires CanSwitch(routines, m, from, Some(to), images) && !Resident(m.slots, to, routines[to])
    ensures Shape(routines, m) && AllOccupied(routines, m, from)
    ensures (from.Some? ==> from.value in routines && from != Some(to))
    ensures var c, k := m.contexts[to], routines[to].slot.value;
      c.snapshot != [] ==>
        && c.snapshotBegin != 0 && m.slots[k].stack.base <= c.snapshotBegin
        && c.snapshotBegin + |c.snapshot| <= m.slots[k].stack.Top()
  {
    RestoredInMemory(m.slots, to, routines[to], m.contexts[to], images[to]);
  }

  /** What a switch leaves behind: all data is still intact, and that of `to` is at the stack pointer. */
  ghost predicate HasSwitched(routines: map<Rid, Routine>, m: Memory, to: Option<Rid>, images: map<Rid, seq<Byte>>,
      m': Memory)
    requires Shape(routines, m) && routines.Keys <= images.Keys && (to.Some? ==> to.value in routines)
  {
    && Shape(routines, m') && |m'.slots| == |m.slots|
    && (forall k :: 0 <= k < |m.slots| ==> m'.slots[k].stack.SameSpace(m.slots[k].stack))
    && (forall k :: 0 <= k < |m.slots| ==>
          m'.slots[k].occupant == if to.Some? && routines[to.value].slot == Some(k) then to else m.slots[k].occupant)
    && (forall id :: id in routines && Alive(routines[id]) && to != Some(id) ==>
        Holds(routines, m', id, to, images[id]))
    && (forall id :: id in routines && !Alive(routines[id]) ==> m'.contexts[id].snapshot == m.contexts[id].snapshot)
    && (to.Some? ==> InMemory(StackOf(m'.slots, routines[to.value]), m'.sp, images[to.value]))
  }

  lemma OtherKept(routines: map<Rid, Routine>, m: Memory, from: Option<Rid>, to: Rid, images: map<Rid, seq<Byte>>,
      m': Memory, id: Rid)
    requires CanSwitch(routines, m, from, Some(to), images) && !Resident(m.slots, to, routines[to])
    requires SwitchedSlot(routines, m, from, to, m')
    requires id in routines && Alive(routines[id]) && id != to
    ensures Kept(m'.slots, id, routines[id], m'.contexts[id], m'.contexts[id].rsp, images[id])
  {
    var k := routines[to].slot.value;
    var stack := RestoredStack(m.slots[k].stack, m.contexts[to]);
    var p := Pointer(m, id, from);
    assert Holds(routines, m, id, from, images[id]);
    if m.slots[k].occupant == Some(id) {
      assert Occupied(routines, m, k, from);
      EvictedKept(m.slots, k, to, stack, id, routines[id], m.contexts[id], p, images[id]);
    } else {
      BystanderKept(m.slots, k, to, stack, id, routines[id], m.contexts[id], p, images[id]);
    }
  }

  lemma SlotSwitchShape(routines: map<Rid, Routine>, m: Memory, from: Option<Rid>, to: Rid, m': Memory)
    requires Shape(routines, m) && AllOccupied(routines, m, from) && to in routines && routines[to].slot.Some?
    requires SwitchedSlot(routines, m, from, to, m')
    ensures Shape(routines, m') && |m'.slots| == |m.slots|
    ensures forall k :: 0 <= k < |m.slots| ==> m'.slots[k].stack.SameSpace(m.slots[k].stack)
  {
  }

  /** Evicting, saving and restoring keeps every routine's data. */
  lemma SlotSwitchKeeps(routines: map<Rid, Routine>, m: Memory, from: Option<Rid>, to: Rid, images: map<Rid, seq<Byte>>,
      m': Memory)
    requires CanSwitch(routines, m, from, Some(to), images) && !Resident(m.slots, to, routines[to])
    requires SwitchedSlot(routines, m, from, to, m')
    ensures HasSwitched(routines, m, Some(to), images, m')
  {
    hide Kept, InMemory, Saved;
    SlotSwitchShape(routines, m, from, to, m');
    assert InMemory(StackOf(m'.slots, routines[to]), m'.sp, images[to]) by {
      RestoredInMemory(m.slots, to, routines[to], m.contexts[to], images[to]);
    }
    forall id | id in routines && Alive(routines[id]) && to != id
      ensures Holds(routines, m', id, Some(to), images[id])
    {
      OtherKept(routines, m, from, to, images, m', id);
    }
  }

  /** `m'` is `m` after a switch that needs no slot: to the root context, or to a routine still on its stack. */
  ghost predicate SwitchedPlain(routines: map<Rid, Routine>, m: Memory, from: Option<Rid>, to: Option<Rid>, m': Memory)
    requires Shape(routines, m)
  {
    && m'.slots == m.slots && m'.contexts.Keys == routines.Keys
    && (forall id :: id in routines ==> m'.contexts[id] == m.contexts[id].(rsp := Pointer(m, id, from)))
    && (to.Some? && to.value in routines ==> m'.sp == m.contexts[to.value].rsp)
  }

  lemma PlainSwitchKeeps(routines: map<Rid, Routine>, m: Memory, from: Option<Rid>, to: Option<Rid>,
                         images: map<Rid, seq<Byte>>, m': Memory)
    requires CanSwitch(routines, m, from, to, images)
    requires to.Some? ==> Resident(m.slots, to.value, routines[to.value])
    requires SwitchedPlain(routines, m, from, to, m')
    ensures HasSwitched(routines, m, to, images, m')
  {
    forall k | 0 <= k < |m.slots|
      ensures m'.slots[k].occupant == if to.Some? && routines[to.value].slot == Some(k) then to else m.slots[k].occupant
    {
    }
    forall id | id in routines && Alive(routines[id]) && to != Some(id)
      ensures Holds(routines, m', id, to, images[id])
    {
      assert Holds(routines, m, id, from, images[id]);
    }
  }

  // ---------------------------------------------------------------------------------------------
  // Agreement with the private-stack machine
  // ---------------------------------------------------------------------------------------------

  /** A routine is in the state that the private-stack machine gives it; without live data it has no snapshot. */
  ghost predicate SameState(slots: seq<Slot>, rt: Routine, cx: Context, c: Cell)
    requires Placed(slots, rt)
  {
    && rt.state == c.state && rt.queued == c.queued && rt.handles == c.handles
    && c.shared == rt.slot.Some?
    && c.capacity == |StackOf(slots, rt).mem| - WORD
    && (rt.state == Init ==> !rt.started)
    && (rt.state == Running || Waiting(rt.state) ==> rt.started)
    && (!Alive(rt) ==> c.image == [] && cx.snapshot == [])
  }

  /** Routine `id` is in the state, and has the stack contents, that the private-stack machine gives it. */
  ghost predicate Matches(routines: map<Rid, Routine>, m: Memory, cur: Option<Rid>, id: Rid, c: Cell)
    requires Shape(routines, m) && id in routines
  {
    && SameState(m.slots, routines[id], m.contexts[id], c)
    && (Alive(routines[id]) ==> Holds(routines, m, id, cur, c.image))
  }

  /** All routines match, every occupied slot is used by a routine of its own, and the running one is on its stack. */
  ghost predicate Agree(routines: map<Rid, Routine>, m: Memory, cur: Option<Rid>, cells: map<Rid, Cell>) {
    && Shape(routines, m) && routines.Keys == cells.Keys
    && (forall id :: id in routines ==> Matches(routines, m, cur, id, cells[id]))
    && AllOccupied(routines, m, cur)
    && (cur.Some? ==>
           && cur.value in routines && Alive(routines[cur.value])
           && Resident(m.slots, cur.value, routines[cur.value]))
  }

  ghost function Images(cells: map<Rid, Cell>): map<Rid, seq<Byte>> {
    map id | id in cells :: cells[id].image
  }

  /** The record and context of a routine that is about to be entered. */
  function Launched(rt: Routine): (r: Routine) {
    rt.(state := Running, queued := false, started := true)
  }

  function LaunchContext(rt: Routine, c: Context, s: Stack): (r: Context)
    requires s.Ok()
  {
    if rt.started then c else c.(rsp := s.Top() - WORD)
  }

  /** Data depends on where a routine's stack is, not on its scheduling state. */
  lemma KeptAnyState(slots: seq<Slot>, id: Rid, rt: Routine, rt': Routine, c: Context, p: nat, image: seq<Byte>)
    requires Placed(slots, rt) && rt'.slot == rt.slot && rt'.own == rt.own
    requires Kept(slots, id, rt, c, p, image)
    ensures Kept(slots, id, rt', c, p, image)
  {
  }

  /** Changing the scheduling state of one routine leaves the data of the others alone. */
  lemma OthersHold(routines: map<Rid, Routine>, m: Memory, cur: Option<Rid>, cells: map<Rid, Cell>, id: Rid,
                   rt: Routine, c: Context)
    requires Agree(routines, m, cur, cells) && id in routines
    requires rt.slot == routines[id].slot && rt.own == routines[id].own
    ensures var routines', m' := routines[id := rt], m.(contexts := m.contexts[id := c]);
            && Shape(routines', m')
            && (forall x :: x in routines' && Alive(routines'[x]) && x != id ==>
                Holds(routines', m', x, cur, cells[x].image))
  {
    hide Kept, Occupied;
    var routines', m' := routines[id := rt], m.(contexts := m.contexts[id := c]);
    forall x | x in routines' ensures Placed(m'.slots, routines'[x]) {
      assert Placed(m.slots, routines[x]);
    }
    forall x | x in routines' && Alive(routines'[x]) && x != id ensures Holds(routines', m', x, cur, cells[x].image) {
      assert Matches(routines, m, cur, x, cells[x]);
    }
  }

  /** A change to one routine that leaves its stack data readable leaves all slots occupied as they were. */
  lemma OccupiedFrame(routines: map<Rid, Routine>, m: Memory, from: Option<Rid>, id: Rid, rt: Routine, c: Context)
    requires Shape(routines, m) && AllOccupied(routines, m, from) && id in routines
    requires rt.slot == routines[id].slot && rt.own == routines[id].own
    requires Shape(routines[id := rt], m.(contexts := m.contexts[id := c]))
    requires forall k :: 0 <= k < |m.slots| && m.slots[k].occupant == Some(id) ==>
               && (Alive(rt) || (rt.state == Finished && from == Some(id)))
               && m.slots[k].stack.Contains(if from == Some(id) then m.sp else c.rsp)
    ensures AllOccupied(routines[id := rt], m.(contexts := m.contexts[id := c]), from)
  {
    var routines', m' := routines[id := rt], m.(contexts := m.contexts[id := c]);
    forall k | 0 <= k < |m'.slots| && m'.slots[k].occupant.Some? ensures Occupied(routines', m', k, from) {
      assert Occupied(routines, m, k, from);
    }
  }

  /** Entering a routine that is not on the call stack. */
  lemma EnterCanSwitch(routines: map<Rid, Routine>, m: Memory, cur: Option<Rid>, cells: map<Rid, Cell>, id: Rid)
    requires Agree(routines, m, cur, cells) && id in routines && cur != Some(id)
    requires routines[id].state != Running && routines[id].state != Finished
    requires routines[id].state == Init ==> !routines[id].started
    ensures CanSwitch(routines[id := Launched(routines[id])],
                      m.(contexts := m.contexts[id := LaunchContext(routines[id], m.contexts[id],
                          StackOf(m.slots, routines[id]))]),
                      cur, Some(id), Images(cells))
  {
    hide Kept, AllOccupied;
    var rt, c := Launched(routines[id]), LaunchContext(routines[id], m.contexts[id], StackOf(m.slots, routines[id]));
    var routines', m' := routines[id := rt], m.(contexts := m.contexts[id := c]);
    OthersHold(routines, m, cur, cells, id, rt, c);
    assert AllOccupied(routines', m', cur) by {
      OccupantAlive(routines, m, cur, id);
      OccupiedFrame(routines, m, cur, id, rt, c);
    }
    assert Holds(routines', m', id, cur, cells[id].image) || Entering(m'.slots, rt, c, cells[id].image) by {
      assert Matches(routines, m, cur, id, cells[id]);
      if Alive(routines[id]) {
        KeptAnyState(m.slots, id, routines[id], rt, c, c.rsp, cells[id].image);
      }
    }
  }

  lemma OccupantAlive(routines: map<Rid, Routine>, m: Memory, from: Option<Rid>, id: Rid)
    requires Shape(routines, m) && AllOccupied(routines, m, from) && id in routines
    ensures forall k :: 0 <= k < |m.slots| && m.slots[k].occupant == Some(id) ==>
              && (Alive(routines[id]) || (routines[id].state == Finished && from == Some(id)))
              && m.slots[k].stack.Contains(Pointer(m, id, from))
  {
    forall k | 0 <= k < |m.slots| && m.slots[k].occupant == Some(id)
      ensures (Alive(routines[id]) || (routines[id].state == Finished && from == Some(id)))
              && m.slots[k].stack.Contains(Pointer(m, id, from))
    {
      assert Occupied(routines, m, k, from);
    }
  }

  /** After a switch, every live routine that occupies a slot other than that of `to` still does. */
  lemma StillOccupied(routines: map<Rid, Routine>, m: Memory, from: Option<Rid>, to: Option<Rid>,
                      images: map<Rid, seq<Byte>>, m': Memory)
    requires CanSwitch(routines, m, from, to, images) && HasSwitched(routines, m, to, images, m')
    requires to.Some? ==> Alive(routines[to.value])
    ensures Shape(routines, m')
    ensures forall k :: 0 <= k < |m'.slots| && m'.slots[k].occupant.Some? ==>
              Occupied(routines, m', k, to) || (m'.slots[k].occupant == from && !Alive(routines[from.value]))
    ensures to.Some? ==>
        && Resident(m'.slots, to.value, routines[to.value])
        && Holds(routines, m', to.value, to, images[to.value])
  {
    forall k | 0 <= k < |m'.slots| && m'.slots[k].occupant.Some?
      ensures Occupied(routines, m', k, to) || (m'.slots[k].occupant == from && !Alive(routines[from.value]))
    {
      if !(to.Some? && routines[to.value].slot == Some(k)) {
        assert Occupied(routines, m, k, from);
        var o := m'.slots[k].occupant.value;
        if Alive(routines[o]) {
          assert Holds(routines, m', o, to, images[o]);
        }
      }
    }
  }

  lemma SameStateAfterSwitch(routines: map<Rid, Routine>, m: Memory, to: Option<Rid>, images: map<Rid, seq<Byte>>,
      m': Memory, id: Rid, c: Cell)
    requires Shape(routines, m) && routines.Keys <= images.Keys && id in routines && (to.Some? ==> to.value in routines)
    requires HasSwitched(routines, m, to, images, m')
    requires SameState(m.slots, routines[id], m.contexts[id], c)
    ensures Shape(routines, m') && SameState(m'.slots, routines[id], m'.contexts[id], c)
  {
    hide Kept, InMemory, Holds;
    assert StackOf(m'.slots, routines[id]).SameSpace(StackOf(m.slots, routines[id]));
  }

  lemma SwitchedSizes(routines: map<Rid, Routine>, m: Memory, to: Option<Rid>, images: map<Rid, seq<Byte>>, m': Memory)
    requires Shape(routines, m) && routines.Keys <= images.Keys && (to.Some? ==> to.value in routines)
    requires HasSwitched(routines, m, to, images, m')
    ensures |m'.slots| == |m.slots|
    ensures forall k :: 0 <= k < |m.slots| ==> |m'.slots[k].stack.mem| == |m.slots[k].stack.mem|
  {
    hide Holds, InMemory;
  }

  /** A switch cannot be noticed: whoever agreed with the private-stack machine before agrees with it afterwards. */
  lemma SwitchAgrees(routines: map<Rid, Routine>, m: Memory, from: Option<Rid>, to: Option<Rid>, cells: map<Rid, Cell>,
      m': Memory)
    requires CanSwitch(routines, m, from, to, Images(cells)) && HasSwitched(routines, m, to, Images(cells), m')
    requires routines.Keys == cells.Keys
    requires forall id :: id in routines ==> SameState(m.slots, routines[id], m.contexts[id], cells[id])
    requires to.Some? ==> Alive(routines[to.value])
    requires from.Some? ==> Alive(routines[from.value])
    ensures Agree(routines, m', to, cells)
    ensures |m'.slots| == |m.slots|
    ensures forall k :: 0 <= k < |m.slots| ==> |m'.slots[k].stack.mem| == |m.slots[k].stack.mem|
  {
    hide Kept, InMemory, SameState;
    SwitchedSizes(routines, m, to, Images(cells), m');
    StillOccupied(routines, m, from, to, Images(cells), m');
    forall id | id in routines ensures Matches(routines, m', to, id, cells[id]) {
      SameStateAfterSwitch(routines, m, to, Images(cells), m', id, cells[id]);
    }
  }

  /** The slots once a finished routine no longer occupies one. */
  function Vacated(slots: seq<Slot>, rt: Routine, id: Rid): (r: seq<Slot>)
    requires rt.slot.Some? ==> rt.slot.value < |slots|
  {
    if rt.slot.Some? && slots[rt.slot.value].occupant == Some(id)
    then slots[rt.slot.value := slots[rt.slot.value].(occupant := None)] else slots
  }

  /** Vacating the slot of one routine moves nobody else's data. */
  lemma VacatedKeeps(slots: seq<Slot>, rt: Routine, id: Rid, x: Rid, rx: Routine, c: Context, p: nat, image: seq<Byte>)
    requires Placed(slots, rt) && Placed(slots, rx) && x != id
    ensures Placed(Vacated(slots, rt, id), rx)
    ensures Resident(Vacated(slots, rt, id), x, rx) == Resident(slots, x, rx)
    ensures StackOf(Vacated(slots, rt, id), rx) == StackOf(slots, rx)
    ensures Kept(Vacated(slots, rt, id), x, rx, c, p, image) == Kept(slots, x, rx, c, p, image)
  {
  }

  /** Everybody but `id` agrees with the private-stack machine; `id` has finished and may still occupy its slot. */
  ghost predicate AgreeBut(routines: map<Rid, Routine>, m: Memory, cur: Option<Rid>, cells: map<Rid, Cell>, id: Rid) {
    && Shape(routines, m) && routines.Keys == cells.Keys && id in routines && cur != Some(id)
    && SameState(m.slots, routines[id], m.contexts[id].(snapshot := []), cells[id]) && routines[id].state == Finished
    && (forall x :: x in routines && x != id ==> Matches(routines, m, cur, x, cells[x]))
    && (forall k :: 0 <= k < |m.slots| && m.slots[k].occupant.Some? ==>
          if m.slots[k].occupant == Some(id) then routines[id].slot == Some(k) else Occupied(routines, m, k, cur))
    && (cur.Some? ==>
           && cur.value in routines && Alive(routines[cur.value])
           && Resident(m.slots, cur.value, routines[cur.value]))
  }

  lemma FinishSwitchAgrees(routines: map<Rid, Routine>, m: Memory, id: Rid, to: Option<Rid>, cells: map<Rid, Cell>,
      m': Memory)
    requires CanSwitch(routines, m, Some(id), to, Images(cells)) && HasSwitched(routines, m, to, Images(cells), m')
    requires routines.Keys == cells.Keys
    requires forall x :: x in routines && x != id ==> SameState(m.slots, routines[x], m.contexts[x], cells[x])
    requires SameState(m.slots, routines[id], m.contexts[id].(snapshot := []), cells[id])
    requires routines[id].state == Finished
    requires to.Some? ==> Alive(routines[to.value])
    ensures AgreeBut(routines, m', to, cells, id)
    ensures |m'.slots| == |m.slots|
    ensures forall k :: 0 <= k < |m.slots| ==> |m'.slots[k].stack.mem| == |m.slots[k].stack.mem|
  {
    hide Kept, InMemory;
    SwitchedSizes(routines, m, to, Images(cells), m');
    StillOccupied(routines, m, Some(id), to, Images(cells), m');
    forall x | x in routines && x != id ensures Matches(routines, m', to, x, cells[x]) {
      hide SameState;
      SameStateAfterSwitch(routines, m, to, Images(cells), m', x, cells[x]);
    }
    assert SameState(m'.slots, routines[id], m'.contexts[id].(snapshot := []), cells[id]) by {
      assert StackOf(m'.slots, routines[id]).SameSpace(StackOf(m.slots, routines[id]));
    }
    forall k | 0 <= k < |m'.slots| && m'.slots[k].occupant == Some(id) ensures routines[id].slot == Some(k) {
      assert Occupied(routines, m, k, Some(id));
    }
  }

  /** The slots and contexts once `id` has vacated its slot and dropped its snapshot. */
  ghost function Released(routines: map<Rid, Routine>, m: Memory, id: Rid): (m': Memory)
    requires Shape(routines, m) && id in routines
  {
    m.(slots := Vacated(m.slots, routines[id], id),
       contexts := m.contexts[id := m.contexts[id].(snapshot := [], snapshotBegin := 0)])
  }

  lemma ReleasedShape(routines: map<Rid, Routine>, m: Memory, id: Rid)
    requires Shape(routines, m) && id in routines
    ensures Shape(routines, Released(routines, m, id))
    ensures forall x :: x in routines ==>
      StackOf(Released(routines, m, id).slots, routines[x]) == StackOf(m.slots, routines[x])
  {
    forall x | x in routines ensures Placed(Vacated(m.slots, routines[id], id), routines[x]) {
      assert Placed(m.slots, routines[x]);
    }
  }

  lemma ReleasedMatches(routines: map<Rid, Routine>, m: Memory, cur: Option<Rid>, id: Rid, x: Rid, c: Cell)
    requires Shape(routines, m) && id in routines && x in routines && x != id
    requires Shape(routines, Released(routines, m, id))
    requires Matches(routines, m, cur, x, c)
    ensures Matches(routines, Released(routines, m, id), cur, x, c)
  {
    hide Kept;
    VacatedKeeps(m.slots, routines[id], id, x, routines[x], m.contexts[x], Pointer(m, x, cur), c.image);
  }

  lemma ReleasedOccupied(routines: map<Rid, Routine>, m: Memory, cur: Option<Rid>, cells: map<Rid, Cell>, id: Rid)
    requires AgreeBut(routines, m, cur, cells, id)
    requires Shape(routines, Released(routines, m, id))
    ensures AllOccupied(routines, Released(routines, m, id), cur)
  {
    hide Matches, SameState;
    var m' := Released(routines, m, id);
    forall k | 0 <= k < |m'.slots| && m'.slots[k].occupant.Some? ensures Occupied(routines, m', k, cur) {
      assert m'.slots[k] == m.slots[k];
      assert Occupied(routines, m, k, cur);
    }
  }

  /** Once the finished routine has let go of its slot, everybody agrees again. */
  lemma ReleasedAgrees(routines: map<Rid, Routine>, m: Memory, cur: Option<Rid>, cells: map<Rid, Cell>, id: Rid)
    requires AgreeBut(routines, m, cur, cells, id)
    ensures Agree(routines, Released(routines, m, id), cur, cells)
  {
    hide Occupied, AllOccupied, Holds;
    var m' := Released(routines, m, id);
    ReleasedShape(routines, m, id);
    ReleasedOccupied(routines, m, cur, cells, id);
    forall x | x in routines ensures Matches(routines, m', cur, x, cells[x]) {
      if x != id {
        hide Matches;
        assert Matches(routines, m, cur, x, cells[x]);
        ReleasedMatches(routines, m, cur, id, x, cells[x]);
      }
    }
    if cur.Some? {
      VacatedKeeps(m.slots, routines[id], id, cur.value, routines[cur.value], m.contexts[id], 0, []);
    }
  }

  /** A routine that agrees but occupies no slot can be forgotten. */
  lemma ForgottenAgrees(routines: map<Rid, Routine>, m: Memory, cur: Option<Rid>, cells: map<Rid, Cell>, id: Rid)
    requires Agree(routines, m, cur, cells) && id in routines && cur != Some(id) && !Alive(routines[id])
    ensures Agree(routines - {id}, m.(contexts := m.contexts - {id}), cur, cells - {id})
  {
    hide Kept;
    var routines', m', cells' := routines - {id}, m.(contexts := m.contexts - {id}), cells - {id};
    assert Shape(routines', m');
    assert AllOccupied(routines', m', cur) by {
      forall k | 0 <= k < |m'.slots| && m'.slots[k].occupant.Some? ensures Occupied(routines', m', k, cur) {
        assert Occupied(routines, m, k, cur);
      }
    }
    forall x | x in routines' ensures Matches(routines', m', cur, x, cells'[x]) {
      assert Matches(routines, m, cur, x, cells[x]);
    }
  }

  /** The running routine may give control to any other live routine, or to the root context. */
  lemma LeaveCanSwitch(routines: map<Rid, Routine>, m: Memory, id: Rid, to: Option<Rid>, cells: map<Rid, Cell>,
      rt: Routine, images: map<Rid, seq<Byte>>)
    requires Agree(routines, m, Some(id), cells) && to != Some(id)
    requires rt.slot == routines[id].slot && rt.own == routines[id].own && rt.started && rt.state != Init
    requires to.Some? ==> to.value in routines && Alive(routines[to.value])
    requires routines.Keys <= images.Keys
    requires forall x :: x in routines && (x != id || Alive(rt)) ==> images[x] == cells[x].image
    ensures CanSwitch(routines[id := rt], m, Some(id), to, images)
  {
    hide Kept, AllOccupied;
    var routines' := routines[id := rt];
    OthersHold(routines, m, Some(id), cells, id, rt, m.contexts[id]);
    assert m.contexts[id := m.contexts[id]] == m.contexts;
    assert AllOccupied(routines', m, Some(id)) by {
      OccupantAlive(routines, m, Some(id), id);
      OccupiedFrame(routines, m, Some(id), id, rt, m.contexts[id]);
    }
    if Alive(rt) {
      assert Matches(routines, m, Some(id), id, cells[id]);
      KeptAnyState(m.slots, id, routines[id], rt, m.contexts[id], m.sp, cells[id].image);
    }
  }

  lemma EnterSameState(routines: map<Rid, Routine>, m: Memory, cur: Option<Rid>, cells: map<Rid, Cell>, id: Rid, x: Rid)
    requires Agree(routines, m, cur, cells) && id in routines && x in routines
    requires routines[id].state != Finished
    ensures SameState(m.slots, if x == id then Launched(routines[id]) else routines[x],
                      if x == id then LaunchContext(routines[id], m.contexts[id], StackOf(m.slots, routines[id]))
                          else m.contexts[x],
                      if x == id then cells[id].(state := Running, queued := false) else cells[x])
  {
    hide Kept, AllOccupied;
    assert Matches(routines, m, cur, x, cells[x]);
  }

  /** A routine that was given control by a switch is where its cell says it is. */
  lemma EnterAgrees(routines: map<Rid, Routine>, m: Memory, cur: Option<Rid>, cells: map<Rid, Cell>, id: Rid,
      m': Memory)
    requires Agree(routines, m, cur, cells) && id in routines && cur != Some(id)
    requires routines[id].state != Running && routines[id].state != Finished
    requires routines[id].state == Init ==> !routines[id].started
    requires HasSwitched(routines[id := Launched(routines[id])],
                         m.(contexts := m.contexts[id := LaunchContext(routines[id], m.contexts[id],
                             StackOf(m.slots, routines[id]))]),
                         Some(id), Images(cells), m')
    ensures Agree(routines[id := Launched(routines[id])], m', Some(id),
        cells[id := cells[id].(state := Running, queued := false)])
    ensures |m'.slots| == |m.slots|
    ensures forall k :: 0 <= k < |m.slots| ==> |m'.slots[k].stack.mem| == |m.slots[k].stack.mem|
  {
    hide Kept, AllOccupied, CanSwitch, HasSwitched, SameState;
    var routines' := routines[id := Launched(routines[id])];
    var context := LaunchContext(routines[id], m.contexts[id], StackOf(m.slots, routines[id]));
    var m1 := m.(contexts := m.contexts[id := context]);
    var cells' := cells[id := cells[id].(state := Running, queued := false)];
    assert Images(cells') == Images(cells);
    EnterCanSwitch(routines, m, cur, cells, id);
    forall x | x in routines' ensures Placed(m1.slots, routines'[x])
        && SameState(m1.slots, routines'[x], m1.contexts[x], cells'[x]) {
      EnterSameState(routines, m, cur, cells, id, x);
    }
    hide Agree;
    SwitchAgrees(routines', m1, cur, Some(id), cells', m');
  }

  /** Changing only the scheduling state of one routine, without touching its data. */
  lemma ControlAgrees(routines: map<Rid, Routine>, m: Memory, cur: Option<Rid>, cells: map<Rid, Cell>, id: Rid,
      rt: Routine, c: Cell)
    requires Agree(routines, m, cur, cells) && id in routines
    requires rt.slot == routines[id].slot && rt.own == routines[id].own
    requires Alive(rt) == Alive(routines[id]) && c.image == cells[id].image
    requires SameState(m.slots, rt, m.contexts[id], c)
    ensures Agree(routines[id := rt], m, cur, cells[id := c])
  {
    hide Kept, AllOccupied, SameState;
    var routines' := routines[id := rt];
    OthersHold(routines, m, cur, cells, id, rt, m.contexts[id]);
    assert m.contexts[id := m.contexts[id]] == m.contexts;
    assert AllOccupied(routines', m, cur) by {
      OccupantAlive(routines, m, cur, id);
      OccupiedFrame(routines, m, cur, id, rt, m.contexts[id]);
    }
    forall x | x in routines' ensures Matches(routines', m, cur, x, cells[id := c][x]) {
      assert Matches(routines, m, cur, x, cells[x]);
      if x == id && Alive(rt) {
        KeptAnyState(m.slots, id, routines[id], rt, m.contexts[id], Pointer(m, id, cur), c.image);
      }
    }
  }

  /** Resetting a finished routine, or adding a new one: there is no data yet. */
  lemma NewAgrees(routines: map<Rid, Routine>, m: Memory, cur: Option<Rid>, cells: map<Rid, Cell>, id: Rid, rt: Routine,
      cx: Context, c: Cell)
    requires Agree(routines, m, cur, cells) && cur != Some(id)
    requires id in routines ==> !Alive(routines[id])
    requires rt.state == Init && Placed(m.slots, rt) && SameState(m.slots, rt, cx, c)
    ensures Agree(routines[id := rt], m.(contexts := m.contexts[id := cx]), cur, cells[id := c])
  {
    hide AllOccupied, SameState, Matches, Holds, Alive;
    var routines', m', cells' := routines[id := rt], m.(contexts := m.contexts[id := cx]), cells[id := c];
    assert Shape(routines', m');
    NewOccupied(routines, m, cur, id, rt, cx);
    forall x | x in routines' ensures Matches(routines', m', cur, x, cells'[x]) {
      if x != id {
        OldMatches(routines, m, cur, id, rt, cx, x, cells[x]);
      } else {
        NewMatches(routines, m, cur, id, rt, cx, c);
      }
    }
    AliveByState(rt);
  }

  lemma AliveByState(rt: Routine)
    ensures rt.state == Init ==> !Alive(rt)
  {
  }

  lemma NewOccupied(routines: map<Rid, Routine>, m: Memory, cur: Option<Rid>, id: Rid, rt: Routine, cx: Context)
    requires Shape(routines, m) && AllOccupied(routines, m, cur) && cur != Some(id)
    requires id in routines ==> !Alive(routines[id])
    requires rt.state == Init && Placed(m.slots, rt)
    ensures Shape(routines[id := rt], m.(contexts := m.contexts[id := cx]))
    ensures AllOccupied(routines[id := rt], m.(contexts := m.contexts[id := cx]), cur)
  {
    hide Kept;
    var routines', m' := routines[id := rt], m.(contexts := m.contexts[id := cx]);
    forall k | 0 <= k < |m'.slots| && m'.slots[k].occupant.Some? ensures Occupied(routines', m', k, cur) {
      assert Occupied(routines, m, k, cur);
    }
  }

  lemma OldMatches(routines: map<Rid, Routine>, m: Memory, cur: Option<Rid>, id: Rid, rt: Routine, cx: Context, x: Rid,
      c: Cell)
    requires Shape(routines, m) && Placed(m.slots, rt) && x in routines && x != id && Matches(routines, m, cur, x, c)
    ensures Shape(routines[id := rt], m.(contexts := m.contexts[id := cx]))
    ensures Matches(routines[id := rt], m.(contexts := m.contexts[id := cx]), cur, x, c)
  {
    hide Kept, SameState;
  }

  lemma NewMatches(routines: map<Rid, Routine>, m: Memory, cur: Option<Rid>, id: Rid, rt: Routine, cx: Context, c: Cell)
    requires Shape(routines, m) && rt.state == Init && Placed(m.slots, rt) && SameState(m.slots, rt, cx, c)
    ensures Shape(routines[id := rt], m.(contexts := m.contexts[id := cx]))
    ensures Matches(routines[id := rt], m.(contexts := m.contexts[id := cx]), cur, id, c)
  {
    hide Kept, SameState;
  }

  /** The memory of a stack once `image` has been pushed right below its top word. */
  function Pushed(s: Stack, image: seq<Byte>): (r: Stack)
    requires s.Ok() && |image| + WORD <= |s.mem|
    ensures r.SameSpace(s)
  {
    s.Copy(s.Top() - WORD - |image|, image)
  }

  lemma PushedInMemory(s: Stack, image: seq<Byte>)
    requires s.Ok() && |image| + WORD <= |s.mem|
    ensures InMemory(Pushed(s, image), s.Top() - WORD - |image|, image)
  {
  }

  /** Writing to the slot of its occupant changes nobody else's data. */
  lemma WriteKeeps(slots: seq<Slot>, k: nat, stack: Stack, id: Rid, x: Rid, rx: Routine, c: Context, p: nat,
      image: seq<Byte>)
    requires k < |slots| && slots[k].occupant == Some(id) && x != id && Placed(slots, rx)
    requires stack.SameSpace(slots[k].stack)
    requires Kept(slots, x, rx, c, p, image)
    ensures Kept(slots[k := slots[k].(stack := stack)], x, rx, c, p, image)
  {
  }

  lemma WorkSlotAgrees(routines: map<Rid, Routine>, m: Memory, id: Rid, cells: map<Rid, Cell>, image: seq<Byte>)
    requires Agree(routines, m, Some(id), cells) && routines[id].slot.Some?
    requires |image| <= cells[id].capacity
    ensures var k := routines[id].slot.value;
            var s := m.slots[k].stack;
            && |image| + WORD <= |s.mem|
            && Agree(routines, m.(slots := m.slots[k := m.slots[k].(stack := Pushed(s, image))],
                sp := s.Top() - WORD - |image|),
                     Some(id), cells[id := cells[id].(image := image)])
  {
    hide Kept;
    assert Matches(routines, m, Some(id), id, cells[id]);
    var k := routines[id].slot.value;
    var s := m.slots[k].stack;
    var m' := m.(slots := m.slots[k := m.slots[k].(stack := Pushed(s, image))], sp := s.Top() - WORD - |image|);
    var cells' := cells[id := cells[id].(image := image)];
    forall x | x in routines ensures Placed(m'.slots, routines[x]) {
      assert Placed(m.slots, routines[x]);
    }
    assert Shape(routines, m');
    WorkSlotMatches(routines, m, id, cells, image, m');
    forall j | 0 <= j < |m'.slots| && m'.slots[j].occupant.Some? ensures Occupied(routines, m', j, Some(id)) {
      assert Occupied(routines, m, j, Some(id));
    }
  }

  lemma WorkSlotMatches(routines: map<Rid, Routine>, m: Memory, id: Rid, cells: map<Rid, Cell>, image: seq<Byte>,
      m': Memory)
    requires Agree(routines, m, Some(id), cells) && routines[id].slot.Some?
    requires var k := routines[id].slot.value;
             var s := m.slots[k].stack;
             && |image| + WORD <= |s.mem|
             && m' == m.(slots := m.slots[k := m.slots[k].(stack := Pushed(s, image))], sp := s.Top() - WORD - |image|)
    requires Shape(routines, m')
    ensures forall x :: x in routines ==> Matches(routines, m', Some(id), x, cells[id := cells[id].(image := image)][x])
  {
    hide AllOccupied, InSnapshot;
    var k := routines[id].slot.value;
    var s := m.slots[k].stack;
    forall x | x in routines ensures Matches(routines, m', Some(id), x, cells[id := cells[id].(image := image)][x]) {
      assert Matches(routines, m, Some(id), x, cells[x]);
      if x == id {
        PushedInMemory(s, image);
      } else if Alive(routines[x]) {
        hide Kept;
        WriteKeeps(m.slots, k, Pushed(s, image), id, x, routines[x], m.contexts[x], Pointer(m, x, Some(id)),
            cells[x].image);
      }
    }
  }

  lemma WorkOwnAgrees(routines: map<Rid, Routine>, m: Memory, id: Rid, cells: map<Rid, Cell>, image: seq<Byte>)
    requires Agree(routines, m, Some(id), cells) && routines[id].slot.None?
    requires |image| <= cells[id].capacity
    ensures var s := routines[id].own;
            && s.Ok() && |image| + WORD <= |s.mem|
            && Agree(routines[id := routines[id].(own := Pushed(s, image))], m.(sp := s.Top() - WORD - |image|),
                     Some(id), cells[id := cells[id].(image := image)])
  {
    hide Kept;
    assert Matches(routines, m, Some(id), id, cells[id]);
    var s := routines[id].own;
    var routines', m' := routines[id := routines[id].(own := Pushed(s, image))], m.(sp := s.Top() - WORD - |image|);
    var cells' := cells[id := cells[id].(image := image)];
    assert Shape(routines', m');
    assert AllOccupied(routines', m', Some(id)) by {
      forall j | 0 <= j < |m'.slots| && m'.slots[j].occupant.Some? ensures Occupied(routines', m', j, Some(id)) {
        assert Occupied(routines, m, j, Some(id));
      }
    }
    WorkOwnMatches(routines, m, id, cells, image, routines', m');
  }

  lemma WorkOwnMatches(routines: map<Rid, Routine>, m: Memory, id: Rid, cells: map<Rid, Cell>, image: seq<Byte>,
                       routines': map<Rid, Routine>, m': Memory)
    requires Agree(routines, m, Some(id), cells) && routines[id].slot.None?
    requires var s := routines[id].own;
             && s.Ok() && |image| + WORD <= |s.mem|
             && routines' == routines[id := routines[id].(own := Pushed(s, image))]
             && m' == m.(sp := s.Top() - WORD - |image|)
    requires Shape(routines', m')
    ensures forall x :: x in routines' ==> Matches(routines', m', Some(id), x,
        cells[id := cells[id].(image := image)][x])
  {
    hide Kept, AllOccupied;
    forall x | x in routines' ensures Matches(routines', m', Some(id), x, cells[id := cells[id].(image := image)][x]) {
      assert Matches(routines, m, Some(id), x, cells[x]);
      if x == id {
        OwnKept(m'.slots, id, routines'[id], m'.contexts[id], routines[id].own, image);
      }
    }
  }

  lemma OwnKept(slots: seq<Slot>, id: Rid, rt: Routine, c: Context, s: Stack, image: seq<Byte>)
    requires rt.slot.None? && s.Ok() && |image| + WORD <= |s.mem| && rt.own == Pushed(s, image)
    ensures Kept(slots, id, rt, c, s.Top() - WORD - |image|, image)
  {
    PushedInMemory(s, image);
  }
}
