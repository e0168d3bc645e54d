/**
 The scheduler with shared stacks. The ghost field `model` is the machine of module PrivateStacks, and every method is
 proved to do to it exactly what that machine does, with the same outcome.
 */
module CoroutineScheduler {
  import opened Results
  import opened Bytes
  import opened PrivateStacks
  import SchedulerHistory
  import opened SharedStacks

  class Scheduler {
    var slots: seq<Slot>
    var routines: map<Rid, Routine>
    var contexts: map<Rid, Context>
    var callStack: seq<Rid>
    var current: Option<Rid>
    var ready: seq<Rid>
    var pool: seq<Rid>
    const poolMax: nat
    var nextId: nat
    var nextShared: nat
    var live: nat
    var sp: nat // the stack pointer of the running routine
    ghost var model: Machine

    ghost function Mem(): Memory
      reads this
    {
      Memory(slots, contexts, sp)
    }

    // -------------------------------------------------------------------------------------------
    // Stack switching
    // -------------------------------------------------------------------------------------------

    /** Copies the live bytes of an evicted routine to its snapshot; a finished one has none. */
    method SaveSharedStack(id: Rid, stackPointer: Option<nat>)
      requires id in routines && id in contexts && Placed(slots, routines[id]) && routines[id].slot.Some?
      requires routines[id].state != Init
      requires var sp := if stackPointer.Some? then stackPointer.value else contexts[id].rsp;
        StackOf(slots, routines[id]).Contains(sp)
      modifies this`contexts
      ensures contexts ==
              if routines[id].state == Finished then old(contexts)
              else old(contexts)[id := Saved(old(contexts)[id], StackOf(slots, routines[id]),
                                             if stackPointer.Some? then stackPointer.value else old(contexts)[id].rsp)]
    {
      var rt := routines[id];
      if rt.state == Finished {
        return;
      }
      var stack := StackOf(slots, rt);
      var p := if stackPointer.Some? then stackPointer.value else contexts[id].rsp;
      assert stack.base <= p <= stack.Top(); // the saved pointer is never outside its stack
      contexts := contexts[id := contexts[id].(snapshotBegin := p, snapshot := stack.mem[p - stack.base..])];
    }

    /** Evicts whoever occupies the slot of `id` and says which bytes must be copied back. */
    method PrepareSharedStack(id: Rid, cur: Option<Rid>) returns (restore: Option<Restore>)
      requires Shape(routines, Mem()) && id in routines && AllOccupied(routines, Mem(), cur)
      requires !Resident(slots, id, routines[id]) ==> contexts[id].snapshot == [] || contexts[id].snapshotBegin != 0
      modifies this`contexts, this`slots
      ensures old(Resident(slots, id, routines[id])) ==> unchanged(this) && restore == None
      ensures old(!Resident(slots, id, routines[id])) ==>
                var k, c := routines[id].slot.value, old(contexts[id]);
                var o := old(slots)[k].occupant;
                && slots == old(slots)[k := old(slots)[k].(occupant := Some(id))]
                && restore == (if c.snapshot == [] then None else Some(Restore(c.snapshotBegin, c.snapshot)))
                && contexts == if o.None? || routines[o.value].state == Finished then old(contexts)
                               else
                                 var sp := Pointer(old(Mem()), o.value, cur);
                                 old(contexts)[o.value := Saved(old(contexts)[o.value], old(slots)[k].stack, sp)]
    {
      var rt := routines[id];
      if rt.slot.None? || slots[rt.slot.value].occupant == Some(id) {
        return None;
      }
      var k := rt.slot.value;
      var occupant := slots[k].occupant;
      if occupant.Some? {
        assert Occupied(routines, Mem(), k, cur);
        SaveSharedStack(occupant.value, if occupant == cur then Some(sp) else None);
      }
      slots := slots[k := slots[k].(occupant := Some(id))];
      var c := contexts[id];
      if c.snapshot == [] {
        return None;
      }
      assert c.snapshotBegin != 0; // a snapshot always has a restore address
      restore := Some(Restore(c.snapshotBegin, c.snapshot));
    }

    /** Saves the registers of `from`, copies the restore bytes, and continues on the stack of `to`. */
    method ContextSwitch(from: Option<Rid>, to: Option<Rid>, restore: Option<Restore>)
      requires from.Some? ==> from.value in contexts
      requires to.Some? ==>
          && to.value in routines && to.value in contexts && to != from
          && Placed(slots, routines[to.value])
      requires restore.Some? ==>
                 && to.Some? && routines[to.value].slot.Some?
                 && var s := StackOf(slots, routines[to.value]);
                    s.base <= restore.value.begin && restore.value.begin + |restore.value.data| <= s.Top()
      modifies this`contexts, this`slots, this`sp
      ensures contexts == if from.None? then old(contexts)
                          else old(contexts)[from.value := old(contexts)[from.value].(rsp := old(sp))]
      ensures slots == if restore.None? then old(slots)
                       else var k := routines[to.value].slot.value;
                            var stack := old(slots)[k].stack.Copy(restore.value.begin, restore.value.data);
                            old(slots)[k := old(slots)[k].(stack := stack)]
      ensures to.Some? ==> sp == old(contexts)[to.value].rsp
    {
      if from.Some? {
        contexts := contexts[from.value := contexts[from.value].(rsp := sp)];
      }
      if restore.Some? {
        var k := routines[to.value].slot.value;
        slots := slots[k := slots[k].(stack := slots[k].stack.Copy(restore.value.begin, restore.value.data))];
      }
      sp := if to.Some? then contexts[to.value].rsp else 0;
    }

    /** A switch to a routine that does not occupy its slot: somebody else may be using it. */
    method SwitchSlot(from: Option<Rid>, to: Rid, ghost images: map<Rid, seq<Byte>>)
      requires CanSwitch(routines, Mem(), from, Some(to), images) && !Resident(slots, to, routines[to])
      modifies this`contexts, this`slots, this`sp
      ensures SwitchedSlot(routines, old(Mem()), from, to, Mem())
    {
      hide Kept, InMemory, Holds, Entering;
      ghost var m, k := Mem(), routines[to].slot.value;
      Restorable(routines, m, from, to, images);
      hide CanSwitch;
      var restore := PrepareSharedStack(to, from);
      ghost var saved := contexts;
      ContextSwitch(from, Some(to), restore);
      assert slots == TakeOver(m.slots, k, to, RestoredStack(m.slots[k].stack, m.contexts[to]));
      hide AllOccupied, TakeOver, RestoredStack;
      SavedContexts(routines, m, from, k, saved, contexts);
    }

    /**
     A switch from one routine to another, either of which may be the root context. All data is intact afterwards,
     and the stack pointer of the routine switched to is at its own data.
     */
    method Switch(from: Option<Rid>, to: Option<Rid>, ghost images: map<Rid, seq<Byte>>)
      requires CanSwitch(routines, Mem(), from, to, images)
      modifies this`contexts, this`slots, this`sp
      ensures HasSwitched(routines, old(Mem()), to, images, Mem())
    {
      hide Kept, InMemory, HasSwitched, Saved;
      if to.None? || Resident(slots, to.value, routines[to.value]) {
        ContextSwitch(from, to, None);
        PlainSwitchKeeps(routines, old(Mem()), from, to, images, Mem());
      } else {
        SwitchSlot(from, to.value, images);
        SlotSwitchKeeps(routines, old(Mem()), from, to.value, images, Mem());
      }
    }

    // -------------------------------------------------------------------------------------------
    // Scheduling
    // -------------------------------------------------------------------------------------------

    ghost predicate SameControl()
      reads this
    {
      && callStack == model.callStack && ready == model.ready && pool == model.pool
      && poolMax == model.poolMax && nextId == model.nextId && live == model.live
      && model.sharedCapacity.Some? == (slots != [])
      && (forall k :: 0 <= k < |slots| ==> model.sharedCapacity == Some(|slots[k].stack.mem| - WORD))
      && current == if callStack == [] then None else Some(callStack[|callStack| - 1])
    }

    ghost predicate Valid()
      reads this
    {
      Agree(routines, Mem(), current, model.cells) && SameControl() && Inv(model)
    }

    constructor (stacks: seq<Stack>, sharedCapacity: nat, poolMax: nat)
      requires forall s :: s in stacks ==> s.Ok() && |s.mem| == sharedCapacity + WORD
      ensures Valid()
      ensures model == Initial(poolMax, if stacks == [] then None else Some(sharedCapacity))
    {
      slots := seq(|stacks|, k requires 0 <= k < |stacks| => Slot(stacks[k], None));
      routines, contexts := map[], map[];
      callStack, current, ready, pool := [], None, [], [];
      this.poolMax := poolMax;
      nextId, nextShared, live, sp := 1, 0, 0, 0;
      model := Initial(poolMax, if stacks == [] then None else Some(sharedCapacity));
      InitialInv(poolMax, if stacks == [] then None else Some(sharedCapacity));
    }

    /** Puts a routine that is not running on its stack and gives it control. */
    method EnterRoutine(id: Rid, ghost cells: map<Rid, Cell>)
      requires Agree(routines, Mem(), current, cells) && id in routines && current != Some(id)
      requires routines[id].state != Running && routines[id].state != Finished
      modifies this`routines, this`contexts, this`slots, this`sp, this`callStack, this`current
      ensures Agree(routines, Mem(), current, cells[id := cells[id].(state := Running, queued := false)])
      ensures callStack == old(callStack) + [id] && current == Some(id)
      ensures |slots| == |old(slots)|
      ensures forall k :: 0 <= k < |slots| ==> |slots[k].stack.mem| == |old(slots)[k].stack.mem|
    {
      hide Agree, CanSwitch, HasSwitched, Placed, SameState;
      ghost var routines0, m0 := routines, Mem();
      ReadyToEnter(cells, id);
      EnterCanSwitch(routines, Mem(), current, cells, id);
      var rt := routines[id];
      contexts := contexts[id := LaunchContext(rt, contexts[id], StackOf(slots, rt))];
      routines := routines[id := Launched(rt)];
      var caller := current;
      callStack := callStack + [id];
      current := Some(id);
      Switch(caller, Some(id), Images(cells));
      EnterAgrees(routines0, m0, caller, cells, id, Mem());
    }

    lemma ReadyToEnter(cells: map<Rid, Cell>, id: Rid)
      requires Agree(routines, Mem(), current, cells) && id in routines
      ensures id in contexts && id in cells && Placed(slots, routines[id]) && StackOf(slots, routines[id]).Ok()
      ensures routines[id].state == Init ==> !routines[id].started
    {
      assert Matches(routines, Mem(), current, id, cells[id]);
    }

    // -------------------------------------------------------------------------------------------
    // Events
    // -------------------------------------------------------------------------------------------

    /** The pooled routine to reuse, searched from the back of the pool. */
    method Acquire(capacity: nat) returns (found: Option<nat>)
      requires Valid()
      ensures found == PickPooled(model, capacity, |pool|)
    {
      hide Inv, Agree;
      var index := |pool|;
      while index != 0
        invariant 0 <= index <= |pool|
        invariant PickPooled(model, capacity, |pool|) == PickPooled(model, capacity, index)
      {
        var candidate := index - 1;
        PooledMatches(candidate);
        var rt := routines[pool[candidate]];
        if rt.handles == 0 && (rt.slot.Some? || capacity + WORD <= |rt.own.mem|) {
          return Some(candidate);
        }
        index := index - 1;
      }
      found := None;
    }

    lemma PooledMatches(i: nat)
      requires Valid() && i < |pool|
      ensures pool[i] in routines && pool[i] in model.cells && routines[pool[i]].state == Finished
      ensures Reusable(model.cells[pool[i]], 0) <==> routines[pool[i]].handles == 0
      ensures model.cells[pool[i]].handles == routines[pool[i]].handles
      ensures model.cells[pool[i]].shared == routines[pool[i]].slot.Some?
      ensures Placed(slots, routines[pool[i]])
      ensures model.cells[pool[i]].capacity + WORD == |StackOf(slots, routines[pool[i]]).mem|
      ensures current != Some(pool[i])
    {
      Listed(model, model.pool, i, Finished);
      assert Matches(routines, Mem(), current, pool[i], model.cells[pool[i]]);
    }

    method Create(capacity: nat) returns (id: Rid)
      requires Valid()
      modifies this
      ensures Valid() && (model, id) == StepCreate(old(model), capacity)
      ensures id in routines && routines[id].state == Init && current == old(current)
    {
      hide Inv, Agree, PickPooled;
      CreateKeepsInv(model, capacity);
      var found := Acquire(capacity);
      if found.Some? {
        id := Reuse(found.value);
      } else {
        id := Fresh(capacity);
      }
      model := StepCreate(old(model), capacity).0;
    }

    /** Takes a finished routine out of the pool and resets it. */
    method Reuse(i: nat) returns (id: Rid)
      requires Valid() && i < |pool|
      modifies this`pool, this`routines, this`contexts
      ensures id == old(pool)[i] && pool == SwapRemove(old(pool), i)
      ensures id in old(model.cells) && id in routines && routines[id].state == Init
      ensures var c := model.cells[id];
              Agree(routines, Mem(), current, model.cells[id := Cell(Init, false, [], 1, c.shared, c.capacity)])
    {
      hide Inv, Agree;
      PooledMatches(i);
      id := pool[i];
      var rt := routines[id];
      if i + 1 != |pool| {
        pool := pool[i := pool[|pool| - 1]];
      }
      pool := pool[..|pool| - 1];
      ghost var c := model.cells[id];
      NewAgrees(routines, Mem(), current, model.cells, id,
          rt.(state := Init, queued := false, started := false, handles := 1),
                Context(0, [], 0), Cell(Init, false, [], 1, c.shared, c.capacity));
      routines := routines[id := rt.(state := Init, queued := false, started := false, handles := 1)];
      contexts := contexts[id := Context(0, [], 0)];
    }

    /** Allocates a new routine, on the next shared stack or on a stack of its own. */
    method Fresh(capacity: nat) returns (id: Rid)
      requires Valid()
      modifies this`nextId, this`nextShared, this`routines, this`contexts
      ensures id == old(nextId) && nextId == old(nextId) + 1 && id in routines && routines[id].state == Init
      ensures Agree(routines, Mem(), current,
                    model.cells[id := Cell(Init, false, [], 1, model.sharedCapacity.Some?,
                                           if model.sharedCapacity.Some?
                                           then model.sharedCapacity.value else capacity)])
    {
      hide Inv, Agree;
      NextIsFree();
      var slot := None;
      var own := Stack(4096, seq(WORD, _ => 0));
      if slots != [] {
        slot := Some(nextShared % |slots|);
        nextShared := nextShared + 1;
      } else {
        own := Stack(4096, seq(capacity + WORD, _ => 0));
      }
      id := nextId;
      nextId := nextId + 1;
      NewAgrees(routines, Mem(), current, model.cells, id, Routine(slot, own, Init, false, false, 1), Context(0, [], 0),
                Cell(Init, false, [], 1, model.sharedCapacity.Some?,
                     if model.sharedCapacity.Some? then model.sharedCapacity.value else capacity));
      routines := routines[id := Routine(slot, own, Init, false, false, 1)];
      contexts := contexts[id := Context(0, [], 0)];
    }

    lemma NextIsFree()
      requires Valid()
      ensures nextId !in routines && current != Some(nextId)
      ensures forall k :: 0 <= k < |slots| ==> slots[k].stack.Ok()
    {
      assert nextId !in model.cells;
    }

    /** Queues a routine whose state was just set to READY. */
    method EnqueueReady(id: Rid)
      requires id in routines && routines[id].state == Ready && !routines[id].queued
      modifies this`routines, this`ready
      ensures routines == old(routines)[id := old(routines)[id].(queued := true)]
      ensures ready == old(ready) + [id]
    {
      routines := routines[id := routines[id].(queued := true)];
      ready := ready + [id];
    }

    /** What `Valid` says about one routine. */
    lemma Facts(id: Rid)
      requires Valid() && id in routines
      ensures id in model.cells && Placed(slots, routines[id])
      ensures SameState(slots, routines[id], contexts[id], model.cells[id])
      ensures CellOk(model.cells[id])
      ensures current == Some(id) ==> routines[id].state == Running
      ensures Alive(routines[id]) ==> Holds(routines, Mem(), id, current, model.cells[id].image)
    {
      assert Matches(routines, Mem(), current, id, model.cells[id]);
      if current == Some(id) {
        Listed(model, callStack, |callStack| - 1, Running);
      }
    }

    lemma Room(id: Rid)
      requires Valid() && id in routines
      ensures id in model.cells && Placed(slots, routines[id]) && StackOf(slots, routines[id]).Ok()
      ensures model.cells[id].capacity + WORD == |StackOf(slots, routines[id]).mem|
    {
      Facts(id);
    }

    /** A routine's scheduling state is that of its cell. */
    lemma States(id: Rid)
      requires Valid() && id in routines
      ensures id in model.cells && routines[id].state == model.cells[id].state
      ensures routines[id].queued == model.cells[id].queued
      ensures routines[id].queued <==> routines[id].state == Ready
      ensures current == Some(id) ==> routines[id].state == Running
    {
      Facts(id);
    }

    /** A routine that is not alive yet, or is suspended, can be made READY and queued. */
    lemma ReadyAgrees(id: Rid)
      requires Valid() && id in routines && (routines[id].state == Init || Waiting(routines[id].state))
      ensures id in model.cells
      ensures Agree(routines[id := routines[id].(state := Ready, queued := true)], Mem(), current,
                    model.cells[id := model.cells[id].(state := Ready, queued := true)])
    {
      hide Agree, Inv;
      Facts(id);
      ControlAgrees(routines, Mem(), current, model.cells, id, routines[id].(state := Ready, queued := true),
                    model.cells[id].(state := Ready, queued := true));
    }

    method Spawn(capacity: nat) returns (id: Rid)
      requires Valid()
      modifies this
      ensures Valid() && model == Step(old(model), Event.Spawn(capacity)).0
      ensures Step(old(model), Event.Spawn(capacity)).1 == Created(id)
    {
      hide Inv, Agree, StepCreate, PickPooled;
      CreateKeepsInv(model, capacity);
      id := Create(capacity);
      States(id);
      SpawnKeepsInv(model, id);
      ReadyAgrees(id);
      live := live + 1;
      var rt := routines[id].(state := Ready);
      ghost var before := routines;
      routines := routines[id := rt];
      EnqueueReady(id);
      assert routines == before[id := rt.(queued := true)];
      model := Enqueue(model.(live := model.live + 1), id);
      assert SameControl();
    }

    method MakeReady(id: Rid) returns (o: Outcome)
      requires Valid()
      modifies this
      ensures Valid() && (model, o) == StepMakeReady(old(model), id)
    {
      hide Inv, Agree;
      KnownIds();
      if id !in routines {
        return Refused;
      }
      States(id);
      if !Waiting(routines[id].state) {
        return Refused;
      }
      MakeReadyKeepsInv(model, id);
      ReadyAgrees(id);
      var rt := routines[id].(state := Ready);
      ghost var before := routines;
      routines := routines[id := rt];
      EnqueueReady(id);
      assert routines == before[id := rt.(queued := true)];
      model := Enqueue(model, id);
      o := Done;
    }

    lemma KnownIds()
      requires Valid()
      ensures routines.Keys == model.cells.Keys
    {
    }

    method SetHandles(id: Rid, handles: nat)
      requires Valid() && id in routines
      modifies this
      ensures Valid() && id in old(model.cells)
      ensures model == old(model).(cells := old(model.cells)[id := old(model.cells)[id].(handles := handles)])
    {
      hide Inv, Agree;
      Facts(id);
      HandlesKeepInv(model, id, handles - model.cells[id].handles);
      ControlAgrees(routines, Mem(), current, model.cells, id, routines[id].(handles := handles),
                    model.cells[id].(handles := handles));
      routines := routines[id := routines[id].(handles := handles)];
      model := model.(cells := model.cells[id := model.cells[id].(handles := handles)]);
    }

    method AddHandle(id: Rid) returns (o: Outcome)
      requires Valid()
      modifies this
      ensures Valid() && (model, o) == StepAddHandle(old(model), id)
    {
      hide Inv, Agree;
      KnownIds();
      if id in routines {
        Facts(id);
        if routines[id].handles > 0 || routines[id].state != Finished {
          SetHandles(id, routines[id].handles + 1);
          return Done;
        }
      }
      o := Refused;
    }

    method DropHandle(id: Rid) returns (o: Outcome)
      requires Valid()
      modifies this
      ensures Valid() && (model, o) == StepDropHandle(old(model), id)
    {
      hide Inv, Agree;
      KnownIds();
      if id in routines {
        Facts(id);
        if routines[id].handles > 0 {
          SetHandles(id, routines[id].handles - 1);
          return Done;
        }
      }
      o := Refused;
    }

    /** The running routine replaces what is on its stack. */
    method Work(image: seq<Byte>) returns (o: Outcome)
      requires Valid()
      modifies this
      ensures Valid() && (model, o) == StepWork(old(model), image)
    {
      hide Inv, Agree, SameState, Holds;
      if current.None? {
        return Refused;
      }
      var id := current.value;
      RunningKnown();
      Room(id);
      var rt := routines[id];
      var stack := StackOf(slots, rt);
      if |image| + WORD > |stack.mem| {
        return Refused;
      }
      WorkKeepsInv(model, image);
      if rt.slot.Some? {
        WorkSlotAgrees(routines, Mem(), id, model.cells, image);
        slots := slots[rt.slot.value := slots[rt.slot.value].(stack := Pushed(stack, image))];
      } else {
        WorkOwnAgrees(routines, Mem(), id, model.cells, image);
        routines := routines[id := rt.(own := Pushed(stack, image))];
      }
      sp := stack.Top() - WORD - |image|;
      model := model.(cells := model.cells[id := model.cells[id].(image := image)]);
      o := Done;
      assert SameControl();
    }

    lemma RunningKnown()
      requires Valid() && current.Some?
      ensures current.value in routines && current.value in model.cells && routines[current.value].state == Running
    {
      Listed(model, callStack, |callStack| - 1, Running);
      assert Matches(routines, Mem(), current, current.value, model.cells[current.value]);
    }

    /** What the routine in control finds on its stack. */
    method Found() returns (o: Outcome)
      requires Valid()
      ensures o == InControl(model)
    {
      hide Inv, Agree;
      if current.None? {
        return BackInRoot;
      }
      RunningKnown();
      Facts(current.value);
      ResidentFound();
      o := Entered(current.value, StackOf(slots, routines[current.value]).Above(sp));
    }

    lemma ResidentFound()
      requires Valid() && current.Some? && current.value in routines && current.value in model.cells
      ensures Placed(slots, routines[current.value])
      ensures InMemory(StackOf(slots, routines[current.value]), sp, model.cells[current.value].image)
    {
      assert Matches(routines, Mem(), current, current.value, model.cells[current.value]);
    }

    /** Resumes a routine from outside the ready queue; a routine waiting for a timer is detached from it first. */
    method Resume(id: Rid) returns (o: Outcome)
      requires Valid()
      modifies this
      ensures Valid() && (model, o) == StepResume(old(model), id)
    {
      hide Inv, Agree;
      KnownIds();
      if id !in routines {
        return Refused;
      }
      States(id);
      var state := routines[id].state;
      if state == Ready && routines[id].queued {
        return Ignored;
      }
      if state != WaitTimer && !Resumable(state) {
        return Refused;
      }
      EnterKeepsInv(model, id);
      if state == Init {
        live := live + 1;
      }
      EnterRoutine(id, model.cells);
      model := Enter(model.(live := if state == Init then model.live + 1 else model.live), id);
      assert SameControl();
      o := Found();
    }

    /** One turn of a scheduling pass. */
    method RunNext() returns (o: Outcome)
      requires Valid()
      modifies this
      ensures Valid() && (model, o) == StepRunNext(old(model))
    {
      hide Inv, Agree;
      KnownIds();
      RunNextKeepsInv(model);
      if ready == [] {
        return Ignored;
      }
      var id := ready[0];
      ReadyFacts();
      ready := ready[1..];
      EnterRoutine(id, model.cells);
      model := StepRunNext(model).0;
      o := Found();
    }

    lemma ReadyFacts()
      requires Valid() && ready != []
      ensures ready[0] in routines && routines[ready[0]].state == Ready && current != Some(ready[0])
    {
      Listed(model, ready, 0, Ready);
      Facts(ready[0]);
    }

    /** Control goes back to whoever resumed the running routine. */
    method YieldCurrent(next: State)
      requires Valid() && current.Some? && next != Init && next != Running
      modifies this`routines, this`contexts, this`slots, this`sp, this`callStack, this`current
      ensures old(current.value) in routines && old(current.value) in model.cells
      ensures callStack == old(callStack)[..|old(callStack)| - 1]
      ensures current == if callStack == [] then None else Some(callStack[|callStack| - 1])
      ensures |slots| == |old(slots)|
      ensures forall k :: 0 <= k < |slots| ==> |slots[k].stack.mem| == |old(slots)[k].stack.mem|
      ensures var id := old(current.value);
              var c := model.cells[id];
              if next == Finished then AgreeBut(routines, Mem(), current,
                  model.cells[id := c.(state := next, image := [])], id)
              else Agree(routines, Mem(), current, model.cells[id := c.(state := next)])
    {
      hide Inv, Agree, CanSwitch, HasSwitched, AgreeBut, SameState, Alive, Placed;
      KnownIds();
      RunningKnown();
      var id := current.value;
      var caller := if |callStack| < 2 then None else Some(callStack[|callStack| - 2]);
      var rt := routines[id].(state := next);
      ghost var c :=
        if next == Finished then model.cells[id].(state := next, image := []) else model.cells[id].(state := next);
      ghost var cells := model.cells[id := c];
      Leaving(id, caller, rt, c);
      routines := routines[id := rt];
      callStack := callStack[..|callStack| - 1];
      current := caller;
      ghost var m := Mem();
      Switch(Some(id), caller, Images(cells));
      if next == Finished {
        FinishSwitchAgrees(routines, m, id, caller, cells, Mem());
      } else {
        SwitchAgrees(routines, m, Some(id), caller, cells, Mem());
      }
    }

    /** The switch back to the resumer can be made, and nobody's scheduling state is in its way. */
    lemma Leaving(id: Rid, caller: Option<Rid>, rt: Routine, c: Cell)
      requires Valid() && current == Some(id) && id in routines && id in model.cells
      requires caller == if |callStack| < 2 then None else Some(callStack[|callStack| - 2])
      requires rt.state != Init && rt.state != Running && rt == routines[id].(state := rt.state)
      requires c == if rt.state == Finished then model.cells[id].(state := rt.state, image := [])
          else model.cells[id].(state := rt.state)
      ensures CanSwitch(routines[id := rt], Mem(), Some(id), caller, Images(model.cells[id := c]))
      ensures caller.Some? ==> caller.value in routines[id := rt] && Alive(routines[id := rt][caller.value])
      ensures forall x :: x in routines && x != id ==>
          Placed(slots, routines[x]) && SameState(slots, routines[x], contexts[x], model.cells[x])
      ensures Placed(slots, rt) && id in contexts
      ensures if rt.state == Finished then SameState(slots, rt, contexts[id].(snapshot := []), c)
              else SameState(slots, rt, contexts[id], c) && Alive(rt)
    {
      hide Inv, Agree;
      KnownIds();
      CallerFacts();
      Facts(id);
      LeaveCanSwitch(routines, Mem(), id, caller, model.cells, rt, Images(model.cells[id := c]));
      LeaveSameState(id, rt, c);
    }

    lemma CallerFacts()
      requires Valid() && current.Some?
      ensures |callStack| >= 2 ==>
                var caller := callStack[|callStack| - 2];
                caller in routines && Alive(routines[caller]) && Some(caller) != current
    {
      if |callStack| >= 2 {
        Listed(model, callStack, |callStack| - 2, Running);
        Facts(callStack[|callStack| - 2]);
      }
    }

    lemma LeaveSameState(id: Rid, rt: Routine, c: Cell)
      requires Valid() && current == Some(id) && id in routines && id in model.cells
      requires rt.state != Init && rt.state != Running && rt == routines[id].(state := rt.state)
      requires c == if rt.state == Finished then model.cells[id].(state := rt.state, image := [])
          else model.cells[id].(state := rt.state)
      ensures forall x :: x in routines && x != id ==>
          Placed(slots, routines[x]) && SameState(slots, routines[x], contexts[x], model.cells[x])
      ensures Placed(slots, rt)
      ensures if rt.state == Finished then SameState(slots, rt, contexts[id].(snapshot := []), c)
              else SameState(slots, rt, contexts[id], c) && Alive(rt)
    {
      forall x | x in routines ensures Placed(slots, routines[x])
          && SameState(slots, routines[x], contexts[x], model.cells[x]) {
        assert Matches(routines, Mem(), current, x, model.cells[x]);
      }
      Facts(id);
    }

    /** Lets go of the stack of a finished routine and keeps it for reuse if the pool has room. */
    method FinishRoutine(id: Rid, ghost cells: map<Rid, Cell>)
      requires AgreeBut(routines, Mem(), current, cells, id) && live > 0
      modifies this`slots, this`contexts, this`routines, this`pool, this`live
      ensures live == old(live) - 1
      ensures |slots| == |old(slots)|
      ensures forall k :: 0 <= k < |slots| ==> |slots[k].stack.mem| == |old(slots)[k].stack.mem|
      ensures if |old(pool)| < poolMax then pool == old(pool) + [id] && Agree(routines, Mem(), current, cells)
              else pool == old(pool) && Agree(routines, Mem(), current, cells - {id})
    {
      hide Matches, Occupied, Agree;
      live := live - 1;
      ReleasedAgrees(routines, Mem(), current, cells, id);
      var rt := routines[id];
      if rt.slot.Some? && slots[rt.slot.value].occupant == Some(id) {
        slots := slots[rt.slot.value := slots[rt.slot.value].(occupant := None)];
      }
      contexts := contexts[id := contexts[id].(snapshot := [], snapshotBegin := 0)];
      if |pool| < poolMax {
        pool := pool + [id];
      } else {
        FinishedIsDead(cells, id);
        ForgottenAgrees(routines, Mem(), current, cells, id);
        routines := routines - {id};
        contexts := contexts - {id};
      }
    }

    lemma FinishedIsDead(cells: map<Rid, Cell>, id: Rid)
      requires Agree(routines, Mem(), current, cells) && id in routines && routines[id].state == Finished
      ensures current != Some(id) && !Alive(routines[id])
    {
    }

    /** Gives control back to the resumer, which then settles what becomes of the routine that did so. */
    method Yield(next: State) returns (o: Outcome)
      requires Valid()
      modifies this
      ensures Valid() && (model, o) == StepYield(old(model), next)
    {
      hide Inv, Agree, AgreeBut, Settle;
      if next == Init || next == Running {
        return Refused;
      }
      RunningCanYield(model, next);
      if current.None? {
        return Refused;
      }
      RunningKnown();
      var id := current.value;
      if next == Finished {
        FinishKeepsInv(model);
        Finish(id);
      } else {
        SuspendKeepsInv(model, next);
        Suspend(id, next);
      }
      o := Found();
    }

    method Finish(id: Rid)
      requires Valid() && current == Some(id) && CanYield(model, Finished) && Inv(StepYield(model, Finished).0)
      modifies this
      ensures Valid() && model == StepYield(old(model), Finished).0
    {
      hide Inv, Agree, AgreeBut, Settle;
      KnownIds();
      ghost var cells := model.cells[id := model.cells[id].(state := Finished, image := [])];
      ghost var m' := StepYield(model, Finished).0;
      FinishedModel(id, cells);
      YieldCurrent(Finished);
      FinishRoutine(id, cells);
      model := m';
    }

    lemma FinishedModel(id: Rid, cells: map<Rid, Cell>)
      requires Valid() && current == Some(id) && CanYield(model, Finished) && id in model.cells
      requires cells == model.cells[id := model.cells[id].(state := Finished, image := [])]
      ensures StepYield(model, Finished).0
              == if |model.pool| < model.poolMax
                 then model.(callStack := model.callStack[..|model.callStack| - 1], live := model.live - 1,
                             pool := model.pool + [id], cells := cells)
                 else model.(callStack := model.callStack[..|model.callStack| - 1], live := model.live - 1,
                             cells := cells - {id})
    {
      hide Agree, Inv;
      assert model.cells - {id} == cells - {id};
    }

    lemma SuspendedModel(id: Rid, next: State, cells: map<Rid, Cell>)
      requires Valid() && current == Some(id) && CanYield(model, next) && next != Finished && id in model.cells
      requires cells == model.cells[id := model.cells[id].(state := next)]
      ensures StepYield(model, next).0
              == model.(callStack := model.callStack[..|model.callStack| - 1],
                        ready := if next == Ready then model.ready + [id] else model.ready,
                        cells := if next == Ready then cells[id := cells[id].(queued := true)] else cells)
    {
      hide Agree, Inv;
    }

    method Suspend(id: Rid, next: State)
      requires Valid() && current == Some(id) && CanYield(model, next) && next != Finished
      requires Inv(StepYield(model, next).0)
      modifies this
      ensures Valid() && model == StepYield(old(model), next).0
    {
      hide Inv, Agree, AgreeBut, AllOccupied;
      KnownIds();
      States(id);
      ghost var m' := StepYield(model, next).0;
      ghost var cells := model.cells[id := model.cells[id].(state := next)];
      SuspendedModel(id, next, cells);
      hide StepYield;
      YieldCurrent(next);
      Settled(id, cells);
      if routines[id].state == Ready {
        EnqueueReady(id);
      }
      model := m';
      assert SameControl();
    }

    /** A routine whose state is READY can be marked as queued. */
    lemma Settled(id: Rid, cells: map<Rid, Cell>)
      requires Agree(routines, Mem(), current, cells) && id in routines && id in cells
      ensures routines[id].state == cells[id].state && routines[id].queued == cells[id].queued
      ensures cells[id].state == Ready ==>
                Agree(routines[id := routines[id].(queued := true)], Mem(), current,
                    cells[id := cells[id].(queued := true)])
    {
      assert Matches(routines, Mem(), current, id, cells[id]);
      if cells[id].state == Ready {
        hide Kept, AllOccupied;
        ControlAgrees(routines, Mem(), current, cells, id, routines[id].(queued := true), cells[id].(queued := true));
      }
    }

    /** One event. */
    method Apply(e: Event) returns (o: Outcome)
      requires Valid()
      modifies this
      ensures Valid() && (model, o) == Step(old(model), e)
    {
      hide Inv, Agree, StepYield, StepResume, StepRunNext, StepMakeReady, StepWork, StepAddHandle, StepDropHandle,
          PickPooled, SameControl;
      match e
      case Create(capacity) =>
        var id := Create(capacity);
        o := Created(id);
      case Spawn(capacity) =>
        var id := Spawn(capacity);
        o := Created(id);
      case AddHandle(id) => o := AddHandle(id);
      case DropHandle(id) => o := DropHandle(id);
      case Work(image) => o := Work(image);
      case Resume(id) => o := Resume(id);
      case RunNext => o := RunNext();
      case MakeReady(id) => o := MakeReady(id);
      case Yield(next) => o := Yield(next);
    }

    /**
     A routine plays `body` until control is back at level `base`; if it does not come back by itself, it finishes.
     */
    method PlayTurn(base: nat, body: seq<Event>) returns (ghost es: seq<Event>)
      requires Valid() && base <= |callStack|
      modifies this
      ensures Valid() && model == Run(old(model), es) && callStack == old(callStack)[..base]
      ensures Event.RunNext !in body ==> AllPopped(old(model), es) == []
    {
      hide Inv, Step, Agree, Popped;
      var i := 0;
      es := [];
      while i < |body| && |callStack| > base
        invariant 0 <= i <= |body| && Valid() && model == Run(old(model), es)
        invariant base <= |callStack| && callStack[..base] == old(callStack)[..base]
        invariant Event.RunNext !in body ==> AllPopped(old(model), es) == []
      {
        Playing(old(model), es, body[i], base);
        var _ := Apply(body[i]);
        es, i := es + [body[i]], i + 1;
      }
      while |callStack| > base
        invariant Valid() && model == Run(old(model), es)
        invariant base <= |callStack| && callStack[..base] == old(callStack)[..base]
        invariant Event.RunNext !in body ==> AllPopped(old(model), es) == []
        decreases |callStack|
      {
        Playing(old(model), es, Event.Yield(Finished), base);
        FinishesTop();
        var _ := Apply(Event.Yield(Finished));
        es := es + [Event.Yield(Finished)];
      }
    }

    lemma Playing(m: Machine, es: seq<Event>, e: Event, base: nat)
      requires Valid() && model == Run(m, es) && base < |callStack|
      ensures Run(m, es + [e]) == Step(model, e).0
      ensures base <= |Step(model, e).0.callStack| && Step(model, e).0.callStack[..base] == callStack[..base]
      ensures e != Event.RunNext ==> AllPopped(m, es + [e]) == AllPopped(m, es)
    {
      hide Inv, Agree;
      RunAppended(m, es, e);
      DepthStep(model, e, base);
    }

    lemma FinishesTop()
      requires Valid() && callStack != []
      ensures |Step(model, Event.Yield(Finished)).0.callStack| == |callStack| - 1
    {
      hide Inv, Agree;
      RunningCanYield(model, Finished);
    }

    /**
     A scheduling pass. `bodies[i]` is what the routine of turn `i` does while it has control, other routines it resumes
     included. The pass ends at its limit or with an empty queue. Unless routines run passes of their own, the pass
     without a limit runs exactly the routines queued when it began, in order, and those made ready meanwhile are left
     for the next.
     */
    method RunReady(maxCount: nat, bodies: seq<seq<Event>>) returns (ran: seq<Rid>, ghost es: seq<Event>)
      requires Valid()
      modifies this
      ensures Valid() && model == Run(old(model), es) && callStack == old(callStack)
      ensures var limit := if maxCount == 0 then |old(ready)| else maxCount;
        |ran| <= limit && (|ran| == limit || ready == [])
      ensures Flat(bodies) ==> AllPopped(old(model), es) == ran
      ensures Flat(bodies) && maxCount == 0 ==> ran == old(ready) && ready == AllQueued(old(model), es)
    {
      hide Inv, Step, Agree, AllPopped, AllQueued, Run;
      var limit, base := if maxCount == 0 then |ready| else maxCount, |callStack|;
      ran, es := [], [];
      Nothing(model);
      while |ran| < limit && ready != []
        invariant |ran| <= limit && Valid() && model == Run(old(model), es) && callStack == old(callStack)
        invariant Flat(bodies) ==> AllPopped(old(model), es) == ran
        decreases limit - |ran|
      {
        ghost var before := model;
        TurnStarts();
        var first := ready[0];
        var _ := RunNext();
        ghost var rest := PlayTurn(base, if |ran| < |bodies| then bodies[|ran|] else []);
        TurnEnds(old(model), es, before, rest);
        es := es + ([Event.RunNext] + rest);
        ran := ran + [first];
      }
      PassRunsTheSnapshot(old(model), es);
    }

    lemma TurnStarts()
      requires Valid() && ready != []
      ensures StepRunNext(model).0.callStack == callStack + [ready[0]] && Popped(model, Event.RunNext) == [ready[0]]
      ensures Run(model, [Event.RunNext]) == StepRunNext(model).0 && AllPopped(model, [Event.RunNext]) == [ready[0]]
    {
      hide Inv, Agree;
      RunNextKeepsInv(model);
      assert [Event.RunNext][..0] == [];
    }
  }

  lemma Nothing(m: Machine)
    ensures Run(m, []) == m && AllPopped(m, []) == []
  {
  }

  /** The events of one turn after those of the turns before. */
  lemma TurnEnds(start: Machine, es: seq<Event>, before: Machine, rest: seq<Event>)
    requires before == Run(start, es)
    ensures var turn := [Event.RunNext] + rest;
      && Run(start, es + turn) == Run(Run(before, [Event.RunNext]), rest)
      && AllPopped(start, es + turn)
         == AllPopped(start, es) + (AllPopped(before, [Event.RunNext]) + AllPopped(Run(before, [Event.RunNext]), rest))
  {
    hide Step;
    RunConcat(before, [Event.RunNext], rest);
    RunConcat(start, es, [Event.RunNext] + rest);
  }

  /** No routine runs a scheduling pass of its own. */
  predicate Flat(bodies: seq<seq<Event>>) {
    forall i :: 0 <= i < |bodies| ==> Event.RunNext !in bodies[i]
  }

  /**
   Shared stacks cannot be told from private ones. Whatever sequence of creations, nested resumes, scheduling turns,
   stack writes, yields and finishes is executed, on however many shared stacks with whatever contents, every outcome
   is that of the machine in which each routine has a stack of its own; in particular a routine that gets control
   back finds exactly the bytes it had when it gave control up.
   */
  method Execute(stacks: seq<Stack>, sharedCapacity: nat, poolMax: nat, script: seq<Event>)
    returns (outcomes: seq<Outcome>)
    requires forall s :: s in stacks ==> s.Ok() && |s.mem| == sharedCapacity + WORD
    ensures outcomes == Trace(Initial(poolMax, if stacks == [] then None else Some(sharedCapacity)), script)
    ensures SchedulerHistory.Explained(
              SchedulerHistory.History(poolMax, if stacks == [] then None else Some(sharedCapacity), script, outcomes))
  {
    hide Inv, Step, Agree, SchedulerHistory.Explained;
    ghost var start := Initial(poolMax, if stacks == [] then None else Some(sharedCapacity));
    var scheduler := new Scheduler(stacks, sharedCapacity, poolMax);
    outcomes := [];
    var i := 0;
    while i < |script|
      invariant 0 <= i <= |script| && scheduler.Valid() && fresh(scheduler)
      invariant scheduler.model == Run(start, script[..i])
      invariant outcomes == Trace(start, script[..i])
    {
      var o := scheduler.Apply(script[i]);
      outcomes := outcomes + [o];
      assert script[..i + 1][..i] == script[..i];
      i := i + 1;
    }
    assert script[..i] == script;
    SchedulerHistory.EveryCallExplained(poolMax, if stacks == [] then None else Some(sharedCapacity), script);
  }

  /**
   After any script, a pass without a limit runs exactly the routines that were ready, in the order they became so.
   */
  method ExecutePass(stacks: seq<Stack>, sharedCapacity: nat, poolMax: nat, script: seq<Event>, bodies: seq<seq<Event>>)
    returns (ran: seq<Rid>)
    requires forall s :: s in stacks ==> s.Ok() && |s.mem| == sharedCapacity + WORD
    requires Flat(bodies)
    ensures ran == Run(Initial(poolMax, if stacks == [] then None else Some(sharedCapacity)), script).ready
  {
    hide Inv, Step, Agree;
    ghost var start := Initial(poolMax, if stacks == [] then None else Some(sharedCapacity));
    var scheduler := new Scheduler(stacks, sharedCapacity, poolMax);
    var i := 0;
    while i < |script|
      invariant 0 <= i <= |script| && scheduler.Valid() && fresh(scheduler)
      invariant scheduler.model == Run(start, script[..i])
    {
      var _ := scheduler.Apply(script[i]);
      assert script[..i + 1][..i] == script[..i];
      i := i + 1;
    }
    assert script[..i] == script;
    ghost var es;
    ran, es := scheduler.RunReady(0, bodies);
  }
}
