/**
 What a program can tell about the scheduler from its own calls and their outcomes alone: who is in charge, who
 waits for what, which bytes a routine left on its stack. Nothing here looks at the state of the scheduler.
 */
module SchedulerHistory {
  import opened Results
  import opened Bytes
  import opened PrivateStacks

  /** `outcomes[i]` is what the call `script[i]` returned; `shared` is the size of the shared stacks, if any. */
  datatype History = History(poolMax: nat, shared: Option<nat>, script: seq<Event>, outcomes: seq<Outcome>)

  ghost predicate Paired(h: History) { |h.script| == |h.outcomes| }

  // ---------------------------------------------------------------------------------------------
  // Readings of the first `n` calls
  // ---------------------------------------------------------------------------------------------

  /** The routine control was last given to, unless control went back to root since. */
  ghost function InCharge(h: History, n: nat): (id: Option<Rid>)
    requires n <= |h.outcomes|
  {
    if n == 0 || h.outcomes[n - 1] == BackInRoot then None
    else if h.outcomes[n - 1].Entered? then Some(h.outcomes[n - 1].id)
    else InCharge(h, n - 1)
  }

  /** What a routine last wrote to its stack while in charge, since it was created. */
  ghost function LastImage(h: History, n: nat, id: Rid): (image: seq<Byte>)
    requires Paired(h) && n <= |h.script|
  {
    if n == 0 || h.outcomes[n - 1] == Created(id) then []
    else if h.script[n - 1].Work? && h.outcomes[n - 1] == Done && InCharge(h, n - 1) == Some(id) then
      h.script[n - 1].image
    else LastImage(h, n - 1, id)
  }

  /** The routines whose resumes are nested in one another, the innermost last. */
  ghost function Nest(h: History, n: nat): (ids: seq<Rid>)
    requires Paired(h) && n <= |h.script|
  {
    if n == 0 then []
    else
      var before, o := Nest(h, n - 1), h.outcomes[n - 1];
      if h.script[n - 1].Yield? && o != Refused && before != [] then before[..|before| - 1]
      else if (h.script[n - 1].Resume? || h.script[n - 1].RunNext?) && o.Entered? then before + [o.id]
      else before
  }

  /** Where a routine is in its life; none if it was never created. */
  ghost function Phase(h: History, n: nat, id: Rid): (s: Option<State>)
    requires Paired(h) && n <= |h.script|
  {
    if n == 0 then None
    else
      var before, o := Phase(h, n - 1, id), h.outcomes[n - 1];
      match h.script[n - 1]
      case Create(_) => if o == Created(id) then Some(Init) else before
      case Spawn(_) => if o == Created(id) then Some(Ready) else before
      case Resume(_) => if o.Entered? && o.id == id then Some(Running) else before
      case RunNext => if o.Entered? && o.id == id then Some(Running) else before
      case MakeReady(x) => if o == Done && x == id then Some(Ready) else before
      case Yield(next) => if o != Refused && InCharge(h, n - 1) == Some(id) then Some(next) else before
      case _ => before
  }

  /** The routines waiting for their turn, the next one first. */
  ghost function Queue(h: History, n: nat): (ids: seq<Rid>)
    requires Paired(h) && n <= |h.script|
  {
    if n == 0 then []
    else
      var before, o := Queue(h, n - 1), h.outcomes[n - 1];
      match h.script[n - 1]
      case Spawn(_) => if o.Created? then before + [o.id] else before
      case MakeReady(id) => if o == Done then before + [id] else before
      case RunNext => if o.Entered? && before != [] then before[1..] else before
      case Yield(next) =>
        var id := InCharge(h, n - 1);
        if next == Ready && o != Refused && id.Some? then before + [id.value] else before
      case _ => before
  }

  ghost function Handles(h: History, n: nat, id: Rid): (count: int)
    requires Paired(h) && n <= |h.script|
  {
    if n == 0 then 0
    else if h.outcomes[n - 1] == Created(id) then 1
    else if h.outcomes[n - 1] == Done && h.script[n - 1] == AddHandle(id) then Handles(h, n - 1, id) + 1
    else if h.outcomes[n - 1] == Done && h.script[n - 1] == DropHandle(id) then Handles(h, n - 1, id) - 1
    else Handles(h, n - 1, id)
  }

  /** The finished routines kept for reuse: a routine that finishes while `poolMax` are kept is let go. */
  ghost function Kept(h: History, n: nat): (ids: set<Rid>)
    requires Paired(h) && n <= |h.script|
  {
    if n == 0 then {}
    else
      var before, o, id := Kept(h, n - 1), h.outcomes[n - 1], InCharge(h, n - 1);
      if o.Created? then before - {o.id}
      else if h.script[n - 1] == Yield(Finished) && o != Refused && id.Some? && |before| < h.poolMax then
        before + {id.value}
      else before
  }

  /** The size of a routine's stack: the shared size, or what was asked for when it was first created. */
  ghost function Capacity(h: History, n: nat, id: Rid): (size: nat)
    requires Paired(h) && n <= |h.script|
  {
    if h.shared.Some? then h.shared.value
    else if n == 0 then 0
    else if h.outcomes[n - 1] == Created(id) && Phase(h, n - 1, id).None? then
      match h.script[n - 1]
      case Create(size) => size
      case Spawn(size) => size
      case _ => 0
    else Capacity(h, n - 1, id)
  }

  ghost predicate Present(h: History, n: nat, id: Rid)
    requires Paired(h) && n <= |h.script|
  {
    Phase(h, n, id).Some? && (Phase(h, n, id) == Some(Finished) ==> id in Kept(h, n))
  }

  /** A finished routine nobody holds a handle to, with a large enough stack. */
  ghost predicate Spare(h: History, n: nat, id: Rid, size: nat)
    requires Paired(h) && n <= |h.script|
  {
    id in Kept(h, n) && Handles(h, n, id) == 0 && (h.shared.Some? || size <= Capacity(h, n, id))
  }

  // ---------------------------------------------------------------------------------------------
  // What every call returns
  // ---------------------------------------------------------------------------------------------

  ghost predicate Creates(h: History, n: nat, size: nat)
    requires Paired(h) && n < |h.script|
  {
    && h.outcomes[n].Created?
    && if exists id :: Spare(h, n, id, size) then Spare(h, n, h.outcomes[n].id, size)
       else Phase(h, n, h.outcomes[n].id).None?
  }

  ghost predicate Resumes(h: History, n: nat, id: Rid)
    requires Paired(h) && n < |h.script|
  {
    match Phase(h, n, id)
    case Some(Init) => h.outcomes[n] == Entered(id, LastImage(h, n, id))
    case Some(WaitTimer) => h.outcomes[n] == Entered(id, LastImage(h, n, id))
    case Some(WaitEvent) => h.outcomes[n] == Entered(id, LastImage(h, n, id))
    case Some(Ready) => h.outcomes[n] == Ignored
    case _ => h.outcomes[n] == Refused
  }

  ghost predicate Yields(h: History, n: nat, next: State)
    requires Paired(h) && n < |h.script|
  {
    var nest := Nest(h, n);
    var k := |nest|;
    if k == 0 || next == Init || next == Running then h.outcomes[n] == Refused
    else if k == 1 then h.outcomes[n] == BackInRoot
    else h.outcomes[n] == Entered(nest[k - 2], LastImage(h, n, nest[k - 2]))
  }

  /** The outcome of call `n`, from the calls and outcomes before it. */
  ghost predicate Answers(h: History, n: nat)
    requires Paired(h) && n < |h.script|
  {
    var o := h.outcomes[n];
    match h.script[n]
    case Create(size) => Creates(h, n, size)
    case Spawn(size) => Creates(h, n, size)
    case AddHandle(id) =>
      o == if Present(h, n, id) && (Handles(h, n, id) > 0 || Phase(h, n, id) != Some(Finished)) then Done else Refused
    case DropHandle(id) => o == if Present(h, n, id) && Handles(h, n, id) > 0 then Done else Refused
    case Work(image) =>
      o == if InCharge(h, n).Some? && |image| <= Capacity(h, n, InCharge(h, n).value) then Done else Refused
    case Resume(id) => Resumes(h, n, id)
    case RunNext =>
      o == if Queue(h, n) == [] then Ignored else Entered(Queue(h, n)[0], LastImage(h, n, Queue(h, n)[0]))
    case MakeReady(id) =>
      o == if Phase(h, n, id) in {Some(WaitIo), Some(WaitTimer), Some(WaitEvent)} then Done else Refused
    case Yield(next) => Yields(h, n, next)
  }

  ghost predicate Explained(h: History) {
    Paired(h) && forall n :: 0 <= n < |h.script| ==> Answers(h, n)
  }

  // ---------------------------------------------------------------------------------------------
  // The machine agrees with the readings
  // ---------------------------------------------------------------------------------------------

  ghost function Top(nest: seq<Rid>): (id: Option<Rid>) {
    if nest == [] then None else Some(nest[|nest| - 1])
  }

  ghost predicate Known(m: Machine, h: History, n: nat, id: Rid)
    requires Paired(h) && n <= |h.script|
  {
    && (id in m.cells <==> Present(h, n, id))
    && (Phase(h, n, id).Some? ==> id < m.nextId)
    && (id in Kept(h, n) ==> Phase(h, n, id) == Some(Finished))
    && (id in m.cells ==>
          var c := m.cells[id];
          && Phase(h, n, id) == Some(c.state) && c.handles == Handles(h, n, id) && c.capacity == Capacity(h, n, id)
          && c.shared == h.shared.Some? && (c.state != Finished ==> c.image == LastImage(h, n, id)))
  }

  ghost predicate AllKnown(m: Machine, h: History, n: nat)
    requires Paired(h) && n <= |h.script|
  {
    forall id :: Known(m, h, n, id)
  }

  ghost predicate ListsMatch(m: Machine, h: History, n: nat)
    requires Paired(h) && n <= |h.script|
  {
    && m.poolMax == h.poolMax && m.sharedCapacity == h.shared
    && m.callStack == Nest(h, n) && InCharge(h, n) == Top(m.callStack)
    && m.ready == Queue(h, n) && |m.pool| == |Kept(h, n)|
  }

  /** Call `n` is made in state `m`. */
  ghost predicate At(m: Machine, h: History, n: nat) {
    && Paired(h) && n < |h.script| && h.outcomes[n] == Step(m, h.script[n]).1
    && Inv(m) && AllKnown(m, h, n) && ListsMatch(m, h, n)
  }

  ghost function After(m: Machine, h: History, n: nat): (m': Machine)
    requires n < |h.script|
  {
    Step(m, h.script[n]).0
  }

  lemma Enterable(m: Machine, h: History, n: nat)
    requires At(m, h, n)
    ensures m.ready != [] ==> m.ready[0] in m.cells && m.cells[m.ready[0]].state == Ready
    ensures m.callStack != [] ==> Top(m.callStack).value in m.cells && m.cells[Top(m.callStack).value].state == Running
    ensures |m.callStack| > 1 ==>
      m.callStack[|m.callStack| - 2] in m.cells && m.cells[m.callStack[|m.callStack| - 2]].state == Running
      && m.callStack[|m.callStack| - 2] != m.callStack[|m.callStack| - 1]
  {
    hide Step, AllKnown, ListsMatch;
    if m.ready != [] { Listed(m, m.ready, 0, Ready); }
    if m.callStack != [] { Listed(m, m.callStack, |m.callStack| - 1, Running); }
    if |m.callStack| > 1 { Listed(m, m.callStack, |m.callStack| - 2, Running); }
  }

  lemma InPool(m: Machine, h: History, n: nat, id: Rid)
    requires At(m, h, n)
    ensures id in m.pool <==> id in Kept(h, n)
  {
    hide Step, ListsMatch;
    assert Known(m, h, n, id);
  }

  // How one call moves the readings about one routine.

  ghost predicate SameReading(h: History, n: nat, id: Rid)
    requires Paired(h) && n < |h.script|
  {
    && Handles(h, n + 1, id) == Handles(h, n, id) && Capacity(h, n + 1, id) == Capacity(h, n, id)
    && LastImage(h, n + 1, id) == LastImage(h, n, id) && (id in Kept(h, n + 1) <==> id in Kept(h, n))
  }

  lemma TurnReading(h: History, n: nat, id: Rid)
    requires Paired(h) && n < |h.script| && (h.script[n].Resume? || h.script[n].RunNext? || h.script[n].MakeReady?)
    requires !h.outcomes[n].Created?
    ensures SameReading(h, n, id)
    ensures Phase(h, n + 1, id) ==
      if h.script[n] == MakeReady(id) && h.outcomes[n] == Done then Some(Ready)
      else if !h.script[n].MakeReady? && h.outcomes[n].Entered? && h.outcomes[n].id == id then Some(Running)
      else Phase(h, n, id)
  {
  }

  lemma CreatedReading(h: History, n: nat, id: Rid)
    requires Paired(h) && n < |h.script| && (h.script[n].Create? || h.script[n].Spawn?) && h.outcomes[n].Created?
    ensures if h.outcomes[n].id == id then
      && Phase(h, n + 1, id) == Some(if h.script[n].Create? then Init else Ready)
      && Handles(h, n + 1, id) == 1 && LastImage(h, n + 1, id) == [] && id !in Kept(h, n + 1)
      && Capacity(h, n + 1, id) ==
         (if h.shared.Some? then h.shared.value
          else if Phase(h, n, id).None? then h.script[n].capacity else Capacity(h, n, id))
      else SameReading(h, n, id) && Phase(h, n + 1, id) == Phase(h, n, id)
    ensures h.shared.Some? ==> Capacity(h, n, id) == h.shared.value
  {
  }

  lemma OtherReading(h: History, n: nat, id: Rid)
    requires Paired(h) && n < |h.script| && !h.outcomes[n].Created?
    requires h.script[n].AddHandle? || h.script[n].DropHandle? || h.script[n].Work?
    ensures Phase(h, n + 1, id) == Phase(h, n, id) && Capacity(h, n + 1, id) == Capacity(h, n, id)
    ensures id in Kept(h, n + 1) <==> id in Kept(h, n)
    ensures Handles(h, n + 1, id) == Handles(h, n, id) + if h.outcomes[n] != Done then 0
      else if h.script[n] == AddHandle(id) then 1 else if h.script[n] == DropHandle(id) then -1 else 0
    ensures LastImage(h, n + 1, id) ==
      if h.script[n].Work? && h.outcomes[n] == Done && InCharge(h, n) == Some(id) then h.script[n].image
      else LastImage(h, n, id)
  {
  }

  lemma YieldReading(h: History, n: nat, id: Rid)
    requires Paired(h) && n < |h.script| && h.script[n].Yield? && !h.outcomes[n].Created?
    ensures Handles(h, n + 1, id) == Handles(h, n, id) && Capacity(h, n + 1, id) == Capacity(h, n, id)
    ensures LastImage(h, n + 1, id) == LastImage(h, n, id)
    ensures h.outcomes[n] != Refused && InCharge(h, n) == Some(id) ==>
      && Phase(h, n + 1, id) == Some(h.script[n].next)
      && (id in Kept(h, n + 1) <==>
            id in Kept(h, n) || (h.script[n].next == Finished && |Kept(h, n)| < h.poolMax))
    ensures h.outcomes[n] == Refused || InCharge(h, n) != Some(id) ==>
      SameReading(h, n, id) && Phase(h, n + 1, id) == Phase(h, n, id)
  {
  }

  lemma KnownAt(m: Machine, h: History, n: nat, id: Rid)
    requires At(m, h, n)
    ensures Known(m, h, n, id)
  {
  }

  lemma TurnKnown(m: Machine, h: History, n: nat, id: Rid)
    requires At(m, h, n) && (h.script[n].Resume? || h.script[n].RunNext? || h.script[n].MakeReady?)
    ensures Known(After(m, h, n), h, n + 1, id)
  {
    hide Inv, AllKnown, Phase, Handles, Kept, Capacity, LastImage, InCharge, Nest, Queue;
    Enterable(m, h, n);
    KnownAt(m, h, n, id);
    TurnReading(h, n, id);
  }

  lemma OtherKnown(m: Machine, h: History, n: nat, id: Rid)
    requires At(m, h, n) && (h.script[n].AddHandle? || h.script[n].DropHandle? || h.script[n].Work?)
    ensures Known(After(m, h, n), h, n + 1, id)
  {
    hide Inv, AllKnown, Phase, Handles, Kept, Capacity, LastImage, InCharge, Nest, Queue;
    Enterable(m, h, n);
    KnownAt(m, h, n, id);
    OtherReading(h, n, id);
  }

  /** A creation takes a spare routine or makes a new one. */
  lemma CreateStep(m: Machine, size: nat)
    ensures var (m', id) := StepCreate(m, size);
      && id in m'.cells && m'.cells == m.cells[id := m'.cells[id]] && m'.callStack == m.callStack && m'.ready == m.ready
      && m'.poolMax == m.poolMax && m'.sharedCapacity == m.sharedCapacity
      && m'.cells[id].state == Init && m'.cells[id].image == [] && m'.cells[id].handles == 1
      && if id in m.pool && id in m.cells && Reusable(m.cells[id], size) then
           && |m'.pool| == |m.pool| - 1 && m'.nextId == m.nextId
           && m'.cells[id].capacity == m.cells[id].capacity && m'.cells[id].shared == m.cells[id].shared
         else
           && (forall x :: x in m.pool && x in m.cells ==> !Reusable(m.cells[x], size))
           && m'.pool == m.pool && id == m.nextId && m'.nextId == m.nextId + 1
           && m'.cells[id].shared == m.sharedCapacity.Some?
           && m'.cells[id].capacity == if m.sharedCapacity.Some? then m.sharedCapacity.value else size
  {
  }

  lemma CreateKnown(m: Machine, h: History, n: nat, id: Rid)
    requires At(m, h, n) && (h.script[n].Create? || h.script[n].Spawn?)
    ensures Known(After(m, h, n), h, n + 1, id)
  {
    hide Inv, StepCreate, AllKnown, Phase, Handles, Kept, Capacity, LastImage, InCharge, Nest, Queue;
    KnownAt(m, h, n, id);
    InPool(m, h, n, id);
    CreateStep(m, h.script[n].capacity);
    CreatedReading(h, n, id);
  }

  /** The routine in charge gives control back. */
  lemma YieldStep(m: Machine, next: State)
    requires Inv(m) && m.callStack != [] && next != Init && next != Running
    ensures var (m', o) := StepYield(m, next);
      var k := |m.callStack| - 1;
      var id := m.callStack[k];
      && id in m.cells && o != Refused && m'.callStack == m.callStack[..k]
      && m'.poolMax == m.poolMax && m'.sharedCapacity == m.sharedCapacity && m'.nextId == m.nextId
      && m'.ready == (if next == Ready then m.ready + [id] else m.ready)
      && (if next == Finished && |m.pool| >= m.poolMax then m'.cells == m.cells - {id}
          else && m'.cells == m.cells[id := m'.cells[id]]
               && m'.cells[id].state == next && m'.cells[id].handles == m.cells[id].handles
               && m'.cells[id].capacity == m.cells[id].capacity && m'.cells[id].shared == m.cells[id].shared
               && (next != Finished ==> m'.cells[id].image == m.cells[id].image))
      && m'.pool == (if next == Finished && |m.pool| < m.poolMax then m.pool + [id] else m.pool)
      && o == if k == 0 then BackInRoot else Entered(m.callStack[k - 1], m.cells[m.callStack[k - 1]].image)
  {
    RunningCanYield(m, next);
    var k := |m.callStack| - 1;
    Listed(m, m.callStack, k, Running);
    if k > 0 { Listed(m, m.callStack, k - 1, Running); }
  }

  lemma YieldRefused(m: Machine, next: State)
    requires m.callStack == [] || next == Init || next == Running
    ensures StepYield(m, next) == (m, Refused)
  {
  }

  lemma YieldKnown(m: Machine, h: History, n: nat, id: Rid)
    requires At(m, h, n) && h.script[n].Yield?
    ensures Known(After(m, h, n), h, n + 1, id)
  {
    hide Inv, StepYield, AllKnown, Phase, Handles, Kept, Capacity, LastImage, InCharge, Nest, Queue;
    Enterable(m, h, n);
    KnownAt(m, h, n, id);
    var next := h.script[n].next;
    if m.callStack != [] && next != Init && next != Running {
      YieldStep(m, next);
    } else {
      YieldRefused(m, next);
    }
    YieldReading(h, n, id);
  }

  lemma TurnListReading(h: History, n: nat)
    requires Paired(h) && n < |h.script| && (h.script[n].Resume? || h.script[n].RunNext? || h.script[n].MakeReady?)
    requires !h.outcomes[n].Created? && !h.outcomes[n].BackInRoot?
    requires h.script[n].MakeReady? ==> !h.outcomes[n].Entered?
    ensures Kept(h, n + 1) == Kept(h, n)
    ensures Nest(h, n + 1) == if h.outcomes[n].Entered? then Nest(h, n) + [h.outcomes[n].id] else Nest(h, n)
    ensures InCharge(h, n + 1) == if h.outcomes[n].Entered? then Some(h.outcomes[n].id) else InCharge(h, n)
    ensures Queue(h, n + 1) ==
      if h.script[n].MakeReady? && h.outcomes[n] == Done then Queue(h, n) + [h.script[n].id]
      else if h.script[n].RunNext? && h.outcomes[n].Entered? && Queue(h, n) != [] then Queue(h, n)[1..]
      else Queue(h, n)
  {
  }

  lemma YieldListReading(h: History, n: nat)
    requires Paired(h) && n < |h.script| && h.script[n].Yield? && !h.outcomes[n].Created?
    ensures h.outcomes[n] == Refused ==>
      && Kept(h, n + 1) == Kept(h, n) && Nest(h, n + 1) == Nest(h, n)
      && InCharge(h, n + 1) == InCharge(h, n) && Queue(h, n + 1) == Queue(h, n)
    ensures h.outcomes[n] != Refused && InCharge(h, n).Some? && Nest(h, n) != [] ==>
      && Nest(h, n + 1) == Nest(h, n)[..|Nest(h, n)| - 1]
      && Kept(h, n + 1) ==
         (if h.script[n].next == Finished && |Kept(h, n)| < h.poolMax then Kept(h, n) + {InCharge(h, n).value}
          else Kept(h, n))
      && Queue(h, n + 1) == if h.script[n].next == Ready then Queue(h, n) + [InCharge(h, n).value] else Queue(h, n)
    ensures h.outcomes[n] == BackInRoot ==> InCharge(h, n + 1) == None
    ensures h.outcomes[n].Entered? ==> InCharge(h, n + 1) == Some(h.outcomes[n].id)
  {
  }

  lemma TurnLists(m: Machine, h: History, n: nat)
    requires At(m, h, n) && (h.script[n].Resume? || h.script[n].RunNext? || h.script[n].MakeReady?)
    ensures ListsMatch(After(m, h, n), h, n + 1)
  {
    hide Inv, AllKnown, Kept, Nest, InCharge, Queue;
    Enterable(m, h, n);
    TurnListReading(h, n);
  }

  lemma OtherLists(m: Machine, h: History, n: nat)
    requires At(m, h, n) && (h.script[n].AddHandle? || h.script[n].DropHandle? || h.script[n].Work?)
    ensures ListsMatch(After(m, h, n), h, n + 1)
  {
    hide Inv, AllKnown;
  }

  lemma CreateLists(m: Machine, h: History, n: nat)
    requires At(m, h, n) && (h.script[n].Create? || h.script[n].Spawn?)
    ensures ListsMatch(After(m, h, n), h, n + 1)
  {
    hide Inv, AllKnown, StepCreate;
    CreateStep(m, h.script[n].capacity);
    var id := StepCreate(m, h.script[n].capacity).1;
    InPool(m, h, n, id);
    NewIsUnknown(m, h, n);
  }

  lemma NewIsUnknown(m: Machine, h: History, n: nat)
    requires At(m, h, n)
    ensures m.nextId !in Kept(h, n) && Phase(h, n, m.nextId).None?
  {
    KnownAt(m, h, n, m.nextId);
  }

  lemma YieldLists(m: Machine, h: History, n: nat)
    requires At(m, h, n) && h.script[n].Yield?
    ensures ListsMatch(After(m, h, n), h, n + 1)
  {
    hide Inv, AllKnown, StepYield, Kept, Nest, InCharge, Queue, Known;
    Enterable(m, h, n);
    var next := h.script[n].next;
    if m.callStack != [] && next != Init && next != Running {
      YieldStep(m, next);
      KnownAt(m, h, n, Top(m.callStack).value);
    } else {
      YieldRefused(m, next);
    }
    YieldListReading(h, n);
  }

  lemma TurnAnswers(m: Machine, h: History, n: nat)
    requires At(m, h, n) && (h.script[n].Resume? || h.script[n].RunNext? || h.script[n].MakeReady?)
    ensures Answers(h, n)
  {
    hide AllKnown, Lists, LiveSet, Phase, Handles, Kept, Capacity, LastImage, InCharge, Nest, Queue;
    Enterable(m, h, n);
    if h.script[n].RunNext? {
      if m.ready != [] { KnownAt(m, h, n, m.ready[0]); }
    } else {
      KnownAt(m, h, n, h.script[n].id);
    }
  }

  lemma OtherAnswers(m: Machine, h: History, n: nat)
    requires At(m, h, n) && (h.script[n].AddHandle? || h.script[n].DropHandle? || h.script[n].Work?)
    ensures Answers(h, n)
  {
    hide AllKnown, Inv;
    Enterable(m, h, n);
    if h.script[n].Work? {
      if m.callStack != [] { KnownAt(m, h, n, Top(m.callStack).value); }
    } else {
      KnownAt(m, h, n, h.script[n].id);
    }
  }

  lemma CreateAnswers(m: Machine, h: History, n: nat)
    requires At(m, h, n) && (h.script[n].Create? || h.script[n].Spawn?)
    ensures Answers(h, n)
  {
    hide AllKnown, Inv, StepCreate, Phase, Handles, Kept, Capacity;
    var size := h.script[n].capacity;
    CreateStep(m, size);
    var o := h.outcomes[n];
    NewIsUnknown(m, h, n);
    forall id ensures Spare(h, n, id, size) <==> id in m.pool && id in m.cells && Reusable(m.cells[id], size) {
      InPool(m, h, n, id);
      KnownAt(m, h, n, id);
    }
    assert o == Created(StepCreate(m, size).1);
  }

  lemma YieldAnswers(m: Machine, h: History, n: nat)
    requires At(m, h, n) && h.script[n].Yield?
    ensures Answers(h, n)
  {
    hide AllKnown, Inv, StepYield, Phase, Handles, Kept, Capacity, LastImage, InCharge, Nest, Queue;
    var next, k := h.script[n].next, |m.callStack|;
    Enterable(m, h, n);
    if k > 0 && next != Init && next != Running {
      YieldStep(m, next);
      if k > 1 { KnownAt(m, h, n, m.callStack[k - 2]); }
    } else {
      YieldRefused(m, next);
    }
  }

  lemma CallKnown(m: Machine, h: History, n: nat, id: Rid)
    requires At(m, h, n)
    ensures Known(After(m, h, n), h, n + 1, id)
  {
    hide Known, Inv, AllKnown, ListsMatch, Step;
    match h.script[n]
    case Create(_) => CreateKnown(m, h, n, id);
    case Spawn(_) => CreateKnown(m, h, n, id);
    case Yield(_) => YieldKnown(m, h, n, id);
    case Resume(_) => TurnKnown(m, h, n, id);
    case RunNext => TurnKnown(m, h, n, id);
    case MakeReady(_) => TurnKnown(m, h, n, id);
    case _ => OtherKnown(m, h, n, id);
  }

  lemma CallKnowsAll(m: Machine, h: History, n: nat)
    requires At(m, h, n)
    ensures AllKnown(After(m, h, n), h, n + 1)
  {
    hide Known, Inv, ListsMatch, Step;
    var m', k := After(m, h, n), n + 1;
    forall id ensures Known(m', h, k, id) { CallKnown(m, h, n, id); }
  }

  lemma CallAnswers(m: Machine, h: History, n: nat)
    requires At(m, h, n)
    ensures Answers(h, n) && ListsMatch(After(m, h, n), h, n + 1)
  {
    hide Answers, ListsMatch, Inv, AllKnown, Step;
    match h.script[n]
    case Create(_) => CreateAnswers(m, h, n); CreateLists(m, h, n);
    case Spawn(_) => CreateAnswers(m, h, n); CreateLists(m, h, n);
    case Yield(_) => YieldAnswers(m, h, n); YieldLists(m, h, n);
    case Resume(_) => TurnAnswers(m, h, n); TurnLists(m, h, n);
    case RunNext => TurnAnswers(m, h, n); TurnLists(m, h, n);
    case MakeReady(_) => TurnAnswers(m, h, n); TurnLists(m, h, n);
    case _ => OtherAnswers(m, h, n); OtherLists(m, h, n);
  }

  ghost function Recorded(poolMax: nat, shared: Option<nat>, script: seq<Event>): (h: History) {
    History(poolMax, shared, script, Trace(Initial(poolMax, shared), script))
  }

  lemma {:induction false} TracePrefix(m: Machine, script: seq<Event>, n: nat)
    requires n < |script|
    ensures Trace(m, script)[n] == Step(Run(m, script[..n]), script[n]).1
    ensures Run(m, script[..n + 1]) == Step(Run(m, script[..n]), script[n]).0
  {
    hide Step;
    assert script[..n + 1][..n] == script[..n];
    if n + 1 < |script| {
      var init := script[..|script| - 1];
      assert init[..n] == script[..n] && init[..n + 1] == script[..n + 1];
      TracePrefix(m, init, n);
    }
  }

  lemma BeforeAnyCall(poolMax: nat, shared: Option<nat>, script: seq<Event>)
    ensures var h, m := Recorded(poolMax, shared, script), Initial(poolMax, shared);
      Inv(m) && AllKnown(m, h, 0) && ListsMatch(m, h, 0)
  {
    hide Inv, Trace;
    InitialInv(poolMax, shared);
  }

  lemma {:induction false} AtEveryCall(poolMax: nat, shared: Option<nat>, script: seq<Event>, n: nat)
    requires n <= |script|
    ensures var h, m := Recorded(poolMax, shared, script), Run(Initial(poolMax, shared), script[..n]);
      && Inv(m) && AllKnown(m, h, n) && ListsMatch(m, h, n)
      && forall j :: 0 <= j < n ==> Answers(h, j)
  {
    hide Inv, AllKnown, ListsMatch, Answers, Step, Known, Initial;
    var h, m0 := Recorded(poolMax, shared, script), Initial(poolMax, shared);
    if n == 0 {
      BeforeAnyCall(poolMax, shared, script);
    } else {
      var k := n - 1;
      var m := Run(m0, script[..k]);
      AtEveryCall(poolMax, shared, script, k);
      TracePrefix(m0, script, k);
      assert At(m, h, k);
      CallAnswers(m, h, k);
      CallKnowsAll(m, h, k);
      StepKeepsInv(m, script[k]);
    }
  }

  /**
   Over every script, every outcome is the one the calls and outcomes before it call for. In particular whoever gets
   control, by a resume, by its turn in the queue or by a yield, finds what it last wrote to its stack while it was
   in charge, or nothing if it wrote nothing since its creation.
   */
  lemma EveryCallExplained(poolMax: nat, shared: Option<nat>, script: seq<Event>)
    ensures Explained(Recorded(poolMax, shared, script))
  {
    AtEveryCall(poolMax, shared, script, |script|);
  }

  /** The bytes a routine finds, whatever gave it control. */
  lemma FindsItsOwnImage(poolMax: nat, shared: Option<nat>, script: seq<Event>, n: nat)
    requires n < |script| && Trace(Initial(poolMax, shared), script)[n].Entered?
    ensures var h := Recorded(poolMax, shared, script);
      h.outcomes[n].found == LastImage(h, n, h.outcomes[n].id)
  {
    hide Trace, Initial;
    EveryCallExplained(poolMax, shared, script);
    var h := Recorded(poolMax, shared, script);
    assert Answers(h, n);
  }
}
