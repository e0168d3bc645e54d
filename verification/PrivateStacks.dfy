/**
 The coroutine scheduler as a programmer sees it: every coroutine keeps its own stack image, and the scheduler
 moves coroutines between its ready queue, its stack of nested resumes and its pool of finished routines.
 No physical stack is shared here; module CoroutineScheduler shows that sharing cannot be noticed.
 */
module PrivateStacks {
  import opened Results
  import opened Bytes
  import opened Sequences

  type Rid = nat

  datatype State = Init | Ready | Running | WaitIo | WaitTimer | WaitEvent | Finished

  datatype Cell = Cell(state: State, queued: bool, image: seq<Byte>, handles: nat, shared: bool, capacity: nat)

  /** `callStack` lists the routines nested inside one another, the running one last; it is empty in root context. */
  datatype Machine = Machine(
    cells: map<Rid, Cell>,
    callStack: seq<Rid>,
    ready: seq<Rid>,
    pool: seq<Rid>,
    poolMax: nat,
    sharedCapacity: Option<nat>,
    nextId: nat,
    live: nat)

  datatype Event =
    | Create(capacity: nat)
    | Spawn(capacity: nat)
    | AddHandle(id: Rid)
    | DropHandle(id: Rid)
    | Work(image: seq<Byte>)
    | Resume(id: Rid)
    | RunNext
    | MakeReady(id: Rid)
    | Yield(next: State)

  datatype Outcome =
    | Refused
    | Ignored
    | Done
    | Created(id: Rid)
    | Entered(id: Rid, found: seq<Byte>)
    | BackInRoot

  predicate Live(c: Cell) { c.state != Init && c.state != Finished }

  predicate Resumable(s: State) { s == Init || s == Ready || s == WaitEvent }

  predicate Waiting(s: State) { s == WaitIo || s == WaitTimer || s == WaitEvent }

  function Initial(poolMax: nat, sharedCapacity: Option<nat>): (m: Machine) {
    Machine(map[], [], [], [], poolMax, sharedCapacity, 1, 0)
  }

  // ---------------------------------------------------------------------------------------------
  // Creation and the pool
  // ---------------------------------------------------------------------------------------------

  /** Only the scheduler and the pool own such a routine, and its stack is large enough. */
  predicate Reusable(c: Cell, capacity: nat) {
    c.handles == 0 && (c.shared || capacity <= c.capacity)
  }

  /** The last pooled routine among the first `k` that can be reused. */
  function PickPooled(m: Machine, capacity: nat, k: nat): (r: Option<nat>)
    requires k <= |m.pool|
    ensures r.Some? ==> r.value < k && m.pool[r.value] in m.cells && Reusable(m.cells[m.pool[r.value]], capacity)
    ensures r.Some? ==> forall i :: r.value < i < k && m.pool[i] in m.cells ==> !Reusable(m.cells[m.pool[i]], capacity)
    ensures r.None? ==> forall i :: 0 <= i < k && m.pool[i] in m.cells ==> !Reusable(m.cells[m.pool[i]], capacity)
  {
    if k == 0 then None
    else if m.pool[k - 1] in m.cells && Reusable(m.cells[m.pool[k - 1]], capacity) then Some(k - 1)
    else PickPooled(m, capacity, k - 1)
  }

  /** The vector without element `i`: the last element takes its place. */
  function SwapRemove<T>(s: seq<T>, i: nat): (r: seq<T>)
    requires i < |s|
    ensures |r| == |s| - 1
  {
    if i + 1 == |s| then s[..i] else s[i := s[|s| - 1]][..|s| - 1]
  }

  function StepCreate(m: Machine, capacity: nat): (r: (Machine, Rid)) {
    match PickPooled(m, capacity, |m.pool|)
    case Some(i) =>
      var id := m.pool[i];
      var c := m.cells[id];
      (m.(pool := SwapRemove(m.pool, i),
          cells := m.cells[id := Cell(Init, false, [], 1, c.shared, c.capacity)]), id)
    case None =>
      var size := if m.sharedCapacity.Some? then m.sharedCapacity.value else capacity;
      (m.(nextId := m.nextId + 1,
          cells := m.cells[m.nextId := Cell(Init, false, [], 1, m.sharedCapacity.Some?, size)]), m.nextId)
  }

  // ---------------------------------------------------------------------------------------------
  // Scheduling
  // ---------------------------------------------------------------------------------------------

  function SetState(m: Machine, id: Rid, s: State): (r: Machine)
    requires id in m.cells
  {
    m.(cells := m.cells[id := m.cells[id].(state := s)])
  }

  function Enqueue(m: Machine, id: Rid): (r: Machine)
    requires id in m.cells
  {
    m.(ready := m.ready + [id], cells := m.cells[id := m.cells[id].(state := Ready, queued := true)])
  }

  function Enter(m: Machine, id: Rid): (r: Machine)
    requires id in m.cells
  {
    m.(callStack := m.callStack + [id], cells := m.cells[id := m.cells[id].(state := Running, queued := false)])
  }

  function StepResume(m: Machine, id: Rid): (r: (Machine, Outcome)) {
    if id !in m.cells then (m, Refused)
    else
      var c := m.cells[id];
      if c.state == Ready && c.queued then (m, Ignored)
      else if c.state == WaitTimer || Resumable(c.state) then
        (Enter(m.(live := if c.state == Init then m.live + 1 else m.live), id), Entered(id, c.image))
      else (m, Refused)
  }

  function StepRunNext(m: Machine): (r: (Machine, Outcome)) {
    if m.ready == [] || m.ready[0] !in m.cells then (m, Ignored)
    else (Enter(m.(ready := m.ready[1..]), m.ready[0]), Entered(m.ready[0], m.cells[m.ready[0]].image))
  }

  function Retire(m: Machine, id: Rid): (r: Machine)
    requires id in m.cells && m.live > 0
  {
    if |m.pool| < m.poolMax then
      m.(pool := m.pool + [id], live := m.live - 1,
         cells := m.cells[id := m.cells[id].(state := Finished, image := [])])
    else
      m.(live := m.live - 1, cells := m.cells - {id})
  }

  /** What the resumer does with the routine that gave control back to it. */
  function Settle(m: Machine, id: Rid, next: State): (r: Machine)
    requires id in m.cells && m.live > 0
  {
    if next == Finished then Retire(m, id) else if next == Ready then Enqueue(m, id) else SetState(m, id, next)
  }

  function InControl(m: Machine): (o: Outcome) {
    if m.callStack == [] then BackInRoot
    else
      var id := m.callStack[|m.callStack| - 1];
      if id in m.cells then Entered(id, m.cells[id].image) else Refused
  }

  predicate CanYield(m: Machine, next: State) {
    && next != Init && next != Running
    && m.callStack != [] && m.callStack[|m.callStack| - 1] in m.cells && m.live > 0
  }

  function StepYield(m: Machine, next: State): (r: (Machine, Outcome)) {
    if !CanYield(m, next) then (m, Refused)
    else
      var k := |m.callStack| - 1;
      var m' := Settle(m.(callStack := m.callStack[..k]), m.callStack[k], next);
      (m', InControl(m'))
  }

  function StepMakeReady(m: Machine, id: Rid): (r: (Machine, Outcome)) {
    if id in m.cells && Waiting(m.cells[id].state) then (Enqueue(m, id), Done) else (m, Refused)
  }

  function StepWork(m: Machine, image: seq<Byte>): (r: (Machine, Outcome)) {
    if m.callStack == [] then (m, Refused)
    else
      var id := m.callStack[|m.callStack| - 1];
      if id in m.cells && |image| <= m.cells[id].capacity
      then (m.(cells := m.cells[id := m.cells[id].(image := image)]), Done)
      else (m, Refused)
  }

  /** Handles are copied from handles, or obtained from the scheduler for a routine that is not in the pool. */
  function StepAddHandle(m: Machine, id: Rid): (r: (Machine, Outcome)) {
    if id in m.cells && (m.cells[id].handles > 0 || m.cells[id].state != Finished)
    then (m.(cells := m.cells[id := m.cells[id].(handles := m.cells[id].handles + 1)]), Done)
    else (m, Refused)
  }

  function StepDropHandle(m: Machine, id: Rid): (r: (Machine, Outcome)) {
    if id in m.cells && m.cells[id].handles > 0
    then (m.(cells := m.cells[id := m.cells[id].(handles := m.cells[id].handles - 1)]), Done)
    else (m, Refused)
  }

  function Step(m: Machine, e: Event): (r: (Machine, Outcome)) {
    match e
    case Create(capacity) => var (m', id) := StepCreate(m, capacity); (m', Created(id))
    case Spawn(capacity) =>
      var (m', id) := StepCreate(m, capacity);
      if id in m'.cells then (Enqueue(m'.(live := m'.live + 1), id), Created(id)) else (m, Refused)
    case AddHandle(id) => StepAddHandle(m, id)
    case DropHandle(id) => StepDropHandle(m, id)
    case Work(image) => StepWork(m, image)
    case Resume(id) => StepResume(m, id)
    case RunNext => StepRunNext(m)
    case MakeReady(id) => StepMakeReady(m, id)
    case Yield(next) => StepYield(m, next)
  }

  function Run(m: Machine, es: seq<Event>): (r: Machine) {
    if es == [] then m else Step(Run(m, es[..|es| - 1]), es[|es| - 1]).0
  }

  function Trace(m: Machine, es: seq<Event>): (t: seq<Outcome>)
    ensures |t| == |es|
  {
    if es == [] then []
    else Trace(m, es[..|es| - 1]) + [Step(Run(m, es[..|es| - 1]), es[|es| - 1]).1]
  }

  // ---------------------------------------------------------------------------------------------
  // What every run keeps
  // ---------------------------------------------------------------------------------------------

  ghost function LiveSet(cells: map<Rid, Cell>): (s: set<Rid>) {
    set id | id in cells && Live(cells[id])
  }

  /** `s` lists, once each, exactly the routines in state `st`. */
  ghost predicate Lists(m: Machine, s: seq<Rid>, st: State) {
    NoDup(s) && forall id :: id in s <==> id in m.cells && m.cells[id].state == st
  }

  /**
   A routine is READY exactly when it is queued, and then once; RUNNING exactly when it is on the call stack, and
   then once; FINISHED exactly when it is pooled; and the live count is the number of started, unfinished routines.
   */
  ghost predicate Inv(m: Machine) {
    && Lists(m, m.callStack, Running)
    && Lists(m, m.ready, Ready)
    && Lists(m, m.pool, Finished)
    && |m.pool| <= m.poolMax
    && m.live == |LiveSet(m.cells)|
    && forall id :: id in m.cells ==> id < m.nextId && CellOk(m.cells[id])
  }

  ghost predicate CellOk(c: Cell) {
    && (c.queued <==> c.state == Ready)
    && |c.image| <= c.capacity
    && (!Live(c) ==> c.image == [])
  }

  /** Changing one routine from a state other than `st` to another one leaves the list of `st` alone. */
  lemma ListsFrame(m: Machine, m': Machine, id: Rid, s: seq<Rid>, st: State)
    requires Lists(m, s, st)
    requires m'.cells.Keys == m.cells.Keys + {id} || m'.cells.Keys == m.cells.Keys - {id}
    requires forall x :: x in m'.cells && x != id ==> m'.cells[x] == m.cells[x]
    requires (id in m.cells && m.cells[id].state == st) <==> (id in m'.cells && m'.cells[id].state == st)
    ensures Lists(m', s, st)
  {
  }

  lemma ListsAppend(m: Machine, m': Machine, id: Rid, s: seq<Rid>, st: State)
    requires Lists(m, s, st)
    requires m'.cells.Keys == m.cells.Keys + {id}
    requires forall x :: x in m'.cells && x != id ==> m'.cells[x] == m.cells[x]
    requires id in m.cells ==> m.cells[id].state != st
    requires m'.cells[id].state == st
    ensures Lists(m', s + [id], st)
  {
    assert id !in s;
  }

  /** Taking one routine out of state `st` takes it out of the list, wherever in the list it is. */
  lemma ListsTake(m: Machine, m': Machine, s: seq<Rid>, i: nat, s': seq<Rid>, st: State)
    requires Lists(m, s, st) && i < |s|
    requires s' == s[..i] + s[i + 1..] || s' == SwapRemove(s, i)
    requires m'.cells.Keys == m.cells.Keys || m'.cells.Keys == m.cells.Keys - {s[i]}
    requires forall x :: x in m'.cells && x != s[i] ==> m'.cells[x] == m.cells[x]
    requires s[i] in m'.cells ==> m'.cells[s[i]].state != st
    ensures Lists(m', s', st)
  {
    var id := s[i];
    assert id in s && id in m.cells;
    forall x ensures x in s' <==> x in s && x != id {
      if x in s && x != id {
        var k :| 0 <= k < |s| && s[k] == x;
        assert x in s' by {
          if s' == SwapRemove(s, i) {
            assert if k < |s| - 1 then s'[k] == x else s'[i] == x;
          } else {
            assert if k < i then s'[k] == x else s'[k - 1] == x;
          }
        }
      }
    }
  }

  lemma LiveUpdate(cells: map<Rid, Cell>, id: Rid, c: Cell)
    ensures LiveSet(cells[id := c]) == if Live(c) then LiveSet(cells) + {id} else LiveSet(cells) - {id}
  {
  }

  lemma Listed(m: Machine, s: seq<Rid>, i: nat, st: State)
    requires Lists(m, s, st) && i < |s|
    ensures s[i] in m.cells && m.cells[s[i]].state == st
  {
    assert s[i] in s;
  }

  lemma ReuseKeepsInv(m: Machine, i: nat, c: Cell)
    requires Inv(m) && i < |m.pool| && m.pool[i] in m.cells
    requires c == Cell(Init, false, [], 1, m.cells[m.pool[i]].shared, m.cells[m.pool[i]].capacity)
    ensures Inv(m.(pool := SwapRemove(m.pool, i), cells := m.cells[m.pool[i] := c]))
  {
    hide Lists, SwapRemove;
    var id := m.pool[i];
    var m' := m.(pool := SwapRemove(m.pool, i), cells := m.cells[id := c]);
    Listed(m, m.pool, i, Finished);
    LiveUpdate(m.cells, id, c);
    assert LiveSet(m'.cells) == LiveSet(m.cells);
    ListsTake(m, m', m.pool, i, m'.pool, Finished);
    ListsFrame(m, m', id, m.callStack, Running);
    ListsFrame(m, m', id, m.ready, Ready);
  }

  lemma FreshKeepsInv(m: Machine, c: Cell)
    requires Inv(m) && c.state == Init && !c.queued && c.image == []
    ensures Inv(m.(nextId := m.nextId + 1, cells := m.cells[m.nextId := c]))
  {
    hide Lists;
    var m' := m.(nextId := m.nextId + 1, cells := m.cells[m.nextId := c]);
    assert m.nextId !in m.cells;
    assert LiveSet(m'.cells) == LiveSet(m.cells) by { LiveUpdate(m.cells, m.nextId, c); }
    assert Lists(m', m.pool, Finished) by { ListsFrame(m, m', m.nextId, m.pool, Finished); }
    assert Lists(m', m.callStack, Running) by { ListsFrame(m, m', m.nextId, m.callStack, Running); }
    assert Lists(m', m.ready, Ready) by { ListsFrame(m, m', m.nextId, m.ready, Ready); }
  }

  /** Creation never disturbs a routine that somebody outside still holds a handle to. */
  lemma CreateKeepsInv(m: Machine, capacity: nat)
    requires Inv(m)
    ensures var (m', id) := StepCreate(m, capacity);
            && Inv(m') && id in m'.cells && m'.cells[id].state == Init
            && (forall x :: x in m.cells && m.cells[x].handles > 0 ==> x in m'.cells && m'.cells[x] == m.cells[x])
  {
    var (m', id) := StepCreate(m, capacity);
    match PickPooled(m, capacity, |m.pool|)
    case Some(i) => ReuseKeepsInv(m, i, m'.cells[id]);
    case None => FreshKeepsInv(m, m'.cells[id]);
  }

  /** Entering a routine that is not in the ready queue: `live` already counts it. */
  lemma EnterKeepsInv(m: Machine, id: Rid)
    requires Inv(m) && id in m.cells
    requires m.cells[id].state == Init || m.cells[id].state == WaitTimer || m.cells[id].state == WaitEvent
    ensures Inv(Enter(m.(live := if m.cells[id].state == Init then m.live + 1 else m.live), id))
  {
    hide Lists;
    var m' := Enter(m.(live := if m.cells[id].state == Init then m.live + 1 else m.live), id);
    assert m'.live == |LiveSet(m'.cells)| by {
      LiveUpdate(m.cells, id, m'.cells[id]);
      assert m.cells[id].state != Init ==> LiveSet(m'.cells) == LiveSet(m.cells);
    }
    hide LiveSet;
    assert Lists(m', m'.callStack, Running) by { ListsAppend(m, m', id, m.callStack, Running); }
    assert Lists(m', m.ready, Ready) by { ListsFrame(m, m', id, m.ready, Ready); }
    assert Lists(m', m.pool, Finished) by { ListsFrame(m, m', id, m.pool, Finished); }
  }

  lemma RunNextKeepsInv(m: Machine)
    requires Inv(m)
    ensures Inv(StepRunNext(m).0)
    ensures m.ready != [] ==> m.ready[0] in m.cells
  {
    if m.ready != [] {
      var id := m.ready[0];
      assert id in m.ready;
      var m' := StepRunNext(m).0;
      LiveUpdate(m.cells, id, m'.cells[id]);
      assert LiveSet(m'.cells) == LiveSet(m.cells);
      ListsTake(m, m', m.ready, 0, m.ready[1..], Ready);
      ListsAppend(m, m', id, m.callStack, Running);
      ListsFrame(m, m', id, m.pool, Finished);
    }
  }

  lemma MakeReadyKeepsInv(m: Machine, id: Rid)
    requires Inv(m) && id in m.cells && Waiting(m.cells[id].state)
    ensures Inv(Enqueue(m, id))
  {
    hide Lists;
    var m' := Enqueue(m, id);
    LiveUpdate(m.cells, id, m'.cells[id]);
    assert LiveSet(m'.cells) == LiveSet(m.cells);
    ListsAppend(m, m', id, m.ready, Ready);
    ListsFrame(m, m', id, m.callStack, Running);
    ListsFrame(m, m', id, m.pool, Finished);
  }

  lemma SpawnKeepsInv(m: Machine, id: Rid)
    requires Inv(m) && id in m.cells && m.cells[id].state == Init
    ensures Inv(Enqueue(m.(live := m.live + 1), id))
  {
    hide Lists;
    var m' := Enqueue(m.(live := m.live + 1), id);
    LiveUpdate(m.cells, id, m'.cells[id]);
    ListsAppend(m, m', id, m.ready, Ready);
    ListsFrame(m, m', id, m.callStack, Running);
    ListsFrame(m, m', id, m.pool, Finished);
  }

  /** The guards before a switch back to the resumer never fire for a running routine. */
  lemma RunningCanYield(m: Machine, next: State)
    requires Inv(m) && next != Init && next != Running
    ensures CanYield(m, next) <==> m.callStack != []
  {
    if m.callStack != [] {
      var id := m.callStack[|m.callStack| - 1];
      assert id in m.callStack;
      assert id in LiveSet(m.cells);
    }
  }

  /** The running routine leaves the call stack for a state in which it waits or is queued. */
  lemma SuspendKeepsInv(m: Machine, next: State)
    requires Inv(m) && CanYield(m, next) && next != Finished
    ensures Inv(StepYield(m, next).0)
  {
    hide Lists;
    var k := |m.callStack| - 1;
    var id := m.callStack[k];
    Listed(m, m.callStack, k, Running);
    var c := m.cells[id].(state := next, queued := next == Ready);
    var ready := if next == Ready then m.ready + [id] else m.ready;
    var m' := m.(callStack := m.callStack[..k], ready := ready, cells := m.cells[id := c]);
    assert StepYield(m, next).0 == m' by { assert m.cells[id].queued == false; }
    LiveUpdate(m.cells, id, c);
    assert LiveSet(m'.cells) == LiveSet(m.cells);
    assert m.callStack[..k] == m.callStack[..k] + m.callStack[k + 1..];
    ListsTake(m, m', m.callStack, k, m.callStack[..k], Running);
    ListsFrame(m, m', id, m.pool, Finished);
    if next == Ready {
      ListsAppend(m, m', id, m.ready, Ready);
    } else {
      ListsFrame(m, m', id, m.ready, Ready);
    }
  }

  lemma FinishKeepsInv(m: Machine)
    requires Inv(m) && CanYield(m, Finished)
    ensures Inv(StepYield(m, Finished).0)
  {
    hide Lists;
    var k := |m.callStack| - 1;
    var id := m.callStack[k];
    Listed(m, m.callStack, k, Running);
    var m' := StepYield(m, Finished).0;
    assert m.callStack[..k] == m.callStack[..k] + m.callStack[k + 1..];
    ListsTake(m, m', m.callStack, k, m.callStack[..k], Running);
    assert LiveSet(m'.cells) == LiveSet(m.cells) - {id};
    ListsFrame(m, m', id, m.ready, Ready);
    if |m.pool| < m.poolMax {
      ListsAppend(m, m', id, m.pool, Finished);
    } else {
      ListsFrame(m, m', id, m.pool, Finished);
    }
  }

  /** Changing only the image or the handles of one routine. */
  lemma CellKeepsInv(m: Machine, id: Rid, c: Cell)
    requires Inv(m) && id in m.cells
    requires c.state == m.cells[id].state && c.queued == m.cells[id].queued && c.capacity == m.cells[id].capacity
    requires |c.image| <= c.capacity && (!Live(c) ==> c.image == [])
    ensures Inv(m.(cells := m.cells[id := c]))
  {
    hide Lists;
    var m' := m.(cells := m.cells[id := c]);
    LiveUpdate(m.cells, id, c);
    assert LiveSet(m'.cells) == LiveSet(m.cells);
    ListsFrame(m, m', id, m.callStack, Running);
    ListsFrame(m, m', id, m.ready, Ready);
    ListsFrame(m, m', id, m.pool, Finished);
  }

  /** Every scheduling event, accepted or refused, keeps the invariant. */
  lemma StepKeepsInv(m: Machine, e: Event)
    requires Inv(m)
    ensures Inv(Step(m, e).0)
  {
    hide Inv, Settle, Enqueue, Enter, StepCreate, PickPooled;
    match e
    case Create(capacity) => CreateKeepsInv(m, capacity);
    case Spawn(capacity) =>
      CreateKeepsInv(m, capacity);
      SpawnKeepsInv(StepCreate(m, capacity).0, StepCreate(m, capacity).1);
    case AddHandle(id) => HandlesKeepInv(m, id, 1);
    case DropHandle(id) => HandlesKeepInv(m, id, -1);
    case Work(image) => WorkKeepsInv(m, image);
    case Resume(id) => ResumeKeepsInv(m, id);
    case RunNext => RunNextKeepsInv(m);
    case MakeReady(id) =>
      if id in m.cells && Waiting(m.cells[id].state) { MakeReadyKeepsInv(m, id); }
    case Yield(next) =>
      if CanYield(m, next) {
        if next == Finished { FinishKeepsInv(m); } else { SuspendKeepsInv(m, next); }
      }
  }

  lemma HandlesKeepInv(m: Machine, id: Rid, delta: int)
    requires Inv(m)
    ensures id in m.cells && m.cells[id].handles + delta >= 0 ==>
              Inv(m.(cells := m.cells[id := m.cells[id].(handles := m.cells[id].handles + delta)]))
  {
    if id in m.cells && m.cells[id].handles + delta >= 0 {
      CellKeepsInv(m, id, m.cells[id].(handles := m.cells[id].handles + delta));
    }
  }

  lemma WorkKeepsInv(m: Machine, image: seq<Byte>)
    requires Inv(m)
    ensures Inv(StepWork(m, image).0)
  {
    if m.callStack != [] {
      var id := m.callStack[|m.callStack| - 1];
      assert id in m.callStack;
      if |image| <= m.cells[id].capacity {
        CellKeepsInv(m, id, m.cells[id].(image := image));
      }
    }
  }

  lemma ResumeKeepsInv(m: Machine, id: Rid)
    requires Inv(m)
    ensures Inv(StepResume(m, id).0)
  {
    if id in m.cells {
      var st := m.cells[id].state;
      if st == Init || st == WaitTimer || st == WaitEvent { EnterKeepsInv(m, id); }
    }
  }

  lemma InitialInv(poolMax: nat, sharedCapacity: Option<nat>)
    ensures Inv(Initial(poolMax, sharedCapacity))
  {
    assert LiveSet(map[]) == {};
  }

  /** The state machine of the scheduler, over every run from the start. */
  lemma {:induction false} RunKeepsInv(m: Machine, es: seq<Event>)
    requires Inv(m)
    ensures Inv(Run(m, es))
    decreases |es|
  {
    if es != [] {
      RunKeepsInv(m, es[..|es| - 1]);
      StepKeepsInv(Run(m, es[..|es| - 1]), es[|es| - 1]);
    }
  }

  // ---------------------------------------------------------------------------------------------
  // First in, first out
  // ---------------------------------------------------------------------------------------------

  /** The routine an event takes off the ready queue. */
  function Popped(m: Machine, e: Event): (r: seq<Rid>) {
    if e == RunNext && m.ready != [] && m.ready[0] in m.cells then [m.ready[0]] else []
  }

  /** The routine an event puts on the ready queue. */
  function Queued(m: Machine, e: Event): (r: seq<Rid>) {
    var m' := Step(m, e).0;
    if |m'.ready| > |m.ready| then [m'.ready[|m'.ready| - 1]] else []
  }

  function AllPopped(m: Machine, es: seq<Event>): (r: seq<Rid>) {
    if es == [] then []
    else AllPopped(m, es[..|es| - 1]) + Popped(Run(m, es[..|es| - 1]), es[|es| - 1])
  }

  function AllQueued(m: Machine, es: seq<Event>): (r: seq<Rid>) {
    if es == [] then []
    else AllQueued(m, es[..|es| - 1]) + Queued(Run(m, es[..|es| - 1]), es[|es| - 1])
  }

  lemma QueueStep(m: Machine, e: Event)
    ensures Popped(m, e) + Step(m, e).0.ready == m.ready + Queued(m, e)
  {
    match e
    case Yield(next) =>
    case _ =>
  }

  /** Over any run, what was taken off the queue and what is left is what was there followed by what was added. */
  lemma {:induction false} QueueIsFifo(m: Machine, es: seq<Event>)
    ensures AllPopped(m, es) + Run(m, es).ready == m.ready + AllQueued(m, es)
    decreases |es|
  {
    hide Step;
    if es != [] {
      var k := |es| - 1;
      var m1 := Run(m, es[..k]);
      QueueIsFifo(m, es[..k]);
      QueueStep(m1, es[k]);
      var p, q := Popped(m1, es[k]), Queued(m1, es[k]);
      calc {
        AllPopped(m, es) + Run(m, es).ready;
        AllPopped(m, es[..k]) + (p + Run(m, es).ready);
        AllPopped(m, es[..k]) + (m1.ready + q);
        (AllPopped(m, es[..k]) + m1.ready) + q;
        m.ready + AllQueued(m, es[..k]) + q;
        m.ready + AllQueued(m, es);
      }
    }
  }

  /**
   Whatever happens in between, the first routines taken are those queued at the start, in queue order, and the queue
   cannot run empty before all of them have been taken.
   */
  lemma PassRunsTheSnapshot(m: Machine, es: seq<Event>)
    ensures var n := |AllPopped(m, es)|;
      && n <= |m.ready + AllQueued(m, es)| && AllPopped(m, es) == (m.ready + AllQueued(m, es))[..n]
      && Run(m, es).ready == (m.ready + AllQueued(m, es))[n..]
      && (n <= |m.ready| ==> AllPopped(m, es) == m.ready[..n])
      && (n < |m.ready| ==> Run(m, es).ready != [])
      && (n == |m.ready| ==> AllPopped(m, es) == m.ready && Run(m, es).ready == AllQueued(m, es))
  {
    hide AllPopped, AllQueued, Run;
    QueueIsFifo(m, es);
    var n := |AllPopped(m, es)|;
    var l, r := AllPopped(m, es) + Run(m, es).ready, m.ready + AllQueued(m, es);
    assert l[..n] == AllPopped(m, es) && l[n..] == Run(m, es).ready;
    assert n <= |m.ready| ==> r[..n] == m.ready[..n] && r[n..] == m.ready[n..] + AllQueued(m, es);
  }

  // ---------------------------------------------------------------------------------------------
  // Control comes back
  // ---------------------------------------------------------------------------------------------

  /** An event moves control by at most one level, and leaves the levels below alone. */
  lemma DepthStep(m: Machine, e: Event, base: nat)
    requires base < |m.callStack|
    ensures var stack := Step(m, e).0.callStack; base <= |stack| && stack[..base] == m.callStack[..base]
  {
  }

  lemma RunAppended(m: Machine, es: seq<Event>, e: Event)
    ensures Run(m, es + [e]) == Step(Run(m, es), e).0
    ensures AllPopped(m, es + [e]) == AllPopped(m, es) + Popped(Run(m, es), e)
  {
    assert (es + [e])[..|es|] == es;
  }

  lemma {:induction false} RunConcat(m: Machine, es: seq<Event>, fs: seq<Event>)
    ensures Run(m, es + fs) == Run(Run(m, es), fs)
    ensures AllPopped(m, es + fs) == AllPopped(m, es) + AllPopped(Run(m, es), fs)
    decreases |fs|
  {
    hide Step, Popped;
    if fs == [] {
      assert es + fs == es;
    } else {
      var k := |fs| - 1;
      RunConcat(m, es, fs[..k]);
      assert es + fs == (es + fs[..k]) + [fs[k]] && fs == fs[..k] + [fs[k]];
      RunAppended(m, es + fs[..k], fs[k]);
    }
  }
}
