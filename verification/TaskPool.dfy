/**
 The lock-free task pool: per bucket a Treiber free list and a retired list, with reuse delayed by hazard records.
 Every load, store, exchange and compare-and-swap on shared memory is one step, and any number of threads take steps
 in any order. `next`, `head`, `retired` and `records` are the shared memory; `free`, `garbage`, `batch` and `place`
 are auxiliary: no step's effect on the shared memory depends on them.
 */
module TaskPool {
  import opened Results
  import opened Sequences

  type Node = nat
  type Tid = nat
  type Ptr = Option<Node>

  const BUCKETS := 64
  const RECLAIM_BATCH := 32

  type Bucket = b: nat | b < BUCKETS

  datatype Record = Record(node: Ptr, bucket: Option<Bucket>)

  datatype Origin = FromAllocate | FromFree

  datatype Target = ToFree | ToRetired

  datatype Stage = PushLoad | PushStore(seen: Ptr) | PushCas(seen: Ptr)

  /** What follows a push: the end of a call to free, or the rest of a reclaimed batch. */
  datatype Then = FreeCall | BatchItem(rest: Ptr, origin: Origin)

  datatype Pc =
    | Idle
    // Allocate
    | LoadHead
    | ClearHazard
    | ReloadHead
    | Protect(task: Node)
    | Validate(task: Node)
    | LoadNext(task: Node)
    | CasHead(task: Node, next: Ptr)
    | Unprotect(task: Node)
    | Unlink(task: Node)
    // Free
    | Push(task: Node, bucket: Bucket, target: Target, stage: Stage, cont: Then)
    | Count(bucket: Bucket)
    // ReclaimRetired
    | TakeRetired(bucket: Bucket, origin: Origin)
    | Walk(bucket: Bucket, origin: Origin, rest: Ptr)
    | ScanBucket(task: Node, bucket: Bucket, origin: Origin, rest: Ptr, left: nat)
    | ScanNode(task: Node, bucket: Bucket, origin: Origin, rest: Ptr, left: nat)

  datatype Thread = Thread(bucket: Bucket, record: Option<nat>, pc: Pc)

  /** Where a task is. */
  datatype Place = Owned | Held(holder: Tid) | InFree | InRetired | InBatch(reclaimer: Tid)

  datatype Pool = Pool(
    head: seq<Ptr>, retired: seq<Ptr>, sequence: seq<nat>,
    next: map<Node, Ptr>, bucketOf: map<Node, Bucket>,
    records: seq<Record>, threads: map<Tid, Thread>,
    free: seq<seq<Node>>, garbage: seq<seq<Node>>, batch: map<Tid, seq<Node>>, place: map<Node, Place>)

  datatype Action =
    | Attach(t: Tid, bucket: Bucket)
    | Adopt(t: Tid, record: nat)
    | NewRecord(t: Tid)
    | Detach(t: Tid)
    | StartAllocate(t: Tid)
    | StartFree(t: Tid, task: Node)
    | Take(t: Tid, spurious: bool, brand: Node)

  function First<T>(s: seq<T>): (p: Option<T>) {
    if s == [] then None else Some(s[0])
  }

  function Rest<T>(s: seq<T>): (r: seq<T>) {
    if s == [] then [] else s[1..]
  }

  function Initial(): (p: Pool) {
    var none := seq(BUCKETS, _ => None);
    var empty := seq(BUCKETS, _ => []);
    Pool(none, none, seq(BUCKETS, _ => 0), map[], map[], [], map[], empty, empty, map[], map[])
  }

  // ---------------------------------------------------------------------------------------------
  // Steps
  // ---------------------------------------------------------------------------------------------

  predicate Shaped(p: Pool) {
    |p.head| == |p.retired| == |p.sequence| == |p.free| == |p.garbage| == BUCKETS
  }

  function Goto(p: Pool, t: Tid, pc: Pc): (p': Pool)
    requires t in p.threads
  {
    p.(threads := p.threads[t := p.threads[t].(pc := pc)])
  }

  function SetHazard(p: Pool, t: Tid, node: Ptr): (p': Pool)
    requires t in p.threads
  {
    var r := p.threads[t].record;
    if r.Some? && r.value < |p.records| then
      p.(records := p.records[r.value := p.records[r.value].(node := node)])
    else p
  }

  function Return(p: Pool, t: Tid, origin: Origin): (p': Pool)
    requires t in p.threads
  {
    Goto(p, t, if origin == FromAllocate then ReloadHead else Idle)
  }

  /** A task made because there was nothing to reuse. */
  function NewTask(p: Pool, t: Tid, b: Bucket, brand: Node): (p': Pool)
    requires Shaped(p) && t in p.threads
    ensures Shaped(p')
  {
    Goto(p.(next := p.next[brand := None], bucketOf := p.bucketOf[brand := b], place := p.place[brand := Owned]), t,
        Idle)
  }

  /** The head moves on to `next`, and the task is in the hands of the thread. */
  function PopHead(p: Pool, t: Tid, b: Bucket, task: Node, next: Ptr): (p': Pool)
    requires Shaped(p) && t in p.threads && 0 <= b < BUCKETS
    ensures Shaped(p')
  {
    Goto(p.(head := p.head[b := next], free := p.free[b := Rest(p.free[b])], place := p.place[task := Held(t)]), t,
        Unprotect(task))
  }

  /** A step of `Allocate` that does not end in the reclaimer. */
  function StepAllocate(p: Pool, t: Tid, brand: Node): (p': Pool)
    requires Shaped(p) && t in p.threads
    ensures Shaped(p')
  {
    var b := p.threads[t].bucket;
    match p.threads[t].pc
    case LoadHead => Goto(p, t, if p.head[b].Some? then Protect(p.head[b].value) else ClearHazard)
    case ClearHazard => Goto(SetHazard(p, t, None), t, TakeRetired(b, FromAllocate))
    case ReloadHead =>
      if p.head[b].Some? then Goto(p, t, Protect(p.head[b].value))
      else if brand in p.next then p
      else NewTask(p, t, b, brand)
    case Protect(task) => Goto(SetHazard(p, t, Some(task)), t, Validate(task))
    case Validate(task) => Goto(p, t, if p.head[b] == Some(task) then LoadNext(task) else LoadHead)
    case LoadNext(task) => if task in p.next then Goto(p, t, CasHead(task, p.next[task])) else p
    case CasHead(task, next) =>
      if p.head[b] == Some(task) then PopHead(p, t, b, task, next) else Goto(p, t, LoadHead)
    case Unprotect(task) => Goto(SetHazard(p, t, None), t, Unlink(task))
    case Unlink(task) => Goto(p.(next := p.next[task := None], place := p.place[task := Owned]), t, Idle)
    case _ => p
  }

  function ListHead(p: Pool, b: Bucket, target: Target): (h: Ptr)
    requires Shaped(p)
  {
    if target == ToFree then p.head[b] else p.retired[b]
  }

  /** After the push of one task: the next one of the batch, or the bookkeeping at the end of `Free`. */
  function AfterPush(p: Pool, t: Tid, b: Bucket, cont: Then): (p': Pool)
    requires t in p.threads
  {
    match cont
    case FreeCall => Goto(p, t, Count(b))
    case BatchItem(rest, origin) =>
      Goto(p.(batch := p.batch[t := if t in p.batch then Rest(p.batch[t]) else []]), t, Walk(b, origin, rest))
  }

  function Linked(p: Pool, task: Node, b: Bucket, target: Target): (p': Pool)
    requires Shaped(p)
    ensures Shaped(p')
  {
    if target == ToFree then
      p.(head := p.head[b := Some(task)], free := p.free[b := [task] + p.free[b]], place := p.place[task := InFree])
    else
      p.(retired := p.retired[b := Some(task)], garbage := p.garbage[b := [task] + p.garbage[b]],
          place := p.place[task := InRetired])
  }

  function StepPush(p: Pool, t: Tid, spurious: bool): (p': Pool)
    requires Shaped(p) && t in p.threads && p.threads[t].pc.Push?
    ensures Shaped(p')
  {
    var pc := p.threads[t].pc;
    match pc.stage
    case PushLoad => Goto(p, t, pc.(stage := PushStore(ListHead(p, pc.bucket, pc.target))))
    case PushStore(seen) => Goto(p.(next := p.next[pc.task := seen]), t, pc.(stage := PushCas(seen)))
    case PushCas(seen) =>
      if ListHead(p, pc.bucket, pc.target) == seen && !spurious then
        AfterPush(Linked(p, pc.task, pc.bucket, pc.target), t, pc.bucket, pc.cont)
      else Goto(p, t, pc.(stage := PushStore(ListHead(p, pc.bucket, pc.target))))
  }

  function StepReclaim(p: Pool, t: Tid): (p': Pool)
    requires Shaped(p) && t in p.threads
    ensures Shaped(p')
  {
    match p.threads[t].pc
    case Count(b) =>
      var n := p.sequence[b] + 1;
      Goto(p.(sequence := p.sequence[b := n]), t, if n % RECLAIM_BATCH == 0 then TakeRetired(b, FromFree) else Idle)
    case TakeRetired(b, origin) =>
      var taken := p.garbage[b];
      Goto(p.(retired := p.retired[b := None], garbage := p.garbage[b := []], batch := p.batch[t := taken],
              place := map n | n in p.place :: if n in taken then InBatch(t) else p.place[n]), t,
                  Walk(b, origin, p.retired[b]))
    case Walk(b, origin, rest) =>
      if rest.None? then Return(p, t, origin)
      else if rest.value in p.next then Goto(p, t, ScanBucket(rest.value, b, origin, p.next[rest.value], |p.records|))
      else p
    case ScanBucket(task, b, origin, rest, left) =>
      if left == 0 || left > |p.records| then Goto(p, t, Push(task, b, ToFree, PushLoad, BatchItem(rest, origin)))
      else if p.records[left - 1].bucket == Some(b) then Goto(p, t, ScanNode(task, b, origin, rest, left))
      else Goto(p, t, ScanBucket(task, b, origin, rest, left - 1))
    case ScanNode(task, b, origin, rest, left) =>
      if 0 < left <= |p.records| && p.records[left - 1].node == Some(task)
      then Goto(p, t, Push(task, b, ToRetired, PushLoad, BatchItem(rest, origin)))
      else Goto(p, t, ScanBucket(task, b, origin, rest, if left == 0 then 0 else left - 1))
    case _ => p
  }

  function Step(p: Pool, a: Action): (p': Pool)
    requires Shaped(p)
    ensures Shaped(p')
  {
    match a
    case Attach(t, b) =>
      if t in p.threads then p else p.(threads := p.threads[t := Thread(b, None, Idle)], batch := p.batch[t := []])
    case Adopt(t, r) =>
      if t in p.threads && p.threads[t].record.None? && r < |p.records| && p.records[r].bucket.None? then
        p.(records := p.records[r := p.records[r].(bucket := Some(p.threads[t].bucket))],
           threads := p.threads[t := p.threads[t].(record := Some(r))])
      else p
    case NewRecord(t) =>
      if t in p.threads && p.threads[t].record.None? then
        p.(records := p.records + [Record(None, Some(p.threads[t].bucket))],
           threads := p.threads[t := p.threads[t].(record := Some(|p.records|))])
      else p
    case Detach(t) =>
      if t in p.threads && p.threads[t].pc == Idle && p.threads[t].record.Some?
          && p.threads[t].record.value < |p.records| then
        p.(records := p.records[p.threads[t].record.value := Record(None, None)],
           threads := p.threads[t := p.threads[t].(record := None)])
      else p
    case StartAllocate(t) =>
      if t in p.threads && p.threads[t].pc == Idle && p.threads[t].record.Some? then Goto(p, t, LoadHead) else p
    case StartFree(t, task) =>
      if t in p.threads && p.threads[t].pc == Idle && task in p.place && p.place[task] == Owned
          && task in p.bucketOf then
        Goto(p.(place := p.place[task := Held(t)]), t, Push(task, p.bucketOf[task], ToRetired, PushLoad, FreeCall))
      else p
    case Take(t, spurious, brand) =>
      if t !in p.threads then p
      else
        match p.threads[t].pc
        case Push(_, _, _, _, _) => StepPush(p, t, spurious)
        case Count(_) => StepReclaim(p, t)
        case TakeRetired(_, _) => StepReclaim(p, t)
        case Walk(_, _, _) => StepReclaim(p, t)
        case ScanBucket(_, _, _, _, _) => StepReclaim(p, t)
        case ScanNode(_, _, _, _, _) => StepReclaim(p, t)
        case _ => StepAllocate(p, t, brand)
  }

  // ---------------------------------------------------------------------------------------------
  // The invariant
  // ---------------------------------------------------------------------------------------------

  ghost predicate Placed(place: map<Node, Place>, bucketOf: map<Node, Bucket>, s: seq<Node>, b: Bucket, at: Place) {
    && NoDup(s)
    && forall n :: n in s ==> n in place && place[n] == at && n in bucketOf && bucketOf[n] == b
  }

  ghost predicate ListOk(p: Pool, b: Bucket, head: Ptr, s: seq<Node>, place: Place) {
    head == First(s) && Chain(p.next, s) && Placed(p.place, p.bucketOf, s, b, place)
  }

  ghost predicate BucketOk(p: Pool, b: Bucket)
    requires Shaped(p)
  {
    ListOk(p, b, p.head[b], p.free[b], InFree) && ListOk(p, b, p.retired[b], p.garbage[b], InRetired)
  }

  /** The task a thread has in its hands: popped and not yet returned, or passed to `Free` and not yet retired. */
  function Holding(pc: Pc): (n: Ptr) {
    match pc
    case Unprotect(task) => Some(task)
    case Unlink(task) => Some(task)
    case Push(task, _, _, _, FreeCall) => Some(task)
    case _ => None
  }

  ghost predicate NodeOk(p: Pool, n: Node)
    requires Shaped(p) && n in p.place && n in p.bucketOf
  {
    match p.place[n]
    case Owned => true
    case Held(t) => t in p.threads && Holding(p.threads[t].pc) == Some(n)
    case InFree => n in p.free[p.bucketOf[n]]
    case InRetired => n in p.garbage[p.bucketOf[n]]
    case InBatch(t) => t in p.batch && n in p.batch[t]
  }

  ghost predicate NodesOk(p: Pool)
    requires Shaped(p)
  {
    && p.place.Keys == p.next.Keys == p.bucketOf.Keys
    && forall n :: n in p.place ==> NodeOk(p, n)
  }

  /** What the hazard record of a thread holds at each point. */
  ghost predicate HazardOk(pc: Pc, node: Ptr) {
    match pc
    case LoadHead => true
    case ClearHazard => true
    case Protect(_) => true
    case Validate(task) => node == Some(task)
    case LoadNext(task) => node == Some(task)
    case CasHead(task, _) => node == Some(task)
    case Unprotect(task) => node == Some(task)
    case _ => node == None
  }

  ghost predicate RecordOk(p: Pool, th: Thread) {
    th.record.Some? ==>
      && th.record.value < |p.records|
      && p.records[th.record.value].bucket == Some(th.bucket)
      && HazardOk(th.pc, p.records[th.record.value].node)
  }

  /** The thread has seen `n` at the head after publishing it, and has not finished with it. */
  function Validated(pc: Pc): (n: Ptr) {
    match pc
    case LoadNext(task) => Some(task)
    case CasHead(task, _) => Some(task)
    case _ => None
  }

  ghost predicate BatchOk(p: Pool, t: Tid, b: Bucket, task: Node, rest: Ptr)
    requires t in p.batch
  {
    && p.batch[t] != [] && p.batch[t][0] == task
    && rest == First(p.batch[t][1..]) && Chain(p.next, p.batch[t][1..])
    && Placed(p.place, p.bucketOf, p.batch[t], b, InBatch(t))
  }

  predicate OriginOk(th: Thread, b: Bucket, origin: Origin) {
    origin == FromAllocate ==> th.record.Some? && th.bucket == b
  }

  ghost predicate HeldOk(p: Pool, t: Tid, task: Node) {
    task in p.place && p.place[task] == Held(t)
  }

  ghost predicate PcOk(p: Pool, t: Tid)
    requires t in p.threads && t in p.batch
  {
    var th := p.threads[t];
    match th.pc
    case Idle => p.batch[t] == []
    case LoadHead => p.batch[t] == [] && th.record.Some?
    case ClearHazard => p.batch[t] == [] && th.record.Some?
    case ReloadHead => p.batch[t] == [] && th.record.Some?
    case Protect(_) => p.batch[t] == [] && th.record.Some?
    case Validate(_) => p.batch[t] == [] && th.record.Some?
    case LoadNext(task) => p.batch[t] == [] && th.record.Some? && ValidatedOk(p, task, th.bucket)
    case CasHead(task, next) =>
      && p.batch[t] == [] && th.record.Some? && ValidatedOk(p, task, th.bucket)
      && (p.place[task] == InFree ==> p.next[task] == next)
    case Unprotect(task) => p.batch[t] == [] && th.record.Some? && HeldOk(p, t, task)
    case Unlink(task) => p.batch[t] == [] && th.record.Some? && HeldOk(p, t, task)
    case Push(task, b, target, stage, cont) =>
      && task in p.next && task in p.bucketOf && p.bucketOf[task] == b
      && (stage.PushCas? ==> p.next[task] == stage.seen)
      && (match cont
          case FreeCall => p.batch[t] == [] && target == ToRetired && HeldOk(p, t, task)
          case BatchItem(rest, origin) => BatchOk(p, t, b, task, rest) && OriginOk(th, b, origin))
    case Count(_) => p.batch[t] == []
    case TakeRetired(b, origin) => p.batch[t] == [] && OriginOk(th, b, origin)
    case Walk(b, origin, rest) =>
      OriginOk(th, b, origin) && rest == First(p.batch[t]) && Chain(p.next, p.batch[t])
          && Placed(p.place, p.bucketOf, p.batch[t], b, InBatch(t))
    case ScanBucket(task, b, origin, rest, left) =>
      OriginOk(th, b, origin) && BatchOk(p, t, b, task, rest) && left <= |p.records|
    case ScanNode(task, b, origin, rest, left) =>
      OriginOk(th, b, origin) && BatchOk(p, t, b, task, rest) && 0 < left <= |p.records|
  }

  ghost predicate ValidatedOk(p: Pool, task: Node, b: Bucket) {
    task in p.place && task in p.next && task in p.bucketOf && p.bucketOf[task] == b
  }

  ghost predicate ThreadOk(p: Pool, t: Tid)
    requires t in p.threads
  {
    t in p.batch && RecordOk(p, p.threads[t]) && PcOk(p, t)
  }

  /** A reclaimer that has passed over the record of a thread protecting its task would put it back in circulation. */
  ghost predicate Guards(th: Thread, pc: Pc) {
    Validated(th.pc).Some? && th.record.Some? ==>
      var n, v := Validated(th.pc).value, th.record.value;
      match pc
      case ScanBucket(task, _, _, _, left) => task == n ==> v < left
      case ScanNode(task, _, _, _, left) => task == n ==> v < left
      case Push(task, _, target, _, _) => task == n ==> target == ToRetired
      case _ => true
  }

  ghost predicate PairOk(p: Pool, t: Tid, r: Tid)
    requires t in p.threads && r in p.threads
  {
    Guards(p.threads[t], p.threads[r].pc)
  }

  ghost predicate RecordsOk(p: Pool) {
    && p.batch.Keys == p.threads.Keys
    && (forall t, r :: t in p.threads && r in p.threads && t != r && p.threads[t].record.Some? ==>
          p.threads[t].record != p.threads[r].record)
    && (forall v :: 0 <= v < |p.records| && p.records[v].bucket.None? ==> p.records[v].node.None?)
  }

  ghost predicate Inv(p: Pool) {
    && Shaped(p)
    && (forall b: Bucket :: 0 <= b < BUCKETS ==> BucketOk(p, b))
    && NodesOk(p)
    && (forall t :: t in p.threads ==> ThreadOk(p, t))
    && RecordsOk(p)
    && (forall t, r :: t in p.threads && r in p.threads ==> PairOk(p, t, r))
  }

  // ---------------------------------------------------------------------------------------------
  // What a step of one thread leaves alone
  // ---------------------------------------------------------------------------------------------

  /**
   A step of `t` keeps what other threads hold, and brings back into the free list only what nobody else validated.
   */
  ghost predicate NodeSteady(p: Pool, p': Pool, t: Tid, n: Node)
    requires n in p.place && n in p.next && n in p.bucketOf
  {
    && n in p'.place && n in p'.next && n in p'.bucketOf && p'.bucketOf[n] == p.bucketOf[n]
    && ((p.place[n].Held? && p.place[n].holder != t) || (p.place[n].InBatch? && p.place[n].reclaimer != t) ==>
          p'.place[n] == p.place[n] && p'.next[n] == p.next[n])
    && (p'.place[n] == InFree && !(p.place[n] == InFree && p'.next[n] == p.next[n]) ==>
          forall x :: x in p.threads && x != t ==> Validated(p.threads[x].pc) != Some(n))
  }

  ghost predicate Steady(p: Pool, p': Pool, t: Tid) {
    && (forall x :: x in p.threads && x != t ==> x in p'.threads && p'.threads[x] == p.threads[x])
    && (forall x :: x in p.batch && x != t ==> x in p'.batch && p'.batch[x] == p.batch[x])
    && |p.records| <= |p'.records|
    && (forall x :: x in p.threads && x != t && p.threads[x].record.Some? && p.threads[x].record.value < |p.records| ==>
          p'.records[p.threads[x].record.value] == p.records[p.threads[x].record.value])
    && (forall n :: n in p.place && n in p.next && n in p.bucketOf ==> NodeSteady(p, p', t, n))
  }

  lemma PlacedSteady(p: Pool, p': Pool, t: Tid, x: Tid, s: seq<Node>, b: Bucket)
    requires p.place.Keys == p.next.Keys == p.bucketOf.Keys
    requires Steady(p, p', t) && x != t
    requires Placed(p.place, p.bucketOf, s, b, InBatch(x))
    ensures Placed(p'.place, p'.bucketOf, s, b, InBatch(x))
    ensures Chain(p.next, s) ==> Chain(p'.next, s)
    ensures s != [] && Chain(p.next, s[1..]) ==> Chain(p'.next, s[1..])
  {
    forall n | n in s
      ensures n in p'.place && p'.place[n] == InBatch(x) && n in p'.bucketOf && p'.bucketOf[n] == b
      ensures n in p'.next && p'.next[n] == p.next[n]
    {
      assert NodeSteady(p, p', t, n);
    }
  }

  lemma OtherThread(p: Pool, p': Pool, t: Tid, x: Tid)
    requires p.place.Keys == p.next.Keys == p.bucketOf.Keys
    requires Steady(p, p', t) && x != t && x in p.threads && ThreadOk(p, x)
    ensures x in p'.threads && ThreadOk(p', x)
  {
    hide Chain, Placed;
    match p.threads[x].pc
    case LoadNext(task) => assert NodeSteady(p, p', t, task);
    case CasHead(task, _) => assert NodeSteady(p, p', t, task); assert Validated(p.threads[x].pc) == Some(task);
    case Unprotect(task) => assert NodeSteady(p, p', t, task);
    case Unlink(task) => assert NodeSteady(p, p', t, task);
    case Push(task, b, _, _, FreeCall) => assert NodeSteady(p, p', t, task);
    case Push(task, b, _, _, BatchItem(_, _)) =>
      assert p.place[task] == InBatch(x) by { assert task in p.batch[x]; BatchPlaced(p, x, b, task); }
      assert NodeSteady(p, p', t, task);
      PlacedSteady(p, p', t, x, p.batch[x], b);
    case Walk(b, _, _) => PlacedSteady(p, p', t, x, p.batch[x], b);
    case ScanBucket(_, b, _, _, _) => PlacedSteady(p, p', t, x, p.batch[x], b);
    case ScanNode(_, b, _, _, _) => PlacedSteady(p, p', t, x, p.batch[x], b);
    case _ =>
  }

  lemma BatchPlaced(p: Pool, x: Tid, b: Bucket, n: Node)
    requires x in p.batch && Placed(p.place, p.bucketOf, p.batch[x], b, InBatch(x)) && n in p.batch[x]
    ensures n in p.place && p.place[n] == InBatch(x) && n in p.bucketOf && p.bucketOf[n] == b
  {
  }

  /** The invariant from its parts: what holds of the thread that moved, and what the step left alone. */
  lemma Assemble(p: Pool, p': Pool, t: Tid)
    requires Inv(p) && Shaped(p')
    requires Steady(p, p', t) && p'.threads.Keys == p.threads.Keys + {t}
    requires forall b: Bucket :: 0 <= b < BUCKETS ==> BucketOk(p', b)
    requires NodesOk(p') && ThreadOk(p', t) && RecordsOk(p')
    requires forall r :: r in p'.threads ==> PairOk(p', t, r) && PairOk(p', r, t)
    ensures Inv(p')
  {
    hide BucketOk, NodesOk, RecordsOk, ThreadOk, NodeSteady;
    forall x | x in p'.threads ensures ThreadOk(p', x) {
      if x != t {
        assert p.place.Keys == p.next.Keys == p.bucketOf.Keys by { Keys(p); }
        OtherThread(p, p', t, x);
      }
    }
    forall x, r | x in p'.threads && r in p'.threads ensures PairOk(p', x, r) {
      if x != t && r != t {
        assert PairOk(p, x, r);
      }
    }
  }

  lemma Keys(p: Pool)
    requires Shaped(p) && NodesOk(p)
    ensures p.place.Keys == p.next.Keys == p.bucketOf.Keys
  {
  }

  /** A list whose tasks the step does not touch. */
  lemma ListKept(p: Pool, p': Pool, b: Bucket, head: Ptr, s: seq<Node>, place: Place)
    requires ListOk(p, b, head, s, place)
    requires forall n :: n in s ==>
      && n in p'.next && n in p.next && p'.next[n] == p.next[n]
      && n in p'.place && p'.place[n] == p.place[n] && n in p'.bucketOf && p'.bucketOf[n] == p.bucketOf[n]
    ensures ListOk(p', b, head, s, place)
  {
  }

  // ---------------------------------------------------------------------------------------------
  // Steps that change only the thread's own program counter and hazard record
  // ---------------------------------------------------------------------------------------------

  ghost predicate Moved(p: Pool, p': Pool, t: Tid)
    requires t in p.threads
  {
    && t in p'.threads && p' == p.(threads := p'.threads, records := p'.records, sequence := p'.sequence)
    && |p'.sequence| == |p.sequence|
    && p'.threads == p.threads[t := p.threads[t].(pc := p'.threads[t].pc)]
    && |p'.records| == |p.records|
    && (forall v :: 0 <= v < |p.records| && p.threads[t].record != Some(v) ==> p'.records[v] == p.records[v])
    && (forall v :: 0 <= v < |p.records| ==> p'.records[v].bucket == p.records[v].bucket)
    && Holding(p'.threads[t].pc) == Holding(p.threads[t].pc)
  }

  lemma MovedRecords(p: Pool, p': Pool, t: Tid)
    requires t in p.threads && Moved(p, p', t) && RecordsOk(p) && RecordOk(p, p.threads[t])
    ensures RecordsOk(p')
  {
  }

  lemma MovedSteady(p: Pool, p': Pool, t: Tid)
    requires t in p.threads && Moved(p, p', t) && RecordsOk(p)
    ensures Steady(p, p', t) && p'.threads.Keys == p.threads.Keys + {t}
  {
  }

  lemma MovedNodes(p: Pool, p': Pool, t: Tid)
    requires t in p.threads && Shaped(p) && Moved(p, p', t) && NodesOk(p)
    ensures Shaped(p') && NodesOk(p')
  {
    forall n | n in p'.place ensures NodeOk(p', n) {
      assert NodeOk(p, n);
    }
  }

  lemma MovedBucket(p: Pool, p': Pool, t: Tid, b: Bucket)
    requires t in p.threads && Shaped(p) && Moved(p, p', t) && BucketOk(p, b)
    ensures Shaped(p') && BucketOk(p', b)
  {
    ListKept(p, p', b, p.head[b], p.free[b], InFree);
    ListKept(p, p', b, p.retired[b], p.garbage[b], InRetired);
  }

  lemma MoveKeeps(p: Pool, p': Pool, t: Tid)
    requires Inv(p) && t in p.threads && Moved(p, p', t)
    requires ThreadOk(p', t)
    requires forall r :: r in p'.threads ==> PairOk(p', t, r) && PairOk(p', r, t)
    ensures Inv(p')
  {
    hide Moved, Shaped, BucketOk, NodesOk, RecordsOk, RecordOk, PcOk, PairOk, Steady;
    assert ThreadOk(p, t);
    MovedRecords(p, p', t);
    MovedSteady(p, p', t);
    MovedNodes(p, p', t);
    forall b: Bucket | 0 <= b < BUCKETS ensures BucketOk(p', b) {
      MovedBucket(p, p', t, b);
    }
    Assemble(p, p', t);
  }

  /** The rest of the invariant does not depend on where the thread is. */
  predicate Bystander(pc: Pc) {
    Validated(pc).None? && !pc.ScanBucket? && !pc.ScanNode? && !pc.Push?
  }

  lemma BystanderPairs(p: Pool, t: Tid)
    requires t in p.threads && Bystander(p.threads[t].pc)
    ensures forall r :: r in p.threads ==> PairOk(p, t, r) && PairOk(p, r, t)
  {
  }

  lemma GotoKeeps(p: Pool, t: Tid, pc: Pc)
    requires Inv(p) && t in p.threads && Bystander(pc) && Holding(pc) == Holding(p.threads[t].pc)
    requires ThreadOk(Goto(p, t, pc), t)
    ensures Inv(Goto(p, t, pc))
  {
    hide Inv, Bystander, PairOk, ThreadOk;
    var p' := Goto(p, t, pc);
    BystanderPairs(p', t);
    MoveKeeps(p, p', t);
  }

  lemma HazardKeeps(p: Pool, t: Tid, node: Ptr, pc: Pc)
    requires Inv(p) && t in p.threads && Bystander(pc) && Holding(pc) == Holding(p.threads[t].pc)
    requires ThreadOk(Goto(SetHazard(p, t, node), t, pc), t)
    ensures Inv(Goto(SetHazard(p, t, node), t, pc))
  {
    hide Inv, Bystander, PairOk, ThreadOk;
    var p' := Goto(SetHazard(p, t, node), t, pc);
    BystanderPairs(p', t);
    MoveKeeps(p, p', t);
  }

  /** The loads of `Allocate`, and a compare-and-swap that fails. */
  lemma LoadMoves(p: Pool, t: Tid, brand: Node)
    requires Inv(p) && t in p.threads
    requires var pc := p.threads[t].pc;
      || pc.LoadHead?
      || (pc.ReloadHead? && p.head[p.threads[t].bucket].Some?)
      || (pc.CasHead? && p.head[p.threads[t].bucket] != Some(pc.task))
    ensures Inv(StepAllocate(p, t, brand))
  {
    hide BucketOk, NodesOk, PairOk, RecordsOk;
    assert ThreadOk(p, t);
    hide Inv;
    GotoKeeps(p, t, StepAllocate(p, t, brand).threads[t].pc);
  }

  lemma LoadNextMoves(p: Pool, t: Tid, brand: Node)
    requires Inv(p) && t in p.threads && p.threads[t].pc.LoadNext?
    ensures Inv(StepAllocate(p, t, brand))
  {
    hide BucketOk, NodesOk, RecordsOk;
    var p' := StepAllocate(p, t, brand);
    assert ThreadOk(p, t);
    forall r | r in p'.threads ensures PairOk(p', t, r) && PairOk(p', r, t) {
      assert PairOk(p, t, r) && PairOk(p, r, t);
    }
    hide Inv;
    MoveKeeps(p, p', t);
  }

  /** The hazard stores of `Allocate`. */
  lemma StoreMoves(p: Pool, t: Tid, brand: Node)
    requires Inv(p) && t in p.threads
    requires p.threads[t].pc.ClearHazard? || p.threads[t].pc.Protect? || p.threads[t].pc.Unprotect?
    ensures Inv(StepAllocate(p, t, brand))
  {
    hide BucketOk, NodesOk, PairOk, RecordsOk;
    assert ThreadOk(p, t);
    hide Inv;
    var node := if p.threads[t].pc.Protect? then Some(p.threads[t].pc.task) else None;
    HazardKeeps(p, t, node, StepAllocate(p, t, brand).threads[t].pc);
  }

  /** Seeing the task at the head after publishing it: no reclaimer can be looking at it. */
  lemma ValidateMoves(p: Pool, t: Tid, brand: Node)
    requires Inv(p) && t in p.threads && p.threads[t].pc.Validate?
    ensures Inv(StepAllocate(p, t, brand))
  {
    hide Steady;
    var p' := StepAllocate(p, t, brand);
    assert ThreadOk(p, t);
    var b, task := p.threads[t].bucket, p.threads[t].pc.task;
    assert BucketOk(p, b);
    assert p.head[b] == Some(task) ==>
        && task in p.place && task in p.next && p.place[task] == InFree
        && p.bucketOf[task] == b by {
      assert p.head[b] == Some(task) ==> p.free[b][0] == task;
    }
    forall r | r in p'.threads ensures PairOk(p', t, r) && PairOk(p', r, t) {
      hide BucketOk, NodesOk;
      assert PairOk(p, r, t);
      Scanned(p, r);
    }
    hide BucketOk, NodesOk, PcOk;
    MoveKeeps(p, p', t);
  }

  /** A task being scanned or pushed is in its reclaimer's batch, or held by the thread freeing it. */
  lemma Scanned(p: Pool, r: Tid)
    requires Inv(p) && r in p.threads
    ensures match p.threads[r].pc
            case ScanBucket(task, b, _, _, _) => task in p.place && p.place[task] == InBatch(r) && p.bucketOf[task] == b
            case ScanNode(task, b, _, _, _) => task in p.place && p.place[task] == InBatch(r) && p.bucketOf[task] == b
            case Push(task, b, _, _, cont) =>
              task in p.place && p.place[task] == (if cont.FreeCall? then Held(r) else InBatch(r))
            case _ => true
  {
    hide BucketOk, PairOk, RecordsOk, NodeOk;
    assert ThreadOk(p, r);
    match p.threads[r].pc
    case ScanBucket(task, b, _, _, _) => assert task in p.batch[r];
    case ScanNode(task, b, _, _, _) => assert task in p.batch[r];
    case Push(task, b, _, _, BatchItem(_, _)) => assert task in p.batch[r];
    case _ =>
  }

  // ---------------------------------------------------------------------------------------------
  // Steps that change a task
  // ---------------------------------------------------------------------------------------------

  /** Only `task` changes its place or its link, and no thread but `t` moves. */
  ghost predicate Touches(p: Pool, p': Pool, t: Tid, task: Node)
    requires t in p.threads
  {
    && p'.records == p.records && p'.sequence == p.sequence
    && p'.threads.Keys == p.threads.Keys
    && (forall x :: x in p.threads && x != t ==> p'.threads[x] == p.threads[x])
    && p'.threads[t] == p.threads[t].(pc := p'.threads[t].pc)
    && p'.batch.Keys == p.batch.Keys && (forall x :: x in p.batch && x != t ==> p'.batch[x] == p.batch[x])
    && p'.place.Keys == p.place.Keys + {task} && p'.next.Keys == p.next.Keys + {task}
    && p'.bucketOf.Keys == p.bucketOf.Keys + {task}
    && (forall n :: n in p.place && n in p.next && n in p.bucketOf ==> p'.bucketOf[n] == p.bucketOf[n])
    && (forall n :: n in p.place && n in p.next && n != task ==> p'.place[n] == p.place[n] && p'.next[n] == p.next[n])
  }

  /** A task the step may change: new, owned, free, retired, or held by the thread itself. */
  ghost predicate Available(p: Pool, t: Tid, task: Node) {
    task in p.place ==> p.place[task] in {Owned, InFree, InRetired, Held(t), InBatch(t)}
  }

  lemma TouchesSteady(p: Pool, p': Pool, t: Tid, task: Node)
    requires t in p.threads && Touches(p, p', t, task) && Available(p, t, task)
    requires p.place.Keys == p.next.Keys == p.bucketOf.Keys
    requires task in p.place && p'.place[task] == InFree ==>
      forall x :: x in p.threads && x != t ==> Validated(p.threads[x].pc) != Some(task)
    ensures Steady(p, p', t) && p'.threads.Keys == p.threads.Keys + {t}
  {
    forall n | n in p.place && n in p.next && n in p.bucketOf ensures NodeSteady(p, p', t, n) {
    }
  }

  lemma TouchesBucket(p: Pool, p': Pool, t: Tid, task: Node, b: Bucket)
    requires t in p.threads && Touches(p, p', t, task) && Shaped(p) && Shaped(p') && BucketOk(p, b)
    requires p.place.Keys == p.next.Keys == p.bucketOf.Keys
    requires p'.head[b] == p.head[b] && p'.free[b] == p.free[b]
    requires p'.retired[b] == p.retired[b] && p'.garbage[b] == p.garbage[b]
    requires task in p.place ==> (p.place[task] != InFree && p.place[task] != InRetired) || p.bucketOf[task] != b
    ensures BucketOk(p', b)
  {
    ListKept(p, p', b, p.head[b], p.free[b], InFree);
    ListKept(p, p', b, p.retired[b], p.garbage[b], InRetired);
  }

  lemma TouchesRecords(p: Pool, p': Pool, t: Tid, task: Node)
    requires t in p.threads && Touches(p, p', t, task) && RecordsOk(p)
    ensures RecordsOk(p')
  {
  }

  /** Steps on one task that leave every list as it is. */
  lemma TouchKeeps(p: Pool, p': Pool, t: Tid, task: Node)
    requires Inv(p) && t in p.threads && Touches(p, p', t, task) && Shaped(p')
    requires task in p.place ==> p.place[task] == Owned || p.place[task] == Held(t) || p.place[task] == InBatch(t)
    requires task in p.place ==> p'.place[task] != InFree
    requires p'.head == p.head && p'.free == p.free && p'.retired == p.retired && p'.garbage == p.garbage
    requires NodesOk(p') && ThreadOk(p', t)
    requires forall r :: r in p'.threads ==> PairOk(p', t, r) && PairOk(p', r, t)
    ensures Inv(p')
  {
    hide Touches, BucketOk, RecordsOk, RecordOk, ThreadOk, PairOk, Steady, NodeOk;
    TouchesSteady(p, p', t, task);
    TouchesRecords(p, p', t, task);
    forall b: Bucket | 0 <= b < BUCKETS ensures BucketOk(p', b) {
      TouchesBucket(p, p', t, task, b);
    }
    Assemble(p, p', t);
  }

  /** `Allocate` with nothing to reuse: a new task, which the caller then owns. */
  lemma BrandNewKeeps(p: Pool, t: Tid, brand: Node)
    requires Inv(p) && t in p.threads && p.threads[t].pc.ReloadHead? && p.head[p.threads[t].bucket].None?
    ensures Inv(StepAllocate(p, t, brand))
  {
    hide BucketOk, PairOk, RecordsOk, Steady;
    var p' := StepAllocate(p, t, brand);
    if brand !in p.next {
      assert ThreadOk(p, t);
      forall n | n in p'.place ensures NodeOk(p', n) {
        if n != brand { assert NodeOk(p, n); }
      }
      BystanderPairs(p', t);
      TouchKeeps(p, p', t, brand);
    }
  }

  /** The last store of `Allocate`, after which the caller owns the task. */
  lemma UnlinkKeeps(p: Pool, t: Tid, brand: Node)
    requires Inv(p) && t in p.threads && p.threads[t].pc.Unlink?
    ensures Inv(StepAllocate(p, t, brand))
  {
    hide BucketOk, PairOk, RecordsOk, Steady;
    var p' := StepAllocate(p, t, brand);
    var task := p.threads[t].pc.task;
    assert ThreadOk(p, t);
    forall n | n in p'.place ensures NodeOk(p', n) {
      assert NodeOk(p, n);
    }
    BystanderPairs(p', t);
    TouchKeeps(p, p', t, task);
  }

  /** The start of `Free`: the caller gives up a task it owns. */
  lemma StartFreeKeeps(p: Pool, t: Tid, task: Node)
    requires Inv(p) && t in p.threads && p.threads[t].pc == Idle
    requires task in p.place && p.place[task] == Owned && task in p.bucketOf
    ensures Inv(Step(p, StartFree(t, task)))
  {
    hide BucketOk, RecordsOk, Steady;
    var p' := Step(p, StartFree(t, task));
    assert ThreadOk(p, t);
    forall n | n in p'.place ensures NodeOk(p', n) {
      assert NodeOk(p, n);
    }
    forall r | r in p'.threads ensures PairOk(p', t, r) && PairOk(p', r, t) {
    }
    TouchKeeps(p, p', t, task);
  }

  lemma BatchStored(p: Pool, p': Pool, t: Tid, b: Bucket, task: Node, rest: Ptr)
    requires t in p.batch && BatchOk(p, t, b, task, rest)
    requires p'.batch == p.batch && p'.place == p.place && p'.bucketOf == p.bucketOf
    requires forall n :: n in p.next && n != task ==> n in p'.next && p'.next[n] == p.next[n]
    ensures BatchOk(p', t, b, task, rest)
  {
    var s := p.batch[t];
    forall i | 0 <= i < |s| - 1 ensures s[1..][i] in p'.next && p'.next[s[1..][i]] == p.next[s[1..][i]] {
      assert s[1..][i] == s[i + 1] != s[0];
    }
  }

  lemma StoredThread(p: Pool, t: Tid)
    requires Inv(p) && t in p.threads && p.threads[t].pc.Push? && p.threads[t].pc.stage.PushStore?
    ensures ThreadOk(StepPush(p, t, false), t)
  {
    hide BucketOk, RecordsOk, NodeOk, PairOk;
    assert ThreadOk(p, t);
    var p' := StepPush(p, t, false);
    var pc := p.threads[t].pc;
    if pc.cont.BatchItem? {
      BatchStored(p, p', t, pc.bucket, pc.task, pc.cont.rest);
    }
  }

  /** The store to the link of a task being pushed: it is still private to the pushing thread. */
  lemma PushStoreKeeps(p: Pool, t: Tid)
    requires Inv(p) && t in p.threads && p.threads[t].pc.Push? && p.threads[t].pc.stage.PushStore?
    ensures Inv(StepPush(p, t, false)) && StepPush(p, t, true) == StepPush(p, t, false)
  {
    hide BucketOk, RecordsOk, Steady;
    var p' := StepPush(p, t, false);
    var task := p.threads[t].pc.task;
    StoredThread(p, t);
    Scanned(p, t);
    assert task in p.next && task in p.bucketOf;
    forall n | n in p'.place ensures NodeOk(p', n) {
      hide PairOk, ThreadOk;
      assert NodeOk(p, n);
    }
    forall r | r in p'.threads ensures PairOk(p', t, r) && PairOk(p', r, t) {
      hide NodesOk, ThreadOk;
      assert PairOk(p, t, r) && PairOk(p, r, t);
    }
    hide PairOk, ThreadOk;
    TouchKeeps(p, p', t, task);
  }

  // ---------------------------------------------------------------------------------------------
  // Steps that change a list
  // ---------------------------------------------------------------------------------------------

  /** The true successor: what the compare-and-swap installs is what follows the head in the free list. */
  lemma PopInstallsSuccessor(p: Pool, t: Tid)
    requires Inv(p) && t in p.threads && p.threads[t].pc.CasHead?
    requires p.head[p.threads[t].bucket] == Some(p.threads[t].pc.task)
    ensures var b, task := p.threads[t].bucket, p.threads[t].pc.task;
      && p.free[b] != [] && p.free[b][0] == task && p.threads[t].pc.next == First(p.free[b][1..])
      && task in p.place && p.place[task] == InFree && p.bucketOf[task] == b
  {
    hide RecordsOk, PairOk, NodeOk;
    assert ThreadOk(p, t);
    var b, task := p.threads[t].bucket, p.threads[t].pc.task;
    assert BucketOk(p, b);
    assert task == p.free[b][0];
    assert task in p.free[b];
    assert p.next[task] == First(p.free[b][1..]);
  }

  lemma PopList(p: Pool, p': Pool, b: Bucket, s: seq<Node>)
    requires s != [] && ListOk(p, b, Some(s[0]), s, InFree)
    requires forall n :: n in s && n != s[0] ==>
      && n in p'.next && n in p.next && p'.next[n] == p.next[n]
      && n in p'.place && p'.place[n] == p.place[n] && n in p'.bucketOf && p'.bucketOf[n] == p.bucketOf[n]
    ensures ListOk(p', b, First(s[1..]), s[1..], InFree)
  {
    var r := s[1..];
    forall i | 0 <= i < |r| ensures r[i] in p'.next && p'.next[r[i]] == Successor(r, i) {
      assert r[i] == s[i + 1] && s[i + 1] != s[0] && s[i + 1] in s;
    }
    forall n | n in r ensures n in s && n != s[0] {
      var i :| 0 <= i < |r| && r[i] == n;
      assert s[i + 1] == n;
    }
  }

  lemma PopBucket(p: Pool, p': Pool, t: Tid, task: Node, b: Bucket)
    requires t in p.threads && Touches(p, p', t, task) && Shaped(p) && Shaped(p') && BucketOk(p, b)
    requires p.place.Keys == p.next.Keys == p.bucketOf.Keys
    requires p.free[b] != [] && p.free[b][0] == task
    requires p'.free[b] == p.free[b][1..] && p'.head[b] == First(p'.free[b])
    requires p'.retired[b] == p.retired[b] && p'.garbage[b] == p.garbage[b]
    ensures BucketOk(p', b)
  {
    assert task in p.free[b];
    PopList(p, p', b, p.free[b]);
    ListKept(p, p', b, p.retired[b], p.garbage[b], InRetired);
  }

  lemma PopBuckets(p: Pool, t: Tid, brand: Node, b': Bucket)
    requires Inv(p) && t in p.threads && p.threads[t].pc.CasHead?
    requires p.head[p.threads[t].bucket] == Some(p.threads[t].pc.task)
    ensures BucketOk(StepAllocate(p, t, brand), b')
  {
    hide BucketOk, RecordsOk, PairOk, NodeOk, RecordOk, Touches;
    PopInstallsSuccessor(p, t);
    var p' := StepAllocate(p, t, brand);
    var b, task := p.threads[t].bucket, p.threads[t].pc.task;
    PopTouches(p, t, brand);
    if b' == b {
      PopBucket(p, p', t, task, b);
    } else {
      TouchesBucket(p, p', t, task, b');
    }
  }

  lemma PopTouches(p: Pool, t: Tid, brand: Node)
    requires Inv(p) && t in p.threads && p.threads[t].pc.CasHead?
    requires p.head[p.threads[t].bucket] == Some(p.threads[t].pc.task)
    ensures Touches(p, StepAllocate(p, t, brand), t, p.threads[t].pc.task)
  {
    hide BucketOk, RecordsOk, PairOk, NodeOk, RecordOk;
    PopInstallsSuccessor(p, t);
    assert ThreadOk(p, t);
  }

  lemma PopNodes(p: Pool, t: Tid, brand: Node)
    requires Inv(p) && t in p.threads && p.threads[t].pc.CasHead?
    requires p.head[p.threads[t].bucket] == Some(p.threads[t].pc.task)
    ensures NodesOk(StepAllocate(p, t, brand))
  {
    hide BucketOk, RecordsOk, PairOk, ThreadOk;
    PopInstallsSuccessor(p, t);
    var p' := StepAllocate(p, t, brand);
    forall n | n in p'.place ensures NodeOk(p', n) {
      assert NodeOk(p, n);
    }
  }

  lemma PopKeeps(p: Pool, t: Tid, brand: Node)
    requires Inv(p) && t in p.threads && p.threads[t].pc.CasHead?
    requires p.head[p.threads[t].bucket] == Some(p.threads[t].pc.task)
    ensures Inv(StepAllocate(p, t, brand))
  {
    hide BucketOk, NodeOk, PairOk, RecordsOk, Steady;
    PopInstallsSuccessor(p, t);
    var p' := StepAllocate(p, t, brand);
    assert ThreadOk(p, t);
    PopTouches(p, t, brand);
    TouchesSteady(p, p', t, p.threads[t].pc.task);
    TouchesRecords(p, p', t, p.threads[t].pc.task);
    BystanderPairs(p', t);
    PopNodes(p, t, brand);
    forall b: Bucket | 0 <= b < BUCKETS ensures BucketOk(p', b) {
      PopBuckets(p, t, brand, b);
    }
    assert ThreadOk(p', t);
    hide Inv, ThreadOk, Touches, StepAllocate;
    Assemble(p, p', t);
  }

  lemma PushList(p: Pool, p': Pool, b: Bucket, task: Node, head: Ptr, s: seq<Node>, place: Place)
    requires ListOk(p, b, head, s, place) && task !in s
    requires forall n :: n in s ==>
      && n in p'.next && n in p.next && p'.next[n] == p.next[n]
      && n in p'.place && p'.place[n] == p.place[n] && n in p'.bucketOf && p'.bucketOf[n] == p.bucketOf[n]
    requires task in p'.next && p'.next[task] == head
    requires task in p'.place && p'.place[task] == place && task in p'.bucketOf && p'.bucketOf[task] == b
    ensures ListOk(p', b, Some(task), [task] + s, place)
  {
    var r := [task] + s;
    forall i | 0 <= i < |r| ensures r[i] in p'.next && p'.next[r[i]] == Successor(r, i) {
      if i > 0 {
        assert r[i] == s[i - 1] && Successor(r, i) == Successor(s, i - 1);
      }
    }
  }

  /** A compare-and-swap of a push that succeeds. */
  ghost predicate Linking(p: Pool, t: Tid)
    requires Shaped(p)
  {
    && t in p.threads && p.threads[t].pc.Push? && p.threads[t].pc.stage.PushCas?
    && ListHead(p, p.threads[t].pc.bucket, p.threads[t].pc.target) == p.threads[t].pc.stage.seen
  }

  lemma LinkTouches(p: Pool, t: Tid)
    requires Inv(p) && Linking(p, t)
    ensures Touches(p, StepPush(p, t, false), t, p.threads[t].pc.task)
    ensures var task := p.threads[t].pc.task;
      && task in p.place && task in p.next && p.next[task] == p.threads[t].pc.stage.seen
      && task in p.bucketOf && p.bucketOf[task] == p.threads[t].pc.bucket
      && p.place[task] in {Held(t), InBatch(t)}
  {
    hide BucketOk, RecordsOk, PairOk, NodeOk, RecordOk;
    assert ThreadOk(p, t);
    Scanned(p, t);
  }

  lemma LinkBucket(p: Pool, p': Pool, t: Tid, task: Node, b: Bucket, target: Target)
    requires t in p.threads && Touches(p, p', t, task) && Shaped(p) && Shaped(p') && BucketOk(p, b)
    requires p.place.Keys == p.next.Keys == p.bucketOf.Keys
    requires task in p.place && p.place[task] in {Held(t), InBatch(t)} && p.bucketOf[task] == b
    requires p'.next[task] == ListHead(p, b, target)
    requires target == ToFree ==>
      && p'.place[task] == InFree && p'.head[b] == Some(task) && p'.free[b] == [task] + p.free[b]
      && p'.retired[b] == p.retired[b] && p'.garbage[b] == p.garbage[b]
    requires target == ToRetired ==>
      && p'.place[task] == InRetired && p'.retired[b] == Some(task) && p'.garbage[b] == [task] + p.garbage[b]
      && p'.head[b] == p.head[b] && p'.free[b] == p.free[b]
    ensures BucketOk(p', b)
  {
    if target == ToFree {
      PushList(p, p', b, task, p.head[b], p.free[b], InFree);
      ListKept(p, p', b, p.retired[b], p.garbage[b], InRetired);
    } else {
      PushList(p, p', b, task, p.retired[b], p.garbage[b], InRetired);
      ListKept(p, p', b, p.head[b], p.free[b], InFree);
    }
  }

  lemma LinkBuckets(p: Pool, t: Tid, b': Bucket)
    requires Inv(p) && Linking(p, t)
    ensures BucketOk(StepPush(p, t, false), b')
  {
    hide BucketOk, RecordsOk, PairOk, NodeOk, ThreadOk, Touches;
    var p' := StepPush(p, t, false);
    LinkTouches(p, t);
    if b' == p.threads[t].pc.bucket {
      LinkBucket(p, p', t, p.threads[t].pc.task, b', p.threads[t].pc.target);
    } else {
      TouchesBucket(p, p', t, p.threads[t].pc.task, b');
    }
  }

  lemma LinkNode(p: Pool, t: Tid, n: Node)
    requires Inv(p) && Linking(p, t) && n in p.place && n in p.bucketOf
    requires n in StepPush(p, t, false).place && n in StepPush(p, t, false).bucketOf
    ensures NodeOk(StepPush(p, t, false), n)
  {
    hide BucketOk, RecordsOk, PairOk, RecordOk, Chain, Placed, Touches;
    assert NodeOk(p, n) && ThreadOk(p, t);
    LinkTouches(p, t);
  }

  lemma LinkNodes(p: Pool, t: Tid)
    requires Inv(p) && Linking(p, t)
    ensures NodesOk(StepPush(p, t, false))
  {
    hide BucketOk, RecordsOk, PairOk, ThreadOk, NodeOk;
    var p' := StepPush(p, t, false);
    LinkTouches(p, t);
    forall n | n in p'.place ensures NodeOk(p', n) {
      LinkNode(p, t, n);
    }
  }

  lemma RestOfBatch(p: Pool, p': Pool, t: Tid, b: Bucket, task: Node, rest: Ptr)
    requires t in p.threads && t in p.batch && Touches(p, p', t, task) && BatchOk(p, t, b, task, rest)
    requires p.place.Keys == p.next.Keys == p.bucketOf.Keys && p'.batch[t] == p.batch[t][1..]
    ensures rest == First(p'.batch[t]) && Chain(p'.next, p'.batch[t])
    ensures Placed(p'.place, p'.bucketOf, p'.batch[t], b, InBatch(t))
  {
    var s := p.batch[t];
    forall i | 0 <= i < |s| - 1 ensures s[1..][i] == s[i + 1] && s[i + 1] != task && s[i + 1] in s {
    }
  }

  lemma LinkThread(p: Pool, t: Tid)
    requires Inv(p) && Linking(p, t)
    ensures ThreadOk(StepPush(p, t, false), t) && Bystander(StepPush(p, t, false).threads[t].pc)
  {
    hide BucketOk, RecordsOk, PairOk, NodeOk, Touches;
    var p' := StepPush(p, t, false);
    var pc := p.threads[t].pc;
    LinkTouches(p, t);
    assert ThreadOk(p, t);
    if pc.cont.BatchItem? {
      RestOfBatch(p, p', t, pc.bucket, pc.task, pc.cont.rest);
    }
  }

  /** What goes back to the free list is not validated by anyone. */
  lemma ReusedUnseen(p: Pool, t: Tid, x: Tid)
    requires Inv(p) && Linking(p, t) && p.threads[t].pc.target == ToFree && x in p.threads
    ensures Validated(p.threads[x].pc) != Some(p.threads[t].pc.task)
  {
    hide BucketOk, NodesOk, RecordsOk;
    assert ThreadOk(p, x) && PairOk(p, x, t);
  }

  lemma LinkKeeps(p: Pool, t: Tid)
    requires Inv(p) && Linking(p, t)
    ensures Inv(StepPush(p, t, false))
  {
    hide BucketOk, NodeOk, PairOk, RecordsOk, Steady, ThreadOk, Touches;
    var p' := StepPush(p, t, false);
    var task := p.threads[t].pc.task;
    LinkTouches(p, t);
    assert p'.place[task] == InFree ==> p.threads[t].pc.target == ToFree;
    if p'.place[task] == InFree {
      forall x | x in p.threads ensures Validated(p.threads[x].pc) != Some(task) {
        ReusedUnseen(p, t, x);
      }
    }
    TouchesSteady(p, p', t, task);
    TouchesRecords(p, p', t, task);
    LinkThread(p, t);
    BystanderPairs(p', t);
    LinkNodes(p, t);
    forall b: Bucket | 0 <= b < BUCKETS ensures BucketOk(p', b) {
      LinkBuckets(p, t, b);
    }
    assert Shaped(p');
    hide Inv, StepPush;
    Assemble(p, p', t);
  }

  /** The loads of a push, and a compare-and-swap that fails. */
  lemma PushMoves(p: Pool, t: Tid, spurious: bool)
    requires Inv(p) && t in p.threads && p.threads[t].pc.Push? && !p.threads[t].pc.stage.PushStore?
    requires Linking(p, t) ==> spurious
    ensures Inv(StepPush(p, t, spurious))
  {
    hide BucketOk, NodesOk, RecordsOk;
    var p' := StepPush(p, t, spurious);
    assert ThreadOk(p, t);
    forall r | r in p'.threads ensures PairOk(p', t, r) && PairOk(p', r, t) {
      assert PairOk(p, t, r) && PairOk(p, r, t);
    }
    hide PairOk, Inv;
    MoveKeeps(p, p', t);
  }

  // ---------------------------------------------------------------------------------------------
  // Reclaiming
  // ---------------------------------------------------------------------------------------------

  lemma CountMoves(p: Pool, t: Tid)
    requires Inv(p) && t in p.threads && p.threads[t].pc.Count?
    ensures Inv(StepReclaim(p, t))
  {
    hide BucketOk, NodesOk, RecordsOk, PairOk;
    var p' := StepReclaim(p, t);
    assert ThreadOk(p, t);
    BystanderPairs(p', t);
    hide Inv;
    MoveKeeps(p, p', t);
  }

  lemma WalkEnds(p: Pool, t: Tid)
    requires Inv(p) && t in p.threads && p.threads[t].pc.Walk? && p.threads[t].pc.rest.None?
    ensures Inv(StepReclaim(p, t))
  {
    hide BucketOk, NodesOk, RecordsOk, PairOk;
    assert ThreadOk(p, t);
    hide Inv;
    GotoKeeps(p, t, if p.threads[t].pc.origin == FromAllocate then ReloadHead else Idle);
  }

  /** A move of a reclaimer between two of its points. */
  lemma ScanKeeps(p: Pool, t: Tid, pc: Pc)
    requires Inv(p) && t in p.threads && Validated(pc).None? && Holding(pc) == Holding(p.threads[t].pc)
    requires ThreadOk(Goto(p, t, pc), t)
    requires forall r :: r in p.threads && r != t ==> Guards(p.threads[r], pc)
    ensures Inv(Goto(p, t, pc))
  {
    hide Inv, ThreadOk;
    var p' := Goto(p, t, pc);
    forall r | r in p'.threads ensures PairOk(p', t, r) && PairOk(p', r, t) {
    }
    hide PairOk, Guards;
    MoveKeeps(p, p', t);
  }

  lemma WalkBatch(p: Pool, t: Tid, b: Bucket)
    requires t in p.batch && p.batch[t] != [] && Chain(p.next, p.batch[t])
    requires Placed(p.place, p.bucketOf, p.batch[t], b, InBatch(t))
    ensures p.batch[t][0] in p.next && BatchOk(p, t, b, p.batch[t][0], p.next[p.batch[t][0]])
  {
    var s := p.batch[t];
    forall i | 0 <= i < |s| - 1 ensures s[1..][i] in p.next && p.next[s[1..][i]] == Successor(s[1..], i) {
      assert s[1..][i] == s[i + 1];
    }
  }

  lemma WalkMoves(p: Pool, t: Tid)
    requires Inv(p) && t in p.threads && p.threads[t].pc.Walk? && p.threads[t].pc.rest.Some?
    ensures Inv(StepReclaim(p, t))
  {
    hide BucketOk, NodesOk, RecordsOk, PairOk, Chain, Placed;
    assert ThreadOk(p, t);
    var pc := p.threads[t].pc;
    WalkBatch(p, t, pc.bucket);
    var pc' := ScanBucket(pc.rest.value, pc.bucket, pc.origin, p.next[pc.rest.value], |p.records|);
    assert ThreadOk(Goto(p, t, pc'), t);
    forall r | r in p.threads && r != t ensures Guards(p.threads[r], pc') {
      assert ThreadOk(p, r);
    }
    hide Inv, ThreadOk, Guards;
    ScanKeeps(p, t, pc');
  }

  /** Passing over a record: no thread that validated the task owns it. */
  lemma PassedOver(p: Pool, t: Tid, r: Tid)
    requires Inv(p) && t in p.threads && (p.threads[t].pc.ScanBucket? || p.threads[t].pc.ScanNode?) && r in p.threads
    requires 0 < p.threads[t].pc.left <= |p.records|
    requires var record := p.records[p.threads[t].pc.left - 1];
      || record.bucket != Some(p.threads[t].pc.bucket)
      || (p.threads[t].pc.ScanNode? && record.node != Some(p.threads[t].pc.task))
    requires Validated(p.threads[r].pc) == Some(p.threads[t].pc.task) && p.threads[r].record.Some?
    ensures p.threads[r].record.value < p.threads[t].pc.left - 1
  {
    hide BucketOk, NodesOk, RecordsOk;
    Scanned(p, t);
    assert ThreadOk(p, r) && PairOk(p, r, t);
  }

  lemma ScanBucketMoves(p: Pool, t: Tid)
    requires Inv(p) && t in p.threads && p.threads[t].pc.ScanBucket?
    ensures Inv(StepReclaim(p, t))
  {
    hide BucketOk, NodeOk, RecordsOk, Chain, Placed, Guards;
    var pc, pc' := p.threads[t].pc, StepReclaim(p, t).threads[t].pc;
    assert ThreadOk(p, t);
    Scanned(p, t);
    assert ThreadOk(Goto(p, t, pc'), t);
    forall r | r in p.threads && r != t ensures Guards(p.threads[r], pc') {
      hide ThreadOk;
      ScanBucketGuards(p, t, r);
    }
    hide Inv, ThreadOk;
    ScanKeeps(p, t, pc');
  }

  lemma ScanBucketGuards(p: Pool, t: Tid, r: Tid)
    requires Inv(p) && t in p.threads && p.threads[t].pc.ScanBucket? && r in p.threads
    ensures Guards(p.threads[r], StepReclaim(p, t).threads[t].pc)
  {
    hide BucketOk, NodesOk, RecordsOk;
    var pc := p.threads[t].pc;
    assert ThreadOk(p, t) && PairOk(p, r, t);
    if Validated(p.threads[r].pc) == Some(pc.task) && p.threads[r].record.Some? && 0 < pc.left
        && p.records[pc.left - 1].bucket != Some(pc.bucket) {
      PassedOver(p, t, r);
    }
  }

  lemma ScanNodeMoves(p: Pool, t: Tid)
    requires Inv(p) && t in p.threads && p.threads[t].pc.ScanNode?
    ensures Inv(StepReclaim(p, t))
  {
    hide BucketOk, NodeOk, RecordsOk, Chain, Placed, Guards;
    var pc, pc' := p.threads[t].pc, StepReclaim(p, t).threads[t].pc;
    assert ThreadOk(p, t);
    Scanned(p, t);
    assert ThreadOk(Goto(p, t, pc'), t);
    forall r | r in p.threads && r != t ensures Guards(p.threads[r], pc') {
      hide ThreadOk;
      ScanNodeGuards(p, t, r);
    }
    hide Inv, ThreadOk;
    ScanKeeps(p, t, pc');
  }

  lemma ScanNodeGuards(p: Pool, t: Tid, r: Tid)
    requires Inv(p) && t in p.threads && p.threads[t].pc.ScanNode? && r in p.threads
    ensures Guards(p.threads[r], StepReclaim(p, t).threads[t].pc)
  {
    hide BucketOk, NodesOk, RecordsOk;
    var pc := p.threads[t].pc;
    assert ThreadOk(p, t) && PairOk(p, r, t);
    if Validated(p.threads[r].pc) == Some(pc.task) && p.threads[r].record.Some?
        && p.records[pc.left - 1].node != Some(pc.task) {
      PassedOver(p, t, r);
    }
  }

  lemma TakeSteady(p: Pool, t: Tid)
    requires Inv(p) && t in p.threads && p.threads[t].pc.TakeRetired?
    ensures Steady(p, StepReclaim(p, t), t)
  {
    hide RecordsOk, PairOk, ThreadOk;
    var p' := StepReclaim(p, t);
    var b := p.threads[t].pc.bucket;
    assert BucketOk(p, b);
    forall n | n in p.place && n in p.next && n in p.bucketOf ensures NodeSteady(p, p', t, n) {
    }
  }

  lemma TakeBuckets(p: Pool, t: Tid, b: Bucket)
    requires Inv(p) && t in p.threads && p.threads[t].pc.TakeRetired?
    ensures BucketOk(StepReclaim(p, t), b)
  {
    hide RecordsOk, PairOk, ThreadOk, NodeOk, Chain, NoDup;
    var p' := StepReclaim(p, t);
    assert BucketOk(p, b) && BucketOk(p, p.threads[t].pc.bucket);
    ListKept(p, p', b, p.head[b], p.free[b], InFree);
    if b != p.threads[t].pc.bucket {
      ListKept(p, p', b, p.retired[b], p.garbage[b], InRetired);
    } else {
      assert ListOk(p', b, p'.retired[b], [], InRetired) by { Empty(p', b, InRetired); }
    }
  }

  lemma Empty(p: Pool, b: Bucket, place: Place)
    ensures ListOk(p, b, None, [], place)
  {
  }

  lemma TakeNodes(p: Pool, t: Tid)
    requires Inv(p) && t in p.threads && p.threads[t].pc.TakeRetired?
    ensures NodesOk(StepReclaim(p, t))
  {
    hide RecordsOk, PairOk, BucketOk, RecordOk;
    var p' := StepReclaim(p, t);
    assert ThreadOk(p, t);
    forall n | n in p'.place ensures NodeOk(p', n) {
      assert NodeOk(p, n);
    }
  }

  lemma TakenBatch(p: Pool, p': Pool, t: Tid, b: Bucket)
    requires |p.retired| == |p.garbage| == BUCKETS && ListOk(p, b, p.retired[b], p.garbage[b], InRetired)
    requires p'.next == p.next && p'.bucketOf == p.bucketOf
    requires p'.place == map n | n in p.place :: if n in p.garbage[b] then InBatch(t) else p.place[n]
    ensures p.retired[b] == First(p.garbage[b]) && Chain(p'.next, p.garbage[b])
    ensures Placed(p'.place, p'.bucketOf, p.garbage[b], b, InBatch(t))
  {
  }

  lemma TakeThread(p: Pool, t: Tid)
    requires Inv(p) && t in p.threads && p.threads[t].pc.TakeRetired?
    ensures ThreadOk(StepReclaim(p, t), t)
  {
    hide PairOk, NodesOk, RecordsOk, Chain, Placed;
    var p' := StepReclaim(p, t);
    assert ThreadOk(p, t) && BucketOk(p, p.threads[t].pc.bucket);
    TakenBatch(p, p', t, p.threads[t].pc.bucket);
  }

  lemma TakeRecords(p: Pool, t: Tid)
    requires Inv(p) && t in p.threads && p.threads[t].pc.TakeRetired?
    ensures RecordsOk(StepReclaim(p, t))
  {
    hide PairOk, NodesOk, BucketOk, ThreadOk;
  }

  /** The exchange that empties the retired list. */
  lemma TakeKeeps(p: Pool, t: Tid)
    requires Inv(p) && t in p.threads && p.threads[t].pc.TakeRetired?
    ensures Inv(StepReclaim(p, t))
  {
    hide BucketOk, NodesOk, RecordsOk, PairOk, ThreadOk, Steady;
    var p' := StepReclaim(p, t);
    TakeSteady(p, t);
    TakeNodes(p, t);
    TakeThread(p, t);
    TakeRecords(p, t);
    BystanderPairs(p', t);
    forall b: Bucket | 0 <= b < BUCKETS ensures BucketOk(p', b) {
      TakeBuckets(p, t, b);
    }
    assert p'.threads.Keys == p.threads.Keys + {t};
    hide Inv, StepReclaim;
    Assemble(p, p', t);
  }

  // ---------------------------------------------------------------------------------------------
  // Hazard records
  // ---------------------------------------------------------------------------------------------

  /** A step that changes only hazard records and which of them a thread owns. */
  ghost predicate Rearranged(p: Pool, p': Pool, t: Tid) {
    && p' == p.(threads := p'.threads, records := p'.records, batch := p'.batch)
    && p'.threads.Keys == p.threads.Keys + {t} && p'.batch.Keys == p.batch.Keys + {t}
    && (forall x :: x in p.threads && x != t ==> p'.threads[x] == p.threads[x])
    && (forall x :: x in p.batch ==> p'.batch[x] == p.batch[x])
    && (t in p.threads ==> p'.threads[t].pc == p.threads[t].pc)
    && |p.records| <= |p'.records|
    && (forall x :: x in p.threads && x != t && p.threads[x].record.Some? && p.threads[x].record.value < |p.records| ==>
          p'.records[p.threads[x].record.value] == p.records[p.threads[x].record.value])
  }

  lemma RearrangedBucket(p: Pool, p': Pool, t: Tid, b: Bucket)
    requires Shaped(p) && Rearranged(p, p', t) && BucketOk(p, b)
    ensures Shaped(p') && BucketOk(p', b)
  {
    ListKept(p, p', b, p.head[b], p.free[b], InFree);
    ListKept(p, p', b, p.retired[b], p.garbage[b], InRetired);
  }

  lemma RearrangeKeeps(p: Pool, p': Pool, t: Tid)
    requires Inv(p) && Rearranged(p, p', t)
    requires ThreadOk(p', t) && RecordsOk(p')
    requires forall r :: r in p'.threads ==> PairOk(p', t, r) && PairOk(p', r, t)
    ensures Inv(p')
  {
    hide PairOk, RecordsOk, ThreadOk, BucketOk;
    assert NodesOk(p') by {
      forall n | n in p'.place ensures NodeOk(p', n) {
        assert NodeOk(p, n);
      }
    }
    forall b: Bucket | 0 <= b < BUCKETS ensures BucketOk(p', b) {
      RearrangedBucket(p, p', t, b);
    }
    assert Steady(p, p', t);
    hide Inv, Rearranged, Steady, NodesOk;
    Assemble(p, p', t);
  }

  lemma AttachKeeps(p: Pool, t: Tid, b: Bucket)
    requires Inv(p)
    ensures Inv(Step(p, Attach(t, b)))
  {
    hide NodesOk, BucketOk;
    if t !in p.threads {
      var p' := Step(p, Attach(t, b));
      BystanderPairs(p', t);
      assert RecordsOk(p') && ThreadOk(p', t);
      RearrangeKeeps(p, p', t);
    }
  }

  /** A record joins a thread that had none. */
  ghost predicate Joins(p: Pool, p': Pool, t: Tid, v: nat)
    requires t in p.threads
  {
    && p' == p.(threads := p'.threads, records := p'.records)
    && p'.threads == p.threads[t := p.threads[t].(record := Some(v))]
    && |p.records| <= |p'.records| && v < |p'.records|
    && (v < |p.records| ==> p.records[v].bucket.None?)
    && (forall i :: 0 <= i < |p'.records| && i != v ==> i < |p.records| && p'.records[i] == p.records[i])
    && p'.records[v] == Record(None, Some(p.threads[t].bucket))
  }

  lemma JoinRecords(p: Pool, p': Pool, t: Tid, v: nat)
    requires Inv(p) && t in p.threads && p.threads[t].record.None? && Joins(p, p', t, v)
    ensures RecordsOk(p') && Rearranged(p, p', t)
  {
    hide NodesOk, BucketOk, PairOk, PcOk;
    forall x | x in p.threads ensures p.threads[x].record != Some(v) {
      assert ThreadOk(p, x);
    }
  }

  lemma JoinKeeps(p: Pool, p': Pool, t: Tid, v: nat)
    requires Inv(p) && t in p.threads && p.threads[t].record.None? && Joins(p, p', t, v)
    ensures Inv(p')
  {
    hide NodesOk, BucketOk, Chain, Placed, RecordsOk, Rearranged;
    assert ThreadOk(p, t);
    JoinRecords(p, p', t, v);
    assert ThreadOk(p', t);
    forall r | r in p'.threads ensures PairOk(p', t, r) && PairOk(p', r, t) {
      assert PairOk(p, r, t);
    }
    hide Inv, Joins, ThreadOk, PairOk;
    RearrangeKeeps(p, p', t);
  }

  lemma AdoptKeeps(p: Pool, t: Tid, v: nat)
    requires Inv(p) && t in p.threads && p.threads[t].record.None? && v < |p.records| && p.records[v].bucket.None?
    ensures Inv(Step(p, Adopt(t, v)))
  {
    assert RecordsOk(p) && p.records[v].node.None?;
    hide Inv;
    JoinKeeps(p, Step(p, Adopt(t, v)), t, v);
  }

  lemma NewRecordKeeps(p: Pool, t: Tid)
    requires Inv(p) && t in p.threads && p.threads[t].record.None?
    ensures Inv(Step(p, NewRecord(t)))
  {
    assert Shaped(p);
    hide Inv;
    JoinKeeps(p, Step(p, NewRecord(t)), t, |p.records|);
  }

  lemma DetachRecords(p: Pool, t: Tid)
    requires Inv(p) && t in p.threads && p.threads[t].pc == Idle && p.threads[t].record.Some?
    ensures RecordsOk(Step(p, Detach(t))) && Rearranged(p, Step(p, Detach(t)), t)
  {
    hide NodesOk, BucketOk, PairOk, PcOk;
    assert ThreadOk(p, t);
  }

  lemma DetachKeeps(p: Pool, t: Tid)
    requires Inv(p)
    ensures Inv(Step(p, Detach(t)))
  {
    hide NodesOk, BucketOk, PairOk, RecordsOk, Rearranged;
    var p' := Step(p, Detach(t));
    if t in p.threads && p.threads[t].pc == Idle && p.threads[t].record.Some? {
      assert ThreadOk(p, t);
      assert ThreadOk(p', t);
      DetachRecords(p, t);
      hide Inv, ThreadOk;
      BystanderPairs(p', t);
      RearrangeKeeps(p, p', t);
    }
  }

  // ---------------------------------------------------------------------------------------------
  // Every interleaving
  // ---------------------------------------------------------------------------------------------

  lemma AllocateKeeps(p: Pool, t: Tid, brand: Node)
    requires Inv(p) && t in p.threads
    ensures Inv(StepAllocate(p, t, brand))
  {
    hide Inv;
    assert Shaped(p) by { InvShaped(p); }
    var b := p.threads[t].bucket;
    match p.threads[t].pc
    case LoadHead => LoadMoves(p, t, brand);
    case ClearHazard => StoreMoves(p, t, brand);
    case ReloadHead => if p.head[b].Some? { LoadMoves(p, t, brand); } else { BrandNewKeeps(p, t, brand); }
    case Protect(_) => StoreMoves(p, t, brand);
    case Validate(_) => ValidateMoves(p, t, brand);
    case LoadNext(_) => LoadNextMoves(p, t, brand);
    case CasHead(task, _) => if p.head[b] == Some(task) { PopKeeps(p, t, brand); } else { LoadMoves(p, t, brand); }
    case Unprotect(_) => StoreMoves(p, t, brand);
    case Unlink(_) => UnlinkKeeps(p, t, brand);
    case _ =>
  }

  lemma InvShaped(p: Pool)
    requires Inv(p)
    ensures Shaped(p)
  {
  }

  lemma PushKeeps(p: Pool, t: Tid, spurious: bool)
    requires Inv(p) && t in p.threads && p.threads[t].pc.Push?
    ensures Inv(StepPush(p, t, spurious))
  {
    hide Inv;
    assert Shaped(p) by { InvShaped(p); }
    if p.threads[t].pc.stage.PushStore? {
      PushStoreKeeps(p, t);
    } else if Linking(p, t) && !spurious {
      LinkKeeps(p, t);
    } else {
      PushMoves(p, t, spurious);
    }
  }

  lemma ReclaimKeeps(p: Pool, t: Tid)
    requires Inv(p) && t in p.threads
    ensures Inv(StepReclaim(p, t))
  {
    hide Inv;
    assert Shaped(p) by { InvShaped(p); }
    match p.threads[t].pc
    case Count(_) => CountMoves(p, t);
    case TakeRetired(_, _) => TakeKeeps(p, t);
    case Walk(_, _, rest) => if rest.None? { WalkEnds(p, t); } else { WalkMoves(p, t); }
    case ScanBucket(_, _, _, _, _) => ScanBucketMoves(p, t);
    case ScanNode(_, _, _, _, _) => ScanNodeMoves(p, t);
    case _ =>
  }

  lemma StartAllocateKeeps(p: Pool, t: Tid)
    requires Inv(p) && t in p.threads && p.threads[t].pc == Idle && p.threads[t].record.Some?
    ensures Inv(Goto(p, t, LoadHead))
  {
    hide BucketOk, NodesOk, RecordsOk, PairOk;
    assert ThreadOk(p, t);
    hide Inv;
    GotoKeeps(p, t, LoadHead);
  }

  /** Every action keeps the invariant. */
  lemma StepKeepsInv(p: Pool, a: Action)
    requires Inv(p)
    ensures Inv(Step(p, a))
  {
    hide Inv, StepAllocate, StepPush, StepReclaim;
    assert Shaped(p) by { InvShaped(p); }
    match a
    case Attach(t, b) => AttachKeeps(p, t, b);
    case Adopt(t, r) => if t in p.threads && p.threads[t].record.None? && r < |p.records|
        && p.records[r].bucket.None? { AdoptKeeps(p, t, r); }
    case NewRecord(t) => if t in p.threads && p.threads[t].record.None? { NewRecordKeeps(p, t); }
    case Detach(t) => DetachKeeps(p, t);
    case StartAllocate(t) => if t in p.threads && p.threads[t].pc == Idle
        && p.threads[t].record.Some? { StartAllocateKeeps(p, t); }
    case StartFree(t, task) =>
      if t in p.threads && p.threads[t].pc == Idle && task in p.place && p.place[task] == Owned
          && task in p.bucketOf { StartFreeKeeps(p, t, task); }
    case Take(t, spurious, brand) =>
      if t in p.threads {
        if p.threads[t].pc.Push? { PushKeeps(p, t, spurious); } else { AllocateKeeps(p, t, brand); ReclaimKeeps(p, t); }
      }
  }

  function Run(p: Pool, actions: seq<Action>): (p': Pool)
    requires Shaped(p)
    ensures Shaped(p')
    decreases |actions|
  {
    if actions == [] then p else Run(Step(p, actions[0]), actions[1..])
  }

  lemma InitialInv()
    ensures Inv(Initial())
  {
    var p := Initial();
    forall b: Bucket | 0 <= b < BUCKETS ensures BucketOk(p, b) {
      Empty(p, b, InFree);
      Empty(p, b, InRetired);
    }
  }

  /** Any interleaving of any number of threads keeps the invariant. */
  lemma {:induction false} RunKeepsInv(p: Pool, actions: seq<Action>)
    requires Inv(p)
    ensures Inv(Run(p, actions))
    decreases |actions|
  {
    hide Inv;
    InvShaped(p);
    if actions != [] {
      StepKeepsInv(p, actions[0]);
      RunKeepsInv(Step(p, actions[0]), actions[1..]);
    }
  }

  // ---------------------------------------------------------------------------------------------
  // What the invariant means to the callers
  // ---------------------------------------------------------------------------------------------

  ghost predicate Reachable(p: Pool) {
    exists actions :: p == Run(Initial(), actions)
  }

  lemma ReachableInv(p: Pool)
    requires Reachable(p)
    ensures Inv(p)
  {
    hide Inv;
    InitialInv();
    var actions :| p == Run(Initial(), actions);
    RunKeepsInv(Initial(), actions);
  }

  /** Every task is in exactly one place, and in a list at most once. */
  lemma ExactlyOnePlace(p: Pool, n: Node)
    requires Reachable(p) && n in p.next
    ensures n in p.place && n in p.bucketOf
    ensures forall b: Bucket :: n in p.free[b] <==> p.place[n] == InFree && p.bucketOf[n] == b
    ensures forall b: Bucket :: n in p.garbage[b] <==> p.place[n] == InRetired && p.bucketOf[n] == b
    ensures forall t :: t in p.batch && n in p.batch[t] <==> p.place[n] == InBatch(t)
    ensures forall t :: t in p.threads && Holding(p.threads[t].pc) == Some(n) <==> p.place[n] == Held(t)
    ensures forall b: Bucket :: NoDup(p.free[b]) && NoDup(p.garbage[b])
  {
    ReachableInv(p);
    hide PairOk, NodeSteady;
    assert NodeOk(p, n);
    forall b: Bucket
      ensures NoDup(p.free[b]) && NoDup(p.garbage[b])
      ensures n in p.free[b] <==> p.place[n] == InFree && p.bucketOf[n] == b
      ensures n in p.garbage[b] <==> p.place[n] == InRetired && p.bucketOf[n] == b
    {
      hide ThreadOk, RecordsOk;
      assert BucketOk(p, b);
    }
    forall t
      ensures t in p.batch && n in p.batch[t] <==> p.place[n] == InBatch(t)
      ensures t in p.threads && Holding(p.threads[t].pc) == Some(n) <==> p.place[n] == Held(t)
    {
      hide BucketOk, Chain, NoDup, RecordOk;
      assert t in p.batch <==> t in p.threads;
      assert t in p.threads ==> ThreadOk(p, t);
    }
  }

  /** `Allocate` takes from the free list exactly its first task, and installs the true successor as the new head. */
  lemma PopIsExact(p: Pool, t: Tid, spurious: bool, brand: Node)
    requires Reachable(p) && t in p.threads && p.threads[t].pc.CasHead?
    requires p.head[p.threads[t].bucket] == Some(p.threads[t].pc.task)
    ensures var b, p' := p.threads[t].bucket, Step(p, Take(t, spurious, brand));
      && p.free[b] == [p.threads[t].pc.task] + p'.free[b]
      && p'.head[b] == First(p'.free[b]) && Chain(p'.next, p'.free[b])
      && (forall c: Bucket :: c != b ==> p'.free[c] == p.free[c] && p'.head[c] == p.head[c])
  {
    hide Reachable, BucketOk, ThreadOk, NodesOk, RecordsOk, PairOk;
    ReachableInv(p);
    PopInstallsSuccessor(p, t);
    PoppedBucket(p, t, brand);
  }

  lemma PoppedBucket(p: Pool, t: Tid, brand: Node)
    requires Inv(p) && t in p.threads && p.threads[t].pc.CasHead?
    requires p.head[p.threads[t].bucket] == Some(p.threads[t].pc.task)
    ensures var b, p' := p.threads[t].bucket, StepAllocate(p, t, brand);
      p'.head[b] == First(p'.free[b]) && Chain(p'.next, p'.free[b])
  {
    hide Inv, Chain;
    PopBuckets(p, t, brand, p.threads[t].bucket);
  }

  /** What a step may do to a task that another thread has validated. */
  ghost predicate Stable(p: Pool, p': Pool, n: Node) {
    n in p.next && n in p.place ==>
      && n in p'.next && n in p'.place
      && (p'.place[n] == InFree ==> p.place[n] == InFree && p'.next[n] == p.next[n])
  }

  lemma AllocateStable(p: Pool, t: Tid, brand: Node, n: Node)
    requires Inv(p) && t in p.threads
    ensures Stable(p, StepAllocate(p, t, brand), n)
  {
    hide BucketOk, NodeOk, RecordsOk, PairOk, Chain, Placed, RecordOk;
    assert ThreadOk(p, t);
  }

  lemma PushStable(p: Pool, t: Tid, spurious: bool, x: Tid, n: Node)
    requires Inv(p) && t in p.threads && p.threads[t].pc.Push?
    requires x in p.threads && Validated(p.threads[x].pc) == Some(n)
    ensures Stable(p, StepPush(p, t, spurious), n)
  {
    hide BucketOk, NodeOk, RecordsOk, PairOk, ThreadOk;
    Scanned(p, t);
    if Linking(p, t) && p.threads[t].pc.target == ToFree {
      ReusedUnseen(p, t, x);
    }
  }

  lemma ReclaimStable(p: Pool, t: Tid, n: Node)
    requires Inv(p) && t in p.threads
    ensures Stable(p, StepReclaim(p, t), n)
  {
    hide BucketOk, NodeOk, RecordsOk, PairOk, ThreadOk;
  }

  /**
   A task that a thread is about to pop never re-enters the free list, nor changes its link there, behind its back.
   */
  lemma ValidatedIsStable(p: Pool, a: Action, x: Tid, n: Node)
    requires Reachable(p) && x in p.threads && Validated(p.threads[x].pc) == Some(n)
    ensures Stable(p, Step(p, a), n)
  {
    ReachableInv(p);
    hide Inv, StepAllocate, StepPush, StepReclaim;
    if a.Take? && a.t in p.threads {
      if p.threads[a.t].pc.Push? {
        PushStable(p, a.t, a.spurious, x, n);
      } else {
        AllocateStable(p, a.t, a.brand, n);
        ReclaimStable(p, a.t, n);
      }
    }
  }

  /** The task `t` comes to own is the one it popped, or a new one. */
  ghost predicate Handed(p: Pool, p': Pool, t: Tid, n: Node)
    requires Shaped(p)
  {
    && t in p.threads && t in p'.threads && p'.threads[t].pc == Idle
    && (n in p.place ==> p.place[n] == Held(t) && p.threads[t].pc == Unlink(n))
    && (n !in p.place ==> p.threads[t].pc == ReloadHead && p.head[p.threads[t].bucket] == None)
    && n in p'.next && p'.next[n] == None
  }

  ghost predicate NewlyOwned(p: Pool, p': Pool, n: Node) {
    n in p'.place && p'.place[n] == Owned && (n in p.place ==> p.place[n] != Owned)
  }

  lemma AllocateHands(p: Pool, t: Tid, brand: Node, n: Node)
    requires Inv(p) && t in p.threads && NewlyOwned(p, StepAllocate(p, t, brand), n)
    ensures Handed(p, StepAllocate(p, t, brand), t, n)
  {
    hide BucketOk, NodeOk, RecordsOk, PairOk, Chain, Placed, RecordOk;
    assert ThreadOk(p, t);
  }

  lemma ReclaimHandsNothing(p: Pool, t: Tid, n: Node)
    requires Shaped(p) && t in p.threads
    ensures !NewlyOwned(p, StepReclaim(p, t), n)
  {
    match p.threads[t].pc
    case TakeRetired(_, _) =>
    case _ =>
  }

  lemma PushHandsNothing(p: Pool, t: Tid, spurious: bool, n: Node)
    requires Shaped(p) && t in p.threads && p.threads[t].pc.Push?
    ensures !NewlyOwned(p, StepPush(p, t, spurious), n)
  {
    match p.threads[t].pc.stage
    case PushLoad =>
    case PushStore(_) =>
    case PushCas(_) =>
  }

  /** A task becomes owned only when `Allocate` returns it: until then nobody owned it and no other thread held it. */
  lemma AllocateIsExclusive(p: Pool, a: Action, n: Node)
    requires Reachable(p) && NewlyOwned(p, Step(p, a), n)
    ensures a.Take? && Handed(p, Step(p, a), a.t, n)
  {
    ReachableInv(p);
    hide Inv, StepAllocate, StepPush, StepReclaim;
    if a.Take? && a.t in p.threads {
      ReclaimHandsNothing(p, a.t, n);
      if p.threads[a.t].pc.Push? { PushHandsNothing(p, a.t, a.spurious, n); }
      if NewlyOwned(p, StepAllocate(p, a.t, a.brand), n) {
        AllocateHands(p, a.t, a.brand, n);
      }
    }
  }
}
