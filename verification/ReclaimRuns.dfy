/**
 What the task pool does with a retired task. Over any interleaving: what the verdict of a scan says about the hazard
 records. And when a thread is left alone: what its calls to `Allocate`, `Free` and the reclaimer do from start to end.
 */
module ReclaimRuns {
  import opened Results
  import opened Sequences
  import opened TaskPool

  // ---------------------------------------------------------------------------------------------
  // A thread left alone
  // ---------------------------------------------------------------------------------------------

  /** `n` steps of thread `t`, with no step of any other thread and no spurious failure in between. */
  ghost function Alone(p: Pool, t: Tid, brand: Node, n: nat): (p': Pool)
    requires Shaped(p)
    ensures Shaped(p')
    decreases n
  {
    if n == 0 then p else Alone(Step(p, Take(t, false, brand)), t, brand, n - 1)
  }

  lemma {:induction false} AloneAdds(p: Pool, t: Tid, brand: Node, n: nat, k: nat)
    requires Shaped(p)
    ensures Alone(p, t, brand, n + k) == Alone(Alone(p, t, brand, n), t, brand, k)
    decreases n
  {
    hide Step;
    if n > 0 { AloneAdds(Step(p, Take(t, false, brand)), t, brand, n - 1, k); }
  }

  lemma {:induction false} AloneKeepsInv(p: Pool, t: Tid, brand: Node, n: nat)
    requires Inv(p)
    ensures Shaped(p) && Inv(Alone(p, t, brand, n))
    decreases n
  {
    hide Step, Inv;
    InvShaped(p);
    if n > 0 {
      StepKeepsInv(p, Take(t, false, brand));
      AloneKeepsInv(Step(p, Take(t, false, brand)), t, brand, n - 1);
    }
  }

  /** Some record of the bucket names the task. */
  ghost predicate Protects(records: seq<Record>, b: Bucket, task: Node) {
    Record(Some(task), Some(b)) in records
  }

  ghost function Unprotected(records: seq<Record>, b: Bucket, s: seq<Node>): (r: seq<Node>) {
    if s == [] then []
    else (if Protects(records, b, s[0]) then [] else [s[0]]) + Unprotected(records, b, s[1..])
  }

  ghost function Protected(records: seq<Record>, b: Bucket, s: seq<Node>): (r: seq<Node>) {
    if s == [] then []
    else (if Protects(records, b, s[0]) then [s[0]] else []) + Protected(records, b, s[1..])
  }

  ghost function Reverse<T>(s: seq<T>): (r: seq<T>) {
    if s == [] then [] else Reverse(s[1..]) + [s[0]]
  }

  lemma GotoTwice(p: Pool, t: Tid, a: Pc, b: Pc)
    requires t in p.threads
    ensures Goto(Goto(p, t, a), t, b) == Goto(p, t, b)
  {
    var x, y := p.threads[t].(pc := a), p.threads[t].(pc := b);
    assert p.threads[t := x][t := y] == p.threads[t := y];
  }

  ghost function Verdict(records: seq<Record>, b: Bucket, task: Node): (target: Target) {
    if Protects(records, b, task) then ToRetired else ToFree
  }

  ghost function Next(p: Pool, t: Tid, brand: Node): (p': Pool)
    requires Shaped(p)
    ensures Shaped(p')
  {
    Step(p, Take(t, false, brand))
  }

  lemma AloneOne(p: Pool, t: Tid, brand: Node, n: nat)
    requires Shaped(p) && n > 0
    ensures Alone(p, t, brand, n) == Alone(Next(p, t, brand), t, brand, n - 1)
    ensures Alone(p, t, brand, 0) == p
  {
  }

  /** One look at the bucket of a record. */
  lemma ScanBucketStep(p: Pool, t: Tid, brand: Node)
    requires Shaped(p) && t in p.threads && p.threads[t].pc.ScanBucket? && p.threads[t].pc.left <= |p.records|
    ensures var pc := p.threads[t].pc;
      Next(p, t, brand) == Goto(p, t,
        if pc.left == 0 then Push(pc.task, pc.bucket, ToFree, PushLoad, BatchItem(pc.rest, pc.origin))
        else if p.records[pc.left - 1].bucket == Some(pc.bucket)
        then ScanNode(pc.task, pc.bucket, pc.origin, pc.rest, pc.left)
        else ScanBucket(pc.task, pc.bucket, pc.origin, pc.rest, pc.left - 1))
  {
  }

  /** One look at the task a record names. */
  lemma ScanNodeStep(p: Pool, t: Tid, brand: Node)
    requires Shaped(p) && t in p.threads && p.threads[t].pc.ScanNode? && 0 < p.threads[t].pc.left <= |p.records|
    ensures var pc := p.threads[t].pc;
      Next(p, t, brand) == Goto(p, t,
        if p.records[pc.left - 1].node == Some(pc.task)
        then Push(pc.task, pc.bucket, ToRetired, PushLoad, BatchItem(pc.rest, pc.origin))
        else ScanBucket(pc.task, pc.bucket, pc.origin, pc.rest, pc.left - 1))
  {
  }

  /** One record passed over, or the verdict. */
  lemma ScanOneAlone(p: Pool, t: Tid, brand: Node) returns (n: nat)
    requires Shaped(p) && t in p.threads && p.threads[t].pc.ScanBucket? && 0 < p.threads[t].pc.left <= |p.records|
    ensures var pc := p.threads[t].pc;
      Alone(p, t, brand, n) == Goto(p, t,
        if p.records[pc.left - 1] == Record(Some(pc.task), Some(pc.bucket))
        then Push(pc.task, pc.bucket, ToRetired, PushLoad, BatchItem(pc.rest, pc.origin))
        else ScanBucket(pc.task, pc.bucket, pc.origin, pc.rest, pc.left - 1))
  {
    hide Next, Alone;
    var pc := p.threads[t].pc;
    var p1 := Next(p, t, brand);
    ScanBucketStep(p, t, brand);
    AloneOne(p, t, brand, 1);
    if p.records[pc.left - 1].bucket == Some(pc.bucket) {
      ScanNodeStep(p1, t, brand);
      GotoTwice(p, t, p1.threads[t].pc, Next(p1, t, brand).threads[t].pc);
      AloneOne(p, t, brand, 2);
      AloneOne(p1, t, brand, 1);
      AloneOne(Next(p1, t, brand), t, brand, 1);
      n := 2;
    } else {
      AloneOne(p1, t, brand, 1);
      n := 1;
    }
  }

  /** Looking at the records from `left` down ends in a push to the list their contents call for. */
  lemma {:induction false} ScanAlone(p: Pool, t: Tid, brand: Node) returns (n: nat)
    requires Shaped(p) && t in p.threads && p.threads[t].pc.ScanBucket? && p.threads[t].pc.left <= |p.records|
    ensures var pc := p.threads[t].pc;
      Alone(p, t, brand, n) ==
      Goto(p, t, Push(pc.task, pc.bucket, Verdict(p.records[..pc.left], pc.bucket, pc.task), PushLoad,
                      BatchItem(pc.rest, pc.origin)))
    decreases p.threads[t].pc.left
  {
    hide Next, Alone, Shaped;
    var pc := p.threads[t].pc;
    if pc.left == 0 {
      ScanBucketStep(p, t, brand);
      AloneOne(p, t, brand, 1);
      AloneOne(Next(p, t, brand), t, brand, 1);
      n := 1;
    } else {
      var k := pc.left - 1;
      assert p.records[..pc.left] == p.records[..k] + [p.records[k]];
      var m := ScanOneAlone(p, t, brand);
      var p1 := Alone(p, t, brand, m);
      if p1.threads[t].pc.ScanBucket? {
        var m' := ScanAlone(p1, t, brand);
        AloneAdds(p, t, brand, m, m');
        GotoTwice(p, t, p1.threads[t].pc, Alone(p1, t, brand, m').threads[t].pc);
        n := m + m';
      } else {
        n := m;
      }
    }
  }

  // ---------------------------------------------------------------------------------------------
  // A push, an item, a batch
  // ---------------------------------------------------------------------------------------------

  function Resumed(pc: Pc): (pc': Pc)
    requires pc.Push?
  {
    match pc.cont
    case FreeCall => Count(pc.bucket)
    case BatchItem(rest, origin) => Walk(pc.bucket, origin, rest)
  }

  /** What changes when thread `t`, somewhere in a push, gets its task onto the list it is meant for. */
  ghost predicate Pushed(p: Pool, p': Pool, t: Tid)
    requires Shaped(p) && t in p.threads && p.threads[t].pc.Push?
  {
    var pc := p.threads[t].pc;
    var b := pc.bucket;
    && Shaped(p') && p'.records == p.records && p'.sequence == p.sequence && p'.bucketOf == p.bucketOf
    && p'.threads == p.threads[t := p.threads[t].(pc := Resumed(pc))]
    && p'.free == (if pc.target == ToFree then p.free[b := [pc.task] + p.free[b]] else p.free)
    && p'.garbage == (if pc.target == ToRetired then p.garbage[b := [pc.task] + p.garbage[b]] else p.garbage)
    && p'.batch == (if pc.cont.FreeCall? then p.batch else p.batch[t := if t in p.batch then Rest(p.batch[t]) else []])
    && p'.next == p.next[pc.task := ListHead(p, b, pc.target)]
  }

  lemma PushLoadStep(p: Pool, t: Tid, brand: Node)
    requires Shaped(p) && t in p.threads && p.threads[t].pc.Push? && p.threads[t].pc.stage == PushLoad
    ensures var pc := p.threads[t].pc;
      Next(p, t, brand) == Goto(p, t, pc.(stage := PushStore(ListHead(p, pc.bucket, pc.target))))
  {
  }

  lemma PushStoreStep(p: Pool, t: Tid, brand: Node)
    requires Shaped(p) && t in p.threads && p.threads[t].pc.Push? && p.threads[t].pc.stage.PushStore?
    ensures var pc := p.threads[t].pc;
      Next(p, t, brand) ==
      Goto(p.(next := p.next[pc.task := pc.stage.seen]), t, pc.(stage := PushCas(pc.stage.seen)))
  {
  }

  lemma PushCasStep(p: Pool, t: Tid, brand: Node)
    requires Shaped(p) && t in p.threads && p.threads[t].pc.Push? && p.threads[t].pc.stage.PushCas?
    requires p.threads[t].pc.stage.seen == ListHead(p, p.threads[t].pc.bucket, p.threads[t].pc.target)
    requires p.threads[t].pc.task in p.next && p.next[p.threads[t].pc.task] == p.threads[t].pc.stage.seen
    ensures Pushed(p, Next(p, t, brand), t)
  {
    var pc := p.threads[t].pc;
    assert p.next[pc.task := p.next[pc.task]] == p.next;
  }

  lemma PushAlone(p: Pool, t: Tid, brand: Node)
    requires Shaped(p) && t in p.threads && p.threads[t].pc.Push? && p.threads[t].pc.stage == PushLoad
    ensures Pushed(p, Alone(p, t, brand, 3), t)
  {
    hide Next, Alone, Step;
    var pc := p.threads[t].pc;
    var p1 := Next(p, t, brand);
    PushLoadStep(p, t, brand);
    var p2 := Next(p1, t, brand);
    PushStoreStep(p1, t, brand);
    var p3 := Next(p2, t, brand);
    PushCasStep(p2, t, brand);
    AloneOne(p, t, brand, 3);
    AloneOne(p1, t, brand, 2);
    AloneOne(p2, t, brand, 1);
    AloneOne(p3, t, brand, 1);
    var h := ListHead(p, pc.bucket, pc.target);
    assert p.next[pc.task := h][pc.task := h] == p.next[pc.task := h];
  }

  /** What changes when thread `t` deals with the first task of its batch. */
  ghost predicate Sorted(p: Pool, p': Pool, t: Tid, b: Bucket, origin: Origin)
    requires Shaped(p) && t in p.threads && t in p.batch && p.batch[t] != []
  {
    var task := p.batch[t][0];
    && Shaped(p') && p'.records == p.records && p'.sequence == p.sequence && p'.bucketOf == p.bucketOf
    && t in p'.threads && p'.threads[t].pc.Walk? && p'.threads[t].pc.bucket == b && p'.threads[t].pc.origin == origin
    && p'.threads == p.threads[t := p.threads[t].(pc := p'.threads[t].pc)]
    && p'.free == (if Protects(p.records, b, task) then p.free else p.free[b := [task] + p.free[b]])
    && p'.garbage == (if Protects(p.records, b, task) then p.garbage[b := [task] + p.garbage[b]] else p.garbage)
    && p'.batch == p.batch[t := p.batch[t][1..]]
  }

  lemma WalkStep(p: Pool, t: Tid, brand: Node)
    requires Shaped(p) && t in p.threads && p.threads[t].pc.Walk?
    requires p.threads[t].pc.rest.Some? && p.threads[t].pc.rest.value in p.next
    ensures var pc := p.threads[t].pc;
      Next(p, t, brand) ==
      Goto(p, t, ScanBucket(pc.rest.value, pc.bucket, pc.origin, p.next[pc.rest.value], |p.records|))
  {
  }

  lemma WalkAt(p: Pool, t: Tid)
    requires Inv(p) && t in p.threads && p.threads[t].pc.Walk?
    ensures t in p.batch && p.threads[t].pc.rest == First(p.batch[t])
    ensures p.batch[t] != [] ==> p.batch[t][0] in p.next
  {
    assert ThreadOk(p, t);
  }

  lemma ItemAlone(p: Pool, t: Tid, brand: Node) returns (n: nat)
    requires Inv(p) && t in p.threads && p.threads[t].pc.Walk? && t in p.batch && p.batch[t] != []
    ensures Shaped(p) && Sorted(p, Alone(p, t, brand, n), t, p.threads[t].pc.bucket, p.threads[t].pc.origin)
  {
    hide Next, Alone, Inv, Step;
    InvShaped(p);
    WalkAt(p, t);
    var pc := p.threads[t].pc;
    var p1 := Next(p, t, brand);
    WalkStep(p, t, brand);
    AloneOne(p, t, brand, 1);
    AloneOne(p1, t, brand, 1);
    var m := ScanAlone(p1, t, brand);
    var p2 := Alone(p1, t, brand, m);
    assert p.records[..|p.records|] == p.records;
    GotoTwice(p, t, p1.threads[t].pc, p2.threads[t].pc);
    PushAlone(p2, t, brand);
    AloneAdds(p1, t, brand, m, 3);
    AloneAdds(p, t, brand, 1, m + 3);
    n := m + 4;
  }

  /** What the reclaimer has done once it went through the whole list `s` it took. */
  ghost predicate Reclaimed(p: Pool, p': Pool, t: Tid, b: Bucket, origin: Origin, s: seq<Node>)
    requires Shaped(p) && t in p.threads
  {
    && Shaped(p') && p'.records == p.records && p'.sequence == p.sequence && p'.bucketOf == p.bucketOf
    && p'.threads == p.threads[t := p.threads[t].(pc := if origin == FromAllocate then ReloadHead else Idle)]
    && p'.free == p.free[b := Reverse(Unprotected(p.records, b, s)) + p.free[b]]
    && p'.garbage == p.garbage[b := Reverse(Protected(p.records, b, s)) + p.garbage[b]]
  }

  lemma ReversePrefix<T>(x: T, s: seq<T>, l: seq<T>)
    ensures Reverse([x] + s) + l == Reverse(s) + ([x] + l)
  {
    assert ([x] + s)[1..] == s;
  }

  lemma WalkEndStep(p: Pool, t: Tid, brand: Node)
    requires Shaped(p) && t in p.threads && p.threads[t].pc.Walk? && p.threads[t].pc.rest.None?
    ensures Next(p, t, brand) == Goto(p, t, if p.threads[t].pc.origin == FromAllocate then ReloadHead else Idle)
  {
  }

  lemma {:induction false} BatchAlone(p: Pool, t: Tid, brand: Node) returns (n: nat)
    requires Inv(p) && t in p.threads && p.threads[t].pc.Walk? && t in p.batch
    ensures Shaped(p)
    ensures Reclaimed(p, Alone(p, t, brand, n), t, p.threads[t].pc.bucket, p.threads[t].pc.origin, p.batch[t])
    decreases |p.batch[t]|
  {
    hide Next, Alone, Inv, Step;
    InvShaped(p);
    WalkAt(p, t);
    var b, origin, s := p.threads[t].pc.bucket, p.threads[t].pc.origin, p.batch[t];
    if s == [] {
      WalkEndStep(p, t, brand);
      AloneOne(p, t, brand, 1);
      AloneOne(Next(p, t, brand), t, brand, 1);
      n := 1;
      assert [] + p.free[b] == p.free[b] && [] + p.garbage[b] == p.garbage[b];
      assert p.free[b := p.free[b]] == p.free && p.garbage[b := p.garbage[b]] == p.garbage;
    } else {
      var m := ItemAlone(p, t, brand);
      var p1 := Alone(p, t, brand, m);
      AloneKeepsInv(p, t, brand, m);
      var m' := BatchAlone(p1, t, brand);
      AloneAdds(p, t, brand, m, m');
      n := m + m';
      ReclaimedMore(p, p1, Alone(p1, t, brand, m'), t, b, origin);
    }
  }

  lemma ReclaimedMore(p: Pool, p1: Pool, p': Pool, t: Tid, b: Bucket, origin: Origin)
    requires Shaped(p) && t in p.threads && t in p.batch && p.batch[t] != []
    requires Sorted(p, p1, t, b, origin) && Reclaimed(p1, p', t, b, origin, p.batch[t][1..])
    ensures Reclaimed(p, p', t, b, origin, p.batch[t])
  {
    var s := p.batch[t];
    var u, k := Unprotected(p.records, b, s[1..]), Protected(p.records, b, s[1..]);
    ReversePrefix(s[0], u, p.free[b]);
    ReversePrefix(s[0], k, p.garbage[b]);
    assert [] + u == u && [] + k == k;
  }

  // ---------------------------------------------------------------------------------------------
  // Whole calls
  // ---------------------------------------------------------------------------------------------

  lemma TakeStep(p: Pool, t: Tid, brand: Node)
    requires Shaped(p) && t in p.threads && p.threads[t].pc.TakeRetired?
    ensures var b, p' := p.threads[t].pc.bucket, Next(p, t, brand);
      && p'.records == p.records && p'.sequence == p.sequence && p'.bucketOf == p.bucketOf && p'.free == p.free
      && p'.garbage == p.garbage[b := []] && p'.batch == p.batch[t := p.garbage[b]]
      && p'.threads == p.threads[t := p.threads[t].(pc := Walk(b, p.threads[t].pc.origin, p.retired[b]))]
  {
  }

  lemma ReclaimSteps(p: Pool, t: Tid, brand: Node) returns (n: nat)
    requires Inv(p) && t in p.threads && p.threads[t].pc.TakeRetired?
    ensures Shaped(p)
    ensures var b, p' := p.threads[t].pc.bucket, Alone(p, t, brand, n);
      && Shaped(p') && p'.records == p.records && p'.sequence == p.sequence && p'.bucketOf == p.bucketOf
      && p'.threads ==
         p.threads[t := p.threads[t].(pc := if p.threads[t].pc.origin == FromAllocate then ReloadHead else Idle)]
      && p'.free == p.free[b := Reverse(Unprotected(p.records, b, p.garbage[b])) + p.free[b]]
      && p'.garbage == p.garbage[b := Reverse(Protected(p.records, b, p.garbage[b]))]
  {
    hide Next, Alone, Inv;
    InvShaped(p);
    var b := p.threads[t].pc.bucket;
    var p1 := Next(p, t, brand);
    TakeStep(p, t, brand);
    AloneOne(p, t, brand, 1);
    AloneOne(p1, t, brand, 1);
    AloneKeepsInv(p, t, brand, 1);
    var m := BatchAlone(p1, t, brand);
    AloneAdds(p, t, brand, 1, m);
    n := 1 + m;
    var k := Reverse(Protected(p.records, b, p.garbage[b]));
    assert k + [] == k;
    assert p.garbage[b := []][b := k] == p.garbage[b := k];
  }

  /**
   A thread left alone in the reclaimer puts every task of the list it took back into circulation, except those some
   record of the bucket names; those stay retired.
   */
  lemma ReclaimAlone(p: Pool, t: Tid, brand: Node)
    requires Inv(p) && t in p.threads && p.threads[t].pc.TakeRetired?
    ensures Shaped(p)
    ensures exists n :: var b, p' := p.threads[t].pc.bucket, Alone(p, t, brand, n);
      && p'.records == p.records && t in p'.threads
      && p'.threads[t].pc == (if p.threads[t].pc.origin == FromAllocate then ReloadHead else Idle)
      && p'.free == p.free[b := Reverse(Unprotected(p.records, b, p.garbage[b])) + p.free[b]]
      && p'.garbage == p.garbage[b := Reverse(Protected(p.records, b, p.garbage[b]))]
  {
    hide Alone, Inv;
    var n := ReclaimSteps(p, t, brand);
  }

  /** Which tasks those are. */
  lemma {:induction false} SortedOut(records: seq<Record>, b: Bucket, s: seq<Node>, x: Node)
    ensures x in Reverse(Unprotected(records, b, s)) <==> x in s && Record(Some(x), Some(b)) !in records
    ensures x in Reverse(Protected(records, b, s)) <==> x in s && Record(Some(x), Some(b)) in records
    ensures |Unprotected(records, b, s)| + |Protected(records, b, s)| == |s|
  {
    InReverse(Unprotected(records, b, s), x);
    InReverse(Protected(records, b, s), x);
    if s != [] {
      InReverse(Unprotected(records, b, s[1..]), x);
      InReverse(Protected(records, b, s[1..]), x);
      SortedOut(records, b, s[1..], x);
    }
  }

  lemma {:induction false} InReverse<T>(s: seq<T>, x: T)
    ensures x in Reverse(s) <==> x in s
    ensures |Reverse(s)| == |s|
  {
    if s != [] {
      InReverse(s[1..], x);
      assert s == [s[0]] + s[1..];
    }
  }

  /** The thread has its hazard record, and the record names nothing. */
  ghost predicate Clear(p: Pool, t: Tid)
    requires t in p.threads
  {
    && p.threads[t].record.Some? && p.threads[t].record.value < |p.records|
    && p.records[p.threads[t].record.value].node == None
  }

  lemma ClearAt(p: Pool, t: Tid)
    requires Inv(p) && t in p.threads && p.threads[t].record.Some?
    requires p.threads[t].pc == Idle || p.threads[t].pc == ReloadHead
    ensures Clear(p, t)
  {
    assert ThreadOk(p, t);
  }

  lemma SetClear(p: Pool, t: Tid, node: Ptr)
    requires t in p.threads && Clear(p, t)
    ensures SetHazard(p, t, None) == p
    ensures SetHazard(SetHazard(p, t, node), t, None) == p
  {
    var r := p.threads[t].record.value;
    assert p.records[r := p.records[r].(node := None)] == p.records;
    assert p.records[r := p.records[r].(node := node)][r := p.records[r].(node := None)] == p.records;
  }

  /** What changes when thread `t` takes the first free task. */
  ghost predicate Popped(p: Pool, p': Pool, t: Tid, task: Node)
    requires Shaped(p) && t in p.threads
  {
    var b := p.threads[t].bucket;
    && Shaped(p') && p'.records == p.records && p'.sequence == p.sequence && p'.bucketOf == p.bucketOf
    && p'.threads == p.threads[t := p.threads[t].(pc := Idle)] && p'.garbage == p.garbage
    && p.free[b] == [task] + p'.free[b] && p'.free == p.free[b := p'.free[b]]
    && p'.next == p.next[task := None] && p'.place == p.place[task := Owned]
  }

  lemma ProtectSteps(p: Pool, t: Tid, brand: Node, task: Node)
    requires Shaped(p) && t in p.threads && p.threads[t].pc == Protect(task)
    requires p.head[p.threads[t].bucket] == Some(task) && task in p.next
    ensures Alone(p, t, brand, 3) == Goto(SetHazard(p, t, Some(task)), t, CasHead(task, p.next[task]))
  {
    hide Alone;
    var p1 := Next(p, t, brand);
    var q := SetHazard(p, t, Some(task));
    assert p1 == Goto(q, t, Validate(task));
    var p2 := Next(p1, t, brand);
    assert p2 == Goto(q, t, LoadNext(task)) by { GotoTwice(q, t, Validate(task), LoadNext(task)); }
    var p3 := Next(p2, t, brand);
    assert p3 == Goto(q, t, CasHead(task, p.next[task])) by {
      GotoTwice(q, t, LoadNext(task), CasHead(task, p.next[task]));
    }
    AloneOne(p, t, brand, 3);
    AloneOne(p1, t, brand, 2);
    AloneOne(p2, t, brand, 1);
    AloneOne(p3, t, brand, 1);
  }

  lemma FirstFree(p: Pool, b: Bucket)
    requires Inv(p) && 0 <= b < BUCKETS
    ensures p.head[b] == First(p.free[b])
    ensures p.free[b] != [] ==> p.free[b][0] in p.next && p.next[p.free[b][0]] == First(p.free[b][1..])
  {
    assert BucketOk(p, b);
    if p.free[b] != [] { assert p.free[b][0] in p.free[b]; }
  }

  /** The compare-and-swap succeeds, the record is cleared, the task is unlinked. */
  lemma CasStep(p: Pool, t: Tid, brand: Node, task: Node, next: Ptr)
    requires Shaped(p) && t in p.threads && p.threads[t].pc == CasHead(task, next)
    requires p.head[p.threads[t].bucket] == Some(task)
    ensures Next(p, t, brand) == PopHead(p, t, p.threads[t].bucket, task, next)
  {
  }

  lemma UnprotectStep(p: Pool, t: Tid, brand: Node, task: Node)
    requires Shaped(p) && t in p.threads && p.threads[t].pc == Unprotect(task)
    ensures Next(p, t, brand) == Goto(SetHazard(p, t, None), t, Unlink(task))
  {
  }

  lemma UnlinkStep(p: Pool, t: Tid, brand: Node, task: Node)
    requires Shaped(p) && t in p.threads && p.threads[t].pc == Unlink(task)
    ensures Next(p, t, brand) == Goto(p.(next := p.next[task := None], place := p.place[task := Owned]), t, Idle)
  {
  }

  lemma UnprotectSteps(p: Pool, t: Tid, brand: Node, task: Node, q: Pool)
    requires Shaped(p) && t in p.threads && q == SetHazard(p, t, Some(task)) && Clear(p, t)
    requires p.head[p.threads[t].bucket] == Some(task) && p.free[p.threads[t].bucket] != []
    requires p.free[p.threads[t].bucket][0] == task && task in p.next
    ensures Popped(p, Alone(Goto(q, t, CasHead(task, p.next[task])), t, brand, 3), t, task)
  {
    hide Alone, Next;
    var b, p0 := p.threads[t].bucket, Goto(q, t, CasHead(task, p.next[task]));
    CasStep(p0, t, brand, task, p.next[task]);
    var p1 := Next(p0, t, brand);
    UnprotectStep(p1, t, brand, task);
    var p2 := Next(p1, t, brand);
    assert p2.records == p.records by { SetClear(p, t, Some(task)); }
    UnlinkStep(p2, t, brand, task);
    var p3 := Next(p2, t, brand);
    AloneOne(p0, t, brand, 3);
    AloneOne(p1, t, brand, 2);
    AloneOne(p2, t, brand, 1);
    AloneOne(p3, t, brand, 1);
    assert p.free[b] == [task] + p.free[b][1..];
    assert p.place[task := Held(t)][task := Owned] == p.place[task := Owned];
  }

  lemma PopAlone(p: Pool, t: Tid, brand: Node)
    requires Inv(p) && t in p.threads && Clear(p, t) && p.free[p.threads[t].bucket] != []
    requires p.threads[t].pc == Protect(p.free[p.threads[t].bucket][0])
    ensures Popped(p, Alone(p, t, brand, 6), t, p.free[p.threads[t].bucket][0])
  {
    hide Inv, Alone, Popped, SetHazard;
    InvShaped(p);
    var task := p.free[p.threads[t].bucket][0];
    FirstFree(p, p.threads[t].bucket);
    ProtectSteps(p, t, brand, task);
    UnprotectSteps(p, t, brand, task, SetHazard(p, t, Some(task)));
    AloneAdds(p, t, brand, 3, 3);
  }

  /** What a call to `Allocate` by a thread left alone does. */
  ghost predicate Allocated(p: Pool, p': Pool, t: Tid, brand: Node)
    requires Shaped(p) && t in p.threads
  {
    var b := p.threads[t].bucket;
    var spare := Reverse(Unprotected(p.records, b, p.garbage[b]));
    && Shaped(p') && p'.threads == p.threads && p'.records == p.records && p'.sequence == p.sequence
    && if p.free[b] != [] then
         && p'.free == p.free[b := p.free[b][1..]] && p'.garbage == p.garbage
         && GivenOut(p', b, p.free[b][0])
       else
         && p'.garbage == p.garbage[b := Reverse(Protected(p.records, b, p.garbage[b]))]
         && (if spare != [] then p'.free == p.free[b := spare[1..]] && GivenOut(p', b, spare[0])
             else p'.free == p.free && GivenOut(p', b, brand))
  }

  /** The caller has the task, and it leads nowhere. */
  ghost predicate GivenOut(p: Pool, b: Bucket, task: Node) {
    task in p.place && p.place[task] == Owned && task in p.next && p.next[task] == None
    && task in p.bucketOf && p.bucketOf[task] == b
  }

  lemma LoadHeadStep(p: Pool, t: Tid, brand: Node)
    requires Shaped(p) && t in p.threads && (p.threads[t].pc == LoadHead || p.threads[t].pc == ReloadHead)
    requires p.head[p.threads[t].bucket].Some?
    ensures Next(p, t, brand) == Goto(p, t, Protect(p.head[p.threads[t].bucket].value))
  {
  }

  lemma EmptyHeadSteps(p: Pool, t: Tid, brand: Node)
    requires Shaped(p) && t in p.threads && p.threads[t].pc == LoadHead && Clear(p, t)
    requires p.head[p.threads[t].bucket].None?
    ensures Alone(p, t, brand, 2) == Goto(p, t, TakeRetired(p.threads[t].bucket, FromAllocate))
  {
    hide Alone;
    var p1 := Next(p, t, brand);
    assert p1 == Goto(p, t, ClearHazard);
    var p2 := Next(p1, t, brand);
    SetClear(p1, t, None);
    GotoTwice(p, t, ClearHazard, TakeRetired(p.threads[t].bucket, FromAllocate));
    AloneOne(p, t, brand, 2);
    AloneOne(p1, t, brand, 1);
    AloneOne(p2, t, brand, 1);
  }

  lemma NewTaskStep(p: Pool, t: Tid, brand: Node)
    requires Shaped(p) && t in p.threads && p.threads[t].pc == ReloadHead
    requires p.head[p.threads[t].bucket].None? && brand !in p.next
    ensures Next(p, t, brand) == NewTask(p, t, p.threads[t].bucket, brand)
  {
  }

  lemma IdleAgain(p: Pool, t: Tid, a: Pc)
    requires t in p.threads && p.threads[t].pc == Idle
    ensures p.threads[t := p.threads[t].(pc := a)][t := p.threads[t].(pc := Idle)] == p.threads
  {
  }

  lemma StartStep(p: Pool, t: Tid)
    requires Inv(p) && t in p.threads && p.threads[t].pc == Idle && p.threads[t].record.Some?
    ensures Shaped(p) && Step(p, StartAllocate(t)) == Goto(p, t, LoadHead) && Inv(Goto(p, t, LoadHead))
    ensures Clear(p, t) && Clear(Goto(p, t, LoadHead), t)
  {
    hide Inv;
    InvShaped(p);
    StepKeepsInv(p, StartAllocate(t));
    ClearAt(p, t);
  }

  /** With a free task at hand, or one the reclaimer has just freed. */
  lemma TakeFirst(p: Pool, t: Tid, brand: Node)
    requires Inv(p) && t in p.threads && (p.threads[t].pc == LoadHead || p.threads[t].pc == ReloadHead) && Clear(p, t)
    requires p.free[p.threads[t].bucket] != []
    ensures Popped(p, Alone(p, t, brand, 7), t, p.free[p.threads[t].bucket][0])
    ensures Inv(Alone(p, t, brand, 7))
  {
    hide Inv, Alone, Next;
    InvShaped(p);
    var b := p.threads[t].bucket;
    FirstFree(p, b);
    var p1 := Next(p, t, brand);
    LoadHeadStep(p, t, brand);
    AloneOne(p, t, brand, 1);
    AloneOne(p1, t, brand, 1);
    AloneKeepsInv(p, t, brand, 1);
    PopAlone(p1, t, brand);
    AloneAdds(p, t, brand, 1, 6);
    AloneKeepsInv(p, t, brand, 7);
    GotoTwice(p, t, p1.threads[t].pc, Idle);
  }

  lemma FreeBucket(p: Pool, b: Bucket, task: Node)
    requires Inv(p) && task in p.free[b]
    ensures task in p.bucketOf && p.bucketOf[task] == b
  {
    assert BucketOk(p, b);
  }

  lemma NewNode(p: Pool, q: Pool, brand: Node)
    requires Inv(p) && Inv(q) && q.bucketOf == p.bucketOf
    ensures brand in q.next <==> brand in p.next
  {
  }

  /** The state `q` in which the reclaimer leaves the thread of an `Allocate` that found nothing free. */
  ghost predicate Replenished(p: Pool, q: Pool, t: Tid)
    requires Shaped(p) && t in p.threads
  {
    var b := p.threads[t].bucket;
    && Inv(q) && q.records == p.records && q.sequence == p.sequence && q.bucketOf == p.bucketOf
    && q.threads == p.threads[t := p.threads[t].(pc := ReloadHead)]
    && q.free == p.free[b := Reverse(Unprotected(p.records, b, p.garbage[b]))]
    && q.garbage == p.garbage[b := Reverse(Protected(p.records, b, p.garbage[b]))]
  }

  /** Nothing is free: the reclaimer runs first. */
  lemma ReclaimFirst(p: Pool, t: Tid, brand: Node) returns (n: nat)
    requires Inv(p) && t in p.threads && p.threads[t].pc == LoadHead && Clear(p, t)
    requires p.free[p.threads[t].bucket] == []
    ensures Shaped(p)
    ensures Replenished(p, Alone(p, t, brand, n), t)
  {
    hide Inv, Alone, Next;
    InvShaped(p);
    var b := p.threads[t].bucket;
    FirstFree(p, b);
    EmptyHeadSteps(p, t, brand);
    AloneKeepsInv(p, t, brand, 2);
    var p2 := Alone(p, t, brand, 2);
    var m := ReclaimSteps(p2, t, brand);
    AloneAdds(p, t, brand, 2, m);
    n := 2 + m;
    AloneKeepsInv(p, t, brand, n);
    var u := Reverse(Unprotected(p.records, b, p.garbage[b]));
    assert u + [] == u;
    GotoTwice(p, t, p2.threads[t].pc, ReloadHead);
  }

  lemma MakeNew(p: Pool, t: Tid, brand: Node)
    requires Inv(p) && t in p.threads && p.threads[t].pc == ReloadHead && p.free[p.threads[t].bucket] == []
    requires brand !in p.next
    ensures Alone(p, t, brand, 1) == NewTask(p, t, p.threads[t].bucket, brand)
  {
    hide Inv, Alone, Next;
    InvShaped(p);
    FirstFree(p, p.threads[t].bucket);
    NewTaskStep(p, t, brand);
    AloneOne(p, t, brand, 1);
    AloneOne(Next(p, t, brand), t, brand, 1);
  }

  lemma AllocateFirst(p: Pool, p0: Pool, p': Pool, t: Tid, brand: Node)
    requires Inv(p) && t in p.threads && p.threads[t].pc == Idle && p.free[p.threads[t].bucket] != []
    requires Shaped(p) && p0 == Goto(p, t, LoadHead) && Popped(p0, p', t, p.free[p.threads[t].bucket][0])
    ensures Allocated(p, p', t, brand)
  {
    hide Inv;
    var b := p.threads[t].bucket;
    IdleAgain(p, t, LoadHead);
    FreeBucket(p, b, p.free[b][0]);
    assert p'.free[b] == p.free[b][1..];
  }

  lemma AllocateSpare(p: Pool, q: Pool, p': Pool, t: Tid, brand: Node)
    requires Shaped(p) && t in p.threads && p.threads[t].pc == Idle && p.free[p.threads[t].bucket] == []
    requires Replenished(p, q, t) && q.free[p.threads[t].bucket] != []
    requires Popped(q, p', t, q.free[p.threads[t].bucket][0])
    ensures Allocated(p, p', t, brand)
  {
    hide Inv;
    var b := p.threads[t].bucket;
    var spare := q.free[b];
    IdleAgain(p, t, ReloadHead);
    FreeBucket(q, b, spare[0]);
    assert p'.free[b] == spare[1..];
    assert p.free[b := spare][b := spare[1..]] == p.free[b := spare[1..]];
  }

  lemma AllocateNew(p: Pool, q: Pool, t: Tid, brand: Node)
    requires Shaped(p) && t in p.threads && p.threads[t].pc == Idle && p.free[p.threads[t].bucket] == []
    requires Replenished(p, q, t) && q.free[p.threads[t].bucket] == []
    ensures Allocated(p, NewTask(q, t, p.threads[t].bucket, brand), t, brand)
  {
    hide Inv;
    var b := p.threads[t].bucket;
    InvShaped(q);
    IdleAgain(p, t, ReloadHead);
    assert p.free[b := []] == p.free;
  }

  lemma ReclaimedFirst(p: Pool, q: Pool, t: Tid)
    requires Shaped(p) && t in p.threads && Replenished(Goto(p, t, LoadHead), q, t)
    ensures Replenished(p, q, t) && q.threads[t].pc == ReloadHead && q.threads[t].bucket == p.threads[t].bucket
    ensures Clear(p, t) ==> Clear(q, t)
  {
    hide Inv;
    GotoTwice(p, t, LoadHead, ReloadHead);
  }

  lemma AllocateSteps(p: Pool, t: Tid, brand: Node) returns (n: nat)
    requires Inv(p) && t in p.threads && p.threads[t].pc == Idle && p.threads[t].record.Some? && brand !in p.next
    ensures Shaped(p) && Allocated(p, Alone(Step(p, StartAllocate(t)), t, brand, n), t, brand)
  {
    hide Inv, Alone, Step, Allocated, Replenished, Popped, Clear;
    StartStep(p, t);
    var b, p0 := p.threads[t].bucket, Goto(p, t, LoadHead);
    if p.free[b] != [] {
      TakeFirst(p0, t, brand);
      AllocateFirst(p, p0, Alone(p0, t, brand, 7), t, brand);
      n := 7;
    } else {
      var m := ReclaimFirst(p0, t, brand);
      var q := Alone(p0, t, brand, m);
      ReclaimedFirst(p, q, t);
      ReplenishedInv(p, q, t);
      NewNode(p, q, brand);
      if q.free[b] != [] {
        TakeFirst(q, t, brand);
        AllocateSpare(p, q, Alone(q, t, brand, 7), t, brand);
        AloneAdds(p0, t, brand, m, 7);
        n := m + 7;
      } else {
        MakeNew(q, t, brand);
        AllocateNew(p, q, t, brand);
        AloneAdds(p0, t, brand, m, 1);
        n := m + 1;
      }
    }
  }

  lemma ReplenishedInv(p: Pool, q: Pool, t: Tid)
    requires Shaped(p) && t in p.threads && Replenished(p, q, t)
    ensures Inv(q) && Shaped(q) && q.bucketOf == p.bucketOf && t in q.threads
  {
    hide Inv;
    InvShaped(q);
  }

  /**
   `Allocate` by a thread left alone returns the first free task; if there is none, the longest retired task of its
   bucket no record names; and it makes a new task only if every retired task of the bucket is named by some record.
   */
  lemma AllocateAlone(p: Pool, t: Tid, brand: Node)
    requires Inv(p) && t in p.threads && p.threads[t].pc == Idle && p.threads[t].record.Some? && brand !in p.next
    ensures Shaped(p) && exists n :: Allocated(p, Alone(Step(p, StartAllocate(t)), t, brand, n), t, brand)
  {
    hide Inv, Alone, Step, Allocated;
    var n := AllocateSteps(p, t, brand);
  }

  /** What a call to `Free` by a thread left alone does. */
  ghost predicate Freed(p: Pool, p': Pool, t: Tid, b: Bucket, task: Node)
    requires Shaped(p) && t in p.threads && 0 <= b < BUCKETS
  {
    var s := [task] + p.garbage[b];
    && Shaped(p') && p'.threads == p.threads && p'.records == p.records && p'.bucketOf == p.bucketOf
    && p'.sequence == p.sequence[b := p.sequence[b] + 1]
    && if (p.sequence[b] + 1) % 32 == 0 then
         && p'.free == p.free[b := Reverse(Unprotected(p.records, b, s)) + p.free[b]]
         && p'.garbage == p.garbage[b := Reverse(Protected(p.records, b, s))]
       else p'.free == p.free && p'.garbage == p.garbage[b := s]
  }

  lemma StartFreeStep(p: Pool, t: Tid, task: Node)
    requires Inv(p) && t in p.threads && p.threads[t].pc == Idle && task in p.place && p.place[task] == Owned
    ensures Shaped(p) && task in p.bucketOf && task in p.next
    ensures Step(p, StartFree(t, task)) ==
      Goto(p.(place := p.place[task := Held(t)]), t, Push(task, p.bucketOf[task], ToRetired, PushLoad, FreeCall))
  {
  }

  lemma CountStep(p: Pool, t: Tid, brand: Node)
    requires Shaped(p) && t in p.threads && p.threads[t].pc.Count?
    ensures var b, n := p.threads[t].pc.bucket, p.sequence[p.threads[t].pc.bucket] + 1;
      Next(p, t, brand) ==
      Goto(p.(sequence := p.sequence[b := n]), t, if n % 32 == 0 then TakeRetired(b, FromFree) else Idle)
  {
  }

  lemma RetireSteps(p: Pool, t: Tid, brand: Node, task: Node)
    requires Inv(p) && t in p.threads && p.threads[t].pc == Idle && task in p.place && p.place[task] == Owned
    ensures Shaped(p) && task in p.bucketOf
    ensures var b, p' := p.bucketOf[task], Alone(Step(p, StartFree(t, task)), t, brand, 4);
      && Inv(p') && p'.records == p.records && p'.bucketOf == p.bucketOf && p'.free == p.free
      && p'.garbage == p.garbage[b := [task] + p.garbage[b]] && p'.sequence == p.sequence[b := p.sequence[b] + 1]
      && p'.threads == p.threads[t := p.threads[t].(
           pc := if (p.sequence[b] + 1) % 32 == 0 then TakeRetired(b, FromFree) else Idle)]
  {
    hide Inv, Alone, Step, Next;
    InvShaped(p);
    StartFreeStep(p, t, task);
    StepKeepsInv(p, StartFree(t, task));
    var b, p0 := p.bucketOf[task], Step(p, StartFree(t, task));
    PushAlone(p0, t, brand);
    var p1 := Alone(p0, t, brand, 3);
    CountStep(p1, t, brand);
    AloneOne(p1, t, brand, 1);
    AloneOne(Next(p1, t, brand), t, brand, 1);
    AloneAdds(p0, t, brand, 3, 1);
    AloneKeepsInv(p0, t, brand, 4);
  }

  lemma FreeSteps(p: Pool, t: Tid, brand: Node, task: Node) returns (n: nat)
    requires Inv(p) && t in p.threads && p.threads[t].pc == Idle && task in p.place && p.place[task] == Owned
    ensures Shaped(p) && task in p.bucketOf
    ensures Freed(p, Alone(Step(p, StartFree(t, task)), t, brand, n), t, p.bucketOf[task], task)
  {
    hide Inv, Alone, Step;
    RetireSteps(p, t, brand, task);
    var b, p0 := p.bucketOf[task], Step(p, StartFree(t, task));
    var p1 := Alone(p0, t, brand, 4);
    if (p.sequence[b] + 1) % 32 == 0 {
      var m := ReclaimSteps(p1, t, brand);
      AloneAdds(p0, t, brand, 4, m);
      n := 4 + m;
      IdleAgain(p, t, TakeRetired(b, FromFree));
      var s := [task] + p.garbage[b];
      var k := Reverse(Protected(p.records, b, s));
      assert p.garbage[b := s][b := k] == p.garbage[b := k];
    } else {
      n := 4;
      assert p.threads[t := p.threads[t].(pc := Idle)] == p.threads;
    }
  }

  /**
   `Free` by a thread left alone retires the task, and every thirty-second retirement in a bucket goes through the
   bucket's retired tasks, this one included.
   */
  lemma FreeAlone(p: Pool, t: Tid, brand: Node, task: Node)
    requires Inv(p) && t in p.threads && p.threads[t].pc == Idle && task in p.place && p.place[task] == Owned
    ensures Shaped(p) && task in p.bucketOf
    ensures exists n :: Freed(p, Alone(Step(p, StartFree(t, task)), t, brand, n), t, p.bucketOf[task], task)
  {
    hide Inv, Alone, Step, Freed;
    var n := FreeSteps(p, t, brand, task);
  }

  // ---------------------------------------------------------------------------------------------
  // The verdict of a scan, whatever the other threads do meanwhile
  // ---------------------------------------------------------------------------------------------

  ghost function After(p: Pool, actions: seq<Action>, k: nat): (p': Pool)
    requires Shaped(p) && k <= |actions|
    ensures Shaped(p')
  {
    Run(p, actions[..k])
  }

  lemma AfterOne(p: Pool, actions: seq<Action>, k: nat)
    requires Shaped(p) && k < |actions|
    ensures After(p, actions, k + 1) == After(Step(p, actions[0]), actions[1..], k)
    ensures After(p, actions, 0) == p
  {
    hide Step;
    assert actions[..k + 1][1..] == actions[1..][..k];
  }

  ghost predicate Scanning(p: Pool, t: Tid, task: Node, b: Bucket) {
    && t in p.threads && (p.threads[t].pc.ScanBucket? || p.threads[t].pc.ScanNode?)
    && p.threads[t].pc.task == task && p.threads[t].pc.bucket == b
  }

  ghost predicate Pushing(p: Pool, t: Tid, task: Node, b: Bucket, target: Target) {
    && t in p.threads && p.threads[t].pc.Push?
    && p.threads[t].pc.task == task && p.threads[t].pc.bucket == b && p.threads[t].pc.target == target
  }

  /** Throughout `actions` thread `t` scans the records for one task, and then it turns to pushing the task. */
  ghost predicate ScanRun(p: Pool, actions: seq<Action>, t: Tid, task: Node, b: Bucket, target: Target) {
    && Shaped(p) && actions != []
    && (forall k :: 0 <= k < |actions| ==> Scanning(After(p, actions, k), t, task, b))
    && Pushing(After(p, actions, |actions|), t, task, b, target)
  }

  ghost predicate NamedAt(p: Pool, actions: seq<Action>, r: nat, task: Node, k: nat)
    requires Shaped(p) && k <= |actions|
  {
    r < |After(p, actions, k).records| && After(p, actions, k).records[r].node == Some(task)
  }

  ghost predicate OfBucketAt(p: Pool, actions: seq<Action>, r: nat, b: Bucket, k: nat)
    requires Shaped(p) && k <= |actions|
  {
    r < |After(p, actions, k).records| && After(p, actions, k).records[r].bucket == Some(b)
  }

  /** At some moment of the run the record named the task, having been one of the bucket at that moment or before. */
  ghost predicate Met(p: Pool, actions: seq<Action>, r: nat, task: Node, b: Bucket)
    requires Shaped(p)
  {
    exists i, k :: 0 <= i <= k <= |actions| && OfBucketAt(p, actions, r, b, i) && NamedAt(p, actions, r, task, k)
  }

  /** At every moment of the run the record was one of the bucket and named the task. */
  ghost predicate Throughout(p: Pool, actions: seq<Action>, r: nat, task: Node, b: Bucket)
    requires Shaped(p)
  {
    forall k :: 0 <= k <= |actions| ==> OfBucketAt(p, actions, r, b, k) && NamedAt(p, actions, r, task, k)
  }

  lemma OthersStand(p: Pool, a: Action, t: Tid)
    requires Shaped(p) && t in p.threads && p.threads[t].pc != Idle && !(a.Take? && a.t == t)
    ensures t in Step(p, a).threads && Step(p, a).threads[t].pc == p.threads[t].pc
  {
    hide StepAllocate, StepReclaim, StepPush;
    if a.Take? && a.t in p.threads {
      OtherAllocates(p, a.t, a.brand, t);
      OtherReclaims(p, a.t, t);
      if p.threads[a.t].pc.Push? { OtherPushes(p, a.t, a.spurious, t); }
    }
  }

  lemma OtherAllocates(p: Pool, x: Tid, brand: Node, t: Tid)
    requires Shaped(p) && x in p.threads && t in p.threads && x != t
    ensures t in StepAllocate(p, x, brand).threads && StepAllocate(p, x, brand).threads[t] == p.threads[t]
  {
    match p.threads[x].pc
    case LoadHead =>
    case ClearHazard =>
    case ReloadHead =>
    case Protect(_) =>
    case Validate(_) =>
    case LoadNext(_) =>
    case CasHead(_, _) =>
    case Unprotect(_) =>
    case Unlink(_) =>
    case _ =>
  }

  lemma OtherReclaims(p: Pool, x: Tid, t: Tid)
    requires Shaped(p) && x in p.threads && t in p.threads && x != t
    ensures t in StepReclaim(p, x).threads && StepReclaim(p, x).threads[t] == p.threads[t]
  {
    match p.threads[x].pc
    case Count(_) =>
    case TakeRetired(_, _) =>
    case Walk(_, _, _) =>
    case ScanBucket(_, _, _, _, _) =>
    case ScanNode(_, _, _, _, _) =>
    case _ =>
  }

  lemma OtherPushes(p: Pool, x: Tid, spurious: bool, t: Tid)
    requires Shaped(p) && x in p.threads && t in p.threads && x != t && p.threads[x].pc.Push?
    ensures t in StepPush(p, x, spurious).threads && StepPush(p, x, spurious).threads[t] == p.threads[t]
  {
    match p.threads[x].pc.stage
    case PushLoad =>
    case PushStore(_) =>
    case PushCas(_) =>
  }

  lemma ScanLooks(p: Pool, a: Action, t: Tid)
    requires Shaped(p) && t in p.threads && (p.threads[t].pc.ScanBucket? || p.threads[t].pc.ScanNode?)
    requires a.Take? && a.t == t
    ensures Step(p, a) == Next(p, t, 0)
  {
  }

  lemma ScanLeft(p: Pool, t: Tid)
    requires Inv(p) && t in p.threads && (p.threads[t].pc.ScanBucket? || p.threads[t].pc.ScanNode?)
    ensures p.threads[t].pc.left <= |p.records| && (p.threads[t].pc.ScanNode? ==> p.threads[t].pc.left > 0)
  {
    assert ThreadOk(p, t);
  }

  /** A step of the run: either the scan stands still, or it looks at one field of one record. */
  lemma ScanMove(p: Pool, a: Action, t: Tid, task: Node, b: Bucket)
    requires Inv(p) && Scanning(p, t, task, b)
    ensures Shaped(p) && p.threads[t].pc.left <= |p.records|
    ensures var p', pc := Step(p, a), p.threads[t].pc;
      && t in p'.threads
      && (|| p'.threads[t].pc == pc
          || (pc.ScanBucket? && pc.left == 0 && Pushing(p', t, task, b, ToFree))
          || (pc.ScanBucket? && pc.left > 0 && p.records[pc.left - 1].bucket == Some(b)
              && p'.threads[t].pc == ScanNode(task, b, pc.origin, pc.rest, pc.left))
          || (pc.ScanBucket? && pc.left > 0 && p.records[pc.left - 1].bucket != Some(b)
              && p'.threads[t].pc == ScanBucket(task, b, pc.origin, pc.rest, pc.left - 1))
          || (pc.ScanNode? && pc.left > 0 && p.records[pc.left - 1].node == Some(task)
              && Pushing(p', t, task, b, ToRetired))
          || (pc.ScanNode? && pc.left > 0 && p.records[pc.left - 1].node != Some(task)
              && p'.threads[t].pc == ScanBucket(task, b, pc.origin, pc.rest, pc.left - 1)))
  {
    hide Inv, Step, Next;
    InvShaped(p);
    ScanLeft(p, t);
    if a.Take? && a.t == t {
      ScanLooks(p, a, t);
      if p.threads[t].pc.ScanBucket? { ScanBucketStep(p, t, 0); } else { ScanNodeStep(p, t, 0); }
    } else {
      OthersStand(p, a, t);
    }
  }

  lemma MetLater(p: Pool, actions: seq<Action>, r: nat, task: Node, b: Bucket)
    requires Shaped(p) && actions != [] && Met(Step(p, actions[0]), actions[1..], r, task, b)
    ensures Met(p, actions, r, task, b)
  {
    hide After;
    var p1, as1 := Step(p, actions[0]), actions[1..];
    var i, k :| 0 <= i <= k <= |as1| && OfBucketAt(p1, as1, r, b, i) && NamedAt(p1, as1, r, task, k);
    AfterOne(p, actions, i);
    AfterOne(p, actions, k);
    assert OfBucketAt(p, actions, r, b, i + 1) && NamedAt(p, actions, r, task, k + 1);
  }

  lemma ThroughoutLater(p: Pool, actions: seq<Action>, r: nat, task: Node, b: Bucket)
    requires Shaped(p) && actions != [] && Throughout(p, actions, r, task, b)
    ensures Throughout(Step(p, actions[0]), actions[1..], r, task, b)
  {
    hide After, Step;
    var p1, as1 := Step(p, actions[0]), actions[1..];
    forall k | 0 <= k <= |as1| ensures OfBucketAt(p1, as1, r, b, k) && NamedAt(p1, as1, r, task, k) {
      AfterOne(p, actions, k);
      assert OfBucketAt(p, actions, r, b, k + 1) && NamedAt(p, actions, r, task, k + 1);
    }
  }

  lemma ScanRunLater(p: Pool, actions: seq<Action>, t: Tid, task: Node, b: Bucket, target: Target)
    requires ScanRun(p, actions, t, task, b, target)
    ensures actions != [] && Scanning(p, t, task, b)
    ensures if |actions| == 1 then Pushing(Step(p, actions[0]), t, task, b, target)
            else ScanRun(Step(p, actions[0]), actions[1..], t, task, b, target)
  {
    hide After, Step, Scanning, Pushing;
    var p1, as1 := Step(p, actions[0]), actions[1..];
    AfterOne(p, actions, 0);
    assert Scanning(After(p, actions, 0), t, task, b);
    AfterOne(p, actions, |actions| - 1);
    if |actions| == 1 {
      AfterNone(p1, as1);
    } else {
      forall k | 0 <= k < |as1| ensures Scanning(After(p1, as1, k), t, task, b) {
        AfterOne(p, actions, k);
        assert Scanning(After(p, actions, k + 1), t, task, b);
      }
    }
  }

  lemma AfterNone(p: Pool, actions: seq<Action>)
    requires Shaped(p)
    ensures After(p, actions, 0) == p
  {
  }

  /**
   A scan whose verdict is to retire the task again has met it in a record. `left` bounds the records still to be looked
   at; of the last one a thread at `ScanNode` has already seen the bucket.
   */
  lemma {:induction false} RetiredIsMet(p: Pool, actions: seq<Action>, t: Tid, task: Node, b: Bucket) returns (r: nat)
    requires Inv(p) && ScanRun(p, actions, t, task, b, ToRetired)
    ensures Scanning(p, t, task, b) && r < p.threads[t].pc.left
    ensures Met(p, actions, r, task, b) ||
      (p.threads[t].pc.ScanNode? && r + 1 == p.threads[t].pc.left
       && exists k :: 0 <= k <= |actions| && NamedAt(p, actions, r, task, k))
    decreases |actions|
  {
    hide Inv, Step, After, Met, ScanRun;
    InvShaped(p);
    ScanRunLater(p, actions, t, task, b, ToRetired);
    var a, p1, pc := actions[0], Step(p, actions[0]), p.threads[t].pc;
    ScanMove(p, a, t, task, b);
    AfterOne(p, actions, 0);
    if |actions| == 1 {
      r := pc.left - 1;
      assert NamedAt(p, actions, r, task, 0);
    } else {
      StepKeepsInv(p, a);
      r := RetiredIsMet(p1, actions[1..], t, task, b);
      if Met(p1, actions[1..], r, task, b) {
        MetLater(p, actions, r, task, b);
      } else {
        var k :| 0 <= k <= |actions[1..]| && NamedAt(p1, actions[1..], r, task, k);
        AfterOne(p, actions, k);
        assert NamedAt(p, actions, r, task, k + 1);
        if pc.ScanBucket? { MetNow(p, actions, r, task, b, k + 1); }
      }
    }
  }

  lemma MetNow(p: Pool, actions: seq<Action>, r: nat, task: Node, b: Bucket, k: nat)
    requires Shaped(p) && k <= |actions| && NamedAt(p, actions, r, task, k)
    requires r < |p.records| && p.records[r].bucket == Some(b)
    ensures Met(p, actions, r, task, b)
  {
    AfterNone(p, actions);
    hide After;
    assert OfBucketAt(p, actions, r, b, 0);
  }

  /** A record that names the task throughout the scan is never passed over. */
  lemma {:induction false} NamedIsRetired(p: Pool, actions: seq<Action>, t: Tid, task: Node, b: Bucket, r: nat,
                                         target: Target)
    requires Inv(p) && ScanRun(p, actions, t, task, b, target) && Throughout(p, actions, r, task, b)
    requires Scanning(p, t, task, b) && r < p.threads[t].pc.left
    ensures target == ToRetired
    decreases |actions|
  {
    hide Inv, Step, After, Throughout, ScanRun;
    InvShaped(p);
    ScanRunLater(p, actions, t, task, b, target);
    ScanMove(p, actions[0], t, task, b);
    ThroughoutStart(p, actions, r, task, b);
    if |actions| > 1 {
      StepKeepsInv(p, actions[0]);
      ThroughoutLater(p, actions, r, task, b);
      ScanRunLater(Step(p, actions[0]), actions[1..], t, task, b, target);
      NamedIsRetired(Step(p, actions[0]), actions[1..], t, task, b, r, target);
    }
  }

  lemma ThroughoutStart(p: Pool, actions: seq<Action>, r: nat, task: Node, b: Bucket)
    requires Shaped(p) && Throughout(p, actions, r, task, b)
    ensures r < |p.records| && p.records[r] == Record(Some(task), Some(b))
  {
    AfterNone(p, actions);
    hide After;
    assert OfBucketAt(p, actions, r, b, 0) && NamedAt(p, actions, r, task, 0);
  }

  /**
   Whatever the other threads do during a scan, its task is put back into circulation only if no record named it all
   along, and is retired again only if some record did name it at some moment.
   */
  lemma ScanVerdict(p: Pool, actions: seq<Action>, t: Tid, task: Node, b: Bucket, target: Target)
    requires Inv(p) && ScanRun(p, actions, t, task, b, target)
    requires Scanning(p, t, task, b) && p.threads[t].pc.ScanBucket? && p.threads[t].pc.left == |p.records|
    ensures target == ToFree ==> forall r :: 0 <= r < |p.records| ==> !Throughout(p, actions, r, task, b)
    ensures target == ToRetired ==> exists r :: 0 <= r < |p.records| && Met(p, actions, r, task, b)
  {
    hide Inv, ScanRun, Met, Throughout;
    InvShaped(p);
    if target == ToRetired {
      var r := RetiredIsMet(p, actions, t, task, b);
      assert Met(p, actions, r, task, b);
    } else {
      forall r | 0 <= r < |p.records| ensures !Throughout(p, actions, r, task, b) {
        if Throughout(p, actions, r, task, b) { NamedIsRetired(p, actions, t, task, b, r, target); }
      }
    }
  }
}
