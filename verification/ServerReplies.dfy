/**
 Why a request is told what it is told: which step hands out which reply to whom, what is kept in the cache, and that
 every reply goes back to the step that called for it.
 */
module ServerReplies {
  import opened Results
  import opened ServerRequests

  // ---------------------------------------------------------------------------------------------
  // Which step hands out what
  // ---------------------------------------------------------------------------------------------

  ghost function PendingKeys(records: map<string, Record>): (ks: set<string>) {
    set k | k in records && records[k].pending
  }

  /** The shard looks the key of request `rid` up. */
  ghost predicate LooksUp(s: Server, a: Action, rid: Rid) {
    && a.Lookup? && a.shard in s.busy && s.busy[a.shard] == Listed(rid)
    && rid < |s.requests| && s.requests[rid].key.Some?
  }

  /** The key is in use for another body. */
  ghost predicate Conflicts(s: Server, rid: Rid) {
    && rid < |s.requests| && s.requests[rid].key.Some? && s.requests[rid].key.value in s.records
    && s.records[s.requests[rid].key.value].body != s.requests[rid].body
  }

  /** The key is not in use, and as many records are pending as the cache can hold. */
  ghost predicate Crowded(s: Server, rid: Rid) {
    && rid < |s.requests| && s.requests[rid].key.Some? && s.requests[rid].key.value !in s.records
    && |PendingKeys(s.records)| >= s.capacity
  }

  /** The key has a settled record for the same body, with this response. */
  ghost predicate Cached(s: Server, rid: Rid, reply: Reply) {
    && rid < |s.requests| && s.requests[rid].key.Some? && s.requests[rid].key.value in s.records
    && var record := s.records[s.requests[rid].key.value];
       record.body == s.requests[rid].body && !record.pending && record.response == reply
  }

  /** The run for request `exec` ends while `rid` waits for it. */
  ghost predicate AwaitedBy(s: Server, exec: Rid, rid: Rid)
    requires exec < |s.requests|
  {
    match s.requests[exec].key
    case None => rid == exec
    case Some(key) => key in s.records && rid in s.records[key].waiters
  }

  /** The step hands this reply to this request. */
  ghost predicate Posts(s: Server, a: Action, t: Task) {
    match a
    case Lookup(_) =>
      && LooksUp(s, a, t.rid)
      && (|| (Conflicts(s, t.rid) && t.reply == Status(AlreadyExists))
          || (Crowded(s, t.rid) && t.reply == Status(ResourceExhausted))
          || Cached(s, t.rid, t.reply))
    case CompleteExec(exec, reply, cache) =>
      Ends(s, exec, reply, cache) && AwaitedBy(s, exec, t.rid) && t.reply == reply
    case Cancel(c, id) =>
      && c in s.conns && s.conns[c].live && s.conns[c].shard !in s.busy && id in s.conns[c].requests
      && s.conns[c].requests[id] == t.rid && t.rid < |s.requests| && t.reply == Status(CancelledCode)
    case _ => false
  }

  lemma {:induction false} PruneSize(records: map<string, Record>, keys: seq<string>, capacity: nat)
    requires forall k :: k in records && !records[k].pending ==> k in keys
    ensures |Prune(records, keys, capacity).0| >= capacity <==> |PendingKeys(records)| >= capacity
    decreases |keys|
  {
    var r := Prune(records, keys, capacity).0;
    PruneOk(records, keys, capacity);
    assert PendingKeys(records) <= r.Keys;
    SubsetSize(PendingKeys(records), r.Keys);
    if |r| >= capacity { assert r.Keys == PendingKeys(records); }
  }

  lemma SettledListed(s: Server)
    requires Records(s)
    ensures forall k :: k in s.records && !s.records[k].pending ==> k in s.completedKeys
  {
    forall k | k in s.records && !s.records[k].pending ensures k in s.completedKeys { assert RecordOk(s, k); }
  }

  lemma LookupPosts(s: Server, shard: nat, t: Task)
    requires Inv(s) && shard in s.busy && s.busy[shard].Listed? && s.busy[shard].rid < |s.requests|
    requires s.requests[s.busy[shard].rid].key.Some?
    ensures t in StepLookup(s, shard).posted <==> t in s.posted || Posts(s, Lookup(shard), t)
  {
    hide Known, Counted, Stages, Conns, Records, Runs, Members, Replies, Prune, PendingKeys, StepLookup;
    SettledListed(s);
    PruneSize(s.records, s.completedKeys, s.capacity);
    LookupHands(s, shard);
  }

  lemma LookupHands(s: Server, shard: nat)
    requires shard in s.busy && s.busy[shard].Listed? && s.busy[shard].rid < |s.requests|
    requires s.requests[s.busy[shard].rid].key.Some?
    ensures var rid := s.busy[shard].rid;
      var r, key := s.requests[rid], s.requests[rid].key.value;
      StepLookup(s, shard).posted == s.posted +
      if key in s.records then
        if s.records[key].body != r.body then {Task(rid, Status(AlreadyExists))}
        else if s.records[key].pending then {}
        else {Task(rid, s.records[key].response)}
      else if |Prune(s.records, s.completedKeys, s.capacity).0| >= s.capacity
      then {Task(rid, Status(ResourceExhausted))} else {}
  {
    hide Prune;
    assert s.posted + {} == s.posted;
  }

  lemma ExecPosts(s: Server, exec: Rid, reply: Reply, cache: bool, t: Task)
    requires exec < |s.requests|
    ensures t in StepExec(s, exec, reply, cache).posted <==>
      t in s.posted || (AwaitedBy(s, exec, t.rid) && t.reply == reply)
  {
    hide Prune;
    if s.requests[exec].key.Some? && s.requests[exec].key.value in s.records {
      TasksAre(s.records[s.requests[exec].key.value].waiters, reply, t);
    }
  }

  lemma TasksAre(waiters: seq<Rid>, reply: Reply, t: Task)
    ensures t in Tasks(waiters, reply) <==> t.rid in waiters && t.reply == reply
  {
    if t.rid in waiters && t.reply == reply { assert t == Task(t.rid, reply); }
  }

  /** The step takes the reply to its request. */
  ghost predicate Takes(s: Server, a: Action, t: Task) {
    a.Finish? && a.task == t && t in s.posted && t.rid < |s.requests| && OwnerFree(s, t.rid)
  }

  /** Exactly the steps that call for a reply hand it out, and it stays until it is taken to its request. */
  lemma PostsExactly(s: Server, a: Action, t: Task)
    requires Inv(s)
    ensures t in Step(s, a).posted <==> (t in s.posted && !Takes(s, a, t)) || Posts(s, a, t)
  {
    hide Inv, StepLookup, StepExec, Purge, PendingKeys;
    match a
    case Lookup(shard) =>
      if shard in s.busy && s.busy[shard].Listed? && s.busy[shard].rid < |s.requests|
         && s.requests[s.busy[shard].rid].key.Some? {
        LookupPosts(s, shard, t);
      }
    case CompleteExec(exec, reply, cache) => if exec < |s.requests| { ExecPosts(s, exec, reply, cache, t); }
    case _ =>
  }

  /** A reply is sent when it is taken to an unfinished request of an open connection; a late one is said to be late. */
  lemma SendsExactly(s: Server, a: Action)
    ensures Step(s, a).sent == s.sent +
      if a.Finish? && Takes(s, a, a.task) && a.task.rid in s.live && s.requests[a.task.rid].conn in s.conns
         && s.conns[s.requests[a.task.rid].conn].live
      then [Task(a.task.rid, if a.late then Status(DeadlineExceeded) else a.task.reply)] else []
  {
    hide Purge, StepLookup, StepExec, StepAdd, StepFinish, Ends;
    match a
    case Lookup(shard) =>
      if shard in s.busy && s.busy[shard].Listed? && s.busy[shard].rid < |s.requests|
         && s.requests[s.busy[shard].rid].key.Some? {
        LookupSends(s, shard);
      }
    case CompleteExec(exec, reply, cache) =>
      if Ends(s, exec, reply, cache) {
        EndsKnown(s, exec, reply, cache);
        ExecSends(s, exec, reply, cache);
      }
    case AddRequest(shard) =>
      if shard in s.busy && s.busy[shard].Acquired? && s.busy[shard].rid < |s.requests| { AddSends(s, shard); }
    case Finish(task, late) => if task.rid < |s.requests| { FinishSends(s, task, late); }
    case _ =>
  }

  lemma LookupSends(s: Server, shard: nat)
    requires shard in s.busy && s.busy[shard].Listed? && s.busy[shard].rid < |s.requests|
    requires s.requests[s.busy[shard].rid].key.Some?
    ensures StepLookup(s, shard).sent == s.sent
  {
    hide Prune;
  }

  lemma ExecSends(s: Server, exec: Rid, reply: Reply, cache: bool)
    requires exec < |s.requests|
    ensures StepExec(s, exec, reply, cache).sent == s.sent
  {
    hide Prune, Tasks;
  }

  lemma AddSends(s: Server, shard: nat)
    requires shard in s.busy && s.busy[shard].Acquired? && s.busy[shard].rid < |s.requests|
    ensures StepAdd(s, shard).sent == s.sent
  {
  }

  lemma FinishSends(s: Server, task: Task, late: bool)
    requires task.rid < |s.requests|
    ensures StepFinish(s, task, late).sent == s.sent +
      if task.rid in s.live && s.requests[task.rid].conn in s.conns && s.conns[s.requests[task.rid].conn].live
      then [Task(task.rid, if late then Status(DeadlineExceeded) else task.reply)] else []
  {
  }

  // ---------------------------------------------------------------------------------------------
  // What the cache holds
  // ---------------------------------------------------------------------------------------------

  /** A request for a key and body that is being worked on waits with the others. */
  lemma DuplicateWaits(s: Server, a: Action, rid: Rid)
    requires LooksUp(s, a, rid) && s.requests[rid].key.value in s.records
    requires s.records[s.requests[rid].key.value].body == s.requests[rid].body
    requires s.records[s.requests[rid].key.value].pending
    ensures var key, s' := s.requests[rid].key.value, Step(s, a);
      && s'.records == s.records[key := s.records[key].(waiters := s.records[key].waiters + [rid])]
      && s'.executing == s.executing
  {
  }

  /** The first request for a key starts a run and a record of its body, if the cache can hold another. */
  lemma FirstLeads(s: Server, a: Action, rid: Rid)
    requires Inv(s) && LooksUp(s, a, rid) && s.requests[rid].key.value !in s.records
    ensures var key, s' := s.requests[rid].key.value, Step(s, a);
      if |PendingKeys(s.records)| < s.capacity then
        && rid in s'.executing && key in s'.records && s'.records[key].pending
        && s'.records[key].body == s.requests[rid].body && s'.records[key].waiters == [rid]
      else s'.executing == s.executing && key !in s'.records
  {
    hide Known, Counted, Stages, Conns, Records, Runs, Members, Replies, Prune, PendingKeys;
    SettledListed(s);
    PruneSize(s.records, s.completedKeys, s.capacity);
  }

  /** The end of a run settles the record under its key with the run's reply, or removes it if the run failed. */
  lemma EndSettles(s: Server, a: Action, key: string)
    requires a.CompleteExec? && Ends(s, a.rid, a.reply, a.cache) && s.requests[a.rid].key == Some(key)
    requires key in s.records
    ensures var s' := Step(s, a);
      && (!a.cache ==> s'.records == s.records - {key})
      && (a.cache && key in s'.records ==>
            && !s'.records[key].pending && s'.records[key].response == a.reply
            && s'.records[key].body == s.records[key].body)
      && (a.cache && |s.records| < s.capacity ==> key in s'.records)
  {
    if a.cache {
      var record := s.records[key].(pending := false, waiters := [], response := a.reply);
      assert s.records[key := record].Keys == s.records.Keys;
      assert |s.records[key := record]| == |s.records[key := record].Keys| && |s.records| == |s.records.Keys|;
    }
  }

  /** The run whose reply the record holds. */
  ghost predicate Settles(s: Server, a: Action, key: string, reply: Reply) {
    && a.CompleteExec? && a.cache && a.reply == reply && Ends(s, a.rid, a.reply, a.cache)
    && s.requests[a.rid].key == Some(key)
  }

  /** A settled record of `s'` that was settled before, with the same response. */
  ghost predicate WasSettled(s: Server, s': Server, key: string)
    requires key in s'.records
  {
    key in s.records && !s.records[key].pending && s.records[key].response == s'.records[key].response
  }

  lemma LookupSettles(s: Server, shard: nat, key: string)
    requires shard in s.busy && s.busy[shard].Listed? && s.busy[shard].rid < |s.requests|
    requires s.requests[s.busy[shard].rid].key.Some?
    requires key in StepLookup(s, shard).records && !StepLookup(s, shard).records[key].pending
    ensures WasSettled(s, StepLookup(s, shard), key)
  {
    hide Prune;
  }

  lemma PurgeSettles(s: Server, rid: Rid, key: string)
    requires rid < |s.requests| && key in Purge(s, rid).records && !Purge(s, rid).records[key].pending
    ensures WasSettled(s, Purge(s, rid), key)
  {
    hide Remove;
  }

  lemma ExecSettles(s: Server, exec: Rid, reply: Reply, cache: bool, key: string)
    requires exec < |s.requests|
    requires key in StepExec(s, exec, reply, cache).records && !StepExec(s, exec, reply, cache).records[key].pending
    ensures WasSettled(s, StepExec(s, exec, reply, cache), key)
            || (cache && s.requests[exec].key == Some(key)
                && StepExec(s, exec, reply, cache).records[key].response == reply)
  {
    hide Prune, Tasks;
  }

  lemma OnlyEndsSettle(s: Server, a: Action, key: string)
    requires key in Step(s, a).records && !Step(s, a).records[key].pending
    ensures WasSettled(s, Step(s, a), key) || Settles(s, a, key, Step(s, a).records[key].response)
  {
    hide StepLookup, StepExec, StepAdd, StepFinish, Purge, Ends;
    match a
    case CompleteExec(exec, reply, cache) =>
      if Ends(s, exec, reply, cache) {
        EndsKnown(s, exec, reply, cache);
        ExecSettles(s, exec, reply, cache, key);
      }
    case Lookup(shard) =>
      if shard in s.busy && s.busy[shard].Listed? && s.busy[shard].rid < |s.requests|
         && s.requests[s.busy[shard].rid].key.Some? {
        LookupSettles(s, shard, key);
      }
    case Cancel(c, id) =>
      if Free(s, c) && id in s.conns[c].requests && s.conns[c].requests[id] < |s.requests| {
        PurgeSettles(s, s.conns[c].requests[id], key);
      }
    case AbandonPurge(rid) =>
      if rid in s.purging && rid < |s.requests| { PurgeSettles(s.(purging := s.purging - {rid}), rid, key); }
    case AddRequest(shard) =>
      if shard in s.busy && s.busy[shard].Acquired? && s.busy[shard].rid < |s.requests| { AddSettles(s, shard); }
    case Finish(task, late) => if task.rid < |s.requests| { FinishSettles(s, task, late); }
    case _ =>
  }

  lemma AddSettles(s: Server, shard: nat)
    requires shard in s.busy && s.busy[shard].Acquired? && s.busy[shard].rid < |s.requests|
    ensures StepAdd(s, shard).records == s.records
  {
  }

  lemma FinishSettles(s: Server, task: Task, late: bool)
    requires task.rid < |s.requests|
    ensures StepFinish(s, task, late).records == s.records
  {
  }

  lemma EndsKnown(s: Server, exec: Rid, reply: Reply, cache: bool)
    requires Ends(s, exec, reply, cache)
    ensures exec < |s.requests|
  {
  }

  // ---------------------------------------------------------------------------------------------
  // Over whole runs
  // ---------------------------------------------------------------------------------------------

  datatype Setup = Setup(maxInflight: nat, maxPerConn: nat, capacity: nat)

  ghost function At(setup: Setup, actions: seq<Action>, k: nat): (s: Server)
    requires k <= |actions|
  {
    Run(Initial(setup.maxInflight, setup.maxPerConn, setup.capacity), actions[..k])
  }

  lemma AtNext(setup: Setup, actions: seq<Action>, k: nat)
    requires k < |actions|
    ensures At(setup, actions, k + 1) == Step(At(setup, actions, k), actions[k])
  {
    hide Step;
    assert actions[..k + 1][..k] == actions[..k];
  }

  lemma AtInv(setup: Setup, actions: seq<Action>, k: nat)
    requires k <= |actions|
    ensures Inv(At(setup, actions, k))
  {
    hide Inv;
    InitialInv(setup.maxInflight, setup.maxPerConn, setup.capacity);
    RunKeepsInv(Initial(setup.maxInflight, setup.maxPerConn, setup.capacity), actions[..k]);
  }

  /** Step `j` is a reason to tell request `rid` this. */
  ghost predicate Justifies(s: Server, a: Action, rid: Rid, reply: Reply) {
    match reply
    case Answered(exec) => a == CompleteExec(exec, reply, true) && Ends(s, exec, reply, true)
    case Failed(exec, _) => a == CompleteExec(exec, reply, false) && Ends(s, exec, reply, false)
    case Status(AlreadyExists) => LooksUp(s, a, rid) && Conflicts(s, rid)
    case Status(ResourceExhausted) => LooksUp(s, a, rid) && Crowded(s, rid)
    case Status(CancelledCode) => rid < |s.requests| && a == Cancel(s.requests[rid].conn, s.requests[rid].id)
    case Status(DeadlineExceeded) => a.Finish? && a.task.rid == rid && a.late
    case _ => false
  }

  ghost predicate Justified(setup: Setup, actions: seq<Action>, k: nat, rid: Rid, reply: Reply)
    requires k <= |actions|
  {
    exists j :: 0 <= j < k && Justifies(At(setup, actions, j), actions[j], rid, reply)
  }

  ghost predicate AllJustified(setup: Setup, actions: seq<Action>, k: nat)
    requires k <= |actions|
  {
    var s := At(setup, actions, k);
    && (forall t :: t in s.posted ==> Justified(setup, actions, k, t.rid, t.reply))
    && (forall i :: 0 <= i < |s.sent| ==> Justified(setup, actions, k, s.sent[i].rid, s.sent[i].reply))
    && (forall key :: key in s.records && !s.records[key].pending ==>
          !s.records[key].response.Status? && Justified(setup, actions, k, 0, s.records[key].response))
  }

  lemma JustifiedLater(setup: Setup, actions: seq<Action>, k: nat, rid: Rid, reply: Reply)
    requires k < |actions|
    ensures Justified(setup, actions, k, rid, reply) ==> Justified(setup, actions, k + 1, rid, reply)
    ensures Justifies(At(setup, actions, k), actions[k], rid, reply) ==> Justified(setup, actions, k + 1, rid, reply)
    ensures !reply.Status? && Justified(setup, actions, k, 0, reply) ==> Justified(setup, actions, k, rid, reply)
  {
    hide At, Ends, LooksUp, Conflicts, Crowded;
    if !reply.Status? && Justified(setup, actions, k, 0, reply) {
      var j :| 0 <= j < k && Justifies(At(setup, actions, j), actions[j], 0, reply);
      assert Justifies(At(setup, actions, j), actions[j], rid, reply);
    }
  }

  /** What a step hands out is justified by it, or comes from the cache. */
  lemma PostJustified(s: Server, a: Action, t: Task)
    requires Inv(s) && Posts(s, a, t)
    ensures Justifies(s, a, t.rid, t.reply) || Cached(s, t.rid, t.reply)
  {
    hide Known, Counted, Stages, Records, Runs, Members, Replies, PendingKeys;
    match a
    case Cancel(c, id) => assert ConnOk(s, c);
    case _ =>
  }

  lemma PostedJustified(setup: Setup, actions: seq<Action>, k: nat, t: Task)
    requires k < |actions| && AllJustified(setup, actions, k) && t in At(setup, actions, k + 1).posted
    ensures Justified(setup, actions, k + 1, t.rid, t.reply)
  {
    hide Inv, Step, At, Justifies, Posts, Justified, Takes, Conflicts, Crowded;
    var s := At(setup, actions, k);
    AtInv(setup, actions, k);
    AtNext(setup, actions, k);
    PostsExactly(s, actions[k], t);
    JustifiedLater(setup, actions, k, t.rid, t.reply);
    if Posts(s, actions[k], t) { PostJustified(s, actions[k], t); }
  }

  lemma SentJustified(setup: Setup, actions: seq<Action>, k: nat, i: nat)
    requires k < |actions| && AllJustified(setup, actions, k) && i < |At(setup, actions, k + 1).sent|
    ensures var t := At(setup, actions, k + 1).sent[i]; Justified(setup, actions, k + 1, t.rid, t.reply)
  {
    hide Inv, Step, At, Justified, OwnerFree;
    var s, t := At(setup, actions, k), At(setup, actions, k + 1).sent[i];
    AtNext(setup, actions, k);
    SendsExactly(s, actions[k]);
    JustifiedLater(setup, actions, k, t.rid, t.reply);
    if i >= |s.sent| { assert t.reply == Status(DeadlineExceeded) || t == actions[k].task; }
  }

  lemma CacheJustified(setup: Setup, actions: seq<Action>, k: nat, key: string)
    requires k < |actions| && AllJustified(setup, actions, k)
    requires key in At(setup, actions, k + 1).records && !At(setup, actions, k + 1).records[key].pending
    ensures var reply := At(setup, actions, k + 1).records[key].response;
      !reply.Status? && Justified(setup, actions, k + 1, 0, reply)
  {
    hide Inv, Step, At, Justified;
    var s, reply := At(setup, actions, k), At(setup, actions, k + 1).records[key].response;
    AtInv(setup, actions, k);
    AtNext(setup, actions, k);
    OnlyEndsSettle(s, actions[k], key);
    JustifiedLater(setup, actions, k, 0, reply);
  }

  /**
   Over every run and interleaving, every reply handed out or sent is justified by an earlier step: the end of the run
   it comes from, a look-up that met a record of another body or a cache full of pending records, a cancellation of that
   very request, or its lateness. Nothing else is ever sent.
   */
  lemma {:induction false} RepliesAreJustified(setup: Setup, actions: seq<Action>, k: nat)
    requires k <= |actions|
    ensures AllJustified(setup, actions, k)
  {
    if k == 0 {
      assert actions[..0] == [];
    } else {
      hide At, Justified;
      RepliesAreJustified(setup, actions, k - 1);
      var s := At(setup, actions, k);
      forall t | t in s.posted ensures Justified(setup, actions, k, t.rid, t.reply) {
        PostedJustified(setup, actions, k - 1, t);
      }
      forall i | 0 <= i < |s.sent| ensures Justified(setup, actions, k, s.sent[i].rid, s.sent[i].reply) {
        SentJustified(setup, actions, k - 1, i);
      }
      forall key | key in s.records && !s.records[key].pending
        ensures !s.records[key].response.Status? && Justified(setup, actions, k, 0, s.records[key].response)
      {
        CacheJustified(setup, actions, k - 1, key);
      }
    }
  }

  /** A request is admitted exactly if its open connection has room and no unfinished request under the same id. */
  lemma AdmitsExactly(s: Server, shard: nat)
    requires Inv(s) && shard in s.busy && s.busy[shard].Acquired? && s.busy[shard].rid < |s.requests|
    ensures var s', rid := Step(s, AddRequest(shard)), s.busy[shard].rid;
      var r := s.requests[rid];
      && r.conn in s.conns && rid !in s'.acquired
      && (rid in s'.live <==>
            && s.conns[r.conn].live && |s.conns[r.conn].requests| < s.maxPerConn
            && forall x :: x in s.live && x < |s.requests| ==>
                 !(s.requests[x].conn == r.conn && s.requests[x].id == r.id))
      && s'.inflight == if rid in s'.live then s.inflight else s.inflight - 1
  {
    hide Counted, Records, Runs, Members, Replies;
    assert StageOk(s, shard);
    var rid := s.busy[shard].rid;
    var r := s.requests[rid];
    assert ConnOk(s, r.conn);
    if r.id in s.conns[r.conn].requests {
      var x := s.conns[r.conn].requests[r.id];
      assert x in s.live && s.requests[x].conn == r.conn && s.requests[x].id == r.id;
    } else {
      forall x | x in s.live && x < |s.requests| ensures !(s.requests[x].conn == r.conn && s.requests[x].id == r.id) {
        assert LiveOk(s, x);
      }
    }
  }

  /** A request of an open connection is taken up as it is exactly if fewer are in flight than the limit. */
  lemma AcquiresExactly(s: Server, c: nat, id: nat, key: Option<string>, body: string)
    requires Inv(s) && c in s.conns && s.conns[c].live && s.conns[c].shard !in s.busy
    ensures var s', n := Step(s, Acquire(c, id, key, body)), |s.live| + |s.acquired| + s.inline;
      && (n < s.maxInflight ==>
            s'.requests == s.requests + [Request(c, id, key, body)] && s'.acquired == s.acquired + {|s.requests|})
      && (n >= s.maxInflight ==> s' == s)
  {
    hide Known, Stages, Conns, Records, Runs, Members, Replies;
  }
}
