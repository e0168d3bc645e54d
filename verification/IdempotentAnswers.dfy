/**
 Which response an idempotent request gets. A handler run resolves whatever record is under its key when it ends, so it
 can answer for another body than its own; here is exactly when.
 */
module IdempotentAnswers {
  import opened Results
  import opened ServerRequests

  // ---------------------------------------------------------------------------------------------
  // Runs that keep their records
  // ---------------------------------------------------------------------------------------------

  /** A cancellation or an abandoned request that drops a pending record because nobody waits for it any more. */
  ghost predicate Empties(s: Server, a: Action) {
    exists k :: k in s.records && s.records[k].pending && k !in Step(s, a).records && (a.Cancel? || a.AbandonPurge?)
  }

  /** Runs lose their records only to such steps: without them, none ever does. */
  lemma TaintNeedsEmptying(s: Server, a: Action)
    requires Reachable(s) && s.tainted == {} && !Empties(s, a)
    ensures Step(s, a).tainted == {}
  {
    ReachableInv(s);
    hide Inv, StepAdd, StepLookup, StepExec, StepFinish, Purge;
    match a
    case CompleteExec(rid, reply, cache) =>
      if Ends(s, rid, reply, cache) { ExecTaints(s, rid, reply, cache); }
    case Cancel(c, id) =>
      if Free(s, c) && id in s.conns[c].requests && s.conns[c].requests[id] < |s.requests| {
        PurgeTaints(s, s.conns[c].requests[id]);
      }
    case AbandonPurge(rid) =>
      if rid in s.purging && rid < |s.requests| { PurgeTaints(s.(purging := s.purging - {rid}), rid); }
    case _ =>
  }

  lemma ExecTaints(s: Server, rid: Rid, reply: Reply, cache: bool)
    requires Inv(s) && s.tainted == {} && rid in s.executing && rid < |s.requests|
    ensures StepExec(s, rid, reply, cache).tainted == {}
  {
    hide Known, Counted, Stages, Conns, Records, Members, Replies, Prune;
    assert RunOk(s, rid);
  }

  lemma PurgeTaints(s: Server, rid: Rid)
    requires rid < |s.requests|
    ensures Purge(s, rid).tainted != s.tainted ==>
      var key := s.requests[rid].key;
      key.Some? && key.value in s.records && s.records[key.value].pending && key.value !in Purge(s, rid).records
  {
  }

  /** No step of the run drops a pending record for want of waiters. */
  ghost predicate Gentle(s: Server, actions: seq<Action>) {
    forall i :: 0 <= i < |actions| ==> !Empties(Run(s, actions[..i]), actions[i])
  }

  lemma {:induction false} GentleRun(limit: nat, perConn: nat, capacity: nat, actions: seq<Action>)
    requires Gentle(Initial(limit, perConn, capacity), actions)
    ensures Run(Initial(limit, perConn, capacity), actions).tainted == {}
    decreases |actions|
  {
    var s := Initial(limit, perConn, capacity);
    if actions != [] {
      hide Step, Empties;
      var n := |actions| - 1;
      var before := actions[..n];
      forall i | 0 <= i < n ensures !Empties(Run(s, before[..i]), before[i]) {
        assert before[..i] == actions[..i] && before[i] == actions[i];
      }
      GentleRun(limit, perConn, capacity, before);
      assert !Empties(Run(s, actions[..n]), actions[n]);
      assert Reachable(Run(s, before));
      TaintNeedsEmptying(Run(s, before), actions[n]);
    }
  }

  /** Without such steps, runs for one key never overlap. */
  lemma RunsDoNotOverlap(limit: nat, perConn: nat, capacity: nat, actions: seq<Action>, e: Rid, f: Rid)
    requires Gentle(Initial(limit, perConn, capacity), actions)
    requires var s := Run(Initial(limit, perConn, capacity), actions);
      && e in s.executing && f in s.executing && e < |s.requests| && f < |s.requests|
      && s.requests[e].key.Some? && s.requests[e].key == s.requests[f].key
    ensures e == f
  {
    var s := Run(Initial(limit, perConn, capacity), actions);
    GentleRun(limit, perConn, capacity, actions);
    assert Reachable(s);
    ReachableInv(s);
    assert RunOk(s, e) && RunOk(s, f);
  }

  // ---------------------------------------------------------------------------------------------
  // The response for a request's own body
  // ---------------------------------------------------------------------------------------------

  /** The response or failure, if it is one of a run, is that of a run for this body. */
  ghost predicate Right(s: Server, body: string, reply: Reply) {
    !reply.Status? ==> reply.exec < |s.requests| && s.requests[reply.exec].body == body
  }

  ghost predicate TaskRight(s: Server, t: Task) {
    t.rid < |s.requests| && Right(s, s.requests[t.rid].body, t.reply)
  }

  ghost predicate RecordRight(s: Server, k: string)
    requires k in s.records
  {
    !s.records[k].pending ==> Right(s, s.records[k].body, s.records[k].response)
  }

  /** Every response stored, handed over or sent is for the body it was asked for. */
  ghost predicate AllRight(s: Server) {
    && (forall k :: k in s.records ==> RecordRight(s, k))
    && (forall t :: t in s.posted ==> TaskRight(s, t))
    && (forall i :: 0 <= i < |s.sent| ==> TaskRight(s, s.sent[i]))
  }

  /** The key of the oldest settled record: what a full cache drops next. */
  function Oldest(records: map<string, Record>, keys: seq<string>): (k: Option<string>) {
    if keys == [] then None
    else if keys[0] in records && !records[keys[0]].pending then Some(keys[0])
    else Oldest(records, keys[1..])
  }

  /** Pruning a cache that is just full drops its oldest settled record and nothing else. */
  lemma {:induction false} PrunesOldest(records: map<string, Record>, keys: seq<string>, capacity: nat)
    requires |records| <= capacity && capacity > 0
    ensures var kept := Prune(records, keys, capacity).0;
      var oldest := Oldest(records, keys);
      kept == if |records| == capacity && oldest.Some? then records - {oldest.value} else records
  {
    if |records| == capacity && keys != [] {
      if keys[0] in records && !records[keys[0]].pending {
        var rest := records - {keys[0]};
        assert rest.Keys == records.Keys - {keys[0]} && |rest| == |rest.Keys| && |records| == |records.Keys|;
        assert Prune(rest, keys[1..], capacity).0 == rest;
      } else {
        PrunesOldest(records, keys[1..], capacity);
      }
    }
  }

  /**
   The condition on one completion: the record under the run's key has the run's own body, or it is settled and dropped
   at once, by a failure always and by a response if the cache is full and this is its oldest.
   */
  predicate Fits(s: Server, rid: Rid, key: string, cache: bool)
    requires rid < |s.requests| && key in s.records
  {
    || s.records[key].body == s.requests[rid].body
    || (!s.records[key].pending && (cache ==> Drops(s, key)))
  }

  /** The cache is full, and the record under `key` is the next to go. */
  predicate Drops(s: Server, key: string) {
    |s.records| == s.capacity && Oldest(s.records, s.completedKeys) == Some(key)
  }

  /** The step is not a completion of a keyed run that finds a record of another body. */
  predicate Clean(s: Server, a: Action) {
    a.CompleteExec? && Ends(s, a.rid, a.reply, a.cache) ==>
      var key := s.requests[a.rid].key;
      key.Some? && key.value in s.records ==> Fits(s, a.rid, key.value, a.cache)
  }

  lemma {:induction false} OldestAppended(records: map<string, Record>, keys: seq<string>, key: string)
    requires key in records && (records[key].pending ==> Oldest(records, keys) == None || key !in keys)
    ensures Oldest(records, keys).Some? ==> Oldest(records, keys + [key]) == Oldest(records, keys)
    ensures Oldest(records, keys).None? && !records[key].pending ==> Oldest(records, keys + [key]) == Some(key)
    decreases |keys|
  {
    if keys != [] {
      assert (keys + [key])[1..] == keys[1..] + [key];
      if !(keys[0] in records && !records[keys[0]].pending) {
        OldestAppended(records, keys[1..], key);
      }
    } else {
      assert keys + [key] == [key];
    }
  }

  lemma {:induction false} OldestListed(records: map<string, Record>, keys: seq<string>, key: string)
    requires key in records && !records[key].pending && key in keys
    ensures Oldest(records, keys).Some?
    decreases |keys|
  {
    if !(keys[0] in records && !records[keys[0]].pending) {
      OldestListed(records, keys[1..], key);
    }
  }

  lemma {:induction false} OldestSameFlags(
    records: map<string, Record>, records': map<string, Record>, keys: seq<string>)
    requires records.Keys == records'.Keys && forall k :: k in records ==> records[k].pending == records'[k].pending
    ensures Oldest(records, keys) == Oldest(records', keys)
    decreases |keys|
  {
    if keys != [] {
      OldestSameFlags(records, records', keys[1..]);
    }
  }

  /** The records once the run has resolved the one under its key, before pruning. */
  function Resolved(s: Server, rid: Rid, key: string): (records: map<string, Record>)
    requires key in s.records
  {
    s.records[key := s.records[key].(pending := false, waiters := [], response := Answered(rid))]
  }

  /** Which record the pruning after a completion drops: a settled one only, and its own only if `Fits` says so. */
  lemma DropsOwn(s: Server, rid: Rid, key: string)
    requires Records(s) && key in s.records && !s.records[key].pending
    ensures key !in Prune(Resolved(s, rid, key), s.completedKeys + [key], s.capacity).0 <==> Drops(s, key)
  {
    var records := Resolved(s, rid, key);
    assert RecordOk(s, key);
    assert records.Keys == s.records.Keys && |records| == |records.Keys| && |s.records| == |s.records.Keys|;
    assert s.capacity > 0;
    OldestListed(s.records, s.completedKeys, key);
    OldestSameFlags(s.records, records, s.completedKeys);
    OldestAppended(records, s.completedKeys, key);
    PrunesOldest(records, s.completedKeys + [key], s.capacity);
  }

  ghost predicate SameAnswer(s: Server, s': Server, k: string)
    requires k in s'.records
  {
    && k in s.records && s'.records[k].body == s.records[k].body
    && s'.records[k].response == s.records[k].response && s'.records[k].pending == s.records[k].pending
  }

  /** What is stored, handed over and sent in `s'` was so in `s`, or is right. */
  lemma StaysRight(s: Server, s': Server)
    requires AllRight(s) && Grown(s, s')
    requires forall k :: k in s'.records ==> SameAnswer(s, s', k) || RecordRight(s', k)
    requires forall t :: t in s'.posted ==> t in s.posted || TaskRight(s', t)
    requires forall i :: 0 <= i < |s'.sent| ==> (i < |s.sent| && s'.sent[i] == s.sent[i]) || TaskRight(s', s'.sent[i])
    ensures AllRight(s')
  {
    forall k | k in s'.records ensures RecordRight(s', k) {
      if k in s.records { assert RecordRight(s, k); }
    }
    forall t | t in s'.posted ensures TaskRight(s', t) {
      if t in s.posted { assert TaskRight(s, t); }
    }
    forall i | 0 <= i < |s'.sent| ensures TaskRight(s', s'.sent[i]) {
      if i < |s.sent| { assert TaskRight(s, s.sent[i]); }
    }
  }

  lemma LookupRight(s: Server, shard: nat)
    requires Inv(s) && AllRight(s) && shard in s.busy && s.busy[shard].Listed? && s.busy[shard].rid < |s.requests|
    requires s.requests[s.busy[shard].rid].key.Some?
    ensures AllRight(StepLookup(s, shard))
  {
    hide Inv, Prune;
    var rid := s.busy[shard].rid;
    var key := s.requests[rid].key.value;
    if key in s.records { assert RecordRight(s, key); }
    StaysRight(s, StepLookup(s, shard));
  }

  lemma FinishRight(s: Server, task: Task, late: bool)
    requires AllRight(s) && task in s.posted && task.rid < |s.requests|
    ensures AllRight(StepFinish(s, task, late))
  {
    assert TaskRight(s, task);
    StaysRight(s, StepFinish(s, task, late));
  }

  lemma PurgeRight(s: Server, rid: Rid)
    requires AllRight(s) && rid < |s.requests|
    ensures AllRight(Purge(s, rid))
  {
    StaysRight(s, Purge(s, rid));
  }

  /** What the end of a keyed run does, seen record by record. */
  lemma EndFields(s: Server, rid: Rid, key: string, reply: Reply, cache: bool)
    requires Inv(s) && rid < |s.requests| && s.requests[rid].key == Some(key) && key in s.records
    requires Honest(rid, reply, cache)
    ensures var s' := StepExec(s, rid, reply, cache);
      && s'.posted == s.posted + Tasks(s.records[key].waiters, reply) && s'.sent == s.sent
      && s'.requests == s.requests && s.tainted <= s'.tainted
      && (forall k :: k in s'.records ==> k in s.records && s'.records[k] == Resolved(s, rid, key)[k])
      && (!cache ==> key !in s'.records)
      && (cache && !s.records[key].pending ==> (key !in s'.records <==> Drops(s, key)))
  {
    hide Prune, Known, Counted, Stages, Conns, Runs, Members, Replies, Drops;
    if !s.records[key].pending { DropsOwn(s, rid, key); }
  }

  lemma RunAndRecord(s: Server, rid: Rid, key: string)
    requires Inv(s) && rid in s.executing && rid < |s.requests| && s.requests[rid].key == Some(key) && key in s.records
    ensures RecordOk(s, key)
    ensures rid !in s.tainted ==> s.records[key].body == s.requests[rid].body
  {
    assert RecordOk(s, key) && RunOk(s, rid);
  }

  /**
   The end of a run, with a response or with a failure, keeps everything right if and only if the record under the run's
   key fits.
   */
  lemma ResolvesOwnBodyExactly(s: Server, rid: Rid, key: string, reply: Reply, cache: bool)
    requires Inv(s) && AllRight(s) && rid in s.executing && rid < |s.requests| && s.requests[rid].key == Some(key)
    requires key in s.records && Honest(rid, reply, cache)
    ensures AllRight(StepExec(s, rid, reply, cache)) <==> Fits(s, rid, key, cache)
    ensures rid !in s.tainted ==> s.records[key].body == s.requests[rid].body
  {
    hide Inv, StepExec, Drops;
    var s', record := StepExec(s, rid, reply, cache), s.records[key];
    EndFields(s, rid, key, reply, cache);
    RunAndRecord(s, rid, key);
    if Fits(s, rid, key, cache) {
      forall t | t in s'.posted && t !in s.posted ensures TaskRight(s', t) {
        assert WaiterOk(s, key, record.body, t.rid);
      }
      StaysRight(s, s');
    } else if record.pending {
      var w := record.waiters[0];
      assert WaiterOk(s, key, record.body, w);
      assert Task(w, reply) in s'.posted && !TaskRight(s', Task(w, reply));
    } else {
      assert key in s'.records && !RecordRight(s', key);
    }
  }

  lemma StepRight(s: Server, a: Action)
    requires Inv(s) && AllRight(s)
    ensures AllRight(Step(s, a)) <==> Clean(s, a)
  {
    hide Inv, AllRight, StepAdd, StepLookup, StepExec, StepFinish, Purge, Prune, Fits;
    match a
    case CompleteExec(rid, reply, cache) =>
      if Ends(s, rid, reply, cache) { ExecRight(s, rid, reply, cache); }
    case Lookup(shard) =>
      if shard in s.busy && s.busy[shard].Listed? && s.busy[shard].rid < |s.requests| &&
         s.requests[s.busy[shard].rid].key.Some? {
        LookupRight(s, shard);
      }
    case Finish(task, late) =>
      if task in s.posted && task.rid < |s.requests| { FinishRight(s, task, late); }
    case Cancel(c, id) => CancelRight(s, c, id);
    case AbandonPurge(rid) =>
      if rid in s.purging && rid < |s.requests| {
        QuietRight(s, s.(purging := s.purging - {rid}));
        PurgeRight(s.(purging := s.purging - {rid}), rid);
      }
    case AddRequest(shard) => AddRight(s, shard);
    case Acquire(c, id, key, body) => AcquireRight(s, c, id, key, body);
    case _ => QuietRight(s, Step(s, a));
  }

  /** Nothing is stored, handed over or sent. */
  lemma QuietRight(s: Server, s': Server)
    requires AllRight(s) && s'.requests == s.requests && s'.records == s.records && s'.posted == s.posted
    requires s'.sent == s.sent
    ensures AllRight(s')
  {
    forall k | k in s'.records ensures RecordRight(s', k) { assert RecordRight(s, k); }
    forall t | t in s'.posted ensures TaskRight(s', t) { assert TaskRight(s, t); }
    forall i | 0 <= i < |s'.sent| ensures TaskRight(s', s'.sent[i]) { assert TaskRight(s, s.sent[i]); }
  }

  lemma AddRight(s: Server, shard: nat)
    requires AllRight(s)
    ensures AllRight(Step(s, AddRequest(shard)))
  {
    hide AllRight;
    QuietRight(s, Step(s, AddRequest(shard)));
  }

  lemma AcquireRight(s: Server, c: nat, id: nat, key: Option<string>, body: string)
    requires AllRight(s)
    ensures AllRight(Step(s, Acquire(c, id, key, body)))
  {
    StaysRight(s, Step(s, Acquire(c, id, key, body)));
  }

  lemma CancelRight(s: Server, c: nat, id: nat)
    requires AllRight(s)
    ensures AllRight(Step(s, Cancel(c, id)))
  {
    if Free(s, c) && id in s.conns[c].requests && s.conns[c].requests[id] < |s.requests| {
      var rid := s.conns[c].requests[id];
      PurgeRight(s, rid);
      hide Purge;
      StaysRight(Purge(s, rid), Step(s, Cancel(c, id)));
    }
  }

  lemma ExecRight(s: Server, rid: Rid, reply: Reply, cache: bool)
    requires Inv(s) && AllRight(s) && Ends(s, rid, reply, cache)
    ensures AllRight(StepExec(s, rid, reply, cache)) <==> Clean(s, CompleteExec(rid, reply, cache))
  {
    hide Inv, Fits, FinishIdempotent;
    match s.requests[rid].key
    case None => StaysRight(s, StepExec(s, rid, reply, cache));
    case Some(key) =>
      if key in s.records {
        ResolvesOwnBodyExactly(s, rid, key, reply, cache);
      } else {
        MissingRight(s, rid, key, reply, cache);
      }
  }

  lemma MissingRight(s: Server, rid: Rid, key: string, reply: Reply, cache: bool)
    requires AllRight(s) && rid < |s.requests| && s.requests[rid].key == Some(key) && key !in s.records
    ensures AllRight(StepExec(s, rid, reply, cache))
  {
    StaysRight(s, StepExec(s, rid, reply, cache));
  }

  // ---------------------------------------------------------------------------------------------
  // Whole runs
  // ---------------------------------------------------------------------------------------------

  /** No completion of the run finds a record of another body that stays. */
  ghost predicate Careful(s: Server, actions: seq<Action>) {
    forall i :: 0 <= i < |actions| ==> Clean(Run(s, actions[..i]), actions[i])
  }

  /** Over a whole run, every response is for its own body at every moment if and only if the run is careful. */
  lemma {:induction false} OwnBodyExactly(limit: nat, perConn: nat, capacity: nat, actions: seq<Action>)
    ensures var s := Initial(limit, perConn, capacity);
      Careful(s, actions) <==> forall i :: 0 <= i <= |actions| ==> AllRight(Run(s, actions[..i]))
    decreases |actions|
  {
    var s := Initial(limit, perConn, capacity);
    if actions == [] {
      assert AllRight(s);
      assert forall i :: 0 <= i <= |actions| ==> actions[..i] == [];
    } else {
      hide Clean, AllRight, Step, Careful, Initial, Inv;
      var n := |actions| - 1;
      OwnBodyExactly(limit, perConn, capacity, actions[..n]);
      CarefulSplit(s, actions);
      RightSplit(s, actions);
      if forall i :: 0 <= i <= n ==> AllRight(Run(s, actions[..n][..i])) { RightLast(s, actions[..n]); }
      assert Inv(Run(s, actions[..n])) by { InitialInv(limit, perConn, capacity); RunKeepsInv(s, actions[..n]); }
      if AllRight(Run(s, actions[..n])) { StepRight(Run(s, actions[..n]), actions[n]); }
    }
  }

  lemma RightLast(s: Server, actions: seq<Action>)
    requires forall i :: 0 <= i <= |actions| ==> AllRight(Run(s, actions[..i]))
    ensures AllRight(Run(s, actions))
  {
    hide AllRight, Run;
    assert actions[..|actions|] == actions;
  }

  lemma RightSplit(s: Server, actions: seq<Action>)
    requires actions != []
    ensures var before := actions[..|actions| - 1];
      (forall i :: 0 <= i <= |actions| ==> AllRight(Run(s, actions[..i]))) <==>
      (forall i :: 0 <= i <= |before| ==> AllRight(Run(s, before[..i]))) && AllRight(Run(s, actions))
  {
    hide AllRight, Run;
    var before := actions[..|actions| - 1];
    forall i | 0 <= i <= |before| ensures before[..i] == actions[..i] { }
    assert actions[..|actions|] == actions;
    if (forall i :: 0 <= i <= |before| ==> AllRight(Run(s, before[..i]))) && AllRight(Run(s, actions)) {
      forall i | 0 <= i <= |actions| ensures AllRight(Run(s, actions[..i])) {
        if i <= |before| { assert AllRight(Run(s, before[..i])); }
      }
    }
    if forall i :: 0 <= i <= |actions| ==> AllRight(Run(s, actions[..i])) {
      forall i | 0 <= i <= |before| ensures AllRight(Run(s, before[..i])) {
        assert AllRight(Run(s, actions[..i]));
      }
      assert AllRight(Run(s, actions[..|actions|]));
    }
  }

  lemma CarefulSplit(s: Server, actions: seq<Action>)
    requires actions != []
    ensures var n := |actions| - 1;
      Careful(s, actions) <==> Careful(s, actions[..n]) && Clean(Run(s, actions[..n]), actions[n])
  {
    hide Clean, Run;
    var n := |actions| - 1;
    var before := actions[..n];
    forall i | 0 <= i < n ensures before[..i] == actions[..i] && before[i] == actions[i] { }
    if Careful(s, before) && Clean(Run(s, before), actions[n]) {
      forall i | 0 <= i < |actions| ensures Clean(Run(s, actions[..i]), actions[i]) {
        if i < n { assert Clean(Run(s, before[..i]), before[i]); }
      }
    }
    if Careful(s, actions) {
      forall i | 0 <= i < n ensures Clean(Run(s, before[..i]), before[i]) {
        assert Clean(Run(s, actions[..i]), actions[i]);
      }
      assert Clean(Run(s, actions[..n]), actions[n]);
    }
  }

  /**
   In a careful run, every request that is given the response or the failure of a run is given that of a run for its own
   key and body.
   */
  lemma OwnBodyAnswered(limit: nat, perConn: nat, capacity: nat, actions: seq<Action>, i: nat)
    requires Careful(Initial(limit, perConn, capacity), actions)
    requires var s := Run(Initial(limit, perConn, capacity), actions); i < |s.sent| && !s.sent[i].reply.Status?
    ensures var s := Run(Initial(limit, perConn, capacity), actions);
      var rid, e := s.sent[i].rid, s.sent[i].reply.exec;
      && rid < |s.requests| && e < |s.requests|
      && s.requests[e].key == s.requests[rid].key && s.requests[e].body == s.requests[rid].body
  {
    var s := Run(Initial(limit, perConn, capacity), actions);
    OwnBodyExactly(limit, perConn, capacity, actions);
    assert actions[..|actions|] == actions && AllRight(s) && TaskRight(s, s.sent[i]);
    assert Reachable(s);
    AnswersMatch(s, i);
  }

  /** A run in which no cancel or abandon empties a pending record is careful. */
  lemma GentleIsCareful(limit: nat, perConn: nat, capacity: nat, actions: seq<Action>)
    requires Gentle(Initial(limit, perConn, capacity), actions)
    ensures Careful(Initial(limit, perConn, capacity), actions)
  {
    var s := Initial(limit, perConn, capacity);
    forall i | 0 <= i < |actions| ensures Clean(Run(s, actions[..i]), actions[i]) {
      var before := actions[..i];
      assert Gentle(s, before) by {
        forall j | 0 <= j < i ensures !Empties(Run(s, before[..j]), before[j]) {
          assert before[..j] == actions[..j] && before[j] == actions[j];
        }
      }
      GentleRun(limit, perConn, capacity, before);
      InitialInv(limit, perConn, capacity);
      RunKeepsInv(s, before);
      UntaintedClean(Run(s, before), actions[i]);
    }
  }

  lemma UntaintedClean(s: Server, a: Action)
    requires Inv(s) && s.tainted == {}
    ensures Clean(s, a)
  {
    if a.CompleteExec? && a.rid in s.executing && a.rid < |s.requests| && s.requests[a.rid].key.Some? {
      assert RunOk(s, a.rid);
      assert RecordOk(s, s.requests[a.rid].key.value);
    }
  }

  // ---------------------------------------------------------------------------------------------
  // Three runs that are not careful
  // ---------------------------------------------------------------------------------------------

  lemma ReachableStep(s: Server, a: Action)
    requires Reachable(s)
    ensures Reachable(Step(s, a))
  {
    hide Step;
    var limit: nat, perConn: nat, capacity: nat, actions :| s == Run(Initial(limit, perConn, capacity), actions);
    var all := actions + [a];
    assert all[..|all| - 1] == actions;
    assert Step(s, a) == Run(Initial(limit, perConn, capacity), all);
  }

  // The states of a run in which the first request is cancelled while its handler runs.

  const ASK := [Request(0, 1, Some("k"), "a"), Request(0, 2, Some("k"), "b")]
  const TOLD := Task(0, Status(CancelledCode))
  const ASTRAY := Task(1, Answered(0))
  const CONNECTED := Initial(9, 9, 9).(conns := map[0 := Conn(0, true, map[])])
  const ARRIVED := CONNECTED.(requests := ASK[..1], acquired := {0}, inflight := 1, busy := map[0 := Acquired(0)])
  const MAPPED := ARRIVED.(acquired := {}, live := {0}, busy := map[0 := Listed(0)],
                           conns := map[0 := Conn(0, true, map[1 := 0])])
  const LED := MAPPED.(busy := map[], executing := {0},
                       records := map["k" := Record("a", true, [0], Status(Internal), 0)])
  const LEFT := LED.(records := map[], tainted := {0}, stopped := {0}, posted := {TOLD})
  const GONE := LEFT.(posted := {}, live := {}, inflight := 0, conns := map[0 := Conn(0, true, map[])], sent := [TOLD])
  const ARRIVED_AGAIN := GONE.(requests := ASK, acquired := {1}, inflight := 1, busy := map[0 := Acquired(1)])
  const MAPPED_AGAIN := ARRIVED_AGAIN.(acquired := {}, live := {1}, busy := map[0 := Listed(1)],
                                       conns := map[0 := Conn(0, true, map[2 := 1])])
  const LED_AGAIN := MAPPED_AGAIN.(busy := map[], executing := {0, 1},
                                   records := map["k" := Record("b", true, [1], Status(Internal), 1)])
  const RESOLVED := LED_AGAIN.(executing := {1}, tainted := {0, 1}, posted := {ASTRAY}, completedKeys := ["k"],
                          records := map["k" := Record("b", false, [], Answered(0), 1)])
  const WRONG := RESOLVED.(posted := {}, live := {}, inflight := 0, conns := map[0 := Conn(0, true, map[])],
                          sent := [TOLD, ASTRAY])

  /** The only request of the only connection is put on its map. */
  lemma AddsFirst(s: Server, rid: Rid)
    requires rid < |s.requests| && s.requests[rid].conn == 0 && s.requests[rid].key.Some?
    requires s.busy == map[0 := Acquired(rid)] && s.acquired == {rid} && s.live == {}
    requires s.conns == map[0 := Conn(0, true, map[])] && s.maxPerConn > 0
    ensures StepAdd(s, 0) == s.(acquired := {}, live := {rid}, busy := map[0 := Listed(rid)],
                                conns := map[0 := Conn(0, true, map[s.requests[rid].id := rid])])
  {
    assert |s.conns[0].requests| == 0;
    assert StepAdd(s, 0).conns == map[0 := Conn(0, true, map[s.requests[rid].id := rid])];
    assert StepAdd(s, 0).busy == map[0 := Listed(rid)];
  }

  lemma FirstSteps()
    ensures Step(Initial(9, 9, 9), Connect(0, 0)) == CONNECTED
    ensures Step(CONNECTED, Acquire(0, 1, Some("k"), "a")) == ARRIVED
  {
    assert Step(CONNECTED, Acquire(0, 1, Some("k"), "a")).requests == ASK[..1];
  }

  lemma SecondSteps()
    ensures Step(ARRIVED, AddRequest(0)) == MAPPED
    ensures Step(MAPPED, Lookup(0)) == LED
  {
    hide StepAdd;
    assert ARRIVED.requests[0] == ASK[0];
    AddsFirst(ARRIVED, 0);
    assert MAPPED.requests[0] == ASK[0] && |MAPPED.records| == 0;
    assert Step(MAPPED, Lookup(0)).busy == LED.busy;
  }

  lemma ThirdSteps()
    ensures Step(LED, Cancel(0, 1)) == LEFT
    ensures Step(LEFT, Finish(TOLD, false)) == GONE
  {
    assert LED.requests[0] == ASK[0] && Remove([0], 0) == [];
    assert Purge(LED, 0).records == map[];
    assert Step(LEFT, Finish(TOLD, false)).conns == GONE.conns;
  }

  lemma FourthSteps()
    ensures Step(GONE, Acquire(0, 2, Some("k"), "b")) == ARRIVED_AGAIN
    ensures Step(ARRIVED_AGAIN, AddRequest(0)) == MAPPED_AGAIN
  {
    hide StepAdd, StepLookup, StepExec, StepFinish, Purge, Prune;
    assert Step(GONE, Acquire(0, 2, Some("k"), "b")).requests == ASK;
    AddsFirst(ARRIVED_AGAIN, 1);
  }

  lemma FifthStep()
    ensures Step(MAPPED_AGAIN, Lookup(0)) == LED_AGAIN
  {
    hide StepAdd, StepExec, StepFinish, Purge;
    assert |MAPPED_AGAIN.records| == 0;
    assert Prune(MAPPED_AGAIN.records, [], 9) == (MAPPED_AGAIN.records, []);
    hide Prune;
    assert Step(MAPPED_AGAIN, Lookup(0)).busy == LED_AGAIN.busy;
  }

  lemma SixthStep()
    ensures Step(LED_AGAIN, CompleteExec(0, Answered(0), true)) == RESOLVED
  {
    hide StepAdd, StepLookup, StepFinish, Purge, FinishIdempotent, Prune;
    assert LED_AGAIN.executing - {0} == {1};
    ResolvesAgain();
  }

  lemma ResolvesAgain()
    ensures FinishIdempotent(LED_AGAIN.(executing := {1}), 0, "k", Answered(0), true) == RESOLVED
  {
    hide Prune;
    NothingPruned();
    assert Tasks([1], Answered(0)) == {ASTRAY};
    assert LED_AGAIN.records["k" := Record("b", false, [], Answered(0), 1)] == RESOLVED.records;
    assert LED_AGAIN.tainted + {1} == {0, 1} && LED_AGAIN.posted + {ASTRAY} == {ASTRAY};
    assert LED_AGAIN.completedKeys + ["k"] == ["k"];
  }

  lemma NothingPruned()
    ensures Prune(RESOLVED.records, ["k"], 9) == (RESOLVED.records, ["k"])
  {
    assert RESOLVED.records.Keys == {"k"} && |RESOLVED.records| == |RESOLVED.records.Keys| == 1;
  }

  lemma SeventhStep()
    ensures Step(RESOLVED, Finish(ASTRAY, false)) == WRONG
  {
    hide StepAdd, StepLookup, StepExec, Purge;
    assert Step(RESOLVED, Finish(ASTRAY, false)).conns == WRONG.conns;
  }

  lemma LedReachable()
    ensures Reachable(LED)
  {
    assert Reachable(Initial(9, 9, 9)) by { assert Run(Initial(9, 9, 9), []) == Initial(9, 9, 9); }
    FirstSteps();
    SecondSteps();
    hide Step, Reachable;
    ReachableStep(Initial(9, 9, 9), Connect(0, 0));
    ReachableStep(CONNECTED, Acquire(0, 1, Some("k"), "a"));
    ReachableStep(ARRIVED, AddRequest(0));
    ReachableStep(MAPPED, Lookup(0));
  }

  lemma LedAgainReachable()
    ensures Reachable(LED_AGAIN)
  {
    LedReachable();
    ThirdSteps();
    FourthSteps();
    FifthStep();
    hide Step, Reachable;
    ReachableStep(LED, Cancel(0, 1));
    ReachableStep(LEFT, Finish(TOLD, false));
    ReachableStep(GONE, Acquire(0, 2, Some("k"), "b"));
    ReachableStep(ARRIVED_AGAIN, AddRequest(0));
    ReachableStep(MAPPED_AGAIN, Lookup(0));
  }

  /** The run of a cancelled request resolves the next record under its key, and its waiter gets the wrong response. */
  lemma OtherBodyAnswered()
    ensures Reachable(WRONG) && WRONG.sent[1] == Task(1, Answered(0))
    ensures WRONG.requests[0].key == WRONG.requests[1].key && WRONG.requests[0].body != WRONG.requests[1].body
  {
    LedAgainReachable();
    SixthStep();
    SeventhStep();
    hide Step, Reachable;
    ReachableStep(LED_AGAIN, CompleteExec(0, Answered(0), true));
    ReachableStep(RESOLVED, Finish(ASTRAY, false));
  }

  // The same run up to the second leader; then the first run, cancelled before it started, fails.

  const MISTOLD := Task(1, Failed(0, CancelledCode))
  const BROKEN := LED_AGAIN.(executing := {1}, tainted := {0, 1}, posted := {MISTOLD}, records := map[])
  const REFUSED := BROKEN.(posted := {}, live := {}, inflight := 0, conns := map[0 := Conn(0, true, map[])],
                           sent := [TOLD, MISTOLD])

  lemma FailStep()
    ensures Step(LED_AGAIN, CompleteExec(0, Failed(0, CancelledCode), false)) == BROKEN
  {
    hide StepAdd, StepLookup, StepFinish, Purge, Prune;
    assert LED_AGAIN.requests[0] == ASK[0] && LED_AGAIN.executing - {0} == {1};
    assert Tasks([1], Failed(0, CancelledCode)) == {MISTOLD};
    assert LED_AGAIN.records - {"k"} == map[];
    assert LED_AGAIN.tainted + {1} == {0, 1} && LED_AGAIN.posted + {MISTOLD} == {MISTOLD};
  }

  lemma RefuseStep()
    ensures Step(BROKEN, Finish(MISTOLD, false)) == REFUSED
  {
    hide StepAdd, StepLookup, StepExec, Purge;
    assert Step(BROKEN, Finish(MISTOLD, false)).conns == REFUSED.conns;
  }

  /**
   A request that nobody cancelled is told so by the run for another body. Its own run goes on, and has no record to
   answer into.
   */
  lemma OtherBodyFailed()
    ensures Reachable(REFUSED) && REFUSED.sent == [TOLD, Task(1, Failed(0, CancelledCode))]
    ensures REFUSED.requests[0].key == REFUSED.requests[1].key && REFUSED.requests[0].body != REFUSED.requests[1].body
    ensures 1 in REFUSED.executing && REFUSED.records == map[]
  {
    LedAgainReachable();
    FailStep();
    RefuseStep();
    hide Step, Reachable;
    ReachableStep(LED_AGAIN, CompleteExec(0, Failed(0, CancelledCode), false));
    ReachableStep(BROKEN, Finish(MISTOLD, false));
  }

  // The same run up to the second leader, whose own run ends first.

  const OWN := Task(1, Answered(1))
  const STALE := Task(2, Answered(0))
  const THIRD := Request(0, 3, Some("k"), "b")
  const ALL := ASK + [THIRD]
  const SETTLED := LED_AGAIN.(executing := {0}, posted := {OWN}, completedKeys := ["k"],
                              records := map["k" := Record("b", false, [], Answered(1), 1)])
  const SERVED := SETTLED.(posted := {}, live := {}, inflight := 0, conns := map[0 := Conn(0, true, map[])],
                           sent := [TOLD, OWN])
  const OVERWRITTEN := SERVED.(executing := {}, completedKeys := ["k", "k"],
                               records := map["k" := Record("b", false, [], Answered(0), 1)])
  const ASKED := OVERWRITTEN.(requests := ALL, acquired := {2}, inflight := 1, busy := map[0 := Acquired(2)])
  const ASKED_LISTED := ASKED.(acquired := {}, live := {2}, busy := map[0 := Listed(2)],
                               conns := map[0 := Conn(0, true, map[3 := 2])])
  const HIT := ASKED_LISTED.(busy := map[], posted := {STALE})
  const WRONG_AGAIN := HIT.(posted := {}, live := {}, inflight := 0, conns := map[0 := Conn(0, true, map[])],
                            sent := [TOLD, OWN, STALE])

  lemma OneRecordStays(records: map<string, Record>, keys: seq<string>)
    requires records.Keys == {"k"}
    ensures Prune(records, keys, 9) == (records, keys)
  {
    assert |records| == |records.Keys| == 1;
  }

  lemma SettleStep()
    ensures Step(LED_AGAIN, CompleteExec(1, Answered(1), true)) == SETTLED
  {
    hide StepAdd, StepLookup, StepFinish, Purge, Prune;
    OneRecordStays(SETTLED.records, ["k"]);
    assert LED_AGAIN.requests[1] == ASK[1] && LED_AGAIN.executing - {1} == {0};
    assert Tasks([1], Answered(1)) == {OWN};
    assert LED_AGAIN.records["k" := Record("b", false, [], Answered(1), 1)] == SETTLED.records;
    assert LED_AGAIN.posted + {OWN} == {OWN} && LED_AGAIN.completedKeys + ["k"] == ["k"];
  }

  lemma ServeStep()
    ensures Step(SETTLED, Finish(OWN, false)) == SERVED
  {
    hide StepAdd, StepLookup, StepExec, Purge;
    assert Step(SETTLED, Finish(OWN, false)).conns == SERVED.conns;
  }

  lemma OverwriteStep()
    ensures Step(SERVED, CompleteExec(0, Answered(0), true)) == OVERWRITTEN
  {
    hide StepAdd, StepLookup, StepFinish, Purge, Prune;
    OneRecordStays(OVERWRITTEN.records, ["k", "k"]);
    assert SERVED.requests[0] == ASK[0] && SERVED.executing - {0} == {};
    assert Tasks([], Answered(0)) == {};
    assert SERVED.records["k" := Record("b", false, [], Answered(0), 1)] == OVERWRITTEN.records;
    assert SERVED.completedKeys + ["k"] == ["k", "k"];
  }

  lemma AskStep()
    ensures Step(OVERWRITTEN, Acquire(0, 3, Some("k"), "b")) == ASKED
  {
    hide StepAdd, StepLookup, StepExec, StepFinish, Purge, Prune;
    assert Step(OVERWRITTEN, Acquire(0, 3, Some("k"), "b")).requests == ALL;
  }

  lemma ListStep()
    ensures Step(ASKED, AddRequest(0)) == ASKED_LISTED
  {
    hide StepAdd, StepLookup, StepExec, StepFinish, Purge, Prune;
    assert ASKED.requests[2] == THIRD;
    AddsFirst(ASKED, 2);
  }

  lemma HitSteps()
    ensures Step(ASKED_LISTED, Lookup(0)) == HIT
    ensures Step(HIT, Finish(STALE, false)) == WRONG_AGAIN
  {
    hide StepAdd, StepExec, Purge, Prune;
    assert ASKED_LISTED.requests[2] == THIRD;
    assert Step(ASKED_LISTED, Lookup(0)).busy == HIT.busy;
    assert Step(HIT, Finish(STALE, false)).conns == WRONG_AGAIN.conns;
  }

  /** It can also overwrite a settled record, and a later request gets the other body's response from the cache. */
  lemma OtherBodyCached()
    ensures Reachable(WRONG_AGAIN) && WRONG_AGAIN.sent[2] == Task(2, Answered(0))
    ensures WRONG_AGAIN.requests[0].key == WRONG_AGAIN.requests[2].key
    ensures WRONG_AGAIN.requests[0].body != WRONG_AGAIN.requests[2].body
  {
    LedAgainReachable();
    SettleStep();
    ServeStep();
    OverwriteStep();
    AskStep();
    ListStep();
    HitSteps();
    hide Step, Reachable;
    ReachableStep(LED_AGAIN, CompleteExec(1, Answered(1), true));
    ReachableStep(SETTLED, Finish(OWN, false));
    ReachableStep(SERVED, CompleteExec(0, Answered(0), true));
    ReachableStep(OVERWRITTEN, Acquire(0, 3, Some("k"), "b"));
    ReachableStep(ASKED, AddRequest(0));
    ReachableStep(ASKED_LISTED, Lookup(0));
    ReachableStep(HIT, Finish(STALE, false));
  }
}
