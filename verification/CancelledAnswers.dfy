/**
 Who is told that a request was cancelled. A run whose context was cancelled before it started ends as cancelled, and
 says so to everyone who waits for it; here is exactly when that reaches a request that nobody cancelled.
 */
module CancelledAnswers {
  import opened Results
  import opened ServerRequests
  import opened IdempotentAnswers

  predicate SaysCancelled(reply: Reply) {
    !reply.Answered? && reply.code == CancelledCode
  }

  /** Only a request whose own context is cancelled is told so. */
  predicate Deserved(s: Server, t: Task) {
    SaysCancelled(t.reply) ==> t.rid in s.stopped
  }

  ghost predicate AllDeserved(s: Server) {
    && (forall k :: k in s.records ==> !SaysCancelled(s.records[k].response))
    && (forall t :: t in s.posted ==> Deserved(s, t))
    && (forall i :: 0 <= i < |s.sent| ==> Deserved(s, s.sent[i]))
  }

  /** The step is not the end of a cancelled run that finds, under its key, a request waiting that is not cancelled. */
  predicate Spares(s: Server, a: Action) {
    a.CompleteExec? && Ends(s, a.rid, a.reply, a.cache) && SaysCancelled(a.reply) ==>
      var key := s.requests[a.rid].key;
      key.Some? && key.value in s.records ==> forall w :: w in s.records[key.value].waiters ==> w in s.stopped
  }

  /** What is stored, handed over and sent in `s'` was so in `s`, or is deserved. */
  lemma StaysDeserved(s: Server, s': Server)
    requires AllDeserved(s) && s.stopped <= s'.stopped
    requires forall k :: k in s'.records ==>
      (k in s.records && s'.records[k].response == s.records[k].response) || !SaysCancelled(s'.records[k].response)
    requires forall t :: t in s'.posted ==> t in s.posted || Deserved(s', t)
    requires forall i :: 0 <= i < |s'.sent| ==> (i < |s.sent| && s'.sent[i] == s.sent[i]) || Deserved(s', s'.sent[i])
    ensures AllDeserved(s')
  {
    forall t | t in s'.posted ensures Deserved(s', t) {
      if t in s.posted { assert Deserved(s, t); }
    }
    forall i | 0 <= i < |s'.sent| ensures Deserved(s', s'.sent[i]) {
      if i < |s.sent| { assert Deserved(s, s.sent[i]); }
    }
  }

  lemma LookupDeserved(s: Server, shard: nat)
    requires AllDeserved(s) && shard in s.busy && s.busy[shard].Listed? && s.busy[shard].rid < |s.requests|
    requires s.requests[s.busy[shard].rid].key.Some?
    ensures AllDeserved(StepLookup(s, shard))
  {
    hide Prune;
    StaysDeserved(s, StepLookup(s, shard));
  }

  lemma FinishDeserved(s: Server, task: Task, late: bool)
    requires AllDeserved(s) && task in s.posted && task.rid < |s.requests|
    ensures AllDeserved(StepFinish(s, task, late))
  {
    assert Deserved(s, task);
    StaysDeserved(s, StepFinish(s, task, late));
  }

  lemma PurgeDeserved(s: Server, rid: Rid)
    requires AllDeserved(s) && rid < |s.requests|
    ensures AllDeserved(Purge(s, rid))
  {
    StaysDeserved(s, Purge(s, rid));
  }

  lemma CancelDeserved(s: Server, c: nat, id: nat)
    requires AllDeserved(s)
    ensures AllDeserved(Step(s, Cancel(c, id)))
  {
    if Free(s, c) && id in s.conns[c].requests && s.conns[c].requests[id] < |s.requests| {
      var rid := s.conns[c].requests[id];
      PurgeDeserved(s, rid);
      hide Purge;
      StaysDeserved(Purge(s, rid), Step(s, Cancel(c, id)));
    }
  }

  /** The end of a run tells nobody wrongly if and only if it spares who waits under its key. */
  lemma EndDeserved(s: Server, rid: Rid, reply: Reply, cache: bool)
    requires AllDeserved(s) && Ends(s, rid, reply, cache)
    ensures AllDeserved(StepExec(s, rid, reply, cache)) <==> Spares(s, CompleteExec(rid, reply, cache))
  {
    hide Prune;
    var s' := StepExec(s, rid, reply, cache);
    if Spares(s, CompleteExec(rid, reply, cache)) {
      forall t | t in s'.posted && t !in s.posted ensures Deserved(s', t) {
      }
      StaysDeserved(s, s');
    } else {
      var waiters := s.records[s.requests[rid].key.value].waiters;
      var w :| w in waiters && w !in s.stopped;
      assert Task(w, reply) in s'.posted && !Deserved(s', Task(w, reply));
    }
  }

  lemma StepDeserved(s: Server, a: Action)
    requires AllDeserved(s)
    ensures AllDeserved(Step(s, a)) <==> Spares(s, a)
  {
    hide AllDeserved, StepAdd, StepLookup, StepExec, StepFinish, Purge, Prune, SaysCancelled;
    match a
    case CompleteExec(rid, reply, cache) => if Ends(s, rid, reply, cache) { EndDeserved(s, rid, reply, cache); }
    case Lookup(shard) =>
      if shard in s.busy && s.busy[shard].Listed? && s.busy[shard].rid < |s.requests|
          && s.requests[s.busy[shard].rid].key.Some? {
        LookupDeserved(s, shard);
      }
    case Finish(task, late) => if task in s.posted && task.rid < |s.requests| { FinishDeserved(s, task, late); }
    case Cancel(c, id) => CancelDeserved(s, c, id);
    case AbandonPurge(rid) =>
      if rid in s.purging && rid < |s.requests| {
        QuietDeserved(s, s.(purging := s.purging - {rid}));
        PurgeDeserved(s.(purging := s.purging - {rid}), rid);
      }
    case AddRequest(shard) => AddDeserved(s, shard);
    case _ => QuietDeserved(s, Step(s, a));
  }

  /** Nothing is stored, handed over or sent. */
  lemma QuietDeserved(s: Server, s': Server)
    requires AllDeserved(s) && s'.records == s.records && s'.posted == s.posted && s'.sent == s.sent
    requires s.stopped <= s'.stopped
    ensures AllDeserved(s')
  {
    StaysDeserved(s, s');
  }

  lemma AddDeserved(s: Server, shard: nat)
    requires AllDeserved(s)
    ensures AllDeserved(Step(s, AddRequest(shard)))
  {
    hide AllDeserved;
    QuietDeserved(s, Step(s, AddRequest(shard)));
  }

  // ---------------------------------------------------------------------------------------------
  // Whole runs
  // ---------------------------------------------------------------------------------------------

  /** Every step of the run spares who is not cancelled. */
  ghost predicate Sparing(s: Server, actions: seq<Action>)
    decreases |actions|
  {
    actions == [] ||
    var before := actions[..|actions| - 1];
    Sparing(s, before) && Spares(Run(s, before), actions[|actions| - 1])
  }

  /** All is deserved in every state of the run. */
  ghost predicate AlwaysDeserved(s: Server, actions: seq<Action>)
    decreases |actions|
  {
    AllDeserved(Run(s, actions)) && (actions == [] || AlwaysDeserved(s, actions[..|actions| - 1]))
  }

  /** Over a whole run, nobody is told wrongly at any moment if and only if every step is sparing. */
  lemma {:induction false} CancelledExactly(limit: nat, perConn: nat, capacity: nat, actions: seq<Action>)
    ensures var s := Initial(limit, perConn, capacity); AlwaysDeserved(s, actions) <==> Sparing(s, actions)
    decreases |actions|
  {
    var s := Initial(limit, perConn, capacity);
    if actions != [] {
      hide AllDeserved, Spares, Step, Initial;
      var before := actions[..|actions| - 1];
      CancelledExactly(limit, perConn, capacity, before);
      if AlwaysDeserved(s, before) { StepDeserved(Run(s, before), actions[|actions| - 1]); }
    }
  }

  // ---------------------------------------------------------------------------------------------
  // A run that is not sparing
  // ---------------------------------------------------------------------------------------------

  // After `LED`, a second request for the same body joins the first, and the first is cancelled before its run starts.

  const TWINS := [Request(0, 1, Some("k"), "a"), Request(0, 2, Some("k"), "a")]
  const BYSTANDER := Task(1, Failed(0, CancelledCode))
  const CAME := LED.(requests := TWINS, acquired := {1}, inflight := 2, busy := map[0 := Acquired(1)])
  const ENTERED := CAME.(acquired := {}, live := {0, 1}, busy := map[0 := Listed(1)],
                         conns := map[0 := Conn(0, true, map[1 := 0, 2 := 1])])
  const JOINED := ENTERED.(busy := map[], records := map["k" := Record("a", true, [0, 1], Status(Internal), 0)])
  const WITHDRAWN := JOINED.(posted := {TOLD}, stopped := {0},
                             records := map["k" := Record("a", true, [1], Status(Internal), 0)])
  const SPOILED := WITHDRAWN.(executing := {}, posted := {TOLD, BYSTANDER}, records := map[])
  const MISINFORMED := SPOILED.(posted := {TOLD}, live := {0}, inflight := 1, sent := [BYSTANDER],
                                conns := map[0 := Conn(0, true, map[1 := 0])])

  lemma ComeStep()
    ensures Step(LED, Acquire(0, 2, Some("k"), "a")) == CAME
  {
    hide StepAdd, StepLookup, StepExec, StepFinish, Purge, Prune;
    assert Step(LED, Acquire(0, 2, Some("k"), "a")).requests == TWINS;
  }

  lemma EnterStep()
    ensures Step(CAME, AddRequest(0)) == ENTERED
  {
    hide StepAdd, StepLookup, StepExec, StepFinish, Purge, Prune;
    assert CAME.busy[0] == Acquired(1);
    AddsTwin();
  }

  lemma AddsTwin()
    ensures StepAdd(CAME, 0) == ENTERED
  {
    var one: map<nat, Rid> := map[1 := 0];
    assert CAME.requests[1] == TWINS[1] && CAME.conns[0].requests == one && |one| == 1;
    assert one[2 := 1] == map[1 := 0, 2 := 1] && CAME.busy[0 := Listed(1)] == ENTERED.busy;
    assert CAME.conns[0 := Conn(0, true, map[1 := 0, 2 := 1])] == ENTERED.conns;
    assert {1} - {1} == {} && {0} + {1} == {0, 1};
  }

  lemma JoinStep()
    ensures Step(ENTERED, Lookup(0)) == JOINED
  {
    hide StepAdd, StepExec, StepFinish, Purge, Prune;
    assert ENTERED.requests[1] == TWINS[1] && [0] + [1] == [0, 1];
    assert ENTERED.records["k" := Record("a", true, [0, 1], Status(Internal), 0)] == JOINED.records;
    assert ENTERED.busy - {0} == JOINED.busy;
  }

  lemma WithdrawStep()
    ensures Step(JOINED, Cancel(0, 1)) == WITHDRAWN
  {
    hide StepAdd, StepLookup, StepExec, StepFinish, Purge, Prune;
    PurgesTwin();
    assert JOINED.conns[0].requests[1] == 0;
  }

  lemma PurgesTwin()
    ensures Purge(JOINED, 0) == JOINED.(records := WITHDRAWN.records)
  {
    hide Remove;
    assert Remove([0, 1], 0) == [1] by { RemovesFirst(); }
    assert JOINED.requests[0] == TWINS[0];
    assert JOINED.records["k" := Record("a", true, [1], Status(Internal), 0)] == WITHDRAWN.records;
  }

  lemma RemovesFirst()
    ensures Remove([0, 1], 0) == [1]
  {
    assert [0, 1][1..] == [1] && [1][1..] == [];
  }

  lemma SpoilStep()
    ensures Step(WITHDRAWN, CompleteExec(0, Failed(0, CancelledCode), false)) == SPOILED
  {
    hide StepAdd, StepLookup, StepFinish, Purge, Prune;
    assert WITHDRAWN.requests[0] == TWINS[0] && WITHDRAWN.executing - {0} == {};
    assert Tasks([1], Failed(0, CancelledCode)) == {BYSTANDER} && WITHDRAWN.records - {"k"} == map[];
  }

  lemma MisinformStep()
    ensures Step(SPOILED, Finish(BYSTANDER, false)) == MISINFORMED
  {
    hide StepAdd, StepLookup, StepExec, Purge;
    assert SPOILED.requests[1] == TWINS[1] && map[1 := 0, 2 := 1] - {2} == map[1 := 0];
    assert SPOILED.conns[0 := Conn(0, true, map[1 := 0])] == MISINFORMED.conns;
    assert {0, 1} - {1} == {0} && {TOLD, BYSTANDER} - {BYSTANDER} == {TOLD};
  }

  /** A request that nobody cancelled is told that it was, by the run it shares with one that was. */
  lemma BystanderCancelled()
    ensures Reachable(MISINFORMED) && MISINFORMED.sent == [Task(1, Failed(0, CancelledCode))]
    ensures MISINFORMED.requests[0].body == MISINFORMED.requests[1].body && 1 !in MISINFORMED.stopped
  {
    LedReachable();
    ComeStep();
    EnterStep();
    JoinStep();
    WithdrawStep();
    SpoilStep();
    MisinformStep();
    hide Step, Reachable;
    ReachableStep(LED, Acquire(0, 2, Some("k"), "a"));
    ReachableStep(CAME, AddRequest(0));
    ReachableStep(ENTERED, Lookup(0));
    ReachableStep(JOINED, Cancel(0, 1));
    ReachableStep(WITHDRAWN, CompleteExec(0, Failed(0, CancelledCode), false));
    ReachableStep(SPOILED, Finish(BYSTANDER, false));
  }
}
