/**
 Server requests from admission to release, with the idempotency cache. Every counter operation, mutex section and
 shard-local action is one step; steps of different shards, workers and connections interleave in any order. A shard
 does nothing else between admitting a request and looking its key up. `stopped` are the requests whose context is
 cancelled. `leader` and `tainted` are auxiliary: no step depends on them.
 */
module ServerRequests {
  import opened Results

  type Rid = nat

  datatype Request = Request(conn: nat, id: nat, key: Option<string>, body: string)

  datatype Code = CancelledCode | AlreadyExists | ResourceExhausted | Internal | DeadlineExceeded

  /** The response of the handler run for request `exec`, the failure of that run, or a status of the server's own. */
  datatype Reply = Answered(exec: Rid) | Failed(exec: Rid, code: Code) | Status(code: Code)

  datatype Record = Record(body: string, pending: bool, waiters: seq<Rid>, response: Reply, leader: Rid)

  datatype Conn = Conn(shard: nat, live: bool, requests: map<nat, Rid>)

  datatype Stage = Acquired(rid: Rid) | Listed(rid: Rid)

  datatype Task = Task(rid: Rid, reply: Reply)

  datatype Server = Server(
    maxInflight: nat, maxPerConn: nat, capacity: nat,
    inflight: int, inline: nat, requests: seq<Request>, live: set<Rid>, acquired: set<Rid>,
    conns: map<nat, Conn>, busy: map<nat, Stage>, detached: set<Rid>, purging: set<Rid>,
    records: map<string, Record>, completedKeys: seq<string>,
    executing: set<Rid>, posted: set<Task>, sent: seq<Task>, stopped: set<Rid>, tainted: set<Rid>)

  datatype Action =
    | Connect(c: nat, shard: nat)
    | InlineBegin
    | InlineEnd
    | Acquire(c: nat, id: nat, key: Option<string>, body: string)
    | AddRequest(shard: nat)
    | Lookup(shard: nat)
    | CompleteExec(rid: Rid, reply: Reply, cache: bool)
    | Finish(task: Task, late: bool)
    | Cancel(c: nat, id: nat)
    | Close(c: nat)
    | AbandonMark(rid: Rid)
    | AbandonPurge(rid: Rid)

  function Initial(maxInflight: nat, maxPerConn: nat, capacity: nat): (s: Server) {
    Server(maxInflight, maxPerConn, capacity, 0, 0, [], {}, {}, map[], map[], {}, {}, map[], [], {}, {}, [], {}, {})
  }

  // ---------------------------------------------------------------------------------------------
  // The cache
  // ---------------------------------------------------------------------------------------------

  /** Drops completed records, oldest first, while the cache is full. */
  function Prune(records: map<string, Record>, keys: seq<string>, capacity: nat)
    : (r: (map<string, Record>, seq<string>))
    ensures r.0.Keys <= records.Keys && forall k :: k in r.0 ==> r.0[k] == records[k]
    ensures forall k :: k in records && records[k].pending ==> k in r.0
    decreases |keys|
  {
    if |records| < capacity || keys == [] then (records, keys)
    else if keys[0] in records && !records[keys[0]].pending then Prune(records - {keys[0]}, keys[1..], capacity)
    else Prune(records, keys[1..], capacity)
  }

  /** The loop that prunes. */
  method PruneIdempotencyCache(records: map<string, Record>, keys: seq<string>, capacity: nat)
    returns (kept: map<string, Record>, left: seq<string>)
    ensures (kept, left) == Prune(records, keys, capacity)
  {
    kept, left := records, keys;
    while |kept| >= capacity && left != []
      invariant Prune(kept, left, capacity) == Prune(records, keys, capacity)
      decreases |left|
    {
      var key := left[0];
      left := left[1..];
      if key in kept && !kept[key].pending {
        kept := kept - {key};
      }
    }
  }

  function Remove(waiters: seq<Rid>, rid: Rid): (r: seq<Rid>)
    ensures forall w :: w in r <==> w in waiters && w != rid
  {
    if waiters == [] then [] else (if waiters[0] == rid then [] else [waiters[0]]) + Remove(waiters[1..], rid)
  }

  /** Takes a request out of its key's pending record, and drops a record nobody waits for any more. */
  function Purge(s: Server, rid: Rid): (s': Server)
    requires rid < |s.requests|
    ensures s' == s.(records := s'.records, tainted := s'.tainted) && s.tainted <= s'.tainted
  {
    var key := s.requests[rid].key;
    if key.None? || key.value !in s.records || !s.records[key.value].pending then s
    else
      var record := s.records[key.value];
      var waiters := Remove(record.waiters, rid);
      if waiters == [] then s.(records := s.records - {key.value}, tainted := s.tainted + {record.leader})
      else s.(records := s.records[key.value := record.(waiters := waiters)])
  }

  function Tasks(waiters: seq<Rid>, reply: Reply): (t: set<Task>) {
    set w | w in waiters :: Task(w, reply)
  }

  /**
   Resolves whatever record is under the key now, and hands its waiters the response. If the record was opened by
   another handler run than `exec`, that run is left without a record.
   */
  function FinishIdempotent(s: Server, exec: Rid, key: string, reply: Reply, cache: bool): (s': Server) {
    if key !in s.records then s
    else
      var record := s.records[key];
      var handed := s.(posted := s.posted + Tasks(record.waiters, reply),
                       tainted := if record.pending && record.leader != exec
                                  then s.tainted + {record.leader} else s.tainted);
      if !cache then handed.(records := s.records - {key})
      else
        var (records, keys) := Prune(s.records[key := record.(pending := false, waiters := [], response := reply)],
                                     s.completedKeys + [key], s.capacity);
        handed.(records := records, completedKeys := keys)
  }

  // ---------------------------------------------------------------------------------------------
  // Steps
  // ---------------------------------------------------------------------------------------------

  predicate Free(s: Server, c: nat) {
    c in s.conns && s.conns[c].live && s.conns[c].shard !in s.busy
  }

  function StepAdd(s: Server, shard: nat): (s': Server)
    requires shard in s.busy && s.busy[shard].Acquired? && s.busy[shard].rid < |s.requests|
    ensures s'.tainted == s.tainted && s'.acquired == s.acquired - {s.busy[shard].rid}
    ensures s'.live == s.live || s'.live == s.live + {s.busy[shard].rid}
  {
    var rid := s.busy[shard].rid;
    var r := s.requests[rid];
    var idle := s.(acquired := s.acquired - {rid}, busy := s.busy - {shard});
    if r.conn !in s.conns || !s.conns[r.conn].live || |s.conns[r.conn].requests| >= s.maxPerConn
        || r.id in s.conns[r.conn].requests
    then idle.(inflight := s.inflight - 1)
    else
      var c := s.conns[r.conn];
      var listed := idle.(live := s.live + {rid}, conns := s.conns[r.conn := c.(requests := c.requests[r.id := rid])]);
      if r.key.None? then listed.(executing := s.executing + {rid}) else listed.(busy := s.busy[shard := Listed(rid)])
  }

  /**
   The mutex section of a keyed request: join, answer from the cache, refuse, or become the leader of a new record.
   */
  function StepLookup(s: Server, shard: nat): (s': Server)
    requires shard in s.busy && s.busy[shard].Listed? && s.busy[shard].rid < |s.requests|
    requires s.requests[s.busy[shard].rid].key.Some?
    ensures s'.live == s.live && s'.acquired == s.acquired && s'.inflight == s.inflight && s'.tainted == s.tainted
  {
    var rid := s.busy[shard].rid;
    var r := s.requests[rid];
    var key := r.key.value;
    var idle := s.(busy := s.busy - {shard});
    if key in s.records then
      var record := s.records[key];
      if record.body != r.body then idle.(posted := s.posted + {Task(rid, Status(AlreadyExists))})
      else if record.pending then idle.(records := s.records[key := record.(waiters := record.waiters + [rid])])
      else idle.(posted := s.posted + {Task(rid, record.response)})
    else
      var (records, keys) := Prune(s.records, s.completedKeys, s.capacity);
      var pruned := idle.(records := records, completedKeys := keys);
      if |records| >= s.capacity then pruned.(posted := s.posted + {Task(rid, Status(ResourceExhausted))})
      else pruned.(records := records[key := Record(r.body, true, [rid], Status(Internal), rid)],
          executing := s.executing + {rid})
  }

  function StepExec(s: Server, rid: Rid, reply: Reply, cache: bool): (s': Server)
    requires rid < |s.requests|
    ensures s'.live == s.live && s'.acquired == s.acquired && s'.inflight == s.inflight
  {
    var done := s.(executing := s.executing - {rid});
    match s.requests[rid].key
    case None => done.(posted := s.posted + {Task(rid, reply)})
    case Some(key) => FinishIdempotent(done, rid, key, reply, cache)
  }

  /** Releases a request that has not completed yet; a late one is told so whatever its response was. */
  function StepFinish(s: Server, task: Task, late: bool): (s': Server)
    requires task.rid < |s.requests|
    ensures s'.tainted == s.tainted && s'.acquired == s.acquired && s'.live == s.live - {task.rid}
    ensures s'.inflight == if task.rid in s.live then s.inflight - 1 else s.inflight
  {
    var idle := s.(posted := s.posted - {task});
    if task.rid !in s.live then idle
    else
      var r := s.requests[task.rid];
      var released := idle.(live := s.live - {task.rid}, inflight := s.inflight - 1,
                            stopped := if late then s.stopped + {task.rid} else s.stopped);
      if r.conn in s.conns && s.conns[r.conn].live then
        var c := s.conns[r.conn];
        released.(conns := s.conns[r.conn := c.(requests := c.requests - {r.id})],
                  sent := s.sent + [if late then Task(task.rid, Status(DeadlineExceeded)) else task])
      else released
  }

  /** What a handler run may end with: its own response, to be cached, or its failure, which is not. */
  predicate Honest(rid: Rid, reply: Reply, cache: bool) {
    if cache then reply == Answered(rid) else reply.Failed? && reply.exec == rid
  }

  /** The run for `rid` is under way and may end so; it ends as cancelled only if its context is. */
  predicate Ends(s: Server, rid: Rid, reply: Reply, cache: bool) {
    && rid in s.executing && rid < |s.requests| && Honest(rid, reply, cache)
    && (reply == Failed(rid, CancelledCode) ==> rid in s.stopped)
  }

  function Step(s: Server, a: Action): (s': Server) {
    match a
    case Connect(c, shard) => if c in s.conns then s else s.(conns := s.conns[c := Conn(shard, true, map[])])
    case InlineBegin =>
      if s.inflight >= s.maxInflight then s else s.(inflight := s.inflight + 1, inline := s.inline + 1)
    case InlineEnd => if s.inline == 0 then s else s.(inflight := s.inflight - 1, inline := s.inline - 1)
    case Acquire(c, id, key, body) =>
      if !Free(s, c) || s.inflight >= s.maxInflight then s
      else
        var rid := |s.requests|;
        s.(requests := s.requests + [Request(c, id, key, body)], acquired := s.acquired + {rid},
           inflight := s.inflight + 1, busy := s.busy[s.conns[c].shard := Acquired(rid)])
    case AddRequest(shard) =>
      if shard in s.busy && s.busy[shard].Acquired? && s.busy[shard].rid < |s.requests| then StepAdd(s, shard) else s
    case Lookup(shard) =>
      if shard in s.busy && s.busy[shard].Listed? && s.busy[shard].rid < |s.requests|
          && s.requests[s.busy[shard].rid].key.Some?
      then StepLookup(s, shard) else s
    case CompleteExec(rid, reply, cache) =>
      if Ends(s, rid, reply, cache) then StepExec(s, rid, reply, cache) else s
    case Finish(task, late) =>
      if task in s.posted && task.rid < |s.requests| && OwnerFree(s, task.rid) then StepFinish(s, task, late) else s
    case Cancel(c, id) =>
      if Free(s, c) && id in s.conns[c].requests && s.conns[c].requests[id] < |s.requests| then
        var rid := s.conns[c].requests[id];
        var purged := Purge(s, rid);
        purged.(posted := s.posted + {Task(rid, Status(CancelledCode))}, stopped := s.stopped + {rid})
      else s
    case Close(c) =>
      if Free(s, c)
      then s.(detached := s.detached + s.conns[c].requests.Values,
          conns := s.conns[c := s.conns[c].(live := false, requests := map[])])
      else s
    case AbandonMark(rid) =>
      if rid !in s.detached then s
      else
        var taken := s.(detached := s.detached - {rid});
        if rid !in s.live then taken
        else taken.(live := s.live - {rid}, inflight := s.inflight - 1, purging := s.purging + {rid},
                    stopped := s.stopped + {rid})
    case AbandonPurge(rid) =>
      if rid in s.purging && rid < |s.requests| then Purge(s.(purging := s.purging - {rid}), rid) else s
  }

  /** The shard that owns a request is not in the middle of admitting another. */
  predicate OwnerFree(s: Server, rid: Rid)
    requires rid < |s.requests|
  {
    var c := s.requests[rid].conn;
    c in s.conns ==> s.conns[c].shard !in s.busy
  }

  // ---------------------------------------------------------------------------------------------
  // The invariant
  // ---------------------------------------------------------------------------------------------

  ghost predicate Within(rids: set<Rid>, n: nat) {
    forall r :: r in rids ==> r < n
  }

  ghost predicate Known(s: Server) {
    && Within(s.live, |s.requests|) && Within(s.acquired, |s.requests|) && Within(s.detached, |s.requests|)
    && Within(s.purging, |s.requests|) && Within(s.executing, |s.requests|) && Within(s.tainted, |s.requests|)
    && s.live !! s.acquired && s.live !! s.purging && s.acquired !! s.executing && s.acquired !! s.purging
  }

  /** The in-flight count is the number of admitted requests that have not completed, with those being admitted. */
  ghost predicate Counted(s: Server) {
    s.inflight == |s.live| + |s.acquired| + s.inline && s.inflight <= s.maxInflight
  }

  /** A request that has just been listed is nowhere else yet. */
  ghost predicate StageOk(s: Server, shard: nat)
    requires shard in s.busy
  {
    var rid := s.busy[shard].rid;
    && rid < |s.requests| && s.requests[rid].conn in s.conns && s.conns[s.requests[rid].conn].shard == shard
    && s.conns[s.requests[rid].conn].live
    && (s.busy[shard].Acquired? ==> rid in s.acquired)
    && (s.busy[shard].Listed? ==> rid in s.live && s.requests[rid].key.Some?)
    && rid !in s.executing && rid !in s.tainted
  }

  ghost predicate Stages(s: Server) {
    forall shard :: shard in s.busy ==> StageOk(s, shard)
  }

  /** The request map of an open connection holds exactly its uncompleted requests. */
  ghost predicate ConnOk(s: Server, c: nat)
    requires c in s.conns
  {
    && (forall id :: id in s.conns[c].requests ==>
          var rid := s.conns[c].requests[id];
          rid in s.live && rid < |s.requests| && s.requests[rid].conn == c && s.requests[rid].id == id)
    && (!s.conns[c].live ==> s.conns[c].requests == map[])
  }

  ghost predicate LiveOk(s: Server, rid: Rid) {
    && rid < |s.requests|
    && var r := s.requests[rid];
    && r.conn in s.conns
    && (if s.conns[r.conn].live then r.id in s.conns[r.conn].requests && s.conns[r.conn].requests[r.id] == rid
        else rid in s.detached)
  }

  /** The requests of a closed connection that are still to be abandoned. */
  ghost predicate DetachedOk(s: Server, rid: Rid) {
    rid < |s.requests| && s.requests[rid].conn in s.conns && !s.conns[s.requests[rid].conn].live
  }

  ghost predicate Conns(s: Server) {
    && (forall c :: c in s.conns ==> ConnOk(s, c))
    && (forall rid :: rid in s.live ==> LiveOk(s, rid))
    && (forall rid :: rid in s.detached ==> DetachedOk(s, rid))
  }

  /** The answer of a run for the same key, and for the same body unless the run lost its record. */
  ghost predicate ReplyOk(s: Server, key: Option<string>, body: string, reply: Reply) {
    !reply.Status? ==>
      && reply.exec < |s.requests| && s.requests[reply.exec].key == key
      && (s.requests[reply.exec].body == body || reply.exec in s.tainted)
  }

  ghost predicate WaiterOk(s: Server, key: string, body: string, w: Rid) {
    && w < |s.requests| && s.requests[w].key == Some(key) && s.requests[w].body == body
    && w !in s.acquired && !IsListed(s, w)
  }

  /** The shard is between listing the request and looking its key up. */
  ghost predicate IsListed(s: Server, rid: Rid) {
    exists shard :: shard in s.busy && s.busy[shard] == Listed(rid)
  }

  ghost predicate RecordOk(s: Server, key: string)
    requires key in s.records
  {
    var record := s.records[key];
    if record.pending then
      && record.waiters != [] && (forall w :: w in record.waiters ==> WaiterOk(s, key, record.body, w))
      && record.leader in s.executing && record.leader !in s.tainted && record.leader < |s.requests|
      && s.requests[record.leader].key == Some(key) && s.requests[record.leader].body == record.body
    else
      record.waiters == [] && key in s.completedKeys && ReplyOk(s, Some(key), record.body, record.response)
  }

  ghost predicate Records(s: Server) {
    |s.records| <= s.capacity && forall k :: k in s.records ==> RecordOk(s, k)
  }

  /** A run for a key that has not lost its record leads the pending record of that key. */
  ghost predicate Runs(s: Server) {
    forall e :: e in s.executing ==> RunOk(s, e)
  }

  ghost predicate RunOk(s: Server, e: Rid) {
    && e < |s.requests|
    && (s.requests[e].key.Some? && e !in s.tainted ==>
          var k := s.requests[e].key.value;
          k in s.records && s.records[k].pending && s.records[k].leader == e)
  }

  ghost predicate HasTask(s: Server, rid: Rid) {
    exists t :: t in s.posted && t.rid == rid
  }

  /** An uncompleted request waits for its run, waits in its key's record, or is about to be finished. */
  ghost predicate Placed(s: Server, rid: Rid) {
    && rid < |s.requests|
    && (|| IsListed(s, rid) || HasTask(s, rid)
    || (match s.requests[rid].key
        case None => rid in s.executing
        case Some(k) => k in s.records && s.records[k].pending && rid in s.records[k].waiters))
  }

  ghost predicate Members(s: Server) {
    forall rid :: rid in s.live ==> Placed(s, rid)
  }

  ghost predicate TaskOk(s: Server, t: Task) {
    t.rid < |s.requests| && t.rid !in s.acquired && !IsListed(s, t.rid)
        && ReplyOk(s, s.requests[t.rid].key, s.requests[t.rid].body, t.reply)
  }

  ghost predicate Replies(s: Server) {
    && (forall t :: t in s.posted ==> TaskOk(s, t))
    && (forall i :: 0 <= i < |s.sent| ==> TaskOk(s, s.sent[i]) && s.sent[i].rid !in s.live)
    && (forall i, j :: 0 <= i < j < |s.sent| ==> s.sent[i].rid != s.sent[j].rid)
  }

  ghost predicate Inv(s: Server) {
    Known(s) && Counted(s) && Stages(s) && Conns(s) && Records(s) && Runs(s) && Members(s) && Replies(s)
  }

  // ---------------------------------------------------------------------------------------------
  // Frames
  // ---------------------------------------------------------------------------------------------

  /** Requests are never changed, and runs that lost their record stay so. */
  ghost predicate Grown(s: Server, s': Server) {
    && |s.requests| <= |s'.requests| && (forall r :: 0 <= r < |s.requests| ==> s'.requests[r] == s.requests[r])
    && s.tainted <= s'.tainted
  }

  lemma ReplyGrown(s: Server, s': Server, key: Option<string>, body: string, reply: Reply)
    requires Grown(s, s') && ReplyOk(s, key, body, reply)
    ensures ReplyOk(s', key, body, reply)
  {
  }

  lemma SameConns(s: Server, s': Server)
    requires Grown(s, s') && Conns(s) && s'.live == s.live && s'.conns == s.conns
    requires s'.detached <= s.detached && forall r :: r in s.live && r in s.detached ==> r in s'.detached
    ensures Conns(s')
  {
    forall c | c in s'.conns ensures ConnOk(s', c) { assert ConnOk(s, c); }
    forall rid | rid in s'.live ensures LiveOk(s', rid) { assert LiveOk(s, rid); }
    forall rid | rid in s'.detached ensures DetachedOk(s', rid) { assert DetachedOk(s, rid); }
  }

  lemma RecordKept(s: Server, s': Server, k: string)
    requires Grown(s, s') && k in s.records && RecordOk(s, k) && k in s'.records && s'.records[k] == s.records[k]
    requires s.records[k].pending ==> s.records[k].leader in s'.executing && s.records[k].leader !in s'.tainted
    requires !s.records[k].pending ==> k in s'.completedKeys
    requires forall w :: w in s.records[k].waiters && WaiterOk(s, k, s.records[k].body, w) ==>
      w !in s'.acquired && !IsListed(s', w)
    ensures RecordOk(s', k)
  {
    if !s.records[k].pending {
      ReplyGrown(s, s', Some(k), s.records[k].body, s.records[k].response);
    } else {
      forall w | w in s.records[k].waiters ensures WaiterOk(s', k, s.records[k].body, w) {
        assert WaiterOk(s, k, s.records[k].body, w);
      }
    }
  }

  lemma SameRecords(s: Server, s': Server)
    requires Grown(s, s') && Records(s) && s'.records == s.records && s'.capacity == s.capacity
    requires s'.completedKeys == s.completedKeys && s'.executing >= s.executing && s'.tainted == s.tainted
    requires forall r: Rid :: r < |s.requests| && r in s'.acquired ==> r in s.acquired
    requires forall r: Rid :: IsListed(s', r) ==> IsListed(s, r) || r in s.acquired
    ensures Records(s')
  {
    forall k | k in s'.records ensures RecordOk(s', k) {
      assert RecordOk(s, k);
      RecordKept(s, s', k);
    }
  }

  lemma SameRuns(s: Server, s': Server)
    requires Grown(s, s') && Runs(s) && s'.records == s.records && s'.executing <= s.executing
    requires s'.tainted == s.tainted
    ensures Runs(s')
  {
    forall e | e in s'.executing ensures RunOk(s', e) { assert RunOk(s, e); }
  }

  lemma SameReplies(s: Server, s': Server)
    requires Grown(s, s') && Replies(s) && s'.posted == s.posted && s'.sent == s.sent
    requires forall r: Rid :: r < |s.requests| && r in s'.acquired ==> r in s.acquired
    requires forall r: Rid :: IsListed(s', r) ==> IsListed(s, r) || r in s.acquired
    requires forall r: Rid :: r in s'.live && r !in s.live ==> r in s.acquired
    ensures Replies(s')
  {
    forall t | t in s'.posted ensures TaskOk(s', t) {
      assert TaskOk(s, t);
      ReplyGrown(s, s', s.requests[t.rid].key, s.requests[t.rid].body, t.reply);
    }
    forall i | 0 <= i < |s'.sent| ensures TaskOk(s', s'.sent[i]) && s'.sent[i].rid !in s'.live {
      assert TaskOk(s, s.sent[i]);
      ReplyGrown(s, s', s.requests[s.sent[i].rid].key, s.requests[s.sent[i].rid].body, s.sent[i].reply);
    }
  }

  // ---------------------------------------------------------------------------------------------
  // Admission
  // ---------------------------------------------------------------------------------------------

  lemma SameCounted(s: Server, s': Server)
    requires Known(s) && Counted(s) && s' == s.(conns := s'.conns)
    ensures Known(s') && Counted(s')
  {
  }

  lemma ConnectConns(s: Server, c: nat, shard: nat)
    requires Stages(s) && Conns(s) && c !in s.conns
    ensures var s' := Step(s, Connect(c, shard)); Stages(s') && Conns(s')
  {
    var s' := Step(s, Connect(c, shard));
    forall x | x in s'.busy ensures StageOk(s', x) { assert StageOk(s, x); }
    forall x | x in s'.conns ensures ConnOk(s', x) { if x != c { assert ConnOk(s, x); } }
    forall rid | rid in s'.live ensures LiveOk(s', rid) { assert LiveOk(s, rid); }
    forall rid | rid in s'.detached ensures DetachedOk(s', rid) { assert DetachedOk(s, rid); }
  }

  lemma ConnectKeeps(s: Server, c: nat, shard: nat)
    requires Inv(s)
    ensures Inv(Step(s, Connect(c, shard)))
  {
    hide Known, Counted, Stages, Conns, Records, Runs, Members, Replies;
    var s' := Step(s, Connect(c, shard));
    if c !in s.conns {
      assert Known(s') && Counted(s') by { SameCounted(s, s'); }
      ConnectConns(s, c, shard);
      SameListed(s, s');
      SameMembers(s, s');
      SameRecords(s, s');
      SameRuns(s, s');
      SameReplies(s, s');
    }
  }

  lemma SameMembers(s: Server, s': Server)
    requires Grown(s, s') && Members(s) && s'.posted >= s.posted && s'.live <= s.live && s'.records == s.records
    requires s'.executing >= s.executing && forall r: Rid :: IsListed(s, r) ==> IsListed(s', r)
    ensures Members(s')
  {
    forall rid | rid in s'.live ensures Placed(s', rid) {
      SamePlace(s, s', rid);
    }
  }

  lemma SameStages(s: Server, s': Server)
    requires Grown(s, s') && Stages(s) && s'.busy == s.busy && s'.conns == s.conns
    requires s'.acquired == s.acquired && s'.live == s.live && s'.executing <= s.executing
    requires s'.tainted <= s.tainted + s.executing
    ensures Stages(s')
  {
    forall x | x in s'.busy ensures StageOk(s', x) { assert StageOk(s, x); }
  }

  lemma SameListed(s: Server, s': Server)
    requires s'.busy == s.busy
    ensures forall r: Rid :: IsListed(s', r) <==> IsListed(s, r)
  {
    forall r: Rid ensures IsListed(s', r) <==> IsListed(s, r) { }
  }

  lemma SamePlace(s: Server, s': Server, rid: Rid)
    requires Grown(s, s') && Placed(s, rid) && s'.posted >= s.posted
    requires IsListed(s, rid) ==> IsListed(s', rid)
    requires rid in s.executing ==> rid in s'.executing
    requires forall k :: k in s.records && s.records[k].pending && rid in s.records[k].waiters ==>
      k in s'.records && s'.records[k].pending && rid in s'.records[k].waiters
    ensures Placed(s', rid)
  {
    if HasTask(s, rid) {
      var t :| t in s.posted && t.rid == rid;
      assert t in s'.posted;
    }
  }

  lemma InlineKeeps(s: Server, s': Server)
    requires Inv(s) && s' == s.(inflight := s'.inflight, inline := s'.inline) && Counted(s')
    ensures Inv(s')
  {
    hide Counted, Stages, Conns, Records, Runs, Members, Replies;
    SameListed(s, s');
    SameStages(s, s');
    SameConns(s, s');
    SameRecords(s, s');
    SameRuns(s, s');
    SameMembers(s, s');
    SameReplies(s, s');
  }

  lemma AcquireKeeps(s: Server, c: nat, id: nat, key: Option<string>, body: string)
    requires Inv(s) && Free(s, c) && s.inflight < s.maxInflight
    ensures Inv(Step(s, Acquire(c, id, key, body)))
  {
    var s' := Step(s, Acquire(c, id, key, body));
    assert Counted(s') && Known(s') by { hide Stages, Conns, Records, Runs, Members, Replies; }
    hide Known, Counted, Stages, Conns, Records, Runs, Members, Replies;
    AcquiredStages(s, s', c);
    SameConns(s, s');
    SameRecords(s, s');
    SameRuns(s, s');
    SameMembers(s, s');
    SameReplies(s, s');
  }

  lemma AcquiredStages(s: Server, s': Server, c: nat)
    requires Known(s) && Stages(s) && Free(s, c) && s'.conns == s.conns && s'.live == s.live
    requires s'.executing == s.executing && s'.tainted == s.tainted
    requires |s'.requests| == |s.requests| + 1 && s'.requests == s.requests + [s'.requests[|s.requests|]]
    requires s'.requests[|s.requests|].conn == c
    requires s'.acquired == s.acquired + {|s.requests|} && s'.busy == s.busy[s.conns[c].shard := Acquired(|s.requests|)]
    ensures Stages(s') && forall r: Rid :: IsListed(s', r) <==> IsListed(s, r)
  {
    forall x | x in s'.busy ensures StageOk(s', x) { if x != s.conns[c].shard { assert StageOk(s, x); } }
    forall r: Rid ensures IsListed(s', r) <==> IsListed(s, r) {
      if IsListed(s, r) {
        var x :| x in s.busy && s.busy[x] == Listed(r);
        assert s'.busy[x] == Listed(r);
      }
    }
  }

  /** The entry of a shard that ends its admission. */
  lemma Unlisted(s: Server, s': Server, shard: nat)
    requires Stages(s) && shard in s.busy && s'.busy == s.busy - {shard}
    ensures forall r: Rid :: r != s.busy[shard].rid ==> (IsListed(s', r) <==> IsListed(s, r))
    ensures !IsListed(s', s.busy[shard].rid)
  {
    var rid := s.busy[shard].rid;
    assert StageOk(s, shard);
    forall r: Rid | r != rid ensures IsListed(s', r) <==> IsListed(s, r) {
      if IsListed(s, r) {
        var x :| x in s.busy && s.busy[x] == Listed(r);
        assert s'.busy[x] == Listed(r);
      }
    }
  }

  lemma RefusedKeeps(s: Server, s': Server, shard: nat)
    requires Inv(s) && shard in s.busy && s.busy[shard].Acquired?
    requires s' == s.(acquired := s.acquired - {s.busy[shard].rid}, busy := s.busy - {shard},
        inflight := s.inflight - 1)
    ensures Inv(s')
  {
    hide Known, Counted, Stages, StageOk, Conns, Records, Runs, Members, Replies;
    RefusedCounted(s, s', shard);
    Unlisted(s, s', shard);
    AcquiredUnlisted(s, s.busy[shard].rid);
    RefusedStages(s, s', shard);
    SameConns(s, s');
    SameRecords(s, s');
    SameRuns(s, s');
    SameMembers(s, s');
    SameReplies(s, s');
  }

  lemma RefusedCounted(s: Server, s': Server, shard: nat)
    requires Known(s) && Counted(s) && Stages(s) && shard in s.busy && s.busy[shard].Acquired?
    requires s' == s.(acquired := s.acquired - {s.busy[shard].rid}, busy := s.busy - {shard},
        inflight := s.inflight - 1)
    ensures Known(s') && Counted(s') && s.busy[shard].rid in s.acquired
  {
    assert StageOk(s, shard);
    assert |s.acquired| == |s'.acquired| + 1;
  }

  lemma RefusedStages(s: Server, s': Server, shard: nat)
    requires Stages(s) && shard in s.busy
    requires s' == s.(acquired := s.acquired - {s.busy[shard].rid}, busy := s.busy - {shard},
        inflight := s.inflight - 1)
    ensures Stages(s')
  {
    assert StageOk(s, shard);
    forall x | x in s'.busy ensures StageOk(s', x) { assert StageOk(s, x); }
  }

  lemma AcquiredUnlisted(s: Server, rid: Rid)
    requires Known(s) && Stages(s) && rid in s.acquired
    ensures !IsListed(s, rid)
  {
  }

  /** The request enters its connection's map. */
  ghost predicate Added(s: Server, s': Server, shard: nat) {
    && shard in s.busy && s.busy[shard].Acquired? && s.busy[shard].rid < |s.requests|
    && var rid := s.busy[shard].rid;
    && var r := s.requests[rid];
    && r.conn in s.conns && s.conns[r.conn].live && r.id !in s.conns[r.conn].requests
    && s'.acquired == s.acquired - {rid} && s'.live == s.live + {rid}
    && s'.conns == s.conns[r.conn := s.conns[r.conn].(requests := s.conns[r.conn].requests[r.id := rid])]
    && s'.requests == s.requests && s'.detached == s.detached && s'.purging == s.purging && s'.tainted == s.tainted
    && s'.records == s.records && s'.completedKeys == s.completedKeys && s'.capacity == s.capacity
    && s'.posted == s.posted && s'.sent == s.sent
  }

  lemma AddedConns(s: Server, s': Server, shard: nat)
    requires Added(s, s', shard) && Conns(s) && Known(s) && s.busy[shard].rid in s.acquired
    ensures Conns(s')
  {
    var rid := s.busy[shard].rid;
    forall c | c in s'.conns ensures ConnOk(s', c) { assert ConnOk(s, c); }
    forall x | x in s'.live ensures LiveOk(s', x) { if x != rid { assert LiveOk(s, x); } }
    forall x | x in s'.detached ensures DetachedOk(s', x) { assert DetachedOk(s, x); }
  }

  /** Stages of the other shards, whose requests belong to other connections. */
  lemma AddedStages(s: Server, s': Server, shard: nat, x: nat)
    requires Added(s, s', shard) && StageOk(s, shard) && x in s.busy && StageOk(s, x) && x != shard
    requires x in s'.busy && s'.busy[x] == s.busy[x] && s'.executing <= s.executing + {s.busy[shard].rid}
    ensures StageOk(s', x)
  {
  }

  lemma AddedNumbers(s: Server, s': Server, shard: nat)
    requires Added(s, s', shard) && Known(s) && Counted(s) && s.busy[shard].rid in s.acquired
    requires s'.inflight == s.inflight && s'.inline == s.inline && s'.maxInflight == s.maxInflight
    requires s'.executing == s.executing || s'.executing == s.executing + {s.busy[shard].rid}
    ensures Known(s') && Counted(s')
  {
    assert |s'.live| == |s.live| + 1;
  }

  lemma AddedMembers(s: Server, s': Server, shard: nat)
    requires Added(s, s', shard) && Members(s) && s'.executing >= s.executing
    requires forall r: Rid :: r != s.busy[shard].rid && IsListed(s, r) ==> IsListed(s', r)
    requires IsListed(s', s.busy[shard].rid)
        || (s.requests[s.busy[shard].rid].key.None? && s.busy[shard].rid in s'.executing)
    ensures Members(s')
  {
    forall x | x in s'.live ensures Placed(s', x) {
      if x != s.busy[shard].rid { SamePlace(s, s', x); }
    }
  }

  lemma AddedPlainRuns(s: Server, s': Server, shard: nat)
    requires Added(s, s', shard) && Runs(s) && s.requests[s.busy[shard].rid].key.None?
    requires s'.executing == s.executing + {s.busy[shard].rid}
    ensures Runs(s')
  {
    forall e | e in s'.executing ensures RunOk(s', e) {
      if e != s.busy[shard].rid { assert RunOk(s, e); }
    }
  }

  lemma AddedPlainStages(s: Server, s': Server, shard: nat)
    requires Added(s, s', shard) && Stages(s) && s'.busy == s.busy - {shard}
    requires s'.executing == s.executing + {s.busy[shard].rid}
    ensures Stages(s')
  {
    assert StageOk(s, shard);
    forall x | x in s'.busy ensures StageOk(s', x) {
      assert StageOk(s, x);
      AddedStages(s, s', shard, x);
    }
  }

  lemma AddedKeyedStages(s: Server, s': Server, shard: nat)
    requires Added(s, s', shard) && Stages(s) && s'.busy == s.busy[shard := Listed(s.busy[shard].rid)]
    requires s'.executing == s.executing
    requires s.requests[s.busy[shard].rid].key.Some? && s.busy[shard].rid !in s.executing
    ensures Stages(s')
  {
    assert StageOk(s, shard);
    forall x | x in s'.busy ensures StageOk(s', x) {
      assert StageOk(s, x);
      if x != shard { AddedStages(s, s', shard, x); }
    }
  }

  lemma AddedRest(s: Server, s': Server, shard: nat)
    requires Added(s, s', shard) && Known(s) && Records(s) && Replies(s) && s.busy[shard].rid in s.acquired
    requires s'.executing >= s.executing && forall r: Rid :: IsListed(s', r) ==> IsListed(s, r) || r in s.acquired
    ensures Records(s') && Replies(s')
  {
    hide Records, Replies;
    SameRecords(s, s');
    SameReplies(s, s');
  }

  lemma AddPlainKeeps(s: Server, s': Server, shard: nat)
    requires Inv(s) && Added(s, s', shard) && s.requests[s.busy[shard].rid].key.None?
    requires s' == s.(live := s'.live, acquired := s'.acquired, conns := s'.conns, busy := s.busy - {shard},
                      executing := s.executing + {s.busy[shard].rid})
    ensures Inv(s')
  {
    assert StageOk(s, shard);
    hide Known, Counted, Stages, Conns, Records, Runs, Members, Replies, Added;
    Unlisted(s, s', shard);
    AcquiredUnlisted(s, s.busy[shard].rid);
    AddedNumbers(s, s', shard);
    AddedPlainStages(s, s', shard);
    AddedConns(s, s', shard);
    AddedPlainRuns(s, s', shard);
    AddedMembers(s, s', shard);
    AddedRest(s, s', shard);
  }

  lemma AddKeyedKeeps(s: Server, s': Server, shard: nat)
    requires Inv(s) && Added(s, s', shard) && s.requests[s.busy[shard].rid].key.Some?
    requires s' == s.(live := s'.live, acquired := s'.acquired, conns := s'.conns,
        busy := s.busy[shard := Listed(s.busy[shard].rid)])
    ensures Inv(s')
  {
    assert StageOk(s, shard) && s.busy[shard].rid !in s.executing;
    assert Grown(s, s');
    hide Known, Counted, Stages, Conns, Records, Runs, Members, Replies, Added;
    Relisted(s, s', shard);
    AddedNumbers(s, s', shard);
    AddedKeyedStages(s, s', shard);
    AddedConns(s, s', shard);
    SameRuns(s, s');
    AddedMembers(s, s', shard);
    AddedRest(s, s', shard);
  }

  lemma Relisted(s: Server, s': Server, shard: nat)
    requires shard in s.busy && s.busy[shard].Acquired? && s'.busy == s.busy[shard := Listed(s.busy[shard].rid)]
    ensures forall r: Rid :: IsListed(s', r) <==> IsListed(s, r) || r == s.busy[shard].rid
  {
    forall r: Rid ensures IsListed(s', r) <==> IsListed(s, r) || r == s.busy[shard].rid {
      if IsListed(s, r) {
        var x :| x in s.busy && s.busy[x] == Listed(r);
        assert s'.busy[x] == Listed(r);
      }
      if r == s.busy[shard].rid { assert s'.busy[shard] == Listed(r); }
    }
  }

  lemma StageAt(s: Server, shard: nat)
    requires Inv(s) && shard in s.busy
    ensures StageOk(s, shard)
  {
  }

  lemma RecordAt(s: Server, key: string)
    requires Inv(s) && key in s.records
    ensures RecordOk(s, key)
  {
  }

  lemma AddKeeps(s: Server, shard: nat)
    requires Inv(s)
    ensures Inv(Step(s, AddRequest(shard)))
  {
    hide Inv;
    if shard in s.busy && s.busy[shard].Acquired? {
      StageAt(s, shard);
      var s' := StepAdd(s, shard);
      var r := s.requests[s.busy[shard].rid];
      if |s.conns[r.conn].requests| >= s.maxPerConn || r.id in s.conns[r.conn].requests {
        RefusedKeeps(s, s', shard);
      } else if r.key.None? {
        AddPlainKeeps(s, s', shard);
      } else {
        AddKeyedKeeps(s, s', shard);
      }
    }
  }

  // ---------------------------------------------------------------------------------------------
  // Looking a key up
  // ---------------------------------------------------------------------------------------------

  /** Pruning keeps pending records, keeps settled ones listed, and leaves a full cache only if all of it is pending. */
  lemma {:induction false} PruneOk(records: map<string, Record>, keys: seq<string>, capacity: nat)
    requires forall k :: k in records && !records[k].pending ==> k in keys
    ensures var r := Prune(records, keys, capacity);
      && |r.0| <= |records| && (forall k :: k in r.0 && !r.0[k].pending ==> k in r.1)
      && (forall k :: k in records && records[k].pending ==> k in r.0 && r.0[k] == records[k])
      && (|r.0| < capacity || forall k :: k in r.0 ==> r.0[k].pending)
    decreases |keys|
  {
    if |records| < capacity || keys == [] {
    } else if keys[0] in records && !records[keys[0]].pending {
      assert (records - {keys[0]}).Keys == records.Keys - {keys[0]};
      PruneOk(records - {keys[0]}, keys[1..], capacity);
    } else {
      PruneOk(records, keys[1..], capacity);
    }
  }

  lemma PrunedRecords(s: Server, s': Server)
    requires Records(s)
    requires s' == s.(records := Prune(s.records, s.completedKeys, s.capacity).0,
        completedKeys := Prune(s.records, s.completedKeys, s.capacity).1)
    ensures Records(s') && (|s'.records| < s.capacity || forall k :: k in s'.records ==> s'.records[k].pending)
  {
    assert forall k :: k in s.records ==> RecordOk(s, k);
    PruneOk(s.records, s.completedKeys, s.capacity);
    hide Prune;
    SameListed(s, s');
    forall k | k in s'.records ensures RecordOk(s', k) {
      assert RecordOk(s, k);
      RecordKept(s, s', k);
    }
  }

  lemma PruneKeeps(s: Server, s': Server)
    requires Inv(s)
    requires s' == s.(records := Prune(s.records, s.completedKeys, s.capacity).0,
        completedKeys := Prune(s.records, s.completedKeys, s.capacity).1)
    ensures Inv(s') && (|s'.records| < s.capacity || forall k :: k in s'.records ==> s'.records[k].pending)
  {
    assert Runs(s') && Members(s') by {
      hide Known, Counted, Stages, Conns, Records, Replies;
      SameListed(s, s');
      PrunedMembers(s, s');
    }
    hide Known, Counted, Stages, Conns, Records, Runs, Members, Replies, Prune;
    assert Known(s') && Counted(s') by { SameNumbers(s, s'); }
    PrunedRecords(s, s');
    SameListed(s, s');
    SameStages(s, s');
    SameConns(s, s');
    SameReplies(s, s');
  }

  lemma SameNumbers(s: Server, s': Server)
    requires Known(s) && Counted(s) && s'.live == s.live && s'.acquired == s.acquired && s'.detached == s.detached
    requires s'.purging == s.purging && s'.executing == s.executing && s'.tainted == s.tainted
    requires s'.requests == s.requests
    requires s'.inflight == s.inflight && s'.inline == s.inline && s'.maxInflight == s.maxInflight
    ensures Known(s') && Counted(s')
  {
  }

  lemma PrunedMembers(s: Server, s': Server)
    requires Runs(s) && Members(s) && s'.requests == s.requests && s'.executing == s.executing
    requires s'.tainted == s.tainted
    requires s'.live == s.live && s'.posted == s.posted && s'.busy == s.busy
    requires forall k :: k in s.records && s.records[k].pending ==> k in s'.records && s'.records[k] == s.records[k]
    ensures Runs(s') && Members(s')
  {
    forall e | e in s'.executing ensures RunOk(s', e) { assert RunOk(s, e); }
    SameListed(s, s');
    forall rid | rid in s'.live ensures Placed(s', rid) { SamePlace(s, s', rid); }
  }

  /** The stages of the other shards when one is done. */
  lemma DoneStages(s: Server, s': Server, shard: nat)
    requires Stages(s) && shard in s.busy && s.busy[shard].Listed? && s'.busy == s.busy - {shard}
    requires s'.requests == s.requests && s'.conns == s.conns && s'.acquired == s.acquired && s'.live == s.live
    requires s'.executing <= s.executing + {s.busy[shard].rid} && s'.tainted == s.tainted
    ensures Stages(s')
  {
    assert StageOk(s, shard);
    forall x | x in s'.busy ensures StageOk(s', x) { assert StageOk(s, x); }
  }

  lemma OneTask(s: Server, s': Server, t: Task)
    requires Replies(s) && Grown(s, s') && s'.posted == s.posted + {t} && s'.sent == s.sent && TaskOk(s', t)
    requires s'.acquired == s.acquired && s'.live == s.live
    requires forall r: Rid :: IsListed(s', r) ==> IsListed(s, r)
    ensures Replies(s')
  {
    forall x | x in s'.posted ensures TaskOk(s', x) {
      if x != t {
        assert TaskOk(s, x);
        ReplyGrown(s, s', s.requests[x.rid].key, s.requests[x.rid].body, x.reply);
      }
    }
    forall i | 0 <= i < |s'.sent| ensures TaskOk(s', s'.sent[i]) && s'.sent[i].rid !in s'.live {
      assert TaskOk(s, s.sent[i]);
      ReplyGrown(s, s', s.requests[s.sent[i].rid].key, s.requests[s.sent[i].rid].body, s.sent[i].reply);
    }
  }

  /** The request is answered at once. */
  lemma PostKeeps(s: Server, s': Server, shard: nat, reply: Reply)
    requires Inv(s) && shard in s.busy && s.busy[shard].Listed? && s.busy[shard].rid < |s.requests|
    requires s' == s.(busy := s.busy - {shard}, posted := s.posted + {Task(s.busy[shard].rid, reply)})
    requires ReplyOk(s, s.requests[s.busy[shard].rid].key, s.requests[s.busy[shard].rid].body, reply)
    ensures Inv(s')
  {
    var rid := s.busy[shard].rid;
    assert StageOk(s, shard) && rid !in s.acquired;
    hide Known, Counted, Stages, Conns, Records, Runs, Members, Replies;
    Unlisted(s, s', shard);
    SameNumbers(s, s');
    DoneStages(s, s', shard);
    SameConns(s, s');
    SameRecords(s, s');
    SameRuns(s, s');
    OneTask(s, s', Task(rid, reply));
    PostedMembers(s, s', rid);
  }

  lemma PostedMembers(s: Server, s': Server, rid: Rid)
    requires Members(s) && s'.requests == s.requests && s'.live == s.live && s'.records == s.records
    requires s'.executing == s.executing
    requires s'.tainted == s.tainted && s'.posted >= s.posted && HasTask(s', rid)
    requires forall r: Rid :: r != rid && IsListed(s, r) ==> IsListed(s', r)
    ensures Members(s')
  {
    forall x | x in s'.live ensures Placed(s', x) {
      assert Placed(s, x);
      if x != rid { SamePlace(s, s', x); }
    }
  }

  /** The request joins a pending record of the same body. */
  lemma JoinKeeps(s: Server, s': Server, shard: nat, key: string)
    requires Inv(s) && shard in s.busy && s.busy[shard].Listed? && s.busy[shard].rid < |s.requests|
    requires s.requests[s.busy[shard].rid].key == Some(key) && key in s.records && s.records[key].pending
    requires s.records[key].body == s.requests[s.busy[shard].rid].body
    requires s' == s.(busy := s.busy - {shard},
        records := s.records[key := s.records[key].(waiters := s.records[key].waiters + [s.busy[shard].rid])])
    ensures Inv(s')
  {
    var rid := s.busy[shard].rid;
    assert StageOk(s, shard) && rid !in s.acquired;
    Unlisted(s, s', shard);
    assert Records(s') by { hide Known, Counted, Stages, Conns, Runs, Members, Replies; JoinRecords(s, s', rid, key); }
    assert Runs(s') by {
      hide Known, Counted, Stages, Conns, Records, Members, Replies;
      forall e | e in s'.executing ensures RunOk(s', e) { assert RunOk(s, e); }
    }
    assert Members(s') by { hide Known, Counted, Stages, Conns, Records, Runs, Replies; JoinMembers(s, s', rid, key); }
    hide Known, Counted, Stages, Conns, Records, Runs, Members, Replies;
    SameNumbers(s, s');
    DoneStages(s, s', shard);
    SameConns(s, s');
    SameReplies(s, s');
  }

  lemma JoinRecords(s: Server, s': Server, rid: Rid, key: string)
    requires Records(s) && rid !in s.acquired && rid < |s.requests| && s.requests[rid].key == Some(key)
    requires key in s.records && s.records[key].pending
    requires s.records[key].body == s.requests[rid].body && !IsListed(s', rid)
    requires forall r: Rid :: r != rid && IsListed(s', r) ==> IsListed(s, r)
    requires s' == s.(busy := s'.busy,
                      records := s.records[key := s.records[key].(waiters := s.records[key].waiters + [rid])])
    ensures Records(s')
  {
    assert s'.records.Keys == s.records.Keys;
    assert |s'.records| == |s'.records.Keys| && |s.records| == |s.records.Keys|;
    forall k | k in s'.records ensures RecordOk(s', k) {
      assert RecordOk(s, k);
      forall w | w in s'.records[k].waiters ensures WaiterOk(s', k, s'.records[k].body, w) {
        if w != rid || k != key { assert WaiterOk(s, k, s.records[k].body, w); }
      }
      if !s.records[k].pending { ReplyGrown(s, s', Some(k), s.records[k].body, s.records[k].response); }
    }
  }

  lemma JoinMembers(s: Server, s': Server, rid: Rid, key: string)
    requires Members(s) && rid < |s.requests| && s.requests[rid].key == Some(key) && key in s.records
    requires s.records[key].pending
    requires forall r: Rid :: r != rid && IsListed(s, r) ==> IsListed(s', r)
    requires s' == s.(busy := s'.busy,
                      records := s.records[key := s.records[key].(waiters := s.records[key].waiters + [rid])])
    ensures Members(s')
  {
    forall x | x in s'.live ensures Placed(s', x) {
      assert Placed(s, x);
      if x != rid { SamePlace(s, s', x); }
    }
  }

  /** The request opens a record and leads it. */
  ghost predicate Leads(s: Server, s': Server, shard: nat, key: string) {
    && shard in s.busy && s.busy[shard].Listed? && s.busy[shard].rid < |s.requests|
    && var rid := s.busy[shard].rid;
    && s.requests[rid].key == Some(key) && key !in s.records && |s.records| < s.capacity
    && s' == s.(busy := s.busy - {shard}, executing := s.executing + {rid},
                records := s.records[key := Record(s.requests[rid].body, true, [rid], Status(Internal), rid)])
  }

  lemma LeadRecords(s: Server, s': Server, shard: nat, key: string)
    requires Leads(s, s', shard, key) && Stages(s) && Records(s) && s.busy[shard].rid !in s.acquired
    ensures Records(s')
  {
    hide Stages, StageOk, WaiterOk, RecordOk;
    Unlisted(s, s', shard);
    assert s'.records.Keys == s.records.Keys + {key} && |s'.records| == |s'.records.Keys|
        && |s.records| == |s.records.Keys|;
    LedOk(s, s', shard, key);
    forall k | k in s'.records ensures RecordOk(s', k) {
      if k != key {
        assert RecordOk(s, k);
        LeadOther(s, s', shard, key, k);
      }
    }
  }

  lemma LedOk(s: Server, s': Server, shard: nat, key: string)
    requires Leads(s, s', shard, key) && Stages(s) && Records(s) && s.busy[shard].rid !in s.acquired
    ensures RecordOk(s', key)
  {
    hide Records;
    assert StageOk(s, shard);
    Unlisted(s, s', shard);
    assert WaiterOk(s', key, s.requests[s.busy[shard].rid].body, s.busy[shard].rid);
  }

  lemma LeadOther(s: Server, s': Server, shard: nat, key: string, k: string)
    requires Leads(s, s', shard, key) && k in s.records && RecordOk(s, k)
    requires forall r: Rid :: IsListed(s', r) ==> IsListed(s, r)
    ensures RecordOk(s', k)
  {
    forall w | w in s.records[k].waiters ensures !IsListed(s', w) && w !in s'.acquired {
      assert WaiterOk(s, k, s.records[k].body, w);
    }
    hide WaiterOk, RecordOk;
    RecordKept(s, s', k) by { PendingLeader(s, k); }
  }

  lemma PendingLeader(s: Server, k: string)
    requires k in s.records && RecordOk(s, k)
    ensures s.records[k].pending ==> s.records[k].leader in s.executing && s.records[k].leader !in s.tainted
    ensures !s.records[k].pending ==> k in s.completedKeys
  {
  }

  lemma LeadMembers(s: Server, s': Server, shard: nat, key: string)
    requires Leads(s, s', shard, key) && Stages(s) && Runs(s) && Members(s)
    ensures Runs(s') && Members(s')
  {
    var rid := s.busy[shard].rid;
    assert StageOk(s, shard);
    Unlisted(s, s', shard);
    forall e | e in s'.executing ensures RunOk(s', e) { if e != rid { assert RunOk(s, e); } }
    forall x | x in s'.live ensures Placed(s', x) {
      assert Placed(s, x);
      if x != rid { SamePlace(s, s', x); }
    }
  }

  lemma LeadCounted(s: Server, s': Server, shard: nat, key: string)
    requires Known(s) && Counted(s) && Stages(s) && Leads(s, s', shard, key)
    ensures Known(s') && Counted(s') && s.busy[shard].rid !in s.acquired
  {
    assert StageOk(s, shard);
  }

  lemma LeadKeeps(s: Server, s': Server, shard: nat, key: string)
    requires Inv(s) && Leads(s, s', shard, key)
    ensures Inv(s')
  {
    hide Known, Counted, Stages, StageOk, Conns, Records, Runs, Members, Replies;
    LeadCounted(s, s', shard, key);
    Unlisted(s, s', shard);
    DoneStages(s, s', shard);
    SameConns(s, s');
    LeadRecords(s, s', shard, key);
    LeadMembers(s, s', shard, key);
    SameReplies(s, s');
  }

  lemma LookupKeeps(s: Server, shard: nat)
    requires Inv(s)
    ensures Inv(Step(s, Lookup(shard)))
  {
    hide Inv, Prune;
    if shard in s.busy && s.busy[shard].Listed? {
      StageAt(s, shard);
      var rid := s.busy[shard].rid;
      var r := s.requests[rid];
      var key := r.key.value;
      var s' := StepLookup(s, shard);
      if key in s.records {
        RecordAt(s, key);
        if s.records[key].body != r.body {
          PostKeeps(s, s', shard, Status(AlreadyExists));
        } else if s.records[key].pending {
          JoinKeeps(s, s', shard, key);
        } else {
          PostKeeps(s, s', shard, s.records[key].response);
        }
      } else {
        NewKeyKeeps(s, shard, key);
      }
    }
  }

  lemma NewKeyKeeps(s: Server, shard: nat, key: string)
    requires Inv(s) && shard in s.busy && s.busy[shard].Listed? && s.busy[shard].rid < |s.requests|
    requires s.requests[s.busy[shard].rid].key == Some(key) && key !in s.records
    ensures Inv(StepLookup(s, shard))
  {
    hide Inv, Prune;
    var (records, keys) := Prune(s.records, s.completedKeys, s.capacity);
    var pruned := s.(records := records, completedKeys := keys);
    PruneKeeps(s, pruned);
    if |records| >= s.capacity {
      PostKeeps(pruned, StepLookup(s, shard), shard, Status(ResourceExhausted));
    } else {
      LeadKeeps(pruned, StepLookup(s, shard), shard, key);
    }
  }

  // ---------------------------------------------------------------------------------------------
  // Runs that end
  // ---------------------------------------------------------------------------------------------

  /** A run without a key answers its own request. */
  lemma PlainExecKeeps(s: Server, s': Server, rid: Rid, reply: Reply)
    requires Inv(s) && rid in s.executing && rid < |s.requests| && s.requests[rid].key.None?
    requires !reply.Status? ==> reply.exec == rid
    requires s' == s.(executing := s.executing - {rid}, posted := s.posted + {Task(rid, reply)})
    ensures Inv(s')
  {
    assert Known(s') && Counted(s') by { hide Stages, Conns, Records, Runs, Members, Replies; }
    assert !IsListed(s, rid) by {
      hide Known, Counted, Conns, Records, Runs, Members, Replies;
      RunningUnlisted(s, rid);
    }
    assert rid !in s.acquired;
    SameListed(s, s');
    hide Known, Counted, Stages, Conns, Members, Replies;
    assert Records(s') by {
      hide Runs;
      forall k | k in s'.records ensures RecordOk(s', k) { assert RecordOk(s, k); RecordKept(s, s', k); }
    }
    hide Records, Runs;
    SameStages(s, s');
    SameConns(s, s');
    SameRuns(s, s');
    OneTask(s, s', Task(rid, reply));
    EndedMembers(s, s', rid);
  }

  lemma RunningUnlisted(s: Server, rid: Rid)
    requires Stages(s) && rid in s.executing
    ensures !IsListed(s, rid)
  {
  }

  lemma EndedMembers(s: Server, s': Server, rid: Rid)
    requires Members(s) && s'.requests == s.requests && s'.live == s.live && s'.records == s.records
    requires s'.executing == s.executing - {rid}
    requires s'.tainted == s.tainted && s'.posted >= s.posted && HasTask(s', rid) && s'.busy == s.busy
    ensures Members(s')
  {
    SameListed(s, s');
    forall x | x in s'.live ensures Placed(s', x) {
      assert Placed(s, x);
      if x != rid { SamePlace(s, s', x); }
    }
  }

  /** The run of `rid` resolves the record under its key, whichever record that is. */
  ghost predicate Resolves(s: Server, s': Server, rid: Rid, key: string, reply: Reply, cache: bool) {
    && rid in s.executing && rid < |s.requests| && s.requests[rid].key == Some(key) && key in s.records
        && Honest(rid, reply, cache)
    && var record := s.records[key];
    && s'.tainted == (if record.pending && record.leader != rid then s.tainted + {record.leader} else s.tainted)
    && s' == s.(executing := s.executing - {rid}, posted := s.posted + Tasks(record.waiters, reply),
                tainted := s'.tainted, records := s'.records, completedKeys := s'.completedKeys)
    && (if cache then
          s'.records == s.records[key := record.(pending := false, waiters := [], response := reply)]
              && s'.completedKeys == s.completedKeys + [key]
        else s'.records == s.records - {key} && s'.completedKeys == s.completedKeys)
  }

  /** A run that does not lead the record under its key has lost its own. */
  lemma Strayed(s: Server, rid: Rid, key: string)
    requires Runs(s) && rid in s.executing && rid < |s.requests| && s.requests[rid].key == Some(key)
    requires key !in s.records || !s.records[key].pending || s.records[key].leader != rid
    ensures rid in s.tainted
  {
    assert RunOk(s, rid);
  }

  lemma ResolvedReply(s: Server, s': Server, rid: Rid, key: string, reply: Reply, cache: bool)
    requires Resolves(s, s', rid, key, reply, cache) && Runs(s) && RecordOk(s, key)
    ensures ReplyOk(s', Some(key), s.records[key].body, reply)
  {
    if !s.records[key].pending || s.records[key].leader != rid { Strayed(s, rid, key); }
  }

  lemma ResolvedRecords(s: Server, s': Server, rid: Rid, key: string, reply: Reply, cache: bool)
    requires Resolves(s, s', rid, key, reply, cache) && Known(s) && Records(s) && Runs(s)
    ensures Records(s')
  {
    assert RecordOk(s, key);
    ResolvedReply(s, s', rid, key, reply, cache);
    SameListed(s, s');
    assert s'.records.Keys <= s.records.Keys && |s'.records| == |s'.records.Keys| && |s.records| == |s.records.Keys|;
    SubsetSize(s'.records.Keys, s.records.Keys);
    forall k | k in s'.records ensures RecordOk(s', k) {
      if k != key {
        assert RecordOk(s, k);
        RecordKept(s, s', k);
      }
    }
  }

  lemma SubsetSize<T>(a: set<T>, b: set<T>)
    requires a <= b
    ensures |a| <= |b|
  {
    if a != {} {
      var x :| x in a;
      SubsetSize(a - {x}, b - {x});
    }
  }

  lemma ResolvedRuns(s: Server, s': Server, rid: Rid, key: string, reply: Reply, cache: bool)
    requires Resolves(s, s', rid, key, reply, cache) && Runs(s)
    ensures Runs(s')
  {
    forall e | e in s'.executing ensures RunOk(s', e) { assert RunOk(s, e); }
  }

  lemma ResolvedMembers(s: Server, s': Server, rid: Rid, key: string, reply: Reply, cache: bool)
    requires Resolves(s, s', rid, key, reply, cache) && Members(s)
    ensures Members(s')
  {
    SameListed(s, s');
    forall x | x in s'.live ensures Placed(s', x) {
      assert Placed(s, x);
      if x in s.records[key].waiters {
        assert Task(x, reply) in s'.posted;
      } else {
        SamePlace(s.(executing := s'.executing, records := s.records - {key}), s', x) by {
          assert Placed(s.(executing := s'.executing, records := s.records - {key}), x);
        }
      }
    }
  }

  lemma ResolvedReplies(s: Server, s': Server, rid: Rid, key: string, reply: Reply, cache: bool)
    requires Resolves(s, s', rid, key, reply, cache) && Runs(s) && Records(s) && Replies(s)
    ensures Replies(s')
  {
    assert RecordOk(s, key);
    ResolvedReply(s, s', rid, key, reply, cache);
    SameListed(s, s');
    forall t | t in s'.posted ensures TaskOk(s', t) {
      if t in s.posted {
        assert TaskOk(s, t);
        ReplyGrown(s, s', s.requests[t.rid].key, s.requests[t.rid].body, t.reply);
      } else {
        assert WaiterOk(s, key, s.records[key].body, t.rid);
      }
    }
    forall i | 0 <= i < |s'.sent| ensures TaskOk(s', s'.sent[i]) && s'.sent[i].rid !in s'.live {
      assert TaskOk(s, s.sent[i]);
      ReplyGrown(s, s', s.requests[s.sent[i].rid].key, s.requests[s.sent[i].rid].body, s.sent[i].reply);
    }
  }

  lemma ResolveKeeps(s: Server, s': Server, rid: Rid, key: string, reply: Reply, cache: bool)
    requires Inv(s) && Resolves(s, s', rid, key, reply, cache)
    ensures Inv(s')
  {
    assert s'.tainted <= s.tainted + s.executing && Within(s'.tainted, |s.requests|) by { assert RecordOk(s, key); }
    assert Known(s') && Counted(s') by { hide Stages, Conns, Records, Runs, Members, Replies; }
    assert Grown(s, s');
    hide Known, Counted, Stages, Conns, Records, Runs, Members, Replies;
    ResolvedRecords(s, s', rid, key, reply, cache);
    ResolvedRuns(s, s', rid, key, reply, cache);
    ResolvedMembers(s, s', rid, key, reply, cache);
    ResolvedReplies(s, s', rid, key, reply, cache);
    hide Resolves;
    ResolvedFields(s, s', rid, key, reply, cache);
    SameStages(s, s');
    SameConns(s, s');
  }

  lemma ResolvedFields(s: Server, s': Server, rid: Rid, key: string, reply: Reply, cache: bool)
    requires Resolves(s, s', rid, key, reply, cache)
    ensures s'.busy == s.busy && s'.conns == s.conns && s'.acquired == s.acquired && s'.live == s.live
    ensures s'.detached == s.detached
    ensures s'.executing <= s.executing
  {
  }

  /** A run that ends with no record under its key left. */
  lemma LostKeeps(s: Server, s': Server, rid: Rid, key: string)
    requires Inv(s) && rid in s.executing && rid < |s.requests| && s.requests[rid].key == Some(key) && key !in s.records
    requires s' == s.(executing := s.executing - {rid})
    ensures Inv(s')
  {
    assert Known(s') && Counted(s') by { hide Stages, Conns, Records, Runs, Members, Replies; }
    SameListed(s, s');
    hide Known, Counted, Stages, Conns, Replies;
    assert Records(s') by {
      hide Runs, Members;
      forall k | k in s'.records ensures RecordOk(s', k) { assert RecordOk(s, k); RecordKept(s, s', k); }
    }
    hide Records;
    assert Members(s') by {
      hide Runs;
      forall x | x in s'.live ensures Placed(s', x) { assert Placed(s, x); }
    }
    hide Runs, Members;
    SameStages(s, s');
    SameConns(s, s');
    SameRuns(s, s');
    SameReplies(s, s');
  }

  lemma ExecKeeps(s: Server, rid: Rid, reply: Reply, cache: bool)
    requires Inv(s) && rid in s.executing && rid < |s.requests| && Honest(rid, reply, cache)
    ensures Inv(StepExec(s, rid, reply, cache))
  {
    hide Inv, Prune;
    var s' := StepExec(s, rid, reply, cache);
    match s.requests[rid].key
    case None => PlainExecKeeps(s, s', rid, reply);
    case Some(key) =>
      if key !in s.records {
        LostKeeps(s, s', rid, key);
      } else if !cache {
        ResolveKeeps(s, s', rid, key, reply, cache);
      } else {
        var record := s.records[key];
        var resolved := s'.(records := s.records[key := record.(pending := false, waiters := [], response := reply)],
            completedKeys := s.completedKeys + [key]);
        ResolveKeeps(s, resolved, rid, key, reply, cache);
        PruneKeeps(resolved, s');
      }
  }

  // ---------------------------------------------------------------------------------------------
  // Release
  // ---------------------------------------------------------------------------------------------

  lemma DroppedMembers(s: Server, s': Server, t: Task)
    requires Members(s) && Grown(s, s') && s'.posted == s.posted - {t} && s'.live <= s.live - {t.rid}
    requires s'.records == s.records && s'.executing == s.executing && s'.busy == s.busy
    ensures Members(s')
  {
    SameListed(s, s');
    forall x | x in s'.live ensures Placed(s', x) {
      assert Placed(s, x);
      if HasTask(s, x) {
        var u :| u in s.posted && u.rid == x;
        assert u in s'.posted;
      }
    }
  }

  lemma DroppedReplies(s: Server, s': Server, t: Task)
    requires Replies(s) && Grown(s, s') && s'.posted == s.posted - {t} && s'.live <= s.live && s'.acquired == s.acquired
    requires s'.busy == s.busy
    requires
      || s'.sent == s.sent
      || (&& t.rid in s.live && t.rid !in s'.live && |s'.sent| == |s.sent| + 1 && s'.sent[..|s.sent|] == s.sent
          && TaskOk(s', s'.sent[|s.sent|]) && s'.sent[|s.sent|].rid == t.rid)
    ensures Replies(s')
  {
    SameListed(s, s');
    forall x | x in s'.posted ensures TaskOk(s', x) {
      assert TaskOk(s, x);
      ReplyGrown(s, s', s.requests[x.rid].key, s.requests[x.rid].body, x.reply);
    }
    forall i | 0 <= i < |s'.sent| ensures TaskOk(s', s'.sent[i]) && s'.sent[i].rid !in s'.live {
      if i < |s.sent| {
        assert s'.sent[i] == s.sent[i] && TaskOk(s, s.sent[i]);
        ReplyGrown(s, s', s.requests[s.sent[i].rid].key, s.requests[s.sent[i].rid].body, s.sent[i].reply);
      }
    }
    forall i, j | 0 <= i < j < |s'.sent| ensures s'.sent[i].rid != s'.sent[j].rid {
      assert s'.sent[i] == s.sent[i];
      if j < |s.sent| { assert s'.sent[j] == s.sent[j]; }
    }
  }

  /** A task whose request has been released already does nothing. */
  lemma StaleKeeps(s: Server, s': Server, t: Task)
    requires Inv(s) && t in s.posted && t.rid !in s.live && s' == s.(posted := s.posted - {t})
    ensures Inv(s')
  {
    hide Known, Counted, Stages, Conns, Records, Runs, Members, Replies;
    SameListed(s, s');
    SameNumbers(s, s');
    SameStages(s, s');
    SameConns(s, s');
    SameRecords(s, s');
    SameRuns(s, s');
    DroppedMembers(s, s', t);
    DroppedReplies(s, s', t);
  }

  /** A request is released: the count goes down once, and it leaves its connection's map. */
  ghost predicate Releases(s: Server, s': Server, rid: Rid) {
    && rid in s.live && s'.live == s.live - {rid} && s'.inflight == s.inflight - 1
    && s'.inline == s.inline && s'.maxInflight == s.maxInflight && s'.acquired == s.acquired
        && s'.executing == s.executing
    && s'.tainted == s.tainted && s'.requests == s.requests && s'.busy == s.busy
    && s'.records == s.records && s'.completedKeys == s.completedKeys && s'.capacity == s.capacity
  }

  lemma ReleasedNumbers(s: Server, s': Server, rid: Rid)
    requires Releases(s, s', rid) && Known(s) && Counted(s) && s'.detached <= s.detached
    requires s'.purging <= s.purging + {rid}
    ensures Known(s') && Counted(s')
  {
    assert |s.live| == |s'.live| + 1;
  }

  lemma ReleasedConns(s: Server, s': Server, rid: Rid)
    requires Releases(s, s', rid) && Conns(s) && s'.detached == s.detached && rid < |s.requests|
    requires var r := s.requests[rid];
      && r.conn in s.conns && s.conns[r.conn].live
      && s'.conns == s.conns[r.conn := s.conns[r.conn].(requests := s.conns[r.conn].requests - {r.id})]
    ensures Conns(s')
  {
    assert LiveOk(s, rid);
    forall c | c in s'.conns ensures ConnOk(s', c) { assert ConnOk(s, c); }
    forall x | x in s'.live ensures LiveOk(s', x) { assert LiveOk(s, x); }
    forall x | x in s'.detached ensures DetachedOk(s', x) { assert DetachedOk(s, x); }
  }

  lemma ReleasedStages(s: Server, s': Server, rid: Rid)
    requires Releases(s, s', rid) && Stages(s) && !IsListed(s, rid)
    requires forall c :: c in s.conns ==>
        && c in s'.conns && s'.conns[c].shard == s.conns[c].shard
        && s'.conns[c].live == s.conns[c].live
    ensures Stages(s')
  {
    forall x | x in s'.busy ensures StageOk(s', x) {
      assert StageOk(s, x);
      assert s.busy[x].Listed? && s.busy[x].rid == rid ==> IsListed(s, rid);
    }
  }

  lemma FinishKeeps(s: Server, t: Task, late: bool)
    requires Inv(s) && t in s.posted && t.rid < |s.requests|
    ensures Inv(StepFinish(s, t, late))
  {
    hide Inv;
    var s' := StepFinish(s, t, late);
    if t.rid !in s.live {
      StaleKeeps(s, s', t);
    } else {
      FinishReleases(s, s', t, late);
    }
  }

  /** Finishing an uncompleted request. */
  lemma FinishReleases(s: Server, s': Server, t: Task, late: bool)
    requires Inv(s) && t in s.posted && t.rid < |s.requests| && t.rid in s.live && s' == StepFinish(s, t, late)
    ensures Inv(s')
  {
    assert TaskOk(s, t) && LiveOk(s, t.rid);
    var r := s.requests[t.rid];
    hide Known, Counted, Stages, Conns, Records, Runs, Members, Replies, TaskOk, LiveOk, StepFinish;
    FinishFields(s, s', t, late);
    assert !IsListed(s, t.rid) by { TaskUnlisted(s, t); }
    SameListed(s, s');
    ReleasedNumbers(s, s', t.rid);
    ReleasedStages(s, s', t.rid);
    SameRecords(s, s');
    SameRuns(s, s');
    DroppedMembers(s, s', t);
    assert Replies(s') by { SentOk(s, s', t, late); DroppedReplies(s, s', t); }
    assert Conns(s') by { FinishedConns(s, s', t, late); }
  }

  lemma FinishFields(s: Server, s': Server, t: Task, late: bool)
    requires t.rid < |s.requests| && t.rid in s.live && s' == StepFinish(s, t, late)
    ensures Releases(s, s', t.rid) && s'.posted == s.posted - {t}
    ensures s'.detached == s.detached && s'.purging == s.purging
    ensures forall c :: c in s.conns ==>
      c in s'.conns && s'.conns[c].shard == s.conns[c].shard && s'.conns[c].live == s.conns[c].live
  {
  }

  lemma TaskUnlisted(s: Server, t: Task)
    requires TaskOk(s, t)
    ensures !IsListed(s, t.rid)
  {
  }

  lemma SentOk(s: Server, s': Server, t: Task, late: bool)
    requires TaskOk(s, t) && s' == StepFinish(s, t, late) && t.rid in s.live
    ensures s'.sent == s.sent || (|s'.sent| == |s.sent| + 1 && s'.sent[..|s.sent|] == s.sent &&
                                  TaskOk(s', s'.sent[|s.sent|]) && s'.sent[|s.sent|].rid == t.rid)
  {
    SameListed(s, s');
  }

  lemma FinishedConns(s: Server, s': Server, t: Task, late: bool)
    requires Conns(s) && t.rid < |s.requests| && t.rid in s.live && s' == StepFinish(s, t, late)
    ensures Conns(s')
  {
    assert LiveOk(s, t.rid);
    hide Conns;
    if s.conns[s.requests[t.rid].conn].live {
      ReleasedConns(s, s', t.rid);
    } else {
      ClosedConns(s, s', t.rid);
    }
  }

  lemma ClosedConns(s: Server, s': Server, rid: Rid)
    requires Conns(s) && rid in s.live && rid < |s.requests| && s.requests[rid].conn in s.conns
    requires !s.conns[s.requests[rid].conn].live
    requires s'.live == s.live - {rid} && s'.conns == s.conns && s'.requests == s.requests
    requires s.detached - {rid} <= s'.detached <= s.detached
    ensures Conns(s')
  {
    forall c | c in s'.conns ensures ConnOk(s', c) { assert ConnOk(s, c); }
    forall x | x in s'.live ensures LiveOk(s', x) { assert LiveOk(s, x); }
    forall x | x in s'.detached ensures DetachedOk(s', x) { assert DetachedOk(s, x); }
  }

  lemma ClosingConns(s: Server, s': Server, c: nat)
    requires Conns(s) && Free(s, c) && s' == Step(s, Close(c))
    ensures Conns(s') && Within(s'.detached, |s.requests|)
  {
    assert ConnOk(s, c);
    forall x | x in s'.conns ensures ConnOk(s', x) { assert ConnOk(s, x); }
    forall rid | rid in s'.live ensures LiveOk(s', rid) { assert LiveOk(s, rid); }
    forall rid | rid in s'.detached ensures DetachedOk(s', rid) {
      if rid in s.detached { assert DetachedOk(s, rid); }
    }
  }

  lemma ClosingStages(s: Server, s': Server, c: nat)
    requires Stages(s) && Free(s, c) && s' == Step(s, Close(c))
    ensures Stages(s')
  {
    forall x | x in s'.busy ensures StageOk(s', x) { assert StageOk(s, x); }
  }

  lemma CloseKeeps(s: Server, c: nat)
    requires Inv(s) && Free(s, c)
    ensures Inv(Step(s, Close(c)))
  {
    var s' := Step(s, Close(c));
    hide Counted, Stages, Conns, Records, Runs, Members, Replies;
    ClosingConns(s, s', c);
    ClosingStages(s, s', c);
    assert Known(s');
    hide Known;
    assert Counted(s') by { SameCount(s, s'); }
    SameListed(s, s');
    SameRecords(s, s');
    SameRuns(s, s');
    SameMembers(s, s');
    SameReplies(s, s');
  }

  lemma SameCount(s: Server, s': Server)
    requires Counted(s) && s'.live == s.live && s'.acquired == s.acquired && s'.inflight == s.inflight
    requires s'.inline == s.inline && s'.maxInflight == s.maxInflight
    ensures Counted(s')
  {
  }

  /** A detached request belongs to a closed connection, so no shard is admitting it. */
  lemma DetachedUnlisted(s: Server, rid: Rid)
    requires Stages(s) && DetachedOk(s, rid)
    ensures !IsListed(s, rid)
  {
  }

  lemma MarkKeeps(s: Server, rid: Rid)
    requires Inv(s) && rid in s.detached
    ensures Inv(Step(s, AbandonMark(rid)))
  {
    assert DetachedOk(s, rid);
    hide Inv;
    var s' := Step(s, AbandonMark(rid));
    if rid in s.live {
      MarkReleases(s, s', rid);
    } else {
      MarkStale(s, s', rid);
    }
  }

  lemma MarkStale(s: Server, s': Server, rid: Rid)
    requires Inv(s) && rid !in s.live && s' == s.(detached := s.detached - {rid})
    ensures Inv(s')
  {
    assert Known(s') by { hide Counted, Stages, Conns, Records, Runs, Members, Replies; }
    hide Known, Counted, Stages, Conns, Records, Runs, Members, Replies;
    SameCount(s, s');
    SameListed(s, s');
    SameStages(s, s');
    SameConns(s, s');
    SameRecords(s, s');
    SameRuns(s, s');
    SameMembers(s, s');
    SameReplies(s, s');
  }

  lemma MarkReleases(s: Server, s': Server, rid: Rid)
    requires Inv(s) && rid in s.live && DetachedOk(s, rid)
    requires s' == s.(detached := s.detached - {rid}, live := s.live - {rid}, inflight := s.inflight - 1,
                      purging := s.purging + {rid}, stopped := s'.stopped)
    ensures Inv(s')
  {
    hide Known, Counted, Stages, Conns, Records, Runs, Members, Replies;
    DetachedUnlisted(s, rid);
    SameListed(s, s');
    ReleasedNumbers(s, s', rid);
    ReleasedStages(s, s', rid);
    SameRecords(s, s');
    SameRuns(s, s');
    SameMembers(s, s');
    SameReplies(s, s');
    ClosedConns(s, s', rid);
  }

  // ---------------------------------------------------------------------------------------------
  // Leaving a record
  // ---------------------------------------------------------------------------------------------

  /** The request leaves its key's pending record, and is finished next if it has not completed. */
  ghost predicate Leaves(s: Server, s': Server, rid: Rid) {
    && rid < |s.requests| && rid !in s.acquired
    && s' == Purge(s, rid).(posted := s'.posted, purging := s'.purging, stopped := s'.stopped)
    && (s'.posted == s.posted || s'.posted == s.posted + {Task(rid, Status(CancelledCode))})
    && (rid in s.live ==> Task(rid, Status(CancelledCode)) in s'.posted)
    && s'.purging <= s.purging
  }

  lemma LeftFields(s: Server, s': Server, rid: Rid)
    requires Leaves(s, s', rid) && Records(s)
    ensures Grown(s, s') && s'.tainted <= s.tainted + s.executing && s'.busy == s.busy && s'.conns == s.conns
    ensures s'.live == s.live
    ensures s'.acquired == s.acquired && s'.executing == s.executing && s'.detached == s.detached && s'.sent == s.sent
    ensures s'.requests == s.requests && s'.inflight == s.inflight && s'.inline == s.inline
    ensures s'.maxInflight == s.maxInflight
    ensures s'.capacity == s.capacity && s'.completedKeys == s.completedKeys && s'.purging <= s.purging
  {
    assert Purge(s, rid).tainted <= s.tainted + s.executing by { LeftTaint(s, rid); }
    hide Purge, Records;
  }

  lemma LeftTaint(s: Server, rid: Rid)
    requires rid < |s.requests| && Records(s)
    ensures Purge(s, rid).tainted <= s.tainted + s.executing
  {
    if s.requests[rid].key.Some? && s.requests[rid].key.value in s.records {
      assert RecordOk(s, s.requests[rid].key.value);
    }
  }

  lemma LeftRecords(s: Server, s': Server, rid: Rid)
    requires Leaves(s, s', rid) && Records(s)
    ensures Records(s')
  {
    LeftFields(s, s', rid);
    SameListed(s, s');
    assert s'.records.Keys <= s.records.Keys && |s'.records| == |s'.records.Keys| && |s.records| == |s.records.Keys|;
    SubsetSize(s'.records.Keys, s.records.Keys);
    forall k | k in s'.records ensures RecordOk(s', k) {
      assert RecordOk(s, k);
      if s.requests[rid].key == Some(k) {
        forall w | w in s'.records[k].waiters ensures WaiterOk(s', k, s'.records[k].body, w) {
          assert w in s.records[k].waiters && WaiterOk(s, k, s.records[k].body, w);
        }
        if !s.records[k].pending { RecordKept(s, s', k); }
      } else {
        RecordKept(s, s', k);
      }
    }
  }

  lemma LeftRuns(s: Server, s': Server, rid: Rid)
    requires Leaves(s, s', rid) && Records(s) && Runs(s)
    ensures Runs(s')
  {
    LeftFields(s, s', rid);
    forall e | e in s'.executing ensures RunOk(s', e) { assert RunOk(s, e); }
  }

  lemma LeftMembers(s: Server, s': Server, rid: Rid)
    requires Leaves(s, s', rid) && Records(s) && Members(s)
    ensures Members(s')
  {
    LeftFields(s, s', rid);
    SameListed(s, s');
    forall x | x in s'.live ensures Placed(s', x) {
      assert Placed(s, x);
      if x == rid {
        assert HasTask(s', x) by { assert Task(rid, Status(CancelledCode)) in s'.posted; }
      } else {
        LeftPlace(s, s', rid, x);
      }
    }
  }

  lemma LeftPlace(s: Server, s': Server, rid: Rid, x: Rid)
    requires Leaves(s, s', rid) && Records(s) && Placed(s, x) && x != rid
    ensures Placed(s', x)
  {
    LeftFields(s, s', rid);
    SameListed(s, s');
    forall k | k in s.records && s.records[k].pending && x in s.records[k].waiters
      ensures k in s'.records && s'.records[k].pending && x in s'.records[k].waiters
    {
      assert RecordOk(s, k);
    }
    SamePlace(s, s', x);
  }

  lemma LeftReplies(s: Server, s': Server, rid: Rid)
    requires Leaves(s, s', rid) && Records(s) && Replies(s) && (s'.posted != s.posted ==> !IsListed(s, rid))
    ensures Replies(s')
  {
    LeftFields(s, s', rid);
    SameListed(s, s');
    hide Leaves, Replies;
    if s'.posted == s.posted {
      SameReplies(s, s');
    } else {
      assert s'.posted == s.posted + {Task(rid, Status(CancelledCode))}
          && TaskOk(s', Task(rid, Status(CancelledCode))) by { LeavesTask(s, s', rid); }
      OneTask(s, s', Task(rid, Status(CancelledCode)));
    }
  }

  lemma LeavesTask(s: Server, s': Server, rid: Rid)
    requires Leaves(s, s', rid) && s'.posted != s.posted && !IsListed(s, rid)
    ensures s'.posted == s.posted + {Task(rid, Status(CancelledCode))} && TaskOk(s', Task(rid, Status(CancelledCode)))
  {
    SameListed(s, s');
  }

  lemma LeaveKeeps(s: Server, s': Server, rid: Rid)
    requires Inv(s) && Leaves(s, s', rid) && (s'.posted != s.posted ==> !IsListed(s, rid))
    ensures Inv(s')
  {
    LeftFields(s, s', rid);
    hide Leaves;
    assert Known(s') && Counted(s') by { hide Stages, Conns, Records, Runs, Members, Replies; }
    hide Known, Counted, Stages, Conns, Records, Runs, Members, Replies;
    SameStages(s, s');
    SameConns(s, s');
    LeftRecords(s, s', rid);
    LeftRuns(s, s', rid);
    LeftMembers(s, s', rid);
    LeftReplies(s, s', rid);
  }

  lemma CancelKeeps(s: Server, c: nat, id: nat)
    requires Inv(s)
    ensures Inv(Step(s, Cancel(c, id)))
  {
    if Free(s, c) && id in s.conns[c].requests && s.conns[c].requests[id] < |s.requests| {
      var rid := s.conns[c].requests[id];
      assert ConnOk(s, c) && rid !in s.acquired;
      assert !IsListed(s, rid) by { hide Known, Counted, Records, Runs, Members, Replies; FreeUnlisted(s, c, rid); }
      hide Inv, Purge;
      LeaveKeeps(s, Step(s, Cancel(c, id)), rid);
    }
  }

  lemma FreeUnlisted(s: Server, c: nat, rid: Rid)
    requires Stages(s) && Free(s, c) && rid < |s.requests| && s.requests[rid].conn == c
    ensures !IsListed(s, rid)
  {
  }

  lemma PurgeKeeps(s: Server, rid: Rid)
    requires Inv(s)
    ensures Inv(Step(s, AbandonPurge(rid)))
  {
    if rid in s.purging {
      assert rid !in s.live && rid !in s.acquired && rid < |s.requests|;
      hide Inv;
      LeaveKeeps(s, Step(s, AbandonPurge(rid)), rid);
    }
  }

  // ---------------------------------------------------------------------------------------------
  // Every run
  // ---------------------------------------------------------------------------------------------

  lemma StepKeepsInv(s: Server, a: Action)
    requires Inv(s)
    ensures Inv(Step(s, a))
  {
    hide Inv, StepAdd, StepLookup, StepExec, StepFinish, Purge, Counted;
    match a
    case Connect(c, shard) => ConnectKeeps(s, c, shard);
    case InlineBegin => assert Counted(Step(s, a)) by { InlineCounted(s, a); } InlineKeeps(s, Step(s, a));
    case InlineEnd => assert Counted(Step(s, a)) by { InlineCounted(s, a); } InlineKeeps(s, Step(s, a));
    case Acquire(c, id, key, body) => if Free(s, c) && s.inflight < s.maxInflight { AcquireKeeps(s, c, id, key, body); }
    case AddRequest(shard) => AddKeeps(s, shard);
    case Lookup(shard) => LookupKeeps(s, shard);
    case CompleteExec(rid, reply, cache) =>
      if Ends(s, rid, reply, cache) { ExecKeeps(s, rid, reply, cache); }
    case Finish(task, late) => if task in s.posted && task.rid < |s.requests| { FinishKeeps(s, task, late); }
    case Cancel(c, id) => CancelKeeps(s, c, id);
    case Close(c) => if Free(s, c) { CloseKeeps(s, c); }
    case AbandonMark(rid) => if rid in s.detached { MarkKeeps(s, rid); }
    case AbandonPurge(rid) => PurgeKeeps(s, rid);
  }

  lemma InlineCounted(s: Server, a: Action)
    requires Inv(s) && (a.InlineBegin? || a.InlineEnd?)
    ensures Counted(Step(s, a))
  {
    hide Stages, Conns, Records, Runs, Members, Replies;
  }

  function Run(s: Server, actions: seq<Action>): (s': Server)
    decreases |actions|
  {
    if actions == [] then s else Step(Run(s, actions[..|actions| - 1]), actions[|actions| - 1])
  }

  lemma InitialInv(maxInflight: nat, maxPerConn: nat, capacity: nat)
    ensures Inv(Initial(maxInflight, maxPerConn, capacity))
  {
  }

  /** Any interleaving of shards, workers and connections keeps the invariant. */
  lemma {:induction false} RunKeepsInv(s: Server, actions: seq<Action>)
    requires Inv(s)
    ensures Inv(Run(s, actions))
    decreases |actions|
  {
    hide Inv, Step;
    if actions != [] {
      RunKeepsInv(s, actions[..|actions| - 1]);
      StepKeepsInv(Run(s, actions[..|actions| - 1]), actions[|actions| - 1]);
    }
  }

  // ---------------------------------------------------------------------------------------------
  // What it means
  // ---------------------------------------------------------------------------------------------

  ghost predicate Reachable(s: Server) {
    exists limit: nat, perConn: nat, capacity: nat, actions :: s == Run(Initial(limit, perConn, capacity), actions)
  }

  lemma ReachableInv(s: Server)
    requires Reachable(s)
    ensures Inv(s)
  {
    hide Inv;
    var limit: nat, perConn: nat, capacity: nat, actions :| s == Run(Initial(limit, perConn, capacity), actions);
    InitialInv(limit, perConn, capacity);
    RunKeepsInv(Initial(limit, perConn, capacity), actions);
  }

  /**
   The in-flight count is exact and within its limit, and an open
   connection's map is exactly its uncompleted requests.
   */
  lemma InflightIsExact(s: Server, c: nat, id: nat, rid: Rid)
    requires Reachable(s)
    ensures 0 <= s.inflight == |s.live| + |s.acquired| + s.inline <= s.maxInflight
    ensures c in s.conns && s.conns[c].live ==>
      ((id in s.conns[c].requests && s.conns[c].requests[id] == rid) <==>
       (rid in s.live && rid < |s.requests| && s.requests[rid].conn == c && s.requests[rid].id == id))
  {
    ReachableInv(s);
    if c in s.conns {
      assert ConnOk(s, c);
      assert rid in s.live ==> LiveOk(s, rid);
    }
  }

  /**
   An admitted request is released exactly once: whatever step ends it, the count goes down by one, and it never
   comes back.
   */
  lemma ReleasedOnce(s: Server, a: Action, rid: Rid)
    requires Reachable(s)
    ensures rid in s.live && rid !in Step(s, a).live ==>
        Step(s, a).live == s.live - {rid} && Step(s, a).inflight == s.inflight - 1
    ensures rid < |s.requests| && rid !in s.live && rid !in s.acquired ==>
        rid !in Step(s, a).live && rid !in Step(s, a).acquired
  {
    hide Inv, Reachable, Step;
    ReachableInv(s);
    if rid in s.live && rid !in Step(s, a).live {
      ReleaseCounts(s, a, rid);
    }
    if rid < |s.requests| && rid !in s.live && rid !in s.acquired {
      NeverBack(s, a, rid);
    }
  }

  lemma AcquiredStage(s: Server, shard: nat)
    requires Inv(s) && shard in s.busy && s.busy[shard].Acquired?
    ensures s.busy[shard].rid in s.acquired
  {
    hide Inv;
    StageAt(s, shard);
  }

  lemma ReleaseCounts(s: Server, a: Action, rid: Rid)
    requires Inv(s) && rid in s.live && rid !in Step(s, a).live
    ensures Step(s, a).live == s.live - {rid} && Step(s, a).inflight == s.inflight - 1
  {
    hide Inv, StageOk, StepAdd, StepLookup, StepExec, StepFinish, Purge;
  }

  lemma NeverBack(s: Server, a: Action, rid: Rid)
    requires Inv(s) && rid < |s.requests| && rid !in s.live && rid !in s.acquired
    ensures rid !in Step(s, a).live && rid !in Step(s, a).acquired
  {
    hide Inv, StageOk, StepAdd, StepLookup, StepExec, StepFinish, Purge;
    if a.AddRequest? && a.shard in s.busy && s.busy[a.shard].Acquired? { AcquiredStage(s, a.shard); }
  }

  /** Each request gets at most one response. */
  lemma AnsweredOnce(s: Server, i: nat, j: nat)
    requires Reachable(s) && i < j < |s.sent|
    ensures s.sent[i].rid != s.sent[j].rid
  {
    ReachableInv(s);
  }

  /**
   The cache: never over capacity, waiters of a record share its key and
   body, and every pending record has its run outstanding.
   */
  lemma CacheIsSound(s: Server, key: string)
    requires Reachable(s) && key in s.records
    ensures |s.records| <= s.capacity
    ensures var record := s.records[key];
      && (forall w :: w in record.waiters ==>
             && w < |s.requests| && s.requests[w].key == Some(key)
             && s.requests[w].body == record.body)
      && (record.pending ==>
             && record.waiters != [] && record.leader in s.executing && record.leader < |s.requests|
             && s.requests[record.leader].key == Some(key))
      && (!record.pending ==> record.waiters == [])
  {
    ReachableInv(s);
    assert RecordOk(s, key);
    forall w | w in s.records[key].waiters ensures WaiterOk(s, key, s.records[key].body, w) { }
  }

  /** An uncompleted keyed request past its lookup waits in its key's pending record or is about to be finished. */
  lemma NobodyIsLost(s: Server, rid: Rid)
    requires Reachable(s) && rid in s.live && rid < |s.requests| && s.requests[rid].key.Some? && !IsListed(s, rid)
    ensures var k := s.requests[rid].key.value;
        HasTask(s, rid)
        || (k in s.records && s.records[k].pending && rid in s.records[k].waiters)
  {
    ReachableInv(s);
    assert Placed(s, rid);
  }

  /** A new key is turned away only when the cache is full of pending records. */
  lemma RefusedOnlyWhenPending(s: Server, shard: nat)
    requires Reachable(s) && shard in s.busy && s.busy[shard].Listed? && s.busy[shard].rid < |s.requests|
    requires s.requests[s.busy[shard].rid].key.Some? && s.requests[s.busy[shard].rid].key.value !in s.records
    requires Task(s.busy[shard].rid, Status(ResourceExhausted)) in StepLookup(s, shard).posted - s.posted
    ensures |StepLookup(s, shard).records| == s.capacity
    ensures forall k :: k in StepLookup(s, shard).records ==> StepLookup(s, shard).records[k].pending
  {
    ReachableInv(s);
    var (records, keys) := Prune(s.records, s.completedKeys, s.capacity);
    assert Records(s);
    hide Known, Counted, Stages, Conns, Records, Runs, Members, Replies;
    PrunedRecords(s, s.(records := records, completedKeys := keys));
    assert |records| <= s.capacity by { Bounded(s.(records := records, completedKeys := keys)); }
  }

  lemma Bounded(s: Server)
    requires Records(s)
    ensures |s.records| <= s.capacity
  {
  }

  /** A response comes from a run for the same key, and for the same body unless that run had lost its record. */
  lemma AnswersMatch(s: Server, i: nat)
    requires Reachable(s) && i < |s.sent| && !s.sent[i].reply.Status?
    ensures var rid, e := s.sent[i].rid, s.sent[i].reply.exec;
      && rid < |s.requests| && e < |s.requests| && s.requests[e].key == s.requests[rid].key
      && (s.requests[e].body == s.requests[rid].body || e in s.tainted)
  {
    ReachableInv(s);
    assert TaskOk(s, s.sent[i]);
  }
}
