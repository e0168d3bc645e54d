/**
 The registry's publishing rounds. Every mutex section and every completion of an asynchronous ZooKeeper operation is
 one step, and the steps of different rounds interleave in any order. An operation or continuation (a token here)
 carries the generation it was started in. Three fields are auxiliary: `acked` holds the data last acknowledged for
 each service in this generation, `done` the services acknowledged in the last round begun, and `completions` counts
 the completions of that round.
 */
module ServiceRegistry {
  import opened Results

  type Data = nat

  /** How ZooKeeper answers. For the existence query, `Ok` also says that the node belongs to this session. */
  datatype Answer = Ok | NodeExists | Failed

  /** An operation waiting for its completion, or the section that comes next. */
  datatype Stage =
    | RootOp | AtService | ServiceOp | AtProviders | ProvidersOp | AtEndpoint | EndpointOp(service: string, data: Data)
    | AtExists | ExistsOp | SetOp(service: string, data: Data) | AtFinish(success: bool) | AtEnd

  datatype Token = Token(generation: nat, stage: Stage)

  datatype Work = Work(
    services: map<string, Data>, queue: seq<string>, index: nat, failed: bool, paths: set<string>,
    acked: map<string, Data>, done: set<string>, completions: nat)

  datatype Registry = Registry(
    started: bool, stopping: bool, handle: bool, connected: bool, generation: nat,
    publishing: bool, again: bool, published: bool, begins: nat, work: Work, tokens: map<nat, Token>, nextToken: nat)

  /** `issued` says whether the client library accepts the operation the step starts, if it starts one. */
  datatype Action =
    | Publish(services: map<string, Data>)
    | Unpublish
    | Stop
    | StopSection
    | Expire
    | Restore(generation: nat)
    | Connected(on: bool)
    | Watch
    | Begin(issued: bool, order: seq<string>)
    | Advance(t: nat, answer: Answer, issued: bool)

  function Initial(): (r: Registry) {
    Registry(true, false, true, false, 1, false, false, false, 0, Work(map[], [], 0, false, {}, map[], {}, 0), map[], 0)
  }

  // ---------------------------------------------------------------------------------------------
  // One token
  // ---------------------------------------------------------------------------------------------

  /** What a step of a token finds: is its generation the current one, is a round on, and can an operation be issued? */
  datatype View = View(current: bool, publishing: bool, issued: bool)

  predicate IsOp(stage: Stage) {
    stage.RootOp? || stage.ServiceOp? || stage.ProvidersOp? || stage.EndpointOp? || stage.ExistsOp? || stage.SetOp?
  }

  function Service(w: Work): (s: string) {
    if w.index < |w.queue| then w.queue[w.index] else ""
  }

  function DataOf(w: Work): (d: Data) {
    if Service(w) in w.services then w.services[Service(w)] else 0
  }

  predicate Guard(w: Work, v: View) {
    v.publishing && v.current && w.index < |w.queue|
  }

  /** A section that starts the next operation for the service the round is at, or returns without a trace. */
  function Issue(w: Work, v: View, next: Stage): (s: Option<Stage>) {
    if !Guard(w, v) then None else if v.issued then Some(next) else Some(AtFinish(false))
  }

  /** A write is acknowledged, and the path of `key` recorded, for the current generation only. */
  function Acked(w: Work, v: View, service: string, data: Data, key: string): (w': Work) {
    if v.current then w.(acked := w.acked[service := data], done := w.done + {service}, paths := w.paths + {key}) else w
  }

  function AfterCreate(stage: Stage): (next: Stage) {
    match stage
    case RootOp => AtService
    case ServiceOp => AtProviders
    case _ => AtEndpoint
  }

  /** The completions of the root, service and providers nodes. */
  function CreateNext(stage: Stage, answer: Answer): (s: Stage) {
    if answer != Failed then AfterCreate(stage) else if stage == RootOp then AtEnd else AtFinish(false)
  }

  function EndpointNext(answer: Answer): (s: Stage) {
    match answer
    case Ok => AtFinish(true)
    case NodeExists => AtExists
    case Failed => AtFinish(false)
  }

  function ExistsNext(w: Work, v: View, answer: Answer): (s: Stage) {
    if answer == Ok && Guard(w, v) && v.issued then SetOp(Service(w), DataOf(w)) else AtFinish(false)
  }

  function Counted(w: Work, v: View): (w': Work) {
    if v.current then w.(completions := w.completions + 1) else w
  }

  function CompletedWork(w: Work, v: View, stage: Stage, answer: Answer): (w': Work) {
    if answer != Ok then Counted(w, v)
    else if stage.EndpointOp? then Acked(Counted(w, v), v, stage.service, stage.data, stage.service)
    // The recorded path is that of the service the round is at by now.
    else if stage.SetOp? && w.index < |w.queue| then Acked(Counted(w, v), v, stage.service, stage.data, Service(w))
    else Counted(w, v)
  }

  function CompletedNext(w: Work, v: View, stage: Stage, answer: Answer): (s: Stage) {
    if stage.EndpointOp? then EndpointNext(answer)
    else if stage.ExistsOp? then ExistsNext(w, v, answer)
    else if stage.SetOp? then AtFinish(answer == Ok)
    else CreateNext(stage, answer)
  }

  function FinishedWork(w: Work, success: bool): (w': Work) {
    w.(failed := w.failed || !success, index := w.index + 1)
  }

  /** The sections other than the last one. */
  function SectionNext(w: Work, v: View, stage: Stage): (s: Option<Stage>) {
    match stage
    case AtService => Issue(w, v, ServiceOp)
    case AtProviders => Issue(w, v, ProvidersOp)
    case AtEndpoint => Issue(w, v, EndpointOp(Service(w), DataOf(w)))
    case AtExists => Issue(w, v, ExistsOp)
    case _ =>
      if !v.publishing || !v.current then None
      else if w.index + 1 < |w.queue| then Some(AtService)
      else Some(AtEnd)
  }

  function NextWork(w: Work, v: View, stage: Stage, answer: Answer): (w': Work) {
    if IsOp(stage) then CompletedWork(w, v, stage, answer)
    else if stage.AtFinish? && v.publishing && v.current then FinishedWork(w, stage.success)
    else w
  }

  function NextStage(w: Work, v: View, stage: Stage, answer: Answer): (s: Option<Stage>) {
    if IsOp(stage) then Some(CompletedNext(w, v, stage, answer)) else SectionNext(w, v, stage)
  }

  // ---------------------------------------------------------------------------------------------
  // The registry
  // ---------------------------------------------------------------------------------------------

  /** A new generation: whatever is still under way belongs to an older one. */
  function Bump(r: Registry, w: Work): (r': Registry) {
    r.(generation := r.generation + 1, publishing := false, again := false, published := false,
        work := w.(acked := map[]))
  }

  function Put(tokens: map<nat, Token>, t: nat, next: Option<Stage>): (tokens': map<nat, Token>)
    requires t in tokens
  {
    if next.Some? then tokens[t := Token(tokens[t].generation, next.value)] else tokens - {t}
  }

  function ViewOf(r: Registry, t: nat, issued: bool): (v: View)
    requires t in r.tokens
  {
    View(r.tokens[t].generation == r.generation, r.publishing, issued && r.handle)
  }

  predicate Succeeded(w: Work) {
    !w.failed && w.index == |w.queue| && w.queue != []
  }

  /** The section that ends a round. */
  function End(r: Registry, t: nat): (r': Registry) {
    r.(published := Succeeded(r.work), publishing := false, again := false,
       begins := r.begins + if r.again then 1 else 0,
       work := r.work.(queue := [], index := 0, failed := false), tokens := r.tokens - {t})
  }

  function StepAdvance(r: Registry, t: nat, answer: Answer, issued: bool): (r': Registry)
    requires t in r.tokens
  {
    var v, stage := ViewOf(r, t, issued), r.tokens[t].stage;
    if stage == AtEnd then
      if v.current && v.publishing then End(r, t) else r.(tokens := r.tokens - {t})
    else
      r.(work := NextWork(r.work, v, stage, answer), tokens := Put(r.tokens, t, NextStage(r.work, v, stage, answer)))
  }

  /** Some listing of the services without repetition; the registry takes the sorted one. */
  predicate Lists(order: seq<string>, services: map<string, Data>) {
    && (forall i, j :: 0 <= i < j < |order| ==> order[i] != order[j])
    && (forall s :: s in order ==> s in services)
    && (forall s :: s in services ==> s in order)
  }

  function Started(r: Registry, issued: bool, order: seq<string>): (r': Registry) {
    r.(publishing := true, again := false, begins := if r.begins > 0 then r.begins - 1 else 0,
       work := r.work.(failed := false, index := 0, queue := order, done := {}, completions := 0),
       tokens := r.tokens[r.nextToken := Token(r.generation, if issued then RootOp else AtEnd)],
       nextToken := r.nextToken + 1)
  }

  function StepBegin(r: Registry, issued: bool, order: seq<string>): (r': Registry) {
    if r.begins == 0 || !Lists(order, r.work.services) then r
    else if !r.started || !r.handle || r.work.services == map[] || !r.connected then r.(begins := r.begins - 1)
    else if r.publishing then r.(again := true, begins := r.begins - 1)
    else Started(r, issued, order)
  }

  function StepPublish(r: Registry, services: map<string, Data>): (r': Registry) {
    if services == map[] || !r.started then r
    else if r.publishing then
      Bump(r, r.work.(services := services, queue := [], index := 0, failed := false)).(begins := r.begins + 1)
    else r.(again := false, published := false, begins := r.begins + 1, work := r.work.(services := services))
  }

  function Step(r: Registry, a: Action): (r': Registry) {
    match a
    case Publish(services) => StepPublish(r, services)
    case Unpublish => Bump(r, r.work.(services := map[], paths := {}, queue := [], failed := false))
    case Stop => if r.started then r.(started := false, stopping := true) else r
    case StopSection => if r.stopping then Bump(r, r.work.(paths := {})).(stopping := false, handle := false) else r
    case Expire => if r.started && r.handle then Bump(r, r.work.(paths := {})).(handle := false) else r
    case Restore(g) => if r.started && !r.handle && r.generation == g then r.(handle := true) else r
    case Connected(on) => r.(connected := on)
    case Watch => if r.started && r.handle then r.(begins := r.begins + 1) else r
    case Begin(issued, order) => StepBegin(r, issued, order)
    case Advance(t, answer, issued) => if t in r.tokens then StepAdvance(r, t, answer, issued) else r
  }

  // ---------------------------------------------------------------------------------------------
  // The invariant
  // ---------------------------------------------------------------------------------------------

  /** How many completions the round can still see, at most, with `rest` services to go. */
  function Left(stage: Stage, rest: int): (n: int) {
    match stage
    case RootOp => 1 + 5 * rest
    case AtService => 5 * rest
    case ServiceOp => 5 * rest
    case AtProviders => 5 * rest - 1
    case ProvidersOp => 5 * rest - 1
    case AtEndpoint => 5 * rest - 2
    case EndpointOp(_, _) => 5 * rest - 2
    case AtExists => 5 * rest - 3
    case ExistsOp => 5 * rest - 3
    case SetOp(_, _) => 5 * rest - 4
    case AtFinish(_) => 5 * (rest - 1)
    case AtEnd => 0
  }

  /** The service's current data has been acknowledged in this generation, and its path is on record. */
  ghost predicate Confirmed(w: Work, s: string) {
    s in w.services && s in w.acked && w.acked[s] == w.services[s] && s in w.paths
  }

  ghost predicate PlaceOk(w: Work, stage: Stage) {
    && w.queue != [] && Lists(w.queue, w.services) && w.index <= |w.queue| && (stage != AtEnd ==> w.index < |w.queue|)
    && (stage.EndpointOp? || stage.SetOp? ==>
        stage.service == w.queue[w.index] && stage.data == w.services[stage.service])
    && w.completions + Left(stage, |w.queue| - w.index) <= 1 + 5 * |w.queue|
  }

  /** Whether the service at `j` has been acknowledged in this round. */
  ghost predicate Done(w: Work, j: nat)
    requires j < |w.queue|
  {
    w.queue[j] in w.done
  }

  ghost predicate DoneOk(w: Work, stage: Stage) {
    && (forall s :: s in w.done ==> Confirmed(w, s))
    && (forall j :: 0 <= j < |w.queue| && (if stage.AtFinish? then w.index < j else w.index <= j) ==> !Done(w, j))
    && (stage.AtFinish? && w.index < |w.queue| ==> (stage.success <==> Done(w, w.index)))
    && (!w.failed <==> forall j :: 0 <= j < |w.queue| && j < w.index ==> Done(w, j))
  }

  ghost predicate Round(w: Work, stage: Stage) {
    PlaceOk(w, stage) && DoneOk(w, stage)
  }

  ghost predicate Live(r: Registry, t: nat) {
    t in r.tokens && r.tokens[t].generation == r.generation
  }

  ghost predicate Inv(r: Registry) {
    && (forall t :: t in r.tokens ==> t < r.nextToken && r.tokens[t].generation <= r.generation)
    && (forall t, u :: Live(r, t) && Live(r, u) ==> t == u)
    && (forall t :: Live(r, t) ==> r.publishing && Round(r.work, r.tokens[t].stage))
    && (r.publishing ==> exists t :: Live(r, t))
    && (r.published ==> r.work.services != map[] && forall s :: s in r.work.services ==> Confirmed(r.work, s))
  }

  // ---------------------------------------------------------------------------------------------
  // One token keeps the round
  // ---------------------------------------------------------------------------------------------

  lemma StaleWork(w: Work, v: View, stage: Stage, answer: Answer)
    requires !v.current
    ensures NextWork(w, v, stage, answer) == w
  {
  }

  lemma CompletedPlace(w: Work, v: View, stage: Stage, answer: Answer)
    requires v.current && v.publishing && IsOp(stage) && PlaceOk(w, stage)
    ensures PlaceOk(CompletedWork(w, v, stage, answer), CompletedNext(w, v, stage, answer))
  {
    assert w.queue[w.index] in w.services by { assert w.queue[w.index] in w.queue; }
    hide Lists;
  }

  lemma SectionPlace(w: Work, v: View, stage: Stage, answer: Answer)
    requires v.current && v.publishing && !IsOp(stage) && stage != AtEnd && PlaceOk(w, stage)
    ensures NextStage(w, v, stage, answer).Some?
    ensures PlaceOk(NextWork(w, v, stage, answer), NextStage(w, v, stage, answer).value)
  {
    assert w.queue[w.index] in w.services by { assert w.queue[w.index] in w.queue; }
    hide Lists, CompletedNext, CompletedWork;
  }

  lemma CompletedConfirms(w: Work, v: View, stage: Stage, answer: Answer, s: string)
    requires PlaceOk(w, stage) && IsOp(stage)
    requires Confirmed(w, s) || (v.current && answer == Ok && (stage.EndpointOp? || stage.SetOp?) && s == stage.service)
    ensures Confirmed(CompletedWork(w, v, stage, answer), s)
  {
    if stage.EndpointOp? || stage.SetOp? {
      assert w.queue[w.index] in w.queue;
    }
  }

  /** Only an acknowledged write adds to what has been done, and it adds the service the round is at. */
  lemma CompletedDone(w: Work, v: View, stage: Stage, answer: Answer)
    requires v.current && PlaceOk(w, stage) && IsOp(stage)
    ensures var w' := CompletedWork(w, v, stage, answer);
      w'.done == if answer == Ok && (stage.EndpointOp? || stage.SetOp?) then w.done + {w.queue[w.index]} else w.done
  {
  }

  lemma CompletedKeepsDone(w: Work, v: View, stage: Stage, answer: Answer)
    requires v.current && v.publishing && IsOp(stage) && Round(w, stage)
    ensures DoneOk(CompletedWork(w, v, stage, answer), CompletedNext(w, v, stage, answer))
  {
    var w' := CompletedWork(w, v, stage, answer);
    var next := CompletedNext(w, v, stage, answer);
    CompletedDone(w, v, stage, answer);
    assert w' == w.(acked := w'.acked, done := w'.done, paths := w'.paths, completions := w'.completions);
    var acked := answer == Ok && (stage.EndpointOp? || stage.SetOp?);
    assert (acked ==> next.AtFinish?) && (next.AtFinish? ==> next.success == acked);
    assert forall s :: s in w'.done ==> Confirmed(w', s) by {
      forall s | s in w'.done ensures Confirmed(w', s) { CompletedConfirms(w, v, stage, answer, s); }
    }
    assert !Done(w, w.index) && Done(w', w.index) == acked;
    hide CompletedWork, CompletedNext, Confirmed;
    forall j | 0 <= j < |w.queue| && j != w.index ensures Done(w', j) <==> Done(w, j) {
      assert w.queue[j] != w.queue[w.index];
    }
  }

  lemma SectionKeepsDone(w: Work, v: View, stage: Stage, answer: Answer)
    requires v.current && v.publishing && !IsOp(stage) && stage != AtEnd && Round(w, stage)
    ensures NextStage(w, v, stage, answer).Some?
    ensures DoneOk(NextWork(w, v, stage, answer), NextStage(w, v, stage, answer).value)
  {
    var w' := NextWork(w, v, stage, answer);
    assert forall s :: Confirmed(w, s) ==> Confirmed(w', s);
    forall j: nat | j < |w.queue| ensures Done(w', j) == Done(w, j) { }
  }

  lemma NextKeepsRound(w: Work, v: View, stage: Stage, answer: Answer)
    requires v.current && v.publishing && stage != AtEnd && Round(w, stage)
    ensures NextStage(w, v, stage, answer).Some?
    ensures Round(NextWork(w, v, stage, answer), NextStage(w, v, stage, answer).value)
  {
    hide CompletedWork, CompletedNext, SectionNext, PlaceOk, DoneOk;
    if IsOp(stage) {
      CompletedPlace(w, v, stage, answer);
      CompletedKeepsDone(w, v, stage, answer);
    } else {
      SectionPlace(w, v, stage, answer);
      SectionKeepsDone(w, v, stage, answer);
    }
  }

  lemma NextConfirms(w: Work, v: View, stage: Stage, answer: Answer)
    requires PlaceOk(w, stage)
    ensures NextWork(w, v, stage, answer).services == w.services
    ensures forall s :: Confirmed(w, s) ==> Confirmed(NextWork(w, v, stage, answer), s)
  {
    var w' := NextWork(w, v, stage, answer);
    if IsOp(stage) {
      forall s | Confirmed(w, s) ensures Confirmed(w', s) { CompletedConfirms(w, v, stage, answer, s); }
    }
  }

  // ---------------------------------------------------------------------------------------------
  // Every step keeps the invariant
  // ---------------------------------------------------------------------------------------------

  lemma BumpKeeps(r: Registry, r': Registry)
    requires Inv(r) && r'.generation == r.generation + 1 && !r'.publishing && !r'.published && r'.tokens == r.tokens
    requires r'.nextToken == r.nextToken
    ensures Inv(r')
  {
    assert forall t :: !Live(r', t);
  }

  lemma SameKeeps(r: Registry, r': Registry)
    requires Inv(r) && r'.generation == r.generation && r'.publishing == r.publishing && r'.tokens == r.tokens
    requires r'.nextToken == r.nextToken
    requires r'.work == r.work && (r'.published ==> r.published)
    ensures Inv(r')
  {
    hide Round, Confirmed;
    assert forall t :: Live(r', t) == Live(r, t);
  }

  lemma StartedKeeps(r: Registry, issued: bool, order: seq<string>)
    requires Inv(r) && !r.publishing && Lists(order, r.work.services) && r.work.services != map[]
    ensures Inv(Started(r, issued, order))
  {
    var r' := Started(r, issued, order);
    var w, stage := r'.work, if issued then RootOp else AtEnd;
    assert order != [] by {
      var s :| s in r.work.services;
      assert s in order;
    }
    assert Round(w, stage);
    assert forall s :: Confirmed(r.work, s) ==> Confirmed(w, s);
    hide Round, Confirmed, Lists;
    forall t ensures Live(r', t) <==> t == r.nextToken { assert Live(r', t) && t != r.nextToken ==> Live(r, t); }
    assert Live(r', r.nextToken);
  }

  lemma BeginKeeps(r: Registry, issued: bool, order: seq<string>)
    requires Inv(r)
    ensures Inv(StepBegin(r, issued, order))
  {
    hide Inv, Lists, Started;
    if r.begins > 0 && Lists(order, r.work.services) && r.started && r.handle && r.work.services != map[] && r.connected
        && !r.publishing {
      StartedKeeps(r, issued, order);
    } else {
      SameKeeps(r, StepBegin(r, issued, order));
    }
  }

  lemma PublishKeeps(r: Registry, services: map<string, Data>)
    requires Inv(r)
    ensures Inv(StepPublish(r, services))
  {
    var r' := StepPublish(r, services);
    if services == map[] || !r.started {
      hide Inv;
      SameKeeps(r, r');
    } else if r.publishing {
      hide Inv;
      BumpKeeps(r, r');
    } else {
      hide Round, Confirmed;
      assert forall t :: !Live(r, t);
      assert forall t :: !Live(r', t);
    }
  }

  /** A token of an older generation changes nothing but itself. */
  lemma StaleKeeps(r: Registry, t: nat, answer: Answer, issued: bool)
    requires Inv(r) && t in r.tokens && !Live(r, t)
    ensures Inv(StepAdvance(r, t, answer, issued))
    ensures StepAdvance(r, t, answer, issued) == r.(tokens := StepAdvance(r, t, answer, issued).tokens)
    ensures forall u :: Live(r, u) ==>
        && Live(StepAdvance(r, t, answer, issued), u)
        && StepAdvance(r, t, answer, issued).tokens[u] == r.tokens[u]
  {
    var r' := StepAdvance(r, t, answer, issued);
    StaleWork(r.work, ViewOf(r, t, issued), r.tokens[t].stage, answer);
    hide NextWork, NextStage, Round, Confirmed;
    assert forall u :: Live(r', u) <==> Live(r, u);
    assert forall u :: Live(r, u) ==> r'.tokens[u] == r.tokens[u];
  }

  /** The round goes on. */
  lemma LiveKeeps(r: Registry, t: nat, answer: Answer, issued: bool)
    requires Inv(r) && Live(r, t) && r.tokens[t].stage != AtEnd
    ensures Inv(StepAdvance(r, t, answer, issued))
  {
    var r' := StepAdvance(r, t, answer, issued);
    var v, stage := ViewOf(r, t, issued), r.tokens[t].stage;
    assert r.publishing && Round(r.work, stage);
    assert PlaceOk(r.work, stage);
    hide NextWork, NextStage, PlaceOk, DoneOk, Confirmed;
    assert NextStage(r.work, v, stage, answer).Some? && Round(r'.work, r'.tokens[t].stage) by {
      NextKeepsRound(r.work, v, stage, answer);
    }
    assert r'.work.services == r.work.services && (forall s :: Confirmed(r.work, s) ==> Confirmed(r'.work, s)) by {
      NextConfirms(r.work, v, stage, answer);
    }
    forall u ensures Live(r', u) <==> u == t { assert Live(r', u) ==> Live(r, u); }
    assert Live(r', t);
  }

  /** At the end of a round, success is claimed if and only if every service has been acknowledged in it. */
  lemma EndIsExact(w: Work)
    requires Round(w, AtEnd)
    ensures Succeeded(w) <==> forall s :: s in w.services ==> s in w.done
  {
    if Succeeded(w) {
      forall s | s in w.services ensures s in w.done {
        assert s in w.queue;
        var j :| 0 <= j < |w.queue| && w.queue[j] == s;
        assert Done(w, j);
      }
    } else {
      var j: nat :| j < |w.queue| && !Done(w, j) by {
        if w.index < |w.queue| { assert !Done(w, w.index); }
      }
      assert w.queue[j] in w.queue;
    }
  }

  lemma EndKeeps(r: Registry, t: nat)
    requires Inv(r) && Live(r, t) && r.tokens[t].stage == AtEnd
    ensures Inv(End(r, t))
  {
    var r' := End(r, t);
    assert Round(r.work, AtEnd);
    EndIsExact(r.work);
    assert r'.published ==> forall s :: s in r'.work.services ==> Confirmed(r'.work, s) by {
      assert forall s :: Confirmed(r.work, s) ==> Confirmed(r'.work, s);
    }
    assert r'.published ==> r'.work.services != map[] by {
      assert r.work.queue != [] && Lists(r.work.queue, r.work.services);
      assert r.work.queue[0] in r.work.queue;
    }
    hide Round, Confirmed;
    forall u ensures !Live(r', u) { assert Live(r', u) ==> Live(r, u); }
  }

  lemma AdvanceKeeps(r: Registry, t: nat, answer: Answer, issued: bool)
    requires Inv(r) && t in r.tokens
    ensures Inv(StepAdvance(r, t, answer, issued))
  {
    if !Live(r, t) {
      StaleKeeps(r, t, answer, issued);
    } else if r.tokens[t].stage != AtEnd {
      LiveKeeps(r, t, answer, issued);
    } else {
      assert r.publishing;
      hide Inv;
      EndKeeps(r, t);
    }
  }

  lemma StepKeepsInv(r: Registry, a: Action)
    requires Inv(r)
    ensures Inv(Step(r, a))
  {
    hide Inv, StepBegin, StepAdvance, StepPublish;
    match a
    case Publish(services) => PublishKeeps(r, services);
    case Unpublish => BumpKeeps(r, Step(r, a));
    case StopSection => if r.stopping { BumpKeeps(r, Step(r, a)); }
    case Expire => if r.started && r.handle { BumpKeeps(r, Step(r, a)); }
    case Begin(issued, order) => BeginKeeps(r, issued, order);
    case Advance(t, answer, issued) => if t in r.tokens { AdvanceKeeps(r, t, answer, issued); }
    case _ => SameKeeps(r, Step(r, a));
  }

  function Run(actions: seq<Action>): (r: Registry)
    decreases |actions|
  {
    if actions == [] then Initial() else Step(Run(actions[..|actions| - 1]), actions[|actions| - 1])
  }

  lemma {:induction false} RunInv(actions: seq<Action>)
    ensures Inv(Run(actions))
    decreases |actions|
  {
    if actions != [] {
      hide Inv, Step;
      RunInv(actions[..|actions| - 1]);
      StepKeepsInv(Run(actions[..|actions| - 1]), actions[|actions| - 1]);
    }
  }

  // ---------------------------------------------------------------------------------------------
  // What every run promises
  // ---------------------------------------------------------------------------------------------

  /** Exactly while a round is on there is an operation or continuation of the current generation, and only one. */
  lemma OneLiveOperation(actions: seq<Action>)
    ensures var r := Run(actions);
      && (r.publishing <==> exists t :: Live(r, t))
      && (forall t, u :: Live(r, t) && Live(r, u) ==> t == u)
  {
    RunInv(actions);
  }

  /** Operations of older generations never touch the round, its outcome or what has been acknowledged. */
  lemma StaleIsInert(actions: seq<Action>, t: nat, answer: Answer, issued: bool)
    requires t in Run(actions).tokens && !Live(Run(actions), t)
    ensures var r := Run(actions); var r' := Step(r, Advance(t, answer, issued));
      && r' == r.(tokens := r'.tokens)
      && forall u :: Live(r, u) ==> Live(r', u) && r'.tokens[u] == r.tokens[u]
  {
    hide Run;
    RunInv(actions);
    var r := Run(actions);
    hide Inv, StepAdvance;
    StaleKeeps(r, t, answer, issued);
  }

  /** A round of `n` services sees at most `1 + 5 * n` completions. */
  lemma RoundIsBounded(actions: seq<Action>)
    requires Run(actions).publishing
    ensures Run(actions).work.completions <= 1 + 5 * |Run(actions).work.queue|
  {
    RunInv(actions);
    hide Run;
    var r := Run(actions);
    var t :| Live(r, t);
    assert Round(r.work, r.tokens[t].stage);
    hide DoneOk, Lists;
    assert 0 <= Left(r.tokens[t].stage, |r.work.queue| - r.work.index);
  }

  /** `published` means that every current service was created or set with its current data in this generation. */
  lemma PublishedIsCurrent(actions: seq<Action>, service: string)
    requires Run(actions).published
    ensures var w := Run(actions).work;
      w.services != map[] && (service in w.services ==>
          service in w.acked && w.acked[service] == w.services[service] && service in w.paths)
  {
    RunInv(actions);
    hide Run;
    assert service in Run(actions).work.services ==> Confirmed(Run(actions).work, service);
  }

  /** A round that reaches its end reports success if and only if every service was acknowledged in that round. */
  lemma EndReportsExactly(actions: seq<Action>, t: nat, answer: Answer, issued: bool)
    requires Live(Run(actions), t) && Run(actions).tokens[t].stage == AtEnd
    ensures var r := Run(actions); var r' := Step(r, Advance(t, answer, issued));
      !r'.publishing && (r'.published <==> forall s :: s in r.work.services ==> s in r.work.done)
  {
    RunInv(actions);
    hide Run;
    var r := Run(actions);
    assert r.publishing && Round(r.work, AtEnd);
    hide Inv, Round;
    EndIsExact(r.work);
  }
}
