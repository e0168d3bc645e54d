/**
 The registry against its script: which services it is to publish, which answers of ZooKeeper back a claim to have
 published them, and which operations a round that is left alone issues.
 */
module RegistryRuns {
  import opened Results
  import opened ServiceRegistry

  ghost function At(actions: seq<Action>, k: nat): (r: Registry)
    requires k <= |actions|
  {
    Run(actions[..k])
  }

  lemma AtNext(actions: seq<Action>, k: nat)
    requires k < |actions|
    ensures At(actions, k + 1) == Step(At(actions, k), actions[k])
  {
    hide Step;
    assert actions[..k + 1][..k] == actions[..k];
  }

  // ---------------------------------------------------------------------------------------------
  // What is to be published
  // ---------------------------------------------------------------------------------------------

  /** The services of the last non-empty request before a stop, unless they were withdrawn since. */
  ghost function Wanted(actions: seq<Action>, k: nat): (services: map<string, Data>)
    requires k <= |actions|
  {
    if k == 0 then map[]
    else
      match actions[k - 1]
      case Publish(services) =>
        if services == map[] || Stop in actions[..k - 1] then Wanted(actions, k - 1) else services
      case Unpublish => map[]
      case _ => Wanted(actions, k - 1)
  }

  lemma WorkServices(w: Work, v: View, stage: Stage, answer: Answer)
    ensures NextWork(w, v, stage, answer).services == w.services
  {
  }

  lemma AdvanceServices(r: Registry, t: nat, answer: Answer, issued: bool)
    requires t in r.tokens
    ensures StepAdvance(r, t, answer, issued).work.services == r.work.services
    ensures StepAdvance(r, t, answer, issued).started == r.started
  {
    hide NextWork, NextStage, Put, Succeeded;
    WorkServices(r.work, ViewOf(r, t, issued), r.tokens[t].stage, answer);
  }

  lemma StepServices(r: Registry, a: Action)
    ensures Step(r, a).started == (r.started && a != Stop)
    ensures Step(r, a).work.services ==
      if a.Publish? && a.services != map[] && r.started then a.services
      else if a.Unpublish? then map[] else r.work.services
  {
    hide StepAdvance, StepPublish, StepBegin;
    match a
    case Advance(t, answer, issued) => if t in r.tokens { AdvanceServices(r, t, answer, issued); }
    case Publish(services) => PublishServices(r, services);
    case Begin(issued, order) => BeginServices(r, issued, order);
    case _ =>
  }

  lemma PublishServices(r: Registry, services: map<string, Data>)
    ensures StepPublish(r, services).started == r.started
    ensures StepPublish(r, services).work.services ==
      if services != map[] && r.started then services else r.work.services
  {
  }

  lemma BeginServices(r: Registry, issued: bool, order: seq<string>)
    ensures StepBegin(r, issued, order).started == r.started
    ensures StepBegin(r, issued, order).work.services == r.work.services
  {
    hide Lists;
  }

  /** In every run, the services the registry works on are those asked for last. */
  lemma {:induction false} ServicesAreWanted(actions: seq<Action>, k: nat)
    requires k <= |actions|
    ensures At(actions, k).work.services == Wanted(actions, k)
    ensures At(actions, k).started <==> Stop !in actions[..k]
  {
    if k == 0 {
      assert actions[..0] == [];
    } else {
      hide Step;
      ServicesAreWanted(actions, k - 1);
      AtNext(actions, k - 1);
      StepServices(At(actions, k - 1), actions[k - 1]);
      assert actions[..k] == actions[..k - 1] + [actions[k - 1]];
    }
  }

  // ---------------------------------------------------------------------------------------------
  // What backs a claim to have published
  // ---------------------------------------------------------------------------------------------

  /** ZooKeeper answers that it created or set the node of the service with this data. */
  ghost predicate Acknowledges(r: Registry, a: Action, generation: nat, service: string, data: Data) {
    && a.Advance? && a.answer == Ok && a.t in r.tokens && r.tokens[a.t].generation == generation
    && (r.tokens[a.t].stage == EndpointOp(service, data) || r.tokens[a.t].stage == SetOp(service, data))
  }

  ghost predicate Acknowledged(actions: seq<Action>, k: nat, generation: nat, service: string, data: Data)
    requires k <= |actions|
  {
    exists j :: 0 <= j < k && Acknowledges(At(actions, j), actions[j], generation, service, data)
  }

  lemma WorkAcks(w: Work, v: View, stage: Stage, answer: Answer, s: string)
    ensures var w' := NextWork(w, v, stage, answer);
      s in w'.acked ==>
        || (s in w.acked && w'.acked[s] == w.acked[s])
        || (v.current && answer == Ok && (stage == EndpointOp(s, w'.acked[s]) || stage == SetOp(s, w'.acked[s])))
  {
  }

  /** What is newly acknowledged, or kept from before in the same generation. */
  lemma AdvanceAcks(r: Registry, t: nat, answer: Answer, issued: bool, s: string)
    requires t in r.tokens
    ensures var r' := StepAdvance(r, t, answer, issued);
      && r'.generation == r.generation
      && (s in r'.work.acked ==>
            (s in r.work.acked && r'.work.acked[s] == r.work.acked[s])
            || Acknowledges(r, Advance(t, answer, issued), r.generation, s, r'.work.acked[s]))
  {
    hide NextWork, NextStage, StepAdvance;
    if r.tokens[t].stage == AtEnd { LastAcks(r, t, answer, issued); } else { AdvanceWork(r, t, answer, issued); }
    WorkAcks(r.work, ViewOf(r, t, issued), r.tokens[t].stage, answer, s);
  }

  lemma AdvanceWork(r: Registry, t: nat, answer: Answer, issued: bool)
    requires t in r.tokens && r.tokens[t].stage != AtEnd
    ensures var r', v := StepAdvance(r, t, answer, issued), ViewOf(r, t, issued);
      r'.generation == r.generation && r'.work == NextWork(r.work, v, r.tokens[t].stage, answer)
  {
    hide NextWork, NextStage, Put, End;
  }

  lemma LastAcks(r: Registry, t: nat, answer: Answer, issued: bool)
    requires t in r.tokens && r.tokens[t].stage == AtEnd
    ensures var r' := StepAdvance(r, t, answer, issued);
      r'.generation == r.generation && r'.work.acked == r.work.acked
  {
    hide NextWork, NextStage, Put, Succeeded;
  }

  lemma StepAcks(r: Registry, a: Action, s: string)
    requires s in Step(r, a).work.acked
    ensures var r' := Step(r, a);
      || (r'.generation == r.generation && s in r.work.acked && r'.work.acked[s] == r.work.acked[s])
      || Acknowledges(r, a, r'.generation, s, r'.work.acked[s])
  {
    hide StepAdvance, Lists;
    if a.Advance? && a.t in r.tokens { AdvanceAcks(r, a.t, a.answer, a.issued, s); }
  }

  lemma NothingAcked(actions: seq<Action>, s: string)
    ensures s !in At(actions, 0).work.acked
  {
    assert actions[..0] == [];
  }

  lemma {:induction false} AcksAreAnswers(actions: seq<Action>, k: nat, s: string)
    requires k <= |actions| && s in At(actions, k).work.acked
    ensures Acknowledged(actions, k, At(actions, k).generation, s, At(actions, k).work.acked[s])
  {
    hide Step, At;
    if k == 0 {
      NothingAcked(actions, s);
    } else {
      AtNext(actions, k - 1);
      var r, r' := At(actions, k - 1), At(actions, k);
      StepAcks(r, actions[k - 1], s);
      if r'.generation == r.generation && s in r.work.acked && r'.work.acked[s] == r.work.acked[s] {
        AcksAreAnswers(actions, k - 1, s);
        var j :| 0 <= j < k - 1 && Acknowledges(At(actions, j), actions[j], r.generation, s, r.work.acked[s]);
      } else {
        assert Acknowledges(At(actions, k - 1), actions[k - 1], r'.generation, s, r'.work.acked[s]);
      }
    }
  }

  /**
   A registry that claims to have published has, since its last change of generation, an answer from ZooKeeper for every
   service asked for last, that its node was created or set with the data asked for.
   */
  lemma PublishedIsAcknowledged(actions: seq<Action>, service: string)
    requires Run(actions).published && service in Wanted(actions, |actions|)
    ensures Acknowledged(actions, |actions|, Run(actions).generation, service, Wanted(actions, |actions|)[service])
  {
    hide Run;
    assert actions[..|actions|] == actions;
    ServicesAreWanted(actions, |actions|);
    PublishedIsCurrent(actions, service);
    AcksAreAnswers(actions, |actions|, service);
  }

  // ---------------------------------------------------------------------------------------------
  // A round left alone
  // ---------------------------------------------------------------------------------------------

  /** How ZooKeeper answers if it has a node, of this session, for exactly the services in `present`. */
  ghost function AnswerTo(stage: Stage, present: set<string>): (answer: Answer) {
    if stage.EndpointOp? && stage.service in present then NodeExists else Ok
  }

  /** `n` steps of the round of token `t`, with every operation accepted and answered, and the operations completed. */
  ghost function Alone(r: Registry, t: nat, present: set<string>, n: nat): (o: (Registry, seq<Stage>))
    decreases n
  {
    if n == 0 || t !in r.tokens then (r, [])
    else
      var stage := r.tokens[t].stage;
      var (r', ops) := Alone(Step(r, Advance(t, AnswerTo(stage, present), true)), t, present, n - 1);
      (r', (if IsOp(stage) then [stage] else []) + ops)
  }

  /** The operations for one service: its node and its providers node, then its endpoint. */
  ghost function OpsFor(s: string, data: Data, present: set<string>): (ops: seq<Stage>) {
    [ServiceOp, ProvidersOp, EndpointOp(s, data)] + if s in present then [ExistsOp, SetOp(s, data)] else []
  }

  ghost function OpsForAll(order: seq<string>, services: map<string, Data>, present: set<string>): (ops: seq<Stage>) {
    if order == [] then []
    else
      OpsFor(order[0], if order[0] in services then services[order[0]] else 0, present)
      + OpsForAll(order[1..], services, present)
  }

  const UNDISTURBED := View(true, true, true)

  /** The same steps as they concern the round alone, up to its last section. */
  ghost function Walk(w: Work, stage: Stage, present: set<string>, n: nat): (o: (Work, Stage, seq<Stage>))
    decreases n
  {
    var answer := AnswerTo(stage, present);
    var next := NextStage(w, UNDISTURBED, stage, answer);
    if n == 0 || stage == AtEnd || next.None? then (w, stage, [])
    else
      var (w', stage', ops) := Walk(NextWork(w, UNDISTURBED, stage, answer), next.value, present, n - 1);
      (w', stage', (if IsOp(stage) then [stage] else []) + ops)
  }

  lemma {:induction false} WalkAdds(w: Work, stage: Stage, present: set<string>, n: nat, k: nat)
    ensures var (w1, s1, a) := Walk(w, stage, present, n);
      var (w2, s2, b) := Walk(w1, s1, present, k);
      Walk(w, stage, present, n + k) == (w2, s2, a + b)
    decreases n
  {
    hide NextWork, NextStage, AnswerTo;
    var answer := AnswerTo(stage, present);
    var next := NextStage(w, UNDISTURBED, stage, answer);
    if n == 0 || stage == AtEnd || next.None? {
      var (w1, s1, a) := Walk(w, stage, present, n);
      assert (w1, s1, a) == (w, stage, []);
      assert a + Walk(w, stage, present, k).2 == Walk(w, stage, present, k).2;
      if n > 0 { assert Walk(w, stage, present, n + k) == Walk(w, stage, present, k) == (w, stage, []); }
    } else {
      var w' := NextWork(w, UNDISTURBED, stage, answer);
      WalkAdds(w', next.value, present, n - 1, k);
      var (w1, s1, a) := Walk(w', next.value, present, n - 1);
      var (w2, s2, b) := Walk(w1, s1, present, k);
      var first := if IsOp(stage) then [stage] else [];
      assert first + (a + b) == first + a + b;
    }
  }

  /** The walk so far: the same services, nothing failed, at service `index`. */
  ghost predicate Going(w: Work, w': Work, index: nat) {
    w'.queue == w.queue && w'.services == w.services && !w'.failed && w'.index == index
  }

  lemma WalkOne(w: Work, stage: Stage, present: set<string>)
    requires stage != AtEnd && w.index < |w.queue| && !w.failed
    ensures var (w', stage', ops) := Walk(w, stage, present, 1);
      && ops == (if IsOp(stage) then [stage] else [])
      && (stage != AtFinish(false) ==> Going(w, w', if stage == AtFinish(true) then w.index + 1 else w.index))
      && (stage == RootOp ==> stage' == AtService)
      && (stage == AtService ==> stage' == ServiceOp)
      && (stage == ServiceOp ==> stage' == AtProviders)
      && (stage == AtProviders ==> stage' == ProvidersOp)
      && (stage == ProvidersOp ==> stage' == AtEndpoint)
      && (stage == AtEndpoint ==> stage' == EndpointOp(Service(w), DataOf(w)))
      && (stage.EndpointOp? ==> stage' == if stage.service in present then AtExists else AtFinish(true))
      && (stage == AtExists ==> stage' == ExistsOp)
      && (stage == ExistsOp ==> stage' == SetOp(Service(w), DataOf(w)))
      && (stage.SetOp? ==> stage' == AtFinish(true))
      && (stage == AtFinish(true) ==> stage' == if w.index + 1 < |w.queue| then AtService else AtEnd)
  {
  }

  /** From the start of a service to its endpoint's answer. */
  lemma CreateWalk(w: Work, present: set<string>) returns (w': Work)
    requires w.index < |w.queue| && !w.failed
    ensures Going(w, w', w.index)
    ensures var s := w.queue[w.index];
      Walk(w, AtService, present, 6) ==
      (w', if s in present then AtExists else AtFinish(true), [ServiceOp, ProvidersOp, EndpointOp(s, DataOf(w))])
  {
    hide Walk;
    WalkOne(w, AtService, present);
    var w1 := Walk(w, AtService, present, 1).0;
    WalkOne(w1, ServiceOp, present);
    var w2 := Walk(w1, ServiceOp, present, 1).0;
    WalkAdds(w, AtService, present, 1, 1);
    WalkOne(w2, AtProviders, present);
    var w3 := Walk(w2, AtProviders, present, 1).0;
    WalkAdds(w, AtService, present, 2, 1);
    WalkOne(w3, ProvidersOp, present);
    var w4 := Walk(w3, ProvidersOp, present, 1).0;
    WalkAdds(w, AtService, present, 3, 1);
    WalkOne(w4, AtEndpoint, present);
    var w5 := Walk(w4, AtEndpoint, present, 1).0;
    WalkAdds(w, AtService, present, 4, 1);
    var endpoint := EndpointOp(Service(w), DataOf(w));
    WalkOne(w5, endpoint, present);
    w' := Walk(w5, endpoint, present, 1).0;
    WalkAdds(w, AtService, present, 5, 1);
    assert [] + [ServiceOp] + [] + [ProvidersOp] + [] + [endpoint] == [ServiceOp, ProvidersOp, endpoint];
  }

  /** A node that is there already is looked at and set. */
  lemma SetWalk(w: Work, present: set<string>) returns (w': Work)
    requires w.index < |w.queue| && !w.failed
    ensures Going(w, w', w.index)
    ensures Walk(w, AtExists, present, 3) == (w', AtFinish(true), [ExistsOp, SetOp(w.queue[w.index], DataOf(w))])
  {
    hide Walk;
    WalkOne(w, AtExists, present);
    var w1 := Walk(w, AtExists, present, 1).0;
    WalkOne(w1, ExistsOp, present);
    var w2 := Walk(w1, ExistsOp, present, 1).0;
    WalkAdds(w, AtExists, present, 1, 1);
    var set_ := SetOp(Service(w), DataOf(w));
    WalkOne(w2, set_, present);
    w' := Walk(w2, set_, present, 1).0;
    WalkAdds(w, AtExists, present, 2, 1);
    assert [] + [ExistsOp] + [set_] == [ExistsOp, set_];
  }

  lemma ServiceWalk(w: Work, present: set<string>) returns (w': Work, n: nat)
    requires w.index < |w.queue| && !w.failed
    ensures Going(w, w', w.index + 1)
    ensures Walk(w, AtService, present, n) ==
      (w', if w.index + 1 < |w.queue| then AtService else AtEnd, OpsFor(w.queue[w.index], DataOf(w), present))
  {
    hide Walk;
    var s := w.queue[w.index];
    var w1 := CreateWalk(w, present);
    var ops := [ServiceOp, ProvidersOp, EndpointOp(s, DataOf(w))];
    var w2, k := w1, 6;
    if s in present {
      w2 := SetWalk(w1, present);
      WalkAdds(w, AtService, present, 6, 3);
      k := 9;
    }
    assert Walk(w, AtService, present, k) == (w2, AtFinish(true), OpsFor(s, DataOf(w), present)) by {
      assert ops + [] == ops;
    }
    WalkOne(w2, AtFinish(true), present);
    w' := Walk(w2, AtFinish(true), present, 1).0;
    WalkAdds(w, AtService, present, k, 1);
    n := k + 1;
    assert OpsFor(s, DataOf(w), present) + [] == OpsFor(s, DataOf(w), present);
  }

  lemma {:induction false} AllWalk(w: Work, present: set<string>) returns (w': Work, n: nat)
    requires w.index < |w.queue| && !w.failed
    ensures Going(w, w', |w.queue|)
    ensures Walk(w, AtService, present, n) == (w', AtEnd, OpsForAll(w.queue[w.index..], w.services, present))
    decreases |w.queue| - w.index
  {
    hide Walk;
    var w1, k := ServiceWalk(w, present);
    var rest := w.queue[w.index..];
    assert rest[0] == w.queue[w.index] && rest[1..] == w.queue[w.index + 1..];
    if w.index + 1 < |w.queue| {
      var w2, m := AllWalk(w1, present);
      WalkAdds(w, AtService, present, k, m);
      w', n := w2, k + m;
    } else {
      w', n := w1, k;
      assert rest[1..] == [];
      assert OpsFor(rest[0], DataOf(w), present) + [] == OpsFor(rest[0], DataOf(w), present);
    }
  }

  /** The registry with its round at this place. */
  ghost function Placed(r: Registry, t: nat, w: Work, stage: Stage): (r': Registry) {
    r.(work := w, tokens := r.tokens[t := Token(r.generation, stage)])
  }

  lemma {:induction false} AloneWalks(r: Registry, t: nat, w: Work, stage: Stage, present: set<string>, n: nat)
    returns (k: nat)
    requires r.publishing && r.handle
    ensures var (w', stage', ops) := Walk(w, stage, present, n);
      Alone(Placed(r, t, w, stage), t, present, k) == (Placed(r, t, w', stage'), ops)
    decreases n
  {
    hide NextWork, NextStage, AnswerTo, Step;
    var answer := AnswerTo(stage, present);
    var next := NextStage(w, UNDISTURBED, stage, answer);
    k := 0;
    if n > 0 && stage != AtEnd && next.Some? {
      var m := AloneWalks(r, t, NextWork(w, UNDISTURBED, stage, answer), next.value, present, n - 1);
      AdvancePlaced(r, t, w, stage, answer);
      k := m + 1;
    }
  }

  lemma AdvancePlaced(r: Registry, t: nat, w: Work, stage: Stage, answer: Answer)
    requires r.publishing && r.handle && stage != AtEnd && NextStage(w, UNDISTURBED, stage, answer).Some?
    ensures Step(Placed(r, t, w, stage), Advance(t, answer, true)) ==
      Placed(r, t, NextWork(w, UNDISTURBED, stage, answer), NextStage(w, UNDISTURBED, stage, answer).value)
  {
    hide NextWork, NextStage;
    var next := NextStage(w, UNDISTURBED, stage, answer).value;
    assert r.tokens[t := Token(r.generation, stage)][t := Token(r.generation, next)] ==
           r.tokens[t := Token(r.generation, next)];
  }

  lemma {:induction false} AloneAdds(r: Registry, t: nat, present: set<string>, n: nat, k: nat)
    ensures var (r1, a) := Alone(r, t, present, n);
      var (r2, b) := Alone(r1, t, present, k);
      Alone(r, t, present, n + k) == (r2, a + b)
    decreases n
  {
    hide Step, AnswerTo;
    if n == 0 || t !in r.tokens {
      var (r1, a) := Alone(r, t, present, n);
      assert (r1, a) == (r, []);
      assert a + Alone(r, t, present, k).1 == Alone(r, t, present, k).1;
    } else {
      var stage := r.tokens[t].stage;
      var r' := Step(r, Advance(t, AnswerTo(stage, present), true));
      AloneAdds(r', t, present, n - 1, k);
      var (r1, a) := Alone(r', t, present, n - 1);
      var (r2, b) := Alone(r1, t, present, k);
      var first := if IsOp(stage) then [stage] else [];
      assert first + (a + b) == first + a + b;
    }
  }

  /** The last section of a round in which nothing failed. */
  lemma EndAlone(r: Registry, t: nat, w: Work, present: set<string>)
    requires r.publishing && !w.failed && w.index == |w.queue| && w.queue != []
    ensures var (r', ops) := Alone(Placed(r, t, w, AtEnd), t, present, 1);
      r'.published && !r'.publishing && t !in r'.tokens && ops == []
  {
    var p := Placed(r, t, w, AtEnd);
    assert Alone(p, t, present, 1).0 == Alone(Step(p, Advance(t, Ok, true)), t, present, 0).0;
  }

  lemma Begun(r: Registry, order: seq<string>)
    requires r.begins > 0 && Lists(order, r.work.services) && r.started && r.handle && r.connected
    requires r.work.services != map[] && !r.publishing
    ensures var r0 := Step(r, Begin(true, order));
      && r0.publishing && r0.handle && r0 == Placed(r0, r.nextToken, r0.work, RootOp) && order != []
      && r0.work.queue == order && r0.work.index == 0 && !r0.work.failed && r0.work.services == r.work.services
  {
    var s :| s in r.work.services;
    assert s in order;
    var r0 := Step(r, Begin(true, order));
    assert r0.tokens[r.nextToken := Token(r0.generation, RootOp)] == r0.tokens;
  }

  lemma RoundSteps(r: Registry, order: seq<string>, present: set<string>) returns (n: nat)
    requires r.begins > 0 && Lists(order, r.work.services) && r.started && r.handle && r.connected
    requires r.work.services != map[] && !r.publishing
    ensures var (r', ops) := Alone(Step(r, Begin(true, order)), r.nextToken, present, n);
      r'.published && !r'.publishing && ops == [RootOp] + OpsForAll(order, r.work.services, present)
  {
    hide Step, Alone, Walk, OpsForAll, Lists;
    Begun(r, order);
    var r0, t := Step(r, Begin(true, order)), r.nextToken;
    var w0 := r0.work;
    WalkOne(w0, RootOp, present);
    var w1 := Walk(w0, RootOp, present, 1).0;
    var w2, m := AllWalk(w1, present);
    WalkAdds(w0, RootOp, present, 1, m);
    assert order[0..] == order;
    var k := AloneWalks(r0, t, w0, RootOp, present, 1 + m);
    EndAlone(r0, t, w2, present);
    AloneAdds(r0, t, present, k, 1);
    n := k + 1;
    var ops := [RootOp] + OpsForAll(order, r.work.services, present);
    assert ops + [] == ops;
  }

  /**
   A round left alone goes through the services in order: the root node once, then for each service its node, its
   providers node and its endpoint, and for an endpoint that is there already a look at it and a write. It issues no
   other operation, writes for each service the data asked for, and ends by reporting success.
   */
  lemma RoundAlone(r: Registry, order: seq<string>, present: set<string>)
    requires r.begins > 0 && Lists(order, r.work.services) && r.started && r.handle && r.connected
    requires r.work.services != map[] && !r.publishing
    ensures exists n :: var o := Alone(Step(r, Begin(true, order)), r.nextToken, present, n);
      o.0.published && !o.0.publishing && o.1 == [RootOp] + OpsForAll(order, r.work.services, present)
  {
    hide Step, Alone, OpsForAll, Lists;
    var n := RoundSteps(r, order, present);
  }
}
