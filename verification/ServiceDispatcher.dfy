/**
 The dispatcher's method table and its per-thread lookup cache. Updates copy the table, publish the copy and then raise
 the generation, one update at a time; lookups on any number of threads interleave with them step by step. `history`
 lists every table ever published, the last being the current one; versions and answers are auxiliary.
 */
module ServiceDispatcher {
  import opened Results

  type Handler = nat
  type Table = map<string, Handler>

  function Key(service: string, method_: string): (k: string) {
    service + "\n" + method_
  }

  function Find(table: Table, service: string, method_: string): (h: Option<Handler>) {
    if Key(service, method_) in table then Some(table[Key(service, method_)]) else None
  }

  datatype Cache = Cache(generation: nat, service: string, method_: string, found: Option<Handler>, version: nat)

  /** A lookup that has read the generation. */
  datatype Lookup = Lookup(generation: nat, service: string, method_: string)

  datatype Answer = Answer(
    thread: nat, since: nat, version: nat, service: string, method_: string, found: Option<Handler>)

  datatype Dispatcher = Dispatcher(
    history: seq<Table>, generation: nat, updating: bool, lookups: map<nat, Lookup>, caches: map<nat, Cache>,
    answers: seq<Answer>)

  datatype Action =
    | Register(service: string, method_: string, handler: Handler)
    | Unregister(service: string, method_: string)
    | Raise
    | StartLookup(t: nat, service: string, method_: string)
    | FinishLookup(t: nat)
    | LoseCache(t: nat) // the thread has used its only cache entry for another dispatcher

  function Initial(): (d: Dispatcher) {
    Dispatcher([map[]], 1, false, map[], map[], [])
  }

  function Current(d: Dispatcher): (table: Table)
    requires d.history != []
  {
    d.history[|d.history| - 1]
  }

  /** The copy is published; the mutex is held until the generation has been raised. */
  function Publish(d: Dispatcher, table: Table): (d': Dispatcher) {
    d.(history := d.history + [table], updating := true)
  }

  function StepFinish(d: Dispatcher, t: nat): (d': Dispatcher)
    requires d.history != [] && t in d.lookups
  {
    var l := d.lookups[t];
    var idle := d.(lookups := d.lookups - {t});
    if t in d.caches && d.caches[t].generation == l.generation && d.caches[t].service == l.service &&
       d.caches[t].method_ == l.method_
    then
      var c := d.caches[t];
      idle.(answers := d.answers + [Answer(t, l.generation, c.version, l.service, l.method_, c.found)])
    else
      var found := Find(Current(d), l.service, l.method_);
      idle.(caches := d.caches[t := Cache(l.generation, l.service, l.method_, found, |d.history| - 1)],
            answers := d.answers + [Answer(t, l.generation, |d.history| - 1, l.service, l.method_, found)])
  }

  function Step(d: Dispatcher, a: Action): (d': Dispatcher)
    requires d.history != []
    ensures d'.history != []
  {
    match a
    case Register(s, m, h) =>
      if d.updating || s == "" || m == "" || Key(s, m) in Current(d) then d
      else Publish(d, Current(d)[Key(s, m) := h])
    case Unregister(s, m) => if d.updating || Key(s, m) !in Current(d) then d else Publish(d, Current(d) - {Key(s, m)})
    case Raise => if d.updating then d.(generation := d.generation + 1, updating := false) else d
    case StartLookup(t, s, m) =>
      if t in d.lookups then d else d.(lookups := d.lookups[t := Lookup(d.generation, s, m)])
    case FinishLookup(t) => if t in d.lookups then StepFinish(d, t) else d
    case LoseCache(t) => d.(caches := d.caches - {t})
  }

  /** `since - 1` updates had returned when the lookup read the generation; the version answered is no older. */
  ghost predicate AnswerOk(d: Dispatcher, a: Answer) {
    a.since - 1 <= a.version < |d.history| && a.found == Find(d.history[a.version], a.service, a.method_)
  }

  ghost predicate CacheOk(d: Dispatcher, c: Cache) {
    && c.generation <= d.generation && c.generation - 1 <= c.version < |d.history|
    && c.found == Find(d.history[c.version], c.service, c.method_)
  }

  /** The generation is one ahead of the number of finished updates; at most one more has been published. */
  ghost predicate Inv(d: Dispatcher) {
    && |d.history| == (if d.updating then d.generation + 1 else d.generation) && d.generation >= 1
    && (forall t :: t in d.lookups ==> d.lookups[t].generation <= d.generation)
    && (forall t :: t in d.caches ==> CacheOk(d, d.caches[t]))
    && (forall i :: 0 <= i < |d.answers| ==> AnswerOk(d, d.answers[i]))
  }

  lemma CacheStays(d: Dispatcher, d': Dispatcher, c: Cache)
    requires CacheOk(d, c) && d.history <= d'.history && d.generation <= d'.generation
    ensures CacheOk(d', c)
  {
  }

  lemma AnswerStays(d: Dispatcher, d': Dispatcher, a: Answer)
    requires AnswerOk(d, a) && d.history <= d'.history
    ensures AnswerOk(d', a)
  {
  }

  lemma StepKeepsInv(d: Dispatcher, a: Action)
    requires Inv(d)
    ensures Inv(Step(d, a)) && d.history <= Step(d, a).history && d.generation <= Step(d, a).generation
  {
    hide Find, CacheOk, AnswerOk, StepFinish;
    if a.FinishLookup? {
      if a.t in d.lookups { FinishKeeps(d, a.t); }
    } else {
      var d' := Step(d, a);
      assert d'.answers == d.answers && d.history <= d'.history && d.generation <= d'.generation;
      assert forall t :: t in d'.caches ==> t in d.caches && d'.caches[t] == d.caches[t];
      forall t | t in d'.caches ensures CacheOk(d', d'.caches[t]) { CacheStays(d, d', d.caches[t]); }
      forall i | 0 <= i < |d'.answers| ensures AnswerOk(d', d'.answers[i]) { AnswerStays(d, d', d.answers[i]); }
    }
  }

  lemma FinishKeeps(d: Dispatcher, t: nat)
    requires Inv(d) && t in d.lookups
    ensures var d' := StepFinish(d, t); Inv(d') && d'.history == d.history && d'.generation == d.generation
  {
    hide Find;
    var d' := StepFinish(d, t);
    forall x | x in d'.caches ensures CacheOk(d', d'.caches[x]) {
      if x in d.caches && d'.caches[x] == d.caches[x] { CacheStays(d, d', d.caches[x]); }
    }
    forall i | 0 <= i < |d'.answers| ensures AnswerOk(d', d'.answers[i]) {
      if i < |d.answers| { assert d'.answers[i] == d.answers[i]; AnswerStays(d, d', d.answers[i]); }
    }
  }

  function Run(d: Dispatcher, actions: seq<Action>): (d': Dispatcher)
    requires d.history != []
    ensures d'.history != []
    decreases |actions|
  {
    if actions == [] then d else Step(Run(d, actions[..|actions| - 1]), actions[|actions| - 1])
  }

  lemma {:induction false} RunKeepsInv(d: Dispatcher, actions: seq<Action>)
    requires Inv(d)
    ensures Inv(Run(d, actions)) && d.history <= Run(d, actions).history && |d.answers| <= |Run(d, actions).answers|
    decreases |actions|
  {
    if actions != [] {
      var before := Run(d, actions[..|actions| - 1]);
      assert |before.answers| <= |Run(d, actions).answers|;
      hide Inv, Step;
      RunKeepsInv(d, actions[..|actions| - 1]);
      StepKeepsInv(before, actions[|actions| - 1]);
    }
  }

  lemma InitialInv()
    ensures Inv(Initial())
  {
  }

  ghost predicate Reachable(d: Dispatcher) {
    exists actions :: d == Run(Initial(), actions)
  }

  lemma ReachableInv(d: Dispatcher)
    requires Reachable(d)
    ensures Inv(d)
  {
    hide Inv;
    var actions :| d == Run(Initial(), actions);
    InitialInv();
    RunKeepsInv(Initial(), actions);
  }

  /** Every lookup, cached or not, answers from a table no older than the generation it read. */
  lemma LookupsAreCurrent(d: Dispatcher, i: nat)
    requires Reachable(d) && i < |d.answers|
    ensures var a := d.answers[i];
      a.since - 1 <= a.version < |d.history| && a.found == Find(d.history[a.version], a.service, a.method_)
  {
    ReachableInv(d);
    assert AnswerOk(d, d.answers[i]);
  }

  /** The newest table whose update has returned: all but the one published by an update still under way. */
  function Returned(d: Dispatcher): (version: int) {
    |d.history| - if d.updating then 2 else 1
  }

  /** A lookup reads a generation that counts every update that has returned, whatever else is under way. */
  lemma UpdatesAreCounted(d: Dispatcher, t: nat, service: string, method_: string)
    requires Reachable(d) && t !in d.lookups
    ensures Step(d, StartLookup(t, service, method_)).lookups[t].generation - 1 == Returned(d) >= 0
  {
    ReachableInv(d);
  }

  /** What a thread that had no lookup under way in `d` reads and answers afterwards is no older than `d`. */
  ghost predicate Newer(d: Dispatcher, d': Dispatcher, t: nat) {
    && |d.answers| <= |d'.answers|
    && (t in d'.lookups ==> d'.lookups[t].generation >= d.generation)
    && (forall i :: |d.answers| <= i < |d'.answers| && d'.answers[i].thread == t ==>
          d'.answers[i].since >= d.generation)
  }

  lemma {:induction false} RunNewer(d: Dispatcher, actions: seq<Action>, t: nat)
    requires Inv(d) && t !in d.lookups
    ensures Newer(d, Run(d, actions), t) && d.generation <= Run(d, actions).generation
    decreases |actions|
  {
    if actions != [] {
      var before, a := Run(d, actions[..|actions| - 1]), actions[|actions| - 1];
      RunNewer(d, actions[..|actions| - 1], t);
      RunKeepsInv(d, actions[..|actions| - 1]);
      StepNewer(d, before, a, t);
    }
  }

  lemma StepNewer(d: Dispatcher, d': Dispatcher, a: Action, t: nat)
    requires Inv(d') && Newer(d, d', t) && d.generation <= d'.generation
    ensures Newer(d, Step(d', a), t) && d.generation <= Step(d', a).generation
  {
    hide Find, Inv;
    StepKeepsInv(d', a);
    if a.FinishLookup? && a.t in d'.lookups {
      var d'' := StepFinish(d', a.t);
      assert |d''.answers| == |d'.answers| + 1 && d''.answers[..|d'.answers|] == d'.answers;
      assert d''.answers[|d'.answers|].thread == a.t && d''.answers[|d'.answers|].since == d'.lookups[a.t].generation;
    }
  }

  /**
   Once an update has returned, every lookup that any thread starts later answers, cached or not, from that update's
   table or a newer one.
   */
  lemma LaterLookupsSeeUpdates(d: Dispatcher, more: seq<Action>, i: nat)
    requires Reachable(d) && |d.answers| <= i < |Run(d, more).answers|
    requires Run(d, more).answers[i].thread !in d.lookups
    ensures var d' := Run(d, more);
      var a := d'.answers[i];
      && d.history <= d'.history && Returned(d) <= a.version < |d'.history|
      && a.found == Find(d'.history[a.version], a.service, a.method_)
  {
    ReachableInv(d);
    RunNewer(d, more, Run(d, more).answers[i].thread);
    RunKeepsInv(d, more);
    assert AnswerOk(Run(d, more), Run(d, more).answers[i]);
  }

  // ---------------------------------------------------------------------------------------------
  // What the tables hold
  // ---------------------------------------------------------------------------------------------

  /** An update is under way after the first `k` actions: one was accepted and the generation not raised since. */
  ghost predicate Busy(actions: seq<Action>, k: nat)
    requires k <= |actions|
    decreases k, 0
  {
    k > 0 && actions[k - 1] != Raise && (Accepts(actions, k - 1) || Busy(actions, k - 1))
  }

  /** A registration is accepted if both names are given and the entry is free, a removal if the entry is taken. */
  ghost predicate Accepts(actions: seq<Action>, k: nat)
    requires k < |actions|
    decreases k, 1
  {
    && !Busy(actions, k)
    && match actions[k]
       case Register(s, m, _) => s != "" && m != "" && Holds(actions, k, Key(s, m)).None?
       case Unregister(s, m) => Holds(actions, k, Key(s, m)).Some?
       case _ => false
  }

  /** The handler last registered under the entry, unless it was removed since. */
  ghost function Holds(actions: seq<Action>, k: nat, key: string): (h: Option<Handler>)
    requires k <= |actions|
    decreases k, 0
  {
    if k == 0 then None
    else if !Accepts(actions, k - 1) then Holds(actions, k - 1, key)
    else
      match actions[k - 1]
      case Register(s, m, h) => if Key(s, m) == key then Some(h) else Holds(actions, k - 1, key)
      case Unregister(s, m) => if Key(s, m) == key then None else Holds(actions, k - 1, key)
      case _ => Holds(actions, k - 1, key)
  }

  ghost function At(actions: seq<Action>, k: nat): (d: Dispatcher)
    requires k <= |actions|
    ensures d.history != []
  {
    Run(Initial(), actions[..k])
  }

  lemma AtNext(actions: seq<Action>, k: nat)
    requires k < |actions|
    ensures At(actions, k + 1) == Step(At(actions, k), actions[k])
  {
    hide Step;
    assert actions[..k + 1][..k] == actions[..k];
  }

  ghost function Entry(table: Table, key: string): (h: Option<Handler>) {
    if key in table then Some(table[key]) else None
  }

  /** The update is carried out: none is under way, and the entry is free or taken as it must be. */
  ghost predicate Updates(d: Dispatcher, a: Action)
    requires d.history != []
  {
    && !d.updating
    && match a
       case Register(s, m, _) => s != "" && m != "" && Entry(Current(d), Key(s, m)).None?
       case Unregister(s, m) => Entry(Current(d), Key(s, m)).Some?
       case _ => false
  }

  lemma StepTable(d: Dispatcher, a: Action, key: string)
    requires d.history != []
    ensures Step(d, a).updating == (a != Raise && (Updates(d, a) || d.updating))
    ensures Entry(Current(Step(d, a)), key) ==
      if Updates(d, a) && Key(a.service, a.method_) == key then if a.Register? then Some(a.handler) else None
      else Entry(Current(d), key)
  {
    hide Key, StepFinish;
    if a.FinishLookup? && a.t in d.lookups { FinishTables(d, a.t); }
  }

  /** After every run the current table holds exactly what the accepted registrations and removals left in it. */
  lemma {:induction false} TableIsRegistrations(actions: seq<Action>, k: nat)
    requires k <= |actions|
    ensures At(actions, k).updating == Busy(actions, k)
    ensures forall key :: Entry(Current(At(actions, k)), key) == Holds(actions, k, key)
    decreases k
  {
    if k == 0 {
      assert actions[..0] == [];
    } else {
      TableIsRegistrations(actions, k - 1);
      AtNext(actions, k - 1);
      OneUpdate(actions, k - 1, "");
      forall key ensures Entry(Current(At(actions, k)), key) == Holds(actions, k, key) {
        OneUpdate(actions, k - 1, key);
      }
    }
  }

  lemma OneUpdate(actions: seq<Action>, k: nat, key: string)
    requires k < |actions| && At(actions, k).updating == Busy(actions, k)
    requires forall x :: Entry(Current(At(actions, k)), x) == Holds(actions, k, x)
    ensures At(actions, k + 1).updating == Busy(actions, k + 1)
    ensures Entry(Current(At(actions, k + 1)), key) == Holds(actions, k + 1, key)
  {
    hide Key, Step, At, Entry;
    AtNext(actions, k);
    StepTable(At(actions, k), actions[k], key);
    assert Updates(At(actions, k), actions[k]) == Accepts(actions, k);
  }

  lemma FinishTables(d: Dispatcher, t: nat)
    requires d.history != [] && t in d.lookups
    ensures StepFinish(d, t).history == d.history && StepFinish(d, t).updating == d.updating
  {
  }

  /** Every table was the current one at some moment. */
  lemma {:induction false} TableWasCurrent(actions: seq<Action>, k: nat, v: nat) returns (j: nat)
    requires k <= |actions| && v < |At(actions, k).history|
    ensures j <= k && |At(actions, j).history| == v + 1 && Current(At(actions, j)) == At(actions, k).history[v]
    decreases k
  {
    if v + 1 == |At(actions, k).history| {
      j := k;
    } else {
      FirstTable(actions);
      AtNext(actions, k - 1);
      HistoryGrows(At(actions, k - 1), actions[k - 1]);
      hide At, Step;
      j := TableWasCurrent(actions, k - 1, v);
    }
  }

  lemma FirstTable(actions: seq<Action>)
    ensures |At(actions, 0).history| == 1
  {
    assert actions[..0] == [];
  }

  lemma HistoryGrows(d: Dispatcher, a: Action)
    requires d.history != []
    ensures d.history <= Step(d, a).history && |Step(d, a).history| <= |d.history| + 1
  {
    if a.FinishLookup? && a.t in d.lookups { FinishTables(d, a.t); }
  }

  lemma AnswerMoment(actions: seq<Action>, i: nat) returns (j: nat)
    requires i < |Run(Initial(), actions).answers|
    ensures var a := Run(Initial(), actions).answers[i];
      && j <= |actions| && a.found == Holds(actions, j, Key(a.service, a.method_))
      && |At(actions, j).history| == a.version + 1 >= a.since
  {
    hide Run, Key, Holds, Find;
    var d := Run(Initial(), actions);
    LookupsAreCurrent(d, i);
    assert actions[..|actions|] == actions;
    var a := d.answers[i];
    j := TableWasCurrent(actions, |actions|, a.version);
    TableIsRegistrations(actions, j);
    FindIsEntry(Current(At(actions, j)), a.service, a.method_);
  }

  /**
   Every lookup, cached or not, answers with the handler that the registrations and removals accepted up to some moment
   had left under that name, and that moment is not before the last update that had returned when the lookup began.
   */
  lemma AnswersAreRegistrations(actions: seq<Action>, i: nat)
    requires i < |Run(Initial(), actions).answers|
    ensures var a := Run(Initial(), actions).answers[i];
      exists j :: 0 <= j <= |actions| && a.found == Holds(actions, j, Key(a.service, a.method_))
                  && |At(actions, j).history| == a.version + 1 >= a.since
  {
    hide Run, Key, Holds, At;
    var j := AnswerMoment(actions, i);
  }

  lemma FindIsEntry(table: Table, service: string, method_: string)
    ensures Find(table, service, method_) == Entry(table, Key(service, method_))
  {
  }

  /** A lookup with no update under way and none in between answers what is registered now. */
  lemma LookupAlone(actions: seq<Action>, t: nat, service: string, method_: string)
    requires !Busy(actions, |actions|) && t !in Run(Initial(), actions).lookups
    ensures var d := Run(Initial(), actions);
      var d' := Step(Step(d, StartLookup(t, service, method_)), FinishLookup(t));
      && |d'.answers| == |d.answers| + 1 && t !in d'.lookups
      && d'.answers[|d.answers|].found == Holds(actions, |actions|, Key(service, method_))
  {
    hide Run, Holds, Busy, Key, Step, Inv, Find, Entry;
    assert actions[..|actions|] == actions;
    TableIsRegistrations(actions, |actions|);
    var d := Run(Initial(), actions);
    assert Reachable(d);
    ReachableInv(d);
    LookupNow(d, t, service, method_);
    FindIsEntry(Current(d), service, method_);
  }

  lemma LookupNow(d: Dispatcher, t: nat, service: string, method_: string)
    requires Inv(d) && !d.updating && t !in d.lookups
    ensures var d' := Step(Step(d, StartLookup(t, service, method_)), FinishLookup(t));
      && |d'.answers| == |d.answers| + 1 && t !in d'.lookups
      && d'.answers[|d.answers|].found == Find(Current(d), service, method_)
  {
    hide Find;
    if t in d.caches { assert CacheOk(d, d.caches[t]); }
  }

  // ---------------------------------------------------------------------------------------------
  // Names that share a table entry
  // ---------------------------------------------------------------------------------------------

  /** `service'` goes on with a newline where `service` ends; `method_` is the rest of it before `method'`. */
  predicate RunsInto(service: string, method_: string, service': string, method': string) {
    service + "\n" <= service' && method_ == service'[|service| + 1..] + "\n" + method'
  }

  /** Exactly when two names share an entry. */
  lemma SharedExactly(service: string, method_: string, service': string, method': string)
    ensures Key(service, method_) == Key(service', method') <==>
      || (service == service' && method_ == method')
      || RunsInto(service, method_, service', method')
      || RunsInto(service', method', service, method_)
  {
    if |service| <= |service'| {
      SharedOneWay(service, method_, service', method');
    } else {
      SharedOneWay(service', method', service, method_);
    }
  }

  lemma SharedOneWay(s: string, m: string, s': string, m': string)
    requires |s| <= |s'|
    ensures Key(s, m) == Key(s', m') <==> (s == s' && m == m') || RunsInto(s, m, s', m')
  {
    var k, k' := Key(s, m), Key(s', m');
    assert k[..|s|] == s && k[|s|] == '\n' && k[|s| + 1..] == m;
    assert k'[..|s'|] == s' && k'[|s'|] == '\n' && k'[|s'| + 1..] == m';
    if k == k' && |s| < |s'| {
      assert s' == k'[..|s'|] && s' == s + "\n" + s'[|s| + 1..];
      assert m == k'[|s| + 1..] == s'[|s| + 1..] + "\n" + m';
    }
    if RunsInto(s, m, s', m') {
      assert s' == s + "\n" + s'[|s| + 1..];
      assert k == s + "\n" + (s'[|s| + 1..] + "\n" + m') == k';
    }
  }

  /** Some methods of the two services, of the kind that can be registered, share an entry. */
  ghost predicate Collide(service: string, service': string) {
    exists m, m' :: m != "" && m' != "" && Key(service, m) == Key(service', m')
  }

  /** Two services can collide exactly if one of them is the other followed by a newline and anything. */
  lemma CollideExactly(service: string, service': string)
    requires service != service'
    ensures Collide(service, service') <==> service + "\n" <= service' || service' + "\n" <= service
  {
    if Collide(service, service') {
      var m, m' :| m != "" && m' != "" && Key(service, m) == Key(service', m');
      SharedExactly(service, m, service', m');
    }
    if service + "\n" <= service' {
      var m := service'[|service| + 1..] + "\n" + "m";
      SharedExactly(service, m, service', "m");
      assert Key(service, m) == Key(service', "m");
    } else if service' + "\n" <= service {
      var m' := service[|service'| + 1..] + "\n" + "m";
      SharedExactly(service, "m", service', m');
      assert Key(service, "m") == Key(service', m');
    }
  }
}
