/**
 The multi-producer inbox: producers push on a lock-free stack, the one consumer takes the whole stack, reverses it in
 place and pops from the front. Each load, store, exchange and compare-and-swap is a step, and producers interleave
 with the consumer in any order. `stack`, `list`, `rest`, `done`, `place`, `pushed` and `popped` are auxiliary: no step
 depends on them, except that a producer pushes only a node that is nowhere.
 */
module MpscQueue {
  import opened Results
  import opened Sequences

  type Node = nat
  type Ptr = Option<Node>

  /** Where a producer is: about to load the head, to store its link, or to swap the head. */
  datatype Producer = Load(node: Node) | Store(node: Node, seen: Ptr) | Cas(node: Node, seen: Ptr)

  /** Where the consumer is: between calls, reversing what it took, or unlinking the node it is about to return. */
  datatype Consumer = Idle | Reversing(cur: Ptr, prev: Ptr) | Unlinking(node: Node)

  /** Where a node is: nowhere, with a producer, in one of the lists, or on its way out. */
  datatype Place = Nowhere | With(t: nat) | InStack | InRest | InDone | InList | Leaving

  datatype Queue = Queue(
    head: Ptr, drained: Ptr, next: map<Node, Ptr>, producers: map<nat, Producer>, consumer: Consumer,
    stack: seq<Node>, list: seq<Node>, rest: seq<Node>, done: seq<Node>, place: map<Node, Place>,
    pushed: seq<Node>, popped: seq<Node>)

  datatype Action = StartPush(t: nat, node: Node) | Produce(t: nat, spurious: bool) | StartPop | Consume

  function First(s: seq<Node>): (p: Ptr) {
    if s == [] then None else Some(s[0])
  }

  function Tail(s: seq<Node>): (r: seq<Node>) {
    if s == [] then [] else s[1..]
  }

  function Initial(): (q: Queue) {
    Queue(None, None, map[], map[], Idle, [], [], [], [], map[], [], [])
  }

  // ---------------------------------------------------------------------------------------------
  // Steps
  // ---------------------------------------------------------------------------------------------

  function Relabelled(place: map<Node, Place>, s: seq<Node>, at: Place): (r: map<Node, Place>) {
    map n | n in place :: if n in s then at else place[n]
  }

  function StepProducer(q: Queue, t: nat, spurious: bool): (q': Queue)
    requires t in q.producers
  {
    match q.producers[t]
    case Load(n) => q.(producers := q.producers[t := Store(n, q.head)])
    case Store(n, seen) => q.(next := q.next[n := seen], producers := q.producers[t := Cas(n, seen)])
    case Cas(n, seen) =>
      if q.head == seen && !spurious then
        q.(head := Some(n), producers := q.producers - {t}, stack := [n] + q.stack, place := q.place[n := InStack],
            pushed := q.pushed + [n])
      else q.(producers := q.producers[t := Store(n, q.head)])
  }

  /** `TryPop`: with nothing drained, takes the whole stack; otherwise takes the front of what is drained. */
  function StepPop(q: Queue): (q': Queue)
    requires q.consumer == Idle
  {
    match q.drained
    case None =>
      q.(head := None, consumer := Reversing(q.head, None), stack := [], rest := q.stack,
          place := Relabelled(q.place, q.stack, InRest))
    case Some(n) =>
      if n !in q.next then q
      else q.(drained := q.next[n], consumer := Unlinking(n), list := Tail(q.list), place := q.place[n := Leaving],
          popped := q.popped + [n])
  }

  /** One turn of the reversal, the end of it, or the last store before a node is returned. */
  function StepConsumer(q: Queue): (q': Queue) {
    match q.consumer
    case Idle => q
    case Reversing(cur, prev) =>
      if cur.None? then q.(drained := prev, consumer := Idle, list := q.done, done := [],
          place := Relabelled(q.place, q.done, InList))
      else if cur.value !in q.next then q
      else q.(next := q.next[cur.value := prev], consumer := Reversing(q.next[cur.value], cur),
              rest := Tail(q.rest), done := [cur.value] + q.done, place := q.place[cur.value := InDone])
    case Unlinking(n) => q.(next := q.next[n := None], consumer := Idle, place := q.place[n := Nowhere])
  }

  /** A producer may push a node that is nowhere in the queue. */
  function Step(q: Queue, a: Action): (q': Queue) {
    match a
    case StartPush(t, n) =>
      if t in q.producers || (n in q.place && q.place[n] != Nowhere) then q
      else q.(producers := q.producers[t := Load(n)], place := q.place[n := With(t)])
    case Produce(t, spurious) => if t in q.producers then StepProducer(q, t, spurious) else q
    case StartPop => if q.consumer == Idle then StepPop(q) else q
    case Consume => StepConsumer(q)
  }

  // ---------------------------------------------------------------------------------------------
  // The invariant
  // ---------------------------------------------------------------------------------------------

  ghost predicate Placed(place: map<Node, Place>, s: seq<Node>, at: Place) {
    NoDup(s) && forall n :: n in s ==> n in place && place[n] == at
  }

  ghost predicate Places(q: Queue) {
    Placed(q.place, q.stack, InStack) && Placed(q.place, q.list, InList) && Placed(q.place, q.rest, InRest)
        && Placed(q.place, q.done, InDone)
  }

  ghost predicate Links(q: Queue) {
    Chain(q.next, q.stack) && Chain(q.next, q.list) && Chain(q.next, q.rest) && Chain(q.next, q.done)
  }

  ghost predicate Ends(q: Queue) {
    && q.head == First(q.stack)
    && (match q.consumer
        case Reversing(cur, prev) => q.list == [] && q.drained == None && cur == First(q.rest) && prev == First(q.done)
        case _ => q.drained == First(q.list) && q.rest == [] && q.done == [])
  }

  ghost predicate ProducerOk(q: Queue, t: nat)
    requires t in q.producers
  {
    var n := q.producers[t].node;
    && n in q.place && q.place[n] == With(t)
    && (q.producers[t].Cas? ==> n in q.next && q.next[n] == q.producers[t].seen)
  }

  /** A node being pushed or returned is in one pair of hands. */
  ghost predicate Hands(q: Queue) {
    && (forall t :: t in q.producers ==> ProducerOk(q, t))
    && (q.consumer.Unlinking? ==> q.consumer.node in q.place && q.place[q.consumer.node] == Leaving)
  }

  function Reversed(s: seq<Node>): (r: seq<Node>) {
    if s == [] then [] else Reversed(s[1..]) + [s[0]]
  }

  /** What is in the queue, oldest first. */
  ghost function Contents(q: Queue): (s: seq<Node>) {
    q.list + Reversed(q.rest) + q.done + Reversed(q.stack)
  }

  ghost predicate Inv(q: Queue) {
    Places(q) && Links(q) && Ends(q) && Hands(q) && q.pushed == q.popped + Contents(q)
  }

  // ---------------------------------------------------------------------------------------------
  // Preservation
  // ---------------------------------------------------------------------------------------------

  lemma ChainKept(next: map<Node, Ptr>, n: Node, p: Ptr, s: seq<Node>)
    requires Chain(next, s) && n !in s
    ensures Chain(next[n := p], s)
  {
  }

  lemma ChainTail(next: map<Node, Ptr>, s: seq<Node>)
    requires Chain(next, s) && s != []
    ensures Chain(next, s[1..]) && next[s[0]] == First(s[1..])
  {
    forall i | 0 <= i < |s| - 1 ensures s[1..][i] in next && next[s[1..][i]] == Successor(s[1..], i) {
      assert s[1..][i] == s[i + 1];
    }
  }

  lemma ChainPush(next: map<Node, Ptr>, n: Node, s: seq<Node>)
    requires Chain(next, s) && n in next && next[n] == First(s)
    ensures Chain(next, [n] + s)
  {
    var r := [n] + s;
    forall i | 0 <= i < |r| ensures r[i] in next && next[r[i]] == Successor(r, i) {
      if i > 0 { assert r[i] == s[i - 1]; }
    }
  }

  lemma PlacedKept(place: map<Node, Place>, n: Node, at: Place, s: seq<Node>, where: Place)
    requires Placed(place, s, where) && (n in place ==> place[n] != where)
    ensures Placed(place[n := at], s, where) && n !in s
  {
  }

  /** A step on one node that is in none of the lists. */
  lemma OutsideKeeps(q: Queue, q': Queue, n: Node, at: Place, p: Ptr)
    requires Places(q) && Links(q) && q.pushed == q.popped + Contents(q)
    requires n in q.place ==> q.place[n] in {Nowhere, Leaving} || q.place[n].With?
    requires q'.stack == q.stack && q'.list == q.list && q'.rest == q.rest && q'.done == q.done && q'.popped == q.popped
    requires q'.pushed == q.pushed
    requires q'.place == q.place[n := at] && (q'.next == q.next || q'.next == q.next[n := p])
    ensures Places(q') && Links(q') && q'.pushed == q'.popped + Contents(q')
  {
    PlacedKept(q.place, n, at, q.stack, InStack);
    PlacedKept(q.place, n, at, q.list, InList);
    PlacedKept(q.place, n, at, q.rest, InRest);
    PlacedKept(q.place, n, at, q.done, InDone);
    hide Placed, Reversed;
    ChainKept(q.next, n, p, q.stack);
    ChainKept(q.next, n, p, q.list);
    ChainKept(q.next, n, p, q.rest);
    ChainKept(q.next, n, p, q.done);
  }

  /** The other producers, when only a node they do not hold changes. */
  lemma HandsKept(q: Queue, q': Queue, n: Node, at: Place, p: Ptr)
    requires Hands(q) && n in q.place && !q.place[n].With? && q'.place == q.place[n := at]
    requires (q'.next == q.next || q'.next == q.next[n := p])
    requires q'.producers == q.producers && (q'.consumer.Unlinking? ==> q'.consumer.node == n && at == Leaving)
    ensures Hands(q')
  {
    forall t | t in q'.producers ensures ProducerOk(q', t) { assert ProducerOk(q, t); }
  }

  lemma StartPushKeeps(q: Queue, t: nat, n: Node)
    requires Inv(q) && t !in q.producers && (n in q.place ==> q.place[n] == Nowhere)
    ensures Inv(q.(producers := q.producers[t := Load(n)], place := q.place[n := With(t)]))
  {
    var q' := q.(producers := q.producers[t := Load(n)], place := q.place[n := With(t)]);
    assert Hands(q') by {
      hide Places, Links, Ends, Contents;
      forall u | u in q'.producers ensures ProducerOk(q', u) { if u != t { assert ProducerOk(q, u); } }
    }
    hide Places, Links, Hands, Contents;
    OutsideKeeps(q, q', n, With(t), None);
  }

  lemma ProducerKeeps(q: Queue, t: nat, spurious: bool)
    requires Inv(q) && t in q.producers
    ensures Inv(StepProducer(q, t, spurious))
  {
    var q', n := StepProducer(q, t, spurious), q.producers[t].node;
    assert n in q.place && q.place[n] == With(t) by { assert ProducerOk(q, t); }
    hide Places, Links, Hands, Contents;
    ProducerHands(q, t, spurious);
    if q.producers[t].Cas? && q.head == q.producers[t].seen && !spurious {
      LinkKeeps(q, q', t);
    } else {
      assert q.place[n := With(t)] == q.place;
      OutsideKeeps(q, q', n, With(t), if q.producers[t].Store? then q.producers[t].seen else None);
    }
  }

  lemma ProducerHands(q: Queue, t: nat, spurious: bool)
    requires Hands(q) && t in q.producers
    ensures Hands(StepProducer(q, t, spurious))
  {
    var q' := StepProducer(q, t, spurious);
    assert ProducerOk(q, t);
    forall u | u in q'.producers ensures ProducerOk(q', u) { assert ProducerOk(q, u); }
  }

  /** The swap that puts a node on top of the stack. */
  lemma LinkKeeps(q: Queue, q': Queue, t: nat)
    requires Inv(q) && t in q.producers && q.producers[t].Cas? && q.head == q.producers[t].seen
    requires q' == StepProducer(q, t, false) && Hands(q')
    ensures Inv(q')
  {
    var n := q.producers[t].node;
    assert ProducerOk(q, t);
    hide Hands;
    assert Places(q') by {
      hide Links, Ends, Contents;
      PlacedKept(q.place, n, InStack, q.stack, InStack) by { }
      PlacedKept(q.place, n, InStack, q.list, InList);
      PlacedKept(q.place, n, InStack, q.rest, InRest);
      PlacedKept(q.place, n, InStack, q.done, InDone);
    }
    hide Places;
    ChainPush(q.next, n, q.stack);
    var s := [n] + q.stack;
    assert s[1..] == q.stack;
    assert Reversed(s) == Reversed(q.stack) + [n];
    hide Reversed;
    assert q.popped + Contents(q) + [n] == q.popped + (q.list + Reversed(q.rest) + q.done + (Reversed(q.stack) + [n]));
  }

  lemma RelabelKeeps(place: map<Node, Place>, s: seq<Node>, from: Place, to: Place, r: seq<Node>, at: Place)
    requires Placed(place, s, from) && Placed(place, r, at) && at != from
    ensures Placed(Relabelled(place, s, to), r, at) && Placed(Relabelled(place, s, to), s, to)
  {
  }

  lemma RelabelHands(q: Queue, q': Queue, s: seq<Node>, from: Place, to: Place)
    requires Hands(q) && Placed(q.place, s, from) && from in {InStack, InDone} && q'.place == Relabelled(q.place, s, to)
    requires q'.producers == q.producers && q'.next == q.next && !q'.consumer.Unlinking?
    ensures Hands(q')
  {
    forall t | t in q'.producers ensures ProducerOk(q', t) { assert ProducerOk(q, t); }
  }

  /** The exchange that takes the whole stack. */
  lemma TakeKeeps(q: Queue)
    requires Inv(q) && q.consumer == Idle && q.drained.None?
    ensures Inv(StepPop(q)) && Contents(StepPop(q)) == Contents(q)
  {
    var q' := StepPop(q);
    RelabelHands(q, q', q.stack, InStack, InRest);
    RelabelKeeps(q.place, q.stack, InStack, InRest, q.list, InList);
    hide Hands, Placed;
    assert Places(q') by { Blank(q'.place, InStack); Blank(q'.place, InDone); }
    hide Places, Reversed;
    assert Reversed([]) == [] by { NoneReversed(); }
    assert Contents(q') == Contents(q);
  }

  lemma Blank(place: map<Node, Place>, at: Place)
    ensures Placed(place, [], at)
  {
  }

  lemma NoneReversed()
    ensures Reversed([]) == []
  {
  }

  /** Taking the front of what is drained. */
  lemma FrontKeeps(q: Queue)
    requires Inv(q) && q.consumer == Idle && q.drained.Some?
    ensures Inv(StepPop(q)) && Contents(q) == [q.drained.value] + Contents(StepPop(q))
  {
    var n := q.list[0];
    assert n in q.list && q.place[n] == InList && n in q.next;
    var q' := StepPop(q);
    HandsKept(q, q', n, Leaving, None);
    hide Hands, Contents;
    FrontPlaces(q, q', n);
    hide Places;
    FrontLinks(q, q');
    hide Links;
    FrontOrder(q, q', n);
  }

  lemma FrontPlaces(q: Queue, q': Queue, n: Node)
    requires Places(q) && q.list != [] && n == q.list[0] && n in q.place && q.place[n] == InList
    requires q'.place == q.place[n := Leaving] && q'.list == q.list[1..] && q'.stack == q.stack && q'.rest == q.rest
    requires q'.done == q.done
    ensures Places(q')
  {
    PlacedKept(q.place, n, Leaving, q.stack, InStack);
    PlacedKept(q.place, n, Leaving, q.rest, InRest);
    PlacedKept(q.place, n, Leaving, q.done, InDone);
    PlacedTail(q.place, q.list, InList, Leaving);
  }

  lemma FrontLinks(q: Queue, q': Queue)
    requires Links(q) && Ends(q) && q.consumer == Idle && q.drained.Some? && q' == StepPop(q)
    ensures Links(q') && Ends(q')
  {
    ChainTail(q.next, q.list);
  }

  lemma FrontOrder(q: Queue, q': Queue, n: Node)
    requires q.list != [] && n == q.list[0] && q'.list == q.list[1..] && q'.stack == q.stack && q'.rest == q.rest
    requires q'.done == q.done
    ensures Contents(q) == [n] + Contents(q')
    ensures q.popped + Contents(q) == q.popped + [n] + Contents(q')
  {
    hide Reversed;
    assert q.list == [n] + q.list[1..];
    assert Contents(q) == [n] + Contents(q');
  }

  lemma PlacedTail(place: map<Node, Place>, s: seq<Node>, where: Place, at: Place)
    requires s != [] && Placed(place, s, where)
    ensures Placed(place[s[0] := at], s[1..], where)
  {
  }

  lemma ConsumerKeeps(q: Queue)
    requires Inv(q)
    ensures Inv(StepConsumer(q))
  {
    match q.consumer
    case Idle =>
    case Reversing(cur, prev) =>
      if cur.None? { ReversedKeeps(q); } else { TurnKeeps(q); }
    case Unlinking(n) => UnlinkKeeps(q);
  }

  lemma UnlinkKeeps(q: Queue)
    requires Inv(q) && q.consumer.Unlinking?
    ensures Inv(StepConsumer(q))
  {
    var q', n := StepConsumer(q), q.consumer.node;
    HandsKept(q, q', n, Nowhere, None);
    hide Places, Links, Contents, Hands;
    OutsideKeeps(q, q', n, Nowhere, None);
  }

  /** The end of the reversal. */
  lemma ReversedKeeps(q: Queue)
    requires Inv(q) && q.consumer.Reversing? && q.consumer.cur.None?
    ensures Inv(StepConsumer(q))
  {
    hide Hands, Placed, Chain, Contents;
    var q' := StepConsumer(q);
    RelabelHands(q, q', q.done, InDone, InList);
    RelabelKeeps(q.place, q.done, InDone, InList, q.stack, InStack);
    Blank(q'.place, InRest);
    Blank(q'.place, InDone);
    ReversedOrder(q, q');
  }

  lemma ReversedOrder(q: Queue, q': Queue)
    requires q.rest == [] && q.list == [] && q'.rest == [] && q'.done == [] && q'.list == q.done && q'.stack == q.stack
    ensures Contents(q') == Contents(q)
  {
  }

  /** One turn moves the front of what is left to the front of what is done: the order of the whole is the same. */
  lemma TurnKeeps(q: Queue)
    requires Inv(q) && q.consumer.Reversing? && q.consumer.cur.Some?
    ensures Inv(StepConsumer(q))
  {
    var n := q.rest[0];
    assert n in q.rest && q.place[n] == InRest && n in q.next;
    var q' := StepConsumer(q);
    HandsKept(q, q', n, InDone, q.consumer.prev);
    hide Hands, Contents;
    TurnLinks(q, q', n);
    TurnPlaces(q, q', n);
    hide Places, Links;
    TurnOrder(q, q', n);
  }

  lemma TurnOrder(q: Queue, q': Queue, n: Node)
    requires q.rest != [] && n == q.rest[0] && q'.rest == q.rest[1..] && q'.done == [n] + q.done && q'.list == q.list
    requires q'.stack == q.stack
    ensures Contents(q') == Contents(q)
  {
    assert Reversed(q.rest) == Reversed(q.rest[1..]) + [n];
    hide Reversed;
    assert q.list + Reversed(q.rest[1..]) + ([n] + q.done) == q.list + (Reversed(q.rest[1..]) + [n]) + q.done;
  }

  lemma TurnLinks(q: Queue, q': Queue, n: Node)
    requires Links(q) && Ends(q) && Places(q) && q.consumer.Reversing? && q.rest != [] && n == q.rest[0]
    requires q' == StepConsumer(q)
    ensures Links(q') && q'.consumer == Reversing(First(q.rest[1..]), Some(n))
  {
    assert n in q.rest;
    ChainTail(q.next, q.rest);
    ChainKept(q.next, n, q.consumer.prev, q.rest[1..]);
    ChainKept(q.next, n, q.consumer.prev, q.done);
    ChainKept(q.next, n, q.consumer.prev, q.stack);
    ChainKept(q.next, n, q.consumer.prev, q.list);
    ChainPush(q'.next, n, q.done);
  }

  lemma TurnPlaces(q: Queue, q': Queue, n: Node)
    requires Places(q) && Ends(q) && q.consumer.Reversing? && q.rest != [] && n == q.rest[0] && n in q.next
    requires q' == StepConsumer(q)
    ensures Places(q')
  {
    assert n in q.rest;
    PlacedKept(q.place, n, InDone, q.stack, InStack);
    PlacedKept(q.place, n, InDone, q.list, InList);
    PlacedTail(q.place, q.rest, InRest, InDone);
    assert n !in q.done;
    assert Placed(q'.place, [n] + q.done, InDone);
  }

  lemma StepKeepsInv(q: Queue, a: Action)
    requires Inv(q)
    ensures Inv(Step(q, a))
  {
    hide Inv;
    match a
    case StartPush(t, n) =>
      if t !in q.producers && (n in q.place ==> q.place[n] == Nowhere) { StartPushKeeps(q, t, n); }
    case Produce(t, spurious) => if t in q.producers { ProducerKeeps(q, t, spurious); }
    case StartPop => if q.consumer == Idle { if q.drained.None? { TakeKeeps(q); } else { FrontKeeps(q); } }
    case Consume => ConsumerKeeps(q);
  }

  function Run(q: Queue, actions: seq<Action>): (q': Queue)
    decreases |actions|
  {
    if actions == [] then q else Step(Run(q, actions[..|actions| - 1]), actions[|actions| - 1])
  }

  /**
   Pops follow the order of the successful pushes, each node once:
   what was pushed is what was popped and what is inside.
   */
  lemma {:induction false} Fifo(actions: seq<Action>)
    ensures Inv(Run(Initial(), actions))
    ensures var q := Run(Initial(), actions); q.pushed == q.popped + Contents(q)
    decreases |actions|
  {
    if actions != [] {
      hide Inv, Step;
      Fifo(actions[..|actions| - 1]);
      StepKeepsInv(Run(Initial(), actions[..|actions| - 1]), actions[|actions| - 1]);
    }
    assert Inv(Run(Initial(), actions));
  }

  /** A pop returns the oldest node, and finds nothing only if nothing was in the queue when it took the stack. */
  lemma PopsOldest(actions: seq<Action>)
    requires Run(Initial(), actions).consumer == Idle
    ensures var q := Run(Initial(), actions);
      var q' := StepPop(q);
      && (q.drained.Some? ==>
             && Contents(q) == [q.drained.value] + Contents(q')
             && q'.consumer == Unlinking(q.drained.value))
      && (q.drained.None? ==>
             && Contents(q') == Contents(q)
             && (q'.consumer == Reversing(None, None) <==> Contents(q) == []))
  {
    Fifo(actions);
    var q := Run(Initial(), actions);
    if q.drained.Some? {
      FrontKeeps(q);
      assert q.drained.value in q.next by { assert Links(q) && q.list[0] == q.drained.value; }
    } else {
      TakeKeeps(q);
      assert q.stack != [] ==> Reversed(q.stack)[|Reversed(q.stack)| - 1] == q.stack[0];
      assert Contents(q) == Reversed(q.stack);
    }
  }

  // ---------------------------------------------------------------------------------------------
  // Whole calls of a thread left alone
  // ---------------------------------------------------------------------------------------------

  lemma InvContents(q: Queue)
    requires Inv(q)
    ensures q.pushed == q.popped + Contents(q)
  {
  }

  lemma PushSteps(q: Queue, t: nat, n: Node)
    requires t !in q.producers && (n in q.place ==> q.place[n] == Nowhere)
    ensures var p := Produce(t, false);
      var q' := Step(Step(Step(Step(q, StartPush(t, n)), p), p), p);
      q'.producers == q.producers && q'.pushed == q.pushed + [n] && q'.popped == q.popped
  {
    var p := Produce(t, false);
    var q0 := Step(q, StartPush(t, n));
    assert q0.producers[t] == Load(n);
    var q1 := Step(q0, p);
    assert q1.producers[t] == Store(n, q.head) && q1.head == q.head;
    var q2 := Step(q1, p);
    assert q2.producers[t] == Cas(n, q.head) && q2.head == q.head;
    assert q2.producers - {t} == q.producers;
  }

  /** A producer left alone gets its node into the queue, behind all others, in four steps. */
  lemma PushAlone(q: Queue, t: nat, n: Node)
    requires Inv(q) && t !in q.producers && (n in q.place ==> q.place[n] == Nowhere)
    ensures var p := Produce(t, false);
      var q' := Step(Step(Step(Step(q, StartPush(t, n)), p), p), p);
      q'.producers == q.producers && Inv(q') && q'.popped == q.popped && Contents(q') == Contents(q) + [n]
  {
    hide Inv, Step, Contents;
    var p := Produce(t, false);
    PushSteps(q, t, n);
    StepKeepsInv(q, StartPush(t, n));
    StepKeepsInv(Step(q, StartPush(t, n)), p);
    StepKeepsInv(Step(Step(q, StartPush(t, n)), p), p);
    var q3 := Step(Step(Step(q, StartPush(t, n)), p), p);
    StepKeepsInv(q3, p);
    InvContents(q);
    InvContents(Step(q3, p));
    assert q.popped + Contents(Step(q3, p)) == q.popped + (Contents(q) + [n]);
    SamePrefix(q.popped, Contents(Step(q3, p)), Contents(q) + [n]);
  }

  lemma SamePrefix(a: seq<Node>, b: seq<Node>, c: seq<Node>)
    requires a + b == a + c
    ensures b == c
  {
    assert (a + b)[|a|..] == b && (a + c)[|a|..] == c;
  }

  ghost function Consuming(q: Queue, k: nat): (q': Queue)
    decreases k
  {
    if k == 0 then q else Consuming(Step(q, Consume), k - 1)
  }

  lemma ConsumeLeaves(q: Queue)
    ensures var q' := Step(q, Consume);
      q'.pushed == q.pushed && q'.popped == q.popped && q'.stack == q.stack && q'.producers == q.producers
  {
  }

  lemma {:induction false} ConsumingKeeps(q: Queue, k: nat)
    requires Inv(q)
    ensures var q' := Consuming(q, k);
      Inv(q') && q'.pushed == q.pushed && q'.popped == q.popped && q'.stack == q.stack && q'.producers == q.producers
    decreases k
  {
    hide Inv, Step;
    if k > 0 {
      StepKeepsInv(q, Consume);
      ConsumeLeaves(q);
      ConsumingKeeps(Step(q, Consume), k - 1);
    }
  }

  lemma OneTurn(q: Queue)
    requires Inv(q) && q.consumer.Reversing?
    ensures var q' := Step(q, Consume);
      if q.rest != [] then q'.consumer.Reversing? && q'.rest == q.rest[1..] else q'.consumer == Idle
  {
    hide Places, Hands, Contents;
    if q.rest != [] { assert q.rest[0] in q.next; }
  }

  /** The reversal ends, with everything that was taken drained. */
  lemma {:induction false} ReversingEnds(q: Queue)
    requires Inv(q) && q.consumer.Reversing?
    ensures Consuming(q, |q.rest| + 1).consumer == Idle
    decreases |q.rest|
  {
    hide Inv, Step;
    var q1 := Step(q, Consume);
    StepKeepsInv(q, Consume);
    OneTurn(q);
    if q.rest != [] {
      ReversingEnds(q1);
    } else {
      assert Consuming(q, 1) == Consuming(q1, 0);
    }
  }

  /** The consumer between calls has drained what is in the queue but not on the stack. */
  lemma IdleContents(q: Queue)
    requires Inv(q) && q.consumer == Idle
    ensures Contents(q) == q.list + Reversed(q.stack) && q.drained == First(q.list)
  {
    NoneReversed();
  }

  /** With something drained, a call takes the first of it and ends. */
  lemma TakeFront(q: Queue)
    requires Inv(q) && q.consumer == Idle && q.drained.Some?
    ensures var q' := Step(Step(q, StartPop), Consume);
      && Inv(q') && q'.consumer == Idle && Contents(q) == [q.drained.value] + Contents(q')
      && q'.popped == q.popped + [q.drained.value]
  {
    var q1 := Step(q, StartPop);
    FrontKeeps(q);
    assert q.list[0] in q.list && q.list[0] in q.next;
    assert q1.consumer == Unlinking(q.drained.value);
    StepKeepsInv(q1, Consume);
    hide Places, Links, Ends, Hands, Contents;
    var q2 := Step(q1, Consume);
    assert q2.popped + Contents(q2) == q1.popped + Contents(q1);
  }

  lemma TakenStack(q: Queue)
    requires q.consumer == Idle && q.drained.None?
    ensures var q1 := Step(q, StartPop);
      q1.consumer.Reversing? && q1.rest == q.stack && q1.stack == [] && q1.popped == q.popped && q1.pushed == q.pushed
  {
  }

  /** With nothing drained, it first takes and reverses the stack. */
  lemma DrainStack(q: Queue)
    requires Inv(q) && q.consumer == Idle && q.drained.None?
    ensures var q' := Consuming(Step(q, StartPop), |q.stack| + 1);
      Inv(q') && q'.consumer == Idle && q'.popped == q.popped && q'.list == Contents(q') == Contents(q)
  {
    hide Inv, Consuming, Step, Contents, Reversed;
    var q1 := Step(q, StartPop);
    TakenStack(q);
    StepKeepsInv(q, StartPop);
    ReversingEnds(q1);
    ConsumingKeeps(q1, |q.stack| + 1);
    var q' := Consuming(q1, |q.stack| + 1);
    IdleContents(q');
    NoneReversed();
    InvContents(q);
    InvContents(q');
    SamePrefix(q.popped, Contents(q'), Contents(q));
  }

  /** A call of the consumer, from its first step to its last. */
  ghost function TryPop(q: Queue): (q': Queue)
  {
    if q.drained.Some? then Step(Step(q, StartPop), Consume)
    else
      var drained := Consuming(Step(q, StartPop), |q.stack| + 1);
      if drained.drained.Some? then Step(Step(drained, StartPop), Consume) else drained
  }

  /** A consumer left alone gets the oldest node there is, and nothing only if there is none. */
  lemma PopAlone(q: Queue)
    requires Inv(q) && q.consumer == Idle
    ensures var q' := TryPop(q);
      && Inv(q') && q'.consumer == Idle
      && (if Contents(q) == [] then q'.popped == q.popped && Contents(q') == []
          else q'.popped == q.popped + [Contents(q)[0]] && Contents(q') == Contents(q)[1..])
  {
    hide Inv, Step, Consuming, Contents;
    if q.drained.Some? {
      TakeFront(q);
    } else {
      DrainStack(q);
      var drained := Consuming(Step(q, StartPop), |q.stack| + 1);
      IdleContents(drained);
      if drained.drained.Some? { TakeFront(drained); }
    }
  }
}
