/** The binary heap of scheduled timers, in which every node records its own position. */
module DeadlineHeaps {
  import opened Results
  import opened Sequences
  import opened TimerLists

  /** What the heap orders by: the deadline, then the address. */
  datatype Key = Key(deadline: nat, address: nat)

  predicate Before(a: Key, b: Key) {
    a.deadline < b.deadline || (a.deadline == b.deadline && a.address < b.address)
  }

  function Parent(i: nat): (p: nat)
    requires i > 0
    ensures p < i
  {
    (i - 1) / 2
  }

  ghost predicate IsHeap(k: seq<Key>) {
    forall i :: 0 < i < |k| ==> !Before(k[i], k[Parent(i)])
  }

  /** The children of `at` are in order with its parent, whatever is at `at` itself. */
  ghost predicate Bridged(k: seq<Key>, at: nat) {
    forall i :: 0 < i < |k| && Parent(i) == at && at > 0 ==> !Before(k[i], k[Parent(at)])
  }

  ghost predicate HeapBelow(k: seq<Key>, at: nat) {
    Bridged(k, at) && forall i :: 0 < i < |k| && i != at ==> !Before(k[i], k[Parent(i)])
  }

  ghost predicate HeapAbove(k: seq<Key>, at: nat) {
    Bridged(k, at) && forall i :: 0 < i < |k| && Parent(i) != at ==> !Before(k[i], k[Parent(i)])
  }

  /** A heap but for the entry at `at`, which may be out of order with its parent and its children. */
  ghost predicate HeapOff(k: seq<Key>, at: nat) {
    Bridged(k, at) && forall i :: 0 < i < |k| && i != at && Parent(i) != at ==> !Before(k[i], k[Parent(i)])
  }

  /** Whatever becomes of one key, the rest of a heap stays in order. */
  lemma Rekeyed(k: seq<Key>, k': seq<Key>, at: nat)
    requires HeapOff(k, at) && |k'| == |k| && forall i :: 0 <= i < |k| && i != at ==> k'[i] == k[i]
    ensures HeapOff(k', at)
  {
  }

  lemma HeapIsOff(k: seq<Key>, at: nat)
    requires IsHeap(k) && at < |k|
    ensures HeapOff(k, at)
  {
    forall i | 0 < i < |k| && Parent(i) == at && at > 0 ensures !Before(k[i], k[Parent(at)]) {
      assert !Before(k[i], k[at]) && !Before(k[at], k[Parent(at)]);
    }
  }

  /** An entry before all others puts the heap in order exactly if it is the first. */
  lemma LeastBelongsFirst(k: seq<Key>, at: nat)
    requires at < |k| && HeapOff(k, at) && forall i :: 0 <= i < |k| && i != at ==> Before(k[at], k[i])
    ensures IsHeap(k) <==> at == 0
  {
    if at > 0 { assert Before(k[at], k[Parent(at)]); }
  }

  function Swapped<T>(s: seq<T>, i: nat, j: nat): (r: seq<T>)
    requires i < |s| && j < |s|
    ensures |r| == |s|
  {
    s[i := s[j]][j := s[i]]
  }

  lemma UpStep(k: seq<Key>, at: nat)
    requires 0 < at < |k| && HeapBelow(k, at) && Before(k[at], k[Parent(at)])
    ensures HeapBelow(Swapped(k, at, Parent(at)), Parent(at))
  {
    var r, p := Swapped(k, at, Parent(at)), Parent(at);
    forall i | 0 < i < |r| && i != p ensures !Before(r[i], r[Parent(i)]) {
      assert i != at && Parent(i) == at ==> !Before(k[i], k[p]);
    }
    forall i | 0 < i < |r| && Parent(i) == p && p > 0 ensures !Before(r[i], r[Parent(p)]) {
      assert !Before(k[p], k[Parent(p)]);
      assert i != at ==> !Before(k[i], k[p]);
    }
  }

  function Child(k: seq<Key>, at: nat): (c: nat)
    requires at * 2 + 1 < |k|
    ensures c < |k| && c > 0 && Parent(c) == at
    ensures forall i :: 0 < i < |k| && Parent(i) == at ==> !Before(k[i], k[c])
  {
    var left, right := at * 2 + 1, at * 2 + 2;
    if right < |k| && Before(k[right], k[left]) then right else left
  }

  lemma DownStep(k: seq<Key>, at: nat)
    requires at * 2 + 1 < |k| && HeapAbove(k, at) && Before(k[Child(k, at)], k[at])
    ensures HeapAbove(Swapped(k, at, Child(k, at)), Child(k, at))
  {
    var c := Child(k, at);
    var r := Swapped(k, at, c);
    forall i | 0 < i < |r| && Parent(i) != c ensures !Before(r[i], r[Parent(i)]) {
      assert i != c && Parent(i) == at ==> !Before(k[i], k[c]);
      assert i == at ==> !Before(k[c], k[Parent(at)]);
    }
    forall i | 0 < i < |r| && Parent(i) == c ensures !Before(r[i], r[Parent(c)]) {
      assert !Before(k[i], k[c]);
    }
  }

  /** Nothing in a heap comes before its first entry. */
  lemma {:induction false} FirstIsLeast(k: seq<Key>, i: nat)
    requires IsHeap(k) && i < |k|
    ensures !Before(k[i], k[0])
    decreases i
  {
    if i > 0 {
      FirstIsLeast(k, Parent(i));
    }
  }

  function KeyOf(n: TimerNode): (k: Key)
    reads n`deadline
  {
    Key(n.deadline, n.address)
  }

  ghost function KeysOf(nodes: seq<TimerNode>): (k: seq<Key>)
    reads nodes`deadline
    ensures |k| == |nodes| && forall i :: 0 <= i < |nodes| ==> k[i] == KeyOf(nodes[i])
  {
    if nodes == [] then [] else [KeyOf(nodes[0])] + KeysOf(nodes[1..])
  }

  class DeadlineHeap {
    var nodes: seq<TimerNode>

    ghost predicate Indexed()
      reads this, nodes`heapIndex
    {
      forall i :: 0 <= i < |nodes| ==> nodes[i].heapIndex == Some(i)
    }

    ghost predicate Valid()
      reads this, nodes`heapIndex, nodes`deadline
    {
      Indexed() && IsHeap(KeysOf(nodes))
    }

    /** In order but for `node`, whose deadline may have been changed where it is. */
    ghost predicate ValidBut(node: TimerNode)
      reads this, nodes`heapIndex, nodes`deadline
    {
      && Indexed() && (node !in nodes ==> IsHeap(KeysOf(nodes)))
      && (forall i :: 0 <= i < |nodes| && nodes[i] == node ==> HeapOff(KeysOf(nodes), i))
    }

    lemma ValidIsValidBut(node: TimerNode)
      requires Valid()
      ensures ValidBut(node)
    {
      hide KeysOf, HeapOff, IsHeap;
      forall i | 0 <= i < |nodes| && nodes[i] == node ensures HeapOff(KeysOf(nodes), i) {
        HeapIsOff(KeysOf(nodes), i);
      }
    }

    /** A node knows whether it is in the heap. */
    ghost predicate Knows(node: TimerNode)
      reads this, node`heapIndex
    {
      node.heapIndex.Some? <==> node in nodes
    }

    constructor ()
      ensures Valid() && nodes == []
    {
      nodes := [];
    }

    method Swap(left: nat, right: nat, ghost region: set<TimerNode>)
      requires Indexed() && left < |nodes| && right < |nodes|
      requires forall n :: n in nodes ==> n in region
      modifies this, region`heapIndex
      ensures Indexed()
      ensures nodes == Swapped(old(nodes), left, right)
      ensures SameElements(nodes, old(nodes))
      ensures KeysOf(nodes) == Swapped(old(KeysOf(nodes)), left, right)
    {
      hide KeysOf, SameElements;
      SwappedSame(nodes, left, right);
      nodes := Swapped(nodes, left, right);
      nodes[left].heapIndex := Some(left);
      nodes[right].heapIndex := Some(right);
    }

    method SiftUp(start: nat, ghost region: set<TimerNode>)
      requires Indexed() && start < |nodes| && HeapBelow(KeysOf(nodes), start)
      requires forall n :: n in nodes ==> n in region
      modifies this, region`heapIndex
      ensures Valid() && SameElements(nodes, old(nodes)) && |nodes| == |old(nodes)|
    {
      var index: nat := start;
      while index > 0
        invariant index < |nodes| == |old(nodes)|
        invariant Indexed() && HeapBelow(KeysOf(nodes), index) && SameElements(nodes, old(nodes))
      {
        var parent := Parent(index);
        if !Before(KeyOf(nodes[index]), KeyOf(nodes[parent])) { break; }
        UpStep(KeysOf(nodes), index);
        Swap(index, parent, region);
        index := parent;
      }
    }

    method SiftDown(start: nat, ghost region: set<TimerNode>)
      requires Indexed() && start < |nodes| && HeapAbove(KeysOf(nodes), start)
      requires forall n :: n in nodes ==> n in region
      modifies this, region`heapIndex
      ensures Valid() && SameElements(nodes, old(nodes)) && |nodes| == |old(nodes)|
    {
      hide HeapAbove, KeysOf, IsHeap;
      var index: nat := start;
      while true
        invariant index < |nodes| == |old(nodes)|
        invariant Indexed() && HeapAbove(KeysOf(nodes), index) && SameElements(nodes, old(nodes))
        decreases |nodes| - index
      {
        var left, right := index * 2 + 1, index * 2 + 2;
        if left >= |nodes| {
          SettledBelow(KeysOf(nodes), index);
          return;
        }
        var child := if right < |nodes| && Before(KeyOf(nodes[right]), KeyOf(nodes[left])) then right else left;
        assert child == Child(KeysOf(nodes), index);
        if !Before(KeyOf(nodes[child]), KeyOf(nodes[index])) {
          SettledAt(KeysOf(nodes), index);
          return;
        }
        DownStep(KeysOf(nodes), index);
        Swap(index, child, region);
        index := child;
      }
    }

    /** Puts a node in; refuses one that is in already. */
    method Insert(node: TimerNode, ghost region: set<TimerNode>) returns (ok: bool)
      requires Valid() && Knows(node)
      requires node in region && forall n :: n in nodes ==> n in region
      modifies this, region`heapIndex
      ensures Valid()
      ensures ok <==> old(node.heapIndex) == None
      ensures !ok ==> nodes == old(nodes)
      ensures ok ==> |nodes| == |old(nodes)| + 1 && SameElements(nodes, old(nodes) + [node])
    {
      hide KeysOf;
      if node.heapIndex.Some? { return false; }
      var last := |nodes|;
      node.heapIndex := Some(last);
      nodes := nodes + [node];
      assert HeapBelow(KeysOf(nodes), last) by {
        Appended(old(KeysOf(nodes)), KeyOf(node));
        assert KeysOf(nodes) == old(KeysOf(nodes)) + [KeyOf(node)];
      }
      hide HeapBelow, IsHeap;
      SiftUp(last, region);
      return true;
    }

    /** Takes a node out from wherever it is; a node that is not in the heap is left alone. */
    method Remove(node: TimerNode, ghost region: set<TimerNode>)
      requires ValidBut(node) && Knows(node)
      requires node in region && forall n :: n in nodes ==> n in region
      modifies this, region`heapIndex
      ensures Valid()
      ensures node.heapIndex == None
      ensures Removed(nodes, old(nodes), node)
      ensures node !in old(nodes) ==> nodes == old(nodes)
      ensures node in old(nodes) ==> |nodes| == |old(nodes)| - 1
    {
      hide KeysOf, IsHeap, HeapOff, HeapBelow, HeapAbove, Removed, SameElements;
      if node.heapIndex.None? {
        NotThere(nodes, node);
        return;
      }
      var index := node.heapIndex.value;
      assert index < |nodes| && nodes[index] == node;
      Shrunk(nodes, index);
      var last := nodes[|nodes| - 1];
      nodes := nodes[..|nodes| - 1];
      node.heapIndex := None;
      if index == |nodes| {
        assert KeysOf(nodes) == old(KeysOf(nodes))[..|nodes|];
        PrefixOfHeap(old(KeysOf(nodes)), index);
        return;
      }
      nodes := nodes[index := last];
      last.heapIndex := Some(index);
      assert KeysOf(nodes) == Filled(old(KeysOf(nodes)), index);
      FilledOrder(old(KeysOf(nodes)), index);
      ghost var filled, others := nodes, region - {node};
      assert Removed(filled, old(nodes), node) && |filled| == |old(nodes)| - 1;
      assert Indexed() && node !in nodes;
      Resettle(index, others);
      assert |nodes| == |filled| && SameElements(nodes, filled);
      SameRemoved(nodes, filled, old(nodes), node);
    }

    /** Moves a node that has just been put at `index` up or down to where it belongs. */
    method Resettle(index: nat, ghost region: set<TimerNode>)
      requires Indexed() && index < |nodes|
      requires index > 0 && Before(KeysOf(nodes)[index], KeysOf(nodes)[Parent(index)]) ==>
        HeapBelow(KeysOf(nodes), index)
      requires index == 0 || !Before(KeysOf(nodes)[index], KeysOf(nodes)[Parent(index)]) ==>
        HeapAbove(KeysOf(nodes), index)
      requires forall n :: n in nodes ==> n in region
      modifies this, region`heapIndex
      ensures Valid() && SameElements(nodes, old(nodes)) && |nodes| == |old(nodes)|
    {
      hide KeysOf, IsHeap, HeapBelow, HeapAbove, SameElements;
      if index > 0 && Before(KeyOf(nodes[index]), KeyOf(nodes[Parent(index)])) {
        SiftUp(index, region);
      } else {
        SiftDown(index, region);
      }
    }

    ghost predicate Least(deadline: nat)
      reads this, nodes`deadline
    {
      forall n :: n in nodes ==> deadline <= n.deadline
    }

    /**
     The deadline of the first node, which is the earliest if the heap is in order. `None` stands for the largest 64-bit
     value.
     */
    method Next() returns (deadline: Option<nat>)
      ensures deadline == if nodes == [] then None else Some(nodes[0].deadline)
      ensures Valid() && deadline.Some? ==> Least(deadline.value)
    {
      hide KeysOf, IsHeap;
      if |nodes| == 0 { return None; }
      if Valid() {
        forall i | 0 <= i < |nodes| ensures nodes[0].deadline <= nodes[i].deadline {
          FirstIsLeast(KeysOf(nodes), i);
        }
      }
      return Some(nodes[0].deadline);
    }
  }

  lemma Appended(k: seq<Key>, key: Key)
    requires IsHeap(k)
    ensures HeapBelow(k + [key], |k|)
  {
  }

  /** The last entry moved into position `i`. */
  function Filled<T>(s: seq<T>, i: nat): (r: seq<T>)
    requires i < |s| - 1
  {
    s[..|s| - 1][i := s[|s| - 1]]
  }

  lemma FilledOrder(k: seq<Key>, at: nat)
    requires HeapOff(k, at) && at < |k| - 1
    ensures at > 0 && Before(k[|k| - 1], k[Parent(at)]) ==> HeapBelow(Filled(k, at), at)
    ensures at == 0 || !Before(k[|k| - 1], k[Parent(at)]) ==> HeapAbove(Filled(k, at), at)
  {
  }

  /** `r` has the elements of `s` other than `x`. */
  ghost predicate Removed<T>(r: seq<T>, s: seq<T>, x: T) {
    (forall y :: y in r ==> y in s && y != x) && (forall y :: y in s && y != x ==> y in r)
  }

  lemma NotThere<T>(s: seq<T>, x: T)
    requires x !in s
    ensures Removed(s, s, x)
  {
  }

  lemma SameRemoved<T>(r: seq<T>, r': seq<T>, s: seq<T>, x: T)
    requires SameElements(r, r') && Removed(r', s, x)
    ensures Removed(r, s, x)
  {
  }

  lemma PrefixOfHeap(k: seq<Key>, n: nat)
    requires |k| == n + 1 && HeapOff(k, n)
    ensures IsHeap(k[..n])
  {
  }

  /** Dropping the last entry, or moving it into position `i`, takes out exactly the entry at `i`. */
  lemma Shrunk<T>(s: seq<T>, i: nat)
    requires i < |s| && NoDup(s)
    ensures i == |s| - 1 ==> Removed(s[..i], s, s[i])
    ensures i < |s| - 1 ==> Removed(Filled(s, i), s, s[i])
  {
    if i < |s| - 1 {
      var r := Filled(s, i);
      forall x | x in s && x != s[i] ensures x in r {
        var k :| 0 <= k < |s| && s[k] == x;
        assert r[if k == |s| - 1 then i else k] == x;
      }
    }
  }

  lemma SwappedSame<T>(s: seq<T>, i: nat, j: nat)
    requires i < |s| && j < |s|
    ensures SameElements(Swapped(s, i, j), s)
  {
    var r := Swapped(s, i, j);
    forall n | n in s ensures n in r {
      var k :| 0 <= k < |s| && s[k] == n;
      assert r[if k == i then j else if k == j then i else k] == n;
    }
  }

  lemma SettledBelow(k: seq<Key>, at: nat)
    requires HeapAbove(k, at) && at * 2 + 1 >= |k|
    ensures IsHeap(k)
  {
  }

  lemma SettledAt(k: seq<Key>, at: nat)
    requires at * 2 + 1 < |k| && HeapAbove(k, at) && !Before(k[Child(k, at)], k[at])
    ensures IsHeap(k)
  {
  }

  ghost predicate SameElements<T>(s: seq<T>, r: seq<T>) {
    (forall x :: x in s ==> x in r) && (forall x :: x in r ==> x in s)
  }
}
