/** Intrusive timer nodes and the doubly linked list that holds them. */
module TimerLists {
  import opened Results
  import opened Sequences

  class TimerNode {
    var previous: TimerNode?
    var next: TimerNode?
    var list: TimerList?
    var deadline: nat
    var scheduled: bool
    /** `None` stands for the index that says the node is not in the deadline heap. */
    var heapIndex: Option<nat>
    /** Stands for the node's address, which breaks ties between equal deadlines. */
    const address: nat

    constructor (address: nat)
      ensures previous == null && next == null && list == null && deadline == 0 && !scheduled && heapIndex == None
      ensures this.address == address
    {
      previous, next, list, deadline, scheduled, heapIndex := null, null, null, 0, false, None;
      this.address := address;
    }
  }

  function Without<T>(s: seq<T>, i: nat): (r: seq<T>)
    requires i < |s|
    ensures |r| == |s| - 1
  {
    s[..i] + s[i + 1..]
  }

  lemma WithoutAt<T>(s: seq<T>, i: nat)
    requires i < |s|
    ensures forall k :: 0 <= k < i ==> Without(s, i)[k] == s[k]
    ensures forall k :: i <= k < |s| - 1 ==> Without(s, i)[k] == s[k + 1]
    ensures NoDup(s) ==> NoDup(Without(s, i)) && forall x :: x in Without(s, i) <==> x in s && x != s[i]
  {
    var r := Without(s, i);
    if NoDup(s) {
      forall x ensures x in r <==> x in s && x != s[i] {
        if x in s && x != s[i] {
          var k :| 0 <= k < |s| && s[k] == x;
          assert if k < i then r[k] == x else r[k - 1] == x;
        }
      }
    }
  }

  class TimerList {
    var head: TimerNode?
    var tail: TimerNode?
    ghost var contents: seq<TimerNode>

    ghost predicate Link(i: nat)
      requires i < |contents|
      reads this, contents`previous, contents`next, contents`list
    {
      && contents[i].list == this
      && contents[i].previous == (if i == 0 then null else contents[i - 1])
      && contents[i].next == (if i + 1 == |contents| then null else contents[i + 1])
    }

    ghost predicate Valid()
      reads this, contents`previous, contents`next, contents`list
    {
      && NoDup(contents)
      && head == (if contents == [] then null else contents[0])
      && tail == (if contents == [] then null else contents[|contents| - 1])
      && forall i :: 0 <= i < |contents| ==> Link(i)
    }

    /** The node's own record of its list is right. */
    ghost predicate Knows(node: TimerNode)
      reads this, node`list
    {
      node.list == this <==> node in contents
    }

    constructor ()
      ensures Valid() && contents == []
    {
      head, tail := null, null;
      contents := [];
    }

    predicate IsEmpty()
      requires Valid()
      reads this, contents`previous, contents`next, contents`list
      ensures IsEmpty() <==> contents == []
    {
      head == null
    }

    /** Links a free node at the end; refuses one that is in a list. */
    method PushBack(node: TimerNode) returns (ok: bool)
      requires Valid() && Knows(node)
      modifies this, contents`next, node`previous, node`next, node`list
      ensures Valid()
      ensures ok <==> old(node.list) == null
      ensures contents == if ok then old(contents) + [node] else old(contents)
      ensures !ok ==> unchanged(this) && unchanged(node) && forall n :: n in contents ==> unchanged(n)
    {
      if node.list != null { return false; }
      node.previous, node.next, node.list := tail, null, this;
      if tail != null { tail.next := node; } else { head := node; }
      tail := node;
      contents := contents + [node];
      forall i | 0 <= i < |contents| ensures Link(i) {
        assert i < |contents| - 1 ==> contents[i] == old(contents)[i] && old(Link(i));
      }
      return true;
    }

    /** Unlinks a node from anywhere in this list; a node of another list or of none is left alone. */
    method Remove(node: TimerNode)
      requires Valid() && Knows(node)
      modifies this, contents`previous, contents`next, node`previous, node`next, node`list
      ensures Valid()
      ensures old(node.list) != this ==> unchanged(this) && unchanged(node) && forall n :: n in contents ==>
          unchanged(n)
      ensures old(node.list) == this ==>
        && node.list == null && node.previous == null && node.next == null
        && (exists i :: 0 <= i < |old(contents)| && old(contents)[i] == node && contents == Without(old(contents), i))
        && (forall n :: n in contents ==> n in old(contents) && n != node)
        && (forall n :: n in old(contents) && n != node ==> n in contents)
    {
      if node.list != this { return; }
      ghost var was := contents;
      ghost var i :| 0 <= i < |was| && was[i] == node;
      assert Link(i);
      if node.previous != null { node.previous.next := node.next; } else { head := node.next; }
      if node.next != null { node.next.previous := node.previous; } else { tail := node.previous; }
      node.previous, node.next, node.list := null, null, null;
      contents := Without(was, i);
      WithoutAt(was, i);
      hide Without;
      forall k | 0 <= k < |contents| ensures Link(k) {
        var j := if k < i then k else k + 1;
        assert contents[k] == was[j] != node;
        assert old(Link(j));
        assert contents[k].list == this;
        assert contents[k].previous == (if k == 0 then null else contents[k - 1]);
        assert contents[k].next == (if k + 1 == |contents| then null else contents[k + 1]);
      }
    }

    method PopFront() returns (node: TimerNode?)
      requires Valid()
      modifies this, contents`previous, contents`next, contents`list
      ensures Valid()
      ensures old(contents) == [] ==> node == null && contents == []
      ensures old(contents) != [] ==> node == old(contents)[0] && contents == old(contents)[1..] && node.list == null
    {
      node := head;
      if node != null {
        assert Link(0);
        Remove(node);
        ghost var was := old(contents);
        ghost var i :| 0 <= i < |was| && was[i] == node && contents == Without(was, i);
        assert i == 0 && Without(was, 0) == was[1..];
      }
    }

    /** Moves every node of `other`, in order, to the end of this list. */
    method SpliceBack(other: TimerList)
      requires Valid() && other.Valid() && other != this
      modifies this, other, contents`next, other.contents`previous, other.contents`list
      ensures Valid() && other.Valid()
      ensures contents == old(contents) + old(other.contents) && other.contents == []
    {
      if other.IsEmpty() { return; }
      ghost var mine, theirs := contents, other.contents;
      assert Disjoint(mine, theirs) by {
        forall i, j | 0 <= i < |mine| && 0 <= j < |theirs| ensures mine[i] != theirs[j] {
          assert Link(i) && other.Link(j);
        }
      }
      Relabel(other);
      if tail != null {
        tail.next := other.head;
        other.head.previous := tail;
      } else {
        head := other.head;
      }
      tail := other.tail;
      other.head, other.tail := null, null;
      contents, other.contents := mine + theirs, [];
      forall k | 0 <= k < |contents| ensures Link(k) {
        if k < |mine| {
          assert contents[k] == mine[k] && old(Link(k));
          assert mine[k].list == this && mine[k].previous == (if k == 0 then null else mine[k - 1]);
          assert k + 1 < |mine| ==> mine[k] != mine[|mine| - 1] && mine[k].next == mine[k + 1] == contents[k + 1];
          assert k + 1 == |mine| ==> mine[k].next == theirs[0] == contents[k + 1];
        } else {
          var j := k - |mine|;
          assert contents[k] == theirs[j] && old(other.Link(j));
          assert theirs[j].list == this && theirs[j].next == (if j + 1 == |theirs| then null else theirs[j + 1]);
          assert j > 0 ==> theirs[j] != theirs[0] && theirs[j].previous == theirs[j - 1] == contents[k - 1];
          assert j == 0 && |mine| > 0 ==> theirs[j].previous == mine[|mine| - 1] == contents[k - 1];
        }
      }
    }

    /** The loop of the splice: every node of `other` now names this list. */
    method Relabel(other: TimerList)
      requires other.Valid()
      modifies other.contents`list
      ensures forall n :: n in other.contents ==> n.list == this
    {
      var node := other.head;
      ghost var k := 0;
      while node != null
        invariant 0 <= k <= |other.contents|
        invariant node == if k == |other.contents| then null else other.contents[k]
        invariant forall i :: 0 <= i < k ==> other.contents[i].list == this
        decreases |other.contents| - k
      {
        assert old(other.Link(k));
        node.list := this;
        node, k := node.next, k + 1;
      }
    }
  }

  ghost predicate Disjoint<T>(s: seq<T>, r: seq<T>) {
    forall i, j :: 0 <= i < |s| && 0 <= j < |r| ==> s[i] != r[j]
  }
}
