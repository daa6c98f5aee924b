/** The linked structures of Project2 as the source has them: the reader queue with
    its front and rear pointers, and a version chain. Every operation is proved
    against the value-level function that the protocol model uses. */
module VersionLists {
  import opened Options
  import opened Mvcc
  import opened MvccChains
  import opened MvccSteps

  class QueueNode {
    const version: nat
    var link: QueueNode?

    constructor (version: nat)
      ensures this.version == version && link == null
    {
      this.version := version;
      link := null;
    }
  }

  /** The node at position k, null past the end. */
  ghost function At(nodes: seq<QueueNode>, k: nat): QueueNode? {
    if k < |nodes| then nodes[k] else null
  }

  /** nodes are chained by link, in order, the last one to null. */
  ghost predicate Linked(nodes: seq<QueueNode>)
    reads nodes
  {
    && (forall i, j :: 0 <= i < j < |nodes| ==> nodes[i] != nodes[j])
    && (forall i {:trigger nodes[i].link} :: 0 <= i < |nodes| ==> nodes[i].link == At(nodes, i + 1))
  }

  ghost function Versions(nodes: seq<QueueNode>): seq<nat> {
    seq(|nodes|, i requires 0 <= i < |nodes| => nodes[i].version)
  }

  class ReaderQueue {
    var count: nat
    var minimum: nat
    var deleteFront: nat
    var front: QueueNode?
    var rear: QueueNode?
    ghost var nodes: seq<QueueNode>

    /** The rear pointer is only meaningful while the queue is not empty: removing
        the last node leaves it dangling, and the next insertion resets it. */
    ghost predicate Valid()
      reads this, nodes
    {
      && count == |nodes| && Linked(nodes)
      && front == At(nodes, 0)
      && (nodes != [] ==> rear == nodes[|nodes| - 1])
    }

    ghost function View(): Queue
      reads this, nodes
    {
      Queue(Versions(nodes), minimum, deleteFront)
    }

    constructor ()
      ensures Valid() && View() == Queue([], 0, 0) && nodes == []
    {
      count, minimum, deleteFront := 0, 0, 0;
      front, rear, nodes := null, null, [];
    }

    method AddRear(version: nat)
      requires Valid()
      modifies this, nodes
      ensures Valid() && fresh(set n | n in nodes && n !in old(nodes))
      ensures View() == old(View()).(entries := old(View().entries) + [version])
    {
      var node := new QueueNode(version);
      if count == 0 {
        front := node;
        rear := node;
      } else {
        rear.link := node;
        rear := node;
      }
      count := count + 1;
      nodes := nodes + [node];
      assert Versions(nodes) == old(Versions(nodes)) + [version];
    }

    method RemoveFront()
      requires Valid()
      modifies this
      ensures Valid() && nodes == (if old(nodes) == [] then [] else old(nodes)[1..])
      ensures View() == old(View()).(entries := if old(nodes) == [] then [] else old(View().entries)[1..])
    {
      if count == 0 {
        return;
      }
      var tmp := front;
      assert nodes[0].link == At(nodes, 1);
      front := tmp.link;
      count := count - 1;
      nodes := nodes[1..];
    }

    /** Takes node k out; back is its predecessor, null for the front node. */
    method Unlink(current: QueueNode, back: QueueNode?, ghost k: nat)
      requires Valid() && k < |nodes| && current == nodes[k]
      requires back == (if k == 0 then null else nodes[k - 1])
      modifies this, nodes
      ensures Valid() && nodes == old(nodes)[..k] + old(nodes)[k + 1..]
      ensures minimum == old(minimum) && deleteFront == old(deleteFront)
    {
      assert nodes[k].link == At(nodes, k + 1);
      if back != null {
        back.link := current.link;
        if back.link == null {
          rear := back;
        }
      } else {
        front := current.link;
      }
      count := count - 1;
      ghost var was := nodes;
      nodes := nodes[..k] + nodes[k + 1..];
      assert forall i :: 0 <= i < |nodes| ==> nodes[i] == was[if i < k then i else i + 1];
    }

    method RemoveVersion(version: nat)
      requires Valid()
      modifies this, nodes
      ensures Valid() && forall n :: n in nodes ==> n in old(nodes)
      ensures View() == old(View()).(entries := RemoveFirst(old(View().entries), version))
    {
      ghost var entries := Versions(nodes);
      var current, back: QueueNode? := front, null;
      ghost var k: nat := 0;
      while current != null
        invariant k <= |nodes| && unchanged(this) && unchanged(nodes)
        invariant current == At(nodes, k)
        invariant back == (if k == 0 then null else nodes[k - 1])
        invariant forall i :: 0 <= i < k ==> entries[i] != version
        decreases |nodes| - k
      {
        if current.version == version {
          RemoveFirstAt(entries, version, k);
          Unlink(current, back, k);
          assert Versions(nodes) == entries[..k] + entries[k + 1..];
          return;
        }
        assert nodes[k].link == At(nodes, k + 1);
        back := current;
        current := current.link;
        k := k + 1;
      }
      RemoveFirstAbsent(entries, version);
    }

    /** The queue part of the region that ends an update. The source reads the front
        node without a test: on an empty queue that is a fault. */
    method EndUpdate(a: nat) returns (fault: bool)
      requires Valid()
      modifies this, nodes
      ensures fault <==> old(nodes) == []
      ensures Valid() && forall n :: n in nodes ==> n in old(nodes)
      ensures fault ==> View() == old(View())
      ensures !fault ==> old(View()).entries != [] && View() == Release(old(View()), a)
    {
      if front == null {
        return true;
      }
      if front.version == a {
        RemoveFront();
        if front != null {
          if front.version != a {
            minimum := a;
          }
        } else {
          if deleteFront != a {
            minimum := deleteFront;
          }
        }
        deleteFront := a;
      } else {
        RemoveVersion(a);
      }
      return false;
    }
  }

  // ----------------------------------------------------------------- chains

  class ChainNode {
    const A: int
    const B: int
    const version: nat
    var link: ChainNode?

    constructor (A: int, B: int, version: nat, link: ChainNode?)
      ensures this.A == A && this.B == B && this.version == version && this.link == link
    {
      this.A, this.B, this.version, this.link := A, B, version, link;
    }
  }

  ghost function ChainAt(nodes: seq<ChainNode>, k: nat): ChainNode? {
    if k < |nodes| then nodes[k] else null
  }

  ghost predicate ChainLinked(nodes: seq<ChainNode>)
    reads nodes
  {
    && (forall i, j :: 0 <= i < j < |nodes| ==> nodes[i] != nodes[j])
    && (forall i {:trigger nodes[i].link} :: 0 <= i < |nodes| ==> nodes[i].link == ChainAt(nodes, i + 1))
  }

  ghost function Values(nodes: seq<ChainNode>): Chain {
    seq(|nodes|, i requires 0 <= i < |nodes| => Node(nodes[i].A, nodes[i].B, nodes[i].version))
  }

  /** Where the versions first fall below m, |c| if they never do. */
  function FirstBelow(c: Chain, m: nat): (k: nat)
    ensures k <= |c| && (forall i :: 0 <= i < k ==> c[i].version >= m) && (k < |c| ==> c[k].version < m)
  {
    if c == [] || c[0].version < m then 0 else 1 + FirstBelow(c[1..], m)
  }

  /** In a chain as the protocol keeps it, cutting there removes exactly what is below. */
  lemma FirstBelowCuts(c: Chain, m: nat)
    requires Decreasing(c) && c != [] && c[0].version >= m
    ensures CutAt(c, FirstBelow(c, m), m)
  {
    var k := FirstBelow(c, m);
    assert forall j :: k < j < |c| ==> c[k].version > c[j].version;
  }

  lemma {:induction false} NewestNone(c: Chain, a: nat)
    requires forall i :: 0 <= i < |c| ==> c[i].version >= a
    ensures Newest(c, a) == None
  {
    if c != [] {
      NewestNone(c[1..], a);
    }
  }

  class VersionChain {
    var head: ChainNode?
    ghost var nodes: seq<ChainNode>

    ghost predicate Valid()
      reads this, nodes
    {
      ChainLinked(nodes) && head == ChainAt(nodes, 0)
    }

    constructor ()
      ensures Valid() && nodes == []
    {
      head, nodes := null, [];
    }

    method Insert(A: int, B: int, version: nat)
      requires Valid()
      modifies this
      ensures Valid() && Values(nodes) == [Node(A, B, version)] + old(Values(nodes))
    {
      var node := new ChainNode(A, B, version, head);
      head := node;
      nodes := [node] + nodes;
    }

    /** The reader's walk: it stops at the newest version below a, or runs off the
        chain if there is none. */
    method FindBelow(a: nat) returns (cursor: ChainNode?)
      requires Valid()
      ensures cursor == null ==> Newest(Values(nodes), a) == None
      ensures cursor != null ==> Newest(Values(nodes), a) == Some(Node(cursor.A, cursor.B, cursor.version))
    {
      var k: nat := 0;
      cursor := head;
      while cursor != null
        invariant k <= |nodes| && cursor == ChainAt(nodes, k)
        invariant forall i :: 0 <= i < k ==> nodes[i].version >= a
        decreases |nodes| - k
      {
        if cursor.version < a {
          NewestIs(Values(nodes), a, k);
          return;
        }
        assert nodes[k].link == ChainAt(nodes, k + 1);
        cursor := cursor.link;
        k := k + 1;
      }
      NewestNone(Values(nodes), a);
    }

    /** Ends the chain after node k - 1. */
    method CutBehind(back: ChainNode, ghost k: nat)
      requires Valid() && 0 < k <= |nodes| && back == nodes[k - 1]
      modifies back, this
      ensures Valid() && nodes == old(nodes)[..k] && head == old(head)
    {
      back.link := null;
      nodes := nodes[..k];
    }

    /** One pass of the collector, undisturbed: the chain ends before the first version
        below the minimum. If that is the head, the source writes through its null
        predecessor. */
    method Truncate(minimum: nat) returns (fault: bool)
      requires Valid()
      modifies nodes, this
      ensures Valid() && head == old(head)
      ensures fault <==> old(nodes) != [] && old(nodes)[0].version < minimum
      ensures nodes == if fault then old(nodes) else old(nodes)[..FirstBelow(old(Values(nodes)), minimum)]
    {
      ghost var values := Values(nodes);
      var tmp, back: ChainNode? := head, null;
      ghost var k: nat := 0;
      while tmp != null
        invariant k <= |nodes| && unchanged(this) && unchanged(nodes)
        invariant tmp == ChainAt(nodes, k)
        invariant back == (if k == 0 then null else nodes[k - 1])
        invariant forall i :: 0 <= i < k ==> values[i].version >= minimum
        decreases |nodes| - k
      {
        if tmp.version < minimum {
          assert values[k].version < minimum;
          if back == null {
            return true;
          }
          CutBehind(back, k);
          return false;
        }
        assert nodes[k].link == ChainAt(nodes, k + 1);
        back := tmp;
        tmp := tmp.link;
        k := k + 1;
      }
      assert nodes[..|nodes|] == nodes;
      assert nodes != [] ==> values[0].version >= minimum;
      return false;
    }
  }
}
