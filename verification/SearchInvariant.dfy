/** What every interleaving of the searches keeps: each search is a correct
    breadth-first search on its own, and the shared marks order any two of them. */
module SearchInvariant {
  import opened Graph
  import opened Search

  predicate InQueue(queue: seq<Entry>, v: nat) {
    exists j :: 0 <= j < |queue| && queue[j] == Vertex(v)
  }

  /** The fence at pos closes depth k: exactly the vertices within distance k are
      in front of it. */
  ghost predicate Closes(g: Graph, a: nat, queue: seq<Entry>, pos: nat, k: nat) {
    && pos < |queue| && queue[pos].Fence?
    && (forall j :: 0 <= j < pos && queue[j].Vertex? ==> InBall(g, a, queue[j].v, k))
    && (forall j :: pos < j < |queue| && queue[j].Vertex? ==> !InBall(g, a, queue[j].v, k))
  }

  ghost predicate FencesOk(g: Graph, a: nat, th: Thread) {
    && |th.fences| == th.depth + 1 && th.fences[0] == 0
    && (forall k :: 1 <= k <= th.depth ==> Closes(g, a, th.queue, th.fences[k], k - 1))
    && Closes(g, a, th.queue, th.nextFence, th.depth)
    && th.front <= th.nextFence
    && (forall j :: th.front <= j < |th.queue| && j != th.nextFence ==> th.queue[j].Vertex?)
  }

  /** Nothing is found earlier or later than one step past the current depth. */
  ghost predicate Near(g: Graph, a: nat, th: Thread) {
    forall j :: 0 <= j < |th.queue| && th.queue[j].Vertex? ==> InBall(g, a, th.queue[j].v, th.depth + 1)
  }

  ghost predicate NoRepeats(queue: seq<Entry>) {
    forall i, j :: 0 <= i < j < |queue| && queue[i].Vertex? ==> queue[i] != queue[j]
  }

  /** Everything within the current depth has been found. */
  ghost predicate Complete(g: Graph, a: nat, queue: seq<Entry>, n: nat) {
    forall v: nat :: InBall(g, a, v, n) ==> InQueue(queue, v)
  }

  /** The first n neighbours of u have been found. */
  ghost predicate Found(g: Graph, queue: seq<Entry>, u: nat, n: nat) {
    u < |g| && n <= |g[u]| && forall i :: 0 <= i < n ==> InQueue(queue, g[u][i])
  }

  /** All neighbours of the vertices in the first n slots have been found. */
  ghost predicate Expanded(g: Graph, queue: seq<Entry>, n: nat) {
    && n <= |queue|
    && forall j :: 0 <= j < n && queue[j].Vertex? ==>
         queue[j].v < |g| && Found(g, queue, queue[j].v, |g[queue[j].v]|)
  }

  ghost predicate ProgressOk(g: Graph, th: Thread) {
    match th.pc
    case Dequeue => Expanded(g, th.queue, th.front)
    case Done => Expanded(g, th.queue, th.front)
    case Scan(curr, i) =>
      && 0 < th.front <= |th.queue| && th.queue[th.front - 1] == Vertex(curr)
      && Expanded(g, th.queue, th.front - 1) && Found(g, th.queue, curr, i)
    case Mark(curr, i) =>
      && 0 < th.front <= |th.queue| && th.queue[th.front - 1] == Vertex(curr)
      && Expanded(g, th.queue, th.front - 1) && Found(g, th.queue, curr, i)
      && i < |g[curr]| && !InQueue(th.queue, g[curr][i])
  }

  ghost predicate BfsOk(g: Graph, a: nat, th: Thread) {
    && FencesOk(g, a, th)
    && Near(g, a, th)
    && NoRepeats(th.queue)
    && Complete(g, a, th.queue, th.depth)
    && ProgressOk(g, th)
  }

  // ------------------------------------------------ one search on its own

  lemma InQueueAppend(queue: seq<Entry>, e: Entry, v: nat)
    ensures InQueue(queue + [e], v) <==> InQueue(queue, v) || e == Vertex(v)
  {
    var q := queue + [e];
    assert q[|queue|] == e;
    if InQueue(queue, v) {
      var j :| 0 <= j < |queue| && queue[j] == Vertex(v);
      assert q[j] == Vertex(v);
    }
  }

  lemma FoundAppend(g: Graph, queue: seq<Entry>, e: Entry, u: nat, n: nat)
    requires Found(g, queue, u, n)
    ensures Found(g, queue + [e], u, n)
  {
    forall i | 0 <= i < n ensures InQueue(queue + [e], g[u][i]) {
      InQueueAppend(queue, e, g[u][i]);
    }
  }

  lemma ExpandedAppend(g: Graph, queue: seq<Entry>, e: Entry, n: nat)
    requires Expanded(g, queue, n)
    ensures Expanded(g, queue + [e], n)
  {
    var q := queue + [e];
    forall j | 0 <= j < n && q[j].Vertex? ensures q[j].v < |g| && Found(g, q, q[j].v, |g[q[j].v]|) {
      assert q[j] == queue[j];
      FoundAppend(g, queue, e, queue[j].v, |g[queue[j].v]|);
    }
  }

  lemma CompleteAppend(g: Graph, a: nat, queue: seq<Entry>, e: Entry, n: nat)
    requires Complete(g, a, queue, n)
    ensures Complete(g, a, queue + [e], n)
  {
    forall v: nat | InBall(g, a, v, n) ensures InQueue(queue + [e], v) {
      InQueueAppend(queue, e, v);
    }
  }

  /** A fence stays valid when a fence, or a vertex beyond its depth, is appended. */
  lemma ClosesAppend(g: Graph, a: nat, queue: seq<Entry>, pos: nat, k: nat, e: Entry)
    requires Closes(g, a, queue, pos, k) && (e.Vertex? ==> !InBall(g, a, e.v, k))
    ensures Closes(g, a, queue + [e], pos, k)
  {
  }

  lemma InitBfs(g: Graph, a: nat, t: nat)
    requires a < |g|
    ensures BfsOk(g, a, InitThread(a, t))
  {
    var th := InitThread(a, t);
    assert th.queue[0] == Vertex(a);
  }

  /** At a fence the whole depth has been expanded, so the next one is complete. */
  lemma CompleteAtFence(g: Graph, a: nat, queue: seq<Entry>, pos: nat, k: nat)
    requires Closes(g, a, queue, pos, k) && Complete(g, a, queue, k) && Expanded(g, queue, pos)
    ensures Complete(g, a, queue, k + 1)
  {
    forall v: nat | InBall(g, a, v, k + 1) ensures InQueue(queue, v) {
      if !InBall(g, a, v, k) {
        var u: nat :| u < |g| && InBall(g, a, u, k) && v in g[u];
        var j :| 0 <= j < |queue| && queue[j] == Vertex(u);
        assert j < pos;
        var i :| 0 <= i < |g[u]| && g[u][i] == v;
        assert Found(g, queue, u, |g[u]|);
      }
    }
  }

  lemma FenceNear(g: Graph, a: nat, th: Thread, e: Entry)
    requires Near(g, a, th) && e.Fence?
    ensures Closes(g, a, th.queue + [e], |th.queue|, th.depth + 1)
    ensures forall j :: 0 <= j < |th.queue + [e]| && (th.queue + [e])[j].Vertex? ==>
              InBall(g, a, (th.queue + [e])[j].v, th.depth + 2)
  {
    forall j | 0 <= j < |th.queue| && th.queue[j].Vertex? ensures InBall(g, a, th.queue[j].v, th.depth + 2) {
      BallMono(g, a, th.queue[j].v, th.depth + 1, th.depth + 2);
    }
  }

  lemma FenceFences(p: Problem, a: nat, th: Thread)
    requires FencesOk(p.g, a, th) && Near(p.g, a, th) && th.pc.Dequeue? && th.front == th.nextFence
    ensures FencesOk(p.g, a, DequeueStep(p, th))
  {
    var e := Fence(th.depth + 1);
    var th' := DequeueStep(p, th);
    FenceNear(p.g, a, th, e);
    forall i | 1 <= i <= th.depth + 1 ensures Closes(p.g, a, th'.queue, th'.fences[i], i - 1) {
      ClosesAppend(p.g, a, th.queue, if i <= th.depth then th.fences[i] else th.nextFence, i - 1, e);
    }
  }

  /** Passing a fence. */
  lemma FenceBfs(p: Problem, a: nat, th: Thread)
    requires BfsOk(p.g, a, th) && th.pc.Dequeue? && th.front == th.nextFence
    ensures BfsOk(p.g, a, DequeueStep(p, th))
  {
    var e := Fence(th.depth + 1);
    FenceFences(p, a, th);
    FenceNear(p.g, a, th, e);
    CompleteAtFence(p.g, a, th.queue, th.nextFence, th.depth);
    CompleteAppend(p.g, a, th.queue, e, th.depth + 1);
    ExpandedAppend(p.g, th.queue, e, th.front);
    assert Expanded(p.g, th.queue + [e], th.front + 1);
  }

  lemma FencesAppend(g: Graph, a: nat, th: Thread, e: Entry)
    requires FencesOk(g, a, th) && e.Vertex? && !InBall(g, a, e.v, th.depth)
    ensures FencesOk(g, a, th.(queue := th.queue + [e]))
  {
    forall k: nat | k <= th.depth ensures !InBall(g, a, e.v, k) {
      if InBall(g, a, e.v, k) { BallMono(g, a, e.v, k, th.depth); }
    }
    forall k | 1 <= k <= th.depth ensures Closes(g, a, th.queue + [e], th.fences[k], k - 1) {
      ClosesAppend(g, a, th.queue, th.fences[k], k - 1, e);
    }
    ClosesAppend(g, a, th.queue, th.nextFence, th.depth, e);
  }

  lemma NoRepeatsAppend(queue: seq<Entry>, w: nat)
    requires NoRepeats(queue) && !InQueue(queue, w)
    ensures NoRepeats(queue + [Vertex(w)])
  {
    var q := queue + [Vertex(w)];
    forall x, y | 0 <= x < y < |q| && q[x].Vertex? ensures q[x] != q[y] {
      assert q[x] == queue[x];
    }
  }

  /** Marking a vertex found for the first time. */
  lemma MarkBfs(g: Graph, a: nat, th: Thread, before: set<nat>)
    requires BfsOk(g, a, th) && th.pc.Mark?
    ensures BfsOk(g, a, MarkStep(th, g[th.pc.curr][th.pc.i], before))
    ensures !InBall(g, a, g[th.pc.curr][th.pc.i], th.depth)
  {
    var Mark(curr, i) := th.pc;
    var w := g[curr][i];
    assert InBall(g, a, curr, th.depth);
    assert InBall(g, a, w, th.depth + 1);
    FencesAppend(g, a, th, Vertex(w));
    NoRepeatsAppend(th.queue, w);
    CompleteAppend(g, a, th.queue, Vertex(w), th.depth);
    ExpandedAppend(g, th.queue, Vertex(w), th.front - 1);
    FoundAppend(g, th.queue, Vertex(w), curr, i);
    InQueueAppend(th.queue, Vertex(w), w);
  }

  /** Taking a vertex off the queue, or being done with its neighbours. */
  lemma VertexBfs(p: Problem, a: nat, th: Thread)
    requires Undirected(p.g) && a < |p.g| && BfsOk(p.g, a, th) && th.pc.Dequeue? && th.front < th.nextFence
    ensures th.queue[th.front].Vertex? && BfsOk(p.g, a, DequeueStep(p, th))
  {
    assert InBall(p.g, a, th.queue[th.front].v, th.depth);
    BallSymmetric(p.g, a, th.queue[th.front].v, th.depth);
  }

  lemma ScannedBfs(g: Graph, a: nat, th: Thread)
    requires BfsOk(g, a, th) && th.pc.Scan? && th.pc.i == |g[th.pc.curr]|
    ensures BfsOk(g, a, th.(pc := Dequeue))
  {
  }
}
