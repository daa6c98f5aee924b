/** How the shared marks tie two searches together, in every interleaving. */
module SearchMeeting {
  import opened Graph
  import opened Search
  import opened SearchInvariant

  /** The bit of thread t is on exactly at the vertices it has found. */
  ghost predicate FlagsOk(s: State, t: nat, queue: seq<Entry>) {
    forall v :: 0 <= v < |s.flags| ==> (t in s.flags[v] <==> InQueue(queue, v))
  }

  /** A record names a common vertex at the recorded distance. */
  ghost predicate RecordOk(g: Graph, a: nat, th: Thread, rival: Thread, r: Info) {
    && 1 <= r.depth <= th.depth + 1
    && (th.pc.Done? ==> r.depth <= th.depth)
    && InQueue(th.queue, r.vid) && InQueue(rival.queue, r.vid)
    && AtDist(g, a, r.vid, r.depth)
  }

  ghost predicate VisitedOk(th: Thread, t: nat, n: nat) {
    && (forall u :: u in th.visited <==> u == t || u in th.info)
    && t !in th.info
    && (forall u :: u in th.info ==> u < n)
  }

  /** t has met u, no later than when it found v. */
  ghost predicate Met(g: Graph, a: nat, th: Thread, u: nat, v: nat) {
    u in th.info && th.info[u].depth >= 1 && !InBall(g, a, v, th.info[u].depth - 1)
  }

  /** At every common vertex, the later of the two has noticed the other. */
  ghost predicate MeetOk(g: Graph, a: nat, th: Thread, t: nat, b: nat, rival: Thread, u: nat) {
    forall v: nat :: InQueue(th.queue, v) && InQueue(rival.queue, v) ==>
      Met(g, a, th, u, v) || Met(g, b, rival, t, v)
  }

  /** Once both have met, the houses are no further apart than the two depths add up to. */
  ghost predicate SumOk(g: Graph, a: nat, th: Thread, t: nat, b: nat, rival: Thread, u: nat) {
    u in th.info && t in rival.info ==> InBall(g, a, b, th.info[u].depth + rival.info[t].depth)
  }

  /** A search goes deeper only while some house is further away, and stops only
      when it has met all the others. */
  ghost predicate DepthOk(p: Problem, a: nat, th: Thread) {
    var reached := if th.pc.Done? && th.depth > 0 then th.depth - 1 else th.depth;
    && (reached > 0 ==> exists u :: 0 <= u < |p.houses| && !InBall(p.g, a, p.houses[u], reached))
    && (th.pc.Done? ==> MetAll(p, th.visited))
  }

  ghost predicate ThreadOk(p: Problem, s: State, t: nat)
    requires |s.threads| == |p.houses| && t < |s.threads|
  {
    && BfsOk(p.g, p.houses[t], s.threads[t])
    && FlagsOk(s, t, s.threads[t].queue)
    && VisitedOk(s.threads[t], t, |p.houses|)
    && DepthOk(p, p.houses[t], s.threads[t])
  }

  /** Two searches: t from house a, u from house b. */
  ghost predicate Tied(g: Graph, a: nat, th: Thread, t: nat, b: nat, rival: Thread, u: nat) {
    && (u in th.info ==> RecordOk(g, a, th, rival, th.info[u]))
    && MeetOk(g, a, th, t, b, rival, u)
    && SumOk(g, a, th, t, b, rival, u)
  }

  ghost predicate PairOk(p: Problem, s: State, t: nat, u: nat)
    requires |s.threads| == |p.houses| && t < |s.threads| && u < |s.threads|
  {
    Tied(p.g, p.houses[t], s.threads[t], t, p.houses[u], s.threads[u], u)
  }

  ghost predicate Inv(p: Problem, s: State) {
    && ValidProblem(p) && Shaped(p, s)
    && (forall v, u :: 0 <= v < |s.flags| && u in s.flags[v] ==> u < |p.houses|)
    && (forall t :: 0 <= t < |s.threads| ==> ThreadOk(p, s, t))
    && (forall t, u :: 0 <= t < |s.threads| && 0 <= u < |s.threads| && t != u ==> PairOk(p, s, t, u))
  }

  lemma InitInv(p: Problem)
    requires ValidProblem(p)
    ensures Inv(p, Init(p))
  {
    var s := Init(p);
    forall t | 0 <= t < |s.threads| ensures ThreadOk(p, s, t) {
      InitBfs(p.g, p.houses[t], t);
      assert s.threads[t].queue[0] == Vertex(p.houses[t]);
    }
  }

  // --------------------------------------------------- steps that mark nothing

  /** A thread that keeps its finds and its records. */
  ghost predicate SameFinds(th: Thread, th': Thread) {
    && th'.info == th.info && th'.visited == th.visited
    && (forall v: nat :: InQueue(th'.queue, v) <==> InQueue(th.queue, v))
    && th.depth <= th'.depth
    && (th'.pc.Done? && !th.pc.Done? ==> th.depth < th'.depth)
  }

  lemma QuietTied(g: Graph, a: nat, th: Thread, th': Thread, t: nat, b: nat, rival: Thread, u: nat)
    requires SameFinds(th, th')
    ensures Tied(g, a, th, t, b, rival, u) ==> Tied(g, a, th', t, b, rival, u)
    ensures Tied(g, b, rival, u, a, th, t) ==> Tied(g, b, rival, u, a, th', t)
  {
  }

  lemma QuietStep(p: Problem, s: State, t: nat, th': Thread)
    requires Inv(p, s) && t < |s.threads| && SameFinds(s.threads[t], th')
    requires BfsOk(p.g, p.houses[t], th') && DepthOk(p, p.houses[t], th')
    requires Shaped(p, s.(threads := s.threads[t := th']))
    ensures Inv(p, s.(threads := s.threads[t := th']))
  {
    var s' := s.(threads := s.threads[t := th']);
    forall u | 0 <= u < |s.threads| ensures ThreadOk(p, s', u) {
      assert ThreadOk(p, s, u);
    }
    forall x, y | 0 <= x < |s.threads| && 0 <= y < |s.threads| && x != y ensures PairOk(p, s', x, y) {
      assert PairOk(p, s, x, y);
      if x == t {
        QuietTied(p.g, p.houses[t], s.threads[t], th', t, p.houses[y], s.threads[y], y);
      } else if y == t {
        QuietTied(p.g, p.houses[t], s.threads[t], th', t, p.houses[x], s.threads[x], x);
      }
    }
  }

  /** An unmet search's house has not been found. */
  lemma UnmetHouse(p: Problem, s: State, t: nat, u: nat)
    requires Inv(p, s) && t < |s.threads| && u < |s.threads| && u !in s.threads[t].visited
    ensures !InQueue(s.threads[t].queue, p.houses[u])
  {
    assert ThreadOk(p, s, t) && ThreadOk(p, s, u) && PairOk(p, s, t, u) && PairOk(p, s, u, t);
    assert InBall(p.g, p.houses[u], p.houses[u], 0);
    BallMono(p.g, p.houses[u], p.houses[u], 0, s.threads[u].depth);
    assert InQueue(s.threads[u].queue, p.houses[u]);
    if t in s.threads[u].info {
      BallMono(p.g, p.houses[u], p.houses[u], 0, s.threads[u].info[t].depth - 1);
    }
  }

  lemma FenceDepth(p: Problem, s: State, t: nat)
    requires Inv(p, s) && t < |s.threads| && s.threads[t].pc.Dequeue?
    requires s.threads[t].front == s.threads[t].nextFence
    ensures DepthOk(p, p.houses[t], DequeueStep(p, s.threads[t]))
  {
    var th := s.threads[t];
    assert ThreadOk(p, s, t);
    FenceBfs(p, p.houses[t], th);
    if !MetAll(p, th.visited) {
      var u: nat :| u < |p.houses| && u !in th.visited;
      UnmetHouse(p, s, t, u);
      InQueueAppend(th.queue, Fence(th.depth + 1), p.houses[u]);
      assert !InBall(p.g, p.houses[t], p.houses[u], th.depth + 1);
    }
  }

  lemma DequeueInv(p: Problem, s: State, t: nat)
    requires Inv(p, s) && t < |s.threads| && s.threads[t].pc.Dequeue?
    ensures Inv(p, Next(p, s, t))
  {
    var th := s.threads[t];
    assert ThreadOk(p, s, t);
    if th.front == th.nextFence {
      FenceBfs(p, p.houses[t], th);
      FenceDepth(p, s, t);
      forall v: nat ensures InQueue(DequeueStep(p, th).queue, v) <==> InQueue(th.queue, v) {
        InQueueAppend(th.queue, Fence(th.depth + 1), v);
      }
    } else {
      VertexBfs(p, p.houses[t], th);
    }
    QuietStep(p, s, t, DequeueStep(p, th));
  }

  lemma ScanBfs(p: Problem, s: State, t: nat)
    requires Inv(p, s) && t < |s.threads| && s.threads[t].pc.Scan?
    ensures t < |Next(p, s, t).threads| && BfsOk(p.g, p.houses[t], Next(p, s, t).threads[t])
  {
    assert ThreadOk(p, s, t);
    if s.threads[t].pc.i == |p.g[s.threads[t].pc.curr]| {
      ScannedBfs(p.g, p.houses[t], s.threads[t]);
    }
  }

  lemma ScanInv(p: Problem, s: State, t: nat)
    requires Inv(p, s) && t < |s.threads| && s.threads[t].pc.Scan?
    ensures Inv(p, Next(p, s, t))
  {
    assert ThreadOk(p, s, t);
    ScanBfs(p, s, t);
    QuietStep(p, s, t, Next(p, s, t).threads[t]);
  }

  // ---------------------------------------------------------- fetch-and-or

  /** Thread t is about to mark neighbour i of curr. */
  ghost predicate Marking(p: Problem, s: State, t: nat) {
    && t < |s.threads| && s.threads[t].pc.Mark?
    && s.threads[t].pc.curr < |p.g| && s.threads[t].pc.i < |p.g[s.threads[t].pc.curr]|
  }

  lemma ThroughVertex(g: Graph, a: nat, b: nat, v: nat, m: nat, n: nat)
    requires Undirected(g) && a < |g| && b < |g| && InBall(g, a, v, m) && InBall(g, b, v, n)
    ensures InBall(g, a, b, m + n) && InBall(g, b, a, m + n)
  {
    BallSymmetric(g, b, v, n);
    BallJoin(g, a, v, b, m, n);
    BallSymmetric(g, a, b, m + n);
  }

  lemma FoundNear(g: Graph, a: nat, th: Thread, v: nat)
    requires Near(g, a, th) && InQueue(th.queue, v)
    ensures InBall(g, a, v, th.depth + 1)
  {
    var j :| 0 <= j < |th.queue| && th.queue[j] == Vertex(v);
  }

  /** If u had already met t, the vertex where it did lies within reach of t now. */
  lemma MarkSum(p: Problem, s: State, t: nat, u: nat)
    requires Inv(p, s) && t < |s.threads| && u < |s.threads| && t != u && t in s.threads[u].info
    ensures var d := s.threads[t].depth + 1 + s.threads[u].info[t].depth;
            InBall(p.g, p.houses[t], p.houses[u], d)
            && InBall(p.g, p.houses[u], p.houses[t], d)
  {
    var r := s.threads[u].info[t];
    assert ThreadOk(p, s, t) && PairOk(p, s, u, t);
    FoundNear(p.g, p.houses[t], s.threads[t], r.vid);
    ThroughVertex(p.g, p.houses[t], p.houses[u], r.vid, s.threads[t].depth + 1, r.depth);
  }

  /** What marking w, where "before" was found, does to a thread's finds and records. */
  ghost predicate Marks(g: Graph, a: nat, th: Thread, th': Thread, w: nat, before: set<nat>) {
    && !InBall(g, a, w, th.depth) && InBall(g, a, w, th.depth + 1)
    && th'.depth == th.depth && !th.pc.Done? && !th'.pc.Done?
    && (forall v: nat :: InQueue(th'.queue, v) <==> InQueue(th.queue, v) || v == w)
    && (forall x :: x in th'.info <==> x in th.info || x in before - th.visited)
    && (forall x :: x in th.info ==> th'.info[x] == th.info[x])
    && (forall x :: x in before - th.visited ==> th'.info[x] == Info(w, th.depth + 1))
  }

  lemma MarkEffect(p: Problem, s: State, t: nat)
    requires Inv(p, s) && Marking(p, s, t)
    ensures var th := s.threads[t];
            var w := p.g[th.pc.curr][th.pc.i];
            Marks(p.g, p.houses[t], th, MarkStep(th, w, s.flags[w]), w, s.flags[w])
  {
    var (a, th) := (p.houses[t], s.threads[t]);
    var w := p.g[th.pc.curr][th.pc.i];
    var th' := MarkStep(th, w, s.flags[w]);
    assert ThreadOk(p, s, t);
    MarkBfs(p.g, a, th, s.flags[w]);
    forall v: nat ensures InQueue(th'.queue, v) <==> InQueue(th.queue, v) || v == w {
      InQueueAppend(th.queue, Vertex(w), v);
    }
    assert th'.queue[|th.queue|] == Vertex(w);
  }

  /** The later search at w has noticed the other, in time. */
  lemma MarkTied(g: Graph, a: nat, th: Thread, th': Thread, t: nat, b: nat, rival: Thread, u: nat, w: nat, before: set<nat>)
    requires Marks(g, a, th, th', w, before)
    requires u != t && (u in th.visited <==> u in th.info)
    requires u in before <==> InQueue(rival.queue, w)
    requires Tied(g, a, th, t, b, rival, u) && Tied(g, b, rival, u, a, th, t)
    requires t in rival.info ==> InBall(g, a, b, th.depth + 1 + rival.info[t].depth)
    requires t in rival.info ==> InBall(g, b, a, th.depth + 1 + rival.info[t].depth)
    ensures Tied(g, a, th', t, b, rival, u) && Tied(g, b, rival, u, a, th', t)
  {
    if u in th'.info {
      assert RecordOk(g, a, th', rival, th'.info[u]);
      if InBall(g, a, w, th'.info[u].depth - 1) {
        BallMono(g, a, w, th'.info[u].depth - 1, th.depth);
      }
    }
  }

  lemma MarkFacts(p: Problem, s: State, t: nat, u: nat)
    requires Inv(p, s) && Marking(p, s, t) && u < |s.threads| && t != u
    ensures var th := s.threads[t];
            var w := p.g[th.pc.curr][th.pc.i];
            && (u in th.visited <==> u in th.info)
            && (u in s.flags[w] <==> InQueue(s.threads[u].queue, w))
  {
    assert ThreadOk(p, s, t) && ThreadOk(p, s, u);
  }

  lemma MarkPair(p: Problem, s: State, t: nat, u: nat, th': Thread)
    requires Inv(p, s) && Marking(p, s, t) && u < |s.threads| && t != u
    requires var w := p.g[s.threads[t].pc.curr][s.threads[t].pc.i];
             th' == MarkStep(s.threads[t], w, s.flags[w])
    ensures Tied(p.g, p.houses[t], th', t, p.houses[u], s.threads[u], u)
    ensures Tied(p.g, p.houses[u], s.threads[u], u, p.houses[t], th', t)
  {
    var th := s.threads[t];
    var w := p.g[th.pc.curr][th.pc.i];
    MarkFacts(p, s, t, u);
    assert PairOk(p, s, t, u) && PairOk(p, s, u, t);
    MarkEffect(p, s, t);
    if t in s.threads[u].info {
      MarkSum(p, s, t, u);
    }
    MarkTied(p.g, p.houses[t], th, th', t, p.houses[u], s.threads[u], u, w, s.flags[w]);
  }

  lemma MarkThread(p: Problem, s: State, t: nat, u: nat)
    requires Inv(p, s) && Marking(p, s, t) && u < |s.threads|
    requires Shaped(p, Next(p, s, t))
    ensures ThreadOk(p, Next(p, s, t), u)
  {
    var th := s.threads[t];
    var w := p.g[th.pc.curr][th.pc.i];
    var s' := Next(p, s, t);
    assert ThreadOk(p, s, u);
    if u == t {
      MarkBfs(p.g, p.houses[t], th, s.flags[w]);
      forall v: nat ensures InQueue(s'.threads[t].queue, v) <==> InQueue(th.queue, v) || v == w {
        InQueueAppend(th.queue, Vertex(w), v);
      }
    }
  }

  lemma MarkInv(p: Problem, s: State, t: nat)
    requires Inv(p, s) && t < |s.threads| && s.threads[t].pc.Mark?
    ensures Inv(p, Next(p, s, t))
  {
    var s' := Next(p, s, t);
    assert ThreadOk(p, s, t);
    forall u | 0 <= u < |s.threads| ensures ThreadOk(p, s', u) {
      MarkThread(p, s, t, u);
    }
    forall x, y | 0 <= x < |s.threads| && 0 <= y < |s.threads| && x != y ensures PairOk(p, s', x, y) {
      if x == t { MarkPair(p, s, t, y, s'.threads[t]); }
      else if y == t { MarkPair(p, s, t, x, s'.threads[t]); }
      else { assert PairOk(p, s, x, y); }
    }
  }

  lemma InvNext(p: Problem, s: State, t: nat)
    requires Inv(p, s) && t < |s.threads|
    ensures Inv(p, Next(p, s, t))
  {
    match s.threads[t].pc
    case Dequeue => DequeueInv(p, s, t);
    case Scan(_, _) => ScanInv(p, s, t);
    case Mark(_, _) => MarkInv(p, s, t);
    case Done =>
  }

  lemma {:induction false} ExecInv(p: Problem, sched: seq<nat>)
    requires ValidProblem(p) && Schedule(p, sched)
    ensures Inv(p, Exec(p, sched))
    decreases |sched|
  {
    if sched == [] {
      InitInv(p);
    } else {
      ExecInv(p, sched[..|sched| - 1]);
      InvNext(p, Exec(p, sched[..|sched| - 1]), sched[|sched| - 1]);
    }
  }
}
