/** What holds of the searches in every interleaving. */
module SearchTheorems {
  import opened Graph
  import opened Search
  import opened SearchInvariant
  import opened SearchMeeting

  // ------------------------------------------------------------------ layers

  ghost predicate InSegment(queue: seq<Entry>, lo: nat, hi: nat, v: nat) {
    exists j :: lo <= j < hi && j < |queue| && queue[j] == Vertex(v)
  }

  lemma SegmentIsLayer(g: Graph, a: nat, th: Thread, k: nat, v: nat)
    requires BfsOk(g, a, th) && k < th.depth
    ensures InSegment(th.queue, th.fences[k], th.fences[k + 1], v) <==> AtDist(g, a, v, k)
  {
    assert Closes(g, a, th.queue, th.fences[k + 1], k);
    if k > 0 {
      assert Closes(g, a, th.queue, th.fences[k], k - 1);
    }
    if AtDist(g, a, v, k) {
      BallMono(g, a, v, k, th.depth);
      assert InQueue(th.queue, v);
      var j :| 0 <= j < |th.queue| && th.queue[j] == Vertex(v);
    }
  }

  /** In front of a recorded fence lies the whole ball it closes. */
  lemma FrontIsBall(g: Graph, a: nat, th: Thread, k: nat, v: nat)
    requires BfsOk(g, a, th) && k < th.depth
    ensures InSegment(th.queue, 0, th.fences[k + 1], v) <==> InBall(g, a, v, k)
  {
    assert Closes(g, a, th.queue, th.fences[k + 1], k);
    if InBall(g, a, v, k) {
      BallMono(g, a, v, k, th.depth);
      assert InQueue(th.queue, v);
      var j :| 0 <= j < |th.queue| && th.queue[j] == Vertex(v);
    }
  }

  /** Between two consecutive recorded fences lie exactly the vertices at that
      distance from the thread's house, and no vertex is queued twice, whatever the
      other threads write into the shared flags. */
  lemma LayersExact(p: Problem, sched: seq<nat>, t: nat, k: nat, v: nat)
    requires ValidProblem(p) && Schedule(p, sched) && t < |p.houses|
    requires k + 1 < |Exec(p, sched).threads[t].fences|
    ensures var th := Exec(p, sched).threads[t];
            && (InSegment(th.queue, th.fences[k], th.fences[k + 1], v) <==> AtDist(p.g, p.houses[t], v, k))
            && NoRepeats(th.queue)
  {
    ExecInv(p, sched);
    assert ThreadOk(p, Exec(p, sched), t);
    SegmentIsLayer(p.g, p.houses[t], Exec(p, sched).threads[t], k, v);
  }

  // ---------------------------------------------------------------- meetings

  /** The sum of the two first-meeting depths. */
  function MeetingSum(s: State, t: nat, u: nat): nat
    requires t < |s.threads| && u < |s.threads| && u in s.threads[t].info && t in s.threads[u].info
  {
    s.threads[t].info[u].depth + s.threads[u].info[t].depth
  }

  /** Were the houses closer than that, both searches would have found a common
      vertex too early for either to have noticed the other there. */
  lemma NotCloser(g: Graph, a: nat, th: Thread, t: nat, b: nat, rival: Thread, u: nat)
    requires Undirected(g) && a < |g| && b < |g|
    requires u in th.info && 1 <= th.info[u].depth <= th.depth + 1
    requires t in rival.info && 1 <= rival.info[t].depth <= rival.depth + 1
    requires Complete(g, a, th.queue, th.depth) && Complete(g, b, rival.queue, rival.depth)
    requires MeetOk(g, a, th, t, b, rival, u)
    ensures !InBall(g, a, b, th.info[u].depth + rival.info[t].depth - 2)
  {
    var (m, n) := (th.info[u].depth - 1, rival.info[t].depth - 1);
    if InBall(g, a, b, m + n) {
      var v := BallSplit(g, a, b, m, n);
      BallSymmetric(g, a, v, m);
      BallSymmetric(g, v, b, n);
      BallMono(g, a, v, m, th.depth);
      BallMono(g, b, v, n, rival.depth);
      assert false;
    }
  }

  lemma PairFacts(p: Problem, s: State, t: nat, u: nat)
    requires Inv(p, s) && t < |s.threads| && u < |s.threads| && t != u
    ensures Tied(p.g, p.houses[t], s.threads[t], t, p.houses[u], s.threads[u], u)
    ensures Complete(p.g, p.houses[t], s.threads[t].queue, s.threads[t].depth)
  {
    assert ThreadOk(p, s, t) && PairOk(p, s, t, u);
  }

  /** The two meeting depths of a pair bracket its distance. */
  lemma TiedBound(g: Graph, a: nat, th: Thread, t: nat, b: nat, rival: Thread, u: nat)
    requires Undirected(g) && a < |g| && b < |g| && u in th.info && t in rival.info
    requires Tied(g, a, th, t, b, rival, u) && Tied(g, b, rival, u, a, th, t)
    requires Complete(g, a, th.queue, th.depth) && Complete(g, b, rival.queue, rival.depth)
    ensures 2 <= th.info[u].depth + rival.info[t].depth
    ensures InBall(g, a, b, th.info[u].depth + rival.info[t].depth)
    ensures !InBall(g, a, b, th.info[u].depth + rival.info[t].depth - 2)
  {
    NotCloser(g, a, th, t, b, rival, u);
  }

  lemma MeetingBoundAt(p: Problem, s: State, t: nat, u: nat)
    requires Inv(p, s) && t < |s.threads| && u < |s.threads| && t != u
    requires u in s.threads[t].info && t in s.threads[u].info
    ensures MeetingSum(s, t, u) >= 2
    ensures InBall(p.g, p.houses[t], p.houses[u], MeetingSum(s, t, u))
    ensures !InBall(p.g, p.houses[t], p.houses[u], MeetingSum(s, t, u) - 2)
  {
    PairFacts(p, s, t, u);
    PairFacts(p, s, u, t);
    TiedBound(p.g, p.houses[t], s.threads[t], t, p.houses[u], s.threads[u], u);
  }

  lemma Bracket(g: Graph, a: nat, b: nat, sum: nat, d: nat)
    requires sum >= 2 && InBall(g, a, b, sum) && !InBall(g, a, b, sum - 2) && AtDist(g, a, b, d)
    ensures sum - 1 <= d <= sum
  {
    if d > sum {
      BallMono(g, a, b, sum, d - 1);
    } else if d < sum - 1 {
      BallMono(g, a, b, d, sum - 2);
    }
  }

  /** If t first met u at depth D1 and u first met t at depth D2, the distance of
      their houses is D1 + D2 or D1 + D2 - 1, in every interleaving. */
  lemma MeetingBound(p: Problem, sched: seq<nat>, t: nat, u: nat, d: nat)
    requires ValidProblem(p) && Schedule(p, sched) && t < |p.houses| && u < |p.houses| && t != u
    requires u in Exec(p, sched).threads[t].info && t in Exec(p, sched).threads[u].info
    requires AtDist(p.g, p.houses[t], p.houses[u], d)
    ensures MeetingSum(Exec(p, sched), t, u) - 1 <= d <= MeetingSum(Exec(p, sched), t, u)
  {
    ExecInv(p, sched);
    MeetingBoundAt(p, Exec(p, sched), t, u);
    Bracket(p.g, p.houses[t], p.houses[u], MeetingSum(Exec(p, sched), t, u), d);
  }

  // -------------------------------------------------------------- termination

  /** A search that has stopped has met every other one, at a depth whose fence it
      has recorded. */
  lemma StoppedHasMetAll(p: Problem, s: State, t: nat, u: nat)
    requires Inv(p, s) && t < |s.threads| && u < |s.threads| && t != u && s.threads[t].pc.Done?
    ensures u in s.threads[t].info && 1 <= s.threads[t].info[u].depth < |s.threads[t].fences|
  {
    assert ThreadOk(p, s, t) && PairOk(p, s, t, u);
  }

  /** No search goes deeper than the farthest house: beyond depth 1 it is only ever
      at a depth that some house is at least that far away. */
  lemma DepthBounded(p: Problem, sched: seq<nat>, t: nat)
    requires ValidProblem(p) && Schedule(p, sched) && t < |p.houses|
    ensures var d := Exec(p, sched).threads[t].depth;
            d >= 2 ==> exists u :: 0 <= u < |p.houses| && !InBall(p.g, p.houses[t], p.houses[u], d - 1)
  {
    ExecInv(p, sched);
    var s := Exec(p, sched);
    assert ThreadOk(p, s, t);
    var th := s.threads[t];
    if th.depth >= 2 && !th.pc.Done? {
      var u :| 0 <= u < |p.houses| && !InBall(p.g, p.houses[t], p.houses[u], th.depth);
      if InBall(p.g, p.houses[t], p.houses[u], th.depth - 1) {
        BallMono(p.g, p.houses[t], p.houses[u], th.depth - 1, th.depth);
      }
    }
  }

}
