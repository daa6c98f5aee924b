/** Reading the answer off the finished searches: the scan over all pairs of houses
    and the correction of the maximum. */
module SearchResult {
  import opened Graph
  import opened Search
  import opened SearchInvariant
  import opened SearchMeeting
  import opened SearchTheorems

  /** Some interleaving of the searches has ended in s, all of them having stopped. */
  ghost predicate Finished(p: Problem, s: State) {
    && ValidProblem(p)
    && (exists sched :: Schedule(p, sched) && s == Exec(p, sched))
    && (forall t :: 0 <= t < |s.threads| ==> s.threads[t].pc.Done?)
  }

  /** What is used of that: the invariant, and that all searches have stopped. */
  ghost predicate Stopped(p: Problem, s: State) {
    Inv(p, s) && forall t :: 0 <= t < |s.threads| ==> s.threads[t].pc.Done?
  }

  /** The largest value of the records' depth field. */
  const DEPTH_FIELD_MAX: nat := 65535

  ghost predicate RecordedBy(th: Thread, u: nat) {
    && u in th.info && 1 <= th.info[u].depth < |th.fences| && th.info[u].depth <= DEPTH_FIELD_MAX
    && th.fences[th.info[u].depth - 1] <= |th.queue| && th.fences[th.info[u].depth] <= |th.queue|
  }

  /** Every search has a record of every other one, with its fences. */
  ghost predicate Recorded(s: State) {
    forall t: nat, u: nat :: t < |s.threads| && u < |s.threads| && t != u ==> RecordedBy(s.threads[t], u)
  }

  function Sum(s: State, t: nat, u: nat): (sum: nat)
    requires Recorded(s) && t < |s.threads| && u < |s.threads| && t != u
    ensures sum >= 2
  {
    assert RecordedBy(s.threads[t], u) && RecordedBy(s.threads[u], t);
    MeetingSum(s, t, u)
  }

  /** What the correction looks for: one search's meeting vertex lies one layer
      before the other search's meeting depth. */
  ghost predicate MetEarlier(th: Thread, v: nat, d: nat)
    requires 1 <= d < |th.fences|
  {
    InSegment(th.queue, th.fences[d - 1], th.fences[d], v)
  }

  ghost predicate ShortPair(s: State, t: nat, u: nat)
    requires Recorded(s) && t < |s.threads| && u < |s.threads| && t != u
  {
    assert RecordedBy(s.threads[t], u) && RecordedBy(s.threads[u], t);
    var (r1, r2) := (s.threads[t].info[u], s.threads[u].info[t]);
    MetEarlier(s.threads[u], r1.vid, r2.depth) || MetEarlier(s.threads[t], r2.vid, r1.depth)
  }

  /** Some edge leads from a vertex that one search found before depth d to one that the
      other found before depth d'. */
  ghost predicate EdgeAcross(g: Graph, th: Thread, d: nat, rival: Thread, d': nat)
    requires d < |th.fences| && d' < |rival.fences|
  {
    exists x: nat, y: nat ::
      InSegment(th.queue, 0, th.fences[d], x) && InSegment(rival.queue, 0, rival.fences[d'], y) && x < |g| && y in g[x]
  }

  /** The searches of a pair touch: what a look at whole layers below the meeting depths,
      and not only at the two meeting vertices, would show. */
  ghost predicate Touch(p: Problem, s: State, t: nat, u: nat)
    requires Recorded(s) && t < |s.threads| && u < |s.threads| && t != u
  {
    assert RecordedBy(s.threads[t], u) && RecordedBy(s.threads[u], t);
    EdgeAcross(p.g, s.threads[t], s.threads[t].info[u].depth, s.threads[u], s.threads[u].info[t].depth)
  }

  // --------------------------------------------------------------- the loops

  method ExtremeSums(s: State) returns (min: int, max: int)
    requires Recorded(s)
    ensures forall t: nat, u: nat :: t < u < |s.threads| ==> min <= Sum(s, t, u) <= max
    ensures |s.threads| >= 2 ==> exists t: nat, u: nat :: t < u < |s.threads| && Sum(s, t, u) == min
    ensures |s.threads| >= 2 ==> exists t: nat, u: nat :: t < u < |s.threads| && Sum(s, t, u) == max
    ensures |s.threads| < 2 ==> min == 999999999 && max == 0
  {
    var n := |s.threads|;
    min, max := 999999999, 0;
    ghost var seen := false;
    for i: nat := 0 to n
      invariant forall t: nat, u: nat :: t < i && t < u < n ==> min <= Sum(s, t, u) <= max
      invariant !seen ==> min == 999999999 && max == 0 && (n < 2 || i == 0)
      invariant seen ==> n >= 2
      invariant seen ==> exists t: nat, u: nat :: t < u < n && Sum(s, t, u) == min
      invariant seen ==> exists t: nat, u: nat :: t < u < n && Sum(s, t, u) == max
    {
      for j: nat := i + 1 to n
        invariant forall t: nat, u: nat :: (t < i && t < u < n) || (t == i && t < u < j) ==> min <= Sum(s, t, u) <= max
        invariant !seen ==> min == 999999999 && max == 0 && j == i + 1
        invariant !seen ==> n < 2 || i == 0
        invariant seen ==> n >= 2
        invariant seen ==> exists t: nat, u: nat :: t < u < n && Sum(s, t, u) == min
        invariant seen ==> exists t: nat, u: nat :: t < u < n && Sum(s, t, u) == max
      {
        assert RecordedBy(s.threads[i], j) && RecordedBy(s.threads[j], i);
        var dist := s.threads[i].info[j].depth + s.threads[j].info[i].depth;
        assert dist == Sum(s, i, j);
        if min > dist {
          min := dist;
        }
        if max < dist {
          max := dist;
        }
        seen := true;
      }
    }
  }

  method Candidates(s: State, sum: int) returns (pairs: seq<(nat, nat)>)
    requires Recorded(s)
    ensures forall c :: c in pairs ==> c.0 < c.1 < |s.threads| && Sum(s, c.0, c.1) == sum
    ensures forall t: nat, u: nat :: t < u < |s.threads| && Sum(s, t, u) == sum ==> (t, u) in pairs
    ensures |s.threads| < 2 ==> pairs == []
  {
    var n := |s.threads|;
    pairs := [];
    for i: nat := 0 to n
      invariant n < 2 ==> pairs == []
      invariant forall c :: c in pairs ==> c.0 < c.1 < n && Sum(s, c.0, c.1) == sum
      invariant forall t: nat, u: nat :: t < i && t < u < n && Sum(s, t, u) == sum ==> (t, u) in pairs
    {
      for j: nat := i + 1 to n
        invariant n < 2 ==> pairs == []
        invariant forall c :: c in pairs ==> c.0 < c.1 < n && Sum(s, c.0, c.1) == sum
        invariant forall t: nat, u: nat :: t < i && t < u < n && Sum(s, t, u) == sum ==> (t, u) in pairs
        invariant forall u: nat :: i < u < j && Sum(s, i, u) == sum ==> (i, u) in pairs
      {
        assert RecordedBy(s.threads[i], j) && RecordedBy(s.threads[j], i);
        var dist := s.threads[i].info[j].depth + s.threads[j].info[i].depth;
        assert dist == Sum(s, i, j);
        if dist == sum {
          pairs := pairs + [(i, j)];
        }
      }
    }
  }

  /** The scan between two fences. */
  method FindInSegment(queue: seq<Entry>, lo: nat, hi: nat, v: nat) returns (j: nat)
    requires lo <= |queue| && hi <= |queue|
    ensures j < hi <==> InSegment(queue, lo, hi, v)
  {
    j := lo;
    while j < hi
      invariant lo <= j && (lo <= hi ==> j <= hi)
      invariant forall i :: lo <= i < j && i < hi ==> queue[i] != Vertex(v)
    {
      if queue[j] == Vertex(v) {
        return;
      }
      j := j + 1;
    }
  }

  /** How far the correction gets: past the last candidate exactly if every
      candidate is a short pair. */
  method CorrectMax(s: State, pairs: seq<(nat, nat)>) returns (i: nat)
    requires Recorded(s) && forall c :: c in pairs ==> c.0 < c.1 < |s.threads|
    ensures i <= |pairs|
    ensures i == |pairs| <==> forall k :: 0 <= k < |pairs| ==> ShortPair(s, pairs[k].0, pairs[k].1)
  {
    i := 0;
    while i < |pairs|
      invariant i <= |pairs|
      invariant forall k :: 0 <= k < i ==> ShortPair(s, pairs[k].0, pairs[k].1)
    {
      var (t, u) := pairs[i];
      assert pairs[i] in pairs;
      assert RecordedBy(s.threads[t], u) && RecordedBy(s.threads[u], t);
      var (th, rival) := (s.threads[t], s.threads[u]);
      var (r1, r2) := (th.info[u], rival.info[t]);
      var j := FindInSegment(rival.queue, rival.fences[r2.depth - 1], rival.fences[r2.depth], r1.vid);
      if j < rival.fences[r2.depth] {
        i := i + 1;
        continue;
      }
      j := FindInSegment(th.queue, th.fences[r1.depth - 1], th.fences[r1.depth], r2.vid);
      if j >= th.fences[r1.depth] {
        assert !ShortPair(s, t, u);
        return;
      }
      i := i + 1;
    }
  }

  // ------------------------------------------------------------ what they mean

  /** m is the largest distance between two houses. */
  ghost predicate IsFarthest(p: Problem, m: nat) {
    && (exists t: nat, u: nat :: t < u < |p.houses| && AtDist(p.g, p.houses[t], p.houses[u], m))
    && (forall t: nat, u: nat :: t < u < |p.houses| ==> InBall(p.g, p.houses[t], p.houses[u], m))
  }

  /** m is the smallest distance between two houses. */
  ghost predicate IsNearest(p: Problem, m: nat) {
    && (exists t: nat, u: nat :: t < u < |p.houses| && AtDist(p.g, p.houses[t], p.houses[u], m))
    && (m > 0 ==> forall t: nat, u: nat :: t < u < |p.houses| ==> !InBall(p.g, p.houses[t], p.houses[u], m - 1))
  }

  /** What the pair scan knows about a pair. */
  ghost predicate Bracketed(p: Problem, s: State, t: nat, u: nat)
    requires Recorded(s) && t < u < |s.threads| == |p.houses|
  {
    && InBall(p.g, p.houses[t], p.houses[u], Sum(s, t, u))
    && !InBall(p.g, p.houses[t], p.houses[u], Sum(s, t, u) - 2)
    && (ShortPair(s, t, u) ==> InBall(p.g, p.houses[t], p.houses[u], Sum(s, t, u) - 1))
    && (InBall(p.g, p.houses[t], p.houses[u], Sum(s, t, u) - 1) <==> Touch(p, s, t, u))
    && (ShortPair(s, t, u) <==> Early(p, s, t, u))
  }

  /** No record's depth overflows its field, so the stored value is the depth. */
  ghost predicate DepthsFit(s: State) {
    forall t: nat, u :: t < |s.threads| && u in s.threads[t].info ==> s.threads[t].info[u].depth <= DEPTH_FIELD_MAX
  }

  /** Before the run: the depths fit if the field can count the vertices. */
  lemma SmallGraphFits(p: Problem, s: State)
    requires Finished(p, s) && |p.g| <= DEPTH_FIELD_MAX + 1
    ensures DepthsFit(s)
  {
    var sched :| Schedule(p, sched) && s == Exec(p, sched);
    ExecInv(p, sched);
    forall t: nat, u | t < |s.threads| && u in s.threads[t].info ensures s.threads[t].info[u].depth <= DEPTH_FIELD_MAX {
      assert ThreadOk(p, s, t) && PairOk(p, s, t, u);
      DistBelowSize(p.g, p.houses[t], s.threads[t].info[u].vid, s.threads[t].info[u].depth);
    }
  }

  lemma StoppedRecorded(p: Problem, s: State)
    requires Stopped(p, s) && DepthsFit(s)
    ensures Recorded(s)
  {
    forall t: nat, u: nat | t < |s.threads| && u < |s.threads| && t != u ensures RecordedBy(s.threads[t], u) {
      StoppedHasMetAll(p, s, t, u);
      FenceInside(p, s, t, s.threads[t].info[u].depth - 1);
      FenceInside(p, s, t, s.threads[t].info[u].depth);
    }
  }

  lemma FenceInside(p: Problem, s: State, t: nat, k: nat)
    requires Inv(p, s) && t < |s.threads| && k < |s.threads[t].fences|
    ensures s.threads[t].fences[k] <= |s.threads[t].queue|
  {
    assert ThreadOk(p, s, t);
    var th := s.threads[t];
    if k > 0 {
      assert Closes(p.g, p.houses[t], th.queue, th.fences[k], k - 1);
    }
  }

  /** What the scan between two fences finds, in terms of distances. */
  lemma MetEarlierIs(p: Problem, s: State, u: nat, d: nat, v: nat)
    requires Stopped(p, s) && u < |s.threads| && 1 <= d < |s.threads[u].fences|
    ensures MetEarlier(s.threads[u], v, d) <==> AtDist(p.g, p.houses[u], v, d - 1)
  {
    assert ThreadOk(p, s, u);
    SegmentIsLayer(p.g, p.houses[u], s.threads[u], d - 1, v);
  }

  /** One of the two meeting vertices is one edge nearer to the other search's house than
      that search's meeting depth. */
  ghost predicate Early(p: Problem, s: State, t: nat, u: nat)
    requires Recorded(s) && t < |s.threads| == |p.houses| && u < |s.threads| && t != u
  {
    assert RecordedBy(s.threads[t], u) && RecordedBy(s.threads[u], t);
    var (r1, r2) := (s.threads[t].info[u], s.threads[u].info[t]);
    AtDist(p.g, p.houses[u], r1.vid, r2.depth - 1) || AtDist(p.g, p.houses[t], r2.vid, r1.depth - 1)
  }

  lemma ShortIsEarly(p: Problem, s: State, t: nat, u: nat)
    requires Stopped(p, s) && Recorded(s) && t < u < |s.threads|
    ensures ShortPair(s, t, u) <==> Early(p, s, t, u)
  {
    assert RecordedBy(s.threads[t], u) && RecordedBy(s.threads[u], t);
    var (r1, r2) := (s.threads[t].info[u], s.threads[u].info[t]);
    MetEarlierIs(p, s, u, r2.depth, r1.vid);
    MetEarlierIs(p, s, t, r1.depth, r2.vid);
  }

  /** A meeting vertex one layer early gives a way that is one edge shorter. */
  lemma EarlierIsShorter(p: Problem, s: State, t: nat, u: nat)
    requires Stopped(p, s) && Recorded(s) && t < |s.threads| && u < |s.threads| && t != u
    requires RecordedBy(s.threads[t], u) && RecordedBy(s.threads[u], t)
    requires MetEarlier(s.threads[u], s.threads[t].info[u].vid, s.threads[u].info[t].depth)
    ensures InBall(p.g, p.houses[t], p.houses[u], Sum(s, t, u) - 1)
  {
    var (a, b) := (p.houses[t], p.houses[u]);
    var (r1, r2) := (s.threads[t].info[u], s.threads[u].info[t]);
    PairFacts(p, s, t, u);
    MetEarlierIs(p, s, u, r2.depth, r1.vid);
    BallSymmetric(p.g, b, r1.vid, r2.depth - 1);
    BallJoin(p.g, a, r1.vid, b, r1.depth, r2.depth - 1);
  }

  /** Joining two balls over an edge, ... */
  lemma EdgeJoins(g: Graph, a: nat, b: nat, x: nat, y: nat, m: nat, n: nat)
    requires Undirected(g) && b < |g| && InBall(g, a, x, m) && x < |g| && y in g[x] && InBall(g, b, y, n)
    ensures InBall(g, a, b, m + n + 1)
  {
    assert InBall(g, a, y, m + 1);
    BallSymmetric(g, b, y, n);
    BallJoin(g, a, y, b, m + 1, n);
  }

  /** ... and finding that edge on a way that no shorter one replaces. */
  lemma EdgeBetween(g: Graph, a: nat, b: nat, m: nat, n: nat) returns (x: nat, y: nat)
    requires Undirected(g) && a < |g| && InBall(g, a, b, m + n + 1) && !InBall(g, a, b, m + n)
    ensures InBall(g, a, x, m) && x < |g| && y in g[x] && InBall(g, b, y, n)
  {
    y := BallSplit(g, a, b, m + 1, n);
    if InBall(g, a, y, m) {
      BallJoin(g, a, y, b, m, n);
    }
    x :| x < |g| && InBall(g, a, x, m) && y in g[x];
    BallSymmetric(g, a, y, m + 1);
    BallSymmetric(g, y, b, n);
  }

  /** The slots before fence d hold the ball of radius d - 1. */
  ghost predicate BallBefore(g: Graph, a: nat, th: Thread, d: nat) {
    && 1 <= d < |th.fences|
    && forall v: nat :: InSegment(th.queue, 0, th.fences[d], v) <==> InBall(g, a, v, d - 1)
  }

  lemma AcrossIsBall(g: Graph, a: nat, th: Thread, d: nat, b: nat, rival: Thread, d': nat)
    requires Undirected(g) && a < |g| && b < |g| && BallBefore(g, a, th, d) && BallBefore(g, b, rival, d')
    requires !InBall(g, a, b, d + d' - 2)
    ensures InBall(g, a, b, d + d' - 1) <==> EdgeAcross(g, th, d, rival, d')
  {
    if InBall(g, a, b, d + d' - 1) {
      var x, y := EdgeBetween(g, a, b, d - 1, d' - 1);
      assert InSegment(th.queue, 0, th.fences[d], x) && InSegment(rival.queue, 0, rival.fences[d'], y);
    }
    if EdgeAcross(g, th, d, rival, d') {
      var x: nat, y: nat :| InSegment(th.queue, 0, th.fences[d], x)
        && InSegment(rival.queue, 0, rival.fences[d'], y) && x < |g| && y in g[x];
      EdgeJoins(g, a, b, x, y, d - 1, d' - 1);
    }
  }

  lemma MetBallBefore(p: Problem, s: State, t: nat, u: nat)
    requires Stopped(p, s) && t < |s.threads| && u < |s.threads| && t != u && RecordedBy(s.threads[t], u)
    ensures BallBefore(p.g, p.houses[t], s.threads[t], s.threads[t].info[u].depth)
  {
    assert ThreadOk(p, s, t);
    forall v: nat {
      FrontIsBall(p.g, p.houses[t], s.threads[t], s.threads[t].info[u].depth - 1, v);
    }
  }

  lemma TouchFrom(p: Problem, s: State, t: nat, u: nat)
    requires Recorded(s) && t < u < |s.threads| == |p.houses| && Undirected(p.g)
    requires p.houses[t] < |p.g| && p.houses[u] < |p.g|
    requires RecordedBy(s.threads[t], u) && BallBefore(p.g, p.houses[t], s.threads[t], s.threads[t].info[u].depth)
    requires RecordedBy(s.threads[u], t) && BallBefore(p.g, p.houses[u], s.threads[u], s.threads[u].info[t].depth)
    requires !InBall(p.g, p.houses[t], p.houses[u], Sum(s, t, u) - 2)
    ensures InBall(p.g, p.houses[t], p.houses[u], Sum(s, t, u) - 1) <==> Touch(p, s, t, u)
  {
    AcrossIsBall(p.g, p.houses[t], s.threads[t], s.threads[t].info[u].depth,
                 p.houses[u], s.threads[u], s.threads[u].info[t].depth);
  }

  /** A pair is one closer than its sum exactly if its searches touch. */
  lemma TouchExact(p: Problem, s: State, t: nat, u: nat)
    requires Stopped(p, s) && Recorded(s) && t < u < |s.threads|
    ensures InBall(p.g, p.houses[t], p.houses[u], Sum(s, t, u) - 1) <==> Touch(p, s, t, u)
  {
    assert RecordedBy(s.threads[t], u) && RecordedBy(s.threads[u], t);
    MeetingBoundAt(p, s, t, u);
    MetBallBefore(p, s, t, u);
    MetBallBefore(p, s, u, t);
    TouchFrom(p, s, t, u);
  }

  lemma PairBracketed(p: Problem, s: State, t: nat, u: nat)
    requires Stopped(p, s) && Recorded(s) && t < u < |s.threads|
    ensures Bracketed(p, s, t, u)
  {
    assert RecordedBy(s.threads[t], u) && RecordedBy(s.threads[u], t);
    MeetingBoundAt(p, s, t, u);
    TouchExact(p, s, t, u);
    ShortIsEarly(p, s, t, u);
    if ShortPair(s, t, u) {
      ShortIsShorter(p, s, t, u);
    }
  }

  lemma ShortIsShorter(p: Problem, s: State, t: nat, u: nat)
    requires Stopped(p, s) && Recorded(s) && t < u < |s.threads| && ShortPair(s, t, u)
    ensures InBall(p.g, p.houses[t], p.houses[u], Sum(s, t, u) - 1)
  {
    assert RecordedBy(s.threads[t], u) && RecordedBy(s.threads[u], t);
    if MetEarlier(s.threads[u], s.threads[t].info[u].vid, s.threads[u].info[t].depth) {
      EarlierIsShorter(p, s, t, u);
    } else {
      EarlierIsShorter(p, s, u, t);
      BallSymmetric(p.g, p.houses[u], p.houses[t], Sum(s, u, t) - 1);
    }
  }

  ghost predicate AllBracketed(p: Problem, s: State)
    requires Recorded(s) && |s.threads| == |p.houses|
  {
    forall t: nat, u: nat :: t < u < |s.threads| ==> Bracketed(p, s, t, u)
  }

  /** The largest sum is the largest distance or one more. */
  lemma FarthestNear(p: Problem, s: State, max: nat)
    requires Recorded(s) && |s.threads| == |p.houses| && AllBracketed(p, s)
    requires forall t: nat, u: nat :: t < u < |s.threads| ==> Sum(s, t, u) <= max
    requires exists t: nat, u: nat :: t < u < |s.threads| && Sum(s, t, u) == max
    ensures max >= 1 && (IsFarthest(p, max) || IsFarthest(p, max - 1))
  {
    var t0: nat, u0: nat :| t0 < u0 < |s.threads| && Sum(s, t0, u0) == max;
    assert Bracketed(p, s, t0, u0);
    forall t: nat, u: nat | t < u < |p.houses| ensures InBall(p.g, p.houses[t], p.houses[u], max) {
      assert Bracketed(p, s, t, u);
      BallMono(p.g, p.houses[t], p.houses[u], Sum(s, t, u), max);
    }
    if t: nat, u: nat :| t < u < |p.houses| && !InBall(p.g, p.houses[t], p.houses[u], max - 1) {
      assert AtDist(p.g, p.houses[t], p.houses[u], max);
    } else {
      assert AtDist(p.g, p.houses[t0], p.houses[u0], max - 1);
    }
  }

  /** There is only one largest distance, ... */
  lemma FarthestUnique(p: Problem, m: nat, n: nat)
    requires IsFarthest(p, m) && IsFarthest(p, n)
    ensures m == n
  {
    if m < n { FarthestNotBelow(p, m, n); }
    if n < m { FarthestNotBelow(p, n, m); }
  }

  lemma FarthestNotBelow(p: Problem, m: nat, n: nat)
    requires m < n && IsFarthest(p, m)
    ensures !IsFarthest(p, n)
  {
    forall t: nat, u: nat | t < u < |p.houses| ensures !AtDist(p.g, p.houses[t], p.houses[u], n) {
      BallMono(p.g, p.houses[t], p.houses[u], m, n - 1);
    }
  }

  /** ... and only one smallest. */
  lemma NearestUnique(p: Problem, m: nat, n: nat)
    requires IsNearest(p, m) && IsNearest(p, n)
    ensures m == n
  {
    if m < n { NearestNotAbove(p, m, n); }
    if n < m { NearestNotAbove(p, n, m); }
  }

  lemma NearestNotAbove(p: Problem, m: nat, n: nat)
    requires m < n && IsNearest(p, m)
    ensures !IsNearest(p, n)
  {
    var t: nat, u: nat :| t < u < |p.houses| && AtDist(p.g, p.houses[t], p.houses[u], m);
    BallMono(p.g, p.houses[t], p.houses[u], m, n - 1);
  }

  /** If all pairs with the largest sum are short, the largest distance is one less. */
  lemma FarthestExact(p: Problem, s: State, max: nat)
    requires Recorded(s) && |s.threads| == |p.houses| && AllBracketed(p, s)
    requires forall t: nat, u: nat :: t < u < |s.threads| ==> Sum(s, t, u) <= max
    requires exists t: nat, u: nat :: t < u < |s.threads| && Sum(s, t, u) == max
    requires forall t: nat, u: nat :: t < u < |s.threads| && Sum(s, t, u) == max ==> ShortPair(s, t, u)
    ensures max >= 1 && IsFarthest(p, max - 1)
  {
    var t0: nat, u0: nat :| t0 < u0 < |s.threads| && Sum(s, t0, u0) == max;
    assert Bracketed(p, s, t0, u0);
    forall t: nat, u: nat | t < u < |p.houses| ensures InBall(p.g, p.houses[t], p.houses[u], max - 1) {
      assert Bracketed(p, s, t, u);
      if Sum(s, t, u) < max {
        BallMono(p.g, p.houses[t], p.houses[u], Sum(s, t, u), max - 1);
      }
    }
    assert AtDist(p.g, p.houses[t0], p.houses[u0], max - 1);
  }

  /** The smallest sum is the smallest distance or one more. */
  lemma NearestNear(p: Problem, s: State, min: nat)
    requires Recorded(s) && |s.threads| == |p.houses| && AllBracketed(p, s)
    requires SmallestSum(s, min)
    ensures min >= 1 && (IsNearest(p, min) || IsNearest(p, min - 1))
  {
    var t0: nat, u0: nat :| t0 < u0 < |s.threads| && Sum(s, t0, u0) == min;
    assert Bracketed(p, s, t0, u0);
    forall t: nat, u: nat | t < u < |p.houses| ensures !InBall(p.g, p.houses[t], p.houses[u], min - 2) {
      assert Bracketed(p, s, t, u);
      if InBall(p.g, p.houses[t], p.houses[u], min - 2) {
        BallMono(p.g, p.houses[t], p.houses[u], min - 2, Sum(s, t, u) - 2);
      }
    }
    if t: nat, u: nat :| t < u < |p.houses| && InBall(p.g, p.houses[t], p.houses[u], min - 1) {
      assert AtDist(p.g, p.houses[t], p.houses[u], min - 1);
    } else {
      assert AtDist(p.g, p.houses[t0], p.houses[u0], min);
    }
  }

  lemma CandidatesShort(s: State, pairs: seq<(nat, nat)>, max: int)
    requires Recorded(s) && forall c :: c in pairs ==> c.0 < c.1 < |s.threads| && Sum(s, c.0, c.1) == max
    requires forall t: nat, u: nat :: t < u < |s.threads| && Sum(s, t, u) == max ==> (t, u) in pairs
    ensures AllShort(s, max) <==> forall k :: 0 <= k < |pairs| ==> ShortPair(s, pairs[k].0, pairs[k].1)
  {
    if forall k :: 0 <= k < |pairs| ==> ShortPair(s, pairs[k].0, pairs[k].1) {
      forall t: nat, u: nat | t < u < |s.threads| && Sum(s, t, u) == max ensures ShortPair(s, t, u) {
        var k :| 0 <= k < |pairs| && pairs[k] == (t, u);
      }
    }
    if AllShort(s, max) {
      forall k | 0 <= k < |pairs| ensures ShortPair(s, pairs[k].0, pairs[k].1) {
        assert pairs[k] in pairs;
      }
    }
  }

  ghost predicate SmallestSum(s: State, min: int)
    requires Recorded(s)
  {
    && (forall t: nat, u: nat :: t < u < |s.threads| ==> min <= Sum(s, t, u))
    && (exists t: nat, u: nat :: t < u < |s.threads| && Sum(s, t, u) == min)
  }

  ghost predicate LargestSum(s: State, top: int)
    requires Recorded(s)
  {
    && (forall t: nat, u: nat :: t < u < |s.threads| ==> Sum(s, t, u) <= top)
    && (exists t: nat, u: nat :: t < u < |s.threads| && Sum(s, t, u) == top)
  }

  /** Every pair with the largest sum is short: the condition for the correction. */
  ghost predicate AllShort(s: State, top: int)
    requires Recorded(s)
  {
    forall t: nat, u: nat :: t < u < |s.threads| && Sum(s, t, u) == top ==> ShortPair(s, t, u)
  }

  /** Every pair with the largest sum has an early meeting vertex. */
  ghost predicate AllEarly(p: Problem, s: State, top: int)
    requires Recorded(s) && |s.threads| == |p.houses|
  {
    forall t: nat, u: nat :: t < u < |s.threads| && Sum(s, t, u) == top ==> Early(p, s, t, u)
  }

  lemma AllShortIs(p: Problem, s: State, top: int)
    requires Recorded(s) && |s.threads| == |p.houses| && AllBracketed(p, s)
    ensures AllShort(s, top) <==> AllEarly(p, s, top)
  {
    forall t: nat, u: nat | t < u < |s.threads| ensures ShortPair(s, t, u) <==> Early(p, s, t, u) {
      assert Bracketed(p, s, t, u);
    }
  }

  lemma TopIsFarthest(p: Problem, s: State, top: nat, t0: nat, u0: nat)
    requires Recorded(s) && |s.threads| == |p.houses| && AllBracketed(p, s) && LargestSum(s, top)
    requires t0 < u0 < |s.threads| && Sum(s, t0, u0) == top && top >= 1
    requires !InBall(p.g, p.houses[t0], p.houses[u0], top - 1)
    ensures IsFarthest(p, top)
  {
    forall t: nat, u: nat | t < u < |p.houses| ensures InBall(p.g, p.houses[t], p.houses[u], top) {
      assert Bracketed(p, s, t, u);
      BallMono(p.g, p.houses[t], p.houses[u], Sum(s, t, u), top);
    }
    assert AtDist(p.g, p.houses[t0], p.houses[u0], top);
  }

  lemma FarthestIsTop(p: Problem, s: State, top: nat) returns (t: nat, u: nat)
    requires Recorded(s) && |s.threads| == |p.houses| && AllBracketed(p, s) && LargestSum(s, top)
    requires top >= 1 && IsFarthest(p, top)
    ensures t < u < |s.threads| && Sum(s, t, u) == top && !InBall(p.g, p.houses[t], p.houses[u], top - 1)
  {
    t, u :| t < u < |p.houses| && AtDist(p.g, p.houses[t], p.houses[u], top);
    assert Bracketed(p, s, t, u);
    if Sum(s, t, u) < top {
      BallMono(p.g, p.houses[t], p.houses[u], Sum(s, t, u), top - 1);
    }
  }

  /** Some pair with the largest sum does not touch. */
  ghost predicate SomeApart(p: Problem, s: State, top: int)
    requires Recorded(s)
  {
    exists t: nat, u: nat :: t < u < |s.threads| && Sum(s, t, u) == top && !Touch(p, s, t, u)
  }

  /** The maximum the program prints is exact if and only if the correction applies or
      some pair with the largest sum does not touch. */
  lemma PrintedMaxExact(p: Problem, s: State, top: nat)
    requires Recorded(s) && |s.threads| == |p.houses| && AllBracketed(p, s) && LargestSum(s, top) && top >= 1
    ensures IsFarthest(p, if AllShort(s, top) then top - 1 else top) <==> AllShort(s, top) || SomeApart(p, s, top)
  {
    if AllShort(s, top) {
      FarthestExact(p, s, top);
    } else {
      if IsFarthest(p, top) {
        var t, u := FarthestIsTop(p, s, top);
        assert Bracketed(p, s, t, u);
      }
      if SomeApart(p, s, top) {
        var t: nat, u: nat :| t < u < |s.threads| && Sum(s, t, u) == top && !Touch(p, s, t, u);
        assert Bracketed(p, s, t, u);
        TopIsFarthest(p, s, top, t, u);
      }
    }
  }

  /** The smallest sum is the smallest distance if and only if no pair with that sum
      touches; otherwise the smallest distance is one less. */
  lemma SmallestSumExact(p: Problem, s: State, min: nat)
    requires Recorded(s) && |s.threads| == |p.houses| && AllBracketed(p, s)
    requires SmallestSum(s, min)
    ensures min >= 1
    ensures IsNearest(p, min) <==>
            forall t: nat, u: nat :: t < u < |s.threads| && Sum(s, t, u) == min ==> !Touch(p, s, t, u)
  {
    var t0: nat, u0: nat :| t0 < u0 < |s.threads| && Sum(s, t0, u0) == min;
    assert Bracketed(p, s, t0, u0);
    if IsNearest(p, min) {
      forall t: nat, u: nat | t < u < |s.threads| && Sum(s, t, u) == min ensures !Touch(p, s, t, u) {
        assert Bracketed(p, s, t, u);
      }
    }
    if forall t: nat, u: nat :: t < u < |s.threads| && Sum(s, t, u) == min ==> !Touch(p, s, t, u) {
      forall t: nat, u: nat | t < u < |p.houses| ensures !InBall(p.g, p.houses[t], p.houses[u], min - 1) {
        assert Bracketed(p, s, t, u);
        if Sum(s, t, u) > min && InBall(p.g, p.houses[t], p.houses[u], min - 1) {
          BallMono(p.g, p.houses[t], p.houses[u], min - 1, Sum(s, t, u) - 2);
        }
      }
      assert AtDist(p.g, p.houses[t0], p.houses[u0], min);
    }
  }

  lemma StoppedBracketed(p: Problem, s: State)
    requires Stopped(p, s) && DepthsFit(s)
    ensures Recorded(s) && |s.threads| == |p.houses| && AllBracketed(p, s)
  {
    StoppedRecorded(p, s);
    forall t: nat, u: nat | t < u < |s.threads| ensures Bracketed(p, s, t, u) {
      PairBracketed(p, s, t, u);
    }
  }

  lemma FinishedBracketed(p: Problem, s: State)
    requires Finished(p, s) && DepthsFit(s)
    ensures Recorded(s) && |s.threads| == |p.houses| && AllBracketed(p, s)
  {
    var sched :| Schedule(p, sched) && s == Exec(p, sched);
    ExecInv(p, sched);
    StoppedBracketed(p, s);
  }
}
