/** Distances in an undirected graph given by adjacency lists. */
module Graph {

  type Graph = seq<seq<nat>>

  /** Lists name vertices of the graph, and every edge is listed at both ends. */
  ghost predicate Undirected(g: Graph) {
    && (forall u, i :: 0 <= u < |g| && 0 <= i < |g[u]| ==> g[u][i] < |g|)
    && (forall u, v :: 0 <= u < |g| && 0 <= v < |g| && v in g[u] ==> u in g[v])
  }

  /** v can be reached from a over at most n edges. */
  ghost predicate InBall(g: Graph, a: nat, v: nat, n: nat)
    decreases n
  {
    if n == 0 then v == a
    else InBall(g, a, v, n - 1) || exists u: nat :: u < |g| && InBall(g, a, u, n - 1) && v in g[u]
  }

  /** The distance from a to v is exactly n. */
  ghost predicate AtDist(g: Graph, a: nat, v: nat, n: nat) {
    InBall(g, a, v, n) && (n > 0 ==> !InBall(g, a, v, n - 1))
  }

  /** A walk along edges. */
  ghost predicate IsWalk(g: Graph, p: seq<nat>) {
    && p != []
    && forall i :: 0 <= i < |p| - 1 ==> p[i] < |g| && p[i + 1] in g[p[i]]
  }

  /** Balls are what they should be: the ends of short walks. */
  lemma {:induction false} BallIsWalk(g: Graph, a: nat, v: nat, n: nat)
    ensures InBall(g, a, v, n) <==> exists p :: IsWalk(g, p) && p[0] == a && p[|p| - 1] == v && |p| <= n + 1
    decreases n
  {
    if InBall(g, a, v, n) {
      var p := BallWalk(g, a, v, n);
    }
    forall p | IsWalk(g, p) && p[0] == a && p[|p| - 1] == v && |p| <= n + 1 ensures InBall(g, a, v, n) {
      WalkBall(g, p);
      BallMono(g, a, v, |p| - 1, n);
    }
  }

  lemma {:induction false} BallWalk(g: Graph, a: nat, v: nat, n: nat) returns (p: seq<nat>)
    requires InBall(g, a, v, n)
    ensures IsWalk(g, p) && p[0] == a && p[|p| - 1] == v && |p| <= n + 1
    decreases n
  {
    if n == 0 {
      p := [a];
    } else if InBall(g, a, v, n - 1) {
      p := BallWalk(g, a, v, n - 1);
    } else {
      var u: nat :| u < |g| && InBall(g, a, u, n - 1) && v in g[u];
      p := BallWalk(g, a, u, n - 1);
      p := p + [v];
    }
  }

  lemma {:induction false} WalkBall(g: Graph, p: seq<nat>)
    requires IsWalk(g, p)
    ensures InBall(g, p[0], p[|p| - 1], |p| - 1)
    decreases |p|
  {
    if |p| > 1 {
      WalkBall(g, p[..|p| - 1]);
    }
  }

  lemma {:induction false} BallMono(g: Graph, a: nat, v: nat, m: nat, n: nat)
    requires InBall(g, a, v, m) && m <= n
    ensures InBall(g, a, v, n)
    decreases n
  {
    if m < n {
      BallMono(g, a, v, m, n - 1);
    }
  }

  lemma {:induction false} BallJoin(g: Graph, a: nat, u: nat, b: nat, m: nat, n: nat)
    requires InBall(g, a, u, m) && InBall(g, u, b, n)
    ensures InBall(g, a, b, m + n)
    decreases n
  {
    if n > 0 {
      if InBall(g, u, b, n - 1) {
        BallJoin(g, a, u, b, m, n - 1);
      } else {
        var w: nat :| w < |g| && InBall(g, u, w, n - 1) && b in g[w];
        BallJoin(g, a, u, w, m, n - 1);
      }
    }
  }

  lemma {:induction false} BallSymmetric(g: Graph, a: nat, b: nat, n: nat)
    requires Undirected(g) && a < |g| && InBall(g, a, b, n)
    ensures b < |g| && InBall(g, b, a, n)
    decreases n
  {
    if n > 0 {
      if InBall(g, a, b, n - 1) {
        BallSymmetric(g, a, b, n - 1);
      } else {
        var u: nat :| u < |g| && InBall(g, a, u, n - 1) && b in g[u];
        var i :| 0 <= i < |g[u]| && g[u][i] == b;
        BallSymmetric(g, a, u, n - 1);
        assert InBall(g, b, b, 0) && u in g[b];
        assert InBall(g, b, u, 1);
        BallJoin(g, b, u, a, 1, n - 1);
      }
    }
  }

  /** A shortest way can be broken anywhere. */
  lemma {:induction false} BallSplit(g: Graph, a: nat, b: nat, m: nat, n: nat) returns (u: nat)
    requires InBall(g, a, b, m + n)
    ensures InBall(g, a, u, m) && InBall(g, u, b, n)
    decreases n
  {
    if n == 0 {
      u := b;
    } else if InBall(g, a, b, m + n - 1) {
      u := BallSplit(g, a, b, m, n - 1);
    } else {
      var w: nat :| w < |g| && InBall(g, a, w, m + n - 1) && b in g[w];
      u := BallSplit(g, a, w, m, n - 1);
    }
  }

  // ------------------------------------------------- distances are below |g|

  ghost function Ball(g: Graph, a: nat, n: nat): set<nat> {
    set v: nat | v < |g| && InBall(g, a, v, n)
  }

  lemma {:induction false} BoundedSize(s: set<nat>, n: nat)
    requires forall x :: x in s ==> x < n
    ensures |s| <= n
  {
    if n == 0 {
      assert s == {};
    } else {
      BoundedSize(s - {n - 1}, n - 1);
    }
  }

  lemma {:induction false} SubsetSize(s: set<nat>, t: set<nat>)
    requires s <= t
    ensures |s| <= |t|
    decreases s
  {
    if s != {} {
      var x :| x in s;
      SubsetSize(s - {x}, t - {x});
    }
  }

  /** Up to the distance of v, every radius reaches a new vertex. */
  lemma {:induction false} BallGrows(g: Graph, a: nat, v: nat, d: nat, n: nat)
    requires Undirected(g) && a < |g| && AtDist(g, a, v, d) && n <= d
    ensures |Ball(g, a, n)| > n
    decreases n
  {
    if n == 0 {
      assert a in Ball(g, a, 0);
    } else {
      BallGrows(g, a, v, d, n - 1);
      var u := BallSplit(g, a, v, n, d - n);
      BallSymmetric(g, a, u, n);
      if InBall(g, a, u, n - 1) {
        BallJoin(g, a, u, v, n - 1, d - n);
      }
      assert Ball(g, a, n - 1) + {u} <= Ball(g, a, n);
      SubsetSize(Ball(g, a, n - 1) + {u}, Ball(g, a, n));
    }
  }

  /** No distance reaches the number of vertices. */
  lemma DistBelowSize(g: Graph, a: nat, v: nat, d: nat)
    requires Undirected(g) && a < |g| && AtDist(g, a, v, d)
    ensures d < |g|
  {
    BallGrows(g, a, v, d, d);
    BoundedSize(Ball(g, a, d), |g|);
  }

  /** Whatever can be reached can be reached over fewer edges than there are vertices. */
  lemma {:induction false} BallWithinSize(g: Graph, a: nat, v: nat, n: nat)
    requires Undirected(g) && a < |g| && InBall(g, a, v, n)
    ensures InBall(g, a, v, |g|)
    decreases n
  {
    if n > 0 && InBall(g, a, v, n - 1) {
      BallWithinSize(g, a, v, n - 1);
    } else {
      DistBelowSize(g, a, v, n);
      BallMono(g, a, v, n, |g|);
    }
  }
}
