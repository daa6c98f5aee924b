/** Every search stops, in every schedule that gives it enough turns: each of its own
    steps uses up some of a fixed amount of work, which the others leave alone. */
module SearchTermination {
  import opened Graph
  import opened Search
  import opened SearchMeeting
  import opened SearchResult

  /** Every house is within r edges of every other one. */
  ghost predicate Within(p: Problem, r: nat) {
    forall t, u :: 0 <= t < |p.houses| && 0 <= u < |p.houses| ==> InBall(p.g, p.houses[t], p.houses[u], r)
  }

  /** The houses are connected. */
  ghost predicate Connected(p: Problem) {
    exists r: nat :: Within(p, r)
  }

  ghost function Unmarked(s: State, t: nat): set<nat> {
    set v: nat | v < |s.flags| && t !in s.flags[v]
  }

  function DepthLeft(th: Thread, r: nat): nat {
    if th.depth <= r + 1 then r + 1 - th.depth else 0
  }

  function SlotsLeft(th: Thread): nat {
    if th.front <= |th.queue| then |th.queue| - th.front else 0
  }

  function ScanLeft(g: Graph, pc: Pc): nat {
    if pc.Scan? && pc.curr < |g| && pc.i <= |g[pc.curr]| then 2 * (|g[pc.curr]| - pc.i) + 1
    else if pc.Mark? && pc.curr < |g| && pc.i <= |g[pc.curr]| then 2 * (|g[pc.curr]| - pc.i)
    else 0
  }

  /** No vertex has more neighbours. */
  function MaxDegree(g: Graph): (d: nat)
    ensures forall u :: 0 <= u < |g| ==> |g[u]| <= d
  {
    if g == [] then 0
    else
      var d := MaxDegree(g[..|g| - 1]);
      if |g[|g| - 1]| > d then |g[|g| - 1]| else d
  }

  /** More than the steps that one vertex can cost. */
  function VertexCost(g: Graph): nat {
    2 * MaxDegree(g) + 2
  }

  /** The work left: vertices to find, slots to take, a depth bound, neighbours in hand. */
  ghost function Work(p: Problem, s: State, t: nat, r: nat): nat
    requires t < |s.threads|
  {
    var th := s.threads[t];
    VertexCost(p.g) * (|Unmarked(s, t)| + SlotsLeft(th)) + DepthLeft(th, r) + ScanLeft(p.g, th.pc)
  }

  lemma DepthUnder(p: Problem, s: State, t: nat, r: nat)
    requires Inv(p, s) && Within(p, r) && t < |s.threads| && !s.threads[t].pc.Done?
    ensures s.threads[t].depth <= r
  {
    assert ThreadOk(p, s, t);
    var d := s.threads[t].depth;
    if d > r {
      var u :| 0 <= u < |p.houses| && !InBall(p.g, p.houses[t], p.houses[u], d);
      BallMono(p.g, p.houses[t], p.houses[u], r, d);
      assert false;
    }
  }

  lemma FrontInside(p: Problem, s: State, t: nat)
    requires Inv(p, s) && t < |s.threads|
    ensures var th := s.threads[t];
            && th.front <= th.nextFence < |th.queue|
            && (th.pc.Dequeue? && th.front < th.nextFence ==> th.queue[th.front].Vertex?)
            && (th.pc.Dequeue? && th.front == th.nextFence ==> th.queue[th.front].Fence?)
            && (th.pc.Scan? ==> th.pc.curr < |p.g| && th.pc.i <= |p.g[th.pc.curr]|)
            && (th.pc.Mark? ==> th.pc.curr < |p.g| && th.pc.i < |p.g[th.pc.curr]|
                                && t !in s.flags[p.g[th.pc.curr][th.pc.i]])
  {
    assert ThreadOk(p, s, t);
  }

  lemma MarkWork(p: Problem, s: State, t: nat, r: nat)
    requires Inv(p, s) && t < |s.threads| && s.threads[t].pc.Mark?
    ensures |Unmarked(Next(p, s, t), t)| == |Unmarked(s, t)| - 1 && SlotsLeft(Next(p, s, t).threads[t]) == SlotsLeft(s.threads[t]) + 1
  {
    FrontInside(p, s, t);
    var th := s.threads[t];
    var w := p.g[th.pc.curr][th.pc.i];
    assert Unmarked(Next(p, s, t), t) == Unmarked(s, t) - {w} && w in Unmarked(s, t);
  }

  lemma QuietWork(p: Problem, s: State, t: nat)
    requires Inv(p, s) && t < |s.threads| && !s.threads[t].pc.Mark?
    ensures Unmarked(Next(p, s, t), t) == Unmarked(s, t)
  {
  }

  /** A search's own step uses up some of its work. */
  lemma OwnStepWorks(p: Problem, s: State, t: nat, r: nat)
    requires Inv(p, s) && Within(p, r) && t < |s.threads| && !s.threads[t].pc.Done?
    ensures t < |Next(p, s, t).threads| && Work(p, Next(p, s, t), t, r) < Work(p, s, t, r)
  {
    DepthUnder(p, s, t, r);
    FrontInside(p, s, t);
    var (th, th') := (s.threads[t], Next(p, s, t).threads[t]);
    if th.pc.Mark? {
      MarkWork(p, s, t, r);
    } else {
      QuietWork(p, s, t);
      if th.pc.Dequeue? && th.front < th.nextFence {
        var (c, n) := (VertexCost(p.g), |Unmarked(s, t)| + SlotsLeft(th));
        assert c * (n - 1) == c * n - c;
      }
    }
  }

  /** Another thread's step does not touch it. */
  lemma OtherStepKeeps(p: Problem, s: State, t: nat, u: nat)
    requires ValidProblem(p) && Shaped(p, s) && t < |s.threads| && u < |s.threads| && t != u
    ensures t < |Next(p, s, u).threads| && Next(p, s, u).threads[t] == s.threads[t]
    ensures Unmarked(Next(p, s, u), t) == Unmarked(s, t)
  {
    var s' := Next(p, s, u);
    assert forall v: nat :: v < |s.flags| ==> (t in s'.flags[v] <==> t in s.flags[v]);
  }

  /** How often the schedule gives t a turn. */
  function Turns(sched: seq<nat>, t: nat): nat {
    if sched == [] then 0
    else Turns(sched[..|sched| - 1], t) + (if sched[|sched| - 1] == t then 1 else 0)
  }

  /** Turns are used for work until the search stops. */
  lemma {:induction false} TurnsUsed(p: Problem, sched: seq<nat>, t: nat, r: nat)
    requires ValidProblem(p) && Schedule(p, sched) && t < |p.houses| && Within(p, r)
    ensures Exec(p, sched).threads[t].pc.Done? || Work(p, Exec(p, sched), t, r) + Turns(sched, t) <= Work(p, Init(p), t, r)
    decreases |sched|
  {
    if sched != [] {
      var before, u := sched[..|sched| - 1], sched[|sched| - 1];
      var s := Exec(p, before);
      TurnsUsed(p, before, t, r);
      ExecInv(p, before);
      if u != t {
        OtherStepKeeps(p, s, t, u);
      } else if !s.threads[t].pc.Done? {
        OwnStepWorks(p, s, t, r);
      }
    }
  }

  /** More turns than a search can ever need. */
  function EnoughTurns(p: Problem): nat {
    VertexCost(p.g) * (|p.g| + 2) + |p.g| + 1
  }

  lemma InitialWork(p: Problem, t: nat)
    requires ValidProblem(p) && t < |p.houses|
    ensures Work(p, Init(p), t, |p.g|) <= EnoughTurns(p)
  {
    var n := |Unmarked(Init(p), t)|;
    BoundedSize(Unmarked(Init(p), t), |p.g|);
    assert VertexCost(p.g) * (n + 2) <= VertexCost(p.g) * (|p.g| + 2);
  }

  lemma ConnectedWithin(p: Problem)
    requires ValidProblem(p) && Connected(p)
    ensures Within(p, |p.g|)
  {
    var r: nat :| Within(p, r);
    forall t, u | 0 <= t < |p.houses| && 0 <= u < |p.houses| ensures InBall(p.g, p.houses[t], p.houses[u], |p.g|) {
      BallWithinSize(p.g, p.houses[t], p.houses[u], r);
    }
  }

  /** In every schedule, a search that has had that many turns has stopped. */
  lemma SearchStops(p: Problem, sched: seq<nat>, t: nat)
    requires ValidProblem(p) && Connected(p) && Schedule(p, sched) && t < |p.houses|
    requires Turns(sched, t) > EnoughTurns(p)
    ensures Exec(p, sched).threads[t].pc.Done?
  {
    ConnectedWithin(p);
    TurnsUsed(p, sched, t, |p.g|);
    InitialWork(p, t);
  }

  /** So every schedule that gives each search that many turns is a finished run. */
  lemma AllStop(p: Problem, sched: seq<nat>)
    requires ValidProblem(p) && Connected(p) && Schedule(p, sched)
    requires forall t: nat :: t < |p.houses| ==> Turns(sched, t) > EnoughTurns(p)
    ensures Finished(p, Exec(p, sched))
  {
    forall t | 0 <= t < |p.houses| ensures Exec(p, sched).threads[t].pc.Done? {
      SearchStops(p, sched, t);
    }
  }
}
