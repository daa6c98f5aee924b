/** Safety of the bakery lock, in every interleaving. */
module BakeryTheorems {
  import opened Bakery
  import opened BakeryInvariant

  /** Mutual exclusion: in every interleaving, at most one thread is between
      the end of the lock function and the release of its ticket. */
  lemma MutualExclusion(n: nat, sched: seq<nat>, i: nat, j: nat)
    requires Schedule(sched, n) && i < n && j < n
    ensures Exec(Init(n), sched).pc[i].Critical? && Exec(Init(n), sched).pc[j].Critical? ==> i == j
  {
    InitInv(n);
    ExecInv(Init(n), sched);
    var s := Exec(Init(n), sched);
    if i != j {
      assert Pair(s, i, j) && Pair(s, j, i) && Local(s, i) && Local(s, j);
    }
  }

  /** Thread i has a ticket and has lowered its choosing flag. */
  predicate Queued(pc: Pc) {
    HoldsTicket(pc) && !pc.ClearFlag?
  }

  lemma {:induction false} StaysBehind(s: State, sched: seq<nat>, a: nat, b: nat, i: nat, j: nat)
    requires Inv(s) && Schedule(sched, |s.pc|) && i < |s.pc| && j < |s.pc| && i != j
    requires a <= b <= |sched|
    requires HoldsTicket(Exec(s, sched[..a]).pc[i]) && Behind(Exec(s, sched[..a]), i, j)
    requires forall k :: a <= k <= b ==> HoldsTicket(Exec(s, sched[..k]).pc[i])
    ensures Behind(Exec(s, sched[..b]), i, j)
    decreases b
  {
    if a < b {
      StaysBehind(s, sched, a, b - 1, i, j);
      assert sched[..b][..b - 1] == sched[..b - 1];
      ExecInv(s, sched[..b - 1]);
      BehindStep(Exec(s, sched[..b - 1]), i, j, sched[b - 1]);
    }
  }

  /** First come, first served: if i has lowered its choosing flag at a moment
      when j has not yet raised its own, then j is not in the critical section at
      any later moment up to which i has not left. */
  lemma FirstComeFirstServed(n: nat, sched: seq<nat>, a: nat, b: nat, i: nat, j: nat)
    requires Schedule(sched, n) && i < n && j < n && a <= b <= |sched|
    requires Queued(Exec(Init(n), sched[..a]).pc[i]) && Exec(Init(n), sched[..a]).pc[j].Idle?
    requires forall k :: a <= k <= b ==> HoldsTicket(Exec(Init(n), sched[..k]).pc[i])
    ensures !Exec(Init(n), sched[..b]).pc[j].Critical?
  {
    InitInv(n);
    StaysBehind(Init(n), sched, a, b, i, j);
    ExecInv(Init(n), sched[..b]);
    var s := Exec(Init(n), sched[..b]);
    assert Pair(s, j, i) && Local(s, i);
  }
}
