/** What every step of the bakery lock keeps. */
module BakeryInvariant {
  import opened Bakery

  /** Thread i has seen the choosing flag of j down in its current attempt. */
  predicate PassedFlag(pc: Pc, j: nat) {
    match pc
    case WaitFlag(k) => j < k
    case Guard0(k) => j <= k
    case Guard1(k) => j <= k
    case Guard2(k) => j <= k
    case Critical => true
    case _ => false
  }

  /** Thread i has finished waiting for j in its current attempt. */
  predicate PassedGuard(pc: Pc, j: nat) {
    match pc
    case WaitFlag(k) => j < k
    case Guard0(k) => j < k
    case Guard1(k) => j < k
    case Guard2(k) => j < k
    case Critical => true
    case _ => false
  }

  /** (number[i], i) is lexicographically below (number[j], j). */
  predicate Before(s: State, i: nat, j: nat)
    requires Shaped(s) && i < |s.pc| && j < |s.pc|
  {
    s.number[i] < s.number[j] || (s.number[i] == s.number[j] && i < j)
  }

  /** Thread j is bound to draw, or has drawn, a ticket above the one i holds.
      The ScanLoad case is the delicate one: the ticket about to be re-read is
      larger than that of i, so its owner cannot release it in between. */
  ghost predicate Behind(s: State, i: nat, j: nat)
    requires Runnable(s) && i < |s.pc| && j < |s.pc|
  {
    match s.pc[j]
    case Idle => true
    case ScanTest(k, max) => i < k ==> s.number[i] <= max
    case ScanLoad(k, max) => i < k ==> s.number[i] <= max && s.number[i] < s.number[k]
    case _ => s.number[i] < s.number[j]
  }

  ghost predicate Local(s: State, i: nat)
    requires Runnable(s) && i < |s.pc|
  {
    && (s.choosing[i] <==> InDoorway(s.pc[i]))
    && (s.number[i] != 0 <==> HoldsTicket(s.pc[i]))
  }

  ghost predicate Pair(s: State, i: nat, j: nat)
    requires Runnable(s) && i < |s.pc| && j < |s.pc|
  {
    && (PassedFlag(s.pc[i], j) ==> HoldsTicket(s.pc[j]) || Behind(s, i, j))
    && (s.pc[i] == Guard2(j) ==> s.number[j] == 0 || s.number[i] <= s.number[j])
    && (PassedGuard(s.pc[i], j) ==> s.number[j] == 0 || Before(s, i, j))
  }

  ghost predicate Inv(s: State) {
    && Runnable(s)
    && (forall i :: 0 <= i < |s.pc| ==> Local(s, i))
    && (forall i, j :: 0 <= i < |s.pc| && 0 <= j < |s.pc| && i != j ==> Pair(s, i, j))
  }

  lemma InitInv(n: nat)
    ensures Inv(Init(n))
  {
  }

  /** While i keeps its ticket, a thread behind i stays behind i, whoever moves. */
  lemma BehindStep(s: State, i: nat, j: nat, t: nat)
    requires Inv(s) && i < |s.pc| && j < |s.pc| && t < |s.pc| && i != j
    requires HoldsTicket(s.pc[i]) && Behind(s, i, j)
    requires Runnable(Step(s, t)) && HoldsTicket(Step(s, t).pc[i])
    ensures Behind(Step(s, t), i, j)
  {
    assert Local(s, i) && Local(s, j) && Local(s, t);
    if t != i {
      assert Pair(s, t, i);
    }
  }

  lemma LocalStep(s: State, i: nat, t: nat)
    requires Inv(s) && i < |s.pc| && t < |s.pc| && Runnable(Step(s, t))
    ensures Local(Step(s, t), i)
  {
    assert Local(s, i) && Local(s, t);
  }

  /** Thread i itself moves: it may gain a new "passed" fact. */
  lemma PairStepSelf(s: State, i: nat, j: nat)
    requires Inv(s) && i < |s.pc| && j < |s.pc| && i != j && Runnable(Step(s, i))
    ensures Pair(Step(s, i), i, j)
  {
    assert Local(s, i) && Local(s, j) && Pair(s, i, j);
    if HoldsTicket(s.pc[i]) && HoldsTicket(Step(s, i).pc[i]) && Behind(s, i, j) {
      BehindStep(s, i, j, i);
    }
  }

  /** Another thread moves; if it is j, it may draw or release its ticket. */
  lemma PairStepOther(s: State, i: nat, j: nat, t: nat)
    requires Inv(s) && i < |s.pc| && j < |s.pc| && t < |s.pc| && i != j && t != i && Runnable(Step(s, t))
    ensures Pair(Step(s, t), i, j)
  {
    assert Local(s, i) && Local(s, j) && Pair(s, i, j);
    if HoldsTicket(s.pc[i]) && Behind(s, i, j) {
      BehindStep(s, i, j, t);
    }
  }

  lemma InvStep(s: State, t: nat)
    requires Inv(s) && t < |s.pc|
    ensures Inv(Step(s, t)) && |Step(s, t).pc| == |s.pc|
  {
    StepRunnable(s, t);
    forall i | 0 <= i < |s.pc| ensures Local(Step(s, t), i) {
      LocalStep(s, i, t);
    }
    forall i, j | 0 <= i < |s.pc| && 0 <= j < |s.pc| && i != j ensures Pair(Step(s, t), i, j) {
      if t == i { PairStepSelf(s, i, j); } else { PairStepOther(s, i, j, t); }
    }
  }

  lemma {:induction false} ExecInv(s: State, sched: seq<nat>)
    requires Inv(s) && Schedule(sched, |s.pc|)
    ensures Inv(Exec(s, sched))
    decreases |sched|
  {
    if sched != [] {
      ExecInv(s, sched[..|sched| - 1]);
      InvStep(Exec(s, sched[..|sched| - 1]), sched[|sched| - 1]);
    }
  }
}
