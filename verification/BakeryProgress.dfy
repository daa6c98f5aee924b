/** The bakery lock never gets stuck. */
module BakeryProgress {
  import opened Bakery
  import opened BakeryInvariant

  lemma {:induction false} ExecConcat(s: State, a: seq<nat>, b: seq<nat>)
    requires Runnable(s) && Schedule(a, |s.pc|) && Schedule(b, |s.pc|)
    ensures Schedule(a + b, |s.pc|) && Exec(s, a + b) == Exec(Exec(s, a), b)
    decreases |b|
  {
    if b == [] {
      assert a + b == a;
    } else {
      var c := b[..|b| - 1];
      ExecConcat(s, a, c);
      assert (a + b)[..|a + b| - 1] == a + c;
    }
  }

  lemma ExecOne(s: State, i: nat)
    requires Runnable(s) && i < |s.pc|
    ensures Schedule([i], |s.pc|) && Exec(s, [i]) == Step(s, i)
  {
    assert [i][..0] == [];
    assert Exec(s, [i][..0]) == s;
  }

  /** Steps thread i still needs, running alone, to leave the doorway. */
  function DoorwaySteps(pc: Pc, n: nat): nat
    requires pc.ScanTest? || pc.ScanLoad? ==> pc.k <= n
  {
    match pc
    case ScanTest(k, _) => 2 * (n - k) + 2
    case ScanLoad(k, _) => 2 * (n - k) + 1
    case ClearFlag => 1
    case _ => 0
  }

  /** The largest of max and the tickets from k on. */
  function MaxFrom(number: seq<nat>, k: nat, max: nat): (r: nat)
    requires k <= |number|
    ensures r >= max && (forall j :: k <= j < |number| ==> r >= number[j])
    ensures r == max || exists j :: k <= j < |number| && r == number[j]
    decreases |number| - k
  {
    if k == |number| then max else MaxFrom(number, k + 1, if max < number[k] then number[k] else max)
  }

  /** The ticket a scan that nobody disturbs arrives at. */
  ghost function TicketAhead(s: State, i: nat): nat
    requires Runnable(s) && i < |s.pc|
  {
    match s.pc[i]
    case ScanTest(k, max) => MaxFrom(s.number, k, max) + 1
    case ScanLoad(k, _) => MaxFrom(s.number, k + 1, s.number[k]) + 1
    case _ => s.number[i]
  }

  lemma {:induction false} FinishDoorway(s: State, i: nat) returns (sched: seq<nat>)
    requires Inv(s) && i < |s.pc| && InDoorway(s.pc[i])
    ensures Schedule(sched, |s.pc|)
    ensures HoldsTicket(Exec(s, sched).pc[i]) && !InDoorway(Exec(s, sched).pc[i])
    ensures forall j :: 0 <= j < |s.pc| && j != i ==> Exec(s, sched).pc[j] == s.pc[j]
    ensures Exec(s, sched).number[i] == TicketAhead(s, i)
    decreases DoorwaySteps(s.pc[i], |s.pc|)
  {
    InvStep(s, i);
    ExecOne(s, i);
    sched := [i];
    if InDoorway(Step(s, i).pc[i]) {
      var rest := FinishDoorway(Step(s, i), i);
      ExecConcat(s, [i], rest);
      sched := [i] + rest;
    }
  }

  /** A thread that takes its ticket undisturbed gets one more than the largest in use. */
  lemma LoneTicket(s: State, i: nat) returns (sched: seq<nat>)
    requires Inv(s) && i < |s.pc| && s.pc[i].Idle?
    ensures Schedule(sched, |s.pc|) && HoldsTicket(Exec(s, sched).pc[i]) && !InDoorway(Exec(s, sched).pc[i])
    ensures forall j :: 0 <= j < |s.pc| ==> s.number[j] < Exec(s, sched).number[i]
    ensures Exec(s, sched).number[i] == 1 || exists j :: 0 <= j < |s.pc| && s.number[j] + 1 == Exec(s, sched).number[i]
  {
    InvStep(s, i);
    ExecOne(s, i);
    var rest := FinishDoorway(Step(s, i), i);
    ExecConcat(s, [i], rest);
    sched := [i] + rest;
    var top := MaxFrom(s.number, 0, 0);
    assert Exec(s, sched).number[i] == top + 1;
  }

  ghost function Choosers(s: State): set<nat> {
    set i: nat | i < |s.pc| && InDoorway(s.pc[i])
  }

  /** Every doorway can be emptied, and nobody loses a ticket on the way. */
  lemma {:induction false} DrainDoorways(s: State) returns (sched: seq<nat>)
    requires Inv(s)
    ensures Schedule(sched, |s.pc|) && Choosers(Exec(s, sched)) == {}
    ensures forall j :: 0 <= j < |s.pc| && !s.pc[j].Idle? ==> HoldsTicket(Exec(s, sched).pc[j])
    decreases Choosers(s)
  {
    sched := [];
    if Choosers(s) == {} {
      forall j | 0 <= j < |s.pc| && !s.pc[j].Idle? ensures HoldsTicket(s.pc[j]) {
        assert j as nat !in Choosers(s);
      }
    } else {
      var i :| i in Choosers(s);
      var first := FinishDoorway(s, i);
      var s1 := Exec(s, first);
      ExecInv(s, first);
      assert Choosers(s1) <= Choosers(s) && i !in Choosers(s1);
      var rest := DrainDoorways(s1);
      ExecConcat(s, first, rest);
      sched := first + rest;
    }
  }

  /** i holds a ticket and nobody holds a better one. */
  ghost predicate Foremost(s: State, i: nat, n: nat)
    requires Runnable(s) && n <= |s.pc|
  {
    i < n && HoldsTicket(s.pc[i])
    && forall j: nat :: j < n && j != i && HoldsTicket(s.pc[j]) ==> Before(s, i, j)
  }

  lemma {:induction false} ForemostExists(s: State, n: nat) returns (i: nat)
    requires Inv(s) && n <= |s.pc|
    requires exists j :: 0 <= j < n && HoldsTicket(s.pc[j])
    ensures Foremost(s, i, n)
    decreases n
  {
    if exists j :: 0 <= j < n - 1 && HoldsTicket(s.pc[j]) {
      i := ForemostExists(s, n - 1);
      if HoldsTicket(s.pc[n - 1]) && Before(s, n - 1, i) {
        i := n - 1;
      }
    } else {
      i := n - 1;
    }
  }

  /** Steps the foremost thread needs, running alone, to reach the critical section. */
  function GuardSteps(pc: Pc, n: nat, ticketZero: bool): nat
    requires pc.WaitFlag? || pc.Guard0? || pc.Guard1? || pc.Guard2? ==> pc.j < n
  {
    match pc
    case WaitFlag(j) => 4 * (n - j) + 4
    case Guard0(j) => 4 * (n - j) + (if ticketZero then 1 else 3)
    case Guard1(j) => 4 * (n - j) + 2
    case Guard2(j) => 4 * (n - j) + 1
    case _ => 0
  }

  ghost predicate RivalTicketZero(s: State, i: nat)
    requires Runnable(s) && i < |s.pc|
  {
    var pc := s.pc[i];
    pc.Guard0? && s.number[pc.j] == 0
  }

  lemma {:induction false} ForemostEnters(s: State, i: nat) returns (sched: seq<nat>)
    requires Inv(s) && Foremost(s, i, |s.pc|) && Choosers(s) == {}
    ensures Schedule(sched, |s.pc|) && Exec(s, sched).pc[i].Critical?
    ensures forall j :: 0 <= j < |s.pc| && j != i ==> Exec(s, sched).pc[j] == s.pc[j]
    decreases GuardSteps(s.pc[i], |s.pc|, RivalTicketZero(s, i))
  {
    sched := [];
    if !s.pc[i].Critical? {
      assert i !in Choosers(s);
      forall j: nat | j < |s.pc| ensures !s.choosing[j] {
        assert j !in Choosers(s) && Local(s, j);
      }
      var s1 := Step(s, i);
      InvStep(s, i);
      ExecOne(s, i);
      assert Foremost(s1, i, |s1.pc|) && Choosers(s1) == {};
      var j := s.pc[i].j;
      assert Local(s, j) && Local(s, i);
      assert j != i && s.number[j] != 0 ==> Before(s, i, j);
      var rest := ForemostEnters(s1, i);
      ExecConcat(s, [i], rest);
      sched := [i] + rest;
    }
  }

  ghost function Holders(s: State): set<nat> {
    set i: nat | i < |s.pc| && HoldsTicket(s.pc[i])
  }

  /** With all doorways empty, serving the foremost thread again and again gets to i. */
  lemma {:induction false} TurnComes(s: State, i: nat) returns (sched: seq<nat>)
    requires Inv(s) && Choosers(s) == {} && i < |s.pc| && HoldsTicket(s.pc[i])
    ensures Schedule(sched, |s.pc|) && Exec(s, sched).pc[i].Critical?
    decreases Holders(s)
  {
    var first := ForemostExists(s, |s.pc|);
    sched := ForemostEnters(s, first);
    if first != i {
      var s1 := Exec(s, sched);
      ExecInv(s, sched);
      var s2 := Step(s1, first);
      InvStep(s1, first);
      ExecOne(s1, first);
      ExecConcat(s, sched, [first]);
      assert forall j: nat :: j < |s.pc| && j != first ==> s2.pc[j] == s.pc[j];
      assert first in Holders(s) && first !in Holders(s2) && Holders(s2) <= Holders(s);
      assert forall j :: j in Choosers(s2) ==> j in Choosers(s);
      var rest := TurnComes(s2, i);
      ExecConcat(s, sched + [first], rest);
      sched := sched + [first] + rest;
    }
  }

  /** No deadlock and no lockout state: from every reachable state, every thread
      inside the lock function has a continuation that takes it into the critical
      section, so the threads are never all spinning for good. */
  lemma DeadlockFreedom(n: nat, past: seq<nat>, i: nat) returns (future: seq<nat>)
    requires Schedule(past, n) && i < n && !Exec(Init(n), past).pc[i].Idle?
    ensures Schedule(past + future, n) && Exec(Init(n), past + future).pc[i].Critical?
  {
    InitInv(n);
    ExecInv(Init(n), past);
    var s := Exec(Init(n), past);
    var drain := DrainDoorways(s);
    ExecInv(s, drain);
    var enter := TurnComes(Exec(s, drain), i);
    ExecConcat(s, drain, enter);
    future := drain + enter;
    ExecConcat(Init(n), past, future);
  }
}
