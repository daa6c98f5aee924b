/** The bakery lock of Project2 as a state machine over any number of threads.
    Every step performs at most one read or write of a shared cell that another
    thread may change, so the two reads of a ticket in the maximum scan and the
    up to three reads of a ticket in the wait guard are separate steps.
    (A thread's own ticket is written by that thread alone, so comparing against
    it costs no extra step.)
 */
module Bakery {

  /** Where one thread stands. The parameter of a waiting or scanning state is
      the loop variable of the source. */
  datatype Pc =
    | Idle                         // outside the lock
    | ScanTest(k: nat, max: nat)   // about to compare max with ticket k (k == n: scan over)
    | ScanLoad(k: nat, max: nat)   // the comparison said "larger": about to read ticket k again
    | ClearFlag                    // ticket written, choosing flag still up
    | WaitFlag(j: nat)             // spinning on the choosing flag of j
    | Guard0(j: nat)               // about to evaluate number[j] != 0
    | Guard1(j: nat)               // about to evaluate number[j] < number[i]
    | Guard2(j: nat)               // about to evaluate number[j] == number[i] && j < i
    | Critical

  datatype State = State(number: seq<nat>, choosing: seq<bool>, pc: seq<Pc>)

  ghost predicate Shaped(s: State) {
    |s.number| == |s.choosing| == |s.pc|
  }

  predicate InDoorway(pc: Pc) {
    pc.ScanTest? || pc.ScanLoad? || pc.ClearFlag?
  }

  predicate HoldsTicket(pc: Pc) {
    !pc.Idle? && !pc.ScanTest? && !pc.ScanLoad?
  }

  ghost predicate Bounded(pc: Pc, n: nat) {
    match pc
    case ScanTest(k, _) => k <= n
    case ScanLoad(k, _) => k < n
    case WaitFlag(j) => j < n
    case Guard0(j) => j < n
    case Guard1(j) => j < n
    case Guard2(j) => j < n
    case _ => true
  }

  ghost predicate Runnable(s: State) {
    Shaped(s) && forall i :: 0 <= i < |s.pc| ==> Bounded(s.pc[i], |s.pc|)
  }

  function Init(n: nat): State {
    State(seq(n, _ => 0), seq(n, _ => false), seq(n, _ => Idle))
  }

  /** The wait loop moves on to the next rival, or leaves the lock function. */
  function NextRival(j: nat, n: nat): Pc {
    if j + 1 < n then WaitFlag(j + 1) else Critical
  }

  /** One step of thread i. */
  function Step(s: State, i: nat): (r: State)
    requires Runnable(s) && i < |s.pc|
  {
    var n := |s.pc|;
    match s.pc[i]
    case Idle =>
      s.(choosing := s.choosing[i := true], pc := s.pc[i := ScanTest(0, 0)])
    case ScanTest(k, max) =>
      if k == n then
        s.(number := s.number[i := max + 1], pc := s.pc[i := ClearFlag])
      else if max < s.number[k] then
        s.(pc := s.pc[i := ScanLoad(k, max)])
      else
        s.(pc := s.pc[i := ScanTest(k + 1, max)])
    case ScanLoad(k, max) =>
      s.(pc := s.pc[i := ScanTest(k + 1, s.number[k])])
    case ClearFlag =>
      s.(choosing := s.choosing[i := false], pc := s.pc[i := WaitFlag(0)])
    case WaitFlag(j) =>
      if s.choosing[j] then s else s.(pc := s.pc[i := Guard0(j)])
    case Guard0(j) =>
      s.(pc := s.pc[i := if s.number[j] != 0 then Guard1(j) else NextRival(j, n)])
    case Guard1(j) =>
      s.(pc := s.pc[i := if s.number[j] < s.number[i] then Guard0(j) else Guard2(j)])
    case Guard2(j) =>
      s.(pc := s.pc[i := if s.number[j] == s.number[i] && j < i then Guard0(j) else NextRival(j, n)])
    case Critical =>
      s.(number := s.number[i := 0], pc := s.pc[i := Idle])
  }

  lemma StepRunnable(s: State, i: nat)
    requires Runnable(s) && i < |s.pc|
    ensures Runnable(Step(s, i)) && |Step(s, i).pc| == |s.pc|
  {
  }

  ghost predicate Schedule(sched: seq<nat>, n: nat) {
    forall k :: 0 <= k < |sched| ==> sched[k] < n
  }

  /** The state after the threads named by the schedule have each taken a step, in order. */
  ghost function Exec(s: State, sched: seq<nat>): (r: State)
    requires Runnable(s) && Schedule(sched, |s.pc|)
    ensures Runnable(r) && |r.pc| == |s.pc|
    decreases |sched|
  {
    if sched == [] then s
    else
      var before := Exec(s, sched[..|sched| - 1]);
      StepRunnable(before, sched[|sched| - 1]);
      Step(before, sched[|sched| - 1])
  }
}
