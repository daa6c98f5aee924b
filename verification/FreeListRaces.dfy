/** Calls on an empty list: one alone is safe, and of any two the first can be left
    out of the list. */
module FreeListRaces {
  import opened Options
  import opened FreeList
  import opened FreeListProof
  import opened FreeListTheorems

  ghost predicate RunsTo(s0: State, s: State) {
    exists sched :: Schedule(sched, |s0.ops|) && s == Exec(s0, sched)
  }

  lemma Go(s0: State, s: State, k: nat)
    requires RunsTo(s0, s) && k < |s0.ops| == |s.ops|
    ensures RunsTo(s0, Step(s, k))
  {
    var sched :| Schedule(sched, |s0.ops|) && s == Exec(s0, sched);
    assert (sched + [k])[..|sched|] == sched;
    assert Step(s, k) == Exec(s0, sched + [k]);
  }

  // ------------------------------------------------------------ what is kept

  /** A side that has had an exchange, or a fix, has an end. */
  ghost predicate EndOk(s: State, j: nat) {
    && j < |s.ops|
    && (Swapped(s.ops[j].pc) ==> EndAt(s, s.ops[j].side).Some?)
    && (s.ops[j].pc.Count? || s.ops[j].pc.Finished? ==> EndAt(s, Other(s.ops[j].side)).Some?)
  }

  ghost predicate EndsOk(s: State) {
    forall j: nat :: j < |s.ops| ==> EndOk(s, j)
  }

  /** Call 0 was first on its side of the empty list and found nobody. Its element has
      no inward link, and the opposite end names another element. */
  ghost predicate Alone(s: State) {
    s.ops != [] &&
    var side, a := s.ops[0].side, s.ops[0].elem;
    && (s.ops[0].pc.Check? || s.ops[0].pc.Count? || s.ops[0].pc.Finished?)
    && a !in Out(s, Other(side)) && EndAt(s, Other(side)) != Some(a)
    && Log(s, side) != [] && Log(s, side)[0] == 0
  }

  /** Call j has nothing to do with it. */
  ghost predicate Apart(s: State, j: nat) {
    && 0 < j < |s.ops| && s.ops[j].elem != s.ops[0].elem
    && (s.ops[j].side != s.ops[0].side && Swapped(s.ops[j].pc) ==> s.ops[j].got != Some(s.ops[0].elem))
  }

  /** So nobody will ever link it. */
  ghost predicate LeftOut(s: State) {
    Alone(s) && forall j: nat :: 0 < j < |s.ops| ==> Apart(s, j)
  }

  /** The opposite end is taken, so call 0 will not fix it. */
  ghost predicate Taken(s: State) {
    s.ops != [] && EndAt(s, Other(s.ops[0].side)).Some?
  }

  /** What a step does to the ends. */
  lemma StepEnds(s: State, k: nat, side: Side)
    requires k < |s.ops|
    ensures var op := s.ops[k];
            EndAt(Step(s, k), side) ==
              if (op.pc.Swap? && op.side == side) || (op.pc.Fix? && op.side != side) then Some(op.elem) else EndAt(s, side)
  {
  }

  /** What a step does to the links. */
  lemma StepOut(s: State, k: nat, side: Side)
    requires k < |s.ops|
    ensures var op, out := s.ops[k], Out(s, side);
            Out(Step(s, k), side) ==
              if op.pc.Clear? && op.side == side then Store(out, op.elem, None)
              else if op.pc.LinkSelf? && op.side != side then Store(out, op.elem, op.got)
              else if op.pc.LinkOther? && op.side == side && op.got.Some? then Store(out, op.got.value, Some(op.elem))
              else out
  {
  }

  /** What a step does to the logs. */
  lemma StepLog(s: State, k: nat, side: Side)
    requires k < |s.ops|
    ensures Log(Step(s, k), side) ==
      if s.ops[k].pc.Swap? && s.ops[k].side == side then Log(s, side) + [k] else Log(s, side)
  {
  }

  /** What a step does to the calls. */
  lemma StepOps(s: State, k: nat)
    requires k < |s.ops|
    ensures |Step(s, k).ops| == |s.ops| && forall j :: 0 <= j < |s.ops| && j != k ==> Step(s, k).ops[j] == s.ops[j]
    ensures var op, op' := s.ops[k], Step(s, k).ops[k];
            && op'.side == op.side && op'.elem == op.elem
            && (op'.got == if op.pc.Swap? then EndAt(s, op.side) else op.got)
            && (Swapped(op'.pc) <==> Swapped(op.pc) || op.pc.Swap?)
            && (op'.pc.Count? || op'.pc.Finished? ==>
                  op.pc.Count? || op.pc.Finished? || op.pc.Fix? || EndAt(s, Other(op.side)).Some?)
            && (!op.pc.Finished? ==> StepsLeft(op'.pc) < StepsLeft(op.pc))
  {
  }

  lemma KeepEnd(s: State, k: nat, j: nat)
    requires EndOk(s, j) && EndOk(s, k)
    ensures EndOk(Step(s, k), j) && (Taken(s) ==> Taken(Step(s, k)))
  {
    StepOps(s, k);
    StepEnds(s, k, Front);
    StepEnds(s, k, Back);
  }

  lemma KeepEnds(s: State, k: nat)
    requires EndsOk(s) && k < |s.ops|
    ensures EndsOk(Step(s, k)) && (Taken(s) ==> Taken(Step(s, k)))
  {
    KeepEnd(s, k, k);
    forall j: nat | j < |s.ops| ensures EndOk(Step(s, k), j) {
      KeepEnd(s, k, j);
    }
  }

  lemma OwnStepAlone(s: State)
    requires Alone(s) && Taken(s)
    ensures Alone(Step(s, 0)) && forall j: nat :: Apart(s, j) ==> Apart(Step(s, 0), j)
  {
  }

  /** A call on the same side writes inward links only for its own element; one on the
      opposite side gets what that end named, which is not this element. */
  lemma OtherStepAlone(s: State, k: nat)
    requires Alone(s) && Apart(s, k)
    ensures Alone(Step(s, k))
  {
    var side := s.ops[0].side;
    StepOps(s, k);
    StepEnds(s, k, Other(side));
    StepOut(s, k, Other(side));
    StepLog(s, k, side);
  }

  lemma OtherStepApart(s: State, k: nat, j: nat)
    requires Alone(s) && Apart(s, k) && Apart(s, j)
    ensures Apart(Step(s, k), j)
  {
    StepOps(s, k);
  }

  lemma StillLeftOut(s: State, k: nat)
    requires LeftOut(s) && k < |s.ops| && (k > 0 || Taken(s))
    ensures LeftOut(Step(s, k))
  {
    if k == 0 {
      OwnStepAlone(s);
    } else {
      OtherStepAlone(s, k);
      forall j: nat | 0 < j < |s.ops| ensures Apart(Step(s, k), j) {
        OtherStepApart(s, k, j);
      }
    }
  }

  // ---------------------------------------------------------------- finishing

  function StepsLeft(pc: Pc): nat {
    match pc
    case Clear => 7
    case Swap => 6
    case LinkSelf => 5
    case LinkOther => 4
    case Check => 3
    case Fix => 2
    case Count => 1
    case Finished => 0
  }

  lemma {:induction false} FinishCall(s0: State, s: State, k: nat) returns (s': State)
    requires RunsTo(s0, s) && k < |s0.ops| == |s.ops| && EndsOk(s) && LeftOut(s) && (k > 0 || Taken(s))
    ensures RunsTo(s0, s') && |s'.ops| == |s.ops| && EndsOk(s') && LeftOut(s') && (Taken(s) ==> Taken(s'))
    ensures s'.ops[k].pc.Finished? && s'.ops[k].side == s.ops[k].side
    ensures forall j :: 0 <= j < |s.ops| && j != k ==> s'.ops[j] == s.ops[j]
    decreases StepsLeft(s.ops[k].pc)
  {
    s' := s;
    if !s.ops[k].pc.Finished? {
      Go(s0, s, k);
      KeepEnds(s, k);
      StillLeftOut(s, k);
      StepOps(s, k);
      s' := FinishCall(s0, Step(s, k), k);
    }
  }

  lemma {:induction false} FinishFrom(s0: State, s: State, n: nat) returns (s': State)
    requires RunsTo(s0, s) && n <= |s0.ops| == |s.ops| && EndsOk(s) && LeftOut(s) && Taken(s)
    requires forall j :: 0 <= j < n ==> s.ops[j].pc.Finished?
    ensures RunsTo(s0, s') && LeftOut(s') && AllFinished(s')
    decreases |s0.ops| - n
  {
    s' := s;
    if n < |s0.ops| {
      s' := FinishCall(s0, s, n);
      s' := FinishFrom(s0, s', n + 1);
    }
  }

  // ----------------------------------------------------------------- the race

  /** Call 0 clears, exchanges and links itself before anybody else moves. */
  lemma EntersAlone(s0: State)
    requires Initial(s0, []) && s0.ops != []
    ensures var s := Step(Step(Step(s0, 0), 0), 0);
            |s.ops| == |s0.ops| && Alone(s) && forall j: nat :: 0 < j < |s.ops| ==> s.ops[j] == s0.ops[j]
    ensures Step(Step(Step(s0, 0), 0), 0).ops[0].elem == s0.ops[0].elem
  {
    var s1 := Step(s0, 0);
    var s2 := Step(s1, 0);
    assert s1.ops[0] == s0.ops[0].(pc := Swap) && s1.start == s1.end == None && s1.fronts == s1.backs == [];
    assert s2.ops[0] == s0.ops[0].(pc := LinkSelf, got := None, slot := 0);
    assert EndAt(s2, Other(s0.ops[0].side)) == None && Log(s2, s0.ops[0].side) == [0];
  }

  lemma EnterFirst(s0: State) returns (s: State)
    requires Initial(s0, []) && s0.ops != []
    ensures RunsTo(s0, s) && |s.ops| == |s0.ops| && EndsOk(s) && LeftOut(s)
  {
    assert Exec(s0, []) == s0;
    assert RunsTo(s0, s0);
    EntersAlone(s0);
    s := s0;
    Go(s0, s, 0);
    KeepEnds(s, 0);
    s := Step(s, 0);
    Go(s0, s, 0);
    KeepEnds(s, 0);
    s := Step(s, 0);
    Go(s0, s, 0);
    KeepEnds(s, 0);
    s := Step(s, 0);
  }

  /** A second call that runs to its end takes the opposite end, whatever its side. */
  lemma SecondTakes(s: State)
    requires EndsOk(s) && |s.ops| >= 2 && s.ops[1].pc.Finished?
    ensures Taken(s)
  {
    assert EndOk(s, 1) && Swapped(s.ops[1].pc);
  }

  /** An element that was left out is not where it belongs. */
  lemma LeftOutBreaks(s: State)
    requires LeftOut(s) && LogsValid(s)
    ensures !Represents(s, Order(s, []))
  {
    var l := Order(s, []);
    var i := if s.ops[0].side == Front then |s.fronts| - 1 else |s.fronts|;
    assert l[i] == s.ops[0].elem;
    assert Represents(s, l) ==> Load(s.next, l[i]) == At(l, i + 1) && Load(s.prev, l[i]) == At(l, i - 1);
  }

  /** Any two calls, on either side, can race so that the first is lost, whatever other
      calls there are. */
  lemma TwoCallsRace(s0: State) returns (sched: seq<nat>)
    requires Initial(s0, []) && |s0.ops| >= 2
    ensures Schedule(sched, |s0.ops|) && AllFinished(Exec(s0, sched))
    ensures var s := Exec(s0, sched);
            LogsValid(s) ==> !Represents(s, Order(s, []))
  {
    var s := EnterFirst(s0);
    s := FinishCall(s0, s, 1);
    SecondTakes(s);
    s := FinishFrom(s0, s, 0);
    sched :| Schedule(sched, |s0.ops|) && s == Exec(s0, sched);
    if LogsValid(s) {
      LeftOutBreaks(s);
    }
  }

  // --------------------------------------------------------------- one call

  /** What a call that is alone has done to the empty list so far. */
  ghost predicate AloneOk(s: State) {
    |s.ops| == 1 &&
    var op := s.ops[0];
    var side, a := op.side, op.elem;
    if op.pc.Clear? || op.pc.Swap? then
      && s.start == s.end == None && s.count == 0 && s.fronts == s.backs == []
      && (op.pc.Swap? ==> a !in Out(s, side))
    else
      && op.got == None && !op.pc.LinkOther?
      && EndAt(s, side) == Some(a) && Log(s, side) == [0] && Log(s, Other(side)) == []
      && a !in Out(s, side) && (!op.pc.LinkSelf? ==> a !in Out(s, Other(side)))
      && EndAt(s, Other(side)) == (if op.pc.Count? || op.pc.Finished? then Some(a) else None)
      && s.count == (if op.pc.Finished? then 1 else 0)
  }

  lemma AloneStep(s: State)
    requires AloneOk(s)
    ensures AloneOk(Step(s, 0))
  {
  }

  lemma {:induction false} AloneRuns(s0: State, sched: seq<nat>)
    requires AloneOk(s0) && Schedule(sched, 1)
    ensures AloneOk(Exec(s0, sched))
    decreases |sched|
  {
    if sched != [] {
      AloneRuns(s0, sched[..|sched| - 1]);
      AloneStep(Exec(s0, sched[..|sched| - 1]));
    }
  }

  lemma AloneFinished(s: State)
    requires AloneOk(s) && s.ops[0].pc.Finished?
    ensures LogsValid(s) && Represents(s, Order(s, []))
  {
    var a := s.ops[0].elem;
    assert Order(s, []) == [a];
    assert Load(s.next, a) == None && Load(s.prev, a) == None;
  }

  // ---------------------------------------------------------------- exactly

  /** Every schedule that runs these calls to their end leaves the expected list. */
  ghost predicate SafeCalls(s0: State, base: seq<nat>) {
    forall sched :: Schedule(sched, |s0.ops|) && AllFinished(Exec(s0, sched)) ==>
      LogsValid(Exec(s0, sched)) && Represents(Exec(s0, sched), Order(Exec(s0, sched), base))
  }

  lemma FewCallsSafe(s0: State, sched: seq<nat>)
    requires Initial(s0, []) && |s0.ops| <= 1 && Schedule(sched, |s0.ops|) && AllFinished(Exec(s0, sched))
    ensures LogsValid(Exec(s0, sched)) && Represents(Exec(s0, sched), Order(Exec(s0, sched), []))
  {
    if s0.ops == [] {
      assert sched == [];
      assert Order(s0, []) == [];
    } else {
      AloneRuns(s0, sched);
      AloneFinished(Exec(s0, sched));
    }
  }

  /** For every list and every set of calls about to start on it: they are safe in every
      schedule if and only if the list is not empty or there is at most one call. */
  lemma SafeExactly(s0: State, base: seq<nat>)
    requires Initial(s0, base)
    ensures SafeCalls(s0, base) <==> base != [] || |s0.ops| <= 1
  {
    if base == [] && |s0.ops| >= 2 {
      var sched := TwoCallsRace(s0);
    } else {
      forall sched | Schedule(sched, |s0.ops|) && AllFinished(Exec(s0, sched))
        ensures LogsValid(Exec(s0, sched)) && Represents(Exec(s0, sched), Order(Exec(s0, sched), base))
      {
        if base != [] { FinishedList(s0, base, sched); } else { FewCallsSafe(s0, sched); }
      }
    }
  }
}
