/** The collector gets round: left to itself it goes through every chain and leaves
    nothing that lies below a minimum. */
module MvccCollector {
  import opened Options
  import opened Mvcc
  import opened MvccChains
  import opened MvccInvariant
  import opened MvccSteps
  import opened MvccTheorems

  /** Nothing in the chain is older than m. */
  ghost predicate Clean(c: Chain, m: nat) {
    forall i :: 0 <= i < |c| ==> c[i].version >= m
  }

  /** s' is what the collector alone can make of s. */
  ghost predicate Later(s: State, s': State, n: nat)
    decreases n
  {
    if n == 0 then s' == s
    else Shaped(s) && !s.gc.GcFault? && Later(CollectStep(s), s', n - 1)
  }

  /** Only chain i and the collector itself have changed. */
  ghost predicate OnlyChain(s: State, s': State, i: nat) {
    && s'.counter == s.counter && s'.active == s.active && s'.queues == s.queues && s'.pcs == s.pcs
    && |s'.chains| == |s.chains|
    && forall j :: 0 <= j < |s.chains| && j != i ==> s'.chains[j] == s.chains[j]
  }

  lemma {:induction false} LaterOn(s: State, m: State, s': State, n: nat, k: nat)
    requires Later(s, m, n) && Later(m, s', k)
    ensures Later(s, s', n + k)
    decreases n
  {
    if n > 0 {
      LaterOn(CollectStep(s), m, s', n - 1, k);
    }
  }

  /** How far the walk has to go. */
  ghost function NodesAhead(c: Chain, tmp: Option<nat>): nat {
    if tmp.None? then 0
    else match Find(c, tmp.value) case None => 0 case Some(i) => |c| - i
  }

  /** What the walk has passed is not below m. */
  lemma PassedClean(s: State)
    requires Inv(s) && s.gc.GcWalk? && s.gc.tmp.None?
    ensures Clean(s.chains[s.gc.i], s.gc.m)
  {
    var c, back := s.chains[s.gc.i], s.gc.back.value;
    assert ThreadOk(s, s.gc.i);
    var k := Find(c, back).value;
    assert k == |c| - 1;
    forall i | 0 <= i < |c| ensures c[i].version >= s.gc.m {
      assert i < k ==> c[i].version > c[k].version;
    }
  }

  lemma StepAhead(s: State)
    requires Inv(s) && s.gc.GcWalk? && s.gc.tmp.Some? && !Cutting(s.gc)
    ensures var s' := CollectStep(s);
            s' == s.(gc := s'.gc) && s'.gc.GcWalk? && s'.gc.i == s.gc.i && s'.gc.m == s.gc.m
            && NodesAhead(s.chains[s.gc.i], s'.gc.tmp) < NodesAhead(s.chains[s.gc.i], s.gc.tmp)
  {
    var c, v := s.chains[s.gc.i], s.gc.tmp.value;
    assert ThreadOk(s, s.gc.i);
    var k := Find(c, v).value;
    if k + 1 < |c| {
      FindAt(c, k + 1);
    }
  }

  /** From anywhere in its walk the collector finishes the chain in hand. */
  lemma {:induction false} FinishWalk(s: State) returns (s': State, n: nat)
    requires Inv(s) && s.gc.GcWalk?
    ensures Later(s, s', n) && Inv(s') && OnlyChain(s, s', s.gc.i) && Clean(s'.chains[s.gc.i], s.gc.m)
    ensures s'.gc == GcMinimum(if s.gc.i + 1 < |s.pcs| then s.gc.i + 1 else 0)
    decreases NodesAhead(s.chains[s.gc.i], s.gc.tmp)
  {
    CollectInv(s);
    s', n := CollectStep(s), 1;
    assert Later(s, s', 1) by { assert Later(CollectStep(s), s', 0); }
    if s.gc.tmp.None? {
      PassedClean(s);
    } else if Cutting(s.gc) {
      var k := CutShape(s);
    } else {
      StepAhead(s);
      var k;
      s', k := FinishWalk(CollectStep(s));
      n := k + 1;
    }
  }

  lemma FinishChain(s: State) returns (s': State, n: nat)
    requires Inv(s) && s.gc.GcMinimum?
    ensures Later(s, s', n) && Inv(s') && OnlyChain(s, s', s.gc.i)
    ensures Clean(s'.chains[s.gc.i], s.queues[s.gc.i].minimum)
    ensures s'.gc == GcMinimum(if s.gc.i + 1 < |s.pcs| then s.gc.i + 1 else 0)
  {
    CollectInv(s);
    var s1 := CollectStep(s);
    CollectInv(s1);
    var s2 := CollectStep(s1);
    var k;
    s', k := FinishWalk(s2);
    n := k + 2;
    assert Later(s1, s', k + 1);
  }

  /** From chain i on to the last one, keeping what is clean before it. */
  lemma {:induction false} FinishPass(s: State) returns (s': State, n: nat)
    requires Inv(s) && s.gc.GcMinimum?
    requires forall p: nat :: p < s.gc.i ==> Clean(s.chains[p], s.queues[p].minimum)
    ensures Later(s, s', n) && Inv(s') && s'.gc == GcMinimum(0) && s'.queues == s.queues && s'.pcs == s.pcs
    ensures forall p: nat :: p < |s'.chains| ==> Clean(s'.chains[p], s'.queues[p].minimum)
    decreases |s.pcs| - s.gc.i
  {
    s', n := FinishChain(s);
    if s.gc.i + 1 < |s.pcs| {
      var m, k := s', n;
      s', n := FinishPass(m);
      LaterOn(s, m, s', k, n);
      n := k + n;
    }
  }

  lemma RunOn(run: seq<State>, events: seq<Event>)
    requires IsRun(run, events) && Enabled(run[|run| - 1], Collect)
    ensures IsRun(run + [CollectStep(run[|run| - 1])], events + [Collect])
  {
    var run', events' := run + [CollectStep(run[|run| - 1])], events + [Collect];
    NextShaped(run[|run| - 1], Collect);
    forall k | 0 <= k < |events'| ensures Enabled(run'[k], events'[k]) && run'[k + 1] == Next(run'[k], events'[k]) {
      if k < |events| {
        assert Enabled(run[k], events[k]) && run[k + 1] == Next(run[k], events[k]);
      }
    }
  }

  lemma {:induction false} LaterRuns(run: seq<State>, events: seq<Event>, s': State, n: nat) returns (run': seq<State>)
    requires IsRun(run, events) && Later(run[|run| - 1], s', n)
    ensures IsRun(run', events + seq(n, _ => Collect)) && run <= run' && run'[|run'| - 1] == s'
    decreases n
  {
    if n == 0 {
      run' := run;
      assert events + seq(0, _ => Collect) == events;
    } else {
      RunOn(run, events);
      run' := LaterRuns(run + [CollectStep(run[|run| - 1])], events + [Collect], s', n - 1);
      assert (events + [Collect]) + seq(n - 1, _ => Collect) == events + seq(n, _ => Collect);
    }
  }

  /** Whenever the collector starts a round, some number of steps of its own bring it back
      to the start of the next with every chain rid of the versions below its minimum; the
      readers and the minima are what they were. */
  lemma CollectorGetsRound(run: seq<State>, events: seq<Event>) returns (run': seq<State>, n: nat)
    requires IsRun(run, events) && run[|run| - 1].gc == GcMinimum(0)
    ensures IsRun(run', events + seq(n, _ => Collect)) && run <= run'
    ensures var s, s' := run[|run| - 1], run'[|run'| - 1];
            && s'.gc == GcMinimum(0) && s'.queues == s.queues && s'.pcs == s.pcs && |s'.chains| == |s'.queues|
            && forall p, i :: 0 <= p < |s'.chains| && 0 <= i < |s'.chains[p]| ==>
                 s'.chains[p][i].version >= s'.queues[p].minimum
  {
    RunInv(run, events, |run| - 1);
    var s';
    s', n := FinishPass(run[|run| - 1]);
    run' := LaterRuns(run, events, s', n);
    forall p, i | 0 <= p < |s'.chains| && 0 <= i < |s'.chains[p]| ensures s'.chains[p][i].version >= s'.queues[p].minimum {
      assert Clean(s'.chains[p], s'.queues[p].minimum);
    }
  }
}
