/** Exactly which schedules keep the sum. What a reader finds in a collected node decides
    nothing but values, so a run can be replayed with other findings: the sum is safe
    from all of them if and only if no insertion rests on such a read. */
module MvccReplay {
  import opened Options
  import opened Mvcc
  import opened MvccChains
  import opened MvccInvariant
  import opened MvccTheorems

  /** The events are the same up to what a read of a collected node finds. */
  predicate SameEvent(e: Event, e': Event) {
    match e
    case Begin(_, _) => e' == e
    case Act(t, _) => e'.Act? && e'.t == t
    case Collect => e'.Collect?
  }

  ghost predicate SameButReads(events: seq<Event>, events': seq<Event>) {
    |events| == |events'| && forall k :: 0 <= k < |events| ==> SameEvent(events[k], events'[k])
  }

  // ------------------------------------------------- states up to their values

  ghost predicate SameVersions(c: Chain, c': Chain) {
    |c| == |c'| && forall i :: 0 <= i < |c| ==> c[i].version == c'[i].version
  }

  /** A stage without the values it has computed. */
  function Blank(stage: Stage): Stage {
    match stage
    case Begun => Begun
    case Walking(c, _, _) => Walking(c, 0, 0)
    case Reading(c, _, _) => Reading(c, 0, 0)
    case Rereading(c, _, _, clean) => Rereading(c, 0, 0, clean)
    case Ready(_, _, clean) => Ready(0, 0, clean)
    case Inserted => Inserted
  }

  function BlankPc(pc: Pc): Pc {
    if pc.Run? then Run(pc.job, Blank(pc.stage)) else pc
  }

  ghost predicate Alike(s: State, s': State) {
    && s.counter == s'.counter && s.active == s'.active && s.queues == s'.queues && s.gc == s'.gc
    && |s.chains| == |s'.chains| && (forall t :: 0 <= t < |s.chains| ==> SameVersions(s.chains[t], s'.chains[t]))
    && |s.pcs| == |s'.pcs| && (forall t :: 0 <= t < |s.pcs| ==> BlankPc(s.pcs[t]) == BlankPc(s'.pcs[t]))
  }

  lemma {:induction false} FindAlike(c: Chain, c': Chain, v: nat)
    requires SameVersions(c, c')
    ensures Find(c, v) == Find(c', v) && Has(c, v) == Has(c', v) && Link(c, v) == Link(c', v)
    decreases c
  {
    if c != [] && c[0].version != v {
      FindAlike(c[1..], c'[1..], v);
    }
    assert Has(c, v) <==> Find(c, v).Some?;
    assert Has(c', v) <==> Find(c', v).Some?;
  }

  lemma StageAlike(s: State, s': State, t: nat, x: int, x': int)
    requires Shaped(s) && Shaped(s') && Alike(s, s') && t < |s.pcs| && s.pcs[t].Run?
    requires s'.pcs[t].Run? && !s.pcs[t].stage.Ready? && !s.pcs[t].stage.Inserted?
    requires !s'.pcs[t].stage.Ready? && !s'.pcs[t].stage.Inserted?
    ensures BlankPc(StageStep(s, t, x)) == BlankPc(StageStep(s', t, x'))
  {
    var p := s.pcs[t].job.partner;
    assert BlankPc(s.pcs[t]) == BlankPc(s'.pcs[t]);
    assert SameVersions(s.chains[t], s'.chains[t]) && SameVersions(s.chains[p], s'.chains[p]);
    if !s.pcs[t].stage.Begun? {
      FindAlike(s.chains[p], s'.chains[p], s.pcs[t].stage.cursor);
    }
  }

  lemma CollectAlike(s: State, s': State)
    requires Shaped(s) && Shaped(s') && Alike(s, s') && !s.gc.GcFault?
    ensures Alike(CollectStep(s), CollectStep(s'))
  {
    var i := s.gc.i;
    assert SameVersions(s.chains[i], s'.chains[i]);
    if s.gc.GcWalk? {
      if s.gc.back.Some? { FindAlike(s.chains[i], s'.chains[i], s.gc.back.value); }
      if s.gc.tmp.Some? { FindAlike(s.chains[i], s'.chains[i], s.gc.tmp.value); }
    }
  }

  lemma ActAlike(s: State, s': State, t: nat, x: int, x': int)
    requires Shaped(s) && Shaped(s') && Alike(s, s') && t < |s.pcs| && s.pcs[t].Run?
    ensures Enabled(s', Act(t, x')) && Alike(Next(s, Act(t, x)), Next(s', Act(t, x')))
  {
    assert BlankPc(s.pcs[t]) == BlankPc(s'.pcs[t]);
    if !s.pcs[t].stage.Ready? && !s.pcs[t].stage.Inserted? {
      StageAlike(s, s', t, x, x');
    } else if s.pcs[t].stage.Ready? {
      assert SameVersions(s.chains[t], s'.chains[t]);
    }
  }

  /** No step depends on the values. */
  lemma NextAlike(s: State, s': State, e: Event, e': Event)
    requires Shaped(s) && Shaped(s') && Alike(s, s') && SameEvent(e, e') && Enabled(s, e)
    ensures Enabled(s', e') && Alike(Next(s, e), Next(s', e'))
  {
    match e
    case Begin(t, p) => assert BlankPc(s.pcs[t]) == BlankPc(s'.pcs[t]);
    case Act(t, x) => ActAlike(s, s', t, x, e'.x);
    case Collect => CollectAlike(s, s');
  }

  lemma {:induction false} RunsAlike(run: seq<State>, events: seq<Event>, run': seq<State>, events': seq<Event>, k: nat)
    requires IsRun(run, events) && IsRun(run', events') && run'[0] == run[0] && SameButReads(events, events') && k < |run|
    ensures Alike(run[k], run'[k])
    decreases k
  {
    if k > 0 {
      RunsAlike(run, events, run', events', k - 1);
      assert Enabled(run[k - 1], events[k - 1]) && run[k] == Next(run[k - 1], events[k - 1]);
      assert run'[k] == Next(run'[k - 1], events'[k - 1]);
      NextAlike(run[k - 1], run'[k - 1], events[k - 1], events'[k - 1]);
    }
  }

  // ------------------------------------------------------------------- replays

  /** The state after n of the events, as long as they are possible. */
  ghost function StateAt(s: State, events: seq<Event>, n: nat): State
    requires n <= |events|
    decreases n
  {
    if n == 0 then s
    else
      var before := StateAt(s, events, n - 1);
      if Shaped(before) && Enabled(before, events[n - 1]) then Next(before, events[n - 1]) else before
  }

  ghost function Replayed(s: State, events: seq<Event>): (run: seq<State>)
    ensures |run| == |events| + 1 && forall n :: 0 <= n < |run| ==> run[n] == StateAt(s, events, n)
  {
    seq(|events| + 1, n requires 0 <= n <= |events| => StateAt(s, events, n))
  }

  lemma {:induction false} ReplayAlike(run: seq<State>, events: seq<Event>, events': seq<Event>, k: nat)
    requires IsRun(run, events) && SameButReads(events, events') && k < |run|
    ensures Shaped(StateAt(run[0], events', k)) && Alike(run[k], StateAt(run[0], events', k))
    ensures k < |events| ==> Enabled(StateAt(run[0], events', k), events'[k])
    decreases k
  {
    if k > 0 {
      var before := StateAt(run[0], events', k - 1);
      ReplayAlike(run, events, events', k - 1);
      assert Enabled(run[k - 1], events[k - 1]) && run[k] == Next(run[k - 1], events[k - 1]);
      NextAlike(run[k - 1], before, events[k - 1], events'[k - 1]);
      NextShaped(before, events'[k - 1]);
    }
    if k < |events| {
      assert Enabled(run[k], events[k]);
      NextAlike(run[k], StateAt(run[0], events', k), events[k], events'[k]);
    }
  }

  /** Every choice of findings gives a run. */
  lemma Replay(run: seq<State>, events: seq<Event>, events': seq<Event>) returns (run': seq<State>)
    requires IsRun(run, events) && SameButReads(events, events')
    ensures IsRun(run', events') && run'[0] == run[0]
  {
    run' := Replayed(run[0], events');
    forall k | 0 <= k < |run'| ensures Shaped(run'[k]) {
      ReplayAlike(run, events, events', k);
    }
    forall k | 0 <= k < |events'| ensures Enabled(run'[k], events'[k]) && run'[k + 1] == Next(run'[k], events'[k]) {
      ReplayAlike(run, events, events', k);
    }
  }

  // ---------------------------------------------------------- changing one read

  /** Thread t, about to insert, has computed a B that is larger by d. */
  function Shift(s: State, t: nat, d: int): State
    requires t < |s.pcs|
  {
    if s.pcs[t].Run? && s.pcs[t].stage.Ready?
    then SetPc(s, t, Run(s.pcs[t].job, s.pcs[t].stage.(myB := s.pcs[t].stage.myB + d)))
    else s
  }

  lemma ShiftAct(s: State, t: nat, d: int, u: nat, x: int)
    requires Shaped(s) && t < |s.pcs| && s.pcs[t].Run? && s.pcs[t].stage.Ready? && u < |s.pcs| && s.pcs[u].Run? && u != t
    ensures Shaped(Shift(s, t, d)) && Next(Shift(s, t, d), Act(u, x)) == Shift(Next(s, Act(u, x)), t, d)
  {
    assert Next(Shift(s, t, d), Act(u, x)).pcs == Shift(Next(s, Act(u, x)), t, d).pcs;
  }

  lemma ShiftBegin(s: State, t: nat, d: int, u: nat, p: nat)
    requires Shaped(s) && t < |s.pcs| && s.pcs[t].Run? && s.pcs[t].stage.Ready? && Enabled(s, Begin(u, p))
    ensures Shaped(Shift(s, t, d)) && BeginStep(Shift(s, t, d), u, p) == Shift(BeginStep(s, u, p), t, d)
  {
    assert BeginStep(Shift(s, t, d), u, p).pcs == Shift(BeginStep(s, u, p), t, d).pcs;
  }

  /** Nobody else notices. */
  lemma ShiftNext(s: State, t: nat, d: int, e: Event)
    requires Shaped(s) && Enabled(s, e) && t < |s.pcs| && s.pcs[t].Run? && s.pcs[t].stage.Ready?
    requires e.Act? ==> e.t != t
    ensures Shaped(Shift(s, t, d)) && Enabled(Shift(s, t, d), e)
    ensures t < |Next(s, e).pcs| && Next(Shift(s, t, d), e) == Shift(Next(s, e), t, d)
  {
    match e
    case Begin(u, p) => ShiftBegin(s, t, d, u, p);
    case Act(u, x) => ShiftAct(s, t, d, u, x);
    case Collect =>
  }

  /** Step m is somebody else's, while t is about to insert. */
  ghost predicate Waits(run: seq<State>, events: seq<Event>, m: nat, t: nat) {
    && m < |run| && m < |events| && (events[m].Act? ==> events[m].t != t)
    && t < |run[m].pcs| && run[m].pcs[t].Run? && run[m].pcs[t].stage.Ready?
  }

  /** Thread t is about to insert in state i. */
  ghost predicate Inserting(run: seq<State>, i: nat, t: nat) {
    i < |run| && t < |run[i].pcs| && run[i].pcs[t].Run? && run[i].pcs[t].stage.Ready?
  }

  /** Step j is the second read behind the insertion at i: since then the thread has
      only waited. */
  ghost predicate LastRead(run: seq<State>, events: seq<Event>, j: nat, i: nat, t: nat) {
    && j < i && Inserting(run, i, t) && j < |events| && events[j].Act? && events[j].t == t
    && t < |run[j].pcs| && run[j].pcs[t].Run? && run[j].pcs[t].stage.Rereading?
    && t < |run[j + 1].pcs| && run[j + 1].pcs[t] == run[i].pcs[t]
    && (forall m :: j < m < i ==> Waits(run, events, m, t))
  }

  lemma StepBack(s: State, e: Event, t: nat)
    requires Shaped(s) && Enabled(s, e) && t < |Next(s, e).pcs| && Next(s, e).pcs[t].Run? && Next(s, e).pcs[t].stage.Ready?
    ensures t < |s.pcs| && s.pcs[t].Run?
    ensures if e.Act? && e.t == t then s.pcs[t].stage.Rereading? else s.pcs[t] == Next(s, e).pcs[t]
  {
  }

  lemma BackAt(run: seq<State>, events: seq<Event>, i: nat, t: nat)
    requires IsRun(run, events) && Inserting(run, i, t)
    ensures i > 0 && t < |run[i - 1].pcs| && run[i - 1].pcs[t].Run?
    ensures var e := events[i - 1];
            if e.Act? && e.t == t then run[i - 1].pcs[t].stage.Rereading?
            else run[i - 1].pcs[t] == run[i].pcs[t] && Waits(run, events, i - 1, t) && Inserting(run, i - 1, t)
  {
    assert i > 0;
    assert Enabled(run[i - 1], events[i - 1]) && run[i] == Next(run[i - 1], events[i - 1]);
    StepBack(run[i - 1], events[i - 1], t);
  }

  lemma WaitLonger(run: seq<State>, events: seq<Event>, j: nat, i: nat, t: nat)
    requires LastRead(run, events, j, i, t) && Waits(run, events, i, t) && Inserting(run, i + 1, t)
    requires run[i].pcs[t] == run[i + 1].pcs[t]
    ensures LastRead(run, events, j, i + 1, t)
  {
  }

  lemma {:induction false} FindLastRead(run: seq<State>, events: seq<Event>, i: nat, t: nat) returns (j: nat)
    requires IsRun(run, events) && Inserting(run, i, t)
    ensures LastRead(run, events, j, i, t)
    decreases i
  {
    BackAt(run, events, i, t);
    if events[i - 1].Act? && events[i - 1].t == t {
      j := i - 1;
    } else {
      j := FindLastRead(run, events, i - 1, t);
      WaitLonger(run, events, j, i - 1, t);
    }
  }

  /** The events with another finding at step j. */
  function Tampered(events: seq<Event>, j: nat, t: nat, x: int): seq<Event>
    requires j < |events|
  {
    events[j := Act(t, x)]
  }

  /** Runs agree as long as their events do. */
  lemma {:induction false} SameSoFar(run: seq<State>, events: seq<Event>, run': seq<State>, events': seq<Event>, m: nat)
    requires IsRun(run, events) && IsRun(run', events') && run'[0] == run[0] && m < |run| && m < |run'|
    requires forall n :: 0 <= n < m ==> events'[n] == events[n]
    ensures run'[m] == run[m]
    decreases m
  {
    if m > 0 {
      SameSoFar(run, events, run', events', m - 1);
      assert run[m] == Next(run[m - 1], events[m - 1]) && run'[m] == Next(run'[m - 1], events'[m - 1]);
    }
  }

  /** Reading a collected node: the finding goes straight into B. */
  lemma ReadStep(s: State, t: nat, x: int, x': int)
    requires Shaped(s) && t < |s.pcs| && s.pcs[t].Run? && s.pcs[t].stage.Rereading?
    requires s.pcs[t].job.view.None? && !Has(s.chains[s.pcs[t].job.partner], s.pcs[t].stage.cursor)
    ensures Next(s, Act(t, x')) == Shift(Next(s, Act(t, x)), t, Rem100(x) - Rem100(x'))
  {
    var theirs, cursor := s.chains[s.pcs[t].job.partner], s.pcs[t].stage.cursor;
    assert Find(theirs, cursor).None?;
    assert Next(s, Act(t, x')).pcs == Shift(Next(s, Act(t, x)), t, Rem100(x) - Rem100(x')).pcs;
  }

  /** The read at step j is of a collected node, by an unregistered reader. */
  ghost predicate Loose(s: State, t: nat) {
    && t < |s.pcs| && s.pcs[t].Run? && s.pcs[t].stage.Rereading? && s.pcs[t].job.partner < |s.chains|
    && s.pcs[t].job.view.None? && !Has(s.chains[s.pcs[t].job.partner], s.pcs[t].stage.cursor)
  }

  /** In state n the other run differs only in the B that t is about to insert. */
  ghost predicate ShiftedAt(run: seq<State>, run': seq<State>, n: nat, t: nat, d: int) {
    n < |run| && n < |run'| && t < |run[n].pcs| && run'[n] == Shift(run[n], t, d)
  }

  ghost predicate Carries(run: seq<State>, run': seq<State>, n: nat, t: nat, d: int) {
    ShiftedAt(run, run', n, t, d) ==> ShiftedAt(run, run', n + 1, t, d)
  }

  lemma AtRead(run: seq<State>, events: seq<Event>, j: nat, t: nat, x: int, run': seq<State>)
    requires IsRun(run, events) && j < |events| && events[j].Act? && events[j].t == t && Loose(run[j], t)
    requires IsRun(run', Tampered(events, j, t, x)) && run'[0] == run[0]
    ensures ShiftedAt(run, run', j + 1, t, Rem100(events[j].x) - Rem100(x))
  {
    var events' := Tampered(events, j, t, x);
    SameSoFar(run, events, run', events', j);
    assert Enabled(run[j], events[j]) && run[j + 1] == Next(run[j], events[j]);
    assert run'[j + 1] == Next(run'[j], events'[j]);
    ReadStep(run[j], t, events[j].x, x);
  }

  lemma WhileWaiting(run: seq<State>, events: seq<Event>, run': seq<State>, events': seq<Event>, m: nat, t: nat, d: int)
    requires IsRun(run, events) && IsRun(run', events') && Waits(run, events, m, t)
    requires |events'| == |events| && events'[m] == events[m]
    ensures Carries(run, run', m, t, d)
  {
    if ShiftedAt(run, run', m, t, d) {
      assert Enabled(run[m], events[m]) && run[m + 1] == Next(run[m], events[m]);
      assert run'[m + 1] == Next(run'[m], events'[m]);
      ShiftNext(run[m], t, d, events[m]);
    }
  }

  lemma {:induction false} AfterRead(run: seq<State>, run': seq<State>, j: nat, t: nat, d: int, m: nat)
    requires ShiftedAt(run, run', j + 1, t, d) && j < m
    requires forall n :: j < n < m ==> Carries(run, run', n, t, d)
    ensures ShiftedAt(run, run', m, t, d)
    decreases m
  {
    if m > j + 1 {
      AfterRead(run, run', j, t, d, m - 1);
      assert Carries(run, run', m - 1, t, d);
    }
  }

  // ------------------------------------------------------------- conservation

  /** An insertion by a reader that was registered, or that found its node both times. */
  ghost predicate Sound(s: State, e: Event) {
    Inserts(s, e) ==> s.pcs[e.t].job.view.Some? || s.pcs[e.t].stage.clean
  }

  ghost predicate SoundUpTo(run: seq<State>, events: seq<Event>, k: nat) {
    k < |run| && k <= |events| && forall i :: 0 <= i < k ==> Sound(run[i], events[i])
  }

  /** Whatever the reads of collected nodes find, the sum is kept up to state k. */
  ghost predicate AlwaysKept(run: seq<State>, events: seq<Event>, k: nat) {
    forall run': seq<State>, events': seq<Event> ::
      IsRun(run', events') && run != [] && run'[0] == run[0] && SameButReads(events, events') ==> SumKept(run', k)
  }

  lemma SoundKeeps(run: seq<State>, events: seq<Event>, k: nat, run': seq<State>, events': seq<Event>)
    requires IsRun(run, events) && SoundUpTo(run, events, k)
    requires IsRun(run', events') && run'[0] == run[0] && SameButReads(events, events')
    ensures SumKept(run', k)
  {
    forall i | 0 <= i <= k ensures Total(run'[i].chains) == Total(run'[0].chains) {
      forall m | 0 <= m < i && Inserts(run'[m], events'[m])
        ensures run'[m].pcs[events'[m].t].job.view.Some? || run'[m].pcs[events'[m].t].stage.clean
      {
        var t := events'[m].t;
        RunsAlike(run, events, run', events', m);
        assert SameEvent(events[m], events'[m]) && BlankPc(run[m].pcs[t]) == BlankPc(run'[m].pcs[t]);
        assert SameVersions(run[m].chains[t], run'[m].chains[t]);
        assert Sound(run[m], events[m]);
      }
      TotalConserved(run', events', i);
    }
  }

  /** The read behind an unsound insertion was of a collected node. */
  lemma UnsoundRead(run: seq<State>, events: seq<Event>, j: nat, i: nat, t: nat)
    requires IsRun(run, events) && LastRead(run, events, j, i, t) && !run[i].pcs[t].stage.clean
    ensures Loose(run[j], t)
  {
    RunInv(run, events, j);
    assert ThreadOk(run[j], t);
    assert Enabled(run[j], events[j]) && run[j + 1] == Next(run[j], events[j]);
  }

  lemma ShiftDrift(s: State, t: nat, d: int, e: Event)
    requires Inserts(s, e) && e.t == t
    ensures Drift(Shift(s, t, d), e) == Drift(s, e) + d
  {
  }

  /** Another finding at the read behind an insertion changes its drift. */
  lemma Retold(run: seq<State>, events: seq<Event>, j: nat, i: nat, t: nat, x: int, run': seq<State>)
    requires IsRun(run, events) && i < |events| && Inserts(run[i], events[i]) && events[i].t == t
    requires LastRead(run, events, j, i, t) && Loose(run[j], t)
    requires IsRun(run', Tampered(events, j, t, x)) && run'[0] == run[0]
    ensures Drift(run'[i], events[i]) == Drift(run[i], events[i]) + Rem100(events[j].x) - Rem100(x)
  {
    var d := Rem100(events[j].x) - Rem100(x);
    AtRead(run, events, j, t, x, run');
    forall n | j < n < i ensures Carries(run, run', n, t, d) {
      assert Waits(run, events, n, t);
      WhileWaiting(run, events, run', Tampered(events, j, t, x), n, t, d);
    }
    AfterRead(run, run', j, t, d, i);
    ShiftDrift(run[i], t, d, events[i]);
  }

  lemma OtherFinding(run: seq<State>, events: seq<Event>, i: nat) returns (run': seq<State>, events': seq<Event>)
    requires IsRun(run, events) && i < |events| && !Sound(run[i], events[i])
    ensures IsRun(run', events') && run'[0] == run[0] && SameButReads(events, events') && events'[i] == events[i]
    ensures Drift(run'[i], events'[i]) != Drift(run[i], events[i])
  {
    var t := events[i].t;
    var j := FindLastRead(run, events, i, t);
    UnsoundRead(run, events, j, i, t);
    var x := if Rem100(events[j].x) == 0 then 1 else 0;
    events' := Tampered(events, j, t, x);
    run' := Replay(run, events, events');
    Retold(run, events, j, i, t, x, run');
  }

  lemma DriftBreaks(run: seq<State>, events: seq<Event>, i: nat, k: nat)
    requires IsRun(run, events) && i < k < |run| && Drift(run[i], events[i]) != 0
    ensures !SumKept(run, k)
  {
    DriftAt(run, events, i);
  }

  /** So one of the two findings breaks the sum. */
  lemma UnsoundBreaks(run: seq<State>, events: seq<Event>, i: nat, k: nat)
    requires IsRun(run, events) && i < k < |run| && !Sound(run[i], events[i])
    ensures !AlwaysKept(run, events, k)
  {
    if Drift(run[i], events[i]) != 0 {
      DriftBreaks(run, events, i, k);
      assert SameButReads(events, events);
    } else {
      var run', events' := OtherFinding(run, events, i);
      DriftBreaks(run', events', i, k);
    }
  }

  /** Conservation, exactly: whatever is found in collected nodes, the sum of A + B over
      the newest versions stays what it was at the start if and only if every insertion
      so far was by a reader that had found its partner active, or that read its node
      both times before it was collected. */
  lemma ConservedExactly(run: seq<State>, events: seq<Event>, k: nat)
    requires IsRun(run, events) && k < |run|
    ensures AlwaysKept(run, events, k) <==> SoundUpTo(run, events, k)
  {
    if SoundUpTo(run, events, k) {
      forall run': seq<State>, events': seq<Event> |
        IsRun(run', events') && run != [] && run'[0] == run[0] && SameButReads(events, events')
        ensures SumKept(run', k)
      {
        SoundKeeps(run, events, k, run', events');
      }
    } else {
      var i :| 0 <= i < k && !Sound(run[i], events[i]);
      UnsoundBreaks(run, events, i, k);
    }
  }
}
