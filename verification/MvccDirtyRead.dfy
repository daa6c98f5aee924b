/** A run in which the printed sum changes. A reader that finds its partner
    inactive is not registered in the partner's queue, so the collector may free the
    node it stands on; its two reads of A then disagree. */
module MvccDirtyRead {
  import opened Options
  import opened Mvcc
  import opened MvccChains

  /** Some run that starts in s0 passes through s. */
  ghost predicate Reaches(s0: State, s: State) {
    exists run, events :: IsRun(run, events) && run[0] == s0 && run[|run| - 1] == s
  }

  ghost predicate Same(a: State, b: State) {
    && a.counter == b.counter && a.active == b.active && a.chains == b.chains
    && a.queues == b.queues && a.pcs == b.pcs && a.gc == b.gc
  }

  lemma Step(s0: State, s: State, e: Event, s': State)
    requires Reaches(s0, s) && Shaped(s) && Enabled(s, e) && Same(s', Next(s, e))
    ensures Reaches(s0, s') && Shaped(s')
  {
    var run, events :| IsRun(run, events) && run[0] == s0 && run[|run| - 1] == s;
    NextShaped(s, e);
    var run', events' := run + [s'], events + [e];
    assert IsRun(run', events') && run'[0] == s0 && run'[|run'| - 1] == s';
  }

  const EMPTY := Queue([], 0, 0)

  /** Thread 2 has read A of thread 0's version 0 once and is about to read it again. */
  const STALLED := Run(Job(0, 1, None), Rereading(0, 1, 0, true))

  const START := State(0, [], [[Node(1, 0, 0)], [Node(0, 0, 0)], [Node(0, 0, 0)]],
                       [EMPTY, EMPTY, EMPTY], [Idle, Idle, Idle], GcMinimum(0))

  const AFTER_STALL := START.(counter := 1, active := [ActiveEntry(2, 1)], pcs := [Idle, Idle, STALLED])

  lemma Lookups(a: ActiveEntry, b: ActiveEntry, c: ActiveEntry)
    requires a.index == 1 && b.index == 0 && c.index == 2
    ensures LookupActive(Capture([b, c]), 1) == None
    ensures LookupActive(Capture([a, b, c]), 0) == Some(b.version)
  {
    LookupNone([b, c], 1);
    LookupCapture([a, b, c], 1);
  }

  /** Threads 0 and 1 start: 0 on 1 (inactive), then 1 on 0 (now active). */
  lemma StartPair(s: State, s': State)
    requires Reaches(START, s) && Shaped(s)
    requires |s.pcs| == 3 && s.pcs[0].Idle? && s.pcs[1].Idle? && s.active == [ActiveEntry(2, 1)]
    requires Same(s', s.(counter := s.counter + 2,
                         active := [ActiveEntry(1, s.counter + 2), ActiveEntry(0, s.counter + 1), ActiveEntry(2, 1)],
                         queues := s.queues[0 := s.queues[0].(entries := s.queues[0].entries + [s.counter + 1])],
                         pcs := s.pcs[0 := Run(Job(1, s.counter + 1, None), Begun)]
                                     [1 := Run(Job(0, s.counter + 2, Some(s.counter + 1)), Begun)]))
    ensures Reaches(START, s') && Shaped(s')
  {
    var v := s.counter + 1;
    Lookups(ActiveEntry(1, v + 1), ActiveEntry(0, v), ActiveEntry(2, 1));
    var l := [ActiveEntry(0, v), ActiveEntry(2, 1)];
    assert [ActiveEntry(0, v)] + s.active == l;
    assert [ActiveEntry(1, v + 1)] + l == [ActiveEntry(1, v + 1), ActiveEntry(0, v), ActiveEntry(2, 1)];
    var s1 := s.(counter := v, active := l, pcs := s.pcs[0 := Run(Job(1, v, None), Begun)]);
    Step(START, s, Begin(0, 1), s1);
    Step(START, s1, Begin(1, 0), s');
  }

  /** The walk of a thread that finds what it looks for in the first node. */
  lemma WalkFirst(s: State, t: nat, job: Job, read: State)
    requires Reaches(START, s) && Shaped(s) && t < |s.pcs| && s.pcs[t] == Run(job, Begun)
    requires s.chains[t] != [] && s.chains[job.partner] != []
    requires job.view.Some? ==> s.chains[job.partner][0].version < job.view.value
    requires read == SetPc(s, t, Run(job, Reading(s.chains[job.partner][0].version, s.chains[t][0].A, s.chains[t][0].B)))
    ensures Reaches(START, read) && Shaped(read)
  {
    var mine, theirs := s.chains[t], s.chains[job.partner];
    if job.view.Some? {
      assert Has(theirs, theirs[0].version);
      var walk := SetPc(s, t, Run(job, Walking(theirs[0].version, mine[0].A, mine[0].B)));
      Step(START, s, Act(t, 0), walk);
      Step(START, walk, Act(t, 0), read);
    } else {
      Step(START, s, Act(t, 0), read);
    }
  }

  lemma StallBegin(s1: State)
    requires s1 == AFTER_STALL.(pcs := [Idle, Idle, Run(Job(0, 1, None), Begun)])
    ensures Reaches(START, s1) && Shaped(s1)
  {
    assert IsRun([START], []);
    LookupNone([ActiveEntry(2, 1)], 0);
    assert [ActiveEntry(2, 1)] + [] == [ActiveEntry(2, 1)];
    Step(START, START, Begin(2, 0), s1);
  }

  lemma Stall()
    ensures Reaches(START, AFTER_STALL) && Shaped(AFTER_STALL)
  {
    var job := Job(0, 1, None);
    var s1 := AFTER_STALL.(pcs := [Idle, Idle, Run(job, Begun)]);
    StallBegin(s1);
    var read := SetPc(s1, 2, Run(job, Reading(0, 0, 0)));
    WalkFirst(s1, 2, job, read);
    assert START.chains[0][0].version == 0;
    assert Find(START.chains[0], 0) == Some(0);
    Step(START, read, Act(2, 0), AFTER_STALL);
  }

  /** Between its two regions, such a thread ends up ready with the sum it started from. */
  lemma ReadFirst(s: State, t: nat, job: Job, ready: State)
    requires Reaches(START, s) && Shaped(s) && t < |s.pcs| && s.pcs[t] == Run(job, Begun)
    requires s.chains[t] != [] && s.chains[job.partner] != []
    requires job.view.Some? ==> s.chains[job.partner][0].version < job.view.value
    requires var (mine, x) := (s.chains[t], Rem100(s.chains[job.partner][0].A));
             ready == SetPc(s, t, Run(job, Ready(mine[0].A + x, mine[0].B - x, true)))
    ensures Reaches(START, ready) && Shaped(ready)
  {
    var mine, theirs := s.chains[t], s.chains[job.partner];
    var c, x := theirs[0].version, Rem100(theirs[0].A);
    var read := SetPc(s, t, Run(job, Reading(c, mine[0].A, mine[0].B)));
    WalkFirst(s, t, job, read);
    assert Has(theirs, c) && Find(theirs, c) == Some(0);
    var reread := SetPc(s, t, Run(job, Rereading(c, mine[0].A + x, mine[0].B, true)));
    Step(START, read, Act(t, 0), reread);
    Step(START, reread, Act(t, 0), ready);
  }

  /** Before the collector runs: thread 0 has versions 2 and 0 and minimum 2. */
  const COLLECTABLE := State(5, [ActiveEntry(0, 4), ActiveEntry(2, 1)],
    [[Node(2, -1, 2), Node(1, 0, 0)], [Node(3, -3, 5), Node(1, -1, 3), Node(0, 0, 0)], [Node(0, 0, 0)]],
    [Queue([], 2, 4), EMPTY, EMPTY],
    [Run(Job(1, 4, None), Begun), Idle, STALLED], GcMinimum(0))

  const FIRST_DONE := State(3, [ActiveEntry(0, 2), ActiveEntry(2, 1)],
    [[Node(1, 0, 0)], [Node(1, -1, 3), Node(0, 0, 0)], [Node(0, 0, 0)]],
    [Queue([], 0, 2), EMPTY, EMPTY],
    [Run(Job(1, 2, None), Begun), Idle, STALLED], GcMinimum(0))

  const PARTNER_DONE := FIRST_DONE.(
    active := [ActiveEntry(2, 1)],
    chains := [[Node(2, -1, 2), Node(1, 0, 0)], [Node(1, -1, 3), Node(0, 0, 0)], [Node(0, 0, 0)]],
    pcs := [Idle, Idle, STALLED])

  /** Thread 1 registers on thread 0 at version 2, reads and ends. */
  lemma FirstReader()
    ensures Reaches(START, FIRST_DONE)
  {
    Stall();
    var job := Job(0, 3, Some(2));
    var s := FIRST_DONE.(
      active := [ActiveEntry(1, 3), ActiveEntry(0, 2), ActiveEntry(2, 1)],
      chains := START.chains, queues := [Queue([2], 0, 0), EMPTY, EMPTY],
      pcs := [Run(Job(1, 2, None), Begun), Run(job, Begun), STALLED]);
    assert [] + [2] == [2];
    StartPair(AFTER_STALL, s);
    var ready := SetPc(s, 1, Run(job, Ready(1, -1, true)));
    ReadFirst(s, 1, job, ready);
    assert [Node(1, -1, 3)] + s.chains[1] == FIRST_DONE.chains[1];
    var inserted := s.(chains := FIRST_DONE.chains, pcs := s.pcs[1 := Run(job, Inserted)]);
    Step(START, ready, Act(1, 0), inserted);
    assert s.active[1..] == FIRST_DONE.active;
    Step(START, inserted, Act(1, 0), FIRST_DONE);
  }

  /** Thread 0 reads thread 1 and ends. */
  lemma Partner()
    ensures Reaches(START, PARTNER_DONE)
  {
    FirstReader();
    var job := Job(1, 2, None);
    var ready := SetPc(FIRST_DONE, 0, Run(job, Ready(2, -1, true)));
    ReadFirst(FIRST_DONE, 0, job, ready);
    assert [Node(2, -1, 2)] + FIRST_DONE.chains[0] == PARTNER_DONE.chains[0];
    var inserted := FIRST_DONE.(chains := PARTNER_DONE.chains, pcs := FIRST_DONE.pcs[0 := Run(job, Inserted)]);
    Step(START, ready, Act(0, 0), inserted);
    assert FIRST_DONE.active[1..] == PARTNER_DONE.active;
    Step(START, inserted, Act(0, 0), PARTNER_DONE);
  }

  /** Thread 1 registers on thread 0 again, at version 4; its end raises the minimum. */
  lemma SecondReader()
    ensures Reaches(START, COLLECTABLE)
  {
    Partner();
    var job := Job(0, 5, Some(4));
    var s := PARTNER_DONE.(
      counter := 5, active := [ActiveEntry(1, 5), ActiveEntry(0, 4), ActiveEntry(2, 1)],
      queues := [Queue([4], 0, 2), EMPTY, EMPTY],
      pcs := [Run(Job(1, 4, None), Begun), Run(job, Begun), STALLED]);
    assert [] + [4] == [4];
    StartPair(PARTNER_DONE, s);
    var ready := SetPc(s, 1, Run(job, Ready(3, -3, true)));
    ReadFirst(s, 1, job, ready);
    assert [Node(3, -3, 5)] + s.chains[1] == COLLECTABLE.chains[1];
    var inserted := s.(chains := COLLECTABLE.chains, pcs := s.pcs[1 := Run(job, Inserted)]);
    Step(START, ready, Act(1, 0), inserted);
    assert s.active[1..] == COLLECTABLE.active;
    Step(START, inserted, Act(1, 0), COLLECTABLE);
  }

  const COLLECTED := COLLECTABLE.(
    chains := [[Node(2, -1, 2)], [Node(3, -3, 5), Node(1, -1, 3), Node(0, 0, 0)], [Node(0, 0, 0)]],
    gc := GcMinimum(1))

  lemma Cut()
    ensures Reaches(START, COLLECTED)
  {
    SecondReader();
    var c := COLLECTABLE.chains[0];
    assert Find(c, 2) == Some(0);
    var (g1, g2, g3) := (GcHead(0, 2), GcWalk(0, 2, None, Some(2)), GcWalk(0, 2, Some(2), Some(0)));
    Step(START, COLLECTABLE, Collect, COLLECTABLE.(gc := g1));
    Step(START, COLLECTABLE.(gc := g1), Collect, COLLECTABLE.(gc := g2));
    Step(START, COLLECTABLE.(gc := g2), Collect, COLLECTABLE.(gc := g3));
    assert c[..1] == [Node(2, -1, 2)];
    Step(START, COLLECTABLE.(gc := g3), Collect, COLLECTED);
  }

  /** Conservation is false in general: some run of three threads ends with a
      different sum of A + B than it started with. */
  lemma SumNotConserved()
    ensures exists run: seq<State>, events: seq<Event> :: IsRun(run, events) && Total(run[|run| - 1].chains) != Total(run[0].chains)
  {
    Cut();
    assert !Has(COLLECTED.chains[0], 0);
    var ready := SetPc(COLLECTED, 2, Run(Job(0, 1, None), Ready(1, 0, false)));
    Step(START, COLLECTED, Act(2, 0), ready);
    var c := COLLECTED.chains;
    var last := ready.(chains := [c[0], c[1], [Node(1, 0, 1), Node(0, 0, 0)]],
                       pcs := [ready.pcs[0], Idle, Run(Job(0, 1, None), Inserted)]);
    assert [Node(1, 0, 1)] + c[2] == last.chains[2];
    Step(START, ready, Act(2, 0), last);
    TotalUpdate(START.chains, 0, c[0]);
    var d := START.chains[0 := c[0]];
    TotalUpdate(d, 1, c[1]);
    TotalUpdate(d[1 := c[1]], 2, last.chains[2]);
    assert d[1 := c[1]][2 := last.chains[2]] == last.chains;
  }
}
