/** A finished run in which the printed maximum is one too large: both searches
    first meet off the shortest way, one layer too late for the correction to see it. */
module SearchOvershoot {
  import opened Graph
  import opened Search
  import opened SearchResult

  // Houses 0 and 1; the short way is 0 - 2 - 1, the long ones 0 - 3 - 5 - 1 and 0 - 4 - 5 - 1.
  const STREETS: Graph := [[3, 4, 2], [5, 2], [0, 1], [0, 5], [0, 5], [1, 3, 4]]
  const TOWN := Problem(STREETS, [0, 1])

  ghost predicate Reaches(p: Problem, s: State) {
    && ValidProblem(p) && |p.houses| == 2 && Shaped(p, s)
    && exists sched :: Schedule(p, sched) && s == Exec(p, sched)
  }

  /** The state in which only thread t and the flags have changed. */
  function Put(s: State, t: nat, flags: seq<set<nat>>, th: Thread): State
    requires |s.threads| == 2
  {
    State(flags, if t == 0 then [th, s.threads[1]] else [s.threads[0], th])
  }

  lemma Step(p: Problem, s: State, t: nat, s': State)
    requires Reaches(p, s) && t < 2 && s' == Put(s, t, Next(p, s, t).flags, Next(p, s, t).threads[t])
    ensures Reaches(p, s')
  {
    var sched :| Schedule(p, sched) && s == Exec(p, sched);
    assert (sched + [t])[..|sched|] == sched;
    assert s'.threads == Exec(p, sched + [t]).threads;
    assert s' == Exec(p, sched + [t]);
  }

  /** Thread t takes vertex v off its queue. */
  lemma Take(p: Problem, s: State, t: nat, v: nat, s': State)
    requires Reaches(p, s) && t < 2 && s.threads[t].pc.Dequeue?
    requires s.threads[t].front < |s.threads[t].queue| && s.threads[t].queue[s.threads[t].front] == Vertex(v)
    requires s' == Put(s, t, s.flags, s.threads[t].(front := s.threads[t].front + 1, pc := Scan(v, 0)))
    ensures Reaches(p, s')
  {
    Step(p, s, t, s');
  }

  /** Thread t passes a fence; q and fences are its queue and fence list afterwards. */
  lemma Pass(p: Problem, s: State, t: nat, q: seq<Entry>, fences: seq<nat>, all: bool, s': State)
    requires Reaches(p, s) && t < 2 && s.threads[t].pc.Dequeue?
    requires var th := s.threads[t];
             && th.front < |th.queue| && th.queue[th.front].Fence?
             && q == th.queue + [Fence(th.depth + 1)] && fences == th.fences + [th.front]
             && s' == Put(s, t, s.flags,
                  th.(front := th.front + 1, depth := th.depth + 1, queue := q, fences := fences,
                      nextFence := |th.queue|, pc := if all then Done else Dequeue))
             && (all <==> MetAll(p, th.visited))
    ensures Reaches(p, s')
  {
    Step(p, s, t, s');
  }

  /** Thread t skips a neighbour it has already marked. */
  lemma Skip(p: Problem, s: State, t: nat, w: nat, s': State)
    requires Reaches(p, s) && t < 2 && s.threads[t].pc.Scan?
    requires var pc := s.threads[t].pc;
             && pc.curr < |p.g| && pc.i < |p.g[pc.curr]| && w == p.g[pc.curr][pc.i] && w < |s.flags| && t in s.flags[w]
             && s' == Put(s, t, s.flags, s.threads[t].(pc := Scan(pc.curr, pc.i + 1)))
    ensures Reaches(p, s')
  {
    Step(p, s, t, s');
  }

  /** Thread t has looked at all neighbours of the vertex in hand. */
  lemma Leave(p: Problem, s: State, t: nat, s': State)
    requires Reaches(p, s) && t < 2 && s.threads[t].pc.Scan?
    requires s.threads[t].pc.curr < |p.g| && s.threads[t].pc.i == |p.g[s.threads[t].pc.curr]|
    requires s' == Put(s, t, s.flags, s.threads[t].(pc := Dequeue))
    ensures Reaches(p, s')
  {
    Step(p, s, t, s');
  }

  lemma QuietMark(th: Thread, w: nat, before: set<nat>)
    requires th.pc.Mark? && before <= th.visited
    ensures MarkStep(th, w, before) == th.(queue := th.queue + [Vertex(w)], pc := Scan(th.pc.curr, th.pc.i + 1))
  {
    assert before - th.visited == {};
    assert MarkStep(th, w, before).visited == th.visited && MarkStep(th, w, before).info == th.info;
  }

  lemma MeetingMark(th: Thread, w: nat, u: nat)
    requires th.pc.Mark? && u !in th.visited
    ensures MarkStep(th, w, {u}) ==
      th.(visited := th.visited + {u}, info := th.info[u := Info(w, th.depth + 1)],
          queue := th.queue + [Vertex(w)], pc := Scan(th.pc.curr, th.pc.i + 1))
  {
    var one := {u};
    assert one - th.visited == one;
    assert MarkStep(th, w, one).info == th.info[u := Info(w, th.depth + 1)];
  }

  /** Thread t finds its bit off at neighbour w. */
  lemma Aim(p: Problem, s: State, t: nat, w: nat, s': State)
    requires Reaches(p, s) && t < 2 && s.threads[t].pc.Scan?
    requires var pc := s.threads[t].pc;
             && pc.curr < |p.g| && pc.i < |p.g[pc.curr]| && w == p.g[pc.curr][pc.i] && w < |s.flags| && t !in s.flags[w]
             && s' == Put(s, t, s.flags, s.threads[t].(pc := Mark(pc.curr, pc.i)))
    ensures Reaches(p, s')
  {
    Step(p, s, t, s');
  }

  /** Thread t marks neighbour w. */
  lemma Hit(p: Problem, s: State, t: nat, w: nat, s': State)
    requires Reaches(p, s) && t < 2 && s.threads[t].pc.Mark?
    requires var pc := s.threads[t].pc;
             && pc.curr < |p.g| && pc.i < |p.g[pc.curr]| && w == p.g[pc.curr][pc.i] && w < |s.flags|
             && s' == Put(s, t, s.flags[w := s.flags[w] + {t}], MarkStep(s.threads[t], w, s.flags[w]))
    ensures Reaches(p, s')
  {
    Step(p, s, t, s');
  }

  /** Two steps: thread t finds its bit off at neighbour w and marks it, noticing
      nobody new; q is its queue afterwards. */
  lemma Find(p: Problem, s: State, t: nat, w: nat, q: seq<Entry>, s': State)
    requires Reaches(p, s) && t < 2 && s.threads[t].pc.Scan?
    requires var th := s.threads[t];
             && th.pc.curr < |p.g| && th.pc.i < |p.g[th.pc.curr]|
             && w == p.g[th.pc.curr][th.pc.i] && w < |s.flags| && t !in s.flags[w]
             && s.flags[w] <= th.visited && q == th.queue + [Vertex(w)]
             && s' == Put(s, t, s.flags[w := s.flags[w] + {t}],
                          th.(queue := q, pc := Scan(th.pc.curr, th.pc.i + 1)))
    ensures Reaches(p, s')
  {
    var m := s.threads[t].(pc := Mark(s.threads[t].pc.curr, s.threads[t].pc.i));
    var s1 := Put(s, t, s.flags, m);
    Aim(p, s, t, w, s1);
    QuietMark(m, w, s.flags[w]);
    Hit(p, s1, t, w, s');
  }

  /** The same, meeting thread u for the first time. */
  lemma Meet(p: Problem, s: State, t: nat, w: nat, u: nat, q: seq<Entry>, s': State)
    requires Reaches(p, s) && t < 2 && s.threads[t].pc.Scan?
    requires var th := s.threads[t];
             && th.pc.curr < |p.g| && th.pc.i < |p.g[th.pc.curr]|
             && w == p.g[th.pc.curr][th.pc.i] && w < |s.flags| && t !in s.flags[w]
             && s.flags[w] == {u} && u !in th.visited && q == th.queue + [Vertex(w)]
             && s' == Put(s, t, s.flags[w := s.flags[w] + {t}],
                          th.(queue := q, visited := th.visited + {u}, info := th.info[u := Info(w, th.depth + 1)],
                              pc := Scan(th.pc.curr, th.pc.i + 1)))
    ensures Reaches(p, s')
  {
    var m := s.threads[t].(pc := Mark(s.threads[t].pc.curr, s.threads[t].pc.i));
    var s1 := Put(s, t, s.flags, m);
    Aim(p, s, t, w, s1);
    MeetingMark(m, w, u);
    Hit(p, s1, t, w, s');
  }

  function Mark1(flags: seq<set<nat>>, w: nat, t: nat): seq<set<nat>>
    requires w < |flags|
  {
    flags[w := flags[w] + {t}]
  }

  const A0 := InitThread(0, 0)
  const B0 := InitThread(1, 1)
  const F0: seq<set<nat>> := seq(6, v => set t | 0 <= t < |TOWN.houses| && TOWN.houses[t] == v)

  lemma Start()
    ensures Reaches(TOWN, State(F0, [A0, B0]))
  {
    assert ValidProblem(TOWN);
    assert Schedule(TOWN, []);
    var i := Exec(TOWN, []);
    assert i.threads == [A0, B0];
    assert i == State(F0, [A0, B0]);
  }

  /** What the run starts from, vertex by vertex. */
  lemma StartFlags()
    ensures |F0| == 6 && 0 in F0[0] && 1 !in F0[0] && 1 in F0[1]
    ensures forall v, t :: 2 <= v < 6 ==> t !in F0[v]
  {
    assert TOWN.houses[0] == 0 && TOWN.houses[1] == 1;
  }

  lemma MetFacts()
    ensures !MetAll(TOWN, {1}) && MetAll(TOWN, {0} + {1}) && MetAll(TOWN, {1} + {0})
  {
    var one: set<nat> := {1};
    assert 0 !in one;
  }

  // Thread 1 finds 5 and 2, passes its fence, and finds 3 from 5.
  const F1 := Mark1(Mark1(F0, 5, 1), 2, 1)
  const B1 := B0.(queue := [Vertex(1), Fence(0), Vertex(5), Vertex(2)], front := 1)

  lemma FirstLayer()
    ensures Reaches(TOWN, State(F1, [A0, B1]))
  {
    Start();
    StartFlags();
    var b := B0.(front := 1, pc := Scan(1, 0));
    Take(TOWN, State(F0, [A0, B0]), 1, 1, State(F0, [A0, b]));
    var b' := b.(queue := [Vertex(1), Fence(0), Vertex(5)], pc := Scan(1, 1));
    var f := Mark1(F0, 5, 1);
    Find(TOWN, State(F0, [A0, b]), 1, 5, b'.queue, State(f, [A0, b']));
    var b'' := B1.(pc := Scan(1, 2));
    Find(TOWN, State(f, [A0, b']), 1, 2, B1.queue, State(F1, [A0, b'']));
    Leave(TOWN, State(F1, [A0, b'']), 1, State(F1, [A0, B1]));
  }

  const F2 := Mark1(F1, 3, 1)
  const B2 := Thread([Vertex(1), Fence(0), Vertex(5), Vertex(2), Fence(1), Vertex(3)], 3, 1, [0, 1], 4,
                     {1}, map[], Scan(5, 2))

  const B1_SCANNING := B2.(queue := [Vertex(1), Fence(0), Vertex(5), Vertex(2), Fence(1)], front := 3, pc := Scan(5, 0))

  lemma PassFirstFence(b: Thread)
    requires b == B1_SCANNING.(front := 2, pc := Dequeue)
    ensures Reaches(TOWN, State(F1, [A0, b]))
  {
    FirstLayer();
    MetFacts();
    Pass(TOWN, State(F1, [A0, B1]), 1, B1_SCANNING.queue, [0, 1], false, State(F1, [A0, b]));
  }

  lemma TakeFive()
    ensures Reaches(TOWN, State(F1, [A0, B1_SCANNING]))
  {
    var b := B1_SCANNING.(front := 2, pc := Dequeue);
    PassFirstFence(b);
    Take(TOWN, State(F1, [A0, b]), 1, 5, State(F1, [A0, B1_SCANNING]));
  }

  lemma SecondLayer()
    ensures Reaches(TOWN, State(F2, [A0, B2]))
  {
    TakeFive();
    StartFlags();
    var b := B1_SCANNING.(pc := Scan(5, 1));
    Skip(TOWN, State(F1, [A0, B1_SCANNING]), 1, 1, State(F1, [A0, b]));
    Find(TOWN, State(F1, [A0, b]), 1, 3, B2.queue, State(F2, [A0, B2]));
  }

  // Thread 0 meets thread 1 at 3, finds 4 and 2, and stops.
  const F3 := Mark1(Mark1(Mark1(F2, 3, 0), 4, 0), 2, 0)
  const A3 := Thread([Vertex(0), Fence(0), Vertex(3), Vertex(4), Vertex(2), Fence(1)], 2, 1, [0, 1], 5,
                     {0} + {1}, map[1 := Info(3, 1)], Done)

  const A1 := A0.(queue := [Vertex(0), Fence(0), Vertex(3)], front := 1, visited := {0} + {1},
                  info := map[1 := Info(3, 1)], pc := Scan(0, 1))
  const A2 := A1.(queue := [Vertex(0), Fence(0), Vertex(3), Vertex(4), Vertex(2)], pc := Scan(0, 3))

  lemma FlagOfThree()
    ensures |F2| == 6 && F2[3] == {1}
  {
    StartFlags();
  }

  lemma TakeHouse(a: Thread)
    requires a == A0.(front := 1, pc := Scan(0, 0))
    ensures Reaches(TOWN, State(F2, [a, B2]))
  {
    SecondLayer();
    Take(TOWN, State(F2, [A0, B2]), 0, 0, State(F2, [a, B2]));
  }

  lemma MeetWith(f: seq<set<nat>>, a: Thread)
    requires |f| == 6 && f[3] == {1} && a == A0.(front := 1, pc := Scan(0, 0)) && Reaches(TOWN, State(f, [a, B2]))
    ensures Reaches(TOWN, State(Mark1(f, 3, 0), [A1, B2]))
  {
    Meet(TOWN, State(f, [a, B2]), 0, 3, 1, A1.queue, State(Mark1(f, 3, 0), [A1, B2]));
  }

  lemma MeetAtThree()
    ensures Reaches(TOWN, State(Mark1(F2, 3, 0), [A1, B2]))
  {
    var a := A0.(front := 1, pc := Scan(0, 0));
    TakeHouse(a);
    FlagOfThree();
    MeetWith(F2, a);
  }

  lemma FindFourAndTwo()
    ensures Reaches(TOWN, State(F3, [A2, B2]))
  {
    StartFlags();
    MeetAtThree();
    var f1, f2 := Mark1(F2, 3, 0), Mark1(Mark1(F2, 3, 0), 4, 0);
    var a := A1.(queue := [Vertex(0), Fence(0), Vertex(3), Vertex(4)], pc := Scan(0, 2));
    assert f1[4] == {} && f2[2] == {1};
    Find(TOWN, State(f1, [A1, B2]), 0, 4, a.queue, State(f2, [a, B2]));
    Find(TOWN, State(f2, [a, B2]), 0, 2, A2.queue, State(F3, [A2, B2]));
  }

  lemma LeaveHouse(a: Thread)
    requires a == A2.(pc := Dequeue)
    ensures Reaches(TOWN, State(F3, [a, B2]))
  {
    FindFourAndTwo();
    Leave(TOWN, State(F3, [A2, B2]), 0, State(F3, [a, B2]));
  }

  lemma OtherSearch()
    ensures Reaches(TOWN, State(F3, [A3, B2]))
  {
    MetFacts();
    var a := A2.(pc := Dequeue);
    LeaveHouse(a);
    Pass(TOWN, State(F3, [a, B2]), 0, A3.queue, [0, 1], true, State(F3, [A3, B2]));
  }

  // Thread 1 meets thread 0 at 4, goes on, and stops at the next fence.
  const F4 := Mark1(Mark1(F3, 4, 1), 0, 1)
  const B3 := Thread([Vertex(1), Fence(0), Vertex(5), Vertex(2), Fence(1), Vertex(3), Vertex(4), Vertex(0), Fence(2)],
                     5, 2, [0, 1, 4], 8, {1} + {0}, map[0 := Info(4, 2)], Done)

  lemma MeetAtFour(b2: Thread)
    requires b2 == B2.(queue := [Vertex(1), Fence(0), Vertex(5), Vertex(2), Fence(1), Vertex(3), Vertex(4)],
                       visited := {1} + {0}, info := map[0 := Info(4, 2)], pc := Dequeue)
    ensures Reaches(TOWN, State(Mark1(F3, 4, 1), [A3, b2]))
  {
    OtherSearch();
    StartFlags();
    var b1 := b2.(pc := Scan(5, 3));
    assert F3[4] == {0};
    Meet(TOWN, State(F3, [A3, B2]), 1, 4, 0, b1.queue, State(Mark1(F3, 4, 1), [A3, b1]));
    Leave(TOWN, State(Mark1(F3, 4, 1), [A3, b1]), 1, State(Mark1(F3, 4, 1), [A3, b2]));
  }

  const B2_MET := B2.(queue := [Vertex(1), Fence(0), Vertex(5), Vertex(2), Fence(1), Vertex(3), Vertex(4), Vertex(0)],
                   front := 4, visited := {1} + {0}, info := map[0 := Info(4, 2)], pc := Scan(2, 1))

  lemma FindHouse()
    ensures Reaches(TOWN, State(F4, [A3, B2_MET]))
  {
    StartFlags();
    var b2 := B2_MET.(queue := [Vertex(1), Fence(0), Vertex(5), Vertex(2), Fence(1), Vertex(3), Vertex(4)],
                   front := 3, pc := Dequeue);
    MeetAtFour(b2);
    var f := Mark1(F3, 4, 1);
    var b3 := b2.(front := 4, pc := Scan(2, 0));
    Take(TOWN, State(f, [A3, b2]), 1, 2, State(f, [A3, b3]));
    assert f[0] == {0};
    Find(TOWN, State(f, [A3, b3]), 1, 0, B2_MET.queue, State(F4, [A3, B2_MET]));
  }

  lemma SkipBack(b: Thread)
    requires b == B2_MET.(pc := Scan(2, 2))
    ensures Reaches(TOWN, State(F4, [A3, b]))
  {
    FindHouse();
    StartFlags();
    Skip(TOWN, State(F4, [A3, B2_MET]), 1, 1, State(F4, [A3, b]));
  }

  lemma LeaveTwo(b: Thread)
    requires b == B2_MET.(pc := Dequeue)
    ensures Reaches(TOWN, State(F4, [A3, b]))
  {
    var b' := B2_MET.(pc := Scan(2, 2));
    SkipBack(b');
    Leave(TOWN, State(F4, [A3, b']), 1, State(F4, [A3, b]));
  }

  lemma LastFence()
    ensures Reaches(TOWN, State(F4, [A3, B3]))
  {
    MetFacts();
    var b := B2_MET.(pc := Dequeue);
    LeaveTwo(b);
    Pass(TOWN, State(F4, [A3, b]), 1, B3.queue, [0, 1, 4], true, State(F4, [A3, B3]));
  }

  lemma TwoApart()
    ensures IsFarthest(TOWN, 2)
  {
    assert InBall(STREETS, 0, 0, 0) && 2 in STREETS[0];
    assert InBall(STREETS, 0, 2, 1) && 1 in STREETS[2];
    assert InBall(STREETS, 0, 1, 2);
    assert !InBall(STREETS, 0, 1, 1);
    assert AtDist(TOWN.g, TOWN.houses[0], TOWN.houses[1], 2);
  }

  /** What the program reads off: one pair, with sum 3, and neither meeting vertex in
      the layer the correction looks at. */
  lemma OnePair(s: State)
    requires s == State(F4, [A3, B3])
    ensures |s.threads| == 2 && s.threads[0].pc.Done? && s.threads[1].pc.Done?
    ensures DepthsFit(s) && Recorded(s) && LargestSum(s, 3) && !AllShort(s, 3)
  {
    assert RecordedBy(A3, 1) && RecordedBy(B3, 0);
    assert Sum(s, 0, 1) == 3;
    assert !ShortPair(s, 0, 1);
  }

  lemma RunFinished(s: State)
    requires s == State(F4, [A3, B3]) && |s.threads| == 2 && s.threads[0].pc.Done? && s.threads[1].pc.Done?
    ensures Finished(TOWN, s)
  {
    LastFence();
  }

  /** The printed maximum can be one too large: here the largest sum is 3, nothing
      is subtracted, and the houses are 2 apart. */
  lemma PrintedMaxTooLarge() returns (p: Problem, s: State)
    ensures Finished(p, s) && DepthsFit(s) && Recorded(s)
    ensures LargestSum(s, 3) && !AllShort(s, 3) && IsFarthest(p, 2)
  {
    p, s := TOWN, State(F4, [A3, B3]);
    OnePair(s);
    TwoApart();
    RunFinished(s);
  }
}
