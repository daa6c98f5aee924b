/** The two printed numbers: the correction of the minimum, and what both numbers say
    about the distances between the houses. */
module SearchAnswer {
  import opened Options
  import opened Graph
  import opened Search
  import opened SearchMeeting
  import opened SearchTheorems
  import opened SearchResult

  // ------------------------------------------------- correcting the minimum

  /** What the correction makes of a candidate: it goes on to the next one, it stops and
      subtracts, or it reads a fence that was never recorded. */
  datatype Verdict = Passed | Failed | Past

  /** The slots of depth d hold v. */
  ghost predicate InLayer(th: Thread, v: nat, d: nat)
    requires d + 1 < |th.fences|
  {
    InSegment(th.queue, th.fences[d], th.fences[d + 1], v)
  }

  ghost function Judge(s: State, t: nat, u: nat): Verdict
    requires Recorded(s) && t < |s.threads| && u < |s.threads| && t != u
  {
    assert RecordedBy(s.threads[t], u) && RecordedBy(s.threads[u], t);
    var (th, rival) := (s.threads[t], s.threads[u]);
    var (r1, r2) := (th.info[u], rival.info[t]);
    if r2.depth + 1 >= |rival.fences| then Past
    else if !InLayer(rival, r1.vid, r2.depth) then Failed
    else if r1.depth + 1 >= |th.fences| then Past
    else if !InLayer(th, r2.vid, r1.depth) then Failed
    else Passed
  }

  /** The same in terms of distances and of the depth at which a search ended. */
  ghost function ByDistance(p: Problem, s: State, t: nat, u: nat): Verdict
    requires Recorded(s) && t < |s.threads| == |p.houses| && u < |s.threads| && t != u
  {
    assert RecordedBy(s.threads[t], u) && RecordedBy(s.threads[u], t);
    var (r1, r2) := (s.threads[t].info[u], s.threads[u].info[t]);
    if r2.depth >= s.threads[u].depth then Past
    else if !AtDist(p.g, p.houses[u], r1.vid, r2.depth) then Failed
    else if r1.depth >= s.threads[t].depth then Past
    else if !AtDist(p.g, p.houses[t], r2.vid, r1.depth) then Failed
    else Passed
  }

  lemma LayerIs(p: Problem, s: State, u: nat, v: nat, d: nat)
    requires Stopped(p, s) && u < |s.threads|
    ensures d + 1 < |s.threads[u].fences| <==> d < s.threads[u].depth
    ensures d + 1 < |s.threads[u].fences| ==> (InLayer(s.threads[u], v, d) <==> AtDist(p.g, p.houses[u], v, d))
  {
    assert ThreadOk(p, s, u);
    if d + 1 < |s.threads[u].fences| {
      SegmentIsLayer(p.g, p.houses[u], s.threads[u], d, v);
    }
  }

  lemma JudgeIs(p: Problem, s: State, t: nat, u: nat)
    requires Stopped(p, s) && Recorded(s) && t < |s.threads| && u < |s.threads| && t != u
    ensures Judge(s, t, u) == ByDistance(p, s, t, u)
  {
    assert RecordedBy(s.threads[t], u) && RecordedBy(s.threads[u], t);
    var (r1, r2) := (s.threads[t].info[u], s.threads[u].info[t]);
    LayerIs(p, s, u, r1.vid, r2.depth);
    LayerIs(p, s, t, r2.vid, r1.depth);
  }

  ghost predicate FencesInside(s: State) {
    forall t: nat, k: nat :: t < |s.threads| && k < |s.threads[t].fences| ==> s.threads[t].fences[k] <= |s.threads[t].queue|
  }

  method JudgePair(s: State, t: nat, u: nat) returns (v: Verdict)
    requires Recorded(s) && FencesInside(s) && t < |s.threads| && u < |s.threads| && t != u
    ensures v == Judge(s, t, u)
  {
    assert RecordedBy(s.threads[t], u) && RecordedBy(s.threads[u], t);
    var (th, rival) := (s.threads[t], s.threads[u]);
    var (r1, r2) := (th.info[u], rival.info[t]);
    if r2.depth + 1 >= |rival.fences| {
      return Past;
    }
    var j := FindInSegment(rival.queue, rival.fences[r2.depth], rival.fences[r2.depth + 1], r1.vid);
    if j >= rival.fences[r2.depth + 1] {
      return Failed;
    }
    if r1.depth + 1 >= |th.fences| {
      return Past;
    }
    j := FindInSegment(th.queue, th.fences[r1.depth], th.fences[r1.depth + 1], r2.vid);
    return if j >= th.fences[r1.depth + 1] then Failed else Passed;
  }

  /** The loop over the candidates: it ends at the first that does not pass. */
  method CorrectMin(s: State, pairs: seq<(nat, nat)>) returns (i: nat, v: Verdict)
    requires Recorded(s) && FencesInside(s) && forall c :: c in pairs ==> c.0 < c.1 < |s.threads|
    ensures i <= |pairs| && (i == |pairs| <==> v == Passed)
    ensures forall k :: 0 <= k < i ==> Judge(s, pairs[k].0, pairs[k].1) == Passed
    ensures i < |pairs| ==> v == Judge(s, pairs[i].0, pairs[i].1)
  {
    i, v := 0, Passed;
    while i < |pairs|
      invariant i <= |pairs| && v == Passed
      invariant forall k :: 0 <= k < i ==> Judge(s, pairs[k].0, pairs[k].1) == Passed
    {
      assert pairs[i] in pairs;
      v := JudgePair(s, pairs[i].0, pairs[i].1);
      if v != Passed {
        return;
      }
      i := i + 1;
    }
  }

  // ------------------------------------------------------ fences past the end

  /** The correction's fence exists exactly if the meeting was not at the last depth. */
  lemma FenceInRange(p: Problem, s: State, t: nat, u: nat)
    requires Stopped(p, s) && t < |s.threads| && u in s.threads[t].info
    ensures s.threads[t].info[u].depth + 1 < |s.threads[t].fences| <==> s.threads[t].info[u].depth < s.threads[t].depth
  {
    assert ThreadOk(p, s, t);
  }

  /** Once a search has met all others, its last meeting is at the depth it will end with. */
  ghost predicate LastOk(p: Problem, th: Thread) {
    MetAll(p, th.visited) ==>
      exists u: nat :: u in th.info && th.info[u].depth == if th.pc.Done? then th.depth else th.depth + 1
  }

  lemma LastMark(p: Problem, th: Thread, w: nat, before: set<nat>, t: nat)
    requires th.pc.Mark? && VisitedOk(th, t, |p.houses|) && LastOk(p, th)
    ensures LastOk(p, MarkStep(th, w, before))
  {
    var met := before - th.visited;
    if met != {} {
      var u :| u in met;
      assert MarkStep(th, w, before).info[u].depth == th.depth + 1;
    } else {
      assert th.visited + met == th.visited;
      if MetAll(p, th.visited) {
        var u: nat :| u in th.info && th.info[u].depth == th.depth + 1;
        assert u in MarkStep(th, w, before).info && MarkStep(th, w, before).info[u] == th.info[u];
      }
    }
  }

  lemma LastStep(p: Problem, s: State, t: nat)
    requires Inv(p, s) && t < |s.threads| && LastOk(p, s.threads[t])
    ensures t < |Next(p, s, t).threads| && LastOk(p, Next(p, s, t).threads[t])
  {
    assert ThreadOk(p, s, t);
    var th := s.threads[t];
    if th.pc.Mark? {
      LastMark(p, th, p.g[th.pc.curr][th.pc.i], s.flags[p.g[th.pc.curr][th.pc.i]], t);
    } else if MetAll(p, th.visited) {
      var u: nat :| u in th.info && th.info[u].depth == if th.pc.Done? then th.depth else th.depth + 1;
      assert u in Next(p, s, t).threads[t].info;
    }
  }

  lemma {:induction false} LastExec(p: Problem, sched: seq<nat>, t: nat)
    requires ValidProblem(p) && Schedule(p, sched) && t < |p.houses| && |p.houses| >= 2
    ensures LastOk(p, Exec(p, sched).threads[t])
    decreases |sched|
  {
    if sched == [] {
      var other: nat := if t == 0 then 1 else 0;
      assert other !in Init(p).threads[t].visited;
    } else {
      var before := sched[..|sched| - 1];
      LastExec(p, before, t);
      ExecInv(p, before);
      if sched[|sched| - 1] == t {
        LastStep(p, Exec(p, before), t);
      }
    }
  }

  /** In every finished run, each search has a meeting whose fence the correction does not
      find: it reads past the recorded ones. */
  lemma SomeFencePast(p: Problem, s: State, t: nat) returns (u: nat)
    requires Finished(p, s) && |p.houses| >= 2 && t < |s.threads|
    ensures u < |p.houses| && u != t && u in s.threads[t].info && s.threads[t].info[u].depth + 1 == |s.threads[t].fences|
  {
    var sched :| Schedule(p, sched) && s == Exec(p, sched);
    ExecInv(p, sched);
    LastExec(p, sched, t);
    assert ThreadOk(p, s, t);
    u :| u in s.threads[t].info && s.threads[t].info[u].depth == s.threads[t].depth;
  }

  /** With two houses that is the only candidate, so the correction never works. */
  lemma TwoHousesPast(p: Problem, s: State)
    requires Finished(p, s) && |p.houses| == 2 && DepthsFit(s)
    ensures Recorded(s) && |s.threads| == 2 && Judge(s, 0, 1) == Past
  {
    FinishedBracketed(p, s);
    assert RecordedBy(s.threads[0], 1) && RecordedBy(s.threads[1], 0);
    var u := SomeFencePast(p, s, 1);
  }

  // ---------------------------------------------------------------- answers

  /** No pair with the smallest sum touches. */
  ghost predicate NoneTouches(p: Problem, s: State, low: int)
    requires Recorded(s)
  {
    forall t: nat, u: nat :: t < u < |s.threads| && Sum(s, t, u) == low ==> !Touch(p, s, t, u)
  }

  ghost predicate SomeJudged(s: State, low: int, v: Verdict)
    requires Recorded(s)
  {
    exists t: nat, u: nat :: t < u < |s.threads| && Sum(s, t, u) == low && Judge(s, t, u) == v
  }

  /** Some pair with the smallest sum gets this verdict, going by the distances. */
  ghost predicate SomeVerdict(p: Problem, s: State, low: int, v: Verdict)
    requires Recorded(s) && |s.threads| == |p.houses|
  {
    exists t: nat, u: nat :: t < u < |s.threads| && Sum(s, t, u) == low && ByDistance(p, s, t, u) == v
  }

  lemma JudgedIs(p: Problem, s: State, low: int, v: Verdict)
    requires Stopped(p, s) && Recorded(s)
    ensures SomeJudged(s, low, v) <==> SomeVerdict(p, s, low, v)
  {
    forall t: nat, u: nat | t < u < |s.threads| ensures Judge(s, t, u) == ByDistance(p, s, t, u) {
      JudgeIs(p, s, t, u);
    }
  }

  /** What the corrected minimum says; low is the smallest sum, and None stands for a read
      past the fences. */
  ghost predicate MinAnswer(p: Problem, s: State, min: Option<int>, low: int)
    requires Recorded(s) && |s.threads| == |p.houses|
  {
    && SmallestSum(s, low) && low >= 1 && (IsNearest(p, low) || IsNearest(p, low - 1))
    && (min.None? ==> SomeVerdict(p, s, low, Past))
    && (min.Some? ==>
          && (min.value == low || min.value == low - 1)
          && (min.value == low ==> !SomeVerdict(p, s, low, Failed) && !SomeVerdict(p, s, low, Past))
          && (min.value == low - 1 ==> SomeVerdict(p, s, low, Failed))
          && (IsNearest(p, min.value) <==> (min.value == low <==> NoneTouches(p, s, low))))
  }

  /** What the printed maximum says; top is the largest sum. */
  ghost predicate MaxAnswer(p: Problem, s: State, max: int, top: int)
    requires Recorded(s) && |s.threads| == |p.houses|
  {
    && LargestSum(s, top) && max == (if AllEarly(p, s, top) then top - 1 else top) && max >= 0
    && (IsFarthest(p, max) || (max >= 1 && IsFarthest(p, max - 1)))
    && (IsFarthest(p, max) <==> AllEarly(p, s, top) || SomeApart(p, s, top))
  }

  lemma MaxAnswered(p: Problem, s: State, max: int, top: int)
    requires Recorded(s) && |s.threads| == |p.houses| && AllBracketed(p, s) && LargestSum(s, top)
    requires max == if AllShort(s, top) then top - 1 else top
    ensures MaxAnswer(p, s, max, top)
  {
    AllShortIs(p, s, top);
    FarthestNear(p, s, top);
    PrintedMaxExact(p, s, top);
  }

  /** Which number is the smallest distance can be read off the smallest sum's pairs. */
  lemma NearestIs(p: Problem, s: State, low: nat, m: nat)
    requires Recorded(s) && |s.threads| == |p.houses| && AllBracketed(p, s) && SmallestSum(s, low)
    requires m == low || m == low - 1
    ensures low >= 1 && (IsNearest(p, low) || IsNearest(p, low - 1))
    ensures IsNearest(p, m) <==> (m == low <==> NoneTouches(p, s, low))
  {
    NearestNear(p, s, low);
    SmallestSumExact(p, s, low);
    if IsNearest(p, low) {
      NearestNotBoth(p, low);
    }
  }

  lemma NearestNotBoth(p: Problem, low: nat)
    requires low >= 1 && IsNearest(p, low)
    ensures !IsNearest(p, low - 1)
  {
    if IsNearest(p, low - 1) {
      NearestUnique(p, low, low - 1);
    }
  }

  lemma Verdicts(s: State, pairs: seq<(nat, nat)>, low: int, i: nat, v: Verdict)
    requires Recorded(s) && forall c :: c in pairs ==> c.0 < c.1 < |s.threads| && Sum(s, c.0, c.1) == low
    requires forall t: nat, u: nat :: t < u < |s.threads| && Sum(s, t, u) == low ==> (t, u) in pairs
    requires i <= |pairs| && (i == |pairs| <==> v == Passed)
    requires forall k :: 0 <= k < i ==> Judge(s, pairs[k].0, pairs[k].1) == Passed
    requires i < |pairs| ==> v == Judge(s, pairs[i].0, pairs[i].1)
    ensures v == Passed ==> !SomeJudged(s, low, Failed) && !SomeJudged(s, low, Past)
    ensures v != Passed ==> SomeJudged(s, low, v)
  {
    if v == Passed {
      forall t: nat, u: nat | t < u < |s.threads| && Sum(s, t, u) == low ensures Judge(s, t, u) == Passed {
        var k :| 0 <= k < |pairs| && pairs[k] == (t, u);
      }
    } else {
      assert pairs[i] in pairs;
    }
  }

  lemma Fences(p: Problem, s: State)
    requires Finished(p, s)
    ensures FencesInside(s)
  {
    var sched :| Schedule(p, sched) && s == Exec(p, sched);
    ExecInv(p, sched);
    forall t: nat, k: nat | t < |s.threads| && k < |s.threads[t].fences|
      ensures s.threads[t].fences[k] <= |s.threads[t].queue|
    {
      FenceInside(p, s, t, k);
    }
  }

  /** The smallest sum and its correction. */
  method Minimum(s: State, low: int) returns (min: Option<int>, v: Verdict)
    requires Recorded(s) && FencesInside(s)
    ensures v == Passed ==> !SomeJudged(s, low, Failed) && !SomeJudged(s, low, Past)
    ensures v != Passed ==> SomeJudged(s, low, v)
    ensures min == match v case Passed => Some(low) case Failed => Some(low - 1) case Past => None
  {
    var pairs := Candidates(s, low);
    var i;
    i, v := CorrectMin(s, pairs);
    Verdicts(s, pairs, low, i, v);
    min := match v case Passed => Some(low) case Failed => Some(low - 1) case Past => None;
  }

  /** The largest sum and its correction. */
  method Maximum(s: State, top: int) returns (max: int)
    requires Recorded(s)
    ensures max == if AllShort(s, top) then top - 1 else top
  {
    var pairs := Candidates(s, top);
    var i := CorrectMax(s, pairs);
    CandidatesShort(s, pairs, top);
    max := if i == |pairs| then top - 1 else top;
  }

  /** Everything that is printed, from any finished run. With fewer than two houses there
      is no pair: the start value and -1 come out. */
  method MakeResult(p: Problem, s: State) returns (min: Option<int>, max: int, ghost low: int, ghost top: int)
    requires Finished(p, s) && DepthsFit(s)
    ensures Recorded(s) && |s.threads| == |p.houses|
    ensures |p.houses| >= 2 ==> MinAnswer(p, s, min, low) && MaxAnswer(p, s, max, top)
    ensures |p.houses| < 2 ==> min == Some(999999999) && max == -1
  {
    FinishedBracketed(p, s);
    Fences(p, s);
    var least, greatest := ExtremeSums(s);
    low, top := least, greatest;
    var v;
    min, v := Minimum(s, least);
    max := Maximum(s, greatest);
    if |s.threads| >= 2 {
      MaxAnswered(p, s, max, greatest);
      ByDistances(p, s, least);
      MinAnswered(p, s, min, least, v);
    }
  }

  lemma ByDistances(p: Problem, s: State, low: int)
    requires Finished(p, s) && Recorded(s) && |s.threads| == |p.houses|
    ensures forall v :: SomeJudged(s, low, v) <==> SomeVerdict(p, s, low, v)
  {
    var sched :| Schedule(p, sched) && s == Exec(p, sched);
    ExecInv(p, sched);
    forall v ensures SomeJudged(s, low, v) <==> SomeVerdict(p, s, low, v) {
      JudgedIs(p, s, low, v);
    }
  }

  lemma MinAnswered(p: Problem, s: State, min: Option<int>, low: int, v: Verdict)
    requires Recorded(s) && |s.threads| == |p.houses| && AllBracketed(p, s) && SmallestSum(s, low)
    requires v == Passed ==> !SomeVerdict(p, s, low, Failed) && !SomeVerdict(p, s, low, Past)
    requires v != Passed ==> SomeVerdict(p, s, low, v)
    requires min == match v case Passed => Some(low) case Failed => Some(low - 1) case Past => None
    ensures MinAnswer(p, s, min, low)
  {
    var t: nat, u: nat :| t < u < |s.threads| && Sum(s, t, u) == low;
    NearestIs(p, s, low, if v == Failed then low - 1 else low);
  }
}
