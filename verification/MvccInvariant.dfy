/** The invariant of the update protocol, its consequences for readers, and its
    preservation by the steps that only move a thread along its update. The parts
    are stated on values (a chain, a pending version, a queue), so that a step
    which leaves those values alone keeps them without further argument. */
module MvccInvariant {
  import opened Options
  import opened Mvcc
  import opened MvccChains

  /** The version a thread has started and not yet inserted. */
  function PendingOf(pc: Pc): Option<nat> {
    if pc.Run? && !pc.stage.Inserted? then Some(pc.job.version) else None
  }

  /** Version v belongs to the thread: it is in its chain or about to be inserted. */
  ghost predicate Owns(c: Chain, pending: Option<nat>, v: nat) {
    Has(c, v) || pending == Some(v)
  }

  /** The newest version the thread has started. */
  ghost function LastVersion(c: Chain, pending: Option<nat>): nat
    requires c != []
  {
    if pending.Some? then pending.value else c[0].version
  }

  ghost predicate ChainOk(c: Chain, pending: Option<nat>, counter: nat) {
    && c != [] && Decreasing(c)
    && (pending.Some? ==> c[0].version < pending.value)
    && LastVersion(c, pending) <= counter
  }

  ghost predicate JobOk(pc: Pc, t: nat, c: Chain) {
    && !pc.Fault? && c != []
    && (pc.Run? ==>
          && pc.job.partner != t && 1 <= pc.job.version
          && (pc.stage.Inserted? ==> c[0].version == pc.job.version))
  }

  ghost predicate QueueOk(q: Queue, c: Chain, pending: Option<nat>) {
    && c != []
    && Ascending(q.entries)
    && q.minimum <= q.deleteFront
    && (forall e :: e in q.entries ==> q.minimum < e && q.deleteFront <= e && Owns(c, pending, e))
    && Owns(c, pending, q.deleteFront)
    && Has(c, q.minimum)
    && (q.minimum > 0 ==> q.minimum < LastVersion(c, pending))
  }

  /** The queue holds, as a multiset, the versions of its outstanding readers. */
  ghost predicate CountOk(entries: seq<nat>, pcs: seq<Pc>, p: nat) {
    forall a: nat :: multiset(entries)[a] == Readers(pcs, p, a)
  }

  ghost predicate ActiveOk(active: seq<ActiveEntry>, pcs: seq<Pc>) {
    && DistinctIndices(active)
    && (forall e :: e in active <==> e.index < |pcs| && pcs[e.index].Run? && pcs[e.index].job.version == e.version)
  }

  ghost predicate Disjoint(c: Chain, pending: Option<nat>, c': Chain, pending': Option<nat>) {
    forall v: nat :: Owns(c, pending, v) && Owns(c', pending', v) ==> v == 0
  }

  /** The reader stands on the newest version below its view. */
  ghost predicate AtSnapshot(theirs: Chain, a: nat, cursor: nat) {
    && Has(theirs, cursor)
    && Newest(theirs, a).Some? && Newest(theirs, a).value.version == cursor
  }

  ghost predicate StageOk(view: Option<nat>, stage: Stage, mine: Chain, theirs: Chain) {
    mine != [] && theirs != [] &&
    match stage
    case Begun => true
    case Walking(cursor, myA, myB) =>
      && myA == mine[0].A && myB == mine[0].B
      && view.Some? && Has(theirs, cursor)
      && Newest(theirs, view.value).Some? && Newest(theirs, view.value).value.version <= cursor
    case Reading(cursor, myA, myB) =>
      && myA == mine[0].A && myB == mine[0].B
      && cursor <= theirs[0].version
      && (view.Some? ==> AtSnapshot(theirs, view.value, cursor))
    case Rereading(cursor, myA, myB, clean) =>
      && myB == mine[0].B
      && cursor <= theirs[0].version
      && (!clean ==> !Has(theirs, cursor))
      && (clean && Has(theirs, cursor) ==> myA == mine[0].A + Rem100(ReadA(theirs, cursor, 0)))
      && (view.Some? ==> clean && AtSnapshot(theirs, view.value, cursor))
    case Ready(myA, myB, clean) =>
      && (clean ==> myA + myB == HeadSum(mine))
      && (view.Some? ==>
            && clean && Newest(theirs, view.value).Some?
            && myA == mine[0].A + Rem100(Newest(theirs, view.value).value.A)
            && myB == mine[0].B - Rem100(Newest(theirs, view.value).value.A))
    case Inserted => true
  }

  ghost predicate GcOk(gc: GcPc, queues: seq<Queue>, chains: seq<Chain>) {
    && !gc.GcFault? && gc.i < |queues| == |chains|
    && match gc
       case GcMinimum(i) => true
       case GcHead(i, m) => m <= queues[i].minimum
       case GcWalk(i, m, back, tmp) =>
         && m <= queues[i].minimum
         && (tmp.Some? ==> Has(chains[i], tmp.value))
         && (back.None? ==> tmp.Some? && m <= tmp.value)
         && (back.Some? ==> m <= back.value && Has(chains[i], back.value) && Link(chains[i], back.value) == tmp)
  }

  ghost predicate ThreadOk(s: State, t: nat)
    requires Shaped(s) && t < |s.pcs|
  {
    && ChainOk(s.chains[t], PendingOf(s.pcs[t]), s.counter)
    && JobOk(s.pcs[t], t, s.chains[t])
    && QueueOk(s.queues[t], s.chains[t], PendingOf(s.pcs[t]))
    && CountOk(s.queues[t].entries, s.pcs, t)
    && (s.pcs[t].Run? ==>
          StageOk(s.pcs[t].job.view, s.pcs[t].stage, s.chains[t], s.chains[s.pcs[t].job.partner]))
  }

  ghost predicate DistinctOk(s: State)
    requires Shaped(s)
  {
    forall t, u :: 0 <= t < |s.pcs| && 0 <= u < |s.pcs| && t != u ==>
      Disjoint(s.chains[t], PendingOf(s.pcs[t]), s.chains[u], PendingOf(s.pcs[u]))
  }

  ghost predicate Inv(s: State) {
    && Shaped(s)
    && (forall t :: 0 <= t < |s.pcs| ==> ThreadOk(s, t))
    && ActiveOk(s.active, s.pcs)
    && DistinctOk(s)
    && GcOk(s.gc, s.queues, s.chains)
  }

  // ------------------------------------------------------- consequences

  lemma OwnsBound(c: Chain, pending: Option<nat>, counter: nat, v: nat)
    requires ChainOk(c, pending, counter) && Owns(c, pending, v)
    ensures v <= LastVersion(c, pending)
    ensures v < LastVersion(c, pending) ==> Has(c, v)
  {
  }

  /** A registered reader has its entry in the queue. */
  lemma ReaderQueued(s: State, t: nat)
    requires Inv(s) && t < |s.pcs| && s.pcs[t].Run? && s.pcs[t].job.view.Some?
    ensures s.pcs[t].job.view.value in s.queues[s.pcs[t].job.partner].entries
  {
    var p, a := s.pcs[t].job.partner, s.pcs[t].job.view.value;
    ReadersUpdate(s.pcs, t, s.pcs[t], p, a);
    assert ThreadOk(s, p);
    assert a in multiset(s.queues[p].entries);
  }

  /** So the collector's minimum is below its view, and its snapshot exists and is
      not below the minimum. */
  lemma ReaderProtected(s: State, t: nat) returns (i: nat)
    requires Inv(s) && t < |s.pcs| && s.pcs[t].Run? && s.pcs[t].job.view.Some?
    ensures var p, a := s.pcs[t].job.partner, s.pcs[t].job.view.value;
            && s.chains[p] != []
            && s.queues[p].minimum < a <= LastVersion(s.chains[p], PendingOf(s.pcs[p]))
            && NewestAt(s.chains[p], a, i) && Newest(s.chains[p], a) == Some(s.chains[p][i])
            && s.queues[p].minimum <= s.chains[p][i].version
  {
    var p, a := s.pcs[t].job.partner, s.pcs[t].job.view.value;
    ReaderQueued(s, t);
    assert ThreadOk(s, p);
    OwnsBound(s.chains[p], PendingOf(s.pcs[p]), s.counter, a);
    i := NewestExists(s.chains[p], a, s.queues[p].minimum);
  }

  lemma InitialInv(s: State)
    requires Initial(s)
    ensures Inv(s)
  {
    forall p | 0 <= p < |s.pcs| ensures ThreadOk(s, p) {
      forall a: nat ensures multiset(s.queues[p].entries)[a] == Readers(s.pcs, p, a) {
        ReadersNone(s.pcs, p, a);
      }
      assert s.chains[p][0].version == 0;
    }
  }

  // ------------------------------------------------------- stage steps

  /** A thread whose job stays the same contributes the same to every count. */
  lemma SameJobCount(entries: seq<nat>, pcs: seq<Pc>, p: nat, t: nat, stage: Stage)
    requires CountOk(entries, pcs, p) && t < |pcs| && pcs[t].Run?
    ensures CountOk(entries, pcs[t := Run(pcs[t].job, stage)], p)
  {
    forall a: nat ensures multiset(entries)[a] == Readers(pcs[t := Run(pcs[t].job, stage)], p, a) {
      ReadersUpdate(pcs, t, Run(pcs[t].job, stage), p, a);
    }
  }

  /** From a node that is not below a, the walk goes on towards the newest one below. */
  lemma WalkFurther(theirs: Chain, a: nat, k: nat, cursor: nat) returns (next: nat)
    requires Decreasing(theirs) && NewestAt(theirs, a, k) && Has(theirs, cursor) && cursor >= a
    ensures Link(theirs, cursor) == Some(next) && Has(theirs, next) && theirs[k].version <= next
  {
    var i :| 0 <= i < |theirs| && theirs[i].version == cursor;
    FindAt(theirs, i);
    assert i < k;
    next := theirs[i + 1].version;
  }

  lemma WalkStage(s: State, t: nat, x: int)
    requires Inv(s) && t < |s.pcs| && s.pcs[t].Run? && s.pcs[t].stage.Walking?
    ensures var job := s.pcs[t].job;
            && StageStep(s, t, x).Run? && StageStep(s, t, x).job == job
            && StageOk(job.view, StageStep(s, t, x).stage, s.chains[t], s.chains[job.partner])
  {
    var Run(job, Walking(cursor, myA, myB)) := s.pcs[t];
    assert ThreadOk(s, t) && ThreadOk(s, job.partner);
    var theirs, a := s.chains[job.partner], job.view.value;
    var k := ReaderProtected(s, t);
    if cursor >= a {
      var next := WalkFurther(theirs, a, k, cursor);
    } else {
      assert theirs[0].version >= cursor;
    }
  }

  lemma OtherStage(s: State, t: nat, x: int)
    requires Inv(s) && t < |s.pcs| && PendingOf(s.pcs[t]).Some?
    requires !s.pcs[t].stage.Walking? && !s.pcs[t].stage.Ready?
    ensures var job := s.pcs[t].job;
            && StageStep(s, t, x).Run? && StageStep(s, t, x).job == job
            && StageOk(job.view, StageStep(s, t, x).stage, s.chains[t], s.chains[job.partner])
  {
    var p := s.pcs[t].job.partner;
    assert ThreadOk(s, t) && ThreadOk(s, p);
    if s.pcs[t].job.view.Some? {
      var k := ReaderProtected(s, t);
      FindAt(s.chains[p], k);
    }
    assert Has(s.chains[p], s.chains[p][0].version);
  }

  lemma StageInv(s: State, t: nat, x: int)
    requires Inv(s) && t < |s.pcs| && PendingOf(s.pcs[t]).Some? && !s.pcs[t].stage.Ready?
    ensures Inv(Next(s, Act(t, x)))
  {
    if s.pcs[t].stage.Walking? { WalkStage(s, t, x); } else { OtherStage(s, t, x); }
    var s' := Next(s, Act(t, x));
    assert s'.pcs[t].Run? && !s'.pcs[t].stage.Inserted?;
    forall u | 0 <= u < |s.pcs| ensures ThreadOk(s', u) {
      assert ThreadOk(s, u);
      SameJobCount(s.queues[u].entries, s.pcs, u, t, s'.pcs[t].stage);
    }
  }
}
