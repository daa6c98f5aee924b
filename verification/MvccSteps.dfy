/** The steps that change shared memory preserve the invariant. */
module MvccSteps {
  import opened Options
  import opened Mvcc
  import opened MvccChains
  import opened MvccInvariant

  // ------------------------------------------------------------------- begin

  function ViewOf(pc: Pc): Option<nat> {
    if pc.Run? then Some(pc.job.version) else None
  }

  lemma NotListed(active: seq<ActiveEntry>, pcs: seq<Pc>, t: nat)
    requires ActiveOk(active, pcs) && t < |pcs| && !pcs[t].Run?
    ensures forall i :: 0 <= i < |active| ==> active[i].index != t
  {
    forall i | 0 <= i < |active| ensures active[i].index != t {
      assert active[i] in active;
    }
  }

  lemma Listed(active: seq<ActiveEntry>, pcs: seq<Pc>, p: nat) returns (i: nat)
    requires ActiveOk(active, pcs) && p < |pcs| && pcs[p].Run?
    ensures i < |active| && active[i] == ActiveEntry(p, pcs[p].job.version)
  {
    var e := ActiveEntry(p, pcs[p].job.version);
    assert e in active;
    i :| 0 <= i < |active| && active[i] == e;
  }

  /** Under the mutex, the captured view of the partner is exactly the version of
      its current update, if it has one. */
  lemma CapturedView(active: seq<ActiveEntry>, pcs: seq<Pc>, t: nat, p: nat, v: nat)
    requires ActiveOk(active, pcs) && t < |pcs| && p < |pcs| && p != t && !pcs[t].Run?
    ensures LookupActive(Capture([ActiveEntry(t, v)] + active), p) == ViewOf(pcs[p])
    ensures DistinctIndices([ActiveEntry(t, v)] + active)
  {
    var l := [ActiveEntry(t, v)] + active;
    NotListed(active, pcs, t);
    if pcs[p].Run? {
      var i := Listed(active, pcs, p);
      LookupCapture(l, i + 1);
    } else {
      NotListed(active, pcs, p);
      LookupNone(l, p);
    }
  }

  /** Starting a version above everything in the chain keeps the queue in order. */
  lemma QueueStart(q: Queue, c: Chain, counter: nat)
    requires ChainOk(c, None, counter) && QueueOk(q, c, None)
    ensures QueueOk(q, c, Some(counter + 1))
  {
    assert forall e: nat :: Owns(c, None, e) ==> Owns(c, Some(counter + 1), e);
  }

  /** A reader that joins at the partner's current version joins at the rear. */
  lemma QueueJoin(q: Queue, c: Chain, pending: Option<nat>, counter: nat, a: nat)
    requires ChainOk(c, pending, counter) && QueueOk(q, c, pending)
    requires a == LastVersion(c, pending) && a >= 1 && Owns(c, pending, a)
    ensures QueueOk(q.(entries := q.entries + [a]), c, pending)
  {
    forall i | 0 <= i < |q.entries| ensures q.entries[i] <= a {
      OwnsBound(c, pending, counter, q.entries[i]);
    }
    OwnsBound(c, pending, counter, q.deleteFront);
  }

  lemma BeginCount(s: State, t: nat, p: nat, r: nat, view: Option<nat>)
    requires Inv(s) && Enabled(s, Begin(t, p)) && r < |s.pcs|
    ensures CountOk(BeginWith(s, t, p, view).queues[r].entries, BeginWith(s, t, p, view).pcs, r)
  {
    var s' := BeginWith(s, t, p, view);
    assert ThreadOk(s, r);
    forall a: nat ensures multiset(s'.queues[r].entries)[a] == Readers(s'.pcs, r, a) {
      ReadersUpdate(s.pcs, t, s'.pcs[t], r, a);
    }
  }

  lemma BeginQueue(s: State, t: nat, p: nat, r: nat)
    requires Inv(s) && Enabled(s, Begin(t, p)) && r < |s.pcs|
    ensures var s' := BeginWith(s, t, p, ViewOf(s.pcs[p]));
            QueueOk(s'.queues[r], s.chains[r], PendingOf(s'.pcs[r]))
  {
    assert ThreadOk(s, r);
    if r == t {
      QueueStart(s.queues[t], s.chains[t], s.counter);
    } else if r == p && s.pcs[p].Run? {
      assert Has(s.chains[p], s.chains[p][0].version);
      QueueJoin(s.queues[p], s.chains[p], PendingOf(s.pcs[p]), s.counter, s.pcs[p].job.version);
    }
  }

  lemma DisjointStart(c: Chain, c': Chain, pending': Option<nat>, counter: nat)
    requires ChainOk(c, None, counter) && ChainOk(c', pending', counter) && Disjoint(c, None, c', pending')
    ensures Disjoint(c, Some(counter + 1), c', pending') && Disjoint(c', pending', c, Some(counter + 1))
  {
    forall v: nat | Owns(c', pending', v) ensures v <= counter {
      OwnsBound(c', pending', counter, v);
    }
  }

  lemma BeginThread(s: State, t: nat, p: nat, r: nat)
    requires Inv(s) && Enabled(s, Begin(t, p)) && r < |s.pcs|
    ensures var s' := BeginWith(s, t, p, ViewOf(s.pcs[p]));
            Shaped(s') && ThreadOk(s', r)
  {
    assert ThreadOk(s, r) && ThreadOk(s, t) && ThreadOk(s, p);
    BeginQueue(s, t, p, r);
    BeginCount(s, t, p, r, ViewOf(s.pcs[p]));
  }

  lemma BeginDistinct(s: State, t: nat, p: nat, view: Option<nat>)
    requires Inv(s) && Enabled(s, Begin(t, p)) && Shaped(BeginWith(s, t, p, view))
    ensures DistinctOk(BeginWith(s, t, p, view))
  {
    forall u | 0 <= u < |s.pcs| && u != t
      ensures Disjoint(s.chains[t], Some(s.counter + 1), s.chains[u], PendingOf(s.pcs[u]))
      ensures Disjoint(s.chains[u], PendingOf(s.pcs[u]), s.chains[t], Some(s.counter + 1))
    {
      assert ThreadOk(s, u) && ThreadOk(s, t);
      DisjointStart(s.chains[t], s.chains[u], PendingOf(s.pcs[u]), s.counter);
    }
  }

  lemma BeginActive(s: State, t: nat, p: nat, view: Option<nat>)
    requires Inv(s) && Enabled(s, Begin(t, p)) && DistinctIndices([ActiveEntry(t, s.counter + 1)] + s.active)
    ensures ActiveOk(BeginWith(s, t, p, view).active, BeginWith(s, t, p, view).pcs)
  {
    var l := [ActiveEntry(t, s.counter + 1)] + s.active;
    assert forall e :: e in l <==> e == ActiveEntry(t, s.counter + 1) || e in s.active;
  }

  lemma BeginWithInv(s: State, t: nat, p: nat, s': State)
    requires Inv(s) && Enabled(s, Begin(t, p)) && DistinctIndices([ActiveEntry(t, s.counter + 1)] + s.active)
    requires s' == BeginWith(s, t, p, ViewOf(s.pcs[p]))
    ensures Inv(s')
  {
    BeginThread(s, t, p, t);
    forall r | 0 <= r < |s'.pcs| ensures ThreadOk(s', r) {
      BeginThread(s, t, p, r);
    }
    BeginDistinct(s, t, p, ViewOf(s.pcs[p]));
    BeginActive(s, t, p, ViewOf(s.pcs[p]));
    assert GcOk(s'.gc, s'.queues, s'.chains) by {
      assert forall r :: 0 <= r < |s.queues| ==> s'.queues[r].minimum == s.queues[r].minimum;
    }
  }

  lemma BeginStepIs(s: State, t: nat, p: nat)
    requires Shaped(s) && ActiveOk(s.active, s.pcs) && Enabled(s, Begin(t, p))
    ensures BeginStep(s, t, p) == BeginWith(s, t, p, ViewOf(s.pcs[p]))
    ensures DistinctIndices([ActiveEntry(t, s.counter + 1)] + s.active)
  {
    CapturedView(s.active, s.pcs, t, p, s.counter + 1);
  }

  lemma BeginInv(s: State, t: nat, p: nat)
    requires Inv(s) && Enabled(s, Begin(t, p))
    ensures Inv(BeginStep(s, t, p))
  {
    BeginStepIs(s, t, p);
    BeginWithInv(s, t, p, BeginStep(s, t, p));
  }

  // ------------------------------------------------------------------ insert

  lemma PushOwns(c: Chain, n: Node)
    requires c == [] || c[0].version < n.version
    ensures forall v: nat :: Has([n] + c, v) <==> Has(c, v) || v == n.version
    ensures forall v: nat :: Owns([n] + c, None, v) <==> Owns(c, Some(n.version), v)
    ensures forall v: nat :: Has(c, v) && v < n.version ==> Link([n] + c, v) == Link(c, v)
  {
    var c' := [n] + c;
    assert c'[1..] == c;
    assert c'[0] == n && forall i :: 0 <= i < |c| ==> c'[i + 1] == c[i];
  }

  lemma PushQueue(q: Queue, c: Chain, n: Node, counter: nat)
    requires ChainOk(c, Some(n.version), counter) && QueueOk(q, c, Some(n.version))
    ensures ChainOk([n] + c, None, counter) && QueueOk(q, [n] + c, None)
  {
    PushOwns(c, n);
  }

  /** A new version is at or above every registered view, so no reader of this
      chain notices it; an unregistered reader's node is not confused with it. */
  lemma PushStage(view: Option<nat>, stage: Stage, mine: Chain, theirs: Chain, n: Node)
    requires StageOk(view, stage, mine, theirs) && Decreasing(theirs)
    requires theirs[0].version < n.version && (view.Some? ==> view.value <= n.version)
    ensures StageOk(view, stage, mine, [n] + theirs)
  {
    PushOwns(theirs, n);
    assert ([n] + theirs)[1..] == theirs;
  }

  lemma InsertThread(s: State, t: nat, r: nat)
    requires Inv(s) && t < |s.pcs| && s.pcs[t].Run? && s.pcs[t].stage.Ready? && r < |s.pcs|
    ensures Shaped(InsertStep(s, t)) && ThreadOk(InsertStep(s, t), r)
  {
    var n := InsertStep(s, t).chains[t][0];
    assert ThreadOk(s, t) && ThreadOk(s, r);
    SameJobCount(s.queues[r].entries, s.pcs, r, t, Inserted);
    if r == t {
      PushQueue(s.queues[t], s.chains[t], n, s.counter);
    } else if s.pcs[r].Run? && s.pcs[r].job.partner == t {
      if s.pcs[r].job.view.Some? { var k := ReaderProtected(s, r); }
      PushStage(s.pcs[r].job.view, s.pcs[r].stage, s.chains[r], s.chains[t], n);
    }
  }

  lemma InsertInv(s: State, t: nat)
    requires Inv(s) && t < |s.pcs| && s.pcs[t].Run? && s.pcs[t].stage.Ready?
    ensures Inv(InsertStep(s, t))
  {
    var s' := InsertStep(s, t);
    assert ThreadOk(s, t);
    PushOwns(s.chains[t], s'.chains[t][0]);
    forall r | 0 <= r < |s.pcs| ensures ThreadOk(s', r) {
      InsertThread(s, t, r);
    }
    assert GcOk(s'.gc, s'.queues, s'.chains);
  }

  // --------------------------------------------------------------------- end

  /** What the end of a registered update does to its queue: one entry goes, the
      order stays, and the minimum only grows. */
  lemma ReleaseOk(q: Queue, c: Chain, pending: Option<nat>, counter: nat, a: nat)
    requires ChainOk(c, pending, counter) && QueueOk(q, c, pending) && a in q.entries
    ensures QueueOk(Release(q, a), c, pending) && q.minimum <= Release(q, a).minimum
  {
    OwnsBound(c, pending, counter, a);
    if q.entries[0] == a {
      var rest := q.entries[1..];
      assert forall i :: 0 <= i < |rest| ==> rest[i] == q.entries[i + 1];
      if rest != [] {
        assert rest[0] in q.entries;
        OwnsBound(c, pending, counter, rest[0]);
      }
      OwnsBound(c, pending, counter, q.deleteFront);
    } else {
      RemoveFirstSub(q.entries, a);
    }
  }

  lemma ReleaseCount(q: Queue, a: nat)
    requires a in q.entries
    ensures multiset(Release(q, a).entries) == multiset(q.entries) - multiset{a}
  {
    assert q.entries == [q.entries[0]] + q.entries[1..];
    RemoveFirstMultiset(q.entries, a);
  }

  lemma EndCount(s: State, t: nat, r: nat)
    requires Inv(s) && t < |s.pcs| && s.pcs[t].Run? && s.pcs[t].stage.Inserted? && r < |s.pcs|
    ensures CountOk(EndStep(s, t).queues[r].entries, EndStep(s, t).pcs, r)
  {
    var s' := EndStep(s, t);
    var job := s.pcs[t].job;
    if job.view.Some? {
      ReaderQueued(s, t);
      ReleaseCount(s.queues[job.partner], job.view.value);
    }
    assert ThreadOk(s, r);
    forall a: nat ensures multiset(s'.queues[r].entries)[a] == Readers(s'.pcs, r, a) {
      ReadersUpdate(s.pcs, t, Idle, r, a);
    }
  }

  lemma EndQueue(s: State, t: nat, r: nat)
    requires Inv(s) && t < |s.pcs| && s.pcs[t].Run? && s.pcs[t].stage.Inserted? && r < |s.pcs|
    ensures QueueOk(EndStep(s, t).queues[r], s.chains[r], PendingOf(s.pcs[r]))
    ensures s.queues[r].minimum <= EndStep(s, t).queues[r].minimum
    ensures EndStep(s, t).pcs[t] == Idle
  {
    var job := s.pcs[t].job;
    assert ThreadOk(s, r) && ThreadOk(s, job.partner);
    if job.view.Some? {
      ReaderQueued(s, t);
      ReleaseOk(s.queues[job.partner], s.chains[job.partner], PendingOf(s.pcs[job.partner]), s.counter, job.view.value);
    }
  }

  lemma EndThread(s: State, t: nat, r: nat)
    requires Inv(s) && t < |s.pcs| && s.pcs[t].Run? && s.pcs[t].stage.Inserted? && r < |s.pcs|
    ensures Shaped(EndStep(s, t)) && ThreadOk(EndStep(s, t), r)
    ensures s.queues[r].minimum <= EndStep(s, t).queues[r].minimum
  {
    EndQueue(s, t, r);
    EndCount(s, t, r);
    assert ThreadOk(s, r);
  }

  lemma EndShared(s: State, t: nat)
    requires Inv(s) && t < |s.pcs| && s.pcs[t].Run? && s.pcs[t].stage.Inserted? && Shaped(EndStep(s, t))
    requires EndStep(s, t).pcs[t] == Idle
    ensures ActiveOk(EndStep(s, t).active, EndStep(s, t).pcs) && DistinctOk(EndStep(s, t))
  {
    RemoveActiveSpec(s.active, t);
  }

  lemma EndInv(s: State, t: nat)
    requires Inv(s) && t < |s.pcs| && s.pcs[t].Run? && s.pcs[t].stage.Inserted?
    ensures Inv(EndStep(s, t))
  {
    var s' := EndStep(s, t);
    EndQueue(s, t, t);
    EndThread(s, t, t);
    EndShared(s, t);
    forall r | 0 <= r < |s.pcs| ensures ThreadOk(s', r) && s.queues[r].minimum <= s'.queues[r].minimum {
      EndThread(s, t, r);
    }
    assert GcOk(s'.gc, s'.queues, s'.chains);
  }

  // --------------------------------------------------------------- collector

  /** The collector is about to cut. */
  predicate Cutting(gc: GcPc) {
    gc.GcWalk? && gc.tmp.Some? && gc.tmp.value < gc.m
  }

  /** It has a predecessor, so the head stays; what goes lies below the minimum it
      read, and everything at or above that minimum stays. */
  lemma CutShape(s: State) returns (k: nat)
    requires Inv(s) && Cutting(s.gc)
    ensures s.gc.back.Some? && s.gc.i < |s.chains|
    ensures var c := s.chains[s.gc.i];
            && 0 < k < |c| && CutAfter(c, s.gc.back.value) == c[..k]
            && (forall j :: 0 <= j < k ==> c[j].version >= s.gc.m)
            && (forall j :: k <= j < |c| ==> c[j].version < s.gc.m)
    ensures s.gc.m <= s.queues[s.gc.i].minimum
  {
    var GcWalk(i, m, back, tmp) := s.gc;
    assert ThreadOk(s, i);
    k := Find(s.chains[i], back.value).value + 1;
    assert s.chains[i][k].version == tmp.value;
  }

  /** Facts about a chain cut where its versions fall below m. */
  ghost predicate CutAt(c: Chain, k: nat, m: nat) {
    && 0 < k <= |c| && Decreasing(c)
    && (forall j :: 0 <= j < k ==> c[j].version >= m)
    && (forall j :: k <= j < |c| ==> c[j].version < m)
  }

  lemma CutHas(c: Chain, k: nat, m: nat, v: nat)
    requires CutAt(c, k, m)
    ensures Has(c[..k], v) <==> Has(c, v) && v >= m
  {
    if Has(c, v) {
      var j :| 0 <= j < |c| && c[j].version == v;
      if v >= m { assert c[..k][j].version == v; }
    }
    if Has(c[..k], v) {
      var j :| 0 <= j < k && c[..k][j].version == v;
      assert c[j].version == v;
    }
  }

  lemma CutQueue(q: Queue, c: Chain, pending: Option<nat>, k: nat, m: nat)
    requires CutAt(c, k, m) && QueueOk(q, c, pending) && m <= q.minimum
    ensures QueueOk(q, c[..k], pending)
  {
    forall v: nat ensures Has(c[..k], v) <==> Has(c, v) && v >= m { CutHas(c, k, m, v); }
  }

  lemma CutDisjoint(c: Chain, pending: Option<nat>, k: nat, m: nat, c': Chain, pending': Option<nat>)
    requires CutAt(c, k, m) && Disjoint(c, pending, c', pending')
    ensures Disjoint(c[..k], pending, c', pending') && Disjoint(c', pending', c[..k], pending)
  {
    forall v: nat ensures Has(c[..k], v) ==> Has(c, v) { CutHas(c, k, m, v); }
  }

  lemma CutReader(c: Chain, k: nat, cursor: nat)
    requires Decreasing(c) && k <= |c| && Has(c[..k], cursor)
    ensures Has(c, cursor) && ReadA(c[..k], cursor, 0) == ReadA(c, cursor, 0)
  {
    var j :| 0 <= j < k && c[..k][j].version == cursor;
    FindAt(c, j);
    FindAt(c[..k], j);
  }

  lemma CutStage(s: State, u: nat, k: nat)
    requires Inv(s) && u < |s.pcs| && s.pcs[u].Run?
    requires var p := s.pcs[u].job.partner;
             exists m: nat :: CutAt(s.chains[p], k, m) && m <= s.queues[p].minimum
    ensures StageOk(s.pcs[u].job.view, s.pcs[u].stage, s.chains[u], s.chains[s.pcs[u].job.partner][..k])
  {
    var Run(job, stage) := s.pcs[u];
    var c := s.chains[job.partner];
    var m: nat :| CutAt(c, k, m) && m <= s.queues[job.partner].minimum;
    assert ThreadOk(s, u);
    if job.view.Some? {
      var j := ReaderProtected(s, u);
      NewestCut(c, job.view.value, k, c[j].version);
    }
    if !stage.Begun? && !stage.Ready? && !stage.Inserted? {
      CutHas(c, k, m, stage.cursor);
    }
    if stage.Rereading? && Has(c[..k], stage.cursor) {
      CutReader(c, k, stage.cursor);
    }
  }

  lemma CutInv(s: State)
    requires Inv(s) && Cutting(s.gc)
    ensures Inv(CollectStep(s))
  {
    var s' := CollectStep(s);
    var i := s.gc.i;
    var k := CutShape(s);
    assert ThreadOk(s, i);
    assert CutAt(s.chains[i], k, s.gc.m);
    forall r | 0 <= r < |s.pcs| ensures ThreadOk(s', r) {
      assert ThreadOk(s, r);
      if r == i { CutQueue(s.queues[i], s.chains[i], PendingOf(s.pcs[i]), k, s.gc.m); }
      if s.pcs[r].Run? && s.pcs[r].job.partner == i { CutStage(s, r, k); }
    }
    forall u | 0 <= u < |s.pcs| && u != i
      ensures Disjoint(s'.chains[i], PendingOf(s.pcs[i]), s.chains[u], PendingOf(s.pcs[u]))
      ensures Disjoint(s.chains[u], PendingOf(s.pcs[u]), s'.chains[i], PendingOf(s.pcs[i]))
    {
      CutDisjoint(s.chains[i], PendingOf(s.pcs[i]), k, s.gc.m, s.chains[u], PendingOf(s.pcs[u]));
    }
  }

  lemma WalkOn(s: State)
    requires Inv(s) && !Cutting(s.gc)
    ensures CollectStep(s) == s.(gc := CollectStep(s).gc)
    ensures GcOk(CollectStep(s).gc, s.queues, s.chains)
  {
    var i := s.gc.i;
    assert ThreadOk(s, i);
    var c := s.chains[i];
    assert c[0].version >= s.queues[i].minimum;
    if s.gc.GcWalk? && s.gc.tmp.Some? {
      var next := Link(c, s.gc.tmp.value);
      if next.Some? {
        assert c[Find(c, s.gc.tmp.value).value + 1].version == next.value;
      }
    }
  }

  lemma CollectInv(s: State)
    requires Inv(s)
    ensures Inv(CollectStep(s))
  {
    if Cutting(s.gc) {
      CutInv(s);
    } else {
      WalkOn(s);
      forall r | 0 <= r < |s.pcs| ensures ThreadOk(CollectStep(s), r) {
        assert ThreadOk(s, r);
      }
    }
  }

  lemma InvNext(s: State, e: Event)
    requires Inv(s) && Enabled(s, e)
    ensures Inv(Next(s, e))
  {
    match e
    case Begin(t, p) => BeginInv(s, t, p);
    case Act(t, x) =>
      if s.pcs[t].stage.Inserted? { EndInv(s, t); }
      else if s.pcs[t].stage.Ready? { InsertInv(s, t); }
      else { StageInv(s, t, x); }
    case Collect => CollectInv(s);
  }
}
