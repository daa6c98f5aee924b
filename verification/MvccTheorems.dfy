/** What the update protocol guarantees over whole runs. */
module MvccTheorems {
  import opened Options
  import opened Mvcc
  import opened MvccChains
  import opened MvccInvariant
  import opened MvccSteps

  lemma {:induction false} RunInv(run: seq<State>, events: seq<Event>, k: nat)
    requires IsRun(run, events) && k < |run|
    ensures Inv(run[k]) && |run[k].pcs| == |run[0].pcs|
    decreases k
  {
    if k == 0 {
      InitialInv(run[0]);
    } else {
      RunInv(run, events, k - 1);
      assert Enabled(run[k - 1], events[k - 1]) && run[k] == Next(run[k - 1], events[k - 1]);
      InvNext(run[k - 1], events[k - 1]);
      NextShaped(run[k - 1], events[k - 1]);
    }
  }

  /** No null or dangling pointer is followed: no registered reader runs off its
      partner's chain or meets a freed node, the end of an update always finds its
      queue non-empty, and the collector always has a predecessor to cut after. */
  lemma NoFault(run: seq<State>, events: seq<Event>, k: nat)
    requires IsRun(run, events) && k < |run|
    ensures forall t :: 0 <= t < |run[k].pcs| ==> !run[k].pcs[t].Fault?
    ensures !run[k].gc.GcFault?
  {
    RunInv(run, events, k);
    forall t | 0 <= t < |run[k].pcs| ensures !run[k].pcs[t].Fault? {
      assert ThreadOk(run[k], t);
    }
  }

  // ------------------------------------------------------------------ queues

  /** Every queue is sorted and holds, with multiplicity, exactly the versions of
      its outstanding readers; the two watermarks are in order below it; and the
      minimum is the version of a node still in the chain. */
  lemma QueueDiscipline(run: seq<State>, events: seq<Event>, k: nat, p: nat)
    requires IsRun(run, events) && k < |run| && p < |run[k].pcs|
    ensures var q := run[k].queues[p];
            && Ascending(q.entries)
            && (forall a: nat :: multiset(q.entries)[a] == Readers(run[k].pcs, p, a))
            && q.minimum <= q.deleteFront
            && (forall e :: e in q.entries ==> q.deleteFront <= e && q.minimum < e)
            && Has(run[k].chains[p], q.minimum)
  {
    RunInv(run, events, k);
    assert ThreadOk(run[k], p);
  }

  lemma MinimumStep(s: State, e: Event, p: nat)
    requires Inv(s) && Enabled(s, e) && p < |s.pcs|
    ensures |Next(s, e).queues| == |s.queues| && s.queues[p].minimum <= Next(s, e).queues[p].minimum
  {
    if e.Act? && s.pcs[e.t].stage.Inserted? {
      EndQueue(s, e.t, p);
    }
  }

  lemma MinimumAt(run: seq<State>, events: seq<Event>, k: nat, p: nat)
    requires IsRun(run, events) && k < |events| && p < |run[0].pcs|
    ensures p < |run[k].queues| && p < |run[k + 1].queues| && run[k].queues[p].minimum <= run[k + 1].queues[p].minimum
  {
    RunInv(run, events, k);
    assert Enabled(run[k], events[k]) && run[k + 1] == Next(run[k], events[k]);
    MinimumStep(run[k], events[k], p);
  }

  lemma {:induction false} MinimumMonotone(run: seq<State>, events: seq<Event>, i: nat, j: nat, p: nat)
    requires IsRun(run, events) && i <= j < |run| && p < |run[0].pcs|
    ensures p < |run[i].queues| && p < |run[j].queues| && run[i].queues[p].minimum <= run[j].queues[p].minimum
    decreases j
  {
    if i < j {
      MinimumMonotone(run, events, i, j - 1, p);
      MinimumAt(run, events, j - 1, p);
    } else {
      RunInv(run, events, i);
    }
  }

  // --------------------------------------------------------------- collector

  /** The version a thread's walk currently points at, if it has started walking. */
  function CursorOf(stage: Stage): Option<nat> {
    match stage
    case Walking(c, _, _) => Some(c)
    case Reading(c, _, _) => Some(c)
    case Rereading(c, _, _, _) => Some(c)
    case _ => None
  }

  /** The collector keeps the head of every chain, and what it leaves is the front part. */
  lemma HeadKept(run: seq<State>, events: seq<Event>, k: nat, p: nat)
    requires IsRun(run, events) && k < |events| && events[k].Collect? && p < |run[k].chains|
    ensures p < |run[k + 1].chains| && run[k + 1].chains[p] != [] && run[k + 1].chains[p] <= run[k].chains[p]
  {
    RunInv(run, events, k);
    assert ThreadOk(run[k], p);
    assert run[k + 1] == Next(run[k], events[k]);
    if Cutting(run[k].gc) {
      var n := CutShape(run[k]);
    }
  }

  /** A cut keeps the chain head and removes nothing that any registered reader of
      the chain will still touch: every removed node is older than the reader's
      snapshot and than the node its walk stands on. */
  lemma CollectorSafety(run: seq<State>, events: seq<Event>, k: nat, t: nat)
    requires IsRun(run, events) && k < |events| && events[k].Collect? && Cutting(run[k].gc)
    requires t < |run[k].pcs| && run[k].pcs[t].Run? && run[k].pcs[t].job.view.Some?
    requires run[k].pcs[t].job.partner == run[k].gc.i
    ensures var Run(job, stage) := run[k].pcs[t];
            var c, c' := run[k].chains[job.partner], run[k + 1].chains[job.partner];
            && c != [] && c' != [] && c'[0] == c[0] && c' <= c
            && Newest(c, job.view.value).Some?
            && (forall i :: |c'| <= i < |c| ==> c[i].version < Newest(c, job.view.value).value.version)
            && (CursorOf(stage).Some? ==> Has(c', CursorOf(stage).value))
  {
    var s := run[k];
    RunInv(run, events, k);
    RunInv(run, events, k + 1);
    assert Enabled(s, events[k]) && run[k + 1] == Next(s, events[k]);
    var n := CutShape(s);
    var j := ReaderProtected(s, t);
    assert ThreadOk(s, t) && ThreadOk(run[k + 1], t);
  }

  // --------------------------------------------------------------- snapshots

  /** One step, whoever takes it, leaves a registered reader's snapshot alone. */
  lemma SnapshotStep(s: State, e: Event, t: nat)
    requires Inv(s) && Enabled(s, e) && t < |s.pcs| && s.pcs[t].Run? && s.pcs[t].job.view.Some?
    requires s.pcs[t].job.partner < |Next(s, e).chains|
    ensures var p, a := s.pcs[t].job.partner, s.pcs[t].job.view.value;
            Newest(Next(s, e).chains[p], a) == Newest(s.chains[p], a)
  {
    var p, a := s.pcs[t].job.partner, s.pcs[t].job.view.value;
    var j := ReaderProtected(s, t);
    assert ThreadOk(s, p);
    if e.Act? && e.t == p && s.pcs[p].stage.Ready? {
      assert Next(s, e).chains[p][1..] == s.chains[p];
    } else if e.Collect? && Cutting(s.gc) && s.gc.i == p {
      var k := CutShape(s);
      NewestCut(s.chains[p], a, k, s.chains[p][j].version);
    }
  }

  /** Thread t is working on the given job in state k of the run. */
  ghost predicate Working(run: seq<State>, k: nat, t: nat, job: Job) {
    k < |run| && t < |run[k].pcs| && run[k].pcs[t].Run? && run[k].pcs[t].job == job
  }

  lemma SnapshotExists(run: seq<State>, events: seq<Event>, k: nat, t: nat, job: Job)
    requires IsRun(run, events) && Working(run, k, t, job) && job.view.Some?
    ensures job.partner < |run[k].chains| && Newest(run[k].chains[job.partner], job.view.value).Some?
  {
    RunInv(run, events, k);
    var n := ReaderProtected(run[k], t);
  }

  lemma SnapshotKept(run: seq<State>, events: seq<Event>, k: nat, t: nat, job: Job)
    requires IsRun(run, events) && Working(run, k, t, job) && k + 1 < |run| && job.view.Some?
    ensures job.partner < |run[k].chains| && job.partner < |run[k + 1].chains|
    ensures Newest(run[k + 1].chains[job.partner], job.view.value) == Newest(run[k].chains[job.partner], job.view.value)
  {
    RunInv(run, events, k);
    assert Enabled(run[k], events[k]) && run[k + 1] == Next(run[k], events[k]);
    NextShaped(run[k], events[k]);
    SnapshotStep(run[k], events[k], t);
  }

  /** Snapshot stability: from the moment a reader captures its partner as active
      at version a until its update ends, the newest version below a in the
      partner's chain is one and the same node. */
  lemma {:induction false} SnapshotStable(run: seq<State>, events: seq<Event>, i: nat, j: nat, t: nat, job: Job)
    requires IsRun(run, events) && i <= j && job.view.Some?
    requires forall k :: i <= k <= j ==> Working(run, k, t, job)
    ensures i < |run| && j < |run| && job.partner < |run[i].chains| && job.partner < |run[j].chains|
    ensures Newest(run[i].chains[job.partner], job.view.value).Some?
    ensures Newest(run[j].chains[job.partner], job.view.value) == Newest(run[i].chains[job.partner], job.view.value)
    decreases j
  {
    assert Working(run, i, t, job) && Working(run, j, t, job);
    SnapshotExists(run, events, i, t, job);
    SnapshotExists(run, events, j, t, job);
    if i < j {
      SnapshotStable(run, events, i, j - 1, t, job);
      assert Working(run, j - 1, t, job);
      SnapshotKept(run, events, j - 1, t, job);
    }
  }

  /** The new chain is the old one behind a node whose A is its head's with r added and
      whose B is its head's with r taken away. */
  ghost predicate Moved(chain': Chain, chain: Chain, r: int, version: nat) {
    chain != [] && chain' == [Node(chain[0].A + r, chain[0].B - r, version)] + chain
  }

  /** What a registered reader finally inserts: its own newest values, moved by what is
      left of the partner's A as of the capture (index i) in steps of a hundred, however
      the partner went on. */
  lemma SnapshotRead(run: seq<State>, events: seq<Event>, i: nat, j: nat, t: nat, job: Job) returns (r: int)
    requires IsRun(run, events) && i <= j < |events| && job.view.Some?
    requires forall k :: i <= k <= j ==> Working(run, k, t, job)
    requires Working(run, j, t, job) && run[j].pcs[t].stage.Ready? && events[j].Act? && events[j].t == t
    ensures job.partner < |run[i].chains| && t < |run[j].chains| && t < |run[j + 1].chains|
    ensures var seen := Newest(run[i].chains[job.partner], job.view.value);
            seen.Some? && IsRemainder(r, seen.value.A) && Moved(run[j + 1].chains[t], run[j].chains[t], r, job.version)
  {
    SnapshotStable(run, events, i, j, t, job);
    RunInv(run, events, j);
    assert ThreadOk(run[j], t);
    assert run[j + 1] == Next(run[j], events[j]);
    var seen := Newest(run[i].chains[job.partner], job.view.value);
    r := Rem100(seen.value.A);
    Rem100Is(seen.value.A);
  }

  // ---------------------------------------------------- versions and totals

  /** Within a chain versions strictly decrease; across chains no version other
      than the initial 0 occurs twice. */
  lemma VersionsDistinct(run: seq<State>, events: seq<Event>, k: nat, t: nat, i: nat, u: nat, j: nat)
    requires IsRun(run, events) && k < |run| && t < |run[k].chains| && u < |run[k].chains|
    requires i < |run[k].chains[t]| && j < |run[k].chains[u]|
    ensures t == u && i < j ==> run[k].chains[t][i].version > run[k].chains[u][j].version
    ensures t != u && run[k].chains[t][i].version == run[k].chains[u][j].version ==>
              run[k].chains[t][i].version == 0
  {
    RunInv(run, events, k);
    var s := run[k];
    assert ThreadOk(s, t);
    if t != u {
      assert Disjoint(s.chains[t], PendingOf(s.pcs[t]), s.chains[u], PendingOf(s.pcs[u]));
      assert Has(s.chains[t], s.chains[t][i].version) && Has(s.chains[u], s.chains[u][j].version);
      assert Owns(s.chains[t], PendingOf(s.pcs[t]), s.chains[t][i].version);
      assert Owns(s.chains[u], PendingOf(s.pcs[u]), s.chains[u][j].version);
    }
  }

  /** The event inserts a version. */
  ghost predicate Inserts(s: State, e: Event) {
    e.Act? && e.t < |s.pcs| && e.t < |s.chains| && s.pcs[e.t].Run? && s.pcs[e.t].stage.Ready? && s.chains[e.t] != []
  }

  /** What an insertion adds to A less what it takes from B; the two come from two
      reads of the same field of the partner's node. */
  ghost function Drift(s: State, e: Event): int {
    if Inserts(s, e)
    then (s.pcs[e.t].stage.myA - s.chains[e.t][0].A) - (s.chains[e.t][0].B - s.pcs[e.t].stage.myB)
    else 0
  }

  lemma DriftStep(s: State, e: Event)
    requires Inv(s) && Enabled(s, e)
    ensures Total(Next(s, e).chains) == Total(s.chains) + Drift(s, e)
  {
    if e.Act? && s.pcs[e.t].stage.Ready? {
      assert ThreadOk(s, e.t);
      TotalUpdate(s.chains, e.t, Next(s, e).chains[e.t]);
    } else if e.Collect? && Cutting(s.gc) {
      var k := CutShape(s);
      TotalUpdate(s.chains, s.gc.i, Next(s, e).chains[s.gc.i]);
    }
  }

  lemma DriftAt(run: seq<State>, events: seq<Event>, k: nat)
    requires IsRun(run, events) && k < |events|
    ensures Total(run[k + 1].chains) == Total(run[k].chains) + Drift(run[k], events[k])
  {
    RunInv(run, events, k);
    assert Enabled(run[k], events[k]) && run[k + 1] == Next(run[k], events[k]);
    DriftStep(run[k], events[k]);
  }

  ghost predicate SumKept(run: seq<State>, k: nat) {
    k < |run| && forall i :: 0 <= i <= k ==> Total(run[i].chains) == Total(run[0].chains)
  }

  ghost predicate Balanced(run: seq<State>, events: seq<Event>, k: nat) {
    k < |run| && k <= |events| && forall i :: 0 <= i < k ==> Drift(run[i], events[i]) == 0
  }

  /** The sum stays the same exactly as long as no insertion drifts. */
  lemma {:induction false} KeptIffBalanced(run: seq<State>, events: seq<Event>, k: nat)
    requires IsRun(run, events) && k < |run|
    ensures SumKept(run, k) <==> Balanced(run, events, k)
    decreases k
  {
    if k > 0 {
      KeptIffBalanced(run, events, k - 1);
      DriftAt(run, events, k - 1);
    }
  }

  /** Only an unregistered reader whose node was collected under it can insert with a
      drift: one that did not find its partner active, and one of whose reads did not hit
      a node of the chain. */
  lemma DriftIsDirty(run: seq<State>, events: seq<Event>, k: nat)
    requires IsRun(run, events) && k < |events| && Drift(run[k], events[k]) != 0
    ensures var pc := run[k].pcs[events[k].t];
            pc.job.view.None? && !pc.stage.clean
  {
    RunInv(run, events, k);
    assert ThreadOk(run[k], events[k].t);
  }

  /** So the sum is conserved in every run in which each update finds its partner active,
      or at least reads its node before it is collected. */
  lemma TotalConserved(run: seq<State>, events: seq<Event>, k: nat)
    requires IsRun(run, events) && k < |run|
    requires forall i :: 0 <= i < k && Inserts(run[i], events[i]) ==>
               run[i].pcs[events[i].t].job.view.Some? || run[i].pcs[events[i].t].stage.clean
    ensures Total(run[k].chains) == Total(run[0].chains)
  {
    forall i | 0 <= i < k ensures Drift(run[i], events[i]) == 0 {
      if Drift(run[i], events[i]) != 0 {
        DriftIsDirty(run, events, i);
      }
    }
    KeptIffBalanced(run, events, k);
  }
}
