/** Exactly how the watermarks of a queue move, said in terms of the readers that are
    registered, over whole runs. */
module MvccWatermarks {
  import opened Options
  import opened Mvcc
  import opened MvccChains
  import opened MvccInvariant
  import opened MvccSteps
  import opened MvccTheorems

  /** Some reader with view b is registered on p. */
  ghost predicate Registered(s: State, p: nat, b: nat) {
    exists u: nat :: u < |s.pcs| && Reads(s.pcs[u], p, b)
  }

  /** The event ends an update that is registered on p with view a. */
  ghost predicate EndsOn(s: State, e: Event, p: nat, a: nat) {
    && e.Act? && e.t < |s.pcs| && s.pcs[e.t].Run? && s.pcs[e.t].stage.Inserted?
    && s.pcs[e.t].job.partner == p && s.pcs[e.t].job.view == Some(a)
  }

  lemma {:induction false} ReadersSome(pcs: seq<Pc>, p: nat, a: nat)
    ensures Readers(pcs, p, a) >= 1 <==> exists u: nat :: u < |pcs| && Reads(pcs[u], p, a)
  {
    if exists u: nat :: u < |pcs| && Reads(pcs[u], p, a) {
      var u: nat :| u < |pcs| && Reads(pcs[u], p, a);
      ReadersUpdate(pcs, u, pcs[u], p, a);
    } else {
      ReadersNone(pcs, p, a);
    }
  }

  /** The queue holds the views of the registered readers. */
  lemma QueuedIs(s: State, p: nat, b: nat)
    requires Inv(s) && p < |s.pcs|
    ensures b in s.queues[p].entries <==> Registered(s, p, b)
  {
    assert ThreadOk(s, p);
    ReadersSome(s.pcs, p, b);
    assert b in s.queues[p].entries <==> multiset(s.queues[p].entries)[b] >= 1;
  }

  // ------------------------------------------------------------- one release

  /** With a at the front of a sorted queue, ... */
  lemma FrontReleased(q: Queue, a: nat)
    requires Ascending(q.entries) && q.entries != [] && q.entries[0] == a
    ensures var q' := Release(q, a);
            && q'.deleteFront == a && q'.entries == q.entries[1..]
            && (q'.entries != [] && (forall e :: e in q'.entries ==> e > a) ==> q'.minimum == a)
            && (q'.entries == [] ==> q'.minimum == if q.deleteFront != a then q.deleteFront else q.minimum)
            && ((exists e :: e in q'.entries && e <= a) ==> q'.minimum == q.minimum)
  {
    var rest := q.entries[1..];
    assert forall i :: 0 <= i < |rest| ==> rest[i] == q.entries[i + 1];
    if rest != [] {
      assert rest[0] in rest;
    }
    if e :| e in rest && e <= a {
      var i :| 0 <= i < |rest| && rest[i] == e;
      assert rest[0] <= rest[i];
    }
  }

  /** ... and with something smaller in front of it. */
  lemma InnerReleased(q: Queue, a: nat)
    requires Ascending(q.entries) && a in q.entries && q.entries[0] != a
    ensures var q' := Release(q, a);
            && q'.deleteFront == q.deleteFront && q'.minimum == q.minimum
            && q.entries[0] in q'.entries && q.entries[0] < a
  {
    RemoveFirstSub(q.entries, a);
    var i :| 0 <= i < |q.entries| && q.entries[i] == a;
  }

  /** The step's effect on the queue. */
  lemma EndsRelease(s: State, e: Event, p: nat, a: nat)
    requires Inv(s) && Enabled(s, e) && EndsOn(s, e, p, a)
    ensures p < |s.queues| && Ascending(s.queues[p].entries) && a in s.queues[p].entries
    ensures p < |Next(s, e).queues| && Next(s, e).queues[p] == Release(s.queues[p], a)
  {
    ReaderQueued(s, e.t);
    assert ThreadOk(s, p);
  }

  lemma OthersKeep(s: State, e: Event, p: nat)
    requires Inv(s) && Enabled(s, e) && p < |s.queues| && (forall a: nat :: !EndsOn(s, e, p, a))
    ensures p < |Next(s, e).queues| && Next(s, e).queues[p].minimum == s.queues[p].minimum
    ensures Next(s, e).queues[p].deleteFront == s.queues[p].deleteFront
  {
    if e.Act? && s.pcs[e.t].stage.Inserted? && s.pcs[e.t].job.view.Some? {
      assert !EndsOn(s, e, p, s.pcs[e.t].job.view.value);
    }
  }

  // ----------------------------------------------------------------- the runs

  /** Nobody registered on p has a smaller view than the update that ends. */
  ghost predicate Drains(s: State, e: Event, p: nat, a: nat) {
    EndsOn(s, e, p, a) && forall b: nat :: Registered(s, p, b) ==> a <= b
  }

  ghost predicate DrainsSome(s: State, e: Event, p: nat) {
    exists a: nat :: Drains(s, e, p, a)
  }

  /** The view that was drained last from p's queue before state k, 0 at the start. */
  ghost function LastDrained(run: seq<State>, events: seq<Event>, k: nat, p: nat): nat
    requires k <= |run| && k <= |events|
    decreases k
  {
    if k == 0 then 0
    else if DrainsSome(run[k - 1], events[k - 1], p) then run[k - 1].pcs[events[k - 1].t].job.view.value
    else LastDrained(run, events, k - 1, p)
  }

  lemma DrainStep(s: State, e: Event, p: nat)
    requires Inv(s) && Enabled(s, e) && p < |s.queues|
    ensures p < |Next(s, e).queues|
    ensures Next(s, e).queues[p].deleteFront ==
      if DrainsSome(s, e, p) then s.pcs[e.t].job.view.value else s.queues[p].deleteFront
  {
    if a: nat :| EndsOn(s, e, p, a) {
      EndsRelease(s, e, p, a);
      forall b: nat ensures b in s.queues[p].entries <==> Registered(s, p, b) { QueuedIs(s, p, b); }
      var q := s.queues[p];
      if q.entries[0] == a {
        FrontReleased(q, a);
        assert Drains(s, e, p, a);
      } else {
        InnerReleased(q, a);
        assert q.entries[0] in q.entries && !Drains(s, e, p, a);
      }
    } else {
      OthersKeep(s, e, p);
    }
  }

  /** delete_front is the view drained last. */
  lemma {:induction false} DrainedIs(run: seq<State>, events: seq<Event>, k: nat, p: nat)
    requires IsRun(run, events) && k < |run| && p < |run[0].pcs|
    ensures p < |run[k].queues| && run[k].queues[p].deleteFront == LastDrained(run, events, k, p)
    decreases k
  {
    if k > 0 {
      DrainedIs(run, events, k - 1, p);
      RunInv(run, events, k - 1);
      assert Enabled(run[k - 1], events[k - 1]) && run[k] == Next(run[k - 1], events[k - 1]);
      DrainStep(run[k - 1], events[k - 1], p);
    }
  }

  /** How the end of an update registered on p with view a moves the minimum: to a if the
      readers that remain all have later views; to the view drained before, if that is
      another one, when nobody remains; and not at all while somebody with that view or an
      earlier one remains. */
  lemma MinimumMoves(run: seq<State>, events: seq<Event>, k: nat, p: nat, a: nat)
    requires IsRun(run, events) && k < |events| && p < |run[0].pcs| && EndsOn(run[k], events[k], p, a)
    ensures p < |run[k].queues| && p < |run[k + 1].queues|
    ensures var (s', was, now) := (run[k + 1], run[k].queues[p].minimum, run[k + 1].queues[p].minimum);
            && ((exists b: nat :: Registered(s', p, b)) && (forall b: nat :: Registered(s', p, b) ==> b > a) ==> now == a)
            && ((forall b: nat :: !Registered(s', p, b)) ==>
                  now == if LastDrained(run, events, k, p) != a then LastDrained(run, events, k, p) else was)
            && ((exists b: nat :: Registered(s', p, b) && b <= a) ==> now == was)
  {
    RunInv(run, events, k);
    RunInv(run, events, k + 1);
    assert Enabled(run[k], events[k]) && run[k + 1] == Next(run[k], events[k]);
    DrainedIs(run, events, k, p);
    EndsRelease(run[k], events[k], p, a);
    MovesFrom(run[k].queues[p], a, run[k + 1], p);
  }

  lemma MovesFrom(q: Queue, a: nat, s': State, p: nat)
    requires Ascending(q.entries) && a in q.entries && Inv(s') && p < |s'.pcs| && s'.queues[p] == Release(q, a)
    ensures var now := s'.queues[p].minimum;
            && ((exists b: nat :: Registered(s', p, b)) && (forall b: nat :: Registered(s', p, b) ==> b > a) ==> now == a)
            && ((forall b: nat :: !Registered(s', p, b)) ==>
                  now == if q.deleteFront != a then q.deleteFront else q.minimum)
            && ((exists b: nat :: Registered(s', p, b) && b <= a) ==> now == q.minimum)
  {
    var q' := s'.queues[p];
    forall b: nat ensures b in q'.entries <==> Registered(s', p, b) { QueuedIs(s', p, b); }
    if q.entries[0] == a {
      FrontReleased(q, a);
      if q'.entries != [] { assert q'.entries[0] in q'.entries; }
    } else {
      InnerReleased(q, a);
      assert Registered(s', p, q.entries[0]);
    }
  }

  /** Nothing else moves it. */
  lemma MinimumStays(run: seq<State>, events: seq<Event>, k: nat, p: nat)
    requires IsRun(run, events) && k < |events| && p < |run[0].pcs| && (forall a: nat :: !EndsOn(run[k], events[k], p, a))
    ensures p < |run[k].queues| && p < |run[k + 1].queues| && run[k + 1].queues[p].minimum == run[k].queues[p].minimum
  {
    RunInv(run, events, k);
    assert Enabled(run[k], events[k]) && run[k + 1] == Next(run[k], events[k]);
    OthersKeep(run[k], events[k], p);
  }
}
