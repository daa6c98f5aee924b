/** What an update reads and inserts when its partner was not active, and how versions
    are numbered. */
module MvccReads {
  import opened Options
  import opened Mvcc
  import opened MvccChains
  import opened MvccInvariant
  import opened MvccSteps
  import opened MvccTheorems

  /** The node with version v, as long as it is in the chain, has this A; and it cannot
      come back once it has gone. */
  ghost predicate NodeIs(c: Chain, v: nat, a: int) {
    c != [] && v <= c[0].version && (Has(c, v) ==> ReadA(c, v, 0) == a)
  }

  lemma PushNode(c: Chain, n: Node, v: nat, a: int)
    requires Decreasing(c) && NodeIs(c, v, a) && c[0].version < n.version
    ensures NodeIs([n] + c, v, a)
  {
    var c' := [n] + c;
    assert c'[1..] == c;
    PushOwns(c, n);
  }

  lemma NodeStep(s: State, e: Event, p: nat, v: nat, a: int)
    requires Inv(s) && Enabled(s, e) && p < |s.chains| && NodeIs(s.chains[p], v, a)
    ensures p < |Next(s, e).chains| && NodeIs(Next(s, e).chains[p], v, a)
  {
    var c := s.chains[p];
    assert ThreadOk(s, p);
    if Inserts(s, e) && e.t == p {
      PushNode(c, Next(s, e).chains[p][0], v, a);
    } else if e.Collect? && Cutting(s.gc) && s.gc.i == p {
      var k := CutShape(s);
      if Has(c[..k], v) {
        CutReader(c, k, v);
      }
    }
  }

  /** The update of thread t stands on the node with version v, and what it has computed
      so far comes from A == a there and from its own newest values. */
  ghost predicate Computes(pc: Pc, job: Job, mine: Node, v: nat, a: int) {
    pc.Run? && pc.job == job &&
    match pc.stage
    case Reading(c, myA, myB) => c == v && myA == mine.A && myB == mine.B
    case Rereading(c, myA, myB, clean) => c == v && myB == mine.B && (clean ==> myA == mine.A + Rem100(a))
    case Ready(myA, myB, clean) => clean ==> myA == mine.A + Rem100(a) && myB == mine.B - Rem100(a)
    case _ => false
  }

  lemma ReadIs(c: Chain, v: nat, x: int)
    requires Has(c, v)
    ensures ReadA(c, v, x) == ReadA(c, v, 0)
  {
  }

  lemma OwnRead(s: State, t: nat, x: int, job: Job, mine: Node, v: nat, a: int)
    requires Shaped(s) && t < |s.pcs| && Computes(s.pcs[t], job, mine, v, a) && job.view.None? && job.partner < |s.chains|
    requires NodeIs(s.chains[job.partner], v, a) && !s.pcs[t].stage.Ready?
    ensures Computes(StageStep(s, t, x), job, mine, v, a)
  {
    if Has(s.chains[job.partner], v) {
      ReadIs(s.chains[job.partner], v, x);
    }
  }

  /** One step before the insertion. */
  lemma ComputesOn(s: State, e: Event, t: nat, job: Job, mine: Node, v: nat, a: int)
    requires Inv(s) && Enabled(s, e) && t < |s.pcs| && Computes(s.pcs[t], job, mine, v, a) && job.view.None?
    requires NodeIs(s.chains[job.partner], v, a) && s.chains[t] != [] && s.chains[t][0] == mine
    requires !(Inserts(s, e) && e.t == t)
    ensures var s' := Next(s, e);
            && t < |s'.pcs| && Computes(s'.pcs[t], job, mine, v, a)
            && t < |s'.chains| && s'.chains[t] != [] && s'.chains[t][0] == mine
  {
    assert ThreadOk(s, t);
    if e.Act? && e.t == t {
      OwnRead(s, t, e.x, job, mine, v, a);
    } else if e.Collect? && Cutting(s.gc) {
      var k := CutShape(s);
    }
  }

  /** The state of an update between its start at i and its insertion at j. */
  ghost predicate Under(run: seq<State>, k: nat, t: nat, job: Job, mine: Node, v: nat, a: int) {
    && k < |run| && t < |run[k].pcs| && Computes(run[k].pcs[t], job, mine, v, a)
    && t < |run[k].chains| && run[k].chains[t] != [] && run[k].chains[t][0] == mine
    && job.partner < |run[k].chains| && NodeIs(run[k].chains[job.partner], v, a)
  }

  lemma UnderOn(run: seq<State>, events: seq<Event>, k: nat, t: nat, job: Job, mine: Node, v: nat, a: int)
    requires IsRun(run, events) && k < |events| && job.view.None? && Under(run, k, t, job, mine, v, a)
    requires !(Inserts(run[k], events[k]) && events[k].t == t)
    ensures Under(run, k + 1, t, job, mine, v, a)
  {
    RunInv(run, events, k);
    assert Enabled(run[k], events[k]) && run[k + 1] == Next(run[k], events[k]);
    ComputesOn(run[k], events[k], t, job, mine, v, a);
    NodeStep(run[k], events[k], job.partner, v, a);
  }

  lemma {:induction false} UnderUpTo(run: seq<State>, events: seq<Event>, i: nat, j: nat, t: nat, job: Job, mine: Node, v: nat, a: int)
    requires IsRun(run, events) && i <= j < |run| && job.view.None? && Under(run, i, t, job, mine, v, a)
    requires forall k :: i <= k < j ==> !(Inserts(run[k], events[k]) && events[k].t == t)
    ensures Under(run, j, t, job, mine, v, a)
    decreases j
  {
    if i < j {
      UnderUpTo(run, events, i, j - 1, t, job, mine, v, a);
      UnderOn(run, events, j - 1, t, job, mine, v, a);
    }
  }

  /** The first step of such an update takes the partner's newest node. */
  lemma TakesHead(run: seq<State>, events: seq<Event>, i: nat, t: nat, job: Job)
    requires IsRun(run, events) && i < |events| && Working(run, i, t, job) && job.view.None?
    requires run[i].pcs[t].stage.Begun? && events[i].Act? && events[i].t == t
    ensures job.partner < |run[i].chains| && run[i].chains[job.partner] != [] && t < |run[i].chains| && run[i].chains[t] != []
    ensures var head := run[i].chains[job.partner][0];
            Under(run, i + 1, t, job, run[i].chains[t][0], head.version, head.A)
  {
    var s := run[i];
    RunInv(run, events, i);
    assert ThreadOk(s, t) && ThreadOk(s, job.partner);
    assert run[i + 1] == Next(s, events[i]);
    FindAt(s.chains[job.partner], 0);
  }

  /** What an update inserts that found its partner inactive and its node both times: its
      own newest values, moved by what is left of the A of the partner's newest node when
      it started reading (index i). */
  lemma HeadRead(run: seq<State>, events: seq<Event>, i: nat, j: nat, t: nat, job: Job) returns (r: int)
    requires IsRun(run, events) && i < j < |events| && Working(run, i, t, job) && job.view.None?
    requires run[i].pcs[t].stage.Begun? && events[i].Act? && events[i].t == t
    requires forall k :: i < k < j ==> !(Inserts(run[k], events[k]) && events[k].t == t)
    requires Inserts(run[j], events[j]) && events[j].t == t && run[j].pcs[t].stage.clean
    ensures job.partner < |run[i].chains| && run[i].chains[job.partner] != [] && t < |run[j + 1].chains|
    ensures IsRemainder(r, run[i].chains[job.partner][0].A)
    ensures Moved(run[j + 1].chains[t], run[j].chains[t], r, job.version)
  {
    TakesHead(run, events, i, t, job);
    var head := run[i].chains[job.partner][0];
    UnderUpTo(run, events, i + 1, j, t, job, run[i].chains[t][0], head.version, head.A);
    assert run[j + 1] == Next(run[j], events[j]);
    r := Rem100(head.A);
    Rem100Is(head.A);
  }

  // ----------------------------------------------------------------- versions

  /** How many updates have started before state k. */
  function Begins(events: seq<Event>, k: nat): nat
    requires k <= |events|
  {
    if k == 0 then 0 else Begins(events, k - 1) + (if events[k - 1].Begin? then 1 else 0)
  }

  lemma {:induction false} CounterCounts(run: seq<State>, events: seq<Event>, k: nat)
    requires IsRun(run, events) && k < |run|
    ensures run[k].counter == Begins(events, k)
    decreases k
  {
    if k > 0 {
      CounterCounts(run, events, k - 1);
      assert Enabled(run[k - 1], events[k - 1]) && run[k] == Next(run[k - 1], events[k - 1]);
    }
  }

  /** The n-th update to start gets version n. */
  lemma VersionIsNumber(run: seq<State>, events: seq<Event>, k: nat)
    requires IsRun(run, events) && k < |events| && events[k].Begin?
    ensures var t := events[k].t;
            t < |run[k + 1].pcs| && run[k + 1].pcs[t].Run? && run[k + 1].pcs[t].job.version == Begins(events, k + 1)
  {
    CounterCounts(run, events, k);
    assert Enabled(run[k], events[k]) && run[k + 1] == Next(run[k], events[k]);
  }
}
