/** The multi-version update protocol of Project2 as a state machine: any number
    of updater threads plus the collector thread. The two regions under the mutex
    are one step each; everything outside it moves by single reads and writes of
    shared memory. A pointer to a chain node is represented by the node's version,
    which identifies it within its chain.
 */
module Mvcc {
  import opened Options

  datatype Node = Node(A: int, B: int, version: nat)

  type Chain = seq<Node>   // newest version first

  datatype Queue = Queue(entries: seq<nat>, minimum: nat, deleteFront: nat)

  datatype ActiveEntry = ActiveEntry(index: nat, version: nat)

  /** One update: the partner it reads, its own version number, and the version
      at which the captured list showed the partner active (None: inactive). */
  datatype Job = Job(partner: nat, version: nat, view: Option<nat>)

  /** Progress of an update. "clean" records whether every read of the partner's
      A so far was of a node still in the partner's chain. */
  datatype Stage =
    | Begun
    | Walking(cursor: nat, myA: int, myB: int)
    | Reading(cursor: nat, myA: int, myB: int)                  // about to read A for my_A
    | Rereading(cursor: nat, myA: int, myB: int, clean: bool)   // about to read A again for my_B
    | Ready(myA: int, myB: int, clean: bool)
    | Inserted

  datatype Pc = Idle | Fault | Run(job: Job, stage: Stage)

  /** The collector: reading the minimum of queue i, reading the chain head,
      walking with (back, tmp). GcFault is a write through the null back pointer. */
  datatype GcPc =
    | GcMinimum(i: nat)
    | GcHead(i: nat, m: nat)
    | GcWalk(i: nat, m: nat, back: Option<nat>, tmp: Option<nat>)
    | GcFault

  datatype State = State(
    counter: nat,
    active: seq<ActiveEntry>,
    chains: seq<Chain>,
    queues: seq<Queue>,
    pcs: seq<Pc>,
    gc: GcPc)

  /** What happens next: thread t starts an update on a partner, thread t moves on
      inside its update (x is the value found if it reads a collected node), or the
      collector moves. */
  datatype Event = Begin(t: nat, partner: nat) | Act(t: nat, x: int) | Collect

  // ---------------------------------------------------------------- chains

  /** Position of the node with the given version. */
  function Find(c: Chain, v: nat): (r: Option<nat>)
    ensures r.Some? ==> r.value < |c| && c[r.value].version == v
    ensures r.None? ==> forall i :: 0 <= i < |c| ==> c[i].version != v
  {
    if c == [] then None
    else if c[0].version == v then Some(0)
    else match Find(c[1..], v)
         case None => assert c == [c[0]] + c[1..]; None
         case Some(i) => Some(i + 1)
  }

  predicate Has(c: Chain, v: nat) {
    exists i :: 0 <= i < |c| && c[i].version == v
  }

  /** The newest node with a version below a. */
  function Newest(c: Chain, a: nat): (r: Option<Node>)
    ensures r.Some? ==> r.value.version < a
  {
    if c == [] then None
    else if c[0].version < a then Some(c[0])
    else Newest(c[1..], a)
  }

  /** The link field of the node with version v. */
  function Link(c: Chain, v: nat): Option<nat> {
    match Find(c, v)
    case None => None
    case Some(i) => if i + 1 < |c| then Some(c[i + 1].version) else None
  }

  /** Remainder as C computes it: the sign follows the dividend. */
  function Rem100(x: int): int {
    if x >= 0 then x % 100 else -((-x) % 100)
  }

  // ---------------------------------------------------- queue and active list

  function RemoveFirst(s: seq<nat>, v: nat): seq<nat> {
    if s == [] then [] else if s[0] == v then s[1..] else [s[0]] + RemoveFirst(s[1..], v)
  }

  /** What the end of an update does to the partner's queue; the queue is not empty. */
  function Release(q: Queue, a: nat): Queue
    requires q.entries != []
  {
    if q.entries[0] == a then
      var rest := q.entries[1..];
      var minimum :=
        if rest != [] then (if rest[0] != a then a else q.minimum)
        else (if q.deleteFront != a then q.deleteFront else q.minimum);
      Queue(rest, minimum, a)
    else
      q.(entries := RemoveFirst(q.entries, a))
  }

  function RemoveActive(l: seq<ActiveEntry>, t: nat): seq<ActiveEntry> {
    if l == [] then [] else if l[0].index == t then l[1..] else [l[0]] + RemoveActive(l[1..], t)
  }

  /** The capture is built by pushing each entry in front, so it is reversed. */
  function Capture(l: seq<ActiveEntry>): seq<ActiveEntry> {
    if l == [] then [] else Capture(l[1..]) + [l[0]]
  }

  /** The version of the first entry for thread p. */
  function LookupActive(l: seq<ActiveEntry>, p: nat): Option<nat> {
    if l == [] then None else if l[0].index == p then Some(l[0].version) else LookupActive(l[1..], p)
  }

  // -------------------------------------------------------------------- steps

  ghost predicate Shaped(s: State) {
    && |s.chains| == |s.queues| == |s.pcs|
    && (forall t :: 0 <= t < |s.pcs| && s.pcs[t].Run? ==> s.pcs[t].job.partner < |s.pcs|)
    && (s.gc.GcFault? || s.gc.i < |s.pcs|)
  }

  ghost predicate Enabled(s: State, e: Event) {
    match e
    case Begin(t, p) => t < |s.pcs| && p < |s.pcs| && p != t && s.pcs[t].Idle?
    case Act(t, _) => t < |s.pcs| && s.pcs[t].Run?
    case Collect => !s.gc.GcFault?
  }

  function SetPc(s: State, t: nat, pc: Pc): State
    requires t < |s.pcs|
  {
    s.(pcs := s.pcs[t := pc])
  }

  /** First region under the mutex, given what the capture says about the partner. */
  function BeginWith(s: State, t: nat, p: nat, view: Option<nat>): State
    requires Shaped(s) && Enabled(s, Begin(t, p))
  {
    var v := s.counter + 1;
    var q := s.queues[p];
    var queues := if view.Some? then s.queues[p := q.(entries := q.entries + [view.value])] else s.queues;
    s.(counter := v, active := [ActiveEntry(t, v)] + s.active, queues := queues,
       pcs := s.pcs[t := Run(Job(p, v, view), Begun)])
  }

  function BeginStep(s: State, t: nat, p: nat): State
    requires Shaped(s) && Enabled(s, Begin(t, p))
  {
    BeginWith(s, t, p, LookupActive(Capture([ActiveEntry(t, s.counter + 1)] + s.active), p))
  }

  /** Second region under the mutex. */
  function EndStep(s: State, t: nat): State
    requires Shaped(s) && t < |s.pcs| && s.pcs[t].Run?
  {
    var job := s.pcs[t].job;
    var s1 := s.(active := RemoveActive(s.active, t));
    if job.view.None? then SetPc(s1, t, Idle)
    else if s.queues[job.partner].entries == [] then SetPc(s1, t, Fault)
    else SetPc(s1.(queues := s.queues[job.partner := Release(s.queues[job.partner], job.view.value)]), t, Idle)
  }

  /** The value found in field A through the cursor: x if the node is gone. */
  function ReadA(c: Chain, cursor: nat, x: int): int {
    match Find(c, cursor)
    case Some(i) => c[i].A
    case None => x
  }

  /** The stages between the two regions, as far as the chains do not change. */
  function StageStep(s: State, t: nat, x: int): Pc
    requires Shaped(s) && t < |s.pcs| && s.pcs[t].Run? && !s.pcs[t].stage.Ready? && !s.pcs[t].stage.Inserted?
  {
    var job := s.pcs[t].job;
    var mine, theirs := s.chains[t], s.chains[job.partner];
    match s.pcs[t].stage
    case Begun =>
      if mine == [] || theirs == [] then Fault
      else if job.view.Some? then Run(job, Walking(theirs[0].version, mine[0].A, mine[0].B))
      else Run(job, Reading(theirs[0].version, mine[0].A, mine[0].B))
    case Walking(cursor, myA, myB) =>
      if !Has(theirs, cursor) || job.view.None? then Fault
      else if cursor < job.view.value then Run(job, Reading(cursor, myA, myB))
      else (match Link(theirs, cursor)
            case None => Fault
            case Some(next) => Run(job, Walking(next, myA, myB)))
    case Reading(cursor, myA, myB) =>
      if job.view.Some? && !Has(theirs, cursor) then Fault
      else Run(job, Rereading(cursor, myA + Rem100(ReadA(theirs, cursor, x)), myB, Has(theirs, cursor)))
    case Rereading(cursor, myA, myB, clean) =>
      if job.view.Some? && !Has(theirs, cursor) then Fault
      else Run(job, Ready(myA, myB - Rem100(ReadA(theirs, cursor, x)), clean && Has(theirs, cursor)))
  }

  function InsertStep(s: State, t: nat): State
    requires Shaped(s) && t < |s.pcs| && s.pcs[t].Run? && s.pcs[t].stage.Ready?
  {
    var job, stage := s.pcs[t].job, s.pcs[t].stage;
    SetPc(s.(chains := s.chains[t := [Node(stage.myA, stage.myB, job.version)] + s.chains[t]]), t, Run(job, Inserted))
  }

  function NextIndex(s: State, i: nat): GcPc {
    GcMinimum(if i + 1 < |s.pcs| then i + 1 else 0)
  }

  /** The cut: the link of back becomes null and everything after it is freed. */
  function CutAfter(c: Chain, back: nat): Chain {
    match Find(c, back)
    case None => c
    case Some(i) => c[..i + 1]
  }

  function CollectStep(s: State): State
    requires Shaped(s) && !s.gc.GcFault?
  {
    match s.gc
    case GcMinimum(i) => s.(gc := GcHead(i, s.queues[i].minimum))
    case GcHead(i, m) =>
      s.(gc := GcWalk(i, m, None, if s.chains[i] == [] then None else Some(s.chains[i][0].version)))
    case GcWalk(i, m, back, tmp) =>
      if tmp.None? then s.(gc := NextIndex(s, i))
      else if tmp.value < m then
        if back.None? then s.(gc := GcFault)
        else s.(chains := s.chains[i := CutAfter(s.chains[i], back.value)], gc := NextIndex(s, i))
      else s.(gc := GcWalk(i, m, tmp, Link(s.chains[i], tmp.value)))
  }

  function Next(s: State, e: Event): (r: State)
    requires Shaped(s) && Enabled(s, e)
  {
    match e
    case Begin(t, p) => BeginStep(s, t, p)
    case Act(t, x) =>
      if s.pcs[t].stage.Inserted? then EndStep(s, t)
      else if s.pcs[t].stage.Ready? then InsertStep(s, t)
      else SetPc(s, t, StageStep(s, t, x))
    case Collect => CollectStep(s)
  }

  lemma NextShaped(s: State, e: Event)
    requires Shaped(s) && Enabled(s, e)
    ensures Shaped(Next(s, e)) && |Next(s, e).pcs| == |s.pcs|
  {
  }

  /** The program's start: one node of version 0 per thread, empty queues. */
  ghost predicate Initial(s: State) {
    && Shaped(s)
    && s.counter == 0 && s.active == [] && s.gc == GcMinimum(0)
    && (forall t :: 0 <= t < |s.pcs| ==>
          s.pcs[t] == Idle && s.queues[t] == Queue([], 0, 0) && |s.chains[t]| == 1 && s.chains[t][0].version == 0)
  }

  /** A run: each state follows from the one before by an enabled event. */
  ghost predicate IsRun(run: seq<State>, events: seq<Event>) {
    && |run| == |events| + 1 && Initial(run[0])
    && (forall k :: 0 <= k < |run| ==> Shaped(run[k]))
    && (forall k :: 0 <= k < |events| ==> Enabled(run[k], events[k]) && run[k + 1] == Next(run[k], events[k]))
  }
}
