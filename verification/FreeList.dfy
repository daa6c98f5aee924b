/** The lock-free prepend and append on a doubly linked list. Prepend works at the
    front and append at the back, and each is the other's mirror image, so both are
    one operation with a side. Every step makes at most one access to shared memory.
    Link fields are maps from elements to elements; an absent key is a null pointer. */
module FreeList {
  import opened Options

  datatype Side = Front | Back

  function Other(side: Side): Side {
    if side == Front then Back else Front
  }

  datatype Pc =
    | Clear       // the element's own outward link becomes null
    | Swap        // atomic exchange of the list's end pointer
    | LinkSelf    // the element's inward link gets the old end
    | LinkOther   // the old end's outward link gets the element
    | Check       // is the opposite end pointer null?
    | Fix         // then point it at the element
    | Count       // atomic increment
    | Finished

  /** One call: got is what the exchange returned; slot is its place in the order of
      exchanges on its side (a record for the proofs, no step reads it). */
  datatype Op = Op(side: Side, elem: nat, pc: Pc, got: Option<nat>, slot: nat)

  /** fronts and backs record the calls in the order of their exchanges. */
  datatype State = State(
    start: Option<nat>, end: Option<nat>, next: map<nat, nat>, prev: map<nat, nat>, count: int,
    ops: seq<Op>, fronts: seq<nat>, backs: seq<nat>)

  // ----------------------------------------------- the two sides, uniformly

  function EndAt(s: State, side: Side): Option<nat> {
    if side == Front then s.start else s.end
  }

  /** The links that point away from the list on this side. */
  function Out(s: State, side: Side): map<nat, nat> {
    if side == Front then s.prev else s.next
  }

  function Log(s: State, side: Side): seq<nat> {
    if side == Front then s.fronts else s.backs
  }

  function SetEnd(s: State, side: Side, x: nat): State {
    if side == Front then s.(start := Some(x)) else s.(end := Some(x))
  }

  function SetOut(s: State, side: Side, links: map<nat, nat>): State {
    if side == Front then s.(prev := links) else s.(next := links)
  }

  function Append(s: State, side: Side, k: nat): State {
    if side == Front then s.(fronts := s.fronts + [k]) else s.(backs := s.backs + [k])
  }

  /** Storing a possibly null pointer. */
  function Store(links: map<nat, nat>, x: nat, v: Option<nat>): map<nat, nat> {
    if v.Some? then links[x := v.value] else links - {x}
  }

  function Load(links: map<nat, nat>, x: nat): Option<nat> {
    if x in links then Some(links[x]) else None
  }

  /** One step of call k. */
  function Step(s: State, k: nat): State
    requires k < |s.ops|
  {
    var op := s.ops[k];
    var side := op.side;
    match op.pc
    case Clear =>
      var s1 := SetOut(s, side, Store(Out(s, side), op.elem, None));
      s1.(ops := s.ops[k := op.(pc := Swap)])
    case Swap =>
      var s1 := Append(SetEnd(s, side, op.elem), side, k);
      s1.(ops := s.ops[k := op.(pc := LinkSelf, got := EndAt(s, side), slot := |Log(s, side)|)])
    case LinkSelf =>
      var s1 := SetOut(s, Other(side), Store(Out(s, Other(side)), op.elem, op.got));
      s1.(ops := s.ops[k := op.(pc := if op.got.Some? then LinkOther else Check)])
    case LinkOther =>
      var s1 := if op.got.Some? then SetOut(s, side, Store(Out(s, side), op.got.value, Some(op.elem))) else s;
      s1.(ops := s.ops[k := op.(pc := Check)])
    case Check =>
      s.(ops := s.ops[k := op.(pc := if EndAt(s, Other(side)).None? then Fix else Count)])
    case Fix =>
      var s1 := SetEnd(s, Other(side), op.elem);
      s1.(ops := s.ops[k := op.(pc := Count)])
    case Count =>
      s.(count := s.count + 1, ops := s.ops[k := op.(pc := Finished)])
    case Finished => s
  }

  ghost predicate Schedule(sched: seq<nat>, n: nat) {
    forall i :: 0 <= i < |sched| ==> sched[i] < n
  }

  function Exec(s: State, sched: seq<nat>): (r: State)
    requires Schedule(sched, |s.ops|)
    ensures |r.ops| == |s.ops|
    decreases |sched|
  {
    if sched == [] then s
    else
      var before := Exec(s, sched[..|sched| - 1]);
      Step(before, sched[|sched| - 1])
  }

  // ------------------------------------------------------------- the list

  /** The element at a position, null outside. */
  function At(l: seq<nat>, i: int): Option<nat> {
    if 0 <= i < |l| then Some(l[i]) else None
  }

  /** The fields describe exactly the list l: next and prev are inverse to each
      other along it, the ends are null, and the count is right. */
  ghost predicate Represents(s: State, l: seq<nat>) {
    && (forall i, j :: 0 <= i < j < |l| ==> l[i] != l[j])
    && s.count == |l|
    && s.start == At(l, 0) && s.end == At(l, |l| - 1)
    && (forall i {:trigger Load(s.next, l[i])} :: 0 <= i < |l| ==> Load(s.next, l[i]) == At(l, i + 1))
    && (forall i {:trigger Load(s.prev, l[i])} :: 0 <= i < |l| ==> Load(s.prev, l[i]) == At(l, i - 1))
  }

  /** A list, and calls about to start on elements that are new and distinct. */
  ghost predicate Initial(s: State, base: seq<nat>) {
    && Represents(s, base) && s.fronts == [] && s.backs == []
    && (forall k :: 0 <= k < |s.ops| ==> s.ops[k].pc == Clear && s.ops[k].elem !in base)
    && (forall j, k :: 0 <= j < k < |s.ops| ==> s.ops[j].elem != s.ops[k].elem)
  }

  ghost predicate AllFinished(s: State) {
    forall k :: 0 <= k < |s.ops| ==> s.ops[k].pc.Finished?
  }

  /** The elements of the calls in a log, in log order. */
  function Elems(s: State, log: seq<nat>): (r: seq<nat>)
    requires forall i :: 0 <= i < |log| ==> log[i] < |s.ops|
    ensures |r| == |log| && forall i :: 0 <= i < |log| ==> r[i] == s.ops[log[i]].elem
  {
    seq(|log|, i requires 0 <= i < |log| => s.ops[log[i]].elem)
  }

  function Reversed(l: seq<nat>): (r: seq<nat>)
    ensures |r| == |l| && forall i :: 0 <= i < |l| ==> r[i] == l[|l| - 1 - i]
  {
    seq(|l|, i requires 0 <= i < |l| => l[|l| - 1 - i])
  }

  /** The logs name calls. */
  predicate LogsValid(s: State) {
    && (forall i :: 0 <= i < |s.fronts| ==> s.fronts[i] < |s.ops|)
    && (forall i :: 0 <= i < |s.backs| ==> s.backs[i] < |s.ops|)
  }

  /** Reversed prepend order, then the old list, then append order. */
  function Order(s: State, base: seq<nat>): seq<nat>
    requires LogsValid(s)
  {
    Reversed(Elems(s, s.fronts)) + base + Elems(s, s.backs)
  }
}
