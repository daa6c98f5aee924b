/** Starting from a non-empty list, every interleaving of prepends and appends keeps
    the list recoverable, and when all calls have finished it is a proper list again. */
module FreeListProof {
  import opened Options
  import opened FreeList

  ghost predicate Swapped(pc: Pc) {
    !pc.Clear? && !pc.Swap?
  }

  ghost predicate SelfLinked(pc: Pc) {
    Swapped(pc) && !pc.LinkSelf?
  }

  ghost predicate OtherLinked(pc: Pc) {
    SelfLinked(pc) && !pc.LinkOther?
  }

  function BaseEnd(base: seq<nat>, side: Side): nat
    requires base != []
  {
    if side == Front then base[0] else base[|base| - 1]
  }

  /** New elements are distinct and not in the old list. */
  ghost predicate Fresh(ops: seq<Op>, base: seq<nat>) {
    && (forall k :: 0 <= k < |ops| ==> ops[k].elem !in base)
    && (forall j, k :: 0 <= j < k < |ops| ==> ops[j].elem != ops[k].elem)
  }

  ghost predicate LogOk(ops: seq<Op>, log: seq<nat>, side: Side) {
    forall m :: 0 <= m < |log| ==>
      log[m] < |ops| && ops[log[m]].side == side && Swapped(ops[log[m]].pc) && ops[log[m]].slot == m
  }

  /** The element exchanged in before the m-th exchange on a side; for the first one,
      the end of the old list. */
  ghost function Prior(ops: seq<Op>, log: seq<nat>, base: seq<nat>, side: Side, m: nat): nat
    requires base != []
  {
    if 0 < m <= |log| && log[m - 1] < |ops| then ops[log[m - 1]].elem else BaseEnd(base, side)
  }

  /** The end pointer of a side names the last element exchanged in there, and
      nothing lies beyond it. */
  ghost predicate SideOk(ops: seq<Op>, log: seq<nat>, base: seq<nat>, side: Side, end: Option<nat>, out: map<nat, nat>) {
    && base != [] && LogOk(ops, log, side)
    && end == Some(Prior(ops, log, base, side, |log|)) && end.value !in out
  }

  /** What call k has done so far can be read off its side's log and the links: out
      are the outward links of its side, inn the inward ones. */
  ghost predicate OpOk(ops: seq<Op>, k: nat, log: seq<nat>, base: seq<nat>, out: map<nat, nat>, inn: map<nat, nat>) {
    k < |ops| && base != [] &&
    var op := ops[k];
    && !op.pc.Fix?
    && (op.pc.Swap? ==> op.elem !in out)
    && (Swapped(op.pc) ==>
          op.slot < |log| && log[op.slot] == k && op.got == Some(Prior(ops, log, base, op.side, op.slot)))
    && (SelfLinked(op.pc) ==> Load(inn, op.elem) == op.got)
    && (OtherLinked(op.pc) ==> op.got.Some? && Load(out, op.got.value) == Some(op.elem))
  }

  ghost predicate BaseOk(base: seq<nat>, next: map<nat, nat>, prev: map<nat, nat>) {
    && (forall i, j :: 0 <= i < j < |base| ==> base[i] != base[j])
    && (forall i {:trigger Load(next, base[i])} :: 0 <= i < |base| - 1 ==> Load(next, base[i]) == At(base, i + 1))
    && (forall i {:trigger Load(prev, base[i])} :: 0 < i < |base| ==> Load(prev, base[i]) == At(base, i - 1))
  }

  function Done(ops: seq<Op>): nat {
    if ops == [] then 0 else Done(ops[..|ops| - 1]) + (if ops[|ops| - 1].pc.Finished? then 1 else 0)
  }

  /** One side of the list and the calls that work on it. */
  ghost predicate HalfOk(ops: seq<Op>, base: seq<nat>, side: Side, log: seq<nat>, end: Option<nat>,
                         out: map<nat, nat>, inn: map<nat, nat>) {
    && SideOk(ops, log, base, side, end, out)
    && (forall k: nat {:trigger OpOk(ops, k, log, base, out, inn)} :: k < |ops| && ops[k].side == side ==>
          OpOk(ops, k, log, base, out, inn))
  }

  ghost predicate Inv(s: State, base: seq<nat>) {
    && base != [] && Fresh(s.ops, base)
    && Halves(s, base)
    && BaseOk(base, s.next, s.prev)
    && s.count == |base| + Done(s.ops)
  }

  lemma {:induction false} DoneUpdate(ops: seq<Op>, k: nat, op: Op)
    requires k < |ops|
    ensures Done(ops[k := op])
         == Done(ops) - (if ops[k].pc.Finished? then 1 else 0) + (if op.pc.Finished? then 1 else 0)
  {
    var last := |ops| - 1;
    if k == last {
      assert ops[k := op][..last] == ops[..last];
    } else {
      assert ops[k := op][..last] == ops[..last][k := op];
      DoneUpdate(ops[..last], k, op);
    }
  }

  lemma {:induction false} DoneNone(ops: seq<Op>)
    requires forall k :: 0 <= k < |ops| ==> !ops[k].pc.Finished?
    ensures Done(ops) == 0
  {
    if ops != [] { DoneNone(ops[..|ops| - 1]); }
  }

  lemma {:induction false} DoneAll(ops: seq<Op>)
    requires forall k :: 0 <= k < |ops| ==> ops[k].pc.Finished?
    ensures Done(ops) == |ops|
  {
    if ops != [] { DoneAll(ops[..|ops| - 1]); }
  }

  lemma InitialInv(s: State, base: seq<nat>)
    requires Initial(s, base) && base != []
    ensures Inv(s, base)
  {
    DoneNone(s.ops);
    var last := |base| - 1;
    assert Load(s.prev, base[0]) == At(base, -1) && Load(s.next, base[last]) == At(base, last + 1);
  }

  /** A call changes its own program counter (and nothing it is known by). */
  ghost predicate SameOp(op: Op, op': Op) {
    op'.side == op.side && op'.elem == op.elem && op'.slot == op.slot && op'.got == op.got
    && (Swapped(op.pc) <==> Swapped(op'.pc))
  }

  /** Such a change leaves the logs and the places in them as they were. */
  lemma SameLog(ops: seq<Op>, k: nat, op': Op, log: seq<nat>, base: seq<nat>, side: Side)
    requires k < |ops| && SameOp(ops[k], op') && LogOk(ops, log, side) && base != []
    ensures LogOk(ops[k := op'], log, side)
    ensures forall m: nat :: m <= |log| ==>
              Prior(ops[k := op'], log, base, side, m) == Prior(ops, log, base, side, m)
  {
  }

  // ------------------------------------------------------------ who is who

  /** An element exchanged in on a side before place m is not call j's element if j
      has not exchanged yet, works on the other side, or came at m or later. */
  lemma PriorApart(ops: seq<Op>, log: seq<nat>, base: seq<nat>, side: Side, m: nat, j: nat)
    requires base != [] && Fresh(ops, base) && LogOk(ops, log, side) && m <= |log| && j < |ops|
    requires !Swapped(ops[j].pc) || ops[j].side != side || ops[j].slot >= m
    ensures Prior(ops, log, base, side, m) != ops[j].elem
  {
    if m > 0 {
      assert log[m - 1] != j;
    }
  }

  lemma PriorsDiffer(ops: seq<Op>, log: seq<nat>, base: seq<nat>, side: Side, m: nat, n: nat)
    requires base != [] && Fresh(ops, base) && LogOk(ops, log, side) && m < n <= |log|
    ensures Prior(ops, log, base, side, m) != Prior(ops, log, base, side, n)
  {
    PriorApart(ops, log, base, side, m, log[n - 1]);
  }

  // ------------------------------------------------------------------ writes

  /** The links agree except perhaps at x. */
  ghost predicate Agree(links: map<nat, nat>, links': map<nat, nat>, x: nat) {
    forall y: nat :: y != x ==> Load(links', y) == Load(links, y)
  }

  /** Another call's facts survive a write to a cell they do not mention. */
  lemma OpFrame(ops: seq<Op>, j: nat, k: nat, op': Op, log: seq<nat>, base: seq<nat>,
                out: map<nat, nat>, inn: map<nat, nat>, out': map<nat, nat>, inn': map<nat, nat>)
    requires OpOk(ops, j, log, base, out, inn) && LogOk(ops, log, ops[j].side) && k < |ops| && k != j && SameOp(ops[k], op')
    requires Load(inn', ops[j].elem) == Load(inn, ops[j].elem)
    requires Load(out', ops[j].elem) == Load(out, ops[j].elem)
    requires OtherLinked(ops[j].pc) ==> Load(out', ops[j].got.value) == Load(out, ops[j].got.value)
    ensures OpOk(ops[k := op'], j, log, base, out', inn')
  {
    SameLog(ops, k, op', log, base, ops[j].side);
  }

  /** Call k moves on and one outward cell of this side changes: not the end's, and
      not one another call of this side has linked or is about to clear. */
  lemma OutWrite(ops: seq<Op>, base: seq<nat>, side: Side, log: seq<nat>, end: Option<nat>,
                 out: map<nat, nat>, inn: map<nat, nat>, k: nat, op': Op, x: nat, out': map<nat, nat>)
    requires HalfOk(ops, base, side, log, end, out, inn) && k < |ops| && SameOp(ops[k], op') && Agree(out, out', x)
    requires end != Some(x)
    requires forall j :: 0 <= j < |ops| && j != k && ops[j].side == side ==>
               ops[j].elem != x && (OtherLinked(ops[j].pc) ==> ops[j].got != Some(x))
    requires ops[k].side == side ==> OpOk(ops[k := op'], k, log, base, out', inn)
    ensures HalfOk(ops[k := op'], base, side, log, end, out', inn)
  {
    SameLog(ops, k, op', log, base, side);
    assert Load(out', end.value) == Load(out, end.value);
    var ops' := ops[k := op'];
    forall j | 0 <= j < |ops'| && ops'[j].side == side ensures OpOk(ops', j, log, base, out', inn) {
      if j != k { OpFrame(ops, j, k, op', log, base, out, inn, out', inn); }
    }
  }

  /** Call k moves on and one inward cell changes: not that of another call's element. */
  lemma InnWrite(ops: seq<Op>, base: seq<nat>, side: Side, log: seq<nat>, end: Option<nat>,
                 out: map<nat, nat>, inn: map<nat, nat>, k: nat, op': Op, x: nat, inn': map<nat, nat>)
    requires HalfOk(ops, base, side, log, end, out, inn) && k < |ops| && SameOp(ops[k], op') && Agree(inn, inn', x)
    requires forall j :: 0 <= j < |ops| && j != k && ops[j].side == side ==> ops[j].elem != x
    requires ops[k].side == side ==> OpOk(ops[k := op'], k, log, base, out, inn')
    ensures HalfOk(ops[k := op'], base, side, log, end, out, inn')
  {
    SameLog(ops, k, op', log, base, side);
    var ops' := ops[k := op'];
    forall j | 0 <= j < |ops'| && ops'[j].side == side ensures OpOk(ops', j, log, base, out, inn') {
      if j != k { OpFrame(ops, j, k, op', log, base, out, inn, out, inn'); }
    }
  }

  // -------------------------------------------------- steps, side by side

  /** A cell that belongs to an element no other call of this side is concerned with. */
  lemma ForeignOut(ops: seq<Op>, base: seq<nat>, side: Side, log: seq<nat>, end: Option<nat>,
                   out: map<nat, nat>, inn: map<nat, nat>, k: nat)
    requires HalfOk(ops, base, side, log, end, out, inn) && Fresh(ops, base) && k < |ops|
    requires ops[k].side != side || !Swapped(ops[k].pc)
    ensures end != Some(ops[k].elem)
    ensures forall j :: 0 <= j < |ops| && j != k && ops[j].side == side ==>
              ops[j].elem != ops[k].elem && (OtherLinked(ops[j].pc) ==> ops[j].got != Some(ops[k].elem))
  {
    PriorApart(ops, log, base, side, |log|, k);
    forall j | 0 <= j < |ops| && j != k && ops[j].side == side
      ensures ops[j].elem != ops[k].elem && (OtherLinked(ops[j].pc) ==> ops[j].got != Some(ops[k].elem))
    {
      assert OpOk(ops, j, log, base, out, inn);
      if OtherLinked(ops[j].pc) { PriorApart(ops, log, base, side, ops[j].slot, k); }
    }
  }

  lemma ClearOwn(ops: seq<Op>, base: seq<nat>, side: Side, log: seq<nat>, end: Option<nat>,
                 out: map<nat, nat>, inn: map<nat, nat>, k: nat)
    requires HalfOk(ops, base, side, log, end, out, inn) && Fresh(ops, base) && k < |ops|
    requires ops[k].side == side && ops[k].pc.Clear?
    ensures HalfOk(ops[k := ops[k].(pc := Swap)], base, side, log, end, Store(out, ops[k].elem, None), inn)
  {
    ForeignOut(ops, base, side, log, end, out, inn, k);
    SameLog(ops, k, ops[k].(pc := Swap), log, base, side);
    assert OpOk(ops, k, log, base, out, inn);
    OutWrite(ops, base, side, log, end, out, inn, k, ops[k].(pc := Swap), ops[k].elem, Store(out, ops[k].elem, None));
  }

  /** The other side sees an inward cell of an element that is not its own change. */
  lemma OppositeInn(ops: seq<Op>, base: seq<nat>, side: Side, log: seq<nat>, end: Option<nat>,
                    out: map<nat, nat>, inn: map<nat, nat>, k: nat, op': Op, x: nat, v: Option<nat>)
    requires HalfOk(ops, base, side, log, end, out, inn) && k < |ops| && SameOp(ops[k], op') && ops[k].side != side
    requires forall j :: 0 <= j < |ops| && ops[j].side == side ==> ops[j].elem != x
    ensures HalfOk(ops[k := op'], base, side, log, end, out, Store(inn, x, v))
  {
    InnWrite(ops, base, side, log, end, out, inn, k, op', x, Store(inn, x, v));
  }

  lemma LinkSelfOwn(ops: seq<Op>, base: seq<nat>, side: Side, log: seq<nat>, end: Option<nat>,
                    out: map<nat, nat>, inn: map<nat, nat>, k: nat)
    requires HalfOk(ops, base, side, log, end, out, inn) && Fresh(ops, base) && k < |ops|
    requires ops[k].side == side && ops[k].pc.LinkSelf?
    ensures ops[k].got.Some?
    ensures HalfOk(ops[k := ops[k].(pc := LinkOther)], base, side, log, end, out, Store(inn, ops[k].elem, ops[k].got))
  {
    var op' := ops[k].(pc := LinkOther);
    assert OpOk(ops, k, log, base, out, inn);
    SameLog(ops, k, op', log, base, side);
    InnWrite(ops, base, side, log, end, out, inn, k, op', ops[k].elem, Store(inn, ops[k].elem, ops[k].got));
  }

  lemma LinkSelfOpposite(ops: seq<Op>, base: seq<nat>, side: Side, log: seq<nat>, end: Option<nat>,
                         out: map<nat, nat>, inn: map<nat, nat>, k: nat)
    requires HalfOk(ops, base, side, log, end, out, inn) && Fresh(ops, base) && k < |ops|
    requires ops[k].side != side && ops[k].pc.LinkSelf?
    ensures HalfOk(ops[k := ops[k].(pc := LinkOther)], base, side, log, end, Store(out, ops[k].elem, ops[k].got), inn)
  {
    ForeignOut(ops, base, side, log, end, out, inn, k);
    OutWrite(ops, base, side, log, end, out, inn, k, ops[k].(pc := LinkOther), ops[k].elem,
             Store(out, ops[k].elem, ops[k].got));
  }

  /** The write to the predecessor's outward link: nobody else has linked that cell,
      it is not the end's, and no call is about to exchange that element in. */
  lemma LinkOtherOwn(ops: seq<Op>, base: seq<nat>, side: Side, log: seq<nat>, end: Option<nat>,
                     out: map<nat, nat>, inn: map<nat, nat>, k: nat)
    requires HalfOk(ops, base, side, log, end, out, inn) && Fresh(ops, base) && k < |ops|
    requires ops[k].side == side && ops[k].pc.LinkOther?
    ensures ops[k].got.Some?
    ensures HalfOk(ops[k := ops[k].(pc := Check)], base, side, log, end,
                   Store(out, ops[k].got.value, Some(ops[k].elem)), inn)
  {
    var (op, op') := (ops[k], ops[k].(pc := Check));
    assert OpOk(ops, k, log, base, out, inn);
    SameLog(ops, k, op', log, base, side);
    PriorsDiffer(ops, log, base, side, op.slot, |log|);
    var (ops', out') := (ops[k := op'], Store(out, op.got.value, Some(op.elem)));
    forall j | 0 <= j < |ops'| && ops'[j].side == side ensures OpOk(ops', j, log, base, out', inn) {
      assert OpOk(ops, j, log, base, out, inn);
      if j != k {
        LinkOtherCell(ops, base, side, log, end, out, inn, k, j);
      }
    }
  }

  lemma LinkOtherCell(ops: seq<Op>, base: seq<nat>, side: Side, log: seq<nat>, end: Option<nat>,
                      out: map<nat, nat>, inn: map<nat, nat>, k: nat, j: nat)
    requires HalfOk(ops, base, side, log, end, out, inn) && Fresh(ops, base) && k < |ops| && j < |ops| && j != k
    requires ops[k].side == side && ops[j].side == side && Swapped(ops[k].pc)
    ensures Swapped(ops[j].pc) ==> ops[j].got != ops[k].got
    ensures !Swapped(ops[j].pc) ==> Some(ops[j].elem) != ops[k].got
  {
    assert OpOk(ops, k, log, base, out, inn) && OpOk(ops, j, log, base, out, inn);
    if !Swapped(ops[j].pc) {
      PriorApart(ops, log, base, side, ops[k].slot, j);
    } else if ops[j].slot < ops[k].slot {
      PriorsDiffer(ops, log, base, side, ops[j].slot, ops[k].slot);
    } else if ops[k].slot < ops[j].slot {
      PriorsDiffer(ops, log, base, side, ops[k].slot, ops[j].slot);
    }
  }

  /** The old end on k's side is not the element of any call of the other side. */
  lemma GotApart(ops: seq<Op>, base: seq<nat>, side: Side, log: seq<nat>, end: Option<nat>,
                 out: map<nat, nat>, inn: map<nat, nat>, k: nat, j: nat)
    requires HalfOk(ops, base, side, log, end, out, inn) && Fresh(ops, base) && k < |ops| && j < |ops|
    requires ops[k].side == side && Swapped(ops[k].pc) && ops[j].side != side
    ensures ops[k].got.Some? && ops[k].got.value != ops[j].elem
  {
    assert OpOk(ops, k, log, base, out, inn);
    PriorApart(ops, log, base, side, ops[k].slot, j);
  }

  /** Steps that change nothing but the call's program counter. */
  lemma QuietHalf(ops: seq<Op>, base: seq<nat>, side: Side, log: seq<nat>, end: Option<nat>,
                  out: map<nat, nat>, inn: map<nat, nat>, k: nat, op': Op)
    requires HalfOk(ops, base, side, log, end, out, inn) && k < |ops| && SameOp(ops[k], op')
    requires OtherLinked(ops[k].pc) && OtherLinked(op'.pc) && !op'.pc.Fix?
    ensures HalfOk(ops[k := op'], base, side, log, end, out, inn)
  {
    SameLog(ops, k, op', log, base, side);
    var ops' := ops[k := op'];
    forall j | 0 <= j < |ops'| && ops'[j].side == side ensures OpOk(ops', j, log, base, out, inn) {
      assert OpOk(ops, j, log, base, out, inn);
    }
  }

  // ---------------------------------------------------------------- exchange

  /** What the exchange makes of the call. */
  function AfterSwap(op: Op, end: Option<nat>, n: nat): Op {
    op.(pc := LinkSelf, got := end, slot := n)
  }

  lemma SwapLog(ops: seq<Op>, log: seq<nat>, base: seq<nat>, side: Side, k: nat, op': Op)
    requires LogOk(ops, log, side) && base != [] && k < |ops| && !Swapped(ops[k].pc)
    requires op'.side == ops[k].side && op'.elem == ops[k].elem
    ensures LogOk(ops[k := op'], log, side)
    ensures forall m: nat :: m <= |log| ==>
              Prior(ops[k := op'], log, base, side, m) == Prior(ops, log, base, side, m)
  {
  }

  lemma SwapLogOwn(ops: seq<Op>, log: seq<nat>, base: seq<nat>, side: Side, k: nat, op': Op)
    requires LogOk(ops, log, side) && base != [] && k < |ops| && !Swapped(ops[k].pc)
    requires op'.side == side == ops[k].side && op'.elem == ops[k].elem && Swapped(op'.pc) && op'.slot == |log|
    ensures LogOk(ops[k := op'], log + [k], side)
    ensures forall m: nat :: m <= |log| ==>
              Prior(ops[k := op'], log + [k], base, side, m) == Prior(ops, log, base, side, m)
    ensures Prior(ops[k := op'], log + [k], base, side, |log| + 1) == op'.elem
  {
    SwapLog(ops, log, base, side, k, op');
  }

  lemma SwapOwn(ops: seq<Op>, base: seq<nat>, side: Side, log: seq<nat>, end: Option<nat>,
                out: map<nat, nat>, inn: map<nat, nat>, k: nat)
    requires HalfOk(ops, base, side, log, end, out, inn) && k < |ops| && ops[k].side == side && ops[k].pc.Swap?
    ensures HalfOk(ops[k := AfterSwap(ops[k], end, |log|)], base, side, log + [k], Some(ops[k].elem), out, inn)
  {
    var op' := AfterSwap(ops[k], end, |log|);
    var ops' := ops[k := op'];
    SwapLogOwn(ops, log, base, side, k, op');
    assert OpOk(ops, k, log, base, out, inn);
    forall j | 0 <= j < |ops'| && ops'[j].side == side ensures OpOk(ops', j, log + [k], base, out, inn) {
      assert OpOk(ops, j, log, base, out, inn);
    }
  }

  lemma SwapOpposite(ops: seq<Op>, base: seq<nat>, side: Side, log: seq<nat>, end: Option<nat>,
                     out: map<nat, nat>, inn: map<nat, nat>, k: nat, op': Op)
    requires HalfOk(ops, base, side, log, end, out, inn) && k < |ops| && ops[k].side != side && !Swapped(ops[k].pc)
    requires op'.side == ops[k].side && op'.elem == ops[k].elem
    ensures HalfOk(ops[k := op'], base, side, log, end, out, inn)
  {
    SwapLog(ops, log, base, side, k, op');
    var ops' := ops[k := op'];
    forall j | 0 <= j < |ops'| && ops'[j].side == side ensures OpOk(ops', j, log, base, out, inn) {
      assert OpOk(ops, j, log, base, out, inn);
    }
  }

  // --------------------------------------------------------- the whole state

  ghost predicate Halves(s: State, base: seq<nat>) {
    && HalfOk(s.ops, base, Front, s.fronts, s.start, s.prev, s.next)
    && HalfOk(s.ops, base, Back, s.backs, s.end, s.next, s.prev)
  }

  lemma ClearHalves(s: State, base: seq<nat>, k: nat)
    requires Halves(s, base) && Fresh(s.ops, base) && k < |s.ops| && s.ops[k].pc.Clear?
    ensures Halves(Step(s, k), base)
  {
    var op := s.ops[k];
    var op' := op.(pc := Swap);
    if op.side == Front {
      ClearOwn(s.ops, base, Front, s.fronts, s.start, s.prev, s.next, k);
      OppositeInn(s.ops, base, Back, s.backs, s.end, s.next, s.prev, k, op', op.elem, None);
    } else {
      ClearOwn(s.ops, base, Back, s.backs, s.end, s.next, s.prev, k);
      OppositeInn(s.ops, base, Front, s.fronts, s.start, s.prev, s.next, k, op', op.elem, None);
    }
  }

  lemma SwapHalves(s: State, base: seq<nat>, k: nat)
    requires Halves(s, base) && k < |s.ops| && s.ops[k].pc.Swap?
    ensures Halves(Step(s, k), base)
  {
    if s.ops[k].side == Front {
      SwapOwn(s.ops, base, Front, s.fronts, s.start, s.prev, s.next, k);
      SwapOpposite(s.ops, base, Back, s.backs, s.end, s.next, s.prev, k, AfterSwap(s.ops[k], s.start, |s.fronts|));
    } else {
      SwapOwn(s.ops, base, Back, s.backs, s.end, s.next, s.prev, k);
      SwapOpposite(s.ops, base, Front, s.fronts, s.start, s.prev, s.next, k, AfterSwap(s.ops[k], s.end, |s.backs|));
    }
  }

  lemma LinkSelfHalves(s: State, base: seq<nat>, k: nat)
    requires Halves(s, base) && Fresh(s.ops, base) && k < |s.ops| && s.ops[k].pc.LinkSelf?
    ensures Halves(Step(s, k), base)
  {
    if s.ops[k].side == Front {
      LinkSelfOwn(s.ops, base, Front, s.fronts, s.start, s.prev, s.next, k);
      LinkSelfOpposite(s.ops, base, Back, s.backs, s.end, s.next, s.prev, k);
    } else {
      LinkSelfOwn(s.ops, base, Back, s.backs, s.end, s.next, s.prev, k);
      LinkSelfOpposite(s.ops, base, Front, s.fronts, s.start, s.prev, s.next, k);
    }
  }

  lemma LinkOtherHalves(s: State, base: seq<nat>, k: nat)
    requires Halves(s, base) && Fresh(s.ops, base) && k < |s.ops| && s.ops[k].pc.LinkOther?
    ensures Halves(Step(s, k), base)
  {
    var op := s.ops[k];
    if op.side == Front {
      LinkOtherOwn(s.ops, base, Front, s.fronts, s.start, s.prev, s.next, k);
      forall j | 0 <= j < |s.ops| && s.ops[j].side == Back ensures s.ops[j].elem != op.got.value {
        GotApart(s.ops, base, Front, s.fronts, s.start, s.prev, s.next, k, j);
      }
      OppositeInn(s.ops, base, Back, s.backs, s.end, s.next, s.prev, k, op.(pc := Check), op.got.value, Some(op.elem));
    } else {
      LinkOtherOwn(s.ops, base, Back, s.backs, s.end, s.next, s.prev, k);
      forall j | 0 <= j < |s.ops| && s.ops[j].side == Front ensures s.ops[j].elem != op.got.value {
        GotApart(s.ops, base, Back, s.backs, s.end, s.next, s.prev, k, j);
      }
      OppositeInn(s.ops, base, Front, s.fronts, s.start, s.prev, s.next, k, op.(pc := Check), op.got.value, Some(op.elem));
    }
  }

  /** The fix-ups never fire, and the last steps touch no link. */
  lemma QuietHalves(s: State, base: seq<nat>, k: nat)
    requires Halves(s, base) && k < |s.ops| && OtherLinked(s.ops[k].pc)
    ensures Halves(Step(s, k), base)
  {
    var op := s.ops[k];
    if op.side == Front {
      assert OpOk(s.ops, k, s.fronts, base, s.prev, s.next);
    } else {
      assert OpOk(s.ops, k, s.backs, base, s.next, s.prev);
    }
    var op' := Step(s, k).ops[k];
    if !op.pc.Finished? {
      QuietHalf(s.ops, base, Front, s.fronts, s.start, s.prev, s.next, k, op');
      QuietHalf(s.ops, base, Back, s.backs, s.end, s.next, s.prev, k, op');
    }
  }

  lemma StepHalves(s: State, base: seq<nat>, k: nat)
    requires Halves(s, base) && Fresh(s.ops, base) && k < |s.ops|
    ensures Halves(Step(s, k), base) && Fresh(Step(s, k).ops, base)
  {
    match s.ops[k].pc
    case Clear => ClearHalves(s, base, k);
    case Swap => SwapHalves(s, base, k);
    case LinkSelf => LinkSelfHalves(s, base, k);
    case LinkOther => LinkOtherHalves(s, base, k);
    case _ => QuietHalves(s, base, k);
  }

  lemma BaseNext(base: seq<nat>, next: map<nat, nat>, prev: map<nat, nat>, x: nat, v: Option<nat>)
    requires base != [] && BaseOk(base, next, prev) && (x in base ==> x == base[|base| - 1])
    ensures BaseOk(base, Store(next, x, v), prev)
  {
    forall i | 0 <= i < |base| - 1 ensures Load(Store(next, x, v), base[i]) == At(base, i + 1) {
      assert base[i] != base[|base| - 1] && Load(next, base[i]) == At(base, i + 1);
    }
  }

  lemma BasePrev(base: seq<nat>, next: map<nat, nat>, prev: map<nat, nat>, x: nat, v: Option<nat>)
    requires base != [] && BaseOk(base, next, prev) && (x in base ==> x == base[0])
    ensures BaseOk(base, next, Store(prev, x, v))
  {
    forall i | 0 < i < |base| ensures Load(Store(prev, x, v), base[i]) == At(base, i - 1) {
      assert base[0] != base[i] && Load(prev, base[i]) == At(base, i - 1);
    }
  }

  lemma GotInBase(ops: seq<Op>, k: nat, log: seq<nat>, base: seq<nat>, out: map<nat, nat>, inn: map<nat, nat>)
    requires OpOk(ops, k, log, base, out, inn) && Fresh(ops, base) && Swapped(ops[k].pc)
    ensures ops[k].got.Some? && (ops[k].got.value in base ==> ops[k].got.value == BaseEnd(base, ops[k].side))
  {
  }

  lemma SwappedGot(s: State, base: seq<nat>, k: nat)
    requires Halves(s, base) && Fresh(s.ops, base) && k < |s.ops| && Swapped(s.ops[k].pc)
    ensures base != [] && s.ops[k].got.Some?
    ensures s.ops[k].got.value in base ==> s.ops[k].got.value == BaseEnd(base, s.ops[k].side)
  {
    if s.ops[k].side == Front {
      GotInBase(s.ops, k, s.fronts, base, s.prev, s.next);
    } else {
      GotInBase(s.ops, k, s.backs, base, s.next, s.prev);
    }
  }

  /** The links inside the old list are never written. */
  lemma StepBase(s: State, base: seq<nat>, k: nat)
    requires base != [] && BaseOk(base, s.next, s.prev) && k < |s.ops| && s.ops[k].elem !in base
    requires var op := s.ops[k];
             Swapped(op.pc) ==> op.got.Some? && (op.got.value in base ==> op.got.value == BaseEnd(base, op.side))
    ensures BaseOk(base, Step(s, k).next, Step(s, k).prev)
  {
    var op := s.ops[k];
    if op.pc.Clear? {
      BasePrev(base, s.next, s.prev, op.elem, None);
      BaseNext(base, s.next, s.prev, op.elem, None);
    } else if op.pc.LinkSelf? {
      BasePrev(base, s.next, s.prev, op.elem, op.got);
      BaseNext(base, s.next, s.prev, op.elem, op.got);
    } else if op.pc.LinkOther? {
      if op.side == Front {
        BasePrev(base, s.next, s.prev, op.got.value, Some(op.elem));
      } else {
        BaseNext(base, s.next, s.prev, op.got.value, Some(op.elem));
      }
    }
  }

  lemma StepCount(s: State, k: nat)
    requires k < |s.ops|
    ensures Step(s, k).count - Done(Step(s, k).ops) == s.count - Done(s.ops)
  {
    DoneUpdate(s.ops, k, Step(s, k).ops[k]);
  }

  lemma StepInv(s: State, base: seq<nat>, k: nat)
    requires Inv(s, base) && k < |s.ops|
    ensures Inv(Step(s, k), base)
  {
    StepHalves(s, base, k);
    if Swapped(s.ops[k].pc) {
      SwappedGot(s, base, k);
    }
    StepBase(s, base, k);
    StepCount(s, k);
  }

  lemma {:induction false} ExecInv(s: State, base: seq<nat>, sched: seq<nat>)
    requires Inv(s, base) && Schedule(sched, |s.ops|)
    ensures Inv(Exec(s, sched), base)
    decreases |sched|
  {
    if sched != [] {
      ExecInv(s, base, sched[..|sched| - 1]);
      StepInv(Exec(s, sched[..|sched| - 1]), base, sched[|sched| - 1]);
    }
  }
}
