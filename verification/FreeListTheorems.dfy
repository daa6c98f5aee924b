/** The finished list. */
module FreeListTheorems {
  import opened Options
  import opened FreeList
  import opened FreeListProof

  /** Every call that has made its exchange is in the log of its side. */
  lemma LogsCover(s: State, base: seq<nat>, k: nat)
    requires Inv(s, base) && k < |s.ops| && Swapped(s.ops[k].pc)
    ensures k in Log(s, s.ops[k].side)
  {
    if s.ops[k].side == Front {
      assert OpOk(s.ops, k, s.fronts, base, s.prev, s.next);
    } else {
      assert OpOk(s.ops, k, s.backs, base, s.next, s.prev);
    }
  }

  /** Position n of the finished list: prepended elements count down from the last
      prepend, then the old list, then the appended elements. */
  ghost function NodeAt(s: State, base: seq<nat>, n: nat): nat
    requires LogsValid(s) && n < |s.fronts| + |base| + |s.backs|
  {
    if n < |s.fronts| then s.ops[s.fronts[|s.fronts| - 1 - n]].elem
    else if n < |s.fronts| + |base| then base[n - |s.fronts|]
    else s.ops[s.backs[n - |s.fronts| - |base|]].elem
  }

  lemma OrderAt(s: State, base: seq<nat>, n: nat)
    requires LogsValid(s) && n < |s.fronts| + |base| + |s.backs|
    ensures |Order(s, base)| == |s.fronts| + |base| + |s.backs| && Order(s, base)[n] == NodeAt(s, base, n)
  {
  }

  /** A finished call is linked with the element that was the end before it. */
  lemma CallLinked(s: State, base: seq<nat>, side: Side, m: nat)
    requires Inv(s, base) && AllFinished(s) && m < |Log(s, side)|
    ensures LogOk(s.ops, Log(s, side), side)
    ensures var (x, y) := (s.ops[Log(s, side)[m]].elem, Prior(s.ops, Log(s, side), base, side, m));
            Load(Out(s, Other(side)), x) == Some(y) && Load(Out(s, side), y) == Some(x)
  {
    var k := Log(s, side)[m];
    if side == Front {
      assert OpOk(s.ops, k, s.fronts, base, s.prev, s.next);
    } else {
      assert OpOk(s.ops, k, s.backs, base, s.next, s.prev);
    }
  }

  /** x and y follow one another. */
  ghost predicate Adjacent(s: State, x: nat, y: nat) {
    Load(s.next, x) == Some(y) && Load(s.prev, y) == Some(x)
  }

  lemma AdjacentFront(s: State, base: seq<nat>, n: nat)
    requires Inv(s, base) && AllFinished(s) && LogsValid(s) && n < |s.fronts|
    ensures Adjacent(s, NodeAt(s, base, n), NodeAt(s, base, n + 1))
  {
    CallLinked(s, base, Front, |s.fronts| - 1 - n);
  }

  lemma AdjacentBase(s: State, base: seq<nat>, n: nat)
    requires BaseOk(base, s.next, s.prev) && LogsValid(s) && |s.fronts| <= n && n + 1 < |s.fronts| + |base|
    ensures Adjacent(s, NodeAt(s, base, n), NodeAt(s, base, n + 1))
  {
    var i := n - |s.fronts|;
    assert Load(s.next, base[i]) == At(base, i + 1);
    assert Load(s.prev, base[i + 1]) == At(base, i + 1 - 1);
  }

  lemma AdjacentBack(s: State, base: seq<nat>, n: nat)
    requires Inv(s, base) && AllFinished(s) && LogsValid(s)
    requires |s.fronts| + |base| <= n + 1 < |s.fronts| + |base| + |s.backs|
    ensures Adjacent(s, NodeAt(s, base, n), NodeAt(s, base, n + 1))
  {
    CallLinked(s, base, Back, n + 1 - |s.fronts| - |base|);
  }

  /** The last element exchanged in on a side is named by its end pointer and has no
      outward link. */
  lemma SideEnd(s: State, base: seq<nat>, side: Side)
    requires Inv(s, base)
    ensures LogOk(s.ops, Log(s, side), side)
    ensures var last := Prior(s.ops, Log(s, side), base, side, |Log(s, side)|);
            EndAt(s, side) == Some(last) && Load(Out(s, side), last) == None
  {
  }

  lemma Ends(s: State, base: seq<nat>)
    requires Inv(s, base) && LogsValid(s)
    ensures var (x, y) := (NodeAt(s, base, 0), NodeAt(s, base, |s.fronts| + |base| + |s.backs| - 1));
            && s.start == Some(x) && Load(s.prev, x) == None
            && s.end == Some(y) && Load(s.next, y) == None
  {
    SideEnd(s, base, Front);
    SideEnd(s, base, Back);
  }

  lemma NodesDistinct(s: State, base: seq<nat>, m: nat, n: nat)
    requires LogOk(s.ops, s.fronts, Front) && LogOk(s.ops, s.backs, Back) && LogsValid(s) && Fresh(s.ops, base)
    requires forall i, j :: 0 <= i < j < |base| ==> base[i] != base[j]
    requires m < n < |s.fronts| + |base| + |s.backs|
    ensures NodeAt(s, base, m) != NodeAt(s, base, n)
  {
    var (f, b) := (|s.fronts|, |base|);
    if m < f && n < f {
      assert s.fronts[f - 1 - m] != s.fronts[f - 1 - n];
    } else if f + b <= m {
      assert s.backs[m - f - b] != s.backs[n - f - b];
    } else if m < f && f + b <= n {
      assert s.fronts[f - 1 - m] != s.backs[n - f - b];
    }
  }

  lemma LogsDisjoint(ops: seq<Op>, fronts: seq<nat>, backs: seq<nat>)
    requires LogOk(ops, fronts, Front) && LogOk(ops, backs, Back)
    ensures forall i, j :: 0 <= i < j < |fronts + backs| ==> (fronts + backs)[i] != (fronts + backs)[j]
    ensures forall i :: 0 <= i < |fronts + backs| ==> (fronts + backs)[i] < |ops|
  {
    var all := fronts + backs;
    assert forall i :: 0 <= i < |all| ==>
      all[i] < |ops| && ops[all[i]].side == (if i < |fronts| then Front else Back)
      && ops[all[i]].slot == (if i < |fronts| then i else i - |fronts|);
  }

  /** Every call is in exactly one log, so the list has all of them. */
  lemma OrderLength(s: State, base: seq<nat>)
    requires Inv(s, base) && AllFinished(s)
    ensures |s.fronts| + |s.backs| == |s.ops|
  {
    LogsDisjoint(s.ops, s.fronts, s.backs);
    forall k: nat | k < |s.ops| ensures k in s.fronts + s.backs {
      LogsCover(s, base, k);
    }
    CountAll(s.fronts + s.backs, |s.ops|);
  }

  /** A sequence without repeats that covers 0 .. n has length n. */
  lemma {:induction false} CountAll(l: seq<nat>, n: nat)
    requires forall i, j :: 0 <= i < j < |l| ==> l[i] != l[j]
    requires forall k: nat :: k < n ==> k in l
    requires forall i :: 0 <= i < |l| ==> l[i] < n
    ensures |l| == n
    decreases n
  {
    if n > 0 {
      var top: nat := n - 1;
      assert top in l;
      var i :| 0 <= i < |l| && l[i] == top;
      var rest := l[..i] + l[i + 1..];
      forall k: nat | k < n - 1 ensures k in rest {
        assert k in l;
        var j :| 0 <= j < |l| && l[j] == k;
        assert k == if j < i then rest[j] else rest[j - 1];
      }
      forall j | 0 <= j < |rest| ensures rest[j] < n - 1 {
        assert rest[j] == if j < i then l[j] else l[j + 1];
      }
      CountAll(rest, n - 1);
    }
  }

  /** Once every call has finished, the fields describe exactly this list: the
      prepended elements in reverse order of their exchanges, the old list, the
      appended elements in order of theirs. */
  lemma FinishedList(s0: State, base: seq<nat>, sched: seq<nat>)
    requires Initial(s0, base) && base != [] && Schedule(sched, |s0.ops|) && AllFinished(Exec(s0, sched))
    ensures var s := Exec(s0, sched);
            && LogsValid(s) && |s.fronts| + |s.backs| == |s0.ops|
            && Represents(s, Order(s, base))
  {
    InitialInv(s0, base);
    ExecInv(s0, base, sched);
    FinishedRepresents(Exec(s0, sched), base);
  }

  /** A list is described if its neighbours are adjacent and its ends are ends. */
  lemma ByNeighbours(s: State, l: seq<nat>)
    requires l != [] && s.count == |l| && forall i, j :: 0 <= i < j < |l| ==> l[i] != l[j]
    requires s.start == Some(l[0]) && Load(s.prev, l[0]) == None
    requires s.end == Some(l[|l| - 1]) && Load(s.next, l[|l| - 1]) == None
    requires forall i: nat :: i + 1 < |l| ==> Adjacent(s, l[i], l[i + 1])
    ensures Represents(s, l)
  {
    forall i | 0 <= i < |l| ensures Load(s.next, l[i]) == At(l, i + 1) && Load(s.prev, l[i]) == At(l, i - 1) {
      if i + 1 < |l| { assert Adjacent(s, l[i], l[i + 1]); }
      if i > 0 {
        var j: nat := i - 1;
        assert Adjacent(s, l[j], l[j + 1]);
      }
    }
  }

  lemma NodesAdjacent(s: State, base: seq<nat>, n: nat)
    requires Inv(s, base) && AllFinished(s) && LogsValid(s) && n + 1 < |s.fronts| + |base| + |s.backs|
    ensures Adjacent(s, NodeAt(s, base, n), NodeAt(s, base, n + 1))
  {
    if n < |s.fronts| { AdjacentFront(s, base, n); }
    else if n + 1 < |s.fronts| + |base| { AdjacentBase(s, base, n); }
    else { AdjacentBack(s, base, n); }
  }

  lemma OrderAdjacent(s: State, base: seq<nat>, n: nat)
    requires LogsValid(s) && n + 1 < |s.fronts| + |base| + |s.backs|
    requires Adjacent(s, NodeAt(s, base, n), NodeAt(s, base, n + 1))
    ensures |Order(s, base)| == |s.fronts| + |base| + |s.backs| && Adjacent(s, Order(s, base)[n], Order(s, base)[n + 1])
  {
    OrderAt(s, base, n);
    OrderAt(s, base, n + 1);
  }

  lemma OrderDistinct(s: State, base: seq<nat>)
    requires Inv(s, base) && LogsValid(s)
    ensures forall i, j :: 0 <= i < j < |Order(s, base)| ==> Order(s, base)[i] != Order(s, base)[j]
  {
    var l := Order(s, base);
    SideEnd(s, base, Front);
    SideEnd(s, base, Back);
    forall i, j | 0 <= i < j < |l| ensures l[i] != l[j] {
      OrderAt(s, base, i);
      OrderAt(s, base, j);
      NodesDistinct(s, base, i, j);
    }
  }

  lemma OrderEnds(s: State, base: seq<nat>)
    requires Inv(s, base) && LogsValid(s)
    ensures var l := Order(s, base);
            && |l| == |s.fronts| + |base| + |s.backs| && l != []
            && s.start == Some(l[0]) && Load(s.prev, l[0]) == None
            && s.end == Some(l[|l| - 1]) && Load(s.next, l[|l| - 1]) == None
  {
    Ends(s, base);
    OrderAt(s, base, 0);
    OrderAt(s, base, |s.fronts| + |base| + |s.backs| - 1);
  }

  lemma FinishedRepresents(s: State, base: seq<nat>)
    requires Inv(s, base) && AllFinished(s)
    ensures LogsValid(s) && |s.fronts| + |s.backs| == |s.ops| && Represents(s, Order(s, base))
  {
    SideEnd(s, base, Front);
    SideEnd(s, base, Back);
    OrderLength(s, base);
    DoneAll(s.ops);
    OrderEnds(s, base);
    OrderDistinct(s, base);
    var l := Order(s, base);
    forall i: nat | i + 1 < |l| ensures Adjacent(s, l[i], l[i + 1]) {
      NodesAdjacent(s, base, i);
      OrderAdjacent(s, base, i);
    }
    ByNeighbours(s, l);
  }
}
