/** Facts about version chains, the reader queue and sums over threads. */
module MvccChains {
  import opened Options
  import opened Mvcc

  ghost predicate Decreasing(c: Chain) {
    forall i, j :: 0 <= i < j < |c| ==> c[i].version > c[j].version
  }

  lemma FindAt(c: Chain, i: nat)
    requires Decreasing(c) && i < |c|
    ensures Find(c, c[i].version) == Some(i)
  {
  }

  /** Node i is the newest one below a. */
  ghost predicate NewestAt(c: Chain, a: nat, i: nat) {
    i < |c| && c[i].version < a && forall j :: 0 <= j < i ==> c[j].version >= a
  }

  lemma {:induction false} NewestIs(c: Chain, a: nat, i: nat)
    requires NewestAt(c, a, i)
    ensures Newest(c, a) == Some(c[i])
  {
    if i > 0 {
      assert c[0].version >= a;
      NewestIs(c[1..], a, i - 1);
    }
  }

  /** If some version lies below a, the newest such node exists and is at least as new. */
  lemma {:induction false} NewestExists(c: Chain, a: nat, m: nat) returns (i: nat)
    requires Decreasing(c) && Has(c, m) && m < a
    ensures NewestAt(c, a, i) && Newest(c, a) == Some(c[i]) && m <= c[i].version
    decreases c
  {
    if c[0].version < a {
      i := 0;
    } else {
      var k :| 0 <= k < |c| && c[k].version == m;
      assert c[1..][k - 1].version == m;
      var j := NewestExists(c[1..], a, m);
      assert forall x :: 1 <= x < |c| ==> c[x] == c[1..][x - 1];
      i := j + 1;
    }
    NewestIs(c, a, i);
  }

  /** Cutting the chain after a node at least as old as the answer keeps the answer. */
  lemma NewestCut(c: Chain, a: nat, k: nat, m: nat)
    requires Decreasing(c) && k <= |c| && m < a
    requires exists i :: 0 <= i < k && c[i].version == m
    ensures Newest(c[..k], a) == Newest(c, a)
  {
    var i :| 0 <= i < k && c[i].version == m;
    assert c[..k][i].version == m;
    var j := NewestExists(c[..k], a, m);
    NewestIs(c, a, j);
  }

  /** r is what is left of x in steps of a hundred, with the sign of x. */
  predicate IsRemainder(r: int, x: int) {
    -100 < r < 100 && (x - r) % 100 == 0 && (x >= 0 ==> r >= 0) && (x <= 0 ==> r <= 0)
  }

  lemma Rem100Is(x: int)
    ensures IsRemainder(Rem100(x), x)
  {
  }

  // ------------------------------------------------------------------ queues

  ghost predicate Ascending(s: seq<nat>) {
    forall i, j :: 0 <= i < j < |s| ==> s[i] <= s[j]
  }

  lemma {:induction false} RemoveFirstMultiset(s: seq<nat>, v: nat)
    ensures multiset(RemoveFirst(s, v)) == multiset(s) - multiset{v}
  {
    if s != [] {
      assert s == [s[0]] + s[1..];
      if s[0] != v {
        RemoveFirstMultiset(s[1..], v);
      }
    }
  }

  lemma {:induction false} RemoveFirstAt(s: seq<nat>, v: nat, k: nat)
    requires k < |s| && s[k] == v && forall i :: 0 <= i < k ==> s[i] != v
    ensures RemoveFirst(s, v) == s[..k] + s[k + 1..]
  {
    if k > 0 {
      assert s[0] != v;
      RemoveFirstAt(s[1..], v, k - 1);
      assert s[1..][..k - 1] == s[1..k] && s[1..][k..] == s[k + 1..];
      assert s[..k] == [s[0]] + s[1..k];
    }
  }

  lemma {:induction false} RemoveFirstAbsent(s: seq<nat>, v: nat)
    requires v !in s
    ensures RemoveFirst(s, v) == s
  {
    if s != [] {
      RemoveFirstAbsent(s[1..], v);
    }
  }

  /** Where the first v sits, |s| if there is none. */
  function FirstIndex(s: seq<nat>, v: nat): (k: nat)
    ensures k <= |s| && (forall i :: 0 <= i < k ==> s[i] != v) && (k < |s| ==> s[k] == v)
  {
    if s == [] || s[0] == v then 0 else 1 + FirstIndex(s[1..], v)
  }

  lemma RemoveFirstSub(s: seq<nat>, v: nat)
    requires Ascending(s)
    ensures Ascending(RemoveFirst(s, v))
    ensures forall x :: x in RemoveFirst(s, v) ==> x in s
    ensures s != [] && s[0] != v ==> RemoveFirst(s, v) != [] && RemoveFirst(s, v)[0] == s[0]
  {
    var k := FirstIndex(s, v);
    if k < |s| {
      RemoveFirstAt(s, v, k);
    } else {
      RemoveFirstAbsent(s, v);
    }
  }

  // ------------------------------------------------------- sums over threads

  predicate Reads(pc: Pc, p: nat, a: nat) {
    pc.Run? && pc.job.partner == p && pc.job.view == Some(a)
  }

  /** How many outstanding readers hold partner p at version a. */
  function Readers(pcs: seq<Pc>, p: nat, a: nat): nat {
    if pcs == [] then 0
    else Readers(pcs[..|pcs| - 1], p, a) + (if Reads(pcs[|pcs| - 1], p, a) then 1 else 0)
  }

  lemma {:induction false} ReadersUpdate(pcs: seq<Pc>, t: nat, pc: Pc, p: nat, a: nat)
    requires t < |pcs|
    ensures Reads(pcs[t], p, a) ==> Readers(pcs, p, a) >= 1
    ensures Readers(pcs[t := pc], p, a)
         == Readers(pcs, p, a) - (if Reads(pcs[t], p, a) then 1 else 0) + (if Reads(pc, p, a) then 1 else 0)
  {
    var last := |pcs| - 1;
    if t == last {
      assert pcs[t := pc][..last] == pcs[..last];
    } else {
      assert pcs[t := pc][..last] == pcs[..last][t := pc];
      ReadersUpdate(pcs[..last], t, pc, p, a);
    }
  }

  lemma {:induction false} ReadersNone(pcs: seq<Pc>, p: nat, a: nat)
    requires forall t :: 0 <= t < |pcs| ==> !Reads(pcs[t], p, a)
    ensures Readers(pcs, p, a) == 0
  {
    if pcs != [] {
      ReadersNone(pcs[..|pcs| - 1], p, a);
    }
  }

  function HeadSum(c: Chain): int {
    if c == [] then 0 else c[0].A + c[0].B
  }

  /** The sum the program prints before and after the run. */
  function Total(chains: seq<Chain>): int {
    if chains == [] then 0 else Total(chains[..|chains| - 1]) + HeadSum(chains[|chains| - 1])
  }

  lemma {:induction false} TotalUpdate(chains: seq<Chain>, t: nat, c: Chain)
    requires t < |chains|
    ensures Total(chains[t := c]) == Total(chains) - HeadSum(chains[t]) + HeadSum(c)
  {
    var last := |chains| - 1;
    if t == last {
      assert chains[t := c][..last] == chains[..last];
    } else {
      assert chains[t := c][..last] == chains[..last][t := c];
      TotalUpdate(chains[..last], t, c);
    }
  }

  // ------------------------------------------------------------- active list

  ghost predicate DistinctIndices(l: seq<ActiveEntry>) {
    forall i, j :: 0 <= i < j < |l| ==> l[i].index != l[j].index
  }

  lemma {:induction false} RemoveActiveSpec(l: seq<ActiveEntry>, t: nat)
    requires DistinctIndices(l)
    ensures DistinctIndices(RemoveActive(l, t))
    ensures forall e :: e in RemoveActive(l, t) <==> e in l && e.index != t
  {
    if l != [] {
      assert l == [l[0]] + l[1..];
      if l[0].index != t {
        RemoveActiveSpec(l[1..], t);
        var r := RemoveActive(l[1..], t);
        assert forall i :: 0 <= i < |r| ==> r[i] in l[1..];
      }
    }
  }

  lemma {:induction false} LookupAppend(l: seq<ActiveEntry>, e: ActiveEntry, p: nat)
    ensures LookupActive(l + [e], p) ==
              if LookupActive(l, p).Some? then LookupActive(l, p)
              else if e.index == p then Some(e.version) else None
  {
    if l == [] {
      assert l + [e] == [e];
    } else {
      assert (l + [e])[1..] == l[1..] + [e];
      LookupAppend(l[1..], e, p);
    }
  }

  lemma {:induction false} LookupNone(l: seq<ActiveEntry>, p: nat)
    requires forall i :: 0 <= i < |l| ==> l[i].index != p
    ensures LookupActive(Capture(l), p) == None
  {
    if l != [] {
      LookupNone(l[1..], p);
      LookupAppend(Capture(l[1..]), l[0], p);
    }
  }

  /** Every thread occurs at most once, so the reversed capture finds its entry. */
  lemma {:induction false} LookupCapture(l: seq<ActiveEntry>, k: nat)
    requires DistinctIndices(l) && k < |l|
    ensures LookupActive(Capture(l), l[k].index) == Some(l[k].version)
  {
    LookupAppend(Capture(l[1..]), l[0], l[k].index);
    if k == 0 {
      LookupNone(l[1..], l[0].index);
    } else {
      LookupCapture(l[1..], k - 1);
    }
  }
}
