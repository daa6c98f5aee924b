/** The client's tab-completion table: every prefix of every added word is a key, in
    a hash table with chains. The hash function and the table size are arbitrary. */
module CompletionHash {
  import opened Options

  /** A chain element: its hash, its key, and the words stored under it, newest first. */
  datatype Bucket = Bucket(h: nat, key: string, count: nat, data: seq<string>)

  // ------------------------------------------------- what the table stands for

  type Contents = map<string, seq<string>>

  function Get(c: Contents, key: string): seq<string> {
    if key in c then c[key] else []
  }

  function Put(c: Contents, key: string, str: string): Contents {
    c[key := [str] + Get(c, key)]
  }

  /** Storing a word under its prefixes of length 1 to n. */
  function PutPrefixes(c: Contents, word: string, n: nat): Contents
    requires n <= |word|
  {
    if n == 0 then c else Put(PutPrefixes(c, word, n - 1), word[..n], word)
  }

  function PutAll(words: seq<string>): Contents {
    if words == [] then map[]
    else
      var word := words[|words| - 1];
      PutPrefixes(PutAll(words[..|words| - 1]), word, |word|)
  }

  lemma PutAllSnoc(words: seq<string>, word: string)
    ensures PutAll(words + [word]) == PutPrefixes(PutAll(words), word, |word|)
  {
    assert (words + [word])[..|words|] == words;
  }

  /** The reference: the words that start with p, newest first, with multiplicity. */
  function Matches(words: seq<string>, p: string): seq<string> {
    if words == [] then []
    else
      var word := words[|words| - 1];
      (if p <= word then [word] else []) + Matches(words[..|words| - 1], p)
  }

  lemma {:induction false} PutPrefixesGet(c: Contents, word: string, n: nat, key: string)
    requires n <= |word|
    ensures Get(PutPrefixes(c, word, n), key) ==
              (if key != "" && |key| <= n && key <= word then [word] else []) + Get(c, key)
  {
    if n > 0 {
      PutPrefixesGet(c, word, n - 1, key);
      if key <= word && |key| == n {
        assert key == word[..n];
      }
    }
  }

  /** After any sequence of additions, looking a non-empty key up yields exactly the
      words with that prefix. */
  lemma {:induction false} LookupIsMatches(words: seq<string>, key: string)
    requires key != ""
    ensures Get(PutAll(words), key) == Matches(words, key)
  {
    if words != [] {
      var rest := words[..|words| - 1];
      LookupIsMatches(rest, key);
      PutPrefixesGet(PutAll(rest), words[|words| - 1], |words[|words| - 1]|, key);
    }
  }

  lemma {:induction false} PutPrefixesKeys(c: Contents, word: string, n: nat)
    requires n <= |word|
    requires forall key :: key in c ==> key != "" && c[key] != []
    ensures forall key :: key in PutPrefixes(c, word, n) ==> key != "" && PutPrefixes(c, word, n)[key] != []
  {
    if n > 0 { PutPrefixesKeys(c, word, n - 1); }
  }

  lemma {:induction false} PutAllKeys(words: seq<string>)
    ensures forall key :: key in PutAll(words) ==> key != "" && PutAll(words)[key] != []
  {
    if words != [] {
      PutAllKeys(words[..|words| - 1]);
      PutPrefixesKeys(PutAll(words[..|words| - 1]), words[|words| - 1], |words[|words| - 1]|);
    }
  }

  // ------------------------------------------------------------ longest match

  lemma {:induction false} MatchesSound(words: seq<string>, p: string)
    ensures forall m :: m in Matches(words, p) ==> p <= m && m in words
  {
    if words != [] { MatchesSound(words[..|words| - 1], p); }
  }

  lemma {:induction false} MatchesComplete(words: seq<string>, p: string, m: string)
    requires m in words && p <= m
    ensures m in Matches(words, p)
  {
    var last := words[|words| - 1];
    if m != last {
      assert words == words[..|words| - 1] + [last];
      MatchesComplete(words[..|words| - 1], p, m);
    }
  }

  /** A longer prefix selects no more words, and the same words if as many. */
  lemma {:induction false} MatchesShrink(words: seq<string>, p: string, p': string)
    requires p <= p'
    ensures |Matches(words, p')| <= |Matches(words, p)|
    ensures |Matches(words, p')| == |Matches(words, p)| ==> Matches(words, p') == Matches(words, p)
  {
    if words != [] {
      MatchesShrink(words[..|words| - 1], p, p');
    }
  }

  ghost predicate Shares(m: string, first: string, n: nat) {
    n <= |m| && m[..n] <= first
  }

  /** All of ms begin with the same n characters. */
  ghost predicate Common(ms: seq<string>, n: nat) {
    ms != [] && forall m :: m in ms ==> Shares(m, ms[0], n)
  }

  /** n is the length of the longest common prefix of ms. */
  ghost predicate LongestCommon(ms: seq<string>, n: nat) {
    ms != [] && Common(ms, n) && !Common(ms, n + 1)
  }

  lemma CommonIffSame(words: seq<string>, q: string, n: nat)
    requires Matches(words, q) != [] && |q| <= n <= |Matches(words, q)[0]|
    ensures q <= Matches(words, q)[0][..n]
    ensures Common(Matches(words, q), n) <==>
              Matches(words, Matches(words, q)[0][..n]) == Matches(words, q)
  {
    var ms := Matches(words, q);
    var p := ms[0][..n];
    MatchesSound(words, q);
    MatchesSound(words, p);
    assert ms[0] in ms;
    if Common(ms, n) {
      MatchesShrink(words, q, p);
      CommonKeeps(words, q, p);
    } else {
      var m :| m in ms && !Shares(m, ms[0], n);
      assert !(p <= m);
    }
  }

  /** Lengthening the prefix by one character of the newest match: it still finds that
      word, and it finds all the matches exactly if they all have the character. */
  lemma ExtendByOne(words: seq<string>, q: string, n: nat)
    requires Matches(words, q) != [] && |q| <= n < |Matches(words, q)[0]|
    ensures var (ms, longer) := (Matches(words, q), Matches(words, Matches(words, q)[0][..n + 1]));
            && longer != [] && |longer| <= |ms|
            && (|longer| == |ms| ==> longer == ms && Common(ms, n + 1))
            && (|longer| < |ms| ==> !Common(ms, n + 1))
  {
    var ms := Matches(words, q);
    MatchesSound(words, q);
    assert ms[0] in ms;
    CommonIffSame(words, q, n + 1);
    MatchesShrink(words, q, ms[0][..n + 1]);
    MatchesComplete(words, ms[0][..n + 1], ms[0]);
  }

  lemma StartsCommon(words: seq<string>, q: string)
    requires Matches(words, q) != []
    ensures Common(Matches(words, q), |q|) && q <= Matches(words, q)[0]
    ensures !Common(Matches(words, q), |Matches(words, q)[0]| + 1)
  {
    MatchesSound(words, q);
    assert Matches(words, q)[0] in Matches(words, q);
  }

  /** If every match of q starts with p, then p selects all of them. */
  lemma {:induction false} CommonKeeps(words: seq<string>, q: string, p: string)
    requires q <= p && forall m :: m in Matches(words, q) ==> p <= m
    ensures Matches(words, p) == Matches(words, q)
  {
    if words != [] {
      var last := words[|words| - 1];
      var rest := words[..|words| - 1];
      assert forall m :: m in Matches(rest, q) ==> m in Matches(words, q);
      if q <= last { assert last in Matches(words, q); }
      CommonKeeps(rest, q, p);
    }
  }

  // ----------------------------------------------------------------- the table

  ghost predicate HasKey(chain: seq<Bucket>, key: string) {
    exists j :: 0 <= j < |chain| && chain[j].key == key
  }

  ghost predicate BucketFits(b: Bucket, i: nat, n: nat, hash: string -> nat, c: Contents) {
    && n > 0 && b.key != "" && b.h == hash(b.key) && b.h % n == i
    && b.key in c && b.data == c[b.key] && b.count == |b.data| > 0
  }

  /** A chain of slot i in a table of n slots, for the given contents. */
  ghost predicate Fits(chain: seq<Bucket>, i: nat, n: nat, hash: string -> nat, c: Contents) {
    && (forall j :: 0 <= j < |chain| ==> BucketFits(chain[j], i, n, hash, c))
    && (forall j, k :: 0 <= j < k < |chain| ==> chain[j].key != chain[k].key)
  }

  lemma FitsElsewhere(chain: seq<Bucket>, i: nat, n: nat, hash: string -> nat, c: Contents, key: string, str: string)
    requires Fits(chain, i, n, hash, c) && n > 0 && hash(key) % n != i
    ensures Fits(chain, i, n, hash, Put(c, key, str))
  {
  }

  ghost predicate KeepsKeys(chain: seq<Bucket>, chain': seq<Bucket>) {
    forall key :: HasKey(chain, key) ==> HasKey(chain', key)
  }

  /** A word stored in front of an element's list, ... */
  lemma FitsPush(chain: seq<Bucket>, i: nat, n: nat, hash: string -> nat, c: Contents, j: nat, str: string)
    requires Fits(chain, i, n, hash, c) && j < |chain|
    ensures var b := chain[j];
            var chain' := chain[j := b.(data := [str] + b.data, count := b.count + 1)];
            Fits(chain', i, n, hash, Put(c, b.key, str)) && HasKey(chain', b.key) && KeepsKeys(chain, chain')
  {
    var b := chain[j];
    var chain' := chain[j := b.(data := [str] + b.data, count := b.count + 1)];
    var c' := Put(c, b.key, str);
    forall k | 0 <= k < |chain'| ensures BucketFits(chain'[k], i, n, hash, c') {
      assert BucketFits(chain[k], i, n, hash, c) && BucketFits(b, i, n, hash, c);
      if k != j { assert chain[k].key != b.key; }
    }
    assert chain'[j].key == b.key;
    forall key | HasKey(chain, key) ensures HasKey(chain', key) {
      var k :| 0 <= k < |chain| && chain[k].key == key;
      assert chain'[k].key == key;
    }
  }

  /** ... and an element put in front of its chain. */
  lemma FitsInsert(chain: seq<Bucket>, i: nat, n: nat, hash: string -> nat, c: Contents, b: Bucket)
    requires Fits(chain, i, n, hash, c) && n > 0 && b.key != "" && b.key !in c
    requires b.h == hash(b.key) && b.h % n == i && b.count == 1 && |b.data| == 1
    ensures var chain' := [b] + chain;
            Fits(chain', i, n, hash, Put(c, b.key, b.data[0])) && HasKey(chain', b.key) && KeepsKeys(chain, chain')
  {
    var chain' := [b] + chain;
    var c' := Put(c, b.key, b.data[0]);
    assert c'[b.key] == b.data;
    forall k | 0 <= k < |chain'| ensures BucketFits(chain'[k], i, n, hash, c') {
      if k > 0 { assert BucketFits(chain[k - 1], i, n, hash, c); }
    }
    forall j, k | 0 <= j < k < |chain'| ensures chain'[j].key != chain'[k].key {
      assert BucketFits(chain[k - 1], i, n, hash, c);
    }
    assert chain'[0].key == b.key;
    forall key | HasKey(chain, key) ensures HasKey(chain', key) {
      var k :| 0 <= k < |chain| && chain[k].key == key;
      assert chain'[k + 1].key == key;
    }
  }

  class HashTable {
    const hash: string -> nat
    const buckets: array<seq<Bucket>>
    ghost var contents: Contents

    function Slot(key: string): (i: nat)
      requires buckets.Length > 0
      ensures i < buckets.Length
    {
      hash(key) % buckets.Length
    }

    /** The chain elements agree with the contents, ... */
    ghost predicate ChainOk(i: nat)
      requires i < buckets.Length
      reads this, buckets
    {
      Fits(buckets[i], i, buckets.Length, hash, contents)
    }

    /** ... and every key has its element. */
    ghost predicate Valid()
      reads this, buckets
    {
      && buckets.Length > 0
      && (forall i: nat :: i < buckets.Length ==> ChainOk(i))
      && (forall key :: key in contents ==> HasKey(buckets[Slot(key)], key))
    }

    constructor (hash: string -> nat, size: nat)
      requires size > 0
      ensures Valid() && contents == map[] && this.hash == hash && fresh(buckets) && buckets.Length == size
    {
      this.hash := hash;
      buckets := new seq<Bucket>[size](_ => []);
      contents := map[];
    }

    /** Walking the chain; j is past its end if the key is not there. */
    method Search(key: string) returns (j: nat)
      requires Valid()
      ensures j <= |buckets[Slot(key)]|
      ensures j < |buckets[Slot(key)]| <==> key in contents
      ensures j < |buckets[Slot(key)]| ==> buckets[Slot(key)][j].key == key
    {
      var h := hash(key);
      var chain := buckets[h % buckets.Length];
      assert ChainOk(Slot(key));
      j := 0;
      while j < |chain|
        invariant j <= |chain|
        invariant forall k :: 0 <= k < j ==> chain[k].key != key
      {
        if chain[j].h == h && |chain[j].key| == |key| && chain[j].key == key {
          return;
        }
        j := j + 1;
      }
    }

    method Update(key: string, str: string) returns (ok: bool)
      requires Valid()
      modifies this, buckets
      ensures Valid() && ok == (key != "")
      ensures contents == if ok then Put(old(contents), key, str) else old(contents)
    {
      if key == "" {
        return false;
      }
      var i := Slot(key);
      var j := Search(key);
      assert ChainOk(i);
      if j < |buckets[i]| {
        Push(i, j, str);
      } else {
        Insert(i, Bucket(hash(key), key, 1, [str]));
      }
      ok := true;
    }

    /** A new entry in front of an existing element's list. */
    method Push(i: nat, j: nat, str: string)
      requires Valid() && i < buckets.Length && j < |buckets[i]|
      modifies this, buckets
      ensures Valid() && contents == Put(old(contents), old(buckets[i][j].key), str)
    {
      var was := buckets[i];
      var b := was[j];
      assert ChainOk(i);
      FitsPush(was, i, buckets.Length, hash, contents, j, str);
      assert BucketFits(b, i, buckets.Length, hash, contents);
      Replace(i, was[j := b.(data := [str] + b.data, count := b.count + 1)], b.key, str);
    }

    /** A new element at the front of a chain. */
    method Insert(i: nat, b: Bucket)
      requires Valid() && i < buckets.Length && b.key != "" && b.key !in contents && Slot(b.key) == i
      requires b.h == hash(b.key) && b.count == 1 && |b.data| == 1
      modifies this, buckets
      ensures Valid() && contents == Put(old(contents), b.key, b.data[0])
    {
      var was := buckets[i];
      assert ChainOk(i);
      FitsInsert(was, i, buckets.Length, hash, contents, b);
      Replace(i, [b] + was, b.key, b.data[0]);
    }

    /** Writing back a changed chain. */
    method Replace(i: nat, chain: seq<Bucket>, key: string, str: string)
      requires Valid() && i < buckets.Length && Slot(key) == i
      requires Fits(chain, i, buckets.Length, hash, Put(contents, key, str)) && HasKey(chain, key)
      requires KeepsKeys(buckets[i], chain)
      modifies this, buckets
      ensures Valid() && contents == Put(old(contents), key, str)
    {
      ghost var was := buckets[..];
      buckets[i] := chain;
      contents := Put(contents, key, str);
      forall k: nat | k < buckets.Length ensures ChainOk(k) {
        assert old(ChainOk(k));
        if k != i {
          assert buckets[k] == was[k];
          FitsElsewhere(was[k], k, buckets.Length, hash, old(contents), key, str);
        }
      }
      forall k | k in contents ensures HasKey(buckets[Slot(k)], k) {
        if k != key { assert HasKey(was[Slot(k)], k); }
      }
    }

    /** Adding a word stores it under each of its non-empty prefixes. */
    method AddWord(word: string)
      requires Valid()
      modifies this, buckets
      ensures Valid() && contents == PutPrefixes(old(contents), word, |word|)
    {
      var i := 0;
      while i < |word|
        invariant 0 <= i <= |word| && Valid()
        invariant contents == PutPrefixes(old(contents), word, i)
      {
        var ok := Update(word[..i + 1], word);
        i := i + 1;
      }
    }

    /** Adding words one after the other: from then on the table stands for all of them. */
    method AddWords(words: seq<string>, ghost before: seq<string>)
      requires Valid() && contents == PutAll(before)
      modifies this, buckets
      ensures Valid() && contents == PutAll(before + words)
    {
      ghost var all := before;
      var i := 0;
      while i < |words|
        invariant 0 <= i <= |words| && Valid()
        invariant all == before + words[..i] && contents == PutAll(all)
      {
        AddWord(words[i]);
        PutAllSnoc(all, words[i]);
        all := all + [words[i]];
        i := i + 1;
      }
      assert words[..i] == words;
    }

    /** Lookup: the element of the key, if any word has it as a prefix. */
    method Find(key: string, ghost words: seq<string>) returns (b: Option<Bucket>)
      requires Valid() && contents == PutAll(words)
      ensures b.Some? <==> key != "" && Matches(words, key) != []
      ensures b.Some? ==> b.value.key == key && b.value.data == Matches(words, key) && b.value.count == |Matches(words, key)|
    {
      var j := Search(key);
      PutAllKeys(words);
      if key != "" { LookupIsMatches(words, key); }
      assert ChainOk(Slot(key));
      if j < |buckets[Slot(key)]| {
        b := Some(buckets[Slot(key)][j]);
      } else {
        b := None;
      }
    }

    method FindAllMatches(str: string, ghost words: seq<string>) returns (b: Option<Bucket>, resLength: nat)
      requires Valid() && contents == PutAll(words)
      ensures b.Some? <==> str != "" && Matches(words, str) != []
      ensures b.Some? ==> b.value.data == Matches(words, str) && b.value.count == |Matches(words, str)|
      ensures resLength == if b.Some? then |str| else 0
    {
      b := Find(str, words);
      resLength := if b.None? then 0 else |str|;
    }

    /** The longest match: the length of the longest common prefix of all words that
        start with the query, and the element that holds exactly those words. */
    method FindLongestMatch(str: string, ghost words: seq<string>) returns (b: Option<Bucket>, resLength: nat)
      requires Valid() && contents == PutAll(words)
      ensures b.Some? <==> str != "" && Matches(words, str) != []
      ensures b.None? ==> resLength == 0
      ensures b.Some? ==> LongestCommon(Matches(words, str), resLength) && |str| <= resLength
      ensures b.Some? ==> b.value.data == Matches(words, str) && b.value.key == Matches(words, str)[0][..resLength]
    {
      b := Find(str, words);
      if b.None? {
        return b, 0;
      }
      b, resLength := Lengthen(str, b.value, words);
    }

    /** The loop: longer and longer prefixes of the newest word, as long as they have
        as many matches as the query. */
    method Lengthen(str: string, first: Bucket, ghost words: seq<string>) returns (b: Option<Bucket>, lm: nat)
      requires Valid() && contents == PutAll(words) && str != ""
      requires first.key == str && first.data == Matches(words, str) != [] && first.count == |first.data|
      ensures b.Some? && LongestCommon(first.data, lm) && |str| <= lm
      ensures b.value.data == first.data && b.value.key == first.data[0][..lm]
    {
      var s := first.data[0];
      StartsCommon(words, str);
      b, lm := Some(first), |str|;
      while lm < |s|
        invariant |str| <= lm <= |s| && Common(first.data, lm)
        invariant b.Some? && b.value.key == s[..lm] && b.value.data == first.data
        decreases |s| - lm
      {
        var next := Find(s[..lm + 1], words);
        ExtendByOne(words, str, lm);
        if next.None? {
          break;
        }
        if next.value.count < first.count {
          return;
        }
        b, lm := next, lm + 1;
      }
    }
  }
}
