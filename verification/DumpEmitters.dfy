/** Two emitters of the dump client: the splitting of character data into CDATA
    sections, and rows packed into extended INSERT statements. */
module DumpEmitters {
  import opened Options

  // ------------------------------------------------------------ CDATA sections

  const OPEN := "<![CDATA["
  const CLOSE := "]]>"
  const SPLIT := "]]]]><![CDATA[>"
  const TAIL := "\n]]>\n"

  /** The closing string stands at position i. */
  predicate ClosesAt(s: string, i: nat) {
    i + 2 < |s| && s[i] == ']' && s[i + 1] == ']' && s[i + 2] == '>'
  }

  /** The loop's output for the rest of the string from position i. */
  function Body(str: string, i: nat): string
    requires i <= |str|
    decreases |str| - i
  {
    if i == |str| then ""
    else if ClosesAt(str, i) then SPLIT + Body(str, i + 3)
    else [str[i]] + Body(str, i + 1)
  }

  function Printed(str: string): string {
    OPEN + "\n" + Body(str, 0) + TAIL
  }

  /** text is what has been printed when the loop is at position i. */
  ghost predicate PrintedUpTo(text: string, str: string, i: nat) {
    i <= |str| && text + Body(str, i) == OPEN + "\n" + Body(str, 0)
  }

  lemma PrintOn(text: string, str: string, i: nat)
    requires PrintedUpTo(text, str, i) && i < |str|
    ensures if ClosesAt(str, i) then PrintedUpTo(text + SPLIT, str, i + 3) else PrintedUpTo(text + [str[i]], str, i + 1)
  {
    if ClosesAt(str, i) {
      assert text + Body(str, i) == (text + SPLIT) + Body(str, i + 3);
    } else {
      assert text + Body(str, i) == (text + [str[i]]) + Body(str, i + 1);
    }
  }

  lemma PrintEnd(text: string, str: string)
    requires PrintedUpTo(text, str, |str|)
    ensures text + TAIL == Printed(str)
  {
    assert text + Body(str, |str|) == text;
  }

  /** A closing string starts in the first len characters and ends behind them. */
  ghost predicate Straddles(mem: string, len: nat) {
    exists i: nat :: i < len < i + 3 && ClosesAt(mem, i)
  }

  /** A null behind the string, as behind the fields of a row, rules that out. */
  lemma TerminatedFits(mem: string, len: nat)
    requires len < |mem| && mem[len] == '\0'
    ensures !Straddles(mem, len)
  {
  }

  /** The printed text for the first len characters of memory; what lies behind them is
      looked at too. If a closing string straddles the end, the source's cursor jumps
      past it and never meets it: None. */
  method PrintCdata(mem: string, len: nat) returns (out: Option<string>)
    requires len <= |mem|
    ensures out.None? <==> Straddles(mem, len)
    ensures out.Some? ==> out.value == Printed(mem[..len])
  {
    ghost var str := mem[..len];
    var text := OPEN + "\n";
    var i := 0;
    while i != len
      invariant 0 <= i <= len && PrintedUpTo(text, str, i)
      invariant forall k: nat :: k < i && len < k + 3 ==> !ClosesAt(mem, k)
      decreases len - i
    {
      if ClosesAt(mem, i) {
        if len < i + 3 {
          return None;
        }
        assert ClosesAt(str, i);
        PrintOn(text, str, i);
        text := text + SPLIT;
        i := i + 3;
      } else {
        PrintOn(text, str, i);
        text := text + [mem[i]];
        i := i + 1;
      }
    }
    PrintEnd(text, str);
    out := Some(text + TAIL);
  }

  /** A reader of consecutive CDATA sections, as section 2.7 of the W3C XML 1.0
      recommendation defines them: a section is its opening string, then characters up
      to the first closing string. Inside a section this collects its characters; at its
      end it goes on into the next section if one follows, and otherwise yields what it
      collected and the text left over. A missing closing string is an error. */
  function ReadInside(text: string): Option<(string, string)> {
    if text == "" then None
    else if ClosesAt(text, 0) then
      if OPEN <= text[3..] then ReadInside(text[3 + |OPEN|..])
      else Some(("", text[3..]))
    else Prefixed([text[0]], ReadInside(text[1..]))
  }

  /** The same reading with more characters in front. */
  function Prefixed(chars: string, r: Option<(string, string)>): Option<(string, string)> {
    match r
    case None => None
    case Some((more, rest)) => Some((chars + more, rest))
  }

  function ReadSections(text: string): Option<(string, string)> {
    if OPEN <= text then ReadInside(text[|OPEN|..]) else None
  }

  /** One more plain character in front. */
  lemma ReadPlain(c: char, text: string)
    requires !ClosesAt([c] + text, 0)
    ensures ReadInside([c] + text) == Prefixed([c], ReadInside(text))
  {
    assert ([c] + text)[1..] == text;
  }

  /** A closing string followed by an opening one is skipped. */
  lemma ReadAcross(text: string)
    ensures ReadInside(CLOSE + OPEN + text) == ReadInside(text)
  {
    var t := CLOSE + OPEN + text;
    assert ClosesAt(t, 0) && t[3..] == OPEN + text && t[3 + |OPEN|..] == text;
  }

  lemma ReadTail()
    ensures ReadInside(TAIL) == Some(("\n", "\n"))
  {
    var t := "]]>\n";
    assert ClosesAt(t, 0) && t[3..] == "\n" && !(OPEN <= "\n");
    ReadPlain('\n', t);
    assert ['\n'] + t == TAIL && "\n" + "" == "\n";
  }

  lemma PrefixedTwice(x: string, y: string, r: Option<(string, string)>)
    ensures Prefixed(x, Prefixed(y, r)) == Prefixed(x + y, r)
  {
    if r.Some? {
      assert x + (y + r.value.0) == (x + y) + r.value.0;
    }
  }

  /** Two brackets in front of a closing string are plain characters. */
  lemma ReadBrackets(text: string)
    requires ClosesAt(text, 0)
    ensures ReadInside("]]" + text) == Prefixed("]]", ReadInside(text))
  {
    var t1 := [']'] + text;
    ReadPlain(']', text);
    ReadPlain(']', t1);
    assert [']'] + t1 == "]]" + text;
    PrefixedTwice([']'], [']'], ReadInside(text));
    assert [']'] + [']'] == "]]";
  }

  lemma SplitText(text: string)
    ensures SPLIT + text == "]]" + (CLOSE + OPEN + (['>'] + text))
  {
  }

  /** The replacement text reads as the three characters it stands for. */
  lemma ReadSplit(text: string)
    ensures ReadInside(SPLIT + text) == Prefixed(CLOSE, ReadInside(text))
  {
    var r := ReadInside(text);
    ReadPlain('>', text);
    ReadAcross(['>'] + text);
    var t := CLOSE + OPEN + (['>'] + text);
    ReadBrackets(t);
    SplitText(text);
    PrefixedTwice("]]", ['>'], r);
    assert "]]" + ['>'] == CLOSE;
  }

  /** The first character of the loop's output, or of what follows it. */
  lemma FirstOut(str: string, i: nat)
    requires i <= |str|
    ensures var text := Body(str, i) + TAIL;
            && |text| >= 2
            && text[0] == (if i < |str| then str[i] else '\n')
            && (i < |str| && ClosesAt(str, i) ==> text[1] == ']')
            && (i < |str| && !ClosesAt(str, i) ==> text[1..] == Body(str, i + 1) + TAIL)
  {
  }

  /** An emitted character never completes a closing string with what follows it. */
  lemma NoFalseClose(str: string, i: nat)
    requires i < |str| && !ClosesAt(str, i)
    ensures !ClosesAt([str[i]] + (Body(str, i + 1) + TAIL), 0)
  {
    var text := Body(str, i + 1) + TAIL;
    FirstOut(str, i + 1);
    if i + 1 < |str| && !ClosesAt(str, i + 1) {
      FirstOut(str, i + 2);
      assert text[1] == text[1..][0];
    }
  }

  lemma Regroup(x: string, y: string)
    ensures (x + y) + TAIL == x + (y + TAIL)
  {
  }

  lemma ReadSplitAs(text: string, chars: string, all: string)
    requires ReadInside(text) == Some((chars, "\n")) && all == CLOSE + chars
    ensures ReadInside(SPLIT + text) == Some((all, "\n"))
  {
    ReadSplit(text);
  }

  lemma ReadPlainAs(c: char, text: string, chars: string, all: string)
    requires ReadInside(text) == Some((chars, "\n")) && all == [c] + chars && !ClosesAt([c] + text, 0)
    ensures ReadInside([c] + text) == Some((all, "\n"))
  {
    ReadPlain(c, text);
  }

  /** From position i on, the output reads back as the string. */
  ghost predicate ReadsBack(str: string, i: nat) {
    i <= |str| && ReadInside(Body(str, i) + TAIL) == Some((str[i..] + "\n", "\n"))
  }

  lemma BackOverSplit(str: string, i: nat)
    requires i < |str| && ClosesAt(str, i) && ReadsBack(str, i + 3)
    ensures ReadsBack(str, i)
  {
    Regroup(SPLIT, Body(str, i + 3));
    ReadSplitAs(Body(str, i + 3) + TAIL, str[i + 3..] + "\n", str[i..] + "\n");
  }

  lemma BackOverPlain(str: string, i: nat)
    requires i < |str| && !ClosesAt(str, i) && ReadsBack(str, i + 1)
    ensures ReadsBack(str, i)
  {
    Regroup([str[i]], Body(str, i + 1));
    NoFalseClose(str, i);
    ReadPlainAs(str[i], Body(str, i + 1) + TAIL, str[i + 1..] + "\n", str[i..] + "\n");
  }

  lemma {:induction false} ReadBody(str: string, i: nat)
    requires i <= |str|
    ensures ReadsBack(str, i)
    decreases |str| - i
  {
    if i == |str| {
      ReadTail();
      assert Body(str, i) + TAIL == TAIL && str[i..] + "\n" == "\n";
    } else if ClosesAt(str, i) {
      ReadBody(str, i + 3);
      BackOverSplit(str, i);
    } else {
      ReadBody(str, i + 1);
      BackOverPlain(str, i);
    }
  }

  /** Round trip: reading the printed sections gives the string back between the two
      newlines the printer adds, and leaves only the final newline. */
  lemma CdataRoundTrip(str: string)
    ensures ReadSections(Printed(str)) == Some(("\n" + str + "\n", "\n"))
  {
    ReadBody(str, 0);
    var inner := Body(str, 0) + TAIL;
    assert Printed(str)[|OPEN|..] == ['\n'] + inner;
    ReadPlain('\n', inner);
    assert str[0..] == str;
    assert ['\n'] + (str + "\n") == "\n" + str + "\n";
  }

  // ------------------------------------------------------------- row packing

  /** An INSERT statement: the rows it holds, at least one. */
  type Statement = seq<string>

  function Joined(rows: seq<string>): string {
    if rows == [] then ""
    else if |rows| == 1 then rows[0]
    else Joined(rows[..|rows| - 1]) + "," + rows[|rows| - 1]
  }

  /** A statement as it appears in the output. */
  function Text(pat: string, st: Statement): string {
    pat + Joined(st) + ";\n"
  }

  /** The output of a list of statements, without the last terminator. */
  function OpenText(pat: string, sts: seq<Statement>): string {
    if sts == [] then ""
    else if |sts| == 1 then pat + Joined(sts[0])
    else OpenText(pat, sts[..|sts| - 1]) + ";\n" + pat + Joined(sts[|sts| - 1])
  }

  function AllText(pat: string, sts: seq<Statement>): string {
    if sts == [] then "" else AllText(pat, sts[..|sts| - 1]) + Text(pat, sts[|sts| - 1])
  }

  function Flatten(sts: seq<Statement>): seq<string> {
    if sts == [] then [] else Flatten(sts[..|sts| - 1]) + sts[|sts| - 1]
  }

  function Size(rows: seq<string>): nat {
    if rows == [] then 0 else Size(rows[..|rows| - 1]) + 2 + |rows[|rows| - 1]|
  }

  /** What the loop counts for an open statement. */
  function Counted(pat: string, st: Statement): nat {
    |pat| + 4 + Size(st)
  }

  lemma {:induction false} JoinedSize(rows: seq<string>)
    requires rows != []
    ensures |Joined(rows)| == Size(rows) - |rows| - 1
  {
    if |rows| > 1 {
      JoinedSize(rows[..|rows| - 1]);
    } else {
      assert rows[..0] == [];
    }
  }

  /** Every statement has a row; one with more than one row is shorter, terminator
      included, than the buffer length. */
  ghost predicate Fits(pat: string, st: Statement, limit: nat) {
    st != [] && (|st| > 1 ==> |Text(pat, st)| < limit)
  }

  /** The next statement starts only because its first row did not fit. */
  ghost predicate Greedy(pat: string, sts: seq<Statement>, limit: nat) {
    forall i :: 0 < i < |sts| && sts[i] != [] ==> Counted(pat, sts[i - 1]) + 2 + |sts[i][0]| >= limit
  }

  /** Whether a row still goes into a statement: its bytes, with two more for each row and
      three for the statement, stay below the limit. */
  predicate Joins(pat: string, st: Statement, row: string, limit: nat) {
    |Text(pat, st)| + |st| + 5 + |row| < limit
  }

  /** A division of the rows into statements: in order, none lost, within the limit; a row
      is in the statement of the row before exactly if it joins it. */
  ghost predicate IsPacking(pat: string, rows: seq<string>, limit: nat, sts: seq<Statement>) {
    && Flatten(sts) == rows
    && (forall i :: 0 <= i < |sts| ==> Fits(pat, sts[i], limit))
    && (forall i, j :: 0 <= i < |sts| && 0 < j < |sts[i]| ==> Joins(pat, sts[i][..j], sts[i][j], limit))
    && (forall i :: 0 < i < |sts| ==> !Joins(pat, sts[i - 1], sts[i][0], limit))
  }

  /** The loop's count is the bytes, one more for each row, and three. */
  lemma CountedIs(pat: string, st: Statement)
    requires st != []
    ensures Counted(pat, st) == |Text(pat, st)| + |st| + 3
  {
    JoinedSize(st);
  }

  lemma {:induction false} PrefixCounts(pat: string, st: Statement, j: nat)
    requires 0 < j < |st|
    ensures Counted(pat, st[..j]) + 2 + |st[j]| <= Counted(pat, st)
    decreases |st|
  {
    if j < |st| - 1 {
      PrefixCounts(pat, st[..|st| - 1], j);
      assert st[..|st| - 1][..j] == st[..j];
    }
  }

  /** The loop's state: the statements so far, the last one still open. */
  ghost predicate Packing(pat: string, done: seq<string>, limit: nat, sts: seq<Statement>, out: string, total: nat) {
    && out == OpenText(pat, sts) && Flatten(sts) == done
    && total == (if sts == [] then limit else Counted(pat, sts[|sts| - 1]))
    && (forall i :: 0 <= i < |sts| ==> Packed(pat, sts[i], limit))
    && Greedy(pat, sts, limit)
  }

  /** Packing row by row. The count starts at the limit, which forces the first row to
      open a statement. */
  method PackRows(pat: string, rows: seq<string>, limit: nat) returns (out: string)
    ensures exists sts :: IsPacking(pat, rows, limit, sts) && out == AllText(pat, sts)
  {
    var total: nat := limit;
    var rowBreak := false;
    out := "";
    ghost var sts: seq<Statement> := [];
    var n := 0;
    while n < |rows|
      invariant 0 <= n <= |rows|
      invariant rowBreak <==> sts != []
      invariant Packing(pat, rows[..n], limit, sts, out, total)
    {
      var row := rows[n];
      var rowLength := 2 + |row|;
      assert rows[..n + 1] == rows[..n] + [row];
      if total + rowLength < limit {
        sts := JoinRow(pat, rows[..n], limit, sts, out, total, row);
        total := total + rowLength;
        out := out + "," + row;
      } else {
        sts := OpenRow(pat, rows[..n], limit, sts, out, total, row);
        if rowBreak {
          out := out + ";\n";
        }
        rowBreak := true;
        out := out + pat + row;
        total := rowLength + |pat| + 4;
      }
      n := n + 1;
    }
    assert rows[..n] == rows;
    CloseLast(pat, sts);
    if rowBreak {
      out := out + ";\n";
    }
    PackingDone(pat, rows, limit, sts);
  }

  lemma PackingDone(pat: string, rows: seq<string>, limit: nat, sts: seq<Statement>)
    requires Flatten(sts) == rows && Greedy(pat, sts, limit) && forall i :: 0 <= i < |sts| ==> Packed(pat, sts[i], limit)
    ensures IsPacking(pat, rows, limit, sts)
  {
    forall i | 0 <= i < |sts| ensures Fits(pat, sts[i], limit) {
      PackedFits(pat, sts[i], limit);
    }
    forall i, j | 0 <= i < |sts| && 0 < j < |sts[i]| ensures Joins(pat, sts[i][..j], sts[i][j], limit) {
      PrefixCounts(pat, sts[i], j);
      CountedIs(pat, sts[i][..j]);
    }
    forall i | 0 < i < |sts| ensures !Joins(pat, sts[i - 1], sts[i][0], limit) {
      assert Fits(pat, sts[i], limit) && Fits(pat, sts[i - 1], limit);
      CountedIs(pat, sts[i - 1]);
    }
  }

  lemma JoinRow(pat: string, done: seq<string>, limit: nat, sts: seq<Statement>, out: string, total: nat, row: string)
    returns (sts': seq<Statement>)
    requires Packing(pat, done, limit, sts, out, total) && total + 2 + |row| < limit
    ensures sts' != [] && sts != []
    ensures Packing(pat, done + [row], limit, sts', out + "," + row, total + 2 + |row|)
  {
    var init, st := sts[..|sts| - 1], sts[|sts| - 1];
    assert sts == init + [st] && Packed(pat, st, limit);
    ExtendLast(pat, init, st, row);
    GreedyExtend(pat, init, st, row, limit);
    sts' := init + [st + [row]];
    forall i | 0 <= i < |sts'| ensures Packed(pat, sts'[i], limit) {
      if i < |init| { assert sts'[i] == sts[i]; }
    }
  }

  lemma OpenRow(pat: string, done: seq<string>, limit: nat, sts: seq<Statement>, out: string, total: nat, row: string)
    returns (sts': seq<Statement>)
    requires Packing(pat, done, limit, sts, out, total) && total + 2 + |row| >= limit
    ensures sts' != []
    ensures Packing(pat, done + [row], limit, sts',
                    (if sts == [] then out else out + ";\n") + pat + row, 2 + |row| + |pat| + 4)
  {
    OpenNew(pat, sts, row, limit);
    sts' := sts + [[row]];
    forall i | 0 <= i < |sts'| ensures Packed(pat, sts'[i], limit) {
      if i < |sts| { assert sts'[i] == sts[i]; }
    }
  }

  /** What the loop knows of each statement: by its own count. */
  ghost predicate Packed(pat: string, st: Statement, limit: nat) {
    st != [] && (|st| > 1 ==> Counted(pat, st) < limit)
  }

  lemma PackedFits(pat: string, st: Statement, limit: nat)
    requires Packed(pat, st, limit)
    ensures Fits(pat, st, limit)
  {
    JoinedSize(st);
  }

  lemma JoinedExtend(st: Statement, row: string)
    requires st != []
    ensures Joined(st + [row]) == Joined(st) + "," + row && Size(st + [row]) == Size(st) + 2 + |row|
  {
    assert (st + [row])[..|st|] == st;
  }

  lemma OpenTextLast(pat: string, init: seq<Statement>, st: Statement)
    ensures OpenText(pat, init + [st]) == (if init == [] then "" else OpenText(pat, init) + ";\n") + pat + Joined(st)
    ensures Flatten(init + [st]) == Flatten(init) + st
  {
    assert (init + [st])[..|init|] == init;
  }

  /** A row joins the last statement. */
  lemma ExtendLast(pat: string, init: seq<Statement>, st: Statement, row: string)
    requires st != []
    ensures OpenText(pat, init + [st + [row]]) == OpenText(pat, init + [st]) + "," + row
    ensures Flatten(init + [st + [row]]) == Flatten(init + [st]) + [row]
    ensures Counted(pat, st + [row]) == Counted(pat, st) + 2 + |row|
  {
    JoinedExtend(st, row);
    OpenTextLast(pat, init, st);
    OpenTextLast(pat, init, st + [row]);
    var head := (if init == [] then "" else OpenText(pat, init) + ";\n") + pat;
    assert head + (Joined(st) + "," + row) == (head + Joined(st)) + "," + row;
    assert Flatten(init) + (st + [row]) == (Flatten(init) + st) + [row];
  }

  lemma GreedyExtend(pat: string, init: seq<Statement>, st: Statement, row: string, limit: nat)
    requires st != [] && Greedy(pat, init + [st], limit)
    ensures Greedy(pat, init + [st + [row]], limit)
  {
    var (a, b) := (init + [st], init + [st + [row]]);
    forall i | 0 < i < |b| && b[i] != [] ensures Counted(pat, b[i - 1]) + 2 + |b[i][0]| >= limit {
      assert b[i - 1] == a[i - 1] && b[i][0] == a[i][0] && a[i] != [];
    }
  }

  /** A row opens a new statement. */
  lemma OpenNew(pat: string, sts: seq<Statement>, row: string, limit: nat)
    requires Greedy(pat, sts, limit) && (sts != [] ==> Counted(pat, sts[|sts| - 1]) + 2 + |row| >= limit)
    ensures var sts' := sts + [[row]];
            && OpenText(pat, sts') == (if sts == [] then "" else OpenText(pat, sts) + ";\n") + pat + row
            && Flatten(sts') == Flatten(sts) + [row]
            && Counted(pat, [row]) == 2 + |row| + |pat| + 4
            && Packed(pat, [row], limit) && Greedy(pat, sts', limit)
  {
    var sts' := sts + [[row]];
    assert sts'[..|sts|] == sts;
    assert [row][..0] == [];
    assert Size([row]) == Size([]) + 2 + |row|;
  }

  /** Terminating the last statement gives the statements one after the other. */
  lemma {:induction false} CloseLast(pat: string, sts: seq<Statement>)
    ensures AllText(pat, sts) == if sts == [] then "" else OpenText(pat, sts) + ";\n"
  {
    if |sts| > 1 {
      CloseLast(pat, sts[..|sts| - 1]);
    }
  }
}
