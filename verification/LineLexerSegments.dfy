/** What a line means, piece by piece: plain text, strings and comments. Each piece is
    described by its characters, in words of its own and not by the lexer's tests, and what
    it yields is written out; the lexer is proved to do just that. */
module LineLexerSegments {
  import opened LineLexer

  // ------------------------------------------------------------- the alphabet

  ghost predicate Quote(c: char) {
    c == '\'' || c == '"' || c == '`'
  }

  /** Punctuation is no space, and no multi-byte character starts with one. */
  ghost predicate Sane(env: Env) {
    && (forall c :: c in "/*'\"`\\#-" ==> !env.isSpace(c))
    && (forall text: string :: text != "" && env.isSpace(text[0]) ==> env.mb(text) == 0)
  }

  ghost predicate At(line: string, i: nat, a: char, b: char) {
    i + 1 < |line| && line[i] == a && line[i + 1] == b
  }

  /** The delimiter starts at i. */
  ghost predicate Delimits(line: string, i: nat, delim: string) {
    i + |delim| <= |line| && forall j :: 0 <= j < |delim| ==> line[i + j] == delim[j]
  }

  /** A comment that the client drops starts at i. */
  ghost predicate Opens(line: string, i: nat) {
    At(line, i, '/', '*') && Ch(line, i + 2) != '!' && !(Ch(line, i + 2) == 'M' && Ch(line, i + 3) == '!')
  }

  /** A server-side comment starts at i. */
  ghost predicate ServerOpens(line: string, i: nat) {
    At(line, i, '/', '*') && Ch(line, i + 2) == '!'
  }

  /** A comment to the end of the line starts at i. */
  ghost predicate Remark(env: Env, line: string, i: nat) {
    Ch(line, i) == '#' || (At(line, i, '-', '-') && (env.isSpace(Ch(line, i + 2)) || Ch(line, i + 2) == '\0'))
  }

  /** Nothing special starts at i. */
  ghost predicate PlainAt(env: Env, line: string, i: nat, delim: string) {
    i < |line| && line[i] != '\\' && !Quote(line[i])
    && !Remark(env, line, i) && !Opens(line, i) && !ServerOpens(line, i) && !Delimits(line, i, delim)
  }

  /** No multi-byte character starts at i. */
  ghost predicate Narrow(env: Env, line: string, len: nat, i: nat) {
    i <= len <= |line| && env.mb(line[i..len]) == 0
  }

  /** The number of bytes of the character at i. */
  ghost function Width(env: Env, line: string, len: nat, i: nat): (n: nat)
    requires i <= len <= |line|
    ensures n > 0
  {
    if env.mb(line[i..len]) == 0 then 1 else env.mb(line[i..len])
  }

  // --------------------------------------------------------------- where we are

  /** Outside strings and the client's comments. */
  ghost predicate Outside(s: State) {
    s.inString == '\0' && !s.ml
  }

  /** Nothing of a statement has been seen. */
  ghost predicate Nothing(s: State) {
    s.buffer == "" && s.out == ""
  }

  /** A leading space would be skipped here. */
  ghost predicate Skips(env: Env, line: string, s: State) {
    !env.preserve && Nothing(s) && env.isSpace(Ch(line, s.pos))
  }

  /** Two dashes start a comment here, whatever follows them. */
  ghost predicate Dashes(line: string, s: State) {
    Nothing(s) && At(line, s.pos, '-', '-')
  }

  /** Marks that nothing depends on: they keep the loop from being unrolled in proofs that
      only chain facts about it. */
  predicate Mark(k: nat) {
    k >= 0
  }

  ghost predicate GoesMarked(env: Env, line: string, len: nat, s: State, s': State, mark: nat) {
    && LineOk(line, len) && s.pos <= len && DelimOk(s.delim) && s'.pos <= len && DelimOk(s'.delim)
    && forall k: nat {:trigger Mark(k)} :: Mark(k) && k > mark ==> Run(env, line, len, s) == Run(env, line, len, s')
  }

  /** The loop gets from s to s'. */
  ghost predicate Goes(env: Env, line: string, len: nat, s: State, s': State) {
    exists mark: nat :: GoesMarked(env, line, len, s, s', mark)
  }

  lemma GoesIs(env: Env, line: string, len: nat, s: State, s': State)
    requires Goes(env, line, len, s, s')
    ensures LineOk(line, len) && s.pos <= len && DelimOk(s.delim) && s'.pos <= len && DelimOk(s'.delim)
    ensures Run(env, line, len, s) == Run(env, line, len, s')
  {
    var mark: nat :| GoesMarked(env, line, len, s, s', mark);
    assert Mark(mark + 1);
  }

  lemma IsGoes(env: Env, line: string, len: nat, s: State, s': State)
    requires LineOk(line, len) && s.pos <= len && DelimOk(s.delim) && s'.pos <= len && DelimOk(s'.delim)
    requires Run(env, line, len, s) == Run(env, line, len, s')
    ensures Goes(env, line, len, s, s')
  {
    assert GoesMarked(env, line, len, s, s', 0);
  }

  lemma GoesSelf(env: Env, line: string, len: nat, s: State)
    requires LineOk(line, len) && s.pos <= len && DelimOk(s.delim)
    ensures Goes(env, line, len, s, s)
  {
    IsGoes(env, line, len, s, s);
  }

  lemma GoesOn(env: Env, line: string, len: nat, s: State, s1: State, s2: State)
    requires Goes(env, line, len, s, s1) && Goes(env, line, len, s1, s2)
    ensures Goes(env, line, len, s, s2)
  {
    GoesIs(env, line, len, s, s1);
    GoesIs(env, line, len, s1, s2);
    IsGoes(env, line, len, s, s2);
  }

  /** The space that a comment owes in front of c. */
  function Owed(env: Env, s: State, c: char): string {
    if s.needSpace && !env.isSpace(c) then " " else ""
  }

  /** Text accepted as it stands, up to position end. */
  ghost function Accepted(env: Env, line: string, s: State, end: nat): State
    requires s.pos < end <= |line|
  {
    s.(pos := end, needSpace := false, out := s.out + Owed(env, s, line[s.pos]) + line[s.pos..end])
  }

  lemma AcceptedSome(env: Env, line: string, s: State, end: nat)
    requires s.pos < end <= |line|
    ensures |Accepted(env, line, s, end).out| > 0 && !Nothing(Accepted(env, line, s, end))
  {
  }

  lemma OneChar(line: string, i: nat)
    requires i < |line|
    ensures line[i..i + 1] == [line[i]]
  {
  }

  lemma RunMore(env: Env, line: string, len: nat, s: State, s1: State)
    requires LineOk(line, len) && s.pos < len && DelimOk(s.delim) && Step(env, line, len, s) == More(s1)
    requires s.pos < s1.pos <= len && DelimOk(s1.delim)
    ensures Goes(env, line, len, s, s1)
  {
    IsGoes(env, line, len, s, s1);
  }

  lemma StepIsChar(env: Env, line: string, len: nat, s: State)
    requires LineOk(line, len) && s.pos < len && DelimOk(s.delim) && !Skips(env, line, s) && Narrow(env, line, len, s.pos)
    ensures Step(env, line, len, s) == CharStep(env, line, s)
  {
  }

  // ------------------------------------------------------------------ plain text

  /** No server-side comment ends at i. */
  ghost predicate SameSide(line: string, i: nat, ss: bool) {
    !(ss && At(line, i, '*', '/'))
  }

  lemma PlainChar(env: Env, line: string, s: State)
    requires Outside(s) && PlainAt(env, line, s.pos, s.delim) && SameSide(line, s.pos, s.ss) && !Dashes(line, s)
    ensures CharStep(env, line, s) ==
      More(s.(pos := s.pos + 1, needSpace := false, out := s.out + Owed(env, s, line[s.pos]) + [line[s.pos]]))
  {
    assert !PrefixAt(line, s.pos, s.delim);
  }

  /** One plain character, of one byte or of more; a space that is owed is written in front
      of a character of one byte only. */
  lemma PlainOne(env: Env, line: string, len: nat, s: State)
    requires LineOk(line, len) && EnvOk(env) && DelimOk(s.delim) && s.pos < len && Outside(s) && !Skips(env, line, s)
    requires Narrow(env, line, len, s.pos) ==> PlainAt(env, line, s.pos, s.delim) && SameSide(line, s.pos, s.ss)
    requires (s.needSpace ==> Narrow(env, line, len, s.pos)) && !Dashes(line, s)
    ensures s.pos + Width(env, line, len, s.pos) <= len
    ensures Goes(env, line, len, s, Accepted(env, line, s, s.pos + Width(env, line, len, s.pos)))
  {
    var n := env.mb(line[s.pos..len]);
    if n == 0 {
      StepIsChar(env, line, len, s);
      PlainChar(env, line, s);
      OneChar(line, s.pos);
      RunMore(env, line, len, s, Accepted(env, line, s, s.pos + 1));
    } else {
      assert Owed(env, s, line[s.pos]) == "" && s.out + "" == s.out;
      RunMore(env, line, len, s, Accepted(env, line, s, s.pos + n));
    }
  }

  lemma AcceptedTwice(env: Env, line: string, s: State, p: nat, end: nat)
    requires s.pos < p < end <= |line|
    ensures Accepted(env, line, Accepted(env, line, s, p), end) == Accepted(env, line, s, end)
  {
    var glue := Owed(env, s, line[s.pos]);
    assert line[s.pos..end] == line[s.pos..p] + line[p..end];
    assert s.out + glue + line[s.pos..end] == (s.out + glue + line[s.pos..p]) + "" + line[p..end];
  }

  lemma AcceptedOn(env: Env, line: string, len: nat, s: State, s1: State, end: nat)
    requires s.pos < s1.pos < end <= |line| && s1 == Accepted(env, line, s, s1.pos)
    requires Goes(env, line, len, s, s1) && Goes(env, line, len, s1, Accepted(env, line, s1, end))
    ensures Goes(env, line, len, s, Accepted(env, line, s, end))
  {
    AcceptedTwice(env, line, s, s1.pos, end);
    GoesOn(env, line, len, s, s1, Accepted(env, line, s1, end));
  }

  /** Characters from one position to another, the ones of one byte with nothing special
      in them. */
  ghost predicate PlainText(env: Env, line: string, len: nat, from: nat, end: nat, delim: string, ss: bool)
    decreases end - from
  {
    && from <= end <= len < |line|
    && (from < end ==>
          && (Narrow(env, line, len, from) ==> PlainAt(env, line, from, delim) && SameSide(line, from, ss))
          && from + Width(env, line, len, from) <= end
          && PlainText(env, line, len, from + Width(env, line, len, from), end, delim, ss))
  }

  /** From s on, plain text up to end. */
  ghost predicate PlainFrom(env: Env, line: string, len: nat, s: State, end: nat) {
    && LineOk(line, len) && EnvOk(env) && DelimOk(s.delim) && Outside(s) && s.pos < end
    && PlainText(env, line, len, s.pos, end, s.delim, s.ss)
    && !Skips(env, line, s) && !Dashes(line, s) && (s.needSpace ==> Narrow(env, line, len, s.pos))
  }

  lemma PlainNext(env: Env, line: string, len: nat, s: State, end: nat) returns (s1: State)
    requires PlainFrom(env, line, len, s, end)
    ensures s.pos < s1.pos <= end && s1 == Accepted(env, line, s, s1.pos) && Goes(env, line, len, s, s1)
    ensures s1.pos < end ==> PlainFrom(env, line, len, s1, end)
  {
    PlainOne(env, line, len, s);
    s1 := Accepted(env, line, s, s.pos + Width(env, line, len, s.pos));
    AcceptedSome(env, line, s, s1.pos);
  }

  /** Plain text is accepted as it stands, after the space a comment owes. */
  lemma {:induction false} PlainGoes(env: Env, line: string, len: nat, s: State, end: nat)
    requires PlainFrom(env, line, len, s, end)
    ensures Goes(env, line, len, s, Accepted(env, line, s, end))
    decreases end - s.pos
  {
    var s1 := PlainNext(env, line, len, s, end);
    if s1.pos < end {
      PlainGoes(env, line, len, s1, end);
      AcceptedOn(env, line, len, s, s1, end);
    }
  }

  /** A multi-byte character outside dropped comments is accepted as it stands; a space that
      is owed stays owed. */
  ghost function WideAccepted(env: Env, line: string, len: nat, s: State): State
    requires EnvOk(env) && s.pos <= len <= |line|
  {
    var end := s.pos + env.mb(line[s.pos..len]);
    s.(pos := end, out := s.out + line[s.pos..end])
  }

  lemma WideGoes(env: Env, line: string, len: nat, s: State)
    requires LineOk(line, len) && EnvOk(env) && DelimOk(s.delim) && s.pos < len && !Skips(env, line, s)
    requires !Narrow(env, line, len, s.pos) && (!s.ml || env.preserve)
    ensures Goes(env, line, len, s, WideAccepted(env, line, len, s))
  {
    RunMore(env, line, len, s, WideAccepted(env, line, len, s));
  }

  /** Spaces in front of a statement are skipped. */
  lemma {:induction false} LeadGoes(env: Env, line: string, len: nat, s: State, end: nat)
    requires LineOk(line, len) && DelimOk(s.delim) && s.pos <= end <= len && !env.preserve && Nothing(s)
    requires forall i :: s.pos <= i < end ==> env.isSpace(line[i])
    ensures Goes(env, line, len, s, s.(pos := end))
    decreases end - s.pos
  {
    if s.pos == end {
      GoesSelf(env, line, len, s);
    } else {
      var s1 := s.(pos := s.pos + 1);
      RunMore(env, line, len, s, s1);
      LeadGoes(env, line, len, s1, end);
      GoesOn(env, line, len, s, s1, s.(pos := end));
    }
  }

  // ---------------------------------------------------------------------- strings

  /** The text of a string quoted by q: multi-byte characters, escapes where the server
      has them, and anything else but the quote. */
  ghost predicate StringBody(env: Env, line: string, len: nat, from: nat, end: nat, q: char, escapes: bool)
    decreases end - from
  {
    && from <= end <= len < |line|
    && (from < end ==>
          if Narrow(env, line, len, from) && escapes && line[from] == '\\' then
            from + 2 <= end && line[from + 1] != '\0' && StringBody(env, line, len, from + 2, end, q, escapes)
          else
            && (Narrow(env, line, len, from) ==> line[from] != q)
            && from + Width(env, line, len, from) <= end
            && StringBody(env, line, len, from + Width(env, line, len, from), end, q, escapes))
  }

  ghost predicate Escapes(env: Env, s: State) {
    !env.noBackslash(|s.calls|)
  }

  /** A string, from its quote to the same quote. */
  ghost predicate StringText(env: Env, line: string, len: nat, s: State, end: nat) {
    && s.pos + 2 <= end <= len < |line| && Quote(line[s.pos]) && line[end - 1] == line[s.pos]
    && !Delimits(line, s.pos, s.delim) && Narrow(env, line, len, s.pos) && Narrow(env, line, len, end - 1)
    && StringBody(env, line, len, s.pos + 1, end - 1, line[s.pos], Escapes(env, s))
  }

  lemma QuoteChar(env: Env, line: string, s: State)
    requires Outside(s) && s.pos < |line| && Quote(line[s.pos]) && !Delimits(line, s.pos, s.delim)
    ensures CharStep(env, line, s) ==
      More(s.(pos := s.pos + 1, needSpace := false, inString := line[s.pos],
              out := s.out + Owed(env, s, line[s.pos]) + [line[s.pos]]))
  {
    assert !PrefixAt(line, s.pos, s.delim);
  }

  lemma StringChar(env: Env, line: string, s: State)
    requires s.inString != '\0' && !s.ml && !s.needSpace && s.pos < |line|
    requires !(Escapes(env, s) && line[s.pos] == '\\')
    ensures CharStep(env, line, s) ==
      More(s.(pos := s.pos + 1, out := s.out + [line[s.pos]],
              inString := if line[s.pos] == s.inString then '\0' else s.inString))
  {
    assert s.out + "" + [line[s.pos]] == s.out + [line[s.pos]];
  }

  lemma EscapeChar(env: Env, line: string, s: State)
    requires s.inString != '\0' && !s.ml && Escapes(env, s) && s.pos + 1 < |line|
    requires line[s.pos] == '\\' && line[s.pos + 1] != '\0'
    ensures CharStep(env, line, s) == More(s.(pos := s.pos + 2, out := s.out + line[s.pos..s.pos + 2]))
  {
    assert line[s.pos..s.pos + 2] == ['\\', line[s.pos + 1]];
  }

  /** Inside a string, with something of the statement seen. */
  ghost predicate Quoting(s: State) {
    s.inString != '\0' && !s.ml && !s.needSpace && !Nothing(s)
  }

  /** More of a string's text. */
  ghost function Quoted(line: string, s: State, end: nat): State
    requires s.pos <= end <= |line|
  {
    s.(pos := end, out := s.out + line[s.pos..end])
  }

  /** From s on, a string's text up to end. */
  ghost predicate QuotedFrom(env: Env, line: string, len: nat, s: State, end: nat) {
    && LineOk(line, len) && EnvOk(env) && DelimOk(s.delim) && Quoting(s)
    && StringBody(env, line, len, s.pos, end, s.inString, Escapes(env, s))
  }

  /** Where the next character or escape of a string ends. */
  ghost function QuotedEnd(env: Env, line: string, len: nat, s: State): (p: nat)
    requires s.pos <= len < |line|
    ensures s.pos < p
  {
    s.pos + if Narrow(env, line, len, s.pos) && Escapes(env, s) && line[s.pos] == '\\' then 2 else Width(env, line, len, s.pos)
  }

  lemma StringStep(env: Env, line: string, len: nat, s: State, end: nat)
    requires QuotedFrom(env, line, len, s, end) && s.pos < end
    ensures QuotedEnd(env, line, len, s) <= end
    ensures Step(env, line, len, s) == More(Quoted(line, s, QuotedEnd(env, line, len, s)))
  {
    if Narrow(env, line, len, s.pos) {
      StepIsChar(env, line, len, s);
      if Escapes(env, s) && line[s.pos] == '\\' {
        EscapeChar(env, line, s);
      } else {
        StringChar(env, line, s);
        OneChar(line, s.pos);
      }
    }
  }

  lemma StringOne(env: Env, line: string, len: nat, s: State, end: nat) returns (s1: State)
    requires QuotedFrom(env, line, len, s, end) && s.pos < end
    ensures s.pos < s1.pos <= end && s1 == Quoted(line, s, s1.pos) && Goes(env, line, len, s, s1)
    ensures QuotedFrom(env, line, len, s1, end)
  {
    var p := QuotedEnd(env, line, len, s);
    s1 := Quoted(line, s, p);
    StringStep(env, line, len, s, end);
    RunMore(env, line, len, s, s1);
  }

  lemma QuotedTwice(line: string, s: State, p: nat, end: nat)
    requires s.pos <= p <= end <= |line|
    ensures Quoted(line, Quoted(line, s, p), end) == Quoted(line, s, end)
  {
    assert line[s.pos..end] == line[s.pos..p] + line[p..end];
    assert s.out + line[s.pos..end] == (s.out + line[s.pos..p]) + line[p..end];
  }

  lemma QuotedOn(env: Env, line: string, len: nat, s: State, s1: State, end: nat)
    requires s.pos <= s1.pos <= end <= |line| && s1 == Quoted(line, s, s1.pos)
    requires Goes(env, line, len, s, s1) && Goes(env, line, len, s1, Quoted(line, s1, end))
    ensures Goes(env, line, len, s, Quoted(line, s, end))
  {
    QuotedTwice(line, s, s1.pos, end);
    GoesOn(env, line, len, s, s1, Quoted(line, s1, end));
  }

  lemma {:induction false} InsideString(env: Env, line: string, len: nat, s: State, end: nat)
    requires QuotedFrom(env, line, len, s, end)
    ensures Goes(env, line, len, s, Quoted(line, s, end))
    decreases end - s.pos
  {
    if s.pos == end {
      assert s.out + line[s.pos..end] == s.out;
      GoesSelf(env, line, len, s);
    } else {
      var s1 := StringOne(env, line, len, s, end);
      InsideString(env, line, len, s1, end);
      QuotedOn(env, line, len, s, s1, end);
    }
  }

  ghost function StringOpened(env: Env, line: string, s: State): State
    requires s.pos < |line|
  {
    Accepted(env, line, s, s.pos + 1).(inString := line[s.pos])
  }

  lemma OpenString(env: Env, line: string, len: nat, s: State)
    requires LineOk(line, len) && EnvOk(env) && Sane(env) && DelimOk(s.delim) && Outside(s) && s.pos < len
    requires Quote(line[s.pos]) && !Delimits(line, s.pos, s.delim) && Narrow(env, line, len, s.pos)
    ensures Goes(env, line, len, s, StringOpened(env, line, s)) && Quoting(StringOpened(env, line, s))
  {
    StepIsChar(env, line, len, s);
    QuoteChar(env, line, s);
    OneChar(line, s.pos);
    RunMore(env, line, len, s, StringOpened(env, line, s));
    AcceptedSome(env, line, s, s.pos + 1);
  }

  lemma CloseString(env: Env, line: string, len: nat, s: State)
    requires LineOk(line, len) && EnvOk(env) && DelimOk(s.delim) && Quoting(s) && s.pos < len
    requires line[s.pos] == s.inString && line[s.pos] != '\\' && Narrow(env, line, len, s.pos)
    ensures Goes(env, line, len, s, Quoted(line, s, s.pos + 1).(inString := '\0'))
  {
    StepIsChar(env, line, len, s);
    StringChar(env, line, s);
    OneChar(line, s.pos);
    RunMore(env, line, len, s, Quoted(line, s, s.pos + 1).(inString := '\0'));
  }

  /** The rest of an open string, up to its closing quote. */
  lemma StringRest(env: Env, line: string, len: nat, s: State, end: nat)
    requires s.pos < end <= len && QuotedFrom(env, line, len, s, end - 1) && Quote(s.inString)
    requires line[end - 1] == s.inString && Narrow(env, line, len, end - 1)
    ensures Goes(env, line, len, s, Quoted(line, s, end).(inString := '\0'))
  {
    var s1 := Quoted(line, s, end - 1);
    InsideString(env, line, len, s, end - 1);
    assert s1.buffer == "" && s1.out == "" ==> s.out == "";
    CloseString(env, line, len, s1);
    QuotedTwice(line, s, end - 1, end);
    GoesOn(env, line, len, s, s1, Quoted(line, s1, end).(inString := '\0'));
  }

  lemma WholeString(env: Env, line: string, s: State, end: nat)
    requires s.pos + 1 < end <= |line| && s.inString == '\0'
    ensures Quoted(line, StringOpened(env, line, s), end).(inString := '\0') == Accepted(env, line, s, end)
  {
    var glue := Owed(env, s, line[s.pos]);
    assert line[s.pos..end] == line[s.pos..s.pos + 1] + line[s.pos + 1..end];
    assert s.out + glue + line[s.pos..end] == (s.out + glue + line[s.pos..s.pos + 1]) + line[s.pos + 1..end];
  }

  /** A string is accepted as it stands, quotes included. */
  lemma StringGoes(env: Env, line: string, len: nat, s: State, end: nat)
    requires LineOk(line, len) && EnvOk(env) && Sane(env) && DelimOk(s.delim) && Outside(s)
    requires StringText(env, line, len, s, end)
    ensures Goes(env, line, len, s, Accepted(env, line, s, end))
  {
    var s1 := StringOpened(env, line, s);
    OpenString(env, line, len, s);
    StringRest(env, line, len, s1, end);
    WholeString(env, line, s, end);
    GoesOn(env, line, len, s, s1, Accepted(env, line, s, end));
  }

  // --------------------------------------------------------------------- comments

  /** Inside a comment that is being dropped. */
  ghost predicate Dropping(env: Env, s: State) {
    s.inString == '\0' && s.ml && s.out == "" && !env.preserve
  }

  /** A comment's text: multi-byte characters, the two characters that start a comment,
      and anything else but a comment's end and the start of a server-side comment. */
  ghost predicate CommentText(env: Env, line: string, len: nat, from: nat, end: nat)
    decreases end - from
  {
    && from <= end <= len < |line|
    && (from < end ==>
          if Narrow(env, line, len, from) && Opens(line, from) then
            from + 2 <= end && CommentText(env, line, len, from + 2, end)
          else
            && (Narrow(env, line, len, from) ==> !At(line, from, '*', '/') && !ServerOpens(line, from))
            && from + Width(env, line, len, from) <= end
            && CommentText(env, line, len, from + Width(env, line, len, from), end))
  }

  lemma DropChar(env: Env, line: string, s: State)
    requires Dropping(env, s) && s.pos < |line| && !(At(line, s.pos, '*', '/') && !s.ss)
    ensures CharStep(env, line, s) ==
      if Opens(line, s.pos) then More(s.(pos := s.pos + 2))
      else More(s.(pos := s.pos + 1,
                   ss := if ServerOpens(line, s.pos) then true
                         else if At(line, s.pos, '*', '/') then false else s.ss))
  {
    assert s.buffer + "" == s.buffer;
    assert s.out + "" == s.out;
  }

  /** What a dropped character, or the start of a comment in the comment, leaves. */
  ghost function DropNext(env: Env, line: string, len: nat, s: State): State
    requires s.pos < len < |line|
  {
    if !Narrow(env, line, len, s.pos) then s.(pos := s.pos + Width(env, line, len, s.pos))
    else if Opens(line, s.pos) then s.(pos := s.pos + 2)
    else s.(pos := s.pos + 1,
            ss := if ServerOpens(line, s.pos) then true
                  else if At(line, s.pos, '*', '/') then false else s.ss)
  }

  lemma DropOne(env: Env, line: string, len: nat, s: State)
    requires LineOk(line, len) && EnvOk(env) && Sane(env) && DelimOk(s.delim) && Dropping(env, s)
    requires s.pos < len && !(Narrow(env, line, len, s.pos) && At(line, s.pos, '*', '/') && !s.ss)
    ensures s.pos < DropNext(env, line, len, s).pos <= len && Dropping(env, DropNext(env, line, len, s))
    ensures Goes(env, line, len, s, DropNext(env, line, len, s))
  {
    var s1 := DropNext(env, line, len, s);
    if Skips(env, line, s) {
      assert line[s.pos] != '/' && line[s.pos] != '*';
      assert line[s.pos..len][0] == line[s.pos];
    } else if Narrow(env, line, len, s.pos) {
      StepIsChar(env, line, len, s);
      DropChar(env, line, s);
      assert Opens(line, s.pos) ==> line[s.pos + 1] != '\0';
    }
    RunMore(env, line, len, s, s1);
  }

  lemma {:induction false} DropGoes(env: Env, line: string, len: nat, s: State, end: nat)
    requires LineOk(line, len) && EnvOk(env) && Sane(env) && DelimOk(s.delim) && Dropping(env, s) && !s.ss
    requires CommentText(env, line, len, s.pos, end)
    ensures Goes(env, line, len, s, s.(pos := end))
    decreases end - s.pos
  {
    if s.pos == end {
      GoesSelf(env, line, len, s);
    } else {
      var s1 := DropNext(env, line, len, s);
      DropOne(env, line, len, s);
      DropGoes(env, line, len, s1, end);
      GoesOn(env, line, len, s, s1, s.(pos := end));
    }
  }

  /** A comment, from its start to its end. */
  ghost predicate WholeComment(env: Env, line: string, len: nat, from: nat, end: nat, delim: string) {
    && from + 4 <= end <= len < |line| && Opens(line, from) && !Delimits(line, from, delim)
    && At(line, end - 2, '*', '/') && Narrow(env, line, len, from) && Narrow(env, line, len, end - 2)
  }

  /** After the two characters that open a comment, ... */
  ghost function Opened(env: Env, s: State): State {
    s.(pos := s.pos + 2, ml := true, buffer := s.buffer + (s.out + if env.preserve then "/*" else ""), out := "")
  }

  /** ... and after the two that close it. */
  ghost function Closed(env: Env, s: State): State {
    s.(pos := s.pos + 2, ml := false, needSpace := true,
       buffer := s.buffer + (s.out + if env.preserve then "*/" else ""), out := "")
  }

  lemma OpenChar(env: Env, line: string, s: State)
    requires s.inString == '\0' && Opens(line, s.pos) && (s.ml || !Delimits(line, s.pos, s.delim))
    ensures CharStep(env, line, s) == More(Opened(env, s))
  {
    assert !s.ml ==> !PrefixAt(line, s.pos, s.delim);
  }

  lemma OpenComment(env: Env, line: string, len: nat, s: State)
    requires LineOk(line, len) && EnvOk(env) && Sane(env) && DelimOk(s.delim) && s.inString == '\0' && s.pos + 2 <= len
    requires Opens(line, s.pos) && (s.ml || !Delimits(line, s.pos, s.delim)) && Narrow(env, line, len, s.pos)
    ensures Goes(env, line, len, s, Opened(env, s))
  {
    StepIsChar(env, line, len, s);
    OpenChar(env, line, s);
    RunMore(env, line, len, s, Opened(env, s));
  }

  lemma CloseChar(env: Env, line: string, s: State)
    requires s.inString == '\0' && s.ml && !s.ss && At(line, s.pos, '*', '/')
    ensures CharStep(env, line, s) == More(Closed(env, s))
  {
  }

  lemma CloseComment(env: Env, line: string, len: nat, s: State)
    requires LineOk(line, len) && EnvOk(env) && Sane(env) && DelimOk(s.delim) && s.pos + 2 <= len
    requires s.inString == '\0' && s.ml && !s.ss && At(line, s.pos, '*', '/') && Narrow(env, line, len, s.pos)
    ensures Goes(env, line, len, s, Closed(env, s))
  {
    StepIsChar(env, line, len, s);
    CloseChar(env, line, s);
    RunMore(env, line, len, s, Closed(env, s));
  }

  /** A dropped comment leaves a space to write. */
  ghost function Dropped(s: State, end: nat): State {
    s.(pos := end, needSpace := true, buffer := s.buffer + s.out, out := "")
  }

  lemma DroppedIs(env: Env, s: State, end: nat)
    requires !env.preserve && !s.ml && end >= 2
    ensures Closed(env, Opened(env, s).(pos := end - 2)) == Dropped(s, end)
  {
    assert s.out + "" == s.out && (s.buffer + s.out) + ("" + "") == s.buffer + s.out;
  }

  /** A comment is dropped, and a space is owed for it. */
  lemma CommentGoes(env: Env, line: string, len: nat, s: State, end: nat)
    requires LineOk(line, len) && EnvOk(env) && Sane(env) && DelimOk(s.delim) && Outside(s) && !s.ss && !env.preserve
    requires WholeComment(env, line, len, s.pos, end, s.delim) && CommentText(env, line, len, s.pos + 2, end - 2)
    ensures Goes(env, line, len, s, Dropped(s, end))
  {
    var s1 := Opened(env, s);
    var s2 := s1.(pos := end - 2);
    OpenComment(env, line, len, s);
    DropGoes(env, line, len, s1, end - 2);
    GoesOn(env, line, len, s, s1, s2);
    CloseComment(env, line, len, s2);
    GoesOn(env, line, len, s, s2, Closed(env, s2));
    DroppedIs(env, s, end);
  }

  // ------------------------------------------------------- comments that are kept

  /** A comment's text when comments are kept: no end and no start of a comment in it. */
  ghost predicate KeptText(env: Env, line: string, len: nat, from: nat, end: nat) {
    && from <= end <= len < |line|
    && forall i: nat :: from <= i < end ==> KeepHere(env, line, len, i)
  }

  ghost predicate KeepHere(env: Env, line: string, len: nat, i: nat) {
    Narrow(env, line, len, i) && !At(line, i, '*', '/') && !Opens(line, i) && !ServerOpens(line, i)
  }

  lemma KeepChar(env: Env, line: string, s: State)
    requires env.preserve && s.inString == '\0' && s.ml && s.pos < |line|
    requires !At(line, s.pos, '*', '/') && !Opens(line, s.pos) && !ServerOpens(line, s.pos)
    ensures CharStep(env, line, s) ==
      More(s.(pos := s.pos + 1, needSpace := false, out := s.out + Owed(env, s, line[s.pos]) + [line[s.pos]]))
  {
  }

  lemma {:induction false} KeepGoes(env: Env, line: string, len: nat, s: State, end: nat)
    requires LineOk(line, len) && EnvOk(env) && DelimOk(s.delim) && env.preserve && s.inString == '\0' && s.ml
    requires KeptText(env, line, len, s.pos, end) && s.pos < end
    ensures Goes(env, line, len, s, Accepted(env, line, s, end))
    decreases end - s.pos
  {
    var s1 := Accepted(env, line, s, s.pos + 1);
    assert KeepHere(env, line, len, s.pos);
    StepIsChar(env, line, len, s);
    KeepChar(env, line, s);
    OneChar(line, s.pos);
    RunMore(env, line, len, s, s1);
    if s.pos + 1 < end {
      KeepGoes(env, line, len, s1, end);
      AcceptedOn(env, line, len, s, s1, end);
    }
  }

  /** The text of a kept comment as it is accepted: a space that is still owed goes in
      front of it. */
  ghost function KeptBody(env: Env, line: string, s: State, end: nat): string
    requires s.pos <= end <= |line|
  {
    if s.pos == end then "" else Owed(env, s, line[s.pos]) + line[s.pos..end]
  }

  ghost function InKept(env: Env, line: string, s: State, end: nat): State
    requires s.pos <= end <= |line|
  {
    s.(pos := end, needSpace := s.needSpace && s.pos == end, out := KeptBody(env, line, s, end))
  }

  lemma KeptBodyGoes(env: Env, line: string, len: nat, s: State, end: nat)
    requires LineOk(line, len) && EnvOk(env) && DelimOk(s.delim) && env.preserve && s.inString == '\0' && s.ml
    requires s.out == "" && KeptText(env, line, len, s.pos, end)
    ensures Goes(env, line, len, s, InKept(env, line, s, end))
  {
    if s.pos < end {
      KeepGoes(env, line, len, s, end);
      assert "" + Owed(env, s, line[s.pos]) == Owed(env, s, line[s.pos]);
    } else {
      assert InKept(env, line, s, end) == s;
      GoesSelf(env, line, len, s);
    }
  }

  /** A kept comment goes to the buffer, and a space is owed all the same. */
  ghost function Kept(env: Env, line: string, s: State, end: nat): State
    requires s.pos + 4 <= end <= |line|
  {
    s.(pos := end, needSpace := true, out := "",
       buffer := s.buffer + s.out + "/*" + KeptBody(env, line, s.(pos := s.pos + 2), end - 2) + "*/")
  }

  lemma KeptIs(env: Env, line: string, s: State, end: nat)
    requires env.preserve && !s.ml && s.pos + 4 <= end <= |line|
    ensures Closed(env, InKept(env, line, Opened(env, s), end - 2)) == Kept(env, line, s, end)
  {
    var body := KeptBody(env, line, s.(pos := s.pos + 2), end - 2);
    assert KeptBody(env, line, Opened(env, s), end - 2) == body;
    assert (s.buffer + (s.out + "/*")) + (body + "*/") == s.buffer + s.out + "/*" + body + "*/";
  }

  lemma KeptCommentGoes(env: Env, line: string, len: nat, s: State, end: nat)
    requires LineOk(line, len) && EnvOk(env) && Sane(env) && DelimOk(s.delim) && Outside(s) && !s.ss && env.preserve
    requires WholeComment(env, line, len, s.pos, end, s.delim) && KeptText(env, line, len, s.pos + 2, end - 2)
    ensures Goes(env, line, len, s, Kept(env, line, s, end))
  {
    var s1 := Opened(env, s);
    var s2 := InKept(env, line, s1, end - 2);
    OpenComment(env, line, len, s);
    KeptBodyGoes(env, line, len, s1, end - 2);
    GoesOn(env, line, len, s, s1, s2);
    CloseComment(env, line, len, s2);
    GoesOn(env, line, len, s, s2, Closed(env, s2));
    KeptIs(env, line, s, end);
  }
}
