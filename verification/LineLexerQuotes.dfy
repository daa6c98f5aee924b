/** What the client's lexer promises about quoted text: nothing in a string is dropped,
    changed, executed or taken for a comment. */
module LineLexerQuotes {
  import opened LineLexer

  /** Reading inside an open string: no comment, no owed space, something accepted. */
  ghost predicate InString(s: State) {
    s.inString != '\0' && !s.ml && !s.needSpace && (s.out != "" || s.buffer != "")
  }

  /** Every open string is read like that. */
  ghost predicate StringsOk(s: State) {
    s.inString != '\0' ==> InString(s)
  }

  /** A string's text up to position p has been accepted as it stands; q is the open
      quote now. */
  ghost function Kept(line: string, s: State, p: nat, q: char): State {
    s.(pos := p, out := s.out + Between(line, s.pos, p), inString := q)
  }

  /** The line ends in the middle of an escape. */
  ghost predicate LoneBackslash(line: string, p: nat) {
    Ch(line, p) == '\\' && Ch(line, p + 1) == '\0'
  }

  lemma EscapeKept(env: Env, line: string, len: nat, s: State)
    requires LineOk(line, len) && s.pos < len && s.inString != '\0' && Ch(line, s.pos) == '\\'
    ensures BackslashStep(env, line, s) ==
      if LoneBackslash(line, s.pos) then Stop(s.(pos := s.pos + 1)) else More(Kept(line, s, s.pos + 2, s.inString))
    ensures !LoneBackslash(line, s.pos) ==> s.pos + 2 <= len
  {
    if !LoneBackslash(line, s.pos) {
      assert Between(line, s.pos, s.pos + 2) == [line[s.pos], line[s.pos + 1]];
    }
  }

  lemma PlainKept(env: Env, line: string, len: nat, s: State)
    requires LineOk(line, len) && s.pos < len && InString(s)
    ensures OtherStep(env, line, s) == Kept(line, s, s.pos + 1, if line[s.pos] == s.inString then '\0' else s.inString)
  {
    assert Between(line, s.pos, s.pos + 1) == [line[s.pos]];
    assert s.out + "" + [line[s.pos]] == s.out + [line[s.pos]];
  }

  /** One turn inside a string: the text goes through as it is, and the string ends
      only at its own quote; or the turn meets a lone backslash. */
  lemma StringStep(env: Env, line: string, len: nat, s: State)
    requires LineOk(line, len) && EnvOk(env) && s.pos < len && DelimOk(s.delim) && InString(s)
    ensures var o := Step(env, line, len, s);
            || (LoneBackslash(line, s.pos) && o == Stop(s.(pos := s.pos + 1)))
            || (s.pos < o.s.pos <= len && o == More(Kept(line, s, o.s.pos, s.inString)))
            || (o == More(Kept(line, s, s.pos + 1, '\0')) && line[s.pos] == s.inString)
  {
    var n := env.mb(line[s.pos..len]);
    assert n <= len - s.pos;
    if n == 0 {
      if KindAt(env, line, s) == Backslash {
        EscapeKept(env, line, len, s);
      } else {
        PlainKept(env, line, len, s);
      }
    }
  }

  lemma KeptTwice(line: string, s: State, p: nat, r: nat, q: char, q': char)
    requires s.pos <= p <= r <= |line|
    ensures Kept(line, Kept(line, s, p, q), r, q') == Kept(line, s, r, q')
  {
    assert line[s.pos..r] == line[s.pos..p] + line[p..r];
    assert s.out + line[s.pos..r] == (s.out + line[s.pos..p]) + line[p..r];
  }

  /** The run from s, which is inside a string, accepts the text up to p verbatim: p is
      just behind the closing quote, and lexing goes on from there outside the string; or
      the string stays open and p is the end of the line, or a lone backslash. */
  ghost predicate KeptUpTo(env: Env, line: string, len: nat, s: State, p: nat)
    requires LineOk(line, len) && s.pos <= len && DelimOk(s.delim)
  {
    var o := Run(env, line, len, s);
    && s.pos <= p <= len
    && (|| (s.pos < p && line[p - 1] == s.inString && o == Run(env, line, len, Kept(line, s, p, '\0')))
        || (p == len && o == Stop(Kept(line, s, p, s.inString)))
        || (p < len && LoneBackslash(line, p) && o == Stop(Kept(line, s, p, s.inString).(pos := p + 1))))
  }

  /** A turn that ends the string, or the loop. */
  lemma KeptByTurn(env: Env, line: string, len: nat, s: State, o: Outcome)
    requires LineOk(line, len) && s.pos < len && DelimOk(s.delim) && o == Step(env, line, len, s)
    requires || (o == More(Kept(line, s, s.pos + 1, '\0')) && line[s.pos] == s.inString)
             || (LoneBackslash(line, s.pos) && o == Stop(s.(pos := s.pos + 1)))
    ensures KeptUpTo(env, line, len, s, if o.More? then s.pos + 1 else s.pos)
  {
    assert s.out + Between(line, s.pos, s.pos) == s.out;
  }

  lemma KeptFurther(env: Env, line: string, len: nat, s: State, r: nat, p: nat)
    requires LineOk(line, len) && s.pos < r <= len && DelimOk(s.delim)
    requires Step(env, line, len, s) == More(Kept(line, s, r, s.inString))
    requires KeptUpTo(env, line, len, Kept(line, s, r, s.inString), p)
    ensures KeptUpTo(env, line, len, s, p)
  {
    KeptTwice(line, s, r, p, s.inString, s.inString);
    KeptTwice(line, s, r, p, s.inString, '\0');
  }

  /** For every line and every state inside a string, up to some position the text is
      accepted as it stands, with nothing executed and nothing skipped; what is lost, if
      anything, is one backslash at the very end. */
  lemma {:induction false} StringVerbatim(env: Env, line: string, len: nat, s: State) returns (p: nat)
    requires LineOk(line, len) && EnvOk(env) && s.pos <= len && DelimOk(s.delim) && InString(s)
    ensures KeptUpTo(env, line, len, s, p)
    decreases len - s.pos
  {
    p := s.pos;
    if s.pos == len {
      assert s.out + Between(line, s.pos, s.pos) == s.out;
    } else {
      StringStep(env, line, len, s);
      var o := Step(env, line, len, s);
      var s1 := Kept(line, s, o.s.pos, s.inString);
      if o == More(s1) {
        p := StringVerbatim(env, line, len, s1);
        KeptFurther(env, line, len, s, o.s.pos, p);
      } else {
        KeptByTurn(env, line, len, s, o);
        p := if o.More? then s.pos + 1 else s.pos;
      }
    }
  }

  // ---------------------------------------------------- every line of a session

  lemma StringsKept(env: Env, line: string, len: nat, s: State)
    requires LineOk(line, len) && EnvOk(env) && s.pos < len && DelimOk(s.delim) && StringsOk(s)
    ensures var o := Step(env, line, len, s);
            StringsOk(o.s) && (o.Quit? ==> o.s.inString == '\0')
  {
    if s.inString != '\0' {
      StringStep(env, line, len, s);
    } else {
      OutsideString(env, line, len, s);
    }
  }

  lemma OutsideString(env: Env, line: string, len: nat, s: State)
    requires LineOk(line, len) && s.pos < len && DelimOk(s.delim) && s.inString == '\0'
    ensures var o := Step(env, line, len, s);
            StringsOk(o.s) && (o.Quit? ==> o.s.inString == '\0')
  {
  }

  /** The loop comes by state s on its way from s0. */
  ghost predicate Passes(env: Env, line: string, len: nat, s0: State, s: State)
    requires LineOk(line, len) && s0.pos <= len && DelimOk(s0.delim)
    decreases len - s0.pos
  {
    s == s0 ||
    (s0.pos < len &&
     var o := Step(env, line, len, s0);
     o.More? && s0.pos < o.s.pos <= len && DelimOk(o.s.delim) && Passes(env, line, len, o.s, s))
  }

  lemma {:induction false} PassesOk(env: Env, line: string, len: nat, s0: State, s: State)
    requires LineOk(line, len) && EnvOk(env) && s0.pos <= len && DelimOk(s0.delim) && StringsOk(s0)
    requires Passes(env, line, len, s0, s)
    ensures s.pos <= len && DelimOk(s.delim) && StringsOk(s) && Run(env, line, len, s0) == Run(env, line, len, s)
    decreases len - s0.pos
  {
    if s != s0 {
      StringsKept(env, line, len, s0);
      PassesOk(env, line, len, Step(env, line, len, s0).s, s);
    }
  }

  /** What one line leaves for the next: an open string is not in a comment, and
      something of it is in the buffer. */
  ghost predicate Carried(buffer: string, inString: char, ml: bool) {
    inString != '\0' ==> buffer != "" && !ml
  }

  function StartState(buffer: string, inString: char, ml: bool, delim: string): State {
    State(0, "", buffer, inString, ml, false, false, delim, [])
  }

  /** Every string of every line, the one still open from earlier lines included, is
      accepted verbatim: wherever the loop stands inside a string. */
  lemma QuotedTextKept(env: Env, line: string, len: nat, buffer: string, inString: char, ml: bool, delim: string, s: State)
    returns (p: nat)
    requires LineOk(line, len) && EnvOk(env) && DelimOk(delim) && Carried(buffer, inString, ml)
    requires Passes(env, line, len, StartState(buffer, inString, ml, delim), s) && s.inString != '\0'
    ensures s.pos <= len && DelimOk(s.delim) && KeptUpTo(env, line, len, s, p)
    ensures Run(env, line, len, StartState(buffer, inString, ml, delim)) == Run(env, line, len, s)
  {
    PassesOk(env, line, len, StartState(buffer, inString, ml, delim), s);
    p := StringVerbatim(env, line, len, s);
  }

  lemma {:induction false} RunStringsOk(env: Env, line: string, len: nat, s: State)
    requires LineOk(line, len) && EnvOk(env) && s.pos <= len && DelimOk(s.delim) && StringsOk(s)
    ensures var o := Run(env, line, len, s);
            StringsOk(o.s) && (o.Quit? ==> o.s.inString == '\0')
    decreases len - s.pos
  {
    if s.pos < len {
      StringsKept(env, line, len, s);
      var o := Step(env, line, len, s);
      if o.More? && s.pos < o.s.pos <= len && DelimOk(o.s.delim) {
        RunStringsOk(env, line, len, o.s);
      }
    }
  }

  /** Each line of a session leaves what the next one's strings need; the first starts
      with no string open. */
  lemma SessionCarries(env: Env, line: string, len: nat, buffer: string, inString: char, ml: bool, delim: string,
                       truncated: bool)
    requires LineOk(line, len) && EnvOk(env) && DelimOk(delim) && Carried(buffer, inString, ml)
    ensures var r := AddLine(env, line, len, buffer, inString, ml, delim, truncated);
            Carried(r.buffer, r.inString, r.ml)
  {
    RunStringsOk(env, line, len, StartState(buffer, inString, ml, delim));
  }
}
