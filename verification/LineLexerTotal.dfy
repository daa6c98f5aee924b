/** Every line is made of pieces, so what a line means, told by its pieces, is exactly what
    the lexer does. */
module LineLexerTotal {
  import opened LineLexer
  import opened LineLexerSegments
  import opened LineLexerPieces
  import opened LineLexerLines

  // ----------------------------------------------------- reading ahead gets there

  lemma {:induction false} TextReaches(line: string, len: nat, i: nat) returns (z: nat)
    requires LineOk(line, len) && i <= len
    ensures TextTo(line, i, z) && z <= len
    decreases len - i
  {
    if line[i] == '\0' { z := i; } else { z := TextReaches(line, len, i + 1); }
  }

  lemma {:induction false} SpacesReach(env: Env, line: string, len: nat, i: nat) returns (r: nat)
    requires LineOk(line, len) && EnvOk(env) && i <= len
    ensures SpacesTo(env, line, i, r) && r <= len
    decreases len - i
  {
    if !env.isSpace(line[i]) { r := i; } else { r := SpacesReach(env, line, len, i + 1); }
  }

  lemma TailReaches(env: Env, line: string, len: nat, p: nat) returns (r: nat, end: nat)
    requires LineOk(line, len) && EnvOk(env) && p <= len
    ensures Tail(env, line, len, p, r, end)
  {
    if !env.preserve {
      r, end := p, p;
    } else {
      r := SpacesReach(env, line, len, p);
      if RemarkBehind(env, line, r) { end := TextReaches(line, len, r); } else { end := r; }
    }
  }

  /** A delimiter ends inside the line. */
  lemma DelimitsInside(line: string, len: nat, i: nat, delim: string)
    requires LineOk(line, len) && i <= len && DelimOk(delim) && Delimits(line, i, delim)
    ensures i + |delim| <= len
  {
    assert PrefixAt(line, i, delim);
    PrefixInside(line, len, i, delim);
  }

  lemma {:induction false} ParametersReach(line: string, len: nat, i: nat, ss: bool, delim: string) returns (d: nat, end: nat)
    requires LineOk(line, len) && i <= len && DelimOk(delim)
    ensures Parameters(line, i, ss, delim, d, end) && i <= end <= len
    decreases len - i
  {
    if line[i] == '\0' || (ss && At(line, i, '*', '/')) {
      d, end := i, i;
    } else if !ss && Delimits(line, i, delim) {
      DelimitsInside(line, len, i, delim);
      d, end := i, i + |delim|;
    } else {
      d, end := ParametersReach(line, len, i + 1, ss, delim);
    }
  }

  // ------------------------------------------------------------ there is a next piece

  /** What every line leaves to the next, and every piece to the next: an open string is no
      comment and has something before it, and inside a dropped comment nothing is pending. */
  ghost predicate Carried(env: Env, s: State) {
    && (s.inString != '\0' ==> Quote(s.inString) && Quoting(s))
    && (s.ml && !env.preserve ==> s.out == "")
  }

  ghost predicate Reading(env: Env, line: string, len: nat, s: State) {
    Around(env, line, len, s) && Carried(env, s)
  }

  datatype Next = Turn(piece: Piece, s: State) | Over(ending: Ending, o: Outcome)

  ghost predicate IsNext(env: Env, line: string, len: nat, s: State, next: Next) {
    match next
    case Turn(piece, s1) => Fits(env, line, len, piece, s, s1)
    case Over(ending, o) => Halts(env, line, len, ending, s, o)
  }

  /** One more piece fits, or the line is over. */
  ghost predicate GoesOnOrOver(env: Env, line: string, len: nat, s: State) {
    exists next :: IsNext(env, line, len, s, next)
  }

  lemma Turns(env: Env, line: string, len: nat, s: State, piece: Piece, s1: State)
    requires Fits(env, line, len, piece, s, s1)
    ensures GoesOnOrOver(env, line, len, s)
  {
    assert IsNext(env, line, len, s, Turn(piece, s1));
  }

  lemma IsOver(env: Env, line: string, len: nat, s: State, ending: Ending, o: Outcome)
    requires Halts(env, line, len, ending, s, o)
    ensures GoesOnOrOver(env, line, len, s)
  {
    assert IsNext(env, line, len, s, Over(ending, o));
  }

  lemma NextWide(env: Env, line: string, len: nat, s: State)
    requires Reading(env, line, len, s) && !Narrow(env, line, len, s.pos) && !Skips(env, line, s)
    ensures GoesOnOrOver(env, line, len, s)
  {
    if s.ml && !env.preserve {
      Turns(env, line, len, s, DroppedChar, DropNext(env, line, len, s));
    } else {
      Turns(env, line, len, s, WideChar, WideAccepted(env, line, len, s));
    }
  }

  lemma NextInString(env: Env, line: string, len: nat, s: State)
    requires Reading(env, line, len, s) && Narrow(env, line, len, s.pos) && s.inString != '\0'
    ensures GoesOnOrOver(env, line, len, s)
  {
    if line[s.pos] == s.inString {
      Turns(env, line, len, s, StringEnds, Quoted(line, s, s.pos + 1).(inString := '\0'));
    } else if Escapes(env, s) && line[s.pos] == '\\' {
      if line[s.pos + 1] == '\0' {
        IsOver(env, line, len, s, SlashOver, Stop(s.(pos := s.pos + 1)));
      } else {
        assert StringBody(env, line, len, s.pos + 2, s.pos + 2, s.inString, Escapes(env, s));
        Turns(env, line, len, s, StringPart, Quoted(line, s, s.pos + 2));
      }
    } else {
      assert StringBody(env, line, len, s.pos + 1, s.pos + 1, s.inString, Escapes(env, s));
      Turns(env, line, len, s, StringPart, Quoted(line, s, s.pos + 1));
    }
  }

  lemma NextInComment(env: Env, line: string, len: nat, s: State)
    requires Reading(env, line, len, s) && Narrow(env, line, len, s.pos) && s.inString == '\0' && s.ml
    ensures GoesOnOrOver(env, line, len, s)
  {
    if At(line, s.pos, '*', '/') && !s.ss {
      Turns(env, line, len, s, CommentEnds, Closed(env, s));
    } else if env.preserve {
      NextKept(env, line, len, s);
    } else {
      Turns(env, line, len, s, DroppedChar, DropNext(env, line, len, s));
    }
  }

  lemma NextKept(env: Env, line: string, len: nat, s: State)
    requires Reading(env, line, len, s) && Narrow(env, line, len, s.pos) && s.inString == '\0' && s.ml && env.preserve
    requires !(At(line, s.pos, '*', '/') && !s.ss)
    ensures GoesOnOrOver(env, line, len, s)
  {
    if Opens(line, s.pos) {
      Turns(env, line, len, s, CommentBegins, Opened(env, s));
    } else if ServerOpens(line, s.pos) {
      Turns(env, line, len, s, ServerBegins, Accepted(env, line, s, s.pos + 1).(ss := true));
    } else if At(line, s.pos, '*', '/') {
      Turns(env, line, len, s, ServerEnds, Accepted(env, line, s, s.pos + 1).(ss := false));
    } else {
      assert KeepHere(env, line, len, s.pos);
      Turns(env, line, len, s, KeptPart, Accepted(env, line, s, s.pos + 1));
    }
  }

  lemma NextSlash(env: Env, line: string, len: nat, s: State)
    requires Reading(env, line, len, s) && Slash(env, line, len, s)
    ensures GoesOnOrOver(env, line, len, s)
  {
    var c := line[s.pos + 1];
    if c == '\0' {
      IsOver(env, line, len, s, SlashOver, Stop(s.(pos := s.pos + 1)));
    } else if c != 'N' && env.command(c).Some? {
      NextCommand(env, line, len, s);
    } else if c != 'N' && env.reply(|s.calls|).quit {
      IsOver(env, line, len, s, PairQuits, Quit(s.(calls := s.calls + [Complain(c)])));
    } else {
      Turns(env, line, len, s, Pair, Escaped(line, s));
    }
  }

  lemma NextCommand(env: Env, line: string, len: nat, s: State)
    requires Reading(env, line, len, s) && Slash(env, line, len, s) && line[s.pos + 1] != '\0' && line[s.pos + 1] != 'N'
    requires env.command(line[s.pos + 1]).Some?
    ensures GoesOnOrOver(env, line, len, s)
  {
    var reply := env.reply(|s.calls|);
    var z := TextReaches(line, len, s.pos);
    var d, end := 0, s.pos + 2;
    if env.command(line[s.pos + 1]).value {
      d, end := ParametersReach(line, len, s.pos + 2, s.ss, reply.delim);
    }
    if reply.quit {
      IsOver(env, line, len, s, OrderQuits(z, d, end), Quit(Commanded(env, line, s, z, s.pos)));
    } else {
      Turns(env, line, len, s, Order(z, d), Commanded(env, line, s, z, end));
    }
  }

  lemma NextStatement(env: Env, line: string, len: nat, s: State)
    requires Reading(env, line, len, s) && Narrow(env, line, len, s.pos) && !Skips(env, line, s) && Outside(s)
    requires line[s.pos] != '\\' && Delimits(line, s.pos, s.delim)
    ensures GoesOnOrOver(env, line, len, s)
  {
    DelimitsInside(line, len, s.pos, s.delim);
    var r, end := TailReaches(env, line, len, s.pos + |s.delim|);
    var s1 := Executed(env, line, s, end);
    if env.reply(|s.calls|).quit {
      IsOver(env, line, len, s, StatementQuits(r, end), Quit(s1));
    } else {
      Turns(env, line, len, s, Statement(r), s1);
    }
  }

  /** Outside strings and comments, where no backslash and no delimiter is. */
  lemma NextText(env: Env, line: string, len: nat, s: State)
    requires Reading(env, line, len, s) && Narrow(env, line, len, s.pos) && !Skips(env, line, s) && Outside(s)
    requires line[s.pos] != '\\' && !Delimits(line, s.pos, s.delim)
    ensures GoesOnOrOver(env, line, len, s)
  {
    if Remark(env, line, s.pos) || Dashes(line, s) {
      var z := TextReaches(line, len, s.pos);
      IsOver(env, line, len, s, RemarkOver(z), Remarked(env, line, s, z));
    } else if Quote(line[s.pos]) {
      Turns(env, line, len, s, StringBegins, StringOpened(env, line, s));
    } else if Opens(line, s.pos) {
      Turns(env, line, len, s, CommentBegins, Opened(env, s));
    } else {
      NextPlain(env, line, len, s);
    }
  }

  lemma NextPlain(env: Env, line: string, len: nat, s: State)
    requires Reading(env, line, len, s) && Narrow(env, line, len, s.pos) && !Skips(env, line, s) && Outside(s)
    requires line[s.pos] != '\\' && !Delimits(line, s.pos, s.delim) && !Remark(env, line, s.pos) && !Dashes(line, s)
    requires !Quote(line[s.pos]) && !Opens(line, s.pos)
    ensures GoesOnOrOver(env, line, len, s)
  {
    if ServerOpens(line, s.pos) {
      Turns(env, line, len, s, ServerBegins, Accepted(env, line, s, s.pos + 1).(ss := true));
    } else if s.ss && At(line, s.pos, '*', '/') {
      Turns(env, line, len, s, ServerEnds, Accepted(env, line, s, s.pos + 1).(ss := false));
    } else {
      assert PlainText(env, line, len, s.pos + 1, s.pos + 1, s.delim, s.ss);
      Turns(env, line, len, s, Words, Accepted(env, line, s, s.pos + 1));
    }
  }

  /** Wherever the loop stands, there is a next piece or the line is over. */
  lemma NextPiece(env: Env, line: string, len: nat, s: State)
    requires Reading(env, line, len, s)
    ensures GoesOnOrOver(env, line, len, s)
  {
    if Skips(env, line, s) {
      Turns(env, line, len, s, Spaces, s.(pos := s.pos + 1));
    } else if !Narrow(env, line, len, s.pos) {
      NextWide(env, line, len, s);
    } else if s.inString != '\0' {
      NextInString(env, line, len, s);
    } else if s.ml {
      NextInComment(env, line, len, s);
    } else if line[s.pos] == '\\' {
      NextSlash(env, line, len, s);
    } else if Delimits(line, s.pos, s.delim) {
      NextStatement(env, line, len, s);
    } else {
      NextText(env, line, len, s);
    }
  }

  lemma FitsCarried(env: Env, line: string, len: nat, piece: Piece, s: State, s1: State)
    requires Fits(env, line, len, piece, s, s1) && Carried(env, s)
    ensures Carried(env, s1)
  {
  }

  // ------------------------------------------------------------------ every line

  /** The line is read as these pieces and ends like this. */
  ghost predicate Reads(env: Env, line: string, len: nat, s: State, pieces: seq<Piece>, run: seq<State>, ending: Ending, o: Outcome) {
    MadeOf(env, line, len, pieces, run) && run[0] == s && Halts(env, line, len, ending, run[|pieces|], o)
  }

  lemma ReadsMore(env: Env, line: string, len: nat, s: State, piece: Piece, pieces: seq<Piece>, run: seq<State>, ending: Ending, o: Outcome)
    requires run != [] && Reads(env, line, len, run[0], pieces, run, ending, o) && Fits(env, line, len, piece, s, run[0])
    ensures Reads(env, line, len, s, [piece] + pieces, [s] + run, ending, o)
  {
    var pieces', run' := [piece] + pieces, [s] + run;
    forall k | 0 <= k < |pieces'| ensures Fits(env, line, len, pieces'[k], run'[k], run'[k + 1]) {
      assert k > 0 ==> Fits(env, line, len, pieces[k - 1], run[k - 1], run[k]);
    }
  }

  lemma {:induction false} ReadsSome(env: Env, line: string, len: nat, s: State)
    returns (pieces: seq<Piece>, run: seq<State>, ending: Ending, o: Outcome)
    requires LineOk(line, len) && EnvOk(env) && Sane(env) && DelimOk(s.delim) && s.pos <= len && Carried(env, s)
    ensures Reads(env, line, len, s, pieces, run, ending, o) && Carried(env, run[|pieces|])
    decreases len - s.pos
  {
    if s.pos == len {
      pieces, run, ending, o := [], [s], LineOver, Stop(s);
    } else {
      NextPiece(env, line, len, s);
      var next :| IsNext(env, line, len, s, next);
      match next
      case Over(e, o') =>
        pieces, run, ending, o := [], [s], e, o';
      case Turn(piece, s1) =>
        FitsCarried(env, line, len, piece, s, s1);
        DelimStaysOk(env, line, len, piece, s, s1);
        pieces, run, ending, o := ReadsSome(env, line, len, s1);
        ReadsMore(env, line, len, s, piece, pieces, run, ending, o);
        pieces, run := [piece] + pieces, [s] + run;
    }
  }

  /** What a line means in a session: it is read as some pieces, and leaves what they yield;
      an empty line with nothing before it leaves everything as it is. */
  ghost predicate LineMeans(env: Env, line: string, len: nat, s: State, truncated: bool, result: Result) {
    if s.buffer == "" && line != "" && line[0] == '\0' then
      result == Result(false, "", s.inString, s.ml, s.delim, [])
    else
      exists pieces, run, ending, o ::
        Reads(env, line, len, s, pieces, run, ending, o) && result == LineLeaves(env, o, truncated)
  }

  /** The lexer does to every line exactly what the line means. */
  lemma LexerIsGrammar(env: Env, line: string, len: nat, s: State, truncated: bool, result: Result)
    requires LineOk(line, len) && EnvOk(env) && Sane(env) && DelimOk(s.delim)
    requires s == Start(s.buffer, s.inString, s.ml, s.delim) && Carried(env, s)
    ensures AddLine(env, line, len, s.buffer, s.inString, s.ml, s.delim, truncated) == result
       <==> LineMeans(env, line, len, s, truncated, result)
  {
    if !(s.buffer == "" && line[0] == '\0') {
      var pieces, run, ending, o := ReadsSome(env, line, len, s);
      LineIs(env, line, len, pieces, run, ending, o, truncated);
      forall pieces', run', ending', o' | Reads(env, line, len, s, pieces', run', ending', o')
        ensures LineLeaves(env, o', truncated) == LineLeaves(env, o, truncated)
      {
        LineIs(env, line, len, pieces', run', ending', o', truncated);
      }
    }
  }

  lemma LeavesCarried(env: Env, line: string, len: nat, ending: Ending, s: State, o: Outcome, truncated: bool)
    requires Halts(env, line, len, ending, s, o) && Carried(env, s) && o.Stop?
    ensures var r := LineLeaves(env, o, truncated); Carried(env, Start(r.buffer, r.inString, r.ml, r.delim)) && DelimOk(r.delim)
  {
    assert o.s.delim == s.delim || o.s.delim == env.reply(|s.calls|).delim;
    assert o.s.inString == '\0' || (o.s.inString == s.inString && o.s == s.(pos := o.s.pos));
  }

  /** What a line leaves is what the next one may start with, so that a session that starts
      with nothing goes by the grammar line after line. */
  lemma SessionGoesOn(env: Env, line: string, len: nat, s: State, truncated: bool)
    requires LineOk(line, len) && EnvOk(env) && Sane(env) && DelimOk(s.delim)
    requires s == Start(s.buffer, s.inString, s.ml, s.delim) && Carried(env, s)
    ensures var r := AddLine(env, line, len, s.buffer, s.inString, s.ml, s.delim, truncated);
            r.quit || (Carried(env, Start(r.buffer, r.inString, r.ml, r.delim)) && DelimOk(r.delim))
  {
    if !(s.buffer == "" && line[0] == '\0') {
      var pieces, run, ending, o := ReadsSome(env, line, len, s);
      LineIs(env, line, len, pieces, run, ending, o, truncated);
      HaltsRun(env, line, len, ending, run[|pieces|], o);
      if o.Stop? { LeavesCarried(env, line, len, ending, run[|pieces|], o, truncated); }
    }
  }
}
