/** Whole lines: a line made of pieces is handled piece by piece, and leaves the buffer, the
    open quote or comment, the delimiter and the calls that its pieces yield. */
module LineLexerLines {
  import opened LineLexer
  import opened LineLexerSegments
  import opened LineLexerPieces

  /** The pieces a line is made of; r, z and d are the positions the text behind a delimiter
      and a command's text and parameters go on to. */
  datatype Piece =
    | Spaces | Words | WideChar
    | StringBegins | StringPart | StringEnds
    | CommentBegins | DroppedPart | DroppedChar | KeptPart | CommentEnds
    | ServerBegins | ServerEnds
    | Statement(r: nat) | Order(z: nat, d: nat) | Pair

  ghost predicate Around(env: Env, line: string, len: nat, s: State) {
    LineOk(line, len) && EnvOk(env) && Sane(env) && DelimOk(s.delim) && s.pos < len
  }

  /** The piece takes the lexer from s to s1: what it looks like, and what it yields. */
  ghost predicate Fits(env: Env, line: string, len: nat, piece: Piece, s: State, s1: State) {
    && Around(env, line, len, s) && s.pos < s1.pos <= len
    && match piece
       case Spaces => SpacesFit(env, line, s, s1)
       case Words => PlainFrom(env, line, len, s, s1.pos) && s1 == Accepted(env, line, s, s1.pos)
       case WideChar => WideFits(env, line, len, s) && s1 == WideAccepted(env, line, len, s)
       case StringBegins => QuoteFits(env, line, len, s) && Outside(s) && s1 == StringOpened(env, line, s)
       case StringPart => QuotedFrom(env, line, len, s, s1.pos) && s1 == Quoted(line, s, s1.pos)
       case StringEnds => QuoteEnds(env, line, len, s) && s1 == Quoted(line, s, s.pos + 1).(inString := '\0')
       case CommentBegins => CommentFits(env, line, len, s) && s1 == Opened(env, s)
       case DroppedPart => Dropping(env, s) && !s.ss && CommentText(env, line, len, s.pos, s1.pos) && s1 == s.(pos := s1.pos)
       case DroppedChar => DropFits(env, line, len, s) && s1 == DropNext(env, line, len, s)
       case KeptPart => KeptFits(env, line, len, s, s1.pos) && s1 == Accepted(env, line, s, s1.pos)
       case CommentEnds => CommentFitsEnd(env, line, len, s) && s1 == Closed(env, s)
       case ServerBegins => Accepting(env, line, len, s) && ServerOpens(line, s.pos) && s1 == Accepted(env, line, s, s.pos + 1).(ss := true)
       case ServerEnds => Accepting(env, line, len, s) && s.ss && At(line, s.pos, '*', '/') && s1 == Accepted(env, line, s, s.pos + 1).(ss := false)
       case Statement(r) => DelimiterHere(env, line, len, s, r, s1.pos) && !env.reply(|s.calls|).quit && s1 == Executed(env, line, s, s1.pos)
       case Order(z, d) => CommandHere(env, line, len, s, z, d, s1.pos) && !env.reply(|s.calls|).quit && s1 == Commanded(env, line, s, z, s1.pos)
       case Pair => EscapeHere(env, line, len, s) && (line[s.pos + 1] == 'N' || !env.reply(|s.calls|).quit) && s1 == Escaped(line, s)
  }

  ghost predicate SpacesFit(env: Env, line: string, s: State, s1: State) {
    && !env.preserve && Nothing(s) && s1 == s.(pos := s1.pos) && s1.pos <= |line|
    && (forall i :: s.pos <= i < s1.pos ==> env.isSpace(line[i]))
  }

  ghost predicate WideFits(env: Env, line: string, len: nat, s: State) {
    !Narrow(env, line, len, s.pos) && !Skips(env, line, s) && (!s.ml || env.preserve)
  }

  ghost predicate QuoteFits(env: Env, line: string, len: nat, s: State) {
    s.pos < len < |line| && Quote(line[s.pos]) && !Delimits(line, s.pos, s.delim) && Narrow(env, line, len, s.pos)
  }

  ghost predicate QuoteEnds(env: Env, line: string, len: nat, s: State) {
    Quoting(s) && s.pos < len < |line| && line[s.pos] == s.inString && line[s.pos] != '\\' && Narrow(env, line, len, s.pos)
  }

  ghost predicate CommentFits(env: Env, line: string, len: nat, s: State) {
    && s.inString == '\0' && s.pos + 2 <= len && Opens(line, s.pos) && (s.ml || !Delimits(line, s.pos, s.delim))
    && Narrow(env, line, len, s.pos)
  }

  ghost predicate DropFits(env: Env, line: string, len: nat, s: State) {
    Dropping(env, s) && !(Narrow(env, line, len, s.pos) && At(line, s.pos, '*', '/') && !s.ss)
  }

  ghost predicate KeptFits(env: Env, line: string, len: nat, s: State, end: nat) {
    env.preserve && s.inString == '\0' && s.ml && KeptText(env, line, len, s.pos, end)
  }

  ghost predicate CommentFitsEnd(env: Env, line: string, len: nat, s: State) {
    s.inString == '\0' && s.ml && !s.ss && s.pos + 2 <= len && At(line, s.pos, '*', '/') && Narrow(env, line, len, s.pos)
  }

  lemma TextFits(env: Env, line: string, len: nat, piece: Piece, s: State, s1: State)
    requires Fits(env, line, len, piece, s, s1) && DelimOk(s1.delim)
    requires piece.Spaces? || piece.Words? || piece.WideChar? || piece.StringBegins? || piece.StringPart? || piece.StringEnds?
    ensures Goes(env, line, len, s, s1)
  {
    match piece
    case Spaces => LeadGoes(env, line, len, s, s1.pos);
    case Words => PlainGoes(env, line, len, s, s1.pos);
    case WideChar => WideGoes(env, line, len, s);
    case StringBegins => OpenString(env, line, len, s);
    case StringPart => InsideString(env, line, len, s, s1.pos);
    case StringEnds => CloseString(env, line, len, s);
  }

  lemma CommentPieceFits(env: Env, line: string, len: nat, piece: Piece, s: State, s1: State)
    requires Fits(env, line, len, piece, s, s1) && DelimOk(s1.delim)
    requires piece.CommentBegins? || piece.DroppedPart? || piece.DroppedChar? || piece.KeptPart? || piece.CommentEnds?
             || piece.ServerBegins? || piece.ServerEnds?
    ensures Goes(env, line, len, s, s1)
  {
    match piece
    case CommentBegins => OpenComment(env, line, len, s);
    case DroppedPart => DropGoes(env, line, len, s, s1.pos);
    case DroppedChar => DropOne(env, line, len, s);
    case KeptPart => KeepGoes(env, line, len, s, s1.pos);
    case CommentEnds => CloseComment(env, line, len, s);
    case ServerBegins => ServerOpen(env, line, len, s);
    case ServerEnds => ServerClose(env, line, len, s);
  }

  lemma CallFits(env: Env, line: string, len: nat, piece: Piece, s: State, s1: State)
    requires Fits(env, line, len, piece, s, s1) && DelimOk(s1.delim)
    requires piece.Statement? || piece.Order? || piece.Pair?
    ensures Goes(env, line, len, s, s1)
  {
    match piece
    case Statement(r) => DelimiterIs(env, line, len, s, r, s1.pos); RunMore(env, line, len, s, s1);
    case Order(z, d) => CommandIs(env, line, len, s, z, d, s1.pos); RunMore(env, line, len, s, s1);
    case Pair => EscapeIs(env, line, len, s); RunMore(env, line, len, s, s1);
  }

  lemma DelimStaysOk(env: Env, line: string, len: nat, piece: Piece, s: State, s1: State)
    requires Fits(env, line, len, piece, s, s1)
    ensures DelimOk(s1.delim)
  {
    assert s1.delim == s.delim || s1.delim == env.reply(|s.calls|).delim;
  }

  /** Every piece takes the lexer as it says. */
  lemma FitsGoes(env: Env, line: string, len: nat, piece: Piece, s: State, s1: State)
    requires Fits(env, line, len, piece, s, s1)
    ensures Goes(env, line, len, s, s1)
  {
    DelimStaysOk(env, line, len, piece, s, s1);
    match piece
    case Spaces => TextFits(env, line, len, piece, s, s1);
    case Words => TextFits(env, line, len, piece, s, s1);
    case WideChar => TextFits(env, line, len, piece, s, s1);
    case StringBegins => TextFits(env, line, len, piece, s, s1);
    case StringPart => TextFits(env, line, len, piece, s, s1);
    case StringEnds => TextFits(env, line, len, piece, s, s1);
    case Statement(_) => CallFits(env, line, len, piece, s, s1);
    case Order(_, _) => CallFits(env, line, len, piece, s, s1);
    case Pair => CallFits(env, line, len, piece, s, s1);
    case _ => CommentPieceFits(env, line, len, piece, s, s1);
  }

  // ------------------------------------------------------------------- line ends

  /** How the reading of a line ends: at its end, at a backslash with nothing behind it, at
      a comment to the end of the line, or because a call asks to quit. */
  datatype Ending =
    | LineOver | SlashOver | RemarkOver(z: nat)
    | StatementQuits(r: nat, end: nat) | OrderQuits(z: nat, d: nat, end: nat) | PairQuits

  ghost predicate Halts(env: Env, line: string, len: nat, ending: Ending, s: State, o: Outcome) {
    && LineOk(line, len) && EnvOk(env) && DelimOk(s.delim) && s.pos <= len
    && match ending
       case LineOver => s.pos == len && o == Stop(s)
       case SlashOver => (Slash(env, line, len, s) || SlashInString(env, line, len, s)) && line[s.pos + 1] == '\0' && o == Stop(s.(pos := s.pos + 1))
       case RemarkOver(z) => RemarkHere(env, line, len, s, z) && o == Remarked(env, line, s, z)
       case StatementQuits(r, end) =>
         DelimiterHere(env, line, len, s, r, end) && env.reply(|s.calls|).quit && o == Quit(Executed(env, line, s, end))
       case OrderQuits(z, d, end) =>
         CommandHere(env, line, len, s, z, d, end) && env.reply(|s.calls|).quit && o == Quit(Commanded(env, line, s, z, s.pos))
       case PairQuits =>
         && EscapeHere(env, line, len, s) && line[s.pos + 1] != 'N' && env.reply(|s.calls|).quit
         && o == Quit(s.(calls := s.calls + [Complain(line[s.pos + 1])]))
  }

  ghost predicate SlashInString(env: Env, line: string, len: nat, s: State) {
    Quoting(s) && Escapes(env, s) && s.pos < len < |line| && Narrow(env, line, len, s.pos) && line[s.pos] == '\\'
  }

  lemma StepHalts(env: Env, line: string, len: nat, s: State, o: Outcome)
    requires LineOk(line, len) && DelimOk(s.delim) && s.pos < len && Step(env, line, len, s) == o && !o.More?
    ensures Run(env, line, len, s) == o
  {
  }

  lemma HaltsRun(env: Env, line: string, len: nat, ending: Ending, s: State, o: Outcome)
    requires Halts(env, line, len, ending, s, o)
    ensures Run(env, line, len, s) == o && !o.More?
  {
    match ending
    case LineOver =>
    case SlashOver =>
      if Slash(env, line, len, s) { LoneSlash(env, line, len, s); } else { LoneSlashInString(env, line, len, s); }
      StepHalts(env, line, len, s, o);
    case RemarkOver(z) => RemarkIs(env, line, len, s, z); StepHalts(env, line, len, s, o);
    case StatementQuits(r, end) => DelimiterIs(env, line, len, s, r, end); StepHalts(env, line, len, s, o);
    case OrderQuits(z, d, end) => CommandIs(env, line, len, s, z, d, end); StepHalts(env, line, len, s, o);
    case PairQuits => EscapeIs(env, line, len, s); StepHalts(env, line, len, s, o);
  }

  // ---------------------------------------------------------------- whole lines

  /** The buffer a line leaves: what was collected and a newline, which a truncated line and
      a delimiter command do not get; inside a dropped comment, what was collected before it. */
  ghost function LeftOver(env: Env, s: State, truncated: bool): string {
    if Nothing(s) then ""
    else if s.ml && !env.preserve then s.buffer
    else if truncated || (s.inString == '\0' && !s.ml && env.isDelimiterCommand(s.out)) then s.buffer + s.out
    else s.buffer + s.out + "\n"
  }

  ghost function LineLeaves(env: Env, o: Outcome, truncated: bool): Result {
    Result(o.Quit?, if o.Quit? then o.s.buffer else LeftOver(env, o.s, truncated), o.s.inString, o.s.ml, o.s.delim, o.s.calls)
  }

  /** Where a line starts. */
  ghost function Start(buffer: string, inString: char, ml: bool, delim: string): State {
    State(0, "", buffer, inString, ml, false, false, delim, [])
  }

  /** The pieces lead from state to state. */
  ghost predicate MadeOf(env: Env, line: string, len: nat, pieces: seq<Piece>, run: seq<State>) {
    |run| == |pieces| + 1 && forall k :: 0 <= k < |pieces| ==> Fits(env, line, len, pieces[k], run[k], run[k + 1])
  }

  lemma {:induction false} MadeGoes(env: Env, line: string, len: nat, pieces: seq<Piece>, run: seq<State>, k: nat)
    requires MadeOf(env, line, len, pieces, run) && k < |run|
    requires LineOk(line, len) && run[0].pos <= len && DelimOk(run[0].delim)
    ensures Goes(env, line, len, run[0], run[k])
  {
    if k == 0 {
      GoesSelf(env, line, len, run[0]);
    } else {
      MadeGoes(env, line, len, pieces, run, k - 1);
      FitsGoes(env, line, len, pieces[k - 1], run[k - 1], run[k]);
      GoesOn(env, line, len, run[0], run[k - 1], run[k]);
    }
  }

  lemma LeavesIs(env: Env, line: string, len: nat, s: State, o: Outcome, truncated: bool)
    requires LineOk(line, len) && DelimOk(s.delim) && s == Start(s.buffer, s.inString, s.ml, s.delim)
    requires s.buffer != "" || line[0] != '\0' || len == 0
    requires Run(env, line, len, s) == o && !o.More?
    ensures AddLine(env, line, len, s.buffer, s.inString, s.ml, s.delim, truncated) == LineLeaves(env, o, truncated)
  {
    if o.Stop? && !Nothing(o.s) {
      var out, buffer := o.s.out, o.s.buffer;
      assert buffer + (out + "\n") == buffer + out + "\n";
    }
  }

  /** Every line that is made of pieces leaves what its pieces yield. */
  lemma LineIs(env: Env, line: string, len: nat, pieces: seq<Piece>, run: seq<State>, ending: Ending, o: Outcome, truncated: bool)
    requires LineOk(line, len) && MadeOf(env, line, len, pieces, run) && Halts(env, line, len, ending, run[|pieces|], o)
    requires run[0] == Start(run[0].buffer, run[0].inString, run[0].ml, run[0].delim) && DelimOk(run[0].delim)
    requires run[0].buffer != "" || line[0] != '\0' || len == 0
    ensures AddLine(env, line, len, run[0].buffer, run[0].inString, run[0].ml, run[0].delim, truncated)
         == LineLeaves(env, o, truncated)
  {
    MadeGoes(env, line, len, pieces, run, |pieces|);
    GoesIs(env, line, len, run[0], run[|pieces|]);
    HaltsRun(env, line, len, ending, run[|pieces|], o);
    LeavesIs(env, line, len, run[0], o, truncated);
  }
}
