/** The client's line lexer. It edits the line in place: accepted characters are
    written back to the front of the same buffer they are read from. This module is the
    out-of-place reference, which reads the untouched line and collects accepted
    characters apart from it; commands and the server are answered by an oracle. */
module LineLexer {
  import opened Options

  /** What running a command or a statement does: may ask to quit, leaves the buffer
      in some state, and may change the delimiter. */
  datatype Reply = Reply(quit: bool, buffer: string, delim: string)

  /** What the lexer hands over, and with what buffer: a backslash command with the rest
      of the line as its text, a statement to execute, or a complaint about an unknown
      command. */
  datatype Call = Command(name: char, buffer: string, rest: string) | Execute(buffer: string) | Complain(name: char)

  /** The session around the lexer. mb is the length of a multi-byte character at the
      start of the given text, 0 if there is none; command says whether a character
      names a command, and whether that takes parameters; reply answers the n-th call, and
      noBackslash is the server's mode once n calls have been made. */
  datatype Env = Env(
    preserve: bool, noBackslash: nat -> bool, isSpace: char -> bool, mb: string -> nat,
    command: char -> Option<bool>, isDelimiterCommand: string -> bool, reply: nat -> Reply)

  predicate DelimOk(delim: string) {
    delim != "" && '\0' !in delim
  }

  ghost predicate EnvOk(env: Env) {
    && !env.isSpace('\0')
    && (forall text: string :: env.mb(text) <= |text|)
    && (forall n: nat :: DelimOk(env.reply(n).delim))
  }

  /** A line of len characters, with its terminator. */
  predicate LineOk(line: string, len: nat) {
    len < |line| && line[len] == '\0'
  }

  /** inString is the open quote, null if none. out is what has been accepted since
      the last flush to the buffer; calls records everything handed over. */
  datatype State = State(
    pos: nat, out: string, buffer: string, inString: char, ml: bool, ss: bool, needSpace: bool,
    delim: string, calls: seq<Call>)

  datatype Outcome = More(s: State) | Stop(s: State) | Quit(s: State)

  // ----------------------------------------------------------- reading ahead

  /** The character at a position, null past the terminator. */
  function Ch(line: string, i: nat): char {
    if i < |line| then line[i] else '\0'
  }

  predicate PrefixAt(line: string, i: nat, t: string) {
    i + |t| <= |line| && forall j :: 0 <= j < |t| ==> line[i + j] == t[j]
  }

  /** End of the run of spaces from i. */
  function SpacesEnd(env: Env, line: string, i: nat): (r: nat)
    ensures i <= r
    decreases |line| - i
  {
    if i < |line| && env.isSpace(line[i]) then SpacesEnd(env, line, i + 1) else i
  }

  /** The terminator of the C string that starts at i. */
  function StrEnd(line: string, i: nat): (r: nat)
    ensures i <= r
    decreases |line| - i
  {
    if i < |line| && line[i] != '\0' then StrEnd(line, i + 1) else i
  }

  /** First position from i that ends the string or starts a comment's end. */
  function CommentEnd(line: string, i: nat): (r: nat)
    ensures i <= r
    decreases |line| - i
  {
    if i < |line| && line[i] != '\0' && !(line[i] == '*' && Ch(line, i + 1) == '/') then CommentEnd(line, i + 1) else i
  }

  /** First position from i that ends the string or starts the delimiter. */
  function DelimPos(line: string, i: nat, delim: string): (r: nat)
    ensures i <= r
    decreases |line| - i
  {
    if i < |line| && line[i] != '\0' && !PrefixAt(line, i, delim) then DelimPos(line, i + 1, delim) else i
  }

  /** The text between two positions. */
  function Between(line: string, i: nat, j: nat): string {
    if i <= j <= |line| then line[i..j] else ""
  }

  /** The C string that starts at i. */
  function RestOfLine(line: string, i: nat): string {
    Between(line, i, StrEnd(line, i))
  }

  // ------------------------------------------------------------ one iteration

  function Flush(s: State): State {
    s.(buffer := s.buffer + s.out, out := "")
  }

  /** After a command with parameters at position pos: where reading goes on. */
  function AfterParameters(line: string, pos: nat, ss: bool, delim: string): nat {
    if ss then CommentEnd(line, pos + 1)
    else
      var d := DelimPos(line, pos + 1, delim);
      if Ch(line, d) == '\0' then d else d + |delim|
  }

  /** A command was run with everything accepted so far; reading goes on at next. */
  function CommandOutcome(s: State, name: char, rest: string, reply: Reply, next: nat): Outcome {
    var s1 := State(s.pos, "", reply.buffer, s.inString, s.ml, s.ss, s.needSpace, reply.delim,
                    s.calls + [Command(name, s.buffer + s.out, rest)]);
    if reply.quit then Quit(s1) else More(s1.(pos := next))
  }

  /** A backslash and the character c after it are accepted. */
  function EscapedState(s: State, c: char): State {
    s.(out := s.out + ['\\', c], pos := s.pos + 2)
  }

  /** A backslash and a character c that may name a command. */
  function NamedStep(env: Env, line: string, s: State, c: char): Outcome {
    var reply := env.reply(|s.calls|);
    match env.command(c)
    case Some(takesParams) =>
      CommandOutcome(s, c, RestOfLine(line, s.pos), reply,
                     if takesParams then AfterParameters(line, s.pos + 1, s.ss, reply.delim) else s.pos + 2)
    case None =>
      var s1 := s.(calls := s.calls + [Complain(c)]);
      if reply.quit then Quit(s1) else More(EscapedState(s1, c))
  }

  /** A backslash outside comments. */
  function BackslashStep(env: Env, line: string, s: State): Outcome {
    var c := Ch(line, s.pos + 1);
    if c == '\0' then Stop(s.(pos := s.pos + 1))
    else if s.inString != '\0' || c == 'N' then More(EscapedState(s, c))
    else NamedStep(env, line, s, c)
  }

  /** Where the text that goes with a delimiter ending at p stops: at p itself, or, if
      comments are kept, after the spaces and a comment behind them. */
  function SpacesAfter(env: Env, line: string, p: nat): (q: nat)
    ensures p <= q
  {
    if env.preserve then SpacesEnd(env, line, p) else p
  }

  predicate TrailingComment(env: Env, line: string, q: nat) {
    env.preserve && (Ch(line, q) == '#'
      || (Ch(line, q) == '-' && Ch(line, q + 1) == '-' && env.isSpace(Ch(line, q + 2))))
  }

  /** Where reading goes on after a delimiter that ends at p, ... */
  function StatementEnd(env: Env, line: string, p: nat): nat {
    var q := SpacesAfter(env, line, p);
    if TrailingComment(env, line, q) then StrEnd(line, q) else q
  }

  /** ... and the text that goes with it. */
  function StatementTail(env: Env, line: string, p: nat): string {
    var q := SpacesAfter(env, line, p);
    Between(line, p, q) + Between(line, q, StatementEnd(env, line, p))
  }

  /** A statement was executed; reading goes on at next. */
  function ExecuteOutcome(s: State, statement: string, reply: Reply, next: nat): Outcome {
    var s1 := State(next, "", if reply.quit then reply.buffer else "", s.inString, s.ml, s.ss, s.needSpace, reply.delim,
                    s.calls + [Execute(statement)]);
    if reply.quit then Quit(s1) else More(s1)
  }

  /** The delimiter: the statement collected so far is executed. */
  function DelimiterStep(env: Env, line: string, s: State): Outcome {
    var p := s.pos + |s.delim|;
    ExecuteOutcome(s, s.buffer + (s.out + StatementTail(env, line, p)), env.reply(|s.calls|), StatementEnd(env, line, p))
  }

  /** A comment to the end of the line. */
  predicate LineCommentAt(env: Env, line: string, s: State) {
    Ch(line, s.pos) == '#'
    || (Ch(line, s.pos) == '-' && Ch(line, s.pos + 1) == '-'
        && (env.isSpace(Ch(line, s.pos + 2)) || Ch(line, s.pos + 2) == '\0' || (s.buffer == "" && s.out == "")))
  }

  function LineCommentStep(env: Env, line: string, s: State): Outcome
  {
    var s1 := Flush(s);
    if !env.preserve then Stop(s1)
    else
      var s2 := s1.(buffer := s1.buffer + RestOfLine(line, s.pos));
      if s1.buffer != "" then Stop(s2)
      else
        var reply := env.reply(|s.calls|);
        var s3 := s2.(delim := reply.delim, calls := s.calls + [Execute(s2.buffer)]);
        if reply.quit then Quit(s3.(buffer := reply.buffer)) else Stop(s3.(buffer := ""))
  }

  predicate CommentOpens(line: string, pos: nat) {
    Ch(line, pos) == '/' && Ch(line, pos + 1) == '*'
    && !(Ch(line, pos + 2) == '!' || (Ch(line, pos + 2) == 'M' && Ch(line, pos + 3) == '!'))
  }

  /** Entering or leaving a comment: both its characters are kept or dropped. */
  function CommentStep(env: Env, line: string, s: State, opens: bool): State {
    var two := if env.preserve then [Ch(line, s.pos), Ch(line, s.pos + 1)] else "";
    Flush(s.(out := s.out + two)).(pos := s.pos + 2, ml := opens, needSpace := if opens then s.needSpace else true)
  }

  predicate IsQuote(c: char) {
    c == '\'' || c == '"' || c == '`'
  }

  /** Whether the text after position pos is inside a server-side comment. */
  function ServerComment(line: string, pos: nat, inString: char, ss: bool): bool {
    if inString == '\0' && Ch(line, pos) == '/' && Ch(line, pos + 1) == '*' && Ch(line, pos + 2) == '!' then true
    else if inString == '\0' && ss && Ch(line, pos) == '*' && Ch(line, pos + 1) == '/' then false
    else ss
  }

  /** The open quote after character c. */
  function OpenQuote(c: char, inString: char, ml: bool): char {
    if c == inString then '\0'
    else if !ml && inString == '\0' && IsQuote(c) then c
    else inString
  }

  /** Any other character. */
  function PlainStep(env: Env, line: string, s: State): State {
    var c := Ch(line, s.pos);
    var s1 := s.(ss := ServerComment(line, s.pos, s.inString, s.ss), inString := OpenQuote(c, s.inString, s.ml),
                 pos := s.pos + 1);
    if !s.ml || env.preserve then
      s1.(needSpace := false, out := s.out + (if s.needSpace && !env.isSpace(c) then " " else "") + [c])
    else s1
  }

  /** Comments and plain characters. */
  function OtherStep(env: Env, line: string, s: State): State {
    if s.inString == '\0' && CommentOpens(line, s.pos) then CommentStep(env, line, s, true)
    else if s.ml && !s.ss && Ch(line, s.pos) == '*' && Ch(line, s.pos + 1) == '/' then CommentStep(env, line, s, false)
    else PlainStep(env, line, s)
  }

  datatype Kind = Backslash | Delimiter | LineComment | Other

  /** What starts at the reading position. */
  function KindAt(env: Env, line: string, s: State): Kind {
    if s.ml then Other
    else if Ch(line, s.pos) == '\\' && !(s.inString != '\0' && env.noBackslash(|s.calls|)) then Backslash
    else if s.inString != '\0' then Other
    else if PrefixAt(line, s.pos, s.delim) then Delimiter
    else if LineCommentAt(env, line, s) then LineComment
    else Other
  }

  /** A character that is not part of a multi-byte one. */
  function CharStep(env: Env, line: string, s: State): Outcome {
    match KindAt(env, line, s)
    case Backslash => BackslashStep(env, line, s)
    case Delimiter => DelimiterStep(env, line, s)
    case LineComment => LineCommentStep(env, line, s)
    case Other => More(OtherStep(env, line, s))
  }

  /** A multi-byte character of n bytes. */
  function WideStep(env: Env, line: string, s: State, n: nat): State {
    s.(pos := s.pos + n,
       out := if !s.ml || env.preserve then s.out + Between(line, s.pos, s.pos + n) else s.out)
  }

  /** One turn of the loop. */
  function Step(env: Env, line: string, len: nat, s: State): Outcome
    requires LineOk(line, len) && s.pos < len && DelimOk(s.delim)
  {
    var n := env.mb(line[s.pos..len]);
    if !env.preserve && env.isSpace(line[s.pos]) && s.out == "" && s.buffer == "" then More(s.(pos := s.pos + 1))
    else if n > 0 then More(WideStep(env, line, s, n))
    else CharStep(env, line, s)
  }

  // ------------------------------------------------------- cursors never cross

  /** The accepted characters fit in front of the reading position, with one to spare
      while a space is owed. */
  ghost predicate Room(s: State) {
    |s.out| <= s.pos && (s.needSpace ==> |s.out| < s.pos)
  }

  /** Reading ahead stops at the terminator at the latest. */
  lemma {:induction false} SpacesInside(env: Env, line: string, len: nat, i: nat)
    requires LineOk(line, len) && EnvOk(env) && i <= len
    ensures SpacesEnd(env, line, i) <= len
    decreases len - i
  {
    if i < len && env.isSpace(line[i]) { SpacesInside(env, line, len, i + 1); }
  }

  lemma {:induction false} StrInside(line: string, len: nat, i: nat)
    requires LineOk(line, len) && i <= len
    ensures StrEnd(line, i) <= len
    decreases len - i
  {
    if i < len && line[i] != '\0' { StrInside(line, len, i + 1); }
  }

  lemma {:induction false} CommentInside(line: string, len: nat, i: nat)
    requires LineOk(line, len) && i <= len
    ensures CommentEnd(line, i) <= len
    decreases len - i
  {
    if i < len && line[i] != '\0' && !(line[i] == '*' && Ch(line, i + 1) == '/') { CommentInside(line, len, i + 1); }
  }

  lemma {:induction false} DelimInside(line: string, len: nat, i: nat, delim: string)
    requires LineOk(line, len) && i <= len && DelimOk(delim)
    ensures DelimPos(line, i, delim) <= len
    ensures var d := DelimPos(line, i, delim);
            Ch(line, d) != '\0' ==> PrefixAt(line, d, delim)
    decreases len - i
  {
    if i < len && line[i] != '\0' && !PrefixAt(line, i, delim) { DelimInside(line, len, i + 1, delim); }
  }

  /** The delimiter holds no terminator, so it ends inside the line. */
  lemma PrefixInside(line: string, len: nat, i: nat, delim: string)
    requires LineOk(line, len) && i <= len && DelimOk(delim) && PrefixAt(line, i, delim)
    ensures i + |delim| <= len
  {
    forall j | i <= j < i + |delim| ensures line[j] != '\0' {
      assert line[i + (j - i)] == delim[j - i];
    }
  }

  /** Every turn moves on, stays inside the line and keeps the room. */
  ghost predicate Good(len: nat, before: State, o: Outcome) {
    && DelimOk(o.s.delim)
    && (o.More? ==> before.pos < o.s.pos <= len && Room(o.s))
    && (o.Stop? ==> o.s.pos <= len && |o.s.out| <= o.s.pos)
  }

  lemma ParametersInside(line: string, len: nat, pos: nat, ss: bool, delim: string)
    requires LineOk(line, len) && pos < len && DelimOk(delim)
    ensures pos < AfterParameters(line, pos, ss, delim) <= len
  {
    if ss {
      CommentInside(line, len, pos + 1);
    } else {
      DelimInside(line, len, pos + 1, delim);
      var d := DelimPos(line, pos + 1, delim);
      if Ch(line, d) != '\0' {
        PrefixInside(line, len, d, delim);
      }
    }
  }

  lemma CommandGood(len: nat, s: State, name: char, rest: string, reply: Reply, next: nat)
    requires DelimOk(reply.delim) && s.pos < next <= len
    ensures Good(len, s, CommandOutcome(s, name, rest, reply, next))
  {
  }

  lemma NamedGood(env: Env, line: string, len: nat, s: State, c: char)
    requires LineOk(line, len) && EnvOk(env) && s.pos + 1 < len && DelimOk(s.delim) && Room(s)
    ensures Good(len, s, NamedStep(env, line, s, c))
  {
    if env.command(c).Some? {
      var reply := env.reply(|s.calls|);
      if env.command(c).value {
        ParametersInside(line, len, s.pos + 1, s.ss, reply.delim);
        CommandGood(len, s, c, RestOfLine(line, s.pos), reply, AfterParameters(line, s.pos + 1, s.ss, reply.delim));
      } else {
        CommandGood(len, s, c, RestOfLine(line, s.pos), reply, s.pos + 2);
      }
    }
  }

  lemma BackslashGood(env: Env, line: string, len: nat, s: State)
    requires LineOk(line, len) && EnvOk(env) && s.pos < len && DelimOk(s.delim) && Room(s)
    ensures Good(len, s, BackslashStep(env, line, s))
  {
    var c := Ch(line, s.pos + 1);
    if c != '\0' {
      NamedGood(env, line, len, s, c);
    }
  }

  lemma StatementInside(env: Env, line: string, len: nat, p: nat)
    requires LineOk(line, len) && EnvOk(env) && p <= len
    ensures p <= StatementEnd(env, line, p) <= len
  {
    SpacesInside(env, line, len, p);
    StrInside(line, len, SpacesAfter(env, line, p));
  }

  lemma DelimiterGood(env: Env, line: string, len: nat, s: State)
    requires LineOk(line, len) && EnvOk(env) && s.pos < len && DelimOk(s.delim) && Room(s) && PrefixAt(line, s.pos, s.delim)
    ensures Good(len, s, DelimiterStep(env, line, s))
  {
    PrefixInside(line, len, s.pos, s.delim);
    StatementInside(env, line, len, s.pos + |s.delim|);
  }

  lemma LineCommentGood(env: Env, line: string, len: nat, s: State)
    requires LineOk(line, len) && EnvOk(env) && s.pos < len && DelimOk(s.delim) && Room(s)
    ensures Good(len, s, LineCommentStep(env, line, s))
  {
  }

  lemma CommentGood(env: Env, line: string, len: nat, s: State, opens: bool)
    requires LineOk(line, len) && s.pos + 1 < len && DelimOk(s.delim) && Room(s)
    ensures Good(len, s, More(CommentStep(env, line, s, opens)))
  {
  }

  lemma PlainGood(env: Env, line: string, len: nat, s: State)
    requires LineOk(line, len) && s.pos < len && DelimOk(s.delim) && Room(s)
    ensures Good(len, s, More(PlainStep(env, line, s)))
  {
  }

  lemma OtherGood(env: Env, line: string, len: nat, s: State)
    requires LineOk(line, len) && s.pos < len && DelimOk(s.delim) && Room(s)
    ensures Good(len, s, More(OtherStep(env, line, s)))
  {
    if s.inString == '\0' && CommentOpens(line, s.pos) {
      CommentGood(env, line, len, s, true);
    } else if s.ml && !s.ss && Ch(line, s.pos) == '*' && Ch(line, s.pos + 1) == '/' {
      CommentGood(env, line, len, s, false);
    } else {
      PlainGood(env, line, len, s);
    }
  }

  lemma CharGood(env: Env, line: string, len: nat, s: State)
    requires LineOk(line, len) && EnvOk(env) && s.pos < len && DelimOk(s.delim) && Room(s)
    ensures Good(len, s, CharStep(env, line, s))
  {
    match KindAt(env, line, s)
    case Backslash => BackslashGood(env, line, len, s);
    case Delimiter => DelimiterGood(env, line, len, s);
    case LineComment => LineCommentGood(env, line, len, s);
    case Other => OtherGood(env, line, len, s);
  }

  /** For every line, session and state: the write cursor never overtakes the read
      cursor, and an owed space always has a free cell. */
  lemma StepGood(env: Env, line: string, len: nat, s: State)
    requires LineOk(line, len) && EnvOk(env) && s.pos < len && DelimOk(s.delim) && Room(s)
    ensures Good(len, s, Step(env, line, len, s))
  {
    assert env.mb(line[s.pos..len]) <= len - s.pos;
    CharGood(env, line, len, s);
  }

  // ---------------------------------------------------------- the whole line

  function Run(env: Env, line: string, len: nat, s: State): (o: Outcome)
    requires LineOk(line, len) && s.pos <= len && DelimOk(s.delim)
    decreases len - s.pos
  {
    if s.pos == len then Stop(s)
    else match Step(env, line, len, s)
      case More(s1) => if s.pos < s1.pos <= len && DelimOk(s1.delim) then Run(env, line, len, s1) else Stop(s1)
      case o => o
  }

  /** What the call leaves: the buffer and the lexer state for the next line, and
      whether to quit. */
  datatype Result = Result(quit: bool, buffer: string, inString: char, ml: bool, delim: string, calls: seq<Call>)

  /** The end of the line: unless the line was truncated or is a delimiter command, a
      newline is accepted; then everything accepted goes to the buffer. */
  function Finish(env: Env, s: State, truncated: bool): Result {
    if s.out == "" && s.buffer == "" then Result(false, "", s.inString, s.ml, s.delim, s.calls)
    else
      var newline := !truncated && (!env.isDelimiterCommand(s.out) || s.inString != '\0' || s.ml);
      var out := if newline then s.out + "\n" else s.out;
      Result(false, if !s.ml || env.preserve then s.buffer + out else s.buffer, s.inString, s.ml, s.delim, s.calls)
  }

  function AddLine(env: Env, line: string, len: nat, buffer: string, inString: char, ml: bool, delim: string, truncated: bool): Result
    requires LineOk(line, len) && DelimOk(delim)
  {
    if line[0] == '\0' && buffer == "" then Result(false, buffer, inString, ml, delim, [])
    else match Run(env, line, len, State(0, "", buffer, inString, ml, false, false, delim, []))
      case Quit(s) => Result(true, s.buffer, s.inString, s.ml, s.delim, s.calls)
      case Stop(s) => Finish(env, s, truncated)
      case More(s) => Finish(env, s, truncated)
  }
}
