/** The other pieces of a line: server-side comments, delimiters, commands, escapes and
    comments to the end of the line, with the call each makes and where reading goes on. */
module LineLexerPieces {
  import opened LineLexer
  import opened LineLexerSegments

  // --------------------------------------------------------------- reading ahead

  /** The spaces from i end at r. */
  ghost predicate SpacesTo(env: Env, line: string, i: nat, r: nat) {
    i <= r < |line| && !env.isSpace(line[r]) && forall k :: i <= k < r ==> env.isSpace(line[k])
  }

  /** The terminator after i is at z. */
  ghost predicate TextTo(line: string, i: nat, z: nat) {
    i <= z < |line| && line[z] == '\0' && forall k :: i <= k < z ==> line[k] != '\0'
  }

  lemma {:induction false} SpacesEndIs(env: Env, line: string, i: nat, r: nat)
    requires SpacesTo(env, line, i, r)
    ensures SpacesEnd(env, line, i) == r
    decreases r - i
  {
    if i < r { SpacesEndIs(env, line, i + 1, r); }
  }

  lemma {:induction false} StrEndIs(line: string, i: nat, z: nat)
    requires TextTo(line, i, z)
    ensures StrEnd(line, i) == z
    decreases z - i
  {
    if i < z { StrEndIs(line, i + 1, z); }
  }

  // -------------------------------------------------------- server-side comments

  /** Outside strings and dropped comments, and at no delimiter. */
  ghost predicate Accepting(env: Env, line: string, len: nat, s: State) {
    && LineOk(line, len) && EnvOk(env) && Sane(env) && DelimOk(s.delim) && s.pos < len && Narrow(env, line, len, s.pos)
    && s.inString == '\0' && (if s.ml then env.preserve else !Delimits(line, s.pos, s.delim))
  }

  /** The first character of a server-side comment is accepted, and the text after it is the
      server's, ... */
  lemma ServerOpen(env: Env, line: string, len: nat, s: State)
    requires Accepting(env, line, len, s) && ServerOpens(line, s.pos)
    ensures Goes(env, line, len, s, Accepted(env, line, s, s.pos + 1).(ss := true))
  {
    StepIsChar(env, line, len, s);
    assert !s.ml ==> !PrefixAt(line, s.pos, s.delim);
    OneChar(line, s.pos);
    RunMore(env, line, len, s, Accepted(env, line, s, s.pos + 1).(ss := true));
  }

  /** ... up to the two characters that end it. */
  lemma ServerClose(env: Env, line: string, len: nat, s: State)
    requires Accepting(env, line, len, s) && At(line, s.pos, '*', '/') && s.ss
    ensures Goes(env, line, len, s, Accepted(env, line, s, s.pos + 1).(ss := false))
  {
    StepIsChar(env, line, len, s);
    assert !s.ml ==> !PrefixAt(line, s.pos, s.delim);
    OneChar(line, s.pos);
    RunMore(env, line, len, s, Accepted(env, line, s, s.pos + 1).(ss := false));
  }

  // -------------------------------------------------------------------- delimiters

  /** The text that goes with a delimiter which ends at p: none, or, when comments are kept,
      the spaces up to r and a comment there, up to end. */
  ghost predicate Tail(env: Env, line: string, len: nat, p: nat, r: nat, end: nat) {
    p <= r <= end <= len < |line| &&
    if !env.preserve then end == p
    else SpacesTo(env, line, p, r) &&
         if RemarkBehind(env, line, r) then TextTo(line, r, end) else end == r
  }

  /** Behind a delimiter, two dashes need a space after them. */
  ghost predicate RemarkBehind(env: Env, line: string, r: nat) {
    Ch(line, r) == '#' || (At(line, r, '-', '-') && env.isSpace(Ch(line, r + 2)))
  }

  lemma TailIs(env: Env, line: string, len: nat, p: nat, r: nat, end: nat)
    requires EnvOk(env) && Tail(env, line, len, p, r, end)
    ensures StatementEnd(env, line, p) == end && StatementTail(env, line, p) == line[p..end]
  {
    if env.preserve {
      SpacesEndIs(env, line, p, r);
      if end > r || TextTo(line, r, end) { StrEndIs(line, r, end); }
      assert line[p..r] + line[r..end] == line[p..end];
    } else {
      assert line[p..p] + line[p..p] == line[p..p];
    }
  }

  /** A delimiter at s, and the text that goes with it. */
  ghost predicate DelimiterHere(env: Env, line: string, len: nat, s: State, r: nat, end: nat) {
    && LineOk(line, len) && EnvOk(env) && DelimOk(s.delim) && Outside(s) && s.pos < len && !Skips(env, line, s)
    && Narrow(env, line, len, s.pos) && line[s.pos] != '\\' && Delimits(line, s.pos, s.delim)
    && Tail(env, line, len, s.pos + |s.delim|, r, end)
  }

  /** The statement is executed, with that text; nothing of it stays. */
  ghost function Executed(env: Env, line: string, s: State, end: nat): State
    requires s.pos + |s.delim| <= end <= |line|
  {
    var reply := env.reply(|s.calls|);
    var statement := s.buffer + s.out + line[s.pos + |s.delim|..end];
    State(end, "", if reply.quit then reply.buffer else "", '\0', false, s.ss, s.needSpace, reply.delim,
          s.calls + [Execute(statement)])
  }

  lemma DelimiterChar(env: Env, line: string, s: State, end: nat)
    requires Outside(s) && s.pos < |line| && line[s.pos] != '\\' && Delimits(line, s.pos, s.delim)
    requires s.pos + |s.delim| <= end <= |line| && StatementEnd(env, line, s.pos + |s.delim|) == end
    requires StatementTail(env, line, s.pos + |s.delim|) == line[s.pos + |s.delim|..end]
    ensures CharStep(env, line, s) ==
            var s1 := Executed(env, line, s, end); if env.reply(|s.calls|).quit then Quit(s1) else More(s1)
  {
    var text := line[s.pos + |s.delim|..end];
    assert s.buffer + (s.out + text) == s.buffer + s.out + text;
    assert PrefixAt(line, s.pos, s.delim);
  }

  lemma DelimiterIs(env: Env, line: string, len: nat, s: State, r: nat, end: nat)
    requires DelimiterHere(env, line, len, s, r, end)
    ensures Step(env, line, len, s) ==
            var s1 := Executed(env, line, s, end); if env.reply(|s.calls|).quit then Quit(s1) else More(s1)
  {
    StepIsChar(env, line, len, s);
    TailIs(env, line, len, s.pos + |s.delim|, r, end);
    DelimiterChar(env, line, s, end);
  }

  // ---------------------------------------------------------------------- commands

  /** Where reading goes on after a command's parameters from i: at the end of the line, or
      behind the delimiter, or, in a server-side comment, at the comment's end. */
  ghost predicate Parameters(line: string, i: nat, ss: bool, delim: string, d: nat, end: nat) {
    i <= d < |line| &&
    if ss then
      && (forall k: nat :: i <= k < d ==> line[k] != '\0' && !At(line, k, '*', '/'))
      && (line[d] == '\0' || At(line, d, '*', '/')) && end == d
    else
      && (forall k: nat :: i <= k < d ==> line[k] != '\0' && !Delimits(line, k, delim))
      && if line[d] == '\0' then end == d else Delimits(line, d, delim) && end == d + |delim|
  }

  lemma {:induction false} CommentEndIs(line: string, i: nat, delim: string, d: nat)
    requires Parameters(line, i, true, delim, d, d)
    ensures CommentEnd(line, i) == d
    decreases d - i
  {
    if i < d {
      assert !At(line, i, '*', '/');
      CommentEndIs(line, i + 1, delim, d);
    }
  }

  lemma {:induction false} DelimPosIs(line: string, i: nat, delim: string, d: nat, end: nat)
    requires Parameters(line, i, false, delim, d, end) && DelimOk(delim)
    ensures DelimPos(line, i, delim) == d
    decreases d - i
  {
    if i < d {
      assert !Delimits(line, i, delim) && !PrefixAt(line, i, delim);
      DelimPosIs(line, i + 1, delim, d, end);
    } else {
      assert line[d] != '\0' ==> PrefixAt(line, d, delim);
    }
  }

  lemma ParametersIs(line: string, pos: nat, ss: bool, delim: string, d: nat, end: nat)
    requires Parameters(line, pos + 1, ss, delim, d, end) && DelimOk(delim)
    ensures AfterParameters(line, pos, ss, delim) == end
  {
    if ss { CommentEndIs(line, pos + 1, delim, d); } else { DelimPosIs(line, pos + 1, delim, d, end); }
  }

  /** A backslash at s outside strings, and the character after it. */
  ghost predicate Slash(env: Env, line: string, len: nat, s: State) {
    && LineOk(line, len) && EnvOk(env) && Sane(env) && DelimOk(s.delim) && Outside(s) && s.pos < len
    && Narrow(env, line, len, s.pos) && line[s.pos] == '\\'
  }

  /** A command at s: its text goes on to z, reading goes on at end. */
  ghost predicate CommandHere(env: Env, line: string, len: nat, s: State, z: nat, d: nat, end: nat) {
    && Slash(env, line, len, s) && line[s.pos + 1] != '\0' && line[s.pos + 1] != 'N'
    && env.command(line[s.pos + 1]).Some? && TextTo(line, s.pos, z)
    && if env.command(line[s.pos + 1]).value then Parameters(line, s.pos + 2, s.ss, env.reply(|s.calls|).delim, d, end)
       else end == s.pos + 2
  }

  /** The command is given the statement so far and the rest of the line, and leaves the
      buffer and the delimiter as it likes. */
  ghost function Commanded(env: Env, line: string, s: State, z: nat, end: nat): State
    requires s.pos + 1 < |line| && s.pos <= z <= |line|
  {
    var reply := env.reply(|s.calls|);
    State(end, "", reply.buffer, '\0', false, s.ss, s.needSpace, reply.delim,
          s.calls + [Command(line[s.pos + 1], s.buffer + s.out, line[s.pos..z])])
  }

  lemma CommandChar(env: Env, line: string, s: State, z: nat, end: nat)
    requires Outside(s) && s.pos + 1 < |line| && line[s.pos] == '\\' && line[s.pos + 1] != '\0' && line[s.pos + 1] != 'N'
    requires env.command(line[s.pos + 1]).Some? && s.pos <= z <= |line| && StrEnd(line, s.pos) == z
    requires end == if env.command(line[s.pos + 1]).value
                    then AfterParameters(line, s.pos + 1, s.ss, env.reply(|s.calls|).delim) else s.pos + 2
    ensures CharStep(env, line, s) ==
            if env.reply(|s.calls|).quit then Quit(Commanded(env, line, s, z, s.pos))
            else More(Commanded(env, line, s, z, end))
  {
  }

  lemma CommandIs(env: Env, line: string, len: nat, s: State, z: nat, d: nat, end: nat)
    requires CommandHere(env, line, len, s, z, d, end)
    ensures Step(env, line, len, s) ==
            if env.reply(|s.calls|).quit then Quit(Commanded(env, line, s, z, s.pos))
            else More(Commanded(env, line, s, z, end))
  {
    StepIsChar(env, line, len, s);
    StrEndIs(line, s.pos, z);
    if env.command(line[s.pos + 1]).value {
      ParametersIs(line, s.pos + 1, s.ss, env.reply(|s.calls|).delim, d, end);
    }
    CommandChar(env, line, s, z, end);
  }

  // ----------------------------------------------------------------------- escapes

  /** A backslash and a character that names no command; with N it is no complaint. */
  ghost predicate EscapeHere(env: Env, line: string, len: nat, s: State) {
    && Slash(env, line, len, s) && line[s.pos + 1] != '\0'
    && (line[s.pos + 1] == 'N' || env.command(line[s.pos + 1]).None?)
  }

  /** Both characters are accepted; a space that is owed stays owed. */
  ghost function Escaped(line: string, s: State): State
    requires s.pos + 1 < |line|
  {
    s.(pos := s.pos + 2, out := s.out + line[s.pos..s.pos + 2],
       calls := if line[s.pos + 1] == 'N' then s.calls else s.calls + [Complain(line[s.pos + 1])])
  }

  lemma EscapeIs(env: Env, line: string, len: nat, s: State)
    requires EscapeHere(env, line, len, s)
    ensures Step(env, line, len, s) ==
            if line[s.pos + 1] != 'N' && env.reply(|s.calls|).quit
            then Quit(s.(calls := s.calls + [Complain(line[s.pos + 1])]))
            else More(Escaped(line, s))
  {
    StepIsChar(env, line, len, s);
    assert line[s.pos..s.pos + 2] == ['\\', line[s.pos + 1]];
  }

  /** A backslash at the end of the line is dropped. */
  lemma LoneSlash(env: Env, line: string, len: nat, s: State)
    requires Slash(env, line, len, s) && line[s.pos + 1] == '\0'
    ensures Step(env, line, len, s) == Stop(s.(pos := s.pos + 1))
  {
    StepIsChar(env, line, len, s);
  }

  /** Also in a string that has escapes. */
  lemma LoneSlashInString(env: Env, line: string, len: nat, s: State)
    requires LineOk(line, len) && EnvOk(env) && DelimOk(s.delim) && Quoting(s) && Escapes(env, s) && s.pos < len
    requires Narrow(env, line, len, s.pos) && line[s.pos] == '\\' && line[s.pos + 1] == '\0'
    ensures Step(env, line, len, s) == Stop(s.(pos := s.pos + 1))
  {
    StepIsChar(env, line, len, s);
  }

  // ------------------------------------------------------ comments to the line's end

  /** A comment at s goes on to the end of the line, z. */
  ghost predicate RemarkHere(env: Env, line: string, len: nat, s: State, z: nat) {
    && LineOk(line, len) && EnvOk(env) && Sane(env) && DelimOk(s.delim) && Outside(s) && s.pos < len
    && Narrow(env, line, len, s.pos) && !Delimits(line, s.pos, s.delim) && (Remark(env, line, s.pos) || Dashes(line, s))
    && TextTo(line, s.pos, z)
  }

  /** What follows a statement is dropped; or it is kept with the statement, or, alone on
      its line, executed. */
  ghost function Remarked(env: Env, line: string, s: State, z: nat): Outcome
    requires s.pos <= z <= |line|
  {
    var reply := env.reply(|s.calls|);
    var text := line[s.pos..z];
    if !env.preserve then Stop(s.(buffer := s.buffer + s.out, out := ""))
    else if !Nothing(s) then Stop(s.(buffer := s.buffer + s.out + text, out := ""))
    else
      var s1 := s.(out := "", delim := reply.delim, calls := s.calls + [Execute(text)]);
      if reply.quit then Quit(s1.(buffer := reply.buffer)) else Stop(s1.(buffer := ""))
  }

  lemma RemarkKind(env: Env, line: string, s: State)
    requires Outside(s) && s.pos < |line| && line[s.pos] != '\\' && !Delimits(line, s.pos, s.delim)
    requires Remark(env, line, s.pos) || Dashes(line, s)
    ensures KindAt(env, line, s) == LineComment
  {
    assert !PrefixAt(line, s.pos, s.delim);
  }

  lemma RemarkChar(env: Env, line: string, s: State, z: nat)
    requires s.pos <= z <= |line| && StrEnd(line, s.pos) == z
    ensures LineCommentStep(env, line, s) == Remarked(env, line, s, z)
  {
    if env.preserve {
      var text := line[s.pos..z];
      if Nothing(s) {
        assert s.buffer + s.out == "" && "" + text == text;
      } else {
        assert |s.buffer + s.out| > 0;
      }
    }
  }

  lemma RemarkIs(env: Env, line: string, len: nat, s: State, z: nat)
    requires RemarkHere(env, line, len, s, z)
    ensures Step(env, line, len, s) == Remarked(env, line, s, z)
  {
    StepIsChar(env, line, len, s);
    StrEndIs(line, s.pos, z);
    RemarkKind(env, line, s);
    RemarkChar(env, line, s, z);
  }
}
