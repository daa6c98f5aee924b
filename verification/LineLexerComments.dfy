/** A comment in the middle of a line. Where comments are dropped it stands for one space,
    exactly if its text neither ends in a slash nor holds the start of a server-side comment;
    otherwise the client misses the comment's end. */
module LineLexerComments {
  import opened LineLexer
  import opened LineLexerSegments
  import opened LineLexerPieces
  import opened LineLexerLines

  /** A line of single-byte characters: plain text, a comment from a to b whose text holds no
      comment end, and plain text up to e. */
  ghost predicate Commented(env: Env, line: string, len: nat, delim: string, a: nat, b: nat, e: nat) {
    && LineOk(line, len) && EnvOk(env) && Sane(env) && DelimOk(delim) && !env.preserve
    && 0 < a && a + 4 <= b <= e <= len
    && (forall i: nat :: i < len ==> Narrow(env, line, len, i))
    && (forall i: nat :: i < a ==> PlainAt(env, line, i, delim))
    && Opens(line, a) && !Delimits(line, a, delim)
    && (forall i: nat :: a + 2 <= i < b - 2 ==> !At(line, i, '*', '/'))
    && At(line, b - 2, '*', '/')
    && (forall i: nat :: b <= i < e ==> PlainAt(env, line, i, delim))
  }

  /** The text starts with something that is neither skipped nor a comment. */
  ghost predicate Starts(env: Env, line: string, len: nat, buffer: string) {
    LineOk(line, len) && len > 0 && (buffer == "" ==> line[0] != '\0' && !env.isSpace(line[0]) && !At(line, 0, '-', '-'))
  }

  /** The client sees the comment's end. */
  ghost predicate SeesEnd(line: string, a: nat, b: nat)
    requires a + 4 <= b <= |line|
  {
    && (a + 4 < b ==> line[b - 3] != '/')
    && (forall i: nat :: a + 2 <= i < b - 2 ==> !ServerOpens(line, i))
  }

  /** What stands between the text before the comment and the text after it. */
  ghost function Gap(env: Env, line: string, b: nat, e: nat): string
    requires b <= e <= |line|
  {
    if b < e && !env.isSpace(line[b]) then " " else ""
  }

  lemma {:induction false} NarrowPlain(env: Env, line: string, len: nat, from: nat, end: nat, delim: string)
    requires from <= end <= len < |line| && (forall i: nat :: i < len ==> Narrow(env, line, len, i))
    requires forall i: nat :: from <= i < end ==> PlainAt(env, line, i, delim)
    ensures PlainText(env, line, len, from, end, delim, false)
    decreases end - from
  {
    if from < end {
      assert Narrow(env, line, len, from) && PlainAt(env, line, from, delim);
      NarrowPlain(env, line, len, from + 1, end, delim);
    }
  }

  lemma {:induction false} NarrowComment(env: Env, line: string, len: nat, from: nat, end: nat)
    requires from <= end <= len < |line| && (forall i: nat :: i < len ==> Narrow(env, line, len, i))
    requires forall i: nat :: from <= i < end ==> !At(line, i, '*', '/') && !ServerOpens(line, i)
    requires from < end ==> line[end - 1] != '/'
    ensures CommentText(env, line, len, from, end)
    decreases end - from
  {
    if from < end {
      assert Narrow(env, line, len, from) && !At(line, from, '*', '/') && !ServerOpens(line, from);
      if Opens(line, from) {
        NarrowComment(env, line, len, from + 2, end);
      } else {
        NarrowComment(env, line, len, from + 1, end);
      }
    }
  }

  // ------------------------------------------------------------- the end is seen

  /** The line up to the comment's end. */
  ghost function BehindComment(line: string, buffer: string, delim: string, a: nat, b: nat): State
    requires a <= |line|
  {
    State(b, "", buffer + line[..a], '\0', false, false, true, delim, [])
  }

  lemma ToComment(env: Env, line: string, len: nat, buffer: string, delim: string, a: nat, b: nat, e: nat)
    requires Commented(env, line, len, delim, a, b, e) && Starts(env, line, len, buffer)
    ensures Goes(env, line, len, Start(buffer, '\0', false, delim), Start(buffer, '\0', false, delim).(pos := a, out := line[..a]))
  {
    var s := Start(buffer, '\0', false, delim);
    NarrowPlain(env, line, len, 0, a, delim);
    PlainGoes(env, line, len, s, a);
    assert "" + "" + line[0..a] == line[..a];
  }

  lemma OverComment(env: Env, line: string, len: nat, buffer: string, delim: string, a: nat, b: nat, e: nat)
    requires Commented(env, line, len, delim, a, b, e) && Starts(env, line, len, buffer) && SeesEnd(line, a, b)
    ensures Goes(env, line, len, Start(buffer, '\0', false, delim), BehindComment(line, buffer, delim, a, b))
  {
    var s := Start(buffer, '\0', false, delim);
    var s1 := s.(pos := a, out := line[..a]);
    ToComment(env, line, len, buffer, delim, a, b, e);
    assert Narrow(env, line, len, a) && Narrow(env, line, len, b - 2);
    NarrowComment(env, line, len, a + 2, b - 2);
    CommentGoes(env, line, len, s1, b);
    GoesOn(env, line, len, s, s1, BehindComment(line, buffer, delim, a, b));
  }

  /** The text up to e, after a comment. */
  ghost function BehindText(env: Env, line: string, s: State, e: nat): State
    requires s.pos <= e <= |line|
  {
    s.(pos := e, needSpace := s.needSpace && s.pos == e, out := Gap(env, line, s.pos, e) + line[s.pos..e])
  }

  lemma TextBehind(env: Env, line: string, len: nat, s: State, e: nat)
    requires LineOk(line, len) && EnvOk(env) && DelimOk(s.delim) && Outside(s) && !s.ss && s.needSpace && s.out == "" && s.buffer != ""
    requires s.pos <= e <= len && (forall i: nat :: i < len ==> Narrow(env, line, len, i))
    requires forall i: nat :: s.pos <= i < e ==> PlainAt(env, line, i, s.delim)
    ensures Goes(env, line, len, s, BehindText(env, line, s, e))
  {
    if s.pos < e {
      NarrowPlain(env, line, len, s.pos, e, s.delim);
      assert Narrow(env, line, len, s.pos);
      PlainGoes(env, line, len, s, e);
      assert "" + Owed(env, s, line[s.pos]) == Gap(env, line, s.pos, e);
    } else {
      assert BehindText(env, line, s, e) == s;
      GoesSelf(env, line, len, s);
    }
  }

  /** What the comment as one space would leave. */
  ghost function AsSpace(env: Env, line: string, len: nat, buffer: string, delim: string, a: nat, b: nat, truncated: bool): Result
    requires a <= b <= len <= |line|
  {
    var tail := Gap(env, line, b, len) + line[b..len];
    Result(false, buffer + line[..a] + tail + (if truncated || env.isDelimiterCommand(tail) then "" else "\n"),
           '\0', false, delim, [])
  }

  lemma SeenIsSpace(env: Env, line: string, len: nat, buffer: string, delim: string, a: nat, b: nat, truncated: bool)
    requires Commented(env, line, len, delim, a, b, len) && Starts(env, line, len, buffer) && SeesEnd(line, a, b)
    ensures AddLine(env, line, len, buffer, '\0', false, delim, truncated) == AsSpace(env, line, len, buffer, delim, a, b, truncated)
  {
    var s := Start(buffer, '\0', false, delim);
    var s1 := BehindComment(line, buffer, delim, a, b);
    var s2 := BehindText(env, line, s1, len);
    OverComment(env, line, len, buffer, delim, a, b, len);
    TextBehind(env, line, len, s1, len);
    GoesOn(env, line, len, s, s1, s2);
    EndOfLine(env, line, len, s, s2, truncated);
    assert s2.buffer + s2.out + "" == s2.buffer + s2.out;
  }

  // --------------------------------------------------- a statement with a comment

  /** What a delimiter at the end of the line leads to. */
  ghost function Sent(env: Env, len: nat, s: State): Outcome {
    var reply := env.reply(|s.calls|);
    var s1 := State(len, "", if reply.quit then reply.buffer else "", '\0', false, s.ss, s.needSpace, reply.delim,
                    s.calls + [Execute(s.buffer + s.out)]);
    if reply.quit then Quit(s1) else Stop(s1)
  }

  lemma SendsIt(env: Env, line: string, len: nat, s: State)
    requires LineOk(line, len) && EnvOk(env) && DelimOk(s.delim) && Outside(s) && !env.preserve && s.buffer != ""
    requires s.pos + |s.delim| == len && Delimits(line, s.pos, s.delim) && s.delim[0] != '\\' && Narrow(env, line, len, s.pos)
    ensures Run(env, line, len, s) == Sent(env, len, s)
  {
    var s1 := Executed(env, line, s, len);
    assert s.buffer + s.out + line[len..len] == s.buffer + s.out;
    assert line[s.pos + 0] == s.delim[0];
    DelimiterIs(env, line, len, s, len, len);
    if env.reply(|s.calls|).quit {
      StepHalts(env, line, len, s, Quit(s1));
    } else {
      RunMore(env, line, len, s, s1);
      GoesIs(env, line, len, s, s1);
      HaltsRun(env, line, len, LineOver, s1, Stop(s1));
    }
  }

  /** A line of plain text, a comment and plain text, with the delimiter at its end. */
  ghost predicate CommentedStatement(env: Env, line: string, len: nat, delim: string, a: nat, b: nat, e: nat) {
    Commented(env, line, len, delim, a, b, e) && e + |delim| == len && Delimits(line, e, delim) && delim[0] != '\\'
  }

  /** What is executed when the comment stands for one space. */
  ghost function StatementAsSpace(env: Env, line: string, buffer: string, a: nat, b: nat, e: nat): string
    requires a <= b <= e <= |line|
  {
    buffer + line[..a] + Gap(env, line, b, e) + line[b..e]
  }

  lemma SentLeaves(env: Env, len: nat, s: State, truncated: bool, statement: string)
    requires Outside(s) && s.calls == [] && s.buffer + s.out == statement
    ensures LineLeaves(env, Sent(env, len, s), truncated) ==
            var reply := env.reply(0);
            Result(reply.quit, if reply.quit then reply.buffer else "", '\0', false, reply.delim, [Execute(statement)])
  {
  }

  /** With the delimiter at the end of the line, the statement that is executed has the space
      for the comment. */
  lemma CommentInStatement(env: Env, line: string, len: nat, buffer: string, delim: string, a: nat, b: nat, e: nat, truncated: bool)
    requires CommentedStatement(env, line, len, delim, a, b, e) && Starts(env, line, len, buffer) && SeesEnd(line, a, b)
    ensures AddLine(env, line, len, buffer, '\0', false, delim, truncated) ==
            var reply := env.reply(0);
            Result(reply.quit, if reply.quit then reply.buffer else "", '\0', false, reply.delim,
                   [Execute(StatementAsSpace(env, line, buffer, a, b, e))])
  {
    var s := Start(buffer, '\0', false, delim);
    var s1 := BehindComment(line, buffer, delim, a, b);
    var s2 := BehindText(env, line, s1, e);
    OverComment(env, line, len, buffer, delim, a, b, e);
    TextBehind(env, line, len, s1, e);
    GoesOn(env, line, len, s, s1, s2);
    assert s2.buffer + s2.out == StatementAsSpace(env, line, buffer, a, b, e);
    Sending(env, line, len, s, s2, truncated);
  }

  lemma Sending(env: Env, line: string, len: nat, s: State, s2: State, truncated: bool)
    requires LineOk(line, len) && EnvOk(env) && s == Start(s.buffer, '\0', false, s.delim) && Goes(env, line, len, s, s2)
    requires s.buffer != "" || line[0] != '\0'
    requires Outside(s2) && !env.preserve && s2.buffer != "" && s2.calls == [] && s2.pos + |s2.delim| == len
    requires Delimits(line, s2.pos, s2.delim) && s2.delim != "" && s2.delim[0] != '\\' && Narrow(env, line, len, s2.pos)
    ensures AddLine(env, line, len, s.buffer, '\0', false, s.delim, truncated) ==
            var reply := env.reply(0);
            Result(reply.quit, if reply.quit then reply.buffer else "", '\0', false, reply.delim, [Execute(s2.buffer + s2.out)])
  {
    GoesIs(env, line, len, s, s2);
    SendsIt(env, line, len, s2);
    LeavesIs(env, line, len, s, Sent(env, len, s2), truncated);
    SentLeaves(env, len, s2, truncated, s2.buffer + s2.out);
  }

  // ---------------------------------------------------------- the end is missed

  /** From pos on, something keeps the client from seeing the end in front of b. */
  ghost predicate Misses(line: string, b: nat, pos: nat, ss: bool)
    requires 3 <= b <= |line|
  {
    ss || (pos <= b - 3 && line[b - 3] == '/') || exists j: nat :: pos <= j < b - 2 && ServerOpens(line, j)
  }

  /** Inside a dropped comment of single-byte characters, whose end is in front of b. */
  ghost predicate InDropped(env: Env, line: string, len: nat, s: State, b: nat) {
    && LineOk(line, len) && EnvOk(env) && Sane(env) && DelimOk(s.delim) && Dropping(env, s) && s.pos <= len
    && (forall i: nat :: i < len ==> Narrow(env, line, len, i))
    && 3 <= b <= len && At(line, b - 2, '*', '/')
  }

  lemma MissesOn(env: Env, line: string, len: nat, s: State, b: nat)
    requires InDropped(env, line, len, s, b) && s.pos <= b - 2 && Misses(line, b, s.pos, s.ss)
    requires forall i: nat :: s.pos <= i < b - 2 ==> !At(line, i, '*', '/')
    ensures !(At(line, s.pos, '*', '/') && !s.ss)
    ensures var s1 := DropNext(env, line, len, s); s1.pos <= b - 2 ==> Misses(line, b, s1.pos, s1.ss)
  {
    assert Narrow(env, line, len, s.pos);
    var s1 := DropNext(env, line, len, s);
    if !s.ss && !(s.pos <= b - 3 && line[b - 3] == '/') {
      var j: nat :| s.pos <= j < b - 2 && ServerOpens(line, j);
      assert s1.pos <= j || j == s.pos;
    }
  }

  /** Then it goes on dropping behind that end. */
  lemma {:induction false} MissesEnd(env: Env, line: string, len: nat, s: State, b: nat) returns (s': State)
    requires InDropped(env, line, len, s, b) && s.pos <= b - 2 && Misses(line, b, s.pos, s.ss)
    requires forall i: nat :: s.pos <= i < b - 2 ==> !At(line, i, '*', '/')
    ensures b - 1 <= s'.pos && s' == s.(pos := s'.pos, ss := s'.ss) && InDropped(env, line, len, s', b)
    ensures Goes(env, line, len, s, s')
    decreases b - s.pos
  {
    var s1 := DropNext(env, line, len, s);
    MissesOn(env, line, len, s, b);
    DropOne(env, line, len, s);
    if s1.pos <= b - 2 {
      s' := MissesEnd(env, line, len, s1, b);
      GoesOn(env, line, len, s, s1, s');
    } else {
      s' := s1;
    }
  }

  /** The line ended in the comment, or the comment ended at r and the text behind that was
      accepted. */
  ghost predicate LateEnd(env: Env, line: string, len: nat, s: State, b: nat, t: State, r: nat) {
    t == s.(pos := t.pos, ss := t.ss) ||
    (b <= r && r + 2 <= len < |line| && line[r] == '*' && Outside(t) && t.buffer == s.buffer
     && t.out == Gap(env, line, r + 2, len) + line[r + 2..len])
  }

  /** The comment ends here, and the plain text behind it is accepted. */
  lemma EndsLate(env: Env, line: string, len: nat, s: State, e: nat) returns (t: State)
    requires LineOk(line, len) && EnvOk(env) && Sane(env) && DelimOk(s.delim) && Dropping(env, s) && !s.ss && s.buffer != ""
    requires s.pos + 2 <= e <= len && At(line, s.pos, '*', '/') && (forall i: nat :: i < len ==> Narrow(env, line, len, i))
    requires forall i: nat :: s.pos + 2 <= i < e ==> PlainAt(env, line, i, s.delim)
    ensures Goes(env, line, len, s, t) && t.pos == e && Outside(t) && t.buffer == s.buffer && t.delim == s.delim && t.calls == s.calls
    ensures t.out == Gap(env, line, s.pos + 2, e) + line[s.pos + 2..e]
  {
    var s1 := Closed(env, s);
    assert s.buffer + (s.out + "") == s.buffer;
    assert Narrow(env, line, len, s.pos);
    CloseComment(env, line, len, s);
    TextBehind(env, line, len, s1, e);
    t := BehindText(env, line, s1, e);
    GoesOn(env, line, len, s, s1, t);
  }

  lemma StaysDropped(env: Env, line: string, len: nat, s: State, b: nat) returns (s1: State)
    requires InDropped(env, line, len, s, b) && s.pos < len && !(At(line, s.pos, '*', '/') && !s.ss)
    ensures InDropped(env, line, len, s1, b) && s.pos < s1.pos && s1 == s.(pos := s1.pos, ss := s1.ss)
    ensures Goes(env, line, len, s, s1)
  {
    s1 := DropNext(env, line, len, s);
    DropOne(env, line, len, s);
  }

  lemma {:induction false} DropsRest(env: Env, line: string, len: nat, s: State, b: nat) returns (t: State, r: nat)
    requires InDropped(env, line, len, s, b) && b - 1 <= s.pos && s.buffer != ""
    requires forall i: nat :: b <= i < len ==> PlainAt(env, line, i, s.delim)
    ensures Goes(env, line, len, s, t) && t.pos == len && LateEnd(env, line, len, s, b, t, r)
    decreases len - s.pos
  {
    if s.pos == len {
      t, r := s, 0;
      GoesSelf(env, line, len, s);
    } else if At(line, s.pos, '*', '/') && !s.ss {
      assert line[b - 1] == '/' && line[s.pos + 1] != '\0';
      r := s.pos;
      t := EndsLate(env, line, len, s, len);
    } else {
      var s1 := StaysDropped(env, line, len, s, b);
      t, r := DropsRest(env, line, len, s1, b);
      GoesOn(env, line, len, s, s1, t);
    }
  }

  /** What is left is not what the comment as a space would leave. */
  lemma LateIsShort(env: Env, line: string, len: nat, buffer: string, delim: string, a: nat, b: nat, s: State, t: State, r: nat, truncated: bool)
    requires 0 < a <= b <= len < |line| && !env.isSpace('*') && !env.preserve
    requires s.ml && s.buffer == buffer + line[..a] && LateEnd(env, line, len, s, b, t, r)
    ensures LineLeaves(env, Stop(t), truncated) != AsSpace(env, line, len, buffer, delim, a, b, truncated)
  {
    if !t.ml {
      assert |t.out| <= 1 + (len - r - 2);
      assert |Gap(env, line, b, len) + line[b..len]| >= len - b + if r == b then 1 else 0;
      assert |LeftOver(env, t, truncated)| <= |buffer| + a + |t.out| + 1;
      assert |AsSpace(env, line, len, buffer, delim, a, b, truncated).buffer| >= |buffer| + a + (len - b) + if r == b then 1 else 0;
    }
  }

  /** The line goes into the comment and not out of it at b, ... */
  lemma IntoComment(env: Env, line: string, len: nat, buffer: string, delim: string, a: nat, b: nat, e: nat) returns (s: State)
    requires Commented(env, line, len, delim, a, b, e) && Starts(env, line, len, buffer) && !SeesEnd(line, a, b)
    ensures b - 1 <= s.pos && InDropped(env, line, len, s, b)
    ensures s.delim == delim && s.calls == [] && s.buffer == buffer + line[..a]
    ensures Goes(env, line, len, Start(buffer, '\0', false, delim), s)
  {
    var s0 := Start(buffer, '\0', false, delim);
    var s1 := s0.(pos := a, out := line[..a]);
    var s2 := Opened(env, s1);
    ToComment(env, line, len, buffer, delim, a, b, e);
    assert Narrow(env, line, len, a);
    OpenComment(env, line, len, s1);
    GoesOn(env, line, len, s0, s1, s2);
    assert line[..a] + "" == line[..a];
    s := MissesEnd(env, line, len, s2, b);
    GoesOn(env, line, len, s0, s2, s);
  }

  /** ... and where the line ends then. */
  lemma MissedEnd(env: Env, line: string, len: nat, buffer: string, delim: string, a: nat, b: nat, truncated: bool)
    returns (s: State, t: State, r: nat)
    requires Commented(env, line, len, delim, a, b, len) && Starts(env, line, len, buffer) && !SeesEnd(line, a, b)
    ensures s.ml && s.inString == '\0' && s.delim == delim && s.calls == [] && s.buffer == buffer + line[..a]
    ensures LateEnd(env, line, len, s, b, t, r)
    ensures AddLine(env, line, len, buffer, '\0', false, delim, truncated) == LineLeaves(env, Stop(t), truncated)
  {
    var s0 := Start(buffer, '\0', false, delim);
    s := IntoComment(env, line, len, buffer, delim, a, b, len);
    t, r := DropsRest(env, line, len, s, b);
    GoesOn(env, line, len, s0, s, t);
    EndOfLine(env, line, len, s0, t, truncated);
  }

  lemma EndOfLine(env: Env, line: string, len: nat, s: State, t: State, truncated: bool)
    requires EnvOk(env) && Goes(env, line, len, s, t) && t.pos == len && s == Start(s.buffer, s.inString, s.ml, s.delim)
    requires line != "" && (s.buffer != "" || line[0] != '\0' || len == 0)
    requires LineOk(line, len) && DelimOk(s.delim)
    ensures AddLine(env, line, len, s.buffer, s.inString, s.ml, s.delim, truncated) == LineLeaves(env, Stop(t), truncated)
  {
    GoesIs(env, line, len, s, t);
    HaltsRun(env, line, len, LineOver, t, Stop(t));
    LeavesIs(env, line, len, s, Stop(t), truncated);
  }

  /** A comment in a line stands for one space exactly if the client sees its end. */
  lemma CommentIsSpace(env: Env, line: string, len: nat, buffer: string, delim: string, a: nat, b: nat, truncated: bool)
    requires Commented(env, line, len, delim, a, b, len) && Starts(env, line, len, buffer)
    ensures AddLine(env, line, len, buffer, '\0', false, delim, truncated) == AsSpace(env, line, len, buffer, delim, a, b, truncated)
       <==> SeesEnd(line, a, b)
  {
    if SeesEnd(line, a, b) {
      SeenIsSpace(env, line, len, buffer, delim, a, b, truncated);
    } else {
      var s, t, r := MissedEnd(env, line, len, buffer, delim, a, b, truncated);
      LateIsShort(env, line, len, buffer, delim, a, b, s, t, r, truncated);
    }
  }

  lemma SlashShape(env: Env, line: string)
    requires EnvOk(env) && Sane(env) && !env.preserve && (forall text: string :: env.mb(text) == 0) && !env.isSpace('a')
    requires line == "a/*/*/b\0"
    ensures Commented(env, line, 7, ";", 1, 6, 7) && Starts(env, line, 7, "") && !SeesEnd(line, 1, 6)
    ensures line[..1] == "a" && line[6] != '*'
  {
    assert line[3] == '/' && line[4] == '*' && line[5] == '/' && line[6] == 'b' && line[7] == '\0';
  }

  lemma SlashLeft(env: Env, line: string, s: State, t: State, r: nat)
    requires |line| == 8 && line[6] != '*' && !env.preserve && LateEnd(env, line, 7, s, 6, t, r)
    requires s.ml && s.inString == '\0' && s.delim == ";" && s.calls == [] && s.buffer == "" + line[..1] && line[..1] == "a"
    ensures LineLeaves(env, Stop(t), false) == Result(false, "a", '\0', true, ";", [])
  {
    assert "" + line[..1] == "a";
  }

  /** A comment whose text is one slash is not closed: the rest of the line is lost, and the
      next line starts inside the comment. */
  lemma SlashComment(env: Env)
    requires EnvOk(env) && Sane(env) && !env.preserve && (forall text: string :: env.mb(text) == 0) && !env.isSpace('a')
    ensures LineOk("a/*/*/b\0", 7) && DelimOk(";")
    ensures AddLine(env, "a/*/*/b\0", 7, "", '\0', false, ";", false) == Result(false, "a", '\0', true, ";", [])
  {
    var line: string :| line == "a/*/*/b\0";
    SlashShape(env, line);
    var s, t, r := MissedEnd(env, line, 7, "", ";", 1, 6, false);
    SlashLeft(env, line, s, t, r);
  }

  // ------------------------------------- a statement whose comment's end is missed

  /** No statement has been executed before anything else. */
  ghost predicate Quiet(calls: seq<Call>) {
    calls == [] || !calls[0].Execute?
  }

  /** Too little of the line is left for a delimiter. */
  lemma QuietStep(env: Env, line: string, len: nat, s: State)
    requires LineOk(line, len) && DelimOk(s.delim) && s.pos < len && !env.preserve && Quiet(s.calls)
    requires s.calls == [] ==> len - s.pos < |s.delim|
    ensures var o := Step(env, line, len, s); Quiet(o.s.calls) && (o.s.calls == [] ==> o.s.delim == s.delim)
  {
    if PrefixAt(line, s.pos, s.delim) {
      PrefixInside(line, len, s.pos, s.delim);
    }
  }

  lemma {:induction false} QuietRun(env: Env, line: string, len: nat, s: State)
    requires LineOk(line, len) && DelimOk(s.delim) && s.pos <= len && !env.preserve && Quiet(s.calls)
    requires s.calls == [] ==> len - s.pos < |s.delim|
    ensures Quiet(Run(env, line, len, s).s.calls)
    decreases len - s.pos
  {
    if s.pos < len {
      QuietStep(env, line, len, s);
      var o := Step(env, line, len, s);
      if o.More? && s.pos < o.s.pos <= len && DelimOk(o.s.delim) {
        QuietRun(env, line, len, o.s);
      }
    }
  }

  /** Inside the comment behind b, where the plain text and the delimiter follow. */
  ghost predicate Trailing(env: Env, line: string, len: nat, s: State, b: nat, e: nat) {
    && InDropped(env, line, len, s, b) && b - 1 <= s.pos && s.buffer != "" && s.calls == []
    && b <= e && e + |s.delim| == len && Delimits(line, e, s.delim) && s.delim[0] != '\\'
    && (forall i: nat :: b <= i < e ==> PlainAt(env, line, i, s.delim))
  }

  /** Then too little of the line is left for a delimiter, or the comment ended at r and the
      plain text behind that has been read. */
  ghost predicate TrailEnd(env: Env, line: string, len: nat, s: State, b: nat, e: nat, t: State, r: nat) {
    && t.calls == [] && t.delim == s.delim && t.pos <= len
    && (len - t.pos < |t.delim| ||
        (b <= r && r + 2 <= e < |line| && Outside(t) && t.pos == e && t.buffer == s.buffer
         && t.out == Gap(env, line, r + 2, e) + line[r + 2..e]))
  }

  lemma {:induction false} TrailsOff(env: Env, line: string, len: nat, s: State, b: nat, e: nat) returns (t: State, r: nat)
    requires Trailing(env, line, len, s, b, e)
    ensures Goes(env, line, len, s, t) && TrailEnd(env, line, len, s, b, e, t, r)
    decreases len - s.pos
  {
    r := s.pos;
    if s.pos == len {
      t := s;
      GoesSelf(env, line, len, s);
    } else if At(line, s.pos, '*', '/') && !s.ss {
      assert line[b - 1] == '/' && line[s.pos + 1] != '\0';
      if s.pos + 2 <= e {
        t := EndsLate(env, line, len, s, e);
      } else {
        assert Narrow(env, line, len, s.pos);
        CloseComment(env, line, len, s);
        t := Closed(env, s);
      }
    } else {
      var s1 := StaysDropped(env, line, len, s, b);
      t, r := TrailsOff(env, line, len, s1, b, e);
      GoesOn(env, line, len, s, s1, t);
    }
  }

  /** What can be executed in the end is what is left behind a later end. */
  ghost predicate SentLate(env: Env, line: string, buffer: string, b: nat, e: nat, r: nat, calls: seq<Call>) {
    Quiet(calls) ||
    (b <= r && r + 2 <= e < |line| && calls == [Execute(buffer + (Gap(env, line, r + 2, e) + line[r + 2..e]))])
  }

  lemma TrailSends(env: Env, line: string, len: nat, s: State, b: nat, e: nat, t: State, r: nat)
    requires Trailing(env, line, len, s, b, e) && TrailEnd(env, line, len, s, b, e, t, r)
    ensures SentLate(env, line, s.buffer, b, e, r, Run(env, line, len, t).s.calls)
  {
    if len - t.pos < |t.delim| {
      QuietRun(env, line, len, t);
    } else {
      assert Narrow(env, line, len, e);
      SendsIt(env, line, len, t);
    }
  }

  lemma LateIsOther(env: Env, line: string, buffer: string, a: nat, b: nat, e: nat, r: nat, calls: seq<Call>)
    requires a <= b <= e < |line| && SentLate(env, line, buffer + line[..a], b, e, r, calls)
    ensures calls != [Execute(StatementAsSpace(env, line, buffer, a, b, e))]
  {
    if !Quiet(calls) {
      assert |calls[0].buffer| <= |buffer| + a + 1 + (e - r - 2) < |buffer| + a + (e - b);
      assert |StatementAsSpace(env, line, buffer, a, b, e)| >= |buffer| + a + (e - b);
    }
  }

  lemma MissedStatement(env: Env, line: string, len: nat, buffer: string, delim: string, a: nat, b: nat, e: nat, truncated: bool)
    returns (r: nat)
    requires CommentedStatement(env, line, len, delim, a, b, e) && Starts(env, line, len, buffer) && !SeesEnd(line, a, b)
    ensures SentLate(env, line, buffer + line[..a], b, e, r,
                     AddLine(env, line, len, buffer, '\0', false, delim, truncated).calls)
  {
    var s0 := Start(buffer, '\0', false, delim);
    var s := IntoComment(env, line, len, buffer, delim, a, b, e);
    var t;
    t, r := TrailsOff(env, line, len, s, b, e);
    GoesOn(env, line, len, s0, s, t);
    TrailSends(env, line, len, s, b, e, t, r);
    SameCalls(env, line, len, s0, t, truncated);
  }

  lemma SameCalls(env: Env, line: string, len: nat, s: State, t: State, truncated: bool)
    requires LineOk(line, len) && DelimOk(s.delim) && Goes(env, line, len, s, t) && DelimOk(t.delim) && t.pos <= len
    requires s == Start(s.buffer, s.inString, s.ml, s.delim) && (s.buffer != "" || line[0] != '\0')
    ensures AddLine(env, line, len, s.buffer, s.inString, s.ml, s.delim, truncated).calls == Run(env, line, len, t).s.calls
  {
    GoesIs(env, line, len, s, t);
  }

  /** With the delimiter at the end of the line, the statement that is executed is the one
      with a space for the comment exactly if the client sees the comment's end. */
  lemma StatementIsSpaced(env: Env, line: string, len: nat, buffer: string, delim: string, a: nat, b: nat, e: nat, truncated: bool)
    requires CommentedStatement(env, line, len, delim, a, b, e) && Starts(env, line, len, buffer)
    ensures AddLine(env, line, len, buffer, '\0', false, delim, truncated).calls == [Execute(StatementAsSpace(env, line, buffer, a, b, e))]
       <==> SeesEnd(line, a, b)
  {
    if SeesEnd(line, a, b) {
      CommentInStatement(env, line, len, buffer, delim, a, b, e, truncated);
    } else {
      var r := MissedStatement(env, line, len, buffer, delim, a, b, e, truncated);
      LateIsOther(env, line, buffer, a, b, e, r, AddLine(env, line, len, buffer, '\0', false, delim, truncated).calls);
    }
  }
}
