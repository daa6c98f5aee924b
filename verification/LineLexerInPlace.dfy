/** The lexer as the client runs it: one buffer, edited in place. Every turn is proved
    to do what the out-of-place reference does, because what is still to be read has not
    been overwritten. */
module LineLexerInPlace {
  import opened Options
  import opened LineLexer

  /** The lexer's variables: the two cursors, and the rest of its state. */
  datatype Cursor = Cursor(
    pos: nat, w: nat, buffer: string, inString: char, ml: bool, ss: bool, needSpace: bool, delim: string, calls: seq<Call>)

  datatype Turn = Continue | Break | Return

  /** The reference state the variables and the buffer stand for. */
  ghost function View(c: Cursor, line: array<char>): State
    requires c.w <= line.Length
    reads line
  {
    State(c.pos, line[..c.w], c.buffer, c.inString, c.ml, c.ss, c.needSpace, c.delim, c.calls)
  }

  /** The buffer still holds the line from the read cursor on. */
  ghost predicate Unread(line: array<char>, orig: string, pos: nat)
    reads line
  {
    line.Length == |orig| && pos <= |orig| && forall i :: pos <= i < |orig| ==> line[i] == orig[i]
  }

  ghost predicate Ready(env: Env, line: array<char>, orig: string, len: nat, c: Cursor)
    reads line
  {
    && LineOk(orig, len) && EnvOk(env) && DelimOk(c.delim)
    && c.pos <= len && c.w <= c.pos && (c.needSpace ==> c.w < c.pos)
    && Unread(line, orig, c.pos)
  }

  /** A turn's result agrees with the reference's. */
  ghost predicate Agrees(turn: Turn, c: Cursor, line: array<char>, orig: string, o: Outcome)
    reads line
  {
    && c.w <= line.Length
    && (turn == Continue <==> o.More?) && (turn == Break <==> o.Stop?) && (turn == Return <==> o.Quit?)
    && View(c, line) == o.s
    && (o.More? ==> Unread(line, orig, c.pos))
  }

  /** Writing cell w while reading has got to pos keeps what is behind pos. */
  method Write(line: array<char>, w: nat, ch: char, ghost orig: string, ghost pos: nat)
    requires w < pos <= line.Length && Unread(line, orig, pos)
    modifies line
    ensures Unread(line, orig, pos) && line[..w + 1] == old(line[..w]) + [ch]
  {
    line[w] := ch;
  }

  /** Copying the cells from..to, both cursors moving together. */
  method Copy(line: array<char>, w: nat, from: nat, to: nat, ghost orig: string) returns (w': nat)
    requires w <= from <= to <= line.Length && Unread(line, orig, from)
    modifies line
    ensures w' == w + (to - from) && Unread(line, orig, to)
    ensures line[..w'] == old(line[..w]) + orig[from..to]
  {
    w' := w;
    var p := from;
    ghost var out := line[..w];
    while p < to
      invariant from <= p <= to && w' == w + (p - from)
      invariant Unread(line, orig, p) && line[..w'] == out + orig[from..p]
    {
      CopyCell(line, w', p, orig, from, out);
      w', p := w' + 1, p + 1;
    }
  }

  // -------------------------------------------------------------- read ahead

  method IsPrefix(line: array<char>, i: nat, t: string, ghost orig: string, ghost len: nat) returns (b: bool)
    requires LineOk(orig, len) && Unread(line, orig, i) && i <= len && DelimOk(t)
    ensures b == PrefixAt(orig, i, t)
  {
    var k := 0;
    while k < |t|
      invariant 0 <= k <= |t| && i + k <= len
      invariant forall j :: 0 <= j < k ==> orig[i + j] == t[j]
    {
      if line[i + k] != t[k] {
        return false;
      }
      assert t[k] in t;
      k := k + 1;
    }
    return true;
  }

  /** Skipping a command's parameters. */
  method SkipParameters(line: array<char>, pos: nat, ss: bool, delim: string, ghost orig: string, ghost len: nat) returns (r: nat)
    requires LineOk(orig, len) && Unread(line, orig, pos) && pos < len && DelimOk(delim)
    ensures r == AfterParameters(orig, pos, ss, delim)
  {
    r := pos + 1;
    if ss {
      var stop := false;
      while !stop
        invariant pos + 1 <= r <= len && CommentEnd(orig, r) == CommentEnd(orig, pos + 1)
        invariant stop ==> r == CommentEnd(orig, pos + 1)
        decreases len - r, if stop then 0 else 1
      {
        if line[r] != '\0' && (line[r] != '*' || line[r + 1] != '/') {
          r := r + 1;
        } else {
          stop := true;
        }
      }
    } else {
      var stop := false;
      while !stop
        invariant pos + 1 <= r <= len && DelimPos(orig, r, delim) == DelimPos(orig, pos + 1, delim)
        invariant stop ==> r == DelimPos(orig, pos + 1, delim)
        decreases len - r, if stop then 0 else 1
      {
        var found := IsPrefix(line, r, delim, orig, len);
        if line[r] != '\0' && !found {
          r := r + 1;
        } else {
          stop := true;
        }
      }
      if line[r] != '\0' {
        r := r + |delim|;
      }
    }
  }

  // ------------------------------------------------------------------- turns

  /** Moving the accepted cells to the buffer. */
  function Flushed(c: Cursor, out: string): Cursor {
    c.(buffer := c.buffer + out, w := 0)
  }

  method BackslashTurn(env: Env, line: array<char>, len: nat, c: Cursor, ghost orig: string)
    returns (turn: Turn, c': Cursor)
    requires Ready(env, line, orig, len, c) && c.pos < len
    modifies line
    ensures Agrees(turn, c', line, orig, BackslashStep(env, orig, old(View(c, line))))
  {
    var ch := line[c.pos + 1];
    turn := Continue;
    if ch == '\0' {
      return Break, c.(pos := c.pos + 1);
    }
    if c.inString != '\0' || ch == 'N' {
      c' := AcceptEscaped(line, len, c, ch, orig);
    } else {
      turn, c' := NamedTurn(env, line, len, c, ch, orig);
    }
  }

  method NamedTurn(env: Env, line: array<char>, len: nat, c: Cursor, ch: char, ghost orig: string)
    returns (turn: Turn, c': Cursor)
    requires Ready(env, line, orig, len, c) && c.pos + 1 < len
    modifies line
    ensures Agrees(turn, c', line, orig, NamedStep(env, orig, old(View(c, line)), ch))
  {
    var com := env.command(ch);
    if com.Some? {
      turn, c' := CommandTurn(env, line, len, c, ch, com.value, orig);
    } else {
      turn, c' := ComplainTurn(env, line, len, c, ch, orig, NamedStep(env, orig, View(c, line), ch));
    }
  }

  /** An unknown command. */
  method ComplainTurn(env: Env, line: array<char>, len: nat, c: Cursor, ch: char, ghost orig: string, ghost o: Outcome)
    returns (turn: Turn, c': Cursor)
    requires Ready(env, line, orig, len, c) && c.pos + 1 < len
    requires var s1 := View(c, line).(calls := c.calls + [Complain(ch)]);
             o == if env.reply(|c.calls|).quit then Quit(s1) else More(EscapedState(s1, ch))
    modifies line
    ensures Agrees(turn, c', line, orig, o)
  {
    var calls := c.calls + [Complain(ch)];
    if env.reply(|c.calls|).quit {
      return Return, c.(calls := calls);
    }
    c' := AcceptEscaped(line, len, c, ch, orig);
    return Continue, c'.(calls := calls);
  }

  /** Running the command named after the backslash. */
  method CommandTurn(env: Env, line: array<char>, len: nat, c: Cursor, name: char, takesParams: bool, ghost orig: string)
    returns (turn: Turn, c': Cursor)
    requires Ready(env, line, orig, len, c) && c.pos + 1 < len
    ensures var reply := env.reply(|c.calls|);
            var next := if takesParams then AfterParameters(orig, c.pos + 1, c.ss, reply.delim) else c.pos + 2;
            Agrees(turn, c', line, orig, CommandOutcome(View(c, line), name, RestOfLine(orig, c.pos), reply, next))
  {
    var reply := env.reply(|c.calls|);
    var next := c.pos + 2;
    if takesParams {
      next := SkipParameters(line, c.pos + 1, c.ss, reply.delim, orig, len);
      ParametersInside(orig, len, c.pos + 1, c.ss, reply.delim);
    }
    var end := FindEnd(line, len, c.pos, orig);
    var rest := Slice(line, c.pos, end, orig);
    turn, c' := Handed(line, c, name, rest, reply, next, orig);
  }

  /** Handing the buffer over; the write cursor goes back to the start. */
  method Handed(line: array<char>, c: Cursor, name: char, rest: string, reply: Reply, next: nat, ghost orig: string)
    returns (turn: Turn, c': Cursor)
    requires c.w <= line.Length && Unread(line, orig, next)
    ensures Agrees(turn, c', line, orig, CommandOutcome(View(c, line), name, rest, reply, next))
  {
    assert line[..0] == "";
    c' := c.(w := 0, buffer := reply.buffer, delim := reply.delim, calls := c.calls + [Command(name, c.buffer + line[..c.w], rest)]);
    turn := if reply.quit then Return else Continue;
    c' := c'.(pos := if reply.quit then c.pos else next);
  }

  /** A backslash and the character after it are accepted. */
  method AcceptEscaped(line: array<char>, len: nat, c: Cursor, ch: char, ghost orig: string) returns (c': Cursor)
    requires c.w <= c.pos && c.pos + 1 < len < line.Length && Unread(line, orig, c.pos)
    modifies line
    ensures c' == c.(w := c.w + 2, pos := c.pos + 2) && Unread(line, orig, c.pos + 2)
    ensures line[..c.w + 2] == old(line[..c.w]) + ['\\', ch]
  {
    Write(line, c.w, '\\', orig, c.pos + 2);
    Write(line, c.w + 1, ch, orig, c.pos + 2);
    c' := c.(w := c.w + 2, pos := c.pos + 2);
  }

  method CommentTurn(env: Env, line: array<char>, len: nat, c: Cursor, opens: bool, ghost orig: string) returns (c': Cursor)
    requires Ready(env, line, orig, len, c) && c.pos + 1 < len
    modifies line
    ensures Agrees(Continue, c', line, orig, More(CommentStep(env, orig, old(View(c, line)), opens)))
  {
    var w := c.w;
    if env.preserve {
      w := Copy(line, c.w, c.pos, c.pos + 2, orig);
      assert orig[c.pos..c.pos + 2] == [orig[c.pos], orig[c.pos + 1]];
    } else {
      assert line[..c.w] + "" == line[..c.w];
    }
    c' := Flushed(c, line[..w]).(pos := c.pos + 2, ml := opens, needSpace := if opens then c.needSpace else true);
    assert line[..0] == "";
  }

  /** A character is accepted, after the space owed for a comment. */
  method AcceptPlain(line: array<char>, c: Cursor, space: bool, ch: char, ghost orig: string) returns (w: nat)
    requires c.pos < line.Length && c.w + (if space then 1 else 0) <= c.pos && Unread(line, orig, c.pos)
    modifies line
    ensures w <= line.Length && Unread(line, orig, c.pos + 1)
    ensures line[..w] == old(line[..c.w]) + (if space then " " else "") + [ch]
  {
    w := c.w;
    if space {
      Write(line, w, ' ', orig, c.pos + 1);
      w := w + 1;
    }
    assert line[..w] == old(line[..c.w]) + (if space then " " else "");
    Write(line, w, ch, orig, c.pos + 1);
    w := w + 1;
  }

  /** The quote and comment flags after a plain character. */
  method PlainFlags(line: array<char>, len: nat, c: Cursor, ghost orig: string) returns (ss: bool, inString: char)
    requires LineOk(orig, len) && c.pos < len && Unread(line, orig, c.pos)
    ensures ss == ServerComment(orig, c.pos, c.inString, c.ss)
    ensures inString == OpenQuote(orig[c.pos], c.inString, c.ml)
  {
    var ch := line[c.pos];
    ss, inString := c.ss, c.inString;
    if c.inString == '\0' && ch == '/' && line[c.pos + 1] == '*' && line[c.pos + 2] == '!' {
      ss := true;
    } else if c.inString == '\0' && c.ss && ch == '*' && line[c.pos + 1] == '/' {
      ss := false;
    }
    if ch == c.inString {
      inString := '\0';
    } else if !c.ml && c.inString == '\0' && IsQuote(ch) {
      inString := ch;
    }
  }

  method PlainTurn(env: Env, line: array<char>, len: nat, c: Cursor, ghost orig: string) returns (c': Cursor)
    requires Ready(env, line, orig, len, c) && c.pos < len
    modifies line
    ensures Agrees(Continue, c', line, orig, More(PlainStep(env, orig, old(View(c, line)))))
  {
    var ch := line[c.pos];
    var ss, inString := PlainFlags(line, len, c, orig);
    c' := c.(ss := ss, inString := inString, pos := c.pos + 1);
    if !c.ml || env.preserve {
      var w := AcceptPlain(line, c, c.needSpace && !env.isSpace(ch), ch, orig);
      c' := c'.(needSpace := false, w := w);
    } else {
    }
  }

  /** Copying one cell. */
  method CopyCell(line: array<char>, w: nat, p: nat, ghost orig: string, ghost from: nat, ghost out: string)
    requires w <= p < line.Length && from <= p && Unread(line, orig, p) && line[..w] == out + orig[from..p]
    modifies line
    ensures Unread(line, orig, p + 1) && line[..w + 1] == out + orig[from..p + 1]
  {
    Write(line, w, line[p], orig, p + 1);
    assert orig[from..p + 1] == orig[from..p] + [orig[p]];
    assert out + orig[from..p + 1] == (out + orig[from..p]) + [orig[p]];
  }

  /** Copying spaces after a delimiter. */
  method CopySpaces(env: Env, line: array<char>, len: nat, w: nat, from: nat, ghost orig: string) returns (w': nat, p: nat)
    requires LineOk(orig, len) && EnvOk(env) && w < from <= len && Unread(line, orig, from)
    modifies line
    ensures from <= p == SpacesEnd(env, orig, from) <= len
    ensures w' == w + (p - from) && Unread(line, orig, p)
    ensures line[..w'] == old(line[..w]) + orig[from..p]
  {
    w', p := w, from;
    ghost var out := line[..w];
    while env.isSpace(line[p])
      invariant from <= p <= len && w' == w + (p - from)
      invariant Unread(line, orig, p) && SpacesEnd(env, orig, p) == SpacesEnd(env, orig, from)
      invariant line[..w'] == out + orig[from..p]
      decreases len - p
    {
      CopyCell(line, w', p, orig, from, out);
      w', p := w' + 1, p + 1;
    }
  }

  /** The end of the C string at pos. */
  method FindEnd(line: array<char>, len: nat, pos: nat, ghost orig: string) returns (r: nat)
    requires LineOk(orig, len) && pos <= len && Unread(line, orig, pos)
    ensures r == StrEnd(orig, pos) && pos <= r <= len
  {
    r := pos;
    while line[r] != '\0'
      invariant pos <= r <= len && line[r] == orig[r] && StrEnd(orig, r) == StrEnd(orig, pos)
      decreases len - r
    {
      r := r + 1;
    }
  }

  /** Is there a single-line comment right after the delimiter? */
  method IsTrailing(env: Env, line: array<char>, len: nat, q: nat, ghost orig: string) returns (b: bool)
    requires LineOk(orig, len) && q <= len && Unread(line, orig, q)
    ensures b == TrailingComment(env, orig, q)
  {
    b := env.preserve && (line[q] == '#' || (line[q] == '-' && line[q + 1] == '-' && env.isSpace(line[q + 2])));
  }

  /** The text of the buffer between two positions that are still unread. */
  method Slice(line: array<char>, i: nat, j: nat, ghost orig: string) returns (text: string)
    requires Unread(line, orig, i) && i <= j <= line.Length
    ensures text == Between(orig, i, j)
  {
    text := line[i..j];
  }

  /** The spaces after a delimiter, if they are kept. */
  method KeepSpaces(env: Env, line: array<char>, len: nat, w: nat, p: nat, ghost orig: string) returns (w': nat, q: nat)
    requires LineOk(orig, len) && EnvOk(env) && w < p <= len && Unread(line, orig, p)
    modifies line
    ensures q == SpacesAfter(env, orig, p) <= len && Unread(line, orig, q) && w' <= line.Length
    ensures line[..w'] == old(line[..w]) + Between(orig, p, q)
  {
    w', q := w, p;
    if env.preserve {
      w', q := CopySpaces(env, line, len, w, p, orig);
    } else {
      assert orig[p..p] == "" && line[..w] + "" == line[..w];
    }
  }

  /** Collecting the statement that a delimiter ends. */
  method CollectStatement(env: Env, line: array<char>, len: nat, w: nat, buffer: string, p: nat, ghost orig: string)
    returns (statement: string, r: nat)
    requires LineOk(orig, len) && EnvOk(env) && w < p <= len && Unread(line, orig, p)
    modifies line
    ensures r == StatementEnd(env, orig, p) <= len && Unread(line, orig, r)
    ensures statement == buffer + (old(line[..w]) + StatementTail(env, orig, p))
  {
    var w', q := KeepSpaces(env, line, len, w, p, orig);
    var accepted := line[..w'];
    var trailing := IsTrailing(env, line, len, q, orig);
    r := q;
    if trailing {
      r := FindEnd(line, len, q, orig);
    }
    var rest := Slice(line, q, r, orig);
    statement := buffer + accepted + rest;
  }

  /** After a statement has been executed. */
  method Executed(line: array<char>, c: Cursor, statement: string, reply: Reply, next: nat, ghost orig: string, ghost s: State)
    returns (turn: Turn, c': Cursor)
    requires Unread(line, orig, next)
    requires s == State(s.pos, s.out, s.buffer, c.inString, c.ml, c.ss, c.needSpace, s.delim, c.calls)
    ensures Agrees(turn, c', line, orig, ExecuteOutcome(s, statement, reply, next))
  {
    assert line[..0] == "";
    c' := c.(w := 0, buffer := if reply.quit then reply.buffer else "", delim := reply.delim,
             calls := c.calls + [Execute(statement)], pos := next);
    turn := if reply.quit then Return else Continue;
  }

  /** Executing the statement whose delimiter ends at p. */
  method ExecuteTurn(env: Env, line: array<char>, len: nat, c: Cursor, p: nat, ghost orig: string, ghost o: Outcome)
    returns (turn: Turn, c': Cursor)
    requires LineOk(orig, len) && EnvOk(env) && c.w < p <= len && Unread(line, orig, p)
    requires var s := View(c, line);
             o == ExecuteOutcome(s, s.buffer + (s.out + StatementTail(env, orig, p)), env.reply(|s.calls|),
                                 StatementEnd(env, orig, p))
    modifies line
    ensures Agrees(turn, c', line, orig, o)
  {
    ghost var s := View(c, line);
    var statement, r := CollectStatement(env, line, len, c.w, c.buffer, p, orig);
    turn, c' := Executed(line, c, statement, env.reply(|c.calls|), r, orig, s);
  }

  /** The turn at a delimiter. */
  method DelimiterTurn(env: Env, line: array<char>, len: nat, c: Cursor, ghost orig: string) returns (turn: Turn, c': Cursor)
    requires Ready(env, line, orig, len, c) && c.pos + |c.delim| <= len
    modifies line
    ensures Agrees(turn, c', line, orig, DelimiterStep(env, orig, old(View(c, line))))
  {
    turn, c' := ExecuteTurn(env, line, len, c, c.pos + |c.delim|, orig, DelimiterStep(env, orig, View(c, line)));
  }

  method LineCommentTurn(env: Env, line: array<char>, len: nat, c: Cursor, ghost orig: string)
    returns (turn: Turn, c': Cursor)
    requires Ready(env, line, orig, len, c) && c.pos < len
    ensures Agrees(turn, c', line, orig, LineCommentStep(env, orig, View(c, line)))
  {
    c' := Flushed(c, line[..c.w]);
    turn := Break;
    assert line[..0] == "";
    if env.preserve {
      var startedWithNothing := c'.buffer == "";
      var end := FindEnd(line, len, c.pos, orig);
      var comment := Slice(line, c.pos, end, orig);
      c' := c'.(buffer := c'.buffer + comment);
      if startedWithNothing {
        var reply := env.reply(|c.calls|);
        c' := c'.(delim := reply.delim, calls := c.calls + [Execute(c'.buffer)],
                  buffer := if reply.quit then reply.buffer else "");
        if reply.quit {
          turn := Return;
        }
      }
    }
  }

  // ---------------------------------------------------------------- the loop

  /** Does a comment to the end of the line start here? */
  method IsLineComment(env: Env, line: array<char>, len: nat, c: Cursor, ghost orig: string) returns (b: bool)
    requires Ready(env, line, orig, len, c) && c.pos < len
    ensures b == LineCommentAt(env, orig, View(c, line))
  {
    var p := c.pos;
    b := line[p] == '#'
      || (line[p] == '-' && line[p + 1] == '-'
          && (env.isSpace(line[p + 2]) || line[p + 2] == '\0' || (c.buffer == "" && c.w == 0)));
    assert line[..c.w] == "" <==> c.w == 0;
  }

  /** Does a comment open here that is not for the server? */
  method IsCommentOpen(line: array<char>, len: nat, p: nat, ghost orig: string) returns (b: bool)
    requires LineOk(orig, len) && p < len && Unread(line, orig, p)
    ensures b == CommentOpens(orig, p)
  {
    b := line[p] == '/' && line[p + 1] == '*'
      && !(line[p + 2] == '!' || (line[p + 2] == 'M' && line[p + 3] == '!'));
  }

  /** What starts at the read cursor. */
  method Classify(env: Env, line: array<char>, len: nat, c: Cursor, ghost orig: string) returns (k: Kind)
    requires Ready(env, line, orig, len, c) && c.pos < len
    ensures k == KindAt(env, orig, View(c, line))
  {
    if c.ml {
      return Other;
    }
    if line[c.pos] == '\\' && !(c.inString != '\0' && env.noBackslash(|c.calls|)) {
      return Backslash;
    }
    if c.inString != '\0' {
      return Other;
    }
    var delimiter := IsPrefix(line, c.pos, c.delim, orig, len);
    var comment := IsLineComment(env, line, len, c, orig);
    return if delimiter then Delimiter else if comment then LineComment else Other;
  }

  /** Comments and plain characters. */
  method OtherTurn(env: Env, line: array<char>, len: nat, c: Cursor, ghost orig: string) returns (c': Cursor)
    requires Ready(env, line, orig, len, c) && c.pos < len
    modifies line
    ensures Agrees(Continue, c', line, orig, More(OtherStep(env, orig, old(View(c, line)))))
  {
    var opens := IsCommentOpen(line, len, c.pos, orig);
    if c.inString == '\0' && opens {
      c' := CommentTurn(env, line, len, c, true, orig);
    } else if c.ml && !c.ss && line[c.pos] == '*' && line[c.pos + 1] == '/' {
      c' := CommentTurn(env, line, len, c, false, orig);
    } else {
      c' := PlainTurn(env, line, len, c, orig);
    }
  }

  /** A character that is not part of a multi-byte one. */
  method CharTurn(env: Env, line: array<char>, len: nat, c: Cursor, ghost orig: string) returns (turn: Turn, c': Cursor)
    requires Ready(env, line, orig, len, c) && c.pos < len
    modifies line
    ensures Agrees(turn, c', line, orig, CharStep(env, orig, old(View(c, line))))
  {
    var k := Classify(env, line, len, c, orig);
    match k
    case Backslash =>
      turn, c' := BackslashTurn(env, line, len, c, orig);
    case Delimiter =>
      PrefixInside(orig, len, c.pos, c.delim);
      turn, c' := DelimiterTurn(env, line, len, c, orig);
    case LineComment =>
      turn, c' := LineCommentTurn(env, line, len, c, orig);
    case Other =>
      turn := Continue;
      c' := OtherTurn(env, line, len, c, orig);
  }

  /** A multi-byte character. */
  method WideTurn(env: Env, line: array<char>, len: nat, c: Cursor, n: nat, ghost orig: string) returns (c': Cursor)
    requires Ready(env, line, orig, len, c) && c.pos + n <= len
    modifies line
    ensures Agrees(Continue, c', line, orig, More(WideStep(env, orig, old(View(c, line)), n)))
  {
    var w := c.w;
    if !c.ml || env.preserve {
      w := Copy(line, c.w, c.pos, c.pos + n, orig);
      assert orig[c.pos..c.pos + n] == Between(orig, c.pos, c.pos + n);
    }
    c' := c.(pos := c.pos + n, w := w);
  }

  /** One turn of the loop. */
  method TakeTurn(env: Env, line: array<char>, len: nat, c: Cursor, ghost orig: string) returns (turn: Turn, c': Cursor)
    requires Ready(env, line, orig, len, c) && c.pos < len
    modifies line
    ensures Agrees(turn, c', line, orig, Step(env, orig, len, old(View(c, line))))
  {
    turn := Continue;
    var n := env.mb(line[c.pos..len]);
    assert line[c.pos..len] == orig[c.pos..len];
    assert line[..c.w] == "" <==> c.w == 0;
    if !env.preserve && env.isSpace(line[c.pos]) && c.w == 0 && c.buffer == "" {
      c' := c.(pos := c.pos + 1);
    } else if n > 0 {
      assert n <= len - c.pos;
      c' := WideTurn(env, line, len, c, n, orig);
    } else {
      turn, c' := CharTurn(env, line, len, c, orig);
    }
  }

  /** The whole call, in place: it leaves the buffer and the lexer state that the
      reference computes from the untouched line, and hands over the same calls. The
      final newline has a cell to go to, at the terminator's position at the latest. */
  method AddLineInPlace(env: Env, line: array<char>, len: nat, buffer: string, inString: char, ml: bool, delim: string,
                        truncated: bool)
    returns (r: Result)
    requires EnvOk(env) && LineOk(line[..], len) && DelimOk(delim)
    modifies line
    ensures r == AddLine(env, old(line[..]), len, buffer, inString, ml, delim, truncated)
  {
    ghost var orig := line[..];
    if line[0] == '\0' && buffer == "" {
      return Result(false, buffer, inString, ml, delim, []);
    }
    var c := Cursor(0, 0, buffer, inString, ml, false, false, delim, []);
    ghost var s0 := State(0, "", buffer, inString, ml, false, false, delim, []);
    assert View(c, line) == s0;
    while c.pos < len
      invariant Ready(env, line, orig, len, c)
      invariant Run(env, orig, len, View(c, line)) == Run(env, orig, len, s0)
      decreases len - c.pos
    {
      ghost var s := View(c, line);
      StepGood(env, orig, len, s);
      var turn;
      turn, c := TakeTurn(env, line, len, c, orig);
      if turn == Return {
        return Result(true, c.buffer, c.inString, c.ml, c.delim, c.calls);
      }
      if turn == Break {
        r := FinishInPlace(env, line, len, c, truncated);
        return;
      }
    }
    r := FinishInPlace(env, line, len, c, truncated);
  }

  method FinishInPlace(env: Env, line: array<char>, len: nat, c: Cursor, truncated: bool) returns (r: Result)
    requires c.w <= len < line.Length
    modifies line
    ensures r == Finish(env, old(View(c, line)), truncated)
  {
    if c.w == 0 && c.buffer == "" {
      assert line[..0] == "";
      return Result(false, "", c.inString, c.ml, c.delim, c.calls);
    }
    assert line[..c.w] == "" <==> c.w == 0;
    var w := c.w;
    if !truncated && (!env.isDelimiterCommand(line[..c.w]) || c.inString != '\0' || c.ml) {
      line[w] := '\n';
      w := w + 1;
      assert line[..w] == old(line[..c.w]) + "\n";
    }
    r := Result(false, if !c.ml || env.preserve then c.buffer + line[..w] else c.buffer, c.inString, c.ml, c.delim, c.calls);
  }
}
