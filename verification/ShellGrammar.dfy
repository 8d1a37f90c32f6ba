/** The shell's grammar over the tokens of a text, without any parsing: the parser accepts exactly the
    texts that have a derivation and builds the derived tree, so nothing of a text is lost. */
module ShellGrammar {
  import opened Shell
  import opened ShellPrinter
  import opened ShellRoundTrip
  import opened ShellTokens
  import opened ShellParser

  // ---- the tokens of a text ----

  /** A token without its position. */
  function Plain(x: Lexeme): (y: Lexeme)
  {
    if x.Word? then Word(Tok(x.tok.text, 0)) else x
  }

  function Toks(s: string): (ts: seq<Lexeme>)
    decreases |s|
  {
    var (x, rest) := GetToken(s);
    if x == End then [] else [Plain(x)] + Toks(rest)
  }

  predicate IsOperator(x: Lexeme)
  {
    x == Symbol('<') || x == Symbol('>') || x == Symbol('+')
  }

  /** The next token is the symbol c. */
  predicate Starts(ts: seq<Lexeme>, c: char)
  {
    ts != [] && ts[0] == Symbol(c)
  }

  // ---- the grammar ----

  /** Redirections around c. */
  ghost predicate IsRedirs(ts: seq<Lexeme>, c: Cmd, d: Cmd)
    decreases |ts|
  {
    if ts == [] then d == c
    else
      && |ts| >= 2 && IsOperator(ts[0]) && ts[1].Word?
      && IsRedirs(ts[2..], Redir(c, ts[1].tok, KindOf(ts[0].c)), d)
  }

  /** Words and redirections in any order, behind those in c. */
  ghost predicate IsArgs(ts: seq<Lexeme>, c: Cmd, d: Cmd)
    decreases |ts|
  {
    if ts == [] then d == c
    else if ts[0].Word? then Argc(c) + 1 < MAXARGS && IsArgs(ts[1..], AddArg(c, ts[0].tok), d)
    else
      && |ts| >= 2 && IsOperator(ts[0]) && ts[1].Word?
      && IsArgs(ts[2..], Redir(c, ts[1].tok, KindOf(ts[0].c)), d)
  }

  /** A simple command, or a line in parentheses with redirections. */
  ghost predicate IsExec(ts: seq<Lexeme>, d: Cmd)
    decreases |ts|, 0
  {
    || IsArgs(ts, Exec([]), d)
    || (exists n, c :: 1 <= n < |ts| && ts[0] == Symbol('(') && ts[n] == Symbol(')')
                       && IsLine(ts[1..n], c) && IsRedirs(ts[n + 1..], c, d))
  }

  ghost predicate IsPipe(ts: seq<Lexeme>, d: Cmd)
    decreases |ts|, 1
  {
    || IsExec(ts, d)
    || (d.Pipe? && exists n :: 0 <= n < |ts| && ts[n] == Symbol('|')
                               && IsExec(ts[..n], d.left) && IsPipe(ts[n + 1..], d.right))
  }

  /** `&` signs behind c. */
  ghost predicate IsAmps(ts: seq<Lexeme>, c: Cmd, d: Cmd)
    decreases |ts|
  {
    if ts == [] then d == c else ts[0] == Symbol('&') && IsAmps(ts[1..], Back(c), d)
  }

  ghost predicate IsBacks(ts: seq<Lexeme>, d: Cmd)
    decreases |ts|, 2
  {
    exists n, c :: 0 <= n <= |ts| && IsPipe(ts[..n], c) && IsAmps(ts[n..], c, d)
  }

  ghost predicate IsLine(ts: seq<Lexeme>, d: Cmd)
    decreases |ts|, 3
  {
    || IsBacks(ts, d)
    || (d.List? && exists n :: 0 <= n < |ts| && ts[n] == Symbol(';')
                               && IsBacks(ts[..n], d.first) && IsLine(ts[n + 1..], d.second))
  }

  // ---- scanning ----

  lemma ToksTrim(s: string)
    ensures Toks(Trim(s)) == Toks(s)
  {
    hide Trim, GetToken;
    GetTokenTrim(s);
  }

  lemma NoToks(s: string)
    ensures Trim(s) == [] <==> Toks(s) == []
  {
    hide Trim;
  }

  /** Looking at the next character is looking at the next token. */
  lemma PeekIs(s: string, c: char)
    requires IsSymbol(c) && c != '<' && c != '>'
    ensures Peek(s, [c]) <==> Starts(Toks(s), c)
    ensures Peek(s, [c]) ==> GetToken(s).0 == Symbol(c) && Toks(s) == [Symbol(c)] + Toks(GetToken(s).1)
  {
    hide Trim, WordLength;
    TrimStarts(s);
  }

  lemma PeekOperator(s: string)
    ensures Peek(s, "<>") <==> Toks(s) != [] && IsOperator(Toks(s)[0])
    ensures Peek(s, "<>") ==> IsOperator(GetToken(s).0) && Toks(s) == [GetToken(s).0] + Toks(GetToken(s).1)
  {
    hide Trim, WordLength;
    TrimStarts(s);
  }

  predicate StopsAt(ts: seq<Lexeme>)
  {
    Starts(ts, '|') || Starts(ts, ')') || Starts(ts, '&') || Starts(ts, ';')
  }

  lemma PeekStop(s: string)
    ensures Peek(s, "|)&;") <==> StopsAt(Toks(s))
  {
    hide Trim, WordLength;
    TrimStarts(s);
  }

  // ---- what the parser accepts has a derivation ----

  lemma {:induction false} EraseAddArg(c: Cmd, tok: Tok)
    ensures Erase(AddArg(c, tok)) == AddArg(Erase(c), Tok(tok.text, 0)) && Argc(Erase(c)) == Argc(c)
  {
    match c
    case Exec(args) => assert Erase(AddArg(c, tok)) == AddArg(Erase(c), Tok(tok.text, 0));
    case Redir(x, f, k) => EraseAddArg(x, tok);
    case _ =>
  }

  lemma {:induction false} RedirsDerived(cmd: Cmd, s: string) returns (ts: seq<Lexeme>)
    requires ParseRedirs(cmd, s).Ok?
    ensures Toks(s) == ts + Toks(ParseRedirs(cmd, s).rest)
    ensures IsRedirs(ts, Erase(cmd), Erase(ParseRedirs(cmd, s).value))
    decreases |s|
  {
    hide Trim, GetToken, Peek, KindOf;
    PeekOperator(s);
    if Peek(s, "<>") {
      var (op, s1) := GetToken(s);
      var (file, s2) := GetToken(s1);
      var more := RedirsDerived(Redir(cmd, file.tok, KindOf(op.c)), s2);
      ts := [op, Plain(file)] + more;
      assert ts[2..] == more;
    } else {
      ts := [];
      ToksTrim(s);
    }
  }

  lemma {:induction false} RedirsThenArgs(ts: seq<Lexeme>, us: seq<Lexeme>, c: Cmd, m: Cmd, d: Cmd)
    requires IsRedirs(ts, c, m) && IsArgs(us, m, d)
    ensures IsArgs(ts + us, c, d)
    decreases |ts|
  {
    hide KindOf;
    if ts == [] {
      assert ts + us == us;
    } else {
      RedirsThenArgs(ts[2..], us, Redir(c, ts[1].tok, KindOf(ts[0].c)), m, d);
      assert (ts + us)[2..] == ts[2..] + us;
    }
  }

  lemma {:induction false} ArgsDerived(cmd: Cmd, s: string) returns (ts: seq<Lexeme>)
    requires ParseArgs(cmd, s).Ok?
    ensures Toks(s) == ts + Toks(ParseArgs(cmd, s).rest)
    ensures IsArgs(ts, Erase(cmd), Erase(ParseArgs(cmd, s).value))
    decreases |s|
  {
    hide Trim, GetToken, Peek, ParseRedirs, AddArg, Argc, Erase;
    var red := ParseRedirs(cmd, s);
    var us := RedirsDerived(cmd, s);
    var (tok, s1) := GetToken(red.rest);
    var more := [];
    if Peek(red.rest, "|)&;") {
      ToksTrim(red.rest);
    } else if tok.Word? {
      EraseAddArg(red.value, tok.tok);
      var vs := ArgsDerived(AddArg(red.value, tok.tok), s1);
      more := [Plain(tok)] + vs;
      assert more[1..] == vs;
    }
    RedirsThenArgs(us, more, Erase(cmd), Erase(red.value), Erase(ParseArgs(cmd, s).value));
    ts := us + more;
  }

  lemma BlockDerived(us: seq<Lexeme>, vs: seq<Lexeme>, c: Cmd, d: Cmd)
    requires IsLine(us, c) && IsRedirs(vs, c, d)
    ensures IsExec([Symbol('(')] + us + [Symbol(')')] + vs, d)
  {
    hide IsLine, IsRedirs, IsArgs;
    var ts, n := [Symbol('(')] + us + [Symbol(')')] + vs, |us| + 1;
    assert ts[1..n] == us && ts[n + 1..] == vs && ts[n] == Symbol(')');
  }

  lemma {:induction false} ExecDerived(s: string) returns (ts: seq<Lexeme>)
    requires ParseExec(s).Ok?
    ensures Toks(s) == ts + Toks(ParseExec(s).rest) && IsExec(ts, Erase(ParseExec(s).value))
    decreases |s|, 0
  {
    hide Trim, GetToken, Peek, ParseRedirs, ParseArgs, ParseLine, IsRedirs, IsLine;
    PeekIs(s, '(');
    if Peek(s, "(") {
      PeekMoves(s, "(");
      var s1 := GetToken(s).1;
      var body := ParseLine(s1);
      var us := LineDerived(s1);
      PeekIs(body.rest, ')');
      var vs := RedirsDerived(body.value, GetToken(body.rest).1);
      ts := [Symbol('(')] + us + [Symbol(')')] + vs;
      BlockDerived(us, vs, Erase(body.value), Erase(ParseExec(s).value));
    } else {
      assert Erase(Exec([])) == Exec([]);
      ts := ArgsDerived(Exec([]), s);
    }
  }

  lemma PipeJoined(us: seq<Lexeme>, vs: seq<Lexeme>, l: Cmd, r: Cmd)
    requires IsExec(us, l) && IsPipe(vs, r)
    ensures IsPipe(us + [Symbol('|')] + vs, Pipe(l, r))
  {
    hide IsExec;
    var ts, n := us + [Symbol('|')] + vs, |us|;
    assert ts[..n] == us && ts[n + 1..] == vs && ts[n] == Symbol('|');
    assert IsExec(ts[..n], Pipe(l, r).left);
  }

  lemma {:induction false} PipeDerived(s: string) returns (ts: seq<Lexeme>)
    requires ParsePipe(s).Ok?
    ensures Toks(s) == ts + Toks(ParsePipe(s).rest) && IsPipe(ts, Erase(ParsePipe(s).value))
    decreases |s|, 1
  {
    hide Trim, GetToken, Peek, ParseExec, IsExec;
    var l := ParseExec(s);
    ts := ExecDerived(s);
    PeekIs(l.rest, '|');
    if Peek(l.rest, "|") {
      PeekMoves(l.rest, "|");
      var s1 := GetToken(l.rest).1;
      var vs := PipeDerived(s1);
      PipeJoined(ts, vs, Erase(l.value), Erase(ParsePipe(s1).value));
      ts := ts + [Symbol('|')] + vs;
    } else {
      ToksTrim(l.rest);
    }
  }

  lemma {:induction false} AmpsDerived(cmd: Cmd, s: string) returns (ts: seq<Lexeme>)
    ensures Toks(s) == ts + Toks(ParseBacks(cmd, s).rest)
    ensures IsAmps(ts, Erase(cmd), Erase(ParseBacks(cmd, s).value))
    decreases |s|
  {
    hide Trim, GetToken, Peek;
    PeekIs(s, '&');
    if Peek(s, "&") {
      PeekMoves(s, "&");
      var more := AmpsDerived(Back(cmd), GetToken(s).1);
      ts := [Symbol('&')] + more;
      assert ts[1..] == more;
    } else {
      ts := [];
      ToksTrim(s);
    }
  }

  lemma BacksJoined(us: seq<Lexeme>, vs: seq<Lexeme>, c: Cmd, d: Cmd)
    requires IsPipe(us, c) && IsAmps(vs, c, d)
    ensures IsBacks(us + vs, d)
  {
    hide IsPipe, IsAmps;
    var ts, n := us + vs, |us|;
    assert ts[..n] == us && ts[n..] == vs;
  }

  lemma LineJoined(us: seq<Lexeme>, vs: seq<Lexeme>, l: Cmd, r: Cmd)
    requires IsBacks(us, l) && IsLine(vs, r)
    ensures IsLine(us + [Symbol(';')] + vs, List(l, r))
  {
    hide IsBacks;
    var ts, n := us + [Symbol(';')] + vs, |us|;
    assert ts[..n] == us && ts[n + 1..] == vs && ts[n] == Symbol(';');
    assert IsBacks(ts[..n], List(l, r).first);
  }

  lemma {:induction false} LineDerived(s: string) returns (ts: seq<Lexeme>)
    requires ParseLine(s).Ok?
    ensures Toks(s) == ts + Toks(ParseLine(s).rest) && IsLine(ts, Erase(ParseLine(s).value))
    decreases |s|, 2
  {
    hide Trim, GetToken, Peek, ParsePipe, ParseBacks, IsPipe, IsAmps, IsBacks;
    var p := ParsePipe(s);
    var us := PipeDerived(s);
    var b := ParseBacks(p.value, p.rest);
    var vs := AmpsDerived(p.value, p.rest);
    BacksJoined(us, vs, Erase(p.value), Erase(b.value));
    ts := us + vs;
    PeekIs(b.rest, ';');
    if Peek(b.rest, ";") {
      PeekMoves(b.rest, ";");
      var s1 := GetToken(b.rest).1;
      var ws := LineDerived(s1);
      LineJoined(ts, ws, Erase(b.value), Erase(ParseLine(s1).value));
      ts := ts + [Symbol(';')] + ws;
    } else {
      ToksTrim(b.rest);
    }
  }

  // ---- what has a derivation is accepted ----

  /** The parse succeeds with tree d and leaves the tokens `tail`. */
  ghost predicate Yields(r: Parsed<Cmd>, d: Cmd, tail: seq<Lexeme>)
  {
    r.Ok? && Erase(r.value) == d && Toks(r.rest) == tail
  }

  /** The first token of a text is scanned off. */
  lemma FirstTok(s: string, ts: seq<Lexeme>, tail: seq<Lexeme>)
    requires ts != [] && Toks(s) == ts + tail
    ensures Plain(GetToken(s).0) == ts[0] && GetToken(s).0 != End && Toks(GetToken(s).1) == ts[1..] + tail
  {
    hide GetToken;
    assert (ts + tail)[1..] == ts[1..] + tail;
    assert (ts + tail)[0] == ts[0];
    assert Toks(s)[1..] == Toks(GetToken(s).1);
  }

  lemma TwoToks(s: string, ts: seq<Lexeme>, tail: seq<Lexeme>)
    requires |ts| >= 2 && Toks(s) == ts + tail
    ensures var (x, s1) := GetToken(s);
            var (y, s2) := GetToken(s1);
            Plain(x) == ts[0] && Plain(y) == ts[1] && Toks(s2) == ts[2..] + tail
  {
    hide GetToken, Plain, Toks;
    FirstTok(s, ts, tail);
    FirstTok(GetToken(s).1, ts[1..], tail);
    assert ts[1..][1..] == ts[2..];
  }

  lemma {:induction false} RedirsAccepted(ts: seq<Lexeme>, cmd: Cmd, d: Cmd, s: string, tail: seq<Lexeme>)
    requires IsRedirs(ts, Erase(cmd), d) && Toks(s) == ts + tail && (tail != [] ==> !IsOperator(tail[0]))
    ensures Yields(ParseRedirs(cmd, s), d, tail)
    decreases |ts|
  {
    hide Trim, GetToken, Peek, KindOf, Toks;
    PeekOperator(s);
    if ts == [] {
      ToksTrim(s);
      assert ts + tail == tail;
    } else {
      TwoToks(s, ts, tail);
      var (op, s1) := GetToken(s);
      var (file, s2) := GetToken(s1);
      RedirsAccepted(ts[2..], Redir(cmd, file.tok, KindOf(op.c)), d, s2, tail);
    }
  }

  /** A redirection in front is taken off first. */
  lemma ArgsRedirected(cmd: Cmd, s: string)
    requires Peek(s, "<>")
    ensures var (op, s1) := GetToken(s);
            var (file, s2) := GetToken(s1);
            file.Word? && op.Symbol? ==> ParseArgs(cmd, s) == ParseArgs(Redir(cmd, file.tok, KindOf(op.c)), s2)
  {
    hide Trim, GetToken, Peek, KindOf, AddArg, Argc;
  }

  lemma ArgsWord(cmd: Cmd, s: string)
    requires GetToken(s).0.Word? && Argc(cmd) + 1 < MAXARGS
    ensures ParseArgs(cmd, s) == ParseArgs(AddArg(cmd, GetToken(s).0.tok), GetToken(s).1)
  {
    hide Trim, GetToken, Peek, AddArg, Argc;
    PeekOperator(s);
    ToksTrim(s);
    GetTokenTrim(s);
    PeekStop(Trim(s));
  }

  lemma ArgsEnd(cmd: Cmd, s: string)
    requires Toks(s) == [] || StopsAt(Toks(s))
    ensures ParseArgs(cmd, s).Ok? && ParseArgs(cmd, s).value == cmd && Toks(ParseArgs(cmd, s).rest) == Toks(s)
  {
    hide Trim, GetToken, Peek, AddArg, Argc;
    PeekOperator(s);
    ToksTrim(s);
    ToksTrim(Trim(s));
    PeekStop(Trim(s));
    EndScanned();
  }

  lemma {:induction false} ArgsAccepted(ts: seq<Lexeme>, cmd: Cmd, d: Cmd, s: string, tail: seq<Lexeme>)
    requires IsArgs(ts, Erase(cmd), d) && Toks(s) == ts + tail && (tail == [] || StopsAt(tail))
    ensures Yields(ParseArgs(cmd, s), d, tail)
    decreases |ts|
  {
    hide Trim, GetToken, Peek, KindOf, Toks, ParseArgs, AddArg, Argc;
    if ts == [] {
      assert ts + tail == tail;
      ArgsEnd(cmd, s);
    } else if ts[0].Word? {
      FirstTok(s, ts, tail);
      var (tok, s1) := GetToken(s);
      EraseAddArg(cmd, tok.tok);
      ArgsWord(cmd, s);
      ArgsAccepted(ts[1..], AddArg(cmd, tok.tok), d, s1, tail);
    } else {
      TwoToks(s, ts, tail);
      PeekOperator(s);
      ArgsRedirected(cmd, s);
      var (op, s1) := GetToken(s);
      var (file, s2) := GetToken(s1);
      ArgsAccepted(ts[2..], Redir(cmd, file.tok, KindOf(op.c)), d, s2, tail);
    }
  }

  lemma SimpleAccepted(ts: seq<Lexeme>, d: Cmd, s: string, tail: seq<Lexeme>)
    requires IsArgs(ts, Exec([]), d) && Toks(s) == ts + tail && (tail == [] || StopsAt(tail))
    ensures Yields(ParseExec(s), d, tail)
  {
    hide Trim, GetToken, Peek, Toks, ParseArgs, ParseLine, ParseRedirs;
    PeekIs(s, '(');
    assert Erase(Exec([])) == Exec([]);
    ArgsAccepted(ts, Exec([]), d, s, tail);
  }

  lemma {:induction false} BlockAccepted(ts: seq<Lexeme>, n: nat, c: Cmd, d: Cmd, s: string, tail: seq<Lexeme>)
    requires 1 <= n < |ts| && ts[0] == Symbol('(') && ts[n] == Symbol(')') && IsLine(ts[1..n], c)
        && IsRedirs(ts[n + 1..], c, d)
    requires Toks(s) == ts + tail && (tail == [] || StopsAt(tail))
    ensures Yields(ParseExec(s), d, tail)
    decreases n, 0
  {
    hide Trim, GetToken, Peek, Toks, ParseArgs, ParseLine, ParseRedirs, IsLine, IsRedirs;
    PeekIs(s, '(');
    FirstTok(s, ts, tail);
    var s1 := GetToken(s).1;
    assert ts[1..] + tail == ts[1..n] + (ts[n..] + tail);
    LineAccepted(ts[1..n], c, s1, ts[n..] + tail);
    var body := ParseLine(s1);
    PeekIs(body.rest, ')');
    FirstTok(body.rest, ts[n..], tail);
    assert ts[n..][1..] == ts[n + 1..];
    RedirsAccepted(ts[n + 1..], body.value, d, GetToken(body.rest).1, tail);
  }

  lemma {:induction false} ExecAccepted(ts: seq<Lexeme>, d: Cmd, s: string, tail: seq<Lexeme>)
    requires IsExec(ts, d) && Toks(s) == ts + tail && (tail == [] || StopsAt(tail))
    ensures Yields(ParseExec(s), d, tail)
    decreases |ts|, 0
  {
    hide Toks, ParseExec, IsArgs, IsLine, IsRedirs, Yields;
    if IsArgs(ts, Exec([]), d) {
      SimpleAccepted(ts, d, s, tail);
    } else {
      var n, c :| 1 <= n < |ts| && ts[0] == Symbol('(') && ts[n] == Symbol(')') && IsLine(ts[1..n], c)
          && IsRedirs(ts[n + 1..], c, d);
      BlockAccepted(ts, n, c, d, s, tail);
    }
  }

  lemma PipeStops(s: string, d: Cmd, tail: seq<Lexeme>)
    requires Yields(ParseExec(s), d, tail) && !Starts(tail, '|')
    ensures Yields(ParsePipe(s), d, tail)
  {
    hide Trim, GetToken, Peek, Toks, ParseExec;
    PeekIs(ParseExec(s).rest, '|');
    ToksTrim(ParseExec(s).rest);
  }

  lemma PipeGoesOn(s: string, d: Cmd, tail: seq<Lexeme>)
    requires d.Pipe? && ParseExec(s).Ok? && Erase(ParseExec(s).value) == d.left && Peek(ParseExec(s).rest, "|")
        && Yields(ParsePipe(GetToken(ParseExec(s).rest).1), d.right, tail)
    ensures Yields(ParsePipe(s), d, tail)
  {
    hide Trim, GetToken, Peek, Toks, ParseExec;
  }

  lemma {:induction false} PipeAccepted(ts: seq<Lexeme>, d: Cmd, s: string, tail: seq<Lexeme>)
    requires IsPipe(ts, d) && Toks(s) == ts + tail && (tail == [] || (StopsAt(tail) && !Starts(tail, '|')))
    ensures Yields(ParsePipe(s), d, tail)
    decreases |ts|, 1
  {
    hide Trim, GetToken, Peek, Toks, ParseExec, ParsePipe, IsExec;
    if IsExec(ts, d) {
      ExecAccepted(ts, d, s, tail);
      PipeStops(s, d, tail);
    } else {
      var n :| 0 <= n < |ts| && ts[n] == Symbol('|') && IsExec(ts[..n], d.left) && IsPipe(ts[n + 1..], d.right);
      assert ts + tail == ts[..n] + (ts[n..] + tail);
      ExecAccepted(ts[..n], d.left, s, ts[n..] + tail);
      var l := ParseExec(s);
      PeekIs(l.rest, '|');
      FirstTok(l.rest, ts[n..], tail);
      assert ts[n..][1..] == ts[n + 1..];
      PipeAccepted(ts[n + 1..], d.right, GetToken(l.rest).1, tail);
      PipeGoesOn(s, d, tail);
    }
  }

  lemma {:induction false} AmpsAccepted(ts: seq<Lexeme>, cmd: Cmd, d: Cmd, s: string, tail: seq<Lexeme>)
    requires IsAmps(ts, Erase(cmd), d) && Toks(s) == ts + tail && !Starts(tail, '&')
    ensures Yields(ParseBacks(cmd, s), d, tail)
    decreases |ts|
  {
    hide Trim, GetToken, Peek, Toks;
    PeekIs(s, '&');
    if ts == [] {
      ToksTrim(s);
      assert ts + tail == tail;
    } else {
      FirstTok(s, ts, tail);
      AmpsAccepted(ts[1..], Back(cmd), d, GetToken(s).1, tail);
    }
  }

  /** parseline's pipe and `&` signs. */
  lemma {:induction false} BacksAccepted(ts: seq<Lexeme>, d: Cmd, s: string, tail: seq<Lexeme>)
    requires IsBacks(ts, d) && Toks(s) == ts + tail && (tail == [] || Starts(tail, ')') || Starts(tail, ';'))
    ensures ParsePipe(s).Ok? && Yields(ParseBacks(ParsePipe(s).value, ParsePipe(s).rest), d, tail)
    decreases |ts|, 2
  {
    hide Toks, ParsePipe, ParseBacks, IsPipe;
    var n, c :| 0 <= n <= |ts| && IsPipe(ts[..n], c) && IsAmps(ts[n..], c, d);
    assert ts + tail == ts[..n] + (ts[n..] + tail);
    PipeAccepted(ts[..n], c, s, ts[n..] + tail);
    AmpsAccepted(ts[n..], ParsePipe(s).value, d, ParsePipe(s).rest, tail);
  }

  lemma {:induction false} LineAccepted(ts: seq<Lexeme>, d: Cmd, s: string, tail: seq<Lexeme>)
    requires IsLine(ts, d) && Toks(s) == ts + tail && (tail == [] || Starts(tail, ')'))
    ensures Yields(ParseLine(s), d, tail)
    decreases |ts|, 3
  {
    hide Trim, GetToken, Peek, Toks, ParsePipe, ParseBacks, IsBacks;
    if IsBacks(ts, d) {
      BacksAccepted(ts, d, s, tail);
      var b := ParseBacks(ParsePipe(s).value, ParsePipe(s).rest);
      PeekIs(b.rest, ';');
      ToksTrim(b.rest);
    } else {
      var n :| 0 <= n < |ts| && ts[n] == Symbol(';') && IsBacks(ts[..n], d.first) && IsLine(ts[n + 1..], d.second);
      assert ts + tail == ts[..n] + (ts[n..] + tail);
      BacksAccepted(ts[..n], d.first, s, ts[n..] + tail);
      var b := ParseBacks(ParsePipe(s).value, ParsePipe(s).rest);
      PeekIs(b.rest, ';');
      FirstTok(b.rest, ts[n..], tail);
      assert ts[n..][1..] == ts[n + 1..];
      LineAccepted(ts[n + 1..], d.second, GetToken(b.rest).1, tail);
    }
  }

  /** The parser accepts exactly the texts that the grammar derives, and gives the tree they derive. */
  lemma ParserIsGrammar(s: string, d: Cmd)
    ensures ParseCmd(s).Ok? && Erase(ParseCmd(s).value) == d <==> IsLine(Toks(s), d)
  {
    hide ParseLine, IsLine, Toks, Trim, Erase;
    var l := ParseLine(s);
    if IsLine(Toks(s), d) {
      assert Toks(s) + [] == Toks(s);
      LineAccepted(Toks(s), d, s, []);
      NoToks(l.rest);
    }
    if l.Ok? && Trim(l.rest) == [] && Erase(l.value) == d {
      var ts := LineDerived(s);
      NoToks(l.rest);
      assert ts + [] == ts;
    }
  }

  /** A text has at most one derivation. */
  lemma Unambiguous(s: string, c: Cmd, d: Cmd)
    requires IsLine(Toks(s), c) && IsLine(Toks(s), d)
    ensures c == d
  {
    hide IsLine, ParseCmd, Toks, Erase;
    ParserIsGrammar(s, c);
    ParserIsGrammar(s, d);
  }

  // ---- nothing is lost ----

  predicate IsParen(x: Lexeme)
  {
    x == Symbol('(') || x == Symbol(')')
  }

  function Level(ts: seq<Lexeme>): (n: int)
  {
    if ts == [] then 0
    else (if ts[0] == Symbol('(') then 1 else if ts[0] == Symbol(')') then -1 else 0) + Level(ts[1..])
  }

  ghost predicate Balanced(ts: seq<Lexeme>)
  {
    Level(ts) == 0 && forall n :: 0 <= n <= |ts| ==> Level(ts[..n]) >= 0
  }

  /** The tokens other than parentheses. */
  function Bag(ts: seq<Lexeme>): (m: multiset<Lexeme>)
  {
    if ts == [] then multiset{} else (if IsParen(ts[0]) then multiset{} else multiset{ts[0]}) + Bag(ts[1..])
  }

  lemma {:induction false} Joined(a: seq<Lexeme>, b: seq<Lexeme>)
    ensures Level(a + b) == Level(a) + Level(b) && Bag(a + b) == Bag(a) + Bag(b)
  {
    if a == [] {
      assert a + b == b;
    } else {
      assert (a + b)[1..] == a[1..] + b;
      Joined(a[1..], b);
    }
  }

  lemma PrefixLevel(a: seq<Lexeme>, b: seq<Lexeme>, n: nat)
    requires n <= |a + b|
    ensures Level((a + b)[..n]) == if n <= |a| then Level(a[..n]) else Level(a) + Level(b[..n - |a|])
  {
    hide Level, Bag;
    if n <= |a| {
      assert (a + b)[..n] == a[..n];
    } else {
      assert (a + b)[..n] == a + b[..n - |a|];
      Joined(a, b[..n - |a|]);
    }
  }

  lemma JoinedBalanced(a: seq<Lexeme>, b: seq<Lexeme>)
    requires Balanced(a) && Balanced(b)
    ensures Balanced(a + b)
  {
    hide Level, Bag;
    Joined(a, b);
    forall n | 0 <= n <= |a + b|
      ensures Level((a + b)[..n]) >= 0
    {
      PrefixLevel(a, b, n);
    }
  }

  lemma OneBalanced(x: Lexeme)
    requires !IsParen(x)
    ensures Balanced([x]) && Bag([x]) == multiset{x}
  {
    forall n | 0 <= n <= 1
      ensures Level([x][..n]) >= 0
    {
      assert [x][..n] == [] || [x][..n] == [x];
    }
  }

  lemma ParenLevels()
    ensures Level([Symbol('(')]) == 1 && Level([Symbol(')')]) == -1
    ensures Level([Symbol('(')][..0]) == 0 && Level([Symbol('(')][..1]) == 1 && Level([Symbol(')')][..1]) == -1
    ensures Bag([Symbol('(')]) == Bag([Symbol(')')]) == multiset{}
  {
    assert [Symbol('(')][..0] == [] && [Symbol('(')][..1] == [Symbol('(')] && [Symbol(')')][..1] == [Symbol(')')];
  }

  lemma BlockBalanced(us: seq<Lexeme>)
    requires Balanced(us)
    ensures Balanced([Symbol('(')] + us + [Symbol(')')]) && Bag([Symbol('(')] + us + [Symbol(')')]) == Bag(us)
  {
    hide Level, Bag;
    var a, b := [Symbol('(')], [Symbol(')')];
    ParenLevels();
    Joined(a, us);
    Joined(a + us, b);
    forall n | 0 <= n <= |a + us + b|
      ensures Level((a + us + b)[..n]) >= 0
    {
      PrefixLevel(a + us, b, n);
      if n <= |a + us| {
        PrefixLevel(a, us, n);
      }
    }
  }

  function KindSymbol(k: Kind): (x: Lexeme)
  {
    match k
    case In => Symbol('<')
    case Out => Symbol('>')
    case Append => Symbol('+')
  }

  function Words(args: seq<Tok>): (ts: seq<Lexeme>)
  {
    seq(|args|, i requires 0 <= i < |args| => Word(args[i]))
  }

  /** The tokens that a tree accounts for. */
  function TreeBag(c: Cmd): (m: multiset<Lexeme>)
  {
    match c
    case Exec(args) => multiset(Words(args))
    case Redir(x, f, k) => TreeBag(x) + multiset{KindSymbol(k), Word(f)}
    case Pipe(l, r) => TreeBag(l) + multiset{Symbol('|')} + TreeBag(r)
    case List(l, r) => TreeBag(l) + multiset{Symbol(';')} + TreeBag(r)
    case Back(x) => TreeBag(x) + multiset{Symbol('&')}
  }

  /** The tokens ts are what d has more than c. */
  ghost predicate Accounts(ts: seq<Lexeme>, c: multiset<Lexeme>, d: Cmd)
  {
    Balanced(ts) && TreeBag(d) == c + Bag(ts)
  }

  lemma NoneAccount(c: Cmd)
    ensures Accounts([], TreeBag(c), c)
  {
    var none: seq<Lexeme> := [];
    assert none[..0] == none;
  }

  lemma FirstAccounts(x: Lexeme, ts: seq<Lexeme>, c: multiset<Lexeme>, d: Cmd)
    requires !IsParen(x) && Accounts(ts, c + multiset{x}, d)
    ensures Accounts([x] + ts, c, d)
  {
    hide Balanced, Bag, TreeBag, IsParen;
    OneBalanced(x);
    JoinedBalanced([x], ts);
    Joined([x], ts);
  }

  lemma TwoAccount(x: Lexeme, y: Lexeme, ts: seq<Lexeme>, c: multiset<Lexeme>, d: Cmd)
    requires !IsParen(x) && !IsParen(y) && Accounts(ts, c + multiset{x, y}, d)
    ensures Accounts([x, y] + ts, c, d)
  {
    hide Balanced, Bag, TreeBag, IsParen;
    assert c + multiset{x, y} == (c + multiset{x}) + multiset{y};
    FirstAccounts(y, ts, c + multiset{x}, d);
    FirstAccounts(x, [y] + ts, c, d);
    assert [x] + ([y] + ts) == [x, y] + ts;
  }

  lemma RedirAccounts(c: Cmd, x: Lexeme, y: Lexeme)
    requires IsOperator(x) && y.Word?
    ensures TreeBag(Redir(c, y.tok, KindOf(x.c))) == TreeBag(c) + multiset{x, y} && !IsParen(x) && !IsParen(y)
  {
  }

  lemma {:induction false} RedirsAccount(ts: seq<Lexeme>, c: Cmd, d: Cmd)
    requires IsRedirs(ts, c, d)
    ensures Accounts(ts, TreeBag(c), d)
    decreases |ts|
  {
    hide Accounts, TreeBag, KindOf;
    if ts == [] {
      NoneAccount(c);
    } else {
      RedirAccounts(c, ts[0], ts[1]);
      RedirsAccount(ts[2..], Redir(c, ts[1].tok, KindOf(ts[0].c)), d);
      TwoAccount(ts[0], ts[1], ts[2..], TreeBag(c), d);
      assert [ts[0], ts[1]] + ts[2..] == ts;
    }
  }

  lemma {:induction false} AddArgAccounts(c: Cmd, tok: Tok)
    requires Core(c).Exec?
    ensures TreeBag(AddArg(c, tok)) == TreeBag(c) + multiset{Word(tok)} && Core(AddArg(c, tok)).Exec?
  {
    match c
    case Exec(args) => assert Words(args + [tok]) == Words(args) + [Word(tok)];
    case Redir(x, f, k) => AddArgAccounts(x, tok);
    case _ =>
  }

  lemma {:induction false} ArgsAccount(ts: seq<Lexeme>, c: Cmd, d: Cmd)
    requires IsArgs(ts, c, d) && Core(c).Exec?
    ensures Accounts(ts, TreeBag(c), d)
    decreases |ts|
  {
    hide Accounts, AddArg, Argc, TreeBag, KindOf;
    if ts == [] {
      NoneAccount(c);
    } else if ts[0].Word? {
      AddArgAccounts(c, ts[0].tok);
      ArgsAccount(ts[1..], AddArg(c, ts[0].tok), d);
      FirstAccounts(ts[0], ts[1..], TreeBag(c), d);
      assert [ts[0]] + ts[1..] == ts;
    } else {
      RedirAccounts(c, ts[0], ts[1]);
      ArgsAccount(ts[2..], Redir(c, ts[1].tok, KindOf(ts[0].c)), d);
      TwoAccount(ts[0], ts[1], ts[2..], TreeBag(c), d);
      assert [ts[0], ts[1]] + ts[2..] == ts;
    }
  }

  lemma {:induction false} ExecAccounts(ts: seq<Lexeme>, d: Cmd)
    requires IsExec(ts, d)
    ensures Accounts(ts, multiset{}, d)
    decreases |ts|, 0
  {
    hide IsArgs, IsLine, IsRedirs, Balanced, Bag;
    if IsArgs(ts, Exec([]), d) {
      assert TreeBag(Exec([])) == multiset{};
      ArgsAccount(ts, Exec([]), d);
    } else {
      var n, c :| 1 <= n < |ts| && ts[0] == Symbol('(') && ts[n] == Symbol(')') && IsLine(ts[1..n], c)
          && IsRedirs(ts[n + 1..], c, d);
      var us, vs := ts[1..n], ts[n + 1..];
      LineAccounts(us, c);
      RedirsAccount(vs, c, d);
      BlockBalanced(us);
      var block := [Symbol('(')] + us + [Symbol(')')];
      assert ts == block + vs;
      JoinedBalanced(block, vs);
      Joined(block, vs);
    }
  }

  /** Two parts with a separator between them. */
  lemma PartsAccount(us: seq<Lexeme>, x: Lexeme, vs: seq<Lexeme>, l: Cmd, r: Cmd, d: Cmd)
    requires Accounts(us, multiset{}, l) && Accounts(vs, multiset{}, r) && !IsParen(x)
    requires TreeBag(d) == TreeBag(l) + multiset{x} + TreeBag(r)
    ensures Accounts(us + [x] + vs, multiset{}, d)
  {
    hide Balanced, Bag, TreeBag, IsParen;
    OneBalanced(x);
    JoinedBalanced(us, [x]);
    Joined(us, [x]);
    JoinedBalanced(us + [x], vs);
    Joined(us + [x], vs);
  }

  lemma {:induction false} PipeAccounts(ts: seq<Lexeme>, d: Cmd)
    requires IsPipe(ts, d)
    ensures Accounts(ts, multiset{}, d)
    decreases |ts|, 1
  {
    hide IsExec, Accounts;
    if IsExec(ts, d) {
      ExecAccounts(ts, d);
    } else {
      var n :| 0 <= n < |ts| && ts[n] == Symbol('|') && IsExec(ts[..n], d.left) && IsPipe(ts[n + 1..], d.right);
      ExecAccounts(ts[..n], d.left);
      PipeAccounts(ts[n + 1..], d.right);
      PartsAccount(ts[..n], ts[n], ts[n + 1..], d.left, d.right, d);
      assert ts[..n] + [ts[n]] + ts[n + 1..] == ts;
    }
  }

  lemma {:induction false} AmpsAccount(ts: seq<Lexeme>, c: Cmd, d: Cmd)
    requires IsAmps(ts, c, d)
    ensures Accounts(ts, TreeBag(c), d)
    decreases |ts|
  {
    hide Accounts;
    if ts == [] {
      NoneAccount(c);
    } else {
      AmpsAccount(ts[1..], Back(c), d);
      FirstAccounts(ts[0], ts[1..], TreeBag(c), d);
      assert [ts[0]] + ts[1..] == ts;
    }
  }

  lemma {:induction false} BacksAccount(ts: seq<Lexeme>, d: Cmd)
    requires IsBacks(ts, d)
    ensures Accounts(ts, multiset{}, d)
    decreases |ts|, 2
  {
    hide IsPipe, IsAmps, Balanced, Bag, TreeBag;
    var n, c :| 0 <= n <= |ts| && IsPipe(ts[..n], c) && IsAmps(ts[n..], c, d);
    PipeAccounts(ts[..n], c);
    AmpsAccount(ts[n..], c, d);
    JoinedBalanced(ts[..n], ts[n..]);
    Joined(ts[..n], ts[n..]);
    assert ts[..n] + ts[n..] == ts;
  }

  /** A derived tree accounts for every token but the parentheses, and these balance. */
  lemma {:induction false} LineAccounts(ts: seq<Lexeme>, d: Cmd)
    requires IsLine(ts, d)
    ensures Accounts(ts, multiset{}, d)
    decreases |ts|, 3
  {
    hide IsBacks, Accounts;
    if IsBacks(ts, d) {
      BacksAccount(ts, d);
    } else {
      var n :| 0 <= n < |ts| && ts[n] == Symbol(';') && IsBacks(ts[..n], d.first) && IsLine(ts[n + 1..], d.second);
      BacksAccount(ts[..n], d.first);
      LineAccounts(ts[n + 1..], d.second);
      PartsAccount(ts[..n], ts[n], ts[n + 1..], d.first, d.second, d);
      assert ts[..n] + [ts[n]] + ts[n + 1..] == ts;
    }
  }

  /** A text that is accepted has balanced parentheses, and apart from those the tokens of its tree as it
      is printed, each as often. */
  lemma NothingLost(s: string)
    requires ParseCmd(s).Ok?
    ensures Balanced(Toks(s)) && Bag(Toks(s)) == Bag(Toks(PrintLine(ParseCmd(s).value)))
  {
    hide ParseCmd, Toks, IsLine, PrintLine, Erase, TreeBag, Bag, Balanced;
    var c := ParseCmd(s).value;
    ParsedValid(s);
    RoundTrip(c);
    ParserIsGrammar(s, Erase(c));
    ParserIsGrammar(PrintLine(c), Erase(c));
    LineAccounts(Toks(s), Erase(c));
    LineAccounts(Toks(PrintLine(c)), Erase(c));
    assert multiset{} + Bag(Toks(s)) == Bag(Toks(s));
    assert multiset{} + Bag(Toks(PrintLine(c))) == Bag(Toks(PrintLine(c)));
  }
}
