/** The parser's functions as they run, on positions in one text, and the trees they build. */
module ShellParser {
  import opened Shell
  import opened ShellPrinter
  import opened ShellRoundTrip
  import opened ShellTokens

  // ---- the parser ----

  /** parseredirs */
  method Redirs(cmd0: Cmd, s: string, ps: nat) returns (r: Parsed<Cmd>, p: nat)
    requires ps <= |s|
    ensures r == ParseRedirs(cmd0, s[ps..]) && (r.Ok? ==> ps <= p <= |s| && r.rest == s[p..])
  {
    hide Trim, GetToken, Peek, KindOf;
    var cmd, more := cmd0, true;
    p := ps;
    while true
      invariant ps <= p <= |s| && ParseRedirs(cmd, s[p..]) == ParseRedirs(cmd0, s[ps..])
      decreases |s| - p
    {
      ghost var t := s[p..];
      p, more := PeekToken(s, p, "<>");
      ParseRedirsTrim(cmd, t);
      PeekTrim(t, "<>");
      TrimTwice(t);
      if !more {
        return Ok(cmd, s[p..]), p;
      }
      var op, file, q, eq;
      op, q, eq, p := ScanToken(s, p);
      file, q, eq, p := ScanToken(s, p);
      if !file.Word? || !op.Symbol? {
        return Bad(MissingFile), p;
      }
      cmd := Redir(cmd, file.tok, KindOf(op.c));
    }
  }

  /** The loop of parseexec, up to the test for too many words. */
  method Args(cmd0: Cmd, s: string, ps: nat) returns (r: Parsed<Cmd>, p: nat)
    requires ps <= |s|
    ensures r == ParseArgs(cmd0, s[ps..]) && (r.Ok? ==> ps <= p <= |s| && r.rest == s[p..])
  {
    hide Trim, GetToken, Peek, ParseRedirs, AddArg, Argc;
    var cmd := cmd0;
    p := ps;
    while true
      invariant ps <= p <= |s| && ParseArgs(cmd, s[p..]) == ParseArgs(cmd0, s[ps..])
      decreases |s| - p
    {
      r, p := Redirs(cmd, s, p);
      if r.Bad? {
        return;
      }
      cmd := r.value;
      ghost var t := s[p..];
      var stop;
      p, stop := PeekToken(s, p, "|)&;");
      if stop {
        return Ok(cmd, s[p..]), p;
      }
      GetTokenTrim(t);
      var tok, q, eq;
      tok, q, eq, p := ScanToken(s, p);
      if tok == End {
        return Ok(cmd, s[p..]), p;
      }
      if !tok.Word? {
        return Bad(Syntax), p;
      }
      if Argc(cmd) + 1 >= MAXARGS {
        return Bad(TooManyArgs), p;
      }
      cmd := AddArg(cmd, tok.tok);
    }
  }

  /** parseexec and parseblock */
  method Execs(s: string, ps: nat) returns (r: Parsed<Cmd>, p: nat)
    requires ps <= |s|
    ensures r == ParseExec(s[ps..]) && (r.Ok? ==> ps <= p <= |s| && r.rest == s[p..])
    decreases |s| - ps, 0
  {
    hide Trim, GetToken, Peek, ParseRedirs, ParseArgs, ParseLine;
    ghost var t := s[ps..];
    var block, close, lex, q, eq;
    p, block := PeekToken(s, ps, "(");
    if !block {
      ParseArgsTrim(Exec([]), t);
      r, p := Args(Exec([]), s, p);
      return;
    }
    GetTokenTrim(t);
    PeekMoves(t, "(");
    lex, q, eq, p := ScanToken(s, p);
    r, p := Line(s, p);
    if r.Bad? {
      return;
    }
    var cmd := r.value;
    ghost var u := s[p..];
    p, close := PeekToken(s, p, ")");
    if !close {
      return Bad(Unclosed), p;
    }
    GetTokenTrim(u);
    lex, q, eq, p := ScanToken(s, p);
    r, p := Redirs(cmd, s, p);
  }

  /** parsepipe */
  method Pipes(s: string, ps: nat) returns (r: Parsed<Cmd>, p: nat)
    requires ps <= |s|
    ensures r == ParsePipe(s[ps..]) && (r.Ok? ==> ps <= p <= |s| && r.rest == s[p..])
    decreases |s| - ps, 1
  {
    hide Trim, GetToken, Peek, ParseExec;
    r, p := Execs(s, ps);
    if r.Bad? {
      return;
    }
    var cmd, more := r.value, false;
    ghost var t := s[p..];
    p, more := PeekToken(s, p, "|");
    if !more {
      return Ok(cmd, s[p..]), p;
    }
    GetTokenTrim(t);
    PeekMoves(t, "|");
    var lex, q, eq;
    lex, q, eq, p := ScanToken(s, p);
    r, p := Pipes(s, p);
    if r.Ok? {
      r := Ok(Pipe(cmd, r.value), r.rest);
    }
  }

  /** The loop of parseline. */
  method Backs(cmd0: Cmd, s: string, ps: nat) returns (cmd: Cmd, p: nat)
    requires ps <= |s|
    ensures ps <= p <= |s| && ParseBacks(cmd0, s[ps..]) == Ok(cmd, s[p..])
  {
    hide Trim, GetToken, Peek;
    var more, lex, q, eq;
    cmd, p := cmd0, ps;
    while true
      invariant ps <= p <= |s| && ParseBacks(cmd, s[p..]) == ParseBacks(cmd0, s[ps..])
      decreases |s| - p
    {
      ghost var t := s[p..];
      p, more := PeekToken(s, p, "&");
      ParseBacksTrim(cmd, t);
      PeekTrim(t, "&");
      TrimTwice(t);
      if !more {
        return;
      }
      PeekMoves(s[p..], "&");
      lex, q, eq, p := ScanToken(s, p);
      cmd := Back(cmd);
    }
  }

  /** parseline */
  method Line(s: string, ps: nat) returns (r: Parsed<Cmd>, p: nat)
    requires ps <= |s|
    ensures r == ParseLine(s[ps..]) && (r.Ok? ==> ps <= p <= |s| && r.rest == s[p..])
    decreases |s| - ps, 2
  {
    hide Trim, GetToken, Peek, ParsePipe, ParseBacks;
    r, p := Pipes(s, ps);
    if r.Bad? {
      return;
    }
    var cmd, more;
    cmd, p := Backs(r.value, s, p);
    ghost var t := s[p..];
    p, more := PeekToken(s, p, ";");
    if !more {
      return Ok(cmd, s[p..]), p;
    }
    GetTokenTrim(t);
    PeekMoves(t, ";");
    var lex, q, eq;
    lex, q, eq, p := ScanToken(s, p);
    r, p := Line(s, p);
    if r.Ok? {
      r := Ok(List(cmd, r.value), r.rest);
    }
  }

  /** parsecmd on a buffer that holds a C string. */
  method ParseCommand(buf: array<char>) returns (r: Parsed<Cmd>)
    requires buf.Length > 0 && buf[buf.Length - 1] == '\0' && '\0' !in buf[..buf.Length - 1]
    modifies buf
    ensures r == ParseCmd(old(buf[..buf.Length - 1]))
    ensures r.Bad? ==> buf[..] == old(buf[..])
    ensures r.Ok? ==> AllCStrings(buf[..], buf.Length - 1, r.value)
  {
    hide ParseLine, AllPlaced, AllCStrings, Sound, Trim;
    var s := buf[..buf.Length - 1];
    assert s[0..] == s;
    var p;
    r, p := Line(s, 0);
    if r.Bad? {
      return;
    }
    p := SkipSpace(s, p);
    if p != |s| {
      return Bad(Leftovers);
    }
    r := Ok(r.value, []);
    TreePlaced(s);
    PlacedInBuffer(s, r.value);
    ghost var before := buf[..];
    assert before == s + "\0";
    Nulterminate(r.value, buf);
    assert Terminated(s, r.value, buf[..]);
    AllRead(s, r.value, buf[..], r.value);
  }

  // ---- the trees it builds ----

  /** No command has more words than fit argv. */
  predicate FewArgs(c: Cmd)
  {
    match c
    case Exec(args) => |args| < MAXARGS
    case Redir(x, f, k) => FewArgs(x)
    case Pipe(l, r) => FewArgs(l) && FewArgs(r)
    case List(l, r) => FewArgs(l) && FewArgs(r)
    case Back(x) => FewArgs(x)
  }

  lemma {:induction false} RedirsFew(cmd: Cmd, s: string)
    requires FewArgs(cmd)
    ensures ParseRedirs(cmd, s).Ok? ==> FewArgs(ParseRedirs(cmd, s).value)
    decreases |s|
  {
    hide Trim, Peek, KindOf;
    var (op, s1) := GetToken(s);
    var (file, s2) := GetToken(s1);
    if Peek(s, "<>") && file.Word? && op.Symbol? {
      RedirsFew(Redir(cmd, file.tok, KindOf(op.c)), s2);
    }
  }

  lemma {:induction false} AddArgFew(cmd: Cmd, tok: Tok)
    requires FewArgs(cmd) && Argc(cmd) + 1 < MAXARGS
    ensures FewArgs(AddArg(cmd, tok))
  {
    if cmd.Redir? {
      AddArgFew(cmd.cmd, tok);
    }
  }

  lemma {:induction false} ArgsFew(cmd: Cmd, s: string)
    requires FewArgs(cmd)
    ensures ParseArgs(cmd, s).Ok? ==> FewArgs(ParseArgs(cmd, s).value)
    decreases |s|
  {
    hide Trim, Peek, ParseRedirs, FewArgs, AddArg, Argc;
    RedirsFew(cmd, s);
    var red := ParseRedirs(cmd, s);
    if red.Ok? {
      var (tok, s1) := GetToken(red.rest);
      if tok.Word? && Argc(red.value) + 1 < MAXARGS {
        AddArgFew(red.value, tok.tok);
        ArgsFew(AddArg(red.value, tok.tok), s1);
      }
    }
  }

  lemma {:induction false} ExecFew(s: string)
    ensures ParseExec(s).Ok? ==> FewArgs(ParseExec(s).value)
    decreases |s|, 0
  {
    hide Trim, GetToken, Peek, ParseRedirs, ParseArgs, ParseLine;
    if Peek(s, "(") {
      PeekMoves(s, "(");
      LineFew(GetToken(s).1);
      var body := ParseLine(GetToken(s).1);
      if body.Ok? {
        RedirsFew(body.value, GetToken(body.rest).1);
      }
    } else {
      ArgsFew(Exec([]), s);
    }
  }

  lemma {:induction false} PipeFew(s: string)
    ensures ParsePipe(s).Ok? ==> FewArgs(ParsePipe(s).value)
    decreases |s|, 1
  {
    hide Trim, GetToken, Peek, ParseExec;
    ExecFew(s);
    var l := ParseExec(s);
    if l.Ok? && Peek(l.rest, "|") {
      PeekMoves(l.rest, "|");
      PipeFew(GetToken(l.rest).1);
    }
  }

  lemma {:induction false} BacksFew(cmd: Cmd, s: string)
    requires FewArgs(cmd)
    ensures FewArgs(ParseBacks(cmd, s).value)
    decreases |s|
  {
    hide Trim, GetToken, Peek;
    if Peek(s, "&") {
      PeekMoves(s, "&");
      BacksFew(Back(cmd), GetToken(s).1);
    }
  }

  lemma {:induction false} LineFew(s: string)
    ensures ParseLine(s).Ok? ==> FewArgs(ParseLine(s).value)
    decreases |s|, 2
  {
    hide Trim, GetToken, Peek, ParsePipe, ParseBacks;
    PipeFew(s);
    var p := ParsePipe(s);
    if p.Ok? {
      BacksFew(p.value, p.rest);
      var b := ParseBacks(p.value, p.rest);
      if Peek(b.rest, ";") {
        PeekMoves(b.rest, ";");
        LineFew(GetToken(b.rest).1);
      }
    }
  }

  lemma {:induction false} PlacedFewValid(s: string, c: Cmd)
    requires AllPlaced(s, c) && FewArgs(c)
    ensures ValidTree(c)
  {
    hide ValidWord;
    match c
    case Exec(args) =>
      forall i | 0 <= i < |args|
        ensures ValidWord(args[i].text)
      {
        assert Placed(s, args[i]);
      }
    case Redir(x, f, k) => PlacedFewValid(s, x);
    case Pipe(l, r) =>
      PlacedFewValid(s, l);
      PlacedFewValid(s, r);
    case List(l, r) =>
      PlacedFewValid(s, l);
      PlacedFewValid(s, r);
    case Back(x) => PlacedFewValid(s, x);
  }

  lemma {:induction false} EraseValid(c: Cmd)
    ensures ValidTree(Erase(c)) <==> ValidTree(c)
  {
    hide ValidWord;
    match c
    case Exec(args) =>
      assert forall i :: 0 <= i < |args| ==> Erase(c).args[i].text == args[i].text;
    case Redir(x, f, k) => EraseValid(x);
    case Pipe(l, r) =>
      EraseValid(l);
      EraseValid(r);
    case List(l, r) =>
      EraseValid(l);
      EraseValid(r);
    case Back(x) => EraseValid(x);
  }

  lemma ParsedValid(s: string)
    ensures ParseCmd(s).Ok? ==> ValidTree(ParseCmd(s).value)
  {
    hide ParseLine, ValidTree, AllPlaced, FewArgs;
    if ParseCmd(s).Ok? {
      TreePlaced(s);
      LineFew(s);
      PlacedFewValid(s, ParseCmd(s).value);
    }
  }

  /** The trees that can be printed and parsed back are exactly those that some text parses to. */
  lemma ParserRange(c: Cmd)
    ensures ValidTree(c) <==> exists s: string :: ParseCmd(s).Ok? && Erase(ParseCmd(s).value) == Erase(c)
  {
    hide ParseCmd, ValidTree, PrintLine, Erase;
    EraseValid(c);
    if ValidTree(c) {
      RoundTrip(c);
    }
    if s: string :| ParseCmd(s).Ok? && Erase(ParseCmd(s).value) == Erase(c) {
      ParsedValid(s);
      EraseValid(ParseCmd(s).value);
    }
  }
}
