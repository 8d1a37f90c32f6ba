/** Parsing undoes printing. */
module ShellRoundTrip {
  import opened Shell
  import opened ShellPrinter

  datatype Red = Red(file: string, kind: Kind)

  /** The command under the redirections, and these, innermost first. */
  function Core(c: Cmd): (d: Cmd)
    ensures !d.Redir?
  {
    if c.Redir? then Core(c.cmd) else c
  }

  function RedsOf(c: Cmd): (reds: seq<Red>)
  {
    if c.Redir? then RedsOf(c.cmd) + [Red(c.file.text, c.kind)] else []
  }

  predicate ValidReds(reds: seq<Red>)
  {
    forall i :: 0 <= i < |reds| ==> ValidWord(reds[i].file)
  }

  function PrintReds(reds: seq<Red>): (s: string)
  {
    if reds == [] then "" else PrintKind(reds[0].kind) + reds[0].file + " " + PrintReds(reds[1..])
  }

  function Wrapped(c: Cmd, reds: seq<Red>): (d: Cmd)
    decreases |reds|
  {
    if reds == [] then c else Wrapped(Redir(c, Tok(reds[0].file, 0), reds[0].kind), reds[1..])
  }

  lemma {:induction false} WrappedSnoc(c: Cmd, reds: seq<Red>, r: Red)
    ensures Wrapped(c, reds + [r]) == Redir(Wrapped(c, reds), Tok(r.file, 0), r.kind)
    decreases |reds|
  {
    if reds == [] {
      assert [r][1..] == [] && reds + [r] == [r];
    } else {
      assert (reds + [r])[1..] == reds[1..] + [r] && (reds + [r])[0] == reds[0];
      WrappedSnoc(Redir(c, Tok(reds[0].file, 0), reds[0].kind), reds[1..], r);
    }
  }

  lemma {:induction false} PrintRedsSnoc(reds: seq<Red>, r: Red)
    ensures PrintReds(reds + [r]) == PrintReds(reds) + PrintKind(r.kind) + r.file + " "
  {
    if reds == [] {
      assert [r][1..] == [] && reds + [r] == [r];
    } else {
      assert (reds + [r])[1..] == reds[1..] + [r] && (reds + [r])[0] == reds[0];
      PrintRedsSnoc(reds[1..], r);
      Regroup(PrintKind(reds[0].kind) + reds[0].file + " ", PrintReds(reds[1..]), PrintKind(r.kind), r.file);
    }
  }

  lemma Regroup(a: string, b: string, c: string, d: string)
    ensures a + (b + c + d + " ") == a + b + c + d + " "
  {
  }

  /** A tree is its core with its redirections, and prints as the one followed by the others. */
  lemma {:induction false} Decomposed(c: Cmd)
    ensures Wrapped(Erase(Core(c)), RedsOf(c)) == Erase(c)
    ensures PrintExec(c) == PrintExec(Core(c)) + PrintReds(RedsOf(c))
    ensures ValidTree(c) ==> ValidTree(Core(c)) && ValidReds(RedsOf(c))
  {
    if c.Redir? {
      Decomposed(c.cmd);
      WrappedSnoc(Erase(Core(c)), RedsOf(c.cmd), Red(c.file.text, c.kind));
      PrintRedsSnoc(RedsOf(c.cmd), Red(c.file.text, c.kind));
    } else {
      assert PrintExec(c) + "" == PrintExec(c);
    }
  }

  // ---- redirections ----

  lemma ParseRedirsTrim(cmd: Cmd, s: string)
    ensures ParseRedirs(cmd, Trim(s)) == ParseRedirs(cmd, s)
  {
    hide Trim, GetToken, Peek;
    TrimTwice(s);
    PeekTrim(s, "<>");
    GetTokenTrim(s);
  }

  /** The operator of a redirection, and the file name after it. */
  lemma OperatorScanned(k: Kind, w: string, s: string)
    requires ValidWord(w)
    ensures var t := PrintKind(k) + w + " " + s;
            && Peek(t, "<>") && GetToken(t).0.Symbol? && KindOf(GetToken(t).0.c) == k
               && GetToken(t).1 == Trim(w + " " + s)
            && !Peek(t, "(")
  {
    hide Trim, Lex, Peek;
    var t := PrintKind(k) + w + " " + s;
    if k == Append {
      assert t == ">>" + (w + " " + s);
      AppendScanned(w + " " + s);
    } else {
      var c := PrintKind(k)[0];
      assert t == [c] + (w + " " + s);
      SymbolScanned(c, w + " " + s);
      PeekAt(c, w + " " + s, "<>");
      PeekAt(c, w + " " + s, "(");
    }
  }

  lemma AppendScanned(s: string)
    ensures GetToken(">>" + s) == (Symbol('+'), Trim(s)) && Peek(">>" + s, "<>") && !Peek(">>" + s, "(")
  {
    hide Trim;
    assert ">>" + s == ['>'] + (">" + s);
    TrimNothing('>', ">" + s);
    assert (">>" + s)[2..] == s;
  }

  lemma {:induction false} RedirsParsed(cmd: Cmd, d: Cmd, reds: seq<Red>, rest: string)
    requires ValidReds(reds) && !Peek(rest, "<>") && Erase(cmd) == d
    ensures var r := ParseRedirs(cmd, PrintReds(reds) + rest);
              r.Ok? && Erase(r.value) == Wrapped(d, reds)
              && r.rest == Trim(rest)
    decreases |reds|
  {
    hide Trim, GetToken, Peek, ValidWord, KindOf;
    if reds == [] {
      assert PrintReds(reds) + rest == rest;
    } else {
      var k, w, s := reds[0].kind, reds[0].file, PrintReds(reds[1..]) + rest;
      assert PrintReds(reds) + rest == PrintKind(k) + w + " " + s;
      OperatorScanned(k, w, s);
      GetTokenTrim(w + " " + s);
      WordScanned(w, s);
      var cmd' := Redir(cmd, Tok(w, |s| + 1), k);
      ParseRedirsTrim(cmd', s);
      RedirsParsed(cmd', Redir(d, Tok(w, 0), k), reds[1..], rest);
    }
  }

  // ---- words ----

  /** What may follow a simple command. */
  predicate StopsExec(rest: string)
  {
    Trim(rest) == [] || Trim(rest)[0] in "|)&;"
  }

  lemma ParseArgsTrim(cmd: Cmd, s: string)
    ensures ParseArgs(cmd, Trim(s)) == ParseArgs(cmd, s)
  {
    hide Trim, GetToken, Peek, ParseRedirs;
    ParseRedirsTrim(cmd, s);
  }

  lemma StopFacts(rest: string)
    requires StopsExec(rest)
    ensures !Peek(rest, "<>") && !Peek(rest, "(") && (Peek(Trim(rest), "|)&;") || Trim(rest) == [])
    ensures Trim(Trim(rest)) == Trim(rest)
  {
    hide Trim;
    TrimTwice(rest);
  }

  lemma NoArgs(cmd: Cmd, reds: seq<Red>, rest: string)
    requires ValidReds(reds) && StopsExec(rest)
    ensures var r := ParseArgs(cmd, PrintReds(reds) + rest);
              r.Ok? && Erase(r.value) == Wrapped(Erase(cmd), reds)
              && r.rest == Trim(rest)
  {
    hide Trim, Peek, ParseRedirs, Erase;
    StopFacts(rest);
    RedirsParsed(cmd, Erase(cmd), reds, rest);
    EndScanned();
  }

  lemma EndScanned()
    ensures GetToken("") == (End, "") && Trim("") == ""
  {
  }

  /** One word is taken off. */
  lemma OneArg(cmd: Cmd, w: string, s: string)
    requires cmd.Exec? && |cmd.args| + 1 < MAXARGS && ValidWord(w)
    ensures ParseArgs(cmd, w + " " + s) == ParseArgs(Exec(cmd.args + [Tok(w, |s| + 1)]), s)
  {
    hide Trim, GetToken, Peek, ValidWord;
    var t := w + " " + s;
    WordScanned(w, s);
    WordFirst(w, s);
    ParseArgsTrim(Exec(cmd.args + [Tok(w, |s| + 1)]), s);
  }

  lemma {:induction false} ArgsParsed(cmd: Cmd, args: seq<Tok>, reds: seq<Red>, rest: string)
    requires cmd.Exec? && |cmd.args| + |args| < MAXARGS && (forall i :: 0 <= i < |args| ==> ValidWord(args[i].text))
        && ValidReds(reds) && StopsExec(rest)
    ensures var r := ParseArgs(cmd, PrintWords(args) + (PrintReds(reds) + rest));
            r.Ok? && Erase(r.value) == Wrapped(Erase(Exec(cmd.args + args)), reds) && r.rest == Trim(rest)
    decreases |args|
  {
    hide Trim, ParseArgs, ValidWord, PrintReds, ValidReds, StopsExec;
    var tail := PrintReds(reds) + rest;
    if args == [] {
      assert PrintWords(args) + tail == tail && cmd.args + args == cmd.args;
      NoArgs(cmd, reds, rest);
    } else {
      var w, s := args[0].text, PrintWords(args[1..]) + tail;
      assert PrintWords(args) + tail == w + " " + s;
      OneArg(cmd, w, s);
      var cmd' := Exec(cmd.args + [Tok(w, |s| + 1)]);
      ArgsParsed(cmd', args[1..], reds, rest);
      assert Erase(Exec(cmd'.args + args[1..])) == Erase(Exec(cmd.args + args));
    }
  }

  // ---- whole commands ----

  function Size(c: Cmd): (n: nat)
  {
    match c
    case Exec(_) => 1
    case Redir(x, _, _) => 1 + Size(x)
    case Pipe(l, r) => 1 + Size(l) + Size(r)
    case List(l, r) => 1 + Size(l) + Size(r)
    case Back(x) => 1 + Size(x)
  }

  lemma {:induction false} CoreSize(c: Cmd)
    ensures Size(Core(c)) <= Size(c) && (c.Redir? ==> Size(Core(c)) < Size(c)) && (!c.Redir? ==> Core(c) == c)
  {
    if c.Redir? {
      CoreSize(c.cmd);
    }
  }

  /** The order in which the four levels of the grammar refer to each other for the same command;
      `level` is 0 for a pipe, 1 for the `&` level, 2 for a line and 3 for a simple command. */
  function Rank(c: Cmd, level: nat): (n: nat)
  {
    if c.Pipe? then level % 4
    else if c.Back? then (level + 3) % 4
    else if c.List? then (level + 2) % 4
    else (level + 1) % 4
  }

  predicate StopsPipe(rest: string)
  {
    Trim(rest) == [] || Trim(rest)[0] in ")&;"
  }

  predicate StopsBack(rest: string)
  {
    Trim(rest) == [] || Trim(rest)[0] in ");"
  }

  predicate StopsLine(rest: string)
  {
    Trim(rest) == [] || Trim(rest)[0] == ')'
  }

  /** The parse succeeded with this tree and took everything up to `rest`. */
  predicate Yields(r: Parsed<Cmd>, c: Cmd, rest: string)
  {
    r.Ok? && Erase(r.value) == Erase(c) && r.rest == Trim(rest)
  }

  lemma ParseExecTrim(s: string)
    ensures ParseExec(Trim(s)) == ParseExec(s)
  {
    hide Trim, GetToken, Peek, ParseArgs, ParseRedirs, ParseLine;
    PeekTrim(s, "(");
    GetTokenTrim(s);
    ParseArgsTrim(Exec([]), s);
  }

  lemma ParsePipeTrim(s: string)
    ensures ParsePipe(Trim(s)) == ParsePipe(s)
  {
    hide Trim, GetToken, Peek, ParseExec;
    ParseExecTrim(s);
  }

  lemma ParseLineTrim(s: string)
    ensures ParseLine(Trim(s)) == ParseLine(s)
  {
    hide Trim, GetToken, Peek, ParsePipe, ParseBacks;
    ParsePipeTrim(s);
  }

  lemma NotParen(args: seq<Tok>, reds: seq<Red>, rest: string)
    requires (forall i :: 0 <= i < |args| ==> ValidWord(args[i].text)) && ValidReds(reds) && StopsExec(rest)
    ensures !Peek(PrintWords(args) + (PrintReds(reds) + rest), "(")
  {
    hide Trim, Peek, ValidWord, GetToken, StopsExec;
    var tail := PrintReds(reds) + rest;
    if args != [] {
      FirstWord(args, tail);
      WordScanned(args[0].text, PrintWords(args[1..]) + tail);
    } else {
      assert PrintWords(args) + tail == tail;
      if reds != [] {
        FirstRed(reds, rest);
        OperatorScanned(reds[0].kind, reds[0].file, PrintReds(reds[1..]) + rest);
      } else {
        assert tail == rest;
        StopFacts(rest);
      }
    }
  }

  lemma FirstWord(args: seq<Tok>, t: string)
    requires args != []
    ensures PrintWords(args) + t == args[0].text + " " + (PrintWords(args[1..]) + t)
  {
    assert PrintWords(args) == args[0].text + " " + PrintWords(args[1..]);
  }

  lemma FirstRed(reds: seq<Red>, t: string)
    requires reds != []
    ensures PrintReds(reds) + t == PrintKind(reds[0].kind) + reds[0].file + " " + (PrintReds(reds[1..]) + t)
  {
    assert PrintReds(reds) == PrintKind(reds[0].kind) + reds[0].file + " " + PrintReds(reds[1..]);
  }

  /** A simple command. */
  lemma SimpleParsed(c: Cmd, rest: string)
    requires ValidTree(c) && Core(c).Exec? && StopsExec(rest)
    ensures Yields(ParseExec(PrintExec(c) + rest), c, rest)
  {
    hide Trim, Peek, ValidReds, ParseArgs, StopsExec, PrintReds, Erase;
    Decomposed(c);
    var args, reds := Core(c).args, RedsOf(c);
    assert PrintExec(c) + rest == PrintWords(args) + (PrintReds(reds) + rest);
    NotParen(args, reds, rest);
    ArgsParsed(Exec([]), args, reds, rest);
    assert [] + args == args;
  }

  /** A command in parentheses, once the line inside is parsed. */
  lemma BlockParsed(c: Cmd, rest: string)
    requires ValidTree(c) && !Core(c).Exec? && StopsExec(rest)
    requires Yields(ParseLine(PrintTop(Core(c)) + (")" + (PrintReds(RedsOf(c)) + rest))), Core(c),
        ")" + (PrintReds(RedsOf(c)) + rest))
    ensures Yields(ParseExec(PrintExec(c) + rest), c, rest)
  {
    hide Trim, Peek, GetToken, ValidReds, ParseRedirs, ParseLine, StopsExec, PrintReds, Erase, PrintTop;
    Decomposed(c);
    var top, reds := PrintTop(Core(c)), RedsOf(c);
    var tail := PrintReds(reds) + rest;
    var s := top + (")" + tail);
    Parenthesised(c, rest);
    PeekAt('(', s, "(");
    SymbolScanned('(', s);
    ParseLineTrim(s);
    TrimNothing(')', tail);
    PeekAt(')', tail, ")");
    SymbolScanned(')', tail);
    var body := ParseLine(s);
    ParseRedirsTrim(body.value, tail);
    StopFacts(rest);
    RedirsParsed(body.value, Erase(Core(c)), reds, rest);
  }

  lemma Parenthesised(c: Cmd, rest: string)
    requires !Core(c).Exec?
    ensures PrintExec(c) + rest == ['('] + (PrintTop(Core(c)) + ([')'] + (PrintReds(RedsOf(c)) + rest)))
  {
    hide PrintReds, PrintTop;
    Decomposed(c);
    var x := Core(c);
    assert PrintExec(x) == "(" + PrintTop(x) + ")";
    Regroup5(PrintTop(x), PrintReds(RedsOf(c)), rest);
  }

  lemma Regroup5(a: string, b: string, c: string)
    ensures "(" + a + ")" + b + c == ['('] + (a + ([')'] + (b + c)))
  {
  }

  // ---- background commands ----

  function Amps(n: nat): (s: string)
  {
    if n == 0 then "" else "&" + Amps(n - 1)
  }

  function BackN(c: Cmd, n: nat): (d: Cmd)
    decreases n
  {
    if n == 0 then c else BackN(Back(c), n - 1)
  }

  lemma {:induction false} AmpsSnoc(n: nat)
    ensures "&" + Amps(n) == Amps(n) + "&"
  {
    if n > 0 {
      AmpsSnoc(n - 1);
      assert "&" + Amps(n) == "&" + ("&" + Amps(n - 1));
      assert Amps(n) + "&" == "&" + (Amps(n - 1) + "&");
    }
  }

  lemma {:induction false} EraseBackN(c: Cmd, n: nat)
    ensures Erase(BackN(c, n)) == BackN(Erase(c), n)
    decreases n
  {
    if n > 0 {
      EraseBackN(Back(c), n - 1);
    }
  }

  lemma ParseBacksTrim(cmd: Cmd, s: string)
    ensures ParseBacks(cmd, Trim(s)) == ParseBacks(cmd, s)
  {
    hide Trim, GetToken, Peek;
    TrimTwice(s);
    PeekTrim(s, "&");
    GetTokenTrim(s);
  }

  lemma {:induction false} AmpsParsed(cmd: Cmd, n: nat, rest: string)
    requires !Peek(rest, "&")
    ensures ParseBacks(cmd, Amps(n) + rest) == Ok(BackN(cmd, n), Trim(rest))
    decreases n
  {
    hide Trim, GetToken, Peek;
    if n == 0 {
      assert Amps(n) + rest == rest;
    } else {
      var s := Amps(n - 1) + rest;
      assert Amps(n) + rest == ['&'] + s;
      PeekAt('&', s, "&");
      SymbolScanned('&', s);
      ParseBacksTrim(Back(cmd), s);
      AmpsParsed(Back(cmd), n - 1, rest);
    }
  }

  /** Trim of text that starts with a symbol. */
  lemma StopAt(c: char, s: string)
    requires !IsSpace(c)
    ensures c in "|)&;" ==> StopsExec([c] + s)
    ensures c in ")&;" ==> StopsPipe([c] + s)
    ensures c in ");" ==> StopsBack([c] + s)
    ensures c == ')' ==> StopsLine([c] + s)
  {
    hide Trim;
    TrimNothing(c, s);
  }

  lemma StopsImply(rest: string)
    ensures StopsLine(rest) ==> StopsBack(rest) && !Peek(rest, ";")
    ensures StopsBack(rest) ==> StopsPipe(rest) && !Peek(rest, "&")
    ensures StopsPipe(rest) ==> StopsExec(rest) && !Peek(rest, "|")
  {
    hide Trim;
  }

  // ---- the mutual induction ----

  lemma {:induction false} ExecParsed(c: Cmd, rest: string)
    requires ValidTree(c) && StopsExec(rest)
    ensures Yields(ParseExec(PrintExec(c) + rest), c, rest)
    decreases Size(c), Rank(c, 3)
  {
    hide Trim, StopsExec, Yields, ParseExec, ParseLine, PrintExec, ValidReds, StopsLine, PrintReds;
    CoreSize(c);
    Decomposed(c);
    var x := Core(c);
    if x.Exec? {
      SimpleParsed(c, rest);
    } else {
      var after := [')'] + (PrintReds(RedsOf(c)) + rest);
      StopAt(')', PrintReds(RedsOf(c)) + rest);
      LineParsed(x, after);
      LineIsTop(x);
      BlockParsed(c, rest);
    }
  }

  lemma LineIsTop(c: Cmd)
    requires c.Pipe? || c.List? || c.Back?
    ensures PrintLine(c) == PrintTop(c)
  {
    if c.Pipe? {
      assert PrintPipe(c) == PrintTop(c);
      assert PrintBack(c) == PrintPipe(c);
    }
  }

  lemma {:induction false} PipeParsed(c: Cmd, rest: string)
    requires ValidTree(c) && StopsPipe(rest)
    ensures Yields(ParsePipe(PrintPipe(c) + rest), c, rest)
    decreases Size(c), Rank(c, 0)
  {
    hide Trim, Peek, GetToken, StopsExec, StopsPipe, ParseExec, PrintExec;
    TrimTwice(rest);
    StopsImply(rest);
    PeekTrim(rest, "|");
    if c.Pipe? {
      var right := PrintPipe(c.right) + rest;
      assert PrintPipe(c) + rest == PrintExec(c.left) + (['|'] + right);
      StopAt('|', right);
      ExecParsed(c.left, ['|'] + right);
      TrimNothing('|', right);
      PeekAt('|', right, "|");
      SymbolScanned('|', right);
      ParsePipeTrim(right);
      PipeParsed(c.right, rest);
    } else {
      ExecParsed(c, rest);
    }
  }

  lemma {:induction false} BacksParsed(c: Cmd, n: nat, rest: string)
    requires ValidTree(c) && StopsBack(rest)
    ensures var p := ParsePipe(PrintBack(c) + (Amps(n) + rest));
            p.Ok? && Yields(ParseBacks(p.value, p.rest), BackN(c, n), rest)
    decreases Size(c), Rank(c, 1)
  {
    hide Trim, Peek, StopsBack, StopsPipe, ParsePipe, ParseBacks, PrintPipe, PrintTop, ValidTree;
    if c.Back? {
      BackOfBack(c, n, rest);
      BacksParsed(c.body, n + 1, rest);
    } else {
      StopsImply(rest);
      AmpsStop(n, rest);
      PipeParsed(c, Amps(n) + rest);
      var p := ParsePipe(PrintPipe(c) + (Amps(n) + rest));
      ParseBacksTrim(p.value, Amps(n) + rest);
      AmpsParsed(p.value, n, rest);
      EraseBackN(p.value, n);
      EraseBackN(c, n);
    }
  }

  lemma BackOfBack(c: Cmd, n: nat, rest: string)
    requires c.Back?
    ensures PrintBack(c) + (Amps(n) + rest) == PrintBack(c.body) + (Amps(n + 1) + rest)
        && BackN(c, n) == BackN(c.body, n + 1)
    ensures ValidTree(c) ==> ValidTree(c.body)
  {
    var a, b := PrintBack(c.body), Amps(n);
    assert PrintBack(c) == a + "&";
    assert a + "&" + (b + rest) == a + ("&" + b + rest);
  }

  lemma AmpsStop(n: nat, rest: string)
    requires StopsPipe(rest)
    ensures StopsPipe(Amps(n) + rest)
  {
    hide Trim, StopsPipe;
    if n == 0 {
      assert Amps(n) + rest == rest;
    } else {
      assert Amps(n) + rest == ['&'] + (Amps(n - 1) + rest);
      StopAt('&', Amps(n - 1) + rest);
    }
  }

  lemma {:induction false} LineParsed(c: Cmd, rest: string)
    requires ValidTree(c) && StopsLine(rest)
    ensures Yields(ParseLine(PrintLine(c) + rest), c, rest)
    decreases Size(c), Rank(c, 2)
  {
    hide Trim, Peek, GetToken, StopsBack, StopsLine, ParsePipe, ParseBacks, PrintBack;
    TrimTwice(rest);
    StopsImply(rest);
    PeekTrim(rest, ";");
    if c.List? {
      var right := PrintLine(c.second) + rest;
      var after := [';'] + right;
      assert PrintLine(c) + rest == PrintBack(c.first) + after;
      assert Amps(0) + after == after;
      StopAt(';', right);
      BacksParsed(c.first, 0, after);
      TrimNothing(';', right);
      PeekAt(';', right, ";");
      SymbolScanned(';', right);
      ParseLineTrim(right);
      LineParsed(c.second, rest);
    } else {
      assert Amps(0) + rest == rest;
      BacksParsed(c, 0, rest);
    }
  }

  /** Every valid command tree, printed, parses back to itself. */
  lemma RoundTrip(c: Cmd)
    requires ValidTree(c)
    ensures ParseCmd(PrintLine(c)).Ok? && Erase(ParseCmd(PrintLine(c)).value) == Erase(c)
  {
    hide ParseLine, PrintLine, ValidTree;
    EndScanned();
    LineParsed(c, "");
    assert PrintLine(c) + "" == PrintLine(c);
  }
}
