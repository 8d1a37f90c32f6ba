/** The shell's scanner and parser (sh.c). A parse function takes the text that is left and returns
    the tree and the text that is left then. A token remembers how much text is left after it, which
    is where the parser's end pointer for it points.
 */
module Shell {

  const MAXARGS: nat := 10

  datatype Tok = Tok(text: string, left: nat)

  datatype Kind = In | Out | Append

  datatype Cmd =
    | Exec(args: seq<Tok>)
    | Redir(cmd: Cmd, file: Tok, kind: Kind)
    | Pipe(left: Cmd, right: Cmd)
    | List(first: Cmd, second: Cmd)
    | Back(body: Cmd)

  datatype Error = MissingFile | Unclosed | Syntax | TooManyArgs | Leftovers

  datatype Parsed<T> = Ok(value: T, rest: string) | Bad(error: Error)

  predicate IsSpace(c: char)
  {
    c == ' ' || c == '\t' || c == '\r' || c == '\n' || c == '\U{00000B}'
  }

  predicate IsSymbol(c: char)
  {
    c == '<' || c == '|' || c == '>' || c == '&' || c == ';' || c == '(' || c == ')'
  }

  predicate IsWordChar(c: char)
  {
    !IsSpace(c) && !IsSymbol(c)
  }

  /** The text without leading white space. */
  function Trim(s: string): (t: string)
    ensures |t| <= |s|
  {
    if s != [] && IsSpace(s[0]) then Trim(s[1..]) else s
  }

  /** peek: is the next character one of `toks`? */
  predicate Peek(s: string, toks: string)
  {
    var t := Trim(s);
    t != [] && t[0] in toks
  }

  /** The length of the word at the start of the text. */
  function WordLength(s: string): (n: nat)
    ensures n <= |s|
  {
    if s != [] && IsWordChar(s[0]) then 1 + WordLength(s[1..]) else 0
  }

  datatype Lexeme = End | Symbol(c: char) | Word(tok: Tok)

  /** The token at the start of text without leading white space. `>>` is the symbol '+'. */
  function Lex(t: string): (r: (Lexeme, string))
    ensures |r.1| <= |t| && (r.0 == End <==> t == []) && (r.0 == End ==> r.1 == [])
    ensures r.0.Symbol? ==> |r.1| < |t|
    ensures r.0.Word? && IsWordChar(t[0]) ==> |r.1| < |t|
  {
    if t == [] then (End, [])
    else if t[0] == '>' && |t| > 1 && t[1] == '>' then (Symbol('+'), Trim(t[2..]))
    else if IsSymbol(t[0]) then (Symbol(t[0]), Trim(t[1..]))
    else
      var n := WordLength(t);
      (Word(Tok(t[..n], |t| - n)), Trim(t[n..]))
  }

  /** gettoken */
  function GetToken(s: string): (r: (Lexeme, string))
    ensures |r.1| <= |s| && (r.0 != End ==> |r.1| < |s|) && (r.0 == End ==> r.1 == [])
  {
    TrimStarts(s);
    Lex(Trim(s))
  }

  lemma {:induction false} TrimStarts(s: string)
    ensures Trim(s) != [] ==> !IsSpace(Trim(s)[0])
  {
    if s != [] && IsSpace(s[0]) {
      TrimStarts(s[1..]);
    }
  }

  function KindOf(c: char): (k: Kind)
  {
    if c == '<' then In else if c == '>' then Out else Append
  }

  /** parseredirs */
  function ParseRedirs(cmd: Cmd, s: string): (r: Parsed<Cmd>)
    ensures r.Ok? ==> |r.rest| <= |s|
    decreases |s|
  {
    if Peek(s, "<>") then
      var (op, s1) := GetToken(s);
      var (file, s2) := GetToken(s1);
      if file.Word? && op.Symbol? then ParseRedirs(Redir(cmd, file.tok, KindOf(op.c)), s2) else Bad(MissingFile)
    else Ok(cmd, Trim(s))
  }

  /** Adds an argument to the exec node under the redirections. */
  function AddArg(cmd: Cmd, tok: Tok): (r: Cmd)
  {
    match cmd
    case Exec(args) => Exec(args + [tok])
    case Redir(c, f, k) => Redir(AddArg(c, tok), f, k)
    case _ => cmd
  }

  function Argc(cmd: Cmd): (n: nat)
  {
    match cmd
    case Exec(args) => |args|
    case Redir(c, f, k) => Argc(c)
    case _ => 0
  }

  /** The loop of parseexec, with the redirections and arguments found so far in `cmd`. */
  function ParseArgs(cmd: Cmd, s: string): (r: Parsed<Cmd>)
    ensures r.Ok? ==> |r.rest| <= |s|
    decreases |s|
  {
    var red := ParseRedirs(cmd, s);
    if red.Bad? then red
    else if Peek(red.rest, "|)&;") then Ok(red.value, Trim(red.rest))
    else
      var (tok, s1) := GetToken(red.rest);
      if tok == End then Ok(red.value, s1)
      else if !tok.Word? then Bad(Syntax)
      else if Argc(red.value) + 1 >= MAXARGS then Bad(TooManyArgs)
      else ParseArgs(AddArg(red.value, tok.tok), s1)
  }

  /** parseexec and parseblock */
  function ParseExec(s: string): (r: Parsed<Cmd>)
    ensures r.Ok? ==> |r.rest| <= |s|
    decreases |s|, 0
  {
    if Peek(s, "(") then
      var (_, s1) := GetToken(s);
      var body := ParseLine(s1);
      if body.Bad? then body
      else if !Peek(body.rest, ")") then Bad(Unclosed)
      else
        var (_, s2) := GetToken(body.rest);
        ParseRedirs(body.value, s2)
    else ParseArgs(Exec([]), s)
  }

  /** parsepipe */
  function ParsePipe(s: string): (r: Parsed<Cmd>)
    ensures r.Ok? ==> |r.rest| <= |s|
    decreases |s|, 1
  {
    var l := ParseExec(s);
    if l.Bad? then l
    else if Peek(l.rest, "|") then
      var (_, s1) := GetToken(l.rest);
      var r := ParsePipe(s1);
      if r.Bad? then r else Ok(Pipe(l.value, r.value), r.rest)
    else Ok(l.value, Trim(l.rest))
  }

  /** The loop of parseline over `&`. */
  function ParseBacks(cmd: Cmd, s: string): (r: Parsed<Cmd>)
    ensures r.Ok? && |r.rest| <= |s|
    decreases |s|
  {
    if Peek(s, "&") then
      var (_, s1) := GetToken(s);
      ParseBacks(Back(cmd), s1)
    else Ok(cmd, Trim(s))
  }

  /** parseline */
  function ParseLine(s: string): (r: Parsed<Cmd>)
    ensures r.Ok? ==> |r.rest| <= |s|
    decreases |s|, 2
  {
    var p := ParsePipe(s);
    if p.Bad? then p
    else
      var b := ParseBacks(p.value, p.rest);
      if Peek(b.rest, ";") then
        var (_, s1) := GetToken(b.rest);
        var r := ParseLine(s1);
        if r.Bad? then r else Ok(List(b.value, r.value), r.rest)
      else Ok(b.value, Trim(b.rest))
  }

  /** parsecmd, before nulterminate */
  function ParseCmd(s: string): (r: Parsed<Cmd>)
  {
    var l := ParseLine(s);
    if l.Bad? then l
    else if Trim(l.rest) != [] then Bad(Leftovers)
    else Ok(l.value, [])
  }
}
