/** A printer for command trees that adds parentheses where the grammar needs them, and the proof that
    the parser undoes it. */
module ShellPrinter {
  import opened Shell

  predicate ValidWord(w: string)
  {
    w != [] && forall i :: 0 <= i < |w| ==> IsWordChar(w[i])
  }

  /** Trees the parser can build (ShellParser.ParserRange): up to MAXARGS - 1 words in a command. */
  predicate ValidTree(c: Cmd)
  {
    match c
    case Exec(args) => |args| < MAXARGS && forall i :: 0 <= i < |args| ==> ValidWord(args[i].text)
    case Redir(x, f, k) => ValidTree(x) && ValidWord(f.text)
    case Pipe(l, r) => ValidTree(l) && ValidTree(r)
    case List(l, r) => ValidTree(l) && ValidTree(r)
    case Back(x) => ValidTree(x)
  }

  /** The tree without the positions of its tokens. */
  function Erase(c: Cmd): (d: Cmd)
  {
    match c
    case Exec(args) => Exec(seq(|args|, i requires 0 <= i < |args| => Tok(args[i].text, 0)))
    case Redir(x, f, k) => Redir(Erase(x), Tok(f.text, 0), k)
    case Pipe(l, r) => Pipe(Erase(l), Erase(r))
    case List(l, r) => List(Erase(l), Erase(r))
    case Back(x) => Back(Erase(x))
  }

  // ---- the printer ----

  function PrintKind(k: Kind): (s: string)
  {
    match k
    case In => "<"
    case Out => ">"
    case Append => ">>"
  }

  function PrintWords(args: seq<Tok>): (s: string)
  {
    if args == [] then "" else args[0].text + " " + PrintWords(args[1..])
  }

  /** A command where the grammar wants one without `|`, `&` or `;` at its top. */
  function PrintExec(c: Cmd): (s: string)
    decreases c, 1
  {
    match c
    case Exec(args) => PrintWords(args)
    case Redir(x, f, k) => PrintExec(x) + PrintKind(k) + f.text + " "
    case _ => "(" + PrintTop(c) + ")"
  }

  function PrintPipe(c: Cmd): (s: string)
    decreases c, 2
  {
    if c.Pipe? then PrintTop(c) else PrintExec(c)
  }

  function PrintBack(c: Cmd): (s: string)
    decreases c, 3
  {
    if c.Back? then PrintTop(c) else PrintPipe(c)
  }

  function PrintLine(c: Cmd): (s: string)
    decreases c, 4
  {
    if c.List? then PrintTop(c) else PrintBack(c)
  }

  /** A pipe, list or background command. */
  function PrintTop(c: Cmd): (s: string)
    decreases c, 0
  {
    match c
    case Pipe(l, r) => PrintExec(l) + "|" + PrintPipe(r)
    case List(l, r) => PrintBack(l) + ";" + PrintLine(r)
    case Back(x) => PrintBack(x) + "&"
    case _ => ""
  }

  // ---- scanning what was printed ----

  lemma {:induction false} TrimTwice(s: string)
    ensures Trim(Trim(s)) == Trim(s)
  {
    if s != [] && IsSpace(s[0]) {
      TrimTwice(s[1..]);
    }
  }

  lemma TrimNothing(c: char, s: string)
    requires !IsSpace(c)
    ensures Trim([c] + s) == [c] + s
  {
  }

  lemma TrimSpace(s: string)
    ensures Trim(" " + s) == Trim(s)
  {
    assert (" " + s)[1..] == s;
  }

  lemma GetTokenTrim(s: string)
    ensures GetToken(Trim(s)) == GetToken(s)
  {
    hide Trim, Lex;
    TrimTwice(s);
  }

  lemma PeekTrim(s: string, toks: string)
    ensures Peek(Trim(s), toks) == Peek(s, toks)
  {
    TrimTwice(s);
  }

  lemma PeekAt(c: char, s: string, toks: string)
    requires !IsSpace(c)
    ensures Peek([c] + s, toks) <==> c in toks
  {
    TrimNothing(c, s);
  }

  lemma SymbolScanned(c: char, s: string)
    requires IsSymbol(c) && (c == '>' ==> s == [] || s[0] != '>')
    ensures GetToken([c] + s) == (Symbol(c), Trim(s))
  {
    TrimNothing(c, s);
    assert ([c] + s)[1..] == s;
  }

  lemma {:induction false} WordMeasured(w: string, s: string)
    requires (forall i :: 0 <= i < |w| ==> IsWordChar(w[i])) && (s != [] ==> !IsWordChar(s[0]))
    ensures WordLength(w + s) == |w|
  {
    if w == [] {
      assert w + s == s;
    } else {
      assert (w + s)[1..] == w[1..] + s;
      WordMeasured(w[1..], s);
    }
  }

  lemma WordScanned(w: string, s: string)
    requires ValidWord(w)
    ensures GetToken(w + " " + s) == (Word(Tok(w, |s| + 1)), Trim(s))
    ensures !Peek(w + " " + s, "<>") && !Peek(w + " " + s, "|)&;") && !Peek(w + " " + s, "(")
  {
    hide Trim, Lex, WordLength, ValidWord, IsWordChar, Peek;
    var t := w + " " + s;
    WordFirst(w, s);
    LexWord(t, |w|);
    Slices(w, s);
    TrimSpace(s);
    NoPeek(t);
  }

  lemma Slices(w: string, s: string)
    ensures (w + " " + s)[..|w|] == w && (w + " " + s)[|w|..] == " " + s && |w + " " + s| == |w| + 1 + |s|
  {
  }

  lemma LexWord(t: string, n: nat)
    requires t != [] && IsWordChar(t[0]) && WordLength(t) == n
    ensures n <= |t| && Lex(t) == (Word(Tok(t[..n], |t| - n)), Trim(t[n..]))
  {
    hide Trim, WordLength;
  }

  lemma NoPeek(t: string)
    requires t != [] && IsWordChar(t[0]) && Trim(t) == t
    ensures !Peek(t, "<>") && !Peek(t, "|)&;") && !Peek(t, "(")
  {
    hide Trim;
  }

  lemma WordFirst(w: string, s: string)
    requires ValidWord(w)
    ensures w != [] && IsWordChar((w + " " + s)[0]) && Trim(w + " " + s) == w + " " + s
        && WordLength(w + " " + s) == |w|
  {
    hide Trim, WordLength;
    var t := w + " " + s;
    assert t[0] == w[0];
    assert t == [t[0]] + t[1..];
    TrimNothing(t[0], t[1..]);
    assert t == w + (" " + s);
    WordMeasured(w, " " + s);
  }
}
