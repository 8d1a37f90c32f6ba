/** The scanner's loops, where the parser's token pointers point, and nulterminate. */
module ShellTokens {
  import opened Shell
  import opened ShellPrinter

  // ---- the scanner ----

  /** The loop that skips white space. */
  method SkipSpace(s: string, ps: nat) returns (p: nat)
    requires ps <= |s|
    ensures ps <= p <= |s| && s[p..] == Trim(s[ps..])
  {
    p := ps;
    while p < |s| && IsSpace(s[p])
      invariant ps <= p <= |s| && Trim(s[p..]) == Trim(s[ps..])
    {
      assert s[p..][1..] == s[p + 1..];
      p := p + 1;
    }
  }

  /** peek */
  method PeekToken(s: string, ps: nat, toks: string) returns (p: nat, found: bool)
    requires ps <= |s|
    ensures ps <= p <= |s| && s[p..] == Trim(s[ps..]) && (found <==> Peek(s[ps..], toks))
  {
    p := SkipSpace(s, ps);
    found := p < |s| && s[p] in toks;
  }

  /** The loop over the characters of a word. */
  method SkipWord(s: string, ps: nat) returns (p: nat)
    requires ps <= |s|
    ensures ps <= p <= |s| && p - ps == WordLength(s[ps..])
  {
    p := ps;
    while p < |s| && !IsSpace(s[p]) && !IsSymbol(s[p])
      invariant ps <= p <= |s| && p - ps + WordLength(s[p..]) == WordLength(s[ps..])
    {
      assert s[p..][1..] == s[p + 1..];
      p := p + 1;
    }
  }

  /** gettoken: the token is the text from q to eq. */
  method ScanToken(s: string, ps: nat) returns (lex: Lexeme, q: nat, eq: nat, p: nat)
    requires ps <= |s|
    ensures ps <= q <= eq <= p <= |s| && (lex, s[p..]) == GetToken(s[ps..])
    ensures lex.Word? ==> lex.tok == Tok(s[q..eq], |s| - eq)
  {
    hide Trim, WordLength;
    q := SkipSpace(s, ps);
    eq := q;
    if q == |s| {
      lex := End;
    } else if s[q] == '>' {
      eq := q + 1;
      lex := Symbol('>');
      if eq < |s| && s[eq] == '>' {
        lex := Symbol('+');
        eq := eq + 1;
      }
    } else if IsSymbol(s[q]) {
      eq := q + 1;
      lex := Symbol(s[q]);
    } else {
      eq := SkipWord(s, q);
      lex := Word(Tok(s[q..eq], |s| - eq));
    }
    p := SkipSpace(s, eq);
    Scanned(s, q, eq);
    EndTrim();
  }

  lemma EndTrim()
    ensures Trim("") == ""
  {
  }

  lemma Scanned(s: string, q: nat, eq: nat)
    requires q <= eq <= |s|
    ensures s[q..][eq - q..] == s[eq..] && s[q..][..eq - q] == s[q..eq] && |s[q..]| - (eq - q) == |s| - eq
  {
  }

  // ---- where tokens are ----

  predicate IsSuffix(t: string, s: string)
  {
    |t| <= |s| && t == s[|s| - |t|..]
  }

  /** The token's text is in s, ending where `left` characters are left, at the end of a word. */
  predicate Placed(s: string, tok: Tok)
  {
    && |tok.text| + tok.left <= |s| && ValidWord(tok.text) && s[|s| - tok.left - |tok.text|..|s| - tok.left] == tok.text
    && (tok.left > 0 ==> !IsWordChar(s[|s| - tok.left]))
  }

  predicate AllPlaced(s: string, c: Cmd)
  {
    match c
    case Exec(args) => forall i :: 0 <= i < |args| ==> Placed(s, args[i])
    case Redir(x, f, k) => AllPlaced(s, x) && Placed(s, f)
    case Pipe(l, r) => AllPlaced(s, l) && AllPlaced(s, r)
    case List(l, r) => AllPlaced(s, l) && AllPlaced(s, r)
    case Back(x) => AllPlaced(s, x)
  }

  lemma SuffixTransitive(a: string, b: string, c: string)
    requires IsSuffix(a, b) && IsSuffix(b, c)
    ensures IsSuffix(a, c)
  {
    assert b[|b| - |a|..] == c[|c| - |a|..];
  }

  lemma SameSlice(t: string, s: string, lo: nat, hi: nat)
    requires IsSuffix(t, s) && lo <= hi <= |t|
    ensures t[lo..hi] == s[|s| - |t| + lo..|s| - |t| + hi]
  {
  }

  lemma PlacedLonger(t: string, s: string, tok: Tok)
    requires IsSuffix(t, s) && Placed(t, tok)
    ensures Placed(s, tok)
  {
    hide ValidWord, IsWordChar;
    SameSlice(t, s, |t| - tok.left - |tok.text|, |t| - tok.left);
    if tok.left > 0 {
      assert t[|t| - tok.left] == s[|s| - tok.left];
    }
  }

  lemma {:induction false} AllPlacedLonger(t: string, s: string, c: Cmd)
    requires IsSuffix(t, s) && AllPlaced(t, c)
    ensures AllPlaced(s, c)
  {
    hide IsSuffix, Placed;
    match c
    case Exec(args) =>
      forall i | 0 <= i < |args|
        ensures Placed(s, args[i])
      {
        PlacedLonger(t, s, args[i]);
      }
    case Redir(x, f, k) =>
      AllPlacedLonger(t, s, x);
      PlacedLonger(t, s, f);
    case Pipe(l, r) =>
      AllPlacedLonger(t, s, l);
      AllPlacedLonger(t, s, r);
    case List(l, r) =>
      AllPlacedLonger(t, s, l);
      AllPlacedLonger(t, s, r);
    case Back(x) => AllPlacedLonger(t, s, x);
  }

  lemma {:induction false} TrimSuffix(s: string)
    ensures IsSuffix(Trim(s), s)
  {
    if s != [] && IsSpace(s[0]) {
      TrimSuffix(s[1..]);
      SuffixTransitive(Trim(s), s[1..], s);
    }
  }

  lemma {:induction false} WordLengthIs(s: string)
    ensures forall i :: 0 <= i < WordLength(s) ==> IsWordChar(s[i])
    ensures WordLength(s) < |s| ==> !IsWordChar(s[WordLength(s)])
  {
    if s != [] && IsWordChar(s[0]) {
      WordLengthIs(s[1..]);
    }
  }

  lemma TokenPlaced(s: string)
    ensures IsSuffix(GetToken(s).1, s) && (GetToken(s).0.Word? ==> Placed(s, GetToken(s).0.tok))
  {
    hide Lex, Trim, IsSuffix, Placed;
    var t := Trim(s);
    TrimSuffix(s);
    TrimStarts(s);
    LexPlaced(t);
    SuffixTransitive(Lex(t).1, t, s);
    if Lex(t).0.Word? {
      PlacedLonger(t, s, Lex(t).0.tok);
    }
  }

  lemma LexPlaced(t: string)
    requires t != [] ==> !IsSpace(t[0])
    ensures IsSuffix(Lex(t).1, t) && (Lex(t).0.Word? ==> Placed(t, Lex(t).0.tok))
  {
    hide Trim, WordLength, IsSuffix, Placed;
    if t == [] {
      TailSuffix(t, 0);
    } else if t[0] == '>' && |t| > 1 && t[1] == '>' {
      TailSuffix(t, 2);
    } else if IsSymbol(t[0]) {
      TailSuffix(t, 1);
    } else {
      TailSuffix(t, WordLength(t));
      WordPlaced(t);
    }
  }

  lemma TailSuffix(t: string, n: nat)
    requires n <= |t|
    ensures IsSuffix(Trim(t[n..]), t) && IsSuffix("", t)
  {
    hide Trim;
    TrimSuffix(t[n..]);
    SuffixTransitive(Trim(t[n..]), t[n..], t);
  }

  lemma WordPlaced(t: string)
    requires t != [] && IsWordChar(t[0])
    ensures Placed(t, Tok(t[..WordLength(t)], |t| - WordLength(t)))
  {
    hide WordLength;
    var n := WordLength(t);
    WordLengthIs(t);
    AtLeastOne(t);
    PlacedFirst(t, n);
  }

  lemma AtLeastOne(t: string)
    requires t != [] && IsWordChar(t[0])
    ensures WordLength(t) > 0
  {
  }

  lemma PlacedFirst(t: string, n: nat)
    requires 0 < n <= |t| && (forall i :: 0 <= i < n ==> IsWordChar(t[i])) && (n < |t| ==> !IsWordChar(t[n]))
    ensures Placed(t, Tok(t[..n], |t| - n))
  {
    var w := t[..n];
    assert forall i :: 0 <= i < |w| ==> w[i] == t[i];
    assert t[0..n] == w;
  }

  /** A parse that succeeds leaves a suffix of the text, and all tokens of its tree are in `whole`
      where they say. */
  predicate Sound(r: Parsed<Cmd>, s: string, whole: string)
  {
    r.Ok? ==> IsSuffix(r.rest, s) && AllPlaced(whole, r.value)
  }

  lemma {:induction false} RedirsSound(cmd: Cmd, s: string, whole: string)
    requires IsSuffix(s, whole) && AllPlaced(whole, cmd)
    ensures Sound(ParseRedirs(cmd, s), s, whole)
    decreases |s|
  {
    hide Trim, GetToken, Peek, IsSuffix, Placed, KindOf;
    if Peek(s, "<>") {
      var (op, s1) := GetToken(s);
      var (file, s2) := GetToken(s1);
      TokenPlaced(s);
      TokenPlaced(s1);
      SuffixTransitive(s1, s, whole);
      SuffixTransitive(s2, s1, s);
      SuffixTransitive(s2, s1, whole);
      if file.Word? && op.Symbol? {
        PlacedLonger(s1, whole, file.tok);
        var cmd' := Redir(cmd, file.tok, KindOf(op.c));
        RedirsSound(cmd', s2, whole);
        if ParseRedirs(cmd', s2).Ok? {
          SuffixTransitive(ParseRedirs(cmd', s2).rest, s2, s);
        }
      }
    } else {
      TrimSuffix(s);
    }
  }

  lemma {:induction false} AddArgPlaced(whole: string, cmd: Cmd, tok: Tok)
    requires AllPlaced(whole, cmd) && Placed(whole, tok)
    ensures AllPlaced(whole, AddArg(cmd, tok))
  {
    hide Placed;
    if cmd.Redir? {
      AddArgPlaced(whole, cmd.cmd, tok);
    }
  }

  lemma {:induction false} ArgsSound(cmd: Cmd, s: string, whole: string)
    requires IsSuffix(s, whole) && AllPlaced(whole, cmd)
    ensures Sound(ParseArgs(cmd, s), s, whole)
    decreases |s|
  {
    hide Trim, GetToken, Peek, IsSuffix, Placed, ParseRedirs, AllPlaced, AddArg;
    var red := ParseRedirs(cmd, s);
    RedirsSound(cmd, s, whole);
    if red.Ok? {
      TrimSuffix(red.rest);
      SuffixTransitive(Trim(red.rest), red.rest, s);
      SuffixTransitive(red.rest, s, whole);
      var (tok, s1) := GetToken(red.rest);
      TokenPlaced(red.rest);
      SuffixTransitive(s1, red.rest, s);
      SuffixTransitive(s1, red.rest, whole);
      if tok.Word? && Argc(red.value) + 1 < MAXARGS {
        PlacedLonger(red.rest, whole, tok.tok);
        AddArgPlaced(whole, red.value, tok.tok);
        var cmd' := AddArg(red.value, tok.tok);
        ArgsSound(cmd', s1, whole);
        if ParseArgs(cmd', s1).Ok? {
          SuffixTransitive(ParseArgs(cmd', s1).rest, s1, s);
        }
      }
    }
  }

  lemma {:induction false} ExecSound(s: string, whole: string)
    requires IsSuffix(s, whole)
    ensures Sound(ParseExec(s), s, whole)
    decreases |s|, 0
  {
    hide Trim, GetToken, Peek, IsSuffix, AllPlaced, ParseRedirs, ParseArgs, ParseLine;
    if Peek(s, "(") {
      var s1 := GetToken(s).1;
      TokenPlaced(s);
      PeekMoves(s, "(");
      SuffixTransitive(s1, s, whole);
      LineSound(s1, whole);
      var body := ParseLine(s1);
      if body.Ok? {
        var s2 := GetToken(body.rest).1;
        TokenPlaced(body.rest);
        SuffixTransitive(body.rest, s1, s);
        SuffixTransitive(s2, body.rest, s);
        SuffixTransitive(s2, s, whole);
        RedirsSound(body.value, s2, whole);
        if ParseRedirs(body.value, s2).Ok? {
          SuffixTransitive(ParseRedirs(body.value, s2).rest, s2, s);
        }
      }
    } else {
      NoArgsPlaced(whole);
      ArgsSound(Exec([]), s, whole);
    }
  }

  lemma NoArgsPlaced(whole: string)
    ensures AllPlaced(whole, Exec([]))
  {
  }

  lemma PeekMoves(s: string, toks: string)
    requires Peek(s, toks)
    ensures |GetToken(s).1| < |s|
  {
  }

  lemma {:induction false} PipeSound(s: string, whole: string)
    requires IsSuffix(s, whole)
    ensures Sound(ParsePipe(s), s, whole)
    decreases |s|, 1
  {
    hide Trim, GetToken, Peek, IsSuffix, ParseExec;
    ExecSound(s, whole);
    var l := ParseExec(s);
    if l.Ok? {
      TrimSuffix(l.rest);
      SuffixTransitive(Trim(l.rest), l.rest, s);
      if Peek(l.rest, "|") {
        var s1 := GetToken(l.rest).1;
        TokenPlaced(l.rest);
        PeekMoves(l.rest, "|");
        SuffixTransitive(s1, l.rest, s);
        SuffixTransitive(s1, s, whole);
        PipeSound(s1, whole);
        if ParsePipe(s1).Ok? {
          SuffixTransitive(ParsePipe(s1).rest, s1, s);
        }
      }
    }
  }

  lemma {:induction false} BacksSound(cmd: Cmd, s: string, whole: string)
    requires IsSuffix(s, whole) && AllPlaced(whole, cmd)
    ensures Sound(ParseBacks(cmd, s), s, whole)
    decreases |s|
  {
    hide Trim, GetToken, Peek, IsSuffix;
    if Peek(s, "&") {
      var s1 := GetToken(s).1;
      TokenPlaced(s);
      PeekMoves(s, "&");
      SuffixTransitive(s1, s, whole);
      BacksSound(Back(cmd), s1, whole);
      SuffixTransitive(ParseBacks(Back(cmd), s1).rest, s1, s);
    } else {
      TrimSuffix(s);
    }
  }

  lemma {:induction false} LineSound(s: string, whole: string)
    requires IsSuffix(s, whole)
    ensures Sound(ParseLine(s), s, whole)
    decreases |s|, 2
  {
    hide Trim, GetToken, Peek, IsSuffix, ParsePipe, ParseBacks;
    PipeSound(s, whole);
    var p := ParsePipe(s);
    if p.Ok? {
      SuffixTransitive(p.rest, s, whole);
      BacksSound(p.value, p.rest, whole);
      var b := ParseBacks(p.value, p.rest);
      SuffixTransitive(b.rest, p.rest, s);
      TrimSuffix(b.rest);
      SuffixTransitive(Trim(b.rest), b.rest, s);
      if Peek(b.rest, ";") {
        var s1 := GetToken(b.rest).1;
        TokenPlaced(b.rest);
        PeekMoves(b.rest, ";");
        SuffixTransitive(s1, b.rest, s);
        SuffixTransitive(s1, s, whole);
        LineSound(s1, whole);
        if ParseLine(s1).Ok? {
          SuffixTransitive(ParseLine(s1).rest, s1, s);
        }
      }
    }
  }

  // ---- nulterminate ----

  /** Position i of a text of n characters is the end of a token of the tree. */
  ghost predicate EndsAt(c: Cmd, n: nat, i: int)
  {
    match c
    case Exec(args) => exists k :: 0 <= k < |args| && i == n - args[k].left
    case Redir(x, f, k) => EndsAt(x, n, i) || i == n - f.left
    case Pipe(l, r) => EndsAt(l, n, i) || EndsAt(r, n, i)
    case List(l, r) => EndsAt(l, n, i) || EndsAt(r, n, i)
    case Back(x) => EndsAt(x, n, i)
  }

  predicate InBuffer(c: Cmd, n: nat)
  {
    match c
    case Exec(args) => forall k :: 0 <= k < |args| ==> args[k].left <= n
    case Redir(x, f, k) => InBuffer(x, n) && f.left <= n
    case Pipe(l, r) => InBuffer(l, n) && InBuffer(r, n)
    case List(l, r) => InBuffer(l, n) && InBuffer(r, n)
    case Back(x) => InBuffer(x, n)
  }

  /** nulterminate writes a NUL at the end of every token and nowhere else. */
  method Nulterminate(c: Cmd, buf: array<char>)
    requires buf.Length > 0 && InBuffer(c, buf.Length - 1)
    modifies buf
    ensures forall i :: 0 <= i < buf.Length ==> buf[i] == if EndsAt(c, buf.Length - 1, i) then '\0' else old(buf[i])
    decreases c
  {
    var n := buf.Length - 1;
    match c
    case Exec(args) =>
      var j := 0;
      while j < |args|
        invariant 0 <= j <= |args|
        invariant forall i :: 0 <= i < buf.Length ==>
                    buf[i] == if exists k :: 0 <= k < j && i == n - args[k].left then '\0' else old(buf[i])
      {
        buf[n - args[j].left] := '\0';
        j := j + 1;
      }
    case Redir(x, f, k) =>
      Nulterminate(x, buf);
      buf[n - f.left] := '\0';
    case Pipe(l, r) =>
      Nulterminate(l, buf);
      Nulterminate(r, buf);
    case List(l, r) =>
      Nulterminate(l, buf);
      Nulterminate(r, buf);
    case Back(x) =>
      Nulterminate(x, buf);
  }

  /** The C string that starts where the token does is the token's text. */
  predicate CString(b: string, n: nat, tok: Tok)
  {
    && |tok.text| + tok.left <= n < |b| && b[n - tok.left - |tok.text|..n - tok.left] == tok.text
    && b[n - tok.left] == '\0' && '\0' !in tok.text
  }

  predicate AllCStrings(b: string, n: nat, c: Cmd)
  {
    match c
    case Exec(args) => forall k :: 0 <= k < |args| ==> CString(b, n, args[k])
    case Redir(x, f, k) => AllCStrings(b, n, x) && CString(b, n, f)
    case Pipe(l, r) => AllCStrings(b, n, l) && AllCStrings(b, n, r)
    case List(l, r) => AllCStrings(b, n, l) && AllCStrings(b, n, r)
    case Back(x) => AllCStrings(b, n, x)
  }

  lemma {:induction false} EndNotWord(s: string, c: Cmd, i: int)
    requires AllPlaced(s, c) && EndsAt(c, |s|, i)
    ensures 0 <= i <= |s| && (i < |s| ==> !IsWordChar(s[i]))
  {
    match c
    case Exec(args) =>
      var k :| 0 <= k < |args| && i == |s| - args[k].left;
      assert Placed(s, args[k]);
    case Redir(x, f, k) =>
      if EndsAt(x, |s|, i) {
        EndNotWord(s, x, i);
      }
    case Pipe(l, r) =>
      if EndsAt(l, |s|, i) {
        EndNotWord(s, l, i);
      } else {
        EndNotWord(s, r, i);
      }
    case List(l, r) =>
      if EndsAt(l, |s|, i) {
        EndNotWord(s, l, i);
      } else {
        EndNotWord(s, r, i);
      }
    case Back(x) => EndNotWord(s, x, i);
  }

  /** b is s with a NUL behind it, after nulterminate of the tree `top`. */
  ghost predicate Terminated(s: string, top: Cmd, b: string)
  {
    && |b| == |s| + 1 && AllPlaced(s, top) && '\0' !in s
    && forall i :: 0 <= i < |b| ==> b[i] == if EndsAt(top, |s|, i) then '\0' else (s + "\0")[i]
  }

  lemma TokenReads(s: string, top: Cmd, b: string, tok: Tok)
    requires Terminated(s, top, b) && Placed(s, tok) && EndsAt(top, |s|, |s| - tok.left)
    ensures CString(b, |s|, tok)
  {
    hide EndsAt, AllPlaced;
    var q, eq := |s| - tok.left - |tok.text|, |s| - tok.left;
    forall j | q <= j < eq
      ensures b[j] == s[j]
    {
      assert s[j] == tok.text[j - q];
      if EndsAt(top, |s|, j) {
        EndNotWord(s, top, j);
      }
    }
    assert b[q..eq] == s[q..eq];
    assert forall k :: 0 <= k < |tok.text| ==> tok.text[k] == s[q + k];
  }

  /** nulterminate damages no token: each is a C string with the text that was scanned. */
  lemma {:induction false} AllRead(s: string, top: Cmd, b: string, c: Cmd)
    requires Terminated(s, top, b) && AllPlaced(s, c) && forall i :: EndsAt(c, |s|, i) ==> EndsAt(top, |s|, i)
    ensures AllCStrings(b, |s|, c)
    decreases c
  {
    hide Terminated, CString, Placed;
    match c
    case Exec(args) =>
      forall k | 0 <= k < |args|
        ensures CString(b, |s|, args[k])
      {
        assert EndsAt(c, |s|, |s| - args[k].left);
        TokenReads(s, top, b, args[k]);
      }
    case Redir(x, f, k) =>
      AllRead(s, top, b, x);
      TokenReads(s, top, b, f);
    case Pipe(l, r) =>
      AllRead(s, top, b, l);
      AllRead(s, top, b, r);
    case List(l, r) =>
      AllRead(s, top, b, l);
      AllRead(s, top, b, r);
    case Back(x) => AllRead(s, top, b, x);
  }

  lemma {:induction false} PlacedInBuffer(s: string, c: Cmd)
    requires AllPlaced(s, c)
    ensures InBuffer(c, |s|)
  {
    match c
    case Exec(args) =>
      forall k | 0 <= k < |args|
        ensures args[k].left <= |s|
      {
        assert Placed(s, args[k]);
      }
    case Redir(x, f, k) => PlacedInBuffer(s, x);
    case Pipe(l, r) =>
      PlacedInBuffer(s, l);
      PlacedInBuffer(s, r);
    case List(l, r) =>
      PlacedInBuffer(s, l);
      PlacedInBuffer(s, r);
    case Back(x) => PlacedInBuffer(s, x);
  }

  lemma TreePlaced(s: string)
    ensures ParseCmd(s).Ok? ==> AllPlaced(s, ParseCmd(s).value)
  {
    hide ParseLine, AllPlaced;
    assert s[0..] == s;
    LineSound(s, s);
  }
}
