/** The shell's command language: tokens, the trees they parse to, and the parser as a function of the line. */
module ShellGrammar {
  import opened Common

  const WHITESPACE: string := " \t\r\n" + [11 as char]
  const SYMBOLS: string := "<|>&;()"
  const MAXARGS: nat := 10

  predicate White(c: char) { c in WHITESPACE }
  predicate WordChar(c: char) { c !in WHITESPACE && c !in SYMBOLS }

  /** A parsed command; W is how its words are given.  write tells > and >> from <. */
  datatype Tree<W> = Exec(argv: seq<W>) | Redir(sub: Tree<W>, file: W, write: bool)
    | Pipe(left: Tree<W>, right: Tree<W>)
    | List(left: Tree<W>, right: Tree<W>) | Back(sub: Tree<W>)

  /** The slice q..eq of the line. */
  datatype Slice = Slice(q: nat, eq: nat)

  datatype Token = End | Sym(c: char) | Append | Word(w: Slice)

  /** A redirection found on the way. */
  datatype Redirect<W> = Redirect(file: W, write: bool)

  /** A result and the cursor after it, or one of the parser's panics. */
  datatype Parsed<T> = Ok(value: T, next: nat) | Bad

  // ---------------------------------------------------------------- tokens

  /** The cursor past whitespace. */
  function Skip(s: string, i: nat): (r: nat)
    requires i <= |s|
    ensures i <= r <= |s| && (r < |s| ==> !White(s[r])) && forall k | i <= k < r :: White(s[k])
    decreases |s| - i
  {
    if i < |s| && White(s[i]) then Skip(s, i + 1) else i
  }

  function WordEnd(s: string, i: nat): (r: nat)
    requires i <= |s|
    ensures i <= r <= |s| && (r < |s| ==> !WordChar(s[r])) && forall k | i <= k < r :: WordChar(s[k])
    decreases |s| - i
  {
    if i < |s| && WordChar(s[i]) then WordEnd(s, i + 1) else i
  }

  /** The token at the cursor, and where it and the whitespace after it end. */
  function GetToken(s: string, i: nat): (r: (Token, nat))
    requires i <= |s|
    ensures i <= r.1 <= |s| && (Skip(s, i) < |s| ==> i < r.1)
    ensures r.0.Word? ==> IsWord(s, r.0.w)
  {
    var a := Skip(s, i);
    if a == |s| then (End, a)
    else if s[a] == '>' then
      if a + 1 < |s| && s[a + 1] == '>' then (Append, Skip(s, a + 2)) else (Sym('>'), Skip(s, a + 1))
    else if s[a] in SYMBOLS then (Sym(s[a]), Skip(s, a + 1))
    else
      var e := WordEnd(s, a);
      (Word(Slice(a, e)), Skip(s, e))
  }

  /** The slice is a whole word of the line. */
  predicate IsWord(s: string, w: Slice) {
    w.q < w.eq <= |s| && (forall k | w.q <= k < w.eq :: WordChar(s[k])) && (w.eq < |s| ==> !WordChar(s[w.eq]))
  }

  /** The next character that is not white is one of toks. */
  predicate Peek(s: string, i: nat, toks: string)
    requires i <= |s|
  {
    Skip(s, i) < |s| && s[Skip(s, i)] in toks
  }

  // ---------------------------------------------------------------- the parser

  function Wrap<W>(t: Tree<W>, rs: seq<Redirect<W>>): Tree<W>
    decreases |rs|
  {
    if rs == [] then t else Wrap(Redir(t, rs[0].file, rs[0].write), rs[1..])
  }

  /** parseredirs; the redirections found are added to rs. */
  function ParseRedirs(s: string, i: nat, rs: seq<Redirect<Slice>>): (r: Parsed<seq<Redirect<Slice>>>)
    requires i <= |s|
    ensures r.Ok? ==> i <= r.next <= |s|
    decreases |s| - i
  {
    if !Peek(s, i, "<>") then Ok(rs, Skip(s, i))
    else
      var (tok, j) := GetToken(s, Skip(s, i));
      var (file, k) := GetToken(s, j);
      if !file.Word? then Bad else ParseRedirs(s, k, rs + [Redirect(file.w, tok != Sym('<'))])
  }

  /** The loop of parseexec. */
  function ParseArgs(s: string, i: nat, args: seq<Slice>,
      rs: seq<Redirect<Slice>>): (r: Parsed<(seq<Slice>, seq<Redirect<Slice>>)>)
    requires i <= |s|
    ensures r.Ok? ==> i <= r.next <= |s|
    decreases |s| - i
  {
    if Peek(s, i, "|)&;") then Ok((args, rs), Skip(s, i))
    else
      var (tok, j) := GetToken(s, Skip(s, i));
      if tok.End? then Ok((args, rs), j)
      else if !tok.Word? || |args| + 1 >= MAXARGS then Bad
      else
        var more := ParseRedirs(s, j, rs);
        if more.Bad? then Bad else ParseArgs(s, more.next, args + [tok.w], more.value)
  }

  function ParseExec(s: string, i: nat): (r: Parsed<Tree<Slice>>)
    requires i <= |s|
    ensures r.Ok? ==> i <= r.next <= |s|
    decreases |s| - i, 1
  {
    if Peek(s, i, "(") then ParseBlock(s, i)
    else
      var first := ParseRedirs(s, Skip(s, i), []);
      if first.Bad? then Bad
      else
        var rest := ParseArgs(s, first.next, [], first.value);
        if rest.Bad? then Bad else Ok(Wrap(Exec(rest.value.0), rest.value.1), rest.next)
  }

  function ParseBlock(s: string, i: nat): (r: Parsed<Tree<Slice>>)
    requires i <= |s|
    ensures r.Ok? ==> i <= r.next <= |s|
    decreases |s| - i, 0
  {
    if !Peek(s, i, "(") then Bad
    else
      var body := ParseLine(s, GetToken(s, Skip(s, i)).1);
      if body.Bad? || !Peek(s, body.next, ")") then Bad
      else
        var rest := ParseRedirs(s, GetToken(s, Skip(s, body.next)).1, []);
        if rest.Bad? then Bad else Ok(Wrap(body.value, rest.value), rest.next)
  }

  function ParsePipe(s: string, i: nat): (r: Parsed<Tree<Slice>>)
    requires i <= |s|
    ensures r.Ok? ==> i <= r.next <= |s|
    decreases |s| - i, 2
  {
    var left := ParseExec(s, i);
    if left.Bad? then Bad
    else if !Peek(s, left.next, "|") then Ok(left.value, Skip(s, left.next))
    else
      var right := ParsePipe(s, GetToken(s, Skip(s, left.next)).1);
      if right.Bad? then Bad else Ok(Pipe(left.value, right.value), right.next)
  }

  /** parseline's loop over "&". */
  function Backs(s: string, i: nat, t: Tree<Slice>): (r: (Tree<Slice>, nat))
    requires i <= |s|
    ensures i <= r.1 <= |s|
    decreases |s| - i
  {
    if Peek(s, i, "&") then Backs(s, GetToken(s, Skip(s, i)).1, Back(t)) else (t, Skip(s, i))
  }

  function ParseLine(s: string, i: nat): (r: Parsed<Tree<Slice>>)
    requires i <= |s|
    ensures r.Ok? ==> i <= r.next <= |s|
    decreases |s| - i, 3
  {
    var first := ParsePipe(s, i);
    if first.Bad? then Bad
    else
      var (t, j) := Backs(s, first.next, first.value);
      if !Peek(s, j, ";") then Ok(t, Skip(s, j))
      else
        var rest := ParseLine(s, GetToken(s, Skip(s, j)).1);
        if rest.Bad? then Bad else Ok(List(t, rest.value), rest.next)
  }

  /** parsecmd without nulterminate: the whole line, or the "syntax" panic on leftovers. */
  function ParseCmd(s: string): Option<Tree<Slice>> {
    var r := ParseLine(s, 0);
    if r.Bad? || Skip(s, r.next) != |s| then None else Some(r.value)
  }
}
