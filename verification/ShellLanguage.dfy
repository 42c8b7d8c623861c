/** The language the shell accepts, as a grammar over tokens, and that the parser decides it. */
module ShellLanguage {
  import opened Common
  import opened ShellGrammar

  // ---------------------------------------------------------------- the grammar

  datatype Arrow = Arrow(sign: Token, file: Slice)
  datatype Arg = Arg(word: Slice, arrows: seq<Arrow>)

  /** A derivation: what the line looks like, with parentheses, signs and the places of the redirections. */
  datatype Phrase =
    | Simple(pre: seq<Arrow>, args: seq<Arg>)
    | Block(body: Phrase, arrows: seq<Arrow>)
    | Piped(left: Phrase, right: Phrase)
    | Async(sub: Phrase)
    | Then(left: Phrase, right: Phrase)

  predicate Sign(t: Token) { t == Sym('<') || t == Sym('>') || t == Append }

  predicate ArrowsOk(arrows: seq<Arrow>) {
    forall k | 0 <= k < |arrows| :: Sign(arrows[k].sign)
  }

  predicate ArgsOk(args: seq<Arg>) { forall k | 0 <= k < |args| :: ArrowsOk(args[k].arrows) }

  /** command ::= arrow* (word arrow*)*, with fewer than MAXARGS words, or "(" line ")" arrow* */
  predicate IsCommand(d: Phrase)
    decreases d, 0
  {
    match d
    case Simple(pre, args) => ArrowsOk(pre) && ArgsOk(args) && |args| < MAXARGS
    case Block(body, arrows) => IsLine(body) && ArrowsOk(arrows)
    case _ => false
  }

  /** pipe ::= command | command "|" pipe */
  predicate IsPipe(d: Phrase)
    decreases d, 1
  {
    if d.Piped? then IsCommand(d.left) && IsPipe(d.right) else IsCommand(d)
  }

  /** back ::= pipe "&"* */
  predicate IsBack(d: Phrase)
    decreases d, 2
  {
    if d.Async? then IsBack(d.sub) else IsPipe(d)
  }

  /** line ::= back | back ";" line */
  predicate IsLine(d: Phrase)
    decreases d, 3
  {
    if d.Then? then IsBack(d.left) && IsLine(d.right) else IsBack(d)
  }

  /** Each is one of the next. */
  lemma Levels(d: Phrase)
    ensures (IsCommand(d) ==> IsPipe(d)) && (IsPipe(d) ==> IsBack(d)) && (IsBack(d) ==> IsLine(d))
    ensures (IsLine(d) && !d.Then? ==> IsBack(d)) && (IsBack(d) && !d.Async? ==> IsPipe(d))
    ensures IsPipe(d) && !d.Piped? ==> IsCommand(d)
  {
    if d.Async? || d.Then? { assert !IsCommand(d) && !IsPipe(d); }
    if d.Then? { assert !IsBack(d); }
  }

  // ---------------------------------------------------------------- its words and its trees

  function ArrowTokens(arrows: seq<Arrow>): seq<Token>
    decreases |arrows|
  {
    if arrows == [] then [] else [arrows[0].sign, Word(arrows[0].file)] + ArrowTokens(arrows[1..])
  }

  function ArgTokens(args: seq<Arg>): seq<Token>
    decreases |args|
  {
    if args == [] then [] else [Word(args[0].word)] + ArrowTokens(args[0].arrows) + ArgTokens(args[1..])
  }

  function Flat(d: Phrase): seq<Token> {
    match d
    case Simple(pre, args) => ArrowTokens(pre) + ArgTokens(args)
    case Block(body, arrows) => [Sym('(')] + Flat(body) + [Sym(')')] + ArrowTokens(arrows)
    case Piped(left, right) => Flat(left) + [Sym('|')] + Flat(right)
    case Async(sub) => Flat(sub) + [Sym('&')]
    case Then(left, right) => Flat(left) + [Sym(';')] + Flat(right)
  }

  /** Both > and >> open the file for writing. */
  function OneRedirect(arrow: Arrow): Redirect<Slice> {
    Redirect(arrow.file, arrow.sign == Sym('>') || arrow.sign == Append)
  }

  function Redirects(arrows: seq<Arrow>): seq<Redirect<Slice>>
    decreases |arrows|
  {
    if arrows == [] then [] else [OneRedirect(arrows[0])] + Redirects(arrows[1..])
  }

  function Words(args: seq<Arg>): seq<Slice>
    decreases |args|
  {
    if args == [] then [] else [args[0].word] + Words(args[1..])
  }

  function ArgRedirects(args: seq<Arg>): seq<Redirect<Slice>>
    decreases |args|
  {
    if args == [] then [] else Redirects(args[0].arrows) + ArgRedirects(args[1..])
  }

  function TreeOf(d: Phrase): Tree<Slice> {
    match d
    case Simple(pre, args) => Wrap(Exec(Words(args)), Redirects(pre) + ArgRedirects(args))
    case Block(body, arrows) => Wrap(TreeOf(body), Redirects(arrows))
    case Piped(left, right) => Pipe(TreeOf(left), TreeOf(right))
    case Async(sub) => Back(TreeOf(sub))
    case Then(left, right) => List(TreeOf(left), TreeOf(right))
  }

  // ---------------------------------------------------------------- the tokens of a line

  function Tokens(s: string, i: nat): seq<Token>
    requires i <= |s|
    decreases |s| - i
  {
    if Skip(s, i) == |s| then [] else [GetToken(s, i).0] + Tokens(s, GetToken(s, i).1)
  }

  /** The first token is one of these characters, or >> where > is one of them. */
  predicate Starts(ts: seq<Token>, toks: string) {
    ts != [] && ((ts[0].Sym? && ts[0].c in toks) || (ts[0].Append? && '>' in toks))
  }

  lemma SkipAgain(s: string, i: nat)
    requires i <= |s|
    ensures Skip(s, Skip(s, i)) == Skip(s, i) && GetToken(s, Skip(s, i)) == GetToken(s, i)
    ensures Tokens(s, Skip(s, i)) == Tokens(s, i)
  {}

  lemma PeekIs(s: string, i: nat, toks: string)
    requires i <= |s| && forall c | c in toks :: c in SYMBOLS
    ensures Peek(s, i, toks) <==> Starts(Tokens(s, i), toks)
  {}

  /** The token at the cursor, behind any whitespace, is the first of those left. */
  lemma FirstToken(s: string, i: nat)
    requires i <= |s|
    ensures var (t, j) := GetToken(s, Skip(s, i));
      if Tokens(s, i) == [] then t == End && Tokens(s, j) == [] else t != End && Tokens(s, i) == [t] + Tokens(s, j)
  {
    SkipAgain(s, i);
  }

  /** What a token looks like on the line. */
  function Text(s: string, t: Token): string
    requires t.Word? ==> t.w.q <= t.w.eq <= |s|
  {
    match t
    case End => ""
    case Sym(c) => [c]
    case Append => ">>"
    case Word(w) => s[w.q..w.eq]
  }

  /** The token stands behind the whitespace at the cursor, is as long as it can be, and whitespace after it is skipped
      too. */
  predicate Stands(s: string, a: nat, t: Token, j: nat)
    requires a <= |s| && (t.Word? ==> t.w.q <= t.w.eq <= |s|)
  {
    var e := a + |Text(s, t)|;
    && e <= |s| && s[a..e] == Text(s, t) && j == Skip(s, e) && (t == End <==> a == |s|)
    && (t.Word? ==> t.w == Slice(a, e) && IsWord(s, t.w))
    && (t.Sym? ==> t.c in SYMBOLS) && (t == Sym('>') && e < |s| ==> s[e] != '>')
  }

  lemma SymbolText(s: string, i: nat)
    requires i <= |s| && Skip(s, i) < |s| && s[Skip(s, i)] in SYMBOLS
    ensures Stands(s, Skip(s, i), GetToken(s, i).0, GetToken(s, i).1)
  {
    var a := Skip(s, i);
    if a + 1 < |s| { assert s[a..a + 2] == [s[a], s[a + 1]]; }
  }

  lemma WordText(s: string, i: nat)
    requires i <= |s| && Skip(s, i) < |s| && s[Skip(s, i)] !in SYMBOLS
    ensures Stands(s, Skip(s, i), GetToken(s, i).0, GetToken(s, i).1)
  {}

  lemma TokenText(s: string, i: nat)
    requires i <= |s|
    ensures Stands(s, Skip(s, i), GetToken(s, i).0, GetToken(s, i).1)
  {
    var a := Skip(s, i);
    if a < |s| {
      if s[a] in SYMBOLS { SymbolText(s, i); } else { WordText(s, i); }
    }
  }

  lemma Assoc(a: seq<Token>, b: seq<Token>, c: seq<Token>)
    ensures a + b + c == a + (b + c)
  {}

  lemma NothingFirst<T>(x: seq<T>)
    ensures [] + x == x
  {}

  // ---------------------------------------------------------------- redirections

  /** Behind the cursor stands t, and then the cursor j. */
  predicate TokenAt(s: string, i: nat, t: Token, j: nat) {
    i <= |s| && i <= j <= |s| && GetToken(s, Skip(s, i)) == (t, j)
  }

  lemma TokenHere(s: string, i: nat) returns (t: Token, j: nat)
    requires i <= |s|
    ensures TokenAt(s, i, t, j) && GetToken(s, i) == (t, j)
    ensures if Tokens(s, i) == [] then t == End && Tokens(s, j) == []
            else t != End && i < j && Tokens(s, i) == [t] + Tokens(s, j)
  {
    SkipAgain(s, i);
    FirstToken(s, i);
    t, j := GetToken(s, Skip(s, i)).0, GetToken(s, Skip(s, i)).1;
  }

  predicate Signed(ts: seq<Token>) { ts != [] && Sign(ts[0]) }

  /** A sign, a file name, and then the cursor k. */
  predicate ArrowAt(s: string, i: nat, arrow: Arrow, k: nat) {
    exists j: nat :: TokenAt(s, i, arrow.sign, j) && j <= k <= |s| && GetToken(s, j) == (Word(arrow.file), k)
  }

  lemma ArrowHere(s: string, i: nat) returns (arrow: Arrow, k: nat)
    requires i <= |s| && |Tokens(s, i)| >= 2 && Sign(Tokens(s, i)[0]) && Tokens(s, i)[1].Word?
    ensures i < k <= |s| && ArrowAt(s, i, arrow, k) && Sign(arrow.sign)
    ensures Tokens(s, i) == [arrow.sign, Word(arrow.file)] + Tokens(s, k)
  {
    var t, j := TokenHere(s, i);
    var f, e := TokenHere(s, j);
    arrow, k := Arrow(t, f.w), e;
  }

  lemma RedirTakes(s: string, i: nat, rs: seq<Redirect<Slice>>, arrow: Arrow, k: nat)
    requires i <= |s| && Peek(s, i, "<>") && ArrowAt(s, i, arrow, k) && Sign(arrow.sign)
    ensures ParseRedirs(s, i, rs) == ParseRedirs(s, k, rs + [OneRedirect(arrow)])
  {}

  lemma RedirFails(s: string, i: nat, rs: seq<Redirect<Slice>>)
    requires i <= |s| && Signed(Tokens(s, i)) && !(|Tokens(s, i)| >= 2 && Tokens(s, i)[1].Word?)
    ensures ParseRedirs(s, i, rs).Bad?
  {
    PeekIs(s, i, "<>");
    var t, j := TokenHere(s, i);
    var f, e := TokenHere(s, j);
  }

  lemma SignPeek(s: string, i: nat)
    requires i <= |s|
    ensures Peek(s, i, "<>") <==> Signed(Tokens(s, i))
  {
    PeekIs(s, i, "<>");
  }

  /** One more arrow in front. */
  lemma ArrowsCons(arrow: Arrow, tail: seq<Arrow>, ts: seq<Token>, rest: seq<Token>, post: seq<Token>,
      rs: seq<Redirect<Slice>>)
    requires Sign(arrow.sign) && ts == [arrow.sign, Word(arrow.file)] + rest
    ensures ArrowsOk([arrow] + tail) <==> ArrowsOk(tail)
    ensures ts == ArrowTokens([arrow] + tail) + post <==> rest == ArrowTokens(tail) + post
    ensures rs + Redirects([arrow] + tail) == rs + [OneRedirect(arrow)] + Redirects(tail)
  {
    var all := [arrow] + tail;
    assert all[1..] == tail;
    assert ArrowsOk(tail) ==> forall k | 0 < k < |all| :: all[k] == tail[k - 1];
    assert ArrowsOk(all) ==> forall k | 0 <= k < |tail| :: tail[k] == all[k + 1];
    assert ArrowTokens(all) + post == [arrow.sign, Word(arrow.file)] + (ArrowTokens(tail) + post);
    assert ts[2..] == rest;
    assert ([arrow.sign, Word(arrow.file)] + (ArrowTokens(tail) + post))[2..] == ArrowTokens(tail) + post;
  }

  /** What a parse of redirections means. */
  predicate RedirsMean(s: string, i: nat, rs: seq<Redirect<Slice>>, r: Parsed<seq<Redirect<Slice>>>,
      arrows: seq<Arrow>) {
    && i <= |s| && r.Ok? && r.next <= |s| && r.value == rs + Redirects(arrows) && ArrowsOk(arrows)
    && Tokens(s, i) == ArrowTokens(arrows) + Tokens(s, r.next)
  }

  lemma RedirsConsMean(s: string, i: nat, rs: seq<Redirect<Slice>>, r: Parsed<seq<Redirect<Slice>>>, arrow: Arrow,
      k: nat, tail: seq<Arrow>)
    requires i <= |s| && k <= |s| && Sign(arrow.sign)
    requires Tokens(s, i) == [arrow.sign, Word(arrow.file)] + Tokens(s, k)
    ensures RedirsMean(s, i, rs, r, [arrow] + tail) <==> RedirsMean(s, k, rs + [OneRedirect(arrow)], r, tail)
  {
    if r.Ok? && r.next <= |s| { ArrowsCons(arrow, tail, Tokens(s, i), Tokens(s, k), Tokens(s, r.next), rs); }
  }

  lemma RedirsNone(s: string, i: nat, rs: seq<Redirect<Slice>>)
    requires i <= |s| && !Peek(s, i, "<>")
    ensures RedirsMean(s, i, rs, ParseRedirs(s, i, rs), []) && Tokens(s, ParseRedirs(s, i, rs).next) == Tokens(s, i)
  {
    SkipAgain(s, i);
    assert rs + Redirects([]) == rs;
  }

  lemma RedirsTurn(s: string, i: nat, rs: seq<Redirect<Slice>>) returns (arrow: Arrow, k: nat)
    requires i <= |s| && Signed(Tokens(s, i))
    requires ParseRedirs(s, i, rs).Ok? || (|Tokens(s, i)| >= 2 && Tokens(s, i)[1].Word?)
    ensures i < k <= |s| && Sign(arrow.sign) && Tokens(s, i) == [arrow.sign, Word(arrow.file)] + Tokens(s, k)
    ensures ParseRedirs(s, i, rs) == ParseRedirs(s, k, rs + [OneRedirect(arrow)])
  {
    SignPeek(s, i);
    if !(|Tokens(s, i)| >= 2 && Tokens(s, i)[1].Word?) { RedirFails(s, i, rs); }
    arrow, k := ArrowHere(s, i);
    RedirTakes(s, i, rs, arrow, k);
  }

  lemma {:induction false} RedirsSound(s: string, i: nat, rs: seq<Redirect<Slice>>) returns (arrows: seq<Arrow>)
    requires i <= |s| && ParseRedirs(s, i, rs).Ok?
    ensures RedirsMean(s, i, rs, ParseRedirs(s, i, rs), arrows)
    decreases |s| - i
  {
    SignPeek(s, i);
    if Signed(Tokens(s, i)) {
      var arrow, k := RedirsTurn(s, i, rs);
      var tail := RedirsSound(s, k, rs + [OneRedirect(arrow)]);
      RedirsConsMean(s, i, rs, ParseRedirs(s, i, rs), arrow, k, tail);
      arrows := [arrow] + tail;
    } else {
      arrows := [];
      RedirsNone(s, i, rs);
    }
  }

  lemma {:induction false} RedirsComplete(s: string, i: nat, rs: seq<Redirect<Slice>>, arrows: seq<Arrow>,
      post: seq<Token>)
    requires i <= |s| && ArrowsOk(arrows) && Tokens(s, i) == ArrowTokens(arrows) + post && !Signed(post)
    ensures RedirsMean(s, i, rs, ParseRedirs(s, i, rs), arrows) && Tokens(s, ParseRedirs(s, i, rs).next) == post
    decreases |arrows|
  {
    SignPeek(s, i);
    if arrows == [] {
      RedirsNone(s, i, rs);
    } else {
      var arrow, k := RedirsTurn(s, i, rs);
      var tail := arrows[1..];
      assert arrows == [arrow] + tail;
      ArrowsCons(arrow, tail, Tokens(s, i), Tokens(s, k), post, rs);
      RedirsComplete(s, k, rs + [OneRedirect(arrow)], tail, post);
      RedirsConsMean(s, i, rs, ParseRedirs(s, i, rs), arrow, k, tail);
    }
  }

  // ---------------------------------------------------------------- words

  /** What can come after a command. */
  predicate Follow(ts: seq<Token>) {
    ts == [] || ts[0] == Sym('|') || ts[0] == Sym(')') || ts[0] == Sym('&') || ts[0] == Sym(';')
  }

  lemma FollowPeek(s: string, i: nat)
    requires i <= |s|
    ensures Peek(s, i, "|)&;") <==> Tokens(s, i) != [] && Follow(Tokens(s, i))
  {
    PeekIs(s, i, "|)&;");
  }

  predicate ArgsMean(s: string, i: nat, ws: seq<Slice>, rs: seq<Redirect<Slice>>,
      r: Parsed<(seq<Slice>, seq<Redirect<Slice>>)>, args: seq<Arg>) {
    && i <= |s| && r.Ok? && r.next <= |s| && ArgsOk(args)
    && r.value == (ws + Words(args), rs + ArgRedirects(args)) && Tokens(s, i) == ArgTokens(args) + Tokens(s, r.next)
  }

  /** One more word, with its redirections, in front. */
  lemma ArgsCons(arg: Arg, tail: seq<Arg>, ws: seq<Slice>, rs: seq<Redirect<Slice>>, ts: seq<Token>, rest: seq<Token>,
      post: seq<Token>)
    requires ts == [Word(arg.word)] + (ArrowTokens(arg.arrows) + rest)
    ensures ArgsOk([arg] + tail) <==> ArgsOk(tail) && ArrowsOk(arg.arrows)
    ensures ts == ArgTokens([arg] + tail) + post <==> rest == ArgTokens(tail) + post
    ensures ws + Words([arg] + tail) == ws + [arg.word] + Words(tail)
    ensures rs + ArgRedirects([arg] + tail) == rs + Redirects(arg.arrows) + ArgRedirects(tail)
  {
    var all, head := [arg] + tail, [Word(arg.word)] + ArrowTokens(arg.arrows);
    assert all[1..] == tail;
    assert ArgsOk(tail) ==> forall k | 0 < k < |all| :: all[k] == tail[k - 1];
    assert ArgsOk(all) ==> forall k | 0 <= k < |tail| :: tail[k] == all[k + 1];
    assert all[0] == arg;
    assert ts == head + rest && ArgTokens(all) + post == head + (ArgTokens(tail) + post);
    assert ts[|head|..] == rest && (head + (ArgTokens(tail) + post))[|head|..] == ArgTokens(tail) + post;
  }

  lemma ArgsConsMean(s: string, i: nat, ws: seq<Slice>, rs: seq<Redirect<Slice>>,
      r: Parsed<(seq<Slice>, seq<Redirect<Slice>>)>, arg: Arg, j: nat, more: Parsed<seq<Redirect<Slice>>>,
      tail: seq<Arg>)
    requires i <= |s| && j <= |s| && Tokens(s, i) == [Word(arg.word)] + Tokens(s, j)
    requires RedirsMean(s, j, rs, more, arg.arrows)
    ensures ArgsMean(s, i, ws, rs, r, [arg] + tail) <==> ArgsMean(s, more.next, ws + [arg.word], more.value, r, tail)
  {
    if r.Ok? && r.next <= |s| {
      ArgsCons(arg, tail, ws, rs, Tokens(s, i), Tokens(s, more.next), Tokens(s, r.next));
    }
  }

  lemma ArgsNone(s: string, i: nat, ws: seq<Slice>, rs: seq<Redirect<Slice>>)
    requires i <= |s| && Follow(Tokens(s, i))
    ensures ArgsMean(s, i, ws, rs, ParseArgs(s, i, ws, rs), [])
    ensures Tokens(s, ParseArgs(s, i, ws, rs).next) == Tokens(s, i)
  {
    FollowPeek(s, i);
    SkipAgain(s, i);
    assert ws + Words([]) == ws && rs + ArgRedirects([]) == rs;
    if Tokens(s, i) == [] { var t, j := TokenHere(s, i); }
  }

  /** One turn of parseexec's loop, at something that cannot follow a command. */
  lemma ArgsTurn(s: string, i: nat, ws: seq<Slice>, rs: seq<Redirect<Slice>>) returns (t: Token, j: nat)
    requires i <= |s| && !Follow(Tokens(s, i))
    ensures i < j <= |s| && Tokens(s, i) == [t] + Tokens(s, j)
    ensures var more := ParseRedirs(s, j, rs);
      ParseArgs(s, i, ws, rs) == if !t.Word? || |ws| + 1 >= MAXARGS || more.Bad? then Bad
                                 else ParseArgs(s, more.next, ws + [t.w], more.value)
  {
    FollowPeek(s, i);
    t, j := TokenHere(s, i);
  }

  lemma {:induction false} ArgsSound(s: string, i: nat, ws: seq<Slice>,
      rs: seq<Redirect<Slice>>) returns (args: seq<Arg>)
    requires i <= |s| && |ws| < MAXARGS && ParseArgs(s, i, ws, rs).Ok?
    ensures ArgsMean(s, i, ws, rs, ParseArgs(s, i, ws, rs), args) && |ws| + |args| < MAXARGS
    decreases |s| - i
  {
    if Follow(Tokens(s, i)) {
      args := [];
      ArgsNone(s, i, ws, rs);
    } else {
      var t, j := ArgsTurn(s, i, ws, rs);
      var more := ParseRedirs(s, j, rs);
      var arrows := RedirsSound(s, j, rs);
      var tail := ArgsSound(s, more.next, ws + [t.w], more.value);
      ArgsConsMean(s, i, ws, rs, ParseArgs(s, i, ws, rs), Arg(t.w, arrows), j, more, tail);
      args := [Arg(t.w, arrows)] + tail;
    }
  }

  predicate Heads(ts: seq<Token>, t: Token) { ts != [] && ts[0] == t }

  lemma WordFirst(args: seq<Arg>, post: seq<Token>)
    requires Follow(post)
    ensures !Signed(ArgTokens(args) + post) && (args != [] ==> !Follow(ArgTokens(args) + post))
    ensures !Heads(ArgTokens(args) + post, Sym('('))
  {}

  lemma ArgsSplit(args: seq<Arg>, post: seq<Token>)
    requires args != []
    ensures args == [args[0]] + args[1..] && (ArgsOk(args) ==> ArrowsOk(args[0].arrows) && ArgsOk(args[1..]))
    ensures ArgTokens(args) + post ==
      [Word(args[0].word)] + (ArrowTokens(args[0].arrows) + (ArgTokens(args[1..]) + post))
  {
    Assoc([Word(args[0].word)] + ArrowTokens(args[0].arrows), ArgTokens(args[1..]), post);
    Assoc([Word(args[0].word)], ArrowTokens(args[0].arrows), ArgTokens(args[1..]) + post);
  }

  lemma SameTail(t: Token, u: seq<Token>, t': Token, u': seq<Token>)
    requires [t] + u == [t'] + u'
    ensures t == t' && u == u'
  {
    assert ([t] + u)[0] == t && ([t'] + u')[0] == t';
    assert ([t] + u)[1..] == u && ([t'] + u')[1..] == u';
  }

  /** The first word of the rest of a command, and its redirections. */
  lemma ArgComplete(s: string, i: nat, ws: seq<Slice>, rs: seq<Redirect<Slice>>, args: seq<Arg>,
      post: seq<Token>) returns (j: nat)
    requires i <= |s| && ArgsOk(args) && args != [] && |ws| + 1 < MAXARGS && Follow(post)
    requires Tokens(s, i) == ArgTokens(args) + post
    ensures i < j <= |s| && Tokens(s, i) == [Word(args[0].word)] + Tokens(s, j)
    ensures RedirsMean(s, j, rs, ParseRedirs(s, j, rs), args[0].arrows)
    ensures var more := ParseRedirs(s, j, rs);
      && Tokens(s, more.next) == ArgTokens(args[1..]) + post
      && ParseArgs(s, i, ws, rs) == ParseArgs(s, more.next, ws + [args[0].word], more.value)
  {
    WordFirst(args, post);
    ArgsSplit(args, post);
    var t;
    t, j := ArgsTurn(s, i, ws, rs);
    var rest := ArgTokens(args[1..]) + post;
    SameTail(t, Tokens(s, j), Word(args[0].word), ArrowTokens(args[0].arrows) + rest);
    WordFirst(args[1..], post);
    RedirsComplete(s, j, rs, args[0].arrows, rest);
  }

  lemma {:induction false} ArgsComplete(s: string, i: nat, ws: seq<Slice>, rs: seq<Redirect<Slice>>, args: seq<Arg>,
      post: seq<Token>)
    requires i <= |s| && ArgsOk(args) && |ws| + |args| < MAXARGS && Follow(post)
    requires Tokens(s, i) == ArgTokens(args) + post
    ensures ArgsMean(s, i, ws, rs, ParseArgs(s, i, ws, rs), args) && Tokens(s, ParseArgs(s, i, ws, rs).next) == post
    decreases |args|
  {
    if args == [] {
      ArgsNone(s, i, ws, rs);
    } else {
      var j := ArgComplete(s, i, ws, rs, args, post);
      ArgsSplit(args, post);
      var more := ParseRedirs(s, j, rs);
      ArgsComplete(s, more.next, ws + [args[0].word], more.value, args[1..], post);
      ArgsConsMean(s, i, ws, rs, ParseArgs(s, i, ws, rs), args[0], j, more, args[1..]);
    }
  }

  // ---------------------------------------------------------------- commands

  /** The parse r at i read exactly the tokens of d and built its tree. */
  predicate Means(s: string, i: nat, r: Parsed<Tree<Slice>>, d: Phrase) {
    i <= |s| && r.Ok? && r.next <= |s| && r.value == TreeOf(d) && Tokens(s, i) == Flat(d) + Tokens(s, r.next)
  }

  lemma SymHere(s: string, i: nat, c: char) returns (j: nat)
    requires i <= |s| && Heads(Tokens(s, i), Sym(c))
    ensures i < j <= |s| && GetToken(s, Skip(s, i)) == (Sym(c), j) && Tokens(s, i) == [Sym(c)] + Tokens(s, j)
  {
    var t;
    t, j := TokenHere(s, i);
  }

  lemma SymPeek(s: string, i: nat, c: char)
    requires i <= |s| && c in SYMBOLS && c != '>'
    ensures Peek(s, i, [c]) <==> Heads(Tokens(s, i), Sym(c))
  {
    PeekIs(s, i, [c]);
  }

  lemma SimpleMean(s: string, i: nat, first: Parsed<seq<Redirect<Slice>>>,
      rest: Parsed<(seq<Slice>, seq<Redirect<Slice>>)>, pre: seq<Arrow>, args: seq<Arg>)
    requires RedirsMean(s, i, [], first, pre) && ArgsMean(s, first.next, [], first.value, rest, args)
    requires |args| < MAXARGS
    ensures IsCommand(Simple(pre, args))
    ensures Means(s, i, Ok(Wrap(Exec(rest.value.0), rest.value.1), rest.next), Simple(pre, args))
  {
    NothingFirst(Redirects(pre));
    NothingFirst(Words(args));
    Assoc(ArrowTokens(pre), ArgTokens(args), Tokens(s, rest.next));
  }

  /** parseexec where no "(" stands. */
  lemma ExecIs(s: string, i: nat)
    requires i <= |s| && !Heads(Tokens(s, i), Sym('('))
    ensures Tokens(s, Skip(s, i)) == Tokens(s, i)
    ensures var first := ParseRedirs(s, Skip(s, i), []);
      ParseExec(s, i) == if first.Bad? then Bad else
        var rest := ParseArgs(s, first.next, [], first.value);
        if rest.Bad? then Bad else Ok(Wrap(Exec(rest.value.0), rest.value.1), rest.next)
  {
    SymPeek(s, i, '(');
    SkipAgain(s, i);
  }

  lemma SimpleSound(s: string, i: nat) returns (d: Phrase)
    requires i <= |s| && !Heads(Tokens(s, i), Sym('(')) && ParseExec(s, i).Ok?
    ensures IsCommand(d) && Means(s, i, ParseExec(s, i), d)
  {
    ExecIs(s, i);
    var first := ParseRedirs(s, Skip(s, i), []);
    var pre := RedirsSound(s, Skip(s, i), []);
    var rest := ParseArgs(s, first.next, [], first.value);
    var args := ArgsSound(s, first.next, [], first.value);
    SimpleMean(s, Skip(s, i), first, rest, pre, args);
    d := Simple(pre, args);
  }

  lemma SimpleFirst(pre: seq<Arrow>, args: seq<Arg>, post: seq<Token>)
    requires ArrowsOk(pre) && Follow(post)
    ensures !Heads(ArrowTokens(pre) + (ArgTokens(args) + post), Sym('('))
    ensures Flat(Simple(pre, args)) + post == ArrowTokens(pre) + (ArgTokens(args) + post)
  {
    WordFirst(args, post);
  }

  lemma SimpleComplete(s: string, i: nat, d: Phrase, post: seq<Token>)
    requires i <= |s| && d.Simple? && IsCommand(d) && Follow(post) && Tokens(s, i) == Flat(d) + post
    ensures Means(s, i, ParseExec(s, i), d) && Tokens(s, ParseExec(s, i).next) == post
  {
    SimpleFirst(d.pre, d.args, post);
    ExecIs(s, i);
    WordFirst(d.args, post);
    RedirsComplete(s, Skip(s, i), [], d.pre, ArgTokens(d.args) + post);
    var first := ParseRedirs(s, Skip(s, i), []);
    ArgsComplete(s, first.next, [], first.value, d.args, post);
    SimpleMean(s, Skip(s, i), first, ParseArgs(s, first.next, [], first.value), d.pre, d.args);
  }

  // ---------------------------------------------------------------- blocks

  /** What parseexec makes of a block whose inside is read as body. */
  function Closed(s: string, body: Parsed<Tree<Slice>>): Parsed<Tree<Slice>>
    requires body.Ok? ==> body.next <= |s|
  {
    if body.Bad? || !Peek(s, body.next, ")") then Bad
    else
      var rest := ParseRedirs(s, GetToken(s, Skip(s, body.next)).1, []);
      if rest.Bad? then Bad else Ok(Wrap(body.value, rest.value), rest.next)
  }

  lemma BlockTurn(s: string, i: nat) returns (j: nat)
    requires i <= |s| && Heads(Tokens(s, i), Sym('('))
    ensures i < j <= |s| && Tokens(s, i) == [Sym('(')] + Tokens(s, j) && ParseExec(s, i) == Closed(s, ParseLine(s, j))
  {
    SymPeek(s, i, '(');
    j := SymHere(s, i, '(');
  }

  /** Where the block closes. */
  lemma CloseTurn(s: string, body: Parsed<Tree<Slice>>) returns (k: nat)
    requires body.Ok? && body.next <= |s| && Heads(Tokens(s, body.next), Sym(')'))
    ensures k <= |s| && Tokens(s, body.next) == [Sym(')')] + Tokens(s, k)
    ensures var rest := ParseRedirs(s, k, []);
      Closed(s, body) == if rest.Bad? then Bad else Ok(Wrap(body.value, rest.value), rest.next)
  {
    SymPeek(s, body.next, ')');
    k := SymHere(s, body.next, ')');
  }

  lemma BlockTokens(d: Phrase, arrows: seq<Arrow>, post: seq<Token>)
    ensures Flat(Block(d, arrows)) + post == [Sym('(')] + (Flat(d) + ([Sym(')')] + (ArrowTokens(arrows) + post)))
  {
    Assoc([Sym('(')] + Flat(d) + [Sym(')')], ArrowTokens(arrows), post);
    Assoc([Sym('(')] + Flat(d), [Sym(')')], ArrowTokens(arrows) + post);
    Assoc([Sym('(')], Flat(d), [Sym(')')] + (ArrowTokens(arrows) + post));
  }

  lemma BlockMean(s: string, i: nat, j: nat, body: Parsed<Tree<Slice>>, d: Phrase, k: nat,
      rest: Parsed<seq<Redirect<Slice>>>, arrows: seq<Arrow>)
    requires i <= |s| && j <= |s| && Tokens(s, i) == [Sym('(')] + Tokens(s, j) && Means(s, j, body, d)
    requires k <= |s| && Tokens(s, body.next) == [Sym(')')] + Tokens(s, k) && RedirsMean(s, k, [], rest, arrows)
    ensures Means(s, i, Ok(Wrap(body.value, rest.value), rest.next), Block(d, arrows))
  {
    NothingFirst(Redirects(arrows));
    BlockTokens(d, arrows, Tokens(s, rest.next));
  }

  lemma BlockSound(s: string, i: nat, j: nat, inner: Phrase) returns (d: Phrase)
    requires i <= |s| && j <= |s| && Tokens(s, i) == [Sym('(')] + Tokens(s, j) && Closed(s, ParseLine(s, j)).Ok?
    requires IsLine(inner) && Means(s, j, ParseLine(s, j), inner)
    ensures IsCommand(d) && Means(s, i, Closed(s, ParseLine(s, j)), d)
  {
    var body := ParseLine(s, j);
    SymPeek(s, body.next, ')');
    var k := CloseTurn(s, body);
    var arrows := RedirsSound(s, k, []);
    BlockMean(s, i, j, body, inner, k, ParseRedirs(s, k, []), arrows);
    d := Block(inner, arrows);
  }

  /** What is left behind the inside of block d. */
  predicate Closes(rest: seq<Token>, d: Phrase, post: seq<Token>)
    requires d.Block?
  {
    Heads(rest, Sym(')')) && rest[1..] == ArrowTokens(d.arrows) + post
  }

  lemma BlockOpens(s: string, i: nat, d: Phrase, post: seq<Token>) returns (j: nat, rest: seq<Token>)
    requires d.Block? && i <= |s| && Tokens(s, i) == Flat(d) + post
    ensures i < j <= |s| && Tokens(s, i) == [Sym('(')] + Tokens(s, j) && ParseExec(s, i) == Closed(s, ParseLine(s, j))
    ensures Tokens(s, j) == Flat(d.body) + rest && Closes(rest, d, post)
  {
    rest := [Sym(')')] + (ArrowTokens(d.arrows) + post);
    BlockTokens(d.body, d.arrows, post);
    j := BlockTurn(s, i);
    SameTail(Sym('('), Tokens(s, j), Sym('('), Flat(d.body) + rest);
  }

  /** The block d, whose inside is read at j. */
  lemma BlockComplete(s: string, i: nat, j: nat, d: Phrase, post: seq<Token>, rest: seq<Token>)
    requires d.Block? && ArrowsOk(d.arrows) && i <= |s| && j <= |s| && Tokens(s, i) == [Sym('(')] + Tokens(s, j)
    requires Means(s, j, ParseLine(s, j), d.body) && !Signed(post)
    requires Tokens(s, ParseLine(s, j).next) == rest && Closes(rest, d, post)
    ensures Means(s, i, Closed(s, ParseLine(s, j)), d) && Tokens(s, Closed(s, ParseLine(s, j)).next) == post
  {
    var body := ParseLine(s, j);
    var k := CloseTurn(s, body);
    assert rest[1..] == Tokens(s, k);
    RedirsComplete(s, k, [], d.arrows, post);
    BlockMean(s, i, j, body, d.body, k, ParseRedirs(s, k, []), d.arrows);
  }

  // ---------------------------------------------------------------- pipes

  lemma InfixTokens(left: Phrase, c: char, right: Phrase, post: seq<Token>)
    ensures Flat(left) + [Sym(c)] + Flat(right) + post == Flat(left) + ([Sym(c)] + (Flat(right) + post))
  {
    Assoc(Flat(left) + [Sym(c)], Flat(right), post);
    Assoc(Flat(left), [Sym(c)], Flat(right) + post);
  }

  /** What parsepipe makes of a first command read as left. */
  lemma PipeIs(s: string, i: nat)
    requires i <= |s| && ParseExec(s, i).Ok?
    ensures var left := ParseExec(s, i);
      !Heads(Tokens(s, left.next), Sym('|')) ==>
        ParsePipe(s, i) == Ok(left.value, Skip(s, left.next)) && Tokens(s, Skip(s, left.next)) == Tokens(s, left.next)
  {
    SymPeek(s, ParseExec(s, i).next, '|');
    SkipAgain(s, ParseExec(s, i).next);
  }

  lemma PipeTurn(s: string, i: nat) returns (j: nat)
    requires i <= |s| && ParseExec(s, i).Ok? && Heads(Tokens(s, ParseExec(s, i).next), Sym('|'))
    ensures var left := ParseExec(s, i);
      && left.next < j <= |s| && Tokens(s, left.next) == [Sym('|')] + Tokens(s, j)
      && var right := ParsePipe(s, j);
         ParsePipe(s, i) == if right.Bad? then Bad else Ok(Pipe(left.value, right.value), right.next)
  {
    SymPeek(s, ParseExec(s, i).next, '|');
    j := SymHere(s, ParseExec(s, i).next, '|');
  }

  lemma PipeMean(s: string, i: nat, left: Parsed<Tree<Slice>>, d: Phrase, j: nat, right: Parsed<Tree<Slice>>, e: Phrase)
    requires Means(s, i, left, d) && j <= |s| && Tokens(s, left.next) == [Sym('|')] + Tokens(s, j)
    requires Means(s, j, right, e)
    ensures Means(s, i, Ok(Pipe(left.value, right.value), right.next), Piped(d, e))
  {
    InfixTokens(d, '|', e, Tokens(s, right.next));
  }

  lemma ListMean(s: string, i: nat, left: Parsed<Tree<Slice>>, d: Phrase, j: nat, right: Parsed<Tree<Slice>>, e: Phrase)
    requires Means(s, i, left, d) && j <= |s| && Tokens(s, left.next) == [Sym(';')] + Tokens(s, j)
    requires Means(s, j, right, e)
    ensures Means(s, i, Ok(List(left.value, right.value), right.next), Then(d, e))
  {
    InfixTokens(d, ';', e, Tokens(s, right.next));
  }

  lemma BackMean(s: string, i: nat, r: Parsed<Tree<Slice>>, d: Phrase, j: nat)
    requires Means(s, i, r, d) && j <= |s| && Tokens(s, r.next) == [Sym('&')] + Tokens(s, j)
    ensures Means(s, i, Ok(Back(r.value), j), Async(d))
  {
    Assoc(Flat(d), [Sym('&')], Tokens(s, j));
  }

  // ---------------------------------------------------------------- background

  lemma BacksEnd(s: string, i: nat, t: Tree<Slice>)
    requires i <= |s| && !Heads(Tokens(s, i), Sym('&'))
    ensures Backs(s, i, t) == (t, Skip(s, i)) && Tokens(s, Skip(s, i)) == Tokens(s, i)
  {
    SymPeek(s, i, '&');
    SkipAgain(s, i);
  }

  lemma BacksTurn(s: string, i: nat, t: Tree<Slice>) returns (j: nat)
    requires i <= |s| && Heads(Tokens(s, i), Sym('&'))
    ensures i < j <= |s| && Tokens(s, i) == [Sym('&')] + Tokens(s, j) && Backs(s, i, t) == Backs(s, j, Back(t))
  {
    SymPeek(s, i, '&');
    j := SymHere(s, i, '&');
  }

  /** The "&"s behind what was read as r, which means d. */
  lemma {:induction false} BacksSound(s: string, i: nat, r: Parsed<Tree<Slice>>, d: Phrase) returns (e: Phrase)
    requires IsBack(d) && Means(s, i, r, d)
    ensures IsBack(e) && !Heads(Tokens(s, Backs(s, r.next, r.value).1), Sym('&'))
    ensures var (t, j) := Backs(s, r.next, r.value); Means(s, i, Ok(t, j), e)
    decreases |s| - r.next
  {
    if Heads(Tokens(s, r.next), Sym('&')) {
      var j := BacksTurn(s, r.next, r.value);
      BackMean(s, i, r, d, j);
      e := BacksSound(s, i, Ok(Back(r.value), j), Async(d));
    } else {
      BacksEnd(s, r.next, r.value);
      e := d;
    }
  }

  /** The line from i on, up to its first ";". */
  function FirstPart(s: string, i: nat): (r: Parsed<Tree<Slice>>)
    requires i <= |s|
    ensures r.Ok? ==> i <= r.next <= |s|
  {
    var first := ParsePipe(s, i);
    if first.Bad? then Bad else var (t, j) := Backs(s, first.next, first.value); Ok(t, j)
  }

  lemma LineIs(s: string, i: nat)
    requires i <= |s| && FirstPart(s, i).Ok? && !Heads(Tokens(s, FirstPart(s, i).next), Sym(';'))
    ensures var part := FirstPart(s, i);
      ParseLine(s, i) == Ok(part.value, Skip(s, part.next)) && Tokens(s, Skip(s, part.next)) == Tokens(s, part.next)
  {
    SymPeek(s, FirstPart(s, i).next, ';');
    SkipAgain(s, FirstPart(s, i).next);
  }

  lemma LineTurn(s: string, i: nat) returns (j: nat)
    requires i <= |s| && FirstPart(s, i).Ok? && Heads(Tokens(s, FirstPart(s, i).next), Sym(';'))
    ensures var part := FirstPart(s, i);
      && part.next < j <= |s| && Tokens(s, part.next) == [Sym(';')] + Tokens(s, j)
      && var rest := ParseLine(s, j);
         ParseLine(s, i) == if rest.Bad? then Bad else Ok(List(part.value, rest.value), rest.next)
  {
    SymPeek(s, FirstPart(s, i).next, ';');
    j := SymHere(s, FirstPart(s, i).next, ';');
  }

  // ---------------------------------------------------------------- what is accepted is derived

  lemma SkippedMeans(s: string, i: nat, r: Parsed<Tree<Slice>>, d: Phrase)
    requires Means(s, i, r, d) && Tokens(s, Skip(s, r.next)) == Tokens(s, r.next)
    ensures Means(s, i, Ok(r.value, Skip(s, r.next)), d)
  {}

  lemma {:induction false} CommandSound(s: string, i: nat) returns (d: Phrase)
    requires i <= |s| && ParseExec(s, i).Ok?
    ensures IsCommand(d) && Means(s, i, ParseExec(s, i), d)
    decreases |s| - i, 0
  {
    if Heads(Tokens(s, i), Sym('(')) {
      var j := BlockTurn(s, i);
      var inner := LineSound(s, j);
      d := BlockSound(s, i, j, inner);
    } else {
      d := SimpleSound(s, i);
    }
  }

  lemma {:induction false} PipeSound(s: string, i: nat) returns (d: Phrase)
    requires i <= |s| && ParsePipe(s, i).Ok?
    ensures IsPipe(d) && Means(s, i, ParsePipe(s, i), d)
    decreases |s| - i, 1
  {
    var left := ParseExec(s, i);
    d := CommandSound(s, i);
    if Heads(Tokens(s, left.next), Sym('|')) {
      var j := PipeTurn(s, i);
      var e := PipeSound(s, j);
      PipeMean(s, i, left, d, j, ParsePipe(s, j), e);
      d := Piped(d, e);
    } else {
      PipeIs(s, i);
      SkippedMeans(s, i, left, d);
    }
  }

  lemma {:induction false} LineSound(s: string, i: nat) returns (d: Phrase)
    requires i <= |s| && ParseLine(s, i).Ok?
    ensures IsLine(d) && Means(s, i, ParseLine(s, i), d)
    decreases |s| - i, 2
  {
    var pipe := PipeSound(s, i);
    Levels(pipe);
    var part := FirstPart(s, i);
    d := BacksSound(s, i, ParsePipe(s, i), pipe);
    Levels(d);
    if Heads(Tokens(s, part.next), Sym(';')) {
      var j := LineTurn(s, i);
      var e := LineSound(s, j);
      ListMean(s, i, part, d, j, ParseLine(s, j), e);
      d := Then(d, e);
    } else {
      LineIs(s, i);
      SkippedMeans(s, i, part, d);
    }
  }

  // ---------------------------------------------------------------- what is derived is accepted

  lemma {:induction false} CommandComplete(s: string, i: nat, d: Phrase, post: seq<Token>)
    requires i <= |s| && IsCommand(d) && Follow(post) && Tokens(s, i) == Flat(d) + post
    ensures Means(s, i, ParseExec(s, i), d) && Tokens(s, ParseExec(s, i).next) == post
    decreases d, 0
  {
    if d.Simple? {
      SimpleComplete(s, i, d, post);
    } else {
      var j, rest := BlockOpens(s, i, d, post);
      LineComplete(s, j, d.body, rest);
      BlockComplete(s, i, j, d, post, rest);
    }
  }

  lemma {:induction false} PipeComplete(s: string, i: nat, d: Phrase, post: seq<Token>)
    requires i <= |s| && IsPipe(d) && Follow(post) && !Heads(post, Sym('|')) && Tokens(s, i) == Flat(d) + post
    ensures Means(s, i, ParsePipe(s, i), d) && Tokens(s, ParsePipe(s, i).next) == post
    decreases d, 1
  {
    if d.Piped? {
      InfixTokens(d.left, '|', d.right, post);
      var rest := Flat(d.right) + post;
      CommandComplete(s, i, d.left, [Sym('|')] + rest);
      var j := PipeTurn(s, i);
      SameTail(Sym('|'), Tokens(s, j), Sym('|'), rest);
      PipeComplete(s, j, d.right, post);
      PipeMean(s, i, ParseExec(s, i), d.left, j, ParsePipe(s, j), d.right);
    } else {
      CommandComplete(s, i, d, post);
      PipeIs(s, i);
      SkippedMeans(s, i, ParseExec(s, i), d);
    }
  }

  /** The pipe inside d is read, and of the "&"s as many as d has. */
  lemma {:induction false} BackComplete(s: string, i: nat, d: Phrase, post: seq<Token>) returns (j: nat)
    requires i <= |s| && IsBack(d) && Follow(post) && !Heads(post, Sym('|')) && Tokens(s, i) == Flat(d) + post
    ensures j <= |s| && ParsePipe(s, i).Ok? && Tokens(s, j) == post
    ensures var first := ParsePipe(s, i); Backs(s, first.next, first.value) == Backs(s, j, TreeOf(d))
    decreases d, 2
  {
    if d.Async? {
      Assoc(Flat(d.sub), [Sym('&')], post);
      var k := BackComplete(s, i, d.sub, [Sym('&')] + post);
      j := BacksTurn(s, k, TreeOf(d.sub));
      SameTail(Sym('&'), Tokens(s, j), Sym('&'), post);
    } else {
      PipeComplete(s, i, d, post);
      j := ParsePipe(s, i).next;
    }
  }

  lemma PartComplete(s: string, i: nat, d: Phrase, post: seq<Token>, j: nat)
    requires i <= |s| && j <= |s| && Tokens(s, i) == Flat(d) + post && Tokens(s, j) == post && !Heads(post, Sym('&'))
    requires ParsePipe(s, i).Ok?
    requires Backs(s, ParsePipe(s, i).next, ParsePipe(s, i).value) == Backs(s, j, TreeOf(d))
    ensures Means(s, i, FirstPart(s, i), d) && Tokens(s, FirstPart(s, i).next) == post
  {
    BacksEnd(s, j, TreeOf(d));
  }

  lemma {:induction false} LineComplete(s: string, i: nat, d: Phrase, post: seq<Token>)
    requires i <= |s| && IsLine(d) && (post == [] || Heads(post, Sym(')'))) && Tokens(s, i) == Flat(d) + post
    ensures Means(s, i, ParseLine(s, i), d) && Tokens(s, ParseLine(s, i).next) == post
    decreases d, 3
  {
    if d.Then? {
      InfixTokens(d.left, ';', d.right, post);
      var rest := Flat(d.right) + post;
      var k := BackComplete(s, i, d.left, [Sym(';')] + rest);
      PartComplete(s, i, d.left, [Sym(';')] + rest, k);
      var j := LineTurn(s, i);
      SameTail(Sym(';'), Tokens(s, j), Sym(';'), rest);
      LineComplete(s, j, d.right, post);
      ListMean(s, i, FirstPart(s, i), d.left, j, ParseLine(s, j), d.right);
    } else {
      var k := BackComplete(s, i, d, post);
      PartComplete(s, i, d, post, k);
      LineIs(s, i);
      SkippedMeans(s, i, FirstPart(s, i), d);
    }
  }

  // ---------------------------------------------------------------- the language

  /** The whole line is a derivation of d. */
  predicate Derives(s: string, d: Phrase) { IsLine(d) && Tokens(s, 0) == Flat(d) }

  /** parsecmd gives a tree exactly when the tokens of the line derive it. */
  lemma ParsesExactly(s: string, t: Tree<Slice>)
    ensures ParseCmd(s) == Some(t) <==> exists d :: Derives(s, d) && TreeOf(d) == t
  {
    if ParseCmd(s) == Some(t) {
      var d := LineSound(s, 0);
      assert Tokens(s, ParseLine(s, 0).next) == [];
      assert Derives(s, d) && TreeOf(d) == t;
    }
    if d :| Derives(s, d) && TreeOf(d) == t {
      LineComplete(s, 0, d, []);
    }
  }

  /** A line is refused exactly when no derivation has its tokens. */
  lemma RefusesExactly(s: string)
    ensures ParseCmd(s).None? <==> forall d :: !Derives(s, d)
  {
    if ParseCmd(s).Some? { ParsesExactly(s, ParseCmd(s).value); }
    forall d | Derives(s, d) ensures ParseCmd(s).Some? { ParsesExactly(s, TreeOf(d)); }
  }

  // ---------------------------------------------------------------- two consequences

  function Count(ts: seq<Token>, t: Token): nat {
    if ts == [] then 0 else (if ts[0] == t then 1 else 0) + Count(ts[1..], t)
  }

  lemma {:induction false} CountSum(a: seq<Token>, b: seq<Token>, t: Token)
    ensures Count(a + b, t) == Count(a, t) + Count(b, t)
  {
    if a == [] { assert a + b == b; } else {
      assert (a + b)[1..] == a[1..] + b;
      CountSum(a[1..], b, t);
    }
  }

  lemma {:induction false} NoParens(arrows: seq<Arrow>, args: seq<Arg>, c: char)
    requires ArrowsOk(arrows) && ArgsOk(args) && (c == '(' || c == ')')
    ensures Count(ArrowTokens(arrows), Sym(c)) == 0 && Count(ArgTokens(args), Sym(c)) == 0
    decreases |args|, |arrows|
  {
    if arrows != [] {
      CountSum([arrows[0].sign, Word(arrows[0].file)], ArrowTokens(arrows[1..]), Sym(c));
      NoParens(arrows[1..], [], c);
    }
    if args != [] {
      NoParens(args[0].arrows, [], c);
      NoParens([], args[1..], c);
      CountSum([Word(args[0].word)] + ArrowTokens(args[0].arrows), ArgTokens(args[1..]), Sym(c));
      CountSum([Word(args[0].word)], ArrowTokens(args[0].arrows), Sym(c));
    }
  }

  lemma {:induction false} Balanced(d: Phrase)
    requires IsLine(d)
    ensures Count(Flat(d), Sym('(')) == Count(Flat(d), Sym(')'))
  {
    Levels(d);
    match d
    case Simple(pre, args) =>
      NoParens(pre, args, '(');
      NoParens(pre, args, ')');
      CountBoth(ArrowTokens(pre), ArgTokens(args));
    case Block(body, arrows) =>
      Balanced(body);
      NoParens(arrows, [], '(');
      NoParens(arrows, [], ')');
      CountBoth([Sym('(')] + Flat(body) + [Sym(')')], ArrowTokens(arrows));
      CountBoth([Sym('(')] + Flat(body), [Sym(')')]);
      CountBoth([Sym('(')], Flat(body));
    case Piped(left, right) =>
      Levels(left);
      Levels(right);
      Balanced(left);
      Balanced(right);
      CountBoth(Flat(left) + [Sym('|')], Flat(right));
      CountBoth(Flat(left), [Sym('|')]);
    case Async(sub) =>
      Levels(sub);
      Balanced(sub);
      CountBoth(Flat(sub), [Sym('&')]);
    case Then(left, right) =>
      Levels(left);
      Balanced(left);
      Balanced(right);
      CountBoth(Flat(left) + [Sym(';')], Flat(right));
      CountBoth(Flat(left), [Sym(';')]);
  }

  lemma CountBoth(a: seq<Token>, b: seq<Token>)
    ensures Count(a + b, Sym('(')) == Count(a, Sym('(')) + Count(b, Sym('('))
    ensures Count(a + b, Sym(')')) == Count(a, Sym(')')) + Count(b, Sym(')'))
  {
    CountSum(a, b, Sym('('));
    CountSum(a, b, Sym(')'));
  }

  /** A line with an unclosed parenthesis, or with one too many closed, is refused. */
  lemma UnbalancedRefused(s: string)
    requires Count(Tokens(s, 0), Sym('(')) != Count(Tokens(s, 0), Sym(')'))
    ensures ParseCmd(s).None?
  {
    forall d ensures !Derives(s, d) { if Derives(s, d) { Balanced(d); } }
    RefusesExactly(s);
  }
}
