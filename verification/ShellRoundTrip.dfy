/** Printing a command tree and parsing the text gives the tree back. */
module ShellRoundTrip {
  import opened Common
  import opened ShellGrammar

  // ---------------------------------------------------------------- printing

  predicate IsWordText(w: string) { w != "" && forall k | 0 <= k < |w| :: WordChar(w[k]) }

  /** Trees that can be written down: words are words, and argument lists fit argv. */
  predicate Fine(t: Tree<string>) {
    match t
    case Exec(argv) => |argv| < MAXARGS && forall i | 0 <= i < |argv| :: IsWordText(argv[i])
    case Redir(sub, file, _) => Fine(sub) && IsWordText(file)
    case Pipe(l, r) => Fine(l) && Fine(r)
    case List(l, r) => Fine(l) && Fine(r)
    case Back(sub) => Fine(sub)
  }

  // Printing is written with the text that follows, so that the pieces nest to the right.

  function ArgsThen(args: seq<string>, post: string): string {
    if args == [] then post else " " + (args[0] + ArgsThen(args[1..], post))
  }

  function Arrow(write: bool): char { if write then '>' else '<' }

  function RedirsThen(rs: seq<Redirect<string>>, post: string): string {
    if rs == [] then post else " " + ([Arrow(rs[0].write)] + (" " + (rs[0].file + RedirsThen(rs[1..], post))))
  }

  /** The redirections around a tree, innermost first, and what they are around. */
  function Redirs(t: Tree<string>): seq<Redirect<string>> {
    if t.Redir? then Redirs(t.sub) + [Redirect(t.file, t.write)] else []
  }

  function Core(t: Tree<string>): (c: Tree<string>)
    ensures !c.Redir? && (t.Redir? ==> c < t) && (!t.Redir? ==> c == t)
  {
    if t.Redir? then Core(t.sub) else t
  }

  // The levels of the grammar: a line is commands with ";" between them, each perhaps followed by "&"s; such a
  // command is
  // a pipeline; a pipeline is simple commands with "|" between them; a simple command has arguments and
  // redirections, or
  // is a line in parentheses.  A tree is put in parentheses only where its level is not allowed.

  /** How often a tree at level k (0 the line, 4 the parentheses) can be passed on to the next level as it is. */
  function Order(t: Tree<string>, k: nat): nat {
    ((if t.List? then 5 else if t.Back? then 6 else if t.Pipe? then 7 else 8) - k) % 5
  }

  /** Parentheses and whole lines; ";" binds weakest, to the right. */
  function PrintThen(t: Tree<string>, post: string): string
    decreases t, Order(t, 0)
  {
    if t.List? then BackThen(t.left, ";" + PrintThen(t.right, post)) else BackThen(t, post)
  }

  function BackThen(t: Tree<string>, post: string): string
    decreases t, Order(t, 1)
  {
    if t.Back? then BackThen(t.sub, "&" + post) else PipeThen(t, post)
  }

  /** "|" binds to the right. */
  function PipeThen(t: Tree<string>, post: string): string
    decreases t, Order(t, 2)
  {
    if t.Pipe? then AtomThen(t.left, "|" + PipeThen(t.right, post)) else AtomThen(t, post)
  }

  /** Arguments, or a line in parentheses, and redirections. */
  function AtomThen(t: Tree<string>, post: string): string
    decreases t, Order(t, 3)
  {
    var rest := RedirsThen(Redirs(t), post);
    if Core(t).Exec? then ArgsThen(Core(t).argv, rest) else Parens(Core(t), rest)
  }

  function Parens(t: Tree<string>, post: string): string
    requires !t.Exec? && !t.Redir?
    decreases t, Order(t, 4)
  {
    "(" + PrintThen(t, ")" + post)
  }

  function Print(t: Tree<string>): string { PrintThen(t, "") }

  // ---------------------------------------------------------------- reading slices back

  function SliceText(s: string, w: Slice): string { if w.q <= w.eq <= |s| then s[w.q..w.eq] else "" }

  function Texts(s: string, ws: seq<Slice>): seq<string> { seq(|ws|, i requires 0 <= i < |ws| => SliceText(s, ws[i])) }

  function RedirText(s: string, r: Redirect<Slice>): Redirect<string> { Redirect(SliceText(s, r.file), r.write) }

  function RedirTexts(s: string, rs: seq<Redirect<Slice>>): seq<Redirect<string>> {
    seq(|rs|, i requires 0 <= i < |rs| => RedirText(s, rs[i]))
  }

  /** The tree with each slice replaced by its text. */
  function Text(s: string, t: Tree<Slice>): Tree<string> {
    match t
    case Exec(argv) => Exec(Texts(s, argv))
    case Redir(sub, file, write) => Redir(Text(s, sub), SliceText(s, file), write)
    case Pipe(l, r) => Pipe(Text(s, l), Text(s, r))
    case List(l, r) => List(Text(s, l), Text(s, r))
    case Back(sub) => Back(Text(s, sub))
  }

  lemma {:induction false} WrapText(s: string, t: Tree<Slice>, rs: seq<Redirect<Slice>>)
    ensures Text(s, Wrap(t, rs)) == Wrap(Text(s, t), RedirTexts(s, rs))
    decreases |rs|
  {
    if rs != [] {
      WrapText(s, Redir(t, rs[0].file, rs[0].write), rs[1..]);
      assert RedirTexts(s, rs)[1..] == RedirTexts(s, rs[1..]);
    }
  }

  lemma {:induction false} WrapSnoc(t: Tree<string>, rs: seq<Redirect<string>>, r: Redirect<string>)
    ensures Wrap(t, rs + [r]) == Redir(Wrap(t, rs), r.file, r.write)
    decreases |rs|
  {
    if rs == [] {
      assert [r][1..] == [];
    } else {
      assert (rs + [r])[1..] == rs[1..] + [r];
      WrapSnoc(Redir(t, rs[0].file, rs[0].write), rs[1..], r);
    }
  }

  lemma {:induction false} CoreAndRedirs(t: Tree<string>)
    ensures Wrap(Core(t), Redirs(t)) == t
  {
    if t.Redir? {
      CoreAndRedirs(t.sub);
      WrapSnoc(Core(t), Redirs(t.sub), Redirect(t.file, t.write));
    }
  }

  lemma {:induction false} FineParts(t: Tree<string>)
    requires Fine(t)
    ensures Fine(Core(t)) && forall i | 0 <= i < |Redirs(t)| :: IsWordText(Redirs(t)[i].file)
  {
    if t.Redir? { FineParts(t.sub); }
  }

  // ---------------------------------------------------------------- tokens of printed text

  /** The line from i on is text. */
  predicate Here(s: string, i: nat, text: string) { i <= |s| && s[i..] == text }

  lemma {:induction false} HereAfter(s: string, i: nat, a: string, b: string)
    requires Here(s, i, a + b)
    ensures i + |a| <= |s| && Here(s, i + |a|, b) && s[i..i + |a|] == a
  {
    assert s[i + |a|..] == s[i..][|a|..];
    assert s[i..i + |a|] == s[i..][..|a|];
  }

  /** What may follow a word: nothing, or a character no word has. */
  predicate Ends(text: string) { text == "" || !WordChar(text[0]) }

  predicate Dark(text: string) { text == "" || !White(text[0]) }

  lemma {:induction false} SkipNone(s: string, i: nat, text: string)
    requires Here(s, i, text) && Dark(text)
    ensures Skip(s, i) == i
  {
    if i < |s| { assert s[i] == s[i..][0]; }
  }

  lemma {:induction false} SkipBlank(s: string, i: nat, text: string)
    requires Here(s, i, " " + text) && Dark(text)
    ensures Skip(s, i) == i + 1 && Here(s, i + 1, text)
  {
    HereAfter(s, i, " ", text);
    assert s[i] == s[i..][0];
    SkipNone(s, i + 1, text);
  }

  lemma {:induction false} WordEnds(s: string, i: nat, w: string, rest: string)
    requires Here(s, i, w + rest) && (forall k | 0 <= k < |w| :: WordChar(w[k])) && Ends(rest)
    ensures WordEnd(s, i) == i + |w|
    decreases |w|
  {
    if w == "" {
      assert w + rest == rest;
      if i < |s| { assert s[i] == s[i..][0]; }
    } else {
      assert s[i] == s[i..][0] == w[0];
      assert w + rest == [w[0]] + (w[1..] + rest);
      HereAfter(s, i, [w[0]], w[1..] + rest);
      WordEnds(s, i + 1, w[1..], rest);
    }
  }

  /** A symbol that the text starts with, and the cursor after it. */
  lemma {:induction false} SymbolHere(s: string, i: nat, c: char, rest: string) returns (j: nat)
    requires Here(s, i, [c] + rest) && c in SYMBOLS && c != '>' && !White(c)
    ensures Skip(s, i) == i && i < |s| && s[i] == c && i < j <= |s| && Here(s, j, rest)
    ensures GetToken(s, i) == (Sym(c), Skip(s, j))
  {
    SkipNone(s, i, [c] + rest);
    HereAfter(s, i, [c], rest);
    assert s[i] == s[i..][0];
    j := i + 1;
  }

  /** A word after one blank. */
  lemma {:induction false} WordHere(s: string, i: nat, w: string, rest: string) returns (t: Slice)
    requires Here(s, i, " " + (w + rest)) && IsWordText(w) && Ends(rest)
    ensures t.q == Skip(s, i) < |s| && s[t.q] == w[0] && t.eq <= |s| && Here(s, t.eq, rest) && SliceText(s, t) == w
    ensures GetToken(s, i) == (Word(t), Skip(s, t.eq))
  {
    SkipBlank(s, i, w + rest);
    HereAfter(s, i + 1, w, rest);
    WordEnds(s, i + 1, w, rest);
    assert s[i + 1] == s[i + 1..][0] == w[0];
    t := Slice(i + 1, i + 1 + |w|);
  }

  // ---------------------------------------------------------------- leading whitespace does not matter

  lemma {:induction false} SkipTwice(s: string, i: nat)
    requires i <= |s|
    ensures Skip(s, Skip(s, i)) == Skip(s, i)
  {}

  lemma {:induction false} TokenSkips(s: string, i: nat)
    requires i <= |s|
    ensures GetToken(s, Skip(s, i)) == GetToken(s, i)
  {
    SkipTwice(s, i);
  }

  lemma {:induction false} RedirsSkip(s: string, i: nat, rs: seq<Redirect<Slice>>)
    requires i <= |s|
    ensures ParseRedirs(s, Skip(s, i), rs) == ParseRedirs(s, i, rs)
  {
    SkipTwice(s, i);
  }

  lemma {:induction false} ArgsSkip(s: string, i: nat, args: seq<Slice>, rs: seq<Redirect<Slice>>)
    requires i <= |s|
    ensures ParseArgs(s, Skip(s, i), args, rs) == ParseArgs(s, i, args, rs)
  {
    SkipTwice(s, i);
  }

  lemma {:induction false} LineSkips(s: string, i: nat)
    requires i <= |s|
    ensures ParseExec(s, Skip(s, i)) == ParseExec(s, i) && ParsePipe(s, Skip(s, i)) == ParsePipe(s, i)
    ensures ParseLine(s, Skip(s, i)) == ParseLine(s, i)
  {
    SkipTwice(s, i);
    assert ParseExec(s, Skip(s, i)) == ParseExec(s, i);
    assert ParsePipe(s, Skip(s, i)) == ParsePipe(s, i);
  }

  // ---------------------------------------------------------------- redirections

  /** What follows redirections: neither another one nor the rest of a word. */
  predicate AfterRedirs(text: string) { text == "" || (text[0] in SYMBOLS && text[0] !in "<>" && !White(text[0])) }

  lemma {:induction false} NoRedir(s: string, i: nat, rest: string, acc: seq<Redirect<Slice>>)
    requires Here(s, i, rest) && (rest == "" || rest[0] !in "<>") && Dark(rest)
    ensures ParseRedirs(s, i, acc) == Ok(acc, i)
  {
    SkipNone(s, i, rest);
    if i < |s| { assert s[i] == s[i..][0]; }
  }

  /** The arrow of a printed redirection, and the cursor after it. */
  lemma {:induction false} ArrowHere(s: string, i: nat, write: bool, tail: string) returns (j: nat)
    requires Here(s, i, " " + ([Arrow(write)] + (" " + tail)))
    ensures j <= |s| && Here(s, j, " " + tail) && Skip(s, i) < |s| && s[Skip(s, i)] == Arrow(write)
    ensures GetToken(s, Skip(s, i)) == (Sym(Arrow(write)), Skip(s, j))
  {
    var c := Arrow(write);
    SkipBlank(s, i, [c] + (" " + tail));
    HereAfter(s, i + 1, [c], " " + tail);
    assert s[i + 1] == s[i + 1..][0] == c && s[i + 2] == s[i + 2..][0] == ' ';
    SkipNone(s, i + 1, [c] + (" " + tail));
    j := i + 2;
  }

  lemma {:induction false} RedirStep(s: string, i: nat, tok: Token, j: nat, f: Slice, k: nat, acc: seq<Redirect<Slice>>)
    requires i <= |s| && Peek(s, i, "<>") && GetToken(s, Skip(s, i)) == (tok, j) && j <= |s|
    requires GetToken(s, j) == (Word(f), k)
    ensures k <= |s| && ParseRedirs(s, i, acc) == ParseRedirs(s, k, acc + [Redirect(f, tok != Sym('<'))])
  {}

  /** One printed redirection is read. */
  lemma {:induction false} OneRedir(s: string, i: nat, r: Redirect<string>, rest: string, acc: seq<Redirect<Slice>>)
    returns (f: Redirect<Slice>, k: nat)
    requires Here(s, i, " " + ([Arrow(r.write)] + (" " + (r.file + rest)))) && IsWordText(r.file) && Ends(rest)
    ensures k <= |s| && Here(s, k, rest) && RedirText(s, f) == r
    ensures ParseRedirs(s, i, acc) == ParseRedirs(s, k, acc + [f])
  {
    var j := ArrowHere(s, i, r.write, r.file + rest);
    var w := WordHere(s, j, r.file, rest);
    TokenSkips(s, j);
    k := w.eq;
    f := Redirect(w, r.write);
    RedirStep(s, i, Sym(Arrow(r.write)), Skip(s, j), w, Skip(s, k), acc);
    RedirsSkip(s, k, acc + [f]);
  }

  lemma {:induction false} RedirsEnd(rs: seq<Redirect<string>>, post: string)
    requires AfterRedirs(post)
    ensures Ends(RedirsThen(rs, post))
  {}

  lemma {:induction false} FirstRedir(s: string, i: nat, rs: seq<Redirect<string>>, acc: seq<Redirect<Slice>>,
      post: string) returns (f: Redirect<Slice>, k: nat)
    requires rs != [] && Here(s, i, RedirsThen(rs, post)) && AfterRedirs(post) && IsWordText(rs[0].file)
    ensures k <= |s| && Here(s, k, RedirsThen(rs[1..], post)) && RedirText(s, f) == rs[0]
    ensures ParseRedirs(s, i, acc) == ParseRedirs(s, k, acc + [f])
  {
    RedirsEnd(rs[1..], post);
    f, k := OneRedir(s, i, rs[0], RedirsThen(rs[1..], post), acc);
  }

  /** The parse p added fs to acc and left the cursor at post. */
  predicate ReadsTo<T(==)>(s: string, p: Parsed<seq<T>>, acc: seq<T>, fs: seq<T>, post: string) {
    p.Ok? && p.value == acc + fs && Here(s, p.next, post)
  }

  lemma {:induction false} RedirsParse(s: string, i: nat, rs: seq<Redirect<string>>, acc: seq<Redirect<Slice>>,
      post: string) returns (fs: seq<Redirect<Slice>>)
    requires Here(s, i, RedirsThen(rs, post)) && AfterRedirs(post) && forall k | 0 <= k < |rs| :: IsWordText(rs[k].file)
    ensures RedirTexts(s, fs) == rs && ReadsTo(s, ParseRedirs(s, i, acc), acc, fs, post)
    decreases |rs|
  {
    if rs == [] {
      NoRedir(s, i, post, acc);
      fs := [];
    } else {
      var f, k := FirstRedir(s, i, rs, acc, post);
      var rest := rs[1..];
      var more := RedirsParse(s, k, rest, acc + [f], post);
      fs := [f] + more;
      ReadsCons(s, ParseRedirs(s, k, acc + [f]), acc, f, more, post);
      RedirTextsCons(s, f, more, rs);
    }
  }

  lemma {:induction false} ReadsCons<T>(s: string, p: Parsed<seq<T>>, acc: seq<T>, f: T, more: seq<T>, post: string)
    requires ReadsTo(s, p, acc + [f], more, post)
    ensures ReadsTo(s, p, acc, [f] + more, post)
  {
    assert acc + [f] + more == acc + ([f] + more);
  }

  lemma {:induction false} RedirTextsCons(s: string, f: Redirect<Slice>, more: seq<Redirect<Slice>>,
      rs: seq<Redirect<string>>)
    requires rs != [] && RedirText(s, f) == rs[0] && RedirTexts(s, more) == rs[1..]
    ensures RedirTexts(s, [f] + more) == rs
  {
    assert forall k | 0 <= k < |more| :: RedirTexts(s, [f] + more)[k + 1] == RedirTexts(s, more)[k];
    assert RedirTexts(s, [f] + more) == [rs[0]] + rs[1..];
  }

  // ---------------------------------------------------------------- arguments

  /** What may follow a whole command. */
  predicate Stop(text: string) { text == "" || text[0] in "|)&;" }

  lemma {:induction false} StopIsSymbol(text: string)
    requires Stop(text)
    ensures AfterRedirs(text) && Ends(text) && Dark(text)
  {}

  lemma {:induction false} ArgsDone(s: string, i: nat, post: string, args: seq<Slice>, rs: seq<Redirect<Slice>>)
    requires Here(s, i, post) && Stop(post)
    ensures ParseArgs(s, i, args, rs) == Ok((args, rs), i)
  {
    StopIsSymbol(post);
    SkipNone(s, i, post);
    if i < |s| { assert s[i] == s[i..][0]; }
  }

  /** The loop of parseexec after one more argument and its redirections. */
  function Continue(s: string, more: Parsed<seq<Redirect<Slice>>>,
      args: seq<Slice>): Parsed<(seq<Slice>, seq<Redirect<Slice>>)>
    requires more.Ok? ==> more.next <= |s|
  {
    if more.Bad? then Bad else ParseArgs(s, more.next, args, more.value)
  }

  lemma {:induction false} ArgStep(s: string, i: nat, w: Slice, j: nat, args: seq<Slice>, acc: seq<Redirect<Slice>>)
    requires i <= |s| && !Peek(s, i, "|)&;") && GetToken(s, Skip(s, i)) == (Word(w), j) && |args| + 1 < MAXARGS
    ensures j <= |s| && ParseArgs(s, i, args, acc) == Continue(s, ParseRedirs(s, j, acc), args + [w])
  {}

  lemma {:induction false} OneArg(s: string, i: nat, w: string, rest: string, args: seq<Slice>,
      acc: seq<Redirect<Slice>>) returns (t: Slice, k: nat)
    requires Here(s, i, " " + (w + rest)) && IsWordText(w) && Ends(rest) && |args| + 1 < MAXARGS
    ensures k <= |s| && Here(s, k, rest) && SliceText(s, t) == w
    ensures ParseArgs(s, i, args, acc) == Continue(s, ParseRedirs(s, k, acc), args + [t])
  {
    t := WordHere(s, i, w, rest);
    assert WordChar(w[0]);
    TokenSkips(s, i);
    k := t.eq;
    ArgStep(s, i, t, Skip(s, k), args, acc);
    RedirsSkip(s, k, acc);
  }

  /** Before another argument there is no redirection. */
  lemma {:induction false} NoRedirYet(s: string, i: nat, w: string, rest: string, args: seq<Slice>)
    requires Here(s, i, " " + (w + rest)) && IsWordText(w) && Ends(rest)
    ensures ParseRedirs(s, i, []).Ok? && Continue(s, ParseRedirs(s, i, []), args) == ParseArgs(s, i, args, [])
  {
    var _ := WordHere(s, i, w, rest);
    assert WordChar(w[0]);
    ArgsSkip(s, i, args, []);
  }

  lemma {:induction false} ArgsEnd(args: seq<string>, rs: seq<Redirect<string>>, post: string)
    requires Stop(post)
    ensures Ends(ArgsThen(args, RedirsThen(rs, post)))
  {
    StopIsSymbol(post);
    RedirsEnd(rs, post);
  }

  /** The parse p added ws to done, found fs, and left the cursor at post. */
  predicate ArgsTo(s: string, p: Parsed<(seq<Slice>, seq<Redirect<Slice>>)>, done: seq<Slice>, ws: seq<Slice>,
      fs: seq<Redirect<Slice>>, post: string) {
    p.Ok? && p.value.0 == done + ws && p.value.1 == fs && Here(s, p.next, post)
  }

  lemma {:induction false} LastArg(s: string, k: nat, rs: seq<Redirect<string>>, args: seq<Slice>, post: string)
    returns (fs: seq<Redirect<Slice>>)
    requires Here(s, k, RedirsThen(rs, post)) && Stop(post) && forall i | 0 <= i < |rs| :: IsWordText(rs[i].file)
    ensures RedirTexts(s, fs) == rs && ParseRedirs(s, k, []).Ok?
    ensures ArgsTo(s, Continue(s, ParseRedirs(s, k, []), args), args, [], fs, post)
  {
    StopIsSymbol(post);
    fs := RedirsParse(s, k, rs, [], post);
    assert [] + fs == fs;
    ArgsDone(s, ParseRedirs(s, k, []).next, post, args, fs);
  }

  lemma {:induction false} ArgsParse(s: string, i: nat, args: seq<string>, done: seq<Slice>,
      rs: seq<Redirect<string>>, post: string)
      returns (ws: seq<Slice>, fs: seq<Redirect<Slice>>)
    requires args != [] && Here(s, i, ArgsThen(args, RedirsThen(rs, post))) && Stop(post) && |done| + |args| < MAXARGS
    requires (forall k | 0 <= k < |args| :: IsWordText(args[k])) && (forall k | 0 <= k < |rs| :: IsWordText(rs[k].file))
    ensures Texts(s, ws) == args && RedirTexts(s, fs) == rs && ArgsTo(s, ParseArgs(s, i, done, []), done, ws, fs, post)
    decreases |args|, 0
  {
    var rest := ArgsThen(args[1..], RedirsThen(rs, post));
    ArgsEnd(args[1..], rs, post);
    var t, k := OneArg(s, i, args[0], rest, done, []);
    if |args| == 1 {
      fs := LastArg(s, k, rs, done + [t], post);
      ws := [t];
      ArgsToCons(s, ParseArgs(s, i, done, []), done, t, [], fs, post);
      TextsCons(s, t, [], args);
    } else {
      var more;
      more, fs := MoreArgs(s, k, args[1..], done + [t], rs, post);
      ws := [t] + more;
      ArgsToCons(s, ParseArgs(s, i, done, []), done, t, more, fs, post);
      TextsCons(s, t, more, args);
    }
  }

  lemma {:induction false} MoreArgs(s: string, k: nat, args: seq<string>, done: seq<Slice>, rs: seq<Redirect<string>>,
      post: string)
      returns (ws: seq<Slice>, fs: seq<Redirect<Slice>>)
    requires args != [] && Here(s, k, ArgsThen(args, RedirsThen(rs, post))) && Stop(post) && |done| + |args| < MAXARGS
    requires (forall i | 0 <= i < |args| :: IsWordText(args[i])) && (forall i | 0 <= i < |rs| :: IsWordText(rs[i].file))
    ensures ParseRedirs(s, k, []).Ok?
    ensures Texts(s, ws) == args && RedirTexts(s, fs) == rs
    ensures ArgsTo(s, Continue(s, ParseRedirs(s, k, []), done), done, ws, fs, post)
    decreases |args|, 1
  {
    ArgsEnd(args[1..], rs, post);
    NoRedirYet(s, k, args[0], ArgsThen(args[1..], RedirsThen(rs, post)), done);
    ws, fs := ArgsParse(s, k, args, done, rs, post);
  }

  lemma {:induction false} ArgsToCons(s: string, p: Parsed<(seq<Slice>, seq<Redirect<Slice>>)>, done: seq<Slice>,
      t: Slice, more: seq<Slice>, fs: seq<Redirect<Slice>>, post: string)
    requires ArgsTo(s, p, done + [t], more, fs, post)
    ensures ArgsTo(s, p, done, [t] + more, fs, post)
  {
    assert done + [t] + more == done + ([t] + more);
  }

  lemma {:induction false} TextsCons(s: string, t: Slice, more: seq<Slice>, args: seq<string>)
    requires args != [] && SliceText(s, t) == args[0] && Texts(s, more) == args[1..]
    ensures Texts(s, [t] + more) == args
  {
    assert forall k | 0 <= k < |more| :: Texts(s, [t] + more)[k + 1] == Texts(s, more)[k];
    assert Texts(s, [t] + more) == [args[0]] + args[1..];
  }

  // ---------------------------------------------------------------- commands

  /** The parse p is a tree that reads as t and leaves the cursor at post. */
  predicate TreeTo(s: string, p: Parsed<Tree<Slice>>, t: Tree<string>, post: string) {
    p.Ok? && Text(s, p.value) == t && Here(s, p.next, post)
  }

  /** Arguments with redirections. */
  lemma {:induction false} SimpleParses(s: string, i: nat, args: seq<string>, rs: seq<Redirect<string>>, post: string)
    requires Here(s, i, ArgsThen(args, RedirsThen(rs, post))) && Stop(post) && |args| < MAXARGS
    requires (forall k | 0 <= k < |args| :: IsWordText(args[k])) && (forall k | 0 <= k < |rs| :: IsWordText(rs[k].file))
    ensures TreeTo(s, ParseExec(s, i), Wrap(Exec(args), rs), post)
  {
    NotBlock(s, i, args, rs, post);
    RedirsSkip(s, i, []);
    var ws, fs;
    if args == [] {
      fs := LastArg(s, i, rs, [], post);
      ws := [];
    } else {
      ws, fs := MoreArgs(s, i, args, [], rs, post);
    }
    assert [] + ws == ws;
    assert Texts(s, ws) == args;
    ExecIs(s, i, ws, fs, post);
    WrapText(s, Exec(ws), fs);
  }

  lemma {:induction false} NotBlock(s: string, i: nat, args: seq<string>, rs: seq<Redirect<string>>, post: string)
    requires Here(s, i, ArgsThen(args, RedirsThen(rs, post))) && Stop(post)
    requires (forall k | 0 <= k < |args| :: IsWordText(args[k])) && (forall k | 0 <= k < |rs| :: IsWordText(rs[k].file))
    ensures !Peek(s, i, "(")
  {
    if args != [] { ArgIsNoParen(s, i, args, rs, post); } else { RedirIsNoParen(s, i, rs, post); }
  }

  lemma {:induction false} ArgIsNoParen(s: string, i: nat, args: seq<string>, rs: seq<Redirect<string>>, post: string)
    requires args != [] && Here(s, i, ArgsThen(args, RedirsThen(rs, post))) && Stop(post) && IsWordText(args[0])
    ensures !Peek(s, i, "(")
  {
    ArgsEnd(args[1..], rs, post);
    WordIsNoParen(s, i, args[0], ArgsThen(args[1..], RedirsThen(rs, post)));
  }

  lemma {:induction false} RedirIsNoParen(s: string, i: nat, rs: seq<Redirect<string>>, post: string)
    requires Here(s, i, RedirsThen(rs, post)) && Stop(post)
    ensures !Peek(s, i, "(")
  {
    if rs == [] {
      StopIsSymbol(post);
      NoPeek(s, i, post, "(");
    } else {
      ArrowIsNoParen(s, i, rs[0].write, rs[0].file + RedirsThen(rs[1..], post));
    }
  }

  lemma {:induction false} WordIsNoParen(s: string, i: nat, w: string, rest: string)
    requires Here(s, i, " " + (w + rest)) && IsWordText(w) && Ends(rest)
    ensures !Peek(s, i, "(")
  {
    var _ := WordHere(s, i, w, rest);
    assert WordChar(w[0]);
  }

  lemma {:induction false} ArrowIsNoParen(s: string, i: nat, write: bool, tail: string)
    requires Here(s, i, " " + ([Arrow(write)] + (" " + tail)))
    ensures !Peek(s, i, "(")
  {
    var _ := ArrowHere(s, i, write, tail);
  }

  lemma {:induction false} ExecIs(s: string, i: nat, ws: seq<Slice>, fs: seq<Redirect<Slice>>, post: string)
    requires i <= |s| && !Peek(s, i, "(") && ParseRedirs(s, Skip(s, i), []).Ok?
    requires ArgsTo(s, Continue(s, ParseRedirs(s, Skip(s, i), []), []), [], ws, fs, post)
    ensures ParseExec(s, i).Ok? && ParseExec(s, i).value == Wrap(Exec(ws), fs) && Here(s, ParseExec(s, i).next, post)
  {
    assert [] + ws == ws;
  }

  /** parseblock, when its tokens are known: j is past "(" and m past ")". */
  lemma {:induction false} BlockStep(s: string, i: nat, j: nat, m: nat)
    requires i <= |s| && j <= |s| && m <= |s| && Peek(s, i, "(") && GetToken(s, Skip(s, i)).1 == Skip(s, j)
    requires ParseLine(s, j).Ok?
    requires Peek(s, ParseLine(s, j).next, ")") && GetToken(s, Skip(s, ParseLine(s, j).next)).1 == Skip(s, m)
    requires ParseRedirs(s, m, []).Ok?
    ensures ParseExec(s, i) == Ok(Wrap(ParseLine(s, j).value, ParseRedirs(s, m, []).value), ParseRedirs(s, m, []).next)
  {
    LineSkips(s, j);
    RedirsSkip(s, m, []);
    assert ParseExec(s, i) == ParseBlock(s, i);
  }

  lemma {:induction false} BlockTree(s: string, i: nat, j: nat, m: nat, t: Tree<string>, rs: seq<Redirect<string>>,
      fs: seq<Redirect<Slice>>, tail: string, post: string)
    requires i <= |s| && j <= |s| && Opens(s, i, '(', j) && TreeTo(s, ParseLine(s, j), t, tail)
    requires Opens(s, ParseLine(s, j).next, ')', m)
    requires RedirTexts(s, fs) == rs && ReadsTo(s, ParseRedirs(s, m, []), [], fs, post)
    ensures TreeTo(s, ParseExec(s, i), Wrap(t, rs), post)
  {
    assert [] + fs == fs;
    BlockStep(s, i, j, m);
    WrapText(s, ParseLine(s, j).value, fs);
  }

  /** A command in parentheses, with redirections after it. */
  lemma {:induction false} BlockParses(s: string, i: nat, t: Tree<string>, rs: seq<Redirect<string>>, post: string)
    requires !t.Exec? && !t.Redir? && Here(s, i, Parens(t, RedirsThen(rs, post))) && Fine(t) && Stop(post)
    requires forall k | 0 <= k < |rs| :: IsWordText(rs[k].file)
    ensures TreeTo(s, ParseExec(s, i), Wrap(t, rs), post)
    decreases t, Order(t, 4)
  {
    var tail := RedirsThen(rs, post);
    var j := SymbolHere(s, i, '(', PrintThen(t, ")" + tail));
    LineParses(s, j, t, ")" + tail);
    BlockCloses(s, i, j, t, rs, post);
  }

  lemma {:induction false} BlockCloses(s: string, i: nat, j: nat, t: Tree<string>, rs: seq<Redirect<string>>,
      post: string)
    requires i <= |s| && j <= |s| && Opens(s, i, '(', j) && TreeTo(s, ParseLine(s, j), t, ")" + RedirsThen(rs, post))
    requires Stop(post) && forall k | 0 <= k < |rs| :: IsWordText(rs[k].file)
    ensures TreeTo(s, ParseExec(s, i), Wrap(t, rs), post)
  {
    var tail := RedirsThen(rs, post);
    var m := SymbolHere(s, ParseLine(s, j).next, ')', tail);
    StopIsSymbol(post);
    var fs := RedirsParse(s, m, rs, [], post);
    BlockTree(s, i, j, m, t, rs, fs, ")" + tail, post);
  }

  lemma {:induction false} AtomParses(s: string, i: nat, t: Tree<string>, post: string)
    requires Here(s, i, AtomThen(t, post)) && Fine(t) && Stop(post)
    ensures TreeTo(s, ParseExec(s, i), t, post)
    decreases t, Order(t, 3)
  {
    FineParts(t);
    CoreAndRedirs(t);
    if Core(t).Exec? {
      SimpleParses(s, i, Core(t).argv, Redirs(t), post);
    } else {
      BlockParses(s, i, Core(t), Redirs(t), post);
    }
  }

  lemma {:induction false} NoPeek(s: string, i: nat, post: string, toks: string)
    requires Here(s, i, post) && Dark(post) && (post == "" || post[0] !in toks)
    ensures !Peek(s, i, toks) && Skip(s, i) == i
  {
    SkipNone(s, i, post);
    if i < |s| { assert s[i] == s[i..][0]; }
  }

  /** Symbol c stands at k, and j is past it. */
  predicate Opens(s: string, k: nat, c: char, j: nat) {
    k < |s| && j <= |s| && Skip(s, k) == k && s[k] == c && GetToken(s, k).1 == Skip(s, j)
  }

  lemma {:induction false} PipeOfOne(s: string, i: nat, t: Tree<string>, post: string)
    requires i <= |s| && TreeTo(s, ParseExec(s, i), t, post) && Dark(post) && (post == "" || post[0] != '|')
    ensures TreeTo(s, ParsePipe(s, i), t, post)
  {
    NoPeek(s, ParseExec(s, i).next, post, "|");
  }

  /** parsepipe, when the token after its first command is "|" and j is past it. */
  lemma {:induction false} PipeStep(s: string, i: nat, j: nat)
    requires i <= |s| && j <= |s| && ParseExec(s, i).Ok? && Opens(s, ParseExec(s, i).next, '|', j)
    requires ParsePipe(s, j).Ok?
    ensures ParsePipe(s, i) == Ok(Pipe(ParseExec(s, i).value, ParsePipe(s, j).value), ParsePipe(s, j).next)
  {
    LineSkips(s, j);
  }

  /** What may follow a pipeline. */
  predicate PipeStop(text: string) { text == "" || text[0] in ")&;" }

  lemma {:induction false} PipeParses(s: string, i: nat, t: Tree<string>, post: string)
    requires Here(s, i, PipeThen(t, post)) && Fine(t) && PipeStop(post)
    ensures TreeTo(s, ParsePipe(s, i), t, post)
    decreases t, Order(t, 2)
  {
    StopIsSymbol(post);
    if t.Pipe? {
      var rest := PipeThen(t.right, post);
      AtomParses(s, i, t.left, "|" + rest);
      var j := SymbolHere(s, ParseExec(s, i).next, '|', rest);
      PipeParses(s, j, t.right, post);
      PipeStep(s, i, j);
    } else {
      AtomParses(s, i, t, post);
      PipeOfOne(s, i, t, post);
    }
  }

  /** The pipeline at i and the "&"s after it, as far as m, read as v; what the loop over "&" makes of the rest is what
      it makes of it from there. */
  predicate BacksTo(s: string, i: nat, m: nat, v: Tree<Slice>) {
    && i <= |s| && m <= |s| && ParsePipe(s, i).Ok?
    && Backs(s, ParsePipe(s, i).next, ParsePipe(s, i).value) == Backs(s, m, v)
  }

  lemma {:induction false} BackStep(s: string, i: nat, m: nat, v: Tree<Slice>, j: nat)
    requires BacksTo(s, i, m, v) && Opens(s, m, '&', j)
    ensures BacksTo(s, i, j, Back(v))
  {
    assert Peek(s, m, "&");
    SkipTwice(s, j);
    assert Backs(s, Skip(s, j), Back(v)) == Backs(s, j, Back(v));
  }

  lemma {:induction false} BackParses(s: string, i: nat, t: Tree<string>, post: string) returns (m: nat, v: Tree<Slice>)
    requires Here(s, i, BackThen(t, post)) && Fine(t) && PipeStop(post)
    ensures BacksTo(s, i, m, v) && Text(s, v) == t && Here(s, m, post)
    decreases t, Order(t, 1)
  {
    if t.Back? {
      var k, w := BackParses(s, i, t.sub, "&" + post);
      m := SymbolHere(s, k, '&', post);
      BackStep(s, i, k, w, m);
      v := Back(w);
    } else {
      PipeParses(s, i, t, post);
      m, v := ParsePipe(s, i).next, ParsePipe(s, i).value;
    }
  }

  /** What a line in parentheses or the end of the text is followed by. */
  predicate Closes(text: string) { text == "" || text[0] == ')' }

  lemma {:induction false} LineEnds(s: string, i: nat, m: nat, v: Tree<Slice>, post: string)
    requires BacksTo(s, i, m, v) && Here(s, m, post) && Closes(post)
    ensures ParseLine(s, i) == Ok(v, m)
  {
    NoPeek(s, m, post, "&");
    NoPeek(s, m, post, ";");
  }

  /** parseline, when the token after its first command is ";" and j is past it. */
  lemma {:induction false} ListStep(s: string, i: nat, m: nat, v: Tree<Slice>, j: nat)
    requires BacksTo(s, i, m, v) && Opens(s, m, ';', j) && ParseLine(s, j).Ok?
    ensures ParseLine(s, i) == Ok(List(v, ParseLine(s, j).value), ParseLine(s, j).next)
  {
    LineSkips(s, j);
    assert Backs(s, m, v) == (v, m);
    assert Peek(s, m, ";");
  }

  lemma {:induction false} LineParses(s: string, i: nat, t: Tree<string>, post: string)
    requires Here(s, i, PrintThen(t, post)) && Fine(t) && Closes(post)
    ensures TreeTo(s, ParseLine(s, i), t, post)
    decreases t, Order(t, 0)
  {
    if t.List? {
      var rest := PrintThen(t.right, post);
      var m, v := BackParses(s, i, t.left, ";" + rest);
      var j := SymbolHere(s, m, ';', rest);
      LineParses(s, j, t.right, post);
      ListStep(s, i, m, v, j);
    } else {
      var m, v := BackParses(s, i, t, post);
      LineEnds(s, i, m, v, post);
    }
  }

  /** Every tree with words for words and fewer than MAXARGS arguments is parsed back from its text, written with no
      more parentheses than the grammar needs. */
  lemma {:induction false} RoundTrip(t: Tree<string>)
    requires Fine(t)
    ensures ParseCmd(Print(t)).Some? && Text(Print(t), ParseCmd(Print(t)).value) == t
  {
    var s := Print(t);
    assert Here(s, 0, PrintThen(t, ""));
    LineParses(s, 0, t, "");
  }

  // ---------------------------------------------------------------- where parentheses are not needed

  /** Pipelines of simple commands, "&" after pipelines, ";" between those: the trees of lines without parentheses. */
  predicate Plain(t: Tree<string>, level: nat) {
    match t
    case List(l, r) => level == 0 && Plain(l, 1) && Plain(r, 0)
    case Back(sub) => level <= 1 && Plain(sub, 1)
    case Pipe(l, r) => level <= 2 && Plain(l, 3) && Plain(r, 2)
    case _ => Core(t).Exec?
  }

  predicate Bare(text: string) { forall i | 0 <= i < |text| :: text[i] != '(' }

  lemma {:induction false} BareArgs(args: seq<string>, post: string)
    requires (forall i | 0 <= i < |args| :: IsWordText(args[i])) && Bare(post)
    ensures Bare(ArgsThen(args, post))
  {
    if args != [] { BareArgs(args[1..], post); }
  }

  lemma {:induction false} BareRedirs(rs: seq<Redirect<string>>, post: string)
    requires (forall i | 0 <= i < |rs| :: IsWordText(rs[i].file)) && Bare(post)
    ensures Bare(RedirsThen(rs, post))
  {
    if rs != [] { BareRedirs(rs[1..], post); }
  }

  lemma {:induction false} BareAtom(t: Tree<string>, post: string)
    requires Fine(t) && Core(t).Exec? && Bare(post)
    ensures Bare(AtomThen(t, post))
  {
    FineParts(t);
    BareRedirs(Redirs(t), post);
    BareArgs(Core(t).argv, RedirsThen(Redirs(t), post));
  }

  lemma {:induction false} BarePipe(t: Tree<string>, post: string)
    requires Fine(t) && Plain(t, 2) && Bare(post)
    ensures Bare(PipeThen(t, post))
  {
    if t.Pipe? {
      BarePipe(t.right, post);
      BareAtom(t.left, "|" + PipeThen(t.right, post));
    } else {
      BareAtom(t, post);
    }
  }

  lemma {:induction false} BareBack(t: Tree<string>, post: string)
    requires Fine(t) && Plain(t, 1) && Bare(post)
    ensures Bare(BackThen(t, post))
  {
    if t.Back? { BareBack(t.sub, "&" + post); } else { BarePipe(t, post); }
  }

  /** Such a tree is printed without parentheses: "|" binds before "&" and that before ";", both "|" and ";" to the
      right. */
  lemma {:induction false} BareLine(t: Tree<string>, post: string)
    requires Fine(t) && Plain(t, 0) && Bare(post)
    ensures Bare(PrintThen(t, post))
  {
    if t.List? {
      BareLine(t.right, post);
      BareBack(t.left, ";" + PrintThen(t.right, post));
    } else {
      BareBack(t, post);
    }
  }
}
