/** nulterminate turns the slices of a parsed line into C strings. */
module ShellStrings {
  import opened Common
  import opened ShellGrammar

  const NUL: char := '\0'

  // ---------------------------------------------------------------- the words of a parse are whole words

  predicate AllWords(s: string, ws: seq<Slice>) { forall i | 0 <= i < |ws| :: IsWord(s, ws[i]) }

  predicate AllFiles(s: string, rs: seq<Redirect<Slice>>) { forall i | 0 <= i < |rs| :: IsWord(s, rs[i].file) }

  predicate WordsOk(s: string, t: Tree<Slice>) {
    match t
    case Exec(argv) => AllWords(s, argv)
    case Redir(sub, file, _) => WordsOk(s, sub) && IsWord(s, file)
    case Pipe(l, r) => WordsOk(s, l) && WordsOk(s, r)
    case List(l, r) => WordsOk(s, l) && WordsOk(s, r)
    case Back(sub) => WordsOk(s, sub)
  }

  lemma {:induction false} WrapWords(s: string, t: Tree<Slice>, rs: seq<Redirect<Slice>>)
    requires WordsOk(s, t) && AllFiles(s, rs)
    ensures WordsOk(s, Wrap(t, rs))
    decreases |rs|
  {
    if rs != [] { WrapWords(s, Redir(t, rs[0].file, rs[0].write), rs[1..]); }
  }

  lemma {:induction false} RedirsWords(s: string, i: nat, rs: seq<Redirect<Slice>>)
    requires i <= |s| && AllFiles(s, rs) && ParseRedirs(s, i, rs).Ok?
    ensures AllFiles(s, ParseRedirs(s, i, rs).value)
    decreases |s| - i
  {
    if Peek(s, i, "<>") {
      var (tok, j) := GetToken(s, Skip(s, i));
      var (file, k) := GetToken(s, j);
      RedirsWords(s, k, rs + [Redirect(file.w, tok != Sym('<'))]);
    }
  }

  lemma {:induction false} ArgsWords(s: string, i: nat, args: seq<Slice>, rs: seq<Redirect<Slice>>)
    requires i <= |s| && AllWords(s, args) && AllFiles(s, rs) && ParseArgs(s, i, args, rs).Ok?
    ensures AllWords(s, ParseArgs(s, i, args, rs).value.0) && AllFiles(s, ParseArgs(s, i, args, rs).value.1)
    decreases |s| - i
  {
    var (tok, j) := GetToken(s, Skip(s, i));
    if !Peek(s, i, "|)&;") && !tok.End? {
      RedirsWords(s, j, rs);
      ArgsWords(s, ParseRedirs(s, j, rs).next, args + [tok.w], ParseRedirs(s, j, rs).value);
    }
  }

  lemma {:induction false} ExecWords(s: string, i: nat)
    requires i <= |s| && ParseExec(s, i).Ok?
    ensures WordsOk(s, ParseExec(s, i).value)
    decreases |s| - i, 1
  {
    if Peek(s, i, "(") {
      var j := GetToken(s, Skip(s, i)).1;
      LineWords(s, j);
      var m := GetToken(s, Skip(s, ParseLine(s, j).next)).1;
      RedirsWords(s, m, []);
      WrapWords(s, ParseLine(s, j).value, ParseRedirs(s, m, []).value);
    } else {
      var first := ParseRedirs(s, Skip(s, i), []);
      RedirsWords(s, Skip(s, i), []);
      ArgsWords(s, first.next, [], first.value);
      var rest := ParseArgs(s, first.next, [], first.value);
      WrapWords(s, Exec(rest.value.0), rest.value.1);
    }
  }

  lemma {:induction false} PipeWords(s: string, i: nat)
    requires i <= |s| && ParsePipe(s, i).Ok?
    ensures WordsOk(s, ParsePipe(s, i).value)
    decreases |s| - i, 2
  {
    ExecWords(s, i);
    var k := ParseExec(s, i).next;
    if Peek(s, k, "|") { PipeWords(s, GetToken(s, Skip(s, k)).1); }
  }

  lemma {:induction false} BacksWords(s: string, i: nat, t: Tree<Slice>)
    requires i <= |s| && WordsOk(s, t)
    ensures WordsOk(s, Backs(s, i, t).0)
    decreases |s| - i
  {
    if Peek(s, i, "&") { BacksWords(s, GetToken(s, Skip(s, i)).1, Back(t)); }
  }

  lemma {:induction false} LineWords(s: string, i: nat)
    requires i <= |s| && ParseLine(s, i).Ok?
    ensures WordsOk(s, ParseLine(s, i).value)
    decreases |s| - i, 3
  {
    PipeWords(s, i);
    var first := ParsePipe(s, i);
    BacksWords(s, first.next, first.value);
    var j := Backs(s, first.next, first.value).1;
    if Peek(s, j, ";") { LineWords(s, GetToken(s, Skip(s, j)).1); }
  }

  // ---------------------------------------------------------------- nulterminate

  /** w is one of the words of the tree. */
  predicate HasWord(t: Tree<Slice>, w: Slice) {
    match t
    case Exec(argv) => w in argv
    case Redir(sub, file, _) => HasWord(sub, w) || w == file
    case Pipe(l, r) => HasWord(l, w) || HasWord(r, w)
    case List(l, r) => HasWord(l, w) || HasWord(r, w)
    case Back(sub) => HasWord(sub, w)
  }

  /** Some word of the tree ends at p. */
  predicate EndsAt(t: Tree<Slice>, p: nat) {
    match t
    case Exec(argv) => exists i | 0 <= i < |argv| :: argv[i].eq == p
    case Redir(sub, file, _) => EndsAt(sub, p) || file.eq == p
    case Pipe(l, r) => EndsAt(l, p) || EndsAt(r, p)
    case List(l, r) => EndsAt(l, p) || EndsAt(r, p)
    case Back(sub) => EndsAt(sub, p)
  }

  /** Exactly the character after each word becomes NUL. */
  method NulTerminate(ghost s: string, t: Tree<Slice>, buf: array<char>)
    requires WordsOk(s, t) && buf.Length == |s| + 1
    modifies buf
    ensures forall p | 0 <= p < buf.Length :: buf[p] == if EndsAt(t, p) then NUL else old(buf[p])
  {
    match t
    case Exec(argv) =>
      var i := 0;
      while i < |argv|
        invariant i <= |argv|
        invariant forall p | 0 <= p < buf.Length ::
          buf[p] == if exists k | 0 <= k < i :: argv[k].eq == p then NUL else old(buf[p])
      {
        buf[argv[i].eq] := NUL;
        i := i + 1;
      }
    case Redir(sub, file, _) =>
      NulTerminate(s, sub, buf);
      buf[file.eq] := NUL;
    case Pipe(l, r) =>
      NulTerminate(s, l, buf);
      NulTerminate(s, r, buf);
    case List(l, r) =>
      NulTerminate(s, l, buf);
      NulTerminate(s, r, buf);
    case Back(sub) =>
      NulTerminate(s, sub, buf);
  }

  /** The C string that starts at q. */
  function CStringAt(b: seq<char>, q: nat): string
    requires q <= |b|
    decreases |b| - q
  {
    if q == |b| || b[q] == NUL then "" else [b[q]] + CStringAt(b, q + 1)
  }

  lemma {:induction false} CStringIs(b: seq<char>, q: nat, e: nat)
    requires q <= e < |b| && b[e] == NUL && forall k | q <= k < e :: b[k] != NUL
    ensures CStringAt(b, q) == b[q..e]
    decreases e - q
  {
    if q < e {
      CStringIs(b, q + 1, e);
      assert b[q..e] == [b[q]] + b[q + 1..e];
    }
  }

  /** Words end where no word has a character. */
  lemma {:induction false} EndIsOutside(s: string, t: Tree<Slice>, p: nat)
    requires WordsOk(s, t) && EndsAt(t, p)
    ensures p <= |s| && (p < |s| ==> !WordChar(s[p]))
  {
    match t
    case Exec(argv) =>
    case Redir(sub, file, _) => if EndsAt(sub, p) { EndIsOutside(s, sub, p); }
    case Pipe(l, r) => if EndsAt(l, p) { EndIsOutside(s, l, p); } else { EndIsOutside(s, r, p); }
    case List(l, r) => if EndsAt(l, p) { EndIsOutside(s, l, p); } else { EndIsOutside(s, r, p); }
    case Back(sub) => EndIsOutside(s, sub, p);
  }

  lemma {:induction false} WordIsListed(s: string, t: Tree<Slice>, w: Slice)
    requires WordsOk(s, t) && HasWord(t, w)
    ensures IsWord(s, w) && EndsAt(t, w.eq)
  {
    match t
    case Exec(argv) =>
    case Redir(sub, file, _) => if HasWord(sub, w) { WordIsListed(s, sub, w); }
    case Pipe(l, r) => if HasWord(l, w) { WordIsListed(s, l, w); } else { WordIsListed(s, r, w); }
    case List(l, r) => if HasWord(l, w) { WordIsListed(s, l, w); } else { WordIsListed(s, r, w); }
    case Back(sub) => WordIsListed(s, sub, w);
  }

  lemma {:induction false} WordKept(s: string, t: Tree<Slice>, b: seq<char>, w: Slice)
    requires NUL !in s && WordsOk(s, t) && HasWord(t, w)
    requires |b| == |s| + 1 && forall p | 0 <= p < |b| :: b[p] == if EndsAt(t, p) || p == |s| then NUL else s[p]
    ensures w.q < w.eq <= |s| && CStringAt(b, w.q) == s[w.q..w.eq]
  {
    WordIsListed(s, t, w);
    forall k | w.q <= k < w.eq ensures b[k] == s[k] && b[k] != NUL {
      if EndsAt(t, k) { EndIsOutside(s, t, k); }
    }
    CStringIs(b, w.q, w.eq);
    assert b[w.q..w.eq] == s[w.q..w.eq];
  }

  /** After nulterminate every word of a parsed line is the C string at its place: no NUL falls into another word. */
  lemma {:induction false} WordsAreStrings(s: string, t: Tree<Slice>, b: seq<char>, w: Slice)
    requires NUL !in s && ParseCmd(s) == Some(t) && HasWord(t, w)
    requires |b| == |s| + 1 && forall p | 0 <= p < |b| :: b[p] == if EndsAt(t, p) || p == |s| then NUL else s[p]
    ensures w.q < w.eq <= |s| && CStringAt(b, w.q) == s[w.q..w.eq]
  {
    LineWords(s, 0);
    WordKept(s, t, b, w);
  }
}
