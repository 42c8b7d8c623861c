/** grep's regular expression matcher against what its patterns denote. */
module Grep {
  /** One element of a pattern: a character, or any number of times a character; '.' stands for every character. */
  datatype Atom = One(c: char) | Star(c: char)

  /** A pattern after its leading '^': its atoms, and whether a final '$' ties it to the end of the text. */
  datatype Regex = Regex(atoms: seq<Atom>, toEnd: bool)

  const NUL: char := '\0'

  /** A C string: the model leaves out its terminator. */
  predicate CString(s: string) { NUL !in s }

  /** s[i] of the C string s. */
  function CharAt(s: string, i: nat): char
    requires i <= |s|
  {
    if i < |s| then s[i] else NUL
  }

  /** How a pattern reads: a star belongs to whatever character comes before it, '$' and '*' included,
      and '$' is special only as the last character. */
  function Parse(re: string): Regex {
    if re == "" then Regex([], false)
    else if |re| > 1 && re[1] == '*' then Cons(Star(re[0]), Parse(re[2..]))
    else if re == "$" then Regex([], true)
    else Cons(One(re[0]), Parse(re[1..]))
  }

  function Cons(a: Atom, rx: Regex): Regex { rx.(atoms := [a] + rx.atoms) }

  predicate Fits(c: char, d: char) { c == '.' || c == d }

  predicate AllFit(c: char, w: string) { forall i | 0 <= i < |w| :: Fits(c, w[i]) }

  /** The words that the atoms denote. */
  predicate Denotes(atoms: seq<Atom>, w: string) {
    if atoms == [] then w == ""
    else match atoms[0]
      case One(c) => w != "" && Fits(c, w[0]) && Denotes(atoms[1..], w[1..])
      case Star(c) => exists k | 0 <= k <= |w| :: AllFit(c, w[..k]) && Denotes(atoms[1..], w[k..])
  }

  /** text[i..j] is a match of the pattern. */
  predicate Occurs(rx: Regex, text: string, i: nat, j: nat) {
    i <= j <= |text| && Denotes(rx.atoms, text[i..j]) && (rx.toEnd ==> j == |text|)
  }

  predicate OccursAt(rx: Regex, text: string, i: nat) { exists j: nat | j <= |text| :: Occurs(rx, text, i, j) }

  /** What match is to answer. */
  predicate Accepts(re: string, text: string) {
    if re != "" && re[0] == '^' then OccursAt(Parse(re[1..]), text, 0)
    else exists i: nat | i <= |text| :: OccursAt(Parse(re), text, i)
  }

  // ---------------------------------------------------------------- one atom at a time

  lemma EmptyOccurs(text: string)
    ensures OccursAt(Regex([], false), text, 0)
    ensures OccursAt(Regex([], true), text, 0) <==> text == ""
  {
    assert Occurs(Regex([], false), text, 0, 0);
    if text == "" { assert Occurs(Regex([], true), text, 0, 0); }
  }

  lemma OneOccurs(c: char, rx: Regex, text: string)
    ensures OccursAt(Cons(One(c), rx), text, 0) <==> text != "" && Fits(c, text[0]) && OccursAt(rx, text[1..], 0)
  {
    var all := Cons(One(c), rx);
    assert all.atoms[1..] == rx.atoms;
    if OccursAt(all, text, 0) {
      var j: nat :| j <= |text| && Occurs(all, text, 0, j);
      assert text[0..j][1..] == text[1..][0..j - 1];
      assert Occurs(rx, text[1..], 0, j - 1);
    }
    if text != "" && Fits(c, text[0]) && OccursAt(rx, text[1..], 0) {
      var j: nat :| j <= |text[1..]| && Occurs(rx, text[1..], 0, j);
      assert text[0..j + 1][1..] == text[1..][0..j];
      assert Occurs(all, text, 0, j + 1);
    }
  }

  /** After k repetitions of c the rest matches. */
  predicate StarAt(c: char, rx: Regex, text: string, k: nat) {
    k <= |text| && AllFit(c, text[..k]) && OccursAt(rx, text[k..], 0)
  }

  lemma StarOccurs(c: char, rx: Regex, text: string)
    ensures OccursAt(Cons(Star(c), rx), text, 0) <==> exists k: nat | k <= |text| :: StarAt(c, rx, text, k)
  {
    var all := Cons(Star(c), rx);
    assert all.atoms[1..] == rx.atoms;
    if OccursAt(all, text, 0) {
      var j: nat :| j <= |text| && Occurs(all, text, 0, j);
      var w := text[0..j];
      var k :| 0 <= k <= |w| && AllFit(c, w[..k]) && Denotes(rx.atoms, w[k..]);
      assert w[..k] == text[..k] && w[k..] == text[k..][0..j - k];
      assert Occurs(rx, text[k..], 0, j - k);
      assert StarAt(c, rx, text, k);
    }
    if exists k: nat | k <= |text| :: StarAt(c, rx, text, k) {
      var k: nat :| k <= |text| && StarAt(c, rx, text, k);
      var j: nat :| j <= |text[k..]| && Occurs(rx, text[k..], 0, j);
      var w := text[0..k + j];
      assert w[..k] == text[..k] && w[k..] == text[k..][0..j];
      assert Occurs(all, text, 0, k + j);
    }
  }

  lemma Shift(rx: Regex, text: string, i: nat)
    requires i <= |text|
    ensures OccursAt(rx, text, i) <==> OccursAt(rx, text[i..], 0)
  {
    forall j: nat | i <= j <= |text| ensures Occurs(rx, text, i, j) <==> Occurs(rx, text[i..], 0, j - i) {
      assert text[i..j] == text[i..][0..j - i];
    }
    if OccursAt(rx, text, i) {
      var j: nat :| j <= |text| && Occurs(rx, text, i, j);
      assert Occurs(rx, text[i..], 0, j - i);
    }
    if OccursAt(rx, text[i..], 0) {
      var j: nat :| j <= |text[i..]| && Occurs(rx, text[i..], 0, j);
      assert Occurs(rx, text, i, i + j);
    }
  }

  // ---------------------------------------------------------------- the matcher

  method Match(re: string, text: string) returns (r: bool)
    requires CString(re) && CString(text)
    ensures r <==> Accepts(re, text)
  {
    if CharAt(re, 0) == '^' {
      r := MatchHere(re[1..], text);
      return;
    }
    var t := 0;
    while true
      invariant t <= |text| && forall i: nat | i < t :: !OccursAt(Parse(re), text, i)
      decreases |text| - t
    {
      Shift(Parse(re), text, t);
      var here := MatchHere(re, text[t..]);
      if here { return true; }
      if CharAt(text, t) == NUL { return false; }
      t := t + 1;
    }
  }

  method MatchHere(re: string, text: string) returns (r: bool)
    requires CString(re) && CString(text)
    ensures r <==> OccursAt(Parse(re), text, 0)
    decreases |re|, 0
  {
    EmptyOccurs(text);
    if CharAt(re, 0) == NUL { return true; }
    if CharAt(re, 1) == '*' {
      r := MatchStar(re[0], re[2..], text);
      return;
    }
    if re[0] == '$' && CharAt(re, 1) == NUL { return CharAt(text, 0) == NUL; }
    OneOccurs(re[0], Parse(re[1..]), text);
    if CharAt(text, 0) != NUL && (re[0] == '.' || re[0] == text[0]) {
      r := MatchHere(re[1..], text[1..]);
      return;
    }
    return false;
  }

  method MatchStar(c: char, re: string, text: string) returns (r: bool)
    requires CString(re) && CString(text)
    ensures r <==> OccursAt(Cons(Star(c), Parse(re)), text, 0)
    decreases |re| + 1, 0
  {
    StarOccurs(c, Parse(re), text);
    var t := 0;
    while true
      invariant t <= |text| && AllFit(c, text[..t])
      invariant forall k: nat | k < t :: !StarAt(c, Parse(re), text, k)
      decreases |text| - t
    {
      var here := MatchHere(re, text[t..]);
      if here {
        assert StarAt(c, Parse(re), text, t);
        return true;
      }
      if !(CharAt(text, t) != NUL && (text[t] == c || c == '.')) {
        forall k: nat | t < k <= |text| ensures !AllFit(c, text[..k]) { assert text[..k][t] == text[t]; }
        return false;
      }
      t := t + 1;
    }
  }
}
