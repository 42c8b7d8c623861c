/** The recursive descent parser with its cursor, and nulterminate on the line buffer. */
module ShellParser {
  import opened Common
  import G = ShellGrammar
  import opened ShellGrammar

  class Parser {
    const s: string
    /** The cursor *ps. */
    var ps: nat

    ghost predicate Valid()
      reads this
    {
      ps <= |s|
    }

    constructor (s: string)
      ensures Valid() && this.s == s && ps == 0
    {
      this.s, ps := s, 0;
    }

    method SkipWhite()
      requires Valid()
      modifies `ps
      ensures Valid() && ps == Skip(s, old(ps))
    {
      while ps < |s| && White(s[ps])
        invariant Valid() && Skip(s, ps) == Skip(s, old(ps))
      {
        ps := ps + 1;
      }
    }

    method Peek(toks: string) returns (r: bool)
      requires Valid()
      modifies `ps
      ensures Valid() && ps == Skip(s, old(ps)) && r == G.Peek(s, old(ps), toks)
    {
      SkipWhite();
      return ps < |s| && s[ps] in toks;
    }

    method GetToken() returns (tok: Token)
      requires Valid()
      modifies `ps
      ensures Valid() && (tok, ps) == G.GetToken(s, old(ps))
    {
      SkipWhite();
      var q := ps;
      if ps == |s| {
        tok := End;
      } else if s[ps] == '>' {
        ps := ps + 1;
        tok := Sym('>');
        if ps < |s| && s[ps] == '>' {
          tok := Append;
          ps := ps + 1;
        }
      } else if s[ps] in SYMBOLS {
        tok := Sym(s[ps]);
        ps := ps + 1;
      } else {
        while ps < |s| && WordChar(s[ps])
          invariant q <= ps && Valid() && WordEnd(s, ps) == WordEnd(s, q)
        {
          ps := ps + 1;
        }
        tok := Word(Slice(q, ps));
      }
      SkipWhite();
    }

    /** None stands for the parser's panics. */
    method ParseRedirs(rs: seq<Redirect<Slice>>) returns (r: Option<seq<Redirect<Slice>>>)
      requires Valid()
      modifies `ps
      ensures Valid()
      ensures r.Some? ==> G.ParseRedirs(s, old(ps), rs) == Ok(r.value, ps)
      ensures r.None? ==> G.ParseRedirs(s, old(ps), rs).Bad?
    {
      var found := rs;
      var more := Peek("<>");
      while more
        invariant Valid() && old(ps) <= ps && ps == Skip(s, ps) && more == G.Peek(s, ps, "<>")
        invariant G.ParseRedirs(s, ps, found) == G.ParseRedirs(s, old(ps), rs)
        decreases |s| - ps, more
      {
        var tok := GetToken();
        var file := GetToken();
        if !file.Word? { return None; }
        found := found + [Redirect(file.w, tok != Sym('<'))];
        more := Peek("<>");
      }
      return Some(found);
    }

    method ParseExec() returns (r: Option<Tree<Slice>>)
      requires Valid()
      modifies `ps
      ensures Valid()
      ensures r.Some? ==> G.ParseExec(s, old(ps)) == Ok(r.value, ps)
      ensures r.None? ==> G.ParseExec(s, old(ps)).Bad?
      decreases |s| - ps, 1
    {
      ghost var start := ps;
      var block := Peek("(");
      if block {
        r := ParseBlock();
        return;
      }
      var rs := ParseRedirs([]);
      if rs.None? { return None; }
      r := ParseArgs(rs.value);
    }

    /** The loop of parseexec. */
    method ParseArgs(first: seq<Redirect<Slice>>) returns (r: Option<Tree<Slice>>)
      requires Valid()
      modifies `ps
      ensures Valid()
      ensures r.Some? ==> G.ParseArgs(s, old(ps), [], first).Ok? && G.ParseArgs(s, old(ps), [], first).next == ps
      ensures r.Some? ==>
        r.value == Wrap(Exec(G.ParseArgs(s, old(ps), [], first).value.0), G.ParseArgs(s, old(ps), [], first).value.1)
      ensures r.None? ==> G.ParseArgs(s, old(ps), [], first).Bad?
    {
      var argv, rs := [], first;
      ghost var goal := G.ParseArgs(s, ps, [], first);
      var stop := Peek("|)&;");
      while !stop
        invariant Valid() && ps == Skip(s, ps) && stop == G.Peek(s, ps, "|)&;") && |argv| < MAXARGS
        invariant G.ParseArgs(s, ps, argv, rs) == goal
        decreases |s| - ps, !stop
      {
        var tok := GetToken();
        if tok.End? { break; }
        if !tok.Word? { return None; }
        argv := argv + [tok.w];
        if |argv| >= MAXARGS { return None; }
        var more := ParseRedirs(rs);
        if more.None? { return None; }
        rs := more.value;
        stop := Peek("|)&;");
      }
      return Some(Wrap(Exec(argv), rs));
    }

    method ParseBlock() returns (r: Option<Tree<Slice>>)
      requires Valid()
      modifies `ps
      ensures Valid()
      ensures r.Some? ==> G.ParseBlock(s, old(ps)) == Ok(r.value, ps)
      ensures r.None? ==> G.ParseBlock(s, old(ps)).Bad?
      decreases |s| - ps, 0
    {
      var open := Peek("(");
      if !open { return None; }
      var _ := GetToken();
      var body := ParseLine();
      if body.None? { return None; }
      var closed := Peek(")");
      if !closed { return None; }
      var _ := GetToken();
      var rs := ParseRedirs([]);
      if rs.None? { return None; }
      return Some(Wrap(body.value, rs.value));
    }

    method ParsePipe() returns (r: Option<Tree<Slice>>)
      requires Valid()
      modifies `ps
      ensures Valid()
      ensures r.Some? ==> G.ParsePipe(s, old(ps)) == Ok(r.value, ps)
      ensures r.None? ==> G.ParsePipe(s, old(ps)).Bad?
      decreases |s| - ps, 2
    {
      var left := ParseExec();
      if left.None? { return None; }
      var bar := Peek("|");
      if !bar { return left; }
      var _ := GetToken();
      var right := ParsePipe();
      if right.None? { return None; }
      return Some(Pipe(left.value, right.value));
    }

    method ParseLine() returns (r: Option<Tree<Slice>>)
      requires Valid()
      modifies `ps
      ensures Valid()
      ensures r.Some? ==> G.ParseLine(s, old(ps)) == Ok(r.value, ps)
      ensures r.None? ==> G.ParseLine(s, old(ps)).Bad?
      decreases |s| - ps, 3
    {
      var first := ParsePipe();
      if first.None? { return None; }
      ghost var k := ps;
      var cmd := first.value;
      var back := Peek("&");
      while back
        invariant Valid() && old(ps) <= k <= ps && ps == Skip(s, ps) && back == G.Peek(s, ps, "&")
        invariant Backs(s, ps, cmd) == Backs(s, k, first.value)
        decreases |s| - ps, back
      {
        var _ := GetToken();
        cmd := Back(cmd);
        back := Peek("&");
      }
      var list := Peek(";");
      if !list { return Some(cmd); }
      var _ := GetToken();
      var rest := ParseLine();
      if rest.None? { return None; }
      return Some(List(cmd, rest.value));
    }

    method ParseCmd() returns (r: Option<Tree<Slice>>)
      requires ps == 0
      modifies `ps
      ensures r == G.ParseCmd(s)
    {
      r := ParseLine();
      if r.None? { return; }
      var _ := Peek("");
      if ps != |s| { return None; }
    }
  }
}
