// The parser of user/sh.c as it runs: a position moved along the line, loops over tokens,
// and nulterminate writing into the buffer.

module ShellParser {
  import opened Shell
  import opened ShellWords

  class Parser {
    const s: string

    /** *ps. */
    var ps: nat

    constructor (s: string)
      ensures this.s == s && ps == 0
    {
      this.s, ps := s, 0;
    }

    method SkipSpace()
      requires ps <= |s|
      modifies `ps
      ensures ps == SkipWhite(s, old(ps))
    {
      while ps < |s| && IsWhite(s[ps])
        invariant ps <= |s| && SkipWhite(s, ps) == SkipWhite(s, old(ps))
      {
        ps := ps + 1;
      }
    }

    method Peek(toks: set<char>) returns (b: bool)
      requires ps <= |s|
      modifies `ps
      ensures ps == SkipWhite(s, old(ps)) && b == At(s, ps, toks)
    {
      SkipSpace();
      b := ps < |s| && s[ps] in toks;
    }

    method NextToken() returns (kind: Kind, span: Span)
      requires ps <= |s|
      modifies `ps
      ensures GetToken(s, old(ps)) == Token(kind, span, ps)
    {
      SkipSpace();
      var b := ps;
      if ps == |s| {
        kind := End;
      } else if IsSymbol(s[ps]) {
        kind := Symbol(s[ps]);
        ps := ps + 1;
        if s[b] == '>' && ps < |s| && s[ps] == '>' {
          kind := AppendSign;
          ps := ps + 1;
        }
      } else {
        kind := Word;
        while ps < |s| && IsWordChar(s[ps])
          invariant b <= ps <= |s| && WordEnd(s, ps) == WordEnd(s, b)
        {
          ps := ps + 1;
        }
      }
      span := Span(b, ps);
      SkipSpace();
    }

    /** parseredirs; rs are the redirections so far, innermost first. */
    method Redirs(rs0: seq<Redirection>) returns (ok: bool, rs: seq<Redirection>)
      requires ps <= |s|
      modifies `ps
      ensures ok <==> ParseRedirs(s, old(ps), rs0).Ok?
      ensures ok ==> ParseRedirs(s, old(ps), rs0) == Ok(rs, ps)
    {
      rs := rs0;
      var more := Peek({'<', '>'});
      while more
        invariant ps <= |s| && SkipWhite(s, ps) == ps && more == At(s, ps, {'<', '>'})
        invariant ParseRedirs(s, ps, rs) == ParseRedirs(s, old(ps), rs0)
        decreases |s| - ps
      {
        var sign, sp := NextToken();
        var kind, file := NextToken();
        if kind != Word {
          return false, rs;
        }
        rs := rs + [Redirection(file, ModeOf(sign))];
        more := Peek({'<', '>'});
      }
      ok := true;
    }

    /** parseexec's arguments. */
    method Args(rs0: seq<Redirection>) returns (ok: bool, c: Cmd)
      requires ps <= |s|
      modifies `ps
      ensures ok <==> ParseArgs(s, old(ps), [], rs0).Ok?
      ensures ok ==> ParseArgs(s, old(ps), [], rs0) == Ok(c, ps)
    {
      var args, rs := [], rs0;
      c := Exec([]);
      var stop := Peek({'|', ')', '&', ';'});
      while !stop && ps < |s|
        invariant ps <= |s| && SkipWhite(s, ps) == ps && stop == At(s, ps, {'|', ')', '&', ';'})
        invariant ParseArgs(s, ps, args, rs) == ParseArgs(s, old(ps), [], rs0)
        decreases |s| - ps
      {
        var kind, word := NextToken();
        if kind != Word || |args| + 1 >= MAXARGS {
          return false, c;
        }
        args := args + [word];
        ok, rs := Redirs(rs);
        if !ok {
          return false, c;
        }
        stop := Peek({'|', ')', '&', ';'});
      }
      return true, Wrap(Exec(args), rs);
    }

    method Command() returns (ok: bool, c: Cmd)
      requires ps <= |s|
      modifies `ps
      ensures ok <==> ParseExec(s, old(ps)).Ok?
      ensures ok ==> ParseExec(s, old(ps)) == Ok(c, ps)
      decreases |s| - ps, 1
    {
      c := Exec([]);
      var open := Peek({'('});
      if open {
        ok, c := Parens();
        return;
      }
      var rs;
      ok, rs := Redirs([]);
      if ok {
        ok, c := Args(rs);
      }
    }

    method Parens() returns (ok: bool, c: Cmd)
      requires ps < |s| && s[ps] == '('
      modifies `ps
      ensures ok <==> ParseBlock(s, old(ps)).Ok?
      ensures ok ==> ParseBlock(s, old(ps)) == Ok(c, ps)
      decreases |s| - ps, 0
    {
      var kind, span := NextToken();
      ok, c := Line();
      if !ok {
        return;
      }
      ok := Peek({')'});
      if !ok {
        return;
      }
      kind, span := NextToken();
      var rs;
      ok, rs := Redirs([]);
      if ok {
        c := Wrap(c, rs);
      }
    }

    method Pipeline() returns (ok: bool, c: Cmd)
      requires ps <= |s|
      modifies `ps
      ensures ok <==> ParsePipe(s, old(ps)).Ok?
      ensures ok ==> ParsePipe(s, old(ps)) == Ok(c, ps)
      decreases |s| - ps, 2
    {
      ok, c := Command();
      if ok {
        var more := Peek({'|'});
        if more {
          var kind, span := NextToken();
          var right;
          ok, right := Pipeline();
          if ok {
            c := Pipe(c, right);
          }
        }
      }
    }

    method Line() returns (ok: bool, c: Cmd)
      requires ps <= |s|
      modifies `ps
      ensures ok <==> ParseLine(s, old(ps)).Ok?
      ensures ok ==> ParseLine(s, old(ps)) == Ok(c, ps)
      decreases |s| - ps, 3
    {
      ok, c := Pipeline();
      if !ok {
        return;
      }
      c := Backs(c);
      var more := Peek({';'});
      if more {
        var kind, span := NextToken();
        var rest;
        ok, rest := Line();
        if ok {
          c := List(c, rest);
        }
      }
    }

    /** parseline's loop over '&'. */
    method Backs(c0: Cmd) returns (c: Cmd)
      requires ps <= |s|
      modifies `ps
      ensures ParseBacks(s, old(ps), c0) == Ok(c, ps)
    {
      c := c0;
      var more := Peek({'&'});
      while more
        invariant ps <= |s| && SkipWhite(s, ps) == ps && more == At(s, ps, {'&'})
        invariant ParseBacks(s, ps, c) == ParseBacks(s, old(ps), c0)
        decreases |s| - ps
      {
        var kind, span := NextToken();
        c := Back(c);
        more := Peek({'&'});
      }
    }
  }

  // ---------------------------------------------------------------- nulterminate

  /** nulterminate, in place. */
  method NulTerminate(c: Cmd, buf: array<char>)
    requires Fits(c, buf.Length)
    modifies buf
    ensures buf[..] == Terminated(c, old(buf[..]))
    decreases c
  {
    match c
    case Exec(args) =>
      assert forall k :: 0 <= k < |args| ==> args[k] in Words(c);
      var i := 0;
      while i < |args|
        invariant 0 <= i <= |args| && buf[..] == EndArgs(args, i, old(buf[..]))
      {
        buf[args[i].e] := NUL;
        i := i + 1;
      }
    case Redir(d, to) =>
      assert to.file in Words(c);
      NulTerminate(d, buf);
      buf[to.file.e] := NUL;
    case Pipe(l, r) =>
      NulTerminate(l, buf);
      NulTerminate(r, buf);
    case List(l, r) =>
      NulTerminate(l, buf);
      NulTerminate(r, buf);
    case Back(d) =>
      NulTerminate(d, buf);
  }

  /** parsecmd: the tree, with every word of it a string in the buffer; false is the panic. */
  method Parsecmd(s: string, buf: array<char>) returns (ok: bool, c: Cmd)
    requires NoNul(s) && buf[..] == s + [NUL]
    modifies buf
    ensures ok <==> ParseCmd(s).Ok?
    ensures ok ==> ParseCmd(s) == Ok(c, |s|) && forall w :: w in Words(c) ==>
            w.b <= w.e <= |s| && CString(buf[..], w.b) == s[w.b..w.e]
  {
    var p := new Parser(s);
    ok, c := p.Line();
    if ok {
      var end := p.Peek({});
      ok := p.ps == |s|;
      if ok {
        WordsFit(s, c);
        NulTerminate(c, buf);
        forall w | w in Words(c) ensures w.b <= w.e <= |s| && CString(buf[..], w.b) == s[w.b..w.e] {
          TokenOf(s, c, w);
        }
      }
    }
  }
}
