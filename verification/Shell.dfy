// The command parser of user/sh.c as functions on a line and a position in it. A line is a
// C string: no NUL inside, one right behind it.

module Shell {
  const MAXARGS: nat := 10

  datatype Span = Span(b: nat, e: nat)

  datatype Mode = In | Out | Append

  datatype Redirection = Redirection(file: Span, mode: Mode)

  /** struct cmd; file names and arguments are stretches of the line. */
  datatype Cmd =
    | Exec(args: seq<Span>)
    | Redir(cmd: Cmd, to: Redirection)
    | Pipe(left: Cmd, right: Cmd)
    | List(first: Cmd, rest: Cmd)
    | Back(bg: Cmd)

  /** A result and the position after it; Fail is a call of panic. */
  datatype Parsed<T> = Fail | Ok(v: T, i: nat)

  // ---------------------------------------------------------------- characters

  predicate IsWhite(c: char) { c == ' ' || c == '\t' || c == '\r' || c == '\n' || c == '\U{000B}' }

  predicate IsSymbol(c: char) { c == '<' || c == '|' || c == '>' || c == '&' || c == ';' || c == '(' || c == ')' }

  predicate IsWordChar(c: char) { !IsWhite(c) && !IsSymbol(c) }

  function SkipWhite(s: string, i: nat): (j: nat)
    requires i <= |s|
    ensures i <= j <= |s| && (j < |s| ==> !IsWhite(s[j]))
    decreases |s| - i
  {
    if i < |s| && IsWhite(s[i]) then SkipWhite(s, i + 1) else i
  }

  function WordEnd(s: string, i: nat): (j: nat)
    requires i <= |s|
    ensures i <= j <= |s| && (j < |s| ==> !IsWordChar(s[j]))
    ensures forall k :: i <= k < j ==> IsWordChar(s[k])
    decreases |s| - i
  {
    if i < |s| && IsWordChar(s[i]) then WordEnd(s, i + 1) else i
  }

  // ---------------------------------------------------------------- tokens

  datatype Kind = End | Symbol(c: char) | AppendSign | Word

  datatype Token = Token(kind: Kind, span: Span, next: nat)

  /** gettoken. */
  function GetToken(s: string, i: nat): (t: Token)
    requires i <= |s|
    ensures i <= t.span.b <= t.span.e <= t.next <= |s|
    ensures t.kind.End? <==> SkipWhite(s, i) == |s|
    ensures !t.kind.End? ==> i < t.next
    ensures t.kind.Word? ==> IsWord(s, t.span)
  {
    var b := SkipWhite(s, i);
    if b == |s| then Token(End, Span(b, b), b)
    else if s[b] == '>' && b + 1 < |s| && s[b + 1] == '>' then Token(AppendSign, Span(b, b + 2), SkipWhite(s, b + 2))
    else if IsSymbol(s[b]) then Token(Symbol(s[b]), Span(b, b + 1), SkipWhite(s, b + 1))
    else Token(Word, Span(b, WordEnd(s, b)), SkipWhite(s, WordEnd(s, b)))
  }

  /** A whole word: not empty, and what follows it cannot belong to it. */
  ghost predicate IsWord(s: string, w: Span) {
    && w.b < w.e <= |s| && (forall k :: w.b <= k < w.e ==> IsWordChar(s[k]))
    && (w.e < |s| ==> !IsWordChar(s[w.e]))
  }

  /** peek at position i, which is past white space. */
  predicate At(s: string, i: nat, toks: set<char>) { i < |s| && s[i] in toks }

  // ---------------------------------------------------------------- the parser

  function Wrap(c: Cmd, rs: seq<Redirection>): (r: Cmd) {
    if rs == [] then c else Redir(Wrap(c, rs[..|rs| - 1]), rs[|rs| - 1])
  }

  function ModeOf(k: Kind): (m: Mode) {
    if k == Symbol('<') then In else if k == AppendSign then Append else Out
  }

  ghost predicate FilesOk(s: string, rs: seq<Redirection>) {
    forall k :: 0 <= k < |rs| ==> IsWord(s, rs[k].file)
  }

  ghost predicate WordsOk(s: string, args: seq<Span>) {
    forall k :: 0 <= k < |args| ==> IsWord(s, args[k])
  }

  /** Every argument and file name is a whole word, and no command has MAXARGS arguments. */
  ghost predicate CmdOk(s: string, c: Cmd) {
    match c
    case Exec(args) => |args| < MAXARGS && WordsOk(s, args)
    case Redir(d, to) => CmdOk(s, d) && IsWord(s, to.file)
    case Pipe(l, r) => CmdOk(s, l) && CmdOk(s, r)
    case List(l, r) => CmdOk(s, l) && CmdOk(s, r)
    case Back(d) => CmdOk(s, d)
  }

  lemma {:induction false} WrapOk(s: string, c: Cmd, rs: seq<Redirection>)
    requires CmdOk(s, c) && FilesOk(s, rs)
    ensures CmdOk(s, Wrap(c, rs))
  {
    if rs != [] {
      WrapOk(s, c, rs[..|rs| - 1]);
    }
  }

  /** parseredirs: the redirections found from i on, after those already known. */
  function ParseRedirs(s: string, i: nat, rs: seq<Redirection>): (r: Parsed<seq<Redirection>>)
    requires i <= |s|
    ensures r.Ok? ==> i <= r.i <= |s| && SkipWhite(s, r.i) == r.i && !At(s, r.i, {'<', '>'})
    ensures r.Ok? && FilesOk(s, rs) ==> FilesOk(s, r.v)
    decreases |s| - i
  {
    var j := SkipWhite(s, i);
    if !At(s, j, {'<', '>'}) then Ok(rs, j)
    else
      var t := GetToken(s, j);
      var f := GetToken(s, t.next);
      if !f.kind.Word? then Fail else ParseRedirs(s, f.next, rs + [Redirection(f.span, ModeOf(t.kind))])
  }

  /** parseexec's loop over arguments. */
  function ParseArgs(s: string, i: nat, args: seq<Span>, rs: seq<Redirection>): (r: Parsed<Cmd>)
    requires i <= |s|
    ensures r.Ok? ==> i <= r.i <= |s|
    ensures r.Ok? && WordsOk(s, args) && |args| < MAXARGS && FilesOk(s, rs) ==> CmdOk(s, r.v)
    decreases |s| - i
  {
    var j := SkipWhite(s, i);
    if At(s, j, {'|', ')', '&', ';'}) || j == |s| then
      WrapOkIf(s, args, rs);
      Ok(Wrap(Exec(args), rs), j)
    else
      var t := GetToken(s, j);
      if !t.kind.Word? || |args| + 1 >= MAXARGS then Fail
      else
        var q := ParseRedirs(s, t.next, rs);
        if q.Fail? then Fail else ParseArgs(s, q.i, args + [t.span], q.v)
  }

  lemma WrapOkIf(s: string, args: seq<Span>, rs: seq<Redirection>)
    ensures WordsOk(s, args) && |args| < MAXARGS && FilesOk(s, rs) ==> CmdOk(s, Wrap(Exec(args), rs))
  {
    if WordsOk(s, args) && |args| < MAXARGS && FilesOk(s, rs) {
      WrapOk(s, Exec(args), rs);
    }
  }

  function ParseExec(s: string, i: nat): (r: Parsed<Cmd>)
    requires i <= |s|
    ensures r.Ok? ==> i <= r.i <= |s| && CmdOk(s, r.v)
    decreases |s| - i, 1
  {
    var j := SkipWhite(s, i);
    if At(s, j, {'('}) then ParseBlock(s, j)
    else
      var q := ParseRedirs(s, j, []);
      if q.Fail? then Fail else ParseArgs(s, q.i, [], q.v)
  }

  function ParseBlock(s: string, i: nat): (r: Parsed<Cmd>)
    requires i < |s| && s[i] == '('
    ensures r.Ok? ==> i < r.i <= |s| && CmdOk(s, r.v)
    decreases |s| - i, 0
  {
    CloseBlock(s, ParseLine(s, GetToken(s, i).next))
  }

  /** parseblock after the line inside: the closing parenthesis and redirections. */
  function CloseBlock(s: string, q: Parsed<Cmd>): (r: Parsed<Cmd>)
    requires q.Ok? ==> q.i <= |s|
    ensures r.Ok? ==> q.Ok? && q.i < r.i <= |s| && (CmdOk(s, q.v) ==> CmdOk(s, r.v))
  {
    if q.Fail? then Fail
    else
      var j := SkipWhite(s, q.i);
      if !At(s, j, {')'}) then Fail
      else
        var rs := ParseRedirs(s, GetToken(s, j).next, []);
        if rs.Fail? then Fail else
          WrapKeeps(s, q.v, rs.v);
          Ok(Wrap(q.v, rs.v), rs.i)
  }

  lemma WrapKeeps(s: string, c: Cmd, rs: seq<Redirection>)
    ensures CmdOk(s, c) && FilesOk(s, rs) ==> CmdOk(s, Wrap(c, rs))
  {
    if CmdOk(s, c) && FilesOk(s, rs) {
      WrapOk(s, c, rs);
    }
  }

  function ParsePipe(s: string, i: nat): (r: Parsed<Cmd>)
    requires i <= |s|
    ensures r.Ok? ==> i <= r.i <= |s| && CmdOk(s, r.v)
    decreases |s| - i, 2
  {
    var q := ParseExec(s, i);
    if q.Fail? then Fail
    else
      var j := SkipWhite(s, q.i);
      if !At(s, j, {'|'}) then Ok(q.v, j)
      else
        var p := ParsePipe(s, GetToken(s, j).next);
        if p.Fail? then Fail else Ok(Pipe(q.v, p.v), p.i)
  }

  /** parseline's loop over '&'. */
  function ParseBacks(s: string, i: nat, c: Cmd): (r: Parsed<Cmd>)
    requires i <= |s|
    ensures r.Ok? && i <= r.i <= |s| && (CmdOk(s, c) ==> CmdOk(s, r.v))
    decreases |s| - i
  {
    var j := SkipWhite(s, i);
    if !At(s, j, {'&'}) then Ok(c, j) else ParseBacks(s, GetToken(s, j).next, Back(c))
  }

  function ParseLine(s: string, i: nat): (r: Parsed<Cmd>)
    requires i <= |s|
    ensures r.Ok? ==> i <= r.i <= |s| && CmdOk(s, r.v)
    decreases |s| - i, 3
  {
    var q := ParsePipe(s, i);
    if q.Fail? then Fail
    else
      var b := ParseBacks(s, q.i, q.v);
      var j := SkipWhite(s, b.i);
      if !At(s, j, {';'}) then Ok(b.v, j)
      else
        var l := ParseLine(s, GetToken(s, j).next);
        if l.Fail? then Fail else Ok(List(b.v, l.v), l.i)
  }

  /** parsecmd up to nulterminate: the whole line must be used. */
  function ParseCmd(s: string): (r: Parsed<Cmd>)
    ensures r.Ok? ==> r.i == |s| && CmdOk(s, r.v)
  {
    var q := ParseLine(s, 0);
    if q.Fail? || SkipWhite(s, q.i) != |s| then Fail else Ok(q.v, |s|)
  }
}
