// Any command tree, written out with all its parentheses, parses back to itself.

module ShellRoundTrip {
  import opened Shell

  /** A command with its words spelled out. */
  datatype Tree =
    | TExec(args: seq<string>)
    | TRedir(tree: Tree, file: string, mode: Mode)
    | TPipe(left: Tree, right: Tree)
    | TList(first: Tree, rest: Tree)
    | TBack(bg: Tree)

  ghost predicate LegalWord(w: string) { |w| > 0 && forall k :: 0 <= k < |w| ==> IsWordChar(w[k]) }

  ghost predicate Legal(t: Tree) {
    match t
    case TExec(args) => |args| < MAXARGS && LegalWords(args)
    case TRedir(u, f, _) => Legal(u) && LegalWord(f)
    case TPipe(l, r) => Legal(l) && Legal(r)
    case TList(l, r) => Legal(l) && Legal(r)
    case TBack(u) => Legal(u)
  }

  function RenderArgs(args: seq<string>): (s: string) {
    if args == [] then "" else args[0] + " " + RenderArgs(args[1..])
  }

  function Sign(m: Mode): (s: string) {
    match m case In => "<" case Out => ">" case Append => ">>"
  }

  function Paren(s: string): (r: string) { "(" + s + ")" }

  function Render(t: Tree): (s: string) {
    match t
    case TExec(args) => RenderArgs(args)
    case TRedir(u, f, m) => Paren(Render(u)) + (Sign(m) + f)
    case TPipe(l, r) => Paren(Render(l)) + ("|" + Paren(Render(r)))
    case TList(l, r) => Paren(Render(l)) + (";" + Paren(Render(r)))
    case TBack(u) => Paren(Render(u)) + "&"
  }

  /** c's words, read from the line, are t's. */
  ghost predicate Denotes(s: string, c: Cmd, t: Tree)
    requires CmdOk(s, c)
    decreases c
  {
    match c
    case Exec(args) => t.TExec? && |args| == |t.args| && forall k :: 0 <= k < |args| ==>
      s[args[k].b..args[k].e] == t.args[k]
    case Redir(d, to) => t.TRedir? && Denotes(s, d, t.tree) && s[to.file.b..to.file.e] == t.file && to.mode == t.mode
    case Pipe(l, r) => t.TPipe? && Denotes(s, l, t.left) && Denotes(s, r, t.right)
    case List(l, r) => t.TList? && Denotes(s, l, t.first) && Denotes(s, r, t.rest)
    case Back(d) => t.TBack? && Denotes(s, d, t.bg)
  }

  // ---------------------------------------------------------------- text at a position

  ghost predicate Has(s: string, i: nat, x: string) {
    i + |x| <= |s| && forall k {:trigger x[k]} :: 0 <= k < |x| ==> s[i + k] == x[k]
  }

  lemma HasBoth(s: string, i: nat, x: string, y: string)
    ensures Has(s, i, x + y) <==> Has(s, i, x) && Has(s, i + |x|, y)
  {
    var z := x + y;
    if Has(s, i, z) {
      forall k | 0 <= k < |x| ensures s[i + k] == x[k] {
        assert z[k] == x[k];
      }
      forall k | 0 <= k < |y| ensures s[i + |x| + k] == y[k] {
        assert z[|x| + k] == y[k];
      }
    }
    if Has(s, i, x) && Has(s, i + |x|, y) {
      forall k | 0 <= k < |z| ensures s[i + k] == z[k] {
        if k < |x| {
          assert z[k] == x[k];
        } else {
          assert z[k] == y[k - |x|];
        }
      }
    }
  }

  lemma HasAt(s: string, i: nat, x: string, k: nat)
    requires Has(s, i, x) && k < |x|
    ensures s[i + k] == x[k]
  {
  }

  lemma HasSlice(s: string, i: nat, x: string, e: nat)
    requires Has(s, i, x) && e == i + |x|
    ensures s[i..e] == x
  {
  }

  /** Nothing more of this command at position j. */
  ghost predicate Stops(s: string, j: nat) { j == |s| || (j < |s| && s[j] == ')') }

  // ---------------------------------------------------------------- words

  lemma {:induction false} WordEndIs(s: string, i: nat, e: nat)
    requires i <= e <= |s| && (forall k :: i <= k < e ==> IsWordChar(s[k])) && (e < |s| ==> !IsWordChar(s[e]))
    ensures WordEnd(s, i) == e
    decreases e - i
  {
    if i < e {
      WordEndIs(s, i + 1, e);
    }
  }

  /** A legal word at i, then something else at its end. */
  lemma WordAt(s: string, i: nat, w: string)
    requires Has(s, i, w) && LegalWord(w) && (i + |w| < |s| ==> !IsWordChar(s[i + |w|]))
    ensures SkipWhite(s, i) == i && i < |s| && IsWordChar(s[i])
    ensures GetToken(s, i) == Token(Word, Span(i, i + |w|), SkipWhite(s, i + |w|))
  {
    forall k | i <= k < i + |w| ensures IsWordChar(s[k]) {
      HasAt(s, i, w, k - i);
    }
    WordEndIs(s, i, i + |w|);
  }

  function SpansOf(i: nat, args: seq<string>): (r: seq<Span>)
    ensures |r| == |args|
    decreases |args|
  {
    if args == [] then [] else [Span(i, i + |args[0]|)] + SpansOf(i + |args[0]| + 1, args[1..])
  }

  /** The first argument, a space, the rest. */
  lemma FirstArg(s: string, i: nat, args: seq<string>)
    requires args != [] && Has(s, i, RenderArgs(args))
    ensures Has(s, i, args[0]) && i + |args[0]| < |s| && s[i + |args[0]|] == ' '
    ensures Has(s, i + |args[0]| + 1, RenderArgs(args[1..]))
    ensures |RenderArgs(args)| == |args[0]| + 1 + |RenderArgs(args[1..])|
  {
    HasBoth(s, i, args[0] + " ", RenderArgs(args[1..]));
    HasBoth(s, i, args[0], " ");
    HasAt(s, i + |args[0]|, " ", 0);
  }

  lemma {:induction false} SpansRead(s: string, i: nat, args: seq<string>, k: nat)
    requires Has(s, i, RenderArgs(args)) && k < |args|
    ensures SpansOf(i, args)[k].b <= SpansOf(i, args)[k].e <= |s|
    ensures s[SpansOf(i, args)[k].b..SpansOf(i, args)[k].e] == args[k]
    decreases |args|
  {
    FirstArg(s, i, args);
    if k == 0 {
      HasSlice(s, i, args[0], i + |args[0]|);
    } else {
      SpansRead(s, i + |args[0]| + 1, args[1..], k - 1);
    }
  }

  ghost predicate LegalWords(args: seq<string>) {
    forall k :: 0 <= k < |args| ==> LegalWord(args[k])
  }

  /** A list of arguments starts with a word character, or at once with what stops it. */
  lemma ArgsStart(s: string, i: nat, args: seq<string>)
    requires Has(s, i, RenderArgs(args)) && Stops(s, i + |RenderArgs(args)|) && LegalWords(args)
    ensures args == [] ==> Stops(s, i)
    ensures args != [] ==> i < |s| && IsWordChar(s[i])
    ensures SkipWhite(s, i) == i
  {
    if args != [] {
      FirstArg(s, i, args);
      assert LegalWord(args[0]);
      HasAt(s, i, args[0], 0);
    }
  }

  /** Nothing to redirect where no sign stands. */
  lemma NoRedirs(s: string, i: nat, rs: seq<Redirection>)
    requires i <= |s| && SkipWhite(s, i) == i && (i < |s| ==> s[i] != '<' && s[i] != '>')
    ensures ParseRedirs(s, i, rs) == Ok(rs, i)
  {
  }

  lemma ArgStep(s: string, i: nat, done: seq<Span>, n: nat, m: nat)
    requires i < |s| && SkipWhite(s, i) == i && IsWordChar(s[i]) && |done| + 1 < MAXARGS && m <= |s|
    requires GetToken(s, i) == Token(Word, Span(i, n), m) && ParseRedirs(s, m, []) == Ok([], m)
    ensures ParseArgs(s, i, done, []) == ParseArgs(s, m, done + [Span(i, n)], [])
  {
  }

  lemma ArgsEnd(s: string, i: nat, done: seq<Span>)
    requires i <= |s| && Stops(s, i)
    ensures ParseArgs(s, i, done, []) == Ok(Exec(done), i)
  {
    assert SkipWhite(s, i) == i;
    assert Wrap(Exec(done), []) == Exec(done);
  }

  lemma SpaceAfter(s: string, n: nat)
    requires n < |s| && s[n] == ' ' && SkipWhite(s, n + 1) == n + 1
    ensures SkipWhite(s, n) == n + 1
  {
  }

  lemma LegalTail(args: seq<string>)
    requires LegalWords(args) && args != []
    ensures LegalWord(args[0]) && LegalWords(args[1..])
  {
    var rest := args[1..];
    forall k | 0 <= k < |rest| ensures LegalWord(rest[k]) {
      assert rest[k] == args[k + 1];
    }
  }

  lemma ArgToken(s: string, i: nat, args: seq<string>, n: nat)
    requires args != [] && n == i + |args[0]| && Has(s, i, RenderArgs(args)) && Stops(s, i + |RenderArgs(args)|)
    requires LegalWords(args)
    ensures i < n && n + 1 <= |s| && IsWordChar(s[i]) && SkipWhite(s, i) == i
    ensures GetToken(s, i) == Token(Word, Span(i, n), n + 1)
    ensures SkipWhite(s, n + 1) == n + 1 && (n + 1 < |s| ==> s[n + 1] != '<' && s[n + 1] != '>')
  {
    FirstArg(s, i, args);
    LegalTail(args);
    WordThenSpace(s, i, args[0], n);
    ArgsStart(s, n + 1, args[1..]);
    SpaceAfter(s, n);
  }

  lemma WordThenSpace(s: string, i: nat, w: string, n: nat)
    requires Has(s, i, w) && LegalWord(w) && n == i + |w| && n < |s| && s[n] == ' '
    ensures SkipWhite(s, i) == i && IsWordChar(s[i]) && GetToken(s, i) == Token(Word, Span(i, n), SkipWhite(s, n))
  {
    WordAt(s, i, w);
  }

  lemma ArgNext(s: string, i: nat, done: seq<Span>, args: seq<string>, n: nat, more: seq<Span>)
    requires args != [] && n == i + |args[0]| && more == done + [Span(i, n)] && Has(s, i, RenderArgs(args))
    requires Stops(s, i + |RenderArgs(args)|) && LegalWords(args) && |done| + |args| < MAXARGS
    ensures n + 1 <= |s| && ParseArgs(s, i, done, []) == ParseArgs(s, n + 1, more, [])
  {
    ArgToken(s, i, args, n);
    NoRedirs(s, n + 1, []);
    ArgStep(s, i, done, n, n + 1);
  }

  ghost predicate ArgsGive(s: string, i: nat, done: seq<Span>, r: Parsed<Cmd>) {
    i <= |s| && ParseArgs(s, i, done, []) == r
  }

  function ArgsResult(i: nat, done: seq<Span>, args: seq<string>): (r: Parsed<Cmd>) {
    Ok(Exec(done + SpansOf(i, args)), i + |RenderArgs(args)|)
  }

  lemma ResultCons(i: nat, done: seq<Span>, args: seq<string>, n: nat, more: seq<Span>)
    requires args != [] && n == i + |args[0]| && more == done + [Span(i, n)]
    ensures ArgsResult(n + 1, more, args[1..]) == ArgsResult(i, done, args)
  {
    assert SpansOf(i, args) == [Span(i, n)] + SpansOf(n + 1, args[1..]);
    Assoc(done, [Span(i, n)], SpansOf(n + 1, args[1..]));
  }

  lemma ArgThen(s: string, i: nat, done: seq<Span>, args: seq<string>, n: nat, more: seq<Span>, rest: seq<string>)
    requires args != [] && Has(s, i, RenderArgs(args)) && Stops(s, i + |RenderArgs(args)|) && LegalWords(args)
    requires |done| + |args| < MAXARGS
    requires n == i + |args[0]| && more == done + [Span(i, n)] && rest == args[1..]
    requires ArgsGive(s, n + 1, more, ArgsResult(n + 1, more, rest))
    ensures ArgsGive(s, i, done, ArgsResult(i, done, args))
  {
    ArgNext(s, i, done, args, n, more);
    ResultCons(i, done, args, n, more);
  }

  lemma ArgsBase(s: string, i: nat, done: seq<Span>, args: seq<string>)
    requires args == [] && i <= |s| && Stops(s, i)
    ensures ArgsGive(s, i, done, ArgsResult(i, done, args))
  {
    assert done + SpansOf(i, []) == done;
    ArgsEnd(s, i, done);
  }

  lemma ArgsTail(s: string, i: nat, args: seq<string>, n: nat, rest: seq<string>)
    requires args != [] && Has(s, i, RenderArgs(args)) && Stops(s, i + |RenderArgs(args)|) && LegalWords(args)
    requires n == i + |args[0]| && rest == args[1..]
    ensures Has(s, n + 1, RenderArgs(rest)) && Stops(s, n + 1 + |RenderArgs(rest)|) && LegalWords(rest)
  {
    FirstArg(s, i, args);
    LegalTail(args);
    assert n + 1 + |RenderArgs(rest)| == i + |RenderArgs(args)|;
  }

  lemma {:induction false} ArgsParse(s: string, i: nat, done: seq<Span>, args: seq<string>)
    requires Has(s, i, RenderArgs(args)) && Stops(s, i + |RenderArgs(args)|) && LegalWords(args)
    requires |done| + |args| < MAXARGS
    ensures ArgsGive(s, i, done, ArgsResult(i, done, args))
    decreases |args|
  {
    if args == [] {
      ArgsBase(s, i, done, args);
      return;
    }
    var n := i + |args[0]|;
    var more, rest := done + [Span(i, n)], args[1..];
    ArgsTail(s, i, args, n, rest);
    assert |more| + |rest| < MAXARGS;
    ArgsParse(s, n + 1, more, rest);
    ArgThen(s, i, done, args, n, more, rest);
  }

  lemma Assoc(a: seq<Span>, b: seq<Span>, c: seq<Span>)
    ensures a + b + c == a + (b + c)
  {
  }

  // ---------------------------------------------------------------- commands

  // What the parser gives is quantified over a dummy so that it stays folded in proofs that
  // only pass it on; mentioning Unfold opens it.
  ghost predicate Unfold(n: nat) { true }

  ghost predicate ExecGives(s: string, i: nat, c: Cmd, j: nat) {
    i <= |s| && forall n: nat {:trigger Unfold(n)} :: Unfold(n) ==> ParseExec(s, i) == Ok(c, j)
  }

  ghost predicate PipeGives(s: string, i: nat, c: Cmd, j: nat) {
    i <= |s| && forall n: nat {:trigger Unfold(n)} :: Unfold(n) ==> ParsePipe(s, i) == Ok(c, j)
  }

  ghost predicate LineGives(s: string, i: nat, c: Cmd, j: nat) {
    i <= |s| && forall n: nat {:trigger Unfold(n)} :: Unfold(n) ==> ParseLine(s, i) == Ok(c, j)
  }

  lemma StopIsNotWhite(s: string, j: nat)
    requires j <= |s| && Stops(s, j)
    ensures SkipWhite(s, j) == j
  {
  }

  lemma ExecToPipe(s: string, i: nat, c: Cmd, j: nat)
    requires ExecGives(s, i, c, j) && j <= |s| && SkipWhite(s, j) == j && (j < |s| ==> s[j] != '|')
    ensures PipeGives(s, i, c, j)
  {
  }

  lemma NoBacks(s: string, j: nat, c: Cmd)
    requires j <= |s| && SkipWhite(s, j) == j && (j < |s| ==> s[j] != '&')
    ensures ParseBacks(s, j, c) == Ok(c, j)
  {
  }

  lemma PipeToLine(s: string, i: nat, c: Cmd, j: nat)
    requires PipeGives(s, i, c, j) && j <= |s| && Stops(s, j)
    ensures LineGives(s, i, c, j)
  {
    StopIsNotWhite(s, j);
    NoBacks(s, j, c);
  }

  lemma ParenTokens(s: string, i: nat, j: nat)
    requires i < j < |s| && s[i] == '(' && s[j] == ')' && SkipWhite(s, i + 1) == i + 1 && SkipWhite(s, j + 1) == j + 1
    ensures SkipWhite(s, i) == i && SkipWhite(s, j) == j && GetToken(s, i).next == i + 1 && GetToken(s, j).next == j + 1
  {
  }

  lemma CloseIs(s: string, c: Cmd, j: nat, rs: seq<Redirection>, k: nat)
    requires j < |s| && s[j] == ')' && SkipWhite(s, j) == j && GetToken(s, j).next == j + 1
             && ParseRedirs(s, j + 1, []) == Ok(rs, k)
    ensures CloseBlock(s, Ok(c, j)) == Ok(Wrap(c, rs), k)
  {
  }

  lemma BlockBody(s: string, i: nat, n: nat, q: Parsed<Cmd>)
    requires i < |s| && s[i] == '(' && GetToken(s, i).next == n && ParseLine(s, n) == q
    ensures ParseBlock(s, i) == CloseBlock(s, q)
  {
  }

  lemma ExecOfBlock(s: string, i: nat, r: Parsed<Cmd>)
    requires i < |s| && s[i] == '(' && SkipWhite(s, i) == i && ParseBlock(s, i) == r
    ensures ParseExec(s, i) == r
  {
  }

  /** Between parentheses: the line inside, then whatever redirections follow. */
  lemma Block(s: string, i: nat, c: Cmd, j: nat, rs: seq<Redirection>, k: nat)
    requires i < j < |s| && s[i] == '(' && s[j] == ')' && SkipWhite(s, i + 1) == i + 1 && LineGives(s, i + 1, c, j)
    requires SkipWhite(s, j + 1) == j + 1 && ParseRedirs(s, j + 1, []) == Ok(rs, k)
    ensures ExecGives(s, i, Wrap(c, rs), k)
  {
    assert ParseLine(s, i + 1) == Ok(c, j) by {
      assert Unfold(0);
    }
    ParenTokens(s, i, j);
    BlockBody(s, i, i + 1, Ok(c, j));
    CloseIs(s, c, j, rs, k);
    ExecOfBlock(s, i, Ok(Wrap(c, rs), k));
  }

  /** A parenthesised tree followed by an operator or a stop. */
  lemma Operand(s: string, i: nat, c: Cmd, j: nat)
    requires i < j < |s| && s[i] == '(' && s[j] == ')' && SkipWhite(s, i + 1) == i + 1 && LineGives(s, i + 1, c, j)
    requires j + 1 == |s| || (j + 1 < |s| && s[j + 1] in {'|', ';', '&', ')'})
    ensures ExecGives(s, i, c, j + 1) && SkipWhite(s, j + 1) == j + 1
  {
    NoRedirs(s, j + 1, []);
    Block(s, i, c, j, [], j + 1);
    assert Wrap(c, []) == c;
  }

  /** An operator at j, the rest at n. */
  lemma PipeOf(s: string, i: nat, c: Cmd, j: nat, n: nat, d: Cmd, k: nat)
    requires ExecGives(s, i, c, j) && j < |s| && s[j] == '|' && n == j + 1 && SkipWhite(s, n) == n
    requires PipeGives(s, n, d, k)
    ensures PipeGives(s, i, Pipe(c, d), k)
  {
    assert SkipWhite(s, j) == j;
    assert GetToken(s, j) == Token(Symbol('|'), Span(j, n), n);
  }

  lemma ListOf(s: string, i: nat, c: Cmd, j: nat, n: nat, d: Cmd, k: nat)
    requires PipeGives(s, i, c, j) && j < |s| && s[j] == ';' && n == j + 1 && SkipWhite(s, n) == n
    requires LineGives(s, n, d, k)
    ensures LineGives(s, i, List(c, d), k)
  {
    assert SkipWhite(s, j) == j;
    NoBacks(s, j, c);
    assert GetToken(s, j) == Token(Symbol(';'), Span(j, n), n);
  }

  lemma BackOf(s: string, i: nat, c: Cmd, j: nat, n: nat)
    requires PipeGives(s, i, c, j) && j < |s| && s[j] == '&' && n == j + 1 && Stops(s, n)
    ensures LineGives(s, i, Back(c), n)
  {
    StopIsNotWhite(s, n);
    assert SkipWhite(s, j) == j;
    assert GetToken(s, j) == Token(Symbol('&'), Span(j, n), n);
    NoBacks(s, n, Back(c));
    assert ParseBacks(s, j, c) == Ok(Back(c), n);
  }

  lemma SignToken(s: string, i: nat, m: Mode, b: nat)
    requires Has(s, i, Sign(m)) && b == i + |Sign(m)| && b < |s| && IsWordChar(s[b])
    ensures SkipWhite(s, i) == i && At(s, i, {'<', '>'}) && GetToken(s, i).next == b && ModeOf(GetToken(s, i).kind) == m
  {
    HasAt(s, i, Sign(m), 0);
    if m == Append {
      HasAt(s, i, Sign(m), 1);
    }
    assert SkipWhite(s, b) == b;
  }

  lemma RedirStep(s: string, i: nat, b: nat, e: nat, m: Mode)
    requires i < b < e <= |s| && SkipWhite(s, i) == i && At(s, i, {'<', '>'}) && GetToken(s, i).next == b
    requires ModeOf(GetToken(s, i).kind) == m
    requires GetToken(s, b) == Token(Word, Span(b, e), e)
    requires ParseRedirs(s, e, [Redirection(Span(b, e), m)]) == Ok([Redirection(Span(b, e), m)], e)
    ensures ParseRedirs(s, i, []) == Ok([Redirection(Span(b, e), m)], e)
  {
    assert [] + [Redirection(Span(b, e), m)] == [Redirection(Span(b, e), m)];
  }

  /** A redirection sign, a file name, and then a stop. */
  lemma RedirOf(s: string, i: nat, f: string, m: Mode, b: nat, e: nat)
    requires Has(s, i, Sign(m) + f) && LegalWord(f) && b == i + |Sign(m)| && e == b + |f| && Stops(s, e)
    ensures SkipWhite(s, i) == i && e <= |s| && s[b..e] == f
    ensures ParseRedirs(s, i, []) == Ok([Redirection(Span(b, e), m)], e)
  {
    HasBoth(s, i, Sign(m), f);
    HasSlice(s, b, f, e);
    WordAt(s, b, f);
    StopIsNotWhite(s, e);
    SignToken(s, i, m, b);
    NoRedirs(s, e, [Redirection(Span(b, e), m)]);
    RedirStep(s, i, b, e, m);
  }

  // ---------------------------------------------------------------- whole trees

  lemma RenderStart(s: string, i: nat, t: Tree)
    requires Legal(t) && Has(s, i, Render(t)) && Stops(s, i + |Render(t)|)
    ensures SkipWhite(s, i) == i
  {
    if t.TExec? {
      ArgsStart(s, i, t.args);
    } else {
      HasAt(s, i, Render(t), 0);
    }
  }

  lemma HasParen(s: string, i: nat, x: string)
    requires Has(s, i, Paren(x))
    ensures var j := i + 1 + |x|;
            i < j < |s| && s[i] == '(' && Has(s, i + 1, x) && s[j] == ')' && Stops(s, j) && |Paren(x)| == |x| + 2
  {
    HasBoth(s, i, "(" + x, ")");
    HasBoth(s, i, "(", x);
    HasAt(s, i, "(", 0);
    HasAt(s, i + 1 + |x|, ")", 0);
  }

  lemma ExecArgs(s: string, i: nat, args: seq<string>)
    requires Has(s, i, RenderArgs(args)) && Stops(s, i + |RenderArgs(args)|) && LegalWords(args) && |args| < MAXARGS
    ensures ExecGives(s, i, Exec(SpansOf(i, args)), i + |RenderArgs(args)|)
  {
    ArgsStart(s, i, args);
    NoRedirs(s, i, []);
    ArgsParse(s, i, [], args);
    assert [] + SpansOf(i, args) == SpansOf(i, args);
  }

  lemma ExecToLine(s: string, i: nat, c: Cmd, j: nat)
    requires ExecGives(s, i, c, j) && j <= |s| && Stops(s, j)
    ensures LineGives(s, i, c, j)
  {
    StopIsNotWhite(s, j);
    ExecToPipe(s, i, c, j);
    PipeToLine(s, i, c, j);
  }

  /** A line between the parentheses at i and j. */
  ghost predicate Inner(s: string, i: nat, c: Cmd, j: nat) {
    i < j < |s| && s[i] == '(' && s[j] == ')' && SkipWhite(s, i + 1) == i + 1 && LineGives(s, i + 1, c, j)
  }

  lemma RightPipe(s: string, i: nat, c: Cmd, j: nat)
    requires Inner(s, i, c, j) && Stops(s, j + 1)
    ensures PipeGives(s, i, c, j + 1) && SkipWhite(s, i) == i
  {
    Operand(s, i, c, j);
    ExecToPipe(s, i, c, j + 1);
  }

  lemma RedirLine(s: string, i: nat, d: Cmd, j: nat, to: Redirection, e: nat)
    requires Inner(s, i, d, j) && SkipWhite(s, j + 1) == j + 1 && ParseRedirs(s, j + 1, []) == Ok([to], e) && e <= |s|
    requires Stops(s, e)
    ensures LineGives(s, i, Redir(d, to), e)
  {
    Block(s, i, d, j, [to], e);
    WrapOne(d, to);
    ExecToLine(s, i, Redir(d, to), e);
  }

  lemma WrapOne(d: Cmd, to: Redirection)
    ensures Wrap(d, [to]) == Redir(d, to)
  {
    assert [to][..0] == [];
    assert Wrap(d, []) == d;
  }

  lemma PipeLine(s: string, i: nat, d: Cmd, j: nat, g: Cmd, k: nat)
    requires Inner(s, i, d, j) && j + 1 < |s| && s[j + 1] == '|' && Inner(s, j + 2, g, k) && Stops(s, k + 1)
    ensures LineGives(s, i, Pipe(d, g), k + 1)
  {
    RightPipe(s, j + 2, g, k);
    Operand(s, i, d, j);
    PipeOf(s, i, d, j + 1, j + 2, g, k + 1);
    PipeToLine(s, i, Pipe(d, g), k + 1);
  }

  lemma ListLine(s: string, i: nat, d: Cmd, j: nat, g: Cmd, k: nat)
    requires Inner(s, i, d, j) && j + 1 < |s| && s[j + 1] == ';' && Inner(s, j + 2, g, k) && Stops(s, k + 1)
    ensures LineGives(s, i, List(d, g), k + 1)
  {
    RightLine(s, j + 2, g, k);
    LeftPipe(s, i, d, j);
    ListOf(s, i, d, j + 1, j + 2, g, k + 1);
  }

  lemma RightLine(s: string, i: nat, c: Cmd, j: nat)
    requires Inner(s, i, c, j) && Stops(s, j + 1)
    ensures LineGives(s, i, c, j + 1) && SkipWhite(s, i) == i
  {
    RightPipe(s, i, c, j);
    PipeToLine(s, i, c, j + 1);
  }

  lemma LeftPipe(s: string, i: nat, c: Cmd, j: nat)
    requires Inner(s, i, c, j) && j + 1 < |s| && s[j + 1] in {';', '&'}
    ensures PipeGives(s, i, c, j + 1)
  {
    Operand(s, i, c, j);
    ExecToPipe(s, i, c, j + 1);
  }

  lemma BackLine(s: string, i: nat, d: Cmd, j: nat)
    requires Inner(s, i, d, j) && j + 1 < |s| && s[j + 1] == '&' && Stops(s, j + 2)
    ensures LineGives(s, i, Back(d), j + 2)
  {
    LeftPipe(s, i, d, j);
    BackOf(s, i, d, j + 1, j + 2);
  }

  /** Where the two parts of a binary rendering are. */
  lemma HasPair(s: string, i: nat, x: string, op: char, y: string, j: nat, k: nat)
    requires Has(s, i, Paren(x) + ([op] + Paren(y))) && j == i + 1 + |x| && k == j + 3 + |y|
    ensures Has(s, i, Paren(x)) && j + 1 < |s| && s[j + 1] == op && Has(s, j + 2, Paren(y))
    ensures k + 1 == i + |Paren(x) + ([op] + Paren(y))|
  {
    HasBoth(s, i, Paren(x), [op] + Paren(y));
    HasBoth(s, i + |Paren(x)|, [op], Paren(y));
    HasAt(s, i + |Paren(x)|, [op], 0);
  }

  /** Reading a rendered tree: the parser stops at its end with a command that denotes it. */
  lemma {:induction false} TreeParses(s: string, i: nat, t: Tree) returns (c: Cmd)
    requires Legal(t) && Has(s, i, Render(t)) && Stops(s, i + |Render(t)|)
    ensures LineGives(s, i, c, i + |Render(t)|) && CmdOk(s, c) && Denotes(s, c, t)
    decreases t, 2
  {
    match t
    case TExec(args) => c := ExecParses(s, i, args);
    case TRedir(u, f, m) => c := RedirParses(s, i, t);
    case TPipe(l, r) => c := PipeParses(s, i, t);
    case TList(l, r) => c := ListParses(s, i, t);
    case TBack(u) => c := BackParses(s, i, t);
  }

  lemma ExecParses(s: string, i: nat, args: seq<string>) returns (c: Cmd)
    requires Has(s, i, RenderArgs(args)) && Stops(s, i + |RenderArgs(args)|) && LegalWords(args) && |args| < MAXARGS
    ensures LineGives(s, i, c, i + |RenderArgs(args)|) && CmdOk(s, c) && Denotes(s, c, TExec(args))
  {
    c := Exec(SpansOf(i, args));
    ExecArgs(s, i, args);
    ExecToLine(s, i, c, i + |RenderArgs(args)|);
    LineOk(s, i, c, i + |RenderArgs(args)|);
    forall k | 0 <= k < |args| ensures s[c.args[k].b..c.args[k].e] == args[k] {
      SpansRead(s, i, args, k);
    }
  }

  lemma LineOk(s: string, i: nat, c: Cmd, j: nat)
    requires LineGives(s, i, c, j)
    ensures CmdOk(s, c)
  {
    assert Unfold(0);
  }

  /** A parenthesised part of a rendering. */
  lemma {:induction false} PartParses(s: string, i: nat, u: Tree, j: nat) returns (c: Cmd)
    requires Legal(u) && Has(s, i, Paren(Render(u))) && j == i + 1 + |Render(u)|
    ensures Inner(s, i, c, j) && CmdOk(s, c) && Denotes(s, c, u)
    decreases u, 3
  {
    HasParen(s, i, Render(u));
    RenderStart(s, i + 1, u);
    c := TreeParses(s, i + 1, u);
  }

  lemma RedirText(s: string, i: nat, x: string, f: string, m: Mode, j: nat, b: nat, e: nat)
    requires Has(s, i, Paren(x) + (Sign(m) + f)) && LegalWord(f) && j == i + 1 + |x| && b == j + 1 + |Sign(m)|
    requires e == b + |f| && Stops(s, e)
    ensures Has(s, i, Paren(x)) && e == i + |Paren(x) + (Sign(m) + f)| && b < e <= |s| && s[b..e] == f
    ensures SkipWhite(s, j + 1) == j + 1 && ParseRedirs(s, j + 1, []) == Ok([Redirection(Span(b, e), m)], e)
  {
    HasBoth(s, i, Paren(x), Sign(m) + f);
    assert i + |Paren(x)| == j + 1;
    RedirOf(s, j + 1, f, m, b, e);
  }

  lemma {:induction false} RedirParses(s: string, i: nat, t: Tree) returns (c: Cmd)
    requires t.TRedir? && Legal(t) && Has(s, i, Render(t)) && Stops(s, i + |Render(t)|)
    ensures LineGives(s, i, c, i + |Render(t)|) && CmdOk(s, c) && Denotes(s, c, t)
    decreases t, 1
  {
    var x := Render(t.tree);
    var j := i + 1 + |x|;
    var b := j + 1 + |Sign(t.mode)|;
    var e := i + |Render(t)|;
    RedirText(s, i, x, t.file, t.mode, j, b, e);
    var d := PartParses(s, i, t.tree, j);
    var to := Redirection(Span(b, e), t.mode);
    RedirLine(s, i, d, j, to, e);
    c := Redir(d, to);
    LineOk(s, i, c, e);
  }

  lemma PipeText(s: string, i: nat, t: Tree, j: nat, k: nat)
    requires t.TPipe? && Has(s, i, Render(t)) && Stops(s, i + |Render(t)|) && j == i + 1 + |Render(t.left)|
    requires k == j + 3 + |Render(t.right)|
    ensures Has(s, i, Paren(Render(t.left))) && j + 1 < |s| && s[j + 1] == '|'
    ensures Has(s, j + 2, Paren(Render(t.right))) && Stops(s, k + 1)
    ensures k + 1 == i + |Render(t)|
  {
    HasPair(s, i, Render(t.left), '|', Render(t.right), j, k);
  }

  lemma {:induction false} PipeParses(s: string, i: nat, t: Tree) returns (c: Cmd)
    requires t.TPipe? && Legal(t) && Has(s, i, Render(t)) && Stops(s, i + |Render(t)|)
    ensures LineGives(s, i, c, i + |Render(t)|) && CmdOk(s, c) && Denotes(s, c, t)
    decreases t, 1
  {
    var j := i + 1 + |Render(t.left)|;
    var k := j + 3 + |Render(t.right)|;
    PipeText(s, i, t, j, k);
    var d := PartParses(s, i, t.left, j);
    var g := PartParses(s, j + 2, t.right, k);
    PipeLine(s, i, d, j, g, k);
    c := Pipe(d, g);
  }

  lemma ListText(s: string, i: nat, t: Tree, j: nat, k: nat)
    requires t.TList? && Has(s, i, Render(t)) && Stops(s, i + |Render(t)|) && j == i + 1 + |Render(t.first)|
    requires k == j + 3 + |Render(t.rest)|
    ensures Has(s, i, Paren(Render(t.first))) && j + 1 < |s| && s[j + 1] == ';'
    ensures Has(s, j + 2, Paren(Render(t.rest))) && Stops(s, k + 1)
    ensures k + 1 == i + |Render(t)|
  {
    HasPair(s, i, Render(t.first), ';', Render(t.rest), j, k);
  }

  lemma {:induction false} ListParses(s: string, i: nat, t: Tree) returns (c: Cmd)
    requires t.TList? && Legal(t) && Has(s, i, Render(t)) && Stops(s, i + |Render(t)|)
    ensures LineGives(s, i, c, i + |Render(t)|) && CmdOk(s, c) && Denotes(s, c, t)
    decreases t, 1
  {
    var j := i + 1 + |Render(t.first)|;
    var k := j + 3 + |Render(t.rest)|;
    ListText(s, i, t, j, k);
    var d := PartParses(s, i, t.first, j);
    var g := PartParses(s, j + 2, t.rest, k);
    ListLine(s, i, d, j, g, k);
    c := List(d, g);
  }

  lemma {:induction false} BackParses(s: string, i: nat, t: Tree) returns (c: Cmd)
    requires t.TBack? && Legal(t) && Has(s, i, Render(t)) && Stops(s, i + |Render(t)|)
    ensures LineGives(s, i, c, i + |Render(t)|) && CmdOk(s, c) && Denotes(s, c, t)
    decreases t, 1
  {
    var x := Render(t.bg);
    var j := i + 1 + |x|;
    HasBoth(s, i, Paren(x), "&");
    HasAt(s, j + 1, "&", 0);
    assert Stops(s, j + 2);
    var d := PartParses(s, i, t.bg, j);
    BackLine(s, i, d, j);
    c := Back(d);
  }

  /** parsecmd of a rendered tree gives the tree back. */
  lemma RoundTrip(t: Tree)
    requires Legal(t)
    ensures var r := ParseCmd(Render(t)); r.Ok? && Denotes(Render(t), r.v, t)
  {
    var s := Render(t);
    assert Has(s, 0, s);
    var c := TreeParses(s, 0, t);
    assert Unfold(0);
  }
}
