// nulterminate of user/sh.c: after it every argument and file name is a C string of its own.

module ShellWords {
  import opened Shell

  const NUL: char := '\0'

  predicate NoNul(s: string) { NUL !in s }

  /** All words a command refers to. */
  function Words(c: Cmd): (ws: set<Span>) {
    match c
    case Exec(args) => set k | 0 <= k < |args| :: args[k]
    case Redir(d, to) => Words(d) + {to.file}
    case Pipe(l, r) => Words(l) + Words(r)
    case List(l, r) => Words(l) + Words(r)
    case Back(d) => Words(d)
  }

  /** The characters nulterminate overwrites. */
  function EndArgs(args: seq<Span>, n: nat, buf: string): (r: string)
    requires n <= |args| && forall k :: 0 <= k < |args| ==> args[k].e < |buf|
    ensures |r| == |buf|
  {
    if n == 0 then buf else EndArgs(args, n - 1, buf)[args[n - 1].e := NUL]
  }

  ghost predicate Fits(c: Cmd, n: nat) {
    forall w :: w in Words(c) ==> w.e < n
  }

  function Terminated(c: Cmd, buf: string): (r: string)
    requires Fits(c, |buf|)
    ensures |r| == |buf|
  {
    match c
    case Exec(args) =>
      assert forall k :: 0 <= k < |args| ==> args[k] in Words(c);
      EndArgs(args, |args|, buf)
    case Redir(d, to) =>
      assert to.file in Words(c);
      Terminated(d, buf)[to.file.e := NUL]
    case Pipe(l, r) => Terminated(r, Terminated(l, buf))
    case List(l, r) => Terminated(r, Terminated(l, buf))
    case Back(d) => Terminated(d, buf)
  }

  /** k is where some word ends. */
  ghost predicate IsEnd(c: Cmd, k: nat) {
    exists w :: w in Words(c) && w.e == k
  }

  lemma {:induction false} EndArgsAt(args: seq<Span>, n: nat, buf: string, k: nat)
    requires n <= |args| && (forall j :: 0 <= j < |args| ==> args[j].e < |buf|) && k < |buf|
    ensures EndArgs(args, n, buf)[k] == if exists j :: 0 <= j < n && args[j].e == k then NUL else buf[k]
  {
    if n > 0 {
      EndArgsAt(args, n - 1, buf, k);
    }
  }

  lemma {:induction false} TerminatedAt(c: Cmd, buf: string, k: nat)
    requires Fits(c, |buf|) && k < |buf|
    ensures Terminated(c, buf)[k] == if IsEnd(c, k) then NUL else buf[k]
    decreases c
  {
    match c
    case Exec(args) =>
      forall j | 0 <= j < |args| ensures args[j] in Words(c) {
      }
      EndArgsAt(args, |args|, buf, k);
      if j :| 0 <= j < |args| && args[j].e == k {
        assert args[j] in Words(c);
      }
    case Redir(d, to) =>
      assert to.file in Words(c);
      TerminatedAt(d, buf, k);
      EndOfBoth(c, d, d, k);
    case Pipe(l, r) =>
      TerminatedAt(l, buf, k);
      TerminatedAt(r, Terminated(l, buf), k);
      EndOfBoth(c, l, r, k);
    case List(l, r) =>
      TerminatedAt(l, buf, k);
      TerminatedAt(r, Terminated(l, buf), k);
      EndOfBoth(c, l, r, k);
    case Back(d) =>
      TerminatedAt(d, buf, k);
      EndOfBoth(c, d, d, k);
  }

  lemma EndOfBoth(c: Cmd, l: Cmd, r: Cmd, k: nat)
    requires Words(l) <= Words(c) && Words(r) <= Words(c)
    ensures IsEnd(l, k) || IsEnd(r, k) ==> IsEnd(c, k)
  {
  }

  lemma {:induction false} WordsAreWords(s: string, c: Cmd, w: Span)
    requires CmdOk(s, c) && w in Words(c)
    ensures IsWord(s, w)
    decreases c
  {
    match c
    case Exec(args) =>
    case Redir(d, to) =>
      if w in Words(d) {
        WordsAreWords(s, d, w);
      }
    case Pipe(l, r) =>
      if w in Words(l) {
        WordsAreWords(s, l, w);
      } else {
        WordsAreWords(s, r, w);
      }
    case List(l, r) =>
      if w in Words(l) {
        WordsAreWords(s, l, w);
      } else {
        WordsAreWords(s, r, w);
      }
    case Back(d) => WordsAreWords(s, d, w);
  }

  /** No terminator lands inside a word. */
  lemma EndOutside(s: string, c: Cmd, w: Span, k: nat)
    requires CmdOk(s, c) && w in Words(c) && w.b <= k < w.e
    ensures !IsEnd(c, k)
  {
    WordsAreWords(s, c, w);
    forall v | v in Words(c) ensures v.e != k {
      WordsAreWords(s, c, v);
    }
  }

  /** The C string that starts at position b. */
  function CString(buf: string, b: nat): (r: string)
    decreases |buf| - b
  {
    if b >= |buf| || buf[b] == NUL then "" else [buf[b]] + CString(buf, b + 1)
  }

  lemma {:induction false} CStringIs(buf: string, b: nat, e: nat)
    requires b <= e < |buf| && buf[e] == NUL && forall k :: b <= k < e ==> buf[k] != NUL
    ensures CString(buf, b) == buf[b..e]
    decreases e - b
  {
    if b < e {
      CStringIs(buf, b + 1, e);
      assert buf[b..e] == [buf[b]] + buf[b + 1..e];
    }
  }

  lemma WordsFit(s: string, c: Cmd)
    requires CmdOk(s, c)
    ensures Fits(c, |s| + 1)
  {
    forall w | w in Words(c) ensures w.e < |s| + 1 {
      WordsAreWords(s, c, w);
    }
  }

  lemma TokenOf(s: string, c: Cmd, w: Span)
    requires NoNul(s) && CmdOk(s, c) && w in Words(c)
    ensures Fits(c, |s| + 1) && w.b <= w.e <= |s|
    ensures CString(Terminated(c, s + [NUL]), w.b) == s[w.b..w.e]
  {
    var buf := s + [NUL];
    WordsFit(s, c);
    WordsAreWords(s, c, w);
    var out := Terminated(c, buf);
    forall k | w.b <= k < w.e ensures out[k] == s[k] && out[k] != NUL {
      TerminatedAt(c, buf, k);
      EndOutside(s, c, w, k);
    }
    TerminatedAt(c, buf, w.e);
    assert IsEnd(c, w.e);
    CStringIs(out, w.b, w.e);
    assert out[w.b..w.e] == s[w.b..w.e];
  }

  /** After parsecmd every argv and file string is exactly its token. */
  lemma StringsAreTokens(s: string, w: Span)
    requires NoNul(s) && ParseCmd(s).Ok? && w in Words(ParseCmd(s).v)
    ensures Fits(ParseCmd(s).v, |s| + 1) && w.b <= w.e <= |s|
    ensures CString(Terminated(ParseCmd(s).v, s + [NUL]), w.b) == s[w.b..w.e]
  {
    TokenOf(s, ParseCmd(s).v, w);
  }
}
