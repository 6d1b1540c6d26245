/** `>>` is `>`: a line parses to the same command when the second sign is blanked out. */
module ShArrows {
  import opened ShLex
  import opened ShParse

  // ---- The tokens ----

  /** The line with the character after `p` blanked out */
  function Single(line: string, p: nat): string
    requires p + 1 < |line|
  {
    line[p + 1 := ' ']
  }

  /** The two agree on positions `a`, ..., `b - 1`. */
  predicate Agree(x: string, y: string, a: nat, b: nat) {
    |x| == |y| && a <= b <= |x| && forall j :: a <= j < b ==> x[j] == y[j]
  }

  lemma {:induction false} AgreeSkip(x: string, y: string, i: nat, b: nat)
    requires Agree(x, y, i, b) && (Skip(x, i) < b || b == |x|)
    ensures Skip(y, i) == Skip(x, i)
    decreases |x| - i
  {
    if i < |x| && x[i] in WHITESPACE { AgreeSkip(x, y, i + 1, b); }
  }

  lemma {:induction false} AgreeWord(x: string, y: string, i: nat, b: nat)
    requires Agree(x, y, i, b) && (WordEnd(x, i) < b || b == |x|)
    ensures WordEnd(y, i) == WordEnd(x, i)
    decreases |x| - i
  {
    if i < |x| && x[i] !in WHITESPACE && x[i] !in SYMBOLS { AgreeWord(x, y, i + 1, b); }
  }

  /** A token that ends before `b`, or agreement to the end */
  lemma AgreeToken(x: string, y: string, i: nat, b: nat)
    requires Text(x) && Text(y) && Agree(x, y, i, b) && (GetToken(x, i).1 < b || b == |x|)
    ensures GetToken(y, i) == GetToken(x, i)
  {
    var s := Skip(x, i);
    AgreeSkip(x, y, i, b);
    AgreeSkip(x, y, s, b);
    if s < |x| && Plain(x[s]) { AgreeWord(x, y, s, b); }
    AgreeSkip(x, y, GetToken(x, i).0.eq, b);
  }

  lemma {:induction false} AgreeLex(x: string, y: string, i: nat)
    requires Text(x) && Text(y) && Agree(x, y, i, |x|)
    ensures Lex(y, i) == Lex(x, i)
    decreases |x| - i
  {
    AgreeToken(x, y, i, |x|);
    if GetToken(x, i).0.kind != End { AgreeLex(x, y, GetToken(x, i).1); }
  }

  lemma SingleSkip(line: string, p: nat)
    requires p + 1 < |line|
    ensures Skip(Single(line, p), p + 1) == Skip(line, p + 2)
  {
    AgreeSkip(line, Single(line, p), p + 2, |line|);
  }

  lemma SingleStart(line: string, i: nat, p: nat)
    requires i <= p && p + 1 < |line| && Skip(line, i) == p
    ensures Skip(Single(line, p), i) == p && Skip(Single(line, p), p) == p
  {
    AgreeSkip(line, Single(line, p), i, p + 1);
  }

  /** The token `>>` at `p` becomes `>`, and what comes after it is the same. */
  lemma SingleToken(line: string, i: nat, p: nat)
    requires Text(line) && i <= |line| && GetToken(line, i).0 == Token(Sym('+'), p, p + 2)
    ensures p + 1 < |line| && Text(Single(line, p))
    ensures GetToken(Single(line, p), i) == (Token(Sym('>'), p, p + 1), GetToken(line, i).1)
  {
    SingleStart(line, i, p);
    SingleSkip(line, p);
  }

  /** What stands where a token `>>` is. */
  lemma DoubleAt(line: string, i: nat, k: nat)
    requires Text(line) && i <= |line| && k < |Lex(line, i)| && Lex(line, i)[k].kind == Sym('+')
    ensures var t := Lex(line, i)[k]; i <= t.q && t.eq == t.q + 2 <= |line| && line[t.q] == '>' && line[t.q + 1] == '>'
  {
    InStep(line, i, k);
    LexTokens(line, i);
  }

  lemma SetFirst(t: Token, ts: seq<Token>, u: Token)
    ensures ([t] + ts)[0 := u] == [u] + ts
  {
  }

  lemma SetAfter(t: Token, ts: seq<Token>, k: nat, u: Token)
    requires 0 < k <= |ts|
    ensures ([t] + ts)[k := u] == [t] + ts[k - 1 := u]
  {
  }

  lemma LexFirst(line: string, i: nat, t: Token, next: nat)
    requires Text(line) && i <= |line| && GetToken(line, i) == (t, next) && t.kind != End
    ensures Lex(line, i) == [t] + Lex(line, next)
  {
  }

  lemma SingleFirst(line: string, i: nat, p: nat, next: nat)
    requires Text(line) && i <= |line| && GetToken(line, i) == (Token(Sym('+'), p, p + 2), next)
    requires p + 1 < |line| && Text(Single(line, p))
    ensures Lex(Single(line, p), i) == [Token(Sym('>'), p, p + 1)] + Lex(line, next)
  {
    SingleToken(line, i, p);
    AgreeLex(line, Single(line, p), next);
    LexFirst(Single(line, p), i, Token(Sym('>'), p, p + 1), next);
  }

  /** One token before the changed one */
  lemma SingleNext(line: string, i: nat, t: Token, next: nat, k: nat, p: nat, rest: seq<Token>, us: seq<Token>)
    requires Text(line) && i <= |line| && GetToken(line, i) == (t, next) && t.kind != End && rest == Lex(line, next)
    requires 0 < k <= |rest| && rest[k - 1].q == p && p + 1 < |line| && line[p] == '>' && Text(Single(line, p))
    requires us == Lex(Single(line, p), next)
    ensures Lex(Single(line, p), i) == [t] + us && Lex(line, i) == [t] + rest
  {
    LexTokens(line, next);
    SingleBefore(line, i, p, next);
    LexFirst(line, i, t, next);
    LexFirst(Single(line, p), i, t, next);
  }

  lemma {:induction false} SingleLex(line: string, i: nat, k: nat, p: nat, ts: seq<Token>)
    requires Text(line) && i <= |line| && ts == Lex(line, i) && k < |ts| && ts[k] == Token(Sym('+'), p, p + 2)
    requires p + 1 < |line| && line[p] == '>' && Text(Single(line, p))
    ensures Lex(Single(line, p), i) == ts[k := Token(Sym('>'), p, p + 1)]
    decreases k
  {
    var (t, next) := GetToken(line, i);
    var rest := Lex(line, next);
    LexFirst(line, i, t, next);
    if k == 0 {
      SingleFirst(line, i, p, next);
      SetFirst(t, rest, Token(Sym('>'), p, p + 1));
    } else {
      SingleLex(line, next, k - 1, p, rest);
      SingleNext(line, i, t, next, k, p, rest, Lex(Single(line, p), next));
      SetAfter(t, rest, k, Token(Sym('>'), p, p + 1));
    }
  }

  /** A token before `p` stays. */
  lemma SingleBefore(line: string, i: nat, p: nat, next: nat)
    requires Text(line) && i <= |line| && p + 1 < |line| && next == GetToken(line, i).1 <= p && line[p] == '>'
    requires Text(Single(line, p))
    ensures GetToken(Single(line, p), i) == GetToken(line, i)
  {
    AgreeToken(line, Single(line, p), i, p + 1);
  }

  // ---- The commands ----

  /** The same tokens but for `>` in place of some `>>`. */
  predicate Alike(ts: seq<Token>, us: seq<Token>) {
    |us| == |ts| && forall i :: 0 <= i < |ts| ==> us[i] == ts[i] || (ts[i].kind == Sym('+') && us[i].kind == Sym('>'))
  }

  lemma {:induction false} RedirsAlike(ts: seq<Token>, us: seq<Token>, k: nat)
    requires Alike(ts, us) && k <= |ts|
    ensures Redirs(us, k) == Redirs(ts, k)
    decreases |ts| - k
  {
    if Starts(KindAt(ts, k), {'<', '>'}) && KindAt(ts, k + 1) == Word { RedirsAlike(ts, us, k + 2); }
  }

  lemma {:induction false} ExecAlike(ts: seq<Token>, us: seq<Token>, k: nat, args: seq<Range>, targets: seq<Target>)
    requires Alike(ts, us) && k <= |ts|
    ensures ExecLoop(us, k, args, targets) == ExecLoop(ts, k, args, targets)
    decreases |ts| - k
  {
    if KindAt(ts, k) == Word {
      RedirsAlike(ts, us, k + 1);
      var r := Redirs(ts, k + 1);
      if |args| + 1 < MAXARGS && r.Ok? { ExecAlike(ts, us, r.k, args + [RangeOf(ts[k])], targets + r.value); }
    }
  }

  lemma {:induction false} BacksAlike(ts: seq<Token>, us: seq<Token>, k: nat, c: Cmd)
    requires Alike(ts, us) && k <= |ts|
    ensures Backs(us, k, c) == Backs(ts, k, c)
    decreases |ts| - k
  {
    if KindAt(ts, k) == Sym('&') { BacksAlike(ts, us, k + 1, Back(c)); }
  }

  lemma {:induction false} ParseExecAlike(ts: seq<Token>, us: seq<Token>, k: nat)
    requires Alike(ts, us) && k <= |ts|
    ensures ParseExec(us, k) == ParseExec(ts, k)
    decreases |ts| - k, 1
  {
    if KindAt(ts, k) == Sym('(') {
      ParseBlockAlike(ts, us, k);
    } else {
      RedirsAlike(ts, us, k);
      var r := Redirs(ts, k);
      if r.Ok? { ExecAlike(ts, us, r.k, [], r.value); }
    }
  }

  lemma {:induction false} ParseBlockAlike(ts: seq<Token>, us: seq<Token>, k: nat)
    requires Alike(ts, us) && k < |ts|
    ensures ParseBlock(us, k) == ParseBlock(ts, k)
    decreases |ts| - k, 0
  {
    if ts[k].kind == Sym('(') {
      ParseLineAlike(ts, us, k + 1);
      var r := ParseLine(ts, k + 1);
      if r.Ok? && r.k < |ts| { RedirsAlike(ts, us, r.k + 1); }
    }
  }

  lemma {:induction false} ParsePipeAlike(ts: seq<Token>, us: seq<Token>, k: nat)
    requires Alike(ts, us) && k <= |ts|
    ensures ParsePipe(us, k) == ParsePipe(ts, k)
    decreases |ts| - k, 2
  {
    ParseExecAlike(ts, us, k);
    var r := ParseExec(ts, k);
    if r.Ok? && r.k < |ts| { ParsePipeAlike(ts, us, r.k + 1); }
  }

  lemma {:induction false} ParseLineAlike(ts: seq<Token>, us: seq<Token>, k: nat)
    requires Alike(ts, us) && k <= |ts|
    ensures ParseLine(us, k) == ParseLine(ts, k)
    decreases |ts| - k, 3
  {
    ParsePipeAlike(ts, us, k);
    var r := ParsePipe(ts, k);
    if r.Ok? {
      BacksAlike(ts, us, r.k, r.value);
      var k2 := Backs(ts, r.k, r.value).1;
      if k2 < |ts| { ParseLineAlike(ts, us, k2 + 1); }
    }
  }

  /** Blanking out the second sign of any `>>` of a line changes neither whether it is accepted nor the command. */
  lemma DoubleIsSingle(line: string, k: nat)
    requires Text(line) && k < |Lex(line, 0)| && Lex(line, 0)[k].kind == Sym('+')
    ensures var p := Lex(line, 0)[k].q;
      p + 1 < |line| && Text(Single(line, p)) && ParseCmd(Single(line, p)) == ParseCmd(line)
  {
    DoubleAt(line, 0, k);
    var p := Lex(line, 0)[k].q;
    SingleLex(line, 0, k, p, Lex(line, 0));
    ParseLineAlike(Lex(line, 0), Lex(Single(line, p), 0), 0);
  }
}
