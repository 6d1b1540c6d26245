/** The shell's scanner: gettoken and peek on a line, and the tokens they deliver one after another. */
module ShLex {

  const NUL: char := 0 as char
  const WHITESPACE: set<char> := {' ', '\t', '\r', '\n', 11 as char}
  const SYMBOLS: set<char> := {'<', '|', '>', '&', ';', '(', ')'}

  /** A symbol stands for itself, and '+' for two greater-than signs. */
  datatype Kind = End | Word | Sym(c: char)

  /** A token and the part of the line it covers. */
  datatype Token = Token(kind: Kind, q: nat, eq: nat)

  predicate Text(line: string) {
    forall i :: 0 <= i < |line| ==> line[i] != NUL
  }

  function Char(line: string, i: nat): char { if i < |line| then line[i] else NUL }

  predicate Plain(c: char) { c !in WHITESPACE && c !in SYMBOLS && c != NUL }

  function Skip(line: string, i: nat): (j: nat)
    requires i <= |line|
    ensures i <= j <= |line|
    ensures forall k :: i <= k < j ==> line[k] in WHITESPACE
    ensures j < |line| ==> line[j] !in WHITESPACE
    decreases |line| - i
  {
    if i < |line| && line[i] in WHITESPACE then Skip(line, i + 1) else i
  }

  function WordEnd(line: string, i: nat): (j: nat)
    requires i <= |line|
    ensures i <= j <= |line|
    ensures forall k :: i <= k < j ==> line[k] !in WHITESPACE && line[k] !in SYMBOLS
    ensures j < |line| ==> line[j] in WHITESPACE || line[j] in SYMBOLS
    decreases |line| - i
  {
    if i < |line| && line[i] !in WHITESPACE && line[i] !in SYMBOLS then WordEnd(line, i + 1) else i
  }

  /** The token that starts at `s`, where the white space has been skipped. */
  function TokenAt(line: string, s: nat): (t: Token)
    requires s <= |line| && Text(line) && s == Skip(line, s)
    ensures t.q == s && s <= t.eq <= |line| && (t.kind == End <==> s == |line|) && (t.kind != End ==> s < t.eq)
  {
    var c := Char(line, s);
    if c == NUL then Token(End, s, s)
    else if c == '>' then (if Char(line, s + 1) == '>' then Token(Sym('+'), s, s + 2) else Token(Sym('>'), s, s + 1))
    else if c in SYMBOLS then Token(Sym(c), s, s + 1)
    else Token(Word, s, WordEnd(line, s))
  }

  /** gettoken: the token at or after `i`, and the position after the white space that follows it. */
  function GetToken(line: string, i: nat): (r: (Token, nat))
    requires i <= |line| && Text(line)
    ensures i <= r.0.q <= r.0.eq <= r.1 <= |line| && r.1 == Skip(line, r.1)
  {
    var t := TokenAt(line, Skip(line, i));
    (t, Skip(line, t.eq))
  }

  /** peek: the position after white space, and whether one of `toks` is there. */
  function Peek(line: string, i: nat, toks: set<char>): (nat, bool)
    requires i <= |line|
  {
    var j := Skip(line, i);
    (j, j < |line| && line[j] in toks)
  }

  // ---- The loops ----

  method SkipLoop(line: string, i: nat) returns (s: nat)
    requires i <= |line|
    ensures s == Skip(line, i)
  {
    s := i;
    while s < |line| && line[s] in WHITESPACE
      invariant i <= s <= |line| && Skip(line, s) == Skip(line, i)
    {
      s := s + 1;
    }
  }

  /** gettoken */
  method NextToken(line: string, ps: nat) returns (t: Token, next: nat)
    requires ps <= |line| && Text(line)
    ensures (t, next) == GetToken(line, ps)
  {
    var s := SkipLoop(line, ps);
    var q := s;
    var kind: Kind;
    var c := Char(line, s);
    if c == NUL {
      kind := End;
    } else if c in {'|', '(', ')', ';', '&', '<'} {
      kind := Sym(c);
      s := s + 1;
    } else if c == '>' {
      kind := Sym('>');
      s := s + 1;
      if Char(line, s) == '>' {
        kind := Sym('+');
        s := s + 1;
      }
    } else {
      kind := Word;
      while s < |line| && line[s] !in WHITESPACE && line[s] !in SYMBOLS
        invariant q <= s <= |line| && WordEnd(line, s) == WordEnd(line, q)
      {
        s := s + 1;
      }
    }
    t := Token(kind, q, s);
    next := SkipLoop(line, s);
  }

  /** peek */
  method PeekFor(line: string, ps: nat, toks: set<char>) returns (next: nat, found: bool)
    requires ps <= |line|
    ensures (next, found) == Peek(line, ps, toks)
  {
    next := SkipLoop(line, ps);
    found := next < |line| && line[next] in toks;
  }

  // ---- The whole line ----

  /** The tokens that successive calls of gettoken deliver from `i` on. */
  function Lex(line: string, i: nat): (ts: seq<Token>)
    requires i <= |line| && Text(line)
    decreases |line| - i
  {
    var (t, next) := GetToken(line, i);
    if t.kind == End then [] else [t] + Lex(line, next)
  }

  predicate WordAt(line: string, t: Token) {
    t.q < t.eq <= |line|
    && (forall k :: t.q <= k < t.eq ==> Plain(line[k]))
    && (t.eq < |line| ==> !Plain(line[t.eq]))
  }

  predicate Tokens(line: string, i: nat, ts: seq<Token>) {
    && (forall k :: 0 <= k < |ts| ==> i <= ts[k].q < ts[k].eq <= |line| && ts[k].kind != End)
    && (forall k :: 0 <= k < |ts| && ts[k].kind == Word ==> WordAt(line, ts[k]))
    && (forall k, l :: 0 <= k < l < |ts| ==> ts[k].eq <= ts[l].q)
  }

  /** The tokens follow each other in the line, and a word is a longest run of plain characters. */
  lemma {:induction false} LexTokens(line: string, i: nat)
    requires i <= |line| && Text(line)
    ensures Tokens(line, i, Lex(line, i))
    decreases |line| - i
  {
    var (t, next) := GetToken(line, i);
    if t.kind != End {
      LexTokens(line, next);
      if t.kind == Word { FirstToken(line, i); }
      assert Lex(line, i) == [t] + Lex(line, next);
    }
  }

  lemma FirstToken(line: string, i: nat)
    requires i <= |line| && Text(line) && GetToken(line, i).0.kind == Word
    ensures WordAt(line, GetToken(line, i).0)
  {
  }

  /** Every plain character of the line is in a word. */
  lemma {:induction false} LexCovers(line: string, i: nat, p: nat)
    requires i <= p < |line| && Text(line) && Plain(line[p])
    ensures exists k ::
      0 <= k < |Lex(line, i)| && Lex(line, i)[k].kind == Word && Lex(line, i)[k].q <= p < Lex(line, i)[k].eq
    decreases |line| - i
  {
    var (t, next) := GetToken(line, i);
    var ts := Lex(line, i);
    assert t.q <= p;
    assert ts == [t] + Lex(line, next);
    if p < t.eq {
      assert ts[0] == t;
    } else {
      assert next <= p;
      LexCovers(line, next, p);
      var k :| 0 <= k < |Lex(line, next)| && Lex(line, next)[k].kind == Word &&
        Lex(line, next)[k].q <= p < Lex(line, next)[k].eq;
      assert ts[k + 1] == Lex(line, next)[k];
    }
  }

  /** In step with the tokens: gettoken at the position where token `k` starts delivers it and moves on to the
      next, and peek looks at its first character. */
  lemma {:induction false} InStep(line: string, i: nat, k: nat)
    requires i <= |line| && Text(line) && k < |Lex(line, i)|
    ensures var p := Start(line, i, k);
      p <= |line| && GetToken(line, p) == (Lex(line, i)[k], Start(line, i, k + 1))
    decreases k
  {
    if k > 0 { InStep(line, GetToken(line, i).1, k - 1); }
  }

  /** Where the scanner stands after `k` tokens. */
  function Start(line: string, i: nat, k: nat): (p: nat)
    requires i <= |line| && Text(line)
    ensures p <= |line|
    decreases k
  {
    if k == 0 then i else Start(line, GetToken(line, i).1, k - 1)
  }

  /** peek for symbols sees the next token's kind. */
  lemma PeekSees(line: string, i: nat, toks: set<char>)
    requires i <= |line| && Text(line) && toks <= SYMBOLS
    ensures Peek(line, i, toks).1 <==> Starts(GetToken(line, i).0.kind, toks)
  {
  }

  predicate Starts(k: Kind, toks: set<char>) {
    k.Sym? && (k.c in toks || (k.c == '+' && '>' in toks))
  }
}
