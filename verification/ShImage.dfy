/** Which commands the shell's parser builds, told by their words' places in the line. */
module ShImage {
  import opened Helpers
  import opened ShLex
  import opened ShParse
  import opened ShRoundTrip

  // ---- Room for the symbols ----

  /** The next free position in a line, and whether a word ends just before it. */
  datatype Spot = Spot(p: nat, word: bool)

  /** The spot after one more token: a symbol takes one position, a word its own place. */
  function After(t: Token, s: Spot): Option<Spot> {
    if t.kind != Word then Some(Spot(s.p + 1, false))
    else if s.p + (if s.word then 1 else 0) <= t.q < t.eq then Some(Spot(t.eq, true))
    else None
  }

  /** The spot after the tokens, each symbol as far left as it goes; None when a word's place is taken. */
  function Room(e: seq<Token>, s: Spot): Option<Spot> {
    if e == [] then Some(s) else
    match After(e[0], s)
    case None => None
    case Some(s') => Room(e[1..], s')
  }

  /** The words of the command leave room for the symbols between them. */
  predicate Fits(c: Cmd) { Room(Emit(c, 0), Spot(0, false)).Some? }

  // ---- A line for given tokens ----

  /** The tokens with their symbols in place. */
  function Place(e: seq<Token>, s: Spot): (ts: seq<Token>)
    requires Room(e, s).Some?
    ensures |ts| == |e| && forall i :: 0 <= i < |e| ==> Same(ts[i], e[i])
  {
    if e == [] then [] else
      var t := if e[0].kind == Word then e[0] else Token(e[0].kind, s.p, s.p + 1);
      [t] + Place(e[1..], After(e[0], s).value)
  }

  function Blanks(n: nat): (b: string)
    ensures |b| == n && forall i :: 0 <= i < n ==> b[i] == ' '
  {
    seq(n, _ => ' ')
  }

  /** What a token looks like; the letters of words come from `ink`. */
  function Ink(t: Token, ink: string): string {
    if t.kind.Sym? then [t.kind.c] else if t.q <= t.eq <= |ink| then ink[t.q..t.eq] else ""
  }

  /** The line from position `p` on. */
  function Draw(ts: seq<Token>, ink: string, p: nat): string {
    if ts == [] then ""
    else Blanks(if p <= ts[0].q then ts[0].q - p else 0) + Ink(ts[0], ink) + Draw(ts[1..], ink, ts[0].eq)
  }

  /** Words and symbols of the scanner, and an arrow is followed by a word. */
  predicate Clean(e: seq<Token>) {
    && (forall i :: 0 <= i < |e| ==> e[i].kind == Word || (e[i].kind.Sym? && e[i].kind.c in SYMBOLS))
    && (forall i :: 0 <= i < |e| && e[i].kind == Sym('>') ==> i + 1 < |e| && e[i + 1].kind == Word)
  }

  predicate Inked(ts: seq<Token>, ink: string) {
    forall i :: 0 <= i < |ts| && ts[i].kind == Word ==>
      ts[i].q < ts[i].eq <= |ink| && forall x :: ts[i].q <= x < ts[i].eq ==> Plain(ink[x])
  }

  /** Token `t` is in the line, after blanks from `p` on. */
  predicate Shown(line: string, t: Token, p: nat) {
    && p <= t.q < t.eq <= |line| && (forall x :: p <= x < t.q ==> line[x] == ' ')
    && (t.kind == Word ==> (forall x :: t.q <= x < t.eq ==> Plain(line[x])) && !Plain(Char(line, t.eq)))
    && (t.kind.Sym? ==> t.eq == t.q + 1 && t.kind.c in SYMBOLS && line[t.q] == t.kind.c)
    && (t.kind == Sym('>') ==> Char(line, t.eq) != '>') && t.kind != End
  }

  /** The line from `p` on consists of these tokens and blanks. */
  predicate Written(line: string, ts: seq<Token>, p: nat)
    decreases |ts|
  {
    if ts == [] then p == |line| else Shown(line, ts[0], p) && Written(line, ts[1..], ts[0].eq)
  }

  lemma {:induction false} SkipTo(line: string, p: nat, q: nat)
    requires p <= q <= |line| && (forall x :: p <= x < q ==> line[x] in WHITESPACE)
    requires (q < |line| ==> line[q] !in WHITESPACE)
    ensures Skip(line, p) == q
    decreases q - p
  {
    if p < q { SkipTo(line, p + 1, q); }
  }

  lemma {:induction false} WordTo(line: string, p: nat, q: nat)
    requires p <= q <= |line| && (forall x :: p <= x < q ==> Plain(line[x])) && !Plain(Char(line, q)) && Text(line)
    ensures WordEnd(line, p) == q
    decreases q - p
  {
    if p < q { WordTo(line, p + 1, q); }
  }

  /** Leading white space does not matter. */
  lemma LexSkip(line: string, p: nat)
    requires p <= |line| && Text(line)
    ensures Lex(line, Skip(line, p)) == Lex(line, p)
  {
    assert Skip(line, Skip(line, p)) == Skip(line, p);
  }

  lemma ShownToken(line: string, t: Token, p: nat)
    requires Text(line) && Shown(line, t, p)
    ensures GetToken(line, p) == (t, Skip(line, t.eq))
  {
    SkipTo(line, p, t.q);
    if t.kind == Word { WordTo(line, t.q, t.eq); }
  }

  lemma {:induction false} WrittenLex(line: string, ts: seq<Token>, p: nat)
    requires Text(line) && p <= |line| && Written(line, ts, p)
    ensures Lex(line, p) == ts
    decreases |ts|
  {
    if ts != [] {
      var t := ts[0];
      ShownToken(line, t, p);
      WrittenLex(line, ts[1..], t.eq);
      LexSkip(line, t.eq);
      assert [t] + ts[1..] == ts;
    }
  }

  /** What a prefix that ends with token `t` says about the line. */
  lemma Prefixed(line: string, pre: string, t: Token, ink: string)
    requires |pre| <= t.q && |Ink(t, ink)| == t.eq - t.q && pre + Blanks(t.q - |pre|) + Ink(t, ink) <= line
    ensures pre <= line && t.eq <= |line| && line[t.q..t.eq] == Ink(t, ink)
    ensures forall x :: |pre| <= x < t.q ==> line[x] == ' '
    ensures forall x :: t.q <= x < t.eq ==> line[x] == Ink(t, ink)[x - t.q]
  {
    var all := pre + Blanks(t.q - |pre|) + Ink(t, ink);
    assert forall x :: 0 <= x < |all| ==> line[x] == all[x];
  }

  lemma CleanRest(e: seq<Token>, ink: string)
    requires e != [] && Clean(e) && Inked(e, ink)
    ensures Clean(e[1..]) && Inked(e[1..], ink)
    ensures e[0].kind == Sym('>') ==> |e| > 1 && e[1].kind == Word
  {
    assert forall i :: 0 <= i < |e| - 1 ==> e[1..][i] == e[i + 1];
  }

  /** The first token is shown, if what follows it keeps apart. */
  lemma FirstShown(line: string, pre: string, e: Token, t: Token, s: Spot, ink: string)
    requires |pre| == s.p && After(e, s).Some? && t == (if e.kind == Word then e else Token(e.kind, s.p, s.p + 1))
    requires e.kind == Word || (e.kind.Sym? && e.kind.c in SYMBOLS)
    requires e.kind == Word ==> e.q < e.eq <= |ink| && forall x :: e.q <= x < e.eq ==> Plain(ink[x])
    requires pre + Blanks(t.q - s.p) + Ink(t, ink) <= line
    requires e.kind == Word ==> !Plain(Char(line, t.eq))
    requires e.kind == Sym('>') ==> Char(line, t.eq) != '>'
    ensures Shown(line, t, s.p) && pre <= line
    ensures s.word ==> !Plain(Char(line, s.p))
    ensures e.kind == Word ==> Char(line, s.p) != '>' && line[e.q..e.eq] == ink[e.q..e.eq]
  {
    Prefixed(line, pre, t, ink);
  }

  /** The line drawn for tokens that have room consists of them. */
  lemma {:induction false} DrawWritten(e: seq<Token>, s: Spot, ink: string, pre: string)
    requires Room(e, s).Some? && Clean(e) && Inked(e, ink) && Text(pre) && |pre| == s.p
    ensures Drawn(e, s, ink, pre, pre + Draw(Place(e, s), ink, s.p))
    decreases |e|
  {
    if e == [] {
      assert pre + Draw(Place(e, s), ink, s.p) == pre;
    } else {
      var t, s', pre' := Next(e, s, ink, pre);
      CleanRest(e, ink);
      DrawWritten(e[1..], s', ink, pre');
      DrawnStep(e, s, ink, pre, t, s', pre', pre' + Draw(Place(e[1..], s'), ink, s'.p));
    }
  }

  /** The first token and what is left. */
  lemma Next(e: seq<Token>, s: Spot, ink: string, pre: string) returns (t: Token, s': Spot, pre': string)
    requires e != [] && Room(e, s).Some? && Clean(e) && Inked(e, ink) && Text(pre) && |pre| == s.p
    ensures t == (if e[0].kind == Word then e[0] else Token(e[0].kind, s.p, s.p + 1)) && After(e[0], s) == Some(s')
    ensures t.q >= s.p && pre' == pre + Blanks(t.q - s.p) + Ink(t, ink) && Text(pre') && |pre'| == s'.p == t.eq
    ensures Room(e[1..], s').Some? && Place(e, s) == [t] + Place(e[1..], s')
    ensures pre + Draw(Place(e, s), ink, s.p) == pre' + Draw(Place(e[1..], s'), ink, s'.p)
  {
    t := if e[0].kind == Word then e[0] else Token(e[0].kind, s.p, s.p + 1);
    s' := After(e[0], s).value;
    pre' := pre + Blanks(t.q - s.p) + Ink(t, ink);
    TextGrows(pre, t, ink, s.p);
    var rest := Place(e[1..], s');
    assert Place(e, s) == [t] + rest && ([t] + rest)[1..] == rest;
    assert Draw([t] + rest, ink, s.p) == Blanks(t.q - s.p) + Ink(t, ink) + Draw(rest, ink, t.eq);
    Regroup(pre, Blanks(t.q - s.p), Ink(t, ink), Draw(rest, ink, t.eq));
  }

  lemma Regroup(a: string, b: string, c: string, d: string)
    ensures a + (b + c + d) == a + b + c + d
  {
  }

  lemma DrawnStep(e: seq<Token>, s: Spot, ink: string, pre: string, t: Token, s': Spot, pre': string, line: string)
    requires e != [] && Room(e, s).Some? && Clean(e) && Inked(e, ink) && |pre| == s.p
    requires t == (if e[0].kind == Word then e[0] else Token(e[0].kind, s.p, s.p + 1)) && After(e[0], s) == Some(s')
    requires t.q >= s.p && pre' == pre + Blanks(t.q - s.p) + Ink(t, ink) && s'.p == t.eq && Room(e[1..], s').Some?
    requires |pre'| == s'.p && Place(e, s) == [t] + Place(e[1..], s') && Drawn(e[1..], s', ink, pre', line)
    ensures Drawn(e, s, ink, pre, line)
  {
    CleanRest(e, ink);
    assert |e| > 1 ==> e[1..][0] == e[1];
    FirstShown(line, pre, e[0], t, s, ink);
    assert ([t] + Place(e[1..], s'))[1..] == Place(e[1..], s');
    forall i | 0 <= i < |e| && e[i].kind == Word ensures Copied(line, e[i], ink) {
      if i > 0 { assert e[1..][i - 1] == e[i]; }
    }
  }

  lemma TextGrows(pre: string, t: Token, ink: string, p: nat)
    requires Text(pre) && p <= t.q && forall x :: 0 <= x < |Ink(t, ink)| ==> Ink(t, ink)[x] != NUL
    ensures Text(pre + Blanks(t.q - p) + Ink(t, ink))
  {
  }

  predicate Copied(line: string, t: Token, ink: string) {
    t.q <= t.eq <= |line| && t.eq <= |ink| && line[t.q..t.eq] == ink[t.q..t.eq]
  }

  predicate Drawn(e: seq<Token>, s: Spot, ink: string, pre: string, line: string)
    requires Room(e, s).Some?
  {
    && Text(line) && Written(line, Place(e, s), s.p) && pre <= line
    && (e != [] && s.word ==> !Plain(Char(line, s.p)))
    && (e == [] ==> line == pre)
    && (e != [] && e[0].kind == Word ==> Char(line, s.p) != '>')
    && (forall i :: 0 <= i < |e| && e[i].kind == Word ==> Copied(line, e[i], ink))
  }

  // ---- Spellings are clean ----

  lemma CleanJoin(a: seq<Token>, b: seq<Token>)
    requires Clean(a) && Clean(b)
    ensures Clean(a + b)
  {
    forall i | 0 <= i < |a + b| && (a + b)[i].kind == Sym('>')
      ensures i + 1 < |a + b| && (a + b)[i + 1].kind == Word
    {
      if i < |a| { assert (a + b)[i + 1] == a[i + 1]; } else { assert (a + b)[i + 1] == b[i + 1 - |a|]; }
    }
  }

  lemma {:induction false} TowardsClean(targets: seq<Target>)
    ensures Clean(AllTowards(targets))
  {
    if targets != [] {
      TowardsClean(targets[1..]);
      CleanJoin(Towards(targets[0]), AllTowards(targets[1..]));
    }
  }

  lemma {:induction false} MixClean(args: seq<Range>, targets: seq<Target>)
    ensures Clean(Mix(args, targets))
    decreases |args| + |targets|
  {
    if args == [] {
      TowardsClean(targets);
    } else if targets == [] || args[0].q < targets[0].file.q {
      MixClean(args[1..], targets);
      CleanJoin(Named(args[0]), Mix(args[1..], targets));
    } else {
      MixClean(args, targets[1..]);
      CleanJoin(Towards(targets[0]), Mix(args, targets[1..]));
    }
  }

  lemma {:induction false} EmitClean(c: Cmd, lv: nat)
    requires lv <= 3
    ensures Clean(Emit(c, lv))
    decreases c, (Level(c) + 4 - lv) % 4
  {
    if lv == 3 {
      if Base(c).Exec? {
        MixClean(Base(c).args, Targets(c));
      } else {
        EmitClean(Base(c), 0);
        TowardsClean(Targets(c));
        CleanJoin(Punct('('), Emit(Base(c), 0));
        CleanJoin(Punct('(') + Emit(Base(c), 0), Punct(')'));
        CleanJoin(Punct('(') + Emit(Base(c), 0) + Punct(')'), AllTowards(Targets(c)));
      }
    } else if lv != Level(c) {
      EmitClean(c, lv + 1);
    } else {
      match c
      case List(d, e) => EmitClean(d, 1); EmitClean(e, 0); CleanThree(Emit(d, 1), ';', Emit(e, 0));
      case Back(d) => EmitClean(d, 1); CleanJoin(Emit(d, 1), Punct('&'));
      case Pipe(l, r) => EmitClean(l, 3); EmitClean(r, 2); CleanThree(Emit(l, 3), '|', Emit(r, 2));
    }
  }

  lemma CleanThree(a: seq<Token>, c: char, b: seq<Token>)
    requires Clean(a) && Clean(b) && c in SYMBOLS && c != '>'
    ensures Clean(a + Punct(c) + b)
  {
    CleanJoin(a, Punct(c));
    CleanJoin(a + Punct(c), b);
  }

  // ---- A command whose words leave room is read from a line ----

  /** Positions stay below the last spot. */
  lemma {:induction false} RoomBounds(e: seq<Token>, s: Spot)
    requires Room(e, s).Some?
    ensures s.p <= Room(e, s).value.p
    ensures forall i :: 0 <= i < |e| && e[i].kind == Word ==> e[i].q < e[i].eq <= Room(e, s).value.p
  {
    if e != [] {
      var s' := After(e[0], s).value;
      RoomBounds(e[1..], s');
      forall i | 0 <= i < |e| && e[i].kind == Word ensures e[i].q < e[i].eq <= Room(e, s).value.p {
        if i > 0 { assert e[1..][i - 1] == e[i]; }
      }
    }
  }

  /** The line with the letters of `ink` that spells the command. */
  function Spelling(c: Cmd, ink: string): string
    requires Fits(c)
  {
    Draw(Place(Emit(c, 0), Spot(0, false)), ink, 0)
  }

  lemma SpellingParses(c: Cmd, ink: string)
    requires Sane(c) && Fits(c) && Inked(Emit(c, 0), ink)
    ensures var line := Spelling(c, ink);
      && Text(line) && ParseCmd(line) == Ok(c, |Emit(c, 0)|)
      && forall i :: 0 <= i < |Emit(c, 0)| && Emit(c, 0)[i].kind == Word ==> Copied(line, Emit(c, 0)[i], ink)
  {
    var e, s := Emit(c, 0), Spot(0, false);
    var ts, line := Place(e, s), Spelling(c, ink);
    EmitClean(c, 0);
    DrawWritten(e, s, ink, "");
    assert "" + line == line;
    WrittenLex(line, ts, 0);
    SpellingReads(ts, c);
  }

  function Letters(n: nat): (ink: string)
    ensures |ink| == n && forall i :: 0 <= i < n ==> ink[i] == 'a'
  {
    seq(n, _ => 'a')
  }

  // ---- A line's command leaves room ----

  /** `t` plays the part of `e`; two greater-than signs do for one. */
  predicate Like(t: Token, e: Token) { Same(t, e) || (t.kind == Sym('+') && e.kind == Sym('>')) }

  /** `e` is `s` without some of its symbols. */
  predicate Thins(s: seq<Token>, e: seq<Token>)
    decreases |s|
  {
    if s == [] then e == []
    else
      || (e != [] && Like(s[0], e[0]) && Thins(s[1..], e[1..]))
      || (s[0].kind.Sym? && Thins(s[1..], e))
  }

  /** Spot `b` leaves as much room as spot `a`. */
  predicate Below(b: Spot, a: Spot) {
    b.p <= a.p && b.p + (if b.word then 1 else 0) <= a.p + (if a.word then 1 else 0)
  }

  lemma {:induction false} RoomThins(s: seq<Token>, e: seq<Token>, a: Spot, b: Spot)
    requires Thins(s, e) && Room(s, a).Some? && Below(b, a)
    ensures Room(e, b).Some? && Below(Room(e, b).value, Room(s, a).value)
    decreases |s|
  {
    if s != [] {
      var a' := After(s[0], a).value;
      if e != [] && Like(s[0], e[0]) && Thins(s[1..], e[1..]) {
        RoomThins(s[1..], e[1..], a', After(e[0], b).value);
      } else {
        RoomThins(s[1..], e, a', b);
      }
    }
  }

  /** The tokens of a line have room where they are. */
  lemma {:induction false} LexRoom(line: string, p: nat, s: Spot)
    requires p <= |line| && Text(line) && s.p <= p && (s.word ==> !Plain(Char(line, p)))
    ensures Room(Lex(line, p), s).Some?
    decreases |line| - p
  {
    var (t, next) := GetToken(line, p);
    if t.kind != End {
      LexSkip(line, t.eq);
      if t.kind == Word { FirstToken(line, p); }
      LexRoom(line, t.eq, After(t, s).value);
      assert Lex(line, p) == [t] + Lex(line, t.eq);
      assert ([t] + Lex(line, t.eq))[1..] == Lex(line, t.eq);
    }
  }
}
