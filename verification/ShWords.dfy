/** The commands of the shell as trees of words: every such tree has a line that is read as that tree. */
module ShWords {
  import opened Helpers
  import opened ShLex
  import opened ShParse
  import opened ShRoundTrip
  import opened ShImage
  import opened ShThins

  datatype Tree =
    | Call(words: seq<string>)
    | Into(cmd: Tree, file: string, mode: Mode, fd: int)
    | Both(left: Tree, right: Tree)
    | Then(left: Tree, right: Tree)
    | Later(cmd: Tree)

  function Cut(line: string, r: Range): string { if r.q <= r.eq <= |line| then line[r.q..r.eq] else "" }

  function CutAll(line: string, args: seq<Range>): (ws: seq<string>)
    ensures |ws| == |args| && forall i :: 0 <= i < |args| ==> ws[i] == Cut(line, args[i])
  {
    seq(|args|, i requires 0 <= i < |args| => Cut(line, args[i]))
  }

  /** What a command says, its ranges read from the line. */
  function Said(line: string, c: Cmd): Tree {
    match c
    case Exec(args) => Call(CutAll(line, args))
    case Redir(d, f, mode, fd) => Into(Said(line, d), Cut(line, f), mode, fd)
    case Pipe(l, r) => Both(Said(line, l), Said(line, r))
    case List(l, r) => Then(Said(line, l), Said(line, r))
    case Back(d) => Later(Said(line, d))
  }

  predicate IsWord(w: string) { w != "" && forall i :: 0 <= i < |w| ==> Plain(w[i]) }

  /** Words without white space and symbols, at most nine a call, files opened for reading as 0 or for writing as 1. */
  predicate Speakable(t: Tree) {
    match t
    case Call(words) => |words| < MAXARGS && forall i :: 0 <= i < |words| ==> IsWord(words[i])
    case Into(d, f, mode, fd) => Speakable(d) && IsWord(f) && fd == if mode == ReadOnly then 0 else 1
    case Both(l, r) => Speakable(l) && Speakable(r)
    case Then(l, r) => Speakable(l) && Speakable(r)
    case Later(d) => Speakable(d)
  }

  // ---- Seating the words ----

  /** Each word gets its place, with `gap` blanks and one more before it; the string holds all words so far. */
  function SeatWord(w: string, ink: string, gap: nat): (Range, string) {
    (Range(|ink| + gap + 1, |ink| + gap + 1 + |w|), ink + Blanks(gap + 1) + w)
  }

  function SeatAll(words: seq<string>, ink: string, gap: nat): (r: (seq<Range>, string))
    ensures |r.0| == |words|
  {
    if words == [] then ([], ink) else
      var (rest, ink1) := SeatAll(words[..|words| - 1], ink, gap);
      var (last, ink2) := SeatWord(words[|words| - 1], ink1, gap);
      (rest + [last], ink2)
  }

  function Seat(t: Tree, ink: string, gap: nat): (Cmd, string) {
    match t
    case Call(words) => var (args, ink') := SeatAll(words, ink, gap); (Exec(args), ink')
    case Into(d, f, mode, fd) =>
      var (c, ink1) := Seat(d, ink, gap);
      var (r, ink2) := SeatWord(f, ink1, gap);
      (Redir(c, r, mode, fd), ink2)
    case Both(l, r) =>
      var (c, ink1) := Seat(l, ink, gap);
      var (d, ink2) := Seat(r, ink1, gap);
      (Pipe(c, d), ink2)
    case Then(l, r) =>
      var (c, ink1) := Seat(l, ink, gap);
      var (d, ink2) := Seat(r, ink1, gap);
      (List(c, d), ink2)
    case Later(d) => var (c, ink') := Seat(d, ink, gap); (Back(c), ink')
  }

  /** A seated word: in the string from `lo` on, and plain. */
  predicate Seated(r: Range, lo: nat, ink: string) {
    lo < r.q < r.eq <= |ink| && forall x :: r.q <= x < r.eq ==> Plain(ink[x])
  }

  lemma {:induction false} WordSeated(w: string, ink: string, gap: nat, line: string)
    requires IsWord(w) && SeatWord(w, ink, gap).1 <= line
    ensures var (r, ink') := SeatWord(w, ink, gap); ink <= line && Seated(r, |ink|, line) && Cut(line, r) == w
  {
    var (r, ink') := SeatWord(w, ink, gap);
    assert forall x :: 0 <= x < |ink'| ==> line[x] == ink'[x];
    forall x | r.q <= x < r.eq ensures line[x] == w[x - r.q] {
    }
    assert line[r.q..r.eq] == w;
  }

  lemma {:induction false} AllSeated(words: seq<string>, ink: string, gap: nat, line: string)
    requires (forall i :: 0 <= i < |words| ==> IsWord(words[i])) && SeatAll(words, ink, gap).1 <= line
    ensures var args := SeatAll(words, ink, gap).0; ink <= line && CutAll(line, args) == words
    ensures forall i :: 0 <= i < |words| ==> Seated(SeatAll(words, ink, gap).0[i], |ink|, line)
    ensures |ink| <= |SeatAll(words, ink, gap).1|
  {
    if words != [] {
      var n := |words| - 1;
      var (rest, ink1) := SeatAll(words[..n], ink, gap);
      WordSeated(words[n], ink1, gap, line);
      AllSeated(words[..n], ink, gap, line);
      var args := SeatAll(words, ink, gap).0;
      forall i | 0 <= i < |words| ensures Seated(args[i], |ink|, line) && Cut(line, args[i]) == words[i] {
        if i < n {
          assert args[i] == rest[i] && words[..n][i] == words[i];
          assert CutAll(line, rest)[i] == words[i];
        }
      }
    }
  }

  /** Seating a tree: every word is in its place, and what the command says is the tree. */
  lemma {:induction false} TreeSeated(t: Tree, ink: string, gap: nat, line: string)
    requires Speakable(t) && Seat(t, ink, gap).1 <= line
    ensures var (c, ink') := Seat(t, ink, gap); ink <= line && |ink| <= |ink'| && Said(line, c) == t && Sane(c)
    ensures forall r :: r in Ranges(Seat(t, ink, gap).0) ==> Seated(r, |ink|, line)
    decreases t
  {
    match t
    case Call(words) => AllSeated(words, ink, gap, line);
    case Into(d, f, mode, fd) =>
      var (c, ink1) := Seat(d, ink, gap);
      WordSeated(f, ink1, gap, line);
      TreeSeated(d, ink, gap, line);
    case Both(l, r) =>
      TreeSeated(r, Seat(l, ink, gap).1, gap, line);
      TreeSeated(l, ink, gap, line);
    case Then(l, r) =>
      TreeSeated(r, Seat(l, ink, gap).1, gap, line);
      TreeSeated(l, ink, gap, line);
    case Later(d) => TreeSeated(d, ink, gap, line);
  }

  // ---- Room between the seats ----

  function Syms(e: seq<Token>): nat { if e == [] then 0 else Syms(e[1..]) + if e[0].kind == Word then 0 else 1 }

  /** Before every word there are more than `gap` free positions. */
  predicate Gappy(e: seq<Token>, p: nat, gap: nat) {
    e == [] ||
    if e[0].kind == Word then p + gap < e[0].q < e[0].eq && Gappy(e[1..], e[0].eq, gap) else Gappy(e[1..], p, gap)
  }

  /** The end of the last word. */
  function Reach(e: seq<Token>, p: nat): nat {
    if e == [] then p else Reach(e[1..], if e[0].kind == Word then e[0].eq else p)
  }

  lemma {:induction false} GappyRoom(e: seq<Token>, s: Spot, p: nat, gap: nat)
    requires Gappy(e, p, gap) && Syms(e) <= gap && s.p + Syms(e) <= p + gap
    ensures Room(e, s).Some?
    decreases |e|
  {
    if e != [] {
      var s' := After(e[0], s).value;
      GappyRoom(e[1..], s', if e[0].kind == Word then e[0].eq else p, gap);
    }
  }

  lemma {:induction false} GappyJoin(a: seq<Token>, b: seq<Token>, p: nat, gap: nat)
    requires Gappy(a, p, gap) && Gappy(b, Reach(a, p), gap)
    ensures Gappy(a + b, p, gap) && Reach(a + b, p) == Reach(b, Reach(a, p))
    decreases |a|
  {
    if a == [] {
      assert a + b == b;
    } else {
      assert (a + b)[1..] == a[1..] + b;
      GappyJoin(a[1..], b, if a[0].kind == Word then a[0].eq else p, gap);
    }
  }

  lemma {:induction false} SymsJoin(a: seq<Token>, b: seq<Token>)
    ensures Syms(a + b) == Syms(a) + Syms(b)
    decreases |a|
  {
    if a == [] {
      assert a + b == b;
    } else {
      assert (a + b)[1..] == a[1..] + b;
      SymsJoin(a[1..], b);
    }
  }

  lemma {:induction false} GappyPunct(a: seq<Token>, c: char, p: nat, gap: nat)
    requires Gappy(a, p, gap)
    ensures Gappy(a + Punct(c), p, gap) && Reach(a + Punct(c), p) == Reach(a, p)
    ensures Gappy(Punct(c) + a, p, gap) && Reach(Punct(c) + a, p) == Reach(a, p)
  {
    assert Punct(c)[1..] == [];
    GappyJoin(a, Punct(c), p, gap);
    GappyJoin(Punct(c), a, p, gap);
  }

  /** The spelling of a seated tree has its gaps. */
  lemma {:induction false} SeatGappy(t: Tree, ink: string, gap: nat, lv: nat)
    requires Speakable(t) && lv <= 3
    ensures var (c, ink') := Seat(t, ink, gap);
      Gappy(Emit(c, lv), |ink|, gap) && Reach(Emit(c, lv), |ink|) == |ink'|
    decreases t, (Level(Seat(t, ink, gap).0) + 4 - lv) % 4
  {
    var (c, ink') := Seat(t, ink, gap);
    if lv < Level(c) {
      SeatGappy(t, ink, gap, lv + 1);
    } else if Level(c) < lv < 3 {
      SeatGappy(t, ink, gap, lv + 1);
    } else if Level(c) < lv {
      SeatGappy(t, ink, gap, 0);
      Levels(c, 3);
      GappyPunct(Emit(c, 0), '(', |ink|, gap);
      GappyPunct(Punct('(') + Emit(c, 0), ')', |ink|, gap);
    } else {
      match t
      case Call(words) => CallGappy(words, ink, gap);
      case Into(d, f, mode, fd) =>
        SeatGappy(d, ink, gap, 3);
        IntoGappy(d, f, mode, fd, ink, gap);
      case Both(l, r) =>
        SeatGappy(l, ink, gap, 3);
        SeatGappy(r, Seat(l, ink, gap).1, gap, 2);
        PairGappy(Emit(Seat(l, ink, gap).0, 3), '|', Emit(Seat(r, Seat(l, ink, gap).1, gap).0, 2), |ink|, gap);
      case Then(l, r) =>
        SeatGappy(l, ink, gap, 1);
        SeatGappy(r, Seat(l, ink, gap).1, gap, 0);
        PairGappy(Emit(Seat(l, ink, gap).0, 1), ';', Emit(Seat(r, Seat(l, ink, gap).1, gap).0, 0), |ink|, gap);
      case Later(d) =>
        SeatGappy(d, ink, gap, 1);
        GappyPunct(Emit(Seat(d, ink, gap).0, 1), '&', |ink|, gap);
    }
  }

  lemma {:induction false} PairGappy(a: seq<Token>, c: char, b: seq<Token>, p: nat, gap: nat)
    requires Gappy(a, p, gap) && Gappy(b, Reach(a, p), gap)
    ensures Gappy(a + Punct(c) + b, p, gap) && Reach(a + Punct(c) + b, p) == Reach(b, Reach(a, p))
  {
    GappyPunct(a, c, p, gap);
    GappyJoin(a + Punct(c), b, p, gap);
  }

  lemma {:induction false} OneGappy(w: string, ink: string, gap: nat)
    requires IsWord(w)
    ensures var (r, ink') := SeatWord(w, ink, gap); Gappy(Named(r), |ink|, gap) && Reach(Named(r), |ink|) == |ink'|
  {
    var r := SeatWord(w, ink, gap).0;
    assert Named(r)[1..] == [];
  }

  lemma {:induction false} MixArgs(args: seq<Range>, r: Range)
    ensures Mix(args + [r], []) == Mix(args, []) + Named(r)
    decreases |args|
  {
    if args == [] {
      assert args + [r] == [r] && [r][1..] == [];
    } else {
      assert (args + [r])[1..] == args[1..] + [r] && (args + [r])[0] == args[0];
      MixArgs(args[1..], r);
      Assoc(Named(args[0]), Mix(args[1..], []), Named(r));
    }
  }

  lemma {:induction false} CallGappy(words: seq<string>, ink: string, gap: nat)
    requires forall i :: 0 <= i < |words| ==> IsWord(words[i])
    ensures var (args, ink') := SeatAll(words, ink, gap);
      Gappy(Mix(args, []), |ink|, gap) && Reach(Mix(args, []), |ink|) == |ink'|
    decreases |words|
  {
    if words != [] {
      var n := |words| - 1;
      CallGappy(words[..n], ink, gap);
      var (rest, ink1) := SeatAll(words[..n], ink, gap);
      var r := SeatWord(words[n], ink1, gap).0;
      OneGappy(words[n], ink1, gap);
      MixArgs(rest, r);
      GappyJoin(Mix(rest, []), Named(r), |ink|, gap);
    }
  }

  lemma {:induction false} IntoGappy(d: Tree, f: string, mode: Mode, fd: int, ink: string, gap: nat)
    requires Speakable(Into(d, f, mode, fd))
    requires var (c, ink1) := Seat(d, ink, gap); Gappy(Emit(c, 3), |ink|, gap) && Reach(Emit(c, 3), |ink|) == |ink1|
    ensures var (c, ink') := Seat(Into(d, f, mode, fd), ink, gap);
      Gappy(Emit(c, 3), |ink|, gap) && Reach(Emit(c, 3), |ink|) == |ink'|
  {
    var (c, ink1) := Seat(d, ink, gap);
    var r := SeatWord(f, ink1, gap).0;
    var t := Target(r, mode, fd);
    TreeSeated(d, ink, gap, ink1);
    forall i, j | Base(c).Exec? && 0 <= i < |Base(c).args| && 0 <= j < |[t]| ensures Base(c).args[i].q < [t][j].file.q {
      BaseWords(c, i);
    }
    EmitWrap(c, [t]);
    assert [t][..0] == [] && Wrap(c, [t]) == Redir(c, r, mode, fd);
    OneGappy(f, ink1, gap);
    GappyPunct(Named(r), Arrow(t), |ink1|, gap);
    assert AllTowards([t]) == Towards(t) + [] == Towards(t) by { assert [t][1..] == []; }
    GappyJoin(Emit(c, 3), Towards(t), |ink|, gap);
  }

  // ---- How many symbols a command needs ----

  function Nodes(c: Cmd): nat {
    match c
    case Exec(_) => 1
    case Redir(d, _, _, _) => Nodes(d) + 1
    case Pipe(l, r) => Nodes(l) + Nodes(r) + 1
    case List(l, r) => Nodes(l) + Nodes(r) + 1
    case Back(d) => Nodes(d) + 1
  }

  lemma {:induction false} TowardsSyms(targets: seq<Target>)
    ensures Syms(AllTowards(targets)) == |targets|
  {
    if targets != [] {
      TowardsSyms(targets[1..]);
      OneTargetSyms(targets[0]);
      SymsJoin(Towards(targets[0]), AllTowards(targets[1..]));
    }
  }

  lemma {:induction false} OneTargetSyms(t: Target)
    ensures Syms(Towards(t)) == 1
  {
    assert Punct(Arrow(t))[1..] == [] && Named(t.file)[1..] == [];
    SymsJoin(Punct(Arrow(t)), Named(t.file));
  }

  lemma {:induction false} MixSyms(args: seq<Range>, targets: seq<Target>)
    ensures Syms(Mix(args, targets)) == |targets|
    decreases |args| + |targets|
  {
    if args == [] {
      TowardsSyms(targets);
    } else if targets == [] || args[0].q < targets[0].file.q {
      MixSyms(args[1..], targets);
      assert Named(args[0])[1..] == [];
      SymsJoin(Named(args[0]), Mix(args[1..], targets));
    } else {
      MixSyms(args, targets[1..]);
      OneTargetSyms(targets[0]);
      SymsJoin(Towards(targets[0]), Mix(args, targets[1..]));
    }
  }

  lemma {:induction false} BaseNodes(c: Cmd)
    ensures Nodes(c) == Nodes(Base(c)) + |Targets(c)|
  {
    if c.Redir? { BaseNodes(c.cmd); }
  }

  lemma {:induction false} PunctSyms(a: seq<Token>, c: char, b: seq<Token>)
    ensures Syms(a + Punct(c) + b) == Syms(a) + 1 + Syms(b)
  {
    assert Punct(c)[1..] == [];
    SymsJoin(a, Punct(c));
    SymsJoin(a + Punct(c), b);
  }

  /** Two parentheses and a symbol for every node are enough. */
  lemma {:induction false} EmitSyms(c: Cmd, lv: nat)
    requires lv <= 3
    ensures Syms(Emit(c, lv)) <= 3 * Nodes(c) && (lv <= Level(c) ==> Syms(Emit(c, lv)) <= 3 * Nodes(c) - 2)
    decreases c, (Level(c) + 4 - lv) % 4
  {
    if lv == 3 {
      BaseNodes(c);
      if Base(c).Exec? {
        MixSyms(Base(c).args, Targets(c));
      } else {
        EmitSyms(Base(c), 0);
        var block := Punct('(') + Emit(Base(c), 0);
        TowardsSyms(Targets(c));
        PunctSyms([], '(', Emit(Base(c), 0));
        assert [] + Punct('(') + Emit(Base(c), 0) == block;
        PunctSyms(block, ')', AllTowards(Targets(c)));
      }
    } else if lv != Level(c) {
      EmitSyms(c, lv + 1);
    } else {
      match c
      case List(d, e) => EmitSyms(d, 1); EmitSyms(e, 0); PunctSyms(Emit(d, 1), ';', Emit(e, 0));
      case Back(d) => EmitSyms(d, 1); PunctSyms(Emit(d, 1), '&', []); assert Emit(d, 1) + Punct('&') + [] == Emit(c, 1);
      case Pipe(l, r) => EmitSyms(l, 3); EmitSyms(r, 2); PunctSyms(Emit(l, 3), '|', Emit(r, 2));
    }
  }

  function Size(t: Tree): nat {
    match t
    case Call(_) => 1
    case Into(d, _, _, _) => Size(d) + 1
    case Both(l, r) => Size(l) + Size(r) + 1
    case Then(l, r) => Size(l) + Size(r) + 1
    case Later(d) => Size(d) + 1
  }

  lemma {:induction false} SeatNodes(t: Tree, ink: string, gap: nat)
    ensures Nodes(Seat(t, ink, gap).0) == Size(t)
    decreases t
  {
    match t
    case Call(_) =>
    case Into(d, _, _, _) => SeatNodes(d, ink, gap);
    case Both(l, r) => SeatNodes(l, ink, gap); SeatNodes(r, Seat(l, ink, gap).1, gap);
    case Then(l, r) => SeatNodes(l, ink, gap); SeatNodes(r, Seat(l, ink, gap).1, gap);
    case Later(d) => SeatNodes(d, ink, gap);
  }

  // ---- The theorems ----

  /** The line that spells the tree. */
  function LineOf(t: Tree): string {
    var (c, ink) := Seat(t, "", 3 * Size(t));
    if Fits(c) then Spelling(c, ink) else ""
  }

  lemma {:induction false} SeatFits(t: Tree)
    requires Speakable(t)
    ensures var (c, ink) := Seat(t, "", 3 * Size(t)); Sane(c) && Fits(c) && Said(ink, c) == t && Inked(Emit(c, 0), ink)
  {
    var gap := 3 * Size(t);
    var (c, ink) := Seat(t, "", gap);
    TreeSeated(t, "", gap, ink);
    SeatGappy(t, "", gap, 0);
    SeatNodes(t, "", gap);
    EmitSyms(c, 0);
    GappyRoom(Emit(c, 0), Spot(0, false), 0, gap);
    EmitInked(c, ink);
  }

  /** The words of a spelling are the words of the command. */
  lemma {:induction false} EmitInked(c: Cmd, ink: string)
    requires Sane(c) && forall r :: r in Ranges(c) ==> Seated(r, 0, ink)
    ensures Inked(Emit(c, 0), ink)
  {
    var e := Emit(c, 0);
    SpellingReads(e, c);
    ParseLineWords(e, 0);
    forall i | 0 <= i < |e| && e[i].kind == Word
      ensures e[i].q < e[i].eq <= |ink| && forall x :: e[i].q <= x < e[i].eq ==> Plain(ink[x])
    {
      WordCounted(e, 0, i, |e|);
      assert Seated(RangeOf(e[i]), 0, ink);
    }
  }

  lemma {:induction false} WordCounted(ts: seq<Token>, a: nat, k: nat, b: nat)
    requires a <= k < b <= |ts| && ts[k].kind == Word
    ensures RangeOf(ts[k]) in Words(ts, a, b)
    decreases b - k
  {
    if k < b - 1 { WordCounted(ts, a, k, b - 1); }
  }

  /** Two strings that agree on the words of a command say the same with it. */
  lemma {:induction false} SaidSame(c: Cmd, line: string, ink: string)
    requires forall r :: r in Ranges(c) ==> Cut(line, r) == Cut(ink, r)
    ensures Said(line, c) == Said(ink, c)
  {
    match c
    case Exec(args) => assert CutAll(line, args) == CutAll(ink, args);
    case Redir(d, f, _, _) => SaidSame(d, line, ink);
    case Pipe(l, r) => SaidSame(l, line, ink); SaidSame(r, line, ink);
    case List(l, r) => SaidSame(l, line, ink); SaidSame(r, line, ink);
    case Back(d) => SaidSame(d, line, ink);
  }

  /** The line of a tree is accepted, and what the parser makes of it says the tree. */
  lemma {:induction false} RoundTrip(t: Tree)
    requires Speakable(t)
    ensures var line := LineOf(t); Text(line) && ParseCmd(line).Ok? && Said(line, ParseCmd(line).value) == t
  {
    SeatFits(t);
    var (c, ink) := Seat(t, "", 3 * Size(t));
    var line, e := LineOf(t), Emit(c, 0);
    SpellingParses(c, ink);
    SpellingReads(e, c);
    ParseLineWords(e, 0);
    forall r | r in Ranges(c) ensures Cut(line, r) == Cut(ink, r) {
      var k := WordIn(e, 0, |e|, r);
      assert Copied(line, e[k], ink);
    }
    SaidSame(c, line, ink);
  }

  /** What an accepted line says has words without white space and symbols, at most nine a call. */
  lemma {:induction false} SaidSpeakable(line: string, c: Cmd)
    requires Sane(c) && forall r :: r in Ranges(c) ==> WordAt(line, Token(Word, r.q, r.eq))
    ensures Speakable(Said(line, c))
  {
    match c
    case Exec(args) => WordsSpeakable(line, args);
    case Redir(d, f, _, _) => SaidSpeakable(line, d);
    case Pipe(l, r) => SaidSpeakable(line, l); SaidSpeakable(line, r);
    case List(l, r) => SaidSpeakable(line, l); SaidSpeakable(line, r);
    case Back(d) => SaidSpeakable(line, d);
  }

  predicate Says(line: string, t: Tree) { Text(line) && ParseCmd(line).Ok? && Said(line, ParseCmd(line).value) == t }

  lemma WordsSpeakable(line: string, args: seq<Range>)
    requires forall r :: r in multiset(args) ==> WordAt(line, Token(Word, r.q, r.eq))
    ensures forall i :: 0 <= i < |args| ==> IsWord(CutAll(line, args)[i])
  {
    forall i | 0 <= i < |args| ensures IsWord(Cut(line, args[i])) { assert args[i] in multiset(args); }
  }

  /** The trees that some line says are exactly those of words without white space and symbols, at most nine a call,
      with files opened for reading as 0 or for writing as 1. */
  lemma {:induction false} SpeakableIff(t: Tree)
    ensures Speakable(t) <==> exists line: string :: Says(line, t)
  {
    if Speakable(t) {
      RoundTrip(t);
      assert Says(LineOf(t), t);
    }
    if line: string :| Says(line, t) {
      var c := ParseCmd(line).value;
      ParsedFits(line);
      forall r | r in Ranges(c) ensures WordAt(line, Token(Word, r.q, r.eq)) { StringIsWord(line, r); }
      SaidSpeakable(line, c);
    }
  }
}
