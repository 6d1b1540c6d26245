/** Whatever line a command was read from, its spelling is in that line's tokens; so the parser builds exactly the
    commands whose words leave room for their symbols. */
module ShThins {
  import opened ShLex
  import opened ShParse
  import opened ShRoundTrip
  import opened ShImage

  // ---- Leaving out symbols ----

  lemma {:induction false} ThinsJoin(s1: seq<Token>, e1: seq<Token>, s2: seq<Token>, e2: seq<Token>)
    requires Thins(s1, e1) && Thins(s2, e2)
    ensures Thins(s1 + s2, e1 + e2)
    decreases |s1|
  {
    if s1 == [] {
      assert s1 + s2 == s2 && e1 + e2 == e2;
    } else {
      assert (s1 + s2)[1..] == s1[1..] + s2;
      if e1 != [] && Like(s1[0], e1[0]) && Thins(s1[1..], e1[1..]) {
        ThinsJoin(s1[1..], e1[1..], s2, e2);
        assert (e1 + e2)[1..] == e1[1..] + e2;
      } else {
        ThinsJoin(s1[1..], e1, s2, e2);
      }
    }
  }

  lemma {:induction false} ThinsSelf(s: seq<Token>)
    ensures Thins(s, s)
  {
    if s != [] { ThinsSelf(s[1..]); }
  }

  lemma {:induction false} ThinsTwice(s: seq<Token>, e: seq<Token>, d: seq<Token>)
    requires Thins(s, e) && Thins(e, d)
    ensures Thins(s, d)
    decreases |s| + |e|
  {
    if s != [] {
      if e != [] && Like(s[0], e[0]) && Thins(s[1..], e[1..]) {
        if d != [] && Like(e[0], d[0]) && Thins(e[1..], d[1..]) {
          ThinsTwice(s[1..], e[1..], d[1..]);
        } else {
          ThinsTwice(s[1..], e[1..], d);
        }
      } else {
        ThinsTwice(s[1..], e, d);
      }
    }
  }

  lemma {:induction false} ThinsOne(t: Token, e: Token)
    requires Like(t, e)
    ensures Thins([t], [e])
  {
    assert [t][1..] == [] && [e][1..] == [];
  }

  lemma {:induction false} ThinsNone(t: Token)
    requires t.kind.Sym?
    ensures Thins([t], [])
  {
    assert [t][1..] == [];
  }

  /** Parentheses round something that does not need them. */
  lemma {:induction false} ThinsInside(open: Token, s: seq<Token>, close: Token, e: seq<Token>)
    requires open.kind.Sym? && close.kind.Sym? && Thins(s, e)
    ensures Thins([open] + s + [close], e)
  {
    ThinsNone(open);
    ThinsNone(close);
    ThinsJoin([open], [], s, e);
    ThinsJoin([open] + s, [] + e, [close], []);
    assert [] + e + [] == e;
  }

  lemma {:induction false} ThinsBlock(open: Token, s: seq<Token>, close: Token, e: seq<Token>)
    requires open.kind == Sym('(') && close.kind == Sym(')') && Thins(s, e)
    ensures Thins([open] + s + [close], Punct('(') + e + Punct(')'))
  {
    ThinsOne(open, Token(Sym('('), 0, 0));
    ThinsOne(close, Token(Sym(')'), 0, 0));
    ThinsJoin([open], Punct('('), s, e);
    ThinsJoin([open] + s, Punct('(') + e, [close], Punct(')'));
  }

  /** Two commands with a symbol between them. */
  lemma {:induction false} ThinsThree(s1: seq<Token>, e1: seq<Token>, t: Token, c: char, s2: seq<Token>, e2: seq<Token>)
    requires Thins(s1, e1) && t.kind == Sym(c) && Thins(s2, e2)
    ensures Thins(s1 + [t] + s2, e1 + Punct(c) + e2)
  {
    ThinsOne(t, Token(Sym(c), 0, 0));
    ThinsJoin(s1, e1, [t], Punct(c));
    ThinsJoin(s1 + [t], e1 + Punct(c), s2, e2);
  }

  // ---- Where the words come from ----

  /** Words stand in the order of the tokens. */
  predicate Ordered(ts: seq<Token>) {
    forall i, j :: 0 <= i < j < |ts| && ts[i].kind == Word && ts[j].kind == Word ==> ts[i].q < ts[j].q
  }

  predicate IsAt(ts: seq<Token>, j: nat, r: Range) { j < |ts| && ts[j].kind == Word && RangeOf(ts[j]) == r }

  /** `r` is a word among the tokens from `a` to `b`. */
  predicate From(ts: seq<Token>, a: nat, b: nat, r: Range) { exists j :: a <= j < b && IsAt(ts, j, r) }

  lemma {:induction false} Earlier(ts: seq<Token>, a: nat, b: nat, r: Range, c: nat, d: nat, r': Range)
    requires Ordered(ts) && From(ts, a, b, r) && b <= c && From(ts, c, d, r')
    ensures r.q < r'.q
  {
    var i :| a <= i < b && IsAt(ts, i, r);
    var j :| c <= j < d && IsAt(ts, j, r');
  }

  lemma {:induction false} FromMore(ts: seq<Token>, a: nat, b: nat, a': nat, b': nat, r: Range)
    requires From(ts, a, b, r) && a' <= a && b <= b'
    ensures From(ts, a', b', r)
  {
    var j :| a <= j < b && IsAt(ts, j, r);
    assert a' <= j < b' && IsAt(ts, j, r);
  }

  predicate ArgsFrom(ts: seq<Token>, a: nat, b: nat, args: seq<Range>) {
    forall i :: 0 <= i < |args| ==> From(ts, a, b, args[i])
  }

  predicate TargetsFrom(ts: seq<Token>, a: nat, b: nat, targets: seq<Target>) {
    forall i :: 0 <= i < |targets| ==> From(ts, a, b, targets[i].file)
  }

  // ---- Mixing in order ----

  lemma {:induction false} TowardsConcat(a: seq<Target>, b: seq<Target>)
    ensures AllTowards(a + b) == AllTowards(a) + AllTowards(b)
  {
    if a == [] {
      assert a + b == b && AllTowards(a) + AllTowards(b) == AllTowards(b);
    } else {
      TowardsConcat(a[1..], b);
      assert (a + b)[1..] == a[1..] + b && (a + b)[0] == a[0];
      Assoc(Towards(a[0]), AllTowards(a[1..]), AllTowards(b));
    }
  }

  lemma {:induction false} Assoc<T>(x: seq<T>, y: seq<T>, z: seq<T>)
    ensures x + (y + z) == x + y + z
  {
  }

  /** Redirections that come before all arguments. */
  lemma {:induction false} MixFirst(more: seq<Target>, args: seq<Range>, targets: seq<Target>)
    requires forall i, j :: 0 <= i < |more| && 0 <= j < |args| ==> more[i].file.q < args[j].q
    ensures Mix(args, more + targets) == AllTowards(more) + Mix(args, targets)
    decreases |more|
  {
    if args == [] {
      TowardsConcat(more, targets);
    } else if more == [] {
      assert more + targets == targets;
    } else {
      assert !(args[0].q < (more + targets)[0].file.q);
      assert (more + targets)[1..] == more[1..] + targets;
      MixFirst(more[1..], args, targets);
    }
  }

  /** Redirections that come after all arguments. */
  lemma {:induction false} MixLast(args: seq<Range>, targets: seq<Target>, more: seq<Target>)
    requires forall i, j :: 0 <= i < |args| && 0 <= j < |more| ==> args[i].q < more[j].file.q
    ensures Mix(args, targets + more) == Mix(args, targets) + AllTowards(more)
    decreases |args| + |targets|
  {
    if args == [] {
      TowardsConcat(targets, more);
    } else if targets == [] {
      assert targets + more == more;
      MixLast(args[1..], [], more);
      assert [] + more == more;
      assert more == [] || args[0].q < more[0].file.q;
    } else {
      assert (targets + more)[0] == targets[0] && (targets + more)[1..] == targets[1..] + more;
      if args[0].q < targets[0].file.q {
        MixLast(args[1..], targets, more);
      } else {
        MixLast(args, targets[1..], more);
      }
    }
  }

  // ---- Simple commands ----

  lemma {:induction false} RedirsThins(ts: seq<Token>, k: nat)
    requires k <= |ts| && Redirs(ts, k).Ok?
    ensures var r := Redirs(ts, k); Thins(ts[k..r.k], AllTowards(r.value)) && TargetsFrom(ts, k, r.k, r.value)
    decreases |ts| - k
  {
    var r := Redirs(ts, k);
    if Starts(KindAt(ts, k), {'<', '>'}) {
      RedirsThins(ts, k + 2);
      var rest := Redirs(ts, k + 2);
      var t := r.value[0];
      assert r.value == [t] + rest.value && r.value[1..] == rest.value;
      ThinsOne(ts[k], Token(Sym(Arrow(t)), 0, 0));
      ThinsOne(ts[k + 1], Token(Word, t.file.q, t.file.eq));
      ThinsJoin([ts[k]], Punct(Arrow(t)), [ts[k + 1]], Named(t.file));
      ThinsJoin([ts[k]] + [ts[k + 1]], Towards(t), ts[k + 2..r.k], AllTowards(rest.value));
      CutAt(ts, k, k + 1, r.k);
      assert ts[k..k + 1] == [ts[k]];
      assert IsAt(ts, k + 1, t.file);
      forall i | 0 <= i < |r.value| ensures From(ts, k, r.k, r.value[i].file) {
        if i > 0 { FromMore(ts, k + 2, r.k, k, r.k, rest.value[i - 1].file); }
      }
    } else {
      assert ts[k..k] == [];
    }
  }

  /** What the loop of parseexec adds to the arguments and redirections so far. */
  lemma {:induction false} ExecThins(ts: seq<Token>, k: nat, args0: seq<Range>, targets0: seq<Target>, c: Cmd, end: nat)
    returns (args: seq<Range>, targets: seq<Target>)
    requires k <= end <= |ts| && Ordered(ts) && ExecLoop(ts, k, args0, targets0) == Ok(c, end)
    ensures c == Wrap(Exec(args0 + args), targets0 + targets) && Thins(ts[k..end], Mix(args, targets))
    ensures ArgsFrom(ts, k, end, args) && TargetsFrom(ts, k, end, targets)
    decreases |ts| - k
  {
    if Starts(KindAt(ts, k), {'|', ')', '&', ';'}) || KindAt(ts, k) == End {
      args, targets := [], [];
      assert args0 + [] == args0 && targets0 + [] == targets0 && ts[k..k] == [];
    } else {
      var w, more, k1 := ExecTurn(ts, k, args0, targets0, c, end);
      var args', targets' := ExecThins(ts, k1, args0 + [w], targets0 + more, c, end);
      args, targets := [w] + args', more + targets';
      Regrouped(args0, w, args', targets0, more, targets');
      MixTurn(ts, k, w, k1, end, more, args', targets');
    }
  }

  lemma {:induction false} Regrouped(a: seq<Range>, w: Range, b: seq<Range>, x: seq<Target>, y: seq<Target>,
      z: seq<Target>)
    ensures a + [w] + b == a + ([w] + b) && x + y + z == x + (y + z)
  {
  }

  /** A word and the redirections behind it. */
  lemma {:induction false} ExecTurn(ts: seq<Token>, k: nat, args0: seq<Range>, targets0: seq<Target>, c: Cmd, end: nat)
    returns (w: Range, more: seq<Target>, k1: nat)
    requires k <= |ts| && ExecLoop(ts, k, args0, targets0) == Ok(c, end)
    requires !(Starts(KindAt(ts, k), {'|', ')', '&', ';'}) || KindAt(ts, k) == End)
    ensures k < k1 <= end <= |ts| && IsAt(ts, k, w) && ExecLoop(ts, k1, args0 + [w], targets0 + more) == Ok(c, end)
    ensures Thins(ts[k + 1..k1], AllTowards(more)) && TargetsFrom(ts, k + 1, k1, more)
  {
    var r := Redirs(ts, k + 1);
    w, more, k1 := RangeOf(ts[k]), r.value, r.k;
    RedirsThins(ts, k + 1);
  }

  /** One turn of that loop. */
  lemma {:induction false} MixTurn(ts: seq<Token>, k: nat, w: Range, k1: nat, end: nat, more: seq<Target>,
      args: seq<Range>, targets: seq<Target>)
    requires Ordered(ts) && k < k1 <= end <= |ts| && IsAt(ts, k, w)
    requires Thins(ts[k + 1..k1], AllTowards(more)) && TargetsFrom(ts, k + 1, k1, more)
    requires Thins(ts[k1..end], Mix(args, targets)) && ArgsFrom(ts, k1, end, args) && TargetsFrom(ts, k1, end, targets)
    ensures Thins(ts[k..end], Mix([w] + args, more + targets))
    ensures ArgsFrom(ts, k, end, [w] + args) && TargetsFrom(ts, k, end, more + targets)
  {
    assert From(ts, k, k + 1, w);
    forall i, j | 0 <= i < |more| && 0 <= j < |args| ensures more[i].file.q < args[j].q {
      Earlier(ts, k + 1, k1, more[i].file, k1, end, args[j]);
    }
    MixFirst(more, args, targets);
    TurnFrom(ts, k, w, k1, end, more, args, targets);
    assert ([w] + args)[1..] == args && ([w] + args)[0] == w;
    if more + targets != [] { Earlier(ts, k, k + 1, w, k + 1, end, (more + targets)[0].file); }
    ThinsOne(ts[k], Token(Word, w.q, w.eq));
    ThinsJoin(ts[k + 1..k1], AllTowards(more), ts[k1..end], Mix(args, targets));
    ThinsJoin([ts[k]], Named(w), ts[k + 1..k1] + ts[k1..end], AllTowards(more) + Mix(args, targets));
    Cut(ts, k, k1, end);
  }

  lemma {:induction false} SliceJoin<T>(s: seq<T>, a: nat, b: nat, c: nat)
    requires a <= b <= c <= |s|
    ensures s[a..c] == s[a..b] + s[b..c]
  {
    var l, x, y := s[a..c], s[a..b], s[b..c];
    forall i | 0 <= i < |l| ensures l[i] == (x + y)[i] {
      assert l[i] == s[a + i];
      if i < b - a { assert x[i] == s[a + i]; } else { assert y[i - (b - a)] == s[b + (i - (b - a))]; }
    }
  }

  lemma {:induction false} Cut<T>(s: seq<T>, a: nat, b: nat, c: nat)
    requires a < b <= c <= |s|
    ensures s[a..c] == [s[a]] + (s[a + 1..b] + s[b..c])
  {
    SliceJoin(s, a, a + 1, c);
    SliceJoin(s, a + 1, b, c);
    assert s[a..a + 1] == [s[a]];
  }

  /** Around one element. */
  lemma {:induction false} CutAt<T>(s: seq<T>, a: nat, b: nat, c: nat)
    requires a <= b < c <= |s|
    ensures s[a..c] == s[a..b] + [s[b]] + s[b + 1..c]
  {
    SliceJoin(s, a, b + 1, c);
    SliceJoin(s, a, b, b + 1);
    assert s[b..b + 1] == [s[b]];
  }

  lemma {:induction false} TurnFrom(ts: seq<Token>, k: nat, w: Range, k1: nat, end: nat, more: seq<Target>,
      args: seq<Range>, targets: seq<Target>)
    requires k < k1 <= end <= |ts| && IsAt(ts, k, w) && TargetsFrom(ts, k + 1, k1, more)
    requires ArgsFrom(ts, k1, end, args) && TargetsFrom(ts, k1, end, targets)
    ensures ArgsFrom(ts, k, end, [w] + args) && TargetsFrom(ts, k + 1, end, more + targets)
    ensures TargetsFrom(ts, k, end, more + targets)
  {
    forall i | 0 <= i < |[w] + args| ensures From(ts, k, end, ([w] + args)[i]) {
      if i > 0 { FromMore(ts, k1, end, k, end, args[i - 1]); }
    }
    forall i | 0 <= i < |more + targets|
      ensures From(ts, k + 1, end, (more + targets)[i].file) && From(ts, k, end, (more + targets)[i].file)
    {
      var f := (more + targets)[i].file;
      if i < |more| { FromMore(ts, k + 1, k1, k + 1, end, f); } else { FromMore(ts, k1, end, k + 1, end, f); }
      FromMore(ts, k + 1, end, k, end, f);
    }
  }

  // ---- Wrapping ----

  lemma {:induction false} WrapBase(c: Cmd, targets: seq<Target>)
    ensures Base(Wrap(c, targets)) == Base(c) && Targets(Wrap(c, targets)) == Targets(c) + targets
  {
    if targets == [] {
      assert Targets(c) + [] == Targets(c);
    } else {
      var n := |targets| - 1;
      WrapBase(c, targets[..n]);
      assert Targets(c) + targets[..n] + [targets[n]] == Targets(c) + targets;
    }
  }

  /** Wrapping in redirections that stand behind the command appends their spelling. */
  lemma {:induction false} EmitWrap(c: Cmd, targets: seq<Target>)
    requires Base(c).Exec? ==>
      forall i, j :: 0 <= i < |Base(c).args| && 0 <= j < |targets| ==> Base(c).args[i].q < targets[j].file.q
    ensures Emit(Wrap(c, targets), 3) == Emit(c, 3) + AllTowards(targets)
  {
    WrapBase(c, targets);
    if Base(c).Exec? {
      MixLast(Base(c).args, Targets(c), targets);
    } else {
      TowardsConcat(Targets(c), targets);
      var block := Punct('(') + Emit(Base(c), 0) + Punct(')');
      assert block + (AllTowards(Targets(c)) + AllTowards(targets)) ==
        block + AllTowards(Targets(c)) + AllTowards(targets);
    }
  }

  /** The spelling at a level is the one without parentheses, or the one for a simple command. */
  lemma {:induction false} Levels(c: Cmd, lv: nat)
    requires lv <= 3
    ensures Emit(c, lv) == if lv <= Level(c) then Emit(c, 0) else Emit(c, 3)
    ensures Level(c) == 3 ==> Emit(c, 0) == Emit(c, 3)
    ensures Level(c) != 3 ==> Emit(c, 3) == Punct('(') + Emit(c, 0) + Punct(')')
  {
    assert lv == 3 || lv == Level(c) || Emit(c, lv) == Emit(c, lv + 1);
    assert Level(c) != 0 ==> Emit(c, 0) == Emit(c, 1);
    assert Level(c) > 1 ==> Emit(c, 1) == Emit(c, 2);
    assert Level(c) > 2 ==> Emit(c, 2) == Emit(c, 3);
    assert Level(c) < 1 ==> Emit(c, 1) == Emit(c, 2);
    assert Level(c) < 2 ==> Emit(c, 2) == Emit(c, 3);
    if Level(c) != 3 {
      var none: seq<Target> := [];
      assert Punct('(') + Emit(c, 0) + Punct(')') + AllTowards(none) == Punct('(') + Emit(c, 0) + Punct(')');
    }
  }

  /** A command read at a level has its spelling at the levels above it, too. */
  lemma {:induction false} Loosen(s: seq<Token>, c: Cmd, hi: nat, lo: nat)
    requires lo <= hi <= 3 && Thins(s, Emit(c, hi))
    ensures Thins(s, Emit(c, lo))
  {
    Levels(c, hi);
    Levels(c, lo);
    if lo <= Level(c) < hi {
      ThinsSelf(Emit(c, 0));
      ThinsInside(Token(Sym('('), 0, 0), Emit(c, 0), Token(Sym(')'), 0, 0), Emit(c, 0));
      ThinsTwice(s, Emit(c, 3), Emit(c, 0));
    }
  }

  // ---- All levels ----

  lemma {:induction false} SimplePart(ts: seq<Token>, k: nat)
    requires k <= |ts| && Ordered(ts) && KindAt(ts, k) != Sym('(') && ParseExec(ts, k).Ok?
    ensures Thins(ts[k..ParseExec(ts, k).k], Emit(ParseExec(ts, k).value, 3))
  {
    var r := Redirs(ts, k);
    RedirsThins(ts, k);
    var parsed := ParseExec(ts, k);
    var args, targets := ExecThins(ts, r.k, [], r.value, parsed.value, parsed.k);
    assert [] + args == args;
    SimpleMix(ts, k, r.k, parsed.k, r.value, args, targets);
  }

  lemma {:induction false} EmitSimple(args: seq<Range>, targets: seq<Target>)
    ensures Emit(Wrap(Exec(args), targets), 3) == Mix(args, targets)
  {
    WrapBase(Exec(args), targets);
    assert [] + targets == targets;
  }

  /** Redirections, then the loop of parseexec. */
  lemma {:induction false} SimpleMix(ts: seq<Token>, k: nat, k1: nat, end: nat, first: seq<Target>, args: seq<Range>,
      targets: seq<Target>)
    requires Ordered(ts) && k <= k1 <= end <= |ts|
    requires Thins(ts[k..k1], AllTowards(first)) && TargetsFrom(ts, k, k1, first)
    requires Thins(ts[k1..end], Mix(args, targets)) && ArgsFrom(ts, k1, end, args)
    ensures Thins(ts[k..end], Emit(Wrap(Exec(args), first + targets), 3))
  {
    EmitSimple(args, first + targets);
    forall i, j | 0 <= i < |first| && 0 <= j < |args| ensures first[i].file.q < args[j].q {
      Earlier(ts, k, k1, first[i].file, k1, end, args[j]);
    }
    MixFirst(first, args, targets);
    ThinsJoin(ts[k..k1], AllTowards(first), ts[k1..end], Mix(args, targets));
    SliceJoin(ts, k, k1, end);
  }

  lemma {:induction false} BaseWords(c: Cmd, i: nat)
    requires Base(c).Exec? && i < |Base(c).args|
    ensures Base(c).args[i] in Ranges(c)
  {
    if c.Redir? { BaseWords(c.cmd, i); }
  }

  /** The arguments of a command inside a block come before the redirections behind it. */
  lemma {:induction false} BlockOrder(ts: seq<Token>, k: nat, k1: nat, d: Cmd, k2: nat, targets: seq<Target>, i: nat,
      j: nat)
    requires Ordered(ts) && k < k1 < k2 <= |ts| && ParseLine(ts, k + 1) == Ok(d, k1)
    requires TargetsFrom(ts, k1 + 1, k2, targets) && Base(d).Exec? && i < |Base(d).args| && j < |targets|
    ensures Base(d).args[i].q < targets[j].file.q
  {
    ParseLineWords(ts, k + 1);
    BaseWords(d, i);
    var n := WordIn(ts, k + 1, k1, Base(d).args[i]);
    assert IsAt(ts, n, Base(d).args[i]) && From(ts, k + 1, k1, Base(d).args[i]);
    Earlier(ts, k + 1, k1, Base(d).args[i], k1 + 1, k2, targets[j].file);
  }

  lemma {:induction false} BlockPart(ts: seq<Token>, k: nat, d: Cmd, k1: nat)
    requires k < |ts| && Ordered(ts) && ts[k].kind == Sym('(') && ParseExec(ts, k).Ok?
    requires ParseLine(ts, k + 1) == Ok(d, k1) && k < k1 <= |ts| && Thins(ts[k + 1..k1], Emit(d, 0))
    ensures Thins(ts[k..ParseExec(ts, k).k], Emit(ParseExec(ts, k).value, 3))
  {
    var r := Redirs(ts, k1 + 1);
    RedirsThins(ts, k1 + 1);
    forall i, j | Base(d).Exec? && 0 <= i < |Base(d).args| && 0 <= j < |r.value|
      ensures Base(d).args[i].q < r.value[j].file.q
    {
      BlockOrder(ts, k, k1, d, r.k, r.value, i, j);
    }
    BlockMix(ts, k, k1, r.k, d, r.value);
  }

  lemma {:induction false} BlockMix(ts: seq<Token>, k: nat, k1: nat, end: nat, d: Cmd, targets: seq<Target>)
    requires k < k1 < end <= |ts| && ts[k].kind == Sym('(') && ts[k1].kind == Sym(')')
    requires Thins(ts[k + 1..k1], Emit(d, 0)) && Thins(ts[k1 + 1..end], AllTowards(targets))
    requires Base(d).Exec? ==>
      forall i, j :: 0 <= i < |Base(d).args| && 0 <= j < |targets| ==> Base(d).args[i].q < targets[j].file.q
    ensures Thins(ts[k..end], Emit(Wrap(d, targets), 3))
  {
    Levels(d, 0);
    var block := [ts[k]] + ts[k + 1..k1] + [ts[k1]];
    if Level(d) == 3 {
      ThinsInside(ts[k], ts[k + 1..k1], ts[k1], Emit(d, 0));
    } else {
      ThinsBlock(ts[k], ts[k + 1..k1], ts[k1], Emit(d, 0));
    }
    EmitWrap(d, targets);
    ThinsJoin(block, Emit(d, 3), ts[k1 + 1..end], AllTowards(targets));
    CutAt(ts, k, k1, end);
    SliceJoin(ts, k, k + 1, k1);
    assert ts[k..k + 1] == [ts[k]];
  }

  /** What the parsing functions read contains the spelling of what they return. */
  lemma {:induction false} ExecPart(ts: seq<Token>, k: nat)
    requires k <= |ts| && Ordered(ts) && ParseExec(ts, k).Ok?
    ensures Thins(ts[k..ParseExec(ts, k).k], Emit(ParseExec(ts, k).value, 3))
    decreases |ts| - k, 1
  {
    if KindAt(ts, k) == Sym('(') {
      LinePart(ts, k + 1);
      BlockPart(ts, k, ParseLine(ts, k + 1).value, ParseLine(ts, k + 1).k);
    } else {
      SimplePart(ts, k);
    }
  }

  lemma {:induction false} TwoParts(ts: seq<Token>, a: nat, b: nat, c: nat, e1: seq<Token>, ch: char, e2: seq<Token>)
    requires a <= b < c <= |ts| && Thins(ts[a..b], e1) && ts[b].kind == Sym(ch) && Thins(ts[b + 1..c], e2)
    ensures Thins(ts[a..c], e1 + Punct(ch) + e2)
  {
    ThinsThree(ts[a..b], e1, ts[b], ch, ts[b + 1..c], e2);
    CutAt(ts, a, b, c);
  }

  lemma {:induction false} PipePart(ts: seq<Token>, k: nat)
    requires k <= |ts| && Ordered(ts) && ParsePipe(ts, k).Ok?
    ensures Thins(ts[k..ParsePipe(ts, k).k], Emit(ParsePipe(ts, k).value, 2))
    decreases |ts| - k, 2
  {
    ExecPart(ts, k);
    var c, k1 := ParseExec(ts, k).value, ParseExec(ts, k).k;
    if KindAt(ts, k1) == Sym('|') {
      PipePart(ts, k1 + 1);
      var d, k2 := ParsePipe(ts, k1 + 1).value, ParsePipe(ts, k1 + 1).k;
      TwoParts(ts, k, k1, k2, Emit(c, 3), '|', Emit(d, 2));
    } else {
      Loosen(ts[k..k1], c, 3, 2);
    }
  }

  lemma {:induction false} BacksPart(ts: seq<Token>, k0: nat, k: nat, c: Cmd)
    requires k0 <= k <= |ts| && Thins(ts[k0..k], Emit(c, 1))
    ensures Thins(ts[k0..Backs(ts, k, c).1], Emit(Backs(ts, k, c).0, 1))
    decreases |ts| - k
  {
    if KindAt(ts, k) == Sym('&') {
      ThinsOne(ts[k], Token(Sym('&'), 0, 0));
      ThinsJoin(ts[k0..k], Emit(c, 1), [ts[k]], Punct('&'));
      SliceJoin(ts, k0, k, k + 1);
      assert ts[k..k + 1] == [ts[k]];
      BacksPart(ts, k0, k + 1, Back(c));
    }
  }

  lemma {:induction false} LinePart(ts: seq<Token>, k: nat)
    requires k <= |ts| && Ordered(ts) && ParseLine(ts, k).Ok?
    ensures Thins(ts[k..ParseLine(ts, k).k], Emit(ParseLine(ts, k).value, 0))
    decreases |ts| - k, 3
  {
    PipePart(ts, k);
    var c, k1 := ParsePipe(ts, k).value, ParsePipe(ts, k).k;
    Loosen(ts[k..k1], c, 2, 1);
    BacksPart(ts, k, k1, c);
    var (d, k2) := Backs(ts, k1, c);
    if KindAt(ts, k2) == Sym(';') {
      LinePart(ts, k2 + 1);
      var e, k3 := ParseLine(ts, k2 + 1).value, ParseLine(ts, k2 + 1).k;
      TwoParts(ts, k, k2, k3, Emit(d, 1), ';', Emit(e, 0));
    } else {
      Loosen(ts[k..k2], d, 1, 0);
    }
  }

  // ---- The image of the parser ----

  lemma {:induction false} LexOrdered(line: string)
    requires Text(line)
    ensures Ordered(Lex(line, 0))
  {
    LexTokens(line, 0);
  }

  /** The command of an accepted line has at most nine arguments a piece, and its words leave room. */
  lemma {:induction false} ParsedFits(line: string)
    requires Text(line) && ParseCmd(line).Ok?
    ensures Sane(ParseCmd(line).value) && Fits(ParseCmd(line).value)
  {
    var ts := Lex(line, 0);
    LexOrdered(line);
    LinePart(ts, 0);
    ParseLineFits(ts, 0);
    assert ts[0..|ts|] == ts;
    LexRoom(line, 0, Spot(0, false));
    RoomThins(ts, Emit(ParseCmd(line).value, 0), Spot(0, false), Spot(0, false));
  }

  ghost predicate IsParsed(c: Cmd) { exists line: string :: ParsesTo(line, c) }

  predicate ParsesTo(line: string, c: Cmd) { Text(line) && ParseCmd(line).Ok? && ParseCmd(line).value == c }

  /** The parser builds a command from some line exactly when it has at most nine arguments a piece, files opened for
      reading as 0 or for writing as 1, and its words, in the order of its spelling, leave room for the symbols. */
  lemma {:induction false} ParserImage(c: Cmd)
    ensures IsParsed(c) <==> Sane(c) && Fits(c)
  {
    if Sane(c) && Fits(c) {
      var e, s := Emit(c, 0), Spot(0, false);
      var ink := Letters(Room(e, s).value.p);
      RoomBounds(e, s);
      SpellingParses(c, ink);
      assert ParsesTo(Spelling(c, ink), c);
    }
    if IsParsed(c) {
      var line: string :| ParsesTo(line, c);
      ParsedFits(line);
    }
  }
}
