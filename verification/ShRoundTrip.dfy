/** Every command the shell can represent has a spelling in tokens that the parser reads back as that command. */
module ShRoundTrip {
  import opened ShLex
  import opened ShParse

  /** The grammar level that spells a command without parentheses: 0 a line, 1 a background job, 2 a pipeline,
      3 a simple command with its redirections. */
  function Level(c: Cmd): nat {
    match c
    case List(_, _) => 0
    case Back(_) => 1
    case Pipe(_, _) => 2
    case Exec(_) => 3
    case Redir(_, _, _, _) => 3
  }

  /** A symbol; where it stands is left open. */
  function Punct(c: char): seq<Token> { [Token(Sym(c), 0, 0)] }

  function Named(r: Range): seq<Token> { [Token(Word, r.q, r.eq)] }

  function Arrow(t: Target): char { if t.mode == ReadOnly then '<' else '>' }

  function Towards(t: Target): (ts: seq<Token>)
    ensures |ts| == 2
  {
    Punct(Arrow(t)) + Named(t.file)
  }

  function AllTowards(targets: seq<Target>): seq<Token> {
    if targets == [] then [] else Towards(targets[0]) + AllTowards(targets[1..])
  }

  /** The innermost command under redirections, and the redirections from the inside out. */
  function Base(c: Cmd): (b: Cmd)
    ensures !b.Redir? && (if c.Redir? then b < c else b == c)
  {
    if c.Redir? then Base(c.cmd) else c
  }

  function Targets(c: Cmd): seq<Target> {
    if c.Redir? then Targets(c.cmd) + [Target(c.file, c.mode, c.fd)] else []
  }

  /** Arguments and redirections in the order of their places in the line. */
  function Mix(args: seq<Range>, targets: seq<Target>): seq<Token>
    decreases |args| + |targets|
  {
    if args == [] then AllTowards(targets)
    else if targets == [] || args[0].q < targets[0].file.q then Named(args[0]) + Mix(args[1..], targets)
    else Towards(targets[0]) + Mix(args, targets[1..])
  }

  /** The tokens of a command at a grammar level, with parentheses where its own level is a lower one. */
  function Emit(c: Cmd, lv: nat): seq<Token>
    requires lv <= 3
    decreases c, (Level(c) + 4 - lv) % 4
  {
    if lv == 3 then
      if Base(c).Exec? then Mix(Base(c).args, Targets(c))
      else Punct('(') + Emit(Base(c), 0) + Punct(')') + AllTowards(Targets(c))
    else if lv != Level(c) then Emit(c, lv + 1)
    else
      match c
      case List(d, e) => Emit(d, 1) + Punct(';') + Emit(e, 0)
      case Back(d) => Emit(d, 1) + Punct('&')
      case Pipe(l, r) => Emit(l, 3) + Punct('|') + Emit(r, 2)
  }

  /** `t` is the token `e`; a symbol may stand anywhere. */
  predicate Same(t: Token, e: Token) { t.kind == e.kind && (e.kind == Word ==> t == e) }

  /** `e` stands in `ts` from `k` on. */
  predicate Stands(ts: seq<Token>, k: nat, e: seq<Token>) {
    k + |e| <= |ts| && forall i :: 0 <= i < |e| ==> Same(ts[k + i], e[i])
  }

  lemma Parts(ts: seq<Token>, k: nat, a: seq<Token>, b: seq<Token>)
    requires Stands(ts, k, a + b)
    ensures Stands(ts, k, a) && Stands(ts, k + |a|, b)
  {
    forall i | 0 <= i < |a| ensures Same(ts[k + i], a[i]) { assert (a + b)[i] == a[i]; }
    forall i | 0 <= i < |b| ensures Same(ts[k + |a| + i], b[i]) {
      assert (a + b)[|a| + i] == b[i] && Same(ts[k + (|a| + i)], (a + b)[|a| + i]);
    }
  }

  lemma AtStart(ts: seq<Token>, k: nat, t: Token)
    requires Stands(ts, k, [t])
    ensures k < |ts| && Same(ts[k], t)
  {
    assert Same(ts[k + 0], [t][0]);
  }

  /** The tokens that may follow a command at a level. */
  predicate Stops(k: Kind, lv: nat) {
    k == End || k == Sym(')') || (lv >= 1 && k == Sym(';')) || (lv >= 2 && k == Sym('&')) || (lv >= 3 && k == Sym('|'))
  }

  // ---- Redirections ----

  lemma OneTarget(ts: seq<Token>, k: nat, t: Target, rest: seq<Token>)
    requires Stands(ts, k, Towards(t) + rest)
    ensures k + 1 < |ts| && ts[k].kind == Sym(Arrow(t)) && ts[k + 1] == Token(Word, t.file.q, t.file.eq)
    ensures Stands(ts, k + 2, rest)
  {
    Parts(ts, k, Towards(t), rest);
    Parts(ts, k, Punct(Arrow(t)), Named(t.file));
    AtStart(ts, k, Token(Sym(Arrow(t)), 0, 0));
    AtStart(ts, k + 1, Token(Word, t.file.q, t.file.eq));
  }

  lemma RedirsTurn(ts: seq<Token>, k: nat, t: Target)
    requires k + 1 < |ts| && SaneTarget(t) && ts[k].kind == Sym(Arrow(t))
    requires ts[k + 1] == Token(Word, t.file.q, t.file.eq)
    ensures Redirs(ts, k) == match Redirs(ts, k + 2) { case Panic => Panic case Ok(rest, k') => Ok([t] + rest, k') }
  {
  }

  lemma {:induction false} RedirsBack(ts: seq<Token>, k: nat, targets: seq<Target>)
    requires Stands(ts, k, AllTowards(targets)) && SaneTargets(targets)
    requires !Starts(KindAt(ts, k + |AllTowards(targets)|), {'<', '>'})
    ensures Redirs(ts, k) == Ok(targets, k + |AllTowards(targets)|)
    decreases |targets|
  {
    if targets != [] {
      OneTarget(ts, k, targets[0], AllTowards(targets[1..]));
      RedirsBack(ts, k + 2, targets[1..]);
      RedirsTurn(ts, k, targets[0]);
      assert [targets[0]] + targets[1..] == targets;
    }
  }

  lemma {:induction false} TowardsJoin(a: seq<Target>, t: Target)
    ensures AllTowards(a + [t]) == AllTowards(a) + Towards(t)
  {
    if a == [] {
      assert ([] + [t])[1..] == [];
    } else {
      assert (a + [t])[1..] == a[1..] + [t];
      TowardsJoin(a[1..], t);
    }
  }

  lemma {:induction false} Unwrap(c: Cmd)
    ensures Wrap(Base(c), Targets(c)) == c
    ensures Sane(c) <==> Sane(Base(c)) && SaneTargets(Targets(c))
  {
    if c.Redir? {
      Unwrap(c.cmd);
      var t := Target(c.file, c.mode, c.fd);
      assert (Targets(c.cmd) + [t])[..|Targets(c.cmd)|] == Targets(c.cmd);
      assert SaneTarget(Targets(c)[|Targets(c.cmd)|]) <==> SaneTarget(t);
      assert forall i :: 0 <= i < |Targets(c.cmd)| ==> Targets(c)[i] == Targets(c.cmd)[i];
    }
  }

  // ---- Simple commands ----

  /** parseredirs and the rest of parseexec's loop. */
  function ExecRest(ts: seq<Token>, k: nat, args: seq<Range>, targets: seq<Target>): Parsed<Cmd>
    requires k <= |ts|
  {
    match Redirs(ts, k)
    case Panic => Panic
    case Ok(more, k') => ExecLoop(ts, k', args, targets + more)
  }

  lemma RestTarget(ts: seq<Token>, k: nat, args: seq<Range>, targets: seq<Target>, t: Target)
    requires k + 1 < |ts| && SaneTarget(t) && ts[k].kind == Sym(Arrow(t))
    requires ts[k + 1] == Token(Word, t.file.q, t.file.eq)
    ensures ExecRest(ts, k, args, targets) == ExecRest(ts, k + 2, args, targets + [t])
  {
    RedirsTurn(ts, k, t);
    if Redirs(ts, k + 2).Ok? {
      var rest := Redirs(ts, k + 2).value;
      assert targets + ([t] + rest) == (targets + [t]) + rest;
    }
  }

  lemma RestArg(ts: seq<Token>, k: nat, args: seq<Range>, targets: seq<Target>, r: Range)
    requires k < |ts| && |args| + 1 < MAXARGS && ts[k] == Token(Word, r.q, r.eq)
    ensures ExecRest(ts, k, args, targets) == ExecRest(ts, k + 1, args + [r], targets)
  {
    assert Redirs(ts, k) == Ok([], k);
    assert targets + [] == targets;
  }

  lemma RestEnd(ts: seq<Token>, k: nat, args: seq<Range>, targets: seq<Target>)
    requires k <= |ts| && Stops(KindAt(ts, k), 3)
    ensures ExecRest(ts, k, args, targets) == Ok(Wrap(Exec(args), targets), k)
  {
    assert Redirs(ts, k) == Ok([], k);
    assert targets + [] == targets;
  }

  /** Arguments and redirections in any order are collected as they come. */
  lemma {:induction false} MixBack(ts: seq<Token>, k: nat, args0: seq<Range>, targets0: seq<Target>, args: seq<Range>,
      targets: seq<Target>)
    requires Stands(ts, k, Mix(args, targets)) && SaneTargets(targets) && |args0| + |args| < MAXARGS
    requires Stops(KindAt(ts, k + |Mix(args, targets)|), 3)
    ensures ExecRest(ts, k, args0, targets0) ==
      Ok(Wrap(Exec(args0 + args), targets0 + targets), k + |Mix(args, targets)|)
    decreases |args| + |targets|
  {
    if args == [] && targets == [] {
      RestEnd(ts, k, args0, targets0);
      assert args0 + args == args0 && targets0 + targets == targets0;
    } else if args == [] || (targets != [] && !(args[0].q < targets[0].file.q)) {
      var t := targets[0];
      OneTarget(ts, k, t, Mix(args, targets[1..]));
      RestTarget(ts, k, args0, targets0, t);
      MixBack(ts, k + 2, args0, targets0 + [t], args, targets[1..]);
      Regroups(targets0, targets);
    } else {
      var r := args[0];
      Parts(ts, k, Named(r), Mix(args[1..], targets));
      AtStart(ts, k, Token(Word, r.q, r.eq));
      RestArg(ts, k, args0, targets0, r);
      MixBack(ts, k + 1, args0 + [r], targets0, args[1..], targets);
      Regroups(args0, args);
    }
  }

  lemma Regroups<T>(a: seq<T>, b: seq<T>)
    requires b != []
    ensures a + [b[0]] + b[1..] == a + b
  {
  }

  /** A simple command with its redirections. */
  lemma SimpleBack(ts: seq<Token>, k: nat, args: seq<Range>, targets: seq<Target>)
    requires |args| < MAXARGS && Stands(ts, k, Mix(args, targets)) && SaneTargets(targets)
    requires Stops(KindAt(ts, k + |Mix(args, targets)|), 3)
    ensures ParseExec(ts, k) == Ok(Wrap(Exec(args), targets), k + |Mix(args, targets)|)
  {
    NotOpen(ts, k, args, targets);
    MixBack(ts, k, [], [], args, targets);
    assert [] + args == args && [] + targets == targets;
    assert forall more: seq<Target> :: [] + more == more;
  }

  lemma NotOpen(ts: seq<Token>, k: nat, args: seq<Range>, targets: seq<Target>)
    requires Stands(ts, k, Mix(args, targets)) && Stops(KindAt(ts, k + |Mix(args, targets)|), 3)
    ensures KindAt(ts, k) != Sym('(')
  {
    if args != [] && (targets == [] || args[0].q < targets[0].file.q) {
      Parts(ts, k, Named(args[0]), Mix(args[1..], targets));
      AtStart(ts, k, Token(Word, args[0].q, args[0].eq));
    } else if targets != [] {
      OneTarget(ts, k, targets[0], Mix(args, targets[1..]));
    }
  }

  // ---- Background jobs ----

  /** The command under its ampersands, and how many there are. */
  function Job(c: Cmd): (d: Cmd)
    ensures !d.Back? && (c.Back? ==> d < c)
  {
    if c.Back? then Job(c.cmd) else c
  }

  function Amps(c: Cmd): nat { if c.Back? then Amps(c.cmd) + 1 else 0 }

  function Ampersands(n: nat): (ts: seq<Token>)
    ensures |ts| == n && forall i :: 0 <= i < n ==> ts[i] == Token(Sym('&'), 0, 0)
  {
    seq(n, _ => Token(Sym('&'), 0, 0))
  }

  function Backed(c: Cmd, n: nat): Cmd { if n == 0 then c else Back(Backed(c, n - 1)) }

  lemma {:induction false} BackedInside(c: Cmd, n: nat)
    ensures Backed(Back(c), n) == Back(Backed(c, n))
  {
    if n > 0 { BackedInside(c, n - 1); }
  }

  lemma {:induction false} JobOf(c: Cmd)
    ensures Backed(Job(c), Amps(c)) == c && (Sane(c) ==> Sane(Job(c)))
    ensures Emit(c, 1) == Emit(Job(c), 2) + Ampersands(Amps(c))
  {
    if c.Back? {
      JobOf(c.cmd);
      assert Ampersands(Amps(c)) == Ampersands(Amps(c.cmd)) + Punct('&');
      assert Emit(c, 1) == Emit(Job(c), 2) + Ampersands(Amps(c.cmd)) + Punct('&');
    } else {
      assert Emit(c, 2) + Ampersands(0) == Emit(c, 2);
    }
  }

  lemma {:induction false} BacksBack(ts: seq<Token>, k: nat, c: Cmd, n: nat)
    requires Stands(ts, k, Ampersands(n)) && KindAt(ts, k + n) != Sym('&')
    ensures Backs(ts, k, c) == (Backed(c, n), k + n)
    decreases n
  {
    if n > 0 {
      assert Same(ts[k + 0], Ampersands(n)[0]);
      var all, rest := Ampersands(n), Ampersands(n - 1);
      forall i | 0 <= i < n - 1 ensures Same(ts[k + 1 + i], rest[i]) { assert Same(ts[k + (i + 1)], all[i + 1]); }
      BacksBack(ts, k + 1, Back(c), n - 1);
      BackedInside(c, n - 1);
    }
  }

  // ---- All levels ----

  /** A block whose inside is read as `c` up to the closing parenthesis at `k1`. */
  lemma BlockBack(ts: seq<Token>, k: nat, c: Cmd, k1: nat, targets: seq<Target>)
    requires k < k1 < |ts| && ts[k].kind == Sym('(') && ParseLine(ts, k + 1) == Ok(c, k1) && ts[k1].kind == Sym(')')
    requires Redirs(ts, k1 + 1) == Ok(targets, k1 + 1 + |AllTowards(targets)|)
    ensures ParseExec(ts, k) == Ok(Wrap(c, targets), k1 + 1 + |AllTowards(targets)|)
  {
  }

  /** Where the parentheses round `e` stand. */
  lemma Parentheses(ts: seq<Token>, k: nat, e: seq<Token>, targets: seq<Target>)
    requires Stands(ts, k, Punct('(') + e + Punct(')') + AllTowards(targets))
    ensures var k1 := k + 1 + |e|;
      && k1 < |ts| && ts[k].kind == Sym('(') && ts[k1].kind == Sym(')')
      && Stands(ts, k + 1, e) && Stands(ts, k1 + 1, AllTowards(targets))
  {
    Parts(ts, k, Punct('(') + e + Punct(')'), AllTowards(targets));
    Parts(ts, k, Punct('(') + e, Punct(')'));
    Parts(ts, k, Punct('('), e);
    AtStart(ts, k, Token(Sym('('), 0, 0));
    AtStart(ts, k + 1 + |e|, Token(Sym(')'), 0, 0));
  }

  /** A block whose inside is spelled `e` and read as `b` */
  lemma BlockEnds(ts: seq<Token>, k: nat, b: Cmd, e: seq<Token>, targets: seq<Target>)
    requires Stands(ts, k, Punct('(') + e + Punct(')') + AllTowards(targets)) && SaneTargets(targets)
    requires k + 1 <= |ts| && ParseLine(ts, k + 1) == Ok(b, k + 1 + |e|)
    requires Stops(KindAt(ts, k + 2 + |e| + |AllTowards(targets)|), 3)
    ensures ParseExec(ts, k) == Ok(Wrap(b, targets), k + 2 + |e| + |AllTowards(targets)|)
  {
    Parentheses(ts, k, e, targets);
    RedirsBack(ts, k + 2 + |e|, targets);
    BlockBack(ts, k, b, k + 1 + |e|, targets);
  }

  lemma PipeParse(ts: seq<Token>, k: nat, l: Cmd, k1: nat, r: Cmd, k2: nat)
    requires k <= k1 < |ts| && ParseExec(ts, k) == Ok(l, k1) && ts[k1].kind == Sym('|')
    requires ParsePipe(ts, k1 + 1) == Ok(r, k2)
    ensures ParsePipe(ts, k) == Ok(Pipe(l, r), k2)
  {
  }

  lemma ListParse(ts: seq<Token>, k: nat, d: Cmd, k1: nat, e: Cmd, k2: nat)
    requires k <= k1 < |ts| && ParsePipe(ts, k).Ok? && Backs(ts, ParsePipe(ts, k).k, ParsePipe(ts, k).value) == (d, k1)
    requires ts[k1].kind == Sym(';') && ParseLine(ts, k1 + 1) == Ok(e, k2)
    ensures ParseLine(ts, k) == Ok(List(d, e), k2)
  {
  }

  /** The two sides of a command and the symbol between them. */
  lemma Sides(ts: seq<Token>, k: nat, a: seq<Token>, c: char, b: seq<Token>)
    requires Stands(ts, k, a + Punct(c) + b)
    ensures Stands(ts, k, a) && k + |a| < |ts| && ts[k + |a|].kind == Sym(c) && Stands(ts, k + |a| + 1, b)
  {
    Parts(ts, k, a + Punct(c), b);
    Parts(ts, k, a, Punct(c));
    AtStart(ts, k + |a|, Token(Sym(c), 0, 0));
  }

  lemma {:induction false} ExecLevel(ts: seq<Token>, k: nat, c: Cmd)
    requires Sane(c) && Stands(ts, k, Emit(c, 3)) && Stops(KindAt(ts, k + |Emit(c, 3)|), 3)
    ensures ParseExec(ts, k) == Ok(c, k + |Emit(c, 3)|)
    decreases c, (Level(c) + 4 - 3) % 4
  {
    Unwrap(c);
    var b, targets := Base(c), Targets(c);
    if b.Exec? {
      SimpleBack(ts, k, b.args, targets);
    } else {
      var e := Emit(b, 0);
      Parentheses(ts, k, e, targets);
      LineLevel(ts, k + 1, b);
      BlockEnds(ts, k, b, e, targets);
    }
  }

  lemma {:induction false} PipeLevel(ts: seq<Token>, k: nat, c: Cmd)
    requires Sane(c) && Stands(ts, k, Emit(c, 2)) && Stops(KindAt(ts, k + |Emit(c, 2)|), 2)
    ensures ParsePipe(ts, k) == Ok(c, k + |Emit(c, 2)|)
    decreases c, (Level(c) + 4 - 2) % 4
  {
    if c.Pipe? {
      TwoSides(ts, k, c);
      var k1 := k + |Emit(c.left, 3)|;
      ExecLevel(ts, k, c.left);
      PipeLevel(ts, k1 + 1, c.right);
      PipeParse(ts, k, c.left, k1, c.right, k + |Emit(c, 2)|);
    } else {
      ExecLevel(ts, k, c);
      PipeOne(ts, k, c, k + |Emit(c, 2)|);
    }
  }

  lemma PipeOne(ts: seq<Token>, k: nat, c: Cmd, k1: nat)
    requires k <= k1 <= |ts| && ParseExec(ts, k) == Ok(c, k1) && KindAt(ts, k1) != Sym('|')
    ensures ParsePipe(ts, k) == Ok(c, k1)
  {
  }

  lemma TwoLines(ts: seq<Token>, k: nat, c: Cmd)
    requires c.List? && Stands(ts, k, Emit(c, 0))
    ensures var k1 := k + |Emit(c.left, 1)|;
      && Stands(ts, k, Emit(c.left, 1)) && k1 < |ts| && ts[k1].kind == Sym(';') && Stands(ts, k1 + 1, Emit(c.right, 0))
      && k + |Emit(c, 0)| == k1 + 1 + |Emit(c.right, 0)|
  {
    Sides(ts, k, Emit(c.left, 1), ';', Emit(c.right, 0));
  }

  lemma TwoSides(ts: seq<Token>, k: nat, c: Cmd)
    requires c.Pipe? && Stands(ts, k, Emit(c, 2))
    ensures var k1 := k + |Emit(c.left, 3)|;
      && Stands(ts, k, Emit(c.left, 3)) && k1 < |ts| && ts[k1].kind == Sym('|') && Stands(ts, k1 + 1, Emit(c.right, 2))
      && k + |Emit(c, 2)| == k1 + 1 + |Emit(c.right, 2)|
  {
    Sides(ts, k, Emit(c.left, 3), '|', Emit(c.right, 2));
  }

  /** Up to the ampersands that parseline collects. */
  lemma {:induction false} JobLevel(ts: seq<Token>, k: nat, c: Cmd)
    requires Sane(c) && Stands(ts, k, Emit(c, 1)) && Stops(KindAt(ts, k + |Emit(c, 1)|), 1)
    ensures ParsePipe(ts, k).Ok?
    ensures Backs(ts, ParsePipe(ts, k).k, ParsePipe(ts, k).value) == (c, k + |Emit(c, 1)|)
    decreases c, (Level(c) + 4 - 1) % 4
  {
    JobOf(c);
    var d, n := Job(c), Amps(c);
    var e := Emit(d, 2);
    JobStarts(ts, k, e, n);
    PipeLevel(ts, k, d);
    BacksBack(ts, k + |e|, d, n);
  }

  lemma JobStarts(ts: seq<Token>, k: nat, e: seq<Token>, n: nat)
    requires Stands(ts, k, e + Ampersands(n)) && Stops(KindAt(ts, k + |e| + n), 1)
    ensures Stands(ts, k, e) && Stands(ts, k + |e|, Ampersands(n)) && Stops(KindAt(ts, k + |e|), 2)
  {
    Parts(ts, k, e, Ampersands(n));
    if n > 0 { assert Same(ts[k + |e| + 0], Ampersands(n)[0]); }
  }

  lemma {:induction false} LineLevel(ts: seq<Token>, k: nat, c: Cmd)
    requires Sane(c) && Stands(ts, k, Emit(c, 0)) && Stops(KindAt(ts, k + |Emit(c, 0)|), 0)
    ensures ParseLine(ts, k) == Ok(c, k + |Emit(c, 0)|)
    decreases c, (Level(c) + 4 - 0) % 4
  {
    if c.List? {
      TwoLines(ts, k, c);
      var k1 := k + |Emit(c.left, 1)|;
      JobLevel(ts, k, c.left);
      LineLevel(ts, k1 + 1, c.right);
      ListParse(ts, k, c.left, k1, c.right, k + |Emit(c, 0)|);
    } else {
      JobLevel(ts, k, c);
      LineOne(ts, k, c, k + |Emit(c, 0)|);
    }
  }

  lemma LineOne(ts: seq<Token>, k: nat, c: Cmd, k1: nat)
    requires k <= k1 <= |ts| && ParsePipe(ts, k).Ok? && Backs(ts, ParsePipe(ts, k).k, ParsePipe(ts, k).value) == (c, k1)
    requires KindAt(ts, k1) != Sym(';')
    ensures ParseLine(ts, k) == Ok(c, k1)
  {
  }

  /** The spelling of a command, wherever its symbols stand, is read back as that command with nothing left over. */
  lemma SpellingReads(ts: seq<Token>, c: Cmd)
    requires Sane(c) && |ts| == |Emit(c, 0)| && Stands(ts, 0, Emit(c, 0))
    ensures ParseLine(ts, 0) == Ok(c, |ts|)
  {
    LineLevel(ts, 0, c);
  }
}
