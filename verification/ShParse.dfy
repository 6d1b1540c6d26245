/** The shell's recursive-descent parser over the tokens of a line, and the NUL termination of its strings. */
module ShParse {
  import opened ShLex

  const MAXARGS: nat := 10

  datatype Range = Range(q: nat, eq: nat)

  datatype Mode = ReadOnly | WriteCreate

  datatype Cmd =
    | Exec(args: seq<Range>)
    | Redir(cmd: Cmd, file: Range, mode: Mode, fd: int)
    | Pipe(left: Cmd, right: Cmd)
    | List(left: Cmd, right: Cmd)
    | Back(cmd: Cmd)

  /** A redirection before it is wrapped round a command. */
  datatype Target = Target(file: Range, mode: Mode, fd: int)

  datatype Parsed<T> = Ok(value: T, k: nat) | Panic

  function KindAt(ts: seq<Token>, k: nat): Kind { if k < |ts| then ts[k].kind else End }

  function RangeOf(t: Token): Range { Range(t.q, t.eq) }

  // ---- The grammar ----

  /** parseredirs: each redirection wraps what came before. */
  function Redirs(ts: seq<Token>, k: nat): (r: Parsed<seq<Target>>)
    requires k <= |ts|
    ensures r.Ok? ==> k <= r.k <= |ts| && !Starts(KindAt(ts, r.k), {'<', '>'})
    decreases |ts| - k
  {
    if !Starts(KindAt(ts, k), {'<', '>'}) then Ok([], k)
    else if KindAt(ts, k + 1) != Word then Panic
    else
      var t := if ts[k].kind == Sym('<') then Target(RangeOf(ts[k + 1]), ReadOnly, 0)
        else Target(RangeOf(ts[k + 1]), WriteCreate, 1);
      match Redirs(ts, k + 2)
      case Panic => Panic
      case Ok(rest, k') => Ok([t] + rest, k')
  }

  function Wrap(c: Cmd, targets: seq<Target>): Cmd {
    if targets == [] then c
    else
      var t := targets[|targets| - 1];
      Redir(Wrap(c, targets[..|targets| - 1]), t.file, t.mode, t.fd)
  }

  /** The loop of parseexec; the arguments all go to the innermost command. */
  function ExecLoop(ts: seq<Token>, k: nat, args: seq<Range>, targets: seq<Target>): (r: Parsed<Cmd>)
    requires k <= |ts|
    ensures r.Ok? ==> k <= r.k <= |ts|
    decreases |ts| - k
  {
    if Starts(KindAt(ts, k), {'|', ')', '&', ';'}) || KindAt(ts, k) == End then Ok(Wrap(Exec(args), targets), k)
    else if ts[k].kind != Word then Panic
    else if |args| + 1 >= MAXARGS then Panic
    else
      match Redirs(ts, k + 1)
      case Panic => Panic
      case Ok(more, k') => ExecLoop(ts, k', args + [RangeOf(ts[k])], targets + more)
  }

  /** parseexec */
  function ParseExec(ts: seq<Token>, k: nat): (r: Parsed<Cmd>)
    requires k <= |ts|
    ensures r.Ok? ==> k <= r.k <= |ts|
    decreases |ts| - k, 1
  {
    if KindAt(ts, k) == Sym('(') then ParseBlock(ts, k)
    else
      match Redirs(ts, k)
      case Panic => Panic
      case Ok(targets, k') => ExecLoop(ts, k', [], targets)
  }

  /** parseblock */
  function ParseBlock(ts: seq<Token>, k: nat): (r: Parsed<Cmd>)
    requires k < |ts|
    ensures r.Ok? ==> k <= r.k <= |ts|
    decreases |ts| - k, 0
  {
    if ts[k].kind != Sym('(') then Panic else
    match ParseLine(ts, k + 1)
    case Panic => Panic
    case Ok(c, k1) =>
      if KindAt(ts, k1) != Sym(')') then Panic else
      match Redirs(ts, k1 + 1)
      case Panic => Panic
      case Ok(targets, k2) => Ok(Wrap(c, targets), k2)
  }

  /** parsepipe */
  function ParsePipe(ts: seq<Token>, k: nat): (r: Parsed<Cmd>)
    requires k <= |ts|
    ensures r.Ok? ==> k <= r.k <= |ts|
    decreases |ts| - k, 2
  {
    match ParseExec(ts, k)
    case Panic => Panic
    case Ok(c, k1) =>
      if KindAt(ts, k1) != Sym('|') then Ok(c, k1) else
      match ParsePipe(ts, k1 + 1)
      case Panic => Panic
      case Ok(d, k2) => Ok(Pipe(c, d), k2)
  }

  /** The ampersands after a pipeline. */
  function Backs(ts: seq<Token>, k: nat, c: Cmd): (r: (Cmd, nat))
    requires k <= |ts|
    ensures k <= r.1 <= |ts|
    decreases |ts| - k
  {
    if KindAt(ts, k) == Sym('&') then Backs(ts, k + 1, Back(c)) else (c, k)
  }

  /** parseline */
  function ParseLine(ts: seq<Token>, k: nat): (r: Parsed<Cmd>)
    requires k <= |ts|
    ensures r.Ok? ==> k <= r.k <= |ts|
    decreases |ts| - k, 3
  {
    match ParsePipe(ts, k)
    case Panic => Panic
    case Ok(c, k1) =>
      var (d, k2) := Backs(ts, k1, c);
      if KindAt(ts, k2) != Sym(';') then Ok(d, k2) else
      match ParseLine(ts, k2 + 1)
      case Panic => Panic
      case Ok(e, k3) => Ok(List(d, e), k3)
  }

  /** parsecmd up to nulterminate */
  function ParseCmd(line: string): Parsed<Cmd>
    requires Text(line)
  {
    var ts := Lex(line, 0);
    match ParseLine(ts, 0)
    case Panic => Panic
    case Ok(c, k) => if k < |ts| then Panic else Ok(c, k)
  }

  // ---- The strings of a command are the words it was parsed from ----

  function FileSeq(targets: seq<Target>): (r: seq<Range>)
    ensures |r| == |targets| && forall i :: 0 <= i < |targets| ==> r[i] == targets[i].file
  {
    seq(|targets|, i requires 0 <= i < |targets| => targets[i].file)
  }

  function Files(targets: seq<Target>): multiset<Range> { multiset(FileSeq(targets)) }

  /** Every string of the command, as often as it occurs. */
  function Ranges(c: Cmd): multiset<Range> {
    match c
    case Exec(args) => multiset(args)
    case Redir(d, f, _, _) => Ranges(d) + multiset{f}
    case Pipe(l, r) => Ranges(l) + Ranges(r)
    case List(l, r) => Ranges(l) + Ranges(r)
    case Back(d) => Ranges(d)
  }

  /** The words among the tokens from `a` to `b`. */
  function Words(ts: seq<Token>, a: nat, b: nat): multiset<Range>
    requires a <= b <= |ts|
    decreases b - a
  {
    if a == b then multiset{}
    else Words(ts, a, b - 1) + if ts[b - 1].kind == Word then multiset{RangeOf(ts[b - 1])} else multiset{}
  }

  lemma {:induction false} WordsSplit(ts: seq<Token>, a: nat, m: nat, b: nat)
    requires a <= m <= b <= |ts|
    ensures Words(ts, a, b) == Words(ts, a, m) + Words(ts, m, b)
    decreases b - m
  {
    if m < b { WordsSplit(ts, a, m, b - 1); }
  }

  /** One token. */
  lemma WordsOne(ts: seq<Token>, k: nat)
    requires k < |ts|
    ensures Words(ts, k, k + 1) == if ts[k].kind == Word then multiset{RangeOf(ts[k])} else multiset{}
  {
    assert Words(ts, k, k) == multiset{};
  }

  /** A symbol adds no word. */
  lemma WordsAfter(ts: seq<Token>, k: nat, b: nat)
    requires k < b <= |ts| && ts[k].kind != Word
    ensures Words(ts, k, b) == Words(ts, k + 1, b)
  {
    WordsOne(ts, k);
    WordsSplit(ts, k, k + 1, b);
  }

  lemma FilesJoin(a: seq<Target>, b: seq<Target>)
    ensures Files(a + b) == Files(a) + Files(b)
  {
    assert FileSeq(a + b) == FileSeq(a) + FileSeq(b);
  }

  lemma FilesOne(t: Target)
    ensures Files([t]) == multiset{t.file}
  {
    assert FileSeq([t]) == [t.file];
  }

  lemma {:induction false} WrapRanges(c: Cmd, targets: seq<Target>)
    ensures Ranges(Wrap(c, targets)) == Ranges(c) + Files(targets)
  {
    if targets != [] {
      var n := |targets| - 1;
      WrapRanges(c, targets[..n]);
      assert targets == targets[..n] + [targets[n]];
      FilesJoin(targets[..n], [targets[n]]);
      FilesOne(targets[n]);
    }
  }

  lemma {:induction false} RedirsWords(ts: seq<Token>, k: nat)
    requires k <= |ts| && Redirs(ts, k).Ok?
    ensures Files(Redirs(ts, k).value) == Words(ts, k, Redirs(ts, k).k)
    decreases |ts| - k
  {
    var r := Redirs(ts, k);
    if Starts(KindAt(ts, k), {'<', '>'}) {
      var rest := Redirs(ts, k + 2);
      RedirsWords(ts, k + 2);
      FilesJoin([r.value[0]], rest.value);
      FilesOne(r.value[0]);
      WordsOne(ts, k);
      WordsOne(ts, k + 1);
      WordsSplit(ts, k, k + 1, k + 2);
      WordsSplit(ts, k, k + 2, r.k);
    }
  }

  lemma {:induction false} ExecWords(ts: seq<Token>, k: nat, args: seq<Range>, targets: seq<Target>)
    requires k <= |ts| && ExecLoop(ts, k, args, targets).Ok?
    ensures Ranges(ExecLoop(ts, k, args, targets).value) ==
      multiset(args) + Files(targets) + Words(ts, k, ExecLoop(ts, k, args, targets).k)
    decreases |ts| - k
  {
    var r := ExecLoop(ts, k, args, targets);
    if Starts(KindAt(ts, k), {'|', ')', '&', ';'}) || KindAt(ts, k) == End {
      WrapRanges(Exec(args), targets);
    } else {
      var more := Redirs(ts, k + 1);
      RedirsWords(ts, k + 1);
      ExecWords(ts, more.k, args + [RangeOf(ts[k])], targets + more.value);
      FilesJoin(targets, more.value);
      WordsOne(ts, k);
      WordsSplit(ts, k, k + 1, more.k);
      WordsSplit(ts, k, more.k, r.k);
    }
  }

  lemma {:induction false} BacksRanges(ts: seq<Token>, k: nat, c: Cmd)
    requires k <= |ts|
    ensures Ranges(Backs(ts, k, c).0) == Ranges(c)
    decreases |ts| - k
  {
    if KindAt(ts, k) == Sym('&') { BacksRanges(ts, k + 1, Back(c)); }
  }

  lemma {:induction false} BacksNoWords(ts: seq<Token>, k: nat, c: Cmd)
    requires k <= |ts|
    ensures Words(ts, k, Backs(ts, k, c).1) == multiset{}
    decreases |ts| - k
  {
    if KindAt(ts, k) == Sym('&') {
      BacksNoWords(ts, k + 1, Back(c));
      WordsAfter(ts, k, Backs(ts, k + 1, Back(c)).1);
    }
  }

  /** A block, once its inside has the words it should have. */
  lemma BlockWords(ts: seq<Token>, k: nat)
    requires k < |ts| && ts[k].kind == Sym('(') && ParseExec(ts, k).Ok?
    requires ParseLine(ts, k + 1).Ok? && Ranges(ParseLine(ts, k + 1).value) == Words(ts, k + 1, ParseLine(ts, k + 1).k)
    ensures Ranges(ParseExec(ts, k).value) == Words(ts, k, ParseExec(ts, k).k)
  {
    var c, end := ParseLine(ts, k + 1), ParseExec(ts, k).k;
    RedirsWords(ts, c.k + 1);
    WrapRanges(c.value, Redirs(ts, c.k + 1).value);
    WordsAfter(ts, k, end);
    WordsAfter(ts, c.k, end);
    WordsSplit(ts, k + 1, c.k, end);
  }

  lemma SimpleWords(ts: seq<Token>, k: nat)
    requires k <= |ts| && KindAt(ts, k) != Sym('(') && ParseExec(ts, k).Ok?
    ensures Ranges(ParseExec(ts, k).value) == Words(ts, k, ParseExec(ts, k).k)
  {
    var targets := Redirs(ts, k);
    RedirsWords(ts, k);
    ExecWords(ts, targets.k, [], targets.value);
    WordsSplit(ts, k, targets.k, ParseExec(ts, k).k);
  }

  /** Whatever part of the line a parsing function accepts, the strings in its tree are exactly the words there. */
  lemma {:induction false} ParseExecWords(ts: seq<Token>, k: nat)
    requires k <= |ts| && ParseExec(ts, k).Ok?
    ensures Ranges(ParseExec(ts, k).value) == Words(ts, k, ParseExec(ts, k).k)
    decreases |ts| - k, 1
  {
    if KindAt(ts, k) == Sym('(') {
      ParseLineWords(ts, k + 1);
      BlockWords(ts, k);
    } else {
      SimpleWords(ts, k);
    }
  }

  lemma {:induction false} ParsePipeWords(ts: seq<Token>, k: nat)
    requires k <= |ts| && ParsePipe(ts, k).Ok?
    ensures Ranges(ParsePipe(ts, k).value) == Words(ts, k, ParsePipe(ts, k).k)
    decreases |ts| - k, 2
  {
    var r, c := ParsePipe(ts, k), ParseExec(ts, k);
    ParseExecWords(ts, k);
    if KindAt(ts, c.k) == Sym('|') {
      ParsePipeWords(ts, c.k + 1);
      WordsAfter(ts, c.k, r.k);
      WordsSplit(ts, k, c.k, r.k);
    }
  }

  /** The part of a line before a semicolon. */
  lemma JobWords(ts: seq<Token>, k: nat)
    requires k <= |ts| && ParsePipe(ts, k).Ok?
    requires Ranges(ParsePipe(ts, k).value) == Words(ts, k, ParsePipe(ts, k).k)
    ensures var c := ParsePipe(ts, k); var d := Backs(ts, c.k, c.value); Ranges(d.0) == Words(ts, k, d.1)
  {
    var c := ParsePipe(ts, k);
    BacksRanges(ts, c.k, c.value);
    BacksNoWords(ts, c.k, c.value);
    WordsSplit(ts, k, c.k, Backs(ts, c.k, c.value).1);
  }

  lemma {:induction false} ParseLineWords(ts: seq<Token>, k: nat)
    requires k <= |ts| && ParseLine(ts, k).Ok?
    ensures Ranges(ParseLine(ts, k).value) == Words(ts, k, ParseLine(ts, k).k)
    decreases |ts| - k, 3
  {
    var r, c := ParseLine(ts, k), ParsePipe(ts, k);
    ParsePipeWords(ts, k);
    JobWords(ts, k);
    var k2 := Backs(ts, c.k, c.value).1;
    if KindAt(ts, k2) == Sym(';') {
      ParseLineWords(ts, k2 + 1);
      WordsAfter(ts, k2, r.k);
      WordsSplit(ts, k, k2, r.k);
    }
  }

  /** For every accepted line the argument and file strings are exactly the words of the line. */
  lemma ParseCmdWords(line: string)
    requires Text(line) && ParseCmd(line).Ok?
    ensures Ranges(ParseCmd(line).value) == Words(Lex(line, 0), 0, |Lex(line, 0)|)
  {
    AllWords(Lex(line, 0));
  }

  lemma AllWords(ts: seq<Token>)
    ensures ParseLine(ts, 0).Ok? && ParseLine(ts, 0).k == |ts| ==> Ranges(ParseLine(ts, 0).value) == Words(ts, 0, |ts|)
  {
    if ParseLine(ts, 0).Ok? { ParseLineWords(ts, 0); }
  }

  // ---- argv stays in bounds ----

  /** Every command leaves room for the null pointer that ends argv, and redirections pair mode and descriptor. */
  predicate Sane(c: Cmd) {
    match c
    case Exec(args) => |args| < MAXARGS
    case Redir(d, _, mode, fd) => Sane(d) && fd == if mode == ReadOnly then 0 else 1
    case Pipe(l, r) => Sane(l) && Sane(r)
    case List(l, r) => Sane(l) && Sane(r)
    case Back(d) => Sane(d)
  }

  predicate SaneTarget(t: Target) { t.fd == if t.mode == ReadOnly then 0 else 1 }

  predicate SaneTargets(targets: seq<Target>) { forall i :: 0 <= i < |targets| ==> SaneTarget(targets[i]) }

  lemma {:induction false} WrapFits(c: Cmd, targets: seq<Target>)
    requires Sane(c) && SaneTargets(targets)
    ensures Sane(Wrap(c, targets))
  {
    if targets != [] { WrapFits(c, targets[..|targets| - 1]); }
  }

  lemma {:induction false} RedirsFit(ts: seq<Token>, k: nat)
    requires k <= |ts| && Redirs(ts, k).Ok?
    ensures SaneTargets(Redirs(ts, k).value)
    decreases |ts| - k
  {
    if Starts(KindAt(ts, k), {'<', '>'}) { RedirsFit(ts, k + 2); }
  }

  lemma {:induction false} ExecFits(ts: seq<Token>, k: nat, args: seq<Range>, targets: seq<Target>)
    requires k <= |ts| && |args| < MAXARGS && SaneTargets(targets) && ExecLoop(ts, k, args, targets).Ok?
    ensures Sane(ExecLoop(ts, k, args, targets).value)
    decreases |ts| - k
  {
    if Starts(KindAt(ts, k), {'|', ')', '&', ';'}) || KindAt(ts, k) == End {
      WrapFits(Exec(args), targets);
    } else {
      var more := Redirs(ts, k + 1);
      RedirsFit(ts, k + 1);
      ExecFits(ts, more.k, args + [RangeOf(ts[k])], targets + more.value);
    }
  }

  lemma {:induction false} BacksFit(ts: seq<Token>, k: nat, c: Cmd)
    requires k <= |ts|
    ensures Sane(Backs(ts, k, c).0) == Sane(c)
    decreases |ts| - k
  {
    if KindAt(ts, k) == Sym('&') { BacksFit(ts, k + 1, Back(c)); }
  }

  lemma {:induction false} ParseExecFits(ts: seq<Token>, k: nat)
    requires k <= |ts| && ParseExec(ts, k).Ok?
    ensures Sane(ParseExec(ts, k).value)
    decreases |ts| - k, 1
  {
    if KindAt(ts, k) == Sym('(') {
      var c := ParseLine(ts, k + 1);
      ParseLineFits(ts, k + 1);
      RedirsFit(ts, c.k + 1);
      WrapFits(c.value, Redirs(ts, c.k + 1).value);
    } else {
      RedirsFit(ts, k);
      ExecFits(ts, Redirs(ts, k).k, [], Redirs(ts, k).value);
    }
  }

  lemma {:induction false} ParsePipeFits(ts: seq<Token>, k: nat)
    requires k <= |ts| && ParsePipe(ts, k).Ok?
    ensures Sane(ParsePipe(ts, k).value)
    decreases |ts| - k, 2
  {
    var c := ParseExec(ts, k);
    ParseExecFits(ts, k);
    if KindAt(ts, c.k) == Sym('|') { ParsePipeFits(ts, c.k + 1); }
  }

  lemma {:induction false} ParseLineFits(ts: seq<Token>, k: nat)
    requires k <= |ts| && ParseLine(ts, k).Ok?
    ensures Sane(ParseLine(ts, k).value)
    decreases |ts| - k, 3
  {
    var c := ParsePipe(ts, k);
    ParsePipeFits(ts, k);
    BacksFit(ts, c.k, c.value);
    var k2 := Backs(ts, c.k, c.value).1;
    if KindAt(ts, k2) == Sym(';') { ParseLineFits(ts, k2 + 1); }
  }

  // ---- NUL termination ----

  /** The positions just after the strings of a command. */
  function Ends(c: Cmd): set<nat> { set r | r in Ranges(c) :: r.eq }

  function Zeroed(buf: string, at: set<nat>): (r: string)
    ensures |r| == |buf| && forall i :: 0 <= i < |buf| ==> r[i] == if i in at then NUL else buf[i]
  {
    seq(|buf|, i requires 0 <= i < |buf| => if i in at then NUL else buf[i])
  }

  lemma ZeroedTwice(buf: string, a: set<nat>, b: set<nat>)
    ensures Zeroed(Zeroed(buf, a), b) == Zeroed(buf, a + b)
  {
  }

  function ArgEnds(args: seq<Range>): set<nat> { set r | r in args :: r.eq }

  /** nulterminate for the arguments of a command */
  method ZeroArgs(buf: array<char>, args: seq<Range>)
    requires forall r :: r in args ==> r.eq < buf.Length
    modifies buf
    ensures buf[..] == Zeroed(old(buf[..]), ArgEnds(args))
  {
    var i := 0;
    while i < |args|
      invariant 0 <= i <= |args| && buf[..] == Zeroed(old(buf[..]), ArgEnds(args[..i]))
    {
      assert args[i] in args;
      assert args[..i + 1] == args[..i] + [args[i]];
      assert ArgEnds(args[..i + 1]) == ArgEnds(args[..i]) + {args[i].eq};
      buf[args[i].eq] := NUL;
      i := i + 1;
    }
    assert args[..i] == args;
  }

  /** nulterminate */
  method NulTerminate(buf: array<char>, c: Cmd)
    requires forall r :: r in Ranges(c) ==> r.eq < buf.Length
    modifies buf
    ensures buf[..] == Zeroed(old(buf[..]), Ends(c))
    decreases c
  {
    match c
    case Exec(args) =>
      assert forall r :: r in args <==> r in Ranges(c);
      ZeroArgs(buf, args);
      assert ArgEnds(args) == Ends(c);
    case Redir(d, f, _, _) =>
      NulTerminate(buf, d);
      buf[f.eq] := NUL;
      assert Ends(c) == Ends(d) + {f.eq};
    case Pipe(l, r) =>
      NulTerminate(buf, l);
      NulTerminate(buf, r);
      BothSides(c, old(buf[..]));
    case List(l, r) =>
      NulTerminate(buf, l);
      NulTerminate(buf, r);
      BothSides(c, old(buf[..]));
    case Back(d) =>
      NulTerminate(buf, d);
  }

  lemma BothSides(c: Cmd, buf: string)
    requires c.Pipe? || c.List?
    ensures Zeroed(Zeroed(buf, Ends(c.left)), Ends(c.right)) == Zeroed(buf, Ends(c))
  {
    JoinEnds(c, c.left, c.right);
    ZeroedTwice(buf, Ends(c.left), Ends(c.right));
  }

  lemma JoinEnds(c: Cmd, l: Cmd, r: Cmd)
    requires Ranges(c) == Ranges(l) + Ranges(r)
    ensures Ends(c) == Ends(l) + Ends(r)
  {
  }

  /** What a C program reads from `i` on: up to the next NUL. */
  function CString(buf: string, i: nat): string
    requires i <= |buf|
    decreases |buf| - i
  {
    if i == |buf| || buf[i] == NUL then [] else [buf[i]] + CString(buf, i + 1)
  }

  lemma {:induction false} CStringIs(buf: string, q: nat, eq: nat)
    requires q <= eq < |buf| && buf[eq] == NUL && forall i :: q <= i < eq ==> buf[i] != NUL
    ensures CString(buf, q) == buf[q..eq]
    decreases eq - q
  {
    if q < eq { CStringIs(buf, q + 1, eq); }
  }

  lemma {:induction false} WordIn(ts: seq<Token>, a: nat, b: nat, r: Range) returns (k: nat)
    requires a <= b <= |ts| && r in Words(ts, a, b)
    ensures a <= k < b && ts[k].kind == Word && RangeOf(ts[k]) == r
    decreases b - a
  {
    if ts[b - 1].kind == Word && RangeOf(ts[b - 1]) == r { k := b - 1; } else { k := WordIn(ts, a, b - 1, r); }
  }

  /** Every string of an accepted line is a word of the line. */
  lemma StringIsWord(line: string, r: Range)
    requires Text(line) && ParseCmd(line).Ok? && r in Ranges(ParseCmd(line).value)
    ensures WordAt(line, Token(Word, r.q, r.eq))
  {
    ParseCmdWords(line);
    var ts := Lex(line, 0);
    LexTokens(line, 0);
    var k := WordIn(ts, 0, |ts|, r);
    assert ts[k] == Token(Word, r.q, r.eq);
  }

  /** nulterminate writes only where no word is, and then each string read as a C string is exactly its word. */
  lemma Terminated(line: string, r: Range)
    requires Text(line) && ParseCmd(line).Ok? && r in Ranges(ParseCmd(line).value)
    ensures var c := ParseCmd(line).value;
      && (forall e :: e in Ends(c) ==> e <= |line| && (e < |line| ==> !Plain(line[e])))
      && r.q < r.eq <= |line|
      && CString(Zeroed(line + [NUL], Ends(c)), r.q) == line[r.q..r.eq]
  {
    var c := ParseCmd(line).value;
    forall e | e in Ends(c) ensures e <= |line| && (e < |line| ==> !Plain(line[e])) {
      var x :| x in Ranges(c) && x.eq == e;
      StringIsWord(line, x);
    }
    StringIsWord(line, r);
    var buf := Zeroed(line + [NUL], Ends(c));
    assert r.eq in Ends(c);
    CStringIs(buf, r.q, r.eq);
    assert buf[r.q..r.eq] == line[r.q..r.eq];
  }
}
