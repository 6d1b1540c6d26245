/** The parser as the shell runs it, on a position in the line that peek and gettoken move forward, computes what the
    grammar says about the line's tokens. */
module ShScan {
  import opened ShLex
  import opened ShParse
  import opened ShImage

  /** The tokens from `k` on are still to be read at position `p`. */
  ghost predicate Ahead(line: string, p: nat, ts: seq<Token>, k: nat) {
    Text(line) && p <= |line| && k <= |ts| && Lex(line, p) == ts[k..]
  }

  /** gettoken delivers the next token. */
  lemma {:induction false} SeeToken(line: string, p: nat, ts: seq<Token>, k: nat)
    requires Ahead(line, p, ts, k)
    ensures var (t, next) := GetToken(line, p);
      t.kind == KindAt(ts, k) && (k < |ts| ==> t == ts[k] && Ahead(line, next, ts, k + 1))
  {
    var (t, next) := GetToken(line, p);
    if t.kind != End {
      assert ts[k..] == [t] + Lex(line, next);
      assert ts[k] == ts[k..][0] && ts[k + 1..] == ts[k..][1..];
    }
  }

  /** peek tells what it starts with, and only skips white space. */
  lemma {:induction false} SeePeek(line: string, p: nat, ts: seq<Token>, k: nat, toks: set<char>)
    requires Ahead(line, p, ts, k) && toks <= SYMBOLS
    ensures var (next, found) := Peek(line, p, toks);
      (found <==> Starts(KindAt(ts, k), toks)) && Ahead(line, next, ts, k)
  {
    SeeToken(line, p, ts, k);
    PeekSees(line, p, toks);
    LexSkip(line, p);
  }

  function Prepend(a: seq<Target>, r: Parsed<seq<Target>>): Parsed<seq<Target>> {
    match r
    case Panic => Panic
    case Ok(b, k) => Ok(a + b, k)
  }

  lemma {:induction false} PrependNone(r: Parsed<seq<Target>>)
    ensures Prepend([], r) == r
  {
    if r.Ok? { assert [] + r.value == r.value; }
  }

  /** peek for one symbol and, if it is there, gettoken */
  method Take(line: string, ps: nat, ch: char, ghost ts: seq<Token>, ghost k: nat) returns (found: bool, next: nat)
    requires Ahead(line, ps, ts, k) && ch in SYMBOLS && ch != '>'
    ensures found == (KindAt(ts, k) == Sym(ch)) && Ahead(line, next, ts, if found then k + 1 else k)
  {
    SeePeek(line, ps, ts, k, {ch});
    next, found := PeekFor(line, ps, {ch});
    if found {
      var tok;
      SeeToken(line, next, ts, k);
      tok, next := NextToken(line, next);
    }
  }

  /** The outcome `ok`, `v`, `next` of a parsing function is `r`. */
  ghost predicate Agrees<T>(line: string, ts: seq<Token>, r: Parsed<T>, ok: bool, v: T, next: nat) {
    match r
    case Panic => !ok
    case Ok(w, k) => ok && v == w && Ahead(line, next, ts, k)
  }

  /** The body of parseredirs' loop: an arrow, and the word it needs */
  method ReadTarget(line: string, ps: nat, ghost ts: seq<Token>, ghost k: nat) returns (ok: bool, t: Target, next: nat)
    requires Ahead(line, ps, ts, k) && Starts(KindAt(ts, k), {'<', '>'})
    ensures ok == (KindAt(ts, k + 1) == Word)
    ensures ok ==> k + 1 < |ts| && Ahead(line, next, ts, k + 2) && t.file == RangeOf(ts[k + 1])
    ensures ok ==>
      if ts[k].kind == Sym('<') then t.mode == ReadOnly && t.fd == 0 else t.mode == WriteCreate && t.fd == 1
  {
    var tok, file;
    SeeToken(line, ps, ts, k);
    tok, next := NextToken(line, ps);
    SeeToken(line, next, ts, k + 1);
    file, next := NextToken(line, next);
    ok := file.kind == Word;
    t := if tok.kind == Sym('<') then Target(RangeOf(file), ReadOnly, 0) else Target(RangeOf(file), WriteCreate, 1);
  }

  /** parseredirs */
  method ReadRedirs(line: string, ps: nat, ghost ts: seq<Token>, ghost k: nat)
    returns (ok: bool, targets: seq<Target>, next: nat, ghost k': nat)
    requires Ahead(line, ps, ts, k)
    ensures Agrees(line, ts, Redirs(ts, k), ok, targets, next) && (ok ==> k' == Redirs(ts, k).k)
  {
    targets, next, k' := [], ps, k;
    PrependNone(Redirs(ts, k));
    var found;
    SeePeek(line, next, ts, k', {'<', '>'});
    next, found := PeekFor(line, next, {'<', '>'});
    while found
      invariant Ahead(line, next, ts, k') && k <= k' && (found <==> Starts(KindAt(ts, k'), {'<', '>'}))
      invariant Redirs(ts, k) == Prepend(targets, Redirs(ts, k'))
      decreases |ts| - k'
    {
      var t;
      ok, t, next := ReadTarget(line, next, ts, k');
      if !ok { return; }
      TargetStep(ts, k', targets, t);
      targets, k' := targets + [t], k' + 2;
      SeePeek(line, next, ts, k', {'<', '>'});
      next, found := PeekFor(line, next, {'<', '>'});
    }
    assert targets + [] == targets;
    ok := true;
  }

  lemma {:induction false} TargetStep(ts: seq<Token>, k: nat, targets: seq<Target>, t: Target)
    requires k + 1 < |ts| && Starts(ts[k].kind, {'<', '>'}) && ts[k + 1].kind == Word && t.file == RangeOf(ts[k + 1])
    requires if ts[k].kind == Sym('<') then t.mode == ReadOnly && t.fd == 0 else t.mode == WriteCreate && t.fd == 1
    ensures Prepend(targets, Redirs(ts, k)) == Prepend(targets + [t], Redirs(ts, k + 2))
  {
    if Redirs(ts, k + 2).Ok? {
      var rest := Redirs(ts, k + 2).value;
      assert targets + ([t] + rest) == targets + [t] + rest;
    }
  }

  /** parseexec */
  method ReadExec(line: string, ps: nat, ghost ts: seq<Token>, ghost k: nat) returns (ok: bool, c: Cmd, next: nat)
    requires Ahead(line, ps, ts, k)
    ensures Agrees(line, ts, ParseExec(ts, k), ok, c, next)
    decreases |ts| - k, 1
  {
    var open;
    SeePeek(line, ps, ts, k, {'('});
    next, open := PeekFor(line, ps, {'('});
    c := Exec([]);
    if open {
      ok, c, next := ReadBlock(line, next, ts, k);
      return;
    }
    var targets;
    ghost var k1;
    ok, targets, next, k1 := ReadRedirs(line, next, ts, k);
    if !ok { return; }
    ok, c, next := ReadArgs(line, next, targets, ts, k1);
  }

  /** The loop of parseexec */
  method ReadArgs(line: string, ps: nat, first: seq<Target>, ghost ts: seq<Token>, ghost k: nat)
    returns (ok: bool, c: Cmd, next: nat)
    requires Ahead(line, ps, ts, k)
    ensures Agrees(line, ts, ExecLoop(ts, k, [], first), ok, c, next)
  {
    var args: seq<Range>, targets := [], first;
    ghost var k' := k;
    c := Exec([]);
    var stop;
    SeePeek(line, ps, ts, k, {'|', ')', '&', ';'});
    next, stop := PeekFor(line, ps, {'|', ')', '&', ';'});
    while !stop
      invariant Ahead(line, next, ts, k') && k <= k' && (stop <==> Starts(KindAt(ts, k'), {'|', ')', '&', ';'}))
      invariant ExecLoop(ts, k, [], first) == ExecLoop(ts, k', args, targets)
      decreases |ts| - k'
    {
      var tok, more;
      var here := next;
      SeeToken(line, next, ts, k');
      tok, next := NextToken(line, next);
      if tok.kind == End {
        next := here;
        break;
      }
      if tok.kind != Word { return false, c, next; }
      args := args + [RangeOf(tok)];
      if |args| >= MAXARGS { return false, c, next; }
      ok, more, next, k' := ReadRedirs(line, next, ts, k' + 1);
      if !ok { return; }
      targets := targets + more;
      SeePeek(line, next, ts, k', {'|', ')', '&', ';'});
      next, stop := PeekFor(line, next, {'|', ')', '&', ';'});
    }
    ok, c := true, Wrap(Exec(args), targets);
  }

  /** parseblock */
  method ReadBlock(line: string, ps: nat, ghost ts: seq<Token>, ghost k: nat) returns (ok: bool, c: Cmd, next: nat)
    requires Ahead(line, ps, ts, k) && k < |ts|
    ensures Agrees(line, ts, ParseBlock(ts, k), ok, c, next)
    decreases |ts| - k, 0
  {
    c := Exec([]);
    var targets;
    ghost var k2;
    ok, next := Take(line, ps, '(', ts, k);
    if !ok { return; }
    ok, c, next := ReadLine(line, next, ts, k + 1);
    if !ok { return; }
    ghost var k1 := ParseLine(ts, k + 1).k;
    ok, next := Take(line, next, ')', ts, k1);
    if !ok { return; }
    ok, targets, next, k2 := ReadRedirs(line, next, ts, k1 + 1);
    c := Wrap(c, targets);
  }

  /** parsepipe */
  method ReadPipe(line: string, ps: nat, ghost ts: seq<Token>, ghost k: nat) returns (ok: bool, c: Cmd, next: nat)
    requires Ahead(line, ps, ts, k)
    ensures Agrees(line, ts, ParsePipe(ts, k), ok, c, next)
    decreases |ts| - k, 2
  {
    ok, c, next := ReadExec(line, ps, ts, k);
    if !ok { return; }
    ghost var k1 := ParseExec(ts, k).k;
    var found, right;
    found, next := Take(line, next, '|', ts, k1);
    if !found { return; }
    ok, right, next := ReadPipe(line, next, ts, k1 + 1);
    PipeAgrees(line, ts, k, c, k1, ok, right, next);
    c := Pipe(c, right);
  }

  lemma PipeAgrees(line: string, ts: seq<Token>, k: nat, c: Cmd, k1: nat, ok: bool, right: Cmd, next: nat)
    requires k <= |ts| && ParseExec(ts, k) == Ok(c, k1) && KindAt(ts, k1) == Sym('|')
    requires Agrees(line, ts, ParsePipe(ts, k1 + 1), ok, right, next)
    ensures Agrees(line, ts, ParsePipe(ts, k), ok, Pipe(c, right), next)
  {
  }

  /** The ampersands of parseline */
  method ReadBacks(line: string, ps: nat, job: Cmd, ghost ts: seq<Token>, ghost k: nat) returns (c: Cmd, next: nat)
    requires Ahead(line, ps, ts, k)
    ensures c == Backs(ts, k, job).0 && Ahead(line, next, ts, Backs(ts, k, job).1)
  {
    c := job;
    ghost var k' := k;
    var found;
    found, next := Take(line, ps, '&', ts, k);
    while found
      invariant Ahead(line, next, ts, if found then k' + 1 else k') && k <= k'
      invariant (found <==> KindAt(ts, k') == Sym('&')) && Backs(ts, k, job) == Backs(ts, k', c)
      decreases |ts| - k', found
    {
      c, k' := Back(c), k' + 1;
      found, next := Take(line, next, '&', ts, k');
    }
  }

  /** parseline */
  method ReadLine(line: string, ps: nat, ghost ts: seq<Token>, ghost k: nat) returns (ok: bool, c: Cmd, next: nat)
    requires Ahead(line, ps, ts, k)
    ensures Agrees(line, ts, ParseLine(ts, k), ok, c, next)
    decreases |ts| - k, 3
  {
    ok, c, next := ReadPipe(line, ps, ts, k);
    if !ok { return; }
    ghost var k1 := ParsePipe(ts, k).k;
    ghost var k2 := Backs(ts, k1, c).1;
    c, next := ReadBacks(line, next, c, ts, k1);
    var found, right;
    found, next := Take(line, next, ';', ts, k2);
    if found {
      ok, right, next := ReadLine(line, next, ts, k2 + 1);
      c := List(c, right);
    }
  }

  /** parsecmd up to nulterminate; `ok` is false when it panics */
  method ReadCmd(line: string) returns (ok: bool, c: Cmd)
    requires Text(line)
    ensures ok == ParseCmd(line).Ok? && (ok ==> c == ParseCmd(line).value)
  {
    ghost var ts := Lex(line, 0);
    assert ts[0..] == ts;
    var next, found;
    ok, c, next := ReadLine(line, 0, ts, 0);
    if !ok { return; }
    ghost var k := ParseLine(ts, 0).k;
    SeePeek(line, next, ts, k, {});
    next, found := PeekFor(line, next, {});
    SeeEnd(line, next, ts, k);
    if next != |line| { ok := false; }
  }

  /** Where white space has been skipped, the line is at its end exactly when no token is left. */
  lemma {:induction false} SeeEnd(line: string, p: nat, ts: seq<Token>, k: nat)
    requires Ahead(line, p, ts, k) && p == Skip(line, p)
    ensures p == |line| <==> k == |ts|
  {
    SeeToken(line, p, ts, k);
  }
}
