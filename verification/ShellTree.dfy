/** The command tree that user/sh.c makes of a line: what it says about the line it was made from. */
module ShellTree {
  import opened ShellGrammar

  /** An EXEC node holds argv and eargv as pairs of positions in the line. */
  datatype Cmd =
    | Execute(argv: seq<(nat, nat)>)
    | Redirect(cmd: Cmd, lo: nat, hi: nat, mode: nat, fd: nat)
    | PipeTo(left: Cmd, right: Cmd)
    | List(left: Cmd, right: Cmd)
    | Back(cmd: Cmd)

  const O_RDONLY: nat := 0
  const O_WRONLY: nat := 1
  const O_CREATE: nat := 0x200
  const O_TRUNC: nat := 0x400

  function Mode(op: char): nat {
    if op == '<' then O_RDONLY else if op == '>' then O_WRONLY + O_CREATE + O_TRUNC else O_WRONLY + O_CREATE
  }
  function Fd(op: char): nat { if op == '<' then 0 else 1 }

  // ---- the tree of a derivation ----

  function Add(c: Cmd, x: Part): Cmd { if x.To? then Redirect(c, x.lo, x.hi, Mode(x.op), Fd(x.op)) else c }

  /** The redirections among parts, the first innermost. */
  function Wrap(c: Cmd, parts: seq<Part>): Cmd {
    if parts == [] then c else Add(Wrap(c, parts[..|parts| - 1]), parts[|parts| - 1])
  }

  function ArgsOf(parts: seq<Part>): seq<(nat, nat)> {
    if parts == [] then []
    else ArgsOf(parts[..|parts| - 1]) + var x := parts[|parts| - 1]; if x.Arg? then [(x.lo, x.hi)] else []
  }

  function TreeExec(e: Exec): Cmd {
    match e
    case Simple(parts) => Wrap(Execute(ArgsOf(parts)), parts)
    case Block(body, redirs) => Wrap(TreeLine(body), redirs)
  }
  function TreePipe(p: Pipe): Cmd { if p.Last? then TreeExec(p.e) else PipeTo(TreeExec(p.e), TreePipe(p.rest)) }
  function Backs(c: Cmd, n: nat): Cmd { if n == 0 then c else Back(Backs(c, n - 1)) }
  function TreeLine(l: Line): Cmd {
    var first := Backs(TreePipe(l.p), l.backs);
    if l.End? then first else List(first, TreeLine(l.rest))
  }

  lemma {:induction false} WrapMore(c: Cmd, parts: seq<Part>, more: seq<Part>)
    ensures Wrap(Wrap(c, parts), more) == Wrap(c, parts + more) && ArgsOf(parts + more) == ArgsOf(parts) + ArgsOf(more)
    decreases |more|
  {
    if more == [] {
      assert parts + more == parts;
    } else {
      var k := |more| - 1;
      WrapMore(c, parts, more[..k]);
      WrapLast(c, parts + more[..k], more[k], parts + more);
    }
  }

  lemma WrapLast(c: Cmd, parts: seq<Part>, x: Part, all: seq<Part>)
    requires all == parts + [x]
    ensures Wrap(c, all) == Add(Wrap(c, parts), x) && ArgsOf(all) == ArgsOf(parts) + if x.Arg? then [(x.lo, x.hi)]
            else []
  {
    assert all[..|all| - 1] == parts;
  }

  // ---- every word of the line is in the tree once ----

  /** The words of a tree: every argument and every file. */
  function Words(c: Cmd): seq<(nat, nat)> {
    match c
    case Execute(argv) => argv
    case Redirect(d, lo, hi, _, _) => Words(d) + [(lo, hi)]
    case PipeTo(left, right) => Words(left) + Words(right)
    case List(left, right) => Words(left) + Words(right)
    case Back(d) => Words(d)
  }

  function Named(ts: seq<Token>): seq<(nat, nat)> {
    if ts == [] then [] else (if ts[0].Word? then [(ts[0].lo, ts[0].hi)] else []) + Named(ts[1..])
  }

  lemma {:induction false} NamedAppend(a: seq<Token>, b: seq<Token>)
    ensures Named(a + b) == Named(a) + Named(b)
  {
    if a == [] {
      assert a + b == b;
    } else {
      NamedAppend(a[1..], b);
      assert (a + b)[1..] == a[1..] + b;
      Pairs(if a[0].Word? then [(a[0].lo, a[0].hi)] else [], Named(a[1..]), Named(b));
    }
  }

  lemma Pairs(a: seq<(nat, nat)>, b: seq<(nat, nat)>, c: seq<(nat, nat)>)
    ensures (a + b) + c == a + (b + c)
  {
  }

  lemma {:induction false} NamedBacks(n: nat)
    ensures Named(YieldBacks(n)) == []
  {
    if n > 0 {
      NamedBacks(n - 1);
      assert ([Sym('&')] + YieldBacks(n - 1))[1..] == YieldBacks(n - 1);
    }
  }

  lemma {:induction false} BacksWords(c: Cmd, n: nat)
    ensures Words(Backs(c, n)) == Words(c)
  {
    if n > 0 { BacksWords(c, n - 1); }
  }

  function Files(parts: seq<Part>): seq<(nat, nat)> {
    if parts == [] then []
    else Files(parts[..|parts| - 1]) + var x := parts[|parts| - 1]; if x.To? then [(x.lo, x.hi)] else []
  }

  lemma {:induction false} WrapWords(c: Cmd, parts: seq<Part>)
    ensures Words(Wrap(c, parts)) == Words(c) + Files(parts)
    decreases |parts|
  {
    if parts != [] { WrapWords(c, parts[..|parts| - 1]); }
  }

  lemma {:induction false} YieldLast(parts: seq<Part>, x: Part)
    ensures YieldParts(parts + [x]) == YieldParts(parts) + YieldPart(x)
  {
    if parts == [] {
      assert parts + [x] == [x] && [x][1..] == [];
    } else {
      YieldLast(parts[1..], x);
      assert (parts + [x])[1..] == parts[1..] + [x];
    }
  }

  lemma NamedPart(x: Part)
    ensures Named(YieldPart(x)) == [(x.lo, x.hi)]
  {
    var w := [Word(x.lo, x.hi)];
    assert w[1..] == [] && Named(w) == [(x.lo, x.hi)];
    if x.To? { assert YieldPart(x) == [Sym(x.op)] + w && YieldPart(x)[1..] == w; }
  }

  lemma FilesLast(parts: seq<Part>, x: Part, all: seq<Part>)
    requires all == parts + [x]
    ensures Files(all) == Files(parts) + if x.To? then [(x.lo, x.hi)] else []
  {
    assert all[..|all| - 1] == parts;
  }

  lemma NamedLast(parts: seq<Part>, x: Part, all: seq<Part>)
    requires all == parts + [x]
    ensures Named(YieldParts(all)) == Named(YieldParts(parts)) + [(x.lo, x.hi)]
  {
    YieldLast(parts, x);
    NamedPart(x);
    NamedAppend(YieldParts(parts), YieldPart(x));
  }

  lemma {:induction false} PartsWords(parts: seq<Part>)
    ensures multiset(Named(YieldParts(parts))) == multiset(ArgsOf(parts)) + multiset(Files(parts))
    decreases |parts|
  {
    if parts != [] {
      var k := |parts| - 1;
      var init, x := parts[..k], parts[k];
      assert parts == init + [x];
      PartsWords(init);
      NamedLast(init, x, parts);
      WrapLast(Execute([]), init, x, parts);
      FilesLast(init, x, parts);
    }
  }

  lemma {:induction false} RedirsWords(parts: seq<Part>)
    requires GoodRedirs(parts)
    ensures ArgsOf(parts) == []
  {
    if parts != [] {
      RedirsWords(parts[1..]);
      WrapMore(Execute([]), [parts[0]], parts[1..]);
      assert parts == [parts[0]] + parts[1..] && ArgsOf([parts[0]]) == [];
    }
  }

  lemma {:induction false} ExecWords(e: Exec)
    requires GoodExec(e)
    ensures multiset(Words(TreeExec(e))) == multiset(Named(YieldExec(e)))
    decreases e
  {
    match e
    case Simple(parts) =>
      PartsWords(parts);
      WrapWords(Execute(ArgsOf(parts)), parts);
    case Block(body, redirs) =>
      LineWords(body);
      RedirsWords(redirs);
      PartsWords(redirs);
      WrapWords(TreeLine(body), redirs);
      BlockNamed(body, redirs);
  }

  lemma BlockNamed(body: Line, redirs: seq<Part>)
    ensures Named(YieldExec(Block(body, redirs))) == Named(YieldLine(body)) + Named(YieldParts(redirs))
  {
    var a, b := [Sym('(')], [Sym(')')];
    assert a[1..] == [] && b[1..] == [];
    NamedAppend(a, YieldLine(body));
    NamedAppend(a + YieldLine(body), b);
    NamedAppend(a + YieldLine(body) + b, YieldParts(redirs));
  }

  lemma {:induction false} PipeWords(p: Pipe)
    requires GoodPipe(p)
    ensures multiset(Words(TreePipe(p))) == multiset(Named(YieldPipe(p)))
    decreases p
  {
    ExecWords(p.e);
    if p.Bar? {
      PipeWords(p.rest);
      NamedBetween(YieldExec(p.e), '|', YieldPipe(p.rest));
    }
  }

  /** The words in the tree are the words of the line, each once. */
  lemma {:induction false} LineWords(l: Line)
    requires GoodLine(l)
    ensures multiset(Words(TreeLine(l))) == multiset(Named(YieldLine(l)))
    decreases l
  {
    PipeWords(l.p);
    BacksWords(TreePipe(l.p), l.backs);
    NamedBacks(l.backs);
    NamedAppend(YieldPipe(l.p), YieldBacks(l.backs));
    if l.Semi? {
      LineWords(l.rest);
      NamedBetween(YieldPipe(l.p) + YieldBacks(l.backs), ';', YieldLine(l.rest));
    }
  }

  lemma NamedBetween(a: seq<Token>, c: char, b: seq<Token>)
    ensures Named(a + [Sym(c)] + b) == Named(a) + Named(b)
  {
    var mid := [Sym(c)];
    assert mid[1..] == [];
    NamedAppend(a, mid);
    NamedAppend(a + mid, b);
  }

  lemma {:induction false} NamedIn(ts: seq<Token>, w: (nat, nat)) returns (i: nat)
    requires w in Named(ts)
    ensures i < |ts| && ts[i] == Word(w.0, w.1)
  {
    if ts[0] == Word(w.0, w.1) {
      i := 0;
    } else {
      i := NamedIn(ts[1..], w);
      i := i + 1;
    }
  }

  // ---- the tree spells the line ----

  predicate IsOp(t: Token) { t == Sym('<') || t == Sym('>') || t == Sym('+') }
  predicate IsParen(t: Token) { t == Sym('(') || t == Sym(')') }

  /** The tokens but for parentheses and redirections, in order. */
  function Bare(ts: seq<Token>): seq<Token> {
    if ts == [] then []
    else if IsOp(ts[0]) then if |ts| == 1 then [] else Bare(ts[2..])
    else (if IsParen(ts[0]) then [] else [ts[0]]) + Bare(ts[1..])
  }

  /** The redirections among the tokens, in order: what and where to. */
  function Redirs(ts: seq<Token>): seq<(Token, Token)> {
    if |ts| < 2 then [] else if IsOp(ts[0]) then [(ts[0], ts[1])] + Redirs(ts[2..]) else Redirs(ts[1..])
  }

  /** No redirection lacks its file. */
  predicate Whole(ts: seq<Token>) {
    ts == [] || (if IsOp(ts[0]) then |ts| > 1 && Whole(ts[2..]) else Whole(ts[1..]))
  }

  function AsWords(argv: seq<(nat, nat)>): seq<Token> {
    if argv == [] then [] else AsWords(argv[..|argv| - 1]) + [Word(argv[|argv| - 1].0, argv[|argv| - 1].1)]
  }

  /** The redirection for which open gets this mode and this descriptor is closed first. */
  function Op(mode: nat, fd: nat): char {
    if fd == 0 && mode == 0 then '<' else if fd == 1 && mode == 0x601 then '>'
    else if fd == 1 && mode == 0x201 then '+' else '?'
  }

  /** The commands of a tree, left to right, with what joins them. */
  function Plain(c: Cmd): seq<Token> {
    match c
    case Execute(argv) => AsWords(argv)
    case Redirect(d, _, _, _, _) => Plain(d)
    case PipeTo(left, right) => Plain(left) + [Sym('|')] + Plain(right)
    case List(left, right) => Plain(left) + [Sym(';')] + Plain(right)
    case Back(d) => Plain(d) + [Sym('&')]
  }

  /** Its redirections, left to right. */
  function Moved(c: Cmd): seq<(Token, Token)> {
    match c
    case Execute(argv) => []
    case Redirect(d, lo, hi, mode, fd) => Moved(d) + [(Sym(Op(mode, fd)), Word(lo, hi))]
    case PipeTo(left, right) => Moved(left) + Moved(right)
    case List(left, right) => Moved(left) + Moved(right)
    case Back(d) => Moved(d)
  }

  lemma {:induction false} WholeAppend(a: seq<Token>, b: seq<Token>)
    requires Whole(a) && Whole(b)
    ensures Whole(a + b)
  {
    if a == [] {
      assert a + b == b;
    } else {
      var k := if IsOp(a[0]) then 2 else 1;
      WholeAppend(a[k..], b);
      assert (a + b)[k..] == a[k..] + b;
    }
  }

  lemma BareFirst(ts: seq<Token>)
    requires ts != [] && !IsOp(ts[0])
    ensures Bare(ts) == (if IsParen(ts[0]) then [] else [ts[0]]) + Bare(ts[1..])
  {
  }

  lemma TokensAssoc(a: seq<Token>, b: seq<Token>, c: seq<Token>)
    ensures (a + b) + c == a + (b + c)
  {
  }

  lemma {:induction false} BareAppend(a: seq<Token>, b: seq<Token>)
    requires Whole(a)
    ensures Bare(a + b) == Bare(a) + Bare(b)
  {
    if a == [] {
      assert a + b == b;
    } else if IsOp(a[0]) {
      BareAppend(a[2..], b);
      assert (a + b)[2..] == a[2..] + b;
    } else {
      BareAppend(a[1..], b);
      assert (a + b)[1..] == a[1..] + b;
      BareFirst(a);
      BareFirst(a + b);
      TokensAssoc(if IsParen(a[0]) then [] else [a[0]], Bare(a[1..]), Bare(b));
    }
  }

  lemma {:induction false} RedirsAppend(a: seq<Token>, b: seq<Token>)
    requires Whole(a)
    ensures Redirs(a + b) == Redirs(a) + Redirs(b)
  {
    if a == [] {
      assert a + b == b;
    } else {
      var k := if IsOp(a[0]) then 2 else 1;
      RedirsAppend(a[k..], b);
      assert (a + b)[k..] == a[k..] + b;
      if |a| == 1 { assert a[1..] == [] && a[1..] + b == b; }
    }
  }

  lemma SpellAppend(a: seq<Token>, b: seq<Token>, ab: seq<Token>)
    requires Whole(a) && Whole(b) && ab == a + b
    ensures Whole(ab) && Bare(ab) == Bare(a) + Bare(b) && Redirs(ab) == Redirs(a) + Redirs(b)
  {
    WholeAppend(a, b);
    BareAppend(a, b);
    RedirsAppend(a, b);
  }

  lemma SpellParen(c: char, ts: seq<Token>, all: seq<Token>)
    requires IsParen(Sym(c)) && Whole(ts) && all == [Sym(c)] + ts
    ensures Whole(all) && Bare(all) == Bare(ts) && Redirs(all) == Redirs(ts)
  {
    assert all[1..] == ts;
  }

  lemma SpellSymbol(c: char)
    requires !IsOp(Sym(c))
    ensures Whole([Sym(c)]) && Bare([Sym(c)]) == (if IsParen(Sym(c)) then [] else [Sym(c)]) && Redirs([Sym(c)]) == []
  {
    assert [Sym(c)][1..] == [];
  }

  lemma SpellLast(a: seq<Token>, c: char, ac: seq<Token>)
    requires Whole(a) && !IsOp(Sym(c)) && !IsParen(Sym(c)) && ac == a + [Sym(c)]
    ensures Whole(ac) && Bare(ac) == Bare(a) + [Sym(c)] && Redirs(ac) == Redirs(a)
  {
    SpellSymbol(c);
    SpellAppend(a, [Sym(c)], ac);
    assert Redirs(a) + [] == Redirs(a);
  }

  lemma SpellBetween(a: seq<Token>, c: char, b: seq<Token>, ts: seq<Token>)
    requires Whole(a) && Whole(b) && !IsOp(Sym(c)) && !IsParen(Sym(c)) && ts == a + [Sym(c)] + b
    ensures Whole(ts) && Bare(ts) == Bare(a) + [Sym(c)] + Bare(b) && Redirs(ts) == Redirs(a) + Redirs(b)
  {
    var ac := a + [Sym(c)];
    SpellLast(a, c, ac);
    SpellAppend(ac, b, ts);
  }

  ghost predicate AllGood(parts: seq<Part>) { forall x | x in parts :: x.Arg? || IsRedir(x) }

  lemma {:induction false} PartsGood(parts: seq<Part>)
    requires GoodParts(parts)
    ensures AllGood(parts)
  {
    if parts != [] { PartsGood(parts[1..]); }
  }

  lemma {:induction false} RedirsGood(parts: seq<Part>)
    requires GoodRedirs(parts)
    ensures AllGood(parts) && forall x | x in parts :: x.To?
  {
    if parts != [] { RedirsGood(parts[1..]); }
  }

  lemma SpellPart(x: Part)
    requires x.Arg? || IsRedir(x)
    ensures Whole(YieldPart(x)) && Bare(YieldPart(x)) == (if x.Arg? then [Word(x.lo, x.hi)] else [])
    ensures Redirs(YieldPart(x)) == if x.To? then [(Sym(x.op), Word(x.lo, x.hi))] else []
  {
    var ts := YieldPart(x);
    if x.Arg? { assert ts[1..] == []; } else { assert ts[2..] == []; }
  }

  lemma {:induction false} PartsBare(parts: seq<Part>)
    requires AllGood(parts)
    ensures Whole(YieldParts(parts)) && Bare(YieldParts(parts)) == AsWords(ArgsOf(parts))
    decreases |parts|
  {
    if parts != [] {
      var k := |parts| - 1;
      var init, x := parts[..k], parts[k];
      assert parts == init + [x];
      PartsBare(init);
      YieldLast(init, x);
      SpellPart(x);
      SpellAppend(YieldParts(init), YieldPart(x), YieldParts(parts));
      WrapLast(Execute([]), init, x, parts);
      if x.Arg? {
        AsWordsLast(ArgsOf(init), x.lo, x.hi);
      } else {
        assert ArgsOf(parts) == ArgsOf(init);
      }
    }
  }

  function Pair(x: Part): seq<(Token, Token)> { if x.To? then [(Sym(x.op), Word(x.lo, x.hi))] else [] }

  lemma RedirsLast(init: seq<Part>, x: Part, parts: seq<Part>)
    requires AllGood(init) && (x.Arg? || IsRedir(x)) && parts == init + [x]
    ensures Redirs(YieldParts(parts)) == Redirs(YieldParts(init)) + Pair(x)
  {
    PartsBare(init);
    YieldLast(init, x);
    SpellPart(x);
    SpellAppend(YieldParts(init), YieldPart(x), YieldParts(parts));
  }

  lemma AddSpells(c: Cmd, x: Part)
    requires x.Arg? || IsRedir(x)
    ensures Plain(Add(c, x)) == Plain(c) && Moved(Add(c, x)) == Moved(c) + Pair(x)
  {
  }

  lemma PairsAssoc(a: seq<(Token, Token)>, b: seq<(Token, Token)>, c: seq<(Token, Token)>)
    ensures (a + b) + c == a + (b + c)
  {
  }

  lemma {:induction false} WrapSpells(c: Cmd, parts: seq<Part>)
    requires AllGood(parts)
    ensures Plain(Wrap(c, parts)) == Plain(c) && Moved(Wrap(c, parts)) == Moved(c) + Redirs(YieldParts(parts))
    decreases |parts|
  {
    if parts != [] {
      var init, x := parts[..|parts| - 1], parts[|parts| - 1];
      WrapSpells(c, init);
      AddSpells(Wrap(c, init), x);
      RedirsLast(init, x, parts);
      PairsAssoc(Moved(c), Redirs(YieldParts(init)), Pair(x));
    }
  }

  lemma AsWordsLast(argv: seq<(nat, nat)>, lo: nat, hi: nat)
    ensures AsWords(argv + [(lo, hi)]) == AsWords(argv) + [Word(lo, hi)]
  {
    assert (argv + [(lo, hi)])[..|argv|] == argv;
  }

  lemma {:induction false} BacksSpell(c: Cmd, n: nat)
    ensures Whole(YieldBacks(n)) && Redirs(YieldBacks(n)) == []
    ensures Plain(Backs(c, n)) == Plain(c) + Bare(YieldBacks(n)) && Moved(Backs(c, n)) == Moved(c)
  {
    if n > 0 {
      BacksSpell(c, n - 1);
      SpellSymbol('&');
      BacksLast(n - 1);
      SpellAppend(YieldBacks(n - 1), [Sym('&')], YieldBacks(n));
    }
  }

  lemma {:induction false} BacksLast(n: nat)
    ensures YieldBacks(n + 1) == YieldBacks(n) + [Sym('&')]
  {
    if n > 0 {
      BacksLast(n - 1);
      assert YieldBacks(n + 1) == [Sym('&')] + (YieldBacks(n - 1) + [Sym('&')]);
    }
  }

  /** The tree has the commands of the tokens, joined as they are, and their redirections. */
  ghost predicate Spells(c: Cmd, ts: seq<Token>) {
    Whole(ts) && Plain(c) == Bare(ts) && Moved(c) == Redirs(ts)
  }

  lemma {:induction false} ExecSpells(e: Exec)
    requires GoodExec(e)
    ensures Spells(TreeExec(e), YieldExec(e))
    decreases e
  {
    match e
    case Simple(parts) =>
      PartsGood(parts);
      PartsBare(parts);
      WrapSpells(Execute(ArgsOf(parts)), parts);
    case Block(body, redirs) =>
      LineSpells(body);
      RedirsGood(redirs);
      PartsBare(redirs);
      WrapSpells(TreeLine(body), redirs);
      RedirsWords(redirs);
      var inner, outer := YieldLine(body), YieldParts(redirs);
      BlockShape(inner, outer);
      BlockSpells(inner, outer, [Sym(')')] + outer, inner + ([Sym(')')] + outer), YieldExec(e));
  }

  lemma BlockShape(body: seq<Token>, redirs: seq<Token>)
    ensures [Sym('(')] + body + [Sym(')')] + redirs == [Sym('(')] + (body + ([Sym(')')] + redirs))
  {
  }

  lemma BlockSpells(body: seq<Token>, redirs: seq<Token>, tail: seq<Token>, inner: seq<Token>, ts: seq<Token>)
    requires Whole(body) && Whole(redirs) && Bare(redirs) == [] && tail == [Sym(')')] + redirs && inner == body + tail
    requires ts == [Sym('(')] + inner
    ensures Whole(ts) && Bare(ts) == Bare(body) && Redirs(ts) == Redirs(body) + Redirs(redirs)
  {
    SpellParen(')', redirs, tail);
    SpellAppend(body, tail, inner);
    SpellParen('(', inner, ts);
    assert Bare(body) + [] == Bare(body);
  }

  lemma {:induction false} PipeSpells(p: Pipe)
    requires GoodPipe(p)
    ensures Spells(TreePipe(p), YieldPipe(p))
    decreases p
  {
    ExecSpells(p.e);
    if p.Bar? {
      PipeSpells(p.rest);
      SpellBetween(YieldExec(p.e), '|', YieldPipe(p.rest), YieldPipe(p));
    }
  }

  /** The commands of the tree and what joins them are those of the line, in order, and so are its redirections. */
  lemma {:induction false} LineSpells(l: Line)
    requires GoodLine(l)
    ensures Spells(TreeLine(l), YieldLine(l))
    decreases l
  {
    PipeSpells(l.p);
    BacksSpell(TreePipe(l.p), l.backs);
    SpellAppend(YieldPipe(l.p), YieldBacks(l.backs), YieldPipe(l.p) + YieldBacks(l.backs));
    if l.Semi? {
      LineSpells(l.rest);
      SpellBetween(YieldPipe(l.p) + YieldBacks(l.backs), ';', YieldLine(l.rest), YieldLine(l));
    }
  }

  // ---- the tree keeps the order of the line ----

  /** Each word ends before the next one begins. */
  ghost predicate Rising(ws: seq<(nat, nat)>) { forall i: nat, j: nat | i < j < |ws| :: ws[i].1 <= ws[j].0 }

  ghost predicate Before(ws: seq<(nat, nat)>, vs: seq<(nat, nat)>) {
    forall w, v | w in ws && v in vs :: w.1 <= v.0
  }

  /** What stands left in the tree stands left in the line. */
  ghost predicate Ordered(c: Cmd) {
    match c
    case Execute(argv) => true
    case Redirect(d, _, _, _, _) => Ordered(d)
    case PipeTo(left, right) => Ordered(left) && Ordered(right) && Before(Words(left), Words(right))
    case List(left, right) => Ordered(left) && Ordered(right) && Before(Words(left), Words(right))
    case Back(d) => Ordered(d)
  }

  lemma {:induction false} LexRising(text: string, p: nat)
    requires p <= |text|
    ensures Rising(Named(Lex(text, p))) && forall w | w in Named(Lex(text, p)) :: p <= w.0
    decreases |text| - p
  {
    var q := Skip(text, p);
    if q < |text| {
      var (t, e) := TokenAt(text, q);
      LexRising(text, e);
      var ts := Lex(text, p);
      assert ts[1..] == Lex(text, e);
      var ws := Named(Lex(text, e));
      if t.Word? {
        assert Named(ts) == [(t.lo, t.hi)] + ws;
        forall i: nat, j: nat | i < j < |ws| + 1 ensures Named(ts)[i].1 <= Named(ts)[j].0 {
          assert Named(ts)[j] == ws[j - 1] && ws[j - 1] in ws;
        }
      } else {
        assert Named(ts) == ws;
      }
    }
  }

  lemma RisingParts(a: seq<(nat, nat)>, b: seq<(nat, nat)>)
    requires Rising(a + b)
    ensures Rising(a) && Rising(b) && Before(a, b)
  {
    var ab := a + b;
    assert forall i: nat | i < |a| :: ab[i] == a[i];
    assert forall i: nat | i < |b| :: ab[|a| + i] == b[i];
  }

  lemma BeforeSame(a: seq<(nat, nat)>, b: seq<(nat, nat)>, c: seq<(nat, nat)>, d: seq<(nat, nat)>)
    requires Before(a, b) && multiset(c) == multiset(a) && multiset(d) == multiset(b)
    ensures Before(c, d)
  {
    forall w, v | w in c && v in d ensures w.1 <= v.0 {
      assert w in multiset(a) && v in multiset(b);
    }
  }

  lemma {:induction false} WrapOrdered(c: Cmd, parts: seq<Part>)
    requires Ordered(c)
    ensures Ordered(Wrap(c, parts))
    decreases |parts|
  {
    if parts != [] { WrapOrdered(c, parts[..|parts| - 1]); }
  }

  lemma {:induction false} BacksOrdered(c: Cmd, n: nat)
    requires Ordered(c)
    ensures Ordered(Backs(c, n))
  {
    if n > 0 { BacksOrdered(c, n - 1); }
  }

  lemma {:induction false} ExecOrdered(e: Exec)
    requires GoodExec(e) && Rising(Named(YieldExec(e)))
    ensures Ordered(TreeExec(e))
    decreases e
  {
    match e
    case Simple(parts) => WrapOrdered(Execute(ArgsOf(parts)), parts);
    case Block(body, redirs) =>
      BlockNamed(body, redirs);
      RisingParts(Named(YieldLine(body)), Named(YieldParts(redirs)));
      LineOrdered(body);
      WrapOrdered(TreeLine(body), redirs);
  }

  lemma {:induction false} PipeOrdered(p: Pipe)
    requires GoodPipe(p) && Rising(Named(YieldPipe(p)))
    ensures Ordered(TreePipe(p))
    decreases p
  {
    if p.Last? {
      ExecOrdered(p.e);
    } else {
      var a, b := YieldExec(p.e), YieldPipe(p.rest);
      NamedBetween(a, '|', b);
      RisingParts(Named(a), Named(b));
      ExecOrdered(p.e);
      PipeOrdered(p.rest);
      ExecWords(p.e);
      PipeWords(p.rest);
      BeforeSame(Named(a), Named(b), Words(TreeExec(p.e)), Words(TreePipe(p.rest)));
    }
  }

  lemma FirstNamed(p: Pipe, backs: nat)
    ensures Named(YieldPipe(p) + YieldBacks(backs)) == Named(YieldPipe(p))
  {
    NamedBacks(backs);
    NamedAppend(YieldPipe(p), YieldBacks(backs));
  }

  lemma {:induction false} LineOrdered(l: Line)
    requires GoodLine(l) && Rising(Named(YieldLine(l)))
    ensures Ordered(TreeLine(l))
    decreases l
  {
    var a := YieldPipe(l.p) + YieldBacks(l.backs);
    FirstNamed(l.p, l.backs);
    BacksWords(TreePipe(l.p), l.backs);
    if l.End? {
      PipeOrdered(l.p);
      BacksOrdered(TreePipe(l.p), l.backs);
    } else {
      var b := YieldLine(l.rest);
      NamedBetween(a, ';', b);
      RisingParts(Named(a), Named(b));
      PipeOrdered(l.p);
      BacksOrdered(TreePipe(l.p), l.backs);
      LineOrdered(l.rest);
      PipeWords(l.p);
      LineWords(l.rest);
      BeforeSame(Named(a), Named(b), Words(TreePipe(l.p)), Words(TreeLine(l.rest)));
    }
  }

  // ---- every tree can be written down ----

  /** A tree that runcmd can run: every argv has room for its final 0, and open gets a mode it is meant for. */
  predicate Proper(c: Cmd) {
    match c
    case Execute(argv) => |argv| < 10
    case Redirect(d, _, _, mode, fd) => Proper(d) && Op(mode, fd) != '?'
    case PipeTo(left, right) => Proper(left) && Proper(right)
    case List(left, right) => Proper(left) && Proper(right)
    case Back(d) => Proper(d)
  }

  function InParens(ts: seq<Token>): seq<Token> { [Sym('(')] + ts + [Sym(')')] }

  /** Where a tree stands: as a line, as a pipeline with its '&', as a pipeline, or as a command of one. */
  datatype Place = AsLine | AsItem | AsPipe | AsExec

  /** The tokens of a tree, in parentheses where it would be read as another one without. */
  function Show(c: Cmd, at: Place): seq<Token> {
    match c
    case Execute(argv) => AsWords(argv)
    case Redirect(d, lo, hi, mode, fd) => Show(d, AsExec) + [Sym(Op(mode, fd)), Word(lo, hi)]
    case PipeTo(left, right) =>
      var ts := Show(left, AsExec) + [Sym('|')] + Show(right, AsPipe);
      if at == AsExec then InParens(ts) else ts
    case List(left, right) =>
      var ts := Show(left, AsItem) + [Sym(';')] + Show(right, AsLine);
      if at == AsLine then ts else InParens(ts)
    case Back(d) =>
      var ts := Show(d, AsItem) + [Sym('&')];
      if at == AsLine || at == AsItem then ts else InParens(ts)
  }

  function ArgParts(argv: seq<(nat, nat)>): seq<Part> {
    if argv == [] then [] else ArgParts(argv[..|argv| - 1]) + [Arg(argv[|argv| - 1].0, argv[|argv| - 1].1)]
  }

  function More(e: Exec, x: Part): Exec {
    match e
    case Simple(parts) => Simple(parts + [x])
    case Block(body, redirs) => Block(body, redirs + [x])
  }

  /** l, which is the line of c, where a command, a pipeline, or one with '&' is called for. */
  function ExecOf(c: Cmd, l: Line): Exec { if c.Execute? || c.Redirect? then l.p.e else Block(l, []) }
  function PipeOf(c: Cmd, l: Line): Pipe {
    if c.Execute? || c.Redirect? || c.PipeTo? then l.p else Last(Block(l, []))
  }
  function ItemOf(c: Cmd, l: Line): (Pipe, nat) { if c.List? then (Last(Block(l, [])), 0) else (l.p, l.backs) }

  /** The derivation of the tokens of a tree. */
  function LineOf(c: Cmd): Line {
    match c
    case Execute(argv) => End(Last(Simple(ArgParts(argv))), 0)
    case Redirect(d, lo, hi, mode, fd) => End(Last(More(ExecOf(d, LineOf(d)), To(Op(mode, fd), lo, hi))), 0)
    case PipeTo(left, right) => End(Bar(ExecOf(left, LineOf(left)), PipeOf(right, LineOf(right))), 0)
    case List(left, right) => var (p, n) := ItemOf(left, LineOf(left)); Semi(p, n, LineOf(right))
    case Back(d) => var (p, n) := ItemOf(d, LineOf(d)); End(p, n + 1)
  }

  /** l is a derivation of the tokens of c, of the kind c calls for, and its tree is c. */
  ghost predicate Stands(c: Cmd, l: Line) {
    && GoodLine(l) && TreeLine(l) == c && YieldLine(l) == Show(c, AsLine)
    && (!c.List? ==> l.End?) && (c.PipeTo? || c.Execute? || c.Redirect? ==> l.backs == 0)
    && (c.Execute? || c.Redirect? ==> l.p.Last?)
  }

  lemma {:induction false} GoodLast(parts: seq<Part>, x: Part)
    ensures GoodParts(parts + [x]) <==> GoodParts(parts) && (x.Arg? || IsRedir(x))
    ensures GoodRedirs(parts + [x]) <==> GoodRedirs(parts) && IsRedir(x)
    ensures Args(parts + [x]) == Args(parts) + if x.Arg? then 1 else 0
  {
    if parts == [] {
      assert parts + [x] == [x] && [x][1..] == [];
    } else {
      GoodLast(parts[1..], x);
      assert (parts + [x])[1..] == parts[1..] + [x];
    }
  }

  lemma {:induction false} ArgPartsWrap(c: Cmd, argv: seq<(nat, nat)>)
    ensures Wrap(c, ArgParts(argv)) == c && ArgsOf(ArgParts(argv)) == argv
  {
    if argv != [] {
      var k := |argv| - 1;
      ArgPartsWrap(c, argv[..k]);
      var init, x := ArgParts(argv[..k]), Arg(argv[k].0, argv[k].1);
      WrapLast(c, init, x, init + [x]);
      assert argv == argv[..k] + [argv[k]];
    }
  }

  lemma {:induction false} ArgPartsStand(argv: seq<(nat, nat)>)
    ensures var parts := ArgParts(argv);
            GoodParts(parts) && Args(parts) == |argv| && YieldParts(parts) == AsWords(argv)
  {
    if argv != [] {
      var k := |argv| - 1;
      ArgPartsStand(argv[..k]);
      var init, x := ArgParts(argv[..k]), Arg(argv[k].0, argv[k].1);
      GoodLast(init, x);
      YieldLast(init, x);
    }
  }

  lemma MoreStands(e: Exec, x: Part)
    requires GoodExec(e) && IsRedir(x)
    ensures GoodExec(More(e, x)) && TreeExec(More(e, x)) == Add(TreeExec(e), x)
    ensures YieldExec(More(e, x)) == YieldExec(e) + YieldPart(x)
  {
    match e
    case Simple(parts) =>
      GoodLast(parts, x);
      YieldLast(parts, x);
      WrapLast(Execute(ArgsOf(parts)), parts, x, parts + [x]);
      assert ArgsOf(parts + [x]) == ArgsOf(parts);
    case Block(body, redirs) =>
      GoodLast(redirs, x);
      YieldLast(redirs, x);
      WrapLast(TreeLine(body), redirs, x, redirs + [x]);
      assert YieldExec(More(e, x)) == [Sym('(')] + YieldLine(body) + [Sym(')')] + (YieldParts(redirs) + YieldPart(x));
  }

  lemma BlockStands(c: Cmd, l: Line)
    requires Stands(c, l)
    ensures GoodExec(Block(l, [])) && TreeExec(Block(l, [])) == c
    ensures YieldExec(Block(l, [])) == InParens(Show(c, AsLine))
  {
    assert YieldExec(Block(l, [])) == InParens(YieldLine(l)) + [];
  }

  /** A command as a line of its own. */
  lemma LastStands(e: Exec)
    ensures GoodLine(End(Last(e), 0)) <==> GoodExec(e)
    ensures TreeLine(End(Last(e), 0)) == TreeExec(e) && YieldLine(End(Last(e), 0)) == YieldExec(e)
  {
    var p := Last(e);
    assert GoodPipe(p) <==> GoodExec(e);
    assert TreePipe(p) == TreeExec(e) && YieldPipe(p) == YieldExec(e);
    assert Backs(TreePipe(p), 0) == TreePipe(p);
    assert YieldLine(End(p, 0)) == YieldPipe(p) + [];
  }

  lemma ExecStands(c: Cmd, l: Line)
    requires Stands(c, l)
    ensures var e := ExecOf(c, l); GoodExec(e) && TreeExec(e) == c && YieldExec(e) == Show(c, AsExec)
  {
    if c.Execute? || c.Redirect? {
      LastStands(l.p.e);
    } else {
      BlockStands(c, l);
    }
  }

  lemma PipeStands(c: Cmd, l: Line)
    requires Stands(c, l)
    ensures var p := PipeOf(c, l); GoodPipe(p) && TreePipe(p) == c && YieldPipe(p) == Show(c, AsPipe)
  {
    if c.Execute? || c.Redirect? || c.PipeTo? {
      assert YieldLine(l) == YieldPipe(l.p) + [];
    } else {
      BlockStands(c, l);
    }
  }

  lemma ItemStands(c: Cmd, l: Line)
    requires Stands(c, l)
    ensures var (p, n) := ItemOf(c, l);
            GoodPipe(p) && Backs(TreePipe(p), n) == c && YieldPipe(p) + YieldBacks(n) == Show(c, AsItem)
  {
    if c.List? {
      BlockStands(c, l);
      assert YieldPipe(Last(Block(l, []))) + [] == YieldPipe(Last(Block(l, [])));
    }
  }

  lemma SimpleStands(c: Cmd)
    requires Proper(c) && c.Execute?
    ensures Stands(c, LineOf(c))
  {
    ArgPartsStand(c.argv);
    ArgPartsWrap(c, c.argv);
    LastStands(Simple(ArgParts(c.argv)));
  }

  lemma RedirectStands(c: Cmd, l: Line)
    requires Proper(c) && c.Redirect? && l == LineOf(c.cmd) && Stands(c.cmd, l)
    ensures Stands(c, LineOf(c))
  {
    var e, x := ExecOf(c.cmd, l), To(Op(c.mode, c.fd), c.lo, c.hi);
    ExecStands(c.cmd, l);
    MoreStands(e, x);
    LastStands(More(e, x));
  }

  lemma BarStands(c: Cmd, l: Line, r: Line)
    requires c.PipeTo? && l == LineOf(c.left) && Stands(c.left, l) && r == LineOf(c.right) && Stands(c.right, r)
    ensures Stands(c, LineOf(c))
  {
    ExecStands(c.left, l);
    PipeStands(c.right, r);
    var p := Bar(ExecOf(c.left, l), PipeOf(c.right, r));
    assert GoodPipe(p) && TreePipe(p) == c && YieldPipe(p) == Show(c, AsLine);
    assert YieldLine(LineOf(c)) == YieldPipe(p) + [];
  }

  lemma ListStands(c: Cmd, l: Line, r: Line)
    requires c.List? && l == LineOf(c.left) && Stands(c.left, l) && r == LineOf(c.right) && Stands(c.right, r)
    ensures Stands(c, LineOf(c))
  {
    ItemStands(c.left, l);
  }

  lemma BackStands(c: Cmd, l: Line)
    requires c.Back? && l == LineOf(c.cmd) && Stands(c.cmd, l)
    ensures Stands(c, LineOf(c))
  {
    ItemStands(c.cmd, l);
    var (p, n) := ItemOf(c.cmd, l);
    BacksLast(n);
    assert YieldPipe(p) + YieldBacks(n + 1) == (YieldPipe(p) + YieldBacks(n)) + [Sym('&')];
  }

  lemma {:induction false} LineStands(c: Cmd)
    requires Proper(c)
    ensures Stands(c, LineOf(c))
  {
    if c.Execute? {
      SimpleStands(c);
    } else if c.Redirect? {
      LineStands(c.cmd);
      RedirectStands(c, LineOf(c.cmd));
    } else if c.Back? {
      LineStands(c.cmd);
      BackStands(c, LineOf(c.cmd));
    } else {
      LineStands(c.left);
      LineStands(c.right);
      if c.PipeTo? {
        BarStands(c, LineOf(c.left), LineOf(c.right));
      } else {
        ListStands(c, LineOf(c.left), LineOf(c.right));
      }
    }
  }

  /** The parser reads the tokens of a tree as that tree. */
  lemma ShowParses(c: Cmd)
    requires Proper(c)
    ensures var r := ParseTokens(Show(c, AsLine)); r.Ok? && r.rest == [] && TreeLine(r.value) == c
  {
    LineStands(c);
    ParsesExactly(Show(c, AsLine), LineOf(c));
  }

  lemma {:induction false} WrapProper(c: Cmd, parts: seq<Part>)
    requires Proper(c) && AllGood(parts)
    ensures Proper(Wrap(c, parts))
    decreases |parts|
  {
    if parts != [] { WrapProper(c, parts[..|parts| - 1]); }
  }

  lemma {:induction false} BacksProper(c: Cmd, n: nat)
    requires Proper(c)
    ensures Proper(Backs(c, n))
  {
    if n > 0 { BacksProper(c, n - 1); }
  }

  lemma {:induction false} ArgsCounted(parts: seq<Part>)
    ensures |ArgsOf(parts)| == Args(parts)
    decreases |parts|
  {
    if parts != [] {
      var init, x := parts[..|parts| - 1], parts[|parts| - 1];
      ArgsCounted(init);
      GoodLast(init, x);
      assert parts == init + [x];
    }
  }

  lemma {:induction false} ExecProper(e: Exec)
    requires GoodExec(e)
    ensures Proper(TreeExec(e))
    decreases e
  {
    match e
    case Simple(parts) =>
      PartsGood(parts);
      ArgsCounted(parts);
      WrapProper(Execute(ArgsOf(parts)), parts);
    case Block(body, redirs) =>
      LineProper(body);
      RedirsGood(redirs);
      WrapProper(TreeLine(body), redirs);
  }

  lemma {:induction false} PipeProper(p: Pipe)
    requires GoodPipe(p)
    ensures Proper(TreePipe(p))
    decreases p
  {
    ExecProper(p.e);
    if p.Bar? { PipeProper(p.rest); }
  }

  /** The trees of lines are exactly the proper ones, since each of those has a line. */
  lemma {:induction false} LineProper(l: Line)
    requires GoodLine(l)
    ensures Proper(TreeLine(l))
    decreases l
  {
    PipeProper(l.p);
    BacksProper(TreePipe(l.p), l.backs);
    if l.Semi? { LineProper(l.rest); }
  }
}
