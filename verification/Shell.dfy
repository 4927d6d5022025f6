/** user/sh.c: the parser, which walks a cursor over the line, and nulterminate, which then cuts the line into C
    strings. */
module Shell {
  import opened ShellGrammar
  import opened ShellTree

  datatype Outcome = Tree(c: Cmd) | Panic(e: Error)

  /** The EXEC node below the redirections gets these arguments: parseexec still holds it and stores into it. */
  function SetArgs(c: Cmd, argv: seq<(nat, nat)>): Cmd {
    match c
    case Execute(_) => Execute(argv)
    case Redirect(d, lo, hi, mode, fd) => Redirect(SetArgs(d, argv), lo, hi, mode, fd)
    case _ => c
  }

  lemma {:induction false} SetArgsWrap(c: Cmd, parts: seq<Part>, argv: seq<(nat, nat)>)
    ensures SetArgs(Wrap(c, parts), argv) == Wrap(SetArgs(c, argv), parts)
    decreases |parts|
  {
    if parts != [] { SetArgsWrap(c, parts[..|parts| - 1], argv); }
  }

  // ---- the cursor ----

  function Kind(t: Token): char { if t.Sym? then t.c else 'a' }

  /** The character a token starts with, if it is a symbol. */
  function Head(c: char): char { if c == '+' then '>' else c }

  ghost predicate Symbols(toks: string) { forall i: nat | i < |toks| :: Symbol(toks[i]) }

  lemma LexAt(text: string, p: nat)
    requires p <= |text|
    ensures var q := Skip(text, p); Lex(text, q) == Lex(text, p) && (q == |text| <==> Lex(text, p) == [])
    ensures var q := Skip(text, p);
            q < |text| ==>
            var (t, e) := TokenAt(text, q);
            Lex(text, p) == [t] + Lex(text, e) && (Symbol(text[q]) <==> t.Sym?) && (t.Sym? ==> Head(t.c) == text[q])
  {
    var q := Skip(text, p);
    assert Skip(text, q) == q;
  }

  /** What is parsed when done has been parsed already. */
  function After(done: seq<Part>, r: Parsed<seq<Part>>): Parsed<seq<Part>> {
    match r
    case Ok(more, rest) => Ok(done + more, rest)
    case Err(e) => Err(e)
  }

  lemma AfterNothing(r: Parsed<seq<Part>>)
    ensures After([], r) == r
  {
    if r.Ok? { assert [] + r.value == r.value; }
  }

  lemma AfterNext(done: seq<Part>, x: Part, r: Parsed<seq<Part>>)
    ensures After(done, Prepend(x, r)) == After(done + [x], r)
  {
    if r.Ok? { assert done + ([x] + r.value) == (done + [x]) + r.value; }
  }

  lemma AfterAfter(a: seq<Part>, b: seq<Part>, r: Parsed<seq<Part>>)
    ensures After(a, After(b, r)) == After(a + b, r)
  {
    if r.Ok? { assert a + (b + r.value) == (a + b) + r.value; }
  }

  /** parseexec's loop: done is parsed, argv are its arguments, and c its tree so far. */
  ghost predicate Progress(all: Parsed<seq<Part>>, done: seq<Part>, argv: seq<(nat, nat)>, c: Cmd, ts: seq<Token>) {
    && argv == ArgsOf(done) && c == Wrap(Execute(argv), done) && |argv| < MAXARGS
    && all == After(done, ParseParts(ts, |argv|)) && !StartsRedir(ts)
  }

  lemma ProgressStarts(ts: seq<Token>)
    ensures var r := ParseRedirs(ts);
            if r.Err? then ParseParts(ts, 0) == r
                else Progress(ParseParts(ts, 0), r.value, [], Wrap(Execute([]), r.value), r.rest)
  {
    PartsAfterRedirs(ts, 0);
  }

  /** One more argument, and the redirections d behind it. */
  lemma ProgressStep(all: Parsed<seq<Part>>, done: seq<Part>, argv: seq<(nat, nat)>, c: Cmd, ts: seq<Token>,
      more: seq<(nat, nat)>)
    requires Progress(all, done, argv, c, ts) && StartsWord(ts) && more == argv + [(ts[0].lo, ts[0].hi)]
    ensures |more| >= MAXARGS ==> all == Err(TooManyArgs)
    ensures |more| < MAXARGS ==>
              var r := ParseRedirs(ts[1..]);
              if r.Err? then all == r
              else Progress(all, done + [Arg(ts[0].lo, ts[0].hi)] + r.value, more, Wrap(SetArgs(c, more), r.value),
                  r.rest)
  {
    var x, r := Arg(ts[0].lo, ts[0].hi), ParseRedirs(ts[1..]);
    if |more| < MAXARGS {
      PartsAfterRedirs(ts[1..], |more|);
      AfterNext(done, x, ParseParts(ts[1..], |more|));
      if r.Ok? {
        AfterAfter(done + [x], r.value, ParseParts(r.rest, |more|));
        SetArgsWrap(Execute(argv), done, more);
        WrapLast(Execute(more), done, x, done + [x]);
        WrapMore(Execute(more), done + [x], r.value);
      }
    }
  }

  /** The loop stops, or cannot go on. */
  lemma ProgressEnds(all: Parsed<seq<Part>>, done: seq<Part>, argv: seq<(nat, nat)>, c: Cmd, ts: seq<Token>)
    requires Progress(all, done, argv, c, ts) && !StartsWord(ts)
    ensures all == if Stops(ts) then Ok(done, ts) else Err(Syntax)
  {
    assert done + [] == done;
  }

  /** Redirections first, and then the rest of a simple command. */
  lemma {:induction false} PartsAfterRedirs(ts: seq<Token>, argc: nat)
    ensures var r := ParseRedirs(ts); ParseParts(ts, argc) == if r.Err? then r
            else After(r.value, ParseParts(r.rest, argc))
    ensures var r := ParseRedirs(ts); r.Ok? ==> !StartsRedir(r.rest) && ArgsOf(r.value) == []
  {
    if StartsRedir(ts) && StartsWord(ts[1..]) {
      PartsAfterRedirs(ts[2..], argc);
      var x, r := To(ts[0].c, ts[1].lo, ts[1].hi), ParseRedirs(ts[2..]);
      if r.Ok? {
        AfterNext([], x, ParseParts(r.rest, argc));
        FirstRedir(x, r.value, ParseParts(r.rest, argc));
      }
    } else if !StartsRedir(ts) {
      AfterNothing(ParseParts(ts, argc));
    }
  }

  lemma FirstRedir(x: Part, more: seq<Part>, r: Parsed<seq<Part>>)
    requires x.To? && ArgsOf(more) == []
    ensures Prepend(x, After(more, r)) == After([x] + more, r) && ArgsOf([x] + more) == []
  {
    if r.Ok? { assert [x] + (more + r.value) == ([x] + more) + r.value; }
    WrapMore(Execute([]), [x], more);
    assert ArgsOf([x]) == [];
  }

  class Parser {
    const text: string
    var s: nat

    ghost predicate Valid()
      reads this
    {
      s <= |text| && '\0' !in text
    }

    /** The tokens from the cursor on. */
    ghost function Rest(): seq<Token>
      requires Valid()
      reads this
    {
      Lex(text, s)
    }

    constructor (line: string)
      requires '\0' !in line
      ensures text == line && s == 0 && Valid()
    {
      text, s := line, 0;
    }

    method SkipSpaces()
      requires Valid()
      modifies this
      ensures Valid() && s == Skip(text, old(s))
    {
      while s < |text| && Space(text[s])
        invariant Valid() && Skip(text, s) == Skip(text, old(s))
      {
        s := s + 1;
      }
    }

    /** gettoken: the kind of the next token, 0 at the end, and its place. */
    method GetToken() returns (tok: char, q: nat, eq: nat)
      requires Valid()
      modifies this
      ensures Valid() && old(s) <= s
      ensures old(Rest()) == [] ==> tok == '\0' && Rest() == []
      ensures old(Rest()) != [] ==> old(s) < s && tok == Kind(old(Rest())[0]) && Rest() == old(Rest())[1..]
      ensures tok == 'a' <==> StartsWord(old(Rest()))
      ensures tok == 'a' ==> old(Rest())[0] == Word(q, eq)
    {
      LexAt(text, s);
      SkipSpaces();
      q := s;
      if s == |text| {
        tok := '\0';
      } else {
        tok := OneToken();
      }
      eq := s;
      LexAt(text, s);
      SkipSpaces();
    }

    /** gettoken's switch. */
    method OneToken() returns (tok: char)
      requires s < |text| && !Space(text[s])
      modifies this
      ensures var (t, e) := TokenAt(text, old(s)); s == e && tok == Kind(t) && (t.Word? ==> t == Word(old(s), s))
    {
      if text[s] == '>' {
        tok := '>';
        s := s + 1;
        if s < |text| && text[s] == '>' {
          tok := '+';
          s := s + 1;
        }
      } else if Symbol(text[s]) {
        tok := text[s];
        s := s + 1;
      } else {
        tok := 'a';
        while s < |text| && !Space(text[s]) && !Symbol(text[s])
          invariant s <= |text| && WordEnd(text, s) == WordEnd(text, old(s))
        {
          s := s + 1;
        }
      }
    }

    /** peek: whether the next token starts with one of these symbols. */
    method Peek(toks: string) returns (r: bool)
      requires Valid() && Symbols(toks)
      modifies this
      ensures Valid() && old(s) <= s == Skip(text, old(s)) && Rest() == old(Rest())
      ensures r <==> Rest() != [] && Rest()[0].Sym? && Head(Rest()[0].c) in toks
    {
      LexAt(text, s);
      SkipSpaces();
      r := s < |text| && text[s] in toks;
    }

    /** A redirection and its file. */
    method TakeRedir() returns (file: bool, tok: char, q: nat, eq: nat)
      requires Valid() && StartsRedir(Rest())
      modifies this
      ensures Valid() && old(s) < s && (file <==> StartsWord(old(Rest())[1..])) && tok == old(Rest())[0].c
      ensures file ==> Rest() == old(Rest())[2..] && old(Rest())[1] == Word(q, eq)
    {
      tok, q, eq := GetToken();
      var kind;
      kind, q, eq := GetToken();
      file := kind == 'a';
    }

    method PeekRedir() returns (r: bool)
      requires Valid()
      modifies this
      ensures Valid() && old(s) <= s && Rest() == old(Rest()) && (r <==> StartsRedir(Rest()))
    {
      r := Peek("<>");
    }

    /** One round of parseredirs. */
    method RedirRound(ghost cmd: Cmd, c: Cmd, ghost done: seq<Part>, ghost all: Parsed<seq<Part>>)
      returns (file: bool, next: Cmd, ghost more: seq<Part>)
      requires Valid() && StartsRedir(Rest()) && c == Wrap(cmd, done)
               && all == After(done, ShellGrammar.ParseRedirs(Rest()))
      modifies this
      ensures Valid() && old(s) < s && (!file ==> all == Err(MissingFile))
      ensures file ==> next == Wrap(cmd, more) && all == After(more, ShellGrammar.ParseRedirs(Rest()))
    {
      var tok, q, eq;
      file, tok, q, eq := TakeRedir();
      next, more := c, done;
      if !file { return; }
      ghost var x := To(tok, q, eq);
      more := done + [x];
      AfterNext(done, x, ShellGrammar.ParseRedirs(Rest()));
      WrapLast(cmd, done, x, more);
      next := Redirect(c, q, eq, Mode(tok), Fd(tok));
    }

    /** parseredirs wraps cmd in the redirections that come next. */
    method ParseRedirs(cmd: Cmd) returns (r: Outcome, ghost done: seq<Part>)
      requires Valid()
      modifies this
      ensures Valid() && old(s) <= s
      ensures match ShellGrammar.ParseRedirs(old(Rest()))
              case Err(e) => r == Panic(e)
              case Ok(parts, rest) => done == parts && r == Tree(Wrap(cmd, parts)) && Rest() == rest
    {
      var c := cmd;
      done := [];
      ghost var all := ShellGrammar.ParseRedirs(Rest());
      AfterNothing(all);
      var more := PeekRedir();
      while more
        invariant Valid() && old(s) <= s && c == Wrap(cmd, done) && all == After(done, ShellGrammar.ParseRedirs(Rest()))
                  && (more <==> StartsRedir(Rest()))
        decreases |text| - s
      {
        var file;
        file, c, done := RedirRound(cmd, c, done, all);
        if !file { return Panic(MissingFile), done; }
        more := PeekRedir();
      }
      r := Tree(c);
    }

    method PeekEnd() returns (end: bool)
      requires Valid()
      modifies this
      ensures Valid() && old(s) <= s && Rest() == old(Rest()) && (end <==> Rest() != [] && Stops(Rest()))
    {
      end := Peek("|)&;");
    }

    /** One round of parseexec's loop; over at the end of the line. */
    method ParseArg(c: Cmd, argv: seq<(nat, nat)>, ghost all: Parsed<seq<Part>>, ghost done: seq<Part>)
      returns (over: bool, r: Outcome, more: seq<(nat, nat)>, ghost next: seq<Part>)
      requires Valid() && Progress(all, done, argv, c, Rest()) && !(Rest() != [] && Stops(Rest()))
      modifies this
      ensures Valid() && old(s) <= s
      ensures over ==> Rest() == [] && r == Tree(c) && all == Ok(done, []) && more == argv && next == done
      ensures !over ==> old(s) < s && if r.Panic? then all == Err(r.e) else Progress(all, next, more, r.c, Rest())
    {
      ghost var ts := Rest();
      var tok, q, eq := GetToken();
      over, more, next := tok == '\0', argv, done;
      if over {
        ProgressEnds(all, done, argv, c, ts);
        return true, Tree(c), argv, done;
      }
      if tok != 'a' {
        ProgressEnds(all, done, argv, c, ts);
        return false, Panic(Syntax), argv, done;
      }
      more := argv + [(q, eq)];
      ProgressStep(all, done, argv, c, ts, more);
      if |more| >= MAXARGS { return false, Panic(TooManyArgs), more, done; }
      ghost var d;
      r, d := ParseRedirs(SetArgs(c, more));
      next := done + [Arg(q, eq)] + d;
    }

    /** parseexec, when no block comes next. */
    method ParseSimple() returns (r: Outcome)
      requires Valid()
      modifies this
      ensures Valid() && old(s) <= s
      ensures match ParseParts(old(Rest()), 0)
              case Err(e) => r == Panic(e)
              case Ok(parts, rest) => r == Tree(Wrap(Execute(ArgsOf(parts)), parts)) && Rest() == rest
    {
      ghost var all := ParseParts(Rest(), 0);
      ProgressStarts(Rest());
      var argv := [];
      ghost var done;
      r, done := ParseRedirs(Execute(argv));
      if r.Panic? { return; }
      var end := PeekEnd();
      while !end
        invariant Valid() && old(s) <= s && r.Tree? && Progress(all, done, argv, r.c, Rest())
                  && (end <==> Rest() != [] && Stops(Rest()))
        decreases |text| - s
      {
        var over;
        over, r, argv, done := ParseArg(r.c, argv, all, done);
        if over || r.Panic? { return; }
        end := PeekEnd();
      }
      ProgressEnds(all, done, argv, r.c, Rest());
    }

    method PeekFor(c: char) returns (r: bool)
      requires Valid() && Symbol(c) && c != '>'
      modifies this
      ensures Valid() && old(s) <= s && Rest() == old(Rest()) && (r <==> Starts(Rest(), c))
    {
      r := Peek([c]);
    }

    method ParseExec() returns (r: Outcome)
      requires Valid()
      modifies this
      ensures Valid() && old(s) <= s
      ensures match ShellGrammar.ParseExec(old(Rest()))
              case Err(e) => r == Panic(e)
              case Ok(e, rest) => r == Tree(TreeExec(e)) && Rest() == rest
      decreases |text| - s, 2
    {
      var block := PeekFor('(');
      if block {
        r := ParseBlock();
      } else {
        r := ParseSimple();
      }
    }

    method ParseBlock() returns (r: Outcome)
      requires Valid() && Starts(Rest(), '(')
      modifies this
      ensures Valid() && old(s) <= s
      ensures match ShellGrammar.ParseExec(old(Rest()))
              case Err(e) => r == Panic(e)
              case Ok(e, rest) => r == Tree(TreeExec(e)) && Rest() == rest
      decreases |text| - s, 1
    {
      var tok, q, eq := GetToken();
      r := ParseLine();
      if r.Panic? { return; }
      var close := PeekFor(')');
      if !close { return Panic(MissingParen); }
      tok, q, eq := GetToken();
      ghost var done;
      r, done := ParseRedirs(r.c);
    }

    method ParsePipe() returns (r: Outcome)
      requires Valid()
      modifies this
      ensures Valid() && old(s) <= s
      ensures match ShellGrammar.ParsePipe(old(Rest()))
              case Err(e) => r == Panic(e)
              case Ok(p, rest) => r == Tree(TreePipe(p)) && Rest() == rest
      decreases |text| - s, 3
    {
      r := ParseExec();
      if r.Panic? { return; }
      var bar := PeekFor('|');
      if bar {
        var tok, q, eq := GetToken();
        var right := ParsePipe();
        if right.Panic? { return right; }
        r := Tree(PipeTo(r.c, right.c));
      }
    }

    /** parseline's loop over '&'. */
    method ParseBacks(cmd: Cmd) returns (c: Cmd)
      requires Valid()
      modifies this
      ensures Valid() && old(s) <= s
      ensures var n := CountBacks(old(Rest())); c == Backs(cmd, n) && Rest() == old(Rest())[n..]
    {
      c := cmd;
      ghost var ts, n := Rest(), 0;
      var more := PeekFor('&');
      while more
        invariant Valid() && old(s) <= s && n <= |ts| && Rest() == ts[n..] && c == Backs(cmd, n)
                  && (more <==> Starts(Rest(), '&'))
        invariant CountBacks(ts) == n + CountBacks(Rest())
        decreases |text| - s
      {
        var tok, q, eq := GetToken();
        c := Back(c);
        n := n + 1;
        more := PeekFor('&');
      }
    }

    method ParseLine() returns (r: Outcome)
      requires Valid()
      modifies this
      ensures Valid() && old(s) <= s
      ensures match ShellGrammar.ParseLine(old(Rest()))
              case Err(e) => r == Panic(e)
              case Ok(l, rest) => r == Tree(TreeLine(l)) && Rest() == rest
      decreases |text| - s, 4
    {
      r := ParsePipe();
      if r.Panic? { return; }
      var cmd := ParseBacks(r.c);
      r := Tree(cmd);
      var semi := PeekFor(';');
      if semi {
        var tok, q, eq := GetToken();
        var rest := ParseLine();
        if rest.Panic? { return rest; }
        r := Tree(List(cmd, rest.c));
      }
    }

    /** parsecmd, up to nulterminate: the tree of the line's one derivation, or a panic if there is none. */
    method ParseCmd() returns (r: Outcome)
      requires Valid() && s == 0
      modifies this
      ensures Valid()
      ensures match ParseTokens(Lex(text, 0)) case Err(e) => r == Panic(e) case Ok(l, _) => r == Tree(TreeLine(l))
      ensures r.Tree? ==> exists l: Line :: Derives(l, Lex(text, 0)) && r.c == TreeLine(l)
      ensures r.Panic? <==> forall l: Line :: !Derives(l, Lex(text, 0))
    {
      ghost var ts := Lex(text, 0);
      FailsExactly(ts);
      if ParseTokens(ts).Ok? { ParsesExactly(ts, ParseTokens(ts).value); }
      r := ParseLine();
      if r.Panic? { return; }
      LexAt(text, s);
      var any := Peek("");
      if s != |text| { return Panic(Leftovers); }
    }
  }

  // ---- nulterminate ----

  ghost predicate EndsAt(ws: seq<(nat, nat)>, i: nat) { exists k: nat :: k < |ws| && ws[k].1 == i }

  /** now is was with a NUL at the end of each word. */
  ghost predicate Cut(was: string, now: string, ws: seq<(nat, nat)>) {
    |now| == |was| && forall i: nat | i < |now| :: now[i] == if EndsAt(ws, i) then '\0' else was[i]
  }

  lemma CutMore(a: string, b: string, c: string, ws: seq<(nat, nat)>, vs: seq<(nat, nat)>)
    requires Cut(a, b, ws) && Cut(b, c, vs)
    ensures Cut(a, c, ws + vs)
  {
    forall i: nat | i < |a| ensures EndsAt(ws + vs, i) <==> EndsAt(ws, i) || EndsAt(vs, i) { EndsEither(ws, vs, i); }
  }

  lemma EndsEither(ws: seq<(nat, nat)>, vs: seq<(nat, nat)>, i: nat)
    ensures EndsAt(ws + vs, i) <==> EndsAt(ws, i) || EndsAt(vs, i)
  {
    if k: nat :| k < |ws| && ws[k].1 == i { assert (ws + vs)[k].1 == i; }
    if k: nat :| k < |vs| && vs[k].1 == i { assert (ws + vs)[|ws| + k].1 == i; }
    if k: nat :| k < |ws + vs| && (ws + vs)[k].1 == i { assert if k < |ws| then ws[k].1 == i else vs[k - |ws|].1 == i; }
  }

  lemma CutOne(a: string, w: (nat, nat))
    requires w.1 < |a|
    ensures Cut(a, a[w.1 := '\0'], [w])
  {
    assert [w][0].1 == w.1;
  }

  ghost predicate Inside(ws: seq<(nat, nat)>, n: nat) { forall k: nat | k < |ws| :: ws[k].1 < n }

  lemma InsideParts(ws: seq<(nat, nat)>, vs: seq<(nat, nat)>, n: nat)
    ensures Inside(ws + vs, n) <==> Inside(ws, n) && Inside(vs, n)
  {
    if Inside(ws + vs, n) {
      assert forall k: nat | k < |ws| :: (ws + vs)[k] == ws[k];
      assert forall k: nat | k < |vs| :: (ws + vs)[|ws| + k] == vs[k];
    }
  }

  method Nulterminate(buf: array<char>, c: Cmd)
    requires Inside(Words(c), buf.Length)
    modifies buf
    ensures Cut(old(buf[..]), buf[..], Words(c))
    decreases c
  {
    match c
    case Execute(argv) =>
      CutArgs(buf, argv);
    case Redirect(d, lo, hi, _, _) =>
      InsideParts(Words(d), [(lo, hi)], buf.Length);
      assert [(lo, hi)][0].1 < buf.Length;
      Nulterminate(buf, d);
      CutOne(buf[..], (lo, hi));
      ghost var mid := buf[..];
      buf[hi] := '\0';
      CutMore(old(buf[..]), mid, buf[..], Words(d), [(lo, hi)]);
    case PipeTo(left, right) =>
      InsideParts(Words(left), Words(right), buf.Length);
      Nulterminate(buf, left);
      ghost var mid := buf[..];
      Nulterminate(buf, right);
      CutMore(old(buf[..]), mid, buf[..], Words(left), Words(right));
    case List(left, right) =>
      InsideParts(Words(left), Words(right), buf.Length);
      Nulterminate(buf, left);
      ghost var mid := buf[..];
      Nulterminate(buf, right);
      CutMore(old(buf[..]), mid, buf[..], Words(left), Words(right));
    case Back(d) =>
      Nulterminate(buf, d);
  }

  method CutArgs(buf: array<char>, argv: seq<(nat, nat)>)
    requires Inside(argv, buf.Length)
    modifies buf
    ensures Cut(old(buf[..]), buf[..], argv)
  {
    var i := 0;
    while i < |argv|
      invariant i <= |argv| && Cut(old(buf[..]), buf[..], argv[..i])
    {
      ghost var mid := buf[..];
      CutOne(mid, argv[i]);
      buf[argv[i].1] := '\0';
      CutMore(old(buf[..]), mid, buf[..], argv[..i], [argv[i]]);
      assert argv[..i + 1] == argv[..i] + [argv[i]];
      i := i + 1;
    }
    assert argv[..i] == argv;
  }

  // ---- every word of the tree reads as its text ----

  lemma WordIsRun(text: string, l: Line, w: (nat, nat))
    requires Derives(l, Lex(text, 0)) && w in Words(TreeLine(l))
    ensures Run(text, w.0, w.1)
  {
    LineWords(l);
    assert w in multiset(Named(Lex(text, 0)));
    var i := NamedIn(Lex(text, 0), w);
    LexRuns(text, 0, i);
  }

  /** The C string at lo is w. */
  ghost predicate Reads(buf: string, lo: nat, w: string) {
    lo + |w| < |buf| && buf[lo..lo + |w|] == w && buf[lo + |w|] == '\0' && '\0' !in w
  }

  /** No NUL is written inside a word. */
  lemma ReadsWord(text: string, now: string, l: Line, w: (nat, nat))
    requires Derives(l, Lex(text, 0)) && '\0' !in text && Cut(text + ['\0'], now, Words(TreeLine(l)))
             && w in Words(TreeLine(l))
    ensures Run(text, w.0, w.1) && Reads(now, w.0, text[w.0..w.1])
  {
    var ws := Words(TreeLine(l));
    WordIsRun(text, l, w);
    forall i: nat | w.0 <= i < w.1 ensures !EndsAt(ws, i) {
      if k: nat :| k < |ws| && ws[k].1 == i { WordIsRun(text, l, ws[k]); }
    }
    var k: nat :| k < |ws| && ws[k] == w;
    assert EndsAt(ws, w.1);
    assert now[w.0..w.1] == text[w.0..w.1];
  }

  /** parsecmd: on success the tree spells the line and keeps its order, and every word of it reads as its text. */
  method Parsecmd(buf: array<char>, line: string) returns (r: Outcome)
    requires '\0' !in line && buf[..] == line + ['\0']
    modifies buf
    ensures r.Panic? <==> forall l: Line :: !Derives(l, Lex(line, 0))
    ensures r.Tree? ==> exists l: Line :: Derives(l, Lex(line, 0)) && r.c == TreeLine(l)
    ensures r.Tree? ==> multiset(Words(r.c)) == multiset(Named(Lex(line, 0)))
    ensures r.Tree? ==> Spells(r.c, Lex(line, 0)) && Ordered(r.c) && Proper(r.c)
    ensures r.Tree? ==>
            forall k: nat | k < |Words(r.c)| ::
            var w := Words(r.c)[k]; Run(line, w.0, w.1) && Reads(buf[..], w.0, line[w.0..w.1])
  {
    var parser := new Parser(line);
    r := parser.ParseCmd();
    if r.Panic? { return; }
    ghost var l: Line :| Derives(l, Lex(line, 0)) && r.c == TreeLine(l);
    ghost var ws := Words(r.c);
    LineWords(l);
    LineSpells(l);
    LexRising(line, 0);
    LineOrdered(l);
    LineProper(l);
    forall k: nat | k < |ws| ensures ws[k].1 < buf.Length { WordIsRun(line, l, ws[k]); }
    Nulterminate(buf, r.c);
    forall k: nat | k < |ws| ensures var w := ws[k]; Run(line, w.0, w.1) && Reads(buf[..], w.0, line[w.0..w.1]) {
      ReadsWord(line, buf[..], l, ws[k]);
    }
  }
}
