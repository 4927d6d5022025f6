/** The command language of user/sh.c: its tokens, its grammar, and the one tree each token sequence has. */
module ShellGrammar {
  // ---- tokens ----

  /** Sym('+') is ">>". A word is text[lo..hi]. */
  datatype Token = Sym(c: char) | Word(lo: nat, hi: nat)

  predicate Space(c: char) { c == ' ' || c == '\t' || c == '\r' || c == '\n' || c == '\U{b}' }
  predicate Symbol(c: char) { c == '<' || c == '|' || c == '>' || c == '&' || c == ';' || c == '(' || c == ')' }
  predicate Letter(c: char) { !Space(c) && !Symbol(c) }

  /** The first position from p on that is not a space. */
  function Skip(text: string, p: nat): (q: nat)
    requires p <= |text|
    ensures p <= q <= |text| && (q < |text| ==> !Space(text[q])) && forall i: nat | p <= i < q :: Space(text[i])
    decreases |text| - p
  {
    if p < |text| && Space(text[p]) then Skip(text, p + 1) else p
  }

  function WordEnd(text: string, p: nat): (q: nat)
    requires p <= |text|
    ensures p <= q <= |text| && (q < |text| ==> !Letter(text[q])) && forall i: nat | p <= i < q :: Letter(text[i])
    decreases |text| - p
  {
    if p < |text| && Letter(text[p]) then WordEnd(text, p + 1) else p
  }

  /** The token that starts at p, which is not a space, and where it ends. */
  function TokenAt(text: string, p: nat): (r: (Token, nat))
    requires p < |text| && !Space(text[p])
    ensures p < r.1 <= |text|
  {
    var c := text[p];
    if c == '>' && p + 1 < |text| && text[p + 1] == '>' then (Sym('+'), p + 2)
    else if Symbol(c) then (Sym(c), p + 1)
    else (Word(p, WordEnd(text, p)), WordEnd(text, p))
  }

  function Lex(text: string, p: nat): seq<Token>
    requires p <= |text|
    decreases |text| - p
  {
    var q := Skip(text, p);
    if q == |text| then [] else var (t, e) := TokenAt(text, q); [t] + Lex(text, e)
  }

  // ---- the tokens are those of the text ----

  /** A word is a longest run of letters. */
  ghost predicate Run(text: string, lo: nat, hi: nat) {
    && lo < hi <= |text| && (forall i: nat | lo <= i < hi :: Letter(text[i]))
    && (hi < |text| ==> !Letter(text[hi])) && (lo > 0 ==> !Letter(text[lo - 1]))
  }

  /** p is not inside a run of letters. */
  ghost predicate Edge(text: string, p: nat) {
    p <= |text| && (0 < p < |text| ==> !Letter(text[p - 1]) || !Letter(text[p]))
  }

  lemma {:induction false} LexRuns(text: string, p: nat, i: nat)
    requires Edge(text, p) && i < |Lex(text, p)| && Lex(text, p)[i].Word?
    ensures Run(text, Lex(text, p)[i].lo, Lex(text, p)[i].hi)
    decreases |text| - p
  {
    var q := Skip(text, p);
    var (t, e) := TokenAt(text, q);
    assert Lex(text, p) == [t] + Lex(text, e);
    if i > 0 { LexRuns(text, e, i - 1); }
  }

  /** The text from p on without its spaces. */
  function Squeeze(text: string, p: nat): string
    requires p <= |text|
    decreases |text| - p
  {
    if p == |text| then [] else (if Space(text[p]) then [] else [text[p]]) + Squeeze(text, p + 1)
  }

  ghost function Spell(text: string, t: Token): string {
    match t
    case Sym(c) => if c == '+' then ">>" else [c]
    case Word(lo, hi) => if lo <= hi <= |text| then text[lo..hi] else []
  }

  ghost function SpellAll(text: string, ts: seq<Token>): string {
    if ts == [] then [] else Spell(text, ts[0]) + SpellAll(text, ts[1..])
  }

  lemma {:induction false} SqueezeSkip(text: string, p: nat)
    requires p <= |text|
    ensures Squeeze(text, p) == Squeeze(text, Skip(text, p))
    decreases |text| - p
  {
    if p < |text| && Space(text[p]) { SqueezeSkip(text, p + 1); }
  }

  lemma FirstOf(text: string, p: nat, q: nat, e: nat)
    requires q == p + 1 <= e <= |text|
    ensures text[p..e] == [text[p]] + text[q..e]
  {
  }

  lemma Assoc(a: string, b: string, c: string)
    ensures (a + b) + c == a + (b + c)
  {
  }

  lemma {:induction false} SqueezeRun(text: string, p: nat, e: nat)
    requires p <= e <= |text| && forall i: nat | p <= i < e :: !Space(text[i])
    ensures Squeeze(text, p) == text[p..e] + Squeeze(text, e)
    decreases e - p
  {
    if p < e {
      var q := p + 1;
      SqueezeRun(text, q, e);
      FirstOf(text, p, q, e);
      Assoc([text[p]], text[q..e], Squeeze(text, e));
    }
  }

  /** Nothing but spaces is lost, and nothing is reordered. */
  lemma {:induction false} LexSpells(text: string, p: nat)
    requires p <= |text|
    ensures SpellAll(text, Lex(text, p)) == Squeeze(text, p)
    decreases |text| - p
  {
    SqueezeSkip(text, p);
    var q := Skip(text, p);
    if q < |text| {
      var (t, e) := TokenAt(text, q);
      LexSpells(text, e);
      TokenSpelled(text, q);
      SqueezeRun(text, q, e);
      assert Lex(text, p)[1..] == Lex(text, e);
    }
  }

  lemma TokenSpelled(text: string, q: nat)
    requires q < |text| && !Space(text[q])
    ensures var (t, e) := TokenAt(text, q);
            Spell(text, t) == text[q..e] && forall i: nat | q <= i < e :: !Space(text[i])
  {
    var (t, e) := TokenAt(text, q);
    if t.Sym? { assert text[q..e] == Spell(text, t); }
  }

  /** Token t stands at p, up to e, and is as long as it can be. */
  ghost predicate Stands(text: string, t: Token, p: nat, e: nat) {
    && p < e <= |text| && text[p..e] == Spell(text, t)
    && match t
       case Word(lo, hi) => lo == p && hi == e && Run(text, p, e)
       case Sym(c) => (c == '>' && e < |text| ==> text[e] != '>')
  }

  /** at gives the places of the tokens: nothing but spaces lies before, between and after them. */
  ghost predicate Cuts(text: string, p: nat, ts: seq<Token>, at: seq<(nat, nat)>)
    decreases |ts|
  {
    && |at| == |ts| && p <= |text|
    && if ts == [] then forall i: nat | p <= i < |text| :: Space(text[i])
       else
         && Stands(text, ts[0], at[0].0, at[0].1) && p <= at[0].0
         && (forall i: nat | p <= i < at[0].0 :: Space(text[i])) && Cuts(text, at[0].1, ts[1..], at[1..])
  }

  lemma TokenStands(text: string, p: nat)
    requires p < |text| && !Space(text[p]) && (p > 0 ==> !Letter(text[p - 1]) || !Letter(text[p]))
    ensures var (t, e) := TokenAt(text, p); Stands(text, t, p, e) && Edge(text, e)
  {
    TokenSpelled(text, p);
  }

  /** The tokens are cut from the line, each as long as possible. */
  lemma {:induction false} LexCuts(text: string, p: nat) returns (at: seq<(nat, nat)>)
    requires Edge(text, p)
    ensures Cuts(text, p, Lex(text, p), at)
    decreases |text| - p
  {
    var q := Skip(text, p);
    at := [];
    if q < |text| {
      var (t, e) := TokenAt(text, q);
      TokenStands(text, q);
      var rest := LexCuts(text, e);
      at := [(q, e)] + rest;
      assert Lex(text, p)[1..] == Lex(text, e) && at[1..] == rest;
    }
  }

  /** One character: white space, a symbol, or a letter of a word. */
  lemma LexOne(c: char)
    ensures Lex([c], 0) ==
            if c in " \t\r\n\U{b}" then [] else if c in "<|>&;()" then [Sym(c)] else [Word(0, 1)]
  {
    var text := [c];
    assert text[0] == c && WordEnd(text, 1) == 1 && Skip(text, 1) == 1 && Lex(text, 1) == [];
  }

  // ---- the grammar ----

  /** An argument, or a redirection: '<', '>' or '+' and a file. */
  datatype Part = Arg(lo: nat, hi: nat) | To(op: char, lo: nat, hi: nat)
  datatype Exec = Simple(parts: seq<Part>) | Block(body: Line, redirs: seq<Part>)
  datatype Pipe = Last(e: Exec) | Bar(e: Exec, rest: Pipe)
  /** backs counts the '&'. */
  datatype Line = End(p: Pipe, backs: nat) | Semi(p: Pipe, backs: nat, rest: Line)

  const MAXARGS: nat := 10

  predicate IsRedir(x: Part) { x.To? && (x.op == '<' || x.op == '>' || x.op == '+') }

  function Args(parts: seq<Part>): nat {
    if parts == [] then 0 else (if parts[0].Arg? then 1 else 0) + Args(parts[1..])
  }

  predicate GoodRedirs(parts: seq<Part>) { parts == [] || (IsRedir(parts[0]) && GoodRedirs(parts[1..])) }
  predicate GoodParts(parts: seq<Part>) {
    parts == [] || ((parts[0].Arg? || IsRedir(parts[0])) && GoodParts(parts[1..]))
  }

  predicate GoodExec(e: Exec) {
    match e
    case Simple(parts) => GoodParts(parts) && Args(parts) < MAXARGS
    case Block(body, redirs) => GoodLine(body) && GoodRedirs(redirs)
  }
  predicate GoodPipe(p: Pipe) { GoodExec(p.e) && (p.Bar? ==> GoodPipe(p.rest)) }
  predicate GoodLine(l: Line) { GoodPipe(l.p) && (l.Semi? ==> GoodLine(l.rest)) }

  function YieldPart(x: Part): seq<Token> {
    match x
    case Arg(lo, hi) => [Word(lo, hi)]
    case To(op, lo, hi) => [Sym(op), Word(lo, hi)]
  }

  function YieldParts(parts: seq<Part>): seq<Token> {
    if parts == [] then []
    else YieldPart(parts[0]) + YieldParts(parts[1..])
  }
  function YieldBacks(n: nat): seq<Token> { if n == 0 then [] else [Sym('&')] + YieldBacks(n - 1) }

  function YieldExec(e: Exec): seq<Token> {
    match e
    case Simple(parts) => YieldParts(parts)
    case Block(body, redirs) => [Sym('(')] + YieldLine(body) + [Sym(')')] + YieldParts(redirs)
  }
  function YieldPipe(p: Pipe): seq<Token> {
    match p
    case Last(e) => YieldExec(e)
    case Bar(e, rest) => YieldExec(e) + [Sym('|')] + YieldPipe(rest)
  }
  /** The tokens a derivation stands for. */
  function YieldLine(l: Line): seq<Token> {
    match l
    case End(p, backs) => YieldPipe(p) + YieldBacks(backs)
    case Semi(p, backs, rest) => YieldPipe(p) + YieldBacks(backs) + [Sym(';')] + YieldLine(rest)
  }

  // ---- parsing tokens ----

  datatype Error = MissingFile | MissingParen | Syntax | TooManyArgs | Leftovers
  datatype Parsed<T> = Ok(value: T, rest: seq<Token>) | Err(error: Error)

  predicate Starts(ts: seq<Token>, c: char) { ts != [] && ts[0] == Sym(c) }
  predicate StartsRedir(ts: seq<Token>) { Starts(ts, '<') || Starts(ts, '>') || Starts(ts, '+') }
  predicate StartsWord(ts: seq<Token>) { ts != [] && ts[0].Word? }

  function ParseRedirs(ts: seq<Token>): (r: Parsed<seq<Part>>)
    ensures r.Ok? ==> |r.rest| <= |ts|
  {
    if !StartsRedir(ts) then Ok([], ts)
    else if !StartsWord(ts[1..]) then Err(MissingFile)
    else Prepend(To(ts[0].c, ts[1].lo, ts[1].hi), ParseRedirs(ts[2..]))
  }

  /** Arguments and redirections up to a token that ends the command; argc arguments have been seen. */
  function ParseParts(ts: seq<Token>, argc: nat): (r: Parsed<seq<Part>>)
    ensures r.Ok? ==> |r.rest| <= |ts|
  {
    if StartsRedir(ts) then
      if !StartsWord(ts[1..]) then Err(MissingFile)
      else Prepend(To(ts[0].c, ts[1].lo, ts[1].hi), ParseParts(ts[2..], argc))
    else if StartsWord(ts) then
      if argc + 1 >= MAXARGS then Err(TooManyArgs)
      else Prepend(Arg(ts[0].lo, ts[0].hi), ParseParts(ts[1..], argc + 1))
    else if ts == [] || Starts(ts, '|') || Starts(ts, ')') || Starts(ts, '&') || Starts(ts, ';') then Ok([], ts)
    else Err(Syntax)
  }

  function Prepend(x: Part, r: Parsed<seq<Part>>): Parsed<seq<Part>> {
    match r
    case Ok(more, rest) => Ok([x] + more, rest)
    case Err(e) => Err(e)
  }

  function CountBacks(ts: seq<Token>): (n: nat)
    ensures n <= |ts|
  {
    if Starts(ts, '&') then 1 + CountBacks(ts[1..]) else 0
  }

  function ParseExec(ts: seq<Token>): (r: Parsed<Exec>)
    ensures r.Ok? ==> |r.rest| <= |ts|
    decreases |ts|, 0
  {
    if !Starts(ts, '(') then
      match ParseParts(ts, 0)
      case Ok(parts, rest) => Ok(Simple(parts), rest)
      case Err(e) => Err(e)
    else
      match ParseLine(ts[1..])
      case Err(e) => Err(e)
      case Ok(body, rest) =>
        if !Starts(rest, ')') then Err(MissingParen)
        else
          match ParseRedirs(rest[1..])
          case Ok(redirs, last) => Ok(Block(body, redirs), last)
          case Err(e) => Err(e)
  }

  function ParsePipe(ts: seq<Token>): (r: Parsed<Pipe>)
    ensures r.Ok? ==> |r.rest| <= |ts|
    decreases |ts|, 1
  {
    match ParseExec(ts)
    case Err(e) => Err(e)
    case Ok(e, rest) =>
      if !Starts(rest, '|') then Ok(Last(e), rest)
      else
        match ParsePipe(rest[1..])
        case Ok(p, last) => Ok(Bar(e, p), last)
        case Err(err) => Err(err)
  }

  function ParseLine(ts: seq<Token>): (r: Parsed<Line>)
    ensures r.Ok? ==> |r.rest| <= |ts|
    decreases |ts|, 2
  {
    match ParsePipe(ts)
    case Err(e) => Err(e)
    case Ok(p, after) =>
      var n := CountBacks(after);
      var rest := after[n..];
      if !Starts(rest, ';') then Ok(End(p, n), rest)
      else
        match ParseLine(rest[1..])
        case Ok(l, last) => Ok(Semi(p, n, l), last)
        case Err(e) => Err(e)
  }

  function ParseTokens(ts: seq<Token>): Parsed<Line> {
    var r := ParseLine(ts);
    if r.Ok? && r.rest != [] then Err(Leftovers) else r
  }

  // ---- what is parsed is a derivation of the tokens ----

  lemma Glue(ts: seq<Token>, a: seq<Token>, b: seq<Token>, c: seq<Token>, rest: seq<Token>)
    requires ts == a + rest && rest == b + c
    ensures ts == (a + b) + c
  {
  }

  lemma Cons(x: Part, more: seq<Part>)
    ensures YieldParts([x] + more) == YieldPart(x) + YieldParts(more)
            && Args([x] + more) == (if x.Arg? then 1 else 0) + Args(more)
    ensures GoodParts([x] + more) <==> (x.Arg? || IsRedir(x)) && GoodParts(more)
    ensures GoodRedirs([x] + more) <==> IsRedir(x) && GoodRedirs(more)
  {
    assert ([x] + more)[1..] == more;
  }

  lemma {:induction false} RedirsSound(ts: seq<Token>)
    ensures var r := ParseRedirs(ts); r.Ok? ==> GoodRedirs(r.value) && ts == YieldParts(r.value) + r.rest
  {
    if StartsRedir(ts) && StartsWord(ts[1..]) {
      RedirsSound(ts[2..]);
      var r := ParseRedirs(ts[2..]);
      if r.Ok? { PartFirst(ts, To(ts[0].c, ts[1].lo, ts[1].hi), ts[2..], r.value, r.rest); }
    }
  }

  lemma PartFirst(ts: seq<Token>, x: Part, tail: seq<Token>, more: seq<Part>, rest: seq<Token>)
    requires ts == YieldPart(x) + tail && tail == YieldParts(more) + rest
    ensures ts == YieldParts([x] + more) + rest && Args([x] + more) == (if x.Arg? then 1 else 0) + Args(more)
    ensures GoodParts([x] + more) <==> (x.Arg? || IsRedir(x)) && GoodParts(more)
    ensures GoodRedirs([x] + more) <==> IsRedir(x) && GoodRedirs(more)
  {
    Cons(x, more);
    Glue(ts, YieldPart(x), YieldParts(more), rest, tail);
  }

  lemma {:induction false} PartsSound(ts: seq<Token>, argc: nat)
    requires argc < MAXARGS
    ensures var r := ParseParts(ts, argc);
            r.Ok? ==> GoodParts(r.value) && argc + Args(r.value) < MAXARGS && ts == YieldParts(r.value) + r.rest
  {
    if StartsRedir(ts) {
      if StartsWord(ts[1..]) {
        PartsSound(ts[2..], argc);
        var r := ParseParts(ts[2..], argc);
        if r.Ok? { PartFirst(ts, To(ts[0].c, ts[1].lo, ts[1].hi), ts[2..], r.value, r.rest); }
      }
    } else if StartsWord(ts) {
      if argc + 1 < MAXARGS {
        PartsSound(ts[1..], argc + 1);
        var r := ParseParts(ts[1..], argc + 1);
        if r.Ok? { PartFirst(ts, Arg(ts[0].lo, ts[0].hi), ts[1..], r.value, r.rest); }
      }
    }
  }

  lemma {:induction false} BacksSound(ts: seq<Token>)
    ensures ts == YieldBacks(CountBacks(ts)) + ts[CountBacks(ts)..]
  {
    if Starts(ts, '&') {
      BacksSound(ts[1..]);
      var n := CountBacks(ts[1..]);
      assert ts == [ts[0]] + ts[1..] && ts[1..][n..] == ts[n + 1..];
    }
  }

  lemma {:induction false} ExecSound(ts: seq<Token>)
    ensures var r := ParseExec(ts); r.Ok? ==> GoodExec(r.value) && ts == YieldExec(r.value) + r.rest
    decreases |ts|, 0
  {
    if !Starts(ts, '(') {
      PartsSound(ts, 0);
    } else {
      var body := ParseLine(ts[1..]);
      if body.Ok? && Starts(body.rest, ')') {
        LineSound(ts[1..]);
        RedirsSound(body.rest[1..]);
        var r := ParseRedirs(body.rest[1..]);
        if r.Ok? { BlockTokens(ts, body.value, body.rest, r.value, r.rest); }
      }
    }
  }

  lemma BlockTokens(ts: seq<Token>, body: Line, tail: seq<Token>, redirs: seq<Part>, rest: seq<Token>)
    requires Starts(ts, '(') && ts[1..] == YieldLine(body) + tail && Starts(tail, ')')
             && tail[1..] == YieldParts(redirs) + rest
    ensures ts == YieldExec(Block(body, redirs)) + rest
  {
    var a, b := [Sym('(')] + YieldLine(body), [Sym(')')];
    Glue(ts, [Sym('(')], YieldLine(body), tail, ts[1..]);
    Glue(ts, a, b, tail[1..], tail);
    Glue(ts, a + b, YieldParts(redirs), rest, tail[1..]);
  }

  lemma {:induction false} PipeSound(ts: seq<Token>)
    ensures var r := ParsePipe(ts); r.Ok? ==> GoodPipe(r.value) && ts == YieldPipe(r.value) + r.rest
    decreases |ts|, 1
  {
    ExecSound(ts);
    var e := ParseExec(ts);
    if e.Ok? && Starts(e.rest, '|') {
      PipeSound(e.rest[1..]);
      var r := ParsePipe(e.rest[1..]);
      if r.Ok? { BarTokens(ts, e.value, e.rest, r.value, r.rest); }
    }
  }

  lemma BarTokens(ts: seq<Token>, e: Exec, tail: seq<Token>, q: Pipe, rest: seq<Token>)
    requires ts == YieldExec(e) + tail && Starts(tail, '|') && tail[1..] == YieldPipe(q) + rest
    ensures ts == YieldPipe(Bar(e, q)) + rest
  {
    Glue(ts, YieldExec(e), [Sym('|')], tail[1..], tail);
    Glue(ts, YieldExec(e) + [Sym('|')], YieldPipe(q), rest, tail[1..]);
  }

  lemma {:induction false} LineSound(ts: seq<Token>)
    ensures var r := ParseLine(ts); r.Ok? ==> GoodLine(r.value) && ts == YieldLine(r.value) + r.rest
    decreases |ts|, 2
  {
    PipeSound(ts);
    var p := ParsePipe(ts);
    if p.Ok? {
      BacksSound(p.rest);
      var n := CountBacks(p.rest);
      var tail := p.rest[n..];
      Glue(ts, YieldPipe(p.value), YieldBacks(n), tail, p.rest);
      if Starts(tail, ';') {
        LineSound(tail[1..]);
        var r := ParseLine(tail[1..]);
        if r.Ok? { SemiTokens(ts, p.value, n, tail, r.value, r.rest); }
      }
    }
  }

  lemma SemiTokens(ts: seq<Token>, p: Pipe, n: nat, tail: seq<Token>, l: Line, rest: seq<Token>)
    requires ts == (YieldPipe(p) + YieldBacks(n)) + tail && Starts(tail, ';') && tail[1..] == YieldLine(l) + rest
    ensures ts == YieldLine(Semi(p, n, l)) + rest
  {
    var a := YieldPipe(p) + YieldBacks(n);
    Glue(ts, a, [Sym(';')], tail[1..], tail);
    Glue(ts, a + [Sym(';')], YieldLine(l), rest, tail[1..]);
  }

  // ---- and every derivation is found ----

  /** rest ends a simple command. */
  predicate Stops(rest: seq<Token>) {
    rest == [] || Starts(rest, '|') || Starts(rest, ')') || Starts(rest, '&') || Starts(rest, ';')
  }

  lemma {:induction false} PartRest(parts: seq<Part>, rest: seq<Token>, ts: seq<Token>, tail: seq<Token>)
    requires parts != [] && ts == YieldParts(parts) + rest && tail == YieldParts(parts[1..]) + rest
    ensures ts == YieldPart(parts[0]) + tail && parts == [parts[0]] + parts[1..]
  {
    Regroup(YieldPart(parts[0]), YieldParts(parts[1..]), rest);
  }

  lemma Regroup(a: seq<Token>, b: seq<Token>, c: seq<Token>)
    ensures (a + b) + c == a + (b + c)
  {
  }

  lemma {:induction false} RedirsComplete(parts: seq<Part>, rest: seq<Token>)
    requires GoodRedirs(parts) && !StartsRedir(rest)
    ensures ParseRedirs(YieldParts(parts) + rest) == Ok(parts, rest)
  {
    var ts := YieldParts(parts) + rest;
    if parts == [] {
      assert ts == rest;
    } else {
      RedirsComplete(parts[1..], rest);
      var tail := YieldParts(parts[1..]) + rest;
      PartRest(parts, rest, ts, tail);
      assert ts[2..] == tail;
    }
  }

  lemma {:induction false} PartsComplete(parts: seq<Part>, rest: seq<Token>, argc: nat)
    requires GoodParts(parts) && argc + Args(parts) < MAXARGS && Stops(rest)
    ensures ParseParts(YieldParts(parts) + rest, argc) == Ok(parts, rest)
  {
    var ts := YieldParts(parts) + rest;
    if parts == [] {
      assert ts == rest;
    } else {
      var tail, n := YieldParts(parts[1..]) + rest, argc + if parts[0].Arg? then 1 else 0;
      PartsComplete(parts[1..], rest, n);
      PartRest(parts, rest, ts, tail);
      PartStep(ts, parts[0], tail, parts[1..], rest, argc, n);
    }
  }

  lemma PartStep(ts: seq<Token>, x: Part, tail: seq<Token>, more: seq<Part>, rest: seq<Token>, argc: nat, n: nat)
    requires ts == YieldPart(x) + tail && (x.Arg? || IsRedir(x)) && n == argc + (if x.Arg? then 1 else 0) < MAXARGS
    requires ParseParts(tail, n) == Ok(more, rest)
    ensures ParseParts(ts, argc) == Ok([x] + more, rest)
  {
    if x.Arg? { assert ts[1..] == tail; } else { assert ts[2..] == tail; }
  }

  lemma {:induction false} BacksComplete(n: nat, rest: seq<Token>)
    requires !Starts(rest, '&')
    ensures CountBacks(YieldBacks(n) + rest) == n == |YieldBacks(n)|
  {
    var ts := YieldBacks(n) + rest;
    if n == 0 {
      assert ts == rest;
    } else {
      BacksComplete(n - 1, rest);
      assert ts[1..] == YieldBacks(n - 1) + rest;
    }
  }

  lemma {:induction false} ExecComplete(e: Exec, rest: seq<Token>)
    requires GoodExec(e) && Stops(rest)
    ensures ParseExec(YieldExec(e) + rest) == Ok(e, rest)
    decreases e
  {
    var ts := YieldExec(e) + rest;
    match e
    case Simple(parts) =>
      PartsComplete(parts, rest, 0);
      assert parts == [] ==> ts == rest;
    case Block(body, redirs) =>
      var more := [Sym(')')] + (YieldParts(redirs) + rest);
      LineComplete(body, more);
      BlockRest(ts, body, redirs, rest, more);
      RedirsComplete(redirs, rest);
  }

  lemma BlockRest(ts: seq<Token>, body: Line, redirs: seq<Part>, rest: seq<Token>, more: seq<Token>)
    requires ts == YieldExec(Block(body, redirs)) + rest && more == [Sym(')')] + (YieldParts(redirs) + rest)
    ensures Starts(ts, '(') && ts[1..] == YieldLine(body) + more && more[1..] == YieldParts(redirs) + rest
  {
    assert YieldExec(Block(body, redirs)) == [Sym('(')] + (YieldLine(body) + [Sym(')')] + YieldParts(redirs));
  }

  lemma {:induction false} PipeComplete(p: Pipe, rest: seq<Token>)
    requires GoodPipe(p) && Stops(rest) && !Starts(rest, '|')
    ensures ParsePipe(YieldPipe(p) + rest) == Ok(p, rest)
    decreases p
  {
    match p
    case Last(e) =>
      ExecComplete(e, rest);
    case Bar(e, q) =>
      var more := [Sym('|')] + (YieldPipe(q) + rest);
      ExecComplete(e, more);
      BarRest(e, q, rest, more);
      PipeComplete(q, rest);
  }

  lemma {:induction false} BarRest(e: Exec, q: Pipe, rest: seq<Token>, more: seq<Token>)
    requires more == [Sym('|')] + (YieldPipe(q) + rest)
    ensures YieldPipe(Bar(e, q)) + rest == YieldExec(e) + more && more[1..] == YieldPipe(q) + rest
  {
  }

  lemma {:induction false} LineComplete(l: Line, rest: seq<Token>)
    requires GoodLine(l) && (rest == [] || Starts(rest, ')'))
    ensures ParseLine(YieldLine(l) + rest) == Ok(l, rest)
    decreases l
  {
    var tail := if l.End? then rest else [Sym(';')] + (YieldLine(l.rest) + rest);
    var more := YieldBacks(l.backs) + tail;
    LineRest(l, rest, tail, more);
    BacksComplete(l.backs, tail);
    PipeComplete(l.p, more);
    assert more[l.backs..] == tail;
    if l.Semi? {
      LineComplete(l.rest, rest);
      assert tail[1..] == YieldLine(l.rest) + rest;
    }
  }

  lemma LineRest(l: Line, rest: seq<Token>, tail: seq<Token>, more: seq<Token>)
    requires tail == (if l.End? then rest else [Sym(';')] + (YieldLine(l.rest) + rest))
             && more == YieldBacks(l.backs) + tail
    requires rest == [] || Starts(rest, ')')
    ensures YieldLine(l) + rest == YieldPipe(l.p) + more && !Starts(tail, '&') && Stops(more) && !Starts(more, '|')
  {
    assert l.backs == 0 ==> more == tail;
    var head := YieldPipe(l.p) + YieldBacks(l.backs);
    Regroup(YieldPipe(l.p), YieldBacks(l.backs), tail);
    if l.Semi? {
      Regroup(head + [Sym(';')], YieldLine(l.rest), rest);
      Regroup(head, [Sym(';')], YieldLine(l.rest) + rest);
    }
  }

  ghost predicate Derives(l: Line, ts: seq<Token>) { GoodLine(l) && YieldLine(l) == ts }

  /** The parser returns a derivation of the whole input if there is one, and there is never a second. */
  lemma ParsesExactly(ts: seq<Token>, l: Line)
    ensures ParseTokens(ts) == Ok(l, []) <==> Derives(l, ts)
  {
    LineSound(ts);
    if Derives(l, ts) {
      LineComplete(l, []);
      assert ts + [] == ts;
    }
  }

  lemma Unique(l: Line, k: Line, ts: seq<Token>)
    requires Derives(l, ts) && Derives(k, ts)
    ensures l == k
  {
    ParsesExactly(ts, l);
    ParsesExactly(ts, k);
  }

  /** It fails exactly when there is none. */
  lemma FailsExactly(ts: seq<Token>)
    ensures ParseTokens(ts).Err? <==> forall l: Line :: !Derives(l, ts)
  {
    forall l: Line ensures ParseTokens(ts) == Ok(l, []) <==> Derives(l, ts) { ParsesExactly(ts, l); }
    if ParseTokens(ts).Ok? {
      var l := ParseTokens(ts).value;
      assert ParseTokens(ts) == Ok(l, []);
      assert Derives(l, ts);
    }
  }
}
