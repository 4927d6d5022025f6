/** user/grep.c: the pattern matcher, and the loop that cuts the input into lines. C strings are Dafny strings without
    their terminating NUL. */
module Grep {
  // ---- what a pattern means ----

  /** One character, or any number of them; '.' stands for every character. */
  datatype Item = One(c: char) | Many(c: char)

  /** A pattern after any leading '^': its items, and whether it ends in '$'. */
  datatype Reading = Reading(items: seq<Item>, end: bool)

  function Parse(re: string): Reading {
    if re == [] then Reading([], false)
    else if |re| > 1 && re[1] == '*' then Before(Many(re[0]), Parse(re[2..]))
    else if re == "$" then Reading([], true)
    else Before(One(re[0]), Parse(re[1..]))
  }

  function Before(x: Item, rd: Reading): Reading { Reading([x] + rd.items, rd.end) }

  predicate Sees(c: char, ch: char) { c == '.' || c == ch }

  /** w is what the item stands for. */
  ghost predicate Fits(x: Item, w: string) {
    match x
    case One(c) => |w| == 1 && Sees(c, w[0])
    case Many(c) => AllSeen(c, w)
  }

  ghost predicate AllSeen(c: char, w: string) { forall i: nat | i < |w| :: Sees(c, w[i]) }

  function Concat(ws: seq<string>): string { if ws == [] then [] else ws[0] + Concat(ws[1..]) }

  /** w is cut into one piece for each item, and each piece fits. */
  ghost predicate Cut(items: seq<Item>, w: string, ws: seq<string>) {
    |ws| == |items| && Concat(ws) == w && forall i: nat | i < |ws| :: Fits(items[i], ws[i])
  }

  ghost predicate Spells(items: seq<Item>, w: string) { exists ws: seq<string> :: Cut(items, w, ws) }

  ghost predicate BeginsTo(rd: Reading, text: string, b: nat) {
    b <= |text| && (rd.end ==> b == |text|) && Spells(rd.items, text[..b])
  }

  /** The pattern matches text from its beginning. */
  ghost predicate Begins(rd: Reading, text: string) { exists b: nat :: BeginsTo(rd, text, b) }

  /** The pattern matches somewhere in text; only at the beginning if it starts with '^'. */
  ghost predicate Found(re: string, text: string) {
    if re != [] && re[0] == '^' then Begins(Parse(re[1..]), text)
        else exists a: nat :: a <= |text| && Begins(Parse(re), text[a..])
  }

  // ---- patterns are read in exactly one way ----

  function Show(items: seq<Item>, end: bool): string {
    if items == [] then if end then "$" else []
    else (if items[0].One? then [items[0].c] else [items[0].c, '*']) + Show(items[1..], end)
  }

  /** No single character could be read as a repetition, or as the closing '$'. */
  ghost predicate Canonical(items: seq<Item>, end: bool) {
    items != [] ==>
      var after := Show(items[1..], end);
      && Canonical(items[1..], end)
      && (items[0].One? ==> if after == [] then items[0].c != '$' else after[0] != '*')
  }

  lemma ShowFirst(x: Item, items: seq<Item>, end: bool)
    ensures Show([x] + items, end) == (if x.One? then [x.c] else [x.c, '*']) + Show(items, end)
    ensures Canonical([x] + items, end) <==>
              Canonical(items, end) && (x.One? ==>
                  if Show(items, end) == [] then x.c != '$' else Show(items, end)[0] != '*')
  {
    assert ([x] + items)[1..] == items;
  }

  lemma {:induction false} ParseCanonical(re: string)
    ensures Canonical(Parse(re).items, Parse(re).end) && Show(Parse(re).items, Parse(re).end) == re
  {
    if re == [] || re == "$" {
    } else if |re| > 1 && re[1] == '*' {
      var rd := Parse(re[2..]);
      ParseCanonical(re[2..]);
      ShowFirst(Many(re[0]), rd.items, rd.end);
      assert re == [re[0], '*'] + re[2..];
    } else {
      var rd := Parse(re[1..]);
      ParseCanonical(re[1..]);
      ShowFirst(One(re[0]), rd.items, rd.end);
      assert re == [re[0]] + re[1..];
    }
  }

  lemma {:induction false} ParseInverse(items: seq<Item>, end: bool)
    requires Canonical(items, end)
    ensures Parse(Show(items, end)) == Reading(items, end)
  {
    if items == [] {
      assert Show(items, end) == if end then "$" else [];
    } else {
      ParseInverse(items[1..], end);
      var s, after := Show(items, end), Show(items[1..], end);
      assert items == [items[0]] + items[1..];
      if items[0].One? {
        assert s == [items[0].c] + after && s[1..] == after;
        assert after != [] ==> s[1] == after[0] != '*';
        assert Parse(s) == Before(One(s[0]), Parse(after));
      } else {
        assert s[2..] == after;
      }
    }
  }

  // ---- the matcher ----

  lemma SpellsNothing(w: string)
    ensures Spells([], w) <==> w == []
  {
    assert Cut([], [], []);
  }

  lemma CutFirst(x: Item, items: seq<Item>, w: string, ws: seq<string>)
    requires Cut([x] + items, w, ws)
    ensures |ws[0]| <= |w| && Fits(x, w[..|ws[0]|]) && Cut(items, w[|ws[0]|..], ws[1..])
  {
    var k := |ws[0]|;
    assert Fits(([x] + items)[0], ws[0]);
    assert w[..k] == ws[0] && w[k..] == Concat(ws[1..]);
    assert forall i: nat | i < |ws[1..]| :: ws[1..][i] == ws[i + 1] && items[i] == ([x] + items)[i + 1];
  }

  lemma CutLonger(x: Item, items: seq<Item>, w: string, k: nat, ws: seq<string>)
    requires k <= |w| && Fits(x, w[..k]) && Cut(items, w[k..], ws)
    ensures Cut([x] + items, w, [w[..k]] + ws)
  {
    assert ([w[..k]] + ws)[1..] == ws;
    assert w[..k] + w[k..] == w;
  }

  lemma SpellsFirst(x: Item, items: seq<Item>, w: string)
    ensures Spells([x] + items, w) <==> exists k: nat :: k <= |w| && Fits(x, w[..k]) && Spells(items, w[k..])
  {
    if ws :| Cut([x] + items, w, ws) {
      CutFirst(x, items, w, ws);
    }
    if k: nat :| k <= |w| && Fits(x, w[..k]) && Spells(items, w[k..]) {
      var ws :| Cut(items, w[k..], ws);
      CutLonger(x, items, w, k, ws);
    }
  }

  lemma BeginsSplit(x: Item, rd: Reading, text: string, b: nat) returns (k: nat)
    requires BeginsTo(Before(x, rd), text, b)
    ensures k <= |text| && Fits(x, text[..k]) && Begins(rd, text[k..])
  {
    SpellsFirst(x, rd.items, text[..b]);
    k :| k <= b && Fits(x, text[..b][..k]) && Spells(rd.items, text[..b][k..]);
    assert text[..b][..k] == text[..k] && text[..b][k..] == text[k..][..b - k];
    assert BeginsTo(rd, text[k..], b - k);
  }

  lemma BeginsJoin(x: Item, rd: Reading, text: string, k: nat, b: nat)
    requires k <= |text| && Fits(x, text[..k]) && BeginsTo(rd, text[k..], b)
    ensures Begins(Before(x, rd), text)
  {
    var e := k + b;
    SpellsFirst(x, rd.items, text[..e]);
    assert text[..e][..k] == text[..k] && text[..e][k..] == text[k..][..b];
    assert BeginsTo(Before(x, rd), text, e);
  }

  lemma BeginsFirst(x: Item, rd: Reading, text: string)
    ensures Begins(Before(x, rd), text) <==> exists k: nat :: k <= |text| && Fits(x, text[..k]) && Begins(rd, text[k..])
  {
    if b: nat :| BeginsTo(Before(x, rd), text, b) {
      var k := BeginsSplit(x, rd, text, b);
    }
    if k: nat :| k <= |text| && Fits(x, text[..k]) && Begins(rd, text[k..]) {
      var b: nat :| BeginsTo(rd, text[k..], b);
      BeginsJoin(x, rd, text, k, b);
    }
  }

  lemma BeginsOne(c: char, rd: Reading, text: string)
    ensures Begins(Before(One(c), rd), text) <==> text != [] && Sees(c, text[0]) && Begins(rd, text[1..])
  {
    BeginsFirst(One(c), rd, text);
    if text != [] && Sees(c, text[0]) && Begins(rd, text[1..]) {
      var k: nat := 1;
      assert k <= |text| && Fits(One(c), text[..k]) && Begins(rd, text[k..]);
    }
  }

  lemma BeginsEmpty(end: bool, text: string)
    ensures Begins(Reading([], end), text) <==> (end ==> text == [])
  {
    var rd := Reading([], end);
    if b: nat :| BeginsTo(rd, text, b) { SpellsNothing(text[..b]); }
    if end ==> text == [] {
      SpellsNothing(text[..0]);
      assert BeginsTo(rd, text, 0);
    }
  }

  // ---- patterns without special characters ----

  predicate Ordinary(re: string) { forall i: nat | i < |re| :: re[i] !in ".*^$" }

  function Closed(re: string, end: bool): string { if end then re + "$" else re }

  lemma ParseOrdinary(re: string, end: bool)
    requires re != [] && Ordinary(re)
    ensures Ordinary(re[1..]) && Parse(Closed(re, end)) == Before(One(re[0]), Parse(Closed(re[1..], end)))
  {
    var all := Closed(re, end);
    assert all[1..] == Closed(re[1..], end);
    assert |re| > 1 ==> all[1] == re[1];
    assert |re| == 1 && end ==> all[1] == '$';
  }

  /** Such a pattern matches where it stands. */
  lemma {:induction false} OrdinaryBegins(re: string, end: bool, text: string)
    requires Ordinary(re)
    ensures Begins(Parse(Closed(re, end)), text) <==> if end then text == re else re <= text
  {
    if re == [] {
      assert Closed(re, end) == if end then "$" else [];
      BeginsEmpty(end, text);
    } else {
      ParseOrdinary(re, end);
      var rd := Parse(Closed(re[1..], end));
      BeginsFirst(One(re[0]), rd, text);
      if text != [] {
        OrdinaryBegins(re[1..], end, text[1..]);
        assert text[..1][0] == text[0] && text == [text[0]] + text[1..] && re == [re[0]] + re[1..];
        assert Fits(One(re[0]), text[..1]) <==> re[0] == text[0];
      }
    }
  }

  /** A pattern without special characters matches the lines that contain it, with '^' those that start with it, with
      '$' those that end in it, and with both that line alone. */
  lemma FindsText(re: string, text: string)
    requires Ordinary(re)
    ensures Found("^" + re, text) <==> re <= text
    ensures Found("^" + re + "$", text) <==> text == re
    ensures Found(re, text) <==> exists a: nat :: a <= |text| && re <= text[a..]
    ensures re != [] ==> (Found(re + "$", text) <==> exists a: nat :: a <= |text| && text[a..] == re)
  {
    assert ("^" + re)[1..] == re && ("^" + re + "$")[1..] == re + "$";
    OrdinaryBegins(re, false, text);
    OrdinaryBegins(re, true, text);
    forall a: nat | a <= |text|
      ensures Begins(Parse(re), text[a..]) <==> re <= text[a..]
      ensures Begins(Parse(re + "$"), text[a..]) <==> text[a..] == re
    {
      OrdinaryBegins(re, false, text[a..]);
      OrdinaryBegins(re, true, text[a..]);
    }
  }

  /** '.' matches any character, and a repetition nothing at all. */
  lemma FindsAny(c: char, text: string)
    ensures Found(".", text) <==> text != []
    ensures c != '^' ==> Found([c, '*'], text)
  {
    var dot := Reading([], false);
    assert Parse(".") == Before(One('.'), dot) && Parse([c, '*']) == Before(Many(c), dot);
    BeginsFirst(Many(c), dot, text[0..]);
    BeginsEmpty(false, text[0..][0..]);
    assert Fits(Many(c), text[0..][..0]);
    if text != [] {
      BeginsFirst(One('.'), dot, text[0..]);
      BeginsEmpty(false, text[0..][1..]);
      assert Fits(One('.'), text[0..][..1]);
    } else {
      BeginsFirst(One('.'), dot, text[0..]);
    }
  }

  /** c* and then the rest, from the beginning of text. */
  ghost predicate StarsAt(c: char, rd: Reading, text: string, k: nat) {
    k <= |text| && AllSeen(c, text[..k]) && Begins(rd, text[k..])
  }

  ghost predicate Stars(c: char, rd: Reading, text: string) { exists k: nat :: StarsAt(c, rd, text, k) }

  lemma BeginsMany(c: char, rd: Reading, text: string)
    ensures Begins(Before(Many(c), rd), text) <==> Stars(c, rd, text)
  {
    BeginsFirst(Many(c), rd, text);
    if k: nat :| StarsAt(c, rd, text, k) { assert Fits(Many(c), text[..k]); }
    if k: nat :| k <= |text| && Fits(Many(c), text[..k]) && Begins(rd, text[k..]) { assert StarsAt(c, rd, text, k); }
  }

  method MatchHere(re: string, text: string) returns (r: bool)
    ensures r <==> Begins(Parse(re), text)
    decreases |re|, 0
  {
    if re == [] {
      BeginsEmpty(false, text);
      return true;
    }
    if |re| > 1 && re[1] == '*' {
      BeginsMany(re[0], Parse(re[2..]), text);
      r := MatchStar(re[0], re[2..], text);
      return;
    }
    if re == "$" {
      BeginsEmpty(true, text);
      return text == [];
    }
    BeginsOne(re[0], Parse(re[1..]), text);
    if text != [] && (re[0] == '.' || re[0] == text[0]) {
      r := MatchHere(re[1..], text[1..]);
      return;
    }
    return false;
  }

  method MatchStar(c: char, re: string, text: string) returns (r: bool)
    ensures r <==> Stars(c, Parse(re), text)
    decreases |re|, 1
  {
    var i := 0;
    while true
      invariant i <= |text| && AllSeen(c, text[..i]) && forall k: nat | k < i :: !StarsAt(c, Parse(re), text, k)
      decreases |text| - i
    {
      r := MatchHere(re, text[i..]);
      if r {
        assert StarsAt(c, Parse(re), text, i);
        return;
      }
      assert !StarsAt(c, Parse(re), text, i);
      if i == |text| || !(text[i] == c || c == '.') { break; }
      i := i + 1;
    }
    forall k: nat ensures !StarsAt(c, Parse(re), text, k) {
      if i < k <= |text| && i < |text| { assert text[..k][i] == text[i]; }
    }
    return false;
  }

  /** match: the code's answer is what the pattern means. */
  method Match(re: string, text: string) returns (r: bool)
    ensures r <==> Found(re, text)
  {
    if re != [] && re[0] == '^' {
      r := MatchHere(re[1..], text);
      return;
    }
    var i := 0;
    while true
      invariant i <= |text| && forall a: nat | a < i :: !Begins(Parse(re), text[a..])
      decreases |text| - i
    {
      r := MatchHere(re, text[i..]);
      if r || i == |text| { return; }
      i := i + 1;
    }
  }

  // ---- lines ----

  const ROOM: nat := 1023              // sizeof(buf) - 1

  /** The first newline of s is at k, and no NUL is before it. */
  ghost predicate LineAt(s: string, k: nat) {
    k < |s| && s[k] == '\n' && forall i: nat | i < k :: s[i] != '\n' && s[i] != '\0'
  }

  ghost predicate NoLine(s: string) { forall k: nat :: !LineAt(s, k) }

  ghost function Shown(re: string, line: string): string { if Found(re, line) then line + "\n" else [] }

  /** What grep prints of input s: the matching lines, up to the first NUL and the first line that does not fit the
      buffer. */
  ghost function Output(re: string, s: string): string
    decreases |s|
  {
    if k: nat :| LineAt(s, k) && k < ROOM then Shown(re, s[..k]) + Output(re, s[k + 1..]) else []
  }

  lemma OneLine(s: string, j: nat, k: nat)
    requires LineAt(s, j) && LineAt(s, k)
    ensures j == k
  {
  }

  lemma OutputLine(re: string, s: string, k: nat)
    requires LineAt(s, k) && k < ROOM
    ensures Output(re, s) == Shown(re, s[..k]) + Output(re, s[k + 1..])
  {
    forall j: nat | LineAt(s, j) ensures j == k { OneLine(s, j, k); }
  }

  /** Without a line in the buffer nothing more is printed once the input is used up or the buffer is full. */
  lemma OutputEnd(re: string, held: string, rest: string)
    requires NoLine(held) && (rest == [] || |held| == ROOM)
    ensures Output(re, held + rest) == []
  {
    if k: nat :| LineAt(held + rest, k) && k < ROOM {
      assert forall i: nat | i < k :: held[i] == (held + rest)[i];
      assert LineAt(held, k);
      assert false;
    }
  }

  // ---- for lines that fit, that is every matching line ----

  function Join(lines: seq<string>): string { if lines == [] then [] else lines[0] + "\n" + Join(lines[1..]) }

  ghost function Matching(re: string, lines: seq<string>): seq<string> {
    if lines == [] then [] else (if Found(re, lines[0]) then [lines[0]] else []) + Matching(re, lines[1..])
  }

  ghost predicate Plain(line: string) { forall i: nat | i < |line| :: line[i] != '\n' && line[i] != '\0' }

  ghost predicate Short(line: string) { |line| < ROOM && Plain(line) }

  lemma JoinMatching(re: string, lines: seq<string>)
    requires lines != []
    ensures Join(Matching(re, lines)) == Shown(re, lines[0]) + Join(Matching(re, lines[1..]))
  {
    var rest := Matching(re, lines[1..]);
    if Found(re, lines[0]) {
      assert Matching(re, lines) == [lines[0]] + rest && ([lines[0]] + rest)[1..] == rest;
    } else {
      assert Matching(re, lines) == rest;
    }
  }

  lemma JoinLine(line: string, more: seq<string>, tail: string, s: string)
    requires s == Join([line] + more) + tail && Plain(line)
    ensures LineAt(s, |line|) && s[..|line|] == line && s[|line| + 1..] == Join(more) + tail
  {
    assert ([line] + more)[1..] == more;
    assert s == line + "\n" + (Join(more) + tail);
  }

  lemma {:induction false} PrintsMatching(re: string, lines: seq<string>, tail: string)
    requires (forall i: nat | i < |lines| :: Short(lines[i])) && '\n' !in tail
    ensures Output(re, Join(lines) + tail) == Join(Matching(re, lines))
  {
    if lines == [] {
      assert Join(lines) + tail == tail && NoLine(tail);
    } else {
      var s := Join(lines) + tail;
      assert lines == [lines[0]] + lines[1..] && Short(lines[0]);
      JoinLine(lines[0], lines[1..], tail, s);
      OutputLine(re, s, |lines[0]|);
      PrintsMatching(re, lines[1..], tail);
      JoinMatching(re, lines);
    }
  }

  lemma NotALine(line: string, more: seq<string>, tail: string, s: string, k: nat)
    requires s == Join([line] + more) + tail && '\n' !in line && !Short(line) && LineAt(s, k)
    ensures k >= ROOM
  {
    assert ([line] + more)[1..] == more;
    assert s == line + "\n" + (Join(more) + tail);
    assert s[|line|] == '\n' && forall i: nat | i < |line| :: s[i] == line[i];
    assert k == |line|;
    assert forall i: nat | i < |line| :: line[i] != '\n' && line[i] != '\0';
  }

  /** A line of 1023 bytes or more, the newline not counted, or with a NUL in it ends the output. */
  lemma {:induction false} BadLineStops(re: string, lines: seq<string>, tail: string, i: nat)
    requires i < |lines| && (forall j: nat | j < i :: Short(lines[j])) && '\n' !in lines[i] && !Short(lines[i])
    ensures Output(re, Join(lines) + tail) == Join(Matching(re, lines[..i]))
    decreases i
  {
    var s, more := Join(lines) + tail, lines[1..];
    assert lines == [lines[0]] + more;
    if i == 0 {
      forall k: nat | LineAt(s, k) ensures k >= ROOM { NotALine(lines[0], more, tail, s, k); }
    } else {
      var j: nat := i - 1;
      assert Short(lines[0]) && more[j] == lines[i];
      JoinLine(lines[0], more, tail, s);
      forall h: nat | h < j ensures Short(more[h]) { assert more[h] == lines[h + 1]; }
      BadLineStops(re, more, tail, j);
      var rest := Join(more) + tail;
      OutputFirst(re, s, |lines[0]|, lines[0], rest);
      FirstMatches(re, lines, more, i, j);
    }
  }

  lemma OutputFirst(re: string, s: string, k: nat, line: string, rest: string)
    requires LineAt(s, k) && k < ROOM && line == s[..k] && rest == s[k + 1..]
    ensures Output(re, s) == Shown(re, line) + Output(re, rest)
  {
    OutputLine(re, s, k);
  }

  lemma FirstMatches(re: string, lines: seq<string>, more: seq<string>, i: nat, j: nat)
    requires lines != [] && more == lines[1..] && i == j + 1 <= |lines|
    ensures Join(Matching(re, lines[..i])) == Shown(re, lines[0]) + Join(Matching(re, more[..j]))
  {
    assert more[..j] == lines[..i][1..];
    JoinMatching(re, lines[..i]);
  }

  lemma {:induction false} EmptyMatchesAll(lines: seq<string>)
    ensures Matching([], lines) == lines
  {
    if lines != [] {
      var a: nat := 0;
      BeginsEmpty(false, lines[0][a..]);
      assert Begins(Parse([]), lines[0][a..]);
      EmptyMatchesAll(lines[1..]);
    }
  }

  lemma {:induction false} JoinShorter(lines: seq<string>, i: nat)
    requires i < |lines|
    ensures |Join(lines[..i])| < |Join(lines)|
  {
    if i > 0 {
      assert lines[..i][1..] == lines[1..][..i - 1];
      JoinShorter(lines[1..], i - 1);
    }
  }

  lemma {:induction false} FirstBad(lines: seq<string>, n: nat) returns (i: nat)
    requires n <= |lines| && exists k: nat :: k < n && !Short(lines[k])
    ensures i < n && !Short(lines[i]) && forall j: nat | j < i :: Short(lines[j])
  {
    i := n - 1;
    if k: nat :| k < n - 1 && !Short(lines[k]) { i := FirstBad(lines, n - 1); }
  }

  /** Every pattern prints all its matching lines exactly when no line is too long and none has a NUL in it. */
  lemma PrintsMatchingIff(lines: seq<string>, tail: string)
    requires (forall i: nat | i < |lines| :: '\n' !in lines[i]) && '\n' !in tail
    ensures (forall re: string :: Output(re, Join(lines) + tail) == Join(Matching(re, lines))) <==>
            forall i: nat | i < |lines| :: Short(lines[i])
  {
    if forall i: nat | i < |lines| :: Short(lines[i]) {
      forall re: string
        ensures Output(re, Join(lines) + tail) == Join(Matching(re, lines))
      {
        PrintsMatching(re, lines, tail);
      }
    } else {
      var i := FirstBad(lines, |lines|);
      BadLineStops([], lines, tail, i);
      EmptyMatchesAll(lines);
      EmptyMatchesAll(lines[..i]);
      JoinShorter(lines, i);
      var re: string := [];
      assert Output(re, Join(lines) + tail) != Join(Matching(re, lines));
    }
  }

  // ---- the loop over reads ----

  /** read: any positive number of bytes up to count, or 0 when there are none or none are asked for. */
  method Read(buf: array<char>, at: nat, count: nat, input: string, pos: nat) returns (n: nat)
    requires at + count <= buf.Length && pos <= |input|
    modifies buf
    ensures n <= count && pos + n <= |input| && (n == 0 <==> count == 0 || pos == |input|)
    ensures buf[..at] == old(buf[..at]) && buf[at..at + n] == input[pos..pos + n]
  {
    var most := if count < |input| - pos then count else |input| - pos;
    if most == 0 { return 0; }
    n :| 0 < n <= most;
    forall i | 0 <= i < n { buf[at + i] := input[pos + i]; }
  }

  /** strchr(p, '\n') on the NUL-terminated buffer. */
  method NextLine(buf: array<char>, p: nat, m: nat) returns (q: int)
    requires p <= m < buf.Length && buf[m] == '\0'
    ensures q >= 0 ==> p <= q < m && LineAt(buf[p..m], q - p)
    ensures q < 0 ==> NoLine(buf[p..m])
  {
    q := p;
    while buf[q] != '\0'
      invariant p <= q <= m && forall i: nat | i < q - p :: buf[p..m][i] != '\n' && buf[p..m][i] != '\0'
      decreases m - q
    {
      assert buf[p..m][q - p] == buf[q];
      if buf[q] == '\n' { return; }
      q := q + 1;
    }
    assert q < m ==> buf[p..m][q - p] == '\0';
    q := -1;
  }

  /** memmove(buf, buf + src, n). */
  method MoveDown(buf: array<char>, src: nat, n: nat)
    requires src + n <= buf.Length
    modifies buf
    ensures buf[..n] == old(buf[src..src + n])
  {
    if src > 0 {
      var i := 0;
      while i < n
        invariant i <= n && buf[..i] == old(buf[src..src + i]) && buf[src + i..src + n] == old(buf[src + i..src + n])
      {
        assert buf[src + i] == buf[src + i..src + n][0] == old(buf[src + i]);
        buf[i] := buf[src + i];
        i := i + 1;
      }
    } else {
      var i := n;
      while i > 0
        invariant buf[..] == old(buf[..])
      {
        i := i - 1;
        buf[i] := buf[src + i];
      }
    }
  }

  /** One line, which ends at q. */
  method PrintLine(buf: array<char>, re: string, p: nat, q: nat, m: nat) returns (printed: string)
    requires p <= q < m < buf.Length && buf[q] == '\n'
    modifies buf
    ensures printed == Shown(re, old(buf[p..q])) && buf[q + 1..m] == old(buf[q + 1..m]) && buf[m] == old(buf[m])
  {
    buf[q] := '\0';
    assert buf[p..q] == old(buf[p..q]);
    var matches := Match(re, buf[p..q]);
    printed := [];
    if matches {
      buf[q] := '\n';
      printed := buf[p..q + 1];
      assert printed == old(buf[p..q]) + "\n";
    }
  }

  lemma LineStep(re: string, held: string, rest: string, k: nat, next: string)
    requires LineAt(held, k) && |held| <= ROOM && next == held[k + 1..]
    ensures Output(re, held + rest) == Shown(re, held[..k]) + Output(re, next + rest)
  {
    var s, j := held + rest, k + 1;
    SameLine(held, rest, k);
    Suffix(held, rest, k);
    Suffix(held, rest, j);
    OutputFirst(re, s, k, held[..k], next + rest);
  }

  lemma SameLine(held: string, rest: string, k: nat)
    requires LineAt(held, k)
    ensures LineAt(held + rest, k)
  {
    assert forall i: nat | i < k :: (held + rest)[i] == held[i];
  }

  lemma Suffix(a: string, b: string, k: nat)
    requires k <= |a|
    ensures (a + b)[k..] == a[k..] + b && (a + b)[..k] == a[..k]
  {
  }

  lemma Cells(c: string, held: string, p: nat, q: nat, m: nat, k: nat)
    requires p <= q < m <= |c| && held == c[p..m] && k == q - p
    ensures held[k] == c[q] && held[..k] == c[p..q] && held[k + 1..] == c[q + 1..m]
  {
  }

  /** One round of the inner loop: the line that ends at q, out of what is held from p on. */
  method ScanLine(buf: array<char>, re: string, p: nat, q: nat, m: nat, ghost held: string, ghost rest: string)
    returns (line: string, ghost next: string)
    requires p <= q < m <= ROOM < buf.Length && buf[m] == '\0' && held == buf[p..m] && LineAt(held, q - p)
    modifies buf
    ensures next == buf[q + 1..m] && buf[m] == '\0' && Output(re, held + rest) == line + Output(re, next + rest)
  {
    ghost var k: nat := q - p;
    next := held[k + 1..];
    LineStep(re, held, rest, k, next);
    Cells(buf[..], held, p, q, m, k);
    line := PrintLine(buf, re, p, q, m);
  }

  /** The inner loop on the m bytes held, and the move of what is left to the front. */
  method Scan(buf: array<char>, re: string, m: nat, ghost rest: string) returns (left: nat, printed: string)
    requires m <= ROOM < buf.Length && buf[m] == '\0'
    modifies buf
    ensures left <= m && NoLine(buf[..left])
            && Output(re, old(buf[..m]) + rest) == printed + Output(re, buf[..left] + rest)
  {
    ghost var all := Output(re, buf[..m] + rest);
    printed := [];
    var p: nat := 0;
    ghost var held := buf[..m];
    assert held == buf[p..m];
    var q := NextLine(buf, p, m);
    while q >= 0
      invariant p <= m && buf[m] == '\0' && held == buf[p..m] && all == printed + Output(re, held + rest)
      invariant if q >= 0 then p <= q < m && LineAt(held, q - p) else NoLine(held)
      decreases m - p
    {
      var line;
      ghost var next;
      line, next := ScanLine(buf, re, p, q, m, held, rest);
      Append3(all, printed, Output(re, held + rest), line, Output(re, next + rest));
      printed, held := printed + line, next;
      p := q + 1;
      q := NextLine(buf, p, m);
    }
    left := m - p;
    MoveDown(buf, p, left);
    assert buf[..left] == held;
  }

  lemma Append3(all: string, a: string, bc: string, b: string, c: string)
    requires all == a + bc && bc == b + c
    ensures all == (a + b) + c
  {
  }

  /** What remains to be seen is todo. */
  ghost predicate Progress(re: string, input: string, out: string, todo: string) {
    Output(re, input) == out + Output(re, todo)
  }

  lemma ProgressStep(re: string, input: string, out: string, todo: string, printed: string, next: string)
    requires Progress(re, input, out, todo) && Output(re, todo) == printed + Output(re, next)
    ensures Progress(re, input, out + printed, next)
  {
  }

  /** A read after the m bytes held, and the NUL behind it. */
  method Fill(buf: array<char>, m: nat, input: string, pos: nat) returns (more: bool, m': nat, pos': nat)
    requires m <= ROOM && buf.Length == ROOM + 1 && pos <= |input|
    modifies buf
    ensures m' <= ROOM && pos' <= |input| && (more <==> m < ROOM && pos < |input|)
    ensures more ==> pos < pos' && buf[m'] == '\0' && buf[..m'] + input[pos'..] == old(buf[..m]) + input[pos..]
  {
    var n := Read(buf, m, ROOM - m, input, pos);
    more, m', pos' := n > 0, m + n, pos + n;
    if more {
      buf[m'] := '\0';
      Joins(old(buf[..m]), buf[..m'], input, m, m', pos, pos');
    }
  }

  lemma Joins(held: string, now: string, input: string, m: nat, m': nat, pos: nat, pos': nat)
    requires |held| == m <= m' == |now| && pos <= pos' <= |input| && m' - m == pos' - pos
    requires now[..m] == held && now[m..] == input[pos..pos']
    ensures now + input[pos'..] == held + input[pos..]
  {
    assert now == held + input[pos..pos'];
    assert input[pos..] == input[pos..pos'] + input[pos'..];
  }

  /** One round of the outer loop; more says whether the read gave anything. */
  method Round(buf: array<char>, re: string, input: string, m: nat, pos: nat)
      returns (more: bool, m': nat, pos': nat, printed: string)
    requires buf.Length == ROOM + 1 && m <= ROOM && pos <= |input| && NoLine(buf[..m])
    modifies buf
    ensures !more ==> printed == [] && Output(re, old(buf[..m]) + input[pos..]) == []
    ensures more ==> m' <= ROOM && pos < pos' <= |input| && NoLine(buf[..m'])
    ensures more ==> Output(re, old(buf[..m]) + input[pos..]) == printed + Output(re, buf[..m'] + input[pos'..])
  {
    ghost var held, rest := buf[..m], input[pos..];
    printed := [];
    more, m', pos' := Fill(buf, m, input, pos);
    if more {
      ghost var next, after := buf[..m'], input[pos'..];
      assert next + after == held + rest;
      m', printed := Scan(buf, re, m', after);
    } else {
      OutputEnd(re, held, rest);
    }
  }

  /** grep prints Output, however read cuts up the input. */
  method Grep(buf: array<char>, re: string, input: string) returns (out: string)
    requires buf.Length == ROOM + 1
    modifies buf
    ensures out == Output(re, input)
  {
    out := [];
    var m: nat, pos: nat := 0, 0;
    ghost var todo := input;
    assert buf[..m] + input[pos..] == todo;
    var more := true;
    while more
      invariant Progress(re, input, out, todo)
      invariant if more then m <= ROOM && pos <= |input| && NoLine(buf[..m]) && todo == buf[..m] + input[pos..]
                else Output(re, todo) == []
      decreases more, |input| - pos
    {
      var m', pos', printed;
      more, m', pos', printed := Round(buf, re, input, m, pos);
      if more {
        m, pos := m', pos';
        ghost var next := buf[..m] + input[pos..];
        ProgressStep(re, input, out, todo, printed, next);
        out, todo := out + printed, next;
      }
    }
  }
}
