/** begin_op's reservation of log space, as counters: n is log.lh.n, `added` gives for each
    operation in progress the header entries it has added (kernel/log.c). */
module Reservation {
  import opened Params

  datatype Log = Log(n: nat, added: map<nat, nat>, committing: bool)

  const Empty: Log := Log(0, map[], false)

  datatype Event = Begin(p: nat) | Add(p: nat) | End(p: nat) | Clear | Done | Crash

  /** The first panic of log_write, with log.size == nlog. */
  predicate Full(nlog: nat, l: Log) {
    l.n >= LOGSIZE || l.n >= nlog - 1
  }

  predicate Enabled(l: Log, e: Event) {
    match e
    case Begin(p) => p !in l.added && !l.committing && l.n + (|l.added| + 1) * MAXOPBLOCKS <= LOGSIZE
    case Add(p) => p in l.added
    case End(p) => p in l.added
    case Clear => l.committing
    case Done => l.committing && l.n == 0
    case Crash => true
  }

  function Next(l: Log, e: Event): Log
    requires Enabled(l, e)
  {
    match e
    case Begin(p) => l.(added := l.added[p := 0])
    case Add(p) => l.(n := l.n + 1, added := l.added[p := l.added[p] + 1])
    case End(p) => var left := l.added - {p}; l.(added := left, committing := left == map[])
    case Clear => l.(n := 0)
    case Done => l.(committing := false)
    case Crash => Empty
  }

  /** Runs in which no operation ever adds more than q entries. */
  ghost predicate Run(q: nat, l: Log, es: seq<Event>, m: Log)
    decreases |es|
  {
    && WithinQuota(q, l)
    && if es == [] then l == m else Enabled(l, es[0]) && Run(q, Next(l, es[0]), es[1..], m)
  }

  ghost predicate Reachable(q: nat, l: Log) {
    exists es: seq<Event> :: Run(q, Empty, es, l)
  }

  /** What the operations in progress may still add, at q entries each. */
  ghost function Unused(q: nat, m: map<nat, nat>): int {
    if m == map[] then 0 else var p :| p in m; q - m[p] + Unused(q, m - {p})
  }

  lemma {:induction false} UnusedRemove(q: nat, m: map<nat, nat>, p: nat)
    requires p in m
    ensures Unused(q, m) == q - m[p] + Unused(q, m - {p})
    decreases |m|
  {
    var k :| k in m && Unused(q, m) == q - m[k] + Unused(q, m - {k});
    if k != p {
      UnusedRemove(q, m - {k}, p);
      UnusedRemove(q, m - {p}, k);
      assert m - {k} - {p} == m - {p} - {k};
    }
  }

  lemma UnusedPut(q: nat, m: map<nat, nat>, p: nat, v: nat)
    ensures Unused(q, m[p := v]) == q - v + Unused(q, m - {p})
  {
    UnusedRemove(q, m[p := v], p);
    assert m[p := v] - {p} == m - {p};
  }

  lemma {:induction false} UnusedBound(q: nat, m: map<nat, nat>)
    requires q <= MAXOPBLOCKS
    ensures Unused(q, m) <= MAXOPBLOCKS * |m|
    ensures q <= 9 ==> Unused(q, m) <= 9 * |m|
    decreases |m|
  {
    if m != map[] {
      var p :| p in m && Unused(q, m) == q - m[p] + Unused(q, m - {p});
      UnusedBound(q, m - {p});
    }
  }

  ghost predicate WithinQuota(q: nat, l: Log) {
    forall p | p in l.added :: l.added[p] <= q
  }

  /** Header entries plus unused reservations fit `room`; no operation is in progress in a commit. */
  ghost predicate Reserved(q: nat, room: nat, l: Log) {
    && l.n + Unused(q, l.added) <= room && (forall p | p in l.added :: l.added[p] <= q)
    && (l.committing ==> l.added == map[])
    && (l.added == map[] && !l.committing ==> l.n == 0)
  }

  lemma BeginReserved(q: nat, room: nat, l: Log, p: nat)
    requires q <= MAXOPBLOCKS && (room == LOGSIZE || (q <= 9 && room == 28))
    requires Reserved(q, room, l) && Enabled(l, Begin(p))
    ensures Reserved(q, room, Next(l, Begin(p)))
  {
    UnusedPut(q, l.added, p, 0);
    assert l.added - {p} == l.added;
    UnusedBound(q, l.added);
    if l.added == map[] { assert |l.added| == 0; } else { assert |l.added| >= 1; }
  }

  lemma AddReserved(q: nat, room: nat, l: Log, p: nat)
    requires Reserved(q, room, l) && p in l.added && l.added[p] < q
    ensures Reserved(q, room, Next(l, Add(p)))
  {
    UnusedPut(q, l.added, p, l.added[p] + 1);
    UnusedRemove(q, l.added, p);
  }

  lemma EndReserved(q: nat, room: nat, l: Log, p: nat)
    requires Reserved(q, room, l) && p in l.added
    ensures Reserved(q, room, Next(l, End(p)))
  {
    UnusedRemove(q, l.added, p);
  }

  lemma StepReserved(q: nat, room: nat, l: Log, e: Event)
    requires q <= MAXOPBLOCKS && (room == LOGSIZE || (q <= 9 && room == 28))
    requires Reserved(q, room, l) && Enabled(l, e) && WithinQuota(q, Next(l, e))
    ensures Reserved(q, room, Next(l, e))
  {
    match e
    case Begin(p) => BeginReserved(q, room, l, p);
    case Add(p) =>
      assert Next(l, Add(p)).added[p] <= q;
      AddReserved(q, room, l, p);
    case End(p) => EndReserved(q, room, l, p);
    case Clear =>
    case Done =>
    case Crash =>
  }

  lemma {:induction false} RunReserved(q: nat, room: nat, l: Log, es: seq<Event>, m: Log)
    requires q <= MAXOPBLOCKS && (room == LOGSIZE || (q <= 9 && room == 28))
    requires Reserved(q, room, l) && Run(q, l, es, m)
    ensures Reserved(q, room, m)
    decreases |es|
  {
    if es != [] {
      StepReserved(q, room, l, es[0]);
      RunReserved(q, room, Next(l, es[0]), es[1..], m);
    }
  }

  /** Operations within MAXOPBLOCKS never need more than LOGSIZE entries, in any interleaving. */
  lemma ReservationHolds(es: seq<Event>, l: Log)
    requires Run(MAXOPBLOCKS, Empty, es, l)
    ensures l.n + Unused(MAXOPBLOCKS, l.added) <= LOGSIZE
    ensures l.committing ==> l.added == map[]
  {
    RunReserved(MAXOPBLOCKS, LOGSIZE, Empty, es, l);
  }

  /** mkfs makes log.size 30, so log_write panics at 29 entries. No operation of at most q entries
      can meet that panic in any run if and only if q is at most 9. */
  lemma PanicFree(q: nat)
    requires q <= MAXOPBLOCKS
    ensures q <= 9 <==> forall l: Log :: Reachable(q, l) ==> !Full(30, l)
  {
    if q <= 9 {
      forall l: Log | Reachable(q, l) ensures !Full(30, l) {
        var es :| Run(q, Empty, es, l);
        RunReserved(q, 28, Empty, es, l);
        UnusedNonnegative(q, l.added);
      }
    } else {
      var es, l := ThreeFullOperations();
      assert Reachable(q, l);
    }
  }

  lemma {:induction false} UnusedNonnegative(q: nat, m: map<nat, nat>)
    requires forall p | p in m :: m[p] <= q
    ensures Unused(q, m) >= 0
    decreases |m|
  {
    if m != map[] {
      var p :| p in m && Unused(q, m) == q - m[p] + Unused(q, m - {p});
      UnusedNonnegative(q, m - {p});
    }
  }

  lemma {:induction false} RunAppend(q: nat, l: Log, es: seq<Event>, m: Log, fs: seq<Event>, k: Log)
    requires Run(q, l, es, m) && Run(q, m, fs, k)
    ensures Run(q, l, es + fs, k)
    decreases |es|
  {
    if es == [] {
      assert es + fs == fs;
    } else {
      var all := es + fs;
      assert all[0] == es[0] && all[1..] == es[1..] + fs;
      RunAppend(q, Next(l, es[0]), es[1..], m, fs, k);
    }
  }

  /** An operation may add c entries in a row. */
  lemma {:induction false} AddMany(q: nat, l: Log, p: nat, c: nat) returns (es: seq<Event>)
    requires WithinQuota(q, l) && p in l.added && l.added[p] + c <= q
    ensures Run(q, l, es, l.(n := l.n + c, added := l.added[p := l.added[p] + c]))
    decreases c
  {
    if c == 0 {
      es := [];
      assert l.added[p := l.added[p]] == l.added;
    } else {
      var l1 := Next(l, Add(p));
      var rest := AddMany(q, l1, p, c - 1);
      es := [Add(p)] + rest;
      assert es[1..] == rest;
      assert l1.added[p := l1.added[p] + (c - 1)] == l.added[p := l.added[p] + c];
    }
  }

  lemma ThreeBegins(l1: Log, l2: Log, l3: Log)
    requires l1 == Log(0, map[1 := 0], false) && l2 == Log(0, map[1 := 0, 2 := 0], false)
    requires l3 == Log(0, map[1 := 0, 2 := 0, 3 := 0], false)
    ensures Run(MAXOPBLOCKS, Empty, [Begin(1), Begin(2), Begin(3)], l3)
  {
    assert [Begin(1), Begin(2), Begin(3)][1..] == [Begin(2), Begin(3)];
    assert [Begin(2), Begin(3)][1..] == [Begin(3)];
    assert [Begin(3)][1..] == [];
    assert Next(Empty, Begin(1)) == l1 && Next(l1, Begin(2)) == l2 && Next(l2, Begin(3)) == l3;
    assert Run(MAXOPBLOCKS, l3, [], l3);
    assert Run(MAXOPBLOCKS, l2, [Begin(3)], l3);
    assert Run(MAXOPBLOCKS, l1, [Begin(2), Begin(3)], l3);
  }

  /** Three operations admitted together, each within MAXOPBLOCKS, fill the 29 entries log_write allows. */
  lemma ThreeFullOperations() returns (es: seq<Event>, l: Log)
    ensures Run(MAXOPBLOCKS, Empty, es, l) && Full(30, l)
    ensures exists p :: p in l.added && l.added[p] < MAXOPBLOCKS
  {
    var l1 := Log(0, map[1 := 0], false);
    var l2 := Log(0, map[1 := 0, 2 := 0], false);
    var l3 := Log(0, map[1 := 0, 2 := 0, 3 := 0], false);
    ThreeBegins(l1, l2, l3);
    var a := AddMany(MAXOPBLOCKS, l3, 1, 10);
    var l4 := l3.(n := 10, added := l3.added[1 := 10]);
    var b := AddMany(MAXOPBLOCKS, l4, 2, 10);
    var l5 := l4.(n := 20, added := l4.added[2 := 10]);
    var c := AddMany(MAXOPBLOCKS, l5, 3, 9);
    l := l5.(n := 29, added := l5.added[3 := 9]);
    RunAppend(MAXOPBLOCKS, l4, b, l5, c, l);
    RunAppend(MAXOPBLOCKS, l3, a, l4, b + c, l);
    RunAppend(MAXOPBLOCKS, Empty, [Begin(1), Begin(2), Begin(3)], l3, a + (b + c), l);
    es := [Begin(1), Begin(2), Begin(3)] + (a + (b + c));
    assert 3 in l.added;
  }
}
