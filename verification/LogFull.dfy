/** A run of log and buffer cache in which operations that keep to their reservation meet log_write's panic. */
module LogFull {
  import opened Folding
  import opened Params
  import opened Blocks
  import opened Bio
  import opened Log
  import opened LogInv
  import opened LogRuns
  import Reservation

  /** What the steps on buffers leave alone. */
  datatype Mode = Mode(phase: Phase, lh: seq<nat>, inOp: map<nat, nat>, added: map<nat, nat>)

  ghost function ModeOf(s: State): Mode { Mode(s.phase, s.lh, s.inOp, s.added) }

  ghost predicate Quota(s: State) { Reservation.WithinQuota(MAXOPBLOCKS, Counters(s)) }

  /** Between two operations on buffers: nobody has or wants one. */
  ghost predicate Quiet(L: Layout, s: State, m: Mode) {
    && Inv(L, s) && ModeOf(s) == m && Quota(s)
    && s.waiting == multiset{} && s.leaving == multiset{} && s.unlogged == {} && s.owner == seq(NBUF, _ => None)
  }

  /** Process p has locked the valid buffer i, which holds block b. */
  ghost predicate Holding(L: Layout, s: State, m: Mode, p: nat, i: nat, b: nat) {
    && Inv(L, s) && ModeOf(s) == m && Quota(s) && i < NBUF && s.cache.bufs[i].Is(ROOTDEV, b) && s.cache.bufs[i].valid
    && s.waiting == multiset{} && s.leaving == multiset{} && s.owner == seq(NBUF, _ => None)[i := Some(p)]
  }

  // ---- runs ----

  /** A run in which no operation exceeds its reservation. */
  ghost predicate Reaches(L: Layout, s: State, es: seq<Event>, t: State) {
    forall k: nat {:trigger Open(k)} :: Open(k) ==> RunWithin(MAXOPBLOCKS, L, s, es, t)
  }

  lemma OneStep(L: Layout, s: State, e: Event, t: State)
    requires Sized(L, s) && Enabled(L, s, e) && t == Next(L, s, e) && Quota(s) && Quota(t)
    ensures Reaches(L, s, [e], t)
  {
    assert Open(0);
    assert [e][1..] == [];
    assert RunWithin(MAXOPBLOCKS, L, t, [], t);
  }

  lemma Prepend(L: Layout, s: State, e: Event, rest: seq<Event>, all: seq<Event>, t: State)
    requires Sized(L, s) && Enabled(L, s, e) && Quota(s) && Reaches(L, Next(L, s, e), rest, t)
    requires all == [e] + rest
    ensures Reaches(L, s, all, t)
  {
    assert Open(0);
    assert all[0] == e && all[1..] == rest;
  }

  lemma FirstStep(L: Layout, s: State, es: seq<Event>, rest: seq<Event>, t: State)
    requires Reaches(L, s, es, t) && es != [] && rest == es[1..]
    ensures Sized(L, s) && Enabled(L, s, es[0]) && Quota(s)
    ensures Reaches(L, Next(L, s, es[0]), rest, t)
  {
    assert Open(0);
  }

  lemma Nothing(L: Layout, s: State, t: State)
    requires Reaches(L, s, [], t)
    ensures s == t
  {
    assert Open(0);
  }

  lemma {:induction false} Then(L: Layout, s: State, es: seq<Event>, m: State, fs: seq<Event>, t: State)
    requires Reaches(L, s, es, m) && Reaches(L, m, fs, t)
    ensures Reaches(L, s, es + fs, t)
    decreases |es|
  {
    if es == [] {
      assert es + fs == fs;
      Nothing(L, s, m);
    } else {
      var e, rest := es[0], es[1..];
      FirstStep(L, s, es, rest, m);
      Then(L, Next(L, s, e), rest, m, fs, t);
      assert es + fs == [e] + (rest + fs);
      Prepend(L, s, e, rest + fs, es + fs, t);
    }
  }

  // ---- there is a free buffer ----

  ghost function Held(bufs: seq<Buf>, n: nat): set<nat>
    requires n <= |bufs|
  {
    set i: nat | i < n :: bufs[i].blockno
  }

  lemma {:induction false} HeldSize(bufs: seq<Buf>, n: nat)
    requires n <= |bufs| && forall i: nat, j: nat | i < j < n :: bufs[i].blockno != bufs[j].blockno
    ensures |Held(bufs, n)| == n
  {
    if n > 0 {
      HeldSize(bufs, n - 1);
      assert Held(bufs, n) == Held(bufs, n - 1) + {bufs[n - 1].blockno};
      assert bufs[n - 1].blockno !in Held(bufs, n - 1);
    }
  }

  lemma {:induction false} FewElements(q: seq<nat>, s: set<nat>)
    requires forall x | x in s :: x in q
    ensures |s| <= |q|
  {
    if q == [] {
      assert s == {};
    } else {
      var last := |q| - 1;
      forall x | x in s - {q[last]} ensures x in q[..last] {
        var k :| 0 <= k < |q| && q[k] == x;
        assert q[..last][k] == x;
      }
      FewElements(q[..last], s - {q[last]});
      assert |s| <= |s - {q[last]}| + 1 by {
        if q[last] in s { assert s == (s - {q[last]}) + {q[last]}; } else { assert s == s - {q[last]}; }
      }
    }
  }

  lemma PinnedListed(ph: Phase, lh: seq<nat>, b: nat)
    requires b in Pins(ph, lh)
    ensures b in lh
  {
  }

  lemma FreeBuffer(L: Layout, s: State, m: Mode) returns (i: nat)
    requires Quiet(L, s, m) && |m.lh| < NBUF
    ensures i < NBUF && s.cache.bufs[i].refcnt == 0
  {
    assert Open(0);
    i := 0;
    if k: nat :| k < NBUF && s.cache.bufs[k].refcnt == 0 {
      i := k;
    } else {
      AllPinned(L, s, m);
      HeldSize(s.cache.bufs, NBUF);
      FewElements(m.lh, Held(s.cache.bufs, NBUF));
      assert false;
    }
  }

  lemma AllPinned(L: Layout, s: State, m: Mode)
    requires Quiet(L, s, m) && forall i: nat | i < NBUF :: s.cache.bufs[i].refcnt > 0
    ensures forall i: nat, j: nat | i < j < NBUF :: s.cache.bufs[i].blockno != s.cache.bufs[j].blockno
    ensures forall b | b in Held(s.cache.bufs, NBUF) :: b in m.lh
  {
    assert Open(0);
    forall b | b in Held(s.cache.bufs, NBUF) ensures b in m.lh {
      var i: nat :| i < NBUF && s.cache.bufs[i].blockno == b;
      assert s.owner[i].None? && IsPinned(s.cache.bufs[i], Pins(s.phase, s.lh));
      PinnedListed(s.phase, s.lh, b);
    }
    forall i: nat, j: nat | i < j < NBUF ensures s.cache.bufs[i].blockno != s.cache.bufs[j].blockno {
      assert s.cache.bufs[i].Claimed() && s.cache.bufs[j].Claimed();
    }
  }

  // ---- bread ----

  lemma GetStep(L: Layout, s: State, m: Mode, b: nat) returns (i: nat, t: State)
    requires Quiet(L, s, m) && |m.lh| < NBUF && b < L.size
    ensures Enabled(L, s, GetBuf(b)) && t == Next(L, s, GetBuf(b)) && Inv(L, t) && ModeOf(t) == m && Quota(t)
    ensures i < NBUF && t.cache.bufs[i].Is(ROOTDEV, b) && t.waiting == multiset{i} && t.leaving == multiset{}
    ensures t.unlogged == {} && t.owner == s.owner && t.disk == s.disk
  {
    var k := FreeBuffer(L, s, m);
    NoBuffersMeans(s.cache, ROOTDEV, b);
    assert Get(s.cache, ROOTDEV, b).Got?;
    i := Get(s.cache, ROOTDEV, b).idx;
    t := Next(L, s, GetBuf(b));
    GetCases(s.cache, ROOTDEV, b);
    GetBufKeeps(L, s, b);
  }

  /** bread: a run after which p holds the block. */
  lemma Bread(L: Layout, s: State, m: Mode, p: nat, b: nat) returns (i: nat, es: seq<Event>, t: State)
    requires Quiet(L, s, m) && |m.lh| < NBUF && b < L.size
    ensures Reaches(L, s, es, t) && Holding(L, t, m, p, i, b) && t.unlogged == {} && t.disk == s.disk
  {
    var s1;
    i, s1 := GetStep(L, s, m, b);
    OneStep(L, s, GetBuf(b), s1);
    var s2 := LockStep(L, s1, p, i);
    OneStep(L, s1, LockBuf(p, i), s2);
    Then(L, s, [GetBuf(b)], s1, [LockBuf(p, i)], s2);
    es, t := [GetBuf(b)] + [LockBuf(p, i)], s2;
    if !s2.cache.bufs[i].valid {
      t := FillStep(L, s2, p, i, b);
      OneStep(L, s2, Fill(p, i), t);
      Then(L, s, es, s2, [Fill(p, i)], t);
      es := es + [Fill(p, i)];
    }
  }

  lemma LockStep(L: Layout, s: State, p: nat, i: nat) returns (t: State)
    requires Inv(L, s) && Quota(s) && i < NBUF && s.waiting == multiset{i} && s.owner == seq(NBUF, _ => None)
    ensures Enabled(L, s, LockBuf(p, i)) && t == Next(L, s, LockBuf(p, i)) && Inv(L, t) && ModeOf(t) == ModeOf(s)
    ensures t.cache == s.cache && t.waiting == multiset{} && t.leaving == s.leaving && t.unlogged == s.unlogged
    ensures t.owner == seq(NBUF, _ => None)[i := Some(p)] && Quota(t) && t.disk == s.disk
  {
    t := Next(L, s, LockBuf(p, i));
    LockBufKeeps(L, s, p, i);
  }

  lemma FillStep(L: Layout, s: State, p: nat, i: nat, b: nat) returns (t: State)
    requires Inv(L, s) && Quota(s) && i < NBUF && s.owner == seq(NBUF, _ => None)[i := Some(p)]
    requires s.cache.bufs[i].Is(ROOTDEV, b) && b < L.size && !s.cache.bufs[i].valid
    ensures Enabled(L, s, Fill(p, i)) && t == Next(L, s, Fill(p, i)) && Inv(L, t) && ModeOf(t) == ModeOf(s)
    ensures t.cache.bufs[i].Is(ROOTDEV, b) && t.cache.bufs[i].valid && t.owner == s.owner && Quota(t)
    ensures t.waiting == s.waiting && t.leaving == s.leaving && t.unlogged == s.unlogged && t.disk == s.disk
  {
    t := Next(L, s, Fill(p, i));
    FillKeeps(L, s, p, i);
  }

  // ---- brelse ----

  lemma Brelse(L: Layout, s: State, m: Mode, p: nat, i: nat, b: nat) returns (es: seq<Event>, t: State)
    requires Holding(L, s, m, p, i, b) && s.unlogged == {}
    ensures Reaches(L, s, es, t) && Quiet(L, t, m)
  {
    var s1 := UnlockStep(L, s, m, p, i, b);
    OneStep(L, s, UnlockBuf(p, i), s1);
    t := DropStep(L, s1, m, i);
    OneStep(L, s1, DropBuf(i), t);
    Then(L, s, [UnlockBuf(p, i)], s1, [DropBuf(i)], t);
    es := [UnlockBuf(p, i)] + [DropBuf(i)];
  }

  lemma UnlockStep(L: Layout, s: State, m: Mode, p: nat, i: nat, b: nat) returns (t: State)
    requires Holding(L, s, m, p, i, b) && s.unlogged == {}
    ensures Enabled(L, s, UnlockBuf(p, i)) && t == Next(L, s, UnlockBuf(p, i)) && Inv(L, t)
    ensures ModeOf(t) == m && Quota(t)
    ensures t.waiting == multiset{} && t.leaving == multiset{i} && t.unlogged == {} && t.owner == seq(NBUF, _ => None)
  {
    t := Next(L, s, UnlockBuf(p, i));
    UnlockBufKeeps(L, s, p, i);
    assert t.owner == seq(NBUF, _ => None);
  }

  lemma DropStep(L: Layout, s: State, m: Mode, i: nat) returns (t: State)
    requires Inv(L, s) && ModeOf(s) == m && Quota(s) && i < NBUF && s.waiting == multiset{} && s.leaving == multiset{i}
    requires s.unlogged == {} && s.owner == seq(NBUF, _ => None)
    ensures Enabled(L, s, DropBuf(i)) && t == Next(L, s, DropBuf(i)) && Quiet(L, t, m)
  {
    Counts(L, s, i);
    t := Next(L, s, DropBuf(i));
    DropBufKeeps(L, s, i);
  }

  lemma Counts(L: Layout, s: State, i: nat)
    requires Inv(L, s) && i < NBUF && i in s.leaving
    ensures s.cache.bufs[i].refcnt > 0
  {
    assert Open(0);
  }

  // ---- log_write ----

  /** An operation of p reads block b, changes it, logs it and lets it go. */
  lemma LogOne(L: Layout, s: State, m: Mode, p: nat, b: nat) returns (es: seq<Event>, t: State, n: Mode)
    requires Quiet(L, s, m) && m.phase.Idle? && L.nlog == 30 && |m.lh| < 29 && L.Home(b) && b !in m.lh
    requires p in m.inOp && p in m.added && m.added[p] < MAXOPBLOCKS
    ensures n == m.(lh := m.lh + [b], added := m.added[p := m.added[p] + 1])
    ensures Reaches(L, s, es, t) && Quiet(L, t, n)
  {
    n := m.(lh := m.lh + [b], added := m.added[p := m.added[p] + 1]);
    var i, s1;
    i, es, s1 := Bread(L, s, m, p, b);
    var s2 := ModifyStep(L, s1, m, p, i, b);
    OneStep(L, s1, Modify(p, i, ZeroBlock), s2);
    Then(L, s, es, s1, [Modify(p, i, ZeroBlock)], s2);
    es := es + [Modify(p, i, ZeroBlock)];
    var s3 := LogStep(L, s2, m, n, p, i, b);
    OneStep(L, s2, LogWrite(p, i), s3);
    Then(L, s, es, s2, [LogWrite(p, i)], s3);
    es := es + [LogWrite(p, i)];
    var fs;
    fs, t := Brelse(L, s3, n, p, i, b);
    Then(L, s, es, s3, fs, t);
    es := es + fs;
  }

  lemma ModifyStep(L: Layout, s: State, m: Mode, p: nat, i: nat, b: nat) returns (t: State)
    requires Holding(L, s, m, p, i, b) && s.unlogged == {} && L.Home(b) && p in m.inOp
    ensures Enabled(L, s, Modify(p, i, ZeroBlock)) && t == Next(L, s, Modify(p, i, ZeroBlock))
    ensures Holding(L, t, m, p, i, b) && t.unlogged == {i}
  {
    t := Next(L, s, Modify(p, i, ZeroBlock));
    ModifyKeeps(L, s, p, i, ZeroBlock);
  }

  lemma LogStep(L: Layout, s: State, m: Mode, n: Mode, p: nat, i: nat, b: nat) returns (t: State)
    requires Holding(L, s, m, p, i, b) && s.unlogged == {i} && L.Home(b) && p in m.inOp && p in m.added
    requires L.nlog == 30 && |m.lh| < 29 && b !in m.lh && m.added[p] < MAXOPBLOCKS && m.phase.Idle?
    requires n == m.(lh := m.lh + [b], added := m.added[p := m.added[p] + 1])
    ensures Enabled(L, s, LogWrite(p, i)) && t == Next(L, s, LogWrite(p, i))
    ensures Holding(L, t, n, p, i, b) && t.unlogged == {}
  {
    t := Next(L, s, LogWrite(p, i));
    LogWriteKeeps(L, s, p, i);
    assert {i} - {i} == {};
  }

  /** The first n blocks behind the log. */
  ghost function Homes(L: Layout, n: nat): seq<nat> { seq(n, (k: nat) => L.logstart + L.nlog + k) }

  lemma HomesNext(L: Layout, n: nat)
    ensures Homes(L, n + 1) == Homes(L, n) + [L.logstart + L.nlog + n] && L.logstart + L.nlog + n !in Homes(L, n)
  {
  }

  /** An operation logs n blocks in a row. */
  lemma {:induction false} LogMany(L: Layout, s: State, m: Mode, p: nat, j: nat, n: nat)
    returns (es: seq<Event>, t: State, k: Mode)
    requires Quiet(L, s, m) && m.phase.Idle? && L.nlog == 30 && m.lh == Homes(L, j) && j + n <= 29
    requires L.logstart + L.nlog + 29 <= L.size && p in m.inOp && p in m.added && m.added[p] + n <= MAXOPBLOCKS
    ensures k == m.(lh := Homes(L, j + n), added := m.added[p := m.added[p] + n])
    ensures Reaches(L, s, es, t) && Quiet(L, t, k)
    decreases n
  {
    if n == 0 {
      es, t, k := [], s, m;
      assert m.added[p := m.added[p]] == m.added;
      Stay(L, s);
    } else {
      HomesNext(L, j);
      var s1, m1, fs;
      es, s1, m1 := LogOne(L, s, m, p, L.logstart + L.nlog + j);
      fs, t, k := LogMany(L, s1, m1, p, j + 1, n - 1);
      Then(L, s, es, s1, fs, t);
      es := es + fs;
      assert m1.added[p := m1.added[p] + (n - 1)] == m.added[p := m.added[p] + n];
    }
  }

  lemma Stay(L: Layout, s: State)
    requires Quota(s)
    ensures Reaches(L, s, [], s)
  {
    assert Open(0);
  }

  // ---- begin_op ----

  lemma Begin(L: Layout, s: State, m: Mode, p: nat) returns (t: State, n: Mode)
    requires Quiet(L, s, m) && m.phase.Idle? && p !in m.inOp && |m.lh| + (|m.inOp| + 1) * MAXOPBLOCKS <= LOGSIZE
    ensures Reaches(L, s, [BeginOp(p)], t) && Quiet(L, t, n) && n == m.(inOp := n.inOp, added := m.added[p := 0])
    ensures n.inOp.Keys == m.inOp.Keys + {p} && |n.inOp| == |m.inOp| + 1
  {
    t := Next(L, s, BeginOp(p));
    n := ModeOf(t);
    BeginOpKeeps(L, s, p);
    OneStep(L, s, BeginOp(p), t);
  }

  lemma ThreeBegin(L: Layout, s: State, m: Mode) returns (es: seq<Event>, t: State, n: Mode)
    requires Quiet(L, s, m) && m == Mode(Idle, [], map[], map[])
    ensures Reaches(L, s, es, t) && Quiet(L, t, n) && n.phase.Idle? && n.lh == []
    ensures n.inOp.Keys == {1, 2, 3} && n.added == map[1 := 0, 2 := 0, 3 := 0]
  {
    var s1, m1 := Begin(L, s, m, 1);
    var s2, m2 := Begin(L, s1, m1, 2);
    t, n := Begin(L, s2, m2, 3);
    Then(L, s1, [BeginOp(2)], s2, [BeginOp(3)], t);
    Then(L, s, [BeginOp(1)], s1, [BeginOp(2)] + [BeginOp(3)], t);
    es := [BeginOp(1)] + ([BeginOp(2)] + [BeginOp(3)]);
  }

  // ---- the first boot ----

  /** Recovery of an empty log. */
  lemma Boot(L: Layout, s: State) returns (es: seq<Event>, t: State)
    requires Init(L, s)
    ensures Reaches(L, s, es, t) && Quiet(L, t, Mode(Idle, [], map[], map[]))
  {
    InitInv(L, s);
    var m := Mode(Booting, [], map[], map[]);
    assert Quiet(L, s, m);
    var i, s1;
    i, es, s1 := Bread(L, s, m, 0, L.logstart);
    var s2 := ReadStep(L, s1, i);
    OneStep(L, s1, ReadHead(0, i), s2);
    Then(L, s, es, s1, [ReadHead(0, i)], s2);
    es := es + [ReadHead(0, i)];
    var s3 := ClearStep(L, s2, i);
    OneStep(L, s2, RecoverClear(0, i), s3);
    Then(L, s, es, s2, [RecoverClear(0, i)], s3);
    es := es + [RecoverClear(0, i)];
    var fs;
    fs, t := Brelse(L, s3, Mode(Idle, [], map[], map[]), 0, i, L.logstart);
    Then(L, s, es, s3, fs, t);
    es := es + fs;
  }

  lemma HeaderRead(L: Layout, s: State, i: nat)
    requires Holding(L, s, Mode(Booting, [], map[], map[]), 0, i, L.logstart)
    ensures s.cache.bufs[i].data == s.disk[L.logstart]
  {
    assert Open(0);
  }

  lemma ReadStep(L: Layout, s: State, i: nat) returns (t: State)
    requires Holding(L, s, Mode(Booting, [], map[], map[]), 0, i, L.logstart) && s.unlogged == {}
    requires HeaderCount(s.disk[L.logstart]) == 0
    ensures Enabled(L, s, ReadHead(0, i)) && t == Next(L, s, ReadHead(0, i))
    ensures Holding(L, t, Mode(Recovering(0), [], map[], map[]), 0, i, L.logstart) && t.unlogged == {}
  {
    HeaderRead(L, s, i);
    t := Next(L, s, ReadHead(0, i));
    ReadHeadKeeps(L, s, 0, i);
  }

  lemma ClearStep(L: Layout, s: State, i: nat) returns (t: State)
    requires Holding(L, s, Mode(Recovering(0), [], map[], map[]), 0, i, L.logstart) && s.unlogged == {}
    ensures Enabled(L, s, RecoverClear(0, i)) && t == Next(L, s, RecoverClear(0, i))
    ensures Holding(L, t, Mode(Idle, [], map[], map[]), 0, i, L.logstart) && t.unlogged == {}
  {
    t := Next(L, s, RecoverClear(0, i));
    RecoverClearKeeps(L, s, 0, i);
  }

  // ---- the panic ----

  /** Three operations log 10, 10 and 9 blocks. */
  lemma Filled(L: Layout, s: State, m: Mode) returns (es: seq<Event>, t: State, n: Mode)
    requires Quiet(L, s, m) && m.phase.Idle? && m.lh == [] && m.inOp.Keys == {1, 2, 3}
    requires m.added == map[1 := 0, 2 := 0, 3 := 0] && L.nlog == 30 && L.logstart + L.nlog + 29 <= L.size
    ensures Reaches(L, s, es, t) && Quiet(L, t, n) && n.phase.Idle? && n.lh == Homes(L, 29)
    ensures 3 in n.inOp && 3 in n.added && n.added[3] == 9
  {
    assert Homes(L, 0) == [];
    var s1, m1, a, s2, m2, b, c;
    a, s1, m1 := LogMany(L, s, m, 1, 0, 10);
    b, s2, m2 := LogMany(L, s1, m1, 2, 10, 10);
    c, t, n := LogMany(L, s2, m2, 3, 20, 9);
    Then(L, s1, b, s2, c, t);
    Then(L, s, a, s1, b + c, t);
    es := a + (b + c);
  }

  /** From the image of mkfs, with its 30 log blocks, a run in which no operation exceeds its reservation comes to a
      log_write that panics: the block is new, the operation has entries left, and the log has none. */
  lemma PanicReached(L: Layout, s0: State) returns (es: seq<Event>, s: State, p: nat, i: nat)
    requires Init(L, s0) && L.nlog == 30 && L.logstart + L.nlog + 30 <= L.size
    ensures RunWithin(MAXOPBLOCKS, L, s0, es, s) && Sized(L, s) && HoldsHome(L, s, p, i) && i in s.unlogged
    ensures p in s.added && s.added[p] < MAXOPBLOCKS && s.cache.bufs[i].blockno !in s.lh && |s.lh| >= L.nlog - 1
  {
    var a, b, c, s1, s2, s3, m2, m3, d, s4;
    a, s1 := Boot(L, s0);
    b, s2, m2 := ThreeBegin(L, s1, Mode(Idle, [], map[], map[]));
    c, s3, m3 := Filled(L, s2, m2);
    HomesNext(L, 29);
    i, d, s4 := Bread(L, s3, m3, 3, L.logstart + L.nlog + 29);
    s := ModifyStep(L, s4, m3, 3, i, L.logstart + L.nlog + 29);
    OneStep(L, s4, Modify(3, i, ZeroBlock), s);
    p := 3;
    es := [Modify(3, i, ZeroBlock)];
    Then(L, s3, d, s4, es, s);
    es := d + es;
    Then(L, s2, c, s3, es, s);
    es := c + es;
    Then(L, s1, b, s2, es, s);
    es := b + es;
    Then(L, s0, a, s1, es, s);
    es := a + es;
    Reached(L, s0, es, s);
  }

  lemma Reached(L: Layout, s: State, es: seq<Event>, t: State)
    requires Reaches(L, s, es, t)
    ensures RunWithin(MAXOPBLOCKS, L, s, es, t)
  {
    assert Open(0);
  }
}
