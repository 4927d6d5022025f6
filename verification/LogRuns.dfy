/** The log's promises over whole runs: crash atomicity, cache coherence and log space. */
module LogRuns {
  import opened Folding
  import opened Params
  import opened Blocks
  import opened Bio
  import opened Log
  import opened LogInv
  import Reservation

  lemma StepKeeps(L: Layout, s: State, e: Event)
    requires Inv(L, s) && Enabled(L, s, e)
    ensures Inv(L, Next(L, s, e))
  {
    match e
    case GetBuf(b) => GetBufKeeps(L, s, b);
    case LockBuf(p, i) => LockBufKeeps(L, s, p, i);
    case Fill(p, i) => FillKeeps(L, s, p, i);
    case UnlockBuf(p, i) => UnlockBufKeeps(L, s, p, i);
    case DropBuf(i) => DropBufKeeps(L, s, i);
    case BeginOp(p) => BeginOpKeeps(L, s, p);
    case Modify(p, i, d) => ModifyKeeps(L, s, p, i, d);
    case LogWrite(p, i) => LogWriteKeeps(L, s, p, i);
    case EndOp(p) => EndOpKeeps(L, s, p);
    case LogBlock(li, fi) => LogBlockKeeps(L, s, li, fi);
    case CommitHead(hi) => CommitHeadKeeps(L, s, hi);
    case InstallBlock(li, di) => InstallBlockKeeps(L, s, li, di);
    case UnpinBlock(di) => UnpinBlockKeeps(L, s, di);
    case ClearHead(hi) => ClearHeadKeeps(L, s, hi);
    case CommitDone => CommitDoneKeeps(L, s);
    case Crash => CrashKeeps(L, s);
    case ReadHead(p, hi) => ReadHeadKeeps(L, s, p, hi);
    case RecoverBlock(p, li, di) => RecoverBlockKeeps(L, s, p, li, di);
    case RecoverClear(p, hi) => RecoverClearKeeps(L, s, p, hi);
  }

  lemma {:induction false} RunKeeps(L: Layout, s: State, es: seq<Event>, t: State)
    requires Inv(L, s) && Run(L, s, es, t)
    ensures Inv(L, t)
    decreases |es|
  {
    if es != [] {
      StepKeeps(L, s, es[0]);
      RunKeeps(L, Next(L, s, es[0]), es[1..], t);
    }
  }

  /** In every reachable state: one buffer per block, exact reference counts, and any unlocked
      valid buffer that the disk has not caught up with is logged, hence pinned; and
      bread of any block, cached or not, finds the latest contents. */
  lemma CacheCoherence(L: Layout, s0: State, es: seq<Event>, s: State)
    requires Init(L, s0) && Run(L, s0, es, s)
    ensures |s.cache.bufs| == |s.owner| == NBUF && Permutation(s.cache.order) && |s.disk| == |s.mem| == L.size
    ensures forall i, j | 0 <= i < j < NBUF && s.cache.bufs[i].Claimed() && s.cache.bufs[j].Claimed() ::
              s.cache.bufs[i].blockno != s.cache.bufs[j].blockno
    ensures Counted(ViewOf(s))
    ensures forall i | 0 <= i < NBUF && s.cache.bufs[i].valid && s.owner[i].None? && !s.phase.Restarting() ::
              var b := s.cache.bufs[i].blockno;
              && b < L.size
              && (s.cache.bufs[i].data != s.disk[b] ==> b in s.lh && s.cache.bufs[i].refcnt > 0)
    ensures forall b: nat | L.Home(b) && !s.phase.Restarting() ::
              if Cached(s.cache.bufs, b)
              then forall i | 0 <= i < NBUF && s.cache.bufs[i].Is(ROOTDEV, b) ::
                  s.cache.bufs[i].valid && s.cache.bufs[i].data == s.mem[b]
              else s.disk[b] == s.mem[b]
  {
    InitInv(L, s0);
    RunKeeps(L, s0, es, s);
    Coherent(L, s);
    forall i | 0 <= i < NBUF && s.cache.bufs[i].valid && s.owner[i].None? && !s.phase.Restarting()
      ensures s.cache.bufs[i].blockno < L.size
      ensures s.cache.bufs[i].data != s.disk[s.cache.bufs[i].blockno] ==>
              s.cache.bufs[i].blockno in s.lh && s.cache.bufs[i].refcnt > 0
    {
      DirtyIsPinned(L, s, i);
    }
    forall b: nat | L.Home(b) && !s.phase.Restarting()
      ensures if Cached(s.cache.bufs, b)
              then forall i | 0 <= i < NBUF && s.cache.bufs[i].Is(ROOTDEV, b) ::
                  s.cache.bufs[i].valid && s.cache.bufs[i].data == s.mem[b]
              else s.disk[b] == s.mem[b]
    {
      ReadsLatest(L, s, b);
    }
  }

  lemma Coherent(L: Layout, s: State)
    requires Inv(L, s)
    ensures |s.disk| == |s.mem| == L.size && Counted(ViewOf(s))
    ensures forall i, j | 0 <= i < j < NBUF && s.cache.bufs[i].Claimed() && s.cache.bufs[j].Claimed() ::
              s.cache.bufs[i].blockno != s.cache.bufs[j].blockno
  {
    assert Open(0);
  }

  lemma DirtyIsPinned(L: Layout, s: State, i: nat)
    requires Inv(L, s) && i < NBUF && s.cache.bufs[i].valid && s.owner[i].None? && !s.phase.Restarting()
    ensures s.cache.bufs[i].blockno < L.size
    ensures s.cache.bufs[i].data != s.disk[s.cache.bufs[i].blockno] ==>
            s.cache.bufs[i].blockno in s.lh && s.cache.bufs[i].refcnt > 0
  {
    assert Open(0);
    var b := s.cache.bufs[i].blockno;
    assert i !in s.unlogged;
    assert !BeingModified(s.cache.bufs, s.unlogged, b);
  }

  lemma ReadsLatest(L: Layout, s: State, b: nat)
    requires Inv(L, s) && L.Home(b) && !s.phase.Restarting()
    ensures if Cached(s.cache.bufs, b)
            then forall i | 0 <= i < NBUF && s.cache.bufs[i].Is(ROOTDEV, b) ::
                s.cache.bufs[i].valid && s.cache.bufs[i].data == s.mem[b]
            else s.disk[b] == s.mem[b]
  {
    assert Open(0);
    if !Cached(s.cache.bufs, b) {
      assert b !in Pins(s.phase, s.lh);
      assert forall i | i in s.unlogged :: s.cache.bufs[i].Is(ROOTDEV, s.cache.bufs[i].blockno);
    }
  }

  // ---- crash atomicity ----

  ghost predicate InRange(base: seq<Block>, ws: seq<Write>) {
    forall k | 0 <= k < |ws| :: ws[k].blockno < |base|
  }

  /** The image after replaying, in order, those of the writes that the given operations made. */
  ghost function Replay(base: seq<Block>, ws: seq<Write>, ops: set<nat>): (r: seq<Block>)
    requires InRange(base, ws)
    ensures |r| == |base|
  {
    if ws == [] then base
    else
      var w := ws[|ws| - 1];
      var r := Replay(base, ws[..|ws| - 1], ops);
      if w.op in ops then r[w.blockno := w.data] else r
  }

  lemma ReplayAppend(base: seq<Block>, ws: seq<Write>, w: Write, ops: set<nat>)
    requires InRange(base, ws) && w.blockno < |base|
    ensures var r := Replay(base, ws, ops);
            Replay(base, ws + [w], ops) == if w.op in ops then r[w.blockno := w.data] else r
  {
    assert (ws + [w])[..|ws|] == ws;
  }

  lemma {:induction false} ReplaySame(base: seq<Block>, ws: seq<Write>, a: set<nat>, b: set<nat>)
    requires InRange(base, ws) && forall k | 0 <= k < |ws| :: ws[k].op in a <==> ws[k].op in b
    ensures Replay(base, ws, a) == Replay(base, ws, b)
  {
    if ws != [] {
      ReplaySame(base, ws[..|ws| - 1], a, b);
    }
  }

  /** The part of the state that speaks of the past. */
  datatype Past = Past(
    mem: seq<Block>, dur: seq<Block>,
    base: seq<Block>, writes: seq<Write>,
    live: set<nat>, committed: set<nat>,
    inOp: map<nat, nat>,
    nextOp: nat
  )

  ghost function PastOf(s: State): Past {
    Past(s.mem, s.dur, s.base, s.writes, s.live, s.committed, s.inOp, s.nextOp)
  }

  /** The latest contents are those of the committed and the live operations; the durable
      contents are those of the committed ones, none of which is still in progress. */
  ghost predicate History(h: Past) {
    && InRange(h.base, h.writes)
    && h.mem == Replay(h.base, h.writes, h.committed + h.live)
    && h.dur == Replay(h.base, h.writes, h.committed)
    && (forall k | 0 <= k < |h.writes| :: h.writes[k].op < h.nextOp)
    && (forall o | o in h.committed + h.live :: o < h.nextOp)
    && h.committed !! h.live
    && (forall p | p in h.inOp :: h.inOp[p] in h.live)
  }

  lemma InitHistory(L: Layout, s: State)
    requires Init(L, s)
    ensures History(PastOf(s))
  {
    assert s.committed + s.live == {};
  }

  lemma BeginHistory(h: Past, p: nat)
    requires History(h)
    ensures History(h.(inOp := h.inOp[p := h.nextOp], nextOp := h.nextOp + 1, live := h.live + {h.nextOp}))
  {
    ReplaySame(h.base, h.writes, h.committed + h.live, h.committed + (h.live + {h.nextOp}));
  }

  lemma ModifyHistory(h: Past, p: nat, b: nat, d: Block)
    requires History(h) && p in h.inOp && b < |h.base|
    ensures |h.mem| == |h.base|
    ensures History(h.(mem := h.mem[b := d], writes := h.writes + [Write(h.inOp[p], b, d)]))
  {
    var w := Write(h.inOp[p], b, d);
    ReplayAppend(h.base, h.writes, w, h.committed + h.live);
    ReplayAppend(h.base, h.writes, w, h.committed);
  }

  lemma CommitHistory(h: Past)
    requires History(h) && h.inOp == map[]
    ensures History(h.(dur := h.mem, committed := h.committed + h.live, live := {}))
  {
    assert h.committed + h.live + {} == h.committed + h.live;
  }

  lemma CrashHistory(h: Past)
    requires History(h)
    ensures History(h.(mem := h.dur, live := {}, inOp := map[]))
  {
    assert h.committed + {} == h.committed;
  }

  lemma OtherHistory(L: Layout, s: State, e: Event)
    requires Sized(L, s) && Enabled(L, s, e)
    requires !e.BeginOp? && !e.Modify? && !e.EndOp? && !e.CommitHead? && !e.Crash?
    ensures PastOf(Next(L, s, e)) == PastOf(s)
  {
  }

  /** A commit finds no operation in progress. */
  lemma CommitIdle(L: Layout, s: State)
    requires Inv(L, s) && s.phase.Committing()
    ensures s.inOp == map[] && s.unlogged == {}
  {
    assert Open(0);
  }

  /** What a step does to the history: only the write of the header commits. */
  ghost predicate Recorded(s: State, e: Event, t: State) {
    && History(PastOf(t)) && t.base == s.base
    && (e.CommitHead? ==> t.committed == s.committed + s.live && s.inOp == map[])
    && (!e.CommitHead? ==> t.committed == s.committed && t.dur == s.dur)
  }

  lemma BeginStep(L: Layout, s: State, e: Event)
    requires Sized(L, s) && History(PastOf(s)) && e.BeginOp? && Enabled(L, s, e)
    ensures Recorded(s, e, Next(L, s, e))
  {
    BeginHistory(PastOf(s), e.p);
  }

  lemma ModifyStep(L: Layout, s: State, e: Event)
    requires Sized(L, s) && History(PastOf(s)) && e.Modify? && Enabled(L, s, e)
    ensures Recorded(s, e, Next(L, s, e))
  {
    ModifyHistory(PastOf(s), e.p, s.cache.bufs[e.i].blockno, e.data);
  }

  lemma EndStep(L: Layout, s: State, e: Event)
    requires Sized(L, s) && History(PastOf(s)) && e.EndOp? && Enabled(L, s, e)
    ensures Recorded(s, e, Next(L, s, e))
  {
  }

  lemma CommitStep(L: Layout, s: State, e: Event)
    requires Inv(L, s) && History(PastOf(s)) && e.CommitHead? && Enabled(L, s, e)
    ensures Recorded(s, e, Next(L, s, e))
  {
    CommitIdle(L, s);
    CommitHistory(PastOf(s));
  }

  lemma CrashStep(L: Layout, s: State, e: Event)
    requires Sized(L, s) && History(PastOf(s)) && e.Crash? && Enabled(L, s, e)
    ensures Recorded(s, e, Next(L, s, e))
  {
    CrashHistory(PastOf(s));
  }

  lemma OtherStep(L: Layout, s: State, e: Event)
    requires Sized(L, s) && History(PastOf(s)) && Enabled(L, s, e)
    requires !e.BeginOp? && !e.Modify? && !e.EndOp? && !e.CommitHead? && !e.Crash?
    ensures Recorded(s, e, Next(L, s, e))
  {
    OtherHistory(L, s, e);
  }

  lemma StepHistory(L: Layout, s: State, e: Event)
    requires Inv(L, s) && History(PastOf(s)) && Enabled(L, s, e)
    ensures Recorded(s, e, Next(L, s, e))
  {
    if e.BeginOp? {
      BeginStep(L, s, e);
    } else if e.Modify? {
      ModifyStep(L, s, e);
    } else if e.EndOp? {
      EndStep(L, s, e);
    } else if e.CommitHead? {
      CommitStep(L, s, e);
    } else if e.Crash? {
      CrashStep(L, s, e);
    } else {
      OtherStep(L, s, e);
    }
  }

  lemma {:induction false} RunHistory(L: Layout, s: State, es: seq<Event>, t: State)
    requires Inv(L, s) && History(PastOf(s)) && Run(L, s, es, t)
    ensures Inv(L, t) && History(PastOf(t)) && t.base == s.base
    ensures (forall k | 0 <= k < |es| :: !es[k].CommitHead?) ==> t.dur == s.dur
    decreases |es|
  {
    if es != [] {
      StepKeeps(L, s, es[0]);
      StepHistory(L, s, es[0]);
      RunHistory(L, Next(L, s, es[0]), es[1..], t);
    }
  }

  /** Crash at any moment of any run, crash again any number of times while recovering: once a
      recovery completes, the disk holds the writes of exactly the operations whose transaction's
      header write completed, each operation whole, and none of them still in progress. */
  lemma CrashAtomicity(L: Layout, s0: State, es: seq<Event>, s: State, fs: seq<Event>, t: State)
    requires Init(L, s0) && Run(L, s0, es, s)
    requires Run(L, Restart(s), fs, t) && t.phase.Idle? && t.inOp == map[]
    requires forall k | 0 <= k < |fs| :: !fs[k].CommitHead?
    ensures InRange(s0.disk, s.writes) && |t.disk| == L.size && |s0.disk| == L.size
    ensures HomeEqual(L, t.disk, Replay(s0.disk, s.writes, s.committed))
    ensures forall p | p in s.inOp :: s.inOp[p] !in s.committed
  {
    InitInv(L, s0);
    InitHistory(L, s0);
    RunHistory(L, s0, es, s);
    CrashKeeps(L, s);
    StepHistory(L, s, Crash);
    RunHistory(L, Restart(s), fs, t);
    IdleDisk(L, t);
  }

  lemma IdleDisk(L: Layout, t: State)
    requires Inv(L, t) && t.phase.Idle? && t.inOp == map[]
    ensures HomeEqual(L, t.disk, t.dur)
  {
    assert Open(0);
    forall b: nat | L.Home(b) ensures t.disk[b] == t.dur[b] {
      assert RecoversTo(L, t.disk, HeaderOf(t.disk[L.logstart]), b, t.dur[b]);
    }
  }

  /** Whenever the last operation has ended and its commit is over, the disk holds what has been written, and a crash
      would lose none of it. */
  lemma EndedIsDurable(L: Layout, s0: State, es: seq<Event>, s: State)
    requires Init(L, s0) && Run(L, s0, es, s) && s.phase.Idle? && s.inOp == map[]
    ensures |s.disk| == |s.mem| == |s.dur| == L.size && HomeEqual(L, s.disk, s.mem) && HomeEqual(L, s.dur, s.mem)
  {
    InitInv(L, s0);
    RunKeeps(L, s0, es, s);
    IdleDisk(L, s);
    NothingPending(L, s);
  }

  lemma NothingPending(L: Layout, s: State)
    requires Inv(L, s) && s.phase.Idle? && s.inOp == map[]
    ensures HomeEqual(L, s.disk, s.mem)
  {
    assert Open(0);
    assert s.unlogged == {};
    assert Pins(s.phase, s.lh) == {};
  }

  // ---- log space ----

  /** The counters begin_op and log_write look at; recovery starts from an empty log. */
  ghost function Counters(s: State): Reservation.Log {
    if s.phase.Restarting() then Reservation.Empty else Reservation.Log(|s.lh|, s.added, s.phase.Committing())
  }

  ghost predicate SameKeys(s: State) {
    s.added.Keys == s.inOp.Keys
  }

  lemma StepKeys(L: Layout, s: State, e: Event)
    requires Inv(L, s) && SameKeys(s) && Enabled(L, s, e)
    ensures SameKeys(Next(L, s, e))
  {
    GetPhases(L, s);
  }

  lemma GetPhases(L: Layout, s: State)
    requires Inv(L, s)
    ensures Phases(L, s)
  {
    assert Open(0);
  }

  /** The step of the counters, if any, that a step of the system takes. */
  ghost function CounterEvent(s: State, e: Event): Option<Reservation.Event>
    requires e.LogWrite? ==> e.i < |s.cache.bufs|
  {
    match e
    case BeginOp(p) => Some(Reservation.Begin(p))
    case LogWrite(p, i) => if s.cache.bufs[i].blockno in s.lh then None else Some(Reservation.Add(p))
    case EndOp(p) => Some(Reservation.End(p))
    case ClearHead(_) => Some(Reservation.Clear)
    case CommitDone => Some(Reservation.Done)
    case Crash => Some(Reservation.Crash)
    case _ => None
  }

  /** What a step does to the counters is their step, or nothing. */
  ghost predicate Tracks(L: Layout, s: State, e: Event)
    requires Sized(L, s) && Enabled(L, s, e) && (e.LogWrite? ==> e.i < |s.cache.bufs|)
  {
    match CounterEvent(s, e)
    case None => Counters(Next(L, s, e)) == Counters(s)
    case Some(c) => Reservation.Enabled(Counters(s), c) && Counters(Next(L, s, e)) == Reservation.Next(Counters(s), c)
  }

  lemma CountersCommit(L: Layout, s: State, e: Event)
    requires Sized(L, s) && Phases(L, s) && SameKeys(s) && Enabled(L, s, e)
    requires e.ClearHead? || e.CommitDone? || e.Crash?
    ensures Tracks(L, s, e)
  {
    assert s.added.Keys == {} ==> s.added == map[];
  }

  lemma CountersWrites(L: Layout, s: State, e: Event)
    requires Sized(L, s) && Phases(L, s) && SameKeys(s) && Enabled(L, s, e)
    requires e.LogBlock? || e.CommitHead? || e.InstallBlock? || e.UnpinBlock?
    ensures Tracks(L, s, e)
  {
    assert s.added.Keys == {} ==> s.added == map[];
  }

  lemma CountersOp(L: Layout, s: State, e: Event)
    requires Sized(L, s) && Phases(L, s) && SameKeys(s) && Enabled(L, s, e) && (e.BeginOp? || e.LogWrite? || e.EndOp?)
    ensures Tracks(L, s, e)
  {
    assert |s.inOp| == |s.inOp.Keys| && |s.added| == |s.added.Keys|;
    assert s.added.Keys == {} ==> s.added == map[];
  }

  lemma CountersBuffers(L: Layout, s: State, e: Event)
    requires Sized(L, s) && Phases(L, s) && SameKeys(s) && Enabled(L, s, e)
    requires e.GetBuf? || e.LockBuf? || e.Fill? || e.UnlockBuf? || e.DropBuf? || e.Modify?
    ensures Tracks(L, s, e)
  {
    assert s.added.Keys == {} ==> s.added == map[];
  }

  lemma CountersRecovery(L: Layout, s: State, e: Event)
    requires Sized(L, s) && Phases(L, s) && SameKeys(s) && Enabled(L, s, e)
    requires e.ReadHead? || e.RecoverBlock? || e.RecoverClear?
    ensures Tracks(L, s, e)
  {
    assert s.added.Keys == {} ==> s.added == map[];
  }

  lemma CountersStep(L: Layout, s: State, e: Event)
    requires Inv(L, s) && SameKeys(s) && Enabled(L, s, e)
    ensures Tracks(L, s, e)
  {
    GetPhases(L, s);
    if e.BeginOp? || e.LogWrite? || e.EndOp? {
      CountersOp(L, s, e);
    } else if e.ClearHead? || e.CommitDone? || e.Crash? {
      CountersCommit(L, s, e);
    } else if e.LogBlock? || e.CommitHead? || e.InstallBlock? || e.UnpinBlock? {
      CountersWrites(L, s, e);
    } else if e.ReadHead? || e.RecoverBlock? || e.RecoverClear? {
      CountersRecovery(L, s, e);
    } else {
      CountersBuffers(L, s, e);
    }
  }

  /** Runs in which no operation ever adds more than q blocks to the header. */
  ghost predicate RunWithin(q: nat, L: Layout, s: State, es: seq<Event>, t: State)
    decreases |es|
  {
    && Reservation.WithinQuota(q, Counters(s))
    && if es == [] then s == t
       else Sized(L, s) && Enabled(L, s, es[0]) && RunWithin(q, L, Next(L, s, es[0]), es[1..], t)
  }

  lemma {:induction false} RunReserved(q: nat, room: nat, L: Layout, s: State, es: seq<Event>, t: State)
    requires q <= MAXOPBLOCKS && (room == LOGSIZE || (q <= 9 && room == 28))
    requires Inv(L, s) && SameKeys(s) && RunWithin(q, L, s, es, t) && Reservation.Reserved(q, room, Counters(s))
    ensures Inv(L, t) && SameKeys(t) && Reservation.Reserved(q, room, Counters(t))
    decreases |es|
  {
    if es != [] {
      StepKeeps(L, s, es[0]);
      StepKeys(L, s, es[0]);
      CountersStep(L, s, es[0]);
      if CounterEvent(s, es[0]).Some? {
        Reservation.StepReserved(q, room, Counters(s), CounterEvent(s, es[0]).value);
      }
      RunReserved(q, room, L, Next(L, s, es[0]), es[1..], t);
    }
  }

  /** In every interleaving: a commit runs with no operation in progress, and header entries plus
      unused reservations fit LOGSIZE. With mkfs's 30 log blocks and operations of at most 9 new blocks,
      at most 28 entries are ever used, so log_write's "too big a transaction" is unreachable. */
  lemma LogSpace(q: nat, L: Layout, s0: State, es: seq<Event>, s: State)
    requires q <= MAXOPBLOCKS && Init(L, s0) && RunWithin(q, L, s0, es, s)
    ensures s.phase.Committing() ==> s.inOp == map[] && s.unlogged == {}
    ensures !s.phase.Restarting() ==> |s.lh| + Reservation.Unused(q, s.added) <= LOGSIZE
    ensures q <= 9 && L.nlog == 30 && s.inOp != map[] ==> |s.lh| <= 28 && !(|s.lh| >= LOGSIZE || |s.lh| >= L.nlog - 1)
  {
    InitInv(L, s0);
    RunReserved(q, LOGSIZE, L, s0, es, s);
    GetPhases(L, s);
    if s.phase.Committing() { CommitIdle(L, s); }
    if q <= 9 {
      RunReserved(q, 28, L, s0, es, s);
      Reservation.UnusedNonnegative(q, Counters(s).added);
    }
  }
}
