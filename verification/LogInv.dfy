/** What every step of the log and buffer cache keeps. */
module LogInv {
  import opened Folding
  import opened Params
  import opened Blocks
  import opened Bio
  import opened Log

  // ---- the buffer cache ----

  /** The part of the state that the cache invariant reads. */
  datatype View = View(
    bufs: seq<Buf>, owner: seq<Option<nat>>,
    waiting: multiset<nat>, leaving: multiset<nat>,
    unlogged: set<nat>, inOp: map<nat, nat>,
    pins: set<nat>, disk: seq<Block>,
    mem: seq<Block>,
    restarting: bool
  )

  ghost function ViewOf(s: State): View {
    View(s.cache.bufs, s.owner, s.waiting, s.leaving, s.unlogged, s.inOp, Pins(s.phase, s.lh), s.disk, s.mem,
        s.phase.Restarting())
  }

  /** No block has two buffers, and a claimed buffer holds a block of the root disk. */
  ghost predicate Unique(L: Layout, bufs: seq<Buf>) {
    && (forall i | 0 <= i < |bufs| :: bufs[i].Claimed() ==> bufs[i].dev == ROOTDEV)
    && (forall i | 0 <= i < |bufs| :: bufs[i].dev == ROOTDEV ==> bufs[i].blockno < L.size)
    && (forall i, j | 0 <= i < j < |bufs| ::
          bufs[i].dev == ROOTDEV && bufs[j].dev == ROOTDEV ==> bufs[i].blockno != bufs[j].blockno)
  }

  ghost predicate IsPinned(b: Buf, pins: set<nat>) {
    b.dev == ROOTDEV && b.blockno in pins
  }

  /** refcnt counts the holder, the waiters, those inside brelse, and the pin. */
  ghost predicate Counted(v: View) {
    && |v.bufs| == |v.owner|
    && (forall i | i in v.waiting :: i < |v.bufs|) && (forall i | i in v.leaving :: i < |v.bufs|)
    && (forall i | 0 <= i < |v.bufs| ::
          v.bufs[i].refcnt ==
          v.waiting[i] + v.leaving[i] + (if v.owner[i].Some? then 1 else 0) + (if IsPinned(v.bufs[i], v.pins) then 1
              else 0))
  }

  ghost predicate Cached(bufs: seq<Buf>, b: nat) {
    exists i :: 0 <= i < |bufs| && bufs[i].Is(ROOTDEV, b) && bufs[i].valid
  }

  ghost predicate PinsCached(v: View) {
    forall b {:trigger Cached(v.bufs, b)} | b in v.pins :: Cached(v.bufs, b)
  }

  /** Only an operation in progress has modified buffers it has not logged. */
  ghost predicate Modifiers(L: Layout, v: View) {
    forall i | i in v.unlogged ::
      && i < |v.bufs| && i < |v.owner| && v.owner[i].Some? && v.owner[i].value in v.inOp
      && v.bufs[i].valid && L.Home(v.bufs[i].blockno)
  }

  /** A valid buffer holds the latest contents of its block. */
  ghost predicate Fresh(L: Layout, v: View)
    requires |v.disk| == |v.mem| == L.size && Unique(L, v.bufs)
  {
    forall i | 0 <= i < |v.bufs| :: v.bufs[i].valid ==>
      v.bufs[i].data == if L.InLog(v.bufs[i].blockno) || v.restarting then v.disk[v.bufs[i].blockno]
          else v.mem[v.bufs[i].blockno]
  }

  ghost predicate BeingModified(bufs: seq<Buf>, unlogged: set<nat>, b: nat) {
    exists i :: i in unlogged && 0 <= i < |bufs| && bufs[i].blockno == b
  }

  /** Outside recovery, the disk lacks only what is pinned or being modified. */
  ghost predicate Synced(L: Layout, v: View)
    requires |v.disk| == |v.mem| == L.size
  {
    !v.restarting ==>
      forall b: nat | L.Home(b) :: v.disk[b] == v.mem[b] || b in v.pins || BeingModified(v.bufs, v.unlogged, b)
  }

  ghost predicate CacheInv(L: Layout, v: View) {
    && |v.disk| == |v.mem| == L.size
    && Unique(L, v.bufs) && Counted(v) && PinsCached(v) && Modifiers(L, v) && Fresh(L, v) && Synced(L, v)
  }

  // ---- the header and the phases ----

  ghost predicate Distinct(q: seq<nat>) {
    forall j, k | 0 <= j < k < |q| :: q[j] != q[k]
  }

  ghost predicate Entries(L: Layout, h: seq<nat>) {
    && |h| <= LOGSIZE && |h| <= L.nlog - 1 && Distinct(h)
    && forall k | 0 <= k < |h| :: L.Home(h[k])
  }

  /** A commit or a recovery runs with no operation in progress, and works on a whole header. */
  ghost predicate Phases(L: Layout, s: State) {
    && Entries(L, s.lh)
    && (s.phase.Logging? || s.phase.Installing? || s.phase.Unpinning? || s.phase.Recovering? ==> s.phase.tail <= |s.lh|)
    && (s.phase.Booting? || s.phase.Ending? ==> s.lh == [])
    && (!s.phase.Idle? ==> s.inOp == map[])
    && (s.phase.Idle? && s.inOp == map[] ==> s.lh == [])
  }

  // ---- the disk ----

  ghost predicate GoodHeader(L: Layout, disk: seq<Block>)
    requires L.Wf() && |disk| == L.size
  {
    HeaderCount(disk[L.logstart]) <= LOGSIZE && Entries(L, HeaderOf(disk[L.logstart]))
  }

  /** What a recovery that completes makes of block b, h being the header on disk. */
  ghost predicate RecoversTo(L: Layout, disk: seq<Block>, h: seq<nat>, b: nat, data: Block)
    requires L.Wf() && |disk| == L.size && Entries(L, h) && L.Home(b)
  {
    && (b !in h ==> disk[b] == data)
    && (forall k | 0 <= k < |h| :: h[k] == b ==> disk[L.logstart + 1 + k] == data)
  }

  /** The disk alone determines the committed contents. */
  ghost predicate Durable(L: Layout, disk: seq<Block>, dur: seq<Block>)
    requires L.Wf() && |disk| == |dur| == L.size
  {
    && GoodHeader(L, disk)
    && forall b: nat | L.Home(b) :: RecoversTo(L, disk, HeaderOf(disk[L.logstart]), b, dur[b])
  }

  ghost predicate HomeEqual(L: Layout, a: seq<Block>, b: seq<Block>)
    requires |a| == |b| == L.size
  {
    forall k: nat | L.Home(k) :: a[k] == b[k]
  }

  /** The first t log blocks hold the contents of the first t header entries. */
  ghost predicate Copied(L: Layout, disk: seq<Block>, mem: seq<Block>, lh: seq<nat>, t: nat)
    requires L.Wf() && |disk| == |mem| == L.size && Entries(L, lh) && t <= |lh|
  {
    forall k | 0 <= k < t :: disk[L.logstart + 1 + k] == mem[lh[k]]
  }

  /** How far write_log and install_trans have come. */
  ghost predicate Progress(L: Layout, s: State)
    requires Sized(L, s) && Phases(L, s) && GoodHeader(L, s.disk)
  {
    match s.phase
    case Idle => HeaderCount(s.disk[L.logstart]) == 0
    case Logging(_, t) => HeaderCount(s.disk[L.logstart]) == 0 && Copied(L, s.disk, s.mem, s.lh, t)
    case Installing(_, t) => HeaderOf(s.disk[L.logstart]) == s.lh && HomeEqual(L, s.dur, s.mem)
    case Unpinning(_, t) =>
      && HeaderOf(s.disk[L.logstart]) == s.lh && HomeEqual(L, s.dur, s.mem)
      && t < |s.lh| && s.disk[s.lh[t]] == s.mem[s.lh[t]]
    case Ending(_) => HeaderCount(s.disk[L.logstart]) == 0
    case Booting => HomeEqual(L, s.dur, s.mem)
    case Recovering(t) =>
      && HeaderOf(s.disk[L.logstart]) == s.lh && HomeEqual(L, s.dur, s.mem)
      && forall k | 0 <= k < t :: s.disk[s.lh[k]] == s.dur[s.lh[k]]
  }

  ghost predicate DiskInv(L: Layout, s: State)
    requires Sized(L, s)
  {
    Phases(L, s) && Durable(L, s.disk, s.dur) && Progress(L, s)
  }

  ghost predicate Inv(L: Layout, s: State) {
    Sized(L, s) && forall k: nat {:trigger Open(k)} :: Open(k) ==> CacheInv(L, ViewOf(s)) && DiskInv(L, s)
  }

  lemma InitInv(L: Layout, s: State)
    requires Init(L, s)
    ensures Inv(L, s)
  {
    assert Open(0);
  }

  /** A step that leaves disk, header and operations alone keeps what is said about them. */
  lemma DiskKeeps(L: Layout, s: State, t: State)
    requires Sized(L, s) && DiskInv(L, s) && Sized(L, t)
    requires t.disk == s.disk && t.dur == s.dur && t.mem == s.mem && t.lh == s.lh && t.phase == s.phase
             && t.inOp == s.inOp
    ensures DiskInv(L, t)
  {
  }

  // ---- cached and modified blocks survive changes to other parts of their buffers ----

  lemma CachedKeeps(v: View, bufs': seq<Buf>)
    requires PinsCached(v) && |bufs'| == |v.bufs|
    requires forall i | 0 <= i < |bufs'| ::
             v.bufs[i].valid && v.bufs[i].dev == ROOTDEV && v.bufs[i].blockno in v.pins ==>
               bufs'[i].valid && bufs'[i].Is(ROOTDEV, v.bufs[i].blockno)
    ensures PinsCached(v.(bufs := bufs'))
  {
    forall b | b in v.pins ensures Cached(bufs', b) {
      assert Cached(v.bufs, b);
      var i :| 0 <= i < |v.bufs| && v.bufs[i].Is(ROOTDEV, b) && v.bufs[i].valid;
      assert bufs'[i].Is(ROOTDEV, b);
    }
  }

  lemma ModifiedKeeps(bufs: seq<Buf>, unlogged: set<nat>, bufs': seq<Buf>, unlogged': set<nat>, b: nat)
    requires BeingModified(bufs, unlogged, b) && |bufs'| == |bufs|
    requires forall i | i in unlogged && 0 <= i < |bufs| && bufs[i].blockno == b ::
             i in unlogged' && bufs'[i].blockno == b
    ensures BeingModified(bufs', unlogged', b)
  {
    var i :| i in unlogged && 0 <= i < |bufs| && bufs[i].blockno == b;
    assert bufs'[i].blockno == b;
  }

  lemma SyncedKeeps(L: Layout, v: View, bufs': seq<Buf>)
    requires |v.disk| == |v.mem| == L.size && Synced(L, v) && |bufs'| == |v.bufs|
    requires forall i | i in v.unlogged && 0 <= i < |bufs'| :: bufs'[i].blockno == v.bufs[i].blockno
    ensures Synced(L, v.(bufs := bufs'))
  {
    forall b | BeingModified(v.bufs, v.unlogged, b) ensures BeingModified(bufs', v.unlogged, b) {
      ModifiedKeeps(v.bufs, v.unlogged, bufs', v.unlogged, b);
    }
  }

  // ---- bget ----

  /** Buffer i with its reference count replaced. */
  ghost function Recount(v: View, i: nat, n: nat): View
    requires i < |v.bufs|
  {
    v.(bufs := v.bufs[i := v.bufs[i].(refcnt := n)])
  }

  /** Everything but the count itself survives a change of reference count. */
  lemma RecountKeeps(L: Layout, v: View, i: nat, n: nat)
    requires i < |v.bufs| && |v.disk| == |v.mem| == L.size && v.bufs[i].dev == ROOTDEV
    requires Unique(L, v.bufs) && PinsCached(v) && Modifiers(L, v) && Fresh(L, v) && Synced(L, v)
    ensures var w := Recount(v, i, n);
            Unique(L, w.bufs) && PinsCached(w) && Modifiers(L, w) && Fresh(L, w) && Synced(L, w)
  {
    var w := Recount(v, i, n);
    CachedKeeps(v, w.bufs);
    SyncedKeeps(L, v, w.bufs);
  }

  lemma HitKeeps(L: Layout, v: View, i: nat)
    requires CacheInv(L, v) && i < |v.bufs| && v.bufs[i].dev == ROOTDEV
    ensures CacheInv(L, Recount(v, i, v.bufs[i].refcnt + 1).(waiting := v.waiting + multiset{i}))
  {
    RecountKeeps(L, v, i, v.bufs[i].refcnt + 1);
  }

  ghost function Recycled(v: View, i: nat, b: nat): View
    requires i < |v.bufs|
  {
    v.(bufs := v.bufs[i := Buf(ROOTDEV, b, false, 1, v.bufs[i].data)], waiting := v.waiting + multiset{i})
  }

  /** A buffer nobody references can be given to a block nobody has cached. */
  lemma RecycleCounts(L: Layout, v: View, i: nat, b: nat)
    requires CacheInv(L, v) && i < |v.bufs| && b < L.size && v.bufs[i].refcnt == 0
    requires forall j | 0 <= j < |v.bufs| :: !v.bufs[j].Is(ROOTDEV, b)
    ensures Unique(L, Recycled(v, i, b).bufs) && Counted(Recycled(v, i, b))
  {
    assert b in v.pins ==> Cached(v.bufs, b);
  }

  lemma RecycleKeeps(L: Layout, v: View, i: nat, b: nat)
    requires CacheInv(L, v) && i < |v.bufs| && b < L.size && v.bufs[i].refcnt == 0
    requires forall j | 0 <= j < |v.bufs| :: !v.bufs[j].Is(ROOTDEV, b)
    ensures CacheInv(L, Recycled(v, i, b))
  {
    var w := Recycled(v, i, b);
    RecycleCounts(L, v, i, b);
    assert i !in v.unlogged;
    CachedKeeps(v, w.bufs);
    SyncedKeeps(L, v, w.bufs);
  }

  lemma HitCache(L: Layout, s: State, i: nat, t: State)
    requires Sized(L, s) && CacheInv(L, ViewOf(s)) && i < NBUF && s.cache.bufs[i].dev == ROOTDEV
    requires t == s.(cache := Pinned(s.cache, i), waiting := s.waiting + multiset{i})
    ensures CacheInv(L, ViewOf(t))
  {
    HitKeeps(L, ViewOf(s), i);
    assert ViewOf(t) == Recount(ViewOf(s), i, s.cache.bufs[i].refcnt + 1).(waiting := s.waiting + multiset{i});
  }

  lemma MissCache(L: Layout, s: State, i: nat, b: nat, t: State)
    requires Sized(L, s) && CacheInv(L, ViewOf(s)) && i < NBUF && b < L.size && s.cache.bufs[i].refcnt == 0
    requires forall j | 0 <= j < NBUF :: !s.cache.bufs[j].Is(ROOTDEV, b)
    requires t == s.(cache := s.cache.(bufs := s.cache.bufs[i := Buf(ROOTDEV, b, false, 1, s.cache.bufs[i].data)]),
                     waiting := s.waiting + multiset{i})
    ensures CacheInv(L, ViewOf(t))
  {
    RecycleKeeps(L, ViewOf(s), i, b);
  }

  lemma GetBufCache(L: Layout, s: State, b: nat)
    requires Sized(L, s) && CacheInv(L, ViewOf(s)) && CanGet(L, s, b)
    ensures CacheInv(L, ViewOf(DoGet(L, s, b)))
  {
    GetCases(s.cache, ROOTDEV, b);
    var r := Get(s.cache, ROOTDEV, b);
    if s.cache.bufs[r.idx].Is(ROOTDEV, b) {
      HitCache(L, s, r.idx, DoGet(L, s, b));
    } else {
      MissCache(L, s, r.idx, b, DoGet(L, s, b));
    }
  }

  lemma GetBufKeeps(L: Layout, s: State, b: nat)
    requires Inv(L, s) && CanGet(L, s, b)
    ensures Inv(L, DoGet(L, s, b))
  {
    assert Open(0);
    GetBufCache(L, s, b);
    DiskKeeps(L, s, DoGet(L, s, b));
  }

  // ---- bread, the sleep-lock of a buffer, and brelse ----

  ghost function Filled(v: View, i: nat): View
    requires i < |v.bufs| && v.bufs[i].blockno < |v.disk|
  {
    v.(bufs := v.bufs[i := v.bufs[i].(valid := true, data := v.disk[v.bufs[i].blockno])])
  }

  /** What bread reads from the disk is the latest: a pinned or modified block is still cached. */
  lemma FillCache(L: Layout, v: View, i: nat)
    requires CacheInv(L, v) && i < |v.bufs| && !v.bufs[i].valid && v.bufs[i].blockno < L.size && v.owner[i].Some?
    ensures CacheInv(L, Filled(v, i))
  {
    var b := v.bufs[i].blockno;
    assert v.bufs[i].dev == ROOTDEV;
    assert b in v.pins ==> Cached(v.bufs, b);
    assert !BeingModified(v.bufs, v.unlogged, b);
    CachedKeeps(v, Filled(v, i).bufs);
    SyncedKeeps(L, v, Filled(v, i).bufs);
  }

  lemma FillKeeps(L: Layout, s: State, p: nat, i: nat)
    requires Inv(L, s) && CanFill(L, s, p, i)
    ensures Inv(L, DoFill(L, s, p, i))
  {
    assert Open(0);
    DiskKeeps(L, s, DoFill(L, s, p, i));
    FillCache(L, ViewOf(s), i);
  }

  lemma LockCache(L: Layout, v: View, p: nat, i: nat)
    requires CacheInv(L, v) && i < |v.bufs| && i in v.waiting && v.owner[i].None?
    ensures CacheInv(L, v.(waiting := v.waiting - multiset{i}, owner := v.owner[i := Some(p)]))
  {
  }

  lemma UnlockCache(L: Layout, v: View, i: nat)
    requires CacheInv(L, v) && i < |v.bufs| && i !in v.unlogged && v.owner[i].Some?
    ensures CacheInv(L, v.(owner := v.owner[i := None], leaving := v.leaving + multiset{i}))
  {
  }

  lemma LockBufKeeps(L: Layout, s: State, p: nat, i: nat)
    requires Inv(L, s) && CanLock(s, i)
    ensures Inv(L, DoLock(s, p, i))
  {
    assert Open(0);
    DiskKeeps(L, s, DoLock(s, p, i));
    LockCache(L, ViewOf(s), p, i);
    assert ViewOf(DoLock(s, p, i)) == ViewOf(s).(waiting := s.waiting - multiset{i}, owner := s.owner[i := Some(p)]);
  }

  lemma UnlockBufKeeps(L: Layout, s: State, p: nat, i: nat)
    requires Inv(L, s) && CanUnlock(s, p, i)
    ensures Inv(L, DoUnlock(s, p, i))
  {
    assert Open(0);
    DiskKeeps(L, s, DoUnlock(s, p, i));
    UnlockCache(L, ViewOf(s), i);
    assert ViewOf(DoUnlock(s, p, i)) == ViewOf(s).(owner := s.owner[i := None], leaving := s.leaving + multiset{i});
  }

  lemma DropCache(L: Layout, v: View, i: nat)
    requires CacheInv(L, v) && i < |v.bufs| && i in v.leaving && v.bufs[i].refcnt > 0
    ensures CacheInv(L, Recount(v, i, v.bufs[i].refcnt - 1).(leaving := v.leaving - multiset{i}))
  {
    RecountKeeps(L, v, i, v.bufs[i].refcnt - 1);
  }

  lemma DropView(L: Layout, s: State, i: nat)
    requires Sized(L, s) && CacheInv(L, ViewOf(s)) && CanDrop(s, i)
    ensures CacheInv(L, ViewOf(DoDrop(s, i)))
  {
    DropCache(L, ViewOf(s), i);
    assert ViewOf(DoDrop(s, i))
      == Recount(ViewOf(s), i, s.cache.bufs[i].refcnt - 1).(leaving := s.leaving - multiset{i});
  }

  lemma DropBufKeeps(L: Layout, s: State, i: nat)
    requires Inv(L, s) && CanDrop(s, i)
    ensures Inv(L, DoDrop(s, i))
  {
    assert Open(0);
    DropView(L, s, i);
    DiskKeeps(L, s, DoDrop(s, i));
  }

  // ---- operations ----

  lemma BeginOpKeeps(L: Layout, s: State, p: nat)
    requires Inv(L, s) && CanBegin(s, p)
    ensures Inv(L, DoBegin(s, p))
  {
    assert Open(0);
  }

  ghost function Stored(v: View, i: nat, d: Block): View
    requires i < |v.bufs|
  {
    v.(bufs := v.bufs[i := v.bufs[i].(data := d)])
  }

  /** Changing a buffer's data changes nothing that is said without looking at data. */
  lemma StoreKeeps(L: Layout, v: View, i: nat, d: Block)
    requires CacheInv(L, v) && i < |v.bufs|
    ensures var w := Stored(v, i, d);
            Unique(L, w.bufs) && Counted(w) && PinsCached(w) && Modifiers(L, w) && Synced(L, w)
  {
    CachedKeeps(v, Stored(v, i, d).bufs);
    SyncedKeeps(L, v, Stored(v, i, d).bufs);
  }

  lemma ModifyCache(L: Layout, v: View, i: nat, d: Block)
    requires CacheInv(L, v) && !v.restarting && i < |v.bufs| && v.bufs[i].valid && L.Home(v.bufs[i].blockno)
    requires v.owner[i].Some? && v.owner[i].value in v.inOp
    ensures CacheInv(L, Stored(v, i, d).(unlogged := v.unlogged + {i}, mem := v.mem[v.bufs[i].blockno := d]))
  {
    var w := Stored(v, i, d);
    StoreKeeps(L, v, i, d);
    assert BeingModified(w.bufs, v.unlogged + {i}, v.bufs[i].blockno) by {
      assert w.bufs[i].blockno == v.bufs[i].blockno;
    }
    forall b | BeingModified(w.bufs, v.unlogged, b) ensures BeingModified(w.bufs, v.unlogged + {i}, b) {
      ModifiedKeeps(w.bufs, v.unlogged, w.bufs, v.unlogged + {i}, b);
    }
  }

  lemma ModifyKeeps(L: Layout, s: State, p: nat, i: nat, d: Block)
    requires Inv(L, s) && HoldsHome(L, s, p, i)
    ensures Inv(L, DoModify(L, s, p, i, d))
  {
    assert Open(0);
    ModifyCache(L, ViewOf(s), i, d);
  }

  lemma TailAppend(q: seq<nat>, b: nat)
    ensures Tail(q + [b], 0) == Tail(q, 0) + {b}
  {
    assert (q + [b])[|q|] == b;
    forall x | x in Tail(q, 0) ensures x in Tail(q + [b], 0) {
      var k :| 0 <= k < |q| && q[k] == x;
      assert (q + [b])[k] == x;
    }
  }

  /** log_write: the block is no longer being modified, because it is pinned. */
  lemma LoggedKeeps(L: Layout, v: View, i: nat)
    requires i < |v.bufs| && |v.disk| == |v.mem| == L.size && Modifiers(L, v) && Synced(L, v)
    ensures var w := v.(unlogged := v.unlogged - {i}, pins := v.pins + {v.bufs[i].blockno});
            Modifiers(L, w) && Synced(L, w)
  {
    forall b | BeingModified(v.bufs, v.unlogged, b) && b != v.bufs[i].blockno
      ensures BeingModified(v.bufs, v.unlogged - {i}, b)
    {
      ModifiedKeeps(v.bufs, v.unlogged, v.bufs, v.unlogged - {i}, b);
    }
  }

  lemma LogWriteCache(L: Layout, v: View, i: nat)
    requires CacheInv(L, v) && i < |v.bufs| && v.bufs[i].valid && v.bufs[i].blockno !in v.pins
    ensures CacheInv(L, Recount(v, i, v.bufs[i].refcnt + 1).(unlogged := v.unlogged - {i},
            pins := v.pins + {v.bufs[i].blockno}))
  {
    assert v.bufs[i].dev == ROOTDEV;
    var w := v.(unlogged := v.unlogged - {i}, pins := v.pins + {v.bufs[i].blockno});
    LoggedKeeps(L, v, i);
    assert Cached(v.bufs, v.bufs[i].blockno);
    RecountKeeps(L, w, i, v.bufs[i].refcnt + 1);
  }

  /** log_write of a block not yet in the header. */
  lemma LogWriteNew(L: Layout, s: State, i: nat)
    requires Sized(L, s) && CacheInv(L, ViewOf(s)) && s.phase.Idle?
    requires i < NBUF && s.cache.bufs[i].valid && s.cache.bufs[i].blockno !in s.lh
    ensures CacheInv(L,
            ViewOf(s.(unlogged := s.unlogged - {i}, lh := s.lh + [s.cache.bufs[i].blockno],
            cache := Pinned(s.cache, i))))
  {
    var b := s.cache.bufs[i].blockno;
    TailAppend(s.lh, b);
    LogWriteCache(L, ViewOf(s), i);
    assert ViewOf(s.(unlogged := s.unlogged - {i}, lh := s.lh + [b], cache := Pinned(s.cache, i))) ==
           Recount(ViewOf(s), i, s.cache.bufs[i].refcnt + 1).(unlogged := s.unlogged - {i},
               pins := Pins(s.phase, s.lh) + {b});
  }

  /** log_write of a block already in the header (absorption). */
  lemma LogWriteAbsorbed(L: Layout, s: State, i: nat)
    requires Sized(L, s) && CacheInv(L, ViewOf(s)) && s.phase.Idle? && i < NBUF && s.cache.bufs[i].blockno in s.lh
    ensures CacheInv(L, ViewOf(s.(unlogged := s.unlogged - {i})))
  {
    var b := s.cache.bufs[i].blockno;
    LoggedKeeps(L, ViewOf(s), i);
    assert b in Tail(s.lh, 0);
    assert Pins(s.phase, s.lh) + {b} == Pins(s.phase, s.lh);
    assert ViewOf(s.(unlogged := s.unlogged - {i})) == ViewOf(s).(unlogged := s.unlogged - {i});
  }

  lemma LogWriteKeeps(L: Layout, s: State, p: nat, i: nat)
    requires Inv(L, s) && CanLog(L, s, p, i)
    ensures Inv(L, DoLog(L, s, p, i))
  {
    assert Open(0);
    if s.cache.bufs[i].blockno in s.lh {
      LogWriteAbsorbed(L, s, i);
      assert ViewOf(DoLog(L, s, p, i)) == ViewOf(s.(unlogged := s.unlogged - {i}));
      DiskKeeps(L, s, DoLog(L, s, p, i));
    } else {
      LogWriteNew(L, s, i);
      var b := s.cache.bufs[i].blockno;
      assert ViewOf(DoLog(L, s, p, i))
          == ViewOf(s.(unlogged := s.unlogged - {i}, lh := s.lh + [b], cache := Pinned(s.cache, i)));
    }
  }

  lemma EndOpModifiers(L: Layout, s: State, p: nat)
    requires Inv(L, s) && CanEnd(s, p)
    ensures Modifiers(L, ViewOf(DoEnd(s, p))) && (s.inOp - {p} == map[] ==> s.unlogged == {})
  {
    assert Open(0);
    forall i | i in s.unlogged ensures s.owner[i].value in s.inOp - {p} {
      assert s.owner[i] != Some(p);
    }
  }

  lemma EndOpCache(L: Layout, s: State, p: nat)
    requires Inv(L, s) && CanEnd(s, p)
    ensures CacheInv(L, ViewOf(DoEnd(s, p)))
  {
    assert Open(0);
    EndOpModifiers(L, s, p);
    assert Tail([], 0) == {};
  }

  lemma EndOpDisk(L: Layout, s: State, p: nat)
    requires Inv(L, s) && CanEnd(s, p)
    ensures DiskInv(L, DoEnd(s, p))
  {
    assert Open(0);
  }

  lemma EndOpKeeps(L: Layout, s: State, p: nat)
    requires Inv(L, s) && CanEnd(s, p)
    ensures Inv(L, DoEnd(s, p))
  {
    EndOpCache(L, s, p);
    EndOpDisk(L, s, p);
  }

  // ---- commit ----

  /** A write-through is safe when it stores log contents, or the latest contents of a home block. */
  lemma WriteCache(L: Layout, v: View, i: nat, d: Block)
    requires CacheInv(L, v) && i < |v.bufs| && v.bufs[i].valid
    requires L.InLog(v.bufs[i].blockno) || v.restarting || d == v.mem[v.bufs[i].blockno]
    ensures CacheInv(L, Stored(v, i, d).(disk := v.disk[v.bufs[i].blockno := d]))
  {
    StoreKeeps(L, v, i, d);
    WriteFresh(L, v, i, d);
  }

  lemma WriteFresh(L: Layout, v: View, i: nat, d: Block)
    requires |v.disk| == |v.mem| == L.size && Unique(L, v.bufs) && Fresh(L, v) && i < |v.bufs| && v.bufs[i].valid
    requires L.InLog(v.bufs[i].blockno) || v.restarting || d == v.mem[v.bufs[i].blockno]
    requires Unique(L, Stored(v, i, d).bufs)
    ensures v.bufs[i].blockno < L.size && Fresh(L, Stored(v, i, d).(disk := v.disk[v.bufs[i].blockno := d]))
  {
    var b := v.bufs[i].blockno;
    forall j | 0 <= j < |v.bufs| && v.bufs[j].valid && j != i ensures v.bufs[j].blockno != b { }
  }

  /** Writing a log block beyond the header's entries, or a home block it lists, keeps what recovery yields. */
  lemma DurableKeeps(L: Layout, disk: seq<Block>, dur: seq<Block>, b: nat, d: Block)
    requires L.Wf() && |disk| == |dur| == L.size && Durable(L, disk, dur) && b < L.size
    requires var h := HeaderOf(disk[L.logstart]); if L.InLog(b) then b > L.logstart + |h| else b in h
    ensures Durable(L, disk[b := d], dur)
  {
    var h := HeaderOf(disk[L.logstart]);
    forall a: nat | L.Home(a) ensures RecoversTo(L, disk[b := d], h, a, dur[a]) {
      assert RecoversTo(L, disk, h, a, dur[a]);
    }
  }

  /** t is s after block b was written with d and the phase moved on. */
  ghost predicate WroteBlock(L: Layout, s: State, t: State, b: nat, d: Block, phase: Phase)
    requires b < |s.disk|
  {
    && Sized(L, t) && t.disk == s.disk[b := d] && t.dur == s.dur && t.mem == s.mem && t.lh == s.lh && t.inOp == s.inOp
    && t.phase == phase
  }

  lemma LogBlockDisk(L: Layout, s: State, d: Block, t: State)
    requires Sized(L, s) && DiskInv(L, s) && s.phase.Logging? && s.phase.tail < |s.lh| && d == s.mem[s.lh[s.phase.tail]]
    requires WroteBlock(L, s, t, L.logstart + 1 + s.phase.tail, d, Logging(s.phase.pid, s.phase.tail + 1))
    ensures DiskInv(L, t)
  {
    DurableKeeps(L, s.disk, s.dur, L.logstart + 1 + s.phase.tail, d);
  }

  /** One round of write_log, install_trans or a header write, as the cache sees it. */
  lemma WriteThroughKeeps(L: Layout, s: State, i: nat, d: Block, phase': Phase)
    requires Sized(L, s) && CacheInv(L, ViewOf(s)) && i < NBUF && s.cache.bufs[i].valid
             && s.cache.bufs[i].blockno < L.size
    requires L.InLog(s.cache.bufs[i].blockno) || s.phase.Restarting() || d == s.mem[s.cache.bufs[i].blockno]
    requires Pins(phase', s.lh) == Pins(s.phase, s.lh) && phase'.Restarting() == s.phase.Restarting()
    ensures Sized(L, WriteThrough(L, s, i, d)) && CacheInv(L, ViewOf(WriteThrough(L, s, i, d).(phase := phase')))
  {
    WriteCache(L, ViewOf(s), i, d);
    assert ViewOf(WriteThrough(L, s, i, d).(phase := phase'))
        == Stored(ViewOf(s), i, d).(disk := s.disk[s.cache.bufs[i].blockno := d]);
  }

  lemma LogBlockKeeps(L: Layout, s: State, li: nat, fi: nat)
    requires Inv(L, s) && CanLogBlock(L, s, li, fi)
    ensures Inv(L, DoLogBlock(L, s, li, fi))
  {
    assert Open(0);
    var d := s.cache.bufs[fi].data;
    var t := s.phase.tail;
    HeldIsLatest(L, s, fi);
    WriteThroughKeeps(L, s, li, d, Logging(s.phase.pid, t + 1));
    LogBlockDisk(L, s, d, DoLogBlock(L, s, li, fi));
  }

  lemma HeldIsLatest(L: Layout, s: State, i: nat)
    requires Sized(L, s) && CacheInv(L, ViewOf(s)) && !s.phase.Restarting()
    requires i < NBUF && s.cache.bufs[i].valid && L.Home(s.cache.bufs[i].blockno)
    ensures s.cache.bufs[i].data == s.mem[s.cache.bufs[i].blockno]
  {
  }

  /** The log block that installs next holds the latest contents of its home block. */
  lemma LoggedIsLatest(L: Layout, s: State)
    requires Sized(L, s) && DiskInv(L, s) && s.phase.Installing? && s.phase.tail < |s.lh|
    ensures s.disk[L.logstart + 1 + s.phase.tail] == s.mem[s.lh[s.phase.tail]]
  {
    var b := s.lh[s.phase.tail];
    assert RecoversTo(L, s.disk, s.lh, b, s.dur[b]);
  }

  lemma InstallBlockDisk(L: Layout, s: State, d: Block, t: State)
    requires Sized(L, s) && DiskInv(L, s) && s.phase.Installing? && s.phase.tail < |s.lh|
             && d == s.mem[s.lh[s.phase.tail]]
    requires WroteBlock(L, s, t, s.lh[s.phase.tail], d, Unpinning(s.phase.pid, s.phase.tail))
    ensures DiskInv(L, t)
  {
    DurableKeeps(L, s.disk, s.dur, s.lh[s.phase.tail], d);
  }

  lemma InstallBlockKeeps(L: Layout, s: State, li: nat, di: nat)
    requires Inv(L, s) && CanInstall(L, s, li, di)
    ensures Inv(L, DoInstall(L, s, li, di))
  {
    assert Open(0);
    var d := s.cache.bufs[li].data;
    LoggedIsLatest(L, s);
    WriteThroughKeeps(L, s, di, d, Unpinning(s.phase.pid, s.phase.tail));
    InstallBlockDisk(L, s, d, DoInstall(L, s, li, di));
  }

  lemma TailStep(q: seq<nat>, t: nat)
    requires t < |q| && Distinct(q)
    ensures Tail(q, t) == Tail(q, t + 1) + {q[t]} && q[t] !in Tail(q, t + 1)
  {
  }

  /** bunpin of a block that has reached its home. */
  lemma UnpinCounted(L: Layout, v: View, i: nat, pins: set<nat>)
    requires CacheInv(L, v) && i < |v.bufs| && v.bufs[i].dev == ROOTDEV
    requires v.bufs[i].blockno !in pins && v.pins == pins + {v.bufs[i].blockno}
    ensures v.bufs[i].refcnt > 0
    ensures Counted(Recount(v, i, v.bufs[i].refcnt - 1).(pins := pins))
  {
  }

  lemma UnpinContents(L: Layout, v: View, b: nat, pins: set<nat>)
    requires |v.disk| == |v.mem| == L.size && b < L.size && v.pins == pins + {b} && v.disk[b] == v.mem[b]
    requires Unique(L, v.bufs) && PinsCached(v) && Modifiers(L, v) && Fresh(L, v) && Synced(L, v)
    ensures var w := v.(pins := pins); PinsCached(w) && Modifiers(L, w) && Fresh(L, w) && Synced(L, w)
  {
  }

  lemma UnpinCache(L: Layout, v: View, i: nat, pins: set<nat>)
    requires CacheInv(L, v) && !v.restarting && i < |v.bufs| && v.bufs[i].dev == ROOTDEV
    requires v.bufs[i].blockno !in pins && v.pins == pins + {v.bufs[i].blockno}
    requires v.disk[v.bufs[i].blockno] == v.mem[v.bufs[i].blockno]
    ensures v.bufs[i].refcnt > 0
    ensures CacheInv(L, Recount(v, i, v.bufs[i].refcnt - 1).(pins := pins))
  {
    UnpinCounted(L, v, i, pins);
    RecountKeeps(L, v, i, v.bufs[i].refcnt - 1);
    UnpinContents(L, Recount(v, i, v.bufs[i].refcnt - 1), v.bufs[i].blockno, pins);
  }

  lemma UnpinBlockCache(L: Layout, s: State, di: nat)
    requires Sized(L, s) && CacheInv(L, ViewOf(s)) && CanUnpin(L, s, di) && Distinct(s.lh)
    requires s.lh[s.phase.tail] < L.size && s.disk[s.lh[s.phase.tail]] == s.mem[s.lh[s.phase.tail]]
    ensures CacheInv(L, ViewOf(DoUnpin(L, s, di)))
  {
    var t := s.phase.tail;
    TailStep(s.lh, t);
    UnpinCache(L, ViewOf(s), di, Tail(s.lh, t + 1));
    assert ViewOf(DoUnpin(L, s, di)) == Recount(ViewOf(s), di, s.cache.bufs[di].refcnt - 1).(pins := Tail(s.lh, t + 1));
  }

  lemma UnpinBlockDisk(L: Layout, s: State, di: nat)
    requires Sized(L, s) && DiskInv(L, s) && CanUnpin(L, s, di)
    ensures DiskInv(L, DoUnpin(L, s, di))
  {
  }

  lemma UnpinBlockKeeps(L: Layout, s: State, di: nat)
    requires Inv(L, s) && CanUnpin(L, s, di)
    ensures Inv(L, DoUnpin(L, s, di))
  {
    assert Open(0);
    UnpinBlockCache(L, s, di);
    UnpinBlockDisk(L, s, di);
  }

  /** Writing the header block, with entries that name log blocks already holding their contents. */
  lemma DurableHeader(L: Layout, disk: seq<Block>, mem: seq<Block>, lh: seq<nat>, d: Block)
    requires L.Wf() && |disk| == |mem| == L.size && Entries(L, lh) && HeaderCount(d) == |lh| && HeaderOf(d) == lh
    requires Copied(L, disk, mem, lh, |lh|)
    requires forall b: nat | L.Home(b) :: b !in lh ==> disk[b] == mem[b]
    ensures Durable(L, disk[L.logstart := d], mem)
  {
  }

  lemma CommittedSynced(L: Layout, s: State)
    requires Inv(L, s) && (s.phase.Logging? || s.phase.Ending? || (s.phase.Installing? && s.phase.tail == |s.lh|))
    ensures forall b: nat | L.Home(b) :: s.disk[b] == s.mem[b] || (s.phase.Logging? && b in s.lh)
  {
    assert Open(0);
    assert s.unlogged == {};
  }

  lemma CommitHeadDisk(L: Layout, s: State, d: Block, t: State)
    requires Inv(L, s) && s.phase.Logging? && s.phase.tail == |s.lh| <= LOGSIZE && HeaderCount(d) == |s.lh|
             && HeaderOf(d) == s.lh
    requires Sized(L, t) && t.disk == s.disk[L.logstart := d] && t.mem == t.dur == s.mem && t.lh == s.lh
             && t.inOp == s.inOp
    requires t.phase == Installing(s.phase.pid, 0)
    ensures DiskInv(L, t)
  {
    assert Open(0);
    CommittedSynced(L, s);
    DurableHeader(L, s.disk, s.mem, s.lh, d);
  }

  lemma CommitHeadKeeps(L: Layout, s: State, hi: nat)
    requires Inv(L, s) && CanCommit(L, s, hi)
    ensures Inv(L, DoCommit(L, s, hi))
  {
    assert Open(0);
    var d := PutHeader(s.cache.bufs[hi].data, s.lh);
    HeaderRoundTrip(s.cache.bufs[hi].data, s.lh);
    WriteThroughKeeps(L, s, hi, d, Installing(s.phase.pid, 0));
    assert ViewOf(DoCommit(L, s, hi)) == ViewOf(WriteThrough(L, s, hi, d).(phase := Installing(s.phase.pid, 0)));
    CommitHeadDisk(L, s, d, DoCommit(L, s, hi));
  }

  lemma ClearHeadKeeps(L: Layout, s: State, hi: nat)
    requires Inv(L, s) && CanClear(L, s, hi)
    ensures Inv(L, DoClear(L, s, hi))
  {
    assert Open(0);
    var d := PutHeader(s.cache.bufs[hi].data, []);
    HeaderRoundTrip(s.cache.bufs[hi].data, []);
    WriteCache(L, ViewOf(s), hi, d);
    CommittedSynced(L, s);
    DurableHeader(L, s.disk, s.mem, [], d);
    assert Tail(s.lh, |s.lh|) == {};
    assert ViewOf(DoClear(L, s, hi)) == Stored(ViewOf(s), hi, d).(disk := s.disk[L.logstart := d]);
  }

  lemma CommitDoneKeeps(L: Layout, s: State)
    requires Inv(L, s) && s.phase.Ending?
    ensures Inv(L, s.(phase := Idle))
  {
    assert Open(0);
    assert Tail([], 0) == {};
  }

  // ---- crash and recovery ----

  lemma CrashKeeps(L: Layout, s: State)
    requires Inv(L, s)
    ensures Inv(L, Restart(s))
  {
    assert Open(0);
    InitWf();
  }

  lemma ReadHeadKeeps(L: Layout, s: State, p: nat, hi: nat)
    requires Inv(L, s) && CanReadHead(L, s, p, hi)
    ensures Inv(L, DoReadHead(L, s, p, hi))
  {
    assert Open(0);
  }

  lemma RecoverBlockDisk(L: Layout, s: State, d: Block, t: State)
    requires Sized(L, s) && DiskInv(L, s) && s.phase.Recovering? && s.phase.tail < |s.lh|
             && d == s.disk[L.logstart + 1 + s.phase.tail]
    requires WroteBlock(L, s, t, s.lh[s.phase.tail], d, Recovering(s.phase.tail + 1))
    ensures DiskInv(L, t)
  {
    var b := s.lh[s.phase.tail];
    assert RecoversTo(L, s.disk, s.lh, b, s.dur[b]);
    DurableKeeps(L, s.disk, s.dur, b, d);
  }

  lemma RecoverData(L: Layout, s: State, p: nat, li: nat, di: nat)
    requires Sized(L, s) && CacheInv(L, ViewOf(s)) && CanRecover(L, s, p, li, di)
    ensures s.cache.bufs[li].data == s.disk[L.logstart + 1 + s.phase.tail]
  {
  }

  lemma RecoverBlockCache(L: Layout, s: State, p: nat, li: nat, di: nat)
    requires Sized(L, s) && CacheInv(L, ViewOf(s)) && CanRecover(L, s, p, li, di)
    ensures s.cache.bufs[li].data == s.disk[L.logstart + 1 + s.phase.tail]
    ensures Sized(L, DoRecover(L, s, p, li, di)) && CacheInv(L, ViewOf(DoRecover(L, s, p, li, di)))
  {
    RecoverData(L, s, p, li, di);
    WriteThroughKeeps(L, s, di, s.cache.bufs[li].data, Recovering(s.phase.tail + 1));
  }

  lemma RecoverBlockKeeps(L: Layout, s: State, p: nat, li: nat, di: nat)
    requires Inv(L, s) && CanRecover(L, s, p, li, di)
    ensures Inv(L, DoRecover(L, s, p, li, di))
  {
    assert Open(0);
    RecoverBlockCache(L, s, p, li, di);
    RecoverBlockDisk(L, s, s.cache.bufs[li].data, DoRecover(L, s, p, li, di));
  }

  /** Once every entry is installed, the disk is the committed contents. */
  lemma RecoveredDisk(L: Layout, s: State)
    requires Sized(L, s) && DiskInv(L, s) && s.phase.Recovering? && s.phase.tail == |s.lh|
    ensures HomeEqual(L, s.disk, s.dur)
  {
    forall b: nat | L.Home(b) ensures s.disk[b] == s.dur[b] {
      assert RecoversTo(L, s.disk, s.lh, b, s.dur[b]);
    }
  }

  /** When recovery ends, what was read from the disk during it is the latest. */
  lemma RecoveryEnds(L: Layout, v: View)
    requires CacheInv(L, v) && HomeEqual(L, v.disk, v.mem)
    ensures CacheInv(L, v.(restarting := false))
  {
  }

  lemma RecoverClearKeeps(L: Layout, s: State, p: nat, hi: nat)
    requires Inv(L, s) && CanFinish(L, s, p, hi)
    ensures Inv(L, DoFinish(L, s, p, hi))
  {
    assert Open(0);
    var d := PutHeader(s.cache.bufs[hi].data, []);
    HeaderRoundTrip(s.cache.bufs[hi].data, []);
    WriteCache(L, ViewOf(s), hi, d);
    RecoveredDisk(L, s);
    DurableHeader(L, s.disk, s.dur, [], d);
    var v := Stored(ViewOf(s), hi, d).(disk := s.disk[L.logstart := d]);
    RecoveryEnds(L, v);
    assert Tail([], 0) == {};
    assert ViewOf(DoFinish(L, s, p, hi)) == v.(restarting := false);
    assert DiskInv(L, DoFinish(L, s, p, hi));
  }
}
