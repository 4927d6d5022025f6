/** kernel/log.c running over kernel/bio.c: every interleaving of processes that
    read, modify, log and release buffers, of the commit, and of crashes followed
    by recovery. One step is one section under a lock, or one block transfer. */
module Log {
  import opened Params
  import opened Blocks
  import opened Bio

  /** What initlog takes from the superblock: header at logstart, nlog blocks in all. */
  datatype Layout = Layout(logstart: nat, nlog: nat, size: nat) {
    predicate Wf() { 1 <= nlog && logstart + nlog <= size < TWO32 }
    predicate InLog(b: nat) { logstart <= b < logstart + nlog }
    predicate Home(b: nat) { b < size && !InLog(b) }
  }

  datatype Option<+T> = None | Some(value: T)

  // ---- the header block ----

  function PutEntries(b: Block, lh: seq<nat>, k: nat): (r: Block)
    requires k <= |lh| < WORDS
    requires forall i | 0 <= i < |lh| :: lh[i] < TWO32
    ensures forall i: nat | i < WORDS && !(k < i <= |lh|) :: GetWord(r, i) == GetWord(b, i)
    ensures forall i | k < i <= |lh| :: GetWord(r, i) == lh[i - 1]
    decreases |lh| - k
  {
    if k == |lh| then b
    else
      GetPutWord(b, k + 1, lh[k]);
      PutEntries(PutWord(b, k + 1, lh[k]), lh, k + 1)
  }

  /** write_head: only n and the first n entries of the block are overwritten. */
  function PutHeader(b: Block, lh: seq<nat>): Block
    requires |lh| <= LOGSIZE && forall i | 0 <= i < |lh| :: lh[i] < TWO32
  {
    PutEntries(PutWord(b, 0, |lh|), lh, 0)
  }

  function HeaderCount(b: Block): nat {
    GetWord(b, 0)
  }

  /** read_head. */
  function HeaderOf(b: Block): seq<nat>
    requires HeaderCount(b) <= LOGSIZE
  {
    seq(HeaderCount(b), i requires 0 <= i < HeaderCount(b) => GetWord(b, i + 1))
  }

  lemma HeaderRoundTrip(b: Block, lh: seq<nat>)
    requires |lh| <= LOGSIZE && forall i | 0 <= i < |lh| :: lh[i] < TWO32
    ensures HeaderCount(PutHeader(b, lh)) == |lh|
    ensures HeaderOf(PutHeader(b, lh)) == lh
  {
    GetPutWord(b, 0, |lh|);
  }

  // ---- state ----

  /** Idle: no commit. Logging, Installing, Unpinning, Ending: log.committing is set.
      Booting, Recovering: initlog after a crash. `tail` is the loop counter. */
  datatype Phase =
    | Idle
    | Logging(pid: nat, tail: nat)
    | Installing(pid: nat, tail: nat)
    | Unpinning(pid: nat, tail: nat)
    | Ending(pid: nat)
    | Booting
    | Recovering(tail: nat)
  {
    predicate Restarting() { Booting? || Recovering? }
    predicate Committing() { Logging? || Installing? || Unpinning? || Ending? }
  }

  /** The elements of q from position t on. */
  ghost function Tail(q: seq<nat>, t: nat): set<nat> {
    set k | t <= k < |q| :: q[k]
  }

  /** The blocks log_write has pinned and install_trans has not yet unpinned. */
  ghost function Pins(phase: Phase, lh: seq<nat>): set<nat> {
    match phase
    case Idle => Tail(lh, 0)
    case Logging(_, _) => Tail(lh, 0)
    case Installing(_, t) => Tail(lh, t)
    case Unpinning(_, t) => Tail(lh, t)
    case _ => {}
  }

  datatype Write = Write(op: nat, blockno: nat, data: Block)

  datatype State = State(
    disk: seq<Block>, cache: Cache,
    owner: seq<Option<nat>>,    // holder of each buffer's sleep-lock
    waiting: multiset<nat>,     // buffers some process has counted in refcnt but not locked
    leaving: multiset<nat>,     // buffers unlocked but still counted in refcnt (inside brelse)
    unlogged: set<nat>,         // buffers modified and not yet passed to log_write
    lh: seq<nat>,               // log.lh.block[0 .. log.lh.n]
    inOp: map<nat, nat>,        // processes between begin_op and end_op, with their operation
    added: map<nat, nat>,       // header entries each of those has added
    nextOp: nat, phase: Phase,
    mem: seq<Block>,            // latest contents, as file-system code has written them
    dur: seq<Block>,            // contents as of the last header write that committed
    base: seq<Block>,           // the image before any operation
    writes: seq<Write>,         // all modifications ever made, in order
    live: set<nat>,             // operations begun since the last commit or crash
    committed: set<nat>         // operations a header write has committed
  ) {
    ghost predicate Holds(p: nat, i: nat, blockno: nat) {
      i < NBUF && |owner| == |cache.bufs| == NBUF && owner[i] == Some(p)
      && cache.bufs[i].Is(ROOTDEV, blockno) && cache.bufs[i].valid
    }
  }

  // ---- steps ----

  datatype Event =
    | GetBuf(blockno: nat)                       // bget under bcache.lock
    | LockBuf(p: nat, i: nat)                    // acquiresleep
    | Fill(p: nat, i: nat)                       // bread of an invalid buffer
    | UnlockBuf(p: nat, i: nat)                  // brelse: releasesleep
    | DropBuf(i: nat)                            // brelse under bcache.lock
    | BeginOp(p: nat)
    | Modify(p: nat, i: nat, data: Block)
    | LogWrite(p: nat, i: nat)
    | EndOp(p: nat)
    | LogBlock(li: nat, fi: nat)                 // one round of write_log
    | CommitHead(hi: nat)                        // write_head of the commit
    | InstallBlock(li: nat, di: nat)             // install_trans(0): copy and bwrite
    | UnpinBlock(di: nat)                        // install_trans(0): bunpin
    | ClearHead(hi: nat)                         // lh.n = 0; write_head
    | CommitDone
    | Crash
    | ReadHead(p: nat, hi: nat)                  // recover_from_log: read_head
    | RecoverBlock(p: nat, li: nat, di: nat)     // one round of install_trans(1)
    | RecoverClear(p: nat, hi: nat)              // lh.n = 0; write_head

  ghost predicate Sized(L: Layout, s: State) {
    && L.Wf() && Bio.Wf(s.cache) && |s.owner| == NBUF
    && |s.disk| == |s.mem| == |s.dur| == |s.base| == L.size
  }

  ghost function SetBuf(s: State, i: nat, b: Buf): State
    requires i < |s.cache.bufs|
  {
    s.(cache := s.cache.(bufs := s.cache.bufs[i := b]))
  }

  /** memmove into buffer i, then bwrite it. */
  ghost function WriteThrough(L: Layout, s: State, i: nat, data: Block): State
    requires Sized(L, s) && i < NBUF && s.cache.bufs[i].blockno < L.size
  {
    var b := s.cache.bufs[i];
    SetBuf(s, i, b.(data := data)).(disk := s.disk[b.blockno := data])
  }

  // Each step has a guard CanX, which also excludes the panics, and an effect DoX.

  ghost predicate CanGet(L: Layout, s: State, b: nat)
    requires Sized(L, s)
  {
    b < L.size && Get(s.cache, ROOTDEV, b).Got?
  }

  ghost function DoGet(L: Layout, s: State, b: nat): State
    requires Sized(L, s) && CanGet(L, s, b)
  {
    var r := Get(s.cache, ROOTDEV, b);
    s.(cache := r.cache, waiting := s.waiting + multiset{r.idx})
  }

  ghost predicate CanLock(s: State, i: nat)
    requires |s.owner| == NBUF
  {
    i < NBUF && i in s.waiting && s.owner[i].None?
  }

  ghost function DoLock(s: State, p: nat, i: nat): State
    requires |s.owner| == NBUF && CanLock(s, i)
  {
    s.(waiting := s.waiting - multiset{i}, owner := s.owner[i := Some(p)])
  }

  ghost predicate CanFill(L: Layout, s: State, p: nat, i: nat)
    requires Sized(L, s)
  {
    i < NBUF && s.owner[i] == Some(p) && !s.cache.bufs[i].valid && s.cache.bufs[i].blockno < L.size
  }

  ghost function DoFill(L: Layout, s: State, p: nat, i: nat): State
    requires Sized(L, s) && CanFill(L, s, p, i)
  {
    SetBuf(s, i, s.cache.bufs[i].(valid := true, data := s.disk[s.cache.bufs[i].blockno]))
  }

  /** The protocol of the source: a modified buffer is logged before it is released. */
  ghost predicate CanUnlock(s: State, p: nat, i: nat)
    requires |s.owner| == NBUF
  {
    i < NBUF && s.owner[i] == Some(p) && i !in s.unlogged
  }

  ghost function DoUnlock(s: State, p: nat, i: nat): State
    requires |s.owner| == NBUF && CanUnlock(s, p, i)
  {
    s.(owner := s.owner[i := None], leaving := s.leaving + multiset{i})
  }

  ghost predicate CanDrop(s: State, i: nat)
    requires Bio.Wf(s.cache)
  {
    i < NBUF && i in s.leaving && s.cache.bufs[i].refcnt > 0
  }

  ghost function DoDrop(s: State, i: nat): State
    requires Bio.Wf(s.cache) && CanDrop(s, i)
  {
    s.(cache := Drop(s.cache, i), leaving := s.leaving - multiset{i})
  }

  ghost predicate CanBegin(s: State, p: nat) {
    p !in s.inOp && s.phase.Idle? && |s.lh| + (|s.inOp| + 1) * MAXOPBLOCKS <= LOGSIZE
  }

  ghost function DoBegin(s: State, p: nat): State {
    s.(inOp := s.inOp[p := s.nextOp], added := s.added[p := 0], nextOp := s.nextOp + 1, live := s.live + {s.nextOp})
  }

  ghost predicate HoldsHome(L: Layout, s: State, p: nat, i: nat)
    requires Sized(L, s)
  {
    p in s.inOp && i < NBUF && s.Holds(p, i, s.cache.bufs[i].blockno) && L.Home(s.cache.bufs[i].blockno)
  }

  ghost function DoModify(L: Layout, s: State, p: nat, i: nat, data: Block): State
    requires Sized(L, s) && HoldsHome(L, s, p, i)
  {
    var b := s.cache.bufs[i].blockno;
    SetBuf(s, i, s.cache.bufs[i].(data := data)).(
    unlogged := s.unlogged + {i}, mem := s.mem[b := data], writes := s.writes + [Write(s.inOp[p], b, data)])
  }

  ghost predicate CanLog(L: Layout, s: State, p: nat, i: nat)
    requires Sized(L, s)
  {
    HoldsHome(L, s, p, i) && |s.lh| < LOGSIZE && |s.lh| < L.nlog - 1
  }

  /** log_write: absorb the block if the header has it, else append and pin it. */
  ghost function DoLog(L: Layout, s: State, p: nat, i: nat): State
    requires Sized(L, s) && CanLog(L, s, p, i)
  {
    var b := s.cache.bufs[i].blockno;
    var s1 := s.(unlogged := s.unlogged - {i});
    if b in s.lh then s1
    else s1.(lh := s.lh + [b], cache := Pinned(s.cache, i), added := s.added[p := (if p in s.added then s.added[p]
        else 0) + 1])
  }

  ghost predicate CanEnd(s: State, p: nat)
    requires |s.owner| == NBUF
  {
    p in s.inOp && forall i | i in s.unlogged && i < NBUF :: s.owner[i] != Some(p)
  }

  /** end_op: the last operation to end starts the commit, which does nothing on an empty header. */
  ghost function DoEnd(s: State, p: nat): State {
    var left := s.inOp - {p};
    s.(inOp := left, added := s.added - {p},
    phase := if left != map[] then s.phase else if s.lh == [] then Ending(p) else Logging(p, 0))
  }

  ghost predicate CanLogBlock(L: Layout, s: State, li: nat, fi: nat)
    requires Sized(L, s)
  {
    && s.phase.Logging? && s.phase.tail < |s.lh| && L.logstart + 1 + s.phase.tail < L.size
    && s.Holds(s.phase.pid, li, L.logstart + 1 + s.phase.tail) && s.Holds(s.phase.pid, fi, s.lh[s.phase.tail])
  }

  ghost function DoLogBlock(L: Layout, s: State, li: nat, fi: nat): State
    requires Sized(L, s) && CanLogBlock(L, s, li, fi)
  {
    WriteThrough(L, s, li, s.cache.bufs[fi].data).(phase := Logging(s.phase.pid, s.phase.tail + 1))
  }

  ghost predicate CanCommit(L: Layout, s: State, hi: nat)
    requires Sized(L, s)
  {
    && s.phase.Logging? && s.phase.tail == |s.lh| && s.Holds(s.phase.pid, hi, L.logstart)
    && |s.lh| <= LOGSIZE && forall i | 0 <= i < |s.lh| :: s.lh[i] < TWO32
  }

  ghost function DoCommit(L: Layout, s: State, hi: nat): State
    requires Sized(L, s) && CanCommit(L, s, hi)
  {
    WriteThrough(L, s, hi, PutHeader(s.cache.bufs[hi].data, s.lh)).(
    phase := Installing(s.phase.pid, 0), dur := s.mem, committed := s.committed + s.live, live := {})
  }

  ghost predicate CanInstall(L: Layout, s: State, li: nat, di: nat)
    requires Sized(L, s)
  {
    && s.phase.Installing? && s.phase.tail < |s.lh| && s.lh[s.phase.tail] < L.size
    && s.Holds(s.phase.pid, li, L.logstart + 1 + s.phase.tail) && s.Holds(s.phase.pid, di, s.lh[s.phase.tail])
  }

  ghost function DoInstall(L: Layout, s: State, li: nat, di: nat): State
    requires Sized(L, s) && CanInstall(L, s, li, di)
  {
    WriteThrough(L, s, di, s.cache.bufs[li].data).(phase := Unpinning(s.phase.pid, s.phase.tail))
  }

  ghost predicate CanUnpin(L: Layout, s: State, di: nat)
    requires Sized(L, s)
  {
    s.phase.Unpinning? && s.phase.tail < |s.lh| && s.Holds(s.phase.pid, di, s.lh[s.phase.tail])
        && s.cache.bufs[di].refcnt > 0
  }

  ghost function DoUnpin(L: Layout, s: State, di: nat): State
    requires Sized(L, s) && CanUnpin(L, s, di)
  {
    s.(cache := Unpinned(s.cache, di), phase := Installing(s.phase.pid, s.phase.tail + 1))
  }

  ghost predicate CanClear(L: Layout, s: State, hi: nat)
    requires Sized(L, s)
  {
    s.phase.Installing? && s.phase.tail == |s.lh| && s.Holds(s.phase.pid, hi, L.logstart)
  }

  ghost function DoClear(L: Layout, s: State, hi: nat): State
    requires Sized(L, s) && CanClear(L, s, hi)
  {
    WriteThrough(L, s, hi, PutHeader(s.cache.bufs[hi].data, [])).(lh := [], phase := Ending(s.phase.pid))
  }

  /** Power is lost: only the disk survives, and file-system code restarts from what is durable. */
  ghost function Restart(s: State): State {
    s.(cache := InitCache, owner := seq(NBUF, _ => None), waiting := multiset{}, leaving := multiset{},
    unlogged := {}, lh := [], inOp := map[], added := map[], phase := Booting, mem := s.dur, live := {})
  }

  ghost predicate CanReadHead(L: Layout, s: State, p: nat, hi: nat)
    requires Sized(L, s)
  {
    s.phase.Booting? && s.Holds(p, hi, L.logstart) && HeaderCount(s.cache.bufs[hi].data) <= LOGSIZE
  }

  ghost function DoReadHead(L: Layout, s: State, p: nat, hi: nat): State
    requires Sized(L, s) && CanReadHead(L, s, p, hi)
  {
    s.(lh := HeaderOf(s.cache.bufs[hi].data), phase := Recovering(0))
  }

  ghost predicate CanRecover(L: Layout, s: State, p: nat, li: nat, di: nat)
    requires Sized(L, s)
  {
    && s.phase.Recovering? && s.phase.tail < |s.lh| && s.lh[s.phase.tail] < L.size
    && s.Holds(p, li, L.logstart + 1 + s.phase.tail) && s.Holds(p, di, s.lh[s.phase.tail])
  }

  ghost function DoRecover(L: Layout, s: State, p: nat, li: nat, di: nat): State
    requires Sized(L, s) && CanRecover(L, s, p, li, di)
  {
    WriteThrough(L, s, di, s.cache.bufs[li].data).(phase := Recovering(s.phase.tail + 1))
  }

  ghost predicate CanFinish(L: Layout, s: State, p: nat, hi: nat)
    requires Sized(L, s)
  {
    s.phase.Recovering? && s.phase.tail == |s.lh| && s.Holds(p, hi, L.logstart)
  }

  ghost function DoFinish(L: Layout, s: State, p: nat, hi: nat): State
    requires Sized(L, s) && CanFinish(L, s, p, hi)
  {
    WriteThrough(L, s, hi, PutHeader(s.cache.bufs[hi].data, [])).(lh := [], phase := Idle)
  }

  ghost predicate Enabled(L: Layout, s: State, e: Event)
    requires Sized(L, s)
  {
    match e
    case GetBuf(b) => CanGet(L, s, b)
    case LockBuf(p, i) => CanLock(s, i)
    case Fill(p, i) => CanFill(L, s, p, i)
    case UnlockBuf(p, i) => CanUnlock(s, p, i)
    case DropBuf(i) => CanDrop(s, i)
    case BeginOp(p) => CanBegin(s, p)
    case Modify(p, i, data) => HoldsHome(L, s, p, i)
    case LogWrite(p, i) => CanLog(L, s, p, i)
    case EndOp(p) => CanEnd(s, p)
    case LogBlock(li, fi) => CanLogBlock(L, s, li, fi)
    case CommitHead(hi) => CanCommit(L, s, hi)
    case InstallBlock(li, di) => CanInstall(L, s, li, di)
    case UnpinBlock(di) => CanUnpin(L, s, di)
    case ClearHead(hi) => CanClear(L, s, hi)
    case CommitDone => s.phase.Ending?
    case Crash => true
    case ReadHead(p, hi) => CanReadHead(L, s, p, hi)
    case RecoverBlock(p, li, di) => CanRecover(L, s, p, li, di)
    case RecoverClear(p, hi) => CanFinish(L, s, p, hi)
  }

  ghost function Next(L: Layout, s: State, e: Event): State
    requires Sized(L, s) && Enabled(L, s, e)
  {
    match e
    case GetBuf(b) => DoGet(L, s, b)
    case LockBuf(p, i) => DoLock(s, p, i)
    case Fill(p, i) => DoFill(L, s, p, i)
    case UnlockBuf(p, i) => DoUnlock(s, p, i)
    case DropBuf(i) => DoDrop(s, i)
    case BeginOp(p) => DoBegin(s, p)
    case Modify(p, i, data) => DoModify(L, s, p, i, data)
    case LogWrite(p, i) => DoLog(L, s, p, i)
    case EndOp(p) => DoEnd(s, p)
    case LogBlock(li, fi) => DoLogBlock(L, s, li, fi)
    case CommitHead(hi) => DoCommit(L, s, hi)
    case InstallBlock(li, di) => DoInstall(L, s, li, di)
    case UnpinBlock(di) => DoUnpin(L, s, di)
    case ClearHead(hi) => DoClear(L, s, hi)
    case CommitDone => s.(phase := Idle)
    case Crash => Restart(s)
    case ReadHead(p, hi) => DoReadHead(L, s, p, hi)
    case RecoverBlock(p, li, di) => DoRecover(L, s, p, li, di)
    case RecoverClear(p, hi) => DoFinish(L, s, p, hi)
  }

  /** The image mkfs leaves, before the first boot. */
  ghost predicate Init(L: Layout, s: State) {
    && Sized(L, s) && HeaderCount(s.disk[L.logstart]) == 0
    && s.mem == s.dur == s.base == s.disk && s.writes == [] && s.committed == {}
    && s == Restart(s)
  }

  ghost predicate Run(L: Layout, s: State, es: seq<Event>, t: State)
    decreases |es|
  {
    if es == [] then s == t
    else
      Sized(L, s) && Enabled(L, s, es[0]) && Run(L, Next(L, s, es[0]), es[1..], t)
  }
}
