/** What every run of fork, exit, wait, sleep, wakeup, kill and the scheduler keeps. */
module ExitWaitRuns {
  import opened ExitWait

  // ---- the invariant ----

  predicate HoldsWait(pc: Pc) {
    pc.Reparent? || pc.ReWake? || pc.ExWake? || pc.ExitLock? || pc.ExitSet? || pc.ExitRelease? || pc.Scan?
        || pc.WaitRelease? || pc.SleepLockP? || pc.SleepRelease?
  }

  predicate HoldsOwn(pc: Pc) {
    pc.ExitSet? || pc.ExitRelease? || pc.ExitSwitch? || pc.SleepRelease? || pc.SleepSet? || pc.SleepSwitch?
        || pc.SleepTidy? || pc.SleepUnlock?
  }

  /** The slot fork is filling at pc. */
  function Making(pc: Pc): Holder { if pc.ForkCopy? || pc.ForkWait? || pc.ForkStart? then By(pc.i) else Free }

  predicate Exiting(pc: Pc) {
    pc.ExitWait? || pc.Reparent? || pc.ReWake? || pc.ExWake? || pc.ExitLock? || pc.ExitSet? || pc.ExitRelease?
        || pc.ExitSwitch? || pc.Gone?
  }

  predicate Alive(st: ProcState) { st == Running || st == Runnable || st == Sleeping }

  ghost predicate LocksAt(s: State, n: nat, p: nat)
    requires Sized(s, n) && p < n
  {
    && (HoldsWait(s.procs[p].pc) <==> s.wait == By(p))
    && (HoldsOwn(s.procs[p].pc) ==> s.procs[p].lock == By(p))
    && (s.procs[p].pc.ForkCopy? ==> s.procs[p].pc.i < n && s.procs[s.procs[p].pc.i].lock == By(p))
    && (s.procs[p].lock.By? ==>
          var q := s.procs[p].lock.p;
          q < n && (s.procs[q].pc == ForkCopy(p)
              || (q == p && (HoldsOwn(s.procs[p].pc) || s.procs[p].pc == SleepAway || s.procs[p].pc == Gone))))
  }

  ghost predicate StateAt(s: State, n: nat, p: nat)
    requires Sized(s, n) && p < n
  {
    var r := s.procs[p];
    && (r.oncpu ==> r.state == (if r.pc == SleepSwitch then Sleeping
       else if r.pc == ExitRelease || r.pc == ExitSwitch then Zombie else Running))
    && (HoldsWait(r.pc) || HoldsOwn(r.pc) || r.pc.ForkCopy? ==> r.oncpu)
    && (r.pc == SleepAway || r.pc == Gone ==> !r.oncpu)
    && (r.pc == Gone ==> r.state == Zombie)
    && (r.state == Zombie ==> r.pc == ExitRelease || r.pc == ExitSwitch || r.pc == Gone)
    && (r.state == Unused || r.state == Used ==> r.pc == Run && !r.oncpu && r.chan == Null)
    && (r.chan == Self ==> r.pc == SleepSwitch || r.pc == SleepAway || r.pc == SleepTidy)
    && (r.pc == SleepSwitch || r.pc == SleepAway ==> r.chan == Self)
    && (p == 0 ==> Alive(r.state) && !Exiting(r.pc))
  }

  ghost predicate MakerAt(s: State, n: nat, p: nat)
    requires Sized(s, n) && p < n
  {
    && (Making(s.procs[p].pc).By? ==> Making(s.procs[p].pc).p < n && s.procs[Making(s.procs[p].pc).p].maker == By(p))
    && (s.procs[p].state == Used <==> s.procs[p].maker.By?) && s.procs[p].maker != By(p)
  }

  /** A parent is neither a zombie nor an unused slot. */
  ghost predicate ParentAt(s: State, n: nat, p: nat)
    requires Sized(s, n) && p < n
  {
    var r := s.procs[p];
    (r.parent.By? ==> r.parent.p < n && Alive(s.procs[r.parent.p].state)) && (r.state == Unused ==> r.parent == Free)
  }

  ghost predicate PidAt(s: State, n: nat, p: nat)
    requires Sized(s, n) && p < n
  {
    var r := s.procs[p];
    && (r.state != Unused ==> r.pid < s.nextpid)
    && (r.state == Zombie ==> r.pid in s.exited && r.pid !in s.reaped && s.exited[r.pid] == (p, r.xstate))
    && (r.state != Zombie && r.state != Unused ==> r.pid !in s.exited)
  }

  ghost predicate At(s: State, n: nat, p: nat)
    requires Sized(s, n) && p < n
  {
    LocksAt(s, n, p) && StateAt(s, n, p) && MakerAt(s, n, p) && ParentAt(s, n, p) && PidAt(s, n, p)
  }

  /** p sleeps in wait, or has let go of wait_lock in order to. */
  predicate Waiting(r: Proc) { r.pc == SleepSet || (r.state == Sleeping && r.chan == Self) }

  /** reparent has passed slot c. */
  predicate Passed(pc: Pc, c: nat) {
    match pc
    case Reparent(i) => c < i
    case ReWake(i, _) => c <= i
    case _ => pc.ExWake? || pc.ExitLock? || pc.ExitSet?
  }

  /** wakeup(p->parent) has passed slot q. */
  predicate Called(pc: Pc, q: nat) {
    match pc
    case ExWake(j) => q < j
    case _ => pc.ExitLock? || pc.ExitSet?
  }

  /** wait's scan has passed slot c. */
  predicate Scanned(pc: Pc, c: nat) {
    match pc
    case Scan(i, _) => c < i
    case _ => pc.SleepLockP? || pc.SleepRelease?
  }

  ghost predicate Pair(s: State, n: nat, p: nat, c: nat)
    requires Sized(s, n) && p < n && c < n
  {
    var r, k := s.procs[p], s.procs[c];
    && (p != c && r.state != Unused && k.state != Unused ==> r.pid != k.pid)
    && (Passed(r.pc, c) ==> k.parent != By(p))
    && (r.parent == By(c) && Called(r.pc, c) ==> !Waiting(k))
    && (Scanned(r.pc, c) ==> !(k.parent == By(p) && k.state == Zombie))
    && (r.pc.Scan? && !r.pc.kids && c < r.pc.i ==> k.parent != By(p))
  }

  /** A process that waits has no zombie child, but while wait_lock is held by an exit that is about to wake it. */
  ghost predicate Heard(s: State, n: nat, p: nat, c: nat)
    requires Sized(s, n) && p < n && c < n
  {
    Waiting(s.procs[p]) && s.procs[c].parent == By(p) && s.procs[c].state == Zombie ==>
      s.wait.By? && s.wait.p < n && p == 0 && s.procs[s.wait.p].pc.ReWake? && s.procs[s.wait.p].pc.j == 0
  }

  /** Every process that has exited and has not been reaped is still there. */
  ghost predicate Kept(s: State, n: nat, k: nat)
    requires Sized(s, n) && k in s.exited
  {
    k < s.nextpid && (k !in s.reaped ==>
        s.exited[k].0 < n && s.procs[s.exited[k].0].state == Zombie && s.procs[s.exited[k].0].pid == k)
  }

  ghost predicate Shared(s: State, n: nat) {
    && Sized(s, n) && 0 < n && (s.wait.By? ==> s.wait.p < n) && (forall k | k in s.reaped :: k in s.exited)
  }

  ghost predicate Inv(s: State, n: nat) {
    && Shared(s, n) && (forall p: nat | p < n :: At(s, n, p))
    && (forall p: nat, c: nat | p < n && c < n :: Pair(s, n, p, c) && Heard(s, n, p, c))
    && (forall k: nat | k in s.exited :: Kept(s, n, k))
  }

  /** What the invariant says of the process that takes a step, another slot it touches, and processes x and y. */
  ghost predicate Near(s: State, n: nat, p: nat, i: nat, x: nat) {
    && Shared(s, n) && p < n && i < n && x < n && s.nextpid !in s.exited
    && At(s, n, p) && At(s, n, i) && At(s, n, x) && Pair(s, n, p, x) && Pair(s, n, x, i)
  }

  ghost predicate Facts(s: State, n: nat, p: nat, i: nat, x: nat, y: nat) {
    && Near(s, n, p, i, x)
    && y < n && At(s, n, y) && Pair(s, n, x, y) && Pair(s, n, y, x) && Heard(s, n, x, y)
  }

  ghost predicate Keeps(s: State, t: State, n: nat, x: nat, y: nat) {
    && Shared(t, n) && Sized(s, n) && x < n && y < n && At(t, n, x) && Pair(t, n, x, y) && Heard(t, n, x, y)
    && (s.procs[x].state == Zombie && s.procs[x].pid !in t.reaped ==>
       t.procs[x].state == Zombie && t.procs[x].pid == s.procs[x].pid)
  }

  // A step of p, seen from processes x and y.

  lemma AllocAt(s: State, n: nat, p: nat, i: nat, x: nat)
    requires CanAlloc(s, n, p) && Near(s, n, p, i, x) && i == s.procs[p].pc.i
    ensures Shared(Alloc(s, n, p), n) && At(Alloc(s, n, p), n, x)
  {
    var t := Alloc(s, n, p);
    assert x != p && x != i ==> t.procs[x] == s.procs[x];
  }

  lemma AllocKeeps(s: State, n: nat, p: nat, i: nat, x: nat, y: nat)
    requires CanAlloc(s, n, p) && Facts(s, n, p, i, x, y) && i == s.procs[p].pc.i
    ensures Keeps(s, Alloc(s, n, p), n, x, y)
  {
    AllocAt(s, n, p, i, x);
    var t := Alloc(s, n, p);
    assert x != p && x != i ==> t.procs[x] == s.procs[x];
    assert y != p && y != i ==> t.procs[y] == s.procs[y];
  }

  lemma MoveForkAt(s: State, n: nat, p: nat, i: nat, x: nat)
    requires CanMoveFork(s, n, p) && Near(s, n, p, i, x) && i == p
    ensures Shared(MoveFork(s, n, p), n) && At(MoveFork(s, n, p), n, x)
  {
    var t := MoveFork(s, n, p);
    assert x != p ==> t.procs[x] == s.procs[x];
  }

  lemma MoveForkKeeps(s: State, n: nat, p: nat, i: nat, x: nat, y: nat)
    requires CanMoveFork(s, n, p) && Facts(s, n, p, i, x, y) && i == p
    ensures Keeps(s, MoveFork(s, n, p), n, x, y)
  {
    MoveForkAt(s, n, p, i, x);
    var t := MoveFork(s, n, p);
    assert x != p ==> t.procs[x] == s.procs[x];
    assert y != p ==> t.procs[y] == s.procs[y];
  }

  lemma CopyAt(s: State, n: nat, p: nat, i: nat, x: nat)
    requires CanCopy(s, n, p) && Near(s, n, p, i, x) && i == s.procs[p].pc.i
    ensures Shared(Copy(s, n, p), n) && At(Copy(s, n, p), n, x)
  {
    var t := Copy(s, n, p);
    assert x != p && x != i ==> t.procs[x] == s.procs[x];
  }

  lemma CopyKeeps(s: State, n: nat, p: nat, i: nat, x: nat, y: nat)
    requires CanCopy(s, n, p) && Facts(s, n, p, i, x, y) && i == s.procs[p].pc.i
    ensures Keeps(s, Copy(s, n, p), n, x, y)
  {
    CopyAt(s, n, p, i, x);
    var t := Copy(s, n, p);
    assert x != p && x != i ==> t.procs[x] == s.procs[x];
    assert y != p && y != i ==> t.procs[y] == s.procs[y];
  }

  lemma DiscardAt(s: State, n: nat, p: nat, i: nat, x: nat)
    requires CanCopy(s, n, p) && Near(s, n, p, i, x) && i == s.procs[p].pc.i
    ensures Shared(Discard(s, n, p), n) && At(Discard(s, n, p), n, x)
  {
    var t := Discard(s, n, p);
    assert x != p && x != i ==> t.procs[x] == s.procs[x];
  }

  lemma DiscardKeeps(s: State, n: nat, p: nat, i: nat, x: nat, y: nat)
    requires CanCopy(s, n, p) && Facts(s, n, p, i, x, y) && i == s.procs[p].pc.i
    ensures Keeps(s, Discard(s, n, p), n, x, y)
  {
    DiscardAt(s, n, p, i, x);
    var t := Discard(s, n, p);
    assert x != p && x != i ==> t.procs[x] == s.procs[x];
    assert y != p && y != i ==> t.procs[y] == s.procs[y];
  }

  lemma AdoptAt(s: State, n: nat, p: nat, i: nat, x: nat)
    requires CanAdopt(s, n, p) && Near(s, n, p, i, x) && i == s.procs[p].pc.i
    ensures Shared(Adopt(s, n, p), n) && At(Adopt(s, n, p), n, x)
  {
    var t := Adopt(s, n, p);
    assert x != p && x != i ==> t.procs[x] == s.procs[x];
  }

  lemma AdoptKeeps(s: State, n: nat, p: nat, i: nat, x: nat, y: nat)
    requires CanAdopt(s, n, p) && Facts(s, n, p, i, x, y) && i == s.procs[p].pc.i
    ensures Keeps(s, Adopt(s, n, p), n, x, y)
  {
    AdoptAt(s, n, p, i, x);
    var t := Adopt(s, n, p);
    assert x != p && x != i ==> t.procs[x] == s.procs[x];
    assert y != p && y != i ==> t.procs[y] == s.procs[y];
  }

  lemma StartAt(s: State, n: nat, p: nat, i: nat, x: nat)
    requires CanStart(s, n, p) && Near(s, n, p, i, x) && i == s.procs[p].pc.i
    ensures Shared(Start(s, n, p), n) && At(Start(s, n, p), n, x)
  {
    var t := Start(s, n, p);
    assert x != p && x != i ==> t.procs[x] == s.procs[x];
  }

  lemma StartKeeps(s: State, n: nat, p: nat, i: nat, x: nat, y: nat)
    requires CanStart(s, n, p) && Facts(s, n, p, i, x, y) && i == s.procs[p].pc.i
    ensures Keeps(s, Start(s, n, p), n, x, y)
  {
    StartAt(s, n, p, i, x);
    var t := Start(s, n, p);
    assert x != p && x != i ==> t.procs[x] == s.procs[x];
    assert y != p && y != i ==> t.procs[y] == s.procs[y];
  }

  lemma LockWaitAt(s: State, n: nat, p: nat, i: nat, x: nat)
    requires CanLockWait(s, n, p) && Near(s, n, p, i, x) && i == p
    ensures Shared(LockWait(s, n, p), n) && At(LockWait(s, n, p), n, x)
  {
    var t := LockWait(s, n, p);
    assert x != p ==> t.procs[x] == s.procs[x];
  }

  lemma LockWaitKeeps(s: State, n: nat, p: nat, i: nat, x: nat, y: nat)
    requires CanLockWait(s, n, p) && Facts(s, n, p, i, x, y) && i == p
    ensures Keeps(s, LockWait(s, n, p), n, x, y)
  {
    LockWaitAt(s, n, p, i, x);
    var t := LockWait(s, n, p);
    assert x != p ==> t.procs[x] == s.procs[x];
    assert y != p ==> t.procs[y] == s.procs[y];
  }

  lemma MoveExitAt(s: State, n: nat, p: nat, i: nat, x: nat)
    requires CanMoveExit(s, n, p) && Near(s, n, p, i, x) && i == p
    ensures Shared(MoveExit(s, n, p), n) && At(MoveExit(s, n, p), n, x)
  {
    var t := MoveExit(s, n, p);
    assert x != p ==> t.procs[x] == s.procs[x];
  }

  lemma MoveExitKeeps(s: State, n: nat, p: nat, i: nat, x: nat, y: nat)
    requires CanMoveExit(s, n, p) && Facts(s, n, p, i, x, y) && i == p
    ensures Keeps(s, MoveExit(s, n, p), n, x, y)
  {
    MoveExitAt(s, n, p, i, x);
    var t := MoveExit(s, n, p);
    assert x != p ==> t.procs[x] == s.procs[x];
    assert y != p ==> t.procs[y] == s.procs[y];
  }

  lemma PassOnLocks(s: State, n: nat, p: nat, i: nat, x: nat)
    requires CanPassOn(s, n, p) && Near(s, n, p, i, x) && i == 0
    ensures Shared(PassOn(s, n, p), n) && LocksAt(PassOn(s, n, p), n, x) && StateAt(PassOn(s, n, p), n, x)
  {
    var t := PassOn(s, n, p);
    assert x != p ==> t.procs[x].pc == s.procs[x].pc;
  }

  lemma PassOnAt(s: State, n: nat, p: nat, i: nat, x: nat)
    requires CanPassOn(s, n, p) && Near(s, n, p, i, x) && i == 0
    ensures Shared(PassOn(s, n, p), n) && At(PassOn(s, n, p), n, x)
  {
    PassOnLocks(s, n, p, i, x);
    var t := PassOn(s, n, p);
    assert x != p ==> t.procs[x].pc == s.procs[x].pc;
  }

  lemma PassOnPair(s: State, n: nat, p: nat, i: nat, x: nat, y: nat)
    requires CanPassOn(s, n, p) && Facts(s, n, p, i, x, y) && i == 0
    ensures Sized(PassOn(s, n, p), n) && Pair(PassOn(s, n, p), n, x, y)
  {
    var t := PassOn(s, n, p);
    assert x != p ==> t.procs[x].pc == s.procs[x].pc;
    assert y != p ==> t.procs[y].pc == s.procs[y].pc;
  }

  lemma PassOnKeeps(s: State, n: nat, p: nat, i: nat, x: nat, y: nat)
    requires CanPassOn(s, n, p) && Facts(s, n, p, i, x, y) && i == 0
    ensures Keeps(s, PassOn(s, n, p), n, x, y)
  {
    PassOnAt(s, n, p, i, x);
    PassOnPair(s, n, p, i, x, y);
    var t := PassOn(s, n, p);
    assert x != p ==> t.procs[x].pc == s.procs[x].pc;
    assert y != p ==> t.procs[y].pc == s.procs[y].pc;
  }

  lemma WakeInitLocks(s: State, n: nat, p: nat, i: nat, x: nat)
    requires CanWakeInit(s, n, p) && Near(s, n, p, i, x) && i == 0
    ensures Shared(WakeInit(s, n, p), n) && LocksAt(WakeInit(s, n, p), n, x) && StateAt(WakeInit(s, n, p), n, x)
  {
    var t := WakeInit(s, n, p);
    assert x != p && x != i ==> t.procs[x] == s.procs[x];
  }

  lemma WakeInitAt(s: State, n: nat, p: nat, i: nat, x: nat)
    requires CanWakeInit(s, n, p) && Near(s, n, p, i, x) && i == 0
    ensures Shared(WakeInit(s, n, p), n) && At(WakeInit(s, n, p), n, x)
  {
    WakeInitLocks(s, n, p, i, x);
    var t := WakeInit(s, n, p);
    assert x != p && x != i ==> t.procs[x] == s.procs[x];
  }

  lemma WakeInitKeeps(s: State, n: nat, p: nat, i: nat, x: nat, y: nat)
    requires CanWakeInit(s, n, p) && Facts(s, n, p, i, x, y) && i == 0
    ensures Keeps(s, WakeInit(s, n, p), n, x, y)
  {
    WakeInitAt(s, n, p, i, x);
    var t := WakeInit(s, n, p);
    assert x != p && x != i ==> t.procs[x] == s.procs[x];
    assert y != p && y != i ==> t.procs[y] == s.procs[y];
  }

  lemma WakeParentLocks(s: State, n: nat, p: nat, i: nat, x: nat)
    requires CanWakeParent(s, n, p) && Near(s, n, p, i, x) && i == s.procs[p].pc.j
    ensures Shared(WakeParent(s, n, p), n) && LocksAt(WakeParent(s, n, p), n, x) && StateAt(WakeParent(s, n, p), n, x)
  {
    var t := WakeParent(s, n, p);
    assert x != p && x != i ==> t.procs[x] == s.procs[x];
  }

  lemma WakeParentAt(s: State, n: nat, p: nat, i: nat, x: nat)
    requires CanWakeParent(s, n, p) && Near(s, n, p, i, x) && i == s.procs[p].pc.j
    ensures Shared(WakeParent(s, n, p), n) && At(WakeParent(s, n, p), n, x)
  {
    WakeParentLocks(s, n, p, i, x);
    var t := WakeParent(s, n, p);
    assert x != p && x != i ==> t.procs[x] == s.procs[x];
  }

  lemma WakeParentKeeps(s: State, n: nat, p: nat, i: nat, x: nat, y: nat)
    requires CanWakeParent(s, n, p) && Facts(s, n, p, i, x, y) && i == s.procs[p].pc.j
    ensures Keeps(s, WakeParent(s, n, p), n, x, y)
  {
    WakeParentAt(s, n, p, i, x);
    var t := WakeParent(s, n, p);
    assert x != p && x != i ==> t.procs[x] == s.procs[x];
    assert y != p && y != i ==> t.procs[y] == s.procs[y];
  }

  lemma LockOwnAt(s: State, n: nat, p: nat, i: nat, x: nat)
    requires CanLockOwn(s, n, p) && Near(s, n, p, i, x) && i == p
    ensures Shared(LockOwn(s, n, p), n) && At(LockOwn(s, n, p), n, x)
  {
    var t := LockOwn(s, n, p);
    assert x != p ==> t.procs[x] == s.procs[x];
  }

  lemma LockOwnKeeps(s: State, n: nat, p: nat, i: nat, x: nat, y: nat)
    requires CanLockOwn(s, n, p) && Facts(s, n, p, i, x, y) && i == p
    ensures Keeps(s, LockOwn(s, n, p), n, x, y)
  {
    LockOwnAt(s, n, p, i, x);
    var t := LockOwn(s, n, p);
    assert x != p ==> t.procs[x] == s.procs[x];
    assert y != p ==> t.procs[y] == s.procs[y];
  }

  lemma DieAt(s: State, n: nat, p: nat, i: nat, x: nat)
    requires CanDie(s, n, p) && Near(s, n, p, i, x) && i == p
    ensures Shared(Die(s, n, p), n) && At(Die(s, n, p), n, x)
  {
    var t := Die(s, n, p);
    assert x != p ==> t.procs[x] == s.procs[x];
  }

  lemma DieKeeps(s: State, n: nat, p: nat, i: nat, x: nat, y: nat)
    requires CanDie(s, n, p) && Facts(s, n, p, i, x, y) && i == p
    ensures Keeps(s, Die(s, n, p), n, x, y)
  {
    DieAt(s, n, p, i, x);
    var t := Die(s, n, p);
    assert x != p ==> t.procs[x] == s.procs[x];
    assert y != p ==> t.procs[y] == s.procs[y];
  }

  lemma UnlockWaitAt(s: State, n: nat, p: nat, i: nat, x: nat)
    requires CanUnlockWait(s, n, p) && Near(s, n, p, i, x) && i == p
    ensures Shared(UnlockWait(s, n, p), n) && At(UnlockWait(s, n, p), n, x)
  {
    var t := UnlockWait(s, n, p);
    assert x != p ==> t.procs[x] == s.procs[x];
  }

  lemma UnlockWaitKeeps(s: State, n: nat, p: nat, i: nat, x: nat, y: nat)
    requires CanUnlockWait(s, n, p) && Facts(s, n, p, i, x, y) && i == p
    ensures Keeps(s, UnlockWait(s, n, p), n, x, y)
  {
    UnlockWaitAt(s, n, p, i, x);
    var t := UnlockWait(s, n, p);
    assert x != p ==> t.procs[x] == s.procs[x];
    assert y != p ==> t.procs[y] == s.procs[y];
  }

  lemma MoveWaitAt(s: State, n: nat, p: nat, i: nat, x: nat, killed: bool)
    requires CanMoveWait(s, n, p) && Near(s, n, p, i, x) && i == p
    ensures Shared(MoveWait(s, n, p, killed), n) && At(MoveWait(s, n, p, killed), n, x)
  {
    var t := MoveWait(s, n, p, killed);
    assert x != p ==> t.procs[x] == s.procs[x];
  }

  lemma MoveWaitKeeps(s: State, n: nat, p: nat, i: nat, x: nat, y: nat, killed: bool)
    requires CanMoveWait(s, n, p) && Facts(s, n, p, i, x, y) && i == p
    ensures Keeps(s, MoveWait(s, n, p, killed), n, x, y)
  {
    MoveWaitAt(s, n, p, i, x, killed);
    var t := MoveWait(s, n, p, killed);
    assert x != p ==> t.procs[x] == s.procs[x];
    assert y != p ==> t.procs[y] == s.procs[y];
  }

  lemma ReapLocks(s: State, n: nat, p: nat, i: nat, x: nat)
    requires CanReap(s, n, p) && Near(s, n, p, i, x) && i == s.procs[p].pc.i
    ensures Shared(Reap(s, n, p), n) && LocksAt(Reap(s, n, p), n, x) && StateAt(Reap(s, n, p), n, x)
  {
    var t := Reap(s, n, p);
    if x == i {
      assert t.procs[x] == Cleared(s.procs[x]);
    } else {
      assert x != p ==> t.procs[x] == s.procs[x];
    }
  }

  lemma ReapAt(s: State, n: nat, p: nat, i: nat, x: nat)
    requires CanReap(s, n, p) && Near(s, n, p, i, x) && i == s.procs[p].pc.i
    ensures Shared(Reap(s, n, p), n) && At(Reap(s, n, p), n, x)
  {
    ReapLocks(s, n, p, i, x);
    var t := Reap(s, n, p);
    if x == i {
      assert t.procs[x] == Cleared(s.procs[x]);
    } else {
      assert x != p ==> t.procs[x] == s.procs[x];
    }
  }

  lemma ReapKeeps(s: State, n: nat, p: nat, i: nat, x: nat, y: nat)
    requires CanReap(s, n, p) && Facts(s, n, p, i, x, y) && i == s.procs[p].pc.i
    ensures Keeps(s, Reap(s, n, p), n, x, y)
  {
    ReapAt(s, n, p, i, x);
    var t := Reap(s, n, p);
    assert x != p && x != i ==> t.procs[x] == s.procs[x];
    assert y != p && y != i ==> t.procs[y] == s.procs[y];
  }

  lemma GiveUpAt(s: State, n: nat, p: nat, i: nat, x: nat)
    requires CanReap(s, n, p) && Near(s, n, p, i, x) && i == p
    ensures Shared(GiveUp(s, n, p), n) && At(GiveUp(s, n, p), n, x)
  {
    var t := GiveUp(s, n, p);
    assert x != p ==> t.procs[x] == s.procs[x];
  }

  lemma GiveUpKeeps(s: State, n: nat, p: nat, i: nat, x: nat, y: nat)
    requires CanReap(s, n, p) && Facts(s, n, p, i, x, y) && i == p
    ensures Keeps(s, GiveUp(s, n, p), n, x, y)
  {
    GiveUpAt(s, n, p, i, x);
    var t := GiveUp(s, n, p);
    assert x != p ==> t.procs[x] == s.procs[x];
    assert y != p ==> t.procs[y] == s.procs[y];
  }

  lemma SleepAt(s: State, n: nat, p: nat, i: nat, x: nat)
    requires CanSleep(s, n, p) && Near(s, n, p, i, x) && i == p
    ensures Shared(Sleep(s, n, p), n) && At(Sleep(s, n, p), n, x)
  {
    var t := Sleep(s, n, p);
    assert x != p ==> t.procs[x] == s.procs[x];
  }

  lemma SleepKeeps(s: State, n: nat, p: nat, i: nat, x: nat, y: nat)
    requires CanSleep(s, n, p) && Facts(s, n, p, i, x, y) && i == p
    ensures Keeps(s, Sleep(s, n, p), n, x, y)
  {
    SleepAt(s, n, p, i, x);
    var t := Sleep(s, n, p);
    assert x != p ==> t.procs[x] == s.procs[x];
    assert y != p ==> t.procs[y] == s.procs[y];
  }

  lemma TidyAt(s: State, n: nat, p: nat, i: nat, x: nat)
    requires CanTidy(s, n, p) && Near(s, n, p, i, x) && i == p
    ensures Shared(Tidy(s, n, p), n) && At(Tidy(s, n, p), n, x)
  {
    var t := Tidy(s, n, p);
    assert x != p ==> t.procs[x] == s.procs[x];
  }

  lemma TidyKeeps(s: State, n: nat, p: nat, i: nat, x: nat, y: nat)
    requires CanTidy(s, n, p) && Facts(s, n, p, i, x, y) && i == p
    ensures Keeps(s, Tidy(s, n, p), n, x, y)
  {
    TidyAt(s, n, p, i, x);
    var t := Tidy(s, n, p);
    assert x != p ==> t.procs[x] == s.procs[x];
    assert y != p ==> t.procs[y] == s.procs[y];
  }

  lemma UnlockOwnLocks(s: State, n: nat, p: nat, i: nat, x: nat)
    requires CanUnlockOwn(s, n, p) && Near(s, n, p, i, x) && i == p
    ensures Shared(UnlockOwn(s, n, p), n) && LocksAt(UnlockOwn(s, n, p), n, x) && StateAt(UnlockOwn(s, n, p), n, x)
  {
    var t := UnlockOwn(s, n, p);
    assert x != p ==> t.procs[x] == s.procs[x];
  }

  lemma UnlockOwnAt(s: State, n: nat, p: nat, i: nat, x: nat)
    requires CanUnlockOwn(s, n, p) && Near(s, n, p, i, x) && i == p
    ensures Shared(UnlockOwn(s, n, p), n) && At(UnlockOwn(s, n, p), n, x)
  {
    UnlockOwnLocks(s, n, p, i, x);
    var t := UnlockOwn(s, n, p);
    assert x != p ==> t.procs[x] == s.procs[x];
  }

  lemma UnlockOwnKeeps(s: State, n: nat, p: nat, i: nat, x: nat, y: nat)
    requires CanUnlockOwn(s, n, p) && Facts(s, n, p, i, x, y) && i == p
    ensures Keeps(s, UnlockOwn(s, n, p), n, x, y)
  {
    UnlockOwnAt(s, n, p, i, x);
    var t := UnlockOwn(s, n, p);
    assert x != p ==> t.procs[x] == s.procs[x];
    assert y != p ==> t.procs[y] == s.procs[y];
  }

  lemma SwitchAt(s: State, n: nat, p: nat, i: nat, x: nat)
    requires CanSwitch(s, n, p) && Near(s, n, p, i, x) && i == p
    ensures Shared(Switch(s, n, p), n) && At(Switch(s, n, p), n, x)
  {
    var t := Switch(s, n, p);
    assert x != p ==> t.procs[x] == s.procs[x];
  }

  lemma SwitchKeeps(s: State, n: nat, p: nat, i: nat, x: nat, y: nat)
    requires CanSwitch(s, n, p) && Facts(s, n, p, i, x, y) && i == p
    ensures Keeps(s, Switch(s, n, p), n, x, y)
  {
    SwitchAt(s, n, p, i, x);
    var t := Switch(s, n, p);
    assert x != p ==> t.procs[x] == s.procs[x];
    assert y != p ==> t.procs[y] == s.procs[y];
  }

  lemma SchedReleaseAt(s: State, n: nat, p: nat, i: nat, x: nat)
    requires CanSchedRelease(s, n, p) && Near(s, n, p, i, x) && i == p
    ensures Shared(SchedRelease(s, n, p), n) && At(SchedRelease(s, n, p), n, x)
  {
    var t := SchedRelease(s, n, p);
    assert x != p ==> t.procs[x] == s.procs[x];
  }

  lemma SchedReleaseKeeps(s: State, n: nat, p: nat, i: nat, x: nat, y: nat)
    requires CanSchedRelease(s, n, p) && Facts(s, n, p, i, x, y) && i == p
    ensures Keeps(s, SchedRelease(s, n, p), n, x, y)
  {
    SchedReleaseAt(s, n, p, i, x);
    var t := SchedRelease(s, n, p);
    assert x != p ==> t.procs[x] == s.procs[x];
    assert y != p ==> t.procs[y] == s.procs[y];
  }

  lemma DispatchAt(s: State, n: nat, p: nat, i: nat, x: nat)
    requires CanDispatch(s, n, p) && Near(s, n, p, i, x) && i == p
    ensures Shared(Dispatch(s, n, p), n) && At(Dispatch(s, n, p), n, x)
  {
    var t := Dispatch(s, n, p);
    assert x != p ==> t.procs[x] == s.procs[x];
  }

  lemma DispatchKeeps(s: State, n: nat, p: nat, i: nat, x: nat, y: nat)
    requires CanDispatch(s, n, p) && Facts(s, n, p, i, x, y) && i == p
    ensures Keeps(s, Dispatch(s, n, p), n, x, y)
  {
    DispatchAt(s, n, p, i, x);
    var t := Dispatch(s, n, p);
    assert x != p ==> t.procs[x] == s.procs[x];
    assert y != p ==> t.procs[y] == s.procs[y];
  }

  lemma PauseAt(s: State, n: nat, p: nat, i: nat, x: nat, asleep: bool)
    requires CanPause(s, n, p, asleep) && Near(s, n, p, i, x) && i == p
    ensures Shared(Pause(s, n, p, asleep), n) && At(Pause(s, n, p, asleep), n, x)
  {
    var t := Pause(s, n, p, asleep);
    assert x != p ==> t.procs[x] == s.procs[x];
  }

  lemma PauseKeeps(s: State, n: nat, p: nat, i: nat, x: nat, y: nat, asleep: bool)
    requires CanPause(s, n, p, asleep) && Facts(s, n, p, i, x, y) && i == p
    ensures Keeps(s, Pause(s, n, p, asleep), n, x, y)
  {
    PauseAt(s, n, p, i, x, asleep);
    var t := Pause(s, n, p, asleep);
    assert x != p ==> t.procs[x] == s.procs[x];
    assert y != p ==> t.procs[y] == s.procs[y];
  }

  lemma RouseAt(s: State, n: nat, p: nat, i: nat, x: nat)
    requires CanRouse(s, n, p) && Near(s, n, p, i, x) && i == p
    ensures Shared(Rouse(s, n, p), n) && At(Rouse(s, n, p), n, x)
  {
    var t := Rouse(s, n, p);
    assert x != p ==> t.procs[x] == s.procs[x];
  }

  lemma RouseKeeps(s: State, n: nat, p: nat, i: nat, x: nat, y: nat)
    requires CanRouse(s, n, p) && Facts(s, n, p, i, x, y) && i == p
    ensures Keeps(s, Rouse(s, n, p), n, x, y)
  {
    RouseAt(s, n, p, i, x);
    var t := Rouse(s, n, p);
    assert x != p ==> t.procs[x] == s.procs[x];
    assert y != p ==> t.procs[y] == s.procs[y];
  }

  lemma CallAt(s: State, n: nat, p: nat, i: nat, x: nat, pc: Pc, arg: int)
    requires CanCall(s, n, p, pc) && Near(s, n, p, i, x) && i == p
    ensures Shared(Call(s, n, p, pc, arg), n) && At(Call(s, n, p, pc, arg), n, x)
  {
    var t := Call(s, n, p, pc, arg);
    assert x != p ==> t.procs[x] == s.procs[x];
  }

  lemma CallKeeps(s: State, n: nat, p: nat, i: nat, x: nat, y: nat, pc: Pc, arg: int)
    requires CanCall(s, n, p, pc) && Facts(s, n, p, i, x, y) && i == p
    ensures Keeps(s, Call(s, n, p, pc, arg), n, x, y)
  {
    CallAt(s, n, p, i, x, pc, arg);
    var t := Call(s, n, p, pc, arg);
    assert x != p ==> t.procs[x] == s.procs[x];
    assert y != p ==> t.procs[y] == s.procs[y];
  }

  // ---- every run ----

  datatype ForkStep = AllocStep | MoveForkStep | CopyStep | DiscardStep | AdoptStep | StartStep
  datatype ExitStep = LockWaitStep | MoveExitStep | PassOnStep | WakeInitStep | WakeParentStep | LockOwnStep | DieStep
      | UnlockWaitStep
  datatype WaitStep = MoveWaitStep(killed: bool) | ReapStep | GiveUpStep | SleepStep | TidyStep | UnlockOwnStep
  datatype SchedStep = SwitchStep | SchedReleaseStep | DispatchStep | PauseStep(asleep: bool) | RouseStep
      | CallStep(pc: Pc, arg: int)

  /** A step of process p, or of the scheduler on its behalf. */
  datatype Event = ForkEvent(p: nat, fork: ForkStep) | ExitEvent(p: nat, exit: ExitStep)
      | WaitEvent(p: nat, wait: WaitStep) | SchedEvent(p: nat, sched: SchedStep)

  ghost predicate CanForkStep(s: State, n: nat, p: nat, e: ForkStep) {
    match e
    case AllocStep => CanAlloc(s, n, p)
    case MoveForkStep => CanMoveFork(s, n, p)
    case CopyStep => CanCopy(s, n, p)
    case DiscardStep => CanCopy(s, n, p)
    case AdoptStep => CanAdopt(s, n, p)
    case StartStep => CanStart(s, n, p)
  }

  ghost function DoForkStep(s: State, n: nat, p: nat, e: ForkStep): State
    requires CanForkStep(s, n, p, e)
  {
    match e
    case AllocStep => Alloc(s, n, p)
    case MoveForkStep => MoveFork(s, n, p)
    case CopyStep => Copy(s, n, p)
    case DiscardStep => Discard(s, n, p)
    case AdoptStep => Adopt(s, n, p)
    case StartStep => Start(s, n, p)
  }

  /** The other slot the step touches. */
  ghost function TouchedFork(s: State, n: nat, p: nat, e: ForkStep): nat
    requires CanForkStep(s, n, p, e)
  {
    match e
    case AllocStep => s.procs[p].pc.i
    case CopyStep => s.procs[p].pc.i
    case DiscardStep => s.procs[p].pc.i
    case AdoptStep => s.procs[p].pc.i
    case StartStep => s.procs[p].pc.i
    case _ => p
  }

  lemma ForkStepKeeps(s: State, n: nat, p: nat, e: ForkStep, x: nat, y: nat)
    requires CanForkStep(s, n, p, e) && Facts(s, n, p, TouchedFork(s, n, p, e), x, y)
    ensures Keeps(s, DoForkStep(s, n, p, e), n, x, y)
  {
    match e
    case AllocStep => AllocKeeps(s, n, p, TouchedFork(s, n, p, e), x, y);
    case MoveForkStep => MoveForkKeeps(s, n, p, TouchedFork(s, n, p, e), x, y);
    case CopyStep => CopyKeeps(s, n, p, TouchedFork(s, n, p, e), x, y);
    case DiscardStep => DiscardKeeps(s, n, p, TouchedFork(s, n, p, e), x, y);
    case AdoptStep => AdoptKeeps(s, n, p, TouchedFork(s, n, p, e), x, y);
    case StartStep => StartKeeps(s, n, p, TouchedFork(s, n, p, e), x, y);
  }

  ghost predicate CanExitStep(s: State, n: nat, p: nat, e: ExitStep) {
    match e
    case LockWaitStep => CanLockWait(s, n, p)
    case MoveExitStep => CanMoveExit(s, n, p)
    case PassOnStep => CanPassOn(s, n, p)
    case WakeInitStep => CanWakeInit(s, n, p)
    case WakeParentStep => CanWakeParent(s, n, p)
    case LockOwnStep => CanLockOwn(s, n, p)
    case DieStep => CanDie(s, n, p)
    case UnlockWaitStep => CanUnlockWait(s, n, p)
  }

  ghost function DoExitStep(s: State, n: nat, p: nat, e: ExitStep): State
    requires CanExitStep(s, n, p, e)
  {
    match e
    case LockWaitStep => LockWait(s, n, p)
    case MoveExitStep => MoveExit(s, n, p)
    case PassOnStep => PassOn(s, n, p)
    case WakeInitStep => WakeInit(s, n, p)
    case WakeParentStep => WakeParent(s, n, p)
    case LockOwnStep => LockOwn(s, n, p)
    case DieStep => Die(s, n, p)
    case UnlockWaitStep => UnlockWait(s, n, p)
  }

  /** The other slot the step touches. */
  ghost function TouchedExit(s: State, n: nat, p: nat, e: ExitStep): nat
    requires CanExitStep(s, n, p, e)
  {
    match e
    case PassOnStep => 0
    case WakeInitStep => 0
    case WakeParentStep => s.procs[p].pc.j
    case _ => p
  }

  lemma ExitStepKeeps(s: State, n: nat, p: nat, e: ExitStep, x: nat, y: nat)
    requires CanExitStep(s, n, p, e) && Facts(s, n, p, TouchedExit(s, n, p, e), x, y)
    ensures Keeps(s, DoExitStep(s, n, p, e), n, x, y)
  {
    match e
    case LockWaitStep => LockWaitKeeps(s, n, p, TouchedExit(s, n, p, e), x, y);
    case MoveExitStep => MoveExitKeeps(s, n, p, TouchedExit(s, n, p, e), x, y);
    case PassOnStep => PassOnKeeps(s, n, p, TouchedExit(s, n, p, e), x, y);
    case WakeInitStep => WakeInitKeeps(s, n, p, TouchedExit(s, n, p, e), x, y);
    case WakeParentStep => WakeParentKeeps(s, n, p, TouchedExit(s, n, p, e), x, y);
    case LockOwnStep => LockOwnKeeps(s, n, p, TouchedExit(s, n, p, e), x, y);
    case DieStep => DieKeeps(s, n, p, TouchedExit(s, n, p, e), x, y);
    case UnlockWaitStep => UnlockWaitKeeps(s, n, p, TouchedExit(s, n, p, e), x, y);
  }

  ghost predicate CanWaitStep(s: State, n: nat, p: nat, e: WaitStep) {
    match e
    case MoveWaitStep(_) => CanMoveWait(s, n, p)
    case ReapStep => CanReap(s, n, p)
    case GiveUpStep => CanReap(s, n, p)
    case SleepStep => CanSleep(s, n, p)
    case TidyStep => CanTidy(s, n, p)
    case UnlockOwnStep => CanUnlockOwn(s, n, p)
  }

  ghost function DoWaitStep(s: State, n: nat, p: nat, e: WaitStep): State
    requires CanWaitStep(s, n, p, e)
  {
    match e
    case MoveWaitStep(killed) => MoveWait(s, n, p, killed)
    case ReapStep => Reap(s, n, p)
    case GiveUpStep => GiveUp(s, n, p)
    case SleepStep => Sleep(s, n, p)
    case TidyStep => Tidy(s, n, p)
    case UnlockOwnStep => UnlockOwn(s, n, p)
  }

  /** The other slot the step touches. */
  ghost function TouchedWait(s: State, n: nat, p: nat, e: WaitStep): nat
    requires CanWaitStep(s, n, p, e)
  {
    match e
    case ReapStep => s.procs[p].pc.i
    case _ => p
  }

  lemma WaitStepKeeps(s: State, n: nat, p: nat, e: WaitStep, x: nat, y: nat)
    requires CanWaitStep(s, n, p, e) && Facts(s, n, p, TouchedWait(s, n, p, e), x, y)
    ensures Keeps(s, DoWaitStep(s, n, p, e), n, x, y)
  {
    match e
    case MoveWaitStep(killed) => MoveWaitKeeps(s, n, p, TouchedWait(s, n, p, e), x, y, killed);
    case ReapStep => ReapKeeps(s, n, p, TouchedWait(s, n, p, e), x, y);
    case GiveUpStep => GiveUpKeeps(s, n, p, TouchedWait(s, n, p, e), x, y);
    case SleepStep => SleepKeeps(s, n, p, TouchedWait(s, n, p, e), x, y);
    case TidyStep => TidyKeeps(s, n, p, TouchedWait(s, n, p, e), x, y);
    case UnlockOwnStep => UnlockOwnKeeps(s, n, p, TouchedWait(s, n, p, e), x, y);
  }

  ghost predicate CanSchedStep(s: State, n: nat, p: nat, e: SchedStep) {
    match e
    case SwitchStep => CanSwitch(s, n, p)
    case SchedReleaseStep => CanSchedRelease(s, n, p)
    case DispatchStep => CanDispatch(s, n, p)
    case PauseStep(asleep) => CanPause(s, n, p, asleep)
    case RouseStep => CanRouse(s, n, p)
    case CallStep(pc, _) => CanCall(s, n, p, pc)
  }

  ghost function DoSchedStep(s: State, n: nat, p: nat, e: SchedStep): State
    requires CanSchedStep(s, n, p, e)
  {
    match e
    case SwitchStep => Switch(s, n, p)
    case SchedReleaseStep => SchedRelease(s, n, p)
    case DispatchStep => Dispatch(s, n, p)
    case PauseStep(asleep) => Pause(s, n, p, asleep)
    case RouseStep => Rouse(s, n, p)
    case CallStep(pc, arg) => Call(s, n, p, pc, arg)
  }

  lemma SchedStepKeeps(s: State, n: nat, p: nat, e: SchedStep, x: nat, y: nat)
    requires CanSchedStep(s, n, p, e) && Facts(s, n, p, p, x, y)
    ensures Keeps(s, DoSchedStep(s, n, p, e), n, x, y)
  {
    match e
    case SwitchStep => SwitchKeeps(s, n, p, p, x, y);
    case SchedReleaseStep => SchedReleaseKeeps(s, n, p, p, x, y);
    case DispatchStep => DispatchKeeps(s, n, p, p, x, y);
    case PauseStep(asleep) => PauseKeeps(s, n, p, p, x, y, asleep);
    case RouseStep => RouseKeeps(s, n, p, p, x, y);
    case CallStep(pc, arg) => CallKeeps(s, n, p, p, x, y, pc, arg);
  }

  ghost predicate Enabled(s: State, n: nat, e: Event) {
    match e
    case ForkEvent(p, d) => CanForkStep(s, n, p, d)
    case ExitEvent(p, d) => CanExitStep(s, n, p, d)
    case WaitEvent(p, d) => CanWaitStep(s, n, p, d)
    case SchedEvent(p, d) => CanSchedStep(s, n, p, d)
  }

  ghost function Next(s: State, n: nat, e: Event): State
    requires Enabled(s, n, e)
  {
    match e
    case ForkEvent(p, d) => DoForkStep(s, n, p, d)
    case ExitEvent(p, d) => DoExitStep(s, n, p, d)
    case WaitEvent(p, d) => DoWaitStep(s, n, p, d)
    case SchedEvent(p, d) => DoSchedStep(s, n, p, d)
  }

  ghost function Touched(s: State, n: nat, e: Event): nat
    requires Enabled(s, n, e)
  {
    match e
    case ForkEvent(p, d) => TouchedFork(s, n, p, d)
    case ExitEvent(p, d) => TouchedExit(s, n, p, d)
    case WaitEvent(p, d) => TouchedWait(s, n, p, d)
    case SchedEvent(p, _) => p
  }

  lemma EventKeeps(s: State, n: nat, e: Event, i: nat, x: nat, y: nat)
    requires Enabled(s, n, e) && i == Touched(s, n, e) && Facts(s, n, e.p, i, x, y)
    ensures Keeps(s, Next(s, n, e), n, x, y)
  {
    match e
    case ForkEvent(p, d) => ForkStepKeeps(s, n, p, d, x, y);
    case ExitEvent(p, d) => ExitStepKeeps(s, n, p, d, x, y);
    case WaitEvent(p, d) => WaitStepKeeps(s, n, p, d, x, y);
    case SchedEvent(p, d) => SchedStepKeeps(s, n, p, d, x, y);
  }

  lemma TouchedIn(s: State, n: nat, e: Event)
    requires Enabled(s, n, e) && Shared(s, n)
    ensures e.p < n && Touched(s, n, e) < n
  {
  }

  /** exit adds to the processes that have exited, wait to those reaped, fork to the pids in use. */
  lemma Books(s: State, n: nat, e: Event)
    requires Enabled(s, n, e) && Shared(s, n) && e.p < n
    ensures var t := Next(s, n, e); t.nextpid >= s.nextpid && s.reaped <= t.reaped
    ensures var t := Next(s, n, e);
            t.exited == s.exited || (e.ExitEvent? && e.exit.DieStep?
                && t.exited == s.exited[s.procs[e.p].pid := (e.p, s.procs[e.p].arg)])
  {
  }

  lemma FactsHold(s: State, n: nat, p: nat, i: nat, x: nat, y: nat)
    requires Inv(s, n) && p < n && i < n && x < n && y < n
    ensures Facts(s, n, p, i, x, y)
  {
    assert s.nextpid in s.exited ==> Kept(s, n, s.nextpid);
  }

  lemma KeptStays(s: State, n: nat, e: Event, k: nat)
    requires Inv(s, n) && Enabled(s, n, e) && k in s.exited && Sized(Next(s, n, e), n)
    requires k !in s.reaped && k !in Next(s, n, e).reaped && Kept(s, n, k)
    ensures var t, z := Next(s, n, e), s.exited[k].0; t.procs[z].state == Zombie && t.procs[z].pid == k
  {
    TouchedIn(s, n, e);
    var z := s.exited[k].0;
    FactsHold(s, n, e.p, Touched(s, n, e), z, z);
    EventKeeps(s, n, e, Touched(s, n, e), z, z);
  }

  lemma KeptKeeps(s: State, n: nat, e: Event, k: nat)
    requires Inv(s, n) && Enabled(s, n, e) && k in Next(s, n, e).exited && Sized(Next(s, n, e), n)
    ensures Kept(Next(s, n, e), n, k)
  {
    TouchedIn(s, n, e);
    Books(s, n, e);
    var p, t := e.p, Next(s, n, e);
    assert At(s, n, p);
    if k in s.exited {
      assert Kept(s, n, k);
      if k !in t.reaped {
        assert k !in s.reaped;
        KeptStays(s, n, e, k);
        assert t.exited == s.exited || s.procs[p].pid !in s.exited;
      }
    } else {
      assert k == s.procs[p].pid;
    }
  }

  lemma StepKeeps(s: State, n: nat, e: Event)
    requires Inv(s, n) && Enabled(s, n, e)
    ensures Inv(Next(s, n, e), n)
  {
    TouchedIn(s, n, e);
    var p, i, t := e.p, Touched(s, n, e), Next(s, n, e);
    forall x: nat, y: nat | x < n && y < n ensures Keeps(s, t, n, x, y) {
      FactsHold(s, n, p, i, x, y);
      EventKeeps(s, n, e, i, x, y);
    }
    assert Keeps(s, t, n, 0, 0);
    forall x: nat | x < n ensures At(t, n, x) {
      assert Keeps(s, t, n, x, 0);
    }
    forall x: nat, y: nat | x < n && y < n ensures Pair(t, n, x, y) && Heard(t, n, x, y) {
      assert Keeps(s, t, n, x, y);
    }
    forall k: nat | k in t.exited ensures Kept(t, n, k) {
      KeptKeeps(s, n, e, k);
    }
  }

  /** userinit: initproc is the only process. */
  ghost predicate Init(s: State, n: nat) {
    && Sized(s, n) && 0 < n && s.wait == Free && s.exited == map[] && s.reaped == {} && s.nextpid > 1
    && s.procs[0] == Proc(Free, Runnable, Null, Free, 1, 0, 0, false, Run, Free)
    && forall p: nat | 0 < p < n :: s.procs[p] == Proc(Free, Unused, Null, Free, 0, 0, 0, false, Run, Free)
  }

  lemma InitInv(s: State, n: nat)
    requires Init(s, n)
    ensures Inv(s, n)
  {
    forall p: nat | p < n ensures At(s, n, p) {
    }
  }

  ghost predicate Runs(s: State, n: nat, es: seq<Event>, t: State)
    decreases |es|
  {
    if es == [] then t == s else Enabled(s, n, es[0]) && Runs(Next(s, n, es[0]), n, es[1..], t)
  }

  lemma {:induction false} RunKeeps(s: State, n: nat, es: seq<Event>, t: State)
    requires Inv(s, n) && Runs(s, n, es, t)
    ensures Inv(t, n)
    decreases |es|
  {
    if es != [] {
      StepKeeps(s, n, es[0]);
      RunKeeps(Next(s, n, es[0]), n, es[1..], t);
    }
  }

  lemma Reachable(s: State, n: nat, es: seq<Event>, t: State)
    requires Init(s, n) && Runs(s, n, es, t)
    ensures Inv(t, n)
  {
    InitInv(s, n);
    RunKeeps(s, n, es, t);
  }

  // ---- what every run guarantees ----

  /** Whenever wait_lock is free, nobody is asleep in wait while having a zombie child. */
  lemma NoMissedExit(s: State, n: nat, es: seq<Event>, t: State, p: nat, c: nat)
    requires Init(s, n) && Runs(s, n, es, t) && t.wait == Free && p < n && c < n
    ensures Sized(t, n) && !(t.procs[p].state == Sleeping && t.procs[p].chan == Self && t.procs[c].parent == By(p)
            && t.procs[c].state == Zombie)
  {
    Reachable(s, n, es, t);
    assert Heard(t, n, p, c);
  }

  /** Every parent pointer names a process that is neither a zombie nor an unused slot. */
  lemma ParentsAlive(s: State, n: nat, es: seq<Event>, t: State, c: nat)
    requires Init(s, n) && Runs(s, n, es, t) && c < n
    ensures Sized(t, n) && (t.procs[c].parent.By? ==>
            t.procs[c].parent.p < n && Alive(t.procs[t.procs[c].parent.p].state))
  {
    Reachable(s, n, es, t);
    assert At(t, n, c);
  }

  /** A process that has exited stays in the table with its pid and the status it exited with until it is reaped. */
  lemma NotLost(s: State, n: nat, es: seq<Event>, t: State, k: nat)
    requires Init(s, n) && Runs(s, n, es, t) && k in t.exited && k !in t.reaped
    ensures Sized(t, n) && t.exited[k].0 < n
    ensures var r := t.procs[t.exited[k].0]; r.state == Zombie && r.pid == k && r.xstate == t.exited[k].1
  {
    Reachable(s, n, es, t);
    assert Kept(t, n, k);
    assert At(t, n, t.exited[k].0);
  }

  /** A successful wait returns the pid of a child that has exited, has not been reaped before and is off its CPU,
      with the status that child exited with; afterwards it counts as reaped for good. */
  lemma ReapedOnce(s: State, n: nat, es: seq<Event>, t: State, p: nat)
    requires Init(s, n) && Runs(s, n, es, t) && CanReap(t, n, p)
    ensures var r := t.procs[t.procs[p].pc.i];
            && r.parent == By(p) && !r.oncpu && r.pc == Gone
            && r.pid in t.exited && r.pid !in t.reaped && t.exited[r.pid].1 == r.xstate
            && r.pid in Reap(t, n, p).reaped
  {
    Reachable(s, n, es, t);
    assert At(t, n, p) && At(t, n, t.procs[p].pc.i);
  }

  lemma {:induction false} ReapedForGood(s: State, n: nat, es: seq<Event>, t: State, k: nat)
    requires Inv(s, n) && Runs(s, n, es, t) && k in s.reaped
    ensures k in t.reaped
    decreases |es|
  {
    if es != [] {
      TouchedIn(s, n, es[0]);
      Books(s, n, es[0]);
      StepKeeps(s, n, es[0]);
      ReapedForGood(Next(s, n, es[0]), n, es[1..], t, k);
    }
  }

  /** A wait that ends its scan without having seen a child has none. */
  lemma NoChildren(s: State, n: nat, es: seq<Event>, t: State, p: nat, c: nat)
    requires Init(s, n) && Runs(s, n, es, t) && CanMoveWait(t, n, p) && t.procs[p].pc.i >= n && !t.procs[p].pc.kids
             && c < n
    ensures t.procs[c].parent != By(p)
  {
    Reachable(s, n, es, t);
    assert Pair(t, n, p, c);
  }
}
