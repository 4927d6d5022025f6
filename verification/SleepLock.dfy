/** kernel/sleeplock.c over sleep, wakeup and kill of kernel/proc.c: every interleaving of the steps between two
    operations on shared data, for any number of processes and CPUs. */
module SleepLock {
  datatype Holder = Free | By(p: nat)
  datatype ProcState = Running | Runnable | Sleeping
  datatype Chan = Null | This | Elsewhere

  /** Where a process is. holds says whether it holds the sleep-lock while it does something else. */
  datatype Pc =
    | Out(holds: bool)                                       // anywhere else
    | Acq | Check                                            // acquiresleep: acquire(&lk->lk); test locked
    | SleepLockP | SleepRelease | SleepSet | SleepSwitch    // sleep: acquire(&p->lock); release(lk); chan, state; sched
    | SleepAway | SleepTidy | SleepUnlock                    // switched away; chan = 0; release(&p->lock)
    | Take | TakeRelease                                     // locked = 1, pid; release(&lk->lk)
    | Rel | Clear                                            // releasesleep: acquire(&lk->lk); locked = 0, pid = 0
    | Wake(i: nat) | WakeTest(i: nat) | WakeUnlock(i: nat)   // wakeup: acquire(&p->lock); test, state; release
    | RelRelease                                             // release(&lk->lk)
    | Kill(i: nat, holds: bool) | KillTest(i: nat, holds: bool) | KillUnlock(i: nat, holds: bool)

  /** owner is the process that has the sleep-lock. */
  datatype State = State(inner: Holder, locked: bool, pid: nat, plock: seq<Holder>, state: seq<ProcState>,
      chan: seq<Chan>, oncpu: seq<bool>, pc: seq<Pc>, owner: Holder)

  /** allocpid numbers processes from 1. */
  function Pid(p: nat): nat { p + 1 }

  function Goto(s: State, p: nat, pc: Pc): State
    requires p < |s.pc|
  {
    s.(pc := s.pc[p := pc])
  }

  ghost predicate Sized(s: State, n: nat) {
    |s.plock| == n && |s.state| == n && |s.chan| == n && |s.oncpu| == n && |s.pc| == n
  }

  ghost predicate OnCpu(s: State, n: nat, p: nat) {
    Sized(s, n) && p < n && s.oncpu[p]
  }

  // Each step is enabled when the process is on a CPU and the lock it is about to acquire is free.

  ghost predicate CanAcquire(s: State, n: nat, p: nat) {
    OnCpu(s, n, p) && ((s.pc[p] == Acq && s.inner == Free) || s.pc[p] == Check || s.pc[p] == Take
        || s.pc[p] == TakeRelease)
  }

  ghost function DoAcquire(s: State, n: nat, p: nat): State
    requires CanAcquire(s, n, p)
  {
    if s.pc[p] == Acq then Goto(s, p, Check).(inner := By(p))
    else if s.pc[p] == Check then Goto(s, p, if s.locked then SleepLockP else Take)
    else if s.pc[p] == Take then Goto(s, p, TakeRelease).(locked := true, pid := Pid(p), owner := By(p))
    else Goto(s, p, Out(true)).(inner := Free)
  }

  ghost predicate CanSleep(s: State, n: nat, p: nat) {
    OnCpu(s, n, p) && ((s.pc[p] == SleepLockP && s.plock[p] == Free) || s.pc[p] == SleepRelease || s.pc[p] == SleepSet
        || s.pc[p] == SleepSwitch)
  }

  ghost function DoSleep(s: State, n: nat, p: nat): State
    requires CanSleep(s, n, p)
  {
    if s.pc[p] == SleepLockP then Goto(s, p, SleepRelease).(plock := s.plock[p := By(p)])
    else if s.pc[p] == SleepRelease then Goto(s, p, SleepSet).(inner := Free)
    else if s.pc[p] == SleepSet then Goto(s, p, SleepSwitch).(chan := s.chan[p := This],
        state := s.state[p := Sleeping])
    else Goto(s, p, SleepAway).(oncpu := s.oncpu[p := false])
  }

  ghost predicate CanReturn(s: State, n: nat, p: nat) {
    OnCpu(s, n, p) && (s.pc[p] == SleepTidy || s.pc[p] == SleepUnlock)
  }

  ghost function DoReturn(s: State, n: nat, p: nat): State
    requires CanReturn(s, n, p)
  {
    if s.pc[p] == SleepTidy then Goto(s, p, SleepUnlock).(chan := s.chan[p := Null])
    else Goto(s, p, Acq).(plock := s.plock[p := Free])
  }

  ghost predicate CanRelease(s: State, n: nat, p: nat) {
    OnCpu(s, n, p) && ((s.pc[p] == Rel && s.inner == Free) || s.pc[p] == Clear || s.pc[p] == RelRelease)
  }

  ghost function DoRelease(s: State, n: nat, p: nat): State
    requires CanRelease(s, n, p)
  {
    if s.pc[p] == Rel then Goto(s, p, Clear).(inner := By(p))
    else if s.pc[p] == Clear then Goto(s, p, Wake(0)).(locked := false, pid := 0, owner := Free)
    else Goto(s, p, Out(false)).(inner := Free)
  }

  ghost predicate CanWake(s: State, n: nat, p: nat) {
    OnCpu(s, n, p) && s.pc[p].Wake? && (s.pc[p].i < n && s.pc[p].i != p ==> s.plock[s.pc[p].i] == Free)
  }

  ghost function DoWake(s: State, n: nat, p: nat): State
    requires CanWake(s, n, p)
  {
    var i := s.pc[p].i;
    if i >= n then Goto(s, p, RelRelease)
    else if i == p then Goto(s, p, Wake(i + 1))
    else Goto(s, p, WakeTest(i)).(plock := s.plock[i := By(p)])
  }

  ghost predicate CanWakeOne(s: State, n: nat, p: nat) {
    OnCpu(s, n, p) && (s.pc[p].WakeTest? || s.pc[p].WakeUnlock?) && s.pc[p].i < n
  }

  ghost function DoWakeOne(s: State, n: nat, p: nat): State
    requires CanWakeOne(s, n, p)
  {
    var i := s.pc[p].i;
    if s.pc[p].WakeUnlock? then Goto(s, p, Wake(i + 1)).(plock := s.plock[i := Free])
    else if s.state[i] == Sleeping && s.chan[i] == This then Goto(s, p, WakeUnlock(i)).(state := s.state[i := Runnable])
    else Goto(s, p, WakeUnlock(i))
  }

  ghost predicate CanKill(s: State, n: nat, p: nat) {
    OnCpu(s, n, p) && s.pc[p].Kill? && s.pc[p].i < n && s.plock[s.pc[p].i] == Free
  }

  ghost function DoKill(s: State, n: nat, p: nat): State
    requires CanKill(s, n, p)
  {
    Goto(s, p, KillTest(s.pc[p].i, s.pc[p].holds)).(plock := s.plock[s.pc[p].i := By(p)])
  }

  ghost predicate CanKillOne(s: State, n: nat, p: nat) {
    OnCpu(s, n, p) && (s.pc[p].KillTest? || s.pc[p].KillUnlock?) && s.pc[p].i < n
  }

  ghost function DoKillOne(s: State, n: nat, p: nat): State
    requires CanKillOne(s, n, p)
  {
    var i, holds := s.pc[p].i, s.pc[p].holds;
    if s.pc[p].KillUnlock? then Goto(s, p, Out(holds)).(plock := s.plock[i := Free])
    else if s.state[i] == Sleeping then Goto(s, p, KillUnlock(i, holds)).(state := s.state[i := Runnable])
    else Goto(s, p, KillUnlock(i, holds))
  }

  datatype Event =
    | Acquire(p: nat) | Sleep(p: nat) | Return(p: nat) | Release(p: nat) | Wakeup(p: nat) | WakeOne(p: nat)
        | KillLock(p: nat) | KillOne(p: nat)
    | CallAcquire(p: nat) | CallRelease(p: nat) | CallKill(p: nat, i: nat)
    | Preempt(p: nat)                 // yield
    | SleepOn(p: nat) | WakeOn(p: nat)    // sleep on, and wakeup of, some other channel
    | Dispatch(p: nat)                // the scheduler picks p
    | SchedRelease(p: nat)            // the scheduler releases p->lock after p has switched to it

  ghost predicate AtRest(s: State, n: nat, p: nat) {
    Sized(s, n) && p < n && s.oncpu[p] && s.pc[p].Out?
  }

  ghost predicate Enabled(s: State, n: nat, e: Event) {
    match e
    case Acquire(p) => CanAcquire(s, n, p)
    case Sleep(p) => CanSleep(s, n, p)
    case Return(p) => CanReturn(s, n, p)
    case Release(p) => CanRelease(s, n, p)
    case Wakeup(p) => CanWake(s, n, p)
    case WakeOne(p) => CanWakeOne(s, n, p)
    case KillLock(p) => CanKill(s, n, p)
    case KillOne(p) => CanKillOne(s, n, p)
    case CallAcquire(p) => AtRest(s, n, p) && !s.pc[p].holds
    case CallRelease(p) => AtRest(s, n, p) && s.pc[p].holds
    case CallKill(p, i) => AtRest(s, n, p) && i < n
    case Preempt(p) => Sized(s, n) && p < n && s.oncpu[p]
        && (s.pc[p].Out? || s.pc[p].Acq? || s.pc[p].Rel? || s.pc[p].Kill?) && s.plock[p] == Free
    case SleepOn(p) => AtRest(s, n, p) && s.plock[p] == Free
    case WakeOn(p) => Sized(s, n) && p < n && s.plock[p] == Free && s.state[p] == Sleeping && s.chan[p] == Elsewhere
    case Dispatch(p) => Sized(s, n) && p < n && s.plock[p] == Free && s.state[p] == Runnable && !s.oncpu[p]
    case SchedRelease(p) => Sized(s, n) && p < n && s.pc[p] == SleepAway && s.plock[p] == By(p)
  }

  ghost function Next(s: State, n: nat, e: Event): State
    requires Enabled(s, n, e)
  {
    match e
    case Acquire(p) => DoAcquire(s, n, p)
    case Sleep(p) => DoSleep(s, n, p)
    case Return(p) => DoReturn(s, n, p)
    case Release(p) => DoRelease(s, n, p)
    case Wakeup(p) => DoWake(s, n, p)
    case WakeOne(p) => DoWakeOne(s, n, p)
    case KillLock(p) => DoKill(s, n, p)
    case KillOne(p) => DoKillOne(s, n, p)
    case CallAcquire(p) => Goto(s, p, Acq)
    case CallRelease(p) => Goto(s, p, Rel)
    case CallKill(p, i) => Goto(s, p, Kill(i, s.pc[p].holds))
    case Preempt(p) => s.(state := s.state[p := Runnable], oncpu := s.oncpu[p := false])
    case SleepOn(p) => s.(state := s.state[p := Sleeping], chan := s.chan[p := Elsewhere], oncpu := s.oncpu[p := false])
    case WakeOn(p) => s.(state := s.state[p := Runnable])
    case Dispatch(p) => Resume(s, n, p)
    case SchedRelease(p) => s.(plock := s.plock[p := Free])
  }

  /** A process that left in sleep comes back holding its lock and tidies up; the others let go of theirs at once. */
  ghost function Resume(s: State, n: nat, p: nat): State
    requires Sized(s, n) && p < n
  {
    var t := s.(state := s.state[p := Running], oncpu := s.oncpu[p := true]);
    if s.pc[p] == SleepAway then Goto(t, p, SleepTidy).(plock := s.plock[p := By(p)]) else t.(chan := s.chan[p := Null])
  }

  ghost predicate Init(s: State, n: nat) {
    && Sized(s, n) && s.inner == Free && !s.locked && s.pid == 0 && s.owner == Free
    && forall p: nat | p < n ::
       s.plock[p] == Free && s.pc[p] == Out(false) && s.chan[p] == Null && s.state[p] != Sleeping
       && (s.oncpu[p] ==> s.state[p] == Running)
  }

  // ---- the invariant ----

  predicate HoldsInner(pc: Pc) {
    pc.Check? || pc.SleepLockP? || pc.SleepRelease? || pc.Take? || pc.TakeRelease? || pc.Clear? || pc.Wake?
        || pc.WakeTest? || pc.WakeUnlock? || pc.RelRelease?
  }

  predicate HoldsOwn(pc: Pc) { pc.SleepRelease? || pc.SleepSet? || pc.SleepSwitch? || pc.SleepTidy? || pc.SleepUnlock? }

  predicate HoldsSome(pc: Pc) { pc.WakeTest? || pc.WakeUnlock? || pc.KillTest? || pc.KillUnlock? }

  predicate HasLock(pc: Pc) {
    pc.TakeRelease? || pc.Rel? || pc.Clear? || ((pc.Out? || pc.Kill? || pc.KillTest? || pc.KillUnlock?) && pc.holds)
  }

  /** The wakeup loop has yet to come to process p. */
  predicate Ahead(pc: Pc, p: nat) {
    match pc
    case Wake(i) => i <= p
    case WakeTest(i) => i <= p
    case WakeUnlock(i) => i < p
    case _ => false
  }

  /** p sleeps on the lock, or has let go of the inner lock in order to. */
  ghost predicate Waiting(s: State, p: nat)
    requires p < |s.pc| && p < |s.state| && p < |s.chan|
  {
    s.pc[p] == SleepSet || (s.state[p] == Sleeping && s.chan[p] == This)
  }

  /** The spinlocks, seen from process p. */
  ghost predicate LocksAt(s: State, n: nat, p: nat)
    requires Sized(s, n) && p < n
  {
    && (HoldsInner(s.pc[p]) <==> s.inner == By(p))
    && (HoldsOwn(s.pc[p]) ==> s.plock[p] == By(p))
    && (HoldsSome(s.pc[p]) ==> s.pc[p].i < n && s.plock[s.pc[p].i] == By(p))
    && (s.plock[p].By? ==>
          var q := s.plock[p].p;
          q < n && ((HoldsSome(s.pc[q]) && s.pc[q].i == p) || (q == p && (HoldsOwn(s.pc[p]) || s.pc[p] == SleepAway))))
  }

  /** The sleep-lock, seen from process p. */
  ghost predicate OwnerAt(s: State, n: nat, p: nat)
    requires Sized(s, n) && p < n
  {
    && (HasLock(s.pc[p]) <==> s.owner == By(p))
    && (s.pc[p] == SleepLockP || s.pc[p] == SleepRelease ==> s.locked) && (s.pc[p] == Take ==> !s.locked)
  }

  ghost predicate StateAt(s: State, n: nat, p: nat)
    requires Sized(s, n) && p < n
  {
    && (s.chan[p] == This ==> s.pc[p] == SleepSwitch || s.pc[p] == SleepAway || s.pc[p] == SleepTidy)
    && (s.pc[p] == SleepSwitch || s.pc[p] == SleepAway ==> s.chan[p] == This)
    && (s.pc[p] == SleepAway ==> !s.oncpu[p])
    && (s.oncpu[p] && s.pc[p] != SleepSwitch ==> s.state[p] == Running)
    && (s.pc[p] == SleepSwitch ==> s.state[p] == Sleeping)
    && (HoldsInner(s.pc[p]) || HoldsOwn(s.pc[p]) || HoldsSome(s.pc[p]) ==> s.oncpu[p])
  }

  /** Whoever waits is still to be woken: the lock is taken, or a wakeup is under way and has not passed them. */
  ghost predicate NotLostAt(s: State, n: nat, p: nat)
    requires Sized(s, n) && p < n
  {
    Waiting(s, p) ==> s.locked || (s.inner.By? && s.inner.p < n && Ahead(s.pc[s.inner.p], p))
  }

  ghost predicate Shared(s: State, n: nat) {
    && Sized(s, n) && (s.inner.By? ==> s.inner.p < n) && (s.owner.By? ==> s.owner.p < n)
    && (s.locked <==> s.owner.By?) && s.pid == (if s.owner.By? then Pid(s.owner.p) else 0)
  }

  ghost predicate SoundAt(s: State, n: nat, p: nat)
    requires Sized(s, n) && p < n
  {
    LocksAt(s, n, p) && OwnerAt(s, n, p) && StateAt(s, n, p)
  }

  ghost predicate InvAt(s: State, n: nat, p: nat)
    requires Sized(s, n) && p < n
  {
    SoundAt(s, n, p) && NotLostAt(s, n, p)
  }

  ghost predicate Inv(s: State, n: nat) {
    Shared(s, n) && forall p: nat | p < n :: InvAt(s, n, p)
  }

  lemma InitInv(s: State, n: nat)
    requires Init(s, n)
    ensures Inv(s, n)
  {
  }

  // A step of p, seen from process x.

  lemma AcquireLocks(s: State, n: nat, p: nat, x: nat)
    requires Shared(s, n) && CanAcquire(s, n, p) && SoundAt(s, n, p) && x < n && SoundAt(s, n, x)
    ensures Shared(DoAcquire(s, n, p), n) && LocksAt(DoAcquire(s, n, p), n, x)
  {
    assert x != p ==> DoAcquire(s, n, p).pc[x] == s.pc[x];
  }

  lemma AcquireKeeps(s: State, n: nat, p: nat, x: nat)
    requires Shared(s, n) && CanAcquire(s, n, p) && InvAt(s, n, p) && x < n && InvAt(s, n, x)
    ensures Shared(DoAcquire(s, n, p), n) && InvAt(DoAcquire(s, n, p), n, x)
  {
    AcquireLocks(s, n, p, x);
    assert x != p ==> DoAcquire(s, n, p).pc[x] == s.pc[x];
  }

  lemma SleepInner(s: State, n: nat, p: nat, x: nat)
    requires Shared(s, n) && CanSleep(s, n, p) && s.pc[p].SleepLockP? && SoundAt(s, n, p) && x < n && SoundAt(s, n, x)
    ensures Shared(DoSleep(s, n, p), n) && LocksAt(DoSleep(s, n, p), n, x)
  {
    assert x != p ==> DoSleep(s, n, p).pc[x] == s.pc[x];
  }

  lemma SleepOuter(s: State, n: nat, p: nat, x: nat)
    requires Shared(s, n) && CanSleep(s, n, p) && !s.pc[p].SleepLockP? && SoundAt(s, n, p) && x < n && SoundAt(s, n, x)
    ensures Shared(DoSleep(s, n, p), n) && LocksAt(DoSleep(s, n, p), n, x)
  {
    assert x != p ==> DoSleep(s, n, p).pc[x] == s.pc[x];
  }

  lemma SleepLocks(s: State, n: nat, p: nat, x: nat)
    requires Shared(s, n) && CanSleep(s, n, p) && SoundAt(s, n, p) && x < n && SoundAt(s, n, x)
    ensures Shared(DoSleep(s, n, p), n) && LocksAt(DoSleep(s, n, p), n, x)
  {
    if s.pc[p].SleepLockP? { SleepInner(s, n, p, x); } else { SleepOuter(s, n, p, x); }
  }

  lemma SleepKeeps(s: State, n: nat, p: nat, x: nat)
    requires Shared(s, n) && CanSleep(s, n, p) && InvAt(s, n, p) && x < n && InvAt(s, n, x)
    ensures Shared(DoSleep(s, n, p), n) && InvAt(DoSleep(s, n, p), n, x)
  {
    SleepLocks(s, n, p, x);
    assert x != p ==> DoSleep(s, n, p).pc[x] == s.pc[x];
  }

  lemma ReturnLocks(s: State, n: nat, p: nat, x: nat)
    requires Shared(s, n) && CanReturn(s, n, p) && SoundAt(s, n, p) && x < n && SoundAt(s, n, x)
    ensures Shared(DoReturn(s, n, p), n) && LocksAt(DoReturn(s, n, p), n, x)
  {
    assert x != p ==> DoReturn(s, n, p).pc[x] == s.pc[x];
  }

  lemma ReturnKeeps(s: State, n: nat, p: nat, x: nat)
    requires Shared(s, n) && CanReturn(s, n, p) && InvAt(s, n, p) && x < n && InvAt(s, n, x)
    ensures Shared(DoReturn(s, n, p), n) && InvAt(DoReturn(s, n, p), n, x)
  {
    ReturnLocks(s, n, p, x);
    assert x != p ==> DoReturn(s, n, p).pc[x] == s.pc[x];
  }

  lemma ReleaseLocks(s: State, n: nat, p: nat, x: nat)
    requires Shared(s, n) && CanRelease(s, n, p) && SoundAt(s, n, p) && x < n && SoundAt(s, n, x)
    ensures Shared(DoRelease(s, n, p), n) && LocksAt(DoRelease(s, n, p), n, x)
  {
    assert x != p ==> DoRelease(s, n, p).pc[x] == s.pc[x];
  }

  lemma ReleaseKeeps(s: State, n: nat, p: nat, x: nat)
    requires Shared(s, n) && CanRelease(s, n, p) && InvAt(s, n, p) && x < n && InvAt(s, n, x)
    ensures Shared(DoRelease(s, n, p), n) && InvAt(DoRelease(s, n, p), n, x)
  {
    ReleaseLocks(s, n, p, x);
    assert x != p ==> DoRelease(s, n, p).pc[x] == s.pc[x];
  }

  lemma WakeLocks(s: State, n: nat, p: nat, x: nat)
    requires Shared(s, n) && CanWake(s, n, p) && SoundAt(s, n, p) && x < n && SoundAt(s, n, x)
    ensures Shared(DoWake(s, n, p), n) && LocksAt(DoWake(s, n, p), n, x)
  {
    assert x != p ==> DoWake(s, n, p).pc[x] == s.pc[x];
  }

  lemma WakeKeeps(s: State, n: nat, p: nat, x: nat)
    requires Shared(s, n) && CanWake(s, n, p) && InvAt(s, n, p) && x < n && InvAt(s, n, x)
    ensures Shared(DoWake(s, n, p), n) && InvAt(DoWake(s, n, p), n, x)
  {
    WakeLocks(s, n, p, x);
    assert x != p ==> DoWake(s, n, p).pc[x] == s.pc[x];
  }

  lemma WakeTestLocks(s: State, n: nat, p: nat, x: nat)
    requires Shared(s, n) && CanWakeOne(s, n, p) && s.pc[p].WakeTest? && SoundAt(s, n, p) && x < n && SoundAt(s, n, x)
    ensures Shared(DoWakeOne(s, n, p), n) && LocksAt(DoWakeOne(s, n, p), n, x)
  {
    var t := DoWakeOne(s, n, p);
    assert t.plock == s.plock && t.pc == s.pc[p := WakeUnlock(s.pc[p].i)];
  }

  lemma WakeUnlockLocks(s: State, n: nat, p: nat, x: nat)
    requires Shared(s, n) && CanWakeOne(s, n, p) && s.pc[p].WakeUnlock? && SoundAt(s, n, p) && x < n && SoundAt(s, n, x)
    ensures Shared(DoWakeOne(s, n, p), n) && LocksAt(DoWakeOne(s, n, p), n, x)
  {
    assert x != p ==> DoWakeOne(s, n, p).pc[x] == s.pc[x];
  }

  lemma WakeOneLocks(s: State, n: nat, p: nat, x: nat)
    requires Shared(s, n) && CanWakeOne(s, n, p) && SoundAt(s, n, p) && x < n && SoundAt(s, n, x)
    ensures Shared(DoWakeOne(s, n, p), n) && LocksAt(DoWakeOne(s, n, p), n, x)
  {
    if s.pc[p].WakeTest? { WakeTestLocks(s, n, p, x); } else { WakeUnlockLocks(s, n, p, x); }
  }

  lemma WakeOneNotLost(s: State, n: nat, p: nat, x: nat)
    requires Shared(s, n) && CanWakeOne(s, n, p) && InvAt(s, n, p) && x < n && InvAt(s, n, x)
    ensures Shared(DoWakeOne(s, n, p), n) && NotLostAt(DoWakeOne(s, n, p), n, x)
  {
    assert x != p ==> DoWakeOne(s, n, p).pc[x] == s.pc[x];
  }

  lemma WakeOneStates(s: State, n: nat, p: nat, x: nat)
    requires Shared(s, n) && CanWakeOne(s, n, p) && SoundAt(s, n, p) && x < n && SoundAt(s, n, x)
    ensures Sized(DoWakeOne(s, n, p), n) && OwnerAt(DoWakeOne(s, n, p), n, x) && StateAt(DoWakeOne(s, n, p), n, x)
  {
    assert x != p ==> DoWakeOne(s, n, p).pc[x] == s.pc[x];
  }

  lemma WakeOneKeeps(s: State, n: nat, p: nat, x: nat)
    requires Shared(s, n) && CanWakeOne(s, n, p) && InvAt(s, n, p) && x < n && InvAt(s, n, x)
    ensures Shared(DoWakeOne(s, n, p), n) && InvAt(DoWakeOne(s, n, p), n, x)
  {
    WakeOneLocks(s, n, p, x);
    WakeOneStates(s, n, p, x);
    WakeOneNotLost(s, n, p, x);
  }

  lemma KillLocks(s: State, n: nat, p: nat, x: nat)
    requires Shared(s, n) && CanKill(s, n, p) && SoundAt(s, n, p) && x < n && SoundAt(s, n, x)
    ensures Shared(DoKill(s, n, p), n) && LocksAt(DoKill(s, n, p), n, x)
  {
    assert x != p ==> DoKill(s, n, p).pc[x] == s.pc[x];
  }

  lemma KillKeeps(s: State, n: nat, p: nat, x: nat)
    requires Shared(s, n) && CanKill(s, n, p) && InvAt(s, n, p) && x < n && InvAt(s, n, x)
    ensures Shared(DoKill(s, n, p), n) && InvAt(DoKill(s, n, p), n, x)
  {
    KillLocks(s, n, p, x);
    assert x != p ==> DoKill(s, n, p).pc[x] == s.pc[x];
  }

  lemma KillTestLocks(s: State, n: nat, p: nat, x: nat)
    requires Shared(s, n) && CanKillOne(s, n, p) && s.pc[p].KillTest? && SoundAt(s, n, p) && x < n && SoundAt(s, n, x)
    ensures Shared(DoKillOne(s, n, p), n) && LocksAt(DoKillOne(s, n, p), n, x)
  {
    var t := DoKillOne(s, n, p);
    assert t.plock == s.plock && t.pc == s.pc[p := KillUnlock(s.pc[p].i, s.pc[p].holds)];
  }

  lemma KillUnlockLocks(s: State, n: nat, p: nat, x: nat)
    requires Shared(s, n) && CanKillOne(s, n, p) && s.pc[p].KillUnlock? && SoundAt(s, n, p) && x < n && SoundAt(s, n, x)
    ensures Shared(DoKillOne(s, n, p), n) && LocksAt(DoKillOne(s, n, p), n, x)
  {
    assert x != p ==> DoKillOne(s, n, p).pc[x] == s.pc[x];
  }

  lemma KillOneLocks(s: State, n: nat, p: nat, x: nat)
    requires Shared(s, n) && CanKillOne(s, n, p) && SoundAt(s, n, p) && x < n && SoundAt(s, n, x)
    ensures Shared(DoKillOne(s, n, p), n) && LocksAt(DoKillOne(s, n, p), n, x)
  {
    if s.pc[p].KillTest? { KillTestLocks(s, n, p, x); } else { KillUnlockLocks(s, n, p, x); }
  }

  lemma KillOneNotLost(s: State, n: nat, p: nat, x: nat)
    requires Shared(s, n) && CanKillOne(s, n, p) && InvAt(s, n, p) && x < n && InvAt(s, n, x)
    ensures Shared(DoKillOne(s, n, p), n) && NotLostAt(DoKillOne(s, n, p), n, x)
  {
    assert x != p ==> DoKillOne(s, n, p).pc[x] == s.pc[x];
  }

  lemma KillOneStates(s: State, n: nat, p: nat, x: nat)
    requires Shared(s, n) && CanKillOne(s, n, p) && SoundAt(s, n, p) && x < n && SoundAt(s, n, x)
    ensures Sized(DoKillOne(s, n, p), n) && OwnerAt(DoKillOne(s, n, p), n, x) && StateAt(DoKillOne(s, n, p), n, x)
  {
    assert x != p ==> DoKillOne(s, n, p).pc[x] == s.pc[x];
  }

  lemma KillOneKeeps(s: State, n: nat, p: nat, x: nat)
    requires Shared(s, n) && CanKillOne(s, n, p) && InvAt(s, n, p) && x < n && InvAt(s, n, x)
    ensures Shared(DoKillOne(s, n, p), n) && InvAt(DoKillOne(s, n, p), n, x)
  {
    KillOneLocks(s, n, p, x);
    KillOneStates(s, n, p, x);
    KillOneNotLost(s, n, p, x);
  }

  lemma CallKeeps(s: State, n: nat, p: nat, x: nat, pc: Pc)
    requires Shared(s, n) && AtRest(s, n, p) && InvAt(s, n, p) && x < n && InvAt(s, n, x)
    requires (pc == Acq && !s.pc[p].holds) || (pc == Rel && s.pc[p].holds) || (pc.Kill? && pc.holds == s.pc[p].holds)
    ensures Shared(Goto(s, p, pc), n) && InvAt(Goto(s, p, pc), n, x)
  {
    assert x != p ==> Goto(s, p, pc).pc[x] == s.pc[x];
  }

  lemma SchedulingKeeps(s: State, n: nat, e: Event, p: nat, x: nat)
    requires Enabled(s, n, e) && ((e.Preempt? && e.p == p) || (e.SleepOn? && e.p == p) || (e.WakeOn? && e.p == p)
             || (e.SchedRelease? && e.p == p))
    requires Shared(s, n) && p < n && InvAt(s, n, p) && x < n && InvAt(s, n, x)
    ensures Shared(Next(s, n, e), n) && InvAt(Next(s, n, e), n, x)
  {
  }

  lemma DispatchLocks(s: State, n: nat, p: nat, x: nat)
    requires Enabled(s, n, Dispatch(p)) && Shared(s, n) && SoundAt(s, n, p) && x < n && SoundAt(s, n, x)
    ensures Shared(Resume(s, n, p), n) && LocksAt(Resume(s, n, p), n, x)
  {
    assert x != p ==> Resume(s, n, p).pc[x] == s.pc[x];
  }

  lemma DispatchNotLost(s: State, n: nat, p: nat, x: nat)
    requires Enabled(s, n, Dispatch(p)) && Shared(s, n) && InvAt(s, n, p) && x < n && InvAt(s, n, x)
    ensures Shared(Resume(s, n, p), n) && NotLostAt(Resume(s, n, p), n, x)
  {
    assert x != p ==> Resume(s, n, p).pc[x] == s.pc[x];
  }

  lemma DispatchStates(s: State, n: nat, p: nat, x: nat)
    requires Enabled(s, n, Dispatch(p)) && Shared(s, n) && SoundAt(s, n, p) && x < n && SoundAt(s, n, x)
    ensures Sized(Resume(s, n, p), n) && OwnerAt(Resume(s, n, p), n, x) && StateAt(Resume(s, n, p), n, x)
  {
    assert x != p ==> Resume(s, n, p).pc[x] == s.pc[x];
  }

  lemma DispatchKeeps(s: State, n: nat, p: nat, x: nat)
    requires Enabled(s, n, Dispatch(p)) && Shared(s, n) && InvAt(s, n, p) && x < n && InvAt(s, n, x)
    ensures Shared(Resume(s, n, p), n) && InvAt(Resume(s, n, p), n, x)
  {
    DispatchLocks(s, n, p, x);
    DispatchStates(s, n, p, x);
    DispatchNotLost(s, n, p, x);
  }

  lemma StepKeeps(s: State, n: nat, e: Event)
    requires Inv(s, n) && Enabled(s, n, e)
    ensures Inv(Next(s, n, e), n)
  {
    var t := Next(s, n, e);
    var p := e.p;
    assert InvAt(s, n, p);
    forall x: nat | x < n ensures Shared(t, n) && InvAt(t, n, x) {
      assert InvAt(s, n, x);
      KeepsAt(s, n, e, p, x);
    }
    KeepsAt(s, n, e, p, p);
  }

  lemma KeepsAt(s: State, n: nat, e: Event, p: nat, x: nat)
    requires Shared(s, n) && Enabled(s, n, e) && p == e.p && p < n && InvAt(s, n, p) && x < n && InvAt(s, n, x)
    ensures Shared(Next(s, n, e), n) && InvAt(Next(s, n, e), n, x)
  {
    match e
    case Acquire(_) => AcquireKeeps(s, n, p, x);
    case Sleep(_) => SleepKeeps(s, n, p, x);
    case Return(_) => ReturnKeeps(s, n, p, x);
    case Release(_) => ReleaseKeeps(s, n, p, x);
    case Wakeup(_) => WakeKeeps(s, n, p, x);
    case WakeOne(_) => WakeOneKeeps(s, n, p, x);
    case KillLock(_) => KillKeeps(s, n, p, x);
    case KillOne(_) => KillOneKeeps(s, n, p, x);
    case CallAcquire(_) => CallKeeps(s, n, p, x, Acq);
    case CallRelease(_) => CallKeeps(s, n, p, x, Rel);
    case CallKill(_, i) => CallKeeps(s, n, p, x, Kill(i, s.pc[p].holds));
    case Dispatch(_) => DispatchKeeps(s, n, p, x);
    case _ => SchedulingKeeps(s, n, e, p, x);
  }

  // ---- every run ----

  ghost predicate Run(s: State, n: nat, es: seq<Event>, t: State)
    decreases |es|
  {
    if es == [] then t == s else Enabled(s, n, es[0]) && Run(Next(s, n, es[0]), n, es[1..], t)
  }

  lemma {:induction false} RunKeeps(s: State, n: nat, es: seq<Event>, t: State)
    requires Inv(s, n) && Run(s, n, es, t)
    ensures Inv(t, n)
    decreases |es|
  {
    if es != [] {
      StepKeeps(s, n, es[0]);
      RunKeeps(Next(s, n, es[0]), n, es[1..], t);
    }
  }

  /** In every state of every run at most one process is between acquiresleep and releasesleep, and the lock's fields
      say which. */
  lemma MutualExclusion(s: State, n: nat, es: seq<Event>, t: State, p: nat, q: nat)
    requires Init(s, n) && Run(s, n, es, t) && p < n && q < n
    ensures Sized(t, n) && (HasLock(t.pc[p]) && HasLock(t.pc[q]) ==> p == q && t.locked && t.pid == Pid(p))
  {
    InitInv(s, n);
    RunKeeps(s, n, es, t);
    assert InvAt(t, n, p) && InvAt(t, n, q);
  }

  /** No wakeup is lost: whenever the inner lock is free and the sleep-lock is not taken, nobody sleeps on it. */
  lemma NoLostWakeup(s: State, n: nat, es: seq<Event>, t: State, p: nat)
    requires Init(s, n) && Run(s, n, es, t) && p < n && t.inner == Free && !t.locked
    ensures Sized(t, n) && !(t.state[p] == Sleeping && t.chan[p] == This)
  {
    InitInv(s, n);
    RunKeeps(s, n, es, t);
    assert InvAt(t, n, p);
  }

  /** What holdingsleep computes under the inner lock is whether the caller has the sleep-lock. */
  lemma HoldingSleep(s: State, n: nat, es: seq<Event>, t: State, p: nat)
    requires Init(s, n) && Run(s, n, es, t) && p < n
    ensures Sized(t, n) && ((t.locked && t.pid == Pid(p)) <==> HasLock(t.pc[p]))
  {
    InitInv(s, n);
    RunKeeps(s, n, es, t);
    assert InvAt(t, n, p);
  }

  /** The event puts process i to sleep. */
  ghost predicate Dozes(s: State, n: nat, e: Event, i: nat)
    requires Sized(s, n) && i < n
  {
    e == SleepOn(i) || (e == Sleep(i) && s.pc[i] == SleepSet)
  }

  /** A run in which process i does not go to sleep. */
  ghost predicate RunAwake(s: State, n: nat, es: seq<Event>, t: State, i: nat)
    requires Sized(s, n) && i < n
    decreases |es|
  {
    if es == [] then t == s
    else
      && Enabled(s, n, es[0]) && !Dozes(s, n, es[0], i) && Sized(Next(s, n, es[0]), n)
      && RunAwake(Next(s, n, es[0]), n, es[1..], t, i)
  }

  lemma LockStepAwake(s: State, n: nat, e: Event, i: nat)
    requires Sized(s, n) && i < n && Enabled(s, n, e) && !Dozes(s, n, e, i) && s.state[i] != Sleeping
    requires e.Acquire? || e.Sleep? || e.Return? || e.Release?
    ensures Sized(Next(s, n, e), n) && Next(s, n, e).state[i] != Sleeping
  {
  }

  lemma WakeStepAwake(s: State, n: nat, e: Event, i: nat)
    requires Sized(s, n) && i < n && Enabled(s, n, e) && s.state[i] != Sleeping
    requires e.Wakeup? || e.WakeOne? || e.KillLock? || e.KillOne?
    ensures Sized(Next(s, n, e), n) && Next(s, n, e).state[i] != Sleeping
  {
  }

  lemma StepAwake(s: State, n: nat, e: Event, i: nat)
    requires Sized(s, n) && i < n && Enabled(s, n, e) && !Dozes(s, n, e, i) && s.state[i] != Sleeping
    ensures Sized(Next(s, n, e), n) && Next(s, n, e).state[i] != Sleeping
  {
    if e.Acquire? || e.Sleep? || e.Return? || e.Release? {
      LockStepAwake(s, n, e, i);
    } else if e.Wakeup? || e.WakeOne? || e.KillLock? || e.KillOne? {
      WakeStepAwake(s, n, e, i);
    }
  }

  lemma {:induction false} RunStaysAwake(s: State, n: nat, es: seq<Event>, t: State, i: nat)
    requires Sized(s, n) && i < n && RunAwake(s, n, es, t, i) && s.state[i] != Sleeping
    ensures Sized(t, n) && t.state[i] != Sleeping
    decreases |es|
  {
    if es != [] {
      StepAwake(s, n, es[0], i);
      RunStaysAwake(Next(s, n, es[0]), n, es[1..], t, i);
    }
  }

  /** Whatever its victim was sleeping on, from kill's second step on it is awake until it goes to sleep again. */
  lemma KillWakes(s: State, n: nat, p: nat, es: seq<Event>, t: State, i: nat)
    requires CanKillOne(s, n, p) && s.pc[p].KillTest? && s.pc[p].i == i
    requires Sized(DoKillOne(s, n, p), n) && RunAwake(DoKillOne(s, n, p), n, es, t, i)
    ensures Sized(t, n) && t.state[i] != Sleeping
  {
    RunStaysAwake(DoKillOne(s, n, p), n, es, t, i);
  }
}
