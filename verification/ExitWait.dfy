/** fork, exit, wait, sleep, wakeup, kill and the scheduler of kernel/proc.c: every interleaving of their steps, for
    any number of process slots. Slot 0 is initproc. A critical section that touches only what its lock protects is one
    step, enabled while the lock is free; locks that are held across other steps are in the state. */
module ExitWait {
  datatype Holder = Free | By(p: nat)
  datatype ProcState = Unused | Used | Sleeping | Runnable | Running | Zombie
  datatype Chan = Null | Self | Elsewhere      // Self: the process waits for a child

  datatype Pc =
    | Run                                                            // anywhere else
    | ForkScan(i: nat) | ForkCopy(i: nat)                            // allocproc; uvmcopy with np->lock held
    | ForkWait(i: nat) | ForkStart(i: nat)                           // np->parent = p; np->state = RUNNABLE
    | ExitWait | Reparent(i: nat) | ReWake(i: nat, j: nat)     // acquire(&wait_lock); reparent and its wakeup(initproc)
    | ExWake(j: nat)                                                 // wakeup(p->parent)
    | ExitLock | ExitSet | ExitRelease | ExitSwitch | Gone      // acquire(&p->lock); ZOMBIE; release(&wait_lock); sched
    | WaitLock | Scan(i: nat, kids: bool) | WaitRelease              // wait
    | SleepLockP | SleepRelease | SleepSet | SleepSwitch  // sleep: acquire(&p->lock); release(&wait_lock); state; sched
    | SleepAway | SleepTidy | SleepUnlock                            // switched away; chan = 0; release(&p->lock)

  /** struct proc. arg is the status a process passes to exit, maker the process whose fork is filling the slot. */
  datatype Proc = Proc(lock: Holder, state: ProcState, chan: Chan, parent: Holder, pid: nat, xstate: int, arg: int,
      oncpu: bool, pc: Pc, maker: Holder)

  /** exited gives slot and status of each process that has exited, reaped the pids that wait has returned. */
  datatype State = State(wait: Holder, procs: seq<Proc>, nextpid: nat, exited: map<nat, (nat, int)>, reaped: set<nat>)

  ghost predicate Sized(s: State, n: nat) { |s.procs| == n }

  function With(s: State, p: nat, r: Proc): State
    requires p < |s.procs|
  {
    s.(procs := s.procs[p := r])
  }

  function Goto(s: State, p: nat, pc: Pc): State
    requires p < |s.procs|
  {
    With(s, p, s.procs[p].(pc := pc))
  }

  ghost predicate OnCpu(s: State, n: nat, p: nat) { Sized(s, n) && p < n && s.procs[p].oncpu }

  /** freeproc. */
  function Cleared(r: Proc): Proc {
    r.(state := Unused, parent := Free, pid := 0, chan := Null, xstate := 0, pc := Run, maker := Free, lock := Free)
  }

  // ---- fork ----

  /** allocproc passes a slot in use, or the end of the table. */
  ghost predicate CanMoveFork(s: State, n: nat, p: nat) {
    && OnCpu(s, n, p) && s.procs[p].pc.ForkScan?
    && var i := s.procs[p].pc.i;
       i < n ==> s.procs[i].lock == Free && s.procs[i].state != Unused
  }

  ghost function MoveFork(s: State, n: nat, p: nat): State
    requires CanMoveFork(s, n, p)
  {
    Goto(s, p, if s.procs[p].pc.i < n then ForkScan(s.procs[p].pc.i + 1) else Run)
  }

  ghost predicate CanAlloc(s: State, n: nat, p: nat) {
    && OnCpu(s, n, p) && s.procs[p].pc.ForkScan? && s.procs[p].pc.i < n
    && s.procs[s.procs[p].pc.i].lock == Free && s.procs[s.procs[p].pc.i].state == Unused
  }

  /** allocproc takes a slot, which stays locked. */
  ghost function Alloc(s: State, n: nat, p: nat): State
    requires CanAlloc(s, n, p)
  {
    var i := s.procs[p].pc.i;
    Goto(With(s, i, s.procs[i].(state := Used, pid := s.nextpid, maker := By(p), lock := By(p))), p,
        ForkCopy(i)).(nextpid := s.nextpid + 1)
  }

  ghost predicate CanCopy(s: State, n: nat, p: nat) { OnCpu(s, n, p) && s.procs[p].pc.ForkCopy? && s.procs[p].pc.i < n }

  /** uvmcopy and the allocations before it succeeded. */
  ghost function Copy(s: State, n: nat, p: nat): State
    requires CanCopy(s, n, p)
  {
    Goto(With(s, s.procs[p].pc.i, s.procs[s.procs[p].pc.i].(lock := Free)), p, ForkWait(s.procs[p].pc.i))
  }

  /** One of them failed. */
  ghost function Discard(s: State, n: nat, p: nat): State
    requires CanCopy(s, n, p)
  {
    Goto(With(s, s.procs[p].pc.i, Cleared(s.procs[s.procs[p].pc.i])), p, Run)
  }

  ghost predicate CanAdopt(s: State, n: nat, p: nat) {
    OnCpu(s, n, p) && s.procs[p].pc.ForkWait? && s.procs[p].pc.i < n && s.wait == Free
  }

  ghost function Adopt(s: State, n: nat, p: nat): State
    requires CanAdopt(s, n, p)
  {
    var i := s.procs[p].pc.i;
    Goto(With(s, i, s.procs[i].(parent := By(p))), p, ForkStart(i))
  }

  ghost predicate CanStart(s: State, n: nat, p: nat) {
    OnCpu(s, n, p) && s.procs[p].pc.ForkStart? && s.procs[p].pc.i < n && s.procs[s.procs[p].pc.i].lock == Free
  }

  ghost function Start(s: State, n: nat, p: nat): State
    requires CanStart(s, n, p)
  {
    var i := s.procs[p].pc.i;
    Goto(With(s, i, s.procs[i].(state := Runnable, maker := Free)), p, Run)
  }

  // ---- exit ----

  ghost predicate CanLockWait(s: State, n: nat, p: nat) {
    OnCpu(s, n, p) && (s.procs[p].pc == ExitWait || s.procs[p].pc == WaitLock) && s.wait == Free
  }

  ghost function LockWait(s: State, n: nat, p: nat): State
    requires CanLockWait(s, n, p)
  {
    Goto(s, p, if s.procs[p].pc == ExitWait then Reparent(0) else Scan(0, false)).(wait := By(p))
  }

  /** reparent passes a slot that is not a child; either wakeup passes a slot that does not sleep on its channel, or the
      caller itself; loops end. */
  ghost predicate CanMoveExit(s: State, n: nat, p: nat) {
    && OnCpu(s, n, p) && match s.procs[p].pc
       case Reparent(i) => i < n ==> s.procs[i].parent != By(p)
       case ReWake(_, j) => j < n && j != p ==> j != 0 && s.procs[j].lock == Free
       case ExWake(j) => j < n && j != p ==> s.procs[p].parent != By(j) && s.procs[j].lock == Free
       case _ => false
  }

  ghost function MoveExit(s: State, n: nat, p: nat): State
    requires CanMoveExit(s, n, p)
  {
    Goto(s, p, match s.procs[p].pc
               case Reparent(i) => if i < n then Reparent(i + 1) else ExWake(0)
               case ReWake(i, j) => if j < n then ReWake(i, j + 1) else Reparent(i + 1)
               case ExWake(j) => if j < n then ExWake(j + 1) else ExitLock
               case _ => Run)
  }

  ghost predicate CanPassOn(s: State, n: nat, p: nat) {
    OnCpu(s, n, p) && s.procs[p].pc.Reparent? && s.procs[p].pc.i < n && s.procs[s.procs[p].pc.i].parent == By(p)
  }

  ghost function PassOn(s: State, n: nat, p: nat): State
    requires CanPassOn(s, n, p)
  {
    var i := s.procs[p].pc.i;
    Goto(With(s, i, s.procs[i].(parent := By(0))), p, ReWake(i, 0))
  }

  /** wakeup on one slot that may sleep in wait. */
  function Woken(r: Proc): Proc { if r.state == Sleeping && r.chan == Self then r.(state := Runnable) else r }

  ghost predicate CanWakeInit(s: State, n: nat, p: nat) {
    OnCpu(s, n, p) && s.procs[p].pc.ReWake? && s.procs[p].pc.j == 0 < n && p != 0 && s.procs[0].lock == Free
  }

  /** wakeup(initproc) comes to initproc. */
  ghost function WakeInit(s: State, n: nat, p: nat): State
    requires CanWakeInit(s, n, p)
  {
    Goto(With(s, 0, Woken(s.procs[0])), p, ReWake(s.procs[p].pc.i, 1))
  }

  ghost predicate CanWakeParent(s: State, n: nat, p: nat) {
    && OnCpu(s, n, p) && s.procs[p].pc.ExWake? && s.procs[p].pc.j < n && s.procs[p].pc.j != p
    && s.procs[p].parent == By(s.procs[p].pc.j) && s.procs[s.procs[p].pc.j].lock == Free
  }

  /** wakeup(p->parent) comes to the parent. */
  ghost function WakeParent(s: State, n: nat, p: nat): State
    requires CanWakeParent(s, n, p)
  {
    var j := s.procs[p].pc.j;
    Goto(With(s, j, Woken(s.procs[j])), p, ExWake(j + 1))
  }

  ghost predicate CanLockOwn(s: State, n: nat, p: nat) {
    OnCpu(s, n, p) && (s.procs[p].pc == ExitLock || s.procs[p].pc == SleepLockP) && s.procs[p].lock == Free
  }

  ghost function LockOwn(s: State, n: nat, p: nat): State
    requires CanLockOwn(s, n, p)
  {
    With(s, p, s.procs[p].(lock := By(p), pc := if s.procs[p].pc == ExitLock then ExitSet else SleepRelease))
  }

  ghost predicate CanDie(s: State, n: nat, p: nat) { OnCpu(s, n, p) && s.procs[p].pc == ExitSet }

  ghost function Die(s: State, n: nat, p: nat): State
    requires CanDie(s, n, p)
  {
    var r := s.procs[p];
    With(s, p, r.(pc := ExitRelease, state := Zombie, xstate := r.arg)).(exited := s.exited[r.pid := (p, r.arg)])
  }

  ghost predicate CanUnlockWait(s: State, n: nat, p: nat) {
    OnCpu(s, n, p) && (s.procs[p].pc == ExitRelease || s.procs[p].pc == WaitRelease || s.procs[p].pc == SleepRelease)
  }

  ghost function UnlockWait(s: State, n: nat, p: nat): State
    requires CanUnlockWait(s, n, p)
  {
    Goto(s, p, if s.procs[p].pc == ExitRelease then ExitSwitch else if s.procs[p].pc == SleepRelease then SleepSet
        else Run).(wait := Free)
  }

  // ---- wait ----

  /** wait passes a slot that is not a child or not a zombie, or ends its scan. killed: the caller has been killed. */
  ghost predicate CanMoveWait(s: State, n: nat, p: nat) {
    && OnCpu(s, n, p) && s.procs[p].pc.Scan?
    && var i := s.procs[p].pc.i;
       i < n && s.procs[i].parent == By(p) ==> s.procs[i].lock == Free && s.procs[i].state != Zombie
  }

  ghost function MoveWait(s: State, n: nat, p: nat, killed: bool): State
    requires CanMoveWait(s, n, p)
  {
    var i, kids := s.procs[p].pc.i, s.procs[p].pc.kids;
    Goto(s, p, if i < n then Scan(i + 1, kids || s.procs[i].parent == By(p)) else if kids && !killed then SleepLockP
        else WaitRelease)
  }

  ghost predicate CanReap(s: State, n: nat, p: nat) {
    && OnCpu(s, n, p) && s.procs[p].pc.Scan? && s.procs[p].pc.i < n
    && var r := s.procs[s.procs[p].pc.i];
       r.parent == By(p) && r.lock == Free && r.state == Zombie
  }

  /** wait finds a zombie child and can copy its status out. */
  ghost function Reap(s: State, n: nat, p: nat): State
    requires CanReap(s, n, p)
  {
    var i := s.procs[p].pc.i;
    Goto(With(s, i, Cleared(s.procs[i])), p, WaitRelease).(reaped := s.reaped + {s.procs[i].pid})
  }

  /** It cannot: wait returns -1 and the child stays a zombie. */
  ghost function GiveUp(s: State, n: nat, p: nat): State
    requires CanReap(s, n, p)
  {
    Goto(s, p, WaitRelease)
  }

  ghost predicate CanSleep(s: State, n: nat, p: nat) { OnCpu(s, n, p) && s.procs[p].pc == SleepSet }

  ghost function Sleep(s: State, n: nat, p: nat): State
    requires CanSleep(s, n, p)
  {
    With(s, p, s.procs[p].(pc := SleepSwitch, chan := Self, state := Sleeping))
  }

  ghost predicate CanTidy(s: State, n: nat, p: nat) { OnCpu(s, n, p) && s.procs[p].pc == SleepTidy }

  ghost function Tidy(s: State, n: nat, p: nat): State
    requires CanTidy(s, n, p)
  {
    With(s, p, s.procs[p].(pc := SleepUnlock, chan := Null))
  }

  ghost predicate CanUnlockOwn(s: State, n: nat, p: nat) { OnCpu(s, n, p) && s.procs[p].pc == SleepUnlock }

  ghost function UnlockOwn(s: State, n: nat, p: nat): State
    requires CanUnlockOwn(s, n, p)
  {
    With(s, p, s.procs[p].(pc := WaitLock, lock := Free))
  }

  // ---- scheduling, other sleeps, and kill ----

  ghost predicate CanSwitch(s: State, n: nat, p: nat) {
    OnCpu(s, n, p) && (s.procs[p].pc == SleepSwitch || s.procs[p].pc == ExitSwitch)
  }

  ghost function Switch(s: State, n: nat, p: nat): State
    requires CanSwitch(s, n, p)
  {
    With(s, p, s.procs[p].(pc := if s.procs[p].pc == SleepSwitch then SleepAway else Gone, oncpu := false))
  }

  ghost predicate CanSchedRelease(s: State, n: nat, p: nat) {
    Sized(s, n) && p < n && (s.procs[p].pc == SleepAway || s.procs[p].pc == Gone) && s.procs[p].lock == By(p)
  }

  /** The scheduler, back from swtch, releases p->lock. */
  ghost function SchedRelease(s: State, n: nat, p: nat): State
    requires CanSchedRelease(s, n, p)
  {
    With(s, p, s.procs[p].(lock := Free))
  }

  ghost predicate CanDispatch(s: State, n: nat, p: nat) {
    Sized(s, n) && p < n && s.procs[p].lock == Free && s.procs[p].state == Runnable && !s.procs[p].oncpu
  }

  /** A process that left in sleep comes back with its lock held; the others let go of theirs at once. */
  ghost function Dispatch(s: State, n: nat, p: nat): State
    requires CanDispatch(s, n, p)
  {
    var r := s.procs[p].(state := Running, oncpu := true);
    With(s, p, if r.pc == SleepAway then r.(pc := SleepTidy, lock := By(p)) else r.(chan := Null))
  }

  /** yield, or sleep on another channel, where p holds no lock. */
  ghost predicate CanPause(s: State, n: nat, p: nat, asleep: bool) {
    && OnCpu(s, n, p) && s.procs[p].lock == Free
    && (s.procs[p].pc == Run
       || (!asleep && (s.procs[p].pc.ForkScan? || s.procs[p].pc.ForkWait? || s.procs[p].pc.ForkStart?
          || s.procs[p].pc.ExitWait? || s.procs[p].pc.WaitLock?)))
  }

  ghost function Pause(s: State, n: nat, p: nat, asleep: bool): State
    requires CanPause(s, n, p, asleep)
  {
    var r := s.procs[p].(oncpu := false);
    With(s, p, if asleep then r.(state := Sleeping, chan := Elsewhere) else r.(state := Runnable))
  }

  /** wakeup on another channel, or kill, which wakes its victim wherever that sleeps. */
  ghost predicate CanRouse(s: State, n: nat, p: nat) {
    Sized(s, n) && p < n && s.procs[p].lock == Free && s.procs[p].state == Sleeping
  }

  ghost function Rouse(s: State, n: nat, p: nat): State
    requires CanRouse(s, n, p)
  {
    With(s, p, s.procs[p].(state := Runnable))
  }

  /** A process enters fork, exit or wait. */
  ghost predicate CanCall(s: State, n: nat, p: nat, pc: Pc) {
    OnCpu(s, n, p) && s.procs[p].pc == Run && (pc == ForkScan(0) || (pc == ExitWait && p != 0) || pc == WaitLock)
  }

  ghost function Call(s: State, n: nat, p: nat, pc: Pc, arg: int): State
    requires CanCall(s, n, p, pc)
  {
    With(s, p, s.procs[p].(pc := pc, arg := arg))
  }
}
