/** Whose child a process is: fork, exit and wait seen from a record of the forks that have returned. */
module ExitWaitForks {
  import opened ExitWait
  import opened ExitWaitRuns

  /** forker is the pid of the process that called fork, slot the place of the child. */
  datatype Fork = Fork(forker: nat, slot: nat)
  type Record = map<nat, Fork>

  /** A fork that returns is recorded under the pid it returns. */
  ghost function Entered(s: State, n: nat, e: Event, f: Record): Record
    requires Enabled(s, n, e)
  {
    if e.ForkEvent? && e.fork.StartStep? then
      var i := s.procs[e.p].pc.i;
      f[s.procs[i].pid := Fork(s.procs[e.p].pid, i)]
    else f
  }

  /** A run from s to t in which the record grows from f to g. */
  ghost predicate Forks(s: State, n: nat, es: seq<Event>, f: Record, t: State, g: Record)
    decreases |es|
  {
    if es == [] then t == s && g == f
    else Enabled(s, n, es[0]) && Forks(Next(s, n, es[0]), n, es[1..], Entered(s, n, es[0], f), t, g)
  }

  // ---- the invariant ----

  predicate InTable(st: ProcState) { st != Unused && st != Used }

  /** exit has begun to give its children away. */
  predicate Departing(pc: Pc) { pc.Reparent? || pc.ReWake? || pc.ExWake? || pc.ExitLock? || pc.ExitSet? }

  ghost predicate Left(s: State, n: nat, pid: nat)
    requires Sized(s, n)
  {
    pid in s.exited
    || (s.wait.By? && s.wait.p < n && s.procs[s.wait.p].pid == pid && Departing(s.procs[s.wait.p].pc))
  }

  /** Slot q is that of process pid, or of initproc if that has left. */
  ghost predicate Origin(s: State, n: nat, q: nat, pid: nat)
    requires Sized(s, n)
  {
    q < n && (s.procs[q].pid == pid || (q == 0 && Left(s, n, pid)))
  }

  /** The process in slot x was forked, by the process that its parent pointer names. */
  ghost predicate Recorded(s: State, n: nat, f: Record, x: nat)
    requires Sized(s, n) && x < n
  {
    var r := s.procs[x];
    InTable(r.state) && x != 0 ==>
      r.pid in f && f[r.pid].slot == x && r.parent.By? && Origin(s, n, r.parent.p, f[r.pid].forker)
  }

  /** A forked process that has not been reaped is in its slot. */
  ghost predicate Present(s: State, n: nat, f: Record, k: nat)
    requires Sized(s, n) && k in f
  {
    k !in s.reaped ==> 0 < f[k].slot < n && InTable(s.procs[f[k].slot].state) && s.procs[f[k].slot].pid == k
  }

  /** fork has made x the parent of the slot it is about to start. */
  ghost predicate Starting(s: State, n: nat, x: nat)
    requires Sized(s, n) && x < n
  {
    s.procs[x].pc.ForkStart? ==> s.procs[x].pc.i < n && s.procs[s.procs[x].pc.i].parent == By(x)
  }

  ghost predicate Ledger(s: State, n: nat, f: Record) {
    && Inv(s, n) && (forall x: nat | x < n :: Recorded(s, n, f, x) && Starting(s, n, x))
    && (forall k: nat | k in f :: Present(s, n, f, k))
  }

  // ---- steps ----

  /** The steps that enter a process into the table, take one out or change whose child it is. */
  predicate Moves(e: Event) {
    match e
    case ForkEvent(_, d) => d.StartStep?
    case ExitEvent(_, d) => d.PassOnStep?
    case WaitEvent(_, d) => d.ReapStep?
    case SchedEvent(_, _) => false
  }

  predicate Alike(a: Proc, b: Proc) {
    (InTable(a.state) <==> InTable(b.state)) && (InTable(a.state) ==> b.pid == a.pid && b.parent == a.parent)
  }

  lemma ForkAlike(s: State, n: nat, p: nat, d: ForkStep, x: nat)
    requires CanForkStep(s, n, p, d) && Near(s, n, p, TouchedFork(s, n, p, d), x) && !d.StartStep?
    ensures Sized(DoForkStep(s, n, p, d), n) && Alike(s.procs[x], DoForkStep(s, n, p, d).procs[x])
  {
  }

  lemma ExitAlike(s: State, n: nat, p: nat, d: ExitStep, x: nat)
    requires CanExitStep(s, n, p, d) && Near(s, n, p, TouchedExit(s, n, p, d), x) && !d.PassOnStep?
    ensures Sized(DoExitStep(s, n, p, d), n) && Alike(s.procs[x], DoExitStep(s, n, p, d).procs[x])
  {
  }

  lemma WaitAlike(s: State, n: nat, p: nat, d: WaitStep, x: nat)
    requires CanWaitStep(s, n, p, d) && Near(s, n, p, TouchedWait(s, n, p, d), x) && !d.ReapStep?
    ensures Sized(DoWaitStep(s, n, p, d), n) && Alike(s.procs[x], DoWaitStep(s, n, p, d).procs[x])
  {
  }

  lemma SchedAlike(s: State, n: nat, p: nat, d: SchedStep, x: nat)
    requires CanSchedStep(s, n, p, d) && Near(s, n, p, p, x)
    ensures Sized(DoSchedStep(s, n, p, d), n) && Alike(s.procs[x], DoSchedStep(s, n, p, d).procs[x])
  {
  }

  lemma EventAlike(s: State, n: nat, e: Event, x: nat)
    requires Enabled(s, n, e) && Near(s, n, e.p, Touched(s, n, e), x) && !Moves(e)
    ensures Sized(Next(s, n, e), n) && Alike(s.procs[x], Next(s, n, e).procs[x])
  {
    match e
    case ForkEvent(p, d) => ForkAlike(s, n, p, d, x);
    case ExitEvent(p, d) => ExitAlike(s, n, p, d, x);
    case WaitEvent(p, d) => WaitAlike(s, n, p, d, x);
    case SchedEvent(p, d) => SchedAlike(s, n, p, d, x);
  }

  ghost predicate Holder(s: State, n: nat, p: nat, i: nat) {
    Shared(s, n) && p < n && i < n && At(s, n, p) && At(s, n, i) && (s.wait.By? ==> At(s, n, s.wait.p))
  }

  lemma ForkLeaves(s: State, n: nat, p: nat, d: ForkStep, pid: nat)
    requires CanForkStep(s, n, p, d) && Holder(s, n, p, TouchedFork(s, n, p, d))
    ensures var t := DoForkStep(s, n, p, d); Sized(t, n) && (Left(s, n, pid) ==> Left(t, n, pid))
  {
  }

  lemma ExitLeaves(s: State, n: nat, p: nat, d: ExitStep, pid: nat)
    requires CanExitStep(s, n, p, d) && Holder(s, n, p, TouchedExit(s, n, p, d))
    ensures var t := DoExitStep(s, n, p, d); Sized(t, n) && (Left(s, n, pid) ==> Left(t, n, pid))
  {
  }

  lemma WaitLeaves(s: State, n: nat, p: nat, d: WaitStep, pid: nat)
    requires CanWaitStep(s, n, p, d) && Holder(s, n, p, TouchedWait(s, n, p, d))
    ensures var t := DoWaitStep(s, n, p, d); Sized(t, n) && (Left(s, n, pid) ==> Left(t, n, pid))
  {
  }

  lemma SchedLeaves(s: State, n: nat, p: nat, d: SchedStep, pid: nat)
    requires CanSchedStep(s, n, p, d) && Holder(s, n, p, p)
    ensures var t := DoSchedStep(s, n, p, d); Sized(t, n) && (Left(s, n, pid) ==> Left(t, n, pid))
  {
  }

  lemma EventLeaves(s: State, n: nat, e: Event, pid: nat)
    requires Enabled(s, n, e) && Holder(s, n, e.p, Touched(s, n, e))
    ensures var t := Next(s, n, e); Sized(t, n) && (Left(s, n, pid) ==> Left(t, n, pid))
  {
    match e
    case ForkEvent(p, d) => ForkLeaves(s, n, p, d, pid);
    case ExitEvent(p, d) => ExitLeaves(s, n, p, d, pid);
    case WaitEvent(p, d) => WaitLeaves(s, n, p, d, pid);
    case SchedEvent(p, d) => SchedLeaves(s, n, p, d, pid);
  }

  ghost predicate Begins(s: State, n: nat, p: nat, i: nat, x: nat) {
    && Near(s, n, p, i, x) && Starting(s, n, x) && (Making(s.procs[x].pc).By? ==> At(s, n, Making(s.procs[x].pc).p))
  }

  lemma ForkStarts(s: State, n: nat, p: nat, d: ForkStep, x: nat)
    requires CanForkStep(s, n, p, d) && Begins(s, n, p, TouchedFork(s, n, p, d), x)
    ensures var t := DoForkStep(s, n, p, d); Sized(t, n) && Starting(t, n, x)
  {
  }

  lemma ExitStarts(s: State, n: nat, p: nat, d: ExitStep, x: nat)
    requires CanExitStep(s, n, p, d) && Begins(s, n, p, TouchedExit(s, n, p, d), x)
    ensures var t := DoExitStep(s, n, p, d); Sized(t, n) && Starting(t, n, x)
  {
  }

  lemma WaitStarts(s: State, n: nat, p: nat, d: WaitStep, x: nat)
    requires CanWaitStep(s, n, p, d) && Begins(s, n, p, TouchedWait(s, n, p, d), x)
    ensures var t := DoWaitStep(s, n, p, d); Sized(t, n) && Starting(t, n, x)
  {
  }

  lemma SchedStarts(s: State, n: nat, p: nat, d: SchedStep, x: nat)
    requires CanSchedStep(s, n, p, d) && Begins(s, n, p, p, x)
    ensures var t := DoSchedStep(s, n, p, d); Sized(t, n) && Starting(t, n, x)
  {
  }

  lemma EventStarts(s: State, n: nat, e: Event, x: nat)
    requires Enabled(s, n, e) && Begins(s, n, e.p, Touched(s, n, e), x)
    ensures var t := Next(s, n, e); Sized(t, n) && Starting(t, n, x)
  {
    match e
    case ForkEvent(p, d) => ForkStarts(s, n, p, d, x);
    case ExitEvent(p, d) => ExitStarts(s, n, p, d, x);
    case WaitEvent(p, d) => WaitStarts(s, n, p, d, x);
    case SchedEvent(p, d) => SchedStarts(s, n, p, d, x);
  }

  /** What the invariant says of slots x and y, beside the process that takes the step. */
  lemma Close(s: State, n: nat, e: Event, x: nat)
    requires Inv(s, n) && Enabled(s, n, e) && x < n
    ensures e.p < n && Touched(s, n, e) < n && Near(s, n, e.p, Touched(s, n, e), x)
    ensures Holder(s, n, e.p, Touched(s, n, e))
  {
    TouchedIn(s, n, e);
    FactsHold(s, n, e.p, Touched(s, n, e), x, x);
  }

  lemma QuietRecorded(s: State, n: nat, e: Event, f: Record, x: nat)
    requires Inv(s, n) && Enabled(s, n, e) && !Moves(e) && x < n && Recorded(s, n, f, x)
    ensures Sized(Next(s, n, e), n) && Recorded(Next(s, n, e), n, f, x)
  {
    Close(s, n, e, x);
    EventAlike(s, n, e, x);
    var r := s.procs[x];
    if InTable(r.state) && x != 0 {
      var q := r.parent.p;
      Close(s, n, e, q);
      EventAlike(s, n, e, q);
      EventLeaves(s, n, e, f[r.pid].forker);
    }
  }

  lemma QuietPresent(s: State, n: nat, e: Event, f: Record, k: nat)
    requires Inv(s, n) && Enabled(s, n, e) && !Moves(e) && k in f && Present(s, n, f, k)
    ensures Sized(Next(s, n, e), n) && Present(Next(s, n, e), n, f, k)
  {
    TouchedIn(s, n, e);
    Books(s, n, e);
    if k !in s.reaped {
      Close(s, n, e, f[k].slot);
      EventAlike(s, n, e, f[k].slot);
    } else {
      Close(s, n, e, 0);
      EventAlike(s, n, e, 0);
    }
  }

  // ---- fork returns ----

  lemma StartRecorded(s: State, n: nat, p: nat, f: Record, i: nat, x: nat)
    requires CanStart(s, n, p) && i == s.procs[p].pc.i && Near(s, n, p, i, x) && Pair(s, n, x, i) && Starting(s, n, p)
    requires Recorded(s, n, f, x)
    requires s.procs[x].parent.By? && s.procs[x].parent.p < n ==> At(s, n, s.procs[x].parent.p)
    ensures var g := f[s.procs[i].pid := Fork(s.procs[p].pid, i)];
            Sized(Start(s, n, p), n) && Recorded(Start(s, n, p), n, g, x)
  {
    var t := Start(s, n, p);
    assert forall y: nat | y < n :: t.procs[y].pid == s.procs[y].pid && t.procs[y].parent == s.procs[y].parent;
    assert t.wait == s.wait && t.exited == s.exited;
    assert s.wait.By? && s.wait.p < n && Departing(s.procs[s.wait.p].pc) ==> s.wait.p != p;
  }

  lemma StartPresent(s: State, n: nat, p: nat, f: Record, i: nat, k: nat)
    requires CanStart(s, n, p) && i == s.procs[p].pc.i && Shared(s, n) && At(s, n, p) && At(s, n, i)
    requires var g := f[s.procs[i].pid := Fork(s.procs[p].pid, i)]; k in g && (k in f ==> Present(s, n, f, k))
    ensures var g := f[s.procs[i].pid := Fork(s.procs[p].pid, i)];
            Sized(Start(s, n, p), n) && Present(Start(s, n, p), n, g, k)
  {
    var t := Start(s, n, p);
    assert forall y: nat | y < n :: t.procs[y].pid == s.procs[y].pid;
    assert t.reaped == s.reaped;
  }

  // ---- reparent ----

  lemma PassOnRecorded(s: State, n: nat, p: nat, f: Record, x: nat)
    requires CanPassOn(s, n, p) && Shared(s, n) && x < n && At(s, n, p) && At(s, n, x) && Recorded(s, n, f, x)
    ensures Sized(PassOn(s, n, p), n) && Recorded(PassOn(s, n, p), n, f, x)
  {
    var t := PassOn(s, n, p);
    assert forall y: nat | y < n :: t.procs[y].pid == s.procs[y].pid && t.procs[y].state == s.procs[y].state;
    assert t.procs[x].parent == if x == s.procs[p].pc.i then By(0) else s.procs[x].parent;
    assert forall y: nat | y < n && y != p :: t.procs[y].pc == s.procs[y].pc;
    assert s.wait == By(p) && t.wait == By(p) && Departing(t.procs[p].pc);
  }

  lemma PassOnPresent(s: State, n: nat, p: nat, f: Record, k: nat)
    requires CanPassOn(s, n, p) && k in f && Present(s, n, f, k)
    ensures Sized(PassOn(s, n, p), n) && Present(PassOn(s, n, p), n, f, k)
  {
  }

  // ---- wait reaps ----

  lemma ReapRecorded(s: State, n: nat, p: nat, f: Record, x: nat)
    requires CanReap(s, n, p) && Shared(s, n) && x < n && At(s, n, p) && At(s, n, x) && Recorded(s, n, f, x)
    ensures Sized(Reap(s, n, p), n) && Recorded(Reap(s, n, p), n, f, x)
  {
    var i, t := s.procs[p].pc.i, Reap(s, n, p);
    assert forall y: nat | y < n && y != i && y != p :: t.procs[y] == s.procs[y];
    assert s.wait == By(p) && !Departing(s.procs[p].pc);
    assert s.procs[x].parent.By? ==> s.procs[x].parent.p != i;
  }

  lemma ReapPresent(s: State, n: nat, p: nat, f: Record, k: nat)
    requires CanReap(s, n, p) && k in f && Present(s, n, f, k)
    ensures Sized(Reap(s, n, p), n) && Present(Reap(s, n, p), n, f, k)
  {
  }

  // ---- every run ----

  lemma StepRecorded(s: State, n: nat, e: Event, f: Record, x: nat)
    requires Ledger(s, n, f) && Enabled(s, n, e) && x < n
    ensures Sized(Next(s, n, e), n) && Recorded(Next(s, n, e), n, Entered(s, n, e, f), x)
  {
    Close(s, n, e, x);
    if !Moves(e) {
      QuietRecorded(s, n, e, f, x);
    } else if e.ForkEvent? {
      if s.procs[x].parent.By? && s.procs[x].parent.p < n { Close(s, n, e, s.procs[x].parent.p); }
      StartRecorded(s, n, e.p, f, s.procs[e.p].pc.i, x);
    } else if e.ExitEvent? {
      PassOnRecorded(s, n, e.p, f, x);
    } else {
      ReapRecorded(s, n, e.p, f, x);
    }
  }

  lemma StepPresent(s: State, n: nat, e: Event, f: Record, k: nat)
    requires Ledger(s, n, f) && Enabled(s, n, e) && k in Entered(s, n, e, f)
    ensures Sized(Next(s, n, e), n) && Present(Next(s, n, e), n, Entered(s, n, e, f), k)
  {
    Close(s, n, e, 0);
    if !Moves(e) {
      QuietPresent(s, n, e, f, k);
    } else if e.ForkEvent? {
      StartPresent(s, n, e.p, f, s.procs[e.p].pc.i, k);
    } else if e.ExitEvent? {
      PassOnPresent(s, n, e.p, f, k);
    } else {
      ReapPresent(s, n, e.p, f, k);
    }
  }

  lemma StepStarting(s: State, n: nat, e: Event, f: Record, x: nat)
    requires Ledger(s, n, f) && Enabled(s, n, e) && x < n
    ensures Sized(Next(s, n, e), n) && Starting(Next(s, n, e), n, x)
  {
    Close(s, n, e, x);
    if Making(s.procs[x].pc).By? { Close(s, n, e, Making(s.procs[x].pc).p); }
    EventStarts(s, n, e, x);
  }

  /** Every step keeps the record right. */
  lemma StepLedger(s: State, n: nat, e: Event, f: Record)
    requires Ledger(s, n, f) && Enabled(s, n, e)
    ensures Ledger(Next(s, n, e), n, Entered(s, n, e, f))
  {
    StepKeeps(s, n, e);
    var t, g := Next(s, n, e), Entered(s, n, e, f);
    forall x: nat | x < n ensures Recorded(t, n, g, x) && Starting(t, n, x) {
      StepRecorded(s, n, e, f, x);
      StepStarting(s, n, e, f, x);
    }
    forall k: nat | k in g ensures Present(t, n, g, k) {
      StepPresent(s, n, e, f, k);
    }
  }

  lemma {:induction false} RunLedger(s: State, n: nat, es: seq<Event>, f: Record, t: State, g: Record)
    requires Ledger(s, n, f) && Forks(s, n, es, f, t, g)
    ensures Ledger(t, n, g)
    decreases |es|
  {
    if es != [] {
      StepLedger(s, n, es[0], f);
      RunLedger(Next(s, n, es[0]), n, es[1..], Entered(s, n, es[0], f), t, g);
    }
  }

  lemma Traced(s: State, n: nat, es: seq<Event>, t: State, f: Record)
    requires Init(s, n) && Forks(s, n, es, map[], t, f)
    ensures Ledger(t, n, f)
  {
    InitInv(s, n);
    RunLedger(s, n, es, map[], t, f);
  }

  // ---- what every run guarantees ----

  /** Whenever wait_lock is free, a process that fork has returned and wait has not is in the table, a child of the
      process that forked it until that exits, and of initproc from then on. */
  lemma WhoseChild(s: State, n: nat, es: seq<Event>, t: State, f: Record, k: nat)
    requires Init(s, n) && Forks(s, n, es, map[], t, f) && t.wait == Free && k in f && k !in t.reaped
    ensures Sized(t, n) && f[k].slot < n
    ensures var r := t.procs[f[k].slot];
            && r.pid == k && (Alive(r.state) || r.state == Zombie) && r.parent.By? && r.parent.p < n
            && Alive(t.procs[r.parent.p].state)
            && if f[k].forker in t.exited then r.parent.p == 0 else t.procs[r.parent.p].pid == f[k].forker
  {
    Traced(s, n, es, t, f);
    assert Present(t, n, f, k);
    var x := f[k].slot;
    assert At(t, n, x) && Recorded(t, n, f, x);
    assert At(t, n, t.procs[x].parent.p);
  }

  /** The process is the caller's to wait for. */
  ghost predicate Owes(t: State, f: Record, p: nat, k: nat)
    requires p < |t.procs|
  {
    k in f && (f[k].forker == t.procs[p].pid || (p == 0 && f[k].forker in t.exited))
  }

  /** While a process is alive and is not giving its children away, those it owes a wait are its children. */
  lemma StillMine(t: State, n: nat, f: Record, p: nat, k: nat)
    requires Ledger(t, n, f) && p < n && Alive(t.procs[p].state) && Owes(t, f, p, k) && k !in t.reaped
    requires t.wait == Free || (t.wait == By(p) && !Departing(t.procs[p].pc))
    ensures f[k].slot < n && t.procs[f[k].slot].parent == By(p)
  {
    assert Present(t, n, f, k);
    var x := f[k].slot;
    assert Recorded(t, n, f, x) && At(t, n, x) && At(t, n, p);
    var q := t.procs[x].parent.p;
    assert At(t, n, q) && Pair(t, n, p, q);
  }

  lemma SeesChild(t: State, n: nat, p: nat, x: nat)
    requires Inv(t, n) && p < n && x < n && t.procs[p].pc.Scan? && t.procs[p].pc.i >= n && t.procs[x].parent == By(p)
    ensures t.procs[p].pc.kids
  {
    assert Pair(t, n, p, x);
  }

  /** A wait that ends its scan without having seen a child has reaped all it forked, or others have; for initproc that
      includes the children of processes that have exited. */
  lemma NoneLeft(s: State, n: nat, es: seq<Event>, t: State, f: Record, p: nat, k: nat)
    requires Init(s, n) && Forks(s, n, es, map[], t, f) && CanMoveWait(t, n, p) && t.procs[p].pc.i >= n
    requires !t.procs[p].pc.kids && Owes(t, f, p, k)
    ensures k in t.reaped
  {
    Traced(s, n, es, t, f);
    assert At(t, n, p);
    if k !in t.reaped {
      StillMine(t, n, f, p, k);
      SeesChild(t, n, p, f[k].slot);
    }
  }

  /** What wait returns is a process that its caller forked, or for initproc one whose forker has exited. */
  lemma ReapsOwn(s: State, n: nat, es: seq<Event>, t: State, f: Record, p: nat)
    requires Init(s, n) && Forks(s, n, es, map[], t, f) && CanReap(t, n, p)
    ensures Owes(t, f, p, t.procs[t.procs[p].pc.i].pid)
  {
    Traced(s, n, es, t, f);
    var x := t.procs[p].pc.i;
    assert Recorded(t, n, f, x) && At(t, n, x) && At(t, n, p);
  }

  /** Whenever wait_lock is free, nobody is asleep in wait while a process of theirs has exited and is not reaped. */
  lemma ExitHeard(s: State, n: nat, es: seq<Event>, t: State, f: Record, p: nat, k: nat)
    requires Init(s, n) && Forks(s, n, es, map[], t, f) && t.wait == Free && p < n && Sized(t, n)
    requires Alive(t.procs[p].state) && Owes(t, f, p, k) && k in t.exited && k !in t.reaped
    ensures !(t.procs[p].state == Sleeping && t.procs[p].chan == Self)
  {
    Traced(s, n, es, t, f);
    StillMine(t, n, f, p, k);
    var x := f[k].slot;
    assert Present(t, n, f, k) && Kept(t, n, k) && At(t, n, x) && Heard(t, n, p, x);
    assert At(t, n, t.exited[k].0) && Pair(t, n, x, t.exited[k].0);
  }

  // ---- the status ----

  /** What each process has passed to exit. */
  type Statuses = map<nat, int>

  ghost function Called(s: State, n: nat, e: Event, f: Statuses): Statuses
    requires Enabled(s, n, e)
  {
    if e.SchedEvent? && e.sched.CallStep? && e.sched.pc == ExitWait then f[s.procs[e.p].pid := e.sched.arg] else f
  }

  ghost predicate Calls(s: State, n: nat, es: seq<Event>, f: Statuses, t: State, g: Statuses)
    decreases |es|
  {
    if es == [] then t == s && g == f
    else Enabled(s, n, es[0]) && Calls(Next(s, n, es[0]), n, es[1..], Called(s, n, es[0], f), t, g)
  }

  /** A process that exits still has the status it was given, and a zombie has it for its parent. */
  ghost predicate Tells(r: Proc, f: Statuses) {
    && (Exiting(r.pc) && r.state != Zombie ==> r.pid in f && r.arg == f[r.pid])
    && (r.state == Zombie ==> r.pid in f && r.xstate == f[r.pid])
  }

  lemma ForkTells(s: State, n: nat, p: nat, d: ForkStep, f: Statuses, x: nat)
    requires CanForkStep(s, n, p, d) && Near(s, n, p, TouchedFork(s, n, p, d), x) && Tells(s.procs[x], f)
    ensures var t := DoForkStep(s, n, p, d); Sized(t, n) && Tells(t.procs[x], f)
  {
  }

  lemma ExitTells(s: State, n: nat, p: nat, d: ExitStep, f: Statuses, x: nat)
    requires CanExitStep(s, n, p, d) && Near(s, n, p, TouchedExit(s, n, p, d), x) && Tells(s.procs[x], f)
    ensures var t := DoExitStep(s, n, p, d); Sized(t, n) && Tells(t.procs[x], f)
  {
  }

  lemma ReapTells(s: State, n: nat, p: nat, f: Statuses, x: nat)
    requires CanReap(s, n, p) && x < n && Tells(s.procs[x], f)
    ensures Sized(Reap(s, n, p), n) && Tells(Reap(s, n, p).procs[x], f)
  {
    assert x != p && x != s.procs[p].pc.i ==> Reap(s, n, p).procs[x] == s.procs[x];
  }

  lemma WaitSelf(s: State, n: nat, p: nat, d: WaitStep)
    requires CanWaitStep(s, n, p, d) && StateAt(s, n, p) && !d.ReapStep?
    ensures var t := DoWaitStep(s, n, p, d); Sized(t, n) && !Exiting(t.procs[p].pc) && t.procs[p].state != Zombie
  {
  }

  lemma WaitOther(s: State, n: nat, p: nat, d: WaitStep, x: nat)
    requires CanWaitStep(s, n, p, d) && x < n && x != p && !d.ReapStep?
    ensures var t := DoWaitStep(s, n, p, d); Sized(t, n) && t.procs[x] == s.procs[x]
  {
  }

  lemma WaitTells(s: State, n: nat, p: nat, d: WaitStep, f: Statuses, x: nat)
    requires CanWaitStep(s, n, p, d) && Near(s, n, p, TouchedWait(s, n, p, d), x) && Tells(s.procs[x], f)
    ensures var t := DoWaitStep(s, n, p, d); Sized(t, n) && Tells(t.procs[x], f)
  {
    if d.ReapStep? {
      ReapTells(s, n, p, f, x);
    } else if x == p {
      WaitSelf(s, n, p, d);
    } else {
      WaitOther(s, n, p, d, x);
    }
  }

  lemma SchedTells(s: State, n: nat, p: nat, d: SchedStep, f: Statuses, x: nat)
    requires CanSchedStep(s, n, p, d) && Near(s, n, p, p, x) && Tells(s.procs[x], f)
    ensures var t, g := DoSchedStep(s, n, p, d), Called(s, n, SchedEvent(p, d), f); Sized(t, n) && Tells(t.procs[x], g)
  {
  }

  lemma EventTells(s: State, n: nat, e: Event, f: Statuses, x: nat)
    requires Enabled(s, n, e) && Near(s, n, e.p, Touched(s, n, e), x) && Tells(s.procs[x], f)
    ensures var t := Next(s, n, e); Sized(t, n) && Tells(t.procs[x], Called(s, n, e, f))
  {
    match e
    case ForkEvent(p, d) => ForkTells(s, n, p, d, f, x);
    case ExitEvent(p, d) => ExitTells(s, n, p, d, f, x);
    case WaitEvent(p, d) => WaitTells(s, n, p, d, f, x);
    case SchedEvent(p, d) => SchedTells(s, n, p, d, f, x);
  }

  lemma {:induction false} RunTells(s: State, n: nat, es: seq<Event>, f: Statuses, t: State, g: Statuses)
    requires Inv(s, n) && (forall x: nat | x < n :: Tells(s.procs[x], f)) && Calls(s, n, es, f, t, g)
    ensures Inv(t, n) && forall x: nat | x < n :: Tells(t.procs[x], g)
    decreases |es|
  {
    if es != [] {
      StepKeeps(s, n, es[0]);
      var u, h := Next(s, n, es[0]), Called(s, n, es[0], f);
      forall x: nat | x < n ensures Tells(u.procs[x], h) {
        Close(s, n, es[0], x);
        EventTells(s, n, es[0], f, x);
      }
      RunTells(u, n, es[1..], h, t, g);
    }
  }

  /** The status that a successful wait hands over is the one its child passed to exit. */
  lemma StatusReturned(s: State, n: nat, es: seq<Event>, t: State, f: Statuses, p: nat)
    requires Init(s, n) && Calls(s, n, es, map[], t, f) && CanReap(t, n, p)
    ensures var r := t.procs[t.procs[p].pc.i]; r.pid in f && r.xstate == f[r.pid]
  {
    InitInv(s, n);
    RunTells(s, n, es, map[], t, f);
    assert Tells(t.procs[t.procs[p].pc.i], f);
  }

  // ---- no slot is lost ----

  /** A slot taken by allocproc is that of a fork in progress. */
  ghost predicate InMaking(s: State, n: nat, x: nat)
    requires Sized(s, n) && x < n
  {
    s.procs[x].state == Used ==>
      var q := s.procs[x].maker; q.By? && q.p < n && Making(s.procs[q.p].pc) == By(x)
  }

  ghost predicate Makes(s: State, n: nat, p: nat, i: nat, x: nat) {
    && Near(s, n, p, i, x) && InMaking(s, n, x)
    && (s.procs[x].maker.By? && s.procs[x].maker.p < n ==> At(s, n, s.procs[x].maker.p))
  }

  lemma ForkMakes(s: State, n: nat, p: nat, d: ForkStep, x: nat)
    requires CanForkStep(s, n, p, d) && Makes(s, n, p, TouchedFork(s, n, p, d), x)
    ensures var t := DoForkStep(s, n, p, d); Sized(t, n) && InMaking(t, n, x)
  {
  }

  lemma ExitMakesOther(s: State, n: nat, p: nat, d: ExitStep, x: nat)
    requires CanExitStep(s, n, p, d) && Makes(s, n, p, TouchedExit(s, n, p, d), x)
    requires d.PassOnStep? || d.WakeInitStep? || d.WakeParentStep?
    ensures var t := DoExitStep(s, n, p, d); Sized(t, n) && InMaking(t, n, x)
  {
  }

  lemma ExitMakes(s: State, n: nat, p: nat, d: ExitStep, x: nat)
    requires CanExitStep(s, n, p, d) && Makes(s, n, p, TouchedExit(s, n, p, d), x)
    ensures var t := DoExitStep(s, n, p, d); Sized(t, n) && InMaking(t, n, x)
  {
    if d.PassOnStep? || d.WakeInitStep? || d.WakeParentStep? { ExitMakesOther(s, n, p, d, x); }
  }

  lemma WaitMakes(s: State, n: nat, p: nat, d: WaitStep, x: nat)
    requires CanWaitStep(s, n, p, d) && Makes(s, n, p, TouchedWait(s, n, p, d), x)
    ensures var t := DoWaitStep(s, n, p, d); Sized(t, n) && InMaking(t, n, x)
  {
  }

  lemma SchedMakes(s: State, n: nat, p: nat, d: SchedStep, x: nat)
    requires CanSchedStep(s, n, p, d) && Makes(s, n, p, p, x)
    ensures var t := DoSchedStep(s, n, p, d); Sized(t, n) && InMaking(t, n, x)
  {
  }

  lemma EventMakes(s: State, n: nat, e: Event, x: nat)
    requires Enabled(s, n, e) && Makes(s, n, e.p, Touched(s, n, e), x)
    ensures var t := Next(s, n, e); Sized(t, n) && InMaking(t, n, x)
  {
    match e
    case ForkEvent(p, d) => ForkMakes(s, n, p, d, x);
    case ExitEvent(p, d) => ExitMakes(s, n, p, d, x);
    case WaitEvent(p, d) => WaitMakes(s, n, p, d, x);
    case SchedEvent(p, d) => SchedMakes(s, n, p, d, x);
  }

  lemma {:induction false} RunMakes(s: State, n: nat, es: seq<Event>, t: State)
    requires Inv(s, n) && (forall x: nat | x < n :: InMaking(s, n, x)) && Runs(s, n, es, t)
    ensures Inv(t, n) && forall x: nat | x < n :: InMaking(t, n, x)
    decreases |es|
  {
    if es != [] {
      StepKeeps(s, n, es[0]);
      var u := Next(s, n, es[0]);
      forall x: nat | x < n ensures InMaking(u, n, x) {
        Close(s, n, es[0], x);
        if s.procs[x].maker.By? && s.procs[x].maker.p < n { Close(s, n, es[0], s.procs[x].maker.p); }
        EventMakes(s, n, es[0], x);
      }
      RunMakes(u, n, es[1..], t);
    }
  }

  lemma {:induction false} ForksRun(s: State, n: nat, es: seq<Event>, f: Record, t: State, g: Record)
    requires Forks(s, n, es, f, t, g)
    ensures Runs(s, n, es, t)
    decreases |es|
  {
    if es != [] { ForksRun(Next(s, n, es[0]), n, es[1..], Entered(s, n, es[0], f), t, g); }
  }

  /** Every slot of the table is free, or that of a fork in progress, or that of initproc, or that of a process which
      fork has returned and wait has not. */
  lemma SlotsAccounted(s: State, n: nat, es: seq<Event>, t: State, f: Record, x: nat)
    requires Init(s, n) && Forks(s, n, es, map[], t, f) && 0 < x < n
    ensures Sized(t, n)
    ensures var r := t.procs[x];
            || r.state == Unused
            || (r.maker.By? && r.maker.p < n && Making(t.procs[r.maker.p].pc) == By(x))
            || (r.pid in f && f[r.pid].slot == x && r.pid !in t.reaped)
  {
    Traced(s, n, es, t, f);
    ForksRun(s, n, es, map[], t, f);
    InitInv(s, n);
    RunMakes(s, n, es, t);
    assert InMaking(t, n, x) && Recorded(t, n, f, x) && At(t, n, x);
    assert t.procs[x].pid in t.exited ==> Kept(t, n, t.procs[x].pid);
  }
}
