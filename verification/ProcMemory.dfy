/** The memory of processes over their whole lives (kernel/proc.c: allocproc, freeproc, growproc, fork): each process
    has a trapframe page and an address space, and every page in use belongs to one of them. */
module ProcMemory {
  import opened Folding
  import opened Kalloc
  import opened VmModel
  import opened VmSteps
  import opened Rights
  import opened Vm

  datatype Proc = Proc(root: nat, sz: nat, frame: nat)

  const MAXPAGES: nat := 0x8_8000      // PHYSTOP / PGSIZE
  const INT_MAX: int := 0x7fff_ffff
  const INT_MIN: int := -0x8000_0000
  const TWO64: int := 0x1_0000_0000_0000_0000

  // ---- the processes of a space ----

  ghost predicate Alive(v: Space, c: Proc) {
    && c.root in v.roots && Up(c.sz) <= TRAPFRAME && ProcLike(View(v, c.root), Up(c.sz))
    && c.frame in v.owner && v.owner[c.frame].Other? && Permitted(View(v, c.root), Up(c.sz), c.frame)
  }

  ghost predicate HasRoot(procs: map<nat, Proc>, r: nat) { exists i: nat :: i in procs && procs[i].root == r }
  ghost predicate HasFrame(procs: map<nat, Proc>, p: nat) { exists i: nat :: i in procs && procs[i].frame == p }

  /** All address spaces and all pages the kernel holds are those of processes, and no two processes share one. */
  ghost predicate Covers(roots: set<nat>, owner: map<nat, Slot>, procs: map<nat, Proc>) {
    && (forall i: nat, j: nat | i in procs && j in procs && i != j ::
          procs[i].root != procs[j].root && procs[i].frame != procs[j].frame)
    && (forall r: nat | r in roots :: HasRoot(procs, r))
    && (forall p: nat | p in owner && owner[p].Other? :: HasFrame(procs, p))
  }

  ghost predicate AllAlive(v: Space, procs: map<nat, Proc>) { forall i: nat | i in procs :: Alive(v, procs[i]) }

  ghost predicate Procs(v: Space, procs: map<nat, Proc>) {
    forall k: nat {:trigger Open(k)} :: Open(k) ==> Covers(v.roots, v.owner, procs) && AllAlive(v, procs)
  }

  /** Outside address space r, w has the roots, the kernel pages and the views of u. */
  ghost predicate Beside(u: Space, w: Space, r: nat) {
    && (forall p: nat :: (p in w.owner && w.owner[p].Other?) <==> (p in u.owner && u.owner[p].Other?))
    && (forall x: nat | x in u.roots && x != r :: x in w.roots && View(w, x) == View(u, x))
  }

  lemma SameOthers(u: map<nat, Slot>, w: map<nat, Slot>, r: nat, p: nat)
    requires Pruned(w, r) == Pruned(u, r)
    ensures (p in w && w[p].Other?) <==> (p in u && u[p].Other?)
  {
    assert p in u && u[p].Other? <==> p in Pruned(u, r) && Pruned(u, r)[p].Other?;
    assert p in w && w[p].Other? <==> p in Pruned(w, r) && Pruned(w, r)[p].Other?;
  }

  lemma RestBeside(u: Space, w: Space, r: nat)
    requires Rest(u, w, r, {})
    ensures Beside(u, w, r) && w.roots == u.roots && |w.pages| == |u.pages|
  {
    assert Pruned(u.owner, r) - {} == Pruned(u.owner, r);
    forall p: nat ensures (p in w.owner && w.owner[p].Other?) <==> (p in u.owner && u.owner[p].Other?) {
      SameOthers(u.owner, w.owner, r, p);
    }
  }

  lemma StillAlive(u: Space, w: Space, r: nat, c: Proc)
    requires Beside(u, w, r) && Alive(u, c) && c.root != r
    ensures Alive(w, c)
  {
    assert c.frame in w.owner && w.owner[c.frame].Other?;
  }

  lemma ResizedCovers(u: map<nat, Slot>, w: map<nat, Slot>, roots: set<nat>, procs: map<nat, Proc>, i: nat, c: Proc,
      next: map<nat, Proc>)
    requires Covers(roots, u, procs) && i in procs && next == procs[i := c] && c == procs[i].(sz := c.sz)
    requires forall p: nat :: (p in w && w[p].Other?) <==> (p in u && u[p].Other?)
    ensures Covers(roots, w, next)
  {
    forall x: nat | x in roots ensures HasRoot(next, x) {
      assert HasRoot(procs, x);
      var j: nat :| j in procs && procs[j].root == x;
      assert j in next && next[j].root == x;
    }
    forall p: nat | p in w && w[p].Other? ensures HasFrame(next, p) {
      assert HasFrame(procs, p);
      var j: nat :| j in procs && procs[j].frame == p;
      assert j in next && next[j].frame == p;
    }
  }

  lemma OthersAlive(u: Space, w: Space, procs: map<nat, Proc>, i: nat, c: Proc)
    requires AllAlive(u, procs) && Beside(u, w, c.root) && Alive(w, c)
    requires forall j: nat | j in procs && j != i :: procs[j].root != c.root
    ensures AllAlive(w, procs[i := c])
  {
    forall j: nat | j in procs && j != i ensures Alive(w, procs[j]) {
      StillAlive(u, w, c.root, procs[j]);
    }
  }

  /** One address space has changed, and is still that of its process. */
  lemma Resized(u: Space, w: Space, procs: map<nat, Proc>, i: nat, c: Proc, next: map<nat, Proc>)
    requires Procs(u, procs) && i in procs && Beside(u, w, c.root) && w.roots == u.roots && next == procs[i := c]
    requires c == procs[i].(sz := c.sz) && Alive(w, c)
    ensures Procs(w, next)
  {
    assert Open(0);
    ResizedCovers(u.owner, w.owner, u.roots, procs, i, c, next);
    OthersAlive(u, w, procs, i, c);
  }

  lemma StartedCovers(roots: set<nat>, u: map<nat, Slot>, w: map<nat, Slot>, procs: map<nat, Proc>, i: nat, c: Proc)
    requires Covers(roots, u, procs) && i !in procs && c.root !in roots && !(c.frame in u && u[c.frame].Other?)
    requires forall j: nat | j in procs :: procs[j].root in roots && procs[j].frame in u && u[procs[j].frame].Other?
    requires forall p: nat :: (p in w && w[p].Other?) <==> (p in u && u[p].Other?) || p == c.frame
    ensures Covers(roots + {c.root}, w, procs[i := c])
  {
    var next := procs[i := c];
    forall x: nat | x in roots + {c.root} ensures HasRoot(next, x) {
      if x in roots {
        assert HasRoot(procs, x);
        var j: nat :| j in procs && procs[j].root == x;
        assert j in next && next[j].root == x;
      } else {
        assert i in next && next[i].root == x;
      }
    }
    forall p: nat | p in w && w[p].Other? ensures HasFrame(next, p) {
      if p == c.frame {
        assert i in next && next[i].frame == p;
      } else {
        assert HasFrame(procs, p);
        var j: nat :| j in procs && procs[j].frame == p;
        assert j in next && next[j].frame == p;
      }
    }
  }

  /** A process has been added. */
  lemma Started(u: Space, w: Space, procs: map<nat, Proc>, i: nat, c: Proc)
    requires Procs(u, procs) && i !in procs && c.root !in u.roots && w.roots == u.roots + {c.root} && Alive(w, c)
    requires !(c.frame in u.owner && u.owner[c.frame].Other?)
    requires forall p: nat ::
             (p in w.owner && w.owner[p].Other?) <==> (p in u.owner && u.owner[p].Other?) || p == c.frame
    requires forall x: nat | x in u.roots :: View(w, x) == View(u, x)
    ensures Procs(w, procs[i := c])
  {
    assert Open(0);
    forall j: nat | j in procs ensures Alive(w, procs[j]) {
      AliveHas(u, procs[j]);
      Carried(u, w, procs[j]);
    }
    forall j: nat | j in procs
      ensures procs[j].root in u.roots && procs[j].frame in u.owner && u.owner[procs[j].frame].Other?
    {
      AliveHas(u, procs[j]);
    }
    StartedCovers(u.roots, u.owner, w.owner, procs, i, c);
  }

  lemma AliveHas(v: Space, c: Proc)
    requires Alive(v, c)
    ensures c.root in v.roots && c.frame in v.owner && v.owner[c.frame].Other?
  {
  }

  lemma Carried(u: Space, w: Space, c: Proc)
    requires Alive(u, c) && c.root in w.roots && View(w, c.root) == View(u, c.root) && c.frame in w.owner
             && w.owner[c.frame].Other?
    ensures Alive(w, c)
  {
  }

  lemma EndedCovers(roots: set<nat>, u: map<nat, Slot>, w: map<nat, Slot>, procs: map<nat, Proc>, i: nat)
    requires Covers(roots, u, procs) && i in procs
    requires forall p: nat :: (p in w && w[p].Other?) <==> (p in u && u[p].Other?) && p != procs[i].frame
    ensures Covers(roots - {procs[i].root}, w, procs - {i})
  {
    var next := procs - {i};
    forall x: nat | x in roots - {procs[i].root} ensures HasRoot(next, x) {
      assert HasRoot(procs, x);
      var j: nat :| j in procs && procs[j].root == x;
      assert j in next && next[j].root == x;
    }
    forall p: nat | p in w && w[p].Other? ensures HasFrame(next, p) {
      assert HasFrame(procs, p);
      var j: nat :| j in procs && procs[j].frame == p;
      assert j in next && next[j].frame == p;
    }
  }

  /** A process has been freed. */
  lemma Ended(u: Space, w: Space, procs: map<nat, Proc>, i: nat)
    requires Procs(u, procs) && i in procs && w.roots == u.roots - {procs[i].root}
    requires forall p: nat ::
             (p in w.owner && w.owner[p].Other?) <==> (p in u.owner && u.owner[p].Other?) && p != procs[i].frame
    requires forall x: nat | x in w.roots :: View(w, x) == View(u, x)
    ensures Procs(w, procs - {i})
  {
    assert Open(0);
    EndedCovers(u.roots, u.owner, w.owner, procs, i);
    forall j: nat | j in procs && j != i ensures Alive(w, procs[j]) {
      assert procs[j].root != procs[i].root && procs[j].frame != procs[i].frame;
      StaysAlive(u, w, procs[i], procs[j]);
    }
  }

  lemma StaysAlive(u: Space, w: Space, c: Proc, d: Proc)
    requires Alive(u, d) && d.root != c.root && d.frame != c.frame && w.roots == u.roots - {c.root}
    requires forall p: nat ::
             (p in w.owner && w.owner[p].Other?) <==> (p in u.owner && u.owner[p].Other?) && p != c.frame
    requires forall x: nat | x in w.roots :: View(w, x) == View(u, x)
    ensures Alive(w, d)
  {
    AliveHas(u, d);
    Carried(u, w, d);
  }

  /** Nothing the processes have has changed. */
  lemma Untouched(u: Space, w: Space, procs: map<nat, Proc>)
    requires Procs(u, procs) && w.roots == u.roots
    requires forall p: nat :: (p in w.owner && w.owner[p].Other?) <==> (p in u.owner && u.owner[p].Other?)
    requires forall x: nat | x in u.roots :: View(w, x) == View(u, x)
    ensures Procs(w, procs)
  {
    assert Open(0);
    forall j: nat | j in procs ensures Alive(w, procs[j]) {
      AliveHas(u, procs[j]);
      Carried(u, w, procs[j]);
    }
  }

  // ---- the view of a process ----

  lemma FreshLike(trampoline: nat, trapframe: nat)
    ensures ProcLike(ProcView(trampoline, trapframe), 0)
  {
    PagePteFields(trampoline, PTE_R + PTE_X);
    PagePteFields(trapframe, PTE_R + PTE_W);
  }

  lemma GrownLike(view0: map<nat, Mapped>, view: map<nat, Mapped>, src: Source, n: nat, m: nat)
    requires ProcLike(view0, n) && Filling(view0, view, src, n, m) && Leaves(src, n, m) && n <= m
    ensures ProcLike(view, m)
  {
    FillingLeaves(view0, view, src, n, m, m - n);
    forall k: nat | k < m ensures IsLeaf(view, k) {
      assert k < n ==> IsLeaf(view0, k);
    }
  }

  lemma ShrunkLike(view: map<nat, Mapped>, n: nat, m: nat, k: nat)
    requires ProcLike(view, n) && m <= n <= TRAPFRAME && k == n - m
    ensures AllLeaves(view, m, k) && ProcLike(CutView(view, m, k), m)
  {
    var cut := CutView(view, m, k);
    CutViewAt(view, m, k, TRAMPOLINE);
    CutViewAt(view, m, k, TRAPFRAME);
    forall j: nat | j < m ensures IsLeaf(cut, j) {
      assert IsLeaf(view, j);
      CutViewAt(view, m, k, j);
    }
    forall j: nat | j in cut ensures j < m || j == TRAMPOLINE || j == TRAPFRAME {
      CutViewAt(view, m, k, j);
    }
  }

  lemma FreeAbove(view: map<nat, Mapped>, n: nat, m: nat)
    requires ProcLike(view, n) && m <= TRAPFRAME
    ensures Unmapped(view, n, m)
  {
  }

  // ---- a process is never larger than memory ----

  lemma {:induction false} Few(s: set<nat>, n: nat)
    requires forall x: nat | x in s :: x < n
    ensures |s| <= n
  {
    if n > 0 { Few(s - {n - 1}, n - 1); }
  }

  ghost predicate PageOf(v: Space, r: nat, k: nat, p: nat) { k in View(v, r) && Child(View(v, r)[k].pte) == p }

  /** The first k pages of the address space are k different pages. */
  lemma {:induction false} DistinctPages(v: Space, r: nat, n: nat, k: nat) returns (s: set<nat>)
    requires Own(v) && r in v.roots && k <= n <= TRAPFRAME && AllLeaves(View(v, r), 0, n)
    ensures |s| == k && forall p: nat | p in s :: p < |v.pages| && exists i: nat :: i < k && PageOf(v, r, i, p)
  {
    s := {};
    if k > 0 {
      s := DistinctPages(v, r, n, k - 1);
      var i: nat := k - 1;
      assert IsLeaf(View(v, r), i);
      MappedPage(v, r, i);
      var p := Child(View(v, r)[i].pte);
      if p in s {
        var j: nat :| j < i && PageOf(v, r, j, p);
        NoSharing(v, r, i, r, j);
      }
      assert PageOf(v, r, i, p);
      s := s + {p};
    }
  }

  lemma Bounded(v: Space, c: Proc)
    requires Own(v) && Alive(v, c)
    ensures Up(c.sz) <= |v.pages|
  {
    var s := DistinctPages(v, c.root, Up(c.sz), Up(c.sz));
    Few(s, |v.pages|);
  }

  // ---- what each operation keeps ----

  /** growproc's new size, in 64-bit arithmetic; uvmdealloc ignores one that is not smaller. */
  function NewSize(sz: nat, n: int): nat { if sz + n >= 0 then sz + n else sz }

  /** sz + n as a uint64, for a negative n. */
  function Minus(sz: nat, n: int): (r: nat)
    requires sz <= TRAPFRAME * PGSIZE && INT_MIN <= n < 0
    ensures (if r < sz then r else sz) == NewSize(sz, n)
  {
    if sz + n >= 0 then sz + n else sz + n + TWO64
  }

  /** Process c has zero pages up to sz; nothing else has changed. */
  ghost predicate Grown(u: Space, w: Space, c: Proc, sz: nat) {
    forall k: nat {:trigger Open(k)} :: Open(k) ==>
      Rest(u, w, c.root, {}) && Filling(View(u, c.root), View(w, c.root), Zero(UserFlags(PTE_W)), Up(c.sz), Up(sz))
  }

  /** The pages of process c above sz are gone; nothing else has changed. */
  ghost predicate CutTo(u: Space, w: Space, r: nat, a: nat, b: nat) {
    a <= b && CutMap(View(u, r), View(w, r), a, b) && forall k: nat {:trigger Open(k)} :: Open(k) ==> Rest(u, w, r, {})
  }

  ghost predicate CutMap(view: map<nat, Mapped>, next: map<nat, Mapped>, a: nat, b: nat) {
    a <= b && forall k: nat {:trigger Open(k)} :: Open(k) ==> next == CutView(view, a, b - a)
  }

  ghost predicate Shrunk(u: Space, w: Space, c: Proc, sz: nat) { CutTo(u, w, c.root, Up(sz), Up(c.sz)) }

  ghost predicate Same(u: Space, w: Space, r: nat) {
    forall k: nat {:trigger Open(k)} :: Open(k) ==> Rest(u, w, r, {}) && View(w, r) == View(u, r)
  }

  ghost predicate CanGrow(u: Space, c: Proc, newsz: nat) {
    forall k: nat {:trigger Open(k)} :: Open(k) ==>
      c.root in u.roots && c.sz < newsz <= TRAPFRAME * PGSIZE && Unmapped(View(u, c.root), Up(c.sz), Up(newsz))
  }

  lemma GrowBefore(u: Space, procs: map<nat, Proc>, i: nat, n: nat, newsz: nat)
    requires Own(u) && Procs(u, procs) && i in procs && |u.pages| <= MAXPAGES && n <= INT_MAX
             && newsz == procs[i].sz + n
    ensures newsz > procs[i].sz ==> CanGrow(u, procs[i], newsz)
  {
    assert Open(0);
    var c := procs[i];
    assert Alive(u, c);
    Bounded(u, c);
    FreeAbove(View(u, c.root), Up(c.sz), Up(newsz));
  }

  lemma GrowAfter(u: Space, w: Space, procs: map<nat, Proc>, i: nat, sz: nat)
    requires Procs(u, procs) && i in procs && procs[i].sz <= sz && CanGrow(u, procs[i], sz) && Grown(u, w, procs[i], sz)
    ensures Procs(w, procs[i := procs[i].(sz := sz)])
  {
    assert Open(0);
    var c, src := procs[i].(sz := sz), Zero(UserFlags(PTE_W));
    assert Alive(u, procs[i]);
    RestBeside(u, w, c.root);
    UpMonotone(procs[i].sz, sz);
    GrownLike(View(u, c.root), View(w, c.root), src, Up(procs[i].sz), Up(sz));
    GrownPermitted(View(u, c.root), View(w, c.root), Up(procs[i].sz), Up(sz), c.frame);
    AliveHas(u, procs[i]);
    assert Alive(w, c);
    Resized(u, w, procs, i, c, procs[i := c]);
  }

  lemma SameAfter(u: Space, w: Space, procs: map<nat, Proc>, r: nat)
    requires Procs(u, procs) && Same(u, w, r)
    ensures Procs(w, procs)
  {
    assert Open(0);
    RestBeside(u, w, r);
    Untouched(u, w, procs);
  }

  ghost predicate CanShrink(u: Space, c: Proc, newsz: nat) {
    forall k: nat {:trigger Open(k)} :: Open(k) ==>
      && c.root in u.roots && Up(c.sz) <= TRAPFRAME
      && (newsz < c.sz ==> AllLeaves(View(u, c.root), Up(newsz), Up(c.sz) - Up(newsz)))
  }

  lemma ShrinkBefore(u: Space, procs: map<nat, Proc>, i: nat, newsz: nat)
    requires Procs(u, procs) && i in procs
    ensures CanShrink(u, procs[i], newsz)
  {
    assert Open(0);
    assert Alive(u, procs[i]);
    if newsz < procs[i].sz {
      UpMonotone(newsz, procs[i].sz);
      ShrunkLike(View(u, procs[i].root), Up(procs[i].sz), Up(newsz), Up(procs[i].sz) - Up(newsz));
    }
  }

  lemma CutLike(view: map<nat, Mapped>, next: map<nat, Mapped>, a: nat, b: nat)
    requires ProcLike(view, b) && b <= TRAPFRAME && CutMap(view, next, a, b)
    ensures ProcLike(next, a)
  {
    assert Open(0);
    ShrunkLike(view, b, a, b - a);
  }

  lemma CutMapAt(view: map<nat, Mapped>, next: map<nat, Mapped>, a: nat, b: nat, k: nat)
    requires CutMap(view, next, a, b)
    ensures k in next <==> k in view && !(a <= k < b)
    ensures k in next ==> next[k] == view[k]
  {
    assert Open(0);
    CutViewAt(view, a, b - a, k);
  }

  lemma CutPermitted(view: map<nat, Mapped>, next: map<nat, Mapped>, a: nat, b: nat, frame: nat)
    requires Permitted(view, b, frame) && b <= TRAPFRAME && CutMap(view, next, a, b)
    ensures Permitted(next, a, frame)
  {
    CutMapAt(view, next, a, b, TRAMPOLINE);
    CutMapAt(view, next, a, b, TRAPFRAME);
    forall k: nat | k in next && k < a ensures UserPage(next[k].pte) {
      CutMapAt(view, next, a, b, k);
    }
  }

  lemma CutBeside(u: Space, w: Space, r: nat, a: nat, b: nat)
    requires CutTo(u, w, r, a, b)
    ensures Beside(u, w, r) && w.roots == u.roots
  {
    assert Open(0);
    RestBeside(u, w, r);
  }

  lemma ShrunkFacts(u: Space, w: Space, c: Proc, sz: nat)
    requires Alive(u, c) && Shrunk(u, w, c, sz)
    ensures Alive(w, c.(sz := sz)) && Beside(u, w, c.root) && w.roots == u.roots
  {
    CutLike(View(u, c.root), View(w, c.root), Up(sz), Up(c.sz));
    CutPermitted(View(u, c.root), View(w, c.root), Up(sz), Up(c.sz), c.frame);
    CutBeside(u, w, c.root, Up(sz), Up(c.sz));
    AliveHas(u, c);
  }

  lemma ProcAlive(u: Space, procs: map<nat, Proc>, i: nat)
    requires Procs(u, procs) && i in procs
    ensures Alive(u, procs[i])
  {
    assert Open(0);
  }

  lemma ShrinkAfter(u: Space, w: Space, procs: map<nat, Proc>, i: nat, sz: nat)
    requires Procs(u, procs) && i in procs && Shrunk(u, w, procs[i], sz)
    ensures Procs(w, procs[i := procs[i].(sz := sz)])
  {
    var c := procs[i].(sz := sz);
    ProcAlive(u, procs, i);
    ShrunkFacts(u, w, procs[i], sz);
    Resized(u, w, procs, i, c, procs[i := c]);
  }

  /** A size is far from 64 bits. */
  lemma SizeBelow(u: Space, procs: map<nat, Proc>, i: nat)
    requires Procs(u, procs) && i in procs
    ensures procs[i].sz <= TRAPFRAME * PGSIZE
  {
    assert Open(0);
    assert Alive(u, procs[i]);
  }

  /** A process c has been added, with an address space of its own and no memory yet. */
  ghost predicate Began(u: Space, w: Space, c: Proc, trampoline: nat) {
    forall k: nat {:trigger Open(k)} :: Open(k) ==>
      && c.sz == 0 && c.root !in u.roots && w.roots == u.roots + {c.root}
         && View(w, c.root) == ProcView(trampoline, c.frame)
      && c.frame !in u.owner && Pruned(w.owner, c.root) == u.owner[c.frame := Other]
      && (forall x: nat | x in u.roots :: View(w, x) == View(u, x))
  }

  /** No page has changed hands, and no address space has changed. */
  ghost predicate Idle(u: Space, w: Space) {
    forall k: nat {:trigger Open(k)} :: Open(k) ==>
      w.roots == u.roots && w.owner == u.owner && forall x: nat | x in u.roots :: View(w, x) == View(u, x)
  }

  /** Process c is gone: its pages, its tables and its trapframe are free, and every other page is where it was. */
  ghost predicate Over(u: Space, w: Space, c: Proc) {
    forall k: nat {:trigger Open(k)} :: Open(k) ==>
      && w.roots == u.roots - {c.root} && w.owner == Pruned(u.owner, c.root) - {c.frame}
      && (forall x: nat | x in w.roots :: View(w, x) == View(u, x))
  }

  /** Process d has pages of its own with the bytes and the flags of those of c. */
  ghost predicate Copied(u: Space, w: Space, c: Proc, d: Proc) {
    forall k: nat {:trigger Open(k)} :: Open(k) ==>
      Rest(u, w, d.root, {}) && Filling(View(u, d.root), View(w, d.root), Like(View(u, c.root)), 0, Up(c.sz))
  }

  lemma BeganOthers(u: Space, w: Space, c: Proc, trampoline: nat, p: nat)
    requires Began(u, w, c, trampoline)
    ensures (p in w.owner && w.owner[p].Other?) <==> (p in u.owner && u.owner[p].Other?) || p == c.frame
  {
    assert Open(0);
    assert p in w.owner && w.owner[p].Other? <==> p in Pruned(w.owner, c.root) && Pruned(w.owner, c.root)[p].Other?;
  }

  lemma BeganAlive(u: Space, w: Space, c: Proc, trampoline: nat)
    requires Began(u, w, c, trampoline)
    ensures Alive(w, c)
  {
    BeganOthers(u, w, c, trampoline, c.frame);
    assert Open(0);
    FreshLike(trampoline, c.frame);
    FreshPermitted(trampoline, c.frame);
  }

  lemma StartAfter(u: Space, w: Space, procs: map<nat, Proc>, i: nat, c: Proc, trampoline: nat)
    requires Procs(u, procs) && i !in procs && Began(u, w, c, trampoline)
    ensures Procs(w, procs[i := c])
  {
    BeganAlive(u, w, c, trampoline);
    forall p: nat ensures (p in w.owner && w.owner[p].Other?) <==> (p in u.owner && u.owner[p].Other?) || p == c.frame {
      BeganOthers(u, w, c, trampoline, p);
    }
    BeganViews(u, w, c, trampoline);
    Started(u, w, procs, i, c);
  }

  lemma BeganViews(u: Space, w: Space, c: Proc, trampoline: nat)
    requires Began(u, w, c, trampoline)
    ensures c.root !in u.roots && w.roots == u.roots + {c.root} && c.frame !in u.owner && c.sz == 0
    ensures forall x: nat | x in u.roots :: View(w, x) == View(u, x)
  {
    assert Open(0);
  }

  lemma IdleAfter(u: Space, w: Space, procs: map<nat, Proc>)
    requires Procs(u, procs) && Idle(u, w)
    ensures Procs(w, procs)
  {
    assert Open(0);
    Untouched(u, w, procs);
  }

  lemma OverOthers(u: Space, w: Space, c: Proc, p: nat)
    requires Over(u, w, c)
    ensures (p in w.owner && w.owner[p].Other?) <==> (p in u.owner && u.owner[p].Other?) && p != c.frame
  {
    assert Open(0);
    assert p in u.owner && u.owner[p].Other? <==> p in Pruned(u.owner, c.root) && Pruned(u.owner, c.root)[p].Other?;
  }

  lemma EndAfter(u: Space, w: Space, procs: map<nat, Proc>, i: nat)
    requires Procs(u, procs) && i in procs && Over(u, w, procs[i])
    ensures Procs(w, procs - {i})
  {
    forall p: nat
      ensures (p in w.owner && w.owner[p].Other?) <==> (p in u.owner && u.owner[p].Other?) && p != procs[i].frame
    {
      OverOthers(u, w, procs[i], p);
    }
    OverViews(u, w, procs[i]);
    Ended(u, w, procs, i);
  }

  lemma OverViews(u: Space, w: Space, c: Proc)
    requires Over(u, w, c)
    ensures w.roots == u.roots - {c.root} && forall x: nat | x in w.roots :: View(w, x) == View(u, x)
  {
    assert Open(0);
  }

  /** The failing path of fork: the new process is gone without a trace. */
  lemma ForkUndone(u: Space, v: Space, w: Space, x: Space, d: Proc, trampoline: nat)
    requires Began(u, v, d, trampoline) && Same(v, w, d.root) && Over(w, x, d)
    ensures Idle(u, x)
  {
    assert Open(0);
    assert Pruned(v.owner, d.root) - {} == Pruned(v.owner, d.root);
    assert x.owner == u.owner[d.frame := Other] - {d.frame} == u.owner;
    assert x.roots == u.roots;
  }

  ghost predicate CanCopy(v: Space, c: Proc, d: Proc) {
    forall k: nat {:trigger Open(k)} :: Open(k) ==>
      && c.root in v.roots && d.root in v.roots && c.root != d.root && Up(c.sz) <= TRAPFRAME
      && AllLeaves(View(v, c.root), 0, Up(c.sz)) && Unmapped(View(v, d.root), 0, Up(c.sz))
  }

  lemma CopyBefore(v: Space, procs: map<nat, Proc>, i: nat, j: nat)
    requires Procs(v, procs) && i in procs && j in procs && i != j && procs[j].sz == 0
    ensures CanCopy(v, procs[i], procs[j]) && procs[i].root != procs[j].root
  {
    ProcAlive(v, procs, i);
    ProcAlive(v, procs, j);
    assert Open(0);
    FreeAbove(View(v, procs[j].root), 0, Up(procs[i].sz));
  }

  lemma CopiedAlive(u: Space, w: Space, c: Proc, d: Proc)
    requires Alive(u, c) && Alive(u, d) && d.sz == 0 && c.root != d.root && Copied(u, w, c, d)
    ensures Alive(w, d.(sz := c.sz)) && Beside(u, w, d.root) && w.roots == u.roots
  {
    assert Open(0);
    RestBeside(u, w, d.root);
    GrownLike(View(u, d.root), View(w, d.root), Like(View(u, c.root)), 0, Up(c.sz));
    CopiedPermitted(View(u, d.root), View(w, d.root), View(u, c.root), Up(c.sz), d.frame, c.frame);
    AliveHas(u, d);
  }

  lemma CopyAfter(u: Space, w: Space, procs: map<nat, Proc>, i: nat, j: nat)
    requires Procs(u, procs) && i in procs && j in procs && procs[j].sz == 0 && procs[i].root != procs[j].root
    requires Copied(u, w, procs[i], procs[j])
    ensures Procs(w, procs[j := procs[j].(sz := procs[i].sz)])
  {
    var d := procs[j].(sz := procs[i].sz);
    ProcAlive(u, procs, i);
    ProcAlive(u, procs, j);
    CopiedAlive(u, w, procs[i], procs[j]);
    Resized(u, w, procs, j, d, procs[j := d]);
  }

  /** Two address spaces hold the same bytes with the same rights in page k, in different pages of memory. */
  ghost predicate Twin(w: Space, r: nat, x: nat, k: nat) {
    && k in View(w, r) && k in View(w, x) && View(w, x)[k].page == View(w, r)[k].page
    && PteFlags(View(w, x)[k].pte) == PteFlags(View(w, r)[k].pte)
       && Child(View(w, x)[k].pte) != Child(View(w, r)[k].pte)
  }

  /** d is a copy of process c, which has not changed. */
  ghost predicate Forked(u: Space, w: Space, c: Proc, d: Proc) {
    forall k: nat {:trigger Open(k)} :: Open(k) ==>
      d.sz == c.sz && View(w, c.root) == View(u, c.root) && forall p: nat | p < Up(c.sz) :: Twin(w, c.root, d.root, p)
  }

  lemma CopyForked(u: Space, v: Space, w: Space, c: Proc, d: Proc, trampoline: nat)
    requires Own(w) && Began(u, v, d, trampoline) && CanCopy(v, c, d) && Copied(v, w, c, d)
    ensures Forked(u, w, c, d.(sz := c.sz))
  {
    assert Open(0);
    forall k: nat | k < Up(c.sz) ensures Twin(w, c.root, d.root, k) {
      TwinPage(v, w, c, d, k);
    }
  }

  lemma TwinPage(u: Space, w: Space, c: Proc, d: Proc, k: nat)
    requires Own(w) && c.root in w.roots && d.root in w.roots && c.root != d.root && k < Up(c.sz) <= TRAPFRAME
    requires IsLeaf(View(u, c.root), k) && View(w, c.root) == View(u, c.root)
    requires Filling(View(u, d.root), View(w, d.root), Like(View(u, c.root)), 0, Up(c.sz))
    ensures Twin(w, c.root, d.root, k)
  {
    assert From(Like(View(u, c.root)), k, View(w, d.root)[k]);
    if Child(View(w, d.root)[k].pte) == Child(View(w, c.root)[k].pte) { NoSharing(w, c.root, k, d.root, k); }
  }

  ghost predicate Living(v: Space, c: Proc) { forall k: nat {:trigger Open(k)} :: Open(k) ==> Alive(v, c) }

  lemma ProcLiving(u: Space, procs: map<nat, Proc>, i: nat)
    requires Procs(u, procs) && i in procs
    ensures Living(u, procs[i])
  {
    assert Open(0);
  }

  /** The user code of every process can load and store exactly the bytes of its pages, and execute none of them. */
  lemma UserAccess(v: Space, procs: map<nat, Proc>, i: nat)
    requires Own(v) && Procs(v, procs) && i in procs
    ensures Reaches(v, procs[i].root, Up(procs[i].sz))
  {
    ProcAlive(v, procs, i);
    ProcReaches(v, procs[i].root, Up(procs[i].sz), procs[i].frame);
  }

  /** Without processes no page is in use. */
  lemma NothingInUse(v: Space)
    requires Own(v) && Procs(v, map[])
    ensures v.owner == map[]
  {
    assert Open(0);
    assert forall r: nat :: !HasRoot(map[], r);
    assert forall p: nat :: !HasFrame(map[], p);
  }

  type Int = n: int | INT_MIN <= n <= INT_MAX

  /** What processes do with memory; a call for a process that is not there, or one that is there already, does
      nothing. */
  datatype Call = New(i: nat) | Sbrk(i: nat, n: Int) | Spawn(i: nat, j: nat) | Exit(i: nat)

  /** What a call does to the processes: it may fail, but has no other effect. */
  ghost predicate Did(call: Call, was: map<nat, Proc>, now: map<nat, Proc>) {
    match call
    case New(i) => now == was || (i !in was && i in now && now == was[i := now[i]] && now[i].sz == 0)
    case Sbrk(i, n) =>
      now == (if i in was && n < 0 then was[i := was[i].(sz := NewSize(was[i].sz, n))] else was)
      || (i in was && n > 0 && now == was[i := was[i].(sz := was[i].sz + n)])
    case Spawn(i, j) =>
      now == was || (i in was && j !in was && j in now && now == was[j := now[j]] && now[j].sz == was[i].sz)
    case Exit(i) => now == was - {i}
  }

  // ---- the code ----

  class Processes {
    const mem: Memory
    const trampoline: nat
    var procs: map<nat, Proc>

    ghost predicate Valid()
      reads this, mem
    {
      mem.Valid() && Procs(mem.V(), procs) && |mem.pages| <= MAXPAGES
    }

    /** No process, and every page from the end of the kernel on free. */
    constructor (end: nat, code: nat)
      requires 0 < end <= MAXPAGES * PGSIZE
      ensures Valid() && procs == map[] && trampoline == code && fresh(mem)
    {
      mem := new Memory(end, MAXPAGES * PGSIZE);
      trampoline, procs := code, map[];
    }

    /** allocproc: a process with no memory yet, or nothing changed, for want of six free pages. */
    method Start(i: nat) returns (ok: bool, c: Proc)
      requires Valid() && i !in procs
      modifies this`procs, mem
      ensures Valid()
      ensures ok ==> procs == old(procs)[i := c] && c.sz == 0 && Began(old(mem.V()), mem.V(), c, trampoline)
      ensures !ok ==> procs == old(procs) && Idle(old(mem.V()), mem.V())
      ensures |old(mem.free)| <= if ok then |mem.free| + 6 else 5
    {
      ghost var u := mem.V();
      ok, c := StartSpace(mem, trampoline);
      ghost var w := mem.V();
      if ok {
        StartAfter(u, w, procs, i, c, trampoline);
        procs := procs[i := c];
      } else {
        IdleAfter(u, w, procs);
      }
    }

    /** freeproc: all its pages are free, and no other page has changed hands. */
    method Free(i: nat)
      requires Valid() && i in procs
      modifies this`procs, mem
      ensures Valid() && procs == old(procs) - {i} && Over(old(mem.V()), mem.V(), old(procs)[i])
    {
      ghost var u := mem.V();
      ProcLiving(u, procs, i);
      EndSpace(mem, procs[i]);
      EndAfter(u, mem.V(), procs, i);
      procs := procs - {i};
    }

    /** fork's memory: a child with copies of the parent's pages, or nothing changed, for want of memory. */
    method Fork(i: nat, j: nat) returns (ok: bool, d: Proc)
      requires Valid() && i in procs && j !in procs
      modifies this`procs, mem
      ensures Valid()
      ensures ok ==> procs == old(procs)[j := d] && d.sz == old(procs)[i].sz
      ensures ok ==> Forked(old(mem.V()), mem.V(), old(procs)[i], d)
      ensures !ok ==> procs == old(procs) && Idle(old(mem.V()), mem.V())
      ensures !ok ==> |old(mem.free)| < 6 + 3 * Up(procs[i].sz)
    {
      ghost var u := mem.V();
      ok, d := Start(j);
      if !ok { return; }
      ok, d := Copy(u, i, j);
      if !ok { assert procs == old(procs); }
    }

    method Copy(ghost u: Space, i: nat, j: nat) returns (ok: bool, d: Proc)
      requires Valid() && i in procs && j in procs && i != j && Began(u, mem.V(), procs[j], trampoline)
      modifies this`procs, mem
      ensures Valid()
      ensures ok ==> procs == old(procs)[j := d] && d.sz == old(procs)[i].sz && Forked(u, mem.V(), old(procs)[i], d)
      ensures !ok ==> procs == old(procs) - {j} && Idle(u, mem.V()) && |old(mem.free)| < 3 * Up(old(procs)[i].sz)
    {
      ghost var v := mem.V();
      var c := procs[i];
      d := procs[j];
      BeganViews(u, v, d, trampoline);
      CopyBefore(v, procs, i, j);
      ok := CopySpace(mem, c, d);
      ghost var w := mem.V();
      if ok {
        CopyAfter(v, w, procs, i, j);
        CopyForked(u, v, w, c, d, trampoline);
        d := d.(sz := c.sz);
        procs := procs[j := d];
      } else {
        SameAfter(v, w, procs, d.root);
        Free(j);
        ForkUndone(u, v, w, mem.V(), d, trampoline);
      }
    }

    /** growproc with n > 0: zero pages up to the new size, or -1 and nothing changed, for want of memory. */
    method GrowUp(i: nat, n: nat) returns (ok: bool)
      requires Valid() && i in procs && 0 < n <= INT_MAX
      modifies this`procs, mem
      ensures Valid()
      ensures ok ==>
              var c := old(procs)[i];
              procs == old(procs)[i := c.(sz := c.sz + n)] && Grown(old(mem.V()), mem.V(), c, c.sz + n)
      ensures ok ==> Reaches(mem.V(), procs[i].root, Up(procs[i].sz))
      ensures !ok ==> procs == old(procs) && Same(old(mem.V()), mem.V(), procs[i].root)
      ensures !ok ==> |old(mem.free)| < 3 * (Up(procs[i].sz + n) - Up(procs[i].sz))
    {
      var c := procs[i];
      ghost var u := mem.V();
      var newsz := c.sz + n;
      GrowBefore(u, procs, i, n, newsz);
      ok := GrowSpace(mem, c, newsz);
      ghost var w := mem.V();
      if ok {
        GrowAfter(u, w, procs, i, newsz);
        procs := procs[i := c.(sz := newsz)];
        UserAccess(w, procs, i);
      } else {
        SameAfter(u, w, procs, c.root);
      }
    }

    /** growproc with n < 0: the pages above the new size are free again. */
    method Shrink(i: nat, n: int)
      requires Valid() && i in procs && INT_MIN <= n < 0
      modifies this`procs, mem
      ensures Valid()
      ensures var c := old(procs)[i]; var sz := NewSize(c.sz, n);
              && procs == old(procs)[i := c.(sz := sz)] && Shrunk(old(mem.V()), mem.V(), c, sz)
              && |mem.free| == |old(mem.free)| + Up(c.sz) - Up(sz)
    {
      var c := procs[i];
      ghost var u := mem.V();
      SizeBelow(u, procs, i);
      var newsz := Minus(c.sz, n);
      ShrinkBefore(u, procs, i, newsz);
      var sz := ShrinkSpace(mem, c, newsz);
      ShrinkAfter(u, mem.V(), procs, i, sz);
      procs := procs[i := c.(sz := sz)];
    }

    method Do(call: Call)
      requires Valid()
      modifies this`procs, mem
      ensures Valid() && Did(call, old(procs), procs)
    {
      match call {
        case New(i) =>
          if i !in procs {
            var ok, c := Start(i);
          }
        case Sbrk(i, n) =>
          if i in procs && n > 0 {
            var ok := GrowUp(i, n);
          } else if i in procs && n < 0 {
            Shrink(i, n);
          }
        case Spawn(i, j) =>
          if i in procs && j !in procs {
            var ok, d := Fork(i, j);
          }
        case Exit(i) =>
          if i in procs { Free(i); }
      }
    }

    /** Whatever processes have done, when all of them have been freed every page is free again, once. states are the
        processes before each call, and after the last. */
    method Run(calls: seq<Call>) returns (ghost states: seq<map<nat, Proc>>)
      requires Valid()
      modifies this`procs, mem
      ensures |states| == |calls| + 1 && states[0] == old(procs)
      ensures forall n: nat | n < |calls| :: Did(calls[n], states[n], states[n + 1])
      ensures Valid() && procs == map[] && AllFree(mem)
    {
      states := [procs];
      for n := 0 to |calls|
        invariant Valid() && |states| == n + 1 && states[0] == old(procs) && states[n] == procs
        invariant forall k: nat | k < n :: Did(calls[k], states[k], states[k + 1])
      {
        Do(calls[n]);
        states := states + [procs];
      }
      while procs.Keys != {}
        invariant Valid()
        decreases |procs.Keys|
      {
        var i :| i in procs.Keys;
        ghost var was := procs;
        Free(i);
        assert procs.Keys == was.Keys - {i};
      }
      assert procs == map[];
      NothingInUse(mem.V());
    }
  }

  /** Every page above the kernel is on the free list, once. */
  ghost predicate AllFree(mem: Memory)
    reads mem
  {
    && (forall p: nat | mem.lo <= p < |mem.pages| :: p in mem.free)
    && (forall j: nat, k: nat | j < k < |mem.free| :: mem.free[j] != mem.free[k])
  }

  /** allocproc's trapframe and page table. */
  method StartSpace(mem: Memory, trampoline: nat) returns (ok: bool, c: Proc)
    requires mem.Valid()
    modifies mem
    ensures mem.Valid() && |mem.pages| == |old(mem.pages)|
    ensures if ok then c.sz == 0 && Began(old(mem.V()), mem.V(), c, trampoline) else Idle(old(mem.V()), mem.V())
    ensures |old(mem.free)| <= if ok then |mem.free| + 6 else 5
  {
    ghost var u := mem.V();
    var frame := mem.Kalloc();
    c := Proc(0, 0, frame);
    if frame == 0 { return false, c; }
    ghost var v := mem.V();
    var root := mem.ProcPagetable(trampoline, frame);
    c := Proc(root, 0, frame);
    ok := root != 0;
    if !ok {
      mem.Release(frame * PGSIZE, frame);
      assert mem.owner == u.owner;
    }
  }

  /** freeproc. */
  method EndSpace(mem: Memory, c: Proc)
    requires mem.Valid() && Living(mem.V(), c)
    modifies mem
    ensures mem.Valid() && |mem.pages| == |old(mem.pages)| && Over(old(mem.V()), mem.V(), c)
  {
    assert Open(0);
    ghost var u, run := mem.V(), VmModel.Run(mem.freelist);
    mem.Release(c.frame * PGSIZE, c.frame);
    ghost var v := mem.V();
    mem.ProcFreepagetable(c.root, c.sz);
    EndOver(u, v, mem.V(), c, run);
  }

  lemma EndOver(u: Space, v: Space, w: Space, c: Proc, run: Page)
    requires c.frame < |u.pages| && v == WithFree(u, c.frame, run) && SameViews(u, v) && Gone(v, w, c.root)
    ensures Over(u, w, c)
  {
    assert w.owner == Pruned(u.owner, c.root) - {c.frame};
  }

  method CopySpace(mem: Memory, c: Proc, d: Proc) returns (ok: bool)
    requires mem.Valid() && CanCopy(mem.V(), c, d)
    modifies mem
    ensures mem.Valid() && |mem.pages| == |old(mem.pages)|
    ensures if ok then Copied(old(mem.V()), mem.V(), c, d) else Same(old(mem.V()), mem.V(), d.root)
    ensures !ok ==> |old(mem.free)| < 3 * Up(c.sz)
  {
    assert Open(0);
    ok := mem.Uvmcopy(c.root, d.root, c.sz);
  }

  method ShrinkSpace(mem: Memory, c: Proc, newsz: nat) returns (sz: nat)
    requires mem.Valid() && CanShrink(mem.V(), c, newsz)
    modifies mem
    ensures mem.Valid() && |mem.pages| == |old(mem.pages)| && sz == (if newsz < c.sz then newsz else c.sz)
            && Up(sz) <= Up(c.sz)
    ensures Shrunk(old(mem.V()), mem.V(), c, sz) && |mem.free| == |old(mem.free)| + Up(c.sz) - Up(sz)
  {
    assert Open(0);
    ghost var to, n := Up(newsz), if newsz < c.sz then Up(c.sz) - Up(newsz) else 0;
    if newsz < c.sz { UpMonotone(newsz, c.sz); }
    sz := mem.Uvmdealloc(c.root, c.sz, newsz, to, n);
  }

  method GrowSpace(mem: Memory, c: Proc, newsz: nat) returns (ok: bool)
    requires mem.Valid() && CanGrow(mem.V(), c, newsz)
    modifies mem
    ensures mem.Valid() && |mem.pages| == |old(mem.pages)|
    ensures if ok then Grown(old(mem.V()), mem.V(), c, newsz) else Same(old(mem.V()), mem.V(), c.root)
    ensures !ok ==> |old(mem.free)| < 3 * (Up(newsz) - Up(c.sz))
  {
    assert Open(0);
    var r;
    ghost var done;
    r, done := mem.Uvmalloc(c.root, c.sz, newsz, PTE_W);
    ok := r != 0;
  }
}
