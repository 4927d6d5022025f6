/** What user code of processes loads and stores, through the hardware's translation. */
module UserMemory {
  import opened Folding
  import opened Blocks
  import opened VmModel
  import opened VmSteps
  import opened Sv39
  import opened Rights
  import opened ProcMemory

  datatype Loaded = Fault | Got(b: byte)

  ghost function LoadByte(v: Space, r: nat, va: nat): Loaded {
    match Translate(v.pages, r, va, Load)
    case PageFault => Fault
    case Physical(pa) =>
      if pa / PGSIZE < |v.pages| && v.pages[pa / PGSIZE].Data?
      then Got(v.pages[pa / PGSIZE].bytes[pa % PGSIZE]) else Fault
  }

  ghost function StoreByte(v: Space, r: nat, va: nat, b: byte): Space {
    match Translate(v.pages, r, va, Store)
    case PageFault => v
    case Physical(pa) =>
      if pa / PGSIZE < |v.pages| && v.pages[pa / PGSIZE].Data?
      then WithData(v, pa / PGSIZE, Data(v.pages[pa / PGSIZE].bytes[pa % PGSIZE := b])) else v
  }

  lemma Split(p: nat, off: nat, pa: nat)
    requires pa == p * PGSIZE + off && off < PGSIZE
    ensures pa / PGSIZE == p && pa % PGSIZE == off
  {
  }

  /** Byte va of process c lies in the page its address space has there, at the same offset. */
  lemma Place(v: Space, c: Proc, va: nat, acc: Access)
    requires Own(v) && Alive(v, c) && va < Up(c.sz) * PGSIZE && acc != Fetch
    ensures va / PGSIZE < Up(c.sz) && va / PGSIZE in View(v, c.root)
    ensures var m := View(v, c.root)[va / PGSIZE];
            && m.page.Data? && Child(m.pte) < |v.pages| && v.pages[Child(m.pte)] == m.page
            && Translate(v.pages, c.root, va, acc) == Physical(Child(m.pte) * PGSIZE + va % PGSIZE)
            && (Child(m.pte) * PGSIZE + va % PGSIZE) / PGSIZE == Child(m.pte)
            && (Child(m.pte) * PGSIZE + va % PGSIZE) % PGSIZE == va % PGSIZE
  {
    var view, k := View(v, c.root), va / PGSIZE;
    assert IsLeaf(view, k);
    assert UserPage(view[k].pte);
    MappedPage(v, c.root, k);
    TranslationAgrees(v, c.root, va, acc);
    Split(Child(view[k].pte), va % PGSIZE, Child(view[k].pte) * PGSIZE + va % PGSIZE);
  }

  lemma LoadsFrom(v: Space, r: nat, va: nat, p: nat, off: nat, pa: nat)
    requires Translate(v.pages, r, va, Load) == Physical(pa) && pa / PGSIZE == p && pa % PGSIZE == off
    requires p < |v.pages| && v.pages[p].Data?
    ensures off < PGSIZE && LoadByte(v, r, va) == Got(v.pages[p].bytes[off])
  {
  }

  lemma LoadIs(v: Space, c: Proc, va: nat)
    requires Own(v) && Alive(v, c) && va < Up(c.sz) * PGSIZE
    ensures va / PGSIZE in View(v, c.root) && View(v, c.root)[va / PGSIZE].page.Data?
    ensures LoadByte(v, c.root, va) == Got(View(v, c.root)[va / PGSIZE].page.bytes[va % PGSIZE])
  {
    Place(v, c, va, Load);
    var m := View(v, c.root)[va / PGSIZE];
    LoadsFrom(v, c.root, va, Child(m.pte), va % PGSIZE, Child(m.pte) * PGSIZE + va % PGSIZE);
  }

  lemma LoadFaults(v: Space, c: Proc, va: nat)
    requires Own(v) && Alive(v, c) && Up(c.sz) * PGSIZE <= va < MAXVA
    ensures LoadByte(v, c.root, va) == Fault
  {
    ReachesAt(v, c.root, Up(c.sz), c.frame, va, Load);
  }

  /** No two addresses, of one process or of two, reach the same byte of memory. */
  lemma OwnBytes(v: Space, procs: map<nat, Proc>, i: nat, va: nat, a: Access, j: nat, vb: nat, b: Access)
    requires Own(v) && Procs(v, procs) && i in procs && j in procs && va < MAXVA && vb < MAXVA
    requires Translate(v.pages, procs[i].root, va, a).Physical?
    requires Translate(v.pages, procs[j].root, vb, b) == Translate(v.pages, procs[i].root, va, a)
    ensures i == j && va == vb
  {
    var c, d := procs[i], procs[j];
    ProcAlive(v, procs, i);
    ProcAlive(v, procs, j);
    ReachesAt(v, c.root, Up(c.sz), c.frame, va, a);
    ReachesAt(v, d.root, Up(d.sz), d.frame, vb, b);
    Place(v, c, va, a);
    Place(v, d, vb, b);
    NoSharing(v, c.root, va / PGSIZE, d.root, vb / PGSIZE);
    assert Open(0);
  }

  // ---- stores ----

  /** A page of an address space is written to. */
  lemma WrittenLike(view: map<nat, Mapped>, next: map<nat, Mapped>, k: nat, page: Page, n: nat, frame: nat)
    requires k in view && next == view[k := Mapped(view[k].pte, page)]
    requires ProcLike(view, n) && Permitted(view, n, frame)
    ensures ProcLike(next, n) && Permitted(next, n, frame)
  {
    forall j: nat | j < n ensures IsLeaf(next, j) {
      assert IsLeaf(view, j);
    }
  }

  lemma StoredAlive(v: Space, w: Space, c: Proc, k: nat, page: Page)
    requires Alive(v, c) && k in View(v, c.root) && Rest(v, w, c.root, {})
    requires View(w, c.root) == View(v, c.root)[k := Mapped(View(v, c.root)[k].pte, page)]
    ensures Alive(w, c)
  {
    RestBeside(v, w, c.root);
    AliveHas(v, c);
    WrittenLike(View(v, c.root), View(w, c.root), k, page, Up(c.sz), c.frame);
  }

  lemma StoresTo(v: Space, r: nat, va: nat, b: byte, p: nat, off: nat, pa: nat)
    requires Translate(v.pages, r, va, Store) == Physical(pa) && pa / PGSIZE == p && pa % PGSIZE == off
    requires p < |v.pages| && v.pages[p].Data?
    ensures off < PGSIZE && StoreByte(v, r, va, b) == WithData(v, p, Data(v.pages[p].bytes[off := b]))
  {
  }

  /** What a store makes of the address space. */
  ghost predicate Stored(v: Space, w: Space, c: Proc, k: nat, page: Page) {
    && k in View(v, c.root) && Own(w) && Rest(v, w, c.root, {}) && Alive(w, c)
    && View(w, c.root) == View(v, c.root)[k := Mapped(View(v, c.root)[k].pte, page)]
  }

  lemma WriteStored(v: Space, c: Proc, k: nat, page: Page, p: nat)
    requires Own(v) && Alive(v, c) && k < TRAPFRAME && k in View(v, c.root) && page.Data?
    requires p == Child(View(v, c.root)[k].pte) < |v.pages|
    ensures Stored(v, WithData(v, p, page), c, k, page)
  {
    DataWritten(v, c.root, k, page, p);
    StoredAlive(v, WithData(v, p, page), c, k, page);
  }

  lemma StoreIs(v: Space, c: Proc, va: nat, b: byte) returns (page: Page)
    requires Own(v) && Alive(v, c) && va < Up(c.sz) * PGSIZE
    ensures va / PGSIZE in View(v, c.root) && View(v, c.root)[va / PGSIZE].page.Data?
    ensures page == Data(View(v, c.root)[va / PGSIZE].page.bytes[va % PGSIZE := b])
    ensures Stored(v, StoreByte(v, c.root, va, b), c, va / PGSIZE, page)
  {
    Place(v, c, va, Store);
    var k := va / PGSIZE;
    var m := View(v, c.root)[k];
    page := Data(m.page.bytes[va % PGSIZE := b]);
    StoresTo(v, c.root, va, b, Child(m.pte), va % PGSIZE, Child(m.pte) * PGSIZE + va % PGSIZE);
    WriteStored(v, c, k, page, Child(m.pte));
  }

  lemma StoreOwnByte(v: Space, c: Proc, va: nat, b: byte, vb: nat)
    requires Own(v) && Alive(v, c) && va < Up(c.sz) * PGSIZE && vb < Up(c.sz) * PGSIZE
    ensures LoadByte(StoreByte(v, c.root, va, b), c.root, vb) == if va == vb then Got(b) else LoadByte(v, c.root, vb)
  {
    var page := StoreIs(v, c, va, b);
    LoadIs(v, c, vb);
    LoadIs(StoreByte(v, c.root, va, b), c, vb);
  }

  lemma StoreKeeps(v: Space, procs: map<nat, Proc>, i: nat, va: nat, b: byte)
    requires Own(v) && Procs(v, procs) && i in procs && va < Up(procs[i].sz) * PGSIZE
    ensures var w := StoreByte(v, procs[i].root, va, b);
            Own(w) && Procs(w, procs) && Rest(v, w, procs[i].root, {}) && Alive(w, procs[i])
  {
    ProcAlive(v, procs, i);
    var page := StoreIs(v, procs[i], va, b);
    var w := StoreByte(v, procs[i].root, va, b);
    RestBeside(v, w, procs[i].root);
    assert procs[i := procs[i]] == procs;
    Resized(v, w, procs, i, procs[i], procs);
  }

  lemma StoreOtherByte(v: Space, w: Space, r: nat, d: Proc, vb: nat)
    requires Own(v) && Own(w) && Rest(v, w, r, {}) && Alive(v, d) && Alive(w, d) && d.root != r && vb < MAXVA
    ensures LoadByte(w, d.root, vb) == LoadByte(v, d.root, vb)
  {
    assert View(w, d.root) == View(v, d.root);
    if vb < Up(d.sz) * PGSIZE {
      LoadIs(v, d, vb);
      LoadIs(w, d, vb);
    } else {
      LoadFaults(v, d, vb);
      LoadFaults(w, d, vb);
    }
  }

  /** A store changes that byte of that process, and no other byte that any process can load. */
  lemma StoreLoads(v: Space, procs: map<nat, Proc>, i: nat, va: nat, b: byte, j: nat, vb: nat)
    requires Own(v) && Procs(v, procs) && i in procs && j in procs && va < Up(procs[i].sz) * PGSIZE && vb < MAXVA
    ensures var w := StoreByte(v, procs[i].root, va, b);
            && Own(w) && Procs(w, procs)
            && LoadByte(w, procs[j].root, vb) ==
               if i == j && va == vb then Got(b) else LoadByte(v, procs[j].root, vb)
  {
    StoreKeeps(v, procs, i, va, b);
    var w := StoreByte(v, procs[i].root, va, b);
    ProcAlive(v, procs, j);
    ProcAlive(w, procs, j);
    if i != j {
      assert procs[i].root != procs[j].root by { assert Open(0); }
      StoreOtherByte(v, w, procs[i].root, procs[j], vb);
    } else if vb < Up(procs[j].sz) * PGSIZE {
      StoreOwnByte(v, procs[i], va, b, vb);
    } else {
      LoadFaults(v, procs[j], vb);
      LoadFaults(w, procs[j], vb);
    }
  }

  // ---- growproc and fork ----

  lemma GrownPage(u: Space, w: Space, c: Proc, sz: nat, k: nat)
    requires Grown(u, w, c, sz) && k < Up(sz) && (k < Up(c.sz) ==> k in View(u, c.root))
    ensures k in View(w, c.root)
    ensures if k < Up(c.sz) then View(w, c.root)[k] == View(u, c.root)[k]
            else View(w, c.root)[k].page == Data(Filled(0))
  {
    assert Open(0);
    assert Up(c.sz) <= k ==> From(Zero(UserFlags(PTE_W)), k, View(w, c.root)[k]);
  }

  /** After growproc the process loads what it had below its old size, and zeroes above it. */
  lemma GrownLoads(u: Space, w: Space, c: Proc, sz: nat, va: nat)
    requires Own(u) && Own(w) && Alive(u, c) && Alive(w, c.(sz := sz)) && c.sz <= sz && Grown(u, w, c, sz)
    requires va < Up(sz) * PGSIZE
    ensures LoadByte(w, c.root, va) == if va < Up(c.sz) * PGSIZE then LoadByte(u, c.root, va) else Got(0)
  {
    LoadIs(w, c.(sz := sz), va);
    if va < Up(c.sz) * PGSIZE { LoadIs(u, c, va); }
    GrownPage(u, w, c, sz, va / PGSIZE);
  }

  /** After fork parent and child load the bytes the parent loaded before. */
  lemma ForkedLoads(u: Space, w: Space, c: Proc, d: Proc, va: nat)
    requires Own(u) && Own(w) && Alive(u, c) && Alive(w, c) && Alive(w, d) && Forked(u, w, c, d) && va < MAXVA
    ensures LoadByte(w, c.root, va) == LoadByte(u, c.root, va) && LoadByte(w, d.root, va) == LoadByte(u, c.root, va)
  {
    assert Open(0);
    if va < Up(c.sz) * PGSIZE {
      LoadIs(u, c, va);
      LoadIs(w, c, va);
      LoadIs(w, d, va);
      assert Twin(w, c.root, d.root, va / PGSIZE);
    } else {
      LoadFaults(u, c, va);
      LoadFaults(w, c, va);
      LoadFaults(w, d, va);
    }
  }

  // ---- copyin and copyout ----

  /** The kernel takes an address of a process to be the user's if and only if user code can load from it, and sees the
      byte that user code would. */
  lemma KernelSees(v: Space, procs: map<nat, Proc>, i: nat, va: nat)
    requires Own(v) && Procs(v, procs) && i in procs && va < MAXVA
    ensures var view := View(v, procs[i].root);
            && UserBelow(view) && (UserAt(view, va) <==> LoadByte(v, procs[i].root, va) != Fault)
            && (UserAt(view, va) ==> LoadByte(v, procs[i].root, va) == Got(UserByte(view, va)))
  {
    var c := procs[i];
    ProcAlive(v, procs, i);
    if va < Up(c.sz) * PGSIZE {
      LoadIs(v, c, va);
      assert UserPage(View(v, c.root)[va / PGSIZE].pte);
    } else {
      LoadFaults(v, c, va);
    }
  }
}
