/** kernel/vm.c and kernel/kalloc.c as code over physical memory. Pages are named by page number; a pointer to a PTE
    is a table and an index. A panic in the source is a precondition here. */
module Vm {
  import opened Folding
  import opened Blocks
  import opened Kalloc
  import opened VmModel
  import opened VmSteps
  import opened Rights

  /** A page in use changes, and pages in use change owner: the free list is what it was. */
  lemma ListsKept(lo: nat, v: Space, w: Space, head: nat, free: seq<nat>, t: nat)
    requires FreeList(v.pages, head, free) && Partition(lo, |v.pages|, free, v.owner) && t in v.owner
    requires t < |v.pages| <= |w.pages| && w.pages == v.pages[t := w.pages[t]]
    requires w.owner.Keys == v.owner.Keys
    ensures FreeList(w.pages, head, free) && Partition(lo, |w.pages|, free, w.owner)
  {
    assert lo <= t;
    Frame(v.pages, head, free, t, w.pages[t]);
    PartitionKeys(lo, |v.pages|, free, v.owner, w.owner);
  }

  class Memory {
    const lo: nat
    var pages: seq<Page>
    var freelist: nat
    ghost var free: seq<nat>
    ghost var owner: map<nat, Slot>
    ghost var roots: set<nat>

    ghost function V(): Space
      reads this
    {
      Space(pages, owner, roots)
    }

    ghost predicate Lists()
      reads this
    {
      0 < lo <= |pages| && FreeList(pages, freelist, free) && Partition(lo, |pages|, free, owner)
    }

    /** Valid but for a slot that still refers to a freed page. */
    ghost predicate ValidBut(hole: Slot)
      reads this
    {
      Lists() && OwnBut(V(), hole)
    }

    /** The allocator's list and the pages in use partition memory, and each page in use has one owner. */
    ghost predicate Valid()
      reads this
    {
      Lists() && Own(V())
    }

    // ---- kalloc.c ----

    method Kfree(pa: nat)
      requires pa % PGSIZE == 0 && 0 < lo <= pa / PGSIZE < |pages|
      requires FreeList(pages, freelist, free) && pa / PGSIZE !in free
      modifies this`pages, this`freelist, this`free
      ensures FreeList(pages, freelist, free) && free == [pa / PGSIZE] + old(free)
      ensures pages == old(pages)[pa / PGSIZE := Run(old(freelist))]
    {
      var p := pa / PGSIZE;
      Push(pages, freelist, free, p);
      pages := pages[p := Data(Filled(1))];
      pages := pages[p := Run(freelist)];
      freelist := p;
      free := [p] + free;
      assert pages == old(pages)[p := Run(old(freelist))];
    }

    /** kinit and freerange: every page between the end of the kernel and PHYSTOP is free, once. */
    constructor (end: nat, phystop: nat)
      requires 0 < end && (end + PGSIZE - 1) / PGSIZE <= phystop / PGSIZE
      ensures Valid() && owner == map[] && roots == {}
      ensures lo == (end + PGSIZE - 1) / PGSIZE && |pages| == phystop / PGSIZE
    {
      lo := (end + PGSIZE - 1) / PGSIZE;
      pages := seq(phystop / PGSIZE, _ => Kernel);
      freelist, free, owner, roots := 0, [], map[], {};
      new;
      var p := (end + PGSIZE - 1) / PGSIZE * PGSIZE;
      ghost var i := lo;
      while p + PGSIZE <= phystop
        invariant p == i * PGSIZE && 0 < lo <= i <= |pages| == phystop / PGSIZE && owner == map[] && roots == {}
        invariant FreeList(pages, freelist, free) && (forall q :: q in free <==> lo <= q < i)
        invariant forall q: nat | q < |pages| :: !pages[q].Table?
      {
        Kfree(p);
        p := p + PGSIZE;
        i := i + 1;
      }
    }

    method Kalloc() returns (p: nat)
      requires Valid()
      modifies this`pages, this`freelist, this`free, this`owner
      ensures Valid() && (p == 0 <==> old(free) == []) && SameViews(old(V()), V())
      ensures p == 0 ==> V() == old(V()) && free == old(free)
      ensures p != 0 ==> old(free) == [p] + free && p < |old(pages)| && V() == WithOther(old(V()), p, Data(Filled(5)))
    {
      ghost var v := V();
      p := freelist;
      if p == 0 { return; }
      Pop(pages, freelist, free, Data(Filled(5)));
      PartitionTake(lo, |pages|, free, owner);
      OtherOwn(v, p, Data(Filled(5)), WithOther(v, p, Data(Filled(5))));
      freelist := pages[p].next;
      pages := pages[p := Data(Filled(5))];
      free := free[1..];
      owner := owner[p := Other];
    }

    /** A change of a page that only the kernel refers to. */
    method Fill(p: nat, page: Page)
      requires Valid() && p in owner && owner[p] == Other
      modifies this`pages
      ensures Valid() && V() == WithOther(old(V()), p, page) && SameViews(old(V()), V())
    {
      ghost var v := V();
      OtherOwn(v, p, page, WithOther(v, p, page));
      Frame(pages, freelist, free, p, page);
      pages := pages[p := page];
      assert owner[p := Other] == owner;
    }

    /** kalloc, and memset or memmove. */
    method KallocFilled(page: Page) returns (p: nat)
      requires Valid()
      modifies this`pages, this`freelist, this`free, this`owner
      ensures Valid() && SameViews(old(V()), V())
      ensures p == 0 ==> V() == old(V()) && free == old(free) == []
      ensures p != 0 ==> 0 < p < |old(pages)| && p !in old(owner) && V() == WithOther(old(V()), p, page)
      ensures p != 0 ==> |old(free)| == |free| + 1
    {
      ghost var v := V();
      p := Kalloc();
      if p != 0 {
        OtherTwice(v, p, Data(Filled(5)), page);
        Fill(p, page);
      }
    }

    // ---- walk ----

    /** One level of walk. */
    method Descend(ghost s: Slot, t: nat, i: nat, alloc: bool) returns (c: nat)
      requires Valid() && (s.Top? || s.Mid?) && InRange(roots, s) && t == Ref(pages, s) && t != 0 && i < ENTRIES
      modifies this`pages, this`freelist, this`free, this`owner
      ensures Valid() && Grew(old(V()), V(), s.r) && c == Ref(pages, Below(s, i))
      ensures !alloc ==> V() == old(V()) && free == old(free)
      ensures if c == 0 && alloc then free == old(free) == [] else |old(free)| <= |free| + 1
    {
      ghost var v := V();
      GrewNot(v, s.r);
      TableIn(v, s);
      var pte := pages[t].ptes[i];
      EntryPointer(v, s, t, i);
      if IsValid(pte) {
        c := PTE2PA(pte) / PGSIZE;
      } else {
        if !alloc { return 0; }
        c := KallocFilled(Table(ZeroPtes()));
        if c == 0 { return; }
        Link(v, s, t, i, c);
      }
    }

    /** Entry i of table t points to the table at page p. */
    method SetEntry(t: nat, i: nat, p: nat, ghost x: Slot)
      requires t < |pages| && pages[t].Table? && i < ENTRIES
      modifies this`pages, this`owner
      ensures pages == SetPte(old(pages), t, i, p * 1024 + 1) && owner == old(owner)[p := x]
    {
      PageAddress(p, p * PGSIZE);
      pages := pages[t := Table(pages[t].ptes[i := PA2PTE(p * PGSIZE) + PTE_V])];
      owner := owner[p := x];
    }

    method Link(ghost v: Space, ghost s: Slot, t: nat, i: nat, p: nat)
      requires Own(v) && Valid() && (s.Top? || s.Mid?) && InRange(roots, s) && t == Ref(v.pages, s) && t != 0
               && i < ENTRIES
      requires Pte(v.pages, t, i) == 0 && 0 < p < |v.pages| && p !in v.owner && SameViews(v, V())
      requires V() == WithOther(v, p, Table(ZeroPtes()))
      modifies this`pages, this`owner
      ensures Valid() && Grew(v, V(), s.r) && p == Ref(pages, Below(s, i))
    {
      ghost var w := V();
      NewTable(v, w, s, t, i, p);
      ListsKept(lo, w, WithTable(w, s, i, p), freelist, free, t);
      SetEntry(t, i, p, Below(s, i));
    }

    /** walk finds the PTE for va, making the tables on the way if asked to; it changes no address space. */
    method Walk(root: nat, va: nat, alloc: bool) returns (t: nat, i: nat)
      requires Valid() && root in roots && va < MAXVA
      modifies this`pages, this`freelist, this`free, this`owner
      ensures Valid() && Grew(old(V()), V(), root)
      ensures t == TableOf(V(), root, va / PGSIZE) && i == va / PGSIZE % 512
      ensures t != 0 ==> t < |pages| && pages[t].Table? && pages[t].ptes[i] == Lookup(pages, root, va / PGSIZE)
      ensures !alloc ==> V() == old(V()) && free == old(free)
      ensures if t == 0 && alloc then free == [] && |old(free)| <= 1 else |old(free)| <= |free| + 2
    {
      ghost var v := V();
      GrewNot(v, root);
      LeafAtPX(root, va);
      i := PX(0, va);
      t := root;
      var level := 2;
      RootIn(v, root);
      while level > 0
        invariant level <= 2 && Valid() && t == Ref(pages, OnPath(root, va, level)) && t != 0 && Grew(v, V(), root)
        invariant !alloc ==> V() == v && free == old(free)
        invariant |old(free)| <= |free| + 2 - level
      {
        ghost var w := V();
        assert Below(OnPath(root, va, level), PX(level, va)) == OnPath(root, va, level - 1);
        t := Descend(OnPath(root, va, level), t, PX(level, va), alloc);
        GrewTwice(v, w, V(), root);
        if t == 0 {
          NoTable(V(), root, va, level - 1);
          return;
        }
        level := level - 1;
      }
      TableOfIn(V(), root, va / PGSIZE);
    }

    // ---- mappages ----

    /** A store of a leaf PTE. */
    method StoreLeaf(ghost root: nat, ghost vpn: nat, t: nat, i: nat, pte: nat)
      requires Valid() && t == TableOf(V(), root, vpn) && t < |pages| && pages[t].Table? && t !in free && i == vpn % 512
      requires Own(WithLeaf(V(), root, vpn, pte)) && WithLeaf(V(), root, vpn, pte).owner.Keys == owner.Keys
      modifies this`pages, this`owner
      ensures Valid() && V() == WithLeaf(old(V()), root, vpn, pte)
    {
      ghost var w := WithLeaf(V(), root, vpn, pte);
      Frame(pages, freelist, free, t, Table(pages[t].ptes[i := pte]));
      PartitionKeys(lo, |pages|, free, owner, w.owner);
      pages := pages[t := Table(pages[t].ptes[i := pte])];
      owner := w.owner;
      assert V() == w;
    }

    /** One page of mappages. */
    method MapPage(root: nat, va: nat, pa: nat, perm: nat, ghost vpn: nat, ghost p: nat) returns (ok: bool)
      requires Valid() && root in roots && va == vpn * PGSIZE && pa == p * PGSIZE && perm < 1024 && vpn < MAXVPN
               && vpn !in View(V(), root)
      requires vpn < TRAPFRAME ==> Lent(V(), p)
      modifies this`pages, this`freelist, this`free, this`owner
      ensures Valid()
      ensures !ok ==> free == [] && Grew(old(V()), V(), root)
      ensures ok ==> Put(old(V()), V(), root, vpn, p, PagePte(p, perm))
      ensures |old(free)| <= if ok then |free| + 2 else 1
    {
      ghost var u := V();
      PageAddress(vpn, va);
      PageAddress(p, pa);
      PagePteFields(p, perm);
      var t, i := Walk(root, va, true);
      if t == 0 { return false; }
      ghost var v := V();
      var pte := MakePte(pa, perm);
      PutStep(u, v, root, vpn, p, pte);
      StoreLeaf(root, vpn, t, i, pte);
      ok := true;
    }

    method MapRound(ghost u: Space, root: nat, ghost vpn: nat, ghost p: nat, perm: nat, ghost i: nat, ghost n: nat,
                    a: nat, pa: nat, ghost k: nat, ghost q: nat) returns (ok: bool, ghost j: nat)
      requires Valid() && Own(u) && root in u.roots && roots == u.roots && perm < 1024 && vpn + n <= MAXVPN
      requires PutRange(u, V(), root, vpn, p, perm, i) && Enterable(u, root, vpn, p, n) && i < n
      requires k == vpn + i && q == p + i && a == k * PGSIZE && pa == q * PGSIZE
      modifies this`pages, this`freelist, this`free, this`owner
      ensures Valid() && roots == u.roots
      ensures PutRange(u, V(), root, vpn, p, perm, j) && j == if ok then i + 1 else i
      ensures !ok ==> free == []
      ensures |old(free)| <= if ok then |free| + 2 else 1
    {
      ghost var v := V();
      PutRangeNext(u, v, root, vpn, p, perm, i, n, k, q);
      ok := MapPage(root, a, pa, perm, k, q);
      j := i;
      if ok {
        j := i + 1;
        PutRangeStep(u, v, V(), root, vpn, p, perm, i, n, k, q, j);
      } else {
        PutRangeGrew(u, v, V(), root, vpn, p, perm, i);
      }
    }

    /** The loop of mappages. */
    method MapLoop(root: nat, ghost vpn: nat, ghost p: nat, perm: nat, ghost n: nat, first: nat, last: nat, pa: nat)
      returns (ok: bool, ghost done: nat)
      requires Valid() && root in roots && perm < 1024 && 0 < n && vpn + n <= MAXVPN && Enterable(V(), root, vpn, p, n)
      requires first == vpn * PGSIZE && last == (vpn + n - 1) * PGSIZE && pa == p * PGSIZE
      modifies this`pages, this`freelist, this`free, this`owner
      ensures Valid() && PutRange(old(V()), V(), root, vpn, p, perm, done)
      ensures if ok then done == n else free == [] && done < n
      ensures |old(free)| <= 2 * done + if ok then |free| else 1
    {
      ghost var u := V();
      var a, pa0 := first, pa;
      done := 0;
      PutRangeNone(u, root, vpn, p, perm);
      while true
        invariant done < n && a == (vpn + done) * PGSIZE && pa0 == (p + done) * PGSIZE
        invariant Valid() && roots == u.roots && PutRange(u, V(), root, vpn, p, perm, done)
        invariant |old(free)| <= |free| + 2 * done
        decreases n - done
      {
        ok, done := MapRound(u, root, vpn, p, perm, done, n, a, pa0, vpn + done, p + done);
        if !ok { return; }
        if a == last { return; }
        a := a + PGSIZE;
        pa0 := pa0 + PGSIZE;
      }
    }

    /** mappages enters the n pages of va .. va + size; when memory runs out it keeps those it has entered. A page takes
        at most two tables. */
    method Mappages(root: nat, va: nat, size: nat, pa: nat, perm: nat, ghost vpn: nat, ghost p: nat, ghost n: nat)
        returns (ok: bool, ghost done: nat)
      requires Valid() && root in roots && 0 < size && va + size <= MAXVA && pa % PGSIZE == 0 && perm < 1024
      requires vpn == va / PGSIZE && p == pa / PGSIZE && n == (va + size - 1) / PGSIZE - va / PGSIZE + 1
               && Enterable(V(), root, vpn, p, n)
      modifies this`pages, this`freelist, this`free, this`owner
      ensures Valid() && PutRange(old(V()), V(), root, vpn, p, perm, done)
      ensures if ok then done == n else free == [] && done < n
      ensures |old(free)| <= 2 * done + if ok then |free| else 1
    {
      var a := va / PGSIZE * PGSIZE;
      var last := (va + size - 1) / PGSIZE * PGSIZE;
      ok, done := MapLoop(root, vpn, p, perm, n, a, last, pa);
    }

    // ---- uvmunmap ----

    /** One page of uvmunmap: kfree comes before the entry is cleared. */
    method UnmapPage(root: nat, va: nat, dofree: bool, ghost vpn: nat)
      requires Valid() && root in roots && va == vpn * PGSIZE && vpn < MAXVPN && IsLeaf(View(V(), root), vpn)
               && dofree == (vpn < TRAPFRAME)
      modifies this`pages, this`freelist, this`free, this`owner
      ensures Valid() && Cut(old(V()), V(), root, vpn) && |free| == |old(free)| + if dofree then 1 else 0
    {
      ghost var v := V();
      PageAddress(vpn, va);
      MappedTable(v, root, vpn);
      var t, i := Walk(root, va, false);
      var pte := pages[t].ptes[i];
      ClearLeaf(root, vpn, t, i, pte, dofree);
    }

    method ClearLeaf(ghost root: nat, ghost vpn: nat, t: nat, i: nat, pte: nat, dofree: bool)
      requires Valid() && root in roots && vpn in View(V(), root) && dofree == (vpn < TRAPFRAME)
      requires t == TableOf(V(), root, vpn) && i == vpn % 512 && pte == Lookup(pages, root, vpn)
      modifies this`pages, this`freelist, this`free, this`owner
      ensures Valid() && Cut(old(V()), V(), root, vpn) && |free| == |old(free)| + if dofree then 1 else 0
    {
      ghost var v := V();
      ghost var p := Child(pte);
      MappedTable(v, root, vpn);
      CutStep(v, root, vpn, Run(freelist), t, p);
      WithoutLeafIs(v, root, vpn, Run(freelist), t, p);
      if dofree {
        var pa := PTE2PA(pte);
        PageAddress(p, pa);
        PartitionGive(lo, |pages|, free, owner, p);
        Kfree(pa);
        owner := owner - {p};
      }
      assert pages[t] == v.pages[t];
      Frame(pages, freelist, free, t, Table(pages[t].ptes[i := 0]));
      pages := pages[t := Table(pages[t].ptes[i := 0])];
      assert V() == WithoutLeaf(v, root, vpn, Run(old(freelist)));
    }

    /** uvmunmap removes npages mappings from va on. Pages below TRAPFRAME belong to the address space: those are
        freed, the others are not. */
    method Uvmunmap(root: nat, va: nat, npages: nat, dofree: bool, ghost vpn: nat)
      requires Valid() && root in roots && va == vpn * PGSIZE && AllLeaves(View(V(), root), vpn, npages)
      requires if dofree then vpn + npages <= TRAPFRAME else TRAPFRAME <= vpn && vpn + npages <= MAXVPN
      modifies this`pages, this`freelist, this`free, this`owner
      ensures Valid() && CutRange(old(V()), V(), root, vpn, npages) && |free| == |old(free)| + if dofree then npages
              else 0
    {
      ghost var u := V();
      var a := va;
      ghost var i, k := 0, vpn;
      RestNone(u, root);
      while a < va + npages * PGSIZE
        invariant a == k * PGSIZE && k == vpn + i && i <= npages
        invariant Valid() && CutRange(u, V(), root, vpn, i) && |free| == |old(free)| + if dofree then i else 0
      {
        ghost var v := V();
        CutRangeNext(u, v, root, vpn, i, k, npages);
        UnmapPage(root, a, dofree, k);
        i := CutRangeStep(u, v, V(), root, vpn, i, k);
        a, k := a + PGSIZE, k + 1;
      }
      assert i == npages;
    }

    // ---- growing and shrinking a process ----

    /** kfree of a page that only the kernel refers to. */
    method Release(pa: nat, ghost p: nat)
      requires Valid() && pa == p * PGSIZE && p in owner && owner[p] == Other
      modifies this`pages, this`freelist, this`free, this`owner
      ensures Valid() && V() == WithFree(old(V()), p, Run(old(freelist))) && SameViews(old(V()), V())
    {
      ghost var v := V();
      PageAddress(p, pa);
      OtherOwn(v, p, Run(freelist), WithFree(v, p, Run(freelist)));
      PartitionGive(lo, |pages|, free, owner, p);
      Kfree(pa);
      owner := owner - {p};
    }

    /** mappages on one page. */
    method MapOne(root: nat, va: nat, pa: nat, perm: nat, ghost vpn: nat, ghost p: nat) returns (ok: bool)
      requires Valid() && root in roots && va == vpn * PGSIZE && pa == p * PGSIZE && vpn < MAXVPN && perm < 1024
               && vpn !in View(V(), root)
      requires vpn < TRAPFRAME ==> Lent(V(), p)
      modifies this`pages, this`freelist, this`free, this`owner
      ensures Valid()
      ensures ok ==> Put(old(V()), V(), root, vpn, p, PagePte(p, perm))
      ensures !ok ==> View(V(), root) == View(old(V()), root) && Rest(old(V()), V(), root, {})
      ensures |old(free)| <= if ok then |free| + 2 else 1
    {
      ghost var u := V();
      ghost var done;
      ghost var n := OnePage(u, root, vpn, va, p, pa);
      ok, done := Mappages(root, va, PGSIZE, pa, perm, vpn, p, n);
      if ok { PutOne(u, V(), root, vpn, p, perm, done); } else { PutNone(u, V(), root, vpn, p, perm, done); }
    }

    /** A page is allocated, given its contents and mapped; if that fails it goes back. */
    method AllocPage(root: nat, va: nat, page: Page, perm: nat, ghost vpn: nat) returns (ok: bool, ghost pte: nat)
      requires Valid() && root in roots && va == vpn * PGSIZE && vpn < TRAPFRAME && perm < 1024
               && vpn !in View(V(), root) && page.Data?
      modifies this`pages, this`freelist, this`free, this`owner
      ensures Valid() && Rest(old(V()), V(), root, {})
      ensures ok ==> PteFlags(pte) == WithV(perm) && View(V(), root) == View(old(V()), root)[vpn := Mapped(pte, page)]
      ensures !ok ==> View(V(), root) == View(old(V()), root)
      ensures |old(free)| <= if ok then |free| + 3 else 2
    {
      ghost var u := V();
      RestNone(u, root);
      pte := 0;
      var mem := KallocFilled(page);
      if mem == 0 { return false, 0; }
      pte := PagePte(mem, perm);
      PagePteFields(mem, perm);
      ok := MapOrFree(u, root, va, mem, page, perm, vpn);
    }

    method MapOrFree(ghost u: Space, root: nat, va: nat, mem: nat, ghost page: Page, perm: nat, ghost vpn: nat)
        returns (ok: bool)
      requires Valid() && root in roots && va == vpn * PGSIZE && vpn < TRAPFRAME && perm < 1024
               && vpn !in View(V(), root) && page.Data?
      requires 0 < mem < |u.pages| && mem !in u.owner && V() == WithOther(u, mem, page) && SameViews(u, V())
      modifies this`pages, this`freelist, this`free, this`owner
      ensures Valid() && Rest(u, V(), root, {})
      ensures ok ==> View(V(), root) == View(u, root)[vpn := Mapped(PagePte(mem, perm), page)]
      ensures !ok ==> View(V(), root) == View(u, root)
      ensures |old(free)| <= if ok then |free| + 2 else 1
    {
      ghost var v := V();
      ok := MapOne(root, va, mem * PGSIZE, perm, vpn, mem);
      ghost var w, run := V(), Run(freelist);
      if ok {
        AllocDone(u, v, w, root, vpn, mem, perm, page);
      } else {
        StillLent(v, w, root, {}, mem);
        Release(mem * PGSIZE, mem);
        AllocUndone(u, v, w, V(), root, mem, page, run);
      }
    }

    method Uvmdealloc(root: nat, oldsz: nat, newsz: nat, ghost to: nat, ghost n: nat) returns (r: nat)
      requires Valid() && root in roots && to == Up(newsz) && n == (if newsz < oldsz then Up(oldsz) - Up(newsz) else 0)
      requires newsz < oldsz ==> Up(oldsz) <= TRAPFRAME && AllLeaves(View(V(), root), to, n)
      modifies this`pages, this`freelist, this`free, this`owner
      ensures Valid() && CutRange(old(V()), V(), root, to, n) && |free| == |old(free)| + n
      ensures r == if newsz < oldsz then newsz else oldsz
    {
      RestNone(V(), root);
      if newsz >= oldsz { return oldsz; }
      UpMonotone(newsz, oldsz);
      var first, last := Up(newsz) * PGSIZE, Up(oldsz) * PGSIZE;
      if first < last {
        var npages := (last - first) / PGSIZE;
        assert npages == n;
        Uvmunmap(root, first, npages, true, to);
      }
      r := newsz;
    }

    /** uvmalloc maps fresh zero pages from PGROUNDUP(oldsz) to newsz, or leaves the address space as it was. With three
        free pages for each page asked for, which the two tables over it may need, it does not fail. */
    method Uvmalloc(root: nat, oldsz: nat, newsz: nat, xperm: nat) returns (r: nat, ghost ok: bool)
      requires Valid() && root in roots && xperm in {0, PTE_W, PTE_X, PTE_W + PTE_X}
      requires oldsz <= newsz ==> newsz <= TRAPFRAME * PGSIZE && Unmapped(View(V(), root), Up(oldsz), Up(newsz))
      modifies this`pages, this`freelist, this`free, this`owner
      ensures Valid() && Rest(old(V()), V(), root, {})
      ensures newsz < oldsz ==> ok && r == oldsz && View(V(), root) == View(old(V()), root)
      ensures oldsz <= newsz && ok ==>
              r == newsz && Filling(View(old(V()), root), View(V(), root), Zero(UserFlags(xperm)), Up(oldsz), Up(newsz))
              && Granted(View(V(), root), Up(oldsz), Up(newsz), xperm)
      ensures !ok ==> r == 0 && View(V(), root) == View(old(V()), root)
      ensures !ok ==> oldsz <= newsz && |old(free)| < 3 * (Up(newsz) - Up(oldsz))
      ensures ok && oldsz <= newsz ==> |old(free)| <= |free| + 3 * (Up(newsz) - Up(oldsz))
    {
      ghost var u := V();
      RestNone(u, root);
      ok := true;
      if newsz < oldsz { return oldsz, true; }
      UpMonotone(oldsz, newsz);
      ghost var from: nat, k: nat := Up(oldsz), Up(oldsz);
      ghost var to: nat, src := Up(newsz), Zero(UserFlags(xperm));
      var a := Up(oldsz) * PGSIZE;
      while a < newsz
        invariant a == k * PGSIZE && from <= k <= to
        invariant Valid() && Rest(u, V(), root, {}) && Filling(View(u, root), View(V(), root), src, from, k)
        invariant |old(free)| <= |free| + 3 * (k - from)
      {
        UpBelow(k, a, newsz);
        ZeroSource(k, xperm);
        var more;
        more, k := AllocRound(u, root, a, Data(Filled(0)), PTE_R + PTE_U + xperm, src, from, k, to);
        if !more {
          Undo(u, root, src, Up(oldsz) * PGSIZE, a, from, k);
          return 0, false;
        }
        a := a + PGSIZE;
      }
      UpAtLeast(k, a, newsz);
      assert k == to;
      ZeroGranted(View(V(), root), from, to, xperm);
      r := newsz;
    }

    method AllocRound(ghost u: Space, root: nat, va: nat, page: Page, perm: nat, ghost src: Source, ghost from: nat,
        ghost k: nat, ghost to: nat)
      returns (ok: bool, ghost j: nat)
      requires Valid() && root in roots && va == k * PGSIZE && from <= k < to <= TRAPFRAME && perm < 1024 && page.Data?
      requires Rest(u, V(), root, {}) && Unmapped(View(u, root), from, to)
               && Filling(View(u, root), View(V(), root), src, from, k)
      requires forall pte: nat | PteFlags(pte) == WithV(perm) :: From(src, k, Mapped(pte, page))
      modifies this`pages, this`freelist, this`free, this`owner
      ensures Valid() && Rest(u, V(), root, {}) && j == (if ok then k + 1 else k)
              && Filling(View(u, root), View(V(), root), src, from, j)
      ensures |old(free)| <= if ok then |free| + 3 else 2
    {
      ghost var v, pte := V(), 0;
      FillingNext(View(u, root), View(v, root), src, from, k, to);
      ok, pte := AllocPage(root, va, page, perm, k);
      RestAgain(u, v, V(), root, {});
      j := k;
      if ok {
        j := FillingStep(View(u, root), View(v, root), View(V(), root), src, from, k, Mapped(pte, page), to);
      }
    }

    /** The failure path of uvmalloc: what was mapped is unmapped again. */
    method Undo(ghost u: Space, root: nat, ghost src: Source, oldsz: nat, a: nat, ghost from: nat, ghost k: nat)
      requires Valid() && root in roots && from <= k <= TRAPFRAME && oldsz == from * PGSIZE && a == k * PGSIZE
               && Leaves(src, from, k)
      requires Rest(u, V(), root, {}) && Unmapped(View(u, root), from, k)
               && Filling(View(u, root), View(V(), root), src, from, k)
      modifies this`pages, this`freelist, this`free, this`owner
      ensures Valid() && Rest(u, V(), root, {}) && View(V(), root) == View(u, root)
    {
      ghost var v := V();
      UpExact(from, oldsz);
      UpExact(k, a);
      ghost var n := k - from;
      FillingLeaves(View(u, root), View(v, root), src, from, k, n);
      var _ := Uvmdealloc(root, a, oldsz, from, n);
      FillingUndone(View(u, root), View(v, root), src, from, k, n);
      RestAgain(u, v, V(), root, {});
    }

    /** uvmcopy gives the child pages of its own with the bytes and flags of the parent's, or leaves it as it was. */
    method Uvmcopy(parent: nat, child: nat, sz: nat) returns (ok: bool)
      requires Valid() && parent in roots && child in roots && parent != child && Up(sz) <= TRAPFRAME
      requires AllLeaves(View(V(), parent), 0, Up(sz)) && Unmapped(View(V(), child), 0, Up(sz))
      modifies this`pages, this`freelist, this`free, this`owner
      ensures Valid() && Rest(old(V()), V(), child, {})
      ensures ok ==> Filling(View(old(V()), child), View(V(), child), Like(View(old(V()), parent)), 0, Up(sz))
      ensures !ok ==> View(V(), child) == View(old(V()), child) && |old(free)| < 3 * Up(sz)
    {
      ghost var u := V();
      RestNone(u, child);
      ghost var k: nat, to := 0, Up(sz);
      ghost var src := Like(View(u, parent));
      var i: nat := 0;
      while i < sz
        invariant i == k * PGSIZE && k <= to
        invariant Valid() && Rest(u, V(), child, {}) && Filling(View(u, child), View(V(), child), src, 0, k)
        invariant |old(free)| <= |free| + 3 * k
      {
        UpBelow(k, i, sz);
        ok, k := CopyRound(u, parent, child, i, src, k, to);
        if !ok {
          UndoCopy(u, child, i / PGSIZE, src, k);
          return;
        }
        i := i + PGSIZE;
      }
      UpAtLeast(k, i, sz);
      ok := true;
    }

    method CopyRound(ghost u: Space, parent: nat, child: nat, i: nat, ghost src: Source, ghost k: nat, ghost to: nat)
        returns (ok: bool, ghost j: nat)
      requires Valid() && parent in roots && child in roots && parent != child && i == k * PGSIZE && k < to <= TRAPFRAME
      requires Rest(u, V(), child, {}) && src == Like(View(u, parent)) && AllLeaves(View(u, parent), 0, to)
      requires Unmapped(View(u, child), 0, to) && Filling(View(u, child), View(V(), child), src, 0, k)
      modifies this`pages, this`freelist, this`free, this`owner
      ensures Valid() && Rest(u, V(), child, {}) && j == (if ok then k + 1 else k)
              && Filling(View(u, child), View(V(), child), src, 0, j)
      ensures |old(free)| <= if ok then |free| + 3 else 2
    {
      ghost var v := V();
      assert IsLeaf(View(u, parent), k);
      assert View(v, parent) == View(u, parent);
      PageAddress(k, i);
      MappedTable(v, parent, k);
      MappedPage(v, parent, k);
      var t, e := Walk(parent, i, false);
      var pte := pages[t].ptes[e];
      var pa := PTE2PA(pte);
      PageAddress(pte / 1024, pa);
      LikeFlags(pte);
      ok, j := AllocRound(u, child, i, pages[pa / PGSIZE], PteFlags(pte), src, 0, k, to);
    }

    method UndoCopy(ghost u: Space, root: nat, npages: nat, ghost src: Source, ghost k: nat)
      requires Valid() && root in roots && npages == k <= TRAPFRAME && Leaves(src, 0, k)
      requires Rest(u, V(), root, {}) && Unmapped(View(u, root), 0, k)
               && Filling(View(u, root), View(V(), root), src, 0, k)
      modifies this`pages, this`freelist, this`free, this`owner
      ensures Valid() && Rest(u, V(), root, {}) && View(V(), root) == View(u, root)
    {
      ghost var v := V();
      FillingLeaves(View(u, root), View(v, root), src, 0, k, npages);
      Uvmunmap(root, 0, npages, true, 0);
      FillingUndone(View(u, root), View(v, root), src, 0, k, npages);
      RestAgain(u, v, V(), root, {});
    }

    // ---- creating and freeing page tables ----

    method Uvmcreate() returns (r: nat)
      requires Valid()
      modifies this`pages, this`freelist, this`free, this`owner, this`roots
      ensures Valid()
      ensures r == 0 ==> V() == old(V()) && old(free) == []
      ensures r != 0 ==> |old(free)| == |free| + 1
      ensures r != 0 ==>
              r !in old(owner) && owner == old(owner)[r := Top(r)] && roots == old(roots) + {r} && View(V(), r) == map[]
      ensures r != 0 ==> |pages| == |old(pages)| && forall x | x in old(roots) :: View(V(), x) == View(old(V()), x)
      ensures r != 0 ==> forall p | p in old(owner) && p < |pages| :: pages[p] == old(pages)[p]
    {
      r := KallocFilled(Table(ZeroPtes()));
      if r != 0 {
        ghost var v := V();
        RootOwn(v, r);
        owner := owner[r := Top(r)];
        roots := roots + {r};
        assert V() == WithRoot(v, r);
        PartitionKeys(lo, |pages|, free, v.owner, owner);
      }
    }

    /** freewalk gives the table in slot s and all tables under it back to the allocator. The entry that leads to s
        is left for the caller to clear. */
    method Freewalk(t: nat, ghost s: Slot)
      requires Valid() && InRange(roots, s) && IsTable(s) && t == Ref(pages, s) && t != 0 && View(V(), s.r) == map[]
      modifies this`pages, this`freelist, this`free, this`owner
      ensures ValidBut(s) && Freed(old(V()), V(), s) && t == Ref(pages, s) && t < |pages| && pages[t].Run?
              && t !in owner
      decreases Height(s)
    {
      ghost var u := V();
      TableIn(u, s);
      FreedNone(u, s);
      var i: nat := 0;
      ghost var j: nat := 0;
      while i < ENTRIES
        invariant i == j <= ENTRIES && Valid() && FreedUpTo(u, V(), s, j) && t == Ref(pages, s) && t in owner
                  && owner[t] == s && t < |pages| && pages[t].Table?
      {
        var pte := pages[t].ptes[i];
        EmptyEntry(V(), s, t, i);
        if IsValid(pte) && IsPointer(pte) {
          ghost var v := V();
          var child := PTE2PA(pte) / PGSIZE;
          Freewalk(child, Below(s, i));
          j := ClearPointer(u, v, s, t, i);
        } else {
          j := FreedSkip(u, V(), s, i);
        }
        i := i + 1;
      }
      FreeLast(u, t, s);
    }

    method ClearPointer(ghost u: Space, ghost v: Space, ghost s: Slot, t: nat, i: nat) returns (ghost j: nat)
      requires (s.Top? || s.Mid?) && i < ENTRIES && ValidBut(Below(s, i)) && Own(v) && InRange(roots, s)
      requires FreedUpTo(u, v, s, i) && Freed(v, V(), Below(s, i)) && t == Ref(v.pages, s) && t != 0 && t in v.owner
               && v.owner[t] == s
      requires var c := Ref(pages, Below(s, i)); c < |pages| && pages[c].Run? && c !in owner
      modifies this`pages
      ensures Valid() && j == i + 1 && FreedUpTo(u, V(), s, j) && t == Ref(pages, s) && t in owner && owner[t] == s
              && t < |pages| && pages[t].Table?
    {
      ghost var w := V();
      FreedParent(v, w, s, t, i);
      PointerClearedOwn(w, s, i);
      Frame(pages, freelist, free, t, Table(pages[t].ptes[i := 0]));
      pages := pages[t := Table(pages[t].ptes[i := 0])];
      assert V() == WithoutPointer(w, s, i);
      j := FreedStep(u, v, w, V(), s, t, i);
    }

    method FreeLast(ghost u: Space, t: nat, ghost s: Slot)
      requires Valid() && Own(u) && FreedUpTo(u, V(), s, ENTRIES) && t == Ref(pages, s) && t in owner && owner[t] == s
               && InRange(roots, s) && IsTable(s) && View(V(), s.r) == map[]
      modifies this`pages, this`freelist, this`free, this`owner
      ensures ValidBut(s) && Freed(u, V(), s) && t == Ref(pages, s) && t < |pages| && pages[t].Run? && t !in owner
    {
      ghost var v, run := V(), Run(freelist);
      TableIn(v, s);
      PageAddress(t, t * PGSIZE);
      FreedBare(u, v, s, t);
      TableFreed(v, s, run);
      TableFreedOwn(v, s, run);
      PartitionGive(lo, |pages|, free, owner, t);
      Kfree(t * PGSIZE);
      owner := owner - {t};
      assert V() == WithFree(v, t, run);
      FreedEnd(u, v, V(), s, t, run);
    }

    /** uvmfree gives every page of the address space, data and tables, back to the allocator. */
    method Uvmfree(root: nat, sz: nat)
      requires Valid() && root in roots && Up(sz) <= TRAPFRAME && AllLeaves(View(V(), root), 0, Up(sz))
      requires Within(View(V(), root), Up(sz))
      modifies this`pages, this`freelist, this`free, this`owner, this`roots
      ensures Valid() && Gone(old(V()), V(), root)
    {
      ghost var u, n := V(), Up(sz);
      RestNone(u, root);
      if sz > 0 { Uvmunmap(root, 0, Up(sz), true, 0); }
      ghost var v := V();
      AllCut(View(u, root), n);
      RootIn(v, root);
      Freewalk(root, Top(root));
      ghost var w := V();
      RootDropped(w, root);
      roots := roots - {root};
      assert V() == w.(roots := w.roots - {root});
      GoneBy(u, v, w, V(), root);
    }

    // ---- proc.c: page tables of processes ----

    /** proc_pagetable: the trampoline and the trapframe are mapped, or every page it took is free again. */
    method ProcPagetable(trampoline: nat, trapframe: nat) returns (r: nat)
      requires Valid()
      modifies this`pages, this`freelist, this`free, this`owner, this`roots
      ensures Valid() && |pages| == |old(pages)|
      ensures r == 0 ==> roots == old(roots) && owner == old(owner) && SameViews(old(V()), V())
      ensures r != 0 ==> roots == old(roots) + {r} && r !in old(roots) && Pruned(owner, r) == old(owner)
      ensures r != 0 ==>
              && View(V(), r) == ProcView(trampoline, trapframe) && Permitted(View(V(), r), 0, trapframe)
              && forall x | x in old(roots) :: View(V(), x) == View(old(V()), x)
      ensures |old(free)| <= if r != 0 then |free| + 5 else 4
    {
      ghost var u := V();
      r := Uvmcreate();
      if r == 0 { return; }
      ghost var v := V();
      CreatedOwner(u, r);
      EmptyView();
      var ok := MapOne(r, TRAMPOLINE * PGSIZE, trampoline * PGSIZE, PTE_R + PTE_X, TRAMPOLINE, trampoline);
      ghost var w := V();
      if !ok {
        Uvmfree(r, 0);
        Discarded(u, v, w, V(), r);
        return 0;
      }
      OnTrampoline(v, w, r, trampoline);
      ok := MapTrapframe(v, r, trampoline, trapframe);
      ghost var x := V();
      Kept(u, v, x, r);
      if !ok {
        Uvmfree(r, 0);
        Discarded(u, v, x, V(), r);
        return 0;
      }
      FreshPermitted(trampoline, trapframe);
    }

    method MapTrapframe(ghost v: Space, r: nat, ghost trampoline: nat, trapframe: nat) returns (ok: bool)
      requires Valid() && r in roots && Rest(v, V(), r, {}) && View(V(), r) == TrampolineView(trampoline)
      modifies this`pages, this`freelist, this`free, this`owner
      ensures Valid() && Rest(v, V(), r, {})
      ensures View(V(), r) == if ok then ProcView(trampoline, trapframe) else map[]
      ensures |old(free)| <= if ok then |free| + 2 else 1
    {
      ghost var w := V();
      TrampolineLeaf(trampoline);
      ok := MapOne(r, TRAPFRAME * PGSIZE, trapframe * PGSIZE, PTE_R + PTE_W, TRAPFRAME, trapframe);
      ghost var x := V();
      RestAgain(v, w, x, r, {});
      if ok {
        OnTrapframe(w, x, r, trampoline, trapframe);
      } else {
        ProcUnmap(r, TRAMPOLINE);
        RestAgain(v, x, V(), r, {});
      }
    }

    /** proc_freepagetable: every page of the process but its trapframe is free again. */
    method ProcFreepagetable(root: nat, sz: nat)
      requires Valid() && root in roots && Up(sz) <= TRAPFRAME && ProcLike(View(V(), root), Up(sz))
      modifies this`pages, this`freelist, this`free, this`owner, this`roots
      ensures Valid() && Gone(old(V()), V(), root)
    {
      ghost var u, n := V(), Up(sz);
      ProcUnmap(root, TRAMPOLINE);
      ghost var v := V();
      ProcUnmapped(View(u, root), n);
      ProcUnmap(root, TRAPFRAME);
      ghost var w := V();
      RestAgain(u, v, w, root, {});
      Uvmfree(root, sz);
      RestGone(u, w, V(), root);
    }

    method ProcUnmap(root: nat, page: nat)
      requires Valid() && root in roots && TRAPFRAME <= page < MAXVPN && IsLeaf(View(V(), root), page)
      modifies this`pages, this`freelist, this`free, this`owner
      ensures Valid() && View(V(), root) == View(old(V()), root) - {page} && Rest(old(V()), V(), root, {})
    {
      ghost var v := V();
      OneLeaf(View(v, root), page);
      Uvmunmap(root, page * PGSIZE, 1, false, page);
      CutViewNext(View(v, root), page, 0, page, 1);
    }

    // ---- copying between kernel and user memory ----

    /** walkaddr: the page a user address is mapped to, 0 if a user may not use it. */
    method Walkaddr(root: nat, va: nat, ghost k: nat) returns (pa: nat)
      requires Valid() && root in roots && UserBelow(View(V(), root)) && k == va / PGSIZE
      modifies this`pages, this`freelist, this`free, this`owner
      ensures V() == old(V()) && free == old(free) && Valid()
      ensures pa == 0 <==> !Usable(View(V(), root), k)
      ensures pa != 0 ==> pa == View(V(), root)[k].pte / 1024 * PGSIZE
    {
      if va >= MAXVA { return 0; }
      var t, i := Walk(root, va, false);
      InView(V(), root, k);
      if t == 0 { return 0; }
      var pte := pages[t].ptes[i];
      if !IsValid(pte) { return 0; }
      if !IsUser(pte) { return 0; }
      UsablePage(V(), root, k);
      pa := PTE2PA(pte);
    }

    /** One round of copyin: at most the rest of one page. */
    method CopyChunk(root: nat, va: nat, left: nat, ghost k: nat) returns (ok: bool, chunk: seq<byte>)
      requires Valid() && root in roots && UserBelow(View(V(), root)) && k == va / PGSIZE && left > 0
      modifies this`pages, this`freelist, this`free, this`owner
      ensures V() == old(V()) && free == old(free) && Valid()
      ensures ok <==> Usable(View(V(), root), k)
      ensures ok ==> 0 < |chunk| <= left && IsChunk(View(V(), root), k, va % PGSIZE, chunk)
    {
      var va0 := va / PGSIZE * PGSIZE;
      SamePage(va);
      var pa0 := Walkaddr(root, va0, k);
      if pa0 == 0 { return false, []; }
      var n := PGSIZE - (va - va0);
      if n > left { n := left; }
      UsablePage(V(), root, k);
      PageAddress(View(V(), root)[k].pte / 1024, pa0);
      var off := va - va0;
      chunk := pages[pa0 / PGSIZE].bytes[off..off + n];
      ok := true;
    }

    /** copyin delivers the user's bytes, or fails because some page of them is not the user's. */
    method Copyin(root: nat, srcva: nat, len: nat) returns (ok: bool, dst: seq<byte>)
      requires Valid() && root in roots && UserBelow(View(V(), root))
      modifies this`pages, this`freelist, this`free, this`owner
      ensures V() == old(V()) && free == old(free) && Valid()
      ensures ok ==> |dst| == len && Got(View(V(), root), srcva, dst)
      ensures !ok ==> exists a: nat :: srcva <= a < srcva + len && !UserAt(View(V(), root), a)
    {
      ghost var view := View(V(), root);
      dst := [];
      var va: nat, left: nat := srcva, len;
      while left > 0
        invariant va == srcva + |dst| && |dst| + left == len && V() == old(V()) && free == old(free) && Valid()
        invariant Got(view, srcva, dst)
      {
        ghost var k := va / PGSIZE;
        var more, chunk := CopyChunk(root, va, left, k);
        if !more {
          assert !UserAt(view, va);
          return false, dst;
        }
        GotStep(view, srcva, dst, va, k, chunk);
        dst := dst + chunk;
        left := left - |chunk|;
        va := va + |chunk|;
      }
      ok := true;
    }

    /** copyinstr delivers the user's string with its terminator, or fails because the terminator is not among the
        first max bytes or a page before it is not the user's. */
    method Copyinstr(root: nat, srcva: nat, max: nat) returns (ok: bool, dst: seq<byte>)
      requires Valid() && root in roots && UserBelow(View(V(), root))
      modifies this`pages, this`freelist, this`free, this`owner
      ensures V() == old(V()) && free == old(free) && Valid() && |dst| <= max && Got(View(V(), root), srcva, dst)
      ensures ok ==> dst != [] && dst[|dst| - 1] == 0 && 0 !in dst[..|dst| - 1]
      ensures !ok ==> 0 !in dst && (|dst| == max || exists a: nat :: a == srcva + |dst| && !UserAt(View(V(), root), a))
    {
      ghost var view := View(V(), root);
      dst, ok := [], false;
      var va: nat, left: nat := srcva, max;
      while !ok && left > 0
        invariant |dst| + left == max && V() == old(V()) && free == old(free) && Valid() && Got(view, srcva, dst)
        invariant view == View(V(), root)
        invariant if ok then dst != [] && dst[|dst| - 1] == 0 && 0 !in dst[..|dst| - 1]
                  else 0 !in dst && va == srcva + |dst|
        decreases left
      {
        ghost var k := va / PGSIZE;
        var more, chunk := CopyChunk(root, va, left, k);
        if !more {
          assert !UserAt(view, va);
          return false, dst;
        }
        GotStep(view, srcva, dst, va, k, chunk);
        ghost var all := dst + chunk;
        dst, ok := CopyUntilNull(dst, chunk);
        GotPrefix(view, srcva, all, dst);
        left := max - |dst|;
        va := va + |chunk|;
      }
    }

    /** The inner loop of copyinstr. */
    static method CopyUntilNull(dst0: seq<byte>, chunk: seq<byte>) returns (dst: seq<byte>, found: bool)
      requires 0 !in dst0 && chunk != []
      ensures dst0 < dst <= dst0 + chunk
      ensures if found then dst[|dst| - 1] == 0 && 0 !in dst[..|dst| - 1] else dst == dst0 + chunk && 0 !in dst
    {
      dst := dst0;
      var n := 0;
      while n < |chunk|
        invariant n <= |chunk| && dst == dst0 + chunk[..n] && 0 !in dst
      {
        if chunk[n] == 0 {
          dst := dst + [0];
          assert dst == dst0 + chunk[..n + 1] && dst[..|dst| - 1] == dst0 + chunk[..n];
          return dst, true;
        }
        dst := dst + [chunk[n]];
        n := n + 1;
      }
      assert chunk[..n] == chunk;
      found := false;
    }

    method StoreData(root: nat, p: nat, page: Page, ghost k: nat)
      requires Valid() && root in roots && k < TRAPFRAME && k in View(V(), root) && page.Data?
               && p == View(V(), root)[k].pte / 1024
      modifies this`pages
      ensures Valid() && View(V(), root) == View(old(V()), root)[k := Mapped(View(old(V()), root)[k].pte, page)]
              && Rest(old(V()), V(), root, {})
    {
      ghost var v := V();
      InView(v, root, k);
      DataWritten(v, root, k, page, p);
      Frame(pages, freelist, free, p, page);
      pages := pages[p := page];
      assert V() == WithData(v, p, page);
    }

    /** One round of copyout. */
    method WriteChunk(root: nat, va: nat, src: seq<byte>, ghost k: nat) returns (ok: bool, n: nat)
      requires Valid() && root in roots && UserBelow(View(V(), root)) && k == va / PGSIZE && src != []
      modifies this`pages, this`freelist, this`free, this`owner
      ensures Valid() && Rest(old(V()), V(), root, {}) && (ok <==> Usable(View(old(V()), root), k))
      ensures !ok ==> View(V(), root) == View(old(V()), root)
      ensures ok ==> 0 < n <= |src| && Patched(View(old(V()), root), View(V(), root), k, va % PGSIZE, src[..n])
    {
      ghost var v := V();
      RestNone(v, root);
      n := 0;
      var va0 := va / PGSIZE * PGSIZE;
      SamePage(va);
      var pa0 := Walkaddr(root, va0, k);
      if pa0 == 0 { return false, 0; }
      var o := va - va0;
      assert o == va % PGSIZE;
      n := PGSIZE - o;
      if n > |src| { n := |src|; }
      UsablePage(v, root, k);
      var p := pa0 / PGSIZE;
      PageAddress(View(v, root)[k].pte / 1024, pa0);
      PatchPage(root, p, o, src[..n], k);
      ok := true;
    }

    method PatchPage(root: nat, p: nat, off: nat, chunk: seq<byte>, ghost k: nat)
      requires Valid() && root in roots && k < TRAPFRAME && k in View(V(), root) && p == View(V(), root)[k].pte / 1024
      requires p < |pages| && pages[p].Data? && pages[p] == View(V(), root)[k].page && off + |chunk| <= PGSIZE
      modifies this`pages
      ensures Valid() && Rest(old(V()), V(), root, {}) && Patched(View(old(V()), root), View(V(), root), k, off, chunk)
    {
      var bytes := pages[p].bytes;
      StoreData(root, p, Data(bytes[..off] + chunk + bytes[off + |chunk|..]), k);
    }

    /** copyout writes to the user's bytes and nothing else; when a page is not the user's it stops there. */
    method Copyout(root: nat, dstva: nat, src: seq<byte>) returns (ok: bool, ghost done: nat)
      requires Valid() && root in roots && UserBelow(View(V(), root))
      modifies this`pages, this`freelist, this`free, this`owner
      ensures Valid() && Rest(old(V()), V(), root, {}) && done <= |src|
              && Wrote(View(old(V()), root), View(V(), root), dstva, src[..done])
      ensures if ok then done == |src|
              else done < |src| && exists a: nat :: a == dstva + done && !UserAt(View(old(V()), root), a)
    {
      ghost var u := V();
      RestNone(u, root);
      var va: nat, i: nat := dstva, 0;
      ghost var part: seq<byte> := [];
      while i < |src|
        invariant i <= |src| && part == src[..i] && va == dstva + i && Valid() && roots == u.roots
                  && Rest(u, V(), root, {})
        invariant Wrote(View(u, root), View(V(), root), dstva, part)
      {
        ghost var v, k := V(), va / PGSIZE;
        WroteUsable(View(u, root), View(v, root), dstva, part, k);
        var more, n := WriteChunk(root, va, src[i..], k);
        RestAgain(u, v, V(), root, {});
        if !more {
          assert !UserAt(View(u, root), va);
          return false, i;
        }
        part := WroteStep(View(u, root), View(v, root), View(V(), root), dstva, src, part, i, va, k, n);
        i := i + n;
        va := va + n;
      }
      done := i;
      ok := true;
    }
  }
}
