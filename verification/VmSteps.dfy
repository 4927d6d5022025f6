/** What the operations of kernel/vm.c do to address spaces, as relations between states of memory, and how they
    compose. */
module VmSteps {
  import opened Folding
  import opened Blocks
  import opened VmModel

  function Filled(b: byte): PageBytes { seq(PGSIZE, _ => b) }

  /** w is v with more tables under root r, and nothing else changed. */
  ghost predicate Grew(v: Space, w: Space, r: nat) {
    && SameViews(v, w) && |w.pages| == |v.pages|
    && (forall p | p in v.owner && p < |v.pages| ::
          p in w.owner && w.owner[p] == v.owner[p] && (!IsTable(v.owner[p]) ==> w.pages[p] == v.pages[p]))
    && (forall p | p in w.owner && p !in v.owner :: (w.owner[p].Mid? || w.owner[p].Low?) && w.owner[p].r == r)
  }

  lemma GrewNot(v: Space, r: nat)
    ensures Grew(v, v, r)
  {
  }

  lemma GrewTwice(u: Space, v: Space, w: Space, r: nat)
    requires Own(u) && Own(v) && Grew(u, v, r) && Grew(v, w, r)
    ensures Grew(u, w, r)
  {
    assert Open(0);
  }

  lemma LinkGrew(u: Space, v: Space, w: Space, s: Slot, i: nat, p: nat)
    requires Own(u) && (s.Top? || s.Mid?) && 0 < p < |u.pages| && p !in u.owner
             && v == WithOther(u, p, Table(ZeroPtes()))
    requires Ref(v.pages, s) in v.owner && IsTable(v.owner[Ref(v.pages, s)]) && Ref(v.pages, s) < |v.pages|
             && v.pages[Ref(v.pages, s)].Table?
    requires i < ENTRIES && w == WithTable(v, s, i, p) && SameViews(u, v) && SameViews(v, w)
    ensures Grew(u, w, s.r)
  {
    assert Open(0);
  }

  lemma NewTable(u: Space, v: Space, s: Slot, t: nat, i: nat, p: nat)
    requires Own(u) && Own(v) && (s.Top? || s.Mid?) && InRange(u.roots, s) && t == Ref(u.pages, s) && t != 0
             && i < ENTRIES
    requires Pte(u.pages, t, i) == 0 && 0 < p < |u.pages| && p !in u.owner && SameViews(u, v)
             && v == WithOther(u, p, Table(ZeroPtes()))
    ensures t == Ref(v.pages, s) < |v.pages| && v.pages[t].Table? && t in v.owner
    ensures var w := WithTable(v, s, i, p); Own(w) && Grew(u, w, s.r) && Ref(w.pages, Below(s, i)) == p
  {
    assert Open(0);
    FreePage(u, p, Table(ZeroPtes()));
    TableIn(u, s);
    TableIn(v, s);
    TableLinked(v, s, i, p);
    TableLinkedOwn(v, s, i, p);
    var w := WithTable(v, s, i, p);
    assert SameMappings(v, w);
    ViewsKept(v, w);
    LinkGrew(u, v, w, s, i, p);
  }

  /** w is v with page vpn of r mapped to page p by the given PTE. */
  ghost predicate Put(v: Space, w: Space, r: nat, vpn: nat, p: nat, pte: nat) {
    && View(w, r) == View(v, r)[vpn := Mapped(pte, PageAt(v.pages, vpn, pte))]
    && Rest(v, w, r, if vpn < TRAPFRAME then {p} else {})
  }

  /** Page vpn is mapped, and not by a PTE that looks like a pointer to a table. */
  ghost predicate IsLeaf(view: map<nat, Mapped>, vpn: nat) {
    vpn in view && PteFlags(view[vpn].pte) != PTE_V
  }

  /** w is v with page vpn of r unmapped; the page it mapped, if r owned it, has gone back to the allocator. */
  ghost predicate Cut(v: Space, w: Space, r: nat, vpn: nat) {
    View(w, r) == View(v, r) - {vpn} && Rest(v, w, r, {})
  }

  ghost function WithoutLeaf(v: Space, r: nat, vpn: nat, page: Page): Space
    requires TableOf(v, r, vpn) < |v.pages| && v.pages[TableOf(v, r, vpn)].Table?
    requires vpn < TRAPFRAME ==> Child(Lookup(v.pages, r, vpn)) < |v.pages|
  {
    if vpn < TRAPFRAME then WithFree(WithLeaf(v, r, vpn, 0), Child(Lookup(v.pages, r, vpn)), page)
        else WithLeaf(v, r, vpn, 0)
  }

  lemma MappedTable(v: Space, r: nat, vpn: nat)
    requires Own(v) && r in v.roots && vpn in View(v, r)
    ensures vpn < VPNS && IsValid(Lookup(v.pages, r, vpn)) && View(v, r)[vpn].pte == Lookup(v.pages, r, vpn)
    ensures var t := TableOf(v, r, vpn); t != 0 && t < |v.pages| && v.pages[t].Table? && t in v.owner && v.owner[t].Low?
    ensures v.pages[TableOf(v, r, vpn)].ptes[vpn % 512] == Lookup(v.pages, r, vpn)
  {
    assert Open(0);
    TableOfIn(v, r, vpn);
  }

  lemma UnmappedOwner(v: Space, r: nat, vpn: nat)
    requires Own(v) && r in v.roots && vpn in View(v, r) && TableOf(v, r, vpn) < |v.pages|
             && v.pages[TableOf(v, r, vpn)].Table?
    ensures WithLeaf(v, r, vpn, 0).owner == if vpn < TRAPFRAME then v.owner[Child(Lookup(v.pages, r, vpn)) := Other]
            else v.owner
    ensures Own(WithLeaf(v, r, vpn, 0))
  {
    assert Open(0);
    LeafAtVpn(r, vpn);
    MappedTable(v, r, vpn);
    WithEntryOwn(v, LeafAt(r, vpn), 0);
  }

  lemma UnmappedViews(v: Space, r: nat, vpn: nat)
    requires Own(v) && r in v.roots && vpn in View(v, r) && TableOf(v, r, vpn) < |v.pages|
             && v.pages[TableOf(v, r, vpn)].Table?
    ensures View(WithLeaf(v, r, vpn, 0), r) == View(v, r) - {vpn}
    ensures forall x | x in v.roots && x != r :: View(WithLeaf(v, r, vpn, 0), x) == View(v, x)
  {
    assert Open(0);
    MappedTable(v, r, vpn);
    WithLeafView(v, r, vpn, 0);
    forall x | x in v.roots && x != r ensures View(WithLeaf(v, r, vpn, 0), x) == View(v, x) {
      WithLeafOthers(v, r, vpn, 0, x);
    }
  }

  /** In the order of the code. */
  lemma WithoutLeafIs(v: Space, r: nat, vpn: nat, page: Page, t: nat, p: nat)
    requires Own(v) && r in v.roots && vpn in View(v, r) && t == TableOf(v, r, vpn)
             && p == Child(Lookup(v.pages, r, vpn))
    requires t < |v.pages| && v.pages[t].Table? && (vpn < TRAPFRAME ==> p < |v.pages| && p != t)
    ensures var pages := if vpn < TRAPFRAME then v.pages[p := page] else v.pages;
            WithoutLeaf(v, r, vpn, page) == Space(pages[t := Table(pages[t].ptes[vpn % 512 := 0])],
                if vpn < TRAPFRAME then v.owner - {p} else v.owner, v.roots)
  {
    assert Open(0);
    UnmappedOwner(v, r, vpn);
    assert v.owner[p := Other] - {p} == v.owner - {p};
    var w := SetPte(v.pages, t, vpn % 512, 0);
    assert vpn < TRAPFRAME ==> w[p := page] == v.pages[p := page][t := Table(v.pages[t].ptes[vpn % 512 := 0])];
  }

  lemma CutRest(v: Space, u: Space, r: nat, vpn: nat, t: nat, p: nat)
    requires u.roots == v.roots && |u.pages| == |v.pages|
    requires vpn < TRAPFRAME ==> p in v.owner && v.owner[p].Leaf? && v.owner[p].r == r
    requires t in v.owner && v.owner[t].Low?
    requires u.owner == if vpn < TRAPFRAME then v.owner - {p} else v.owner
    requires forall q | 0 <= q < |v.pages| && q != t && (vpn < TRAPFRAME ==> q != p) :: u.pages[q] == v.pages[q]
    requires View(u, r) == View(v, r) - {vpn} && forall x | x in v.roots && x != r :: View(u, x) == View(v, x)
    ensures Cut(v, u, r, vpn)
  {
    assert Pruned(u.owner, r) == Pruned(v.owner, r);
    assert Pruned(v.owner, r) == Pruned(v.owner, r) - {};
  }

  lemma CutStep(v: Space, r: nat, vpn: nat, page: Page, t: nat, p: nat)
    requires Own(v) && r in v.roots && vpn in View(v, r) && t == TableOf(v, r, vpn)
             && p == Child(Lookup(v.pages, r, vpn))
    ensures t != 0 && t < |v.pages| && v.pages[t].Table? && t in v.owner
    ensures vpn < TRAPFRAME ==> p < |v.pages| && p in v.owner && p != t
    ensures Own(WithoutLeaf(v, r, vpn, page)) && Cut(v, WithoutLeaf(v, r, vpn, page), r, vpn)
  {
    MappedTable(v, r, vpn);
    if vpn < TRAPFRAME { MappedPage(v, r, vpn); }
    UnmappedOwner(v, r, vpn);
    UnmappedViews(v, r, vpn);
    var w := WithLeaf(v, r, vpn, 0);
    var u := WithoutLeaf(v, r, vpn, page);
    if vpn < TRAPFRAME { OtherOwn(w, p, page, u); }
    CutRest(v, u, r, vpn, t, p);
  }

  lemma GrewRest(v: Space, w: Space, r: nat)
    requires Own(v) && Own(w) && Grew(v, w, r)
    ensures Rest(v, w, r, {})
  {
    assert Open(0);
    assert forall p | p in v.owner :: p in w.owner && w.owner[p] == v.owner[p];
    assert forall p | p in w.owner && p !in v.owner :: Under(Top(r), w.owner[p]);
    assert Pruned(w.owner, r) == Pruned(v.owner, r);
    assert Pruned(v.owner, r) == Pruned(v.owner, r) - {};
  }

  lemma PutStep(u: Space, v: Space, r: nat, vpn: nat, p: nat, pte: nat)
    requires Own(u) && Own(v) && Grew(u, v, r) && r in u.roots && vpn < MAXVPN && TableOf(v, r, vpn) != 0
             && vpn !in View(u, r)
    requires IsValid(pte) && Child(pte) == p && (vpn < TRAPFRAME ==> Lent(u, p))
    ensures TableOf(v, r, vpn) < |v.pages| && v.pages[TableOf(v, r, vpn)].Table? && TableOf(v, r, vpn) in v.owner
    ensures var w := WithLeaf(v, r, vpn, pte); Own(w) && Put(u, w, r, vpn, p, pte) && w.owner.Keys == v.owner.Keys
  {
    TableOfIn(v, r, vpn);
    LeafPut(v, r, vpn, pte);
    GrewRest(u, v, r);
    var given := if vpn < TRAPFRAME then {p} else {};
    var w := WithLeaf(v, r, vpn, pte);
    RestTwice(u, v, w, r, {}, given);
    assert {} + given == given;
  }

  // ---- ranges of pages ----

  /** mappages can enter n pages at vpn for the physical pages from p. */
  ghost predicate Enterable(v: Space, r: nat, vpn: nat, p: nat, n: nat) {
    forall k: nat | vpn <= k < vpn + n :: k !in View(v, r) && (k < TRAPFRAME ==> Lent(v, p + (k - vpn)))
  }

  /** A data page held by the kernel. */
  ghost predicate Lent(v: Space, p: nat) {
    p in v.owner && v.owner[p] == Other && p < |v.pages| && v.pages[p].Data?
  }

  ghost function NewEntry(pages: seq<Page>, vpn: nat, p: nat, perm: nat): Mapped {
    Mapped(PagePte(p, perm), PageAt(pages, vpn, PagePte(p, perm)))
  }

  /** The view with n pages from vpn entered for the physical pages from p. */
  ghost function Entered(view: map<nat, Mapped>, pages: seq<Page>, vpn: nat, p: nat, perm: nat,
      n: nat): map<nat, Mapped> {
    if n == 0 then view
    else Entered(view, pages, vpn, p, perm, n - 1)[vpn + n - 1 := NewEntry(pages, vpn + n - 1, p + n - 1, perm)]
  }

  lemma {:induction false} EnteredAt(view: map<nat, Mapped>, pages: seq<Page>, vpn: nat, p: nat, perm: nat, n: nat,
      k: nat)
    ensures var e := Entered(view, pages, vpn, p, perm, n);
            && (k in e <==> k in view || vpn <= k < vpn + n)
            && (k in e ==> e[k] == if vpn <= k < vpn + n then NewEntry(pages, k, p + k - vpn, perm) else view[k])
  {
    if n > 0 { EnteredAt(view, pages, vpn, p, perm, n - 1, k); }
  }

  /** The pages this hands to the address space. */
  ghost function Given(vpn: nat, p: nat, n: nat): set<nat> {
    if n == 0 then {} else Given(vpn, p, n - 1) + if vpn + n - 1 < TRAPFRAME then {p + n - 1} else {}
  }

  lemma {:induction false} GivenBelow(vpn: nat, p: nat, n: nat)
    ensures forall q | q in Given(vpn, p, n) :: p <= q < p + n
  {
    if n > 0 { GivenBelow(vpn, p, n - 1); }
  }

  /** w is v with pages vpn .. vpn + n of r mapped to the physical pages from p. */
  ghost predicate PutRange(v: Space, w: Space, r: nat, vpn: nat, p: nat, perm: nat, n: nat) {
    View(w, r) == Entered(View(v, r), v.pages, vpn, p, perm, n) && Rest(v, w, r, Given(vpn, p, n))
  }

  lemma RestNone(v: Space, r: nat)
    ensures Rest(v, v, r, {})
  {
    assert Pruned(v.owner, r) == Pruned(v.owner, r) - {};
  }

  lemma RestAgain(u: Space, v: Space, w: Space, r: nat, given: set<nat>)
    requires Rest(u, v, r, given) && Rest(v, w, r, {})
    ensures Rest(u, w, r, given)
  {
    RestTwice(u, v, w, r, given, {});
    assert given + {} == given;
  }

  lemma PutRangeNone(v: Space, r: nat, vpn: nat, p: nat, perm: nat)
    ensures PutRange(v, v, r, vpn, p, perm, 0)
  {
    RestNone(v, r);
  }

  /** A page the kernel holds and has not given away is still there. */
  lemma StillLent(v: Space, w: Space, r: nat, given: set<nat>, p: nat)
    requires Own(v) && Own(w) && Rest(v, w, r, given) && Lent(v, p) && p !in given
    ensures Lent(w, p) && w.pages[p] == v.pages[p]
  {
    assert Open(0);
    assert p in Pruned(v.owner, r) && p in Pruned(w.owner, r) && Pruned(w.owner, r)[p] == Pruned(v.owner, r)[p];
  }

  lemma PutRangeNext(u: Space, v: Space, r: nat, vpn: nat, p: nat, perm: nat, i: nat, n: nat, k: nat, q: nat)
    requires Own(u) && Own(v) && PutRange(u, v, r, vpn, p, perm, i) && Enterable(u, r, vpn, p, n) && i < n
             && k == vpn + i && q == p + i
    ensures k !in View(v, r)
    ensures k < TRAPFRAME ==> Lent(u, q) && Lent(v, q) && v.pages[q] == u.pages[q]
  {
    assert Open(0);
    assert k !in View(u, r);
    EnteredAt(View(u, r), u.pages, vpn, p, perm, i, k);
    GivenBelow(vpn, p, i);
    if k < TRAPFRAME { StillLent(u, v, r, Given(vpn, p, i), q); }
  }

  lemma PutRangeGrew(u: Space, v: Space, w: Space, r: nat, vpn: nat, p: nat, perm: nat, i: nat)
    requires Own(u) && Own(v) && Own(w) && PutRange(u, v, r, vpn, p, perm, i) && Grew(v, w, r) && r in v.roots
    ensures PutRange(u, w, r, vpn, p, perm, i)
  {
    assert Open(0);
    GrewRest(v, w, r);
    RestAgain(u, v, w, r, Given(vpn, p, i));
  }

  lemma EnteredNext(view: map<nat, Mapped>, pages: seq<Page>, vpn: nat, p: nat, perm: nat, i: nat, k: nat, q: nat)
    requires k == vpn + i && q == p + i
    ensures Entered(view, pages, vpn, p, perm, i + 1)
            == Entered(view, pages, vpn, p, perm, i)[k := NewEntry(pages, k, q, perm)]
    ensures Given(vpn, p, i + 1) == Given(vpn, p, i) + if k < TRAPFRAME then {q} else {}
  {
  }

  lemma PutRangeStep(u: Space, v: Space, w: Space, r: nat, vpn: nat, p: nat, perm: nat, i: nat, n: nat, k: nat, q: nat,
      j: nat)
    requires Own(u) && Own(v) && Own(w) && PutRange(u, v, r, vpn, p, perm, i) && Enterable(u, r, vpn, p, n) && i < n
    requires j == i + 1 && k == vpn + i && q == p + i && perm < 1024 && Put(v, w, r, k, q, PagePte(q, perm))
    ensures PutRange(u, w, r, vpn, p, perm, j)
  {
    assert Open(0);
    PutRangeNext(u, v, r, vpn, p, perm, i, n, k, q);
    PagePteFields(q, perm);
    RestTwice(u, v, w, r, Given(vpn, p, i), if k < TRAPFRAME then {q} else {});
    assert NewEntry(v.pages, k, q, perm) == NewEntry(u.pages, k, q, perm);
    EnteredNext(View(u, r), u.pages, vpn, p, perm, i, k, q);
  }

  ghost predicate AllLeaves(view: map<nat, Mapped>, vpn: nat, n: nat) {
    forall k: nat | vpn <= k < vpn + n :: IsLeaf(view, k)
  }

  /** The view without n pages from vpn. */
  ghost function CutView(view: map<nat, Mapped>, vpn: nat, n: nat): map<nat, Mapped> {
    if n == 0 then view else CutView(view, vpn, n - 1) - {vpn + n - 1}
  }

  lemma {:induction false} CutViewAt(view: map<nat, Mapped>, vpn: nat, n: nat, k: nat)
    ensures k in CutView(view, vpn, n) <==> k in view && !(vpn <= k < vpn + n)
    ensures k in CutView(view, vpn, n) ==> CutView(view, vpn, n)[k] == view[k]
  {
    if n > 0 { CutViewAt(view, vpn, n - 1, k); }
  }

  lemma CutViewNext(view: map<nat, Mapped>, vpn: nat, i: nat, k: nat, j: nat)
    requires k == vpn + i && j == i + 1
    ensures CutView(view, vpn, j) == CutView(view, vpn, i) - {k}
  {
  }

  /** w is v with n pages of r from vpn on unmapped. */
  ghost predicate CutRange(v: Space, w: Space, r: nat, vpn: nat, n: nat) {
    View(w, r) == CutView(View(v, r), vpn, n) && Rest(v, w, r, {})
  }

  lemma CutRangeNext(u: Space, v: Space, r: nat, vpn: nat, i: nat, k: nat, n: nat)
    requires CutRange(u, v, r, vpn, i) && k == vpn + i && i < n && AllLeaves(View(u, r), vpn, n)
    ensures IsLeaf(View(v, r), k)
  {
    CutViewAt(View(u, r), vpn, i, k);
    assert IsLeaf(View(u, r), k);
  }

  lemma CutRangeStep(u: Space, v: Space, w: Space, r: nat, vpn: nat, i: nat, k: nat) returns (j: nat)
    requires Own(u) && Own(v) && Own(w) && CutRange(u, v, r, vpn, i) && k == vpn + i && Cut(v, w, r, k)
    ensures j == i + 1 && CutRange(u, w, r, vpn, j)
  {
    assert Open(0);
    j := i + 1;
    RestAgain(u, v, w, r, {});
    CutViewNext(View(u, r), vpn, i, k, j);
  }

  // ---- pages from the allocator ----

  lemma OnePage(u: Space, r: nat, vpn: nat, va: nat, p: nat, pa: nat) returns (n: nat)
    requires va == vpn * PGSIZE && pa == p * PGSIZE && vpn < MAXVPN && vpn !in View(u, r)
             && (vpn < TRAPFRAME ==> Lent(u, p))
    ensures vpn == va / PGSIZE && va + PGSIZE <= MAXVA && p == pa / PGSIZE && pa % PGSIZE == 0
    ensures n == 1 == (va + PGSIZE - 1) / PGSIZE - va / PGSIZE + 1 && Enterable(u, r, vpn, p, n)
  {
    n := 1;
    PageAddress(p, pa);
    PageAddress(vpn, va);
  }

  lemma PutOne(u: Space, v: Space, r: nat, vpn: nat, p: nat, perm: nat, done: nat)
    requires PutRange(u, v, r, vpn, p, perm, done) && done == 1
    ensures Put(u, v, r, vpn, p, PagePte(p, perm))
  {
    EnteredNext(View(u, r), u.pages, vpn, p, perm, 0, vpn, p);
    assert Given(vpn, p, 1) == if vpn < TRAPFRAME then {p} else {};
  }

  lemma PutNone(u: Space, v: Space, r: nat, vpn: nat, p: nat, perm: nat, done: nat)
    requires PutRange(u, v, r, vpn, p, perm, done) && done == 0
    ensures View(v, r) == View(u, r) && Rest(u, v, r, {})
  {
  }

  /** A page taken from the allocator and then mapped. */
  lemma AllocDone(u: Space, v: Space, w: Space, r: nat, vpn: nat, p: nat, perm: nat, page: Page)
    requires p < |u.pages| && p !in u.owner && v == WithOther(u, p, page) && SameViews(u, v)
    requires vpn < TRAPFRAME && perm < 1024 && r in u.roots && Put(v, w, r, vpn, p, PagePte(p, perm))
    ensures Rest(u, w, r, {}) && View(w, r) == View(u, r)[vpn := Mapped(PagePte(p, perm), page)]
  {
    PagePteFields(p, perm);
    AllocRest(u, v, w, r, p, page, {p});
  }

  lemma PrunedTake(owner: map<nat, Slot>, r: nat, p: nat)
    requires p !in owner
    ensures Pruned(owner[p := Other], r) == Pruned(owner, r)[p := Other]
    ensures Pruned(owner, r)[p := Other] - {p} == Pruned(owner, r) == Pruned(owner, r) - {}
  {
  }

  lemma PrunedGive(owner: map<nat, Slot>, r: nat, p: nat)
    ensures Pruned(owner - {p}, r) == Pruned(owner, r) - {p}
  {
  }

  /** A page taken from the allocator and returned to it. */
  lemma AllocUndone(u: Space, v: Space, w: Space, x: Space, r: nat, p: nat, page: Page, run: Page)
    requires p < |u.pages| && p !in u.owner && r in u.roots
    requires v == WithOther(u, p, page) && SameViews(u, v) && Rest(v, w, r, {}) && View(w, r) == View(v, r)
    requires |w.pages| == |u.pages| && x == WithFree(w, p, run) && SameViews(w, x)
    ensures Rest(u, x, r, {}) && View(x, r) == View(u, r)
  {
    PrunedTake(u.owner, r, p);
    PrunedGive(w.owner, r, p);
    assert Pruned(v.owner, r) == Pruned(v.owner, r) - {};
    forall q | q in Pruned(x.owner, r) && q < |u.pages| && x.owner[q].Other? ensures x.pages[q] == u.pages[q] {
      assert q in Pruned(w.owner, r);
    }
  }

  lemma AllocRest(u: Space, v: Space, w: Space, r: nat, p: nat, page: Page, given: set<nat>)
    requires p < |u.pages| && p !in u.owner && v == WithOther(u, p, page) && SameViews(u, v)
    requires given == {p} && Rest(v, w, r, given)
    ensures Rest(u, w, r, {})
  {
    PrunedTake(u.owner, r, p);
  }

  // ---- sizes ----

  /** The pages a process of the given size has: PGROUNDUP(sz) / PGSIZE. */
  function Up(sz: nat): nat { (sz + PGSIZE - 1) / PGSIZE }

  lemma UpMonotone(a: nat, b: nat)
    requires a <= b
    ensures Up(a) <= Up(b)
  {
  }

  lemma UpExact(k: nat, a: nat)
    requires a == k * PGSIZE
    ensures Up(a) == k
  {
  }

  lemma UpBelow(k: nat, a: nat, sz: nat)
    requires a == k * PGSIZE && a < sz
    ensures k < Up(sz) && (sz <= TRAPFRAME * PGSIZE ==> Up(sz) <= TRAPFRAME)
  {
  }

  lemma UpAtLeast(k: nat, a: nat, sz: nat)
    requires a == k * PGSIZE && a >= sz
    ensures Up(sz) <= k
  {
  }

  // ---- new pages in an address space ----

  /** What new pages hold: zeroes, with the given flags, or what another address space has there. */
  datatype Source = Zero(flags: nat) | Like(view: map<nat, Mapped>)

  ghost predicate From(src: Source, k: nat, m: Mapped) {
    match src
    case Zero(flags) => PteFlags(m.pte) == flags && m.page == Data(Filled(0))
    case Like(view) => k in view && PteFlags(m.pte) == PteFlags(view[k].pte) && m.page == view[k].page
  }

  /** New pages do not look like pointers to tables. */
  ghost predicate Leaves(src: Source, from: nat, to: nat) {
    match src
    case Zero(flags) => flags != PTE_V
    case Like(view) => forall k: nat | from <= k < to :: IsLeaf(view, k)
  }

  function UserFlags(xperm: nat): nat { PTE_V + PTE_R + PTE_U + xperm }

  ghost predicate Unmapped(view: map<nat, Mapped>, from: nat, to: nat) {
    forall k: nat | from <= k < to :: k !in view
  }

  /** view is view0 with new pages from .. to. */
  ghost predicate Filling(view0: map<nat, Mapped>, view: map<nat, Mapped>, src: Source, from: nat, to: nat) {
    && (forall k: nat | k in view :: k in view0 || from <= k < to)
    && (forall k: nat | k in view0 :: k in view && view[k] == view0[k])
    && (forall k: nat | from <= k < to :: k in view && From(src, k, view[k]))
  }

  lemma FillingNext(view0: map<nat, Mapped>, view: map<nat, Mapped>, src: Source, from: nat, k: nat, to: nat)
    requires Filling(view0, view, src, from, k) && from <= k < to && Unmapped(view0, from, to)
    ensures k !in view0 && k !in view
  {
  }

  lemma FillingStep(view0: map<nat, Mapped>, view: map<nat, Mapped>, next: map<nat, Mapped>, src: Source, from: nat,
      k: nat, m: Mapped, to: nat) returns (j: nat)
    requires Filling(view0, view, src, from, k) && from <= k < to && Unmapped(view0, from, to) && From(src, k, m)
             && next == view[k := m]
    ensures j == k + 1 && Filling(view0, next, src, from, j)
  {
    j := k + 1;
  }

  lemma FillingLeaves(view0: map<nat, Mapped>, view: map<nat, Mapped>, src: Source, from: nat, k: nat, n: nat)
    requires Filling(view0, view, src, from, k) && from <= k && n == k - from && Leaves(src, from, k)
    ensures AllLeaves(view, from, n)
  {
    forall i: nat | from <= i < from + n ensures IsLeaf(view, i) {
      assert From(src, i, view[i]);
      assert src.Like? ==> IsLeaf(src.view, i);
    }
  }

  lemma FillingUndone(view0: map<nat, Mapped>, view: map<nat, Mapped>, src: Source, from: nat, k: nat, n: nat)
    requires Filling(view0, view, src, from, k) && from <= k && n == k - from && Unmapped(view0, from, k)
    ensures CutView(view, from, n) == view0
  {
    forall i: nat ensures i in CutView(view, from, n) <==> i in view0 {
      CutViewAt(view, from, n, i);
    }
    forall i: nat | i in view0 ensures CutView(view, from, n)[i] == view0[i] {
      CutViewAt(view, from, n, i);
    }
  }

  // ---- freewalk ----

  ghost function Height(s: Slot): nat { if s.Top? then 2 else if s.Mid? then 1 else 0 }

  /** d lies strictly under s, through an entry below i. */
  predicate Passed(s: Slot, d: Slot, i: nat) {
    match s
    case Top(r) => (d.Mid? || d.Low? || d.Leaf?) && d.r == r && d.a < i
    case Mid(r, a) => (d.Low? || d.Leaf?) && d.r == r && d.a == a && d.b < i
    case _ => false
  }

  /** The owners left when the entries below i of table s have been freed. */
  ghost function Left(owner: map<nat, Slot>, s: Slot, i: nat): map<nat, Slot> {
    map p | p in owner && !Passed(s, owner[p], i) :: owner[p]
  }

  ghost function Outside(owner: map<nat, Slot>, s: Slot): map<nat, Slot> {
    map p | p in owner && !Under(s, owner[p]) :: owner[p]
  }

  /** w is v with the subtree at s freed: only its pages have changed hands or contents, and no view has changed. */
  ghost predicate Freed(v: Space, w: Space, s: Slot) {
    && |w.pages| == |v.pages| && SameViews(v, w) && w.owner == Outside(v.owner, s)
    && forall p | p in w.owner && p < |v.pages| :: w.pages[p] == v.pages[p]
  }

  ghost predicate FreedUpTo(v: Space, w: Space, s: Slot, i: nat) {
    && |w.pages| == |v.pages| && SameViews(v, w) && w.owner == Left(v.owner, s, i)
    && (forall p | p in w.owner && p < |v.pages| && w.owner[p] != s :: w.pages[p] == v.pages[p])
    && ((s.Top? || s.Mid?) ==> forall j: nat | j < i :: !IsValid(Pte(w.pages, Ref(w.pages, s), j)))
  }

  lemma LeafOf(s: Slot)
    requires s.Leaf? && s.a < ENTRIES && s.b < ENTRIES && s.c < ENTRIES
    ensures Vpn(s.a, s.b, s.c) < VPNS && LeafAt(s.r, Vpn(s.a, s.b, s.c)) == s
  {
    var n := s.a * 512 + s.b;
    assert Vpn(s.a, s.b, s.c) == n * 512 + s.c;
    assert (n * 512 + s.c) / 512 == n && (n * 512 + s.c) % 512 == s.c;
    assert (n * 512 + s.c) / 0x4_0000 == n / 512;
  }

  /** In an address space without mappings the valid entries are pointers to tables. */
  lemma EmptyEntry(v: Space, s: Slot, t: nat, i: nat)
    requires Own(v) && InRange(v.roots, s) && IsTable(s) && t == Ref(v.pages, s) && t != 0 && View(v, s.r) == map[]
             && i < ENTRIES
    ensures s.Low? ==> !IsValid(Pte(v.pages, t, i))
    ensures (s.Top? || s.Mid?) && IsValid(Pte(v.pages, t, i)) ==>
              var pte := Pte(v.pages, t, i);
              IsPointer(pte) && pte / 1024 != 0 && InRange(v.roots, Below(s, i))
                  && Ref(v.pages, Below(s, i)) == pte / 1024
  {
    assert Open(0);
    TableIn(v, s);
    var pte := Pte(v.pages, t, i);
    if s.Low? {
      var d := Leaf(s.r, s.a, s.b, i);
      LeafOf(d);
      assert EntryOf(v.pages, d) == pte;
      assert Vpn(d.a, d.b, d.c) !in View(v, s.r);
    } else {
      assert PointerOrZero(pte);
      PteFields(pte / 1024, pte % 1024, pte);
    }
  }

  lemma FreedNone(v: Space, s: Slot)
    ensures FreedUpTo(v, v, s, 0)
  {
    assert Left(v.owner, s, 0) == v.owner;
  }

  /** The parent of a freed table is as it was. */
  lemma FreedParent(v: Space, w: Space, s: Slot, t: nat, i: nat)
    requires Own(v) && (s.Top? || s.Mid?) && i < ENTRIES && OwnBut(w, Below(s, i)) && Freed(v, w, Below(s, i))
             && t in v.owner && v.owner[t] == s
    ensures t in w.owner && w.owner[t] == s && w.pages[t] == v.pages[t] && Ref(w.pages, s) == t && t < |w.pages|
  {
    assert Open(0);
    assert t in Outside(v.owner, Below(s, i));
  }

  lemma LeftStep(owner: map<nat, Slot>, s: Slot, i: nat)
    requires s.Top? || s.Mid?
    ensures Outside(Left(owner, s, i), Below(s, i)) == Left(owner, s, i + 1)
  {
  }

  lemma FreedStep(u: Space, v: Space, w: Space, x: Space, s: Slot, t: nat, i: nat) returns (j: nat)
    requires Own(x) && (s.Top? || s.Mid?) && i < ENTRIES && FreedUpTo(u, v, s, i) && Freed(v, w, Below(s, i))
    requires Ref(v.pages, s) == t && Ref(w.pages, s) == t && t < |w.pages| == |v.pages| && w.pages[t] == v.pages[t]
             && w.pages[t].Table?
    requires t in w.owner && w.owner[t] == s && x == WithoutPointer(w, s, i) && SameViews(w, x)
    ensures j == i + 1 && FreedUpTo(u, x, s, j)
  {
    assert Open(0);
    j := i + 1;
    LeftStep(u.owner, s, i);
    assert Ref(x.pages, s) == t;
    forall p | p in x.owner && p < |u.pages| && x.owner[p] != s ensures x.pages[p] == u.pages[p] {
      assert p in v.owner && v.owner[p] == x.owner[p] && p != t;
    }
    forall k: nat | k < j ensures !IsValid(Pte(x.pages, t, k)) {
      assert k != i ==> Pte(x.pages, t, k) == Pte(v.pages, t, k);
    }
  }

  /** An entry that leads nowhere has no owners under it. */
  lemma FreedSkip(u: Space, v: Space, s: Slot, i: nat) returns (j: nat)
    requires Own(v) && IsTable(s) && FreedUpTo(u, v, s, i) && !IsValid(Pte(v.pages, Ref(v.pages, s), i))
    ensures j == i + 1 && FreedUpTo(u, v, s, j)
  {
    assert Open(0);
    j := i + 1;
    forall p | p in v.owner ensures !Passed(s, v.owner[p], i + 1) {
      assert !v.owner[p].Other? ==> Ref(v.pages, v.owner[p]) == p;
      assert !Passed(s, v.owner[p], i);
    }
    assert Left(u.owner, s, i + 1) == Left(u.owner, s, i);
  }

  lemma FreedBare(u: Space, v: Space, s: Slot, t: nat)
    requires Own(v) && InRange(v.roots, s) && IsTable(s) && t == Ref(v.pages, s) && t != 0 && View(v, s.r) == map[]
             && FreedUpTo(u, v, s, ENTRIES)
    ensures Bare(v.pages, s)
  {
    assert Open(0);
    forall i: nat | i < ENTRIES ensures !IsValid(Pte(v.pages, t, i)) {
      if s.Low? { EmptyEntry(v, s, t, i); }
    }
  }

  lemma FreedEnd(u: Space, v: Space, x: Space, s: Slot, t: nat, run: Page)
    requires Own(u) && Own(v) && InRange(v.roots, s) && IsTable(s) && t == Ref(v.pages, s) && t != 0 && t < |v.pages|
    requires t in v.owner && v.owner[t] == s && Bare(v.pages, s)
    requires FreedUpTo(u, v, s, ENTRIES) && x == WithFree(v, t, run) && SameViews(v, x)
    ensures Freed(u, x, s)
  {
    assert Open(0);
    forall p | p in v.owner && p != t ensures !Under(s, v.owner[p]) {
      assert !v.owner[p].Other? ==> Ref(v.pages, v.owner[p]) == p;
      assert !Passed(s, v.owner[p], ENTRIES);
    }
    forall p | p in u.owner && !Under(s, u.owner[p]) ensures p in v.owner && p != t {
      assert !Passed(s, u.owner[p], ENTRIES);
    }
    assert x.owner == Outside(u.owner, s);
  }

  // ---- an address space that is gone ----

  ghost predicate Within(view: map<nat, Mapped>, n: nat) {
    forall k | k in view :: k < n
  }

  lemma AllCut(view: map<nat, Mapped>, n: nat)
    requires Within(view, n)
    ensures CutView(view, 0, n) == map[] && (n == 0 ==> view == map[])
  {
    forall k: nat ensures k !in CutView(view, 0, n) {
      CutViewAt(view, 0, n, k);
    }
  }

  /** w is v without address space r: all its pages are free, and all other owners and address spaces, and the pages
      the kernel holds, are as they were. */
  ghost predicate Gone(v: Space, w: Space, r: nat) {
    && |w.pages| == |v.pages| && w.roots == v.roots - {r} && w.owner == Pruned(v.owner, r)
    && (forall x | x in v.roots && x != r :: View(w, x) == View(v, x))
    && (forall p | p in w.owner && p < |v.pages| && w.owner[p].Other? :: w.pages[p] == v.pages[p])
  }

  lemma RestGone(u: Space, v: Space, w: Space, r: nat)
    requires Rest(u, v, r, {}) && Gone(v, w, r)
    ensures Gone(u, w, r)
  {
    assert Pruned(u.owner, r) - {} == Pruned(u.owner, r);
  }

  /** The pages of a process: n pages of memory, the trapframe and the trampoline. */
  ghost predicate ProcLike(view: map<nat, Mapped>, n: nat) {
    && AllLeaves(view, 0, n) && IsLeaf(view, TRAMPOLINE) && IsLeaf(view, TRAPFRAME)
    && forall k | k in view :: k < n || k == TRAMPOLINE || k == TRAPFRAME
  }

  lemma ProcUnmapped(view: map<nat, Mapped>, n: nat)
    requires ProcLike(view, n) && n <= TRAPFRAME
    ensures IsLeaf(view - {TRAMPOLINE}, TRAPFRAME)
    ensures var rest := view - {TRAMPOLINE} - {TRAPFRAME}; AllLeaves(rest, 0, n) && Within(rest, n)
  {
    var rest := view - {TRAMPOLINE} - {TRAPFRAME};
    forall k: nat | 0 <= k < n ensures IsLeaf(rest, k) {
      assert IsLeaf(view, k);
    }
  }

  lemma GoneBy(u: Space, v: Space, w: Space, x: Space, r: nat)
    requires Rest(u, v, r, {}) && Freed(v, w, Top(r)) && x == w.(roots := w.roots - {r}) && forall y | y in w.roots ::
             View(x, y) == View(w, y)
    ensures Gone(u, x, r)
  {
    assert Outside(v.owner, Top(r)) == Pruned(v.owner, r);
    assert Pruned(u.owner, r) - {} == Pruned(u.owner, r);
  }

  ghost function TrampolineView(trampoline: nat): map<nat, Mapped> {
    map[TRAMPOLINE := Mapped(PagePte(trampoline, PTE_R + PTE_X), Kernel)]
  }

  ghost function ProcView(trampoline: nat, trapframe: nat): map<nat, Mapped> {
    TrampolineView(trampoline)[TRAPFRAME := Mapped(PagePte(trapframe, PTE_R + PTE_W), Kernel)]
  }

  lemma EmptyView()
    ensures AllLeaves(map[], 0, Up(0)) && Within(map[], Up(0))
  {
  }

  lemma OneLeaf(view: map<nat, Mapped>, k: nat)
    requires IsLeaf(view, k)
    ensures AllLeaves(view, k, 1)
  {
  }

  lemma TrampolineLeaf(trampoline: nat)
    ensures IsLeaf(TrampolineView(trampoline), TRAMPOLINE) && TRAPFRAME !in TrampolineView(trampoline)
    ensures TrampolineView(trampoline) - {TRAMPOLINE} == map[]
  {
    PagePteFields(trampoline, PTE_R + PTE_X);
  }

  lemma OnTrampoline(v: Space, w: Space, r: nat, trampoline: nat)
    requires View(v, r) == map[] && Put(v, w, r, TRAMPOLINE, trampoline, PagePte(trampoline, PTE_R + PTE_X))
    ensures View(w, r) == TrampolineView(trampoline) && Rest(v, w, r, {})
  {
  }

  lemma OnTrapframe(v: Space, w: Space, r: nat, trampoline: nat, trapframe: nat)
    requires View(v, r) == TrampolineView(trampoline)
             && Put(v, w, r, TRAPFRAME, trapframe, PagePte(trapframe, PTE_R + PTE_W))
    ensures View(w, r) == ProcView(trampoline, trapframe) && Rest(v, w, r, {})
  {
  }

  lemma CreatedOwner(u: Space, r: nat)
    requires Own(u) && r !in u.owner && r != 0
    ensures Pruned(u.owner[r := Top(r)], r) == u.owner && r !in u.roots
  {
    assert Open(0);
    assert forall x | x in u.roots :: Ref(u.pages, Top(x)) == x && Ownable(u.roots, Top(x));
    forall p | p in u.owner ensures !Under(Top(r), u.owner[p]) {
      assert !u.owner[p].Other? ==> Ownable(u.roots, u.owner[p]);
    }
  }

  /** What changed only inside the new address space did not change before it was created. */
  lemma Kept(u: Space, v: Space, w: Space, r: nat)
    requires Pruned(v.owner, r) == u.owner && Rest(v, w, r, {}) && r !in u.roots && v.roots == u.roots + {r}
    requires forall y | y in u.roots :: View(v, y) == View(u, y)
    ensures Pruned(w.owner, r) == u.owner && forall y | y in u.roots :: View(w, y) == View(u, y)
  {
    assert u.owner - {} == u.owner;
  }

  /** An address space that was created and thrown away has left no trace. */
  lemma Discarded(u: Space, v: Space, w: Space, x: Space, r: nat)
    requires v.roots == u.roots + {r} && r !in u.roots && Pruned(v.owner, r) == u.owner && forall y | y in u.roots ::
             View(v, y) == View(u, y)
    requires Rest(v, w, r, {}) && Gone(w, x, r)
    ensures x.roots == u.roots && x.owner == u.owner && SameViews(u, x)
  {
    assert u.owner - {} == u.owner;
  }

  // ---- user memory ----

  /** No page at or above TRAPFRAME is the user's. */
  ghost predicate UserBelow(view: map<nat, Mapped>) {
    forall k: nat | k in view && TRAPFRAME <= k :: !IsUser(view[k].pte)
  }

  ghost predicate Usable(view: map<nat, Mapped>, k: nat) {
    k < MAXVPN && k in view && IsUser(view[k].pte)
  }

  ghost function UserByte(view: map<nat, Mapped>, va: nat): byte {
    if Usable(view, va / PGSIZE) && view[va / PGSIZE].page.Data? then view[va / PGSIZE].page.bytes[va % PGSIZE] else 0
  }

  ghost predicate UserAt(view: map<nat, Mapped>, va: nat) { Usable(view, va / PGSIZE) }

  /** The given bytes are the user's bytes from va on. */
  ghost predicate Got(view: map<nat, Mapped>, va: nat, bytes: seq<byte>) {
    forall a: nat | va <= a < va + |bytes| :: UserAt(view, a) && bytes[a - va] == UserByte(view, a)
  }

  ghost predicate IsChunk(view: map<nat, Mapped>, k: nat, off: nat, chunk: seq<byte>) {
    k in view && view[k].page.Data? && off + |chunk| <= PGSIZE && chunk == view[k].page.bytes[off..off + |chunk|]
  }

  lemma GotStep(view: map<nat, Mapped>, srcva: nat, dst: seq<byte>, va: nat, k: nat, chunk: seq<byte>)
    requires Got(view, srcva, dst) && va == srcva + |dst| && k == va / PGSIZE && Usable(view, k)
             && IsChunk(view, k, va % PGSIZE, chunk)
    ensures Got(view, srcva, dst + chunk)
  {
    forall a: nat | srcva <= a < srcva + |dst + chunk|
      ensures UserAt(view, a) && (dst + chunk)[a - srcva] == UserByte(view, a)
    {
      if a >= va { InPage(va, a - va, |chunk|); }
    }
  }

  lemma SamePage(va: nat)
    ensures va / PGSIZE * PGSIZE / PGSIZE == va / PGSIZE && va / PGSIZE * PGSIZE <= va < va / PGSIZE * PGSIZE + PGSIZE
    ensures va - va / PGSIZE * PGSIZE == va % PGSIZE
  {
  }

  lemma InView(v: Space, r: nat, k: nat)
    requires Own(v) && k < VPNS
    ensures k in View(v, r) <==> IsValid(Lookup(v.pages, r, k))
    ensures k in View(v, r) ==> View(v, r)[k].pte == Lookup(v.pages, r, k)
    ensures TableOf(v, r, k) == 0 ==> Lookup(v.pages, r, k) == 0
  {
    assert Open(0);
  }

  lemma InPage(va: nat, i: nat, n: nat)
    requires i < n && va % PGSIZE + n <= PGSIZE
    ensures (va + i) / PGSIZE == va / PGSIZE && (va + i) % PGSIZE == va % PGSIZE + i
  {
    var q, m := va / PGSIZE, va % PGSIZE;
    assert va + i == q * PGSIZE + (m + i);
  }

  lemma UsablePage(v: Space, r: nat, k: nat)
    requires Own(v) && r in v.roots && UserBelow(View(v, r)) && Usable(View(v, r), k)
    ensures var m := View(v, r)[k];
            k < TRAPFRAME && 0 < m.pte / 1024 < |v.pages| && m.page == v.pages[m.pte / 1024] && m.page.Data?
  {
    assert Open(0);
    MappedPage(v, r, k);
  }

  lemma GotPrefix(view: map<nat, Mapped>, va: nat, bytes: seq<byte>, some: seq<byte>)
    requires Got(view, va, bytes) && some <= bytes
    ensures Got(view, va, some)
  {
  }

  /** next is view with bytes off .. of page k replaced. */
  ghost predicate Patched(view: map<nat, Mapped>, next: map<nat, Mapped>, k: nat, off: nat, chunk: seq<byte>) {
    && k in view && view[k].page.Data? && off + |chunk| <= PGSIZE
    && var bytes := view[k].page.bytes;
       next == view[k := Mapped(view[k].pte, Data(bytes[..off] + chunk + bytes[off + |chunk|..]))]
  }

  /** view is view0 with the user's bytes from va on replaced by the given ones. */
  ghost predicate Wrote(view0: map<nat, Mapped>, view: map<nat, Mapped>, va: nat, bytes: seq<byte>) {
    && view.Keys == view0.Keys
    && (forall k: nat | k in view0 :: view[k].pte == view0[k].pte && (IsUser(view0[k].pte) || view[k] == view0[k]))
    && forall a: nat :: UserByte(view, a) == if va <= a < va + |bytes| then bytes[a - va] else UserByte(view0, a)
  }

  lemma WroteUsable(view0: map<nat, Mapped>, view: map<nat, Mapped>, va: nat, bytes: seq<byte>, k: nat)
    requires Wrote(view0, view, va, bytes) && UserBelow(view0)
    ensures UserBelow(view) && (Usable(view, k) <==> Usable(view0, k))
  {
    assert k in view <==> k in view0.Keys;
    forall k: nat | k in view && TRAPFRAME <= k ensures !IsUser(view[k].pte) {
      assert k in view0.Keys;
    }
  }

  lemma PatchedByte(view: map<nat, Mapped>, next: map<nat, Mapped>, va: nat, k: nat, chunk: seq<byte>, a: nat)
    requires k == va / PGSIZE && Usable(view, k) && Patched(view, next, k, va % PGSIZE, chunk)
    ensures UserByte(next, a) == if va <= a < va + |chunk| then chunk[a - va] else UserByte(view, a)
  {
    if va <= a < va + |chunk| { InPage(va, a - va, |chunk|); }
    if a / PGSIZE == k {
      assert a - va == a % PGSIZE - va % PGSIZE;
    }
  }

  lemma WroteStep(view0: map<nat, Mapped>, view: map<nat, Mapped>, next: map<nat, Mapped>, dstva: nat, src: seq<byte>,
      part: seq<byte>, i: nat, va: nat, k: nat, n: nat) returns (more: seq<byte>)
    requires i + n <= |src| && part == src[..i] && Wrote(view0, view, dstva, part) && va == dstva + i
             && k == va / PGSIZE && Usable(view, k)
    requires Patched(view, next, k, va % PGSIZE, src[i..][..n])
    ensures more == src[..i + n] && Wrote(view0, next, dstva, more)
  {
    more := src[..i + n];
    var chunk := src[i..][..n];
    forall a: nat
      ensures UserByte(next, a) == if dstva <= a < dstva + |more| then more[a - dstva] else UserByte(view0, a)
    {
      PatchedByte(view, next, va, k, chunk, a);
    }
    assert k in view0.Keys;
  }

  lemma OtherTwice(v: Space, p: nat, a: Page, b: Page)
    requires p < |v.pages|
    ensures WithOther(WithOther(v, p, a), p, b) == WithOther(v, p, b)
  {
    assert v.pages[p := a][p := b] == v.pages[p := b];
  }

  lemma NoTable(v: Space, root: nat, va: nat, level: nat)
    requires Own(v) && root in v.roots && va < MAXVA && level <= 1 && Ref(v.pages, OnPath(root, va, level)) == 0
    ensures TableOf(v, root, va / PGSIZE) == 0
  {
    assert Open(0);
    LeafAtPX(root, va);
  }

  lemma ZeroSource(k: nat, xperm: nat)
    requires xperm in {0, PTE_W, PTE_X, PTE_W + PTE_X}
    ensures forall pte: nat | PteFlags(pte) == WithV(PTE_R + PTE_U + xperm) ::
            From(Zero(UserFlags(xperm)), k, Mapped(pte, Data(Filled(0))))
  {
  }

  lemma LikeFlags(pte: nat)
    requires IsValid(pte)
    ensures PteFlags(pte) < 1024 && WithV(PteFlags(pte)) == PteFlags(pte)
  {
  }

  /** The table of the given level on the way to va. */
  function OnPath(root: nat, va: nat, level: nat): Slot
    requires level <= 2
  {
    if level == 2 then Top(root) else if level == 1 then Mid(root, PX(2, va)) else Low(root, PX(2, va), PX(1, va))
  }
}
