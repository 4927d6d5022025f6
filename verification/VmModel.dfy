/** kernel/vm.c and kernel/riscv.h on values: physical pages, three-level page tables, who owns each page. */
module VmModel {
  import opened Folding
  import opened Blocks

  const PGSIZE: nat := 4096
  const ENTRIES: nat := 512
  const MAXVA: nat := 0x40_0000_0000       // 2^38
  const MAXVPN: nat := 0x400_0000          // MAXVA / PGSIZE
  const VPNS: nat := 0x800_0000            // what three indices can tell apart
  const TRAMPOLINE: nat := MAXVPN - 1      // page numbers
  const TRAPFRAME: nat := MAXVPN - 2

  const PTE_V: nat := 1
  const PTE_R: nat := 2
  const PTE_W: nat := 4
  const PTE_X: nat := 8
  const PTE_U: nat := 16

  function ZeroPtes(): (s: seq<nat>)
    ensures |s| == ENTRIES && forall i | 0 <= i < ENTRIES :: s[i] == 0
  {
    seq(ENTRIES, _ => 0)
  }

  type Ptes = s: seq<nat> | |s| == ENTRIES witness ZeroPtes()
  type PageBytes = s: seq<byte> | |s| == PGSIZE witness Zeros(PGSIZE)

  /** What a physical page holds: kernel image, a free-list link, page-table entries or bytes. */
  datatype Page = Kernel | Run(next: nat) | Table(ptes: Ptes) | Data(bytes: PageBytes)

  // ---- PTEs; `|` with the flags is addition since the low ten bits of PA2PTE are zero ----

  function PA2PTE(pa: nat): nat { pa / 4096 * 1024 }

  function PTE2PA(pte: nat): nat { pte / 1024 * 4096 }

  function PteFlags(pte: nat): nat { pte % 1024 }

  predicate IsValid(pte: nat) { pte % 2 == 1 }

  predicate IsUser(pte: nat) { pte / 16 % 2 == 1 }

  /** No R, W or X: the entry points to a lower table. */
  predicate IsPointer(pte: nat) { pte / 2 % 8 == 0 }

  /** perm | PTE_V */
  function WithV(perm: nat): nat { if perm % 2 == 1 then perm else perm + 1 }

  function MakePte(pa: nat, perm: nat): nat { PA2PTE(pa) + WithV(perm) }

  /** The page number a PTE refers to, 0 when the PTE is not valid. */
  function Child(pte: nat): nat { if IsValid(pte) then pte / 1024 else 0 }

  lemma By2(x: nat, q: nat, r: nat)
    requires x == 2 * q + r && r < 2
    ensures x / 2 == q && x % 2 == r
  {
  }

  lemma By8(x: nat, q: nat, r: nat)
    requires x == 8 * q + r && r < 8
    ensures x % 8 == r
  {
  }

  lemma By16(x: nat, q: nat, r: nat)
    requires x == 16 * q + r && r < 16
    ensures x / 16 == q
  {
  }

  lemma By1024(x: nat, q: nat, r: nat)
    requires x == 1024 * q + r && r < 1024
    ensures x / 1024 == q && x % 1024 == r
  {
  }

  lemma PteFields(n: nat, w: nat, x: nat)
    requires w < 1024 && x == n * 1024 + w
    ensures x / 1024 == n && x % 1024 == w && x % 2 == w % 2
    ensures x / 16 % 2 == w / 16 % 2 && x / 2 % 8 == w / 2 % 8
  {
    By1024(x, n, w);
    var half, sixteenth := w / 2, w / 16;
    By2(x, n * 512 + half, w % 2);
    By8(n * 512 + half, n * 64 + half / 8, half % 8);
    By16(x, n * 64 + sixteenth, w % 16);
    By2(n * 64 + sixteenth, n * 32 + sixteenth / 2, sixteenth % 2);
  }

  /** The PTE for page number p. */
  function PagePte(p: nat, perm: nat): nat { p * 1024 + WithV(perm) }

  lemma PageAddress(p: nat, pa: nat)
    requires pa == p * PGSIZE
    ensures pa / PGSIZE == p && pa % PGSIZE == 0 && PA2PTE(pa) == p * 1024
            && (forall perm: nat :: MakePte(pa, perm) == PagePte(p, perm))
  {
  }

  lemma PagePteFields(p: nat, perm: nat)
    requires perm < 1024
    ensures var pte := PagePte(p, perm);
            IsValid(pte) && Child(pte) == p && PteFlags(pte) == WithV(perm) && IsUser(pte) == IsUser(perm)
  {
    PteRoundTrip(p * PGSIZE, perm);
    PageAddress(p, p * PGSIZE);
  }

  lemma WithVFields(perm: nat, w: nat)
    requires perm < 1024 && w == WithV(perm)
    ensures w < 1024 && w % 2 == 1 && w / 2 == perm / 2 && w / 16 == perm / 16
  {
    By2(w, perm / 2, 1);
    By16(w, perm / 16, perm % 16 + if perm % 2 == 1 then 0 else 1);
  }

  lemma PteRoundTrip(pa: nat, perm: nat)
    requires pa % PGSIZE == 0 && perm < 1024
    ensures PTE2PA(MakePte(pa, perm)) == pa && PteFlags(MakePte(pa, perm)) == WithV(perm) < 1024
    ensures IsValid(MakePte(pa, perm)) && Child(MakePte(pa, perm)) == pa / PGSIZE
    ensures IsUser(MakePte(pa, perm)) == IsUser(perm) && IsPointer(MakePte(pa, perm)) == IsPointer(perm)
  {
    var n, w, x := pa / 4096, WithV(perm), MakePte(pa, perm);
    WithVFields(perm, w);
    PteFields(n, w, x);
    assert pa == n * 4096;
  }

  // ---- virtual addresses ----

  function PX(level: nat, va: nat): (i: nat)
    requires level <= 2
    ensures i < ENTRIES
  {
    if level == 0 then va / 4096 % 512 else if level == 1 then va / 0x20_0000 % 512 else va / 0x4000_0000 % 512
  }

  /** The page number with the given three indices. */
  function Vpn(a: nat, b: nat, c: nat): nat { a * 0x4_0000 + b * 512 + c }

  lemma By512(x: nat, q: nat, r: nat)
    requires x == 512 * q + r && r < 512
    ensures x / 512 == q && x % 512 == r
  {
  }

  lemma By18(x: nat, q: nat, r: nat)
    requires x == 0x4_0000 * q + r && r < 0x4_0000
    ensures x / 0x4_0000 == q
  {
  }

  /** A page number in base 512. */
  lemma Digits(vpn: nat)
    ensures vpn / 0x4_0000 == vpn / 512 / 512 && Vpn(vpn / 0x4_0000, vpn / 512 % 512, vpn % 512) == vpn
  {
    var q, r := vpn / 512, vpn % 512;
    By18(vpn, q / 512, q % 512 * 512 + r);
  }

  lemma Shifts(va: nat)
    ensures va / 0x20_0000 == va / 4096 / 512 && va / 0x4000_0000 == va / 4096 / 0x4_0000
  {
    var n, o := va / 4096, va % 4096;
    var q, r := n / 512, n % 512;
    Shift21(va, q, r * 4096 + o);
    Shift30(va, n / 0x4_0000, n % 0x4_0000 * 4096 + o);
  }

  lemma Shift21(x: nat, q: nat, r: nat)
    requires x == 0x20_0000 * q + r && r < 0x20_0000
    ensures x / 0x20_0000 == q
  {
  }

  lemma Shift30(x: nat, q: nat, r: nat)
    requires x == 0x4000_0000 * q + r && r < 0x4000_0000
    ensures x / 0x4000_0000 == q
  {
  }

  lemma VpnInjective(a: nat, b: nat, c: nat, x: nat, y: nat, z: nat)
    requires b < ENTRIES && c < ENTRIES && y < ENTRIES && z < ENTRIES && Vpn(a, b, c) == Vpn(x, y, z)
    ensures a == x && b == y && c == z
  {
    By512(Vpn(a, b, c), a * 512 + b, c);
    By512(Vpn(x, y, z), x * 512 + y, z);
    By512(a * 512 + b, a, b);
    By512(x * 512 + y, x, y);
  }

  /** The three indices of a virtual address are the digits of its page number. */
  lemma PXDigits(va: nat)
    requires va < MAXVA
    ensures Vpn(PX(2, va), PX(1, va), PX(0, va)) == va / PGSIZE < MAXVPN && PX(2, va) == va / PGSIZE / 0x4_0000
  {
    var n := va / 4096;
    PageBelow(va, n);
    PXParts(va, n);
    TopDigit(n);
    Digits(n);
  }

  lemma PXParts(va: nat, n: nat)
    requires n == va / 4096
    ensures PX(0, va) == n % 512 && PX(1, va) == n / 512 % 512 && PX(2, va) == n / 0x4_0000 % 512
  {
    Shifts(va);
  }

  lemma PageBelow(va: nat, n: nat)
    requires va < MAXVA && n == va / 4096
    ensures n < MAXVPN
  {
  }

  lemma TopDigit(n: nat)
    requires n < MAXVPN
    ensures n / 0x4_0000 < 256 && n / 0x4_0000 % 512 == n / 0x4_0000
  {
  }

  /** Two addresses take the same way through the tables exactly when they are on the same page. */
  lemma PXInjective(va: nat, vb: nat)
    requires va < MAXVA && vb < MAXVA
    ensures (forall level: nat | level <= 2 :: PX(level, va) == PX(level, vb)) <==> va / PGSIZE == vb / PGSIZE
  {
    PXDigits(va);
    PXDigits(vb);
    if va / PGSIZE == vb / PGSIZE {
      VpnInjective(PX(2, va), PX(1, va), PX(0, va), PX(2, vb), PX(1, vb), PX(0, vb));
    } else {
      assert PX(2, va) != PX(2, vb) || PX(1, va) != PX(1, vb) || PX(0, va) != PX(0, vb);
    }
  }

  // ---- the tree ----

  function Pte(pages: seq<Page>, t: nat, i: nat): nat {
    if t < |pages| && pages[t].Table? && i < ENTRIES then pages[t].ptes[i] else 0
  }

  /** A place that refers to a page: the root of an address space, an entry of one of the three
      levels of tables below it, or some other part of the kernel. */
  datatype Slot = Top(r: nat) | Mid(r: nat, a: nat) | Low(r: nat, a: nat, b: nat) | Leaf(r: nat, a: nat, b: nat, c: nat)
      | Other

  function MidOf(pages: seq<Page>, r: nat, a: nat): nat { Child(Pte(pages, r, a)) }

  function LowOf(pages: seq<Page>, r: nat, a: nat, b: nat): nat { Child(Pte(pages, MidOf(pages, r, a), b)) }

  function EntryOf(pages: seq<Page>, s: Slot): nat
    requires s.Leaf?
  {
    Pte(pages, LowOf(pages, s.r, s.a, s.b), s.c)
  }

  function Ref(pages: seq<Page>, s: Slot): nat {
    match s
    case Top(r) => r
    case Mid(r, a) => MidOf(pages, r, a)
    case Low(r, a, b) => LowOf(pages, r, a, b)
    case Leaf(_, _, _, _) => Child(EntryOf(pages, s))
    case Other => 0
  }

  /** Physical memory, the owner of each page that is not free, and the roots of the address spaces. */
  datatype Space = Space(pages: seq<Page>, owner: map<nat, Slot>, roots: set<nat>)

  predicate InRange(roots: set<nat>, s: Slot) {
    match s
    case Top(r) => r in roots
    case Mid(r, a) => r in roots && a < ENTRIES
    case Low(r, a, b) => r in roots && a < ENTRIES && b < ENTRIES
    case Leaf(r, a, b, c) => r in roots && a < ENTRIES && b < ENTRIES && c < ENTRIES
    case Other => false
  }

  /** Leaves at and above TRAPFRAME refer to pages the address space does not own. */
  predicate Ownable(roots: set<nat>, s: Slot) {
    InRange(roots, s) && (s.Leaf? ==> Vpn(s.a, s.b, s.c) < TRAPFRAME)
  }

  predicate IsTable(s: Slot) { s.Top? || s.Mid? || s.Low? }

  predicate PointerOrZero(pte: nat) { pte == 0 || (pte % 1024 == 1 && pte / 1024 != 0) }

  /** Every page an address space refers to, through any slot but the given one, is owned by exactly the slot that
      refers to it. */
  ghost predicate OwnBut(v: Space, hole: Slot) {
    && |v.pages| > 0 && !v.pages[0].Table? && (forall p | p in v.owner :: 0 < p < |v.pages|)
    && forall k: nat {:trigger Open(k)} :: Open(k) ==> Owners(v, hole)
  }

  ghost predicate Owners(v: Space, hole: Slot)
    requires forall p | p in v.owner :: 0 < p < |v.pages|
  {
    RefsOwned(v, hole) && PagesTyped(v)
  }

  ghost predicate RefsOwned(v: Space, hole: Slot) {
    && (forall s: Slot | Ownable(v.roots, s) && s != hole ::
          Ref(v.pages, s) != 0 ==> Ref(v.pages, s) in v.owner && v.owner[Ref(v.pages, s)] == s)
    && (forall p | p in v.owner && !v.owner[p].Other? :: Ownable(v.roots, v.owner[p]) && Ref(v.pages, v.owner[p]) == p)
    && (forall r | r in v.roots :: r != 0)
    && (forall s: Slot | s.Leaf? && Ownable(v.roots, s) ::
       IsValid(EntryOf(v.pages, s)) ==> Child(EntryOf(v.pages, s)) != 0)
  }

  ghost predicate PagesTyped(v: Space)
    requires forall p | p in v.owner :: 0 < p < |v.pages|
  {
    && (forall p | p in v.owner ::
       (IsTable(v.owner[p]) ==> v.pages[p].Table?) && (v.owner[p].Leaf? ==> v.pages[p].Data?))
    && (forall p, i | p in v.owner && (v.owner[p].Top? || v.owner[p].Mid?) && 0 <= i < ENTRIES ::
       PointerOrZero(Pte(v.pages, p, i)))
  }

  ghost predicate Own(v: Space) { OwnBut(v, Other) }

  // ---- writing one entry ----

  ghost function SetPte(pages: seq<Page>, t: nat, i: nat, pte: nat): seq<Page>
    requires t < |pages| && pages[t].Table? && i < ENTRIES
  {
    pages[t := Table(pages[t].ptes[i := pte])]
  }

  /** The table in a slot. */
  lemma TableInBut(v: Space, hole: Slot, s: Slot)
    requires OwnBut(v, hole) && InRange(v.roots, s) && IsTable(s) && Ref(v.pages, s) != 0 && s != hole
    ensures 0 < Ref(v.pages, s) < |v.pages| && v.pages[Ref(v.pages, s)].Table? && Ref(v.pages, s) in v.owner
            && v.owner[Ref(v.pages, s)] == s
  {
    assert Open(0);
    assert Ownable(v.roots, s);
  }

  lemma TableIn(v: Space, s: Slot)
    requires Own(v) && InRange(v.roots, s) && IsTable(s) && Ref(v.pages, s) != 0
    ensures 0 < Ref(v.pages, s) < |v.pages| && v.pages[Ref(v.pages, s)].Table? && Ref(v.pages, s) in v.owner
            && v.owner[Ref(v.pages, s)] == s
  {
    assert Open(0);
    TableInBut(v, Other, s);
  }

  /** A change of the table of slot s changes no entry of the table of another slot. */
  lemma OtherTable(v: Space, s: Slot, x: Slot, t: Page, j: nat)
    requires Own(v) && InRange(v.roots, s) && IsTable(s) && Ref(v.pages, s) != 0 && InRange(v.roots, x) && IsTable(x)
             && x != s
    ensures Ref(v.pages, s) < |v.pages|
    ensures Pte(v.pages[Ref(v.pages, s) := t], Ref(v.pages, x), j) == Pte(v.pages, Ref(v.pages, x), j)
  {
    assert Open(0);
    TableIn(v, s);
    if Ref(v.pages, x) != 0 { TableIn(v, x); }
  }

  ghost predicate SameTables(v: Space, w: seq<Page>) {
    forall s: Slot | InRange(v.roots, s) && IsTable(s) :: Ref(w, s) == Ref(v.pages, s)
  }

  /** A store into a lowest-level table changes that leaf entry and nothing else in any address space. */
  lemma LeafSet(v: Space, r: nat, a: nat, b: nat, c: nat, pte: nat)
    requires Own(v) && InRange(v.roots, Leaf(r, a, b, c)) && LowOf(v.pages, r, a, b) != 0
    ensures var t := LowOf(v.pages, r, a, b); t < |v.pages| && v.pages[t].Table?
    ensures var w := SetPte(v.pages, LowOf(v.pages, r, a, b), c, pte);
            && SameTables(v, w)
            && forall s: Slot | s.Leaf? && InRange(v.roots, s) :: EntryOf(w, s) == if s == Leaf(r, a, b, c) then pte
               else EntryOf(v.pages, s)
  {
    assert Open(0);
    var l := Low(r, a, b);
    assert Ref(v.pages, l) == LowOf(v.pages, r, a, b);
    TableIn(v, l);
    var t := Table(v.pages[Ref(v.pages, l)].ptes[c := pte]);
    var w := v.pages[Ref(v.pages, l) := t];
    forall x: nat, i: nat | InRange(v.roots, Mid(x, i)) ensures MidOf(w, x, i) == MidOf(v.pages, x, i) {
      OtherTable(v, l, Top(x), t, i);
    }
    forall x: nat, i: nat, j: nat | InRange(v.roots, Low(x, i, j))
      ensures LowOf(w, x, i, j) == LowOf(v.pages, x, i, j)
    {
      assert InRange(v.roots, Mid(x, i));
      OtherTable(v, l, Mid(x, i), t, j);
    }
    forall s: Slot | s.Leaf? && InRange(v.roots, s)
      ensures EntryOf(w, s) == if s == Leaf(r, a, b, c) then pte else EntryOf(v.pages, s)
    {
      var x := Low(s.r, s.a, s.b);
      assert InRange(v.roots, x) && LowOf(w, s.r, s.a, s.b) == LowOf(v.pages, s.r, s.a, s.b);
      if x != l { OtherTable(v, l, x, t, s.c); }
    }
  }

  /** A page no address space owns is part of no table. */
  lemma FreePage(v: Space, p: nat, page: Page)
    requires Own(v) && 0 < p < |v.pages| && (p in v.owner ==> v.owner[p] == Other)
    ensures SameTables(v, v.pages[p := page])
    ensures forall s: Slot | s.Leaf? && InRange(v.roots, s) :: EntryOf(v.pages[p := page], s) == EntryOf(v.pages, s)
  {
    assert Open(0);
    var w := v.pages[p := page];
    forall s: Slot, j: nat | InRange(v.roots, s) && IsTable(s)
      ensures Pte(w, Ref(v.pages, s), j) == Pte(v.pages, Ref(v.pages, s), j)
    {
      if Ref(v.pages, s) != 0 { TableIn(v, s); }
    }
    forall x: nat, i: nat | InRange(v.roots, Mid(x, i)) ensures MidOf(w, x, i) == MidOf(v.pages, x, i) {
      assert InRange(v.roots, Top(x)) && Ref(v.pages, Top(x)) == x;
    }
    forall x: nat, i: nat, j: nat | InRange(v.roots, Low(x, i, j))
      ensures LowOf(w, x, i, j) == LowOf(v.pages, x, i, j)
    {
      assert InRange(v.roots, Mid(x, i)) && Ref(v.pages, Mid(x, i)) == MidOf(v.pages, x, i);
    }
    forall s: Slot | s.Leaf? && InRange(v.roots, s) ensures EntryOf(w, s) == EntryOf(v.pages, s) {
      assert InRange(v.roots, Low(s.r, s.a, s.b)) && Ref(v.pages, Low(s.r, s.a, s.b)) == LowOf(v.pages, s.r, s.a, s.b);
    }
  }

  // ---- linking a table ----

  /** The slot that entry i of the table in slot s is. */
  function Below(s: Slot, i: nat): Slot
    requires s.Top? || s.Mid?
  {
    if s.Top? then Mid(s.r, i) else Low(s.r, s.a, i)
  }

  ghost predicate SameEntries(v: Space, w: Space) {
    forall s: Slot | s.Leaf? && InRange(v.roots, s) :: EntryOf(w.pages, s) == EntryOf(v.pages, s)
  }

  ghost function WithTable(v: Space, s: Slot, i: nat, p: nat): Space
    requires (s.Top? || s.Mid?) && Ref(v.pages, s) < |v.pages| && v.pages[Ref(v.pages, s)].Table? && i < ENTRIES
  {
    Space(SetPte(v.pages, Ref(v.pages, s), i, p * 1024 + 1), v.owner[p := Below(s, i)], v.roots)
  }

  /** An empty table put into an empty entry appears there, and no other table or leaf entry changes. */
  lemma TableLinked(v: Space, s: Slot, i: nat, p: nat)
    requires Own(v) && (s.Top? || s.Mid?) && InRange(v.roots, s) && Ref(v.pages, s) != 0 && i < ENTRIES
    requires Pte(v.pages, Ref(v.pages, s), i) == 0 && p in v.owner && v.owner[p] == Other
             && v.pages[p] == Table(ZeroPtes())
    ensures Ref(v.pages, s) < |v.pages| && v.pages[Ref(v.pages, s)].Table?
    ensures var w := WithTable(v, s, i, p);
            && SameEntries(v, w)
            && forall x: Slot | InRange(v.roots, x) && IsTable(x) :: Ref(w.pages, x) == if x == Below(s, i) then p
               else Ref(v.pages, x)
  {
    assert Open(0);
    TableIn(v, s);
    PteFields(p, 1, p * 1024 + 1);
    var w := WithTable(v, s, i, p).pages;
    var t := w[Ref(v.pages, s)];
    assert w == v.pages[Ref(v.pages, s) := t];
    forall x: nat, j: nat | InRange(v.roots, Mid(x, j))
      ensures MidOf(w, x, j) == if Mid(x, j) == Below(s, i) then p else MidOf(v.pages, x, j)
    {
      if Top(x) != s { OtherTable(v, s, Top(x), t, j); }
    }
    forall x: nat, j: nat, k: nat | InRange(v.roots, Low(x, j, k))
      ensures LowOf(w, x, j, k) == if Low(x, j, k) == Below(s, i) then p else LowOf(v.pages, x, j, k)
    {
      assert InRange(v.roots, Mid(x, j));
      if Mid(x, j) != Below(s, i) && Mid(x, j) != s { OtherTable(v, s, Mid(x, j), t, k); }
    }
    forall x: Slot | x.Leaf? && InRange(v.roots, x) ensures EntryOf(w, x) == EntryOf(v.pages, x) {
      var l := Low(x.r, x.a, x.b);
      assert InRange(v.roots, l);
      if l != Below(s, i) { OtherTable(v, s, l, t, x.c); }
    }
  }

  lemma TableLinkedTyped(v: Space, s: Slot, i: nat, p: nat)
    requires Own(v) && (s.Top? || s.Mid?) && InRange(v.roots, s) && Ref(v.pages, s) != 0 && i < ENTRIES
    requires p in v.owner && v.owner[p] == Other && v.pages[p] == Table(ZeroPtes())
    ensures Ref(v.pages, s) < |v.pages| && v.pages[Ref(v.pages, s)].Table? && PagesTyped(WithTable(v, s, i, p))
  {
    assert Open(0);
    TableIn(v, s);
    PteFields(p, 1, p * 1024 + 1);
    var w := WithTable(v, s, i, p);
    forall q, j | q in w.owner && (w.owner[q].Top? || w.owner[q].Mid?) && 0 <= j < ENTRIES
      ensures PointerOrZero(Pte(w.pages, q, j))
    {
      assert q != p && q != Ref(v.pages, s) ==> Pte(w.pages, q, j) == Pte(v.pages, q, j);
    }
  }

  lemma TableLinkedRefs(v: Space, s: Slot, i: nat, p: nat)
    requires Own(v) && (s.Top? || s.Mid?) && InRange(v.roots, s) && Ref(v.pages, s) != 0 && i < ENTRIES
    requires Pte(v.pages, Ref(v.pages, s), i) == 0 && p in v.owner && v.owner[p] == Other
             && v.pages[p] == Table(ZeroPtes())
    ensures Ref(v.pages, s) < |v.pages| && v.pages[Ref(v.pages, s)].Table? && RefsOwned(WithTable(v, s, i, p), Other)
  {
    assert Open(0);
    TableLinked(v, s, i, p);
    var w := WithTable(v, s, i, p);
    assert forall x: Slot | Ownable(v.roots, x) :: Ref(w.pages, x) == if x == Below(s, i) then p else Ref(v.pages, x);
  }

  lemma TableLinkedOwn(v: Space, s: Slot, i: nat, p: nat)
    requires Own(v) && (s.Top? || s.Mid?) && InRange(v.roots, s) && Ref(v.pages, s) != 0 && i < ENTRIES
    requires Pte(v.pages, Ref(v.pages, s), i) == 0 && p in v.owner && v.owner[p] == Other
             && v.pages[p] == Table(ZeroPtes())
    ensures Ref(v.pages, s) < |v.pages| && v.pages[Ref(v.pages, s)].Table?
    ensures Own(WithTable(v, s, i, p))
  {
    TableIn(v, s);
    TableLinkedRefs(v, s, i, p);
    TableLinkedTyped(v, s, i, p);
  }

  lemma RootIn(v: Space, r: nat)
    requires Own(v) && r in v.roots
    ensures r != 0 && Ref(v.pages, Top(r)) == r
  {
    assert Open(0);
  }

  lemma EntryPointer(v: Space, s: Slot, t: nat, i: nat)
    requires Own(v) && (s.Top? || s.Mid?) && InRange(v.roots, s) && t == Ref(v.pages, s) && t != 0 && i < ENTRIES
    ensures PointerOrZero(Pte(v.pages, t, i))
  {
    assert Open(0);
    TableIn(v, s);
  }

  // ---- an address space as a finite map ----

  function LeafAt(r: nat, vpn: nat): Slot {
    Leaf(r, vpn / 0x4_0000, vpn / 512 % 512, vpn % 512)
  }

  function Lookup(pages: seq<Page>, r: nat, vpn: nat): nat {
    EntryOf(pages, LeafAt(r, vpn))
  }

  /** A mapping: its PTE and, below TRAPFRAME, the page it maps. */
  datatype Mapped = Mapped(pte: nat, page: Page)

  function PageAt(pages: seq<Page>, vpn: nat, pte: nat): Page {
    if vpn < TRAPFRAME && Child(pte) < |pages| then pages[Child(pte)] else Kernel
  }

  ghost function View(v: Space, r: nat): map<nat, Mapped> {
    map vpn: nat | vpn < VPNS && IsValid(Lookup(v.pages, r, vpn)) ::
      Mapped(Lookup(v.pages, r, vpn), PageAt(v.pages, vpn, Lookup(v.pages, r, vpn)))
  }

  lemma LeafAtVpn(r: nat, vpn: nat)
    requires vpn < VPNS
    ensures var s := LeafAt(r, vpn); s.a < ENTRIES && s.b < ENTRIES && s.c < ENTRIES && Vpn(s.a, s.b, s.c) == vpn
  {
    Digits(vpn);
  }

  lemma LeafAtPX(r: nat, va: nat)
    requires va < MAXVA
    ensures va / PGSIZE < MAXVPN && LeafAt(r, va / PGSIZE) == Leaf(r, PX(2, va), PX(1, va), PX(0, va))
  {
    var n := va / 4096;
    PageBelow(va, n);
    PXParts(va, n);
    TopDigit(n);
  }

  /** Every address space is as it was. */
  ghost predicate SameViews(v: Space, w: Space) {
    w.roots == v.roots && forall r | r in v.roots :: View(w, r) == View(v, r)
  }

  /** Data pages of address spaces hold what they held. */
  ghost predicate SameData(v: Space, w: Space) {
    |w.pages| == |v.pages| && forall p | p in v.owner && p < |v.pages| && v.owner[p].Leaf? :: w.pages[p] == v.pages[p]
  }

  /** The page a mapping below TRAPFRAME maps is owned by that mapping. */
  lemma MappedPage(v: Space, r: nat, vpn: nat)
    requires Own(v) && r in v.roots && vpn < TRAPFRAME && IsValid(Lookup(v.pages, r, vpn))
    ensures var p := Child(Lookup(v.pages, r, vpn));
            p != 0 && p in v.owner && v.owner[p] == LeafAt(r, vpn) && p < |v.pages| && v.pages[p].Data?
  {
    assert Open(0);
    LeafAtVpn(r, vpn);
    assert Ownable(v.roots, LeafAt(r, vpn));
    assert Ref(v.pages, LeafAt(r, vpn)) == Child(Lookup(v.pages, r, vpn));
  }

  /** The same leaf entries are valid, and they are the same. */
  ghost predicate SameMappings(v: Space, w: Space) {
    forall s: Slot | s.Leaf? && InRange(v.roots, s) ::
      EntryOf(w.pages, s) == EntryOf(v.pages, s) || (!IsValid(EntryOf(w.pages, s)) && !IsValid(EntryOf(v.pages, s)))
  }

  /** No two mappings below TRAPFRAME, in the same or in different address spaces, map the same page. */
  lemma NoSharing(v: Space, r: nat, i: nat, x: nat, j: nat)
    requires Own(v) && r in v.roots && x in v.roots && i < TRAPFRAME && j < TRAPFRAME && i in View(v, r)
             && j in View(v, x)
    requires Child(View(v, r)[i].pte) == Child(View(v, x)[j].pte)
    ensures r == x && i == j
  {
    assert Open(0);
    MappedPage(v, r, i);
    MappedPage(v, x, j);
    LeafAtVpn(r, i);
    LeafAtVpn(x, j);
  }

  lemma ViewsKept(v: Space, w: Space)
    requires Own(v) && SameMappings(v, w) && SameData(v, w) && w.roots == v.roots
    ensures SameViews(v, w)
  {
    assert Open(0);
    forall r | r in v.roots ensures View(w, r) == View(v, r) {
      forall vpn: nat | vpn < VPNS
        ensures Lookup(w.pages, r, vpn) == Lookup(v.pages, r, vpn)
                || (!IsValid(Lookup(w.pages, r, vpn)) && !IsValid(Lookup(v.pages, r, vpn)))
        ensures IsValid(Lookup(v.pages, r, vpn)) ==>
                PageAt(w.pages, vpn, Lookup(v.pages, r, vpn)) == PageAt(v.pages, vpn, Lookup(v.pages, r, vpn))
      {
        LeafAtVpn(r, vpn);
        assert InRange(v.roots, LeafAt(r, vpn));
        if vpn < TRAPFRAME && IsValid(Lookup(v.pages, r, vpn)) { MappedPage(v, r, vpn); }
      }
    }
  }

  // ---- mapping and unmapping a page ----

  ghost function TableOf(v: Space, r: nat, vpn: nat): nat {
    LowOf(v.pages, r, LeafAt(r, vpn).a, LeafAt(r, vpn).b)
  }

  lemma TableOfIn(v: Space, r: nat, vpn: nat)
    requires Own(v) && r in v.roots && vpn < VPNS && TableOf(v, r, vpn) != 0
    ensures var t := TableOf(v, r, vpn); t < |v.pages| && v.pages[t].Table? && t in v.owner && v.owner[t].Low?
    ensures InRange(v.roots, LeafAt(r, vpn)) && vpn % 512 < ENTRIES
  {
    assert Open(0);
    LeafAtVpn(r, vpn);
    var s := LeafAt(r, vpn);
    assert Ref(v.pages, Low(s.r, s.a, s.b)) == TableOf(v, r, vpn);
    TableIn(v, Low(s.r, s.a, s.b));
  }

  /** v with leaf entry s set, the page it refers to given to it and the page it referred to taken from it. */
  ghost function WithEntry(v: Space, s: Slot, pte: nat): Space
    requires s.Leaf? && s.c < ENTRIES && LowOf(v.pages, s.r, s.a, s.b) < |v.pages|
             && v.pages[LowOf(v.pages, s.r, s.a, s.b)].Table?
  {
    var was := EntryOf(v.pages, s);
    var owner := if Ownable(v.roots, s) && IsValid(was) then v.owner[Child(was) := Other] else v.owner;
    Space(SetPte(v.pages, LowOf(v.pages, s.r, s.a, s.b), s.c, pte),
          if Ownable(v.roots, s) && IsValid(pte) then owner[Child(pte) := s] else owner, v.roots)
  }

  lemma WithEntryTyped(v: Space, s: Slot, pte: nat)
    requires Own(v) && s.Leaf? && InRange(v.roots, s) && LowOf(v.pages, s.r, s.a, s.b) != 0
    requires Ownable(v.roots, s) && IsValid(pte) ==>
             Child(pte) in v.owner && v.owner[Child(pte)] == Other && v.pages[Child(pte)].Data?
    ensures LowOf(v.pages, s.r, s.a, s.b) < |v.pages| && v.pages[LowOf(v.pages, s.r, s.a, s.b)].Table?
    ensures var w := WithEntry(v, s, pte); (forall p | p in w.owner :: 0 < p < |w.pages|) && PagesTyped(w)
  {
    assert Open(0);
    var l := Low(s.r, s.a, s.b);
    assert Ref(v.pages, l) == LowOf(v.pages, s.r, s.a, s.b);
    TableIn(v, l);
    var w := WithEntry(v, s, pte);
    assert Ref(v.pages, s) == Child(EntryOf(v.pages, s));
    forall p, i | p in w.owner && (w.owner[p].Top? || w.owner[p].Mid?) && 0 <= i < ENTRIES
      ensures PointerOrZero(Pte(w.pages, p, i))
    {
      assert Pte(w.pages, p, i) == Pte(v.pages, p, i);
    }
  }

  lemma WithEntryOwn(v: Space, s: Slot, pte: nat)
    requires Own(v) && s.Leaf? && InRange(v.roots, s) && LowOf(v.pages, s.r, s.a, s.b) != 0
    requires IsValid(pte) ==> !IsValid(EntryOf(v.pages, s))
    requires Ownable(v.roots, s) && IsValid(pte) ==>
             Child(pte) in v.owner && v.owner[Child(pte)] == Other && v.pages[Child(pte)].Data?
    ensures LowOf(v.pages, s.r, s.a, s.b) < |v.pages| && v.pages[LowOf(v.pages, s.r, s.a, s.b)].Table?
    ensures Own(WithEntry(v, s, pte))
  {
    assert Open(0);
    LeafSet(v, s.r, s.a, s.b, s.c, pte);
    var l := Low(s.r, s.a, s.b);
    assert Ref(v.pages, l) == LowOf(v.pages, s.r, s.a, s.b);
    TableIn(v, l);
    var w := WithEntry(v, s, pte);
    assert forall x: Slot | Ownable(v.roots, x) && x != s :: Ref(w.pages, x) == Ref(v.pages, x);
    assert Ref(w.pages, s) == Child(pte) && Ref(v.pages, s) == Child(EntryOf(v.pages, s));
    WithEntryTyped(v, s, pte);
    assert RefsOwned(w, Other);
  }

  ghost function WithLeaf(v: Space, r: nat, vpn: nat, pte: nat): Space
    requires TableOf(v, r, vpn) < |v.pages| && v.pages[TableOf(v, r, vpn)].Table?
  {
    WithEntry(v, LeafAt(r, vpn), pte)
  }

  lemma WithLeafEntry(v: Space, r: nat, vpn: nat, pte: nat, x: nat, i: nat)
    requires Own(v) && r in v.roots && vpn < VPNS && TableOf(v, r, vpn) != 0 && x in v.roots && i < VPNS
    ensures TableOf(v, r, vpn) < |v.pages| && v.pages[TableOf(v, r, vpn)].Table?
    ensures Lookup(WithLeaf(v, r, vpn, pte).pages, x, i) == if x == r && i == vpn then pte else Lookup(v.pages, x, i)
  {
    TableOfIn(v, r, vpn);
    LeafSet(v, r, LeafAt(r, vpn).a, LeafAt(r, vpn).b, LeafAt(r, vpn).c, pte);
    LeafAtVpn(x, i);
    LeafAtVpn(r, vpn);
  }

  lemma WithLeafLookup(v: Space, r: nat, vpn: nat, pte: nat, x: nat, i: nat)
    requires Own(v) && r in v.roots && vpn < VPNS && TableOf(v, r, vpn) != 0 && x in v.roots && i < VPNS
    ensures TableOf(v, r, vpn) < |v.pages| && v.pages[TableOf(v, r, vpn)].Table?
    ensures var w := WithLeaf(v, r, vpn, pte);
            && Lookup(w.pages, x, i) == (if x == r && i == vpn then pte else Lookup(v.pages, x, i))
            && (IsValid(Lookup(v.pages, x, i)) ==>
               PageAt(w.pages, i, Lookup(v.pages, x, i)) == PageAt(v.pages, i, Lookup(v.pages, x, i)))
  {
    TableOfIn(v, r, vpn);
    WithLeafEntry(v, r, vpn, pte, x, i);
    if i < TRAPFRAME && IsValid(Lookup(v.pages, x, i)) { MappedPage(v, x, i); }
  }

  lemma WithLeafOthers(v: Space, r: nat, vpn: nat, pte: nat, x: nat)
    requires Own(v) && r in v.roots && vpn < VPNS && TableOf(v, r, vpn) != 0 && x in v.roots && x != r
    ensures TableOf(v, r, vpn) < |v.pages| && v.pages[TableOf(v, r, vpn)].Table?
    ensures View(WithLeaf(v, r, vpn, pte), x) == View(v, x)
  {
    assert Open(0);
    TableOfIn(v, r, vpn);
    var w := WithLeaf(v, r, vpn, pte);
    forall i: nat | i < VPNS
      ensures Lookup(w.pages, x, i) == Lookup(v.pages, x, i)
      ensures IsValid(Lookup(v.pages, x, i)) ==>
              PageAt(w.pages, i, Lookup(v.pages, x, i)) == PageAt(v.pages, i, Lookup(v.pages, x, i))
    {
      WithLeafLookup(v, r, vpn, pte, x, i);
    }
  }

  /** The two views agree at page i. */
  ghost predicate SameAt(v: Space, w: Space, r: nat, i: nat) {
    && Lookup(w.pages, r, i) == Lookup(v.pages, r, i)
    && (IsValid(Lookup(v.pages, r, i)) ==>
       PageAt(w.pages, i, Lookup(v.pages, r, i)) == PageAt(v.pages, i, Lookup(v.pages, r, i)))
  }

  lemma ViewUpdated(v: Space, w: Space, r: nat, vpn: nat, pte: nat)
    requires vpn < VPNS && Lookup(w.pages, r, vpn) == pte && forall i: nat | i < VPNS && i != vpn :: SameAt(v, w, r, i)
    ensures View(w, r) == if IsValid(pte) then View(v, r)[vpn := Mapped(pte, PageAt(w.pages, vpn, pte))]
            else View(v, r) - {vpn}
  {
    var u := if IsValid(pte) then View(v, r)[vpn := Mapped(pte, PageAt(w.pages, vpn, pte))] else View(v, r) - {vpn};
    forall i: nat ensures i in View(w, r) <==> i in u {
      if i < VPNS && i != vpn { assert SameAt(v, w, r, i); }
    }
    forall i: nat | i in u ensures View(w, r)[i] == u[i] {
      if i != vpn { assert SameAt(v, w, r, i); }
    }
  }

  lemma WithLeafView(v: Space, r: nat, vpn: nat, pte: nat)
    requires Own(v) && r in v.roots && vpn < VPNS && TableOf(v, r, vpn) != 0
    requires vpn < TRAPFRAME && IsValid(pte) ==> Child(pte) < |v.pages| && v.pages[Child(pte)].Data?
    ensures TableOf(v, r, vpn) < |v.pages| && v.pages[TableOf(v, r, vpn)].Table?
    ensures View(WithLeaf(v, r, vpn, pte), r) ==
            if IsValid(pte) then View(v, r)[vpn := Mapped(pte, PageAt(v.pages, vpn, pte))] else View(v, r) - {vpn}
  {
    assert Open(0);
    TableOfIn(v, r, vpn);
    var w := WithLeaf(v, r, vpn, pte);
    forall i: nat | i < VPNS && i != vpn ensures SameAt(v, w, r, i) {
      WithLeafLookup(v, r, vpn, pte, r, i);
    }
    WithLeafLookup(v, r, vpn, pte, r, vpn);
    ViewUpdated(v, w, r, vpn, pte);
    assert vpn < TRAPFRAME && IsValid(pte) ==> Child(pte) != TableOf(v, r, vpn);
  }

  // ---- pages coming from and going to the allocator ----

  /** p is taken from the allocator or kept by the kernel, and holds the given page. */
  ghost function WithOther(v: Space, p: nat, page: Page): Space
    requires p < |v.pages|
  {
    Space(v.pages[p := page], v.owner[p := Other], v.roots)
  }

  /** p goes to the allocator. */
  ghost function WithFree(v: Space, p: nat, page: Page): Space
    requires p < |v.pages|
  {
    Space(v.pages[p := page], v.owner - {p}, v.roots)
  }

  lemma OtherTyped(v: Space, p: nat, page: Page, w: Space)
    requires Own(v) && 0 < p < |v.pages| && (p in v.owner ==> v.owner[p] == Other)
    requires w == WithOther(v, p, page) || w == WithFree(v, p, page)
    ensures PagesTyped(w)
  {
    assert Open(0);
    forall q, i | q in w.owner && (w.owner[q].Top? || w.owner[q].Mid?) && 0 <= i < ENTRIES
      ensures PointerOrZero(Pte(w.pages, q, i))
    {
      assert Pte(w.pages, q, i) == Pte(v.pages, q, i);
    }
  }

  lemma OtherOwn(v: Space, p: nat, page: Page, w: Space)
    requires Own(v) && 0 < p < |v.pages| && (p in v.owner ==> v.owner[p] == Other)
    requires w == WithOther(v, p, page) || w == WithFree(v, p, page)
    ensures Own(w) && SameViews(v, w)
  {
    assert Open(0);
    FreePage(v, p, page);
    assert forall s: Slot | Ownable(v.roots, s) :: Ref(w.pages, s) == Ref(v.pages, s);
    OtherTyped(v, p, page, w);
    assert RefsOwned(w, Other);
    ViewsKept(v, w);
  }

  /** An empty page table. */
  ghost function WithRoot(v: Space, p: nat): Space {
    Space(v.pages, v.owner[p := Top(p)], v.roots + {p})
  }

  /** An all-zero table refers to nothing. */
  lemma RootRefs(v: Space, p: nat, s: Slot)
    requires p < |v.pages| && v.pages[p] == Table(ZeroPtes()) && |v.pages| > 0 && !v.pages[0].Table? && !s.Other?
             && s.r == p
    ensures s == Top(p) || (Ref(v.pages, s) == 0 && (s.Leaf? ==> EntryOf(v.pages, s) == 0))
  {
  }

  lemma RootEmpty(v: Space, p: nat)
    requires p < |v.pages| && v.pages[p] == Table(ZeroPtes()) && |v.pages| > 0 && !v.pages[0].Table?
    ensures View(WithRoot(v, p), p) == map[]
  {
    forall vpn: nat | vpn < VPNS ensures !IsValid(Lookup(v.pages, p, vpn)) {
      RootRefs(v, p, LeafAt(p, vpn));
    }
  }

  lemma RootRefsOwned(v: Space, p: nat)
    requires Own(v) && p in v.owner && v.owner[p] == Other && v.pages[p] == Table(ZeroPtes())
    ensures p !in v.roots && RefsOwned(WithRoot(v, p), Other)
  {
    assert Open(0);
    var w := WithRoot(v, p);
    assert forall r | r in v.roots :: Ref(v.pages, Top(r)) == r && Ownable(v.roots, Top(r));
    forall s: Slot | InRange(w.roots, s) && s.r == p
      ensures s == Top(p) || (Ref(v.pages, s) == 0 && (s.Leaf? ==> EntryOf(v.pages, s) == 0))
    {
      RootRefs(v, p, s);
    }
    assert forall s: Slot | Ownable(w.roots, s) && s.r != p :: Ownable(v.roots, s);
  }

  lemma RootTyped(v: Space, p: nat)
    requires Own(v) && p in v.owner && v.owner[p] == Other && v.pages[p] == Table(ZeroPtes())
    ensures PagesTyped(WithRoot(v, p))
  {
    assert Open(0);
  }

  lemma RootOwn(v: Space, p: nat)
    requires Own(v) && p in v.owner && v.owner[p] == Other && v.pages[p] == Table(ZeroPtes())
    ensures p !in v.roots && Own(WithRoot(v, p)) && View(WithRoot(v, p), p) == map[]
    ensures forall r | r in v.roots :: View(WithRoot(v, p), r) == View(v, r)
  {
    RootRefsOwned(v, p);
    RootTyped(v, p);
    RootEmpty(v, p);
  }

  // ---- freeing tables ----

  /** d is s or lies in the subtree under it. */
  predicate Under(s: Slot, d: Slot) {
    match s
    case Top(r) => !d.Other? && d.r == r
    case Mid(r, a) => (d.Mid? || d.Low? || d.Leaf?) && d.r == r && d.a == a
    case Low(r, a, b) => (d.Low? || d.Leaf?) && d.r == r && d.a == a && d.b == b
    case Leaf(_, _, _, _) => d == s
    case Other => false
  }

  /** No entry of the table in slot s leads anywhere. */
  ghost predicate Bare(pages: seq<Page>, s: Slot) {
    forall i: nat | i < ENTRIES :: !IsValid(Pte(pages, Ref(pages, s), i))
  }

  lemma TableFreed(v: Space, s: Slot, page: Page)
    requires Own(v) && InRange(v.roots, s) && IsTable(s) && Ref(v.pages, s) != 0 && Bare(v.pages, s) && page.Run?
    ensures Ref(v.pages, s) < |v.pages|
    ensures var w := WithFree(v, Ref(v.pages, s), page);
            && (forall x: Slot | InRange(v.roots, x) :: Ref(w.pages, x) == Ref(v.pages, x))
            && SameMappings(v, w)
  {
    assert Open(0);
    TableIn(v, s);
    var t := Ref(v.pages, s);
    var w := v.pages[t := page];
    forall x: nat, j: nat | InRange(v.roots, Mid(x, j)) ensures MidOf(w, x, j) == MidOf(v.pages, x, j) {
      if Top(x) != s { OtherTable(v, s, Top(x), page, j); } else { assert !IsValid(Pte(v.pages, t, j)); }
    }
    forall x: nat, j: nat, k: nat | InRange(v.roots, Low(x, j, k))
      ensures LowOf(w, x, j, k) == LowOf(v.pages, x, j, k)
    {
      assert InRange(v.roots, Mid(x, j)) && Ref(v.pages, Mid(x, j)) == MidOf(v.pages, x, j);
      if Mid(x, j) != s { OtherTable(v, s, Mid(x, j), page, k); } else { assert !IsValid(Pte(v.pages, t, k)); }
    }
    forall x: Slot | x.Leaf? && InRange(v.roots, x)
      ensures EntryOf(w, x) == EntryOf(v.pages, x) || (!IsValid(EntryOf(w, x)) && !IsValid(EntryOf(v.pages, x)))
    {
      var l := Low(x.r, x.a, x.b);
      assert InRange(v.roots, l) && Ref(v.pages, l) == LowOf(v.pages, x.r, x.a, x.b);
      if l != s { OtherTable(v, s, l, page, x.c); } else { assert !IsValid(Pte(v.pages, t, x.c)); }
    }
  }

  lemma TableFreedOwn(v: Space, s: Slot, page: Page)
    requires Own(v) && InRange(v.roots, s) && IsTable(s) && Ref(v.pages, s) != 0 && Bare(v.pages, s) && page.Run?
    ensures Ref(v.pages, s) < |v.pages| && OwnBut(WithFree(v, Ref(v.pages, s), page), s)
            && SameViews(v, WithFree(v, Ref(v.pages, s), page))
  {
    assert Open(0);
    TableIn(v, s);
    TableFreed(v, s, page);
    var w := WithFree(v, Ref(v.pages, s), page);
    forall q, i | q in w.owner && (w.owner[q].Top? || w.owner[q].Mid?) && 0 <= i < ENTRIES
      ensures PointerOrZero(Pte(w.pages, q, i))
    {
      assert Pte(w.pages, q, i) == Pte(v.pages, q, i);
    }
    assert Owners(w, s);
    ViewsKept(v, w);
  }

  ghost function WithoutPointer(v: Space, q: Slot, i: nat): Space
    requires Ref(v.pages, q) < |v.pages| && v.pages[Ref(v.pages, q)].Table? && i < ENTRIES
  {
    Space(SetPte(v.pages, Ref(v.pages, q), i, 0), v.owner, v.roots)
  }

  /** Clearing the entry that leads to a freed table. */
  lemma PointerCleared(v: Space, q: Slot, i: nat)
    requires (q.Top? || q.Mid?) && InRange(v.roots, q) && i < ENTRIES && OwnBut(v, Below(q, i)) && Ref(v.pages, q) != 0
    requires var c := Ref(v.pages, Below(q, i)); c !in v.owner && (c < |v.pages| ==> !v.pages[c].Table?)
    ensures Ref(v.pages, q) < |v.pages| && v.pages[Ref(v.pages, q)].Table?
    ensures var w := WithoutPointer(v, q, i);
            && SameMappings(v, w)
            && forall x: Slot | InRange(v.roots, x) && IsTable(x) :: Ref(w.pages, x) == if x == Below(q, i) then 0
               else Ref(v.pages, x)
  {
    assert Open(0);
    var hole := Below(q, i);
    TableInBut(v, hole, q);
    var w := WithoutPointer(v, q, i).pages;
    forall x: Slot, j: nat | InRange(v.roots, x) && IsTable(x) && x != q
      ensures Pte(w, Ref(v.pages, x), j) == Pte(v.pages, Ref(v.pages, x), j)
    {
      if x != hole && Ref(v.pages, x) != 0 { TableInBut(v, hole, x); }
    }
    forall x: nat, j: nat | InRange(v.roots, Mid(x, j))
      ensures MidOf(w, x, j) == if Mid(x, j) == hole then 0 else MidOf(v.pages, x, j)
    {
      assert InRange(v.roots, Top(x)) && Ref(v.pages, Top(x)) == x;
    }
    forall x: nat, j: nat, k: nat | InRange(v.roots, Low(x, j, k))
      ensures LowOf(w, x, j, k) == if Low(x, j, k) == hole then 0 else LowOf(v.pages, x, j, k)
    {
      assert InRange(v.roots, Mid(x, j)) && Ref(v.pages, Mid(x, j)) == MidOf(v.pages, x, j);
    }
    forall x: Slot | x.Leaf? && InRange(v.roots, x)
      ensures EntryOf(w, x) == EntryOf(v.pages, x) || (!IsValid(EntryOf(w, x)) && !IsValid(EntryOf(v.pages, x)))
    {
      var l := Low(x.r, x.a, x.b);
      assert InRange(v.roots, l) && Ref(v.pages, l) == LowOf(v.pages, x.r, x.a, x.b);
    }
  }

  lemma PointerClearedTyped(v: Space, q: Slot, i: nat)
    requires (q.Top? || q.Mid?) && InRange(v.roots, q) && i < ENTRIES && OwnBut(v, Below(q, i)) && Ref(v.pages, q) != 0
    ensures Ref(v.pages, q) < |v.pages| && v.pages[Ref(v.pages, q)].Table? && PagesTyped(WithoutPointer(v, q, i))
  {
    assert Open(0);
    TableInBut(v, Below(q, i), q);
    var w := WithoutPointer(v, q, i);
    forall p, j | p in w.owner && (w.owner[p].Top? || w.owner[p].Mid?) && 0 <= j < ENTRIES
      ensures PointerOrZero(Pte(w.pages, p, j))
    {
      assert p != Ref(v.pages, q) ==> Pte(w.pages, p, j) == Pte(v.pages, p, j);
    }
  }

  lemma PointerClearedOwn(v: Space, q: Slot, i: nat)
    requires (q.Top? || q.Mid?) && InRange(v.roots, q) && i < ENTRIES && OwnBut(v, Below(q, i)) && Ref(v.pages, q) != 0
    requires var c := Ref(v.pages, Below(q, i)); c !in v.owner && (c < |v.pages| ==> !v.pages[c].Table?)
    ensures Ref(v.pages, q) < |v.pages| && v.pages[Ref(v.pages, q)].Table?
    ensures Own(WithoutPointer(v, q, i)) && SameViews(v, WithoutPointer(v, q, i))
  {
    assert Open(0);
    TableInBut(v, Below(q, i), q);
    PointerCleared(v, q, i);
    var w := WithoutPointer(v, q, i);
    assert forall x: Slot | Ownable(v.roots, x) && x.Leaf? && Ref(w.pages, x) != 0 ::
        Ref(w.pages, x) == Ref(v.pages, x);
    PointerClearedTyped(v, q, i);
    assert RefsOwned(w, Other);
    assert Own(w);
    ViewsKept(w, v);
  }

  /** A freed root is no longer an address space. */
  lemma RootDropped(v: Space, r: nat)
    requires OwnBut(v, Top(r)) && r in v.roots && r !in v.owner && (r < |v.pages| ==> !v.pages[r].Table?)
    ensures Own(v.(roots := v.roots - {r})) && forall p | p in v.owner && !v.owner[p].Other? :: v.owner[p].r != r
    ensures forall x | x in v.roots :: View(v.(roots := v.roots - {r}), x) == View(v, x)
  {
    assert Open(0);
    var w := v.(roots := v.roots - {r});
    forall p | p in v.owner && !v.owner[p].Other? ensures v.owner[p].r != r {
      assert Ref(v.pages, v.owner[p]) == p;
    }
    assert forall s: Slot | InRange(w.roots, s) :: InRange(v.roots, s) && s.r != r;
    assert forall s: Slot | Ownable(w.roots, s) :: Ownable(v.roots, s);
    assert Owners(w, Other);
  }

  // ---- one address space against the rest ----

  /** The owners outside address space r. */
  ghost function Pruned(owner: map<nat, Slot>, r: nat): map<nat, Slot> {
    map p | p in owner && !Under(Top(r), owner[p]) :: owner[p]
  }

  /** Outside address space r only the given pages, which it took over, have changed hands; kernel pages and the
      views of the other address spaces are as they were. */
  ghost predicate Rest(v: Space, w: Space, r: nat, given: set<nat>) {
    && |w.pages| == |v.pages| && w.roots == v.roots && Pruned(w.owner, r) == Pruned(v.owner, r) - given
    && (forall p | p in Pruned(w.owner, r) && p < |v.pages| && w.owner[p].Other? :: w.pages[p] == v.pages[p])
    && (forall x | x in v.roots && x != r :: View(w, x) == View(v, x))
  }

  lemma RestTwice(u: Space, v: Space, w: Space, r: nat, given: set<nat>, more: set<nat>)
    requires Rest(u, v, r, given) && Rest(v, w, r, more)
    ensures Rest(u, w, r, given + more)
  {
    assert Pruned(w.owner, r) == Pruned(u.owner, r) - (given + more);
    forall p | p in Pruned(w.owner, r) && p < |u.pages| && w.owner[p].Other? ensures w.pages[p] == u.pages[p] {
      assert p in Pruned(v.owner, r) && Pruned(v.owner, r)[p] == w.owner[p];
    }
  }

  /** Setting a leaf of r is nothing to the rest but that r takes over the page. */
  lemma WithLeafRest(v: Space, r: nat, vpn: nat, pte: nat)
    requires Own(v) && r in v.roots && vpn < VPNS && TableOf(v, r, vpn) != 0 && IsValid(pte)
             && !IsValid(Lookup(v.pages, r, vpn))
    ensures TableOf(v, r, vpn) < |v.pages| && v.pages[TableOf(v, r, vpn)].Table?
    ensures Rest(v, WithLeaf(v, r, vpn, pte), r, if vpn < TRAPFRAME then {Child(pte)} else {})
    ensures WithLeaf(v, r, vpn, pte).owner == if vpn < TRAPFRAME then v.owner[Child(pte) := LeafAt(r, vpn)] else v.owner
  {
    assert Open(0);
    TableOfIn(v, r, vpn);
    LeafAtVpn(r, vpn);
    var w := WithLeaf(v, r, vpn, pte);
    var given := if vpn < TRAPFRAME then {Child(pte)} else {};
    forall x | x in v.roots && x != r ensures View(w, x) == View(v, x) {
      WithLeafOthers(v, r, vpn, pte, x);
    }
    assert Pruned(w.owner, r) == Pruned(v.owner, r) - given;
  }

  /** A page put into a leaf. */
  lemma LeafPut(v: Space, r: nat, vpn: nat, pte: nat)
    requires Own(v) && r in v.roots && vpn < VPNS && TableOf(v, r, vpn) != 0 && IsValid(pte) && vpn !in View(v, r)
    requires vpn < TRAPFRAME ==> Child(pte) in v.owner && v.owner[Child(pte)] == Other && v.pages[Child(pte)].Data?
    ensures TableOf(v, r, vpn) < |v.pages| && v.pages[TableOf(v, r, vpn)].Table?
    ensures var w := WithLeaf(v, r, vpn, pte);
            && Own(w) && View(w, r) == View(v, r)[vpn := Mapped(pte, PageAt(v.pages, vpn, pte))]
            && Rest(v, w, r, if vpn < TRAPFRAME then {Child(pte)} else {})
            && w.owner == if vpn < TRAPFRAME then v.owner[Child(pte) := LeafAt(r, vpn)] else v.owner
  {
    assert Open(0);
    TableOfIn(v, r, vpn);
    LeafAtVpn(r, vpn);
    WithEntryOwn(v, LeafAt(r, vpn), pte);
    WithLeafView(v, r, vpn, pte);
    WithLeafRest(v, r, vpn, pte);
  }

  // ---- writing to a mapped page ----

  lemma SamePtes(v: seq<Page>, p: nat, page: Page)
    requires p < |v| && v[p].Data? && page.Data?
    ensures forall s: Slot ::
            Ref(v[p := page], s) == Ref(v, s) && (s.Leaf? ==> EntryOf(v[p := page], s) == EntryOf(v, s))
    ensures forall t: nat, i: nat :: Pte(v[p := page], t, i) == Pte(v, t, i)
  {
    var w := v[p := page];
    forall t: nat, i: nat ensures Pte(w, t, i) == Pte(v, t, i) {
    }
    forall s: Slot ensures Ref(w, s) == Ref(v, s) && (s.Leaf? ==> EntryOf(w, s) == EntryOf(v, s)) {
      match s
      case Mid(r, a) => assert MidOf(w, r, a) == MidOf(v, r, a);
      case Low(r, a, b) => assert MidOf(w, r, a) == MidOf(v, r, a);
      case Leaf(r, a, b, _) => assert MidOf(w, r, a) == MidOf(v, r, a) && LowOf(w, r, a, b) == LowOf(v, r, a, b);
      case _ =>
    }
  }

  ghost function WithData(v: Space, p: nat, page: Page): Space
    requires p < |v.pages|
  {
    v.(pages := v.pages[p := page])
  }

  lemma DataWrittenAt(v: Space, r: nat, k: nat, page: Page, x: nat, i: nat, p: nat)
    requires Own(v) && r in v.roots && k < TRAPFRAME && k in View(v, r) && page.Data? && x in v.roots
             && !(x == r && i == k) && p == Child(View(v, r)[k].pte)
    ensures p < |v.pages| && v.pages[p].Data?
    ensures SameAt(v, WithData(v, p, page), x, i) || i >= VPNS
  {
    MappedPage(v, r, k);
    SamePtes(v.pages, p, page);
    if i < TRAPFRAME && IsValid(Lookup(v.pages, x, i))
        && Child(Lookup(v.pages, x, i)) == p { NoSharing(v, r, k, x, i); }
  }

  lemma DataWrittenOwn(v: Space, p: nat, page: Page)
    requires Own(v) && p in v.owner && v.owner[p].Leaf? && v.pages[p].Data? && page.Data?
    ensures Own(WithData(v, p, page))
  {
    assert Open(0);
    SamePtes(v.pages, p, page);
    var w := WithData(v, p, page);
    forall q, i | q in w.owner && (w.owner[q].Top? || w.owner[q].Mid?) && 0 <= i < ENTRIES
      ensures PointerOrZero(Pte(w.pages, q, i))
    {
      assert Pte(w.pages, q, i) == Pte(v.pages, q, i);
    }
    assert Owners(w, Other);
  }

  lemma DataWrittenView(v: Space, r: nat, k: nat, page: Page, p: nat)
    requires Own(v) && r in v.roots && k < TRAPFRAME && k in View(v, r) && page.Data? && p == Child(View(v, r)[k].pte)
    ensures p < |v.pages| && v.pages[p].Data?
    ensures View(WithData(v, p, page), r) == View(v, r)[k := Mapped(View(v, r)[k].pte, page)]
  {
    assert Open(0);
    MappedPage(v, r, k);
    SamePtes(v.pages, p, page);
    var w := WithData(v, p, page);
    forall i: nat | i < VPNS && i != k ensures SameAt(v, w, r, i) {
      DataWrittenAt(v, r, k, page, r, i, p);
    }
    ViewUpdated(v, w, r, k, Lookup(v.pages, r, k));
  }

  lemma DataWrittenOther(v: Space, r: nat, k: nat, page: Page, p: nat, x: nat)
    requires Own(v) && r in v.roots && k < TRAPFRAME && k in View(v, r) && page.Data? && p == Child(View(v, r)[k].pte)
             && x in v.roots && x != r
    ensures p < |v.pages| && v.pages[p].Data?
    ensures View(WithData(v, p, page), x) == View(v, x)
  {
    assert Open(0);
    MappedPage(v, r, k);
    var w := WithData(v, p, page);
    forall i: nat | i < VPNS ensures SameAt(v, w, x, i) {
      DataWrittenAt(v, r, k, page, x, i, p);
    }
    ViewSame(v, w, x);
  }

  /** A write to a page that r maps shows there and nowhere else. */
  lemma DataWritten(v: Space, r: nat, k: nat, page: Page, p: nat)
    requires Own(v) && r in v.roots && k < TRAPFRAME && k in View(v, r) && page.Data? && p == Child(View(v, r)[k].pte)
    ensures p < |v.pages| && v.pages[p].Data? && p in v.owner
    ensures Own(WithData(v, p, page))
            && View(WithData(v, p, page), r) == View(v, r)[k := Mapped(View(v, r)[k].pte, page)]
    ensures Rest(v, WithData(v, p, page), r, {})
  {
    assert Open(0);
    MappedPage(v, r, k);
    DataWrittenOwn(v, p, page);
    DataWrittenView(v, r, k, page, p);
    var w := WithData(v, p, page);
    forall x | x in v.roots && x != r ensures View(w, x) == View(v, x) {
      DataWrittenOther(v, r, k, page, p, x);
    }
    assert Pruned(w.owner, r) == Pruned(v.owner, r) - {};
  }

  lemma ViewSame(v: Space, w: Space, r: nat)
    requires forall i: nat | i < VPNS :: SameAt(v, w, r, i)
    ensures View(w, r) == View(v, r)
  {
    forall i: nat ensures i in View(w, r) <==> i in View(v, r) {
      if i < VPNS { assert SameAt(v, w, r, i); }
    }
    forall i: nat | i in View(v, r) ensures View(w, r)[i] == View(v, r)[i] {
      assert SameAt(v, w, r, i);
    }
  }
}
