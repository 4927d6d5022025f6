/** What user code may do with the pages of a process, in the terms of the hardware. */
module Rights {
  import opened VmModel
  import opened VmSteps
  import opened Sv39

  /** Memory: user code can load and store, not execute. */
  predicate UserPage(pte: nat) { LeafAllows(pte, Load) && LeafAllows(pte, Store) && !LeafAllows(pte, Fetch) }

  /** The trampoline: the kernel executes it, nobody writes to it, and user code does not see it. */
  predicate CodePage(pte: nat) { R(pte) && X(pte) && !W(pte) && !IsUser(pte) }

  /** The trapframe: the kernel reads and writes it, and user code does not see it. */
  predicate FramePage(pte: nat) { R(pte) && W(pte) && !X(pte) && !IsUser(pte) }

  /** A process has n pages of memory, and its trapframe and the trampoline in the two topmost pages below 2^38. */
  ghost predicate Permitted(view: map<nat, Mapped>, n: nat, frame: nat) {
    && (forall k: nat | k in view && k < n :: UserPage(view[k].pte))
    && 0x3ff_ffff in view && CodePage(view[0x3ff_ffff].pte)
    && 0x3ff_fffe in view && FramePage(view[0x3ff_fffe].pte) && Child(view[0x3ff_fffe].pte) == frame
  }

  /** The new pages k of uvmalloc: user code can load, and store or execute as xperm says. */
  ghost predicate Granted(view: map<nat, Mapped>, from: nat, to: nat, xperm: nat) {
    forall k: nat | from <= k < to ::
      && k in view && LeafAllows(view[k].pte, Load)
      && (LeafAllows(view[k].pte, Store) <==> xperm in {PTE_W, PTE_W + PTE_X})
      && (LeafAllows(view[k].pte, Fetch) <==> xperm in {PTE_X, PTE_W + PTE_X})
  }

  // ---- bits ----

  lemma By4(x: nat, q: nat, r: nat)
    requires x == 4 * q + r && r < 4
    ensures x / 4 == q
  {
  }

  lemma By8Whole(x: nat, q: nat, r: nat)
    requires x == 8 * q + r && r < 8
    ensures x / 8 == q
  {
  }

  /** The rights are in the flags. */
  lemma FlagBits(pte: nat)
    ensures R(pte) == R(PteFlags(pte)) && W(pte) == W(PteFlags(pte)) && X(pte) == X(PteFlags(pte))
    ensures IsUser(pte) == IsUser(PteFlags(pte))
  {
    var n, w := pte / 1024, pte % 1024;
    var half, quarter, eighth := w / 2, w / 4, w / 8;
    PteFields(n, w, pte);
    By2(pte, n * 512 + half, w % 2);
    By2(n * 512 + half, n * 256 + half / 2, half % 2);
    By4(pte, n * 256 + quarter, w % 4);
    By2(n * 256 + quarter, n * 128 + quarter / 2, quarter % 2);
    By8Whole(pte, n * 128 + eighth, w % 8);
    By2(n * 128 + eighth, n * 64 + eighth / 2, eighth % 2);
  }

  lemma SameRights(p: nat, q: nat, acc: Access)
    requires PteFlags(p) == PteFlags(q)
    ensures LeafAllows(p, acc) == LeafAllows(q, acc)
  {
    FlagBits(p);
    FlagBits(q);
  }

  /** What uvmalloc's flags allow. */
  lemma FlagsAllow(xperm: nat)
    requires xperm in {0, PTE_W, PTE_X, PTE_W + PTE_X}
    ensures var flags := UserFlags(xperm);
            && LeafAllows(flags, Load) && (LeafAllows(flags, Store) <==> xperm in {PTE_W, PTE_W + PTE_X})
            && (LeafAllows(flags, Fetch) <==> xperm in {PTE_X, PTE_W + PTE_X}) && PteFlags(flags) == flags
  {
  }

  lemma ZeroGranted(view: map<nat, Mapped>, from: nat, to: nat, xperm: nat)
    requires xperm in {0, PTE_W, PTE_X, PTE_W + PTE_X}
    requires forall k: nat | from <= k < to :: k in view && From(Zero(UserFlags(xperm)), k, view[k])
    ensures Granted(view, from, to, xperm)
  {
    FlagsAllow(xperm);
    forall k: nat | from <= k < to
      ensures forall acc: Access :: LeafAllows(view[k].pte, acc) == LeafAllows(UserFlags(xperm), acc)
    {
      forall acc: Access ensures LeafAllows(view[k].pte, acc) == LeafAllows(UserFlags(xperm), acc) {
        SameRights(view[k].pte, UserFlags(xperm), acc);
      }
    }
  }

  // ---- what allocproc, growproc and fork keep ----

  lemma FreshPermitted(trampoline: nat, frame: nat)
    ensures Permitted(ProcView(trampoline, frame), 0, frame)
  {
    PagePteFields(trampoline, PTE_R + PTE_X);
    PagePteFields(frame, PTE_R + PTE_W);
    FlagBits(PagePte(trampoline, PTE_R + PTE_X));
    FlagBits(PagePte(frame, PTE_R + PTE_W));
  }

  lemma GrownPermitted(view0: map<nat, Mapped>, view: map<nat, Mapped>, n: nat, m: nat, frame: nat)
    requires Permitted(view0, n, frame) && n <= m <= TRAPFRAME
    requires Filling(view0, view, Zero(UserFlags(PTE_W)), n, m) && forall k: nat | k in view0 :: k < n || TRAPFRAME <= k
    ensures Permitted(view, m, frame)
  {
    ZeroGranted(view, n, m, PTE_W);
  }

  lemma CopiedPermitted(view0: map<nat, Mapped>, view: map<nat, Mapped>, like: map<nat, Mapped>, n: nat, frame: nat,
      other: nat)
    requires Permitted(view0, 0, frame) && Permitted(like, n, other) && n <= TRAPFRAME
    requires Filling(view0, view, Like(like), 0, n)
    ensures Permitted(view, n, frame)
  {
    forall k: nat | k < n ensures UserPage(view[k].pte) {
      assert From(Like(like), k, view[k]);
      SameRights(view[k].pte, like[k].pte, Load);
      SameRights(view[k].pte, like[k].pte, Store);
      SameRights(view[k].pte, like[k].pte, Fetch);
    }
  }

  // ---- what the hardware lets user code do ----

  /** User code can load and store exactly the bytes of the first n pages, and execute none of them. */
  ghost predicate Reaches(v: Space, r: nat, n: nat) {
    forall va: nat, acc: Access {:trigger Translate(v.pages, r, va, acc)} | va < MAXVA ::
      Translate(v.pages, r, va, acc).Physical? <==> va < n * PGSIZE && acc != Fetch
  }

  lemma ReachesAt(v: Space, r: nat, n: nat, frame: nat, va: nat, acc: Access)
    requires Own(v) && r in v.roots && ProcLike(View(v, r), n) && Permitted(View(v, r), n, frame) && va < MAXVA
    requires n <= TRAPFRAME
    ensures Translate(v.pages, r, va, acc).Physical? <==> va < n * PGSIZE && acc != Fetch
  {
    TranslationAgrees(v, r, va, acc);
    var view, k := View(v, r), va / PGSIZE;
    if k < n {
      assert IsLeaf(view, k);
      assert UserPage(view[k].pte);
    } else if k in view {
      assert k == TRAMPOLINE || k == TRAPFRAME;
    }
  }

  lemma ProcReaches(v: Space, r: nat, n: nat, frame: nat)
    requires Own(v) && r in v.roots && ProcLike(View(v, r), n) && Permitted(View(v, r), n, frame) && n <= TRAPFRAME
    ensures Reaches(v, r, n)
  {
    forall va: nat, acc: Access {:trigger Translate(v.pages, r, va, acc)} | va < MAXVA
      ensures Translate(v.pages, r, va, acc).Physical? <==> va < n * PGSIZE && acc != Fetch
    {
      ReachesAt(v, r, n, frame, va, acc);
    }
  }
}
