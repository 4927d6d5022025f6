/** Address translation as the hardware does it: section 4.3.2 of the RISC-V Privileged Architecture, with the
    parameters of Sv39 from section 4.4, for user mode and without the accessed and dirty bits. */
module Sv39 {
  import opened Folding
  import opened VmModel

  datatype Access = Load | Store | Fetch
  datatype Outcome = PageFault | Physical(pa: nat)

  predicate R(pte: nat) { pte / 2 % 2 == 1 }
  predicate W(pte: nat) { pte / 4 % 2 == 1 }
  predicate X(pte: nat) { pte / 8 % 2 == 1 }

  predicate Allows(pte: nat, acc: Access) {
    IsUser(pte) && match acc { case Load => R(pte) case Store => W(pte) case Fetch => X(pte) }
  }

  /** 2^(9 * level), the number of pages under a leaf of that level. */
  function Span(level: nat): nat
    requires level <= 2
  {
    if level == 0 then 1 else if level == 1 then 512 else 0x4_0000
  }

  /** Steps 2 to 8 at a table of the given level. */
  function TranslateAt(pages: seq<Page>, t: nat, va: nat, acc: Access, level: nat): Outcome
    requires level <= 2
    decreases level
  {
    var pte := Pte(pages, t, PX(level, va));
    if !IsValid(pte) || (!R(pte) && W(pte)) then PageFault
    else if R(pte) || X(pte) then
      if !Allows(pte, acc) || pte / 1024 % Span(level) != 0 then PageFault
      else Physical((pte / 1024 + va / PGSIZE % Span(level)) * PGSIZE + va % PGSIZE)
    else if level == 0 then PageFault
    else TranslateAt(pages, pte / 1024, va, acc, level - 1)
  }

  function Translate(pages: seq<Page>, r: nat, va: nat, acc: Access): Outcome {
    TranslateAt(pages, r, va, acc, 2)
  }

  /** Encodings with W and without R are reserved. */
  predicate LeafAllows(pte: nat, acc: Access) {
    Allows(pte, acc) && (W(pte) ==> R(pte))
  }

  lemma PointerBits(pte: nat)
    requires pte % 1024 == 1
    ensures IsValid(pte) && !R(pte) && !W(pte) && !X(pte)
  {
    var n := pte / 1024;
    assert pte == n * 1024 + 1;
    assert pte / 2 == n * 512 && pte / 4 == n * 256 && pte / 8 == n * 128;
  }

  lemma TopPte(v: Space, r: nat, a: nat)
    requires Own(v) && r in v.roots && a < ENTRIES
    ensures r < |v.pages| && v.pages[r].Table? && PointerOrZero(Pte(v.pages, r, a))
  {
    assert Open(0);
    assert Ref(v.pages, Top(r)) == r && Ownable(v.roots, Top(r));
  }

  lemma MidPte(v: Space, r: nat, a: nat, b: nat)
    requires Own(v) && r in v.roots && a < ENTRIES && b < ENTRIES && r < |v.pages| && v.pages[r].Table?
    requires Pte(v.pages, r, a) != 0
    ensures var p := Pte(v.pages, r, a) / 1024;
            p < |v.pages| && v.pages[p].Table? && PointerOrZero(Pte(v.pages, p, b))
  {
    assert Open(0);
    TopPte(v, r, a);
    PointerBits(Pte(v.pages, r, a));
    assert Ref(v.pages, Mid(r, a)) == Pte(v.pages, r, a) / 1024;
    TableIn(v, Mid(r, a));
  }

  /** What the hardware makes of a virtual address is what the address space, read as a finite map, says: the
      mapped page at the same offset if the PTE allows the access, and a page fault otherwise. */
  lemma TranslationAgrees(v: Space, r: nat, va: nat, acc: Access)
    requires Own(v) && r in v.roots && va < MAXVA
    ensures Translate(v.pages, r, va, acc) ==
            (var view := View(v, r);
             if va / PGSIZE in view && LeafAllows(view[va / PGSIZE].pte, acc)
             then Physical(PTE2PA(view[va / PGSIZE].pte) + va % PGSIZE) else PageFault)
  {
    LeafAtPX(r, va);
    var a, b := PX(2, va), PX(1, va);
    TopPte(v, r, a);
    var p2 := Pte(v.pages, r, a);
    if p2 != 0 {
      PointerBits(p2);
      MidPte(v, r, a, b);
      var p1 := Pte(v.pages, p2 / 1024, b);
      if p1 != 0 { PointerBits(p1); }
    }
  }
}
