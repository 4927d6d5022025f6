/** The block tree of kernel/fs.c: which block each inode uses for what, and file contents. */
module FsModel {
  import opened Params
  import opened Blocks
  import opened Folding

  const NDIRECT: nat := 12
  const NINDIRECT: nat := 256
  const MAXFILE: nat := 268
  const INDIRECT: nat := 268       // the slot of the indirect block itself

  datatype Inode = Inode(typ: nat, nlink: nat, size: nat, addrs: seq<nat>)

  /** A place that can hold a block number: data block k of an inode, or its indirect block. */
  datatype Slot = Slot(inum: nat, k: nat)

  /** Blocks below datastart hold metadata. */
  datatype Layout = Layout(size: nat, datastart: nat, inodestart: nat, bmapstart: nat) {
    predicate Wf() { 0 < datastart <= size < TWO32 }
  }

  datatype Tree = Tree(inodes: seq<Inode>, blocks: seq<Block>, owner: map<nat, Slot>)

  /** The block number in slot k of inode d, 0 if none. */
  function AddrOf(d: Inode, blocks: seq<Block>, k: nat): nat
    requires |d.addrs| == NDIRECT + 1 && k <= INDIRECT
  {
    if k < NDIRECT then d.addrs[k]
    else if k == INDIRECT then d.addrs[NDIRECT]
    else if d.addrs[NDIRECT] == 0 || d.addrs[NDIRECT] >= |blocks| then 0
    else GetWord(blocks[d.addrs[NDIRECT]], k - NDIRECT)
  }

  ghost predicate Shape(t: Tree) {
    forall n | 0 <= n < |t.inodes| :: |t.inodes[n].addrs| == NDIRECT + 1
  }

  ghost function Addr(t: Tree, n: nat, k: nat): nat
    requires Shape(t) && n < |t.inodes| && k <= INDIRECT
  {
    AddrOf(t.inodes[n], t.blocks, k)
  }

  /** owner is the inverse of Addr, so no block number stands in two slots. */
  ghost predicate Owned(L: Layout, t: Tree) {
    Shape(t) && |t.blocks| == L.size && L.Wf() && forall k: nat {:trigger Open(k)} :: Open(k) ==> Slots(L, t)
  }

  ghost predicate Slots(L: Layout, t: Tree)
    requires Shape(t)
  {
    && (forall n: nat, k: nat | n < |t.inodes| && k <= INDIRECT ::
          Addr(t, n, k) != 0 ==> Addr(t, n, k) in t.owner && t.owner[Addr(t, n, k)] == Slot(n, k))
    && (forall a | a in t.owner ::
          && L.datastart <= a < L.size
          && t.owner[a].inum < |t.inodes| && t.owner[a].k <= INDIRECT && Addr(t, t.owner[a].inum, t.owner[a].k) == a)
  }

  /** Exactly the metadata blocks and the given data blocks are marked in use. */
  ghost predicate Marked(L: Layout, bitmap: seq<bool>, used: set<nat>) {
    && |bitmap| == L.size
    && forall b | 0 <= b < L.size :: bitmap[b] <==> b < L.datastart || b in used
  }

  /** No unmapped block below the size of a file. */
  ghost predicate Dense(t: Tree)
    requires Shape(t)
  {
    && (forall n | 0 <= n < |t.inodes| :: t.inodes[n].size <= MAXFILE * BSIZE)
    && (forall n: nat, k: nat | n < |t.inodes| && k < MAXFILE :: k * BSIZE < t.inodes[n].size ==> Addr(t, n, k) != 0)
  }

  ghost predicate Inv(L: Layout, t: Tree) {
    Owned(L, t) && Dense(t)
  }

  /** The contents of file n. */
  ghost function Content(L: Layout, t: Tree, n: nat): (c: seq<byte>)
    requires Inv(L, t) && n < |t.inodes|
    ensures |c| == t.inodes[n].size
  {
    seq(t.inodes[n].size, i requires 0 <= i < t.inodes[n].size => ByteAt(L, t, n, i))
  }

  ghost function ByteAt(L: Layout, t: Tree, n: nat, i: nat): byte
    requires Inv(L, t) && n < |t.inodes| && i < t.inodes[n].size
  {
    assert Open(0);
    t.blocks[Addr(t, n, i / BSIZE)][i % BSIZE]
  }

  /** Read without the owner map: direct blocks, indirect blocks and indirect entries of all inodes are
      pairwise different, are data blocks and are marked; and no other data block is marked. */
  lemma BlockOwnership(L: Layout, t: Tree, bitmap: seq<bool>)
    requires Owned(L, t) && Marked(L, bitmap, t.owner.Keys)
    ensures forall n: nat, k: nat | n < |t.inodes| && k <= INDIRECT && Addr(t, n, k) != 0 ::
              L.datastart <= Addr(t, n, k) < L.size && bitmap[Addr(t, n, k)]
    ensures forall n: nat, k: nat, m: nat, j: nat | n < |t.inodes| && m < |t.inodes| && k <= INDIRECT
            && j <= INDIRECT &&
              Addr(t, n, k) != 0 && Addr(t, n, k) == Addr(t, m, j) :: n == m && k == j
    ensures forall b: nat | L.datastart <= b < L.size && bitmap[b] ::
              exists n: nat, k: nat :: n < |t.inodes| && k <= INDIRECT && Addr(t, n, k) == b
  {
    assert Open(0);
    forall b: nat | L.datastart <= b < L.size && bitmap[b]
      ensures exists n: nat, k: nat :: n < |t.inodes| && k <= INDIRECT && Addr(t, n, k) == b
    {
      assert b in t.owner;
      assert Addr(t, t.owner[b].inum, t.owner[b].k) == b;
    }
  }

  /** Every file but n has the inode and the contents it had. */
  ghost predicate OthersKept(L: Layout, t: Tree, u: Tree, n: nat)
    requires Inv(L, t) && Inv(L, u)
  {
    && |u.inodes| == |t.inodes|
    && forall m: nat | m < |t.inodes| && m != n :: u.inodes[m] == t.inodes[m] && Content(L, u, m) == Content(L, t, m)
  }

  lemma OthersTransitive(L: Layout, t: Tree, u: Tree, v: Tree, n: nat)
    requires Inv(L, t) && Inv(L, u) && Inv(L, v) && OthersKept(L, t, u, n) && OthersKept(L, u, v, n)
    ensures OthersKept(L, t, v, n)
  {
    assert Open(0);
  }

  // ---- the steps that change the tree ----

  /** The indirect block of an inode is the block in its slot INDIRECT. */
  lemma IndirectOwned(L: Layout, t: Tree, n: nat)
    requires Owned(L, t) && n < |t.inodes| && t.inodes[n].addrs[NDIRECT] != 0
    ensures var a := t.inodes[n].addrs[NDIRECT]; a in t.owner && t.owner[a] == Slot(n, INDIRECT) && a < L.size
  {
    assert Open(0);
    assert Addr(t, n, INDIRECT) == t.inodes[n].addrs[NDIRECT];
  }

  /** Overwriting a block that is nobody's indirect block keeps every slot. */
  lemma StoreKeeps(L: Layout, t: Tree, b: nat, d: Block)
    requires Owned(L, t) && b < L.size && (b in t.owner ==> t.owner[b].k != INDIRECT)
    ensures var u := t.(blocks := t.blocks[b := d]);
            && Owned(L, u)
            && forall n: nat, k: nat | n < |t.inodes| && k <= INDIRECT :: Addr(u, n, k) == Addr(t, n, k)
  {
    assert Open(0);
    var u := t.(blocks := t.blocks[b := d]);
    forall n: nat, k: nat | n < |t.inodes| && k <= INDIRECT ensures Addr(u, n, k) == Addr(t, n, k) {
      if t.inodes[n].addrs[NDIRECT] != 0 { IndirectOwned(L, t, n); }
    }
  }

  /** u is t with the free block a put into the empty slot s, and nothing else changed in any slot. */
  ghost predicate Adopted(L: Layout, t: Tree, u: Tree, s: Slot, a: nat) {
    && Owned(L, t) && Shape(u) && |u.inodes| == |t.inodes| && |u.blocks| == |t.blocks|
    && s.inum < |t.inodes| && s.k <= INDIRECT && Addr(t, s.inum, s.k) == 0
    && L.datastart <= a < L.size && a !in t.owner && u.owner == t.owner[a := s]
    && forall n: nat, k: nat | n < |t.inodes| && k <= INDIRECT ::
         Addr(u, n, k) == if Slot(n, k) == s then a else Addr(t, n, k)
  }

  lemma AdoptedOwned(L: Layout, t: Tree, u: Tree, s: Slot, a: nat)
    requires Adopted(L, t, u, s, a)
    ensures Owned(L, u)
  {
    assert Open(0);
  }

  ghost function WithAddr(t: Tree, n: nat, k: nat, a: nat, s: Slot): Tree
    requires Shape(t) && n < |t.inodes| && k <= NDIRECT
  {
    t.(inodes := t.inodes[n := t.inodes[n].(addrs := t.inodes[n].addrs[k := a])], owner := t.owner[a := s])
  }

  lemma AdoptDirect(L: Layout, t: Tree, n: nat, k: nat, a: nat)
    requires Owned(L, t) && n < |t.inodes| && k < NDIRECT && Addr(t, n, k) == 0
    requires L.datastart <= a < L.size && a !in t.owner
    ensures Adopted(L, t, WithAddr(t, n, k, a, Slot(n, k)), Slot(n, k), a)
  {
    assert Open(0);
  }

  lemma AdoptIndirect(L: Layout, t: Tree, n: nat, a: nat)
    requires Owned(L, t) && n < |t.inodes| && Addr(t, n, INDIRECT) == 0
    requires L.datastart <= a < L.size && a !in t.owner && t.blocks[a] == ZeroBlock
    ensures Adopted(L, t, WithAddr(t, n, NDIRECT, a, Slot(n, INDIRECT)), Slot(n, INDIRECT), a)
  {
    assert Open(0);
    forall j: nat | j < WORDS ensures GetWord(t.blocks[a], j) == 0 { ZeroWords(j); }
  }

  /** Entry j of the indirect block of n set to a. */
  ghost function WithEntry(t: Tree, n: nat, j: nat, a: nat): Tree
    requires Shape(t) && n < |t.inodes| && j < NINDIRECT && t.inodes[n].addrs[NDIRECT] < |t.blocks|
  {
    var ind := t.inodes[n].addrs[NDIRECT];
    t.(blocks := t.blocks[ind := PutWord(t.blocks[ind], j, a)], owner := t.owner[a := Slot(n, NDIRECT + j)])
  }

  lemma AdoptEntry(L: Layout, t: Tree, n: nat, j: nat, a: nat)
    requires Owned(L, t) && n < |t.inodes| && j < NINDIRECT && Addr(t, n, INDIRECT) != 0 && Addr(t, n, NDIRECT + j) == 0
    requires L.datastart <= a < L.size && a !in t.owner
    ensures t.inodes[n].addrs[NDIRECT] < |t.blocks|
    ensures Adopted(L, t, WithEntry(t, n, j, a), Slot(n, NDIRECT + j), a)
  {
    assert Open(0);
    IndirectOwned(L, t, n);
    var ind := t.inodes[n].addrs[NDIRECT];
    GetPutWord(t.blocks[ind], j, a);
    var u := WithEntry(t, n, j, a);
    forall m: nat, k: nat | m < |t.inodes| && k <= INDIRECT
      ensures Addr(u, m, k) == if Slot(m, k) == Slot(n, NDIRECT + j) then a else Addr(t, m, k)
    {
      if t.inodes[m].addrs[NDIRECT] != 0 { IndirectOwned(L, t, m); }
    }
  }

  // ---- what bmap does to the tree ----

  /** Mapped slots keep their blocks, and only inode n gains any. */
  ghost predicate Grows(L: Layout, t: Tree, u: Tree, n: nat) {
    && Owned(L, t) && Owned(L, u) && |u.inodes| == |t.inodes| && n < |t.inodes|
    && (forall m | 0 <= m < |t.inodes| && m != n :: u.inodes[m] == t.inodes[m])
    && u.inodes[n] == t.inodes[n].(addrs := u.inodes[n].addrs)
    && (forall m: nat, k: nat | m < |t.inodes| && k <= INDIRECT ::
          Addr(t, m, k) != 0 || m != n ==> Addr(u, m, k) == Addr(t, m, k))
  }

  /** The data blocks of mapped slots hold what they held. */
  ghost predicate SameData(t: Tree, u: Tree)
    requires Shape(t)
  {
    && |u.blocks| == |t.blocks|
    && forall m: nat, k: nat | m < |t.inodes| && k < MAXFILE ::
         0 != Addr(t, m, k) < |t.blocks| ==> u.blocks[Addr(t, m, k)] == t.blocks[Addr(t, m, k)]
  }

  lemma AdoptedGrows(L: Layout, t: Tree, u: Tree, s: Slot, a: nat)
    requires Adopted(L, t, u, s, a)
    requires forall m | 0 <= m < |t.inodes| && m != s.inum :: u.inodes[m] == t.inodes[m]
    requires u.inodes[s.inum] == t.inodes[s.inum].(addrs := u.inodes[s.inum].addrs)
    ensures Grows(L, t, u, s.inum)
  {
    assert Open(0);
    AdoptedOwned(L, t, u, s, a);
  }

  lemma GrowsTransitive(L: Layout, t: Tree, u: Tree, v: Tree, n: nat)
    requires Grows(L, t, u, n) && Grows(L, u, v, n) && SameData(t, u) && SameData(u, v)
    ensures Grows(L, t, v, n) && SameData(t, v)
  {
    assert Open(0);
  }

  /** Zeroing a free block. */
  lemma ZeroFreeGrows(L: Layout, t: Tree, a: nat, n: nat)
    requires Owned(L, t) && a < L.size && a !in t.owner && n < |t.inodes|
    ensures var u := t.(blocks := t.blocks[a := ZeroBlock]); Grows(L, t, u, n) && SameData(t, u)
  {
    assert Open(0);
    StoreKeeps(L, t, a, ZeroBlock);
  }

  /** A free block, zeroed, put into direct slot k. */
  lemma FillDirect(L: Layout, t: Tree, n: nat, k: nat, a: nat)
    requires Owned(L, t) && n < |t.inodes| && k < NDIRECT && Addr(t, n, k) == 0
    requires L.datastart <= a < L.size && a !in t.owner
    ensures var u := WithAddr(t.(blocks := t.blocks[a := ZeroBlock]), n, k, a, Slot(n, k));
            Grows(L, t, u, n) && SameData(t, u) && Addr(u, n, k) == a
  {
    assert Open(0);
    var z := t.(blocks := t.blocks[a := ZeroBlock]);
    ZeroFreeGrows(L, t, a, n);
    AdoptDirect(L, z, n, k, a);
    AdoptedGrows(L, z, WithAddr(z, n, k, a, Slot(n, k)), Slot(n, k), a);
    GrowsTransitive(L, t, z, WithAddr(z, n, k, a, Slot(n, k)), n);
  }

  lemma FillIndirect(L: Layout, t: Tree, n: nat, a: nat)
    requires Owned(L, t) && n < |t.inodes| && Addr(t, n, INDIRECT) == 0
    requires L.datastart <= a < L.size && a !in t.owner
    ensures var u := WithAddr(t.(blocks := t.blocks[a := ZeroBlock]), n, NDIRECT, a, Slot(n, INDIRECT));
            && Grows(L, t, u, n) && SameData(t, u) && Addr(u, n, INDIRECT) == a
            && forall k: nat | k < MAXFILE :: Addr(u, n, k) == Addr(t, n, k)
  {
    assert Open(0);
    var z := t.(blocks := t.blocks[a := ZeroBlock]);
    ZeroFreeGrows(L, t, a, n);
    AdoptIndirect(L, z, n, a);
    AdoptedGrows(L, z, WithAddr(z, n, NDIRECT, a, Slot(n, INDIRECT)), Slot(n, INDIRECT), a);
    GrowsTransitive(L, t, z, WithAddr(z, n, NDIRECT, a, Slot(n, INDIRECT)), n);
  }

  lemma FillEntry(L: Layout, t: Tree, n: nat, j: nat, a: nat)
    requires Owned(L, t) && n < |t.inodes| && j < NINDIRECT && Addr(t, n, INDIRECT) != 0 && Addr(t, n, NDIRECT + j) == 0
    requires L.datastart <= a < L.size && a !in t.owner
    ensures t.inodes[n].addrs[NDIRECT] < |t.blocks|
    ensures var u := WithEntry(t.(blocks := t.blocks[a := ZeroBlock]), n, j, a);
            Grows(L, t, u, n) && SameData(t, u) && Addr(u, n, NDIRECT + j) == a
  {
    assert Open(0);
    var z := t.(blocks := t.blocks[a := ZeroBlock]);
    ZeroFreeGrows(L, t, a, n);
    assert Addr(z, n, INDIRECT) == Addr(t, n, INDIRECT);
    AdoptEntry(L, z, n, j, a);
    var u := WithEntry(z, n, j, a);
    AdoptedGrows(L, z, u, Slot(n, NDIRECT + j), a);
    IndirectOwned(L, z, n);
    assert SameData(z, u);
    GrowsTransitive(L, t, z, u, n);
  }

  // ---- what itrunc does to the tree ----

  /** A mapped block is a data block, with an owner. */
  lemma InUse(L: Layout, t: Tree, n: nat, k: nat)
    requires Owned(L, t) && n < |t.inodes| && k <= INDIRECT && Addr(t, n, k) != 0
    ensures Addr(t, n, k) in t.owner && t.owner[Addr(t, n, k)] == Slot(n, k) && L.datastart <= Addr(t, n, k) < L.size
  {
    assert Open(0);
  }

  /** Direct slot k of inode n emptied. */
  ghost function DroppedDirect(t: Tree, n: nat, k: nat): Tree
    requires Shape(t) && n < |t.inodes| && k < NDIRECT
  {
    t.(inodes := t.inodes[n := t.inodes[n].(addrs := t.inodes[n].addrs[k := 0])],
        owner := t.owner - {t.inodes[n].addrs[k]})
  }

  lemma DropDirect(L: Layout, t: Tree, n: nat, k: nat)
    requires Owned(L, t) && n < |t.inodes| && k < NDIRECT && Addr(t, n, k) != 0
    ensures var u := DroppedDirect(t, n, k);
            && Owned(L, u)
            && forall m: nat, j: nat | m < |t.inodes| && j <= INDIRECT :: Addr(u, m, j) == if m == n && j == k then 0
               else Addr(t, m, j)
  {
    assert Open(0);
    var u := DroppedDirect(t, n, k);
    forall m: nat, j: nat | m < |t.inodes| && j <= INDIRECT
      ensures Addr(u, m, j) == if m == n && j == k then 0 else Addr(t, m, j)
    {
    }
  }

  /** The blocks of inode n that are reached through its indirect block, and that block. */
  ghost function IndirectSet(t: Tree, n: nat): set<nat>
    requires Shape(t) && n < |t.inodes|
  {
    set a | a in t.owner && t.owner[a].inum == n && t.owner[a].k >= NDIRECT
  }

  /** The part of it that the first j entries name. */
  ghost function EntrySet(t: Tree, n: nat, j: nat): set<nat> {
    set a | a in t.owner && t.owner[a].inum == n && NDIRECT <= t.owner[a].k < NDIRECT + j
  }

  lemma EntrySetStep(L: Layout, t: Tree, n: nat, j: nat)
    requires Owned(L, t) && n < |t.inodes| && j < NINDIRECT
    ensures var a := Addr(t, n, NDIRECT + j);
            if a == 0 then EntrySet(t, n, j + 1) == EntrySet(t, n, j)
            else EntrySet(t, n, j + 1) == EntrySet(t, n, j) + {a} && a in t.owner && a !in EntrySet(t, n, j)
  {
    assert Open(0);
    assert forall a | a in t.owner :: a != 0;
  }

  lemma EntrySetAll(L: Layout, t: Tree, n: nat)
    requires Owned(L, t) && n < |t.inodes|
    ensures var ind := Addr(t, n, INDIRECT);
            if ind == 0 then IndirectSet(t, n) == {}
            else
              && IndirectSet(t, n) == EntrySet(t, n, NINDIRECT) + {ind}
              && ind in t.owner && ind !in EntrySet(t, n, NINDIRECT)
  {
    assert Open(0);
    var ind := Addr(t, n, INDIRECT);
    assert forall a | a in t.owner :: a != 0;
    if ind == 0 {
      forall k: nat | NDIRECT <= k <= INDIRECT ensures Addr(t, n, k) == 0 {
      }
    }
  }

  ghost function DroppedIndirect(t: Tree, n: nat): Tree
    requires Shape(t) && n < |t.inodes|
  {
    t.(inodes := t.inodes[n := t.inodes[n].(addrs := t.inodes[n].addrs[NDIRECT := 0])],
        owner := t.owner - IndirectSet(t, n))
  }

  lemma DropIndirect(L: Layout, t: Tree, n: nat)
    requires Owned(L, t) && n < |t.inodes|
    ensures var u := DroppedIndirect(t, n);
            && Owned(L, u)
            && forall m: nat, j: nat | m < |t.inodes| && j <= INDIRECT ::
               Addr(u, m, j) == if m == n && j >= NDIRECT then 0 else Addr(t, m, j)
  {
    assert Open(0);
    var u := DroppedIndirect(t, n);
    forall m: nat, j: nat | m < |t.inodes| && j <= INDIRECT
      ensures Addr(u, m, j) == if m == n && j >= NDIRECT then 0 else Addr(t, m, j)
    {
    }
  }

  /** u is t with every slot of inode n empty, its size zero, and all other inodes as they were. */
  ghost predicate Emptied(L: Layout, t: Tree, u: Tree, n: nat) {
    && Owned(L, t) && Owned(L, u) && n < |t.inodes| == |u.inodes|
    && (forall m | 0 <= m < |t.inodes| && m != n :: u.inodes[m] == t.inodes[m])
    && u.inodes[n].size == 0 && u.inodes[n].typ == t.inodes[n].typ && u.inodes[n].nlink == t.inodes[n].nlink
    && (forall k: nat | k <= INDIRECT :: Addr(u, n, k) == 0)
    && u.blocks == t.blocks
  }

  lemma EmptiedKeepsFiles(L: Layout, t: Tree, u: Tree, n: nat)
    requires Inv(L, t) && Emptied(L, t, u, n)
    ensures Inv(L, u) && Content(L, u, n) == [] && OthersKept(L, t, u, n)
  {
    assert Open(0);
    assert forall m: nat, k: nat | m < |t.inodes| && m != n && k <= INDIRECT :: Addr(u, m, k) == Addr(t, m, k);
    forall m: nat | m < |t.inodes| && m != n ensures Content(L, u, m) == Content(L, t, m) {
      forall i | 0 <= i < t.inodes[m].size ensures ByteAt(L, u, m, i) == ByteAt(L, t, m, i) {
      }
    }
  }

  // ---- inodes without blocks ----

  predicate Bare(d: Inode) {
    d.size == 0 && |d.addrs| == NDIRECT + 1 && forall k: nat | k <= NDIRECT :: d.addrs[k] == 0
  }

  /** A free inode has no blocks. */
  ghost predicate Vacant(inodes: seq<Inode>) {
    forall n: nat | n < |inodes| && inodes[n].typ == 0 :: Bare(inodes[n])
  }

  /** What ialloc makes of a dinode. */
  function Fresh(typ: nat): Inode { Inode(typ, 0, 0, seq(NDIRECT + 1, _ => 0)) }

  lemma VacantKept(was: seq<Inode>, now: seq<Inode>, n: nat)
    requires Vacant(was) && |now| == |was| && n < |was| && (now[n].typ == 0 ==> Bare(now[n]))
    requires forall m: nat | m < |was| && m != n :: now[m] == was[m]
    ensures Vacant(now)
  {
  }

  lemma BareSlots(t: Tree, u: Tree, n: nat, d: Inode)
    requires Shape(t) && n < |t.inodes| && Bare(t.inodes[n]) && Bare(d) && u == t.(inodes := t.inodes[n := d])
    ensures Shape(u) && forall m: nat, k: nat | m < |t.inodes| && k <= INDIRECT :: Addr(u, m, k) == Addr(t, m, k)
    ensures forall k: nat | k <= INDIRECT :: Addr(t, n, k) == 0
  {
    forall m: nat, k: nat | m < |t.inodes| && k <= INDIRECT ensures Addr(u, m, k) == Addr(t, m, k) {
    }
  }

  lemma BareOwned(L: Layout, t: Tree, u: Tree)
    requires Owned(L, t) && Shape(u) && |u.inodes| == |t.inodes| && u.blocks == t.blocks && u.owner == t.owner
    requires forall m: nat, k: nat | m < |t.inodes| && k <= INDIRECT :: Addr(u, m, k) == Addr(t, m, k)
    ensures Owned(L, u)
  {
    assert Open(0);
  }

  /** An inode without blocks takes the place of another, and no block is lost. */
  lemma BareSwap(L: Layout, t: Tree, u: Tree, n: nat, d: Inode)
    requires Inv(L, t) && n < |t.inodes| && Bare(t.inodes[n]) && Bare(d) && u == t.(inodes := t.inodes[n := d])
    ensures Inv(L, u) && OthersKept(L, t, u, n) && Content(L, u, n) == []
  {
    BareSlots(t, u, n, d);
    BareOwned(L, t, u);
    forall m: nat | m < |t.inodes| && m != n ensures Content(L, u, m) == Content(L, t, m) {
      forall i: nat | i < t.inodes[m].size ensures Content(L, u, m)[i] == Content(L, t, m)[i] {
        ContentRaw(L, u, m, i);
        ContentRaw(L, t, m, i);
        assert Raw(L, u, m, i) == Raw(L, t, m, i);
      }
    }
  }

  // ---- what writei does to the tree ----

  /** Byte i of the blocks of inode n, whatever its size; 0 where no block is mapped. */
  ghost function Raw(L: Layout, t: Tree, n: nat, i: nat): byte
    requires Owned(L, t) && n < |t.inodes| && i < MAXFILE * BSIZE
  {
    assert Open(0);
    if Addr(t, n, i / BSIZE) == 0 then 0 else t.blocks[Addr(t, n, i / BSIZE)][i % BSIZE]
  }

  /** t is t0 with bytes off0 .. off of inode n mapped and equal to data; no other mapped byte has
      changed, in n or in any other inode, and sizes are as they were. */
  ghost predicate Written(L: Layout, t0: Tree, t: Tree, n: nat, data: seq<byte>, off0: nat, off: nat) {
    && Grows(L, t0, t, n) && off0 <= off <= MAXFILE * BSIZE && off - off0 <= |data|
    && forall k: nat {:trigger Open(k)} :: Open(k) ==> WrittenBytes(L, t0, t, n, data, off0, off)
  }

  ghost predicate WrittenBytes(L: Layout, t0: Tree, t: Tree, n: nat, data: seq<byte>, off0: nat, off: nat)
    requires Grows(L, t0, t, n) && off0 <= off <= MAXFILE * BSIZE && off - off0 <= |data|
  {
    && (forall m: nat, i: nat | m < |t0.inodes| && i < MAXFILE * BSIZE ::
          Addr(t0, m, i / BSIZE) != 0 && !(m == n && off0 <= i < off) ==> Raw(L, t, m, i) == Raw(L, t0, m, i))
    && (forall i: nat | off0 <= i < off :: Addr(t, n, i / BSIZE) != 0 && Raw(L, t, n, i) == data[i - off0])
  }

  lemma WrittenStart(L: Layout, t: Tree, n: nat, data: seq<byte>, off: nat)
    requires Owned(L, t) && n < |t.inodes| && off <= MAXFILE * BSIZE
    ensures Written(L, t, t, n, data, off, off)
  {
    assert Open(0);
  }

  /** The block an unaligned write starts in is already mapped. */
  lemma FirstMapped(L: Layout, t0: Tree, t: Tree, n: nat, data: seq<byte>, off0: nat, off: nat)
    requires Inv(L, t0) && Written(L, t0, t, n, data, off0, off) && off0 <= t0.inodes[n].size && off < MAXFILE * BSIZE
    ensures off == off0 && off0 % BSIZE != 0 ==> Addr(t, n, off / BSIZE) != 0
  {
    assert Open(0);
    assert off0 / BSIZE * BSIZE + off0 % BSIZE == off0;
  }

  lemma WrittenGrows(L: Layout, t0: Tree, t: Tree, u: Tree, n: nat, data: seq<byte>, off0: nat, off: nat)
    requires Written(L, t0, t, n, data, off0, off) && Grows(L, t, u, n) && SameData(t, u)
    ensures Written(L, t0, u, n, data, off0, off)
  {
    assert Open(0);
    forall m: nat, i: nat | m < |t0.inodes| && i < MAXFILE * BSIZE && Addr(t, m, i / BSIZE) != 0
      ensures Raw(L, u, m, i) == Raw(L, t, m, i)
    {
      assert Addr(u, m, i / BSIZE) == Addr(t, m, i / BSIZE);
    }
  }

  /** Block b with bytes o .. o + |chunk| replaced. */
  function Patch(b: Block, o: nat, chunk: seq<byte>): (r: Block)
    requires o + |chunk| <= BSIZE
    ensures forall j | 0 <= j < BSIZE :: r[j] == if o <= j < o + |chunk| then chunk[j - o] else b[j]
  {
    b[..o] + chunk + b[o + |chunk|..]
  }

  /** The block that byte off of inode n lies in, with a chunk written over it from there. */
  ghost function Patched(t: Tree, n: nat, off: nat, chunk: seq<byte>): Tree
    requires Shape(t) && n < |t.inodes| && off < MAXFILE * BSIZE && off % BSIZE + |chunk| <= BSIZE
    requires Addr(t, n, off / BSIZE) < |t.blocks|
  {
    var a := Addr(t, n, off / BSIZE);
    t.(blocks := t.blocks[a := Patch(t.blocks[a], off % BSIZE, chunk)])
  }

  lemma WrittenChunk(L: Layout, t0: Tree, t: Tree, n: nat, data: seq<byte>, off0: nat, off: nat, m: nat, end: nat)
    requires Written(L, t0, t, n, data, off0, off) && end - off0 <= |data| && end == off + m
    requires off % BSIZE + m <= BSIZE && end <= MAXFILE * BSIZE && off < MAXFILE * BSIZE && Addr(t, n, off / BSIZE) != 0
    ensures Addr(t, n, off / BSIZE) < L.size
    ensures Written(L, t0, Patched(t, n, off, data[off - off0..off - off0 + m]), n, data, off0, end)
  {
    assert Open(0);
    var k := off / BSIZE;
    var a := Addr(t, n, k);
    var chunk := data[off - off0..off - off0 + m];
    assert t.owner[a] == Slot(n, k);
    StoreKeeps(L, t, a, Patch(t.blocks[a], off % BSIZE, chunk));
    PatchedWritten(L, t0, t, Patched(t, n, off, chunk), n, data, off0, off, chunk, end);
  }

  lemma PatchedWritten(L: Layout, t0: Tree, t: Tree, u: Tree, n: nat, data: seq<byte>, off0: nat, off: nat,
      chunk: seq<byte>, end: nat)
    requires Written(L, t0, t, n, data, off0, off) && end == off + |chunk| <= MAXFILE * BSIZE && end - off0 <= |data|
    requires off < MAXFILE * BSIZE && off % BSIZE + |chunk| <= BSIZE && chunk == data[off - off0..end - off0]
    requires 0 < Addr(t, n, off / BSIZE) < |t.blocks| && u == Patched(t, n, off, chunk) && Owned(L, u)
    requires forall m: nat, k: nat | m < |t.inodes| && k <= INDIRECT :: Addr(u, m, k) == Addr(t, m, k)
    ensures Written(L, t0, u, n, data, off0, end)
  {
    assert Open(0);
    PatchedBytes(L, t, u, n, off, chunk);
    forall i: nat | off0 <= i < end ensures Addr(u, n, i / BSIZE) != 0 && Raw(L, u, n, i) == data[i - off0] {
      if off <= i {
        SameBlock(off, |chunk|, i);
        assert chunk[i - off] == data[i - off0];
      }
    }
  }

  lemma SameBlock(off: nat, len: nat, i: nat)
    requires off % BSIZE + len <= BSIZE && off <= i < off + len
    ensures i / BSIZE == off / BSIZE
  {
  }

  /** A patch of one mapped block changes exactly the patched bytes of that inode. */
  lemma PatchedBytes(L: Layout, t: Tree, u: Tree, n: nat, off: nat, chunk: seq<byte>)
    requires Owned(L, t) && Owned(L, u) && n < |t.inodes| && off < MAXFILE * BSIZE && off % BSIZE + |chunk| <= BSIZE
    requires Addr(t, n, off / BSIZE) != 0 && Addr(t, n, off / BSIZE) < |t.blocks|
    requires u == Patched(t, n, off, chunk)
    requires forall m: nat, k: nat | m < |t.inodes| && k <= INDIRECT :: Addr(u, m, k) == Addr(t, m, k)
    ensures forall m: nat, i: nat | m < |t.inodes| && i < MAXFILE * BSIZE ::
              Raw(L, u, m, i) == if m == n && off <= i < off + |chunk| then chunk[i - off] else Raw(L, t, m, i)
  {
    assert Open(0);
    var k := off / BSIZE;
    var a := Addr(t, n, k);
    forall m: nat, i: nat | m < |t.inodes| && i < MAXFILE * BSIZE
      ensures Raw(L, u, m, i) == if m == n && off <= i < off + |chunk| then chunk[i - off] else Raw(L, t, m, i)
    {
      var b := Addr(t, m, i / BSIZE);
      if b == a {
        assert t.owner[a] == Slot(n, k);
        assert m == n && i / BSIZE == k;
        assert off % BSIZE <= i % BSIZE < off % BSIZE + |chunk| <==> off <= i < off + |chunk|;
      }
      if m == n && off <= i < off + |chunk| { assert i / BSIZE == k; }
    }
  }

  /** c with data written at position off <= |c|, extended if it runs past the end. */
  function Splice(c: seq<byte>, off: nat, data: seq<byte>): seq<byte>
    requires off <= |c|
  {
    c[..off] + data + if off + |data| < |c| then c[off + |data|..] else []
  }

  lemma SpliceAt(c: seq<byte>, off: nat, data: seq<byte>, i: nat)
    requires off <= |c| && i < |Splice(c, off, data)|
    ensures Splice(c, off, data)[i] == if off <= i < off + |data| then data[i - off] else c[i]
  {
  }

  lemma SpliceNothing(c: seq<byte>, off: nat, src: seq<byte>)
    requires off <= |c|
    ensures Splice(c, off, src[..0]) == c
  {
  }

  lemma SpliceTwice(c: seq<byte>, off: nat, a: seq<byte>, b: seq<byte>)
    requires off <= |c|
    ensures off + |a| <= |Splice(c, off, a)| && Splice(Splice(c, off, a), off + |a|, b) == Splice(c, off, a + b)
  {
  }

  ghost function Resized(t: Tree, n: nat, size: nat): Tree
    requires n < |t.inodes|
  {
    t.(inodes := t.inodes[n := t.inodes[n].(size := size)])
  }

  lemma ResizedSlots(L: Layout, t: Tree, n: nat, size: nat)
    requires Owned(L, t) && n < |t.inodes|
    ensures Owned(L, Resized(t, n, size))
    ensures forall m: nat, k: nat | m < |t.inodes| && k <= INDIRECT :: Addr(Resized(t, n, size), m, k) == Addr(t, m, k)
  {
    assert Open(0);
    var u := Resized(t, n, size);
    forall m: nat, k: nat | m < |t.inodes| && k <= INDIRECT ensures Addr(u, m, k) == Addr(t, m, k) {
    }
  }

  lemma WrittenDense(L: Layout, t0: Tree, t: Tree, n: nat, data: seq<byte>, off0: nat, off: nat, size: nat)
    requires Inv(L, t0) && Written(L, t0, t, n, data, off0, off) && off0 <= t0.inodes[n].size <= size
    requires size <= off || size == t0.inodes[n].size
    ensures Inv(L, Resized(t, n, size))
  {
    assert Open(0);
    var u := Resized(t, n, size);
    ResizedSlots(L, t, n, size);
    forall m: nat, k: nat | m < |u.inodes| && k < MAXFILE && k * BSIZE < u.inodes[m].size ensures Addr(u, m, k) != 0 {
      if k * BSIZE < t0.inodes[m].size {
        assert Addr(t0, m, k) != 0;
      } else {
        var i := k * BSIZE;
        assert off0 <= i < off && i / BSIZE == k;
      }
    }
  }

  /** A byte of a file is the byte of its blocks. */
  lemma ContentRaw(L: Layout, t: Tree, n: nat, i: nat)
    requires Inv(L, t) && n < |t.inodes| && i < t.inodes[n].size
    ensures Addr(t, n, i / BSIZE) != 0 && Content(L, t, n)[i] == Raw(L, t, n, i)
  {
    assert Open(0);
    assert i / BSIZE * BSIZE <= i;
  }

  /** The bytes of one block that lie within a file are a run of its contents. */
  lemma ReadChunk(L: Layout, t: Tree, n: nat, off: nat, m: nat)
    requires Inv(L, t) && n < |t.inodes| && off < t.inodes[n].size && off + m <= t.inodes[n].size
             && off % BSIZE + m <= BSIZE
    ensures 0 < Addr(t, n, off / BSIZE) < L.size
    ensures t.blocks[Addr(t, n, off / BSIZE)][off % BSIZE..off % BSIZE + m] == Content(L, t, n)[off..off + m]
  {
    assert Open(0);
    ContentRaw(L, t, n, off);
    var a := t.blocks[Addr(t, n, off / BSIZE)][off % BSIZE..off % BSIZE + m];
    var c := Content(L, t, n)[off..off + m];
    forall i: nat | i < m ensures a[i] == c[i] {
      ContentRaw(L, t, n, off + i);
      assert (off + i) / BSIZE == off / BSIZE && (off + i) % BSIZE == off % BSIZE + i;
    }
  }

  lemma ResizedRaw(L: Layout, t: Tree, n: nat, size: nat, m: nat, i: nat)
    requires Owned(L, t) && n < |t.inodes| && m < |t.inodes| && i < MAXFILE * BSIZE
    ensures Owned(L, Resized(t, n, size)) && Raw(L, Resized(t, n, size), m, i) == Raw(L, t, m, i)
  {
    assert Open(0);
    ResizedSlots(L, t, n, size);
  }

  /** The bytes written are the file's as far as its size covers them. */
  lemma WrittenDone(L: Layout, t0: Tree, t: Tree, n: nat, data: seq<byte>, off0: nat, off: nat, size: nat, done: nat)
    requires Inv(L, t0) && Written(L, t0, t, n, data, off0, off) && off0 <= t0.inodes[n].size <= size
    requires (size <= off || size == t0.inodes[n].size) && off0 + done == if off < size then off else size
    ensures Inv(L, Resized(t, n, size)) && done <= |data|
    ensures Content(L, Resized(t, n, size), n) == Splice(Content(L, t0, n), off0, data[..done])
  {
    var u := Resized(t, n, size);
    WrittenDense(L, t0, t, n, data, off0, off, size);
    var c := Splice(Content(L, t0, n), off0, data[..done]);
    forall i: nat | i < |c| ensures Content(L, u, n)[i] == c[i] {
      WrittenAt(L, t0, t, n, data, off0, off, size, done, i);
    }
  }

  lemma WrittenAt(L: Layout, t0: Tree, t: Tree, n: nat, data: seq<byte>, off0: nat, off: nat, size: nat, done: nat,
      i: nat)
    requires Inv(L, t0) && Written(L, t0, t, n, data, off0, off) && off0 <= t0.inodes[n].size <= size
    requires (size <= off || size == t0.inodes[n].size) && off0 + done == if off < size then off else size
    requires i < size && Inv(L, Resized(t, n, size))
    ensures Content(L, Resized(t, n, size), n)[i] == Splice(Content(L, t0, n), off0, data[..done])[i]
  {
    ContentRaw(L, Resized(t, n, size), n, i);
    ResizedRaw(L, t, n, size, n, i);
    SpliceAt(Content(L, t0, n), off0, data[..done], i);
    if off0 <= i < off {
      WrittenRaw(L, t0, t, n, data, off0, off, i);
    } else {
      ContentRaw(L, t0, n, i);
      WrittenRaw(L, t0, t, n, data, off0, off, i);
    }
  }

  lemma WrittenRaw(L: Layout, t0: Tree, t: Tree, n: nat, data: seq<byte>, off0: nat, off: nat, i: nat)
    requires Written(L, t0, t, n, data, off0, off) && i < MAXFILE * BSIZE
    ensures off0 <= i < off ==> Raw(L, t, n, i) == data[i - off0]
    ensures !(off0 <= i < off) && Addr(t0, n, i / BSIZE) != 0 ==> Raw(L, t, n, i) == Raw(L, t0, n, i)
  {
    assert Open(0);
  }

  lemma WrittenOthers(L: Layout, t0: Tree, t: Tree, n: nat, data: seq<byte>, off0: nat, off: nat, size: nat)
    requires Inv(L, t0) && Written(L, t0, t, n, data, off0, off) && Inv(L, Resized(t, n, size))
    ensures OthersKept(L, t0, Resized(t, n, size), n)
  {
    assert Open(0);
    var u := Resized(t, n, size);
    forall m: nat | m < |t0.inodes| && m != n
      ensures u.inodes[m] == t0.inodes[m] && Content(L, u, m) == Content(L, t0, m)
    {
      assert u.inodes[m] == t0.inodes[m];
      forall i: nat | i < t0.inodes[m].size ensures Content(L, u, m)[i] == Content(L, t0, m)[i] {
        ContentRaw(L, u, m, i);
        ContentRaw(L, t0, m, i);
        ResizedRaw(L, t, n, size, m, i);
      }
    }
  }

  /** How many bytes a round of writei's loop writes, if any: up to the end of the block. */
  function ChunkLength(off: nat, left: nat): nat { if left < BSIZE - off % BSIZE then left else BSIZE - off % BSIZE }

  ghost predicate IsChunk(off: nat, left: nat, m: nat) {
    forall k: nat {:trigger Open(k)} :: Open(k) ==> m == 0 || m == ChunkLength(off, left)
  }

  /** q rounds are no more than cnt bytes from off0 on need. */
  ghost predicate Few(off0: nat, cnt: nat, q: nat) {
    forall k: nat {:trigger Open(k)} :: Open(k) ==> q == 0 || (q - 1) * BSIZE < off0 % BSIZE + cnt
  }

  /** After q full rounds of writei's loop the position is at a block boundary. */
  ghost predicate Rounds(off0: nat, cnt: nat, tot: nat, q: nat) {
    && Few(off0, cnt, q)
    && forall k: nat {:trigger Open(k)} :: Open(k) ==>
         (q > 0 && tot < cnt ==> off0 % BSIZE + tot == q * BSIZE) && (q == 0 ==> tot == 0)
  }

  lemma RoundsStart(off0: nat, cnt: nat)
    ensures Rounds(off0, cnt, 0, 0)
  {
  }

  lemma RoundsStep(off0: nat, cnt: nat, tot: nat, off: nat, q: nat, m: nat, p: nat, tot': nat)
    requires Rounds(off0, cnt, tot, q) && tot < cnt && off == off0 + tot && IsChunk(off, cnt - tot, m) && p == q + 1
             && tot' == tot + m
    ensures Few(off0, cnt, p) && (m != 0 ==> Rounds(off0, cnt, tot', p) && tot' <= cnt)
  {
    assert Open(0);
    if q > 0 { Boundary(off0, off, q); }
  }

  lemma AtBoundary(off0: nat, cnt: nat, tot: nat, off: nat, q: nat)
    requires Rounds(off0, cnt, tot, q) && tot < cnt && off == off0 + tot
    ensures Aligned(off0, cnt, tot)
  {
    assert Open(0);
    if q > 0 { Boundary(off0, off, q); }
  }

  lemma Boundary(off0: nat, off: nat, q: nat)
    requires off0 % BSIZE + (off - off0) == q * BSIZE
    ensures off % BSIZE == 0
  {
    assert off == BSIZE * (off0 / BSIZE + q);
  }

  // ---- what filewrite does to the tree ----

  /** c is c0 with the first i bytes of src written at off0. */
  ghost predicate SplicedTo(c0: seq<byte>, c: seq<byte>, src: seq<byte>, off0: nat, i: nat) {
    && i <= |src|
    && (i == 0 ==> c == c0)
    && (i > 0 ==> off0 <= |c0| && c == Splice(c0, off0, src[..i]))
  }

  /** u is t with the first `done` bytes of src written to file n at off0; no other file has changed. */
  ghost predicate Advanced(L: Layout, t: Tree, u: Tree, n: nat, src: seq<byte>, off0: nat, done: nat) {
    && Inv(L, t) && Inv(L, u) && n < |t.inodes| && OthersKept(L, t, u, n)
    && SplicedTo(Content(L, t, n), Content(L, u, n), src, off0, done)
  }

  /** A write reads back as what was written, and every other byte of the file as it was. */
  lemma ReadBack(L: Layout, t: Tree, u: Tree, n: nat, src: seq<byte>, off0: nat, done: nat)
    requires Advanced(L, t, u, n, src, off0, done) && done > 0
    ensures off0 + done <= |Content(L, u, n)| && Content(L, u, n)[off0..off0 + done] == src[..done]
    ensures |Content(L, u, n)| == if off0 + done > |Content(L, t, n)| then off0 + done else |Content(L, t, n)|
    ensures forall i: nat | i < |Content(L, t, n)| && !(off0 <= i < off0 + done) ::
              Content(L, u, n)[i] == Content(L, t, n)[i]
  {
    var was, now := Content(L, t, n), Content(L, u, n);
    forall i: nat | i < |was| && !(off0 <= i < off0 + done) ensures now[i] == was[i] {
      SpliceAt(was, off0, src[..done], i);
    }
    forall i: nat | i < done ensures now[off0..off0 + done][i] == src[..done][i] {
      SpliceAt(was, off0, src[..done], off0 + i);
    }
  }

  /** A position reached by writing lies within the file. */
  lemma AdvancedPosition(L: Layout, t: Tree, u: Tree, n: nat, src: seq<byte>, off0: nat, done: nat)
    requires Advanced(L, t, u, n, src, off0, done) && done > 0
    ensures off0 + done <= u.inodes[n].size <= MAXFILE * BSIZE && off0 <= t.inodes[n].size
  {
    assert Open(0);
    assert |Splice(Content(L, t, n), off0, src[..done])| == u.inodes[n].size;
  }

  lemma SpliceCompose(c0: seq<byte>, c: seq<byte>, c1: seq<byte>, src: seq<byte>, off0: nat, off: nat, i: nat, r: nat,
      done: nat)
    requires SplicedTo(c0, c, src, off0, i) && SplicedTo(c, c1, src[i..], off, r) && off == off0 + i && done == i + r
    ensures SplicedTo(c0, c1, src, off0, done)
  {
    assert src[..i] + src[i..][..r] == src[..i + r];
    if i > 0 && r > 0 {
      SpliceTwice(c0, off0, src[..i], src[i..][..r]);
    }
  }

  lemma AdvancedStep(L: Layout, t0: Tree, t: Tree, u: Tree, n: nat, src: seq<byte>, off0: nat, off: nat, i: nat, r: nat,
      done: nat)
    requires Advanced(L, t0, t, n, src, off0, i) && Advanced(L, t, u, n, src[i..], off, r) && off == off0 + i
             && done == i + r
    ensures Advanced(L, t0, u, n, src, off0, done)
  {
    assert Open(0);
    OthersTransitive(L, t0, t, u, n);
    SpliceCompose(Content(L, t0, n), Content(L, t, n), Content(L, u, n), src, off0, off, i, r, done);
  }

  /** Setting the size at the end of writei makes the written bytes the file's contents. */
  lemma WrittenAdvanced(L: Layout, t0: Tree, t: Tree, n: nat, src: seq<byte>, off0: nat, off: nat, size: nat, done: nat)
    requires Inv(L, t0) && Written(L, t0, t, n, src, off0, off) && off0 <= t0.inodes[n].size <= size
    requires (size <= off || size == t0.inodes[n].size) && off0 + done == if off < size then off else size
    ensures Advanced(L, t0, Resized(t, n, size), n, src, off0, done)
  {
    assert Open(0);
    WrittenDone(L, t0, t, n, src, off0, off, size, done);
    WrittenOthers(L, t0, t, n, src, off0, off, size);
    SpliceNothing(Content(L, t0, n), off0, src);
  }

  /** Below the size of the file a block is mapped, and stays so. */
  lemma UnmappedBeyond(L: Layout, t0: Tree, t: Tree, n: nat, src: seq<byte>, off0: nat, off: nat)
    requires Inv(L, t0) && Written(L, t0, t, n, src, off0, off) && off < MAXFILE * BSIZE && Addr(t, n, off / BSIZE) == 0
    ensures off >= t0.inodes[n].size
  {
    assert Open(0);
    if off < t0.inodes[n].size { ContentRaw(L, t0, n, off); }
  }

  // ---- a write whose source faults ----

  /** How much of the source a write of r bytes leaves in the file when the source has len bytes and the file room
      bytes from there: either_copyin has copied what it could of the chunk at which it failed. */
  function TornTo(r: nat, len: nat, room: int): nat { if room <= r then r else if len < room then len else room }

  /** Why writei's loop stops early at off, and how far bytes have changed then: the disk is full, which below the size
      of the file does not matter, or the source, of which len bytes can be read, ends. */
  ghost predicate Stopped(full: bool, len: nat, cnt: nat, off0: nat, off: nat, end: nat, size: nat) {
    forall k: nat {:trigger Open(k)} :: Open(k) ==>
      (full && end == off && off >= size) || (len < cnt && end == off0 + len && end - off < BSIZE - off % BSIZE)
  }

  /** Writing goes on to the end of a block, or to the last byte. */
  ghost predicate Aligned(off0: nat, cnt: nat, r: nat) {
    forall k: nat {:trigger Open(k)} :: Open(k) ==> r == 0 || r == cnt || (off0 + r) % BSIZE == 0
  }

  /** What writei has done when it returns r: the first done bytes of the source are in the file, which is r bytes
      unless the source ended inside a chunk below the size of the file. */
  ghost predicate Wrote(full: bool, len: nat, cnt: nat, off0: nat, size: nat, r: int, done: nat) {
    && 0 <= r <= cnt && Aligned(off0, cnt, r) && (r < cnt ==> full || len < cnt)
    && r <= done && (done > r ==> off0 + done <= size && done <= len < cnt && done < r + BSIZE)
    && forall k: nat {:trigger Open(k)} :: Open(k) ==>
         if r == cnt then done == r
         else
           || (full && off0 + r >= size && done == r)
           || (r <= len < cnt && len - r < BSIZE - (off0 + r) % BSIZE && done == TornTo(r, len, size - off0))
  }

  lemma StoppedWrote(full: bool, len: nat, cnt: nat, off0: nat, size: nat, tot: nat, end: nat, done: nat)
    requires tot <= cnt && off0 + tot <= end && Aligned(off0, cnt, tot) && (tot == cnt ==> end == off0 + tot)
    requires tot < cnt ==> Stopped(full, len, cnt, off0, off0 + tot, end, size)
    requires done == TornTo(tot, end - off0, size - off0)
    ensures Wrote(full, len, cnt, off0, size, tot, done) && (end > off0 + tot ==> tot < len < cnt)
  {
    assert Open(0);
  }

  lemma TornByte(c0: seq<byte>, c: seq<byte>, src: seq<byte>, off0: nat, r: nat, done: nat, k: nat)
    requires SplicedTo(c0, c, src, off0, done) && SplicedTo(c0, c, src, off0, r) && off0 + done <= |c0| && r <= k < done
    ensures src[k] == c0[off0 + k]
  {
    var i := off0 + k;
    SpliceAt(c0, off0, src[..done], i);
    if r > 0 { SpliceAt(c0, off0, src[..r], i); }
  }

  lemma TornNothing(c0: seq<byte>, src: seq<byte>, off0: nat, r: nat, done: nat)
    requires off0 + done <= |c0| && r <= done <= |src| && src[r..done] == c0[off0 + r..off0 + done]
    ensures Splice(c0, off0, src[..done]) == Splice(c0, off0, src[..r])
  {
    forall i: nat | i < |c0| ensures Splice(c0, off0, src[..done])[i] == Splice(c0, off0, src[..r])[i] {
      SpliceAt(c0, off0, src[..done], i);
      SpliceAt(c0, off0, src[..r], i);
      if off0 + r <= i < off0 + done {
        assert src[r..done][i - off0 - r] == c0[off0 + r..off0 + done][i - off0 - r];
      }
    }
  }

  /** Only the first r bytes have been written if and only if the others were there before. */
  lemma TornSame(c0: seq<byte>, c: seq<byte>, src: seq<byte>, off0: nat, r: nat, done: nat)
    requires SplicedTo(c0, c, src, off0, done) && r < done && off0 + done <= |c0|
    ensures SplicedTo(c0, c, src, off0, r) <==> src[r..done] == c0[off0 + r..off0 + done]
  {
    if SplicedTo(c0, c, src, off0, r) {
      forall k: nat | k < done - r ensures src[r..done][k] == c0[off0 + r..off0 + done][k] {
        TornByte(c0, c, src, off0, r, done, r + k);
      }
    }
    if src[r..done] == c0[off0 + r..off0 + done] {
      TornNothing(c0, src, off0, r, done);
      SpliceNothing(c0, off0, src);
    }
  }

  /** How many of the len bytes that can be read fill whole chunks of a write at off0: those up to the last end of a
      block. */
  function WholeChunks(off0: nat, len: nat): (a: nat)
    ensures a <= len
  {
    if (off0 + len) / BSIZE == off0 / BSIZE then 0 else (off0 + len) / BSIZE * BSIZE - off0
  }

  /** The source of a write of cnt bytes at off0 ends inside a chunk, and that lies below the size of the file. */
  predicate Torn(len: nat, cnt: nat, off0: nat, size: nat) {
    len < cnt && WholeChunks(off0, len) < len && off0 + WholeChunks(off0, len) < size
  }

  /** A block boundary that a write can reach is at or before the last one. */
  lemma LastBoundary(off0: nat, len: nat, r: nat)
    requires r <= len && (r == 0 || (off0 + r) % BSIZE == 0)
    ensures r <= WholeChunks(off0, len)
    ensures len - r < BSIZE - (off0 + r) % BSIZE ==> r == WholeChunks(off0, len)
  {
    var first, here, last := off0 / BSIZE, (off0 + r) / BSIZE, (off0 + len) / BSIZE;
    assert first * BSIZE <= off0 < first * BSIZE + BSIZE;
    assert last * BSIZE <= off0 + len < last * BSIZE + BSIZE;
    if r > 0 {
      assert off0 + r == here * BSIZE;
      assert first < here <= last;
    }
  }

  /** What writei returns and leaves, from its arguments: with room on the disk, the whole chunks that can be read; and
      more than it returns exactly when it is torn. */
  lemma Returned(full: bool, len: nat, cnt: nat, off0: nat, size: nat, r: nat, done: nat)
    requires Wrote(full, len, cnt, off0, size, r, done) && r <= len
    ensures !full ==> r == if len < cnt then WholeChunks(off0, len) else cnt
    ensures Torn(len, cnt, off0, size) ==>
            r == WholeChunks(off0, len) && done == TornTo(r, len, size - off0) && r < done && off0 + done <= size
    ensures !Torn(len, cnt, off0, size) ==> done == r
  {
    assert Open(0);
    if r < cnt { LastBoundary(off0, len, r); }
  }

  lemma AdvancedLess(L: Layout, t: Tree, u: Tree, n: nat, src: seq<byte>, off0: nat, r: nat, done: nat)
    requires Advanced(L, t, u, n, src, off0, done) && r < done <= |src| && off0 + done <= |Content(L, t, n)|
    ensures Advanced(L, t, u, n, src, off0, r) <==> src[r..done] == Content(L, t, n)[off0 + r..off0 + done]
  {
    TornSame(Content(L, t, n), Content(L, u, n), src, off0, r, done);
  }

  /** A write changes exactly the r bytes it returns if and only if its source does not end inside a chunk below the
      size of the file, or the bytes of that chunk which can be read were there before. */
  lemma CountIsExact(L: Layout, t: Tree, u: Tree, n: nat, src: seq<byte>, full: bool, cnt: nat, off0: nat, r: nat,
      done: nat)
    requires Advanced(L, t, u, n, src, off0, done) && Wrote(full, |src|, cnt, off0, t.inodes[n].size, r, done)
    ensures var size := t.inodes[n].size; var a := WholeChunks(off0, |src|); var b := TornTo(a, |src|, size - off0);
            Advanced(L, t, u, n, src, off0, r) <==>
              !Torn(|src|, cnt, off0, size) || src[a..b] == Content(L, t, n)[off0 + a..off0 + b]
  {
    Returned(full, |src|, cnt, off0, t.inodes[n].size, r, done);
    if r < done { AdvancedLess(L, t, u, n, src, off0, r, done); }
  }

  /** Each block that has changed is among these. */
  ghost predicate Covered(was: seq<Block>, now: seq<Block>, ids: set<nat>) {
    && |was| == |now|
    && forall k: nat {:trigger Open(k)} :: Open(k) ==> forall b: nat | b < |now| && now[b] != was[b] :: b in ids
  }

  lemma CoveredNone(was: seq<Block>, ids: set<nat>)
    ensures Covered(was, was, ids)
  {
  }

  lemma CoveredPut(was: seq<Block>, now: seq<Block>, s: set<nat>, b: nat, d: Block, t: set<nat>)
    requires Covered(was, now, s) && b < |now| && s <= t && (b in t || d == now[b])
    ensures Covered(was, now[b := d], t)
  {
    assert Open(0);
  }

  lemma CoveredMore(a: seq<Block>, b: seq<Block>, c: seq<Block>, s: set<nat>, t: set<nat>)
    requires Covered(a, b, s) && Covered(b, c, t) && s <= t
    ensures Covered(a, c, t)
  {
    assert Open(0);
  }
}
