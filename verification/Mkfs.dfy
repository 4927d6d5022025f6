/** mkfs/mkfs.c: the image it builds is the initial state of the file system's invariant. */
module Mkfs {
  import opened Params
  import opened Blocks
  import opened Folding
  import opened FsModel

  const FSSIZE: nat := 2000
  const NINODES: nat := 200
  const T_DIR: nat := 1
  const T_FILE: nat := 2
  const ROOTINO: nat := 1

  /** boot, super, 30 log blocks, 13 inode blocks, 1 bitmap block, then data. */
  const IMAGE: Layout := Layout(FSSIZE, 46, 32, 45)

  /** A dinode of zeroes. */
  function Free(): Inode {
    Inode(0, 0, 0, seq(NDIRECT + 1, _ => 0))
  }

  // ---- how much of the image a file takes ----

  /** The blocks a file of the given size takes: its data blocks, and an indirect block from block 12 on. */
  function BlockCount(size: nat): nat {
    (size + BSIZE - 1) / BSIZE + if size > NDIRECT * BSIZE then 1 else 0
  }

  lemma BlockCountMonotone(a: nat, b: nat)
    requires a <= b
    ensures BlockCount(a) <= BlockCount(b)
  {
  }

  lemma BlockCountStep(off: nat, n: nat)
    requires 0 < n <= BSIZE - off % BSIZE
    ensures BlockCount(off + n) == BlockCount(off) + (if off % BSIZE == 0 then 1
            else 0) + (if off == NDIRECT * BSIZE then 1 else 0)
  {
    assert (off + n + BSIZE - 1) / BSIZE == off / BSIZE + 1;
  }

  /** Inode n has exactly the blocks a file of the given size takes. */
  ghost predicate Tight(t: Tree, n: nat, size: nat)
    requires Shape(t) && n < |t.inodes|
  {
    && (forall k: nat | k < MAXFILE :: Addr(t, n, k) != 0 <==> k * BSIZE < size)
    && (Addr(t, n, INDIRECT) != 0 <==> NDIRECT * BSIZE < size)
  }

  ghost predicate AllTight(t: Tree)
    requires Shape(t)
  {
    forall n: nat | n < |t.inodes| :: Tight(t, n, t.inodes[n].size)
  }

  lemma TightStep(t: Tree, u: Tree, n: nat, off: nat, c: nat)
    requires Shape(t) && Shape(u) && n < |t.inodes| && n < |u.inodes| && Tight(t, n, off)
    requires 0 < c <= BSIZE - off % BSIZE && off / BSIZE < MAXFILE && Mapped(t, u, n, off / BSIZE)
    ensures Tight(u, n, off + c) && BlockCount(off + c) == BlockCount(off) + Cost(t, n, off / BSIZE)
  {
    BlockCountStep(off, c);
    var fbn := off / BSIZE;
    assert fbn * BSIZE < off + c <= (fbn + 1) * BSIZE;
    forall k: nat | k < MAXFILE ensures Addr(u, n, k) != 0 <==> k * BSIZE < off + c {
      assert k < fbn ==> k * BSIZE < off;
      assert k > fbn ==> k * BSIZE >= off + c;
    }
  }

  // ---- handing out blocks ----

  predicate Zeroed(b: Block) {
    b == ZeroBlock
  }

  /** Blocks are handed out in order, so exactly those below freeblock are in some slot. */
  ghost predicate HandedOut(L: Layout, t: Tree, freeblock: nat) {
    && L.datastart <= freeblock <= L.size == |t.blocks|
    && (forall b :: b in t.owner <==> L.datastart <= b < freeblock)
    && (forall b: nat | freeblock <= b < L.size :: Zeroed(t.blocks[b]))
  }

  /** u is t with slot k of inode n filled by the next block. */
  ghost predicate Taken(L: Layout, t: Tree, u: Tree, n: nat, k: nat, f: nat) {
    && Grows(L, t, u, n) && SameData(t, u) && HandedOut(L, u, f + 1) && k <= INDIRECT && f != 0
    && forall j: nat | j <= INDIRECT :: Addr(u, n, j) == if j == k then f else Addr(t, n, j)
  }

  lemma TakeZero(t: Tree, a: nat)
    requires a < |t.blocks| && t.blocks[a] == ZeroBlock
    ensures t.(blocks := t.blocks[a := ZeroBlock]) == t
  {
    assert t.blocks[a := ZeroBlock] == t.blocks;
  }

  lemma TakeDirect(L: Layout, t: Tree, n: nat, k: nat, f: nat)
    requires Owned(L, t) && HandedOut(L, t, f) && f < L.size && n < |t.inodes| && k < NDIRECT && Addr(t, n, k) == 0
    ensures Taken(L, t, WithAddr(t, n, k, f, Slot(n, k)), n, k, f)
  {
    assert Open(0);
    TakeZero(t, f);
    FillDirect(L, t, n, k, f);
    AdoptDirect(L, t, n, k, f);
  }

  lemma TakeIndirect(L: Layout, t: Tree, n: nat, f: nat)
    requires Owned(L, t) && HandedOut(L, t, f) && f < L.size && n < |t.inodes| && Addr(t, n, INDIRECT) == 0
    ensures Taken(L, t, WithAddr(t, n, NDIRECT, f, Slot(n, INDIRECT)), n, INDIRECT, f)
  {
    assert Open(0);
    TakeZero(t, f);
    FillIndirect(L, t, n, f);
    AdoptIndirect(L, t, n, f);
  }

  lemma TakeEntry(L: Layout, t: Tree, n: nat, j: nat, f: nat)
    requires Owned(L, t) && HandedOut(L, t, f) && f < L.size && n < |t.inodes| && j < NINDIRECT
    requires Addr(t, n, INDIRECT) != 0 && Addr(t, n, NDIRECT + j) == 0
    ensures t.inodes[n].addrs[NDIRECT] < |t.blocks| && Taken(L, t, WithEntry(t, n, j, f), n, NDIRECT + j, f)
  {
    assert Open(0);
    TakeZero(t, f);
    FillEntry(L, t, n, j, f);
    AdoptEntry(L, t, n, j, f);
    IndirectOwned(L, t, n);
  }

  // ---- the bytes behind the end of a file ----

  /** From off on the blocks of inode n hold zeroes. */
  ghost predicate Blank(L: Layout, t: Tree, n: nat, off: nat) {
    && Owned(L, t) && n < |t.inodes|
    && forall k: nat {:trigger Open(k)} :: Open(k) ==>
         forall i: nat | off <= i < MAXFILE * BSIZE :: Raw(L, t, n, i) == 0
  }

  ghost predicate AllBlank(L: Layout, t: Tree) {
    Owned(L, t) && forall n: nat | n < |t.inodes| :: Blank(L, t, n, t.inodes[n].size)
  }

  /** A new block is zero. */
  lemma BlankMapped(L: Layout, t: Tree, u: Tree, n: nat, off: nat, fbn: nat)
    requires Blank(L, t, n, off) && Grows(L, t, u, n) && SameData(t, u) && fbn < MAXFILE && Mapped(t, u, n, fbn)
    requires Addr(t, n, fbn) == 0 ==> Addr(u, n, fbn) < |u.blocks| && u.blocks[Addr(u, n, fbn)] == ZeroBlock
    ensures Blank(L, u, n, off)
  {
    assert Open(0);
    forall i: nat | off <= i < MAXFILE * BSIZE ensures Raw(L, u, n, i) == 0 {
      assert Addr(t, n, i / BSIZE) != 0 ==> Raw(L, u, n, i) == Raw(L, t, n, i);
    }
  }

  lemma BlankPatched(L: Layout, t: Tree, u: Tree, n: nat, off: nat, chunk: seq<byte>, end: nat)
    requires Blank(L, t, n, off) && Owned(L, u) && off < MAXFILE * BSIZE && off % BSIZE + |chunk| <= BSIZE
    requires 0 < Addr(t, n, off / BSIZE) < |t.blocks| && u == Patched(t, n, off, chunk) && end == off + |chunk|
    requires forall m: nat, k: nat | m < |t.inodes| && k <= INDIRECT :: Addr(u, m, k) == Addr(t, m, k)
    ensures Blank(L, u, n, end)
  {
    assert Open(0);
    PatchedBytes(L, t, u, n, off, chunk);
  }

  lemma BlankResized(L: Layout, t: Tree, n: nat, size: nat, m: nat, off: nat)
    requires Blank(L, t, m, off) && n < |t.inodes|
    ensures Blank(L, Resized(t, n, size), m, off)
  {
    assert Open(0);
    ResizedSlots(L, t, n, size);
    forall i: nat | i < MAXFILE * BSIZE ensures Raw(L, Resized(t, n, size), m, i) == Raw(L, t, m, i) {
      ResizedRaw(L, t, n, size, m, i);
    }
  }

  lemma BlankOther(L: Layout, t0: Tree, t: Tree, n: nat, data: seq<byte>, off0: nat, off: nat, m: nat)
    requires Written(L, t0, t, n, data, off0, off) && m != n && m < |t0.inodes| && Blank(L, t0, m, t0.inodes[m].size)
    ensures Blank(L, t, m, t0.inodes[m].size)
  {
    assert Open(0);
  }

  lemma BlankWritten(L: Layout, t0: Tree, t: Tree, n: nat, data: seq<byte>, off0: nat, off: nat)
    requires AllBlank(L, t0) && Written(L, t0, t, n, data, off0, off) && Blank(L, t, n, off)
    ensures AllBlank(L, Resized(t, n, off))
  {
    var u := Resized(t, n, off);
    ResizedSlots(L, t, n, off);
    forall m: nat | m < |u.inodes| ensures Blank(L, u, m, u.inodes[m].size) {
      if m != n { BlankOther(L, t0, t, n, data, off0, off, m); }
      BlankResized(L, t, n, off, m, u.inodes[m].size);
    }
  }

  lemma BlankSame(L: Layout, t: Tree, u: Tree, n: nat)
    requires AllBlank(L, t) && Owned(L, u) && n < |t.inodes| == |u.inodes| && u.blocks == t.blocks
    requires forall k: nat | k <= INDIRECT :: Addr(u, n, k) == Addr(t, n, k)
    requires u.inodes[n].size == t.inodes[n].size
    ensures Blank(L, u, n, u.inodes[n].size)
  {
    assert Blank(L, t, n, t.inodes[n].size);
    assert Open(0);
    forall i: nat | u.inodes[n].size <= i < MAXFILE * BSIZE ensures Raw(L, u, n, i) == 0 {
      assert Raw(L, u, n, i) == Raw(L, t, n, i);
    }
  }

  lemma BlankTaken(L: Layout, t: Tree, u: Tree, inum: nat)
    requires AllBlank(L, t) && Owned(L, u) && |u.inodes| == |t.inodes| && u.blocks == t.blocks && inum < |t.inodes|
    requires forall n: nat, k: nat | n < |t.inodes| && k <= INDIRECT :: Addr(u, n, k) == Addr(t, n, k)
    requires forall n: nat | n < |t.inodes| :: u.inodes[n].size == t.inodes[n].size
    ensures AllBlank(L, u)
  {
    forall n: nat | n < |u.inodes| ensures Blank(L, u, n, u.inodes[n].size) {
      BlankSame(L, t, u, n);
    }
  }

  /** Where a larger size maps no hole, it adds zeroes. */
  lemma BlankTail(L: Layout, t: Tree, n: nat, size: nat)
    requires Inv(L, t) && n < |t.inodes| && t.inodes[n].size <= size && Inv(L, Resized(t, n, size))
    requires Blank(L, t, n, t.inodes[n].size)
    ensures Content(L, Resized(t, n, size), n) == Content(L, t, n) + Zeros(size - t.inodes[n].size)
  {
    var u := Resized(t, n, size);
    var c := Content(L, t, n) + Zeros(size - t.inodes[n].size);
    forall i: nat | i < size ensures Content(L, u, n)[i] == c[i] {
      BlankByte(L, t, n, size, i);
    }
  }

  lemma BlankByte(L: Layout, t: Tree, n: nat, size: nat, i: nat)
    requires Inv(L, t) && n < |t.inodes| && t.inodes[n].size <= size && Inv(L, Resized(t, n, size)) && i < size
    requires Blank(L, t, n, t.inodes[n].size)
    ensures Content(L, Resized(t, n, size), n)[i] == if i < t.inodes[n].size then Content(L, t, n)[i] else 0
  {
    assert Open(0);
    ResizedSlots(L, t, n, size);
    ContentRaw(L, Resized(t, n, size), n, i);
    ResizedRaw(L, t, n, size, n, i);
    if i < t.inodes[n].size { ContentRaw(L, t, n, i); }
  }

  /** The blocks that mapping block fbn takes. */
  ghost function Cost(t: Tree, n: nat, fbn: nat): nat
    requires Shape(t) && n < |t.inodes| && fbn < MAXFILE
  {
    (if Addr(t, n, fbn) == 0 then 1 else 0) + (if fbn >= NDIRECT && Addr(t, n, INDIRECT) == 0 then 1 else 0)
  }

  /** Block fbn of inode n is mapped, its other blocks are as they were, and the indirect block is there if needed. */
  ghost predicate Mapped(t: Tree, u: Tree, n: nat, fbn: nat)
    requires Shape(t) && Shape(u) && n < |t.inodes| && n < |u.inodes| && fbn < MAXFILE
  {
    && Addr(u, n, fbn) != 0
    && (forall k: nat | k < MAXFILE && k != fbn :: Addr(u, n, k) == Addr(t, n, k))
    && (Addr(u, n, INDIRECT) != 0 <==> Addr(t, n, INDIRECT) != 0 || fbn >= NDIRECT)
  }

  // ---- the files given to mkfs ----

  /** A file to put into the image, under the name it gets in the root directory. */
  datatype File = File(name: seq<byte>, data: seq<byte>)

  const DIRSIZ: nat := 14
  const DIRENT: nat := 16
  const DOT: seq<byte> := [46]
  const DOTDOT: seq<byte> := [46, 46]

  /** struct dirent: the inode number and the name cut or padded to DIRSIZ bytes. */
  function Dirent(inum: nat, name: seq<byte>): (d: seq<byte>)
    ensures |d| == DIRENT
  {
    [(inum % 256) as byte, (inum / 256 % 256) as byte]
    + if |name| >= DIRSIZ then name[..DIRSIZ] else name + Zeros(DIRSIZ - |name|)
  }

  /** The root directory of an image of the given files: file i is inode i + 2. */
  function RootDir(files: seq<File>): (d: seq<byte>)
    ensures |d| == DIRENT * (|files| + 2)
  {
    if files == [] then Dirent(ROOTINO, DOT) + Dirent(ROOTINO, DOTDOT)
    else RootDir(files[..|files| - 1]) + Dirent(|files| + 1, files[|files| - 1].name)
  }

  /** The bytes behind the entries of the root directory in its last block. */
  function Padding(files: seq<File>): nat {
    (DIRENT * (|files| + 2) / BSIZE + 1) * BSIZE - DIRENT * (|files| + 2)
  }

  function DataBlocks(files: seq<File>): nat {
    if files == [] then 0 else DataBlocks(files[..|files| - 1]) + BlockCount(|files[|files| - 1].data|)
  }

  /** The first block behind the files and the root directory. */
  function Used(files: seq<File>): nat { IMAGE.datastart + DataBlocks(files) + BlockCount(DIRENT * (|files| + 2)) }

  /** What the files and the root directory take fits behind the metadata. */
  ghost predicate Fits(files: seq<File>) {
    && |files| + 2 <= NINODES && (forall f | f in files :: |f.data| <= MAXFILE * BSIZE)
    && Used(files) <= FSSIZE
  }

  lemma FitsNext(files: seq<File>, i: nat, done: seq<File>) returns (more: seq<File>)
    requires Fits(files) && i < |files| && done == files[..i]
    ensures more == done + [files[i]] == files[..i + 1] && Fits(more)
  {
    more := done + [files[i]];
    FitsPrefix(files, i + 1);
  }

  lemma {:induction false} FitsPrefix(files: seq<File>, i: nat)
    requires Fits(files) && i <= |files|
    ensures Fits(files[..i])
    decreases |files| - i
  {
    if i == |files| {
      assert files[..i] == files;
    } else {
      FitsPrefix(files, i + 1);
      assert files[..i + 1][..i] == files[..i];
      BlockCountMonotone(DIRENT * (i + 2), DIRENT * (i + 3));
    }
  }

  lemma RoomForFile(files: seq<File>, f: File, all: seq<File>)
    requires all == files + [f] && Fits(all)
    ensures |files| + 3 <= NINODES && |f.data| <= MAXFILE * BSIZE
            && DataBlocks(all) == DataBlocks(files) + BlockCount(|f.data|)
  {
    assert all[..|files|] == files && f in all;
  }

  /** An inode and its contents. */
  datatype Node = Node(typ: nat, nlink: nat, data: seq<byte>)

  ghost function Nodes(L: Layout, t: Tree): (v: seq<Node>)
    requires Inv(L, t)
    ensures |v| == |t.inodes|
  {
    seq(|t.inodes|, n requires 0 <= n < |t.inodes| => Node(t.inodes[n].typ, t.inodes[n].nlink, Content(L, t, n)))
  }

  lemma NodesUpdated(L: Layout, t: Tree, u: Tree, n: nat)
    requires Inv(L, t) && Inv(L, u) && n < |t.inodes| && OthersKept(L, t, u, n)
    ensures Nodes(L, u) == Nodes(L, t)[n := Node(u.inodes[n].typ, u.inodes[n].nlink, Content(L, u, n))]
  {
    assert Open(0);
  }

  function Append(v: seq<Node>, n: nat, data: seq<byte>): seq<Node>
    requires n < |v|
  {
    v[n := v[n].(data := v[n].data + data)]
  }

  lemma AppendTwice(v: seq<Node>, n: nat, data: seq<byte>, i: nat, j: nat)
    requires n < |v| && i <= j <= |data|
    ensures Append(Append(v, n, data[..i]), n, data[i..j]) == Append(v, n, data[..j])
  {
    assert data[..i] + data[i..j] == data[..j];
    assert v[n].data + data[..i] + data[i..j] == v[n].data + (data[..i] + data[i..j]);
  }

  /** Inode i + 2 is file i, the root directory lists them, and inode 0 and the inodes after them are free. */
  ghost predicate Holds(v: seq<Node>, files: seq<File>) {
    && |v| == NINODES >= |files| + 2
    && v[ROOTINO] == Node(T_DIR, 1, RootDir(files))
    && forall k: nat {:trigger Open(k)} :: Open(k) ==> HoldsFiles(v, files)
  }

  ghost predicate HoldsFiles(v: seq<Node>, files: seq<File>)
    requires |v| == NINODES >= |files| + 2
  {
    && v[0] == Node(0, 0, [])
    && (forall i: nat | i < |files| :: v[i + 2] == Node(T_FILE, 1, files[i].data))
    && (forall n: nat | |files| + 2 <= n < NINODES :: v[n] == Node(0, 0, []))
  }

  lemma FileHeld(v: seq<Node>, files: seq<File>, i: nat, n: nat)
    requires Holds(v, files) && i < |files| && n == i + 2
    ensures v[n] == Node(T_FILE, 1, files[i].data)
  {
    assert Open(0);
  }

  lemma FreeHeld(v: seq<Node>, files: seq<File>, n: nat)
    requires Holds(v, files) && n < NINODES && n != ROOTINO && !(2 <= n < |files| + 2)
    ensures v[n] == Node(0, 0, [])
  {
    assert Open(0);
  }

  lemma NextFree(v: seq<Node>, files: seq<File>, n: nat)
    requires Holds(v, files) && |files| + 2 <= n < NINODES
    ensures v[n] == Node(0, 0, [])
  {
    assert Open(0);
  }

  function WithFile(v: seq<Node>, inum: nat, f: File): seq<Node>
    requires ROOTINO < inum < |v|
  {
    Append(Append(v[inum := Node(T_FILE, 1, [])], ROOTINO, Dirent(inum, f.name)), inum, f.data)
  }

  lemma FileAdded(v: seq<Node>, w: seq<Node>, files: seq<File>, all: seq<File>, f: File)
    requires Holds(v, files) && |files| + 3 <= NINODES && all == files + [f] && w == WithFile(v, |files| + 2, f)
    ensures Holds(w, all)
  {
    assert Open(0);
    assert all[..|files|] == files;
    assert [] + f.data == f.data;
  }

  function WithRoot(v: seq<Node>): seq<Node>
    requires ROOTINO < |v|
  {
    Append(Append(v[ROOTINO := Node(T_DIR, 1, [])], ROOTINO, Dirent(ROOTINO, DOT)), ROOTINO, Dirent(ROOTINO, DOTDOT))
  }

  lemma RootAdded(v: seq<Node>, w: seq<Node>)
    requires v == seq(NINODES, _ => Node(0, 0, [])) && w == WithRoot(v)
    ensures Holds(w, [])
  {
    assert Open(0);
    assert [] + Dirent(ROOTINO, DOT) == Dirent(ROOTINO, DOT);
  }

  // ---- what the steps keep ----

  lemma ResizedTight(L: Layout, t0: Tree, t: Tree, n: nat, off: nat)
    requires Owned(L, t0) && AllTight(t0) && Grows(L, t0, t, n) && Tight(t, n, off)
    ensures AllTight(Resized(t, n, off))
  {
    assert Open(0);
    ResizedSlots(L, t, n, off);
    var u := Resized(t, n, off);
    forall m: nat | m < |u.inodes| ensures Tight(u, m, u.inodes[m].size) {
      assert Tight(t0, m, t0.inodes[m].size);
    }
  }

  ghost function WithInode(t: Tree, inum: nat, typ: nat): Tree
    requires inum < |t.inodes|
  {
    t.(inodes := t.inodes[inum := Inode(typ, 1, 0, Free().addrs)])
  }

  lemma InodeSlots(L: Layout, t: Tree, inum: nat, typ: nat)
    requires Inv(L, t) && AllTight(t) && inum < |t.inodes| && t.inodes[inum].size == 0
    ensures Shape(WithInode(t, inum, typ))
    ensures forall n: nat, k: nat | n < |t.inodes| && k <= INDIRECT ::
              Addr(WithInode(t, inum, typ), n, k) == Addr(t, n, k)
  {
    assert Tight(t, inum, 0);
    forall n: nat, k: nat | n < |t.inodes| && k <= INDIRECT
      ensures Addr(WithInode(t, inum, typ), n, k) == Addr(t, n, k)
    {
    }
  }

  lemma EmptyBare(L: Layout, t: Tree, inum: nat)
    requires Inv(L, t) && AllTight(t) && inum < |t.inodes| && t.inodes[inum].size == 0
    ensures Bare(t.inodes[inum])
  {
    assert Tight(t, inum, 0);
    forall k: nat | k <= NDIRECT ensures t.inodes[inum].addrs[k] == 0 {
      assert Addr(t, inum, if k < NDIRECT then k else INDIRECT) == 0;
    }
  }

  /** Taking a free inode changes no slot. */
  lemma InodeTaken(L: Layout, t: Tree, inum: nat, typ: nat)
    requires Inv(L, t) && AllTight(t) && inum < |t.inodes| && t.inodes[inum].size == 0
    ensures var u := WithInode(t, inum, typ); Inv(L, u) && AllTight(u) && OthersKept(L, t, u, inum)
  {
    var u := WithInode(t, inum, typ);
    EmptyBare(L, t, inum);
    BareSwap(L, t, u, inum, u.inodes[inum]);
    InodeSlots(L, t, inum, typ);
    forall n: nat | n < |u.inodes| ensures Tight(u, n, u.inodes[n].size) {
      assert Tight(t, n, t.inodes[n].size);
    }
  }

  /** Rounding up the size of the root directory past a full block leaves a hole in it, and only that does. */
  lemma RoundedRoot(L: Layout, t: Tree, n: nat)
    requires Inv(L, t) && AllTight(t) && n < |t.inodes| && t.inodes[n].size < MAXFILE * BSIZE
    ensures Owned(L, Resized(t, n, (t.inodes[n].size / BSIZE + 1) * BSIZE))
    ensures Inv(L, Resized(t, n, (t.inodes[n].size / BSIZE + 1) * BSIZE)) <==> t.inodes[n].size % BSIZE != 0
  {
    assert Open(0);
    var size := t.inodes[n].size;
    var u := Resized(t, n, (size / BSIZE + 1) * BSIZE);
    ResizedSlots(L, t, n, (size / BSIZE + 1) * BSIZE);
    assert Tight(t, n, size);
    if size % BSIZE == 0 {
      assert Addr(u, n, size / BSIZE) == 0;
    } else {
      forall k: nat | k < MAXFILE && k * BSIZE < (size / BSIZE + 1) * BSIZE ensures Addr(u, n, k) != 0 {
        assert k * BSIZE < size;
      }
    }
  }

  /** Where it leaves none, every file still has its contents, and the directory starts with its entries. */
  lemma RoundedContents(L: Layout, t: Tree, n: nat, size: nat)
    requires Inv(L, t) && n < |t.inodes| && t.inodes[n].size <= size && Inv(L, Resized(t, n, size))
    ensures OthersKept(L, t, Resized(t, n, size), n) && Content(L, t, n) <= Content(L, Resized(t, n, size), n)
  {
    assert Open(0);
    ResizedSlots(L, t, n, size);
    var u := Resized(t, n, size);
    forall m: nat, i: nat | m < |t.inodes| && i < t.inodes[m].size ensures ByteAt(L, u, m, i) == ByteAt(L, t, m, i) {
    }
    forall m: nat | m < |t.inodes| && m != n
      ensures u.inodes[m] == t.inodes[m] && Content(L, u, m) == Content(L, t, m)
    {
      assert |Content(L, u, m)| == |Content(L, t, m)|;
      assert forall i: nat | i < t.inodes[m].size :: Content(L, u, m)[i] == ByteAt(L, t, m, i);
    }
  }

  lemma {:induction false} EmptyFiles(n: nat)
    ensures DataBlocks(seq(n, _ => File([], []))) == 0
  {
    if n > 0 {
      var files := seq(n, _ => File([], []));
      assert files[..n - 1] == seq(n - 1, _ => File([], []));
      EmptyFiles(n - 1);
    }
  }

  /** The case with a hole can be asked for: 62 empty files. */
  lemma HoleInRoot()
    ensures exists files :: Fits(files) && (|files| + 2) % 64 == 0
  {
    var files := seq(62, _ => File([], []));
    EmptyFiles(62);
    assert Fits(files);
  }

  /** mkfs's image and its allocation state. */
  class Image {
    const L: Layout
    var inodes: seq<Inode>
    var blocks: seq<Block>
    var bitmap: seq<bool>
    var freeinode: nat
    var freeblock: nat
    ghost var owner: map<nat, Slot>
    ghost var nodes: seq<Node>

    ghost function T(): Tree
      reads this
    {
      Tree(inodes, blocks, owner)
    }

    /** The invariant of the file system, every file with exactly its blocks and zeroes behind its end, and blocks
        handed out in order. */
    ghost predicate Valid()
      reads this
    {
      && Inv(L, T()) && HandedOut(L, T(), freeblock) && AllTight(T()) && AllBlank(L, T())
      && nodes == Nodes(L, T())
    }

    constructor ()
      ensures Valid() && L == IMAGE && |inodes| == NINODES && freeinode == 1 && freeblock == 46
      ensures nodes == seq(NINODES, _ => Node(0, 0, []))
    {
      L := IMAGE;
      inodes := seq(NINODES, _ => Free());
      blocks := seq(FSSIZE, _ => ZeroBlock);
      bitmap := [];
      freeinode, freeblock, owner, nodes := 1, 46, map[], seq(NINODES, _ => Node(0, 0, []));
    }

    method Ialloc(typ: nat) returns (inum: nat)
      requires Valid() && freeinode < |nodes| && nodes[freeinode] == Node(0, 0, [])
      modifies this`inodes, this`freeinode, this`nodes
      ensures Valid() && inum == old(freeinode) && freeinode == inum + 1
              && nodes == old(nodes)[inum := Node(typ, 1, [])]
    {
      inum := freeinode;
      freeinode := freeinode + 1;
      ghost var t := T();
      assert |nodes[inum].data| == t.inodes[inum].size;
      InodeTaken(L, t, inum, typ);
      inodes := inodes[inum := Inode(typ, 1, 0, Free().addrs)];
      assert T() == WithInode(t, inum, typ);
      InodeSlots(L, t, inum, typ);
      BlankTaken(L, t, T(), inum);
      NodesUpdated(L, t, T(), inum);
      nodes := nodes[inum := Node(typ, 1, [])];
    }

    /** iappend's search for a block, taking the next free block where none is mapped. */
    method MapDirect(n: nat, k: nat) returns (x: nat)
      requires Owned(L, T()) && HandedOut(L, T(), freeblock) && n < |inodes| && k < NDIRECT
               && freeblock + Cost(T(), n, k) <= L.size
      modifies this`inodes, this`owner, this`freeblock
      ensures HandedOut(L, T(), freeblock) && Grows(L, old(T()), T(), n) && SameData(old(T()), T())
      ensures Mapped(old(T()), T(), n, k) && x == Addr(T(), n, k) && freeblock == old(freeblock) + Cost(old(T()), n, k)
      ensures old(Addr(T(), n, k)) == 0 ==> x < |blocks| && blocks[x] == ZeroBlock
    {
      if inodes[n].addrs[k] == 0 {
        ghost var t := T();
        TakeDirect(L, t, n, k, freeblock);
        inodes := inodes[n := inodes[n].(addrs := inodes[n].addrs[k := freeblock])];
        owner := owner[freeblock := Slot(n, k)];
        assert T() == WithAddr(t, n, k, freeblock, Slot(n, k));
        freeblock := freeblock + 1;
      }
      x := inodes[n].addrs[k];
    }

    method MapIndirect(n: nat)
      requires Owned(L, T()) && HandedOut(L, T(), freeblock) && n < |inodes|
      requires freeblock + (if Addr(T(), n, INDIRECT) == 0 then 1 else 0) <= L.size
      modifies this`inodes, this`owner, this`freeblock
      ensures HandedOut(L, T(), freeblock) && Grows(L, old(T()), T(), n) && SameData(old(T()), T())
      ensures Addr(T(), n, INDIRECT) != 0 && forall k: nat | k < MAXFILE :: Addr(T(), n, k) == Addr(old(T()), n, k)
      ensures freeblock == old(freeblock) + if Addr(old(T()), n, INDIRECT) == 0 then 1 else 0
    {
      if inodes[n].addrs[NDIRECT] == 0 {
        ghost var t := T();
        TakeIndirect(L, t, n, freeblock);
        inodes := inodes[n := inodes[n].(addrs := inodes[n].addrs[NDIRECT := freeblock])];
        owner := owner[freeblock := Slot(n, INDIRECT)];
        assert T() == WithAddr(t, n, NDIRECT, freeblock, Slot(n, INDIRECT));
        freeblock := freeblock + 1;
      }
    }

    method MapEntry(n: nat, j: nat) returns (x: nat)
      requires Owned(L, T()) && HandedOut(L, T(), freeblock) && n < |inodes| && j < NINDIRECT
      requires Addr(T(), n, INDIRECT) != 0 && freeblock + Cost(T(), n, NDIRECT + j) <= L.size
      modifies this`blocks, this`owner, this`freeblock
      ensures HandedOut(L, T(), freeblock) && Grows(L, old(T()), T(), n) && SameData(old(T()), T())
      ensures Mapped(old(T()), T(), n, NDIRECT + j) && x == Addr(T(), n, NDIRECT + j)
      ensures old(Addr(T(), n, NDIRECT + j)) == 0 ==> x < |blocks| && blocks[x] == ZeroBlock
      ensures freeblock == old(freeblock) + Cost(old(T()), n, NDIRECT + j)
    {
      ghost var t := T();
      IndirectOwned(L, t, n);
      var ind := inodes[n].addrs[NDIRECT];
      if GetWord(blocks[ind], j) == 0 {
        TakeEntry(L, t, n, j, freeblock);
        blocks := blocks[ind := PutWord(blocks[ind], j, freeblock)];
        owner := owner[freeblock := Slot(n, NDIRECT + j)];
        assert T() == WithEntry(t, n, j, freeblock);
        freeblock := freeblock + 1;
      }
      x := GetWord(blocks[ind], j);
    }

    method MapBlock(n: nat, fbn: nat) returns (x: nat)
      requires Owned(L, T()) && HandedOut(L, T(), freeblock) && n < |inodes| && fbn < MAXFILE
               && freeblock + Cost(T(), n, fbn) <= L.size
      modifies this`blocks, this`inodes, this`owner, this`freeblock
      ensures HandedOut(L, T(), freeblock) && Grows(L, old(T()), T(), n) && SameData(old(T()), T())
      ensures Mapped(old(T()), T(), n, fbn) && x == Addr(T(), n, fbn)
              && freeblock == old(freeblock) + Cost(old(T()), n, fbn)
      ensures old(Addr(T(), n, fbn)) == 0 ==> x < |blocks| && blocks[x] == ZeroBlock
    {
      if fbn < NDIRECT {
        x := MapDirect(n, fbn);
      } else {
        ghost var t := T();
        MapIndirect(n);
        ghost var u := T();
        x := MapEntry(n, fbn - NDIRECT);
        GrowsTransitive(L, t, u, T(), n);
      }
    }

    /** rsect, bcopy, wsect. */
    method StoreChunk(ghost t0: Tree, n: nat, data: seq<byte>, ghost off0: nat, off: nat, x: nat, tot: nat, n1: nat,
        ghost end: nat)
      requires Written(L, t0, T(), n, data, off0, off) && HandedOut(L, T(), freeblock) && off == off0 + tot
               && tot + n1 <= |data|
      requires off % BSIZE + n1 <= BSIZE && off < MAXFILE * BSIZE && end <= MAXFILE * BSIZE && end == off + n1
      requires x == Addr(T(), n, off / BSIZE) != 0 && Blank(L, T(), n, off)
      modifies this`blocks
      ensures HandedOut(L, T(), freeblock) && Written(L, t0, T(), n, data, off0, end) && Blank(L, T(), n, end)
      ensures forall k: nat | k <= INDIRECT :: Addr(T(), n, k) == Addr(old(T()), n, k)
    {
      ghost var t := T();
      WrittenChunk(L, t0, t, n, data, off0, off, n1, end);
      InUse(L, t, n, off / BSIZE);
      StoreKeeps(L, t, x, Patch(blocks[x], off % BSIZE, data[tot..tot + n1]));
      blocks := blocks[x := Patch(blocks[x], off % BSIZE, data[tot..tot + n1])];
      assert T() == Patched(t, n, off, data[off - off0..off - off0 + n1]);
      BlankPatched(L, t, T(), n, off, data[off - off0..off - off0 + n1], end);
    }

    /** What is left, up to the end of the block. */
    static function ChunkSize(off: nat, left: nat): (n1: nat)
      requires 0 < left
      ensures 0 < n1 <= left && n1 <= BSIZE - off % BSIZE && (n1 < left ==> n1 == BSIZE - off % BSIZE)
    {
      if left < (off / BSIZE + 1) * BSIZE - off then left else (off / BSIZE + 1) * BSIZE - off
    }

    method MapFor(ghost t0: Tree, n: nat, ghost data: seq<byte>, ghost off0: nat, ghost off: nat, fbn: nat)
      returns (x: nat)
      requires Written(L, t0, T(), n, data, off0, off) && HandedOut(L, T(), freeblock) && Blank(L, T(), n, off)
      requires fbn < MAXFILE && freeblock + Cost(T(), n, fbn) <= L.size
      modifies this`blocks, this`inodes, this`owner, this`freeblock
      ensures Written(L, t0, T(), n, data, off0, off) && HandedOut(L, T(), freeblock) && Blank(L, T(), n, off)
      ensures Mapped(old(T()), T(), n, fbn) && x == Addr(T(), n, fbn)
      ensures freeblock == old(freeblock) + Cost(old(T()), n, fbn)
    {
      ghost var t := T();
      x := MapBlock(n, fbn);
      WrittenGrows(L, t0, t, T(), n, data, off0, off);
      BlankMapped(L, t, T(), n, off, fbn);
    }

    /** One round of iappend. */
    method AppendRound(ghost t0: Tree, n: nat, data: seq<byte>, ghost off0: nat, off: nat, tot: nat)
        returns (n1: nat, ghost end: nat)
      requires Written(L, t0, T(), n, data, off0, off) && HandedOut(L, T(), freeblock) && Tight(T(), n, off)
      requires off == off0 + tot && tot < |data| && off0 + |data| <= MAXFILE * BSIZE && Blank(L, T(), n, off)
      requires freeblock + BlockCount(off0 + |data|) - BlockCount(off) <= L.size
      modifies this`blocks, this`inodes, this`owner, this`freeblock
      ensures 0 < n1 <= |data| - tot && end == off + n1 && HandedOut(L, T(), freeblock)
              && Written(L, t0, T(), n, data, off0, end)
      ensures Tight(T(), n, end) && freeblock == old(freeblock) + BlockCount(end) - BlockCount(off)
      ensures Blank(L, T(), n, end)
    {
      ghost var t := T();
      n1 := ChunkSize(off, |data| - tot);
      ChunkCost(t, n, off, n1, off0 + |data|);
      var x := MapFor(t0, n, data, off0, off, off / BSIZE);
      end := off + n1;
      StoreChunk(t0, n, data, off0, off, x, tot, n1, end);
      TightStep(t, T(), n, off, n1);
    }

    lemma ChunkCost(t: Tree, n: nat, off: nat, n1: nat, end: nat)
      requires Shape(t) && n < |t.inodes| && Tight(t, n, off) && 0 < n1 <= BSIZE - off % BSIZE
               && off + n1 <= end <= MAXFILE * BSIZE
      ensures off / BSIZE < MAXFILE && BlockCount(off) + Cost(t, n, off / BSIZE) <= BlockCount(end)
    {
      BlockCountStep(off, n1);
      BlockCountMonotone(off + n1, end);
    }

    /** iappend appends to the file, takes exactly the blocks that needs and touches no other file. mkfs does not
        look whether the image has room, so there must be. */
    method Iappend(n: nat, data: seq<byte>)
      requires Valid() && n < |nodes| && |nodes[n].data| + |data| <= MAXFILE * BSIZE
      requires freeblock + BlockCount(|nodes[n].data| + |data|) - BlockCount(|nodes[n].data|) <= L.size
      modifies this`blocks, this`inodes, this`owner, this`freeblock, this`nodes
      ensures Valid() && nodes == Append(old(nodes), n, data)
      ensures freeblock == old(freeblock) + BlockCount(|nodes[n].data|) - BlockCount(old(|nodes[n].data|))
    {
      ghost var t0 := T();
      var off0 := inodes[n].size;
      var off, tot := off0, 0;
      WrittenStart(L, t0, n, data, off0);
      assert Tight(t0, n, off0) && Blank(L, t0, n, off0);
      while tot < |data|
        invariant off == off0 + tot && tot <= |data| && Written(L, t0, T(), n, data, off0, off) && nodes == old(nodes)
        invariant HandedOut(L, T(), freeblock) && Tight(T(), n, off) && Blank(L, T(), n, off)
                  && freeblock == old(freeblock) + BlockCount(off) - BlockCount(off0)
      {
        var n1, end := AppendRound(t0, n, data, off0, off, tot);
        tot, off := tot + n1, off + n1;
      }
      SetSize(t0, n, data, off0, off, tot);
    }

    method SetSize(ghost t0: Tree, n: nat, data: seq<byte>, ghost off0: nat, off: nat, ghost tot: nat)
      requires Written(L, t0, T(), n, data, off0, off) && HandedOut(L, T(), freeblock) && Tight(T(), n, off)
      requires Inv(L, t0) && off0 == t0.inodes[n].size && tot == |data| && off == off0 + tot && AllTight(t0)
               && nodes == Nodes(L, t0)
      requires AllBlank(L, t0) && Blank(L, T(), n, off)
      modifies this`inodes, this`nodes
      ensures Valid() && nodes == Append(old(nodes), n, data)
    {
      ghost var t := T();
      inodes := inodes[n := inodes[n].(size := off)];
      assert T() == Resized(t, n, off);
      WrittenAdvanced(L, t0, t, n, data, off0, off, off, tot);
      AppendIsSplice(Content(L, t0, n), data);
      ResizedTight(L, t0, t, n, off);
      BlankWritten(L, t0, t, n, data, off0, off);
      NodesUpdated(L, t0, T(), n);
      nodes := Append(nodes, n, data);
    }

    /** The read loop of main: a file goes in a block at a time. */
    method AppendAll(n: nat, data: seq<byte>)
      requires Valid() && n < |nodes| && nodes[n].data == [] && |data| <= MAXFILE * BSIZE
               && freeblock + BlockCount(|data|) <= L.size
      modifies this`blocks, this`inodes, this`owner, this`freeblock, this`nodes
      ensures Valid() && nodes == Append(old(nodes), n, data) && freeblock == old(freeblock) + BlockCount(|data|)
    {
      var i := 0;
      assert data[..i] == [] && [] + data[..i] == [];
      while i < |data|
        invariant i <= |data| && Valid() && nodes == Append(old(nodes), n, data[..i])
                  && freeblock == old(freeblock) + BlockCount(i)
      {
        var cc := if |data| - i < BSIZE then |data| - i else BSIZE;
        BlockCountMonotone(i + cc, |data|);
        Iappend(n, data[i..i + cc]);
        AppendTwice(old(nodes), n, data, i, i + cc);
        i := i + cc;
      }
      assert data[..i] == data;
    }

    /** The body of main's loop over its arguments. */
    method PutFile(f: File) returns (inum: nat)
      requires Valid() && ROOTINO < freeinode < |nodes| && nodes[freeinode] == Node(0, 0, [])
      requires |nodes[ROOTINO].data| + DIRENT <= MAXFILE * BSIZE && |f.data| <= MAXFILE * BSIZE
      requires freeblock + BlockCount(|nodes[ROOTINO].data| + DIRENT) - BlockCount(|nodes[ROOTINO].data|)
               + BlockCount(|f.data|) <= L.size
      modifies this`blocks, this`inodes, this`owner, this`freeblock, this`freeinode, this`nodes
      ensures Valid() && inum == old(freeinode) && freeinode == inum + 1 && nodes == WithFile(old(nodes), inum, f)
      ensures freeblock == old(freeblock)
              + BlockCount(old(|nodes[ROOTINO].data|) + DIRENT) - BlockCount(old(|nodes[ROOTINO].data|))
              + BlockCount(|f.data|)
    {
      inum := Ialloc(T_FILE);
      ghost var next := freeinode;
      Iappend(ROOTINO, Dirent(inum, f.name));
      assert freeinode == next;
      AppendAll(inum, f.data);
      assert freeinode == next;
    }

    method AddFile(ghost files: seq<File>, f: File, ghost all: seq<File>)
      requires Valid() && all == files + [f] && Fits(all) && Holds(nodes, files) && freeinode == |files| + 2
      requires L == IMAGE && freeblock == Used(files)
      modifies this`blocks, this`inodes, this`owner, this`freeblock, this`freeinode, this`nodes
      ensures Valid() && Holds(nodes, all) && freeinode == |files| + 3 && freeblock == Used(all)
    {
      RoomForFile(files, f, all);
      assert nodes[ROOTINO].data == RootDir(files);
      NextFree(nodes, files, freeinode);
      var inum := PutFile(f);
      FileAdded(old(nodes), nodes, files, all, f);
    }

    method Balloc(used: nat)
      requires used <= L.size
      modifies this`bitmap
      ensures |bitmap| == L.size && forall b | 0 <= b < L.size :: bitmap[b] <==> b < used
    {
      bitmap := seq(L.size, _ => false);
      var i := 0;
      while i < used
        invariant i <= used && |bitmap| == L.size && forall b | 0 <= b < L.size :: bitmap[b] <==> b < i
      {
        bitmap := bitmap[i := true];
        i := i + 1;
      }
    }

    /** main's root directory. */
    method PutRoot()
      requires Valid() && L == IMAGE && freeinode == ROOTINO && freeblock == L.datastart
               && nodes == seq(NINODES, _ => Node(0, 0, []))
      modifies this`blocks, this`inodes, this`owner, this`freeblock, this`freeinode, this`nodes
      ensures Valid() && Holds(nodes, []) && freeinode == 2 && freeblock == L.datastart + BlockCount(2 * DIRENT)
    {
      ghost var v := nodes;
      var root := Ialloc(T_DIR);
      Iappend(root, Dirent(root, DOT));
      assert freeinode == 2;
      Iappend(root, Dirent(root, DOTDOT));
      assert freeinode == 2;
      RootAdded(v, nodes);
    }

    /** main up to the last file. */
    method Populate(files: seq<File>)
      requires Valid() && L == IMAGE && freeinode == ROOTINO && freeblock == L.datastart
               && nodes == seq(NINODES, _ => Node(0, 0, []))
      requires Fits(files)
      modifies this`blocks, this`inodes, this`owner, this`freeblock, this`freeinode, this`nodes
      ensures Valid() && Holds(nodes, files)
    {
      PutRoot();
      var i := 0;
      ghost var done: seq<File> := [];
      assert files[..0] == [] && freeblock == Used([]);
      while i < |files|
        invariant i <= |files| && done == files[..i] && Valid() && Holds(nodes, done) && freeinode == i + 2
                  && freeblock == Used(done)
      {
        ghost var more := FitsNext(files, i, done);
        AddFile(done, files[i], more);
        i, done := i + 1, more;
      }
      assert done == files;
    }

    /** The end of main: root directory size, bitmap. */
    method Finish(ghost files: seq<File>)
      requires Valid() && Holds(nodes, files)
      modifies this`inodes, this`bitmap
      ensures Owned(L, T()) && Marked(L, bitmap, owner.Keys)
      ensures Inv(L, T()) <==> (|files| + 2) % 64 != 0
      ensures T() == Resized(old(T()), ROOTINO, (DIRENT * (|files| + 2) / BSIZE + 1) * BSIZE)
    {
      ghost var t := T();
      assert nodes[ROOTINO].data == RootDir(files);
      RoundedRoot(L, t, ROOTINO);
      RootSize(|files| + 2);
      var off := inodes[ROOTINO].size;
      off := (off / BSIZE + 1) * BSIZE;
      inodes := inodes[ROOTINO := inodes[ROOTINO].(size := off)];
      assert T() == Resized(t, ROOTINO, off);
      Balloc(freeblock);
    }

    lemma RootSize(n: nat)
      ensures DIRENT * n % BSIZE == 0 <==> n % 64 == 0
    {
    }

    lemma AppendIsSplice(c: seq<byte>, data: seq<byte>)
      ensures Splice(c, |c|, data) == c + data && Splice(c, |c|, data[..|data|]) == c + data && c + [] == c
    {
      assert data[..|data|] == data;
    }
  }

  /** main: an image of the files that satisfies the invariant of the file system exactly when the root directory
      does not fill its last block; then zeroes follow its entries. Owners and bitmap are right in either case. */
  method MakeFs(files: seq<File>) returns (im: Image, ghost t: Tree)
    requires Fits(files)
    ensures fresh(im) && im.L == IMAGE && Inv(IMAGE, t) && AllTight(t) && Holds(Nodes(IMAGE, t), files)
    ensures im.T() == Resized(t, ROOTINO, (DIRENT * (|files| + 2) / BSIZE + 1) * BSIZE)
    ensures Owned(IMAGE, im.T()) && Marked(IMAGE, im.bitmap, im.owner.Keys)
    ensures Inv(IMAGE, im.T()) <==> (|files| + 2) % 64 != 0
    ensures Inv(IMAGE, im.T()) ==>
            && OthersKept(IMAGE, t, im.T(), ROOTINO)
            && Content(IMAGE, im.T(), ROOTINO) == RootDir(files) + Zeros(Padding(files))
  {
    im := new Image();
    im.Populate(files);
    t := im.T();
    im.Finish(files);
    if Inv(IMAGE, im.T()) {
      RoundedContents(IMAGE, t, ROOTINO, (DIRENT * (|files| + 2) / BSIZE + 1) * BSIZE);
      assert Blank(IMAGE, t, ROOTINO, t.inodes[ROOTINO].size);
      assert Nodes(IMAGE, t)[ROOTINO].data == RootDir(files);
      BlankTail(IMAGE, t, ROOTINO, (DIRENT * (|files| + 2) / BSIZE + 1) * BSIZE);
    }
  }
}
