/** kernel/fs.c: the block allocator and the inode layer, with kernel/file.c's chunked write. */
module Fs {
  import opened Params
  import opened Blocks
  import opened Folding
  import opened FsModel

  const BPB: nat := 8192          // bitmap bits per block
  const IPB: nat := 16            // inodes per block

  ghost function NonZero(s: set<nat>): set<nat> {
    s - {0}
  }

  lemma SubsetCard(a: set<nat>, b: set<nat>)
    requires a <= b
    ensures |a| <= |b|
  {
    assert b == a + (b - a);
  }

  lemma UnionCard(a: set<nat>, b: set<nat>)
    ensures |a + b| <= |a| + |b|
  {
    assert a + b == a + (b - a);
    SubsetCard(b - a, b);
  }

  /** now is was but for the first i direct blocks of inode n, which are gone. */
  ghost predicate DirectsGone(was: seq<Inode>, now: seq<Inode>, n: nat, i: nat) {
    && |now| == |was| && n < |was| && i <= |was[n].addrs| == |now[n].addrs|
    && now == was[n := was[n].(addrs := now[n].addrs)]
    && (forall k: nat | k < |now[n].addrs| :: now[n].addrs[k] == if k < i then 0 else was[n].addrs[k])
  }

  lemma DirectGone(was: seq<Inode>, mid: seq<Inode>, now: seq<Inode>, n: nat, i: nat)
    requires DirectsGone(was, mid, n, i) && i < |mid[n].addrs|
             && now == mid[n := mid[n].(addrs := mid[n].addrs[i := 0])]
    ensures DirectsGone(was, now, n, i + 1)
  {
  }

  /** The transactions since was have each logged no more than fits; small is a disk with one bitmap block. */
  ghost predicate Within(was: seq<set<nat>>, ops: seq<set<nat>>, small: bool) {
    was <= ops && forall k: nat | |was| <= k < |ops| :: |ops[k]| <= MAXOPBLOCKS && (small ==> |ops[k]| <= 7)
  }

  lemma OneMore(was: seq<set<nat>>, before: seq<set<nat>>, ops: seq<set<nat>>, op: set<nat>, small: bool, i: nat,
      got: nat)
    requires Within(was, before, small) && ops == before + [op] && |op| <= MAXOPBLOCKS && (small ==> |op| <= 7)
    requires i <= 3 * BSIZE * (|before| - |was|) && got <= i + 3 * BSIZE
    ensures Within(was, ops, small) && got <= 3 * BSIZE * (|ops| - |was|)
  {
  }

  class FileSystem {
    const L: Layout
    var bitmap: seq<bool>
    var inodes: seq<Inode>          // in-memory inodes
    var dinodes: seq<Inode>         // on-disk inodes
    var blocks: seq<Block>
    ghost var owner: map<nat, Slot>
    ghost var logged: set<nat>      // blocks passed to log_write since begin_op
    ghost var ops: seq<set<nat>>    // the blocks that each finished transaction has logged

    function BBlock(b: nat): nat { b / BPB + L.bmapstart }
    function IBlock(n: nat): nat { n / IPB + L.inodestart }

    ghost function T(): Tree
      reads this
    {
      Tree(inodes, blocks, owner)
    }

    /** Every data block in use is in exactly one slot, and marked; no other data block is marked. The inodes in memory
        and those on disk agree. */
    ghost predicate Valid()
      reads this
    {
      Inv(L, T()) && Marked(L, bitmap, owner.Keys) && dinodes == inodes
    }

    /** The file system on a disk that holds the tree t. */
    constructor (layout: Layout, map0: seq<bool>, nodes: seq<Inode>, data: seq<Block>, ghost t: Tree)
      requires t.inodes == nodes && t.blocks == data && Inv(layout, t) && Marked(layout, map0, t.owner.Keys)
      ensures Valid() && L == layout && T() == t
    {
      L, bitmap, inodes, dinodes, blocks, owner, logged, ops := layout, map0, nodes, nodes, data, t.owner, {}, [];
    }

    /** Every block is in use. */
    ghost predicate Full()
      reads this`bitmap
    {
      |bitmap| == L.size && forall b: nat | b < L.size :: bitmap[b]
    }

    method Bzero(b: nat)
      requires b < |blocks|
      modifies this`blocks, this`logged
      ensures blocks == old(blocks)[b := ZeroBlock] && logged == old(logged) + {b}
    {
      blocks := blocks[b := ZeroBlock];
      logged := logged + {b};
    }

    /** Allocate the lowest free block, zeroed; 0 if there is none. */
    method Balloc() returns (a: nat)
      requires L.Wf() && Marked(L, bitmap, owner.Keys) && |blocks| == L.size
      modifies this`bitmap, this`blocks, this`logged
      ensures a == 0 ==> bitmap == old(bitmap) && blocks == old(blocks) && logged == old(logged)
      ensures a == 0 ==> Full()
      ensures a != 0 ==> L.datastart <= a < L.size && a !in owner && forall b | 0 <= b < a :: old(bitmap)[b]
      ensures a != 0 ==> bitmap == old(bitmap)[a := true] && blocks == old(blocks)[a := ZeroBlock]
      ensures a != 0 ==> logged == old(logged) + {BBlock(a), a} && Marked(L, bitmap, owner.Keys + {a})
    {
      var b := 0;
      while b < L.size
        invariant forall k | 0 <= k < b && k < L.size :: bitmap[k]
        invariant bitmap == old(bitmap) && blocks == old(blocks) && logged == old(logged) && b % BPB == 0
      {
        var bi := 0;
        while bi < BPB && b + bi < L.size
          invariant 0 <= bi <= BPB && forall k | 0 <= k < b + bi && k < L.size :: bitmap[k]
          invariant bitmap == old(bitmap) && blocks == old(blocks) && logged == old(logged)
        {
          if !bitmap[b + bi] {
            bitmap := bitmap[b + bi := true];
            logged := logged + {BBlock(b)};
            assert BBlock(b) == BBlock(b + bi);
            Bzero(b + bi);
            return b + bi;
          }
          bi := bi + 1;
        }
        b := b + BPB;
      }
      return 0;
    }

    /** The panic "freeing free block" is the negation of the second precondition. */
    method Bfree(b: nat)
      requires b < |bitmap|
      requires bitmap[b]
      modifies this`bitmap, this`logged
      ensures bitmap == old(bitmap)[b := false] && logged == old(logged) + {BBlock(b)}
    {
      bitmap := bitmap[b := false];
      logged := logged + {BBlock(b)};
    }

    method Iupdate(n: nat)
      requires n < |inodes| == |dinodes|
      modifies this`dinodes, this`logged
      ensures dinodes == old(dinodes)[n := inodes[n]] && logged == old(logged) + {IBlock(n)}
    {
      dinodes := dinodes[n := inodes[n]];
      logged := logged + {IBlock(n)};
    }
  
    ghost predicate IsMapBlock(x: nat) {
      exists b: nat :: b < L.size && x == BBlock(b)
    }

    /** bmap for a direct block. `maps` are the bitmap blocks logged. */
    method MapDirect(n: nat, k: nat) returns (addr: nat, ghost maps: set<nat>)
      requires Owned(L, T()) && Marked(L, bitmap, owner.Keys) && n < |inodes| && k < NDIRECT
      modifies this`bitmap, this`blocks, this`inodes, this`owner, this`logged
      ensures Grows(L, old(T()), T(), n) && SameData(old(T()), T()) && Marked(L, bitmap, owner.Keys)
      ensures addr == Addr(T(), n, k)
      ensures addr == 0 ==> Full()
      ensures old(Addr(T(), n, k)) != 0 ==>
              bitmap == old(bitmap) && T() == old(T()) && logged == old(logged) && maps == {}
      ensures Addr(T(), n, INDIRECT) == old(Addr(T(), n, INDIRECT))
      ensures logged <= old(logged) + maps + NonZero({addr}) && |maps| <= 1 && forall x | x in maps :: IsMapBlock(x)
      ensures Covered(old(blocks), blocks, logged) && old(logged) <= logged
    {
      addr, maps := inodes[n].addrs[k], {};
      CoveredNone(blocks, logged);
      if addr == 0 {
        ghost var t := T();
        addr := Balloc();
        if addr == 0 {
          return;
        }
        FillDirect(L, t, n, k, addr);
        CoveredPut(t.blocks, t.blocks, old(logged), addr, ZeroBlock, logged);
        inodes := inodes[n := inodes[n].(addrs := inodes[n].addrs[k := addr])];
        owner := owner[addr := Slot(n, k)];
        maps := {BBlock(addr)};
      }
    }

    /** bmap's first step for an indirect block: find or allocate the block of block numbers. */
    method MapIndirect(n: nat) returns (ind: nat, ghost maps: set<nat>)
      requires Owned(L, T()) && Marked(L, bitmap, owner.Keys) && n < |inodes|
      modifies this`bitmap, this`blocks, this`inodes, this`owner, this`logged
      ensures Grows(L, old(T()), T(), n) && SameData(old(T()), T()) && Marked(L, bitmap, owner.Keys)
      ensures ind == Addr(T(), n, INDIRECT) && forall k: nat | k < MAXFILE :: Addr(T(), n, k) == old(Addr(T(), n, k))
      ensures ind == 0 ==> forall b | 0 <= b < L.size :: bitmap[b]
      ensures old(Addr(T(), n, INDIRECT)) != 0 || ind == 0 ==>
                bitmap == old(bitmap) && T() == old(T()) && logged == old(logged) && maps == {}
      ensures logged <= old(logged) + maps + NonZero({ind}) && |maps| <= 1 && forall x | x in maps :: IsMapBlock(x)
      ensures Covered(old(blocks), blocks, logged) && old(logged) <= logged
    {
      ind, maps := inodes[n].addrs[NDIRECT], {};
      CoveredNone(blocks, logged);
      if ind == 0 {
        ghost var t := T();
        ind := Balloc();
        if ind == 0 {
          return;
        }
        FillIndirect(L, t, n, ind);
        CoveredPut(t.blocks, t.blocks, old(logged), ind, ZeroBlock, logged);
        inodes := inodes[n := inodes[n].(addrs := inodes[n].addrs[NDIRECT := ind])];
        owner := owner[ind := Slot(n, INDIRECT)];
        maps := {BBlock(ind)};
      }
    }

    /** bmap's second step: find or allocate the block in entry j. */
    method MapEntry(n: nat, j: nat) returns (addr: nat, ghost maps: set<nat>)
      requires Owned(L, T()) && Marked(L, bitmap, owner.Keys) && n < |inodes| && j < NINDIRECT
               && Addr(T(), n, INDIRECT) != 0
      modifies this`bitmap, this`blocks, this`owner, this`logged
      ensures Grows(L, old(T()), T(), n) && SameData(old(T()), T()) && Marked(L, bitmap, owner.Keys)
      ensures addr == Addr(T(), n, NDIRECT + j)
      ensures addr == 0 ==> Full()
      ensures old(Addr(T(), n, NDIRECT + j)) != 0 ==>
              bitmap == old(bitmap) && T() == old(T()) && logged == old(logged) && maps == {}
      ensures logged <= old(logged) + maps + NonZero({addr, Addr(T(), n, INDIRECT)}) && |maps| <= 1
              && forall x | x in maps :: IsMapBlock(x)
      ensures Covered(old(blocks), blocks, logged) && old(logged) <= logged
    {
      maps := {};
      CoveredNone(blocks, logged);
      IndirectOwned(L, T(), n);
      var ind := inodes[n].addrs[NDIRECT];
      addr := GetWord(blocks[ind], j);
      if addr == 0 {
        ghost var t := T();
        addr := Balloc();
        if addr != 0 {
          FillEntry(L, t, n, j, addr);
          CoveredPut(t.blocks, t.blocks, old(logged), addr, ZeroBlock, logged);
          ghost var now, log, d := blocks, logged, PutWord(blocks[ind], j, addr);
          blocks := blocks[ind := PutWord(blocks[ind], j, addr)];
          logged := logged + {ind};
          CoveredPut(t.blocks, now, log, ind, d, logged);
          owner := owner[addr := Slot(n, NDIRECT + j)];
          maps := {BBlock(addr)};
        }
      }
    }

    /** bmap for a block beyond the direct ones. */
    method MapFar(n: nat, bn: nat) returns (addr: nat, ghost maps: set<nat>)
      requires Owned(L, T()) && Marked(L, bitmap, owner.Keys) && n < |inodes| && NDIRECT <= bn < MAXFILE
      modifies this`bitmap, this`blocks, this`inodes, this`owner, this`logged
      ensures Grows(L, old(T()), T(), n) && SameData(old(T()), T()) && Marked(L, bitmap, owner.Keys)
      ensures addr == Addr(T(), n, bn)
      ensures addr == 0 ==> Full()
      ensures old(Addr(T(), n, bn)) != 0 ==>
              bitmap == old(bitmap) && T() == old(T()) && logged == old(logged) && maps == {}
      ensures logged <= old(logged) + maps + NonZero({addr, Addr(T(), n, INDIRECT)}) && forall x | x in maps ::
              IsMapBlock(x)
      ensures |maps| <= 1 + if old(Addr(T(), n, INDIRECT)) == 0 != Addr(T(), n, INDIRECT) then 1 else 0
      ensures Covered(old(blocks), blocks, logged) && old(logged) <= logged
    {
      ghost var t := T();
      assert Addr(t, n, bn) != 0 ==> Addr(t, n, INDIRECT) != 0;
      var ind, maps1 := MapIndirect(n);
      if ind == 0 {
        addr, maps := 0, {};
        return;
      }
      ghost var u := T();
      ghost var maps2;
      ghost var log := logged;
      addr, maps2 := MapEntry(n, bn - NDIRECT);
      CoveredMore(t.blocks, u.blocks, blocks, log, logged);
      GrowsTransitive(L, t, u, T(), n);
      maps := maps1 + maps2;
    }

    /** Block bn of inode n, allocated if missing; 0 when out of space. `maps` are the bitmap
        blocks logged: one for a new data block, one for a new indirect block. */
    method Bmap(n: nat, bn: nat) returns (addr: nat, ghost maps: set<nat>)
      requires Owned(L, T()) && Marked(L, bitmap, owner.Keys) && n < |inodes| && bn < MAXFILE
      modifies this`bitmap, this`blocks, this`inodes, this`owner, this`logged
      ensures Grows(L, old(T()), T(), n) && SameData(old(T()), T()) && Marked(L, bitmap, owner.Keys)
      ensures addr == Addr(T(), n, bn)
      ensures addr == 0 ==> Full()
      ensures old(Addr(T(), n, bn)) != 0 ==>
              bitmap == old(bitmap) && T() == old(T()) && logged == old(logged) && maps == {}
      ensures logged <= old(logged) + maps + NonZero({addr, Addr(T(), n, INDIRECT)}) && forall x | x in maps ::
              IsMapBlock(x)
      ensures |maps| <= 1 + if old(Addr(T(), n, INDIRECT)) == 0 != Addr(T(), n, INDIRECT) then 1 else 0
      ensures Covered(old(blocks), blocks, logged) && old(logged) <= logged
    {
      if bn < NDIRECT {
        addr, maps := MapDirect(n, bn);
      } else {
        addr, maps := MapFar(n, bn);
      }
    }
  
    /** bmap and bread in readi's loop: below the size of the file a block is always mapped, so the
        break for a missing block is never taken and bmap changes nothing. */
    method ReadBlock(n: nat, off: nat, m: nat) returns (chunk: seq<byte>)
      requires Valid() && n < |inodes| && off < inodes[n].size && off + m <= inodes[n].size && off % BSIZE + m <= BSIZE
      modifies this`bitmap, this`blocks, this`inodes, this`owner, this`logged
      ensures T() == old(T()) && bitmap == old(bitmap) && logged == old(logged)
      ensures Valid() && chunk == Content(L, T(), n)[off..off + m]
    {
      ReadChunk(L, T(), n, off, m);
      var addr, maps := Bmap(n, off / BSIZE);
      chunk := blocks[addr][off % BSIZE..off % BSIZE + m];
    }

    /** The bytes a read of cnt bytes at off is entitled to. */
    ghost function Slice(n: nat, off: nat, cnt: nat): seq<byte>
      requires Valid() && n < |inodes| && off <= inodes[n].size
      reads this
    {
      Content(L, T(), n)[off..if off + cnt > inodes[n].size then inodes[n].size else off + cnt]
    }

    /** readi; the destination accepts a copy as long as it stays within `room` bytes. The result is
        the clipped slice, or -1 on a failed copy; bmap never allocates and nothing changes. */
    method Readi(n: nat, off0: nat, cnt: nat, room: nat) returns (r: int, got: seq<byte>)
      requires Valid() && n < |inodes| && off0 < TWO32 && cnt < TWO32
      modifies this`bitmap, this`blocks, this`inodes, this`owner, this`logged
      ensures T() == old(T()) && bitmap == old(bitmap) && logged == old(logged) && Valid()
      ensures off0 > inodes[n].size || (off0 + cnt) % TWO32 < off0 ==> r == 0 && got == []
      ensures !(off0 > inodes[n].size || (off0 + cnt) % TWO32 < off0) ==>
                if room >= |Slice(n, off0, cnt)|
                then r == |got| && got == Slice(n, off0, cnt)
                else r == -1 && got <= Slice(n, off0, cnt)
      ensures r > 0 ==>
              && off0 + r <= inodes[n].size && got == Content(L, T(), n)[off0..off0 + r]
              && (r == cnt || off0 + r == inodes[n].size)
    {
      if off0 > inodes[n].size || (off0 + cnt) % TWO32 < off0 {
        return 0, [];
      }
      var want := if off0 + cnt > inodes[n].size then inodes[n].size - off0 else cnt;
      r, got := ReadLoop(n, off0, want, room);
    }

    lemma SliceOf(c: seq<byte>, off0: nat, want: nat, tot: nat, m: nat, off: nat)
      requires off0 + want <= |c| && tot + m <= want && off == off0 + tot
      ensures c[off0..off0 + want][..tot] + c[off..off + m] == c[off0..off0 + want][..tot + m]
    {
      var a, b := c[off0..off0 + want], c[off..off + m];
      forall i: nat | i < m ensures b[i] == a[tot + i] { }
      assert a[tot..tot + m] == b;
    }

    method ReadLoop(n: nat, off0: nat, want: nat, room: nat) returns (r: int, got: seq<byte>)
      requires Valid() && n < |inodes| && off0 + want <= inodes[n].size
      modifies this`bitmap, this`blocks, this`inodes, this`owner, this`logged
      ensures T() == old(T()) && bitmap == old(bitmap) && logged == old(logged) && Valid()
      ensures room >= want ==> r == want && got == Content(L, T(), n)[off0..off0 + want]
      ensures room < want ==> r == -1 && got <= Content(L, T(), n)[off0..off0 + want]
    {
      ghost var c := Content(L, T(), n)[off0..off0 + want];
      var tot, off := 0, off0;
      got := [];
      while tot < want
        invariant 0 <= tot <= want && tot <= room && off == off0 + tot && got == c[..tot]
        invariant T() == old(T()) && bitmap == old(bitmap) && logged == old(logged)
      {
        var m := if want - tot < BSIZE - off % BSIZE then want - tot else BSIZE - off % BSIZE;
        var chunk := ReadBlock(n, off, m);
        if tot + m > room {
          return -1, got;
        }
        SliceOf(Content(L, T(), n), off0, want, tot, m, off);
        got := got + chunk;
        tot := tot + m;
        off := off + m;
      }
      assert c[..tot] == c;
      r := tot;
    }

    /** Overwrite m bytes of one mapped block in its buffer: either_copyin in the loop of writei. */
    method StoreChunk(ghost t0: Tree, n: nat, src: seq<byte>, ghost off0: nat, off: nat, addr: nat, tot: nat, m: nat,
        ghost end: nat)
      requires Written(L, t0, T(), n, src, off0, off) && off == off0 + tot && tot + m <= |src| && end == off + m
      requires off % BSIZE + m <= BSIZE && off < MAXFILE * BSIZE && end <= MAXFILE * BSIZE
      requires addr == Addr(T(), n, off / BSIZE) != 0
      modifies this`blocks
      ensures Written(L, t0, T(), n, src, off0, end) && Covered(old(blocks), blocks, if m == 0 then {} else {addr})
    {
      ghost var t := T();
      CoveredNone(blocks, {});
      WrittenChunk(L, t0, t, n, src, off0, off, m, end);
      var b := Patch(blocks[addr], off % BSIZE, src[tot..tot + m]);
      assert m == 0 ==> b == blocks[addr];
      CoveredPut(blocks, blocks, {}, addr, b, if m == 0 then {} else {addr});
      blocks := blocks[addr := b];
      assert T() == Patched(t, n, off, src[off - off0..off - off0 + m]);
    }

    /** q rounds have logged the data blocks `data` and the bitmap blocks `maps` (and the indirect
        block), one bitmap block per new block; the first block of an unaligned write is not new. */
    ghost predicate Tally(ind0: nat, ind: nat, logged0: set<nat>, log: set<nat>, part: bool, q: nat, data: set<nat>,
        maps: set<nat>) {
      forall k: nat {:trigger Open(k)} :: Open(k) ==> Counts(ind0, ind, logged0, log, part, q, data, maps)
    }

    ghost predicate Counts(ind0: nat, ind: nat, logged0: set<nat>, log: set<nat>, part: bool, q: nat, data: set<nat>,
        maps: set<nat>) {
      && (ind0 != 0 ==> ind == ind0)
      && log <= logged0 + NonZero(data) + maps + NonZero({ind})
      && |data| <= q && (forall x | x in maps :: IsMapBlock(x))
      && |maps| <= q - (if part && q > 0 then 1 else 0) + (if ind0 == 0 != ind then 1 else 0)
    }

    lemma TallyMap(ind0: nat, ind: nat, next: nat, logged0: set<nat>, log: set<nat>, log': set<nat>, part: bool, q: nat,
        p: nat, data: set<nat>, addr: nat, maps: set<nat>, more: set<nat>)
      requires Tally(ind0, ind, logged0, log, part, q, data, maps) && p == q + 1 && (ind != 0 ==> next == ind)
      requires log' <= log + more + NonZero({addr, next}) && (forall x | x in more :: IsMapBlock(x))
      requires |more| <= 1 + (if ind == 0 != next then 1 else 0) && (part && q == 0 ==> more == {} && next == ind)
      ensures Tally(ind0, next, logged0, log', part, p, data + {addr}, maps + more)
    {
      assert Open(0);
      UnionCard(maps, more);
      UnionCard(data, {addr});
    }

    lemma TallyStore(ind0: nat, ind: nat, logged0: set<nat>, log: set<nat>, log': set<nat>, part: bool, q: nat,
        data: set<nat>, addr: nat, maps: set<nat>)
      requires Tally(ind0, ind, logged0, log, part, q, data, maps) && addr in data && addr != 0 && log' == log + {addr}
      ensures Tally(ind0, ind, logged0, log', part, q, data, maps)
    {
      assert Open(0);
    }

    lemma TallyNone(ind0: nat, log: set<nat>, part: bool)
      ensures Tally(ind0, ind0, log, log, part, 0, {}, {})
    {
      assert Open(0);
    }

    ghost predicate Accounted(t0: Tree, n: nat, part: bool, logged0: set<nat>, q: nat, data: set<nat>, maps: set<nat>)
      requires Shape(t0) && n < |t0.inodes|
      reads this
    {
      && n < |inodes| && |inodes[n].addrs| == NDIRECT + 1
      && Tally(t0.inodes[n].addrs[NDIRECT], inodes[n].addrs[NDIRECT], logged0, logged, part, q, data, maps)
    }

    /** bmap in a round of the loop. */
    method MapRound(ghost t0: Tree, n: nat, ghost src: seq<byte>, ghost off0: nat, off: nat, ghost part: bool,
        ghost logged0: set<nat>, ghost q: nat, ghost p: nat, ghost data: set<nat>, ghost maps: set<nat>)
      returns (addr: nat, ghost data': set<nat>, ghost maps': set<nat>)
      requires Inv(L, t0) && Written(L, t0, T(), n, src, off0, off) && off0 <= t0.inodes[n].size
               && off < MAXFILE * BSIZE
      requires Marked(L, bitmap, owner.Keys) && Accounted(t0, n, part, logged0, q, data, maps)
               && (q == 0 <==> off == off0) && p == q + 1 && (part <==> off0 % BSIZE != 0)
      modifies this`bitmap, this`blocks, this`inodes, this`owner, this`logged
      ensures Written(L, t0, T(), n, src, off0, off) && Marked(L, bitmap, owner.Keys)
      ensures Accounted(t0, n, part, logged0, p, data', maps') && addr in data'
      ensures addr == Addr(T(), n, off / BSIZE) && (addr == 0 ==> Full() && off >= t0.inodes[n].size)
      ensures Covered(old(blocks), blocks, logged) && old(logged) <= logged
    {
      ghost var u, log := T(), logged;
      FirstMapped(L, t0, u, n, src, off0, off);
      ghost var more;
      addr, more := Bmap(n, off / BSIZE);
      WrittenGrows(L, t0, u, T(), n, src, off0, off);
      TallyMap(t0.inodes[n].addrs[NDIRECT], u.inodes[n].addrs[NDIRECT], inodes[n].addrs[NDIRECT], logged0, log, logged,
               part, q, p, data, addr, maps, more);
      maps', data' := maps + more, data + {addr};
      if addr == 0 { UnmappedBeyond(L, t0, T(), n, src, off0, off); }
    }

    /** One round of writei's loop: map a block, copy in up to its end. It stops when no block is left, or when the copy
        of the whole chunk fails; in that case what could be copied is in the buffer, which is not logged. */
    method WriteRound(ghost t0: Tree, n: nat, src: seq<byte>, ghost off0: nat, tot: nat, off: nat, cnt: nat,
                      ghost part: bool, ghost logged0: set<nat>, ghost q: nat, ghost p: nat, ghost data: set<nat>,
                      ghost maps: set<nat>, ghost was: seq<Block>)
      returns (m: nat, ghost end: nat, ghost data': set<nat>, ghost maps': set<nat>, ghost lost: set<nat>)
      requires Inv(L, t0) && Written(L, t0, T(), n, src, off0, off) && off0 <= t0.inodes[n].size
      requires off == off0 + tot && tot < cnt && off0 + cnt <= MAXFILE * BSIZE
      requires Marked(L, bitmap, owner.Keys) && Accounted(t0, n, part, logged0, q, data, maps) && (q == 0 <==> tot == 0)
               && p == q + 1 && (part <==> off0 % BSIZE != 0)
      requires Covered(was, blocks, logged)
      modifies this`bitmap, this`blocks, this`inodes, this`owner, this`logged
      ensures off <= end && Written(L, t0, T(), n, src, off0, end) && Marked(L, bitmap, owner.Keys)
      ensures Accounted(t0, n, part, logged0, p, data', maps')
      ensures m > 0 ==> end == off + m
      ensures m == 0 ==> Stopped(Full(), |src|, cnt, off0, off, end, t0.inodes[n].size)
      ensures IsChunk(off, cnt - tot, m)
      ensures Covered(was, blocks, logged + lost) && old(logged) <= logged
      ensures m > 0 ==> lost == {} && Covered(was, blocks, logged)
      ensures m == 0 && end == off ==> lost == {}
    {
      var addr;
      addr, data', maps' := MapRound(t0, n, src, off0, off, part, logged0, q, p, data, maps);
      CoveredMore(was, old(blocks), blocks, old(logged), logged);
      end, lost := off, {};
      if addr == 0 {
        m := 0;
        assert logged + lost == logged;
        return;
      }
      m := ChunkLength(off, cnt - tot);
      var some := if tot + m > |src| then |src| - tot else m;
      end := off + some;
      ghost var now, log := blocks, logged;
      StoreChunk(t0, n, src, off0, off, addr, tot, some, end);
      lost := if some == 0 then {} else {addr};
      Stored(was, now, blocks, logged, lost);
      if some < m {
        m := 0;
        return;
      }
      lost := {};
      logged := logged + {addr};
      TallyStore(t0.inodes[n].addrs[NDIRECT], inodes[n].addrs[NDIRECT], logged0, log, logged, part, p, data', addr,
          maps');
    }

    lemma Stored(was: seq<Block>, now: seq<Block>, next: seq<Block>, s: set<nat>, t: set<nat>)
      requires Covered(was, now, s) && Covered(now, next, t)
      ensures Covered(was, next, s + t)
    {
      assert Open(0);
    }

    /** The loop of writei. q counts rounds, `data` and `maps` the data and bitmap blocks logged; bytes up to end have
        been copied, and lost are the blocks that have changed and have not been logged. */
    method WriteLoop(n: nat, src: seq<byte>, off0: nat, cnt: nat)
      returns (tot: nat, off: nat, ghost part: bool, ghost q: nat, ghost data: set<nat>, ghost maps: set<nat>,
               ghost end: nat, ghost lost: set<nat>)
      requires Valid() && n < |inodes| && off0 <= inodes[n].size && off0 + cnt <= MAXFILE * BSIZE
      modifies this`bitmap, this`blocks, this`inodes, this`owner, this`logged
      ensures tot <= cnt && off == off0 + tot && Written(L, old(T()), T(), n, src, off0, end)
              && Marked(L, bitmap, owner.Keys)
      ensures off <= end && (tot == cnt ==> end == off)
      ensures tot < cnt ==> Stopped(Full(), |src|, cnt, off0, off, end, old(inodes)[n].size)
      ensures Aligned(off0, cnt, tot)
      ensures Covered(old(blocks), blocks, logged + lost) && old(logged) <= logged && (end == off ==> lost == {})
      ensures Accounted(old(T()), n, part, old(logged), q, data, maps)
      ensures Few(off0, cnt, q) && (part <==> off0 % BSIZE != 0)
    {
      RoundsStart(off0, cnt);
      part := off0 % BSIZE != 0;
      ghost var t0, logged0 := T(), logged;
      tot, q, data, maps, lost := 0, 0, {}, {}, {};
      off, end := off0, off0;
      WrittenStart(L, t0, n, src, off0);
      TallyNone(t0.inodes[n].addrs[NDIRECT], logged0, part);
      CoveredNone(blocks, logged);
      while tot < cnt
        invariant 0 <= tot <= cnt && off == off0 + tot == end && lost == {}
        invariant Written(L, t0, T(), n, src, off0, off) && Marked(L, bitmap, owner.Keys)
        invariant Accounted(t0, n, part, logged0, q, data, maps) && (q == 0 <==> tot == 0)
        invariant Rounds(off0, cnt, tot, q)
        invariant Covered(old(blocks), blocks, logged) && logged0 <= logged
      {
        var m;
        ghost var p := q + 1;
        AtBoundary(off0, cnt, tot, off, q);
        m, end, data, maps, lost :=
          WriteRound(t0, n, src, off0, tot, off, cnt, part, logged0, q, p, data, maps, old(blocks));
        ghost var next := tot + m;
        RoundsStep(off0, cnt, tot, off, q, m, p, next);
        q := p;
        if m == 0 {
          break;
        }
        tot := tot + m;
        off := off + m;
      }
    }

    ghost function Touched(n: nat, data: set<nat>, maps: set<nat>): set<nat>
      requires n < |inodes| && |inodes[n].addrs| == NDIRECT + 1
      reads this
    {
      NonZero(data) + maps + NonZero({inodes[n].addrs[NDIRECT]}) + {IBlock(n)}
    }

    lemma LoggedTouched(t0: Tree, n: nat, part: bool, logged0: set<nat>, q: nat, data: set<nat>, maps: set<nat>)
      requires Shape(t0) && n < |t0.inodes| && Accounted(t0, n, part, logged0, q, data, maps)
      ensures logged + {IBlock(n)} <= logged0 + Touched(n, data, maps)
    {
      assert Open(0);
    }

    lemma TouchedCard(n: nat, data: set<nat>, maps: set<nat>)
      requires n < |inodes| && |inodes[n].addrs| == NDIRECT + 1
      ensures |Touched(n, data, maps)| <= |data| + |maps| + |NonZero({inodes[n].addrs[NDIRECT]})| + 1
      ensures |NonZero({inodes[n].addrs[NDIRECT]})| <= 1
    {
      var ind := NonZero({inodes[n].addrs[NDIRECT]});
      SubsetCard(ind, {inodes[n].addrs[NDIRECT]});
      SubsetCard(NonZero(data), data);
      UnionCard(NonZero(data), maps);
      UnionCard(NonZero(data) + maps, ind);
      UnionCard(NonZero(data) + maps + ind, {IBlock(n)});
    }

    lemma FewRounds(q: nat, o: nat, cnt: nat)
      requires (q == 0 || (q - 1) * BSIZE < o + cnt) && o < BSIZE && cnt <= 3 * BSIZE
      ensures q <= 4 && (o == 0 ==> q <= 3)
    {
    }

    lemma OneMap(maps: set<nat>)
      requires L.size <= BPB && forall x | x in maps :: IsMapBlock(x)
      ensures |maps| <= 1
    {
      forall x | x in maps ensures x == L.bmapstart {
        var b: nat :| b < L.size && x == BBlock(b);
        assert b / BPB == 0;
      }
      SubsetCard(maps, {L.bmapstart});
    }

    /** A chunk of at most three blocks logs at most ten blocks, seven with a single bitmap block. */
    lemma Budget(t0: Tree, n: nat, off0: nat, cnt: nat, part: bool, logged0: set<nat>, q: nat, data: set<nat>,
        maps: set<nat>)
      requires Shape(t0) && n < |t0.inodes| && Accounted(t0, n, part, logged0, q, data, maps)
      requires Few(off0, cnt, q) && cnt <= 3 * BSIZE && (part <==> off0 % BSIZE != 0)
      ensures |Touched(n, data, maps)| <= MAXOPBLOCKS
      ensures L.size <= BPB ==> |Touched(n, data, maps)| <= 7
    {
      assert Open(0);
      FewRounds(q, off0 % BSIZE, cnt);
      TouchedCard(n, data, maps);
      if L.size <= BPB { OneMap(maps); }
    }

    /** What writei turns down: a hole, an overflow, or a file too long. */
    ghost predicate Rejected(n: nat, off0: nat, cnt: nat)
      requires n < |inodes|
      reads this
    {
      off0 > inodes[n].size || (off0 + cnt) % TWO32 < off0 || (off0 + cnt) % TWO32 > MAXFILE * BSIZE
    }

    /** When one inode has changed and is written back, the inodes on disk are those in memory. */
    lemma Synced(t: Tree, u: Tree, n: nat)
      requires Inv(L, t) && Inv(L, u) && n < |t.inodes| && OthersKept(L, t, u, n)
      ensures t.inodes[n := u.inodes[n]] == u.inodes
    {
    }

    /** The end of writei: a larger size, and the inode written back. */
    method SetSize(ghost t0: Tree, n: nat, ghost src: seq<byte>, ghost off0: nat, off: nat, ghost end: nat,
                   ghost done: nat)
      requires Inv(L, t0) && Written(L, t0, T(), n, src, off0, end) && off0 <= t0.inodes[n].size && off0 <= off <= end
      requires Marked(L, bitmap, owner.Keys) && dinodes == t0.inodes
      requires done == TornTo(off - off0, end - off0, t0.inodes[n].size - off0)
      modifies this`inodes, this`dinodes, this`logged
      ensures Valid() && Advanced(L, t0, T(), n, src, off0, done)
      ensures dinodes == old(dinodes)[n := inodes[n]] && logged == old(logged) + {IBlock(n)}
      ensures inodes[n] == old(inodes[n]).(size := inodes[n].size)
    {
      ghost var t := T();
      var size := if off > inodes[n].size then off else inodes[n].size;
      inodes := inodes[n := inodes[n].(size := size)];
      assert T() == Resized(t, n, size);
      WrittenAdvanced(L, t0, t, n, src, off0, end, size, done);
      Iupdate(n);
      Synced(t0, T(), n);
    }

    /** writei; src is what can be read of the source. The first done bytes of src replace or extend those of file n at
        off0, and no other file changes. Every block that has changed is logged, but for one when a copy has failed half
        way. */
    method Writei(n: nat, src: seq<byte>, off0: nat, cnt: nat)
      returns (r: int, ghost touched: set<nat>, ghost done: nat, ghost lost: set<nat>)
      requires Valid() && n < |inodes| && off0 < TWO32 && cnt < TWO32
      modifies this`bitmap, this`blocks, this`inodes, this`dinodes, this`owner, this`logged
      ensures Valid() && logged <= old(logged) + touched
      ensures old(Rejected(n, off0, cnt)) ==>
              r == -1 && T() == old(T()) && bitmap == old(bitmap) && dinodes == old(dinodes) && touched == {}
      ensures !old(Rejected(n, off0, cnt)) ==>
              && Wrote(Full(), |src|, cnt, off0, old(inodes)[n].size, r, done)
              && Advanced(L, old(T()), T(), n, src, off0, done) && dinodes == old(dinodes)[n := inodes[n]]
      ensures Covered(old(blocks), blocks, logged + lost) && (lost != {} ==> r < |src| < cnt)
      ensures inodes[n].typ == old(inodes)[n].typ && inodes[n].nlink == old(inodes)[n].nlink
      ensures cnt <= 3 * BSIZE ==> |touched| <= MAXOPBLOCKS && (L.size <= BPB ==> |touched| <= 7)
    {
      if off0 > inodes[n].size || (off0 + cnt) % TWO32 < off0 {
        return -1, {}, 0, {};
      }
      if (off0 + cnt) % TWO32 > MAXFILE * BSIZE {
        return -1, {}, 0, {};
      }
      r, touched, done, lost := WriteBody(n, src, off0, cnt);
    }

    /** writei, once its arguments have been accepted. */
    method WriteBody(n: nat, src: seq<byte>, off0: nat, cnt: nat)
      returns (r: int, ghost touched: set<nat>, ghost done: nat, ghost lost: set<nat>)
      requires Valid() && n < |inodes| && off0 <= inodes[n].size && off0 + cnt <= MAXFILE * BSIZE
      modifies this`bitmap, this`blocks, this`inodes, this`dinodes, this`owner, this`logged
      ensures Valid() && logged <= old(logged) + touched
      ensures Wrote(Full(), |src|, cnt, off0, old(inodes)[n].size, r, done)
      ensures Advanced(L, old(T()), T(), n, src, off0, done) && dinodes == old(dinodes)[n := inodes[n]]
      ensures Covered(old(blocks), blocks, logged + lost) && (lost != {} ==> r < |src| < cnt)
      ensures inodes[n].typ == old(inodes)[n].typ && inodes[n].nlink == old(inodes)[n].nlink
      ensures cnt <= 3 * BSIZE ==> |touched| <= MAXOPBLOCKS && (L.size <= BPB ==> |touched| <= 7)
    {
      ghost var t0, logged0 := T(), logged;
      var tot, off, part, q, data, maps, end, unlogged := WriteLoop(n, src, off0, cnt);
      lost := unlogged;
      if cnt <= 3 * BSIZE {
        Budget(t0, n, off0, cnt, part, logged0, q, data, maps);
      }
      touched := Touched(n, data, maps);
      LoggedTouched(t0, n, part, logged0, q, data, maps);
      done := EndWrite(t0, n, src, off0, cnt, tot, off, end, lost);
      r := tot;
    }

    /** writei after its loop. */
    method EndWrite(ghost t0: Tree, n: nat, ghost src: seq<byte>, ghost off0: nat, ghost cnt: nat, ghost tot: nat,
                    off: nat, ghost end: nat, ghost lost: set<nat>)
      returns (ghost done: nat)
      requires Inv(L, t0) && Written(L, t0, T(), n, src, off0, end) && off0 <= t0.inodes[n].size
      requires Marked(L, bitmap, owner.Keys) && dinodes == t0.inodes && Covered(t0.blocks, blocks, logged + lost)
      requires off == off0 + tot <= end && tot <= cnt && Aligned(off0, cnt, tot) && (tot == cnt ==> end == off)
      requires tot < cnt ==> Stopped(Full(), |src|, cnt, off0, off, end, t0.inodes[n].size)
      modifies this`inodes, this`dinodes, this`logged
      ensures Valid() && Advanced(L, t0, T(), n, src, off0, done) && dinodes == old(dinodes)[n := inodes[n]]
      ensures Wrote(Full(), |src|, cnt, off0, t0.inodes[n].size, tot, done) && (end > off ==> tot < |src| < cnt)
      ensures logged == old(logged) + {IBlock(n)} && Covered(t0.blocks, blocks, logged + lost)
      ensures inodes[n].typ == t0.inodes[n].typ && inodes[n].nlink == t0.inodes[n].nlink
    {
      done := TornTo(tot, end - off0, t0.inodes[n].size - off0);
      StoppedWrote(Full(), |src|, cnt, off0, t0.inodes[n].size, tot, end, done);
      SetSize(t0, n, src, off0, off, end, done);
      CoveredNone(blocks, logged + lost);
      CoveredMore(t0.blocks, blocks, blocks, old(logged) + lost, logged + lost);
    }
  
    /** itrunc's first loop. */
    method TruncDirect(n: nat)
      requires Owned(L, T()) && Marked(L, bitmap, owner.Keys) && n < |inodes|
      modifies this`bitmap, this`inodes, this`owner, this`logged
      ensures Owned(L, T()) && Marked(L, bitmap, owner.Keys) && DirectsGone(old(inodes), inodes, n, NDIRECT)
    {
      var i: nat := 0;
      while i < NDIRECT
        invariant i <= NDIRECT && Owned(L, T()) && Marked(L, bitmap, owner.Keys)
                  && DirectsGone(old(inodes), inodes, n, i)
      {
        ghost var was := inodes;
        TruncOne(n, i);
        DirectGone(old(inodes), was, inodes, n, i);
        i := i + 1;
      }
    }

    method TruncOne(n: nat, i: nat)
      requires Owned(L, T()) && Marked(L, bitmap, owner.Keys) && n < |inodes| && i < NDIRECT
      modifies this`bitmap, this`inodes, this`owner, this`logged
      ensures Owned(L, T()) && Marked(L, bitmap, owner.Keys) && |old(inodes[n].addrs)| == NDIRECT + 1
      ensures inodes == old(inodes)[n := old(inodes[n]).(addrs := old(inodes[n].addrs)[i := 0])]
    {
      if inodes[n].addrs[i] != 0 {
        ghost var t := T();
        DropDirect(L, t, n, i);
        InUse(L, t, n, i);
        Bfree(inodes[n].addrs[i]);
        owner := owner - {inodes[n].addrs[i]};
        inodes := inodes[n := inodes[n].(addrs := inodes[n].addrs[i := 0])];
        assert T() == DroppedDirect(t, n, i);
      } else {
        assert inodes[n].addrs[i := 0] == inodes[n].addrs;
      }
    }

    /** itrunc's second part: the blocks the indirect block names, then the indirect block. */
    method TruncIndirect(n: nat)
      requires Owned(L, T()) && Marked(L, bitmap, owner.Keys) && n < |inodes|
      modifies this`bitmap, this`inodes, this`owner, this`logged
      ensures T() == DroppedIndirect(old(T()), n) && Owned(L, T()) && Marked(L, bitmap, owner.Keys)
    {
      ghost var t := T();
      DropIndirect(L, t, n);
      EntrySetAll(L, t, n);
      var ind := inodes[n].addrs[NDIRECT];
      if ind != 0 {
        InUse(L, t, n, INDIRECT);
        TruncEntries(n, ind);
        Bfree(ind);
        inodes := inodes[n := inodes[n].(addrs := inodes[n].addrs[NDIRECT := 0])];
        owner := owner - IndirectSet(t, n);
      } else {
        assert inodes[n].addrs[NDIRECT := 0] == inodes[n].addrs;
        assert owner - {} == owner;
      }
      assert T() == DroppedIndirect(t, n);
    }

    /** The loop over the entries of the indirect block. */
    method TruncEntries(n: nat, ind: nat)
      requires Owned(L, T()) && Marked(L, bitmap, owner.Keys) && n < |inodes| && ind == Addr(T(), n, INDIRECT) != 0
      modifies this`bitmap, this`logged
      ensures Marked(L, bitmap, owner.Keys - EntrySet(T(), n, NINDIRECT))
    {
      ghost var t := T();
      InUse(L, t, n, INDIRECT);
      var j := 0;
      assert EntrySet(t, n, 0) == {};
      while j < NINDIRECT
        invariant 0 <= j <= NINDIRECT && Marked(L, bitmap, owner.Keys - EntrySet(t, n, j))
      {
        EntrySetStep(L, t, n, j);
        var a := GetWord(blocks[ind], j);
        if a != 0 {
          InUse(L, t, n, NDIRECT + j);
          Bfree(a);
        }
        j := j + 1;
      }
    }

    /** itrunc frees exactly the blocks of inode n. That it verifies shows that bfree's panic is unreachable. */
    method Itrunc(n: nat)
      requires Valid() && n < |inodes|
      modifies this`bitmap, this`inodes, this`dinodes, this`owner, this`logged
      ensures Valid() && OthersKept(L, old(T()), T(), n) && Content(L, T(), n) == []
      ensures forall k: nat | k <= INDIRECT :: Addr(T(), n, k) == 0
      ensures dinodes == old(dinodes)[n := inodes[n]]
      ensures Bare(inodes[n]) && inodes[n].typ == old(inodes)[n].typ && inodes[n].nlink == old(inodes)[n].nlink
    {
      ghost var t0 := T();
      TruncDirect(n);
      TruncIndirect(n);
      ghost var t := T();
      inodes := inodes[n := inodes[n].(size := 0)];
      ResizedSlots(L, t, n, 0);
      assert T() == Resized(t, n, 0);
      assert forall k: nat | k <= INDIRECT :: Addr(T(), n, k) == 0;
      assert Emptied(L, t0, T(), n);
      EmptiedKeepsFiles(L, t0, T(), n);
      Iupdate(n);
      Synced(t0, T(), n);
    }

    /** ialloc: the first free inode, cleared, or 0 if there is none. A free inode has no blocks, so none are lost. */
    method Ialloc(typ: nat) returns (inum: nat)
      requires Valid() && Vacant(inodes) && typ != 0
      modifies this`inodes, this`dinodes, this`logged
      ensures Valid() && Vacant(inodes)
      ensures inum == 0 ==> T() == old(T()) && forall n: nat | 1 <= n < |inodes| :: inodes[n].typ != 0
      ensures inum != 0 ==>
              inum < |old(inodes)| && old(inodes)[inum].typ == 0 && inodes == old(inodes)[inum := Fresh(typ)]
      ensures inum != 0 ==> inodes[inum].typ == typ && inodes[inum].nlink == 0 && Bare(inodes[inum])
      ensures inum != 0 ==> OthersKept(L, old(T()), T(), inum) && Content(L, T(), inum) == []
      ensures inum != 0 ==> forall n: nat | 1 <= n < inum :: inodes[n].typ != 0
    {
      inum := 1;
      while inum < |dinodes|
        invariant 1 <= inum && T() == old(T()) && Valid()
        invariant forall n: nat | 1 <= n < inum && n < |inodes| :: inodes[n].typ != 0
      {
        if dinodes[inum].typ == 0 {
          ghost var t := T();
          dinodes := dinodes[inum := Fresh(typ)];
          logged := logged + {IBlock(inum)};
          inodes := inodes[inum := Fresh(typ)];
          BareSwap(L, t, T(), inum, Fresh(typ));
          VacantKept(t.inodes, inodes, inum);
          return;
        }
        inum := inum + 1;
      }
      inum := 0;
    }

    /** The part of iput that gives up an inode: with the last reference and without links, its blocks are free again
        and it is a free inode. */
    method Iput(n: nat, last: bool) returns (gone: bool)
      requires Valid() && Vacant(inodes) && n < |inodes| && inodes[n].typ != 0
      modifies this`bitmap, this`inodes, this`dinodes, this`owner, this`logged
      ensures Valid() && Vacant(inodes) && (gone <==> last && old(inodes)[n].nlink == 0)
      ensures !gone ==> T() == old(T()) && bitmap == old(bitmap)
      ensures gone ==> OthersKept(L, old(T()), T(), n) && inodes[n].typ == 0 && Content(L, T(), n) == []
      ensures gone ==> forall b: nat | b in owner :: owner[b].inum != n
    {
      gone := last && inodes[n].nlink == 0;
      if !gone { return; }
      ghost var t := T();
      Itrunc(n);
      ghost var u := T();
      inodes := inodes[n := inodes[n].(typ := 0)];
      Iupdate(n);
      BareSwap(L, u, T(), n, inodes[n]);
      OthersTransitive(L, t, u, T(), n);
      VacantKept(t.inodes, inodes, n);
      NoBlocks(T(), n);
    }

    lemma NoBlocks(t: Tree, n: nat)
      requires Owned(L, t) && n < |t.inodes| && Bare(t.inodes[n])
      ensures forall b: nat | b in t.owner :: t.owner[b].inum != n
    {
      assert Open(0);
    }

    /** Why a write of n1 bytes at off may end early: the source ends, the disk is full, or the file would have a hole
        or be too long. */
    ghost predicate Ends(len: nat, size: nat, off: nat, n1: int)
      reads this`bitmap
    {
      forall k: nat {:trigger Open(k)} :: Open(k) ==> len < n1 || Full() || size < off || off + n1 > MAXFILE * BSIZE
    }

    /** done bytes have changed where got were counted: the same, unless the source ended. */
    ghost predicate Ragged(len: nat, got: nat, done: nat, want: int) {
      got <= done && (done > got ==> done <= len < want && done < got + BSIZE)
    }

    /** begin_op, writei, end_op: one chunk of filewrite. */
    method WriteOp(ghost t0: Tree, n: nat, src: seq<byte>, ghost off0: nat, off: nat, i: nat, n1: nat)
      returns (r: int, ghost got: nat, ghost done: nat)
      requires Valid() && Advanced(L, t0, T(), n, src, off0, i) && off == off0 + i && off < TWO32 && n1 <= 3 * BSIZE
      modifies this
      ensures r <= n1 && Valid() && Advanced(L, t0, T(), n, src, off0, done) && got == (if r > 0 then i + r else i)
      ensures Ragged(|src|, got, done, i + n1) && (r == n1 ==> Covered(old(blocks), blocks, logged))
      ensures ops == old(ops) + [logged] && |logged| <= MAXOPBLOCKS && (L.size <= BPB ==> |logged| <= 7)
      ensures r < n1 ==> Ends(|src| - i, old(inodes)[n].size, off, n1)
    {
      BeginOp();
      r, got, done := WriteAt(t0, n, src, off0, off, i, n1, src[i..]);
      EndOp();
    }

    method WriteAt(ghost t0: Tree, n: nat, src: seq<byte>, ghost off0: nat, off: nat, i: nat, n1: nat, rest: seq<byte>)
      returns (r: int, ghost got: nat, ghost done: nat)
      requires Valid() && Advanced(L, t0, T(), n, src, off0, i) && off == off0 + i && off < TWO32 && n1 <= 3 * BSIZE
      requires logged == {} && i <= |src| && rest == src[i..]
      modifies this`bitmap, this`blocks, this`inodes, this`dinodes, this`owner, this`logged
      ensures r <= n1 && Valid() && Advanced(L, t0, T(), n, src, off0, done) && got == (if r > 0 then i + r else i)
      ensures Ragged(|src|, got, done, i + n1) && (r == n1 ==> Covered(old(blocks), blocks, logged))
      ensures |logged| <= MAXOPBLOCKS && (L.size <= BPB ==> |logged| <= 7)
      ensures r < n1 ==> Ends(|src| - i, old(inodes)[n].size, off, n1)
    {
      ghost var t := T();
      ghost var touched, more, lost;
      r, touched, more, lost := Writei(n, rest, off, n1);
      SubsetCard(logged, touched);
      got, done := i, i;
      if r >= 0 {
        got, done := i + r, i + more;
        AdvancedStep(L, t0, t, T(), n, src, off0, off, i, more, done);
        OpCounts(|rest|, n1, off, t.inodes[n].size, r, more, i, got, done);
      } else {
        RejectedEnds(|rest|, t.inodes[n].size, off, n1);
      }
      if r == n1 { assert logged + lost == logged; }
    }

    ghost method BeginOp()
      requires Valid()
      modifies this`logged
      ensures Valid() && logged == {} && T() == old(T())
    {
      logged := {};
    }

    ghost method EndOp()
      requires Valid()
      modifies this`ops
      ensures Valid() && ops == old(ops) + [logged] && T() == old(T())
    {
      ops := ops + [logged];
    }

    lemma OpCounts(len: nat, n1: nat, off: nat, size: nat, r: nat, more: nat, i: nat, got: nat, done: nat)
      requires Wrote(Full(), len, n1, off, size, r, more) && got == i + r && done == i + more
      ensures Ragged(len + i, got, done, i + n1) && (r < n1 ==> Ends(len, size, off, n1))
    {
    }

    lemma RejectedEnds(len: nat, size: nat, off: nat, n1: nat)
      requires off > size || (off + n1) % TWO32 < off || (off + n1) % TWO32 > MAXFILE * BSIZE
      requires off < TWO32 && n1 <= 3 * BSIZE
      ensures Ends(len, size, off, n1)
    {
    }

    /** Where writing has got to lies within the file, unless it started past the end. */
    lemma Reached(t0: Tree, t: Tree, n: nat, src: seq<byte>, off0: nat, i: nat)
      requires Advanced(L, t0, t, n, src, off0, i)
      ensures t.inodes[n].size < off0 + i ==> t0.inodes[n].size < off0
      ensures i > 0 ==> off0 + i <= MAXFILE * BSIZE
    {
      if i > 0 { AdvancedPosition(L, t0, t, n, src, off0, i); }
    }

    lemma EndsWhole(len: nat, i: nat, size0: nat, size: nat, off0: nat, off: nat, n1: nat, cnt: nat)
      requires i <= len && Ends(len - i, size, off, n1) && (size < off ==> size0 < off0) && off == off0 + i
               && n1 <= cnt - i
      ensures Ends(len, size0, off0, cnt)
    {
      assert Open(0);
    }

    /** One round of filewrite's loop. */
    method WriteNext(ghost t0: Tree, n: nat, src: seq<byte>, ghost off0: nat, off: nat, i: nat, cnt: nat,
        ghost was: seq<set<nat>>)
      returns (r: int, n1: nat, ghost got: nat, ghost done: nat)
      requires Valid() && Advanced(L, t0, T(), n, src, off0, i) && off == off0 + i && off0 < TWO32
               && i < cnt < 0x8000_0000
      requires Within(was, ops, L.size <= BPB) && i <= 3 * BSIZE * (|ops| - |was|)
      modifies this
      ensures r <= n1 <= cnt - i && 0 < n1 && Valid() && Advanced(L, t0, T(), n, src, off0, done)
              && got == (if r > 0 then i + r else i)
      ensures Ragged(|src|, got, done, cnt) && (r == n1 ==> done == got)
      ensures Within(was, ops, L.size <= BPB) && got <= 3 * BSIZE * (|ops| - |was|)
      ensures r < n1 ==> Ends(|src|, t0.inodes[n].size, off0, cnt)
    {
      var max := (MAXOPBLOCKS - 1 - 1 - 2) / 2 * BSIZE;
      n1 := if cnt - i > max then max else cnt - i;
      Reached(t0, T(), n, src, off0, i);
      ghost var size := inodes[n].size;
      r, got, done := WriteOp(t0, n, src, off0, off, i, n1);
      OneMore(was, old(ops), ops, logged, L.size <= BPB, i, got);
      if r < n1 { EndsWhole(|src|, i, t0.inodes[n].size, size, off0, off, n1, cnt); }
    }

    /** filewrite on an inode: chunks of at most three blocks, each its own transaction. The offset moves by what was
        counted as written; that is less than cnt only for one of the reasons above, and then a few bytes more may have
        changed. */
    method FileWrite(n: nat, src: seq<byte>, off0: nat, cnt: int) returns (ret: int, off: nat, ghost done: nat)
      requires Valid() && n < |inodes| && off0 < TWO32 && cnt < 0x8000_0000
      modifies this
      ensures Valid() && Advanced(L, old(T()), T(), n, src, off0, done)
      ensures off0 <= off && ret == (if off - off0 == cnt then cnt else -1) && Ragged(|src|, off - off0, done, cnt)
      ensures off - off0 < cnt ==> Ends(|src|, old(inodes)[n].size, off0, cnt)
      ensures Within(old(ops), ops, L.size <= BPB) && off - off0 <= 3 * BSIZE * (|ops| - |old(ops)|)
    {
      var i := 0;
      off, done := off0, 0;
      ghost var t0 := T();
      while i < cnt
        invariant done == i && (cnt >= 0 ==> i <= cnt) && off == off0 + done && Valid()
                  && Advanced(L, t0, T(), n, src, off0, done)
        invariant Within(old(ops), ops, L.size <= BPB) && done <= 3 * BSIZE * (|ops| - |old(ops)|)
      {
        var r, n1;
        ghost var got;
        r, n1, got, done := WriteNext(t0, n, src, off0, off, i, cnt, old(ops));
        if r > 0 {
          off := off + r;
        }
        if r != n1 {
          break;
        }
        i := i + r;
      }
      ret := if i == cnt then cnt else -1;
    }
  }
}
