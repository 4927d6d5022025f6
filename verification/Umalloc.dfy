/** user/umalloc.c: the Kernighan and Ritchie allocator. Addresses and sizes are in units of sizeof(Header). */
module Umalloc {

  // ---- the circular free list ----

  function Succ(f: seq<nat>, k: nat): nat
    requires k < |f|
  {
    if k + 1 < |f| then f[k + 1] else f[0]
  }

  ghost predicate Sorted(f: seq<nat>) { forall i: nat, j: nat | i < j < |f| :: f[i] < f[j] }

  /** The headers in f, in address order, are linked in a circle. */
  ghost predicate Circle(f: seq<nat>, ptr: map<nat, nat>) {
    && f != [] && Sorted(f) && (forall k: nat | k < |f| :: f[k] in ptr)
    && forall k: nat {:trigger ptr[f[k]]} | k < |f| :: ptr[f[k]] == Succ(f, k)
  }

  /** No free block touches the next one: the list is fully coalesced. */
  ghost predicate Coalesced(f: seq<nat>, size: map<nat, nat>) {
    && (forall k: nat | k < |f| :: f[k] in size)
    && forall k: nat {:trigger size[f[k]]} | k + 1 < |f| :: f[k] + size[f[k]] < f[k + 1]
  }

  /** The position after which a block at bp belongs. */
  ghost function Place(f: seq<nat>, bp: nat): (k: nat)
    requires Sorted(f) && f != [] && f[0] < bp
    ensures k < |f| && f[k] < bp && (k + 1 < |f| ==> bp <= f[k + 1])
  {
    if |f| == 1 || f[|f| - 1] < bp then |f| - 1 else Place(f[..|f| - 1], bp)
  }

  /** The free list: in address order, in a circle, fully coalesced. */
  ghost predicate FreeList(f: seq<nat>, ptr: map<nat, nat>, size: map<nat, nat>) {
    Circle(f, ptr) && Coalesced(f, size)
  }

  ghost function Inserted(f: seq<nat>, k: nat, bp: nat): seq<nat>
    requires k < |f|
  {
    f[..k + 1] + [bp] + f[k + 1..]
  }

  ghost function Removed(f: seq<nat>, k: nat): seq<nat>
    requires k < |f|
  {
    f[..k] + f[k + 1..]
  }

  lemma InsertSorted(f: seq<nat>, k: nat, bp: nat)
    requires Sorted(f) && k < |f| && f[k] < bp && (k + 1 < |f| ==> bp < f[k + 1])
    ensures Sorted(Inserted(f, k, bp))
  {
    var g := Inserted(f, k, bp);
    forall i: nat, j: nat | i < j < |g| ensures g[i] < g[j] {
      assert g[i] == if i <= k then f[i] else if i == k + 1 then bp else f[i - 1];
      assert g[j] == if j <= k then f[j] else if j == k + 1 then bp else f[j - 1];
      assert i <= k ==> f[i] <= f[k];
      assert j > k + 1 ==> f[k + 1] <= f[j - 1];
    }
  }

  lemma InsertedAt(f: seq<nat>, k: nat, bp: nat, g: seq<nat>, i: nat)
    requires k < |f| && g == Inserted(f, k, bp) && i < |g|
    ensures |g| == |f| + 1 && g[i] == if i <= k then f[i] else if i == k + 1 then bp else f[i - 1]
  {
  }

  lemma InsertedSucc(f: seq<nat>, k: nat, bp: nat, g: seq<nat>, i: nat)
    requires k < |f| && g == Inserted(f, k, bp) && i < |g|
    ensures Succ(g, i) == if i < k then Succ(f, i) else if i == k then bp else Succ(f, i - 1)
  {
    InsertedAt(f, k, bp, g, 0);
    var j := i + 1;
    if j < |g| { InsertedAt(f, k, bp, g, j); }
  }

  lemma InsertCircleAt(f: seq<nat>, ptr: map<nat, nat>, k: nat, bp: nat, g: seq<nat>, q: map<nat, nat>, i: nat)
    requires Circle(f, ptr) && k < |f| && f[k] < bp && (k + 1 < |f| ==> bp < f[k + 1]) && g == Inserted(f, k, bp)
    requires q == ptr[bp := ptr[f[k]]][f[k] := bp] && i < |g|
    ensures g[i] in q && q[g[i]] == Succ(g, i)
  {
    InsertedAt(f, k, bp, g, i);
    InsertedSucc(f, k, bp, g, i);
    if i < k {
      assert f[i] < f[k];
    } else if i > k + 1 {
      var j := i - 1;
      assert g[i] == f[j] && f[k] < f[j] && bp < f[j] by { assert k + 1 == j || f[k + 1] < f[j]; }
      assert ptr[f[j]] == Succ(f, j);
    }
  }

  lemma InsertCircle(f: seq<nat>, ptr: map<nat, nat>, k: nat, bp: nat)
    requires Circle(f, ptr) && k < |f| && f[k] < bp && (k + 1 < |f| ==> bp < f[k + 1])
    ensures Circle(Inserted(f, k, bp), ptr[bp := ptr[f[k]]][f[k] := bp])
  {
    InsertSorted(f, k, bp);
    var g, q := Inserted(f, k, bp), ptr[bp := ptr[f[k]]][f[k] := bp];
    forall i: nat | i < |g| ensures g[i] in q && q[g[i]] == Succ(g, i) {
      InsertCircleAt(f, ptr, k, bp, g, q, i);
    }
  }

  lemma InsertList(f: seq<nat>, ptr: map<nat, nat>, size: map<nat, nat>, k: nat, bp: nat)
    requires FreeList(f, ptr, size) && k < |f| && bp in size && f[k] + size[f[k]] < bp
             && (k + 1 < |f| ==> bp + size[bp] < f[k + 1])
    ensures FreeList(Inserted(f, k, bp), ptr[bp := ptr[f[k]]][f[k] := bp], size)
  {
    InsertCircle(f, ptr, k, bp);
    var g := Inserted(f, k, bp);
    forall i: nat {:trigger g[i]} | i < |g| ensures g[i] in size && (i + 1 < |g| ==> g[i] + size[g[i]] < g[i + 1]) {
      if i <= k { assert g[i] == f[i]; } else if i > k + 1 { assert g[i] == f[i - 1]; }
    }
  }

  lemma RemoveSorted(f: seq<nat>, k: nat)
    requires Sorted(f) && 0 < k < |f|
    ensures Sorted(Removed(f, k))
  {
    var g := Removed(f, k);
    forall i: nat, j: nat | i < j < |g| ensures g[i] < g[j] {
      assert g[i] == f[if i < k then i else i + 1];
      assert g[j] == f[if j < k then j else j + 1];
    }
  }

  lemma RemovedAt(f: seq<nat>, k: nat, g: seq<nat>, i: nat)
    requires k < |f| && g == Removed(f, k) && i < |g|
    ensures |g| == |f| - 1 && g[i] == f[if i < k then i else i + 1]
  {
  }

  lemma RemovedSucc(f: seq<nat>, k: nat, g: seq<nat>, i: nat)
    requires 0 < k < |f| && g == Removed(f, k) && i < |g|
    ensures Succ(g, i) == if i + 1 == k then Succ(f, k) else Succ(f, if i < k then i else i + 1)
  {
  }

  lemma RemoveCircleAt(f: seq<nat>, ptr: map<nat, nat>, k: nat, g: seq<nat>, q: map<nat, nat>, i: nat)
    requires Circle(f, ptr) && 0 < k < |f| && g == Removed(f, k) && i < |g|
    requires q == ptr[f[k - 1] := ptr[f[k]]]
    ensures g[i] in q && q[g[i]] == Succ(g, i)
  {
    RemovedAt(f, k, g, i);
    RemovedSucc(f, k, g, i);
    if i + 1 < k {
      assert f[i] < f[k - 1];
    } else if i >= k {
      assert f[k - 1] < f[i + 1];
    }
  }

  lemma RemoveCircle(f: seq<nat>, ptr: map<nat, nat>, k: nat)
    requires Circle(f, ptr) && 0 < k < |f|
    ensures Circle(Removed(f, k), ptr[f[k - 1] := ptr[f[k]]])
  {
    RemoveSorted(f, k);
    var g, q := Removed(f, k), ptr[f[k - 1] := ptr[f[k]]];
    forall i: nat | i < |g| ensures g[i] in q && q[g[i]] == Succ(g, i) {
      RemoveCircleAt(f, ptr, k, g, q, i);
    }
  }

  lemma RemovedGap(f: seq<nat>, size: map<nat, nat>, k: nat, g: seq<nat>, i: nat)
    requires Sorted(f) && Coalesced(f, size) && 0 < k < |f| && g == Removed(f, k) && i < |g|
    ensures g[i] in size && (i + 1 < |g| ==> g[i] + size[g[i]] < g[i + 1])
  {
    RemovedAt(f, k, g, i);
    var j := i + 1;
    if j < |g| {
      RemovedAt(f, k, g, j);
      var x := if i < k then i else j;
      assert f[x] + size[f[x]] < f[x + 1];
      if j == k { assert f[k] < f[k + 1]; }
    }
  }

  /** Taking f[k] out of the list. */
  lemma RemoveList(f: seq<nat>, ptr: map<nat, nat>, size: map<nat, nat>, k: nat)
    requires FreeList(f, ptr, size) && 0 < k < |f|
    ensures FreeList(Removed(f, k), ptr[f[k - 1] := ptr[f[k]]], size)
  {
    RemoveCircle(f, ptr, k);
    var g := Removed(f, k);
    forall i: nat {:trigger g[i]} | i < |g| ensures g[i] in size && (i + 1 < |g| ==> g[i] + size[g[i]] < g[i + 1]) {
      RemovedGap(f, size, k, g, i);
    }
  }

  /** A block that is not in the list can be written to. */
  lemma OutsideList(f: seq<nat>, ptr: map<nat, nat>, size: map<nat, nat>, bp: nat, a: nat, n: nat)
    requires FreeList(f, ptr, size) && bp !in f
    ensures FreeList(f, ptr[bp := a], size) && FreeList(f, ptr, size[bp := n])
            && FreeList(f, ptr[bp := a], size[bp := n])
  {
  }

  /** A block in the list changes its size. */
  lemma ResizeList(f: seq<nat>, ptr: map<nat, nat>, size: map<nat, nat>, k: nat, n: nat)
    requires FreeList(f, ptr, size) && k < |f| && (k + 1 < |f| ==> f[k] + n < f[k + 1])
    ensures FreeList(f, ptr, size[f[k] := n])
  {
  }

  // ---- blocks tile the arena ----

  ghost predicate InBlock(blocks: map<nat, nat>, a: nat, u: nat) { a in blocks && a <= u < a + blocks[a] }

  /** owner gives the block of each unit: every unit is in exactly one block. */
  ghost predicate Tiles(owner: map<nat, nat>, blocks: map<nat, nat>) {
    && (forall u: nat | u in owner :: InBlock(blocks, owner[u], u))
    && (forall a: nat, u: nat | InBlock(blocks, a, u) :: u in owner && owner[u] == a)
    && (forall a: nat | a in blocks :: blocks[a] > 0)
  }

  /** Two blocks do not overlap. */
  lemma Apart(owner: map<nat, nat>, blocks: map<nat, nat>, a: nat, b: nat)
    requires Tiles(owner, blocks) && a in blocks && b in blocks && a < b
    ensures a + blocks[a] <= b
  {
    assert InBlock(blocks, b, b);
    assert InBlock(blocks, a, b) || a + blocks[a] <= b;
  }

  ghost function Given(owner: map<nat, nat>, a: nat, n: nat): map<nat, nat> {
    map u | u in owner :: if a <= u < a + n then a else owner[u]
  }

  lemma CutTiles(owner: map<nat, nat>, blocks: map<nat, nat>, a: nat, m: nat, b: nat, n: nat)
    requires Tiles(owner, blocks) && a in blocks && 0 < n && 0 < m && blocks[a] == m + n && b == a + m
    ensures b !in blocks && Tiles(Given(owner, b, n), blocks[a := m][b := n])
  {
    if b in blocks { Apart(owner, blocks, a, b); }
    var next, now := blocks[a := m][b := n], Given(owner, b, n);
    forall u: nat | u in now ensures InBlock(next, now[u], u) {
      assert InBlock(blocks, owner[u], u);
      assert b <= u < b + n ==> InBlock(blocks, a, u);
    }
    forall x: nat, u: nat | InBlock(next, x, u) ensures u in now && now[u] == x {
      assert InBlock(blocks, if x == b then a else x, u);
      assert b <= u < b + n ==> InBlock(blocks, a, u);
    }
  }

  ghost function Joined(blocks: map<nat, nat>, a: nat, b: nat): map<nat, nat>
    requires a in blocks && b in blocks
  {
    (blocks - {b})[a := blocks[a] + blocks[b]]
  }

  lemma Beside(owner: map<nat, nat>, blocks: map<nat, nat>, a: nat, b: nat, x: nat)
    requires Tiles(owner, blocks) && a in blocks && b in blocks && a + blocks[a] == b && x in blocks && x != a && x != b
    ensures x + blocks[x] <= a || b + blocks[b] <= x
  {
    if x < a { Apart(owner, blocks, x, a); } else { Apart(owner, blocks, a, x); Apart(owner, blocks, b, x); }
  }

  lemma JoinTiles(owner: map<nat, nat>, blocks: map<nat, nat>, a: nat, b: nat)
    requires Tiles(owner, blocks) && a in blocks && b in blocks && a + blocks[a] == b
    ensures Tiles(Given(owner, a, blocks[a] + blocks[b]), Joined(blocks, a, b))
  {
    var next, now := Joined(blocks, a, b), Given(owner, a, blocks[a] + blocks[b]);
    forall u: nat | u in now ensures InBlock(next, now[u], u) {
      assert InBlock(blocks, owner[u], u);
    }
    forall x: nat, u: nat | InBlock(next, x, u) ensures u in now && now[u] == x {
      if x != a { Beside(owner, blocks, a, b, x); }
      assert InBlock(blocks, if x == a && u >= b then b else x, u);
    }
  }

  /** owner with units a .. a + n given to a new block at a. */
  ghost function Extended(owner: map<nat, nat>, a: nat, n: nat): (o: map<nat, nat>)
    ensures forall u: nat :: u in o <==> u in owner || a <= u < a + n
    ensures forall u: nat | u in o :: o[u] == if a <= u < a + n then a else owner[u]
  {
    if n == 0 then owner else Extended(owner, a, n - 1)[a + n - 1 := a]
  }

  lemma GrowTiles(owner: map<nat, nat>, blocks: map<nat, nat>, a: nat, n: nat)
    requires Tiles(owner, blocks) && n > 0 && forall u | u in owner :: u < a
    ensures a !in blocks && Tiles(Extended(owner, a, n), blocks[a := n])
  {
    assert a in blocks ==> InBlock(blocks, a, a);
    var now, next := Extended(owner, a, n), blocks[a := n];
    forall u: nat | u in now ensures InBlock(next, now[u], u) {
      assert u in owner ==> InBlock(blocks, owner[u], u);
    }
    forall x: nat, u: nat | InBlock(next, x, u) ensures u in now && now[u] == x {
      assert x != a ==> InBlock(blocks, x, u);
    }
  }

  // ---- the heap ----

  /** Header fields by address; the free list; all blocks with their sizes, the units they own, and those in use. */
  datatype Heap = Heap(free: seq<nat>, ptr: map<nat, nat>, size: map<nat, nat>, blocks: map<nat, nat>,
      owner: map<nat, nat>, live: set<nat>)

  /** The free list starts at base, is circular, sorted and coalesced, and holds exactly the blocks not in use; free
      blocks and blocks in use partition the units; headers are right. */
  ghost predicate Good(base: nat, h: Heap) {
    && FreeList(h.free, h.ptr, h.size) && h.free[0] == base && h.size[base] == 0 && Tiles(h.owner, h.blocks)
    && (forall a: nat | a in h.blocks :: a in h.size && h.size[a] == h.blocks[a] && base < a)
    && h.blocks.Keys == h.live + (SetOf(h.free) - {base}) && h.live !! SetOf(h.free)
  }

  ghost function SetOf(f: seq<nat>): set<nat> { set a | a in f }

  lemma FreeBlock(base: nat, h: Heap, k: nat)
    requires Good(base, h) && k < |h.free|
    ensures h.free[k] in h.ptr && h.free[k] in h.size && h.free[k] !in h.live
    ensures h.free[k] != base ==> h.free[k] in h.blocks && h.blocks[h.free[k]] == h.size[h.free[k]]
    ensures k > 0 ==> h.free[k] != base
  {
    assert h.free[k] in SetOf(h.free);
    assert h.free[k] != base ==> h.free[k] in h.blocks.Keys;
  }

  lemma LiveBlock(base: nat, h: Heap, bp: nat)
    requires Good(base, h) && bp in h.live
    ensures bp in h.blocks && bp in h.size && h.blocks[bp] == h.size[bp] && base < bp && bp !in h.free
  {
    assert bp in h.blocks.Keys;
    assert bp in h.free ==> bp in SetOf(h.free);
  }

  /** A block in use lies between its neighbours in the free list. */
  lemma Neighbours(base: nat, h: Heap, k: nat, bp: nat)
    requires Good(base, h) && bp in h.live && k < |h.free| && h.free[k] < bp
             && (k + 1 < |h.free| ==> bp <= h.free[k + 1])
    ensures bp in h.blocks && h.free[k] + h.size[h.free[k]] <= bp
            && (k + 1 < |h.free| ==> bp + h.size[bp] <= h.free[k + 1])
  {
    LiveBlock(base, h, bp);
    FreeBlock(base, h, k);
    if h.free[k] != base {
      Apart(h.owner, h.blocks, h.free[k], bp);
    }
    if k + 1 < |h.free| {
      FreeBlock(base, h, k + 1);
      Apart(h.owner, h.blocks, bp, h.free[k + 1]);
    }
  }

  ghost function JoinUpper(h: Heap, k: nat, j: nat, bp: nat, n: nat): Heap
    requires k < |h.free| && j < |h.free| && h.free[j] in h.ptr && h.free[j] in h.blocks && bp in h.blocks
  {
    var nx := h.free[j];
    Heap(Removed(h.free, j), h.ptr[h.free[k] := h.ptr[nx]], h.size[bp := n], Joined(h.blocks, bp, nx),
        Given(h.owner, bp, n), h.live)
  }

  lemma JoinUpperList(f: seq<nat>, ptr: map<nat, nat>, size: map<nat, nat>, k: nat, j: nat, bp: nat, n: nat)
    requires FreeList(f, ptr, size) && j == k + 1 < |f| && bp !in f
    ensures FreeList(Removed(f, j), ptr[f[k] := ptr[f[j]]], size[bp := n]) && Removed(f, j)[0] == f[0]
  {
    RemoveList(f, ptr, size, j);
    var g := Removed(f, j);
    forall i: nat | i < |g| ensures g[i] != bp { RemovedAt(f, j, g, i); }
    OutsideList(g, ptr[f[k] := ptr[f[j]]], size, bp, 0, n);
  }

  /** The sizes and the sets of blocks, when nx becomes part of bp. */
  lemma JoinedBlocks(base: nat, h: Heap, bp: nat, nx: nat, n: nat, free: set<nat>)
    requires Good(base, h) && bp in h.live && nx in h.blocks && nx in SetOf(h.free) && nx != base && bp in h.blocks
             && bp in h.size
    requires n == h.blocks[bp] + h.blocks[nx] && free == SetOf(h.free) - {nx}
             && Joined(h.blocks, bp, nx) == (h.blocks - {nx})[bp := n]
    ensures var blocks, size := Joined(h.blocks, bp, nx), h.size[bp := n];
            && (forall a: nat | a in blocks :: a in size && size[a] == blocks[a] && base < a)
            && blocks.Keys == h.live + (free - {base}) && h.live !! free
  {
    assert bp in h.blocks.Keys && nx in h.blocks.Keys;
  }

  /** The free block after bp becomes part of it. */
  lemma JoinUpperGood(base: nat, h: Heap, k: nat, j: nat, bp: nat, n: nat)
    requires Good(base, h) && bp in h.live && j == k + 1 && j < |h.free| && bp in h.size && bp + h.size[bp] == h.free[j]
    requires n == h.size[bp] + h.size[h.free[j]]
    ensures h.free[j] in h.ptr && h.free[j] in h.blocks && bp in h.blocks && Good(base, JoinUpper(h, k, j, bp, n))
  {
    LiveBlock(base, h, bp);
    FreeBlock(base, h, j);
    var nx := h.free[j];
    JoinTiles(h.owner, h.blocks, bp, nx);
    JoinUpperList(h.free, h.ptr, h.size, k, j, bp, n);
    RemovedMembers(h.free, j);
    assert nx in SetOf(h.free);
    JoinedBlocks(base, h, bp, nx, n, SetOf(Removed(h.free, j)));
  }

  lemma RemovedMembers(f: seq<nat>, k: nat)
    requires Sorted(f) && k < |f|
    ensures SetOf(Removed(f, k)) == SetOf(f) - {f[k]}
  {
    var g := Removed(f, k);
    forall a: nat ensures a in g <==> a in f && a != f[k] {
      if a in f && a != f[k] {
        var i :| 0 <= i < |f| && f[i] == a;
        assert g[if i < k then i else i - 1] == a;
      }
      if a in g {
        var i :| 0 <= i < |g| && g[i] == a;
        assert f[if i < k then i else i + 1] == a;
      }
    }
  }

  lemma InsertedMembers(f: seq<nat>, k: nat, bp: nat)
    requires k < |f|
    ensures SetOf(Inserted(f, k, bp)) == SetOf(f) + {bp} && f[k] in Inserted(f, k, bp)
  {
    assert f == f[..k + 1] + f[k + 1..];
  }

  /** n is the size of the block that results. */
  ghost function JoinLower(h: Heap, k: nat, bp: nat, n: nat): Heap
    requires k < |h.free| && h.free[k] in h.blocks && bp in h.blocks
  {
    var p := h.free[k];
    Heap(h.free, h.ptr, h.size[p := n], Joined(h.blocks, p, bp), Given(h.owner, p, n), h.live - {bp})
  }

  /** bp becomes part of the free block before it. */
  lemma JoinLowerGood(base: nat, h: Heap, k: nat, bp: nat, n: nat)
    requires Good(base, h) && bp in h.live && k < |h.free| && bp in h.size && h.free[k] + h.size[h.free[k]] == bp
             && (k + 1 < |h.free| ==> bp + h.size[bp] < h.free[k + 1])
    requires n == h.size[h.free[k]] + h.size[bp]
    ensures h.free[k] in h.blocks && bp in h.blocks && Good(base, JoinLower(h, k, bp, n))
  {
    LiveBlock(base, h, bp);
    FreeBlock(base, h, k);
    JoinTiles(h.owner, h.blocks, h.free[k], bp);
    ResizeList(h.free, h.ptr, h.size, k, n);
  }

  ghost function Insert(h: Heap, k: nat, bp: nat): Heap
    requires k < |h.free| && h.free[k] in h.ptr
  {
    h.(free := Inserted(h.free, k, bp), ptr := h.ptr[bp := h.ptr[h.free[k]]][h.free[k] := bp], live := h.live - {bp})
  }

  /** bp goes into the list between two blocks it does not touch. */
  lemma InsertGood(base: nat, h: Heap, k: nat, bp: nat)
    requires Good(base, h) && bp in h.live && k < |h.free| && bp in h.size && h.free[k] + h.size[h.free[k]] < bp
             && (k + 1 < |h.free| ==> bp + h.size[bp] < h.free[k + 1])
    ensures h.free[k] in h.ptr && Good(base, Insert(h, k, bp))
  {
    LiveBlock(base, h, bp);
    FreeBlock(base, h, k);
    InsertList(h.free, h.ptr, h.size, k, bp);
    InsertedMembers(h.free, k, bp);
  }

  /** Live and free blocks partition the arena: each of its units lies in exactly one block, which is either in use or
      in the free list. */
  lemma Partitioned(base: nat, h: Heap, u: nat)
    requires Good(base, h) && u in h.owner
    ensures var a := h.owner[u];
            InBlock(h.blocks, a, u) && (a in h.live) != (a in h.free) && forall b: nat | InBlock(h.blocks, b, u) ::
            b == a
  {
    var a := h.owner[u];
    assert InBlock(h.blocks, a, u);
    assert a in h.blocks.Keys && (a in h.free <==> a in SetOf(h.free)) && a != base;
  }

  // ---- free ----

  /** k is where bp, a block in use, belongs in the free list. */
  ghost predicate Placed(base: nat, h: Heap, k: nat, bp: nat) {
    Good(base, h) && bp in h.live && k < |h.free| && h.free[k] < bp && (k + 1 < |h.free| ==> bp < h.free[k + 1])
  }

  lemma PlacedHeaders(base: nat, h: Heap, k: nat, bp: nat)
    requires Placed(base, h, k, bp)
    ensures bp in h.size && h.free[k] in h.size && h.free[k] in h.ptr && h.ptr[h.free[k]] == Succ(h.free, k)
    ensures Succ(h.free, k) in h.size && Succ(h.free, k) in h.ptr
    ensures bp + h.size[bp] == Succ(h.free, k) <==> k + 1 < |h.free| && bp + h.size[bp] == h.free[k + 1]
    ensures h.free[k] + h.size[h.free[k]] <= bp && (k + 1 < |h.free| ==> bp + h.size[bp] <= h.free[k + 1])
  {
    Neighbours(base, h, k, bp);
    LiveBlock(base, h, bp);
    FreeBlock(base, h, k);
    FreeBlock(base, h, if k + 1 < |h.free| then k + 1 else 0);
  }

  /** What free does not change: the units of the arena and the other blocks in use. */
  ghost predicate Same(h: Heap, g: Heap, bp: nat) {
    && g.owner.Keys == h.owner.Keys
    && forall a: nat | a in h.live && a != bp ::
       a in g.live && a in h.blocks && a in g.blocks && g.blocks[a] == h.blocks[a]
  }

  lemma SameTwice(f: Heap, g: Heap, h: Heap, bp: nat)
    requires Same(f, g, bp) && Same(g, h, bp)
    ensures Same(f, h, bp)
  {
  }

  lemma JoinUpperPlaced(base: nat, h: Heap, k: nat, j: nat, bp: nat, n: nat)
    requires Placed(base, h, k, bp) && j == k + 1 && j < |h.free| && bp in h.size && bp + h.size[bp] == h.free[j]
    requires h.free[j] in h.size && n == h.size[bp] + h.size[h.free[j]]
    ensures h.free[j] in h.ptr && h.free[j] in h.blocks && bp in h.blocks
    ensures var g := JoinUpper(h, k, j, bp, n);
            Placed(base, g, k, bp) && Same(h, g, bp) && g.live == h.live && Clear(g, k, bp) && g.free[k] == h.free[k]
  {
    JoinUpperGood(base, h, k, j, bp, n);
    var g := JoinUpper(h, k, j, bp, n);
    RemovedAt(h.free, j, g.free, k);
    UpperClear(h.free, h.size, k, j, bp, n);
    assert h.live <= h.blocks.Keys;
  }

  /** The block bp, grown to n, ends before the list goes on. */
  lemma UpperClear(f: seq<nat>, size: map<nat, nat>, k: nat, j: nat, bp: nat, n: nat)
    requires Sorted(f) && Coalesced(f, size) && j == k + 1 && j < |f| && f[j] in size && bp < f[j]
             && bp + n == f[j] + size[f[j]]
    ensures k + 1 < |Removed(f, j)| ==> bp + n < Removed(f, j)[k + 1]
  {
    if j < |Removed(f, j)| {
      RemovedAt(f, j, Removed(f, j), j);
      assert f[j] + size[f[j]] < f[j + 1];
    }
  }

  lemma LowerSame(base: nat, h: Heap, k: nat, bp: nat, n: nat)
    requires Placed(base, h, k, bp) && h.free[k] in h.blocks && bp in h.blocks
    ensures Same(h, JoinLower(h, k, bp, n), bp)
  {
  }

  /** Good does not look at the link of a block that is not in the list. */
  lemma OtherLink(base: nat, h: Heap, bp: nat, a: nat, ptr: map<nat, nat>)
    requires Good(base, h) && bp !in h.free && ptr == h.ptr[bp := a]
    ensures Good(base, h.(ptr := ptr))
  {
    OutsideList(h.free, h.ptr, h.size, bp, a, 0);
  }

  lemma PlaceOf(f: seq<nat>, bp: nat) returns (k: nat)
    requires Sorted(f) && f != [] && f[0] < bp && bp !in f
    ensures k < |f| && f[k] < bp && (k + 1 < |f| ==> bp < f[k + 1])
  {
    k := Place(f, bp);
    var j := k + 1;
    if j < |f| { assert f[j] in f; }
  }

  lemma FindPlace(base: nat, h: Heap, bp: nat) returns (k: nat)
    requires Good(base, h) && bp in h.live
    ensures Placed(base, h, k, bp)
  {
    LiveBlock(base, h, bp);
    k := PlaceOf(h.free, bp);
  }

  /** The two tests of free's loop succeed at the place of bp and nowhere else. */
  lemma StopsAt(f: seq<nat>, i: nat, k: nat, bp: nat)
    requires Sorted(f) && i < |f| && k < |f| && f[0] < bp && f[k] < bp && (k + 1 < |f| ==> bp < f[k + 1])
    ensures (f[i] < bp < Succ(f, i)) || (f[i] >= Succ(f, i) && (bp > f[i] || bp < Succ(f, i))) <==> i == k
  {
    if i < k {
      assert f[i + 1] <= f[k];
    } else if i > k {
      assert f[k + 1] <= f[i];
    }
    assert i + 1 == |f| ==> f[0] <= f[i];
  }

  /** bp does not touch the block after it. */
  ghost predicate Clear(h: Heap, k: nat, bp: nat) {
    k < |h.free| && bp in h.size && (k + 1 < |h.free| ==> bp + h.size[bp] < h.free[k + 1])
  }

  /** ptr is to, but that bp leads where p is to lead and p has yet to be set. */
  ghost predicate HalfLinked(ptr: map<nat, nat>, to: map<nat, nat>, p: nat, bp: nat) {
    p in ptr && bp in ptr && p in to && ptr[bp] == to[p] && ptr[p := 0] == to[bp := to[p]][p := 0]
  }

  lemma Relink(ptr: map<nat, nat>, to: map<nat, nat>, p: nat, bp: nat)
    requires HalfLinked(ptr, to, p, bp) && p != bp
    ensures ptr[p := bp] == to[bp := to[p]][p := bp] && ptr[p := ptr[bp]] == to[bp := to[p]]
  {
    var x := to[bp := to[p]];
    forall a: nat | a != p ensures (a in ptr <==> a in x) && (a in ptr ==> ptr[a] == x[a]) {
      assert a in ptr <==> a in ptr[p := 0];
    }
  }

  lemma HalfUpper(ptr: map<nat, nat>, p: nat, bp: nat, nx: nat)
    requires p in ptr && nx in ptr && p != bp
    ensures HalfLinked(ptr[bp := ptr[nx]], ptr[p := ptr[nx]], p, bp)
  {
  }

  lemma HalfSame(ptr: map<nat, nat>, p: nat, bp: nat)
    requires p in ptr && p != bp
    ensures HalfLinked(ptr[bp := ptr[p]], ptr, p, bp)
  {
  }

  /** Some free block is as big as bp was. */
  ghost predicate Fits(h: Heap, j: nat, bp: nat, size: map<nat, nat>) {
    bp in size && j < |h.free| && h.free[j] in h.size && h.size[h.free[j]] >= size[bp]
  }

  lemma Uppered(base: nat, h: Heap, k: nat, p: nat, bp: nat, ptr: map<nat, nat>, nx: nat, n: nat) returns (g: Heap)
    requires Placed(base, h, k, bp) && p == h.free[k] && ptr == h.ptr && nx == Succ(h.free, k) && bp in h.size
             && nx in h.size && nx in ptr
    requires bp + h.size[bp] == nx && n == h.size[bp] + h.size[nx]
    ensures Placed(base, g, k, bp) && Clear(g, k, bp) && g.free[k] == p && Same(h, g, bp) && g.live == h.live
            && g.size == h.size[bp := n]
    ensures HalfLinked(ptr[bp := ptr[nx]], g.ptr, p, bp)
  {
    PlacedHeaders(base, h, k, bp);
    var j := k + 1;
    JoinUpperPlaced(base, h, k, j, bp, n);
    g := JoinUpper(h, k, j, bp, n);
    HalfUpper(ptr, p, bp, nx);
  }

  lemma Untouched(base: nat, h: Heap, k: nat, p: nat, bp: nat, ptr: map<nat, nat>, nx: nat)
    requires Placed(base, h, k, bp) && p == h.free[k] && ptr == h.ptr && nx == Succ(h.free, k) && bp in h.size
             && bp + h.size[bp] != nx
    ensures Clear(h, k, bp) && Same(h, h, bp) && HalfLinked(ptr[bp := nx], h.ptr, p, bp)
  {
    PlacedHeaders(base, h, k, bp);
    HalfSame(ptr, p, bp);
    assert h.live <= h.blocks.Keys;
  }

  lemma Lowered(base: nat, g: Heap, k: nat, p: nat, bp: nat, ptr: map<nat, nat>, n: nat, ptr': map<nat, nat>,
      size': map<nat, nat>) returns (h: Heap)
    requires Placed(base, g, k, bp) && Clear(g, k, bp) && p == g.free[k] && HalfLinked(ptr, g.ptr, p, bp)
    requires p in g.size && bp in g.size && p + g.size[p] == bp && n == g.size[p] + g.size[bp]
             && ptr' == ptr[p := ptr[bp]] && size' == g.size[p := n]
    ensures Good(base, h) && p in h.free && h.ptr == ptr' && h.size == size' && Fits(h, k, bp, g.size)
    ensures Same(g, h, bp) && h.live == g.live - {bp}
  {
    LiveBlock(base, g, bp);
    JoinLowerGood(base, g, k, bp, n);
    LowerSame(base, g, k, bp, n);
    Relink(ptr, g.ptr, p, bp);
    OtherLink(base, JoinLower(g, k, bp, n), bp, g.ptr[p], ptr');
    h := JoinLower(g, k, bp, n).(ptr := ptr');
  }

  lemma Linked(base: nat, g: Heap, k: nat, p: nat, bp: nat, ptr: map<nat, nat>, ptr': map<nat, nat>,
      size: map<nat, nat>) returns (h: Heap)
    requires Placed(base, g, k, bp) && Clear(g, k, bp) && p == g.free[k] && HalfLinked(ptr, g.ptr, p, bp)
    requires size == g.size && p in size && p + size[p] != bp && ptr' == ptr[p := bp]
    ensures Good(base, h) && p in h.free && h.ptr == ptr' && h.size == size && Fits(h, k + 1, bp, size)
    ensures Same(g, h, bp) && h.live == g.live - {bp}
  {
    PlacedHeaders(base, g, k, bp);
    InsertGood(base, g, k, bp);
    InsertedMembers(g.free, k, bp);
    Relink(ptr, g.ptr, p, bp);
    h := Insert(g, k, bp);
    assert g.live <= g.blocks.Keys;
  }

  // ---- malloc ----

  /** What malloc does not change, but for the block bp it takes into use: the other blocks in use. */
  ghost predicate Taken(h: Heap, g: Heap, bp: nat, n: nat) {
    && bp !in h.live && g.live == h.live + {bp} && bp in g.blocks && g.blocks[bp] == n && g.owner.Keys == h.owner.Keys
    && forall a: nat | a in h.live :: a in h.blocks && a in g.blocks && g.blocks[a] == h.blocks[a]
  }

  /** A block that fits exactly leaves the list. */
  lemma TakeAll(base: nat, h: Heap, i: nat, k: nat, ptr: map<nat, nat>) returns (g: Heap)
    requires Good(base, h) && k == i + 1 && k < |h.free| && h.free[k] in h.ptr && h.free[k] in h.size
    requires ptr == h.ptr[h.free[i] := h.ptr[h.free[k]]]
    ensures h.free[i] in g.free && g.owner == h.owner && Good(base, g) && g.free == Removed(h.free, k) && g.ptr == ptr
            && g.size == h.size && Taken(h, g, h.free[k], h.size[h.free[k]])
  {
    FreeBlock(base, h, k);
    RemoveList(h.free, h.ptr, h.size, k);
    RemovedMembers(h.free, k);
    g := h.(free := Removed(h.free, k), ptr := ptr, live := h.live + {h.free[k]});
    RemovedAt(h.free, k, g.free, i);
    assert h.live <= h.blocks.Keys;
  }

  ghost function Tailed(h: Heap, p: nat, m: nat, bp: nat, n: nat, size: map<nat, nat>): Heap {
    h.(size := size, blocks := h.blocks[p := m][bp := n], owner := Given(h.owner, bp, n), live := h.live + {bp})
  }

  /** A bigger block gives up its tail: m units stay, the n units from bp on are taken. */
  lemma TakeTail(base: nat, h: Heap, k: nat, p: nat, n: nat, m: nat, bp: nat, size: map<nat, nat>)
    requires Good(base, h) && 0 < k < |h.free| && p == h.free[k] && p in h.size && 0 < n && 0 < m && h.size[p] == m + n
             && bp == p + m
    requires size == h.size[p := m][bp := n]
    ensures bp !in h.blocks && bp !in h.live && p in h.blocks && p !in h.live
            && Good(base, Tailed(h, p, m, bp, n, size))
  {
    FreeBlock(base, h, k);
    CutTiles(h.owner, h.blocks, p, m, bp, n);
    ResizeList(h.free, h.ptr, h.size, k, m);
    NotListed(base, h, bp);
    OutsideList(h.free, h.ptr, h.size[p := m], bp, 0, n);
  }

  lemma TailTaken(base: nat, h: Heap, p: nat, n: nat, m: nat, bp: nat, size: map<nat, nat>)
    requires Good(base, h) && bp !in h.blocks && bp !in h.live && p in h.blocks && p !in h.live
    ensures Taken(h, Tailed(h, p, m, bp, n, size), bp, n)
  {
    assert h.live <= h.blocks.Keys;
  }

  lemma TookTail(base: nat, h: Heap, k: nat, p: nat, n: nat, m: nat, bp: nat, size: map<nat, nat>) returns (g: Heap)
    requires Good(base, h) && 0 < k < |h.free| && p == h.free[k] && p in h.size && 0 < n && 0 < m && h.size[p] == m + n
             && bp == p + m
    requires size == h.size[p := m][bp := n]
    ensures Good(base, g) && g.free == h.free && g.ptr == h.ptr && g.size == size && Taken(h, g, bp, n)
  {
    TakeTail(base, h, k, p, n, m, bp, size);
    TailTaken(base, h, p, n, m, bp, size);
    g := Tailed(h, p, m, bp, n, size);
  }

  lemma NotListed(base: nat, h: Heap, bp: nat)
    requires Good(base, h) && bp !in h.blocks && bp != base
    ensures bp !in h.free && bp !in h.live
  {
    assert bp in h.free ==> bp in SetOf(h.free);
    assert bp !in h.blocks.Keys;
  }

  /** Units a .. a + n, above all others, become a block in use. */
  lemma NewCore(base: nat, h: Heap, a: nat, n: nat, size: map<nat, nat>) returns (g: Heap)
    requires Good(base, h) && base < a && 0 < n && (forall u: nat | u in h.owner :: u < a) && size == h.size[a := n]
    ensures Good(base, g) && a in g.live && a !in h.live && g.live == h.live + {a} && g.free == h.free && g.ptr == h.ptr
            && g.size == size
    ensures g.owner == Extended(h.owner, a, n)
    ensures forall x: nat | x in h.live :: x in h.blocks && x in g.blocks && g.blocks[x] == h.blocks[x]
  {
    GrowTiles(h.owner, h.blocks, a, n);
    NotListed(base, h, a);
    OutsideList(h.free, h.ptr, h.size, a, 0, n);
    g := h.(size := size, blocks := h.blocks[a := n], owner := Extended(h.owner, a, n), live := h.live + {a});
    assert h.live <= h.blocks.Keys;
  }

  /** The steps from position i round the circle to position x. */
  function Dist(n: nat, i: nat, x: nat): nat
    requires i < n && x < n
  {
    if i <= x then x - i else x + n - i
  }

  function Next(n: nat, i: nat): nat
    requires i < n
  {
    if i + 1 < n then i + 1 else 0
  }

  function Prev(n: nat, i: nat): nat
    requires i < n
  {
    if i > 0 then i - 1 else n - 1
  }

  /** One step round the circle comes one closer to everything but where it starts from, which is then farthest. */
  lemma DistStep(n: nat, i: nat, x: nat)
    requires i < n && x < n
    ensures Next(n, i) < n && Prev(n, Next(n, i)) == i && Dist(n, Next(n, i), x) == if i == x then n - 1
            else Dist(n, i, x) - 1
    ensures Dist(n, i, x) <= n - 1
  {
  }

  /** p is the header at position i, prevp the one before it, freep the one at position e. */
  ghost predicate Scanning(f: seq<nat>, i: nat, e: nat, p: nat, prevp: nat, freep: nat) {
    i < |f| && e < |f| && f[i] == p && f[e] == freep && f[Prev(|f|, i)] == prevp
  }

  /** If the list has a block that is big enough, position b is one, and the scan from i will come to it by e. */
  ghost predicate Ahead(h: Heap, i: nat, e: nat, b: nat, n: nat) {
    && i < |h.free| && e < |h.free| && b < |h.free| && h.free[b] in h.size && h.size[h.free[b]] >= n
    && Dist(|h.free|, i, b) <= Dist(|h.free|, i, e)
  }

  /** Every block the scan has passed since it left e, and that is all of them when it is back there, is too small. */
  ghost predicate TooSmall(h: Heap, i: nat, e: nat, n: nat) {
    && i < |h.free| && e < |h.free|
    && forall b: nat | b < |h.free| && Dist(|h.free|, b, e) > Dist(|h.free|, i, e) ::
       h.free[b] in h.size && h.size[h.free[b]] < n
  }

  /** No free block has n units. */
  ghost predicate NoneFits(h: Heap, n: nat) {
    forall b: nat | b < |h.free| :: h.free[b] in h.size && h.size[h.free[b]] < n
  }

  lemma TooSmallStart(h: Heap, e: nat, n: nat)
    requires e < |h.free|
    ensures TooSmall(h, Next(|h.free|, e), e, n)
  {
    DistStep(|h.free|, e, e);
    forall b: nat | b < |h.free| ensures Dist(|h.free|, b, e) <= |h.free| - 1 { DistStep(|h.free|, b, e); }
  }

  lemma TooSmallStep(h: Heap, i: nat, e: nat, n: nat)
    requires TooSmall(h, i, e, n) && h.free[i] in h.size && h.size[h.free[i]] < n
    ensures if i == e then NoneFits(h, n) else TooSmall(h, Next(|h.free|, i), e, n)
  {
    var m := |h.free|;
    DistStep(m, i, e);
    forall b: nat | b < m && Dist(m, b, e) >= Dist(m, i, e) ensures h.free[b] in h.size && h.size[h.free[b]] < n {
      if Dist(m, b, e) == Dist(m, i, e) { assert b == i; }
    }
  }

  datatype Option = None | Some(at: nat)

  function Units(nu: nat): nat { if nu < 4096 then 4096 else nu }

  /** No header is in the list twice. */
  lemma SamePosition(base: nat, h: Heap, i: nat, e: nat)
    requires Good(base, h) && i < |h.free| && e < |h.free|
    ensures h.free[i] == h.free[e] <==> i == e
  {
  }

  /** The blocks in use are still in use, and the same size. */
  ghost predicate LiveKept(h: Heap, g: Heap) {
    h.live <= g.live && forall a: nat | a in h.live :: a in h.blocks && a in g.blocks && g.blocks[a] == h.blocks[a]
  }

  /** The arena is what it was, with the new core if there is one. */
  ghost predicate Arena(h: Heap, g: Heap, more: bool, core: Option, n: nat) {
    if more then core.Some? && forall u: nat :: u in g.owner <==> u in h.owner || core.at <= u < core.at + Units(n)
    else g.owner.Keys == h.owner.Keys
  }

  /** bp, n units long, was not in use and is now; the other blocks in use are as they were. */
  ghost predicate Handed(h: Heap, g: Heap, bp: nat, n: nat) {
    LiveKept(h, g) && bp !in h.live && g.live == h.live + {bp} && bp in g.blocks && g.blocks[bp] == n
  }

  lemma Took(f: Heap, g: Heap, h: Heap, more: bool, core: Option, n: nat, bp: nat)
    requires LiveKept(f, g) && g.live == f.live && Arena(f, g, more, core, n) && Taken(g, h, bp, n)
    ensures Arena(f, h, more, core, n) && Handed(f, h, bp, n)
  {
    assert forall u: nat :: u in h.owner <==> u in g.owner.Keys;
  }

  lemma StillBelow(h: Heap, g: Heap, top: nat)
    requires g.owner.Keys == h.owner.Keys && forall u: nat | u in h.owner :: u < top
    ensures forall u: nat | u in g.owner :: u < top
  {
    assert forall u: nat | u in g.owner :: u in h.owner.Keys;
  }

  // ---- units and bytes ----

  /** The units malloc looks for. */
  function Wanted(nbytes: nat): nat { (nbytes + 15) / 16 + 1 }

  /** The block at bp has room for nbytes bytes from r on, behind its header, and less than a unit to spare. */
  ghost predicate Usable(h: Heap, bp: nat, r: nat, nbytes: nat) {
    && bp < r && bp in h.blocks && nbytes <= 16 * (bp + h.blocks[bp] - r) < nbytes + 16
    && forall u: nat | r <= u && 16 * (u - r) < nbytes :: u in h.owner && h.owner[u] == bp
  }

  lemma HandedUsable(base: nat, f: Heap, h: Heap, bp: nat, nbytes: nat)
    requires Good(base, h) && Handed(f, h, bp, Wanted(nbytes))
    ensures Usable(h, bp, bp + 1, nbytes)
  {
    forall u: nat | bp + 1 <= u && 16 * (u - bp - 1) < nbytes ensures u in h.owner && h.owner[u] == bp {
      assert InBlock(h.blocks, bp, u);
    }
  }

  /** What an int makes of x: sbrk takes an int. */
  function AsInt(x: nat): int { (x + 0x8000_0000) % 0x1_0000_0000 - 0x8000_0000 }

  /** morecore asks sbrk for the bytes it then frees if and only if the request is at most 0x7fff_ffe0 bytes. */
  lemma SbrkFits(nbytes: nat)
    requires nbytes < 0x1_0000_0000
    ensures AsInt(16 * Units(Wanted(nbytes))) == 16 * Units(Wanted(nbytes)) <==> nbytes <= 0x7fff_ffe0
  {
  }

  /** The largest request: sbrk is asked for 16 bytes, and 268435457 units are freed. */
  lemma HugeRequest()
    ensures AsInt(16 * Units(Wanted(0xffff_ffff))) == 16 && Units(Wanted(0xffff_ffff)) == 268435457
  {
  }

  class Allocator {
    const base: nat
    var ptr: map<nat, nat>
    var size: map<nat, nat>
    var freep: nat          // 0 before the first malloc
    ghost var heap: Heap
    ghost var top: nat      // the break, in units

    ghost predicate Valid()
      reads this
    {
      && 0 < base < top && (forall u: nat | u in heap.owner :: u < top)
      && if freep == 0 then heap.blocks == map[] && heap.live == {} && heap.owner == map[]
         else Good(base, heap) && heap.ptr == ptr && heap.size == size && freep in heap.free
    }

    /** Before the first call: no list yet, and nothing in use. The break is above base, which is in the data
        segment. */
    constructor (b: nat, brk: nat)
      requires 0 < b < brk
      ensures Valid() && base == b && top == brk && freep == 0 && heap.live == {} && heap.owner == map[]
    {
      base, ptr, size, freep, top := b, map[], map[], 0, brk;
      heap := Heap([], map[], map[], map[], map[], {});
    }

    /** malloc's first call: the list holds base alone. */
    method Start()
      requires Valid() && freep == 0
      modifies this`ptr, this`size, this`freep, this`heap
      ensures Valid() && freep == base && heap.free == [base] && heap.live == {} && heap.owner == map[]
              && heap.blocks == map[]
    {
      ptr, size, freep := ptr[base := base], size[base := 0], base;
      heap := Heap([base], ptr, size, map[], map[], {});
    }

    /** The block p after prevp is big enough: it is taken whole, or gives up its tail. */
    method Take(prevp: nat, p: nat, nunits: nat, ghost k: nat) returns (bp: nat)
      requires Valid() && freep != 0 && 0 < k < |heap.free| && p == heap.free[k] && prevp == heap.free[k - 1]
               && p in size && size[p] >= nunits > 0
      modifies this`ptr, this`size, this`freep, this`heap
      ensures Valid() && freep != 0 && Taken(old(heap), heap, bp, nunits)
    {
      FreeBlock(base, heap, k);
      FreeBlock(base, heap, k - 1);
      if size[p] == nunits {
        bp := p;
        TakeWhole(prevp, p, k - 1, k);
      } else {
        bp := TakeEnd(p, nunits, k);
      }
      freep := prevp;
    }

    method TakeWhole(prevp: nat, p: nat, ghost i: nat, ghost k: nat)
      requires Valid() && freep != 0 && k == i + 1 && k < |heap.free| && p == heap.free[k] && prevp == heap.free[i]
               && p in ptr && p in size
      modifies this`ptr, this`freep, this`heap
      ensures Valid() && freep != 0 && prevp in heap.free && Taken(old(heap), heap, p, size[p])
    {
      var ptr' := ptr[prevp := ptr[p]];
      ghost var g := TakeAll(base, heap, i, k, ptr');
      Relinked(g, prevp, ptr');
    }

    /** The new list, with its links. */
    method Relinked(ghost g: Heap, prevp: nat, ptr': map<nat, nat>)
      requires 0 < base < top && Good(base, g) && g.ptr == ptr' && g.size == size && prevp in g.free && prevp != 0
      requires forall u: nat | u in g.owner :: u < top
      modifies this`ptr, this`freep, this`heap
      ensures Valid() && heap == g && freep == prevp
    {
      heap := g;
      ptr := ptr';
      freep := prevp;
    }

    method TakeEnd(p: nat, nunits: nat, ghost k: nat) returns (bp: nat)
      requires Valid() && freep != 0 && 0 < k < |heap.free| && p == heap.free[k] && p in size && size[p] > nunits > 0
      modifies this`size, this`heap
      ensures Valid() && freep != 0 && heap.free == old(heap).free && Taken(old(heap), heap, bp, nunits)
    {
      ghost var h := heap;
      var m := size[p] - nunits;
      bp := p + m;
      var size' := size[p := m][bp := nunits];
      heap := TookTail(base, h, k, p, nunits, m, bp, size');
      size := size';
      StillBelow(h, heap, top);
    }

    /** free's search ends at the place where bp belongs, from wherever freep is. */
    method Search(bp: nat) returns (p: nat, ghost k: nat)
      requires Valid() && freep != 0 && bp in heap.live
      ensures Placed(base, heap, k, bp) && p == heap.free[k]
    {
      ghost var f := heap.free;
      ghost var i: nat :| i < |f| && f[i] == freep;
      k := FindPlace(base, heap, bp);
      p := freep;
      while !(bp > p && bp < ptr[p])
        invariant i < |f| && p == f[i]
        decreases if i <= k then k - i else k + |f| - i
      {
        StopsAt(f, i, k, bp);
        if p >= ptr[p] && (bp > p || bp < ptr[p]) { break; }
        p := ptr[p];
        i := if i + 1 < |f| then i + 1 else 0;
      }
      StopsAt(f, i, k, bp);
    }

    /** The second half of free: bp joins the block before it or goes into the list. g is the heap in which p already
        leads past a block that bp has absorbed. */
    method LinkLower(ghost g: Heap, ghost k: nat, p: nat, bp: nat) returns (ghost j: nat)
      requires Placed(base, g, k, bp) && Clear(g, k, bp) && p == g.free[k] && size == g.size
               && HalfLinked(ptr, g.ptr, p, bp)
      modifies this`ptr, this`size, this`freep, this`heap
      ensures Good(base, heap) && heap.ptr == ptr && heap.size == size && freep in heap.free && Same(g, heap, bp)
              && heap.live == g.live - {bp}
      ensures Fits(heap, j, bp, old(size))
    {
      PlacedHeaders(base, g, k, bp);
      if p + size[p] == bp {
        var n := size[p] + size[bp];
        var ptr', size' := ptr[p := ptr[bp]], size[p := n];
        heap := Lowered(base, g, k, p, bp, ptr, n, ptr', size');
        j := k;
        ptr, size := ptr', size';
      } else {
        var ptr' := ptr[p := bp];
        heap := Linked(base, g, k, p, bp, ptr, ptr', size);
        j := k + 1;
        ptr := ptr';
      }
      freep := p;
    }

    /** free(ap): the block whose header precedes ap is free, no other block in use has changed, and no unit is lost. */
    method Free(ap: nat) returns (ghost j: nat)
      requires Valid() && ap > 0 && ap - 1 in heap.live && freep != 0
      modifies this`ptr, this`size, this`freep, this`heap
      ensures Valid() && freep != 0 && Same(old(heap), heap, ap - 1) && heap.live == old(heap).live - {ap - 1}
      ensures Fits(heap, j, ap - 1, old(size))
    {
      var bp := ap - 1;
      ghost var h := heap;
      var p;
      ghost var k;
      p, k := Search(bp);
      PlacedHeaders(base, h, k, bp);
      var nx := ptr[p];
      ghost var g := h;
      if bp + size[bp] == nx {
        var n := size[bp] + size[nx];
        g := Uppered(base, h, k, p, bp, ptr, nx, n);
        size := size[bp := n];
        ptr := ptr[bp := ptr[nx]];
      } else {
        Untouched(base, h, k, p, bp, ptr, nx);
        ptr := ptr[bp := nx];
      }
      j := LinkLower(g, k, p, bp);
      SameTwice(h, g, heap, bp);
      assert forall u: nat | u in heap.owner :: u in h.owner.Keys;
    }

    /** morecore: sbrk gives nu units, at least 4096, at core, and they go into the free list. core is where sbrk puts
        them, None if it fails. */
    method Morecore(nu: nat, core: Option) returns (p: nat, ghost j: nat)
      requires Valid() && freep != 0 && 0 < nu && (core.Some? ==> core.at >= top)
      modifies this`ptr, this`size, this`freep, this`heap, this`top
      ensures Valid() && freep != 0 && heap.live == old(heap).live && LiveKept(old(heap), heap)
      ensures core.None? ==>
              p == 0 && heap == old(heap) && freep == old(freep) && top == old(top) && ptr == old(ptr)
              && size == old(size)
      ensures core.Some? ==> p == freep && j < |heap.free| && heap.free[j] in size && size[heap.free[j]] >= nu
      ensures core.Some? ==>
              forall u: nat ::
                u in heap.owner <==> u in old(heap).owner || core.at <= u < core.at + if nu < 4096 then 4096 else nu
    {
      j := 0;
      if core.None? { return 0, 0; }
      var n := Units(nu);
      var hp := core.at;
      ghost var h := heap;
      var size' := size[hp := n];
      heap := NewCore(base, heap, hp, n, size');
      size := size';
      top := hp + n;
      ghost var g := heap;
      j := Free(hp + 1);
      p := freep;
      forall u: nat ensures u in heap.owner <==> u in h.owner || hp <= u < hp + n {
        assert u in heap.owner <==> u in g.owner.Keys;
      }
    }

    /** One step of malloc's scan. */
    lemma Advance(h: Heap, i: nat, e: nat, b: nat, n: nat, p: nat, prevp: nat, freep: nat)
      requires Good(base, h) && Scanning(h.free, i, e, p, prevp, freep)
      ensures p in h.ptr && Scanning(h.free, Next(|h.free|, i), e, h.ptr[p], p, freep)
      ensures i != e ==> Dist(|h.free|, Next(|h.free|, i), e) < Dist(|h.free|, i, e)
      ensures i == e && b < |h.free| && h.free[b] in h.size && h.size[h.free[b]] >= n ==>
              Ahead(h, Next(|h.free|, i), e, b, n)
      ensures i != e && Ahead(h, i, e, b, n) && h.size[h.free[i]] < n ==> Ahead(h, Next(|h.free|, i), e, b, n)
    {
      FreeBlock(base, h, i);
      DistStep(|h.free|, i, e);
      if b < |h.free| { DistStep(|h.free|, i, b); }
    }

    /** The state of malloc's for loop. more: morecore has been called, and the block at position b is big enough. */
    ghost predicate Looping(h: Heap, i: nat, e: nat, b: nat, p: nat, prevp: nat, more: bool, core: Option, n: nat)
      reads this
    {
      && Valid() && freep != 0 && LiveKept(h, heap) && heap.live == h.live && Arena(h, heap, more, core, n)
      && Scanning(heap.free, i, e, p, prevp, freep)
         && (if more then Ahead(heap, i, e, b, n) else TooSmall(heap, i, e, n))
      && (!more && core.Some? ==> core.at >= top)
    }

    /** A block that is too small: on to the next one, after morecore if the scan has come round. */
    method Onward(ghost h: Heap, p: nat, prevp: nat, nunits: nat, core: Option, ghost i: nat, ghost e: nat,
        ghost b: nat, ghost more: bool)
      returns (p': nat, prevp': nat, ghost i': nat, ghost e': nat, ghost b': nat, ghost more': bool)
      requires Looping(h, i, e, b, p, prevp, more, core, nunits) && p in size && size[p] < nunits
      modifies this`ptr, this`size, this`freep, this`heap, this`top
      ensures p' == 0 ==>
              core.None? && NoneFits(heap, nunits) && Valid() && Arena(h, heap, more', core, nunits)
              && heap.live == h.live && LiveKept(h, heap)
      ensures p' != 0 ==> Looping(h, i', e', b', p', prevp', more', core, nunits)
      ensures p' != 0 ==>
              (!more && more') || (more == more' && Dist(|heap.free|, i', e') < old(Dist(|heap.free|, i, e)))
    {
      if p == freep {
        p', prevp', i', e', b', more' := Renew(h, p, prevp, nunits, core, i, e, b, more);
      } else {
        p', prevp', i' := Pass(h, p, prevp, nunits, core, i, e, b, more);
        e', b', more' := e, b, more;
      }
    }

    method Pass(ghost h: Heap, p: nat, prevp: nat, nunits: nat, core: Option, ghost i: nat, ghost e: nat, ghost b: nat,
        ghost more: bool)
      returns (p': nat, prevp': nat, ghost i': nat)
      requires Looping(h, i, e, b, p, prevp, more, core, nunits) && p in size && size[p] < nunits && p != freep
      ensures p' != 0 && Looping(h, i', e, b, p', prevp', more, core, nunits)
      ensures Dist(|heap.free|, i', e) < Dist(|heap.free|, i, e)
    {
      if !more { TooSmallStep(heap, i, e, nunits); }
      Advance(heap, i, e, b, nunits, p, prevp, freep);
      prevp', p', i' := p, ptr[p], Next(|heap.free|, i);
      FreeBlock(base, heap, i');
    }

    /** The scan has come round: morecore, and on from where the new units are. */
    method Renew(ghost h: Heap, p: nat, prevp: nat, nunits: nat, core: Option, ghost i: nat, ghost e: nat,
        ghost b: nat, ghost more: bool)
      returns (p': nat, prevp': nat, ghost i': nat, ghost e': nat, ghost b': nat, ghost more': bool)
      requires Looping(h, i, e, b, p, prevp, more, core, nunits) && p in size && size[p] < nunits && p == freep
      modifies this`ptr, this`size, this`freep, this`heap, this`top
      ensures p' == 0 ==>
              core.None? && NoneFits(heap, nunits) && Valid() && Arena(h, heap, more', core, nunits)
              && heap.live == h.live && LiveKept(h, heap)
      ensures p' != 0 ==> Looping(h, i', e', b', p', prevp', more', core, nunits) && !more && more'
    {
      if !more { TooSmallStep(heap, i, e, nunits); }
      SamePosition(base, heap, i, e);
      DistStep(|heap.free|, i, e);
      more', prevp', i' := true, 0, 0;
      p', e', b' := Grow(h, nunits, core);
      if p' == 0 { return 0, 0, 0, 0, 0, more; }
      Advance(heap, e', e', b', nunits, p', heap.free[Prev(|heap.free|, e')], freep);
      prevp', p', i' := p', ptr[p'], Next(|heap.free|, e');
      FreeBlock(base, heap, i');
    }

    /** malloc's for loop. */
    method Scan(nunits: nat, core: Option) returns (r: nat, ghost bp: nat, ghost more: bool)
      requires Valid() && freep != 0 && 0 < nunits && (core.Some? ==> core.at >= top)
      modifies this`ptr, this`size, this`freep, this`heap, this`top
      ensures Valid() && Arena(old(heap), heap, more, core, nunits)
      ensures r == 0 ==>
              core.None? && NoneFits(heap, nunits) && heap.live == old(heap).live && LiveKept(old(heap), heap)
      ensures r != 0 ==> r == bp + 1 && freep != 0 && Handed(old(heap), heap, bp, nunits)
    {
      ghost var h := heap;
      assert LiveKept(h, h) by { assert h.live <= h.blocks.Keys; }
      more := false;
      ghost var e: nat :| e < |heap.free| && heap.free[e] == freep;
      Advance(heap, e, e, 0, nunits, freep, heap.free[Prev(|heap.free|, e)], freep);
      TooSmallStart(heap, e, nunits);
      ghost var i: nat, b: nat := Next(|heap.free|, e), 0;
      var prevp: nat, p: nat := freep, ptr[freep];
      while true
        invariant Looping(h, i, e, b, p, prevp, more, core, nunits)
        decreases !more, Dist(|heap.free|, i, e)
      {
        FreeBlock(base, heap, i);
        if size[p] >= nunits {
          ghost var g := heap;
          var q := Take(prevp, p, nunits, i);
          Took(h, g, heap, more, core, nunits, q);
          return q + 1, q, more;
        }
        p, prevp, i, e, b, more := Onward(h, p, prevp, nunits, core, i, e, b, more);
        if p == 0 { return 0, 0, more; }
      }
    }

    method Grow(ghost h: Heap, nunits: nat, core: Option) returns (p: nat, ghost e: nat, ghost b: nat)
      requires Valid() && freep != 0 && 0 < nunits && (core.Some? ==> core.at >= top)
               && Arena(h, heap, false, core, nunits) && LiveKept(h, heap) && heap.live == h.live
      modifies this`ptr, this`size, this`freep, this`heap, this`top
      ensures Valid() && freep != 0 && LiveKept(h, heap) && heap.live == h.live
              && Arena(h, heap, core.Some?, core, nunits)
      ensures core.None? ==> p == 0 && heap == old(heap)
      ensures core.Some? ==>
              p == freep && e < |heap.free| && heap.free[e] == freep && b < |heap.free| && heap.free[b] in heap.size
              && heap.size[heap.free[b]] >= nunits
    {
      e, b := 0, 0;
      p, b := Morecore(nunits, core);
      e :| e < |heap.free| && heap.free[e] == freep;
    }

    /** malloc returns a block of the size asked for that was not in use, and leaves the blocks in use alone; it calls
        morecore at most once, and returns 0 only if no free block is large enough and that fails. */
    method Malloc(nbytes: nat, core: Option) returns (r: nat, ghost bp: nat, ghost more: bool)
      requires Valid() && nbytes <= 0x7fff_ffe0 && (core.Some? ==> core.at >= top)
      modifies this`ptr, this`size, this`freep, this`heap, this`top
      ensures Valid() && Arena(old(heap), heap, more, core, Wanted(nbytes))
      ensures r == 0 ==>
              core.None? && NoneFits(heap, Wanted(nbytes)) && heap.live == old(heap).live
              && LiveKept(old(heap), heap)
      ensures r != 0 ==>
              r == bp + 1 && freep != 0 && Handed(old(heap), heap, bp, Wanted(nbytes)) && Usable(heap, bp, r, nbytes)
    {
      var nunits := Wanted(nbytes);
      if freep == 0 { Start(); }
      r, bp, more := Scan(nunits, core);
      if r != 0 { HandedUsable(base, old(heap), heap, bp, nbytes); }
    }
  }
}
