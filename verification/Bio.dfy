/** The buffer cache of kernel/bio.c: NBUF buffers on a doubly linked list kept
    in most-recently-released order. `Cache` and the functions on it are the simple
    form (a sequence of buffer numbers); class `Bcache` is the pointer form. */
module Bio {
  import opened Params
  import opened Blocks

  const HEAD: nat := NBUF   // the list head, an extra list node

  datatype Buf = Buf(dev: nat, blockno: nat, valid: bool, refcnt: nat, data: Block) {
    predicate Is(d: nat, b: nat) { dev == d && blockno == b }

    /** In use or holding a block; binit leaves all buffers at (0, 0), unclaimed. */
    predicate Claimed() { refcnt > 0 || valid }
  }

  datatype Cache = Cache(order: seq<nat>, bufs: seq<Buf>)

  /** Every buffer is on the list exactly once. */
  ghost predicate Permutation(order: seq<nat>) {
    && |order| == NBUF
    && (forall k | 0 <= k < NBUF :: order[k] < NBUF)
    && (forall j, k | 0 <= j < k < NBUF :: order[j] != order[k])
    && (forall b | 0 <= b < NBUF :: b in order)
  }

  ghost predicate Wf(c: Cache) {
    |c.bufs| == NBUF && Permutation(c.order)
  }

  /** Position of the first buffer, most recent first, that holds the block. */
  ghost function FirstMatch(c: Cache, dev: nat, blockno: nat, k: nat): (r: nat)
    requires Wf(c) && k <= NBUF
    ensures k <= r <= NBUF
    ensures r < NBUF ==> c.bufs[c.order[r]].Is(dev, blockno)
    ensures forall j | k <= j < r :: !c.bufs[c.order[j]].Is(dev, blockno)
    decreases NBUF - k
  {
    if k == NBUF || c.bufs[c.order[k]].Is(dev, blockno) then k else FirstMatch(c, dev, blockno, k + 1)
  }

  /** One past the position of the last (least recent) unreferenced buffer below k. */
  ghost function LastFree(c: Cache, k: nat): (r: nat)
    requires Wf(c) && k <= NBUF
    ensures r <= k
    ensures r > 0 ==> c.bufs[c.order[r - 1]].refcnt == 0
    ensures forall j | r <= j < k :: c.bufs[c.order[j]].refcnt > 0
  {
    if k == 0 || c.bufs[c.order[k - 1]].refcnt == 0 then k else LastFree(c, k - 1)
  }

  datatype Lookup = Got(cache: Cache, idx: nat) | NoBuffers

  /** bget up to the release of bcache.lock. */
  ghost function Get(c: Cache, dev: nat, blockno: nat): (r: Lookup)
    requires Wf(c)
    ensures r.Got? ==> Wf(r.cache) && r.idx < NBUF
  {
    var h := FirstMatch(c, dev, blockno, 0);
    if h < NBUF then
      var i := c.order[h];
      Got(c.(bufs := c.bufs[i := c.bufs[i].(refcnt := c.bufs[i].refcnt + 1)]), i)
    else
      var f := LastFree(c, NBUF);
      if f == 0 then NoBuffers
      else
        var i := c.order[f - 1];
        Got(c.(bufs := c.bufs[i := Buf(dev, blockno, false, 1, c.bufs[i].data)]), i)
  }

  lemma GetHit(c: Cache, dev: nat, blockno: nat, k: nat, b: nat)
    requires Wf(c) && k == FirstMatch(c, dev, blockno, 0) < NBUF && b == c.order[k]
    ensures b < NBUF
            && Get(c, dev, blockno) == Got(c.(bufs := c.bufs[b := c.bufs[b].(refcnt := c.bufs[b].refcnt + 1)]), b)
  {
  }

  lemma GetMiss(c: Cache, dev: nat, blockno: nat, f: nat)
    requires Wf(c) && FirstMatch(c, dev, blockno, 0) == NBUF && f == LastFree(c, NBUF)
    ensures f == 0 ==> Get(c, dev, blockno).NoBuffers?
    ensures f > 0 ==>
            var b := c.order[f - 1];
            && b < NBUF
            && Get(c, dev, blockno) == Got(c.(bufs := c.bufs[b := Buf(dev, blockno, false, 1, c.bufs[b].data)]), b)
  {
  }

  /** A hit only counts a reference; a miss takes over an unreferenced buffer. */
  lemma GetCases(c: Cache, dev: nat, blockno: nat)
    requires Wf(c) && Get(c, dev, blockno).Got?
    ensures var r := Get(c, dev, blockno);
            || (c.bufs[r.idx].Is(dev, blockno) && r.cache == Pinned(c, r.idx))
            || (&& c.bufs[r.idx].refcnt == 0
                && (forall i | 0 <= i < NBUF :: !c.bufs[i].Is(dev, blockno))
                && r.cache == c.(bufs := c.bufs[r.idx := Buf(dev, blockno, false, 1, c.bufs[r.idx].data)]))
  {
    if FirstMatch(c, dev, blockno, 0) == NBUF {
      forall i | 0 <= i < NBUF ensures !c.bufs[i].Is(dev, blockno) {
        assert c.order[IndexOf(c.order, i)] == i;
      }
    }
  }

  ghost function IndexOf(order: seq<nat>, b: nat): (k: nat)
    requires b in order
    ensures k < |order| && order[k] == b
  {
    if order[0] == b then 0 else 1 + IndexOf(order[1..], b)
  }

  ghost function Without(order: seq<nat>, k: nat): seq<nat>
    requires k < |order|
  {
    order[..k] + order[k + 1..]
  }

  /** brelse after releasesleep: drop a reference, and on the last one become most recent. */
  ghost function Drop(c: Cache, i: nat): (r: Cache)
    requires Wf(c) && i < NBUF && c.bufs[i].refcnt > 0
    ensures Wf(r)
    ensures r.bufs == c.bufs[i := c.bufs[i].(refcnt := c.bufs[i].refcnt - 1)]
  {
    var bufs := c.bufs[i := c.bufs[i].(refcnt := c.bufs[i].refcnt - 1)];
    if bufs[i].refcnt == 0 then
      MovePermutes(c.order, i);
      Cache([i] + Without(c.order, IndexOf(c.order, i)), bufs)
    else
      Cache(c.order, bufs)
  }

  lemma MovePermutes(order: seq<nat>, i: nat)
    requires Permutation(order) && i < NBUF
    ensures Permutation([i] + Without(order, IndexOf(order, i)))
  {
    var k := IndexOf(order, i);
    var moved := [i] + Without(order, k);
    forall b | 0 <= b < NBUF ensures b in moved {
      var j := IndexOf(order, b);
      assert moved[if j < k then j + 1 else if j == k then 0 else j] == b;
    }
  }

  ghost function Pinned(c: Cache, i: nat): Cache
    requires Wf(c) && i < NBUF
  {
    c.(bufs := c.bufs[i := c.bufs[i].(refcnt := c.bufs[i].refcnt + 1)])
  }

  ghost function Unpinned(c: Cache, i: nat): Cache
    requires Wf(c) && i < NBUF && c.bufs[i].refcnt > 0
  {
    c.(bufs := c.bufs[i := c.bufs[i].(refcnt := c.bufs[i].refcnt - 1)])
  }

  /** binit inserts 0, 1, ... each at the front. */
  const InitOrder: seq<nat> := seq(NBUF, k requires 0 <= k < NBUF => NBUF - 1 - k)

  /** The zero-filled static array after binit. */
  const InitCache: Cache := Cache(InitOrder, seq(NBUF, _ => Buf(0, 0, false, 0, ZeroBlock)))

  lemma InitWf()
    ensures Wf(InitCache)
  {
    forall b | 0 <= b < NBUF ensures b in InitOrder {
      assert InitOrder[NBUF - 1 - b] == b;
    }
  }

  /** While a buffer holding the block is referenced, bget finds that buffer, whole:
      it is never handed to another block. This is what pinning buys. */
  lemma ReferencedIsFound(c: Cache, dev: nat, blockno: nat, i: nat)
    requires Wf(c) && i < NBUF && c.bufs[i].refcnt > 0 && c.bufs[i].Is(dev, blockno)
    requires forall j | 0 <= j < NBUF && j != i :: !c.bufs[j].Is(dev, blockno)
    ensures Get(c, dev, blockno) == Got(Pinned(c, i), i)
  {
    assert c.order[IndexOf(c.order, i)] == i;
  }

  /** bget fails only when every buffer is referenced and none holds the block. */
  lemma NoBuffersMeans(c: Cache, dev: nat, blockno: nat)
    requires Wf(c)
    ensures Get(c, dev, blockno).NoBuffers? <==>
            forall i | 0 <= i < NBUF :: c.bufs[i].refcnt > 0 && !c.bufs[i].Is(dev, blockno)
  {
    if Get(c, dev, blockno).NoBuffers? {
      forall i | 0 <= i < NBUF ensures c.bufs[i].refcnt > 0 && !c.bufs[i].Is(dev, blockno) {
        assert c.order[IndexOf(c.order, i)] == i;
      }
    }
  }

  // ---- least recently used ----

  /** The buffers with the time at which each was last released for good, and the time now; binit counts as releasing
      the buffers in turn. */
  datatype Table = Table(bufs: seq<Buf>, last: seq<nat>, clock: nat)

  /** The list is in the order of the last releases, latest first. */
  ghost predicate Aged(order: seq<nat>, last: seq<nat>, clock: nat) {
    && Permutation(order) && |last| == NBUF && (forall i: nat | i < NBUF :: last[i] < clock)
    && forall j: nat, k: nat | j < k < NBUF :: last[order[j]] > last[order[k]]
  }

  /** b is the unreferenced buffer that was released first. */
  ghost predicate Oldest(t: Table, b: nat) {
    && |t.bufs| == |t.last| == NBUF && b < NBUF && t.bufs[b].refcnt == 0
    && forall i: nat | i < NBUF && t.bufs[i].refcnt == 0 :: t.last[b] <= t.last[i]
  }

  ghost predicate Holds(t: Table, dev: nat, blockno: nat) {
    exists i: nat :: i < |t.bufs| && t.bufs[i].Is(dev, blockno)
  }

  /** What bget does: it finds the block, or recycles the buffer whose last release is the longest ago. */
  ghost predicate Gets(t: Table, dev: nat, blockno: nat, found: bool, b: nat, u: Table) {
    if Holds(t, dev, blockno) then
      found && b < |t.bufs| && t.bufs[b].Is(dev, blockno)
      && u == t.(bufs := t.bufs[b := t.bufs[b].(refcnt := t.bufs[b].refcnt + 1)])
    else if found then Oldest(t, b) && u == t.(bufs := t.bufs[b := Buf(dev, blockno, false, 1, t.bufs[b].data)])
    else u == t && forall i: nat | i < |t.bufs| :: t.bufs[i].refcnt > 0
  }

  /** What brelse does: the last release of a buffer takes the present time. */
  ghost predicate Releases(t: Table, b: nat, u: Table) {
    && b < |t.bufs| == |t.last| && t.bufs[b].refcnt > 0
    && u.bufs == t.bufs[b := t.bufs[b].(refcnt := t.bufs[b].refcnt - 1)]
    && if t.bufs[b].refcnt == 1 then u.last == t.last[b := t.clock] && u.clock == t.clock + 1
       else u.last == t.last && u.clock == t.clock
  }

  lemma InitAged(last: seq<nat>)
    requires |last| == NBUF && forall i: nat | i < NBUF :: last[i] == i
    ensures Aged(InitOrder, last, NBUF)
  {
    InitWf();
  }

  /** Moved to the front, the buffer that is released now keeps the list in order. */
  lemma MoveAges(order: seq<nat>, last: seq<nat>, clock: nat, i: nat)
    requires Aged(order, last, clock) && i < NBUF
    ensures Aged([i] + Without(order, IndexOf(order, i)), last[i := clock], clock + 1)
  {
    var k := IndexOf(order, i);
    var moved, late := [i] + Without(order, k), last[i := clock];
    MovePermutes(order, i);
    forall m: nat, n: nat | m < n < NBUF ensures late[moved[m]] > late[moved[n]] {
      assert moved[n] == order[if n <= k then n - 1 else n];
      if m > 0 { assert moved[m] == order[if m <= k then m - 1 else m]; }
    }
  }

  /** The last unreferenced buffer on the list is the one released first. */
  lemma LastIsOldest(c: Cache, last: seq<nat>, clock: nat, f: nat)
    requires Wf(c) && Aged(c.order, last, clock) && f == LastFree(c, NBUF) && f > 0
    ensures Oldest(Table(c.bufs, last, clock), c.order[f - 1])
  {
    forall i: nat | i < NBUF && c.bufs[i].refcnt == 0 ensures last[c.order[f - 1]] <= last[i] {
      var j := IndexOf(c.order, i);
      assert j < f;
    }
  }

  ghost predicate Looks(c: Cache, last: seq<nat>, clock: nat, dev: nat, blockno: nat, r: Lookup) {
    var t := Table(c.bufs, last, clock);
    if r.Got? then r.cache.order == c.order && Gets(t, dev, blockno, true, r.idx, Table(r.cache.bufs, last, clock))
    else forall b: nat :: Gets(t, dev, blockno, false, b, t)
  }

  lemma HitGets(c: Cache, last: seq<nat>, clock: nat, dev: nat, blockno: nat, k: nat)
    requires Wf(c) && k == FirstMatch(c, dev, blockno, 0) < NBUF
    ensures Looks(c, last, clock, dev, blockno, Get(c, dev, blockno))
  {
    GetHit(c, dev, blockno, k, c.order[k]);
    assert Table(c.bufs, last, clock).bufs[c.order[k]].Is(dev, blockno);
  }

  lemma NotHeld(c: Cache, last: seq<nat>, clock: nat, dev: nat, blockno: nat)
    requires Wf(c) && FirstMatch(c, dev, blockno, 0) == NBUF
    ensures !Holds(Table(c.bufs, last, clock), dev, blockno)
  {
    forall i: nat | i < NBUF ensures !c.bufs[i].Is(dev, blockno) {
      assert c.order[IndexOf(c.order, i)] == i;
    }
  }

  lemma AllUsed(c: Cache)
    requires Wf(c) && LastFree(c, NBUF) == 0
    ensures forall i: nat | i < NBUF :: c.bufs[i].refcnt > 0
  {
    forall i: nat | i < NBUF ensures c.bufs[i].refcnt > 0 {
      assert c.order[IndexOf(c.order, i)] == i;
    }
  }

  lemma MissGets(c: Cache, last: seq<nat>, clock: nat, dev: nat, blockno: nat, f: nat)
    requires Wf(c) && Aged(c.order, last, clock) && FirstMatch(c, dev, blockno, 0) == NBUF && f == LastFree(c, NBUF)
    ensures Looks(c, last, clock, dev, blockno, Get(c, dev, blockno))
  {
    GetMiss(c, dev, blockno, f);
    NotHeld(c, last, clock, dev, blockno);
    if f > 0 { LastIsOldest(c, last, clock, f); } else { AllUsed(c); }
  }

  /** bget finds the block, or recycles the buffer that was released first. */
  lemma GetOldest(c: Cache, last: seq<nat>, clock: nat, dev: nat, blockno: nat)
    requires Wf(c) && Aged(c.order, last, clock)
    ensures Looks(c, last, clock, dev, blockno, Get(c, dev, blockno))
  {
    var k := FirstMatch(c, dev, blockno, 0);
    if k < NBUF {
      HitGets(c, last, clock, dev, blockno, k);
    } else {
      MissGets(c, last, clock, dev, blockno, LastFree(c, NBUF));
    }
  }

  lemma DropReleases(c: Cache, last: seq<nat>, clock: nat, i: nat) returns (u: Table)
    requires Wf(c) && Aged(c.order, last, clock) && i < NBUF && c.bufs[i].refcnt > 0
    ensures Releases(Table(c.bufs, last, clock), i, u) && Aged(Drop(c, i).order, u.last, u.clock)
    ensures u.bufs == Drop(c, i).bufs
  {
    MoveAges(c.order, last, clock, i);
    u := if c.bufs[i].refcnt == 1 then Table(Drop(c, i).bufs, last[i := clock], clock + 1)
    else Table(Drop(c, i).bufs, last, clock);
  }

  datatype Call = Find(dev: nat, blockno: nat) | Release(b: nat) | Pin(b: nat) | Unpin(b: nat)

  /** One call, with whether bget returned a buffer, and which; releasing or unpinning a buffer that nobody has does
      nothing. */
  ghost predicate Did(call: Call, t: Table, got: (bool, nat), u: Table) {
    match call
    case Find(dev, blockno) => Gets(t, dev, blockno, got.0, got.1, u)
    case Release(b) => if b < |t.bufs| && t.bufs[b].refcnt > 0 then Releases(t, b, u) else u == t
    case Pin(b) =>
      u == if b < |t.bufs| then t.(bufs := t.bufs[b := t.bufs[b].(refcnt := t.bufs[b].refcnt + 1)]) else t
    case Unpin(b) =>
      u == if b < |t.bufs| && t.bufs[b].refcnt > 0
      then t.(bufs := t.bufs[b := t.bufs[b].(refcnt := t.bufs[b].refcnt - 1)]) else t
  }

  // ---- the links ----

  /** Node k of the circular list HEAD, order[0], order[1], ... */
  ghost function At(order: seq<nat>, k: int): nat {
    if 0 <= k < |order| then order[k] else HEAD
  }

  ghost predicate Members(order: seq<nat>) {
    && (forall k | 0 <= k < |order| :: order[k] < NBUF)
    && (forall j, k | 0 <= j < k < |order| :: order[j] != order[k])
  }

  /** next/prev are exactly the links of that circular list. */
  ghost predicate Linked(next: seq<nat>, prev: seq<nat>, order: seq<nat>) {
    && |next| == |prev| == NBUF + 1
    && Members(order)
    && next[HEAD] == At(order, 0) && prev[HEAD] == At(order, |order| - 1)
    && (forall k {:trigger next[order[k]]} | 0 <= k < |order| :: next[order[k]] == At(order, k + 1))
    && (forall k {:trigger prev[order[k]]} | 0 <= k < |order| :: prev[order[k]] == At(order, k - 1))
  }

  lemma NextFront(next: seq<nat>, prev: seq<nat>, order: seq<nat>, b: nat, order': seq<nat>, k: nat)
    requires Linked(next, prev, order) && b < NBUF && b !in order && order' == [b] + order && k < |order'|
    ensures order'[k] < |next| && next[b := next[HEAD]][HEAD := b][order'[k]] == At(order', k + 1)
  {
    if k > 0 { assert order'[k] == order[k - 1] && next[order[k - 1]] == At(order, k); }
  }

  lemma PrevFront(next: seq<nat>, prev: seq<nat>, order: seq<nat>, b: nat, order': seq<nat>, k: nat)
    requires Linked(next, prev, order) && b < NBUF && b !in order && order' == [b] + order && k < |order'|
    ensures order'[k] < |prev| && next[HEAD] < |prev|
    ensures prev[b := HEAD][next[HEAD] := b][order'[k]] == At(order', k - 1)
  {
    if k > 0 {
      assert order'[k] == order[k - 1] && prev[order[k - 1]] == At(order, k - 2);
      assert k > 1 ==> order[k - 1] != order[0];
    }
  }

  lemma LinkFront(next: seq<nat>, prev: seq<nat>, order: seq<nat>, b: nat)
    requires Linked(next, prev, order) && b < NBUF && b !in order
    ensures Linked(next[b := next[HEAD]][HEAD := b], prev[b := HEAD][next[HEAD] := b], [b] + order)
  {
    var order' := [b] + order;
    assert forall k | 1 <= k < |order'| :: order'[k] == order[k - 1];
    forall k: nat | k < |order'|
      ensures next[b := next[HEAD]][HEAD := b][order'[k]] == At(order', k + 1)
      ensures prev[b := HEAD][next[HEAD] := b][order'[k]] == At(order', k - 1)
    {
      NextFront(next, prev, order, b, order', k);
      PrevFront(next, prev, order, b, order', k);
    }
  }

  lemma WithoutAt(order: seq<nat>, k: nat, j: nat)
    requires Members(order) && k < |order| && j < |order| - 1
    ensures Without(order, k)[j] == order[if j < k then j else j + 1] != order[k]
  {
  }

  lemma NextWithout(next: seq<nat>, prev: seq<nat>, order: seq<nat>, k: nat, j: nat)
    requires Linked(next, prev, order) && k < |order| && j < |order| - 1 && prev[order[k]] < |next|
    ensures Without(order, k)[j] < |next|
    ensures next[prev[order[k]] := next[order[k]]][Without(order, k)[j]] == At(Without(order, k), j + 1)
  {
    WithoutAt(order, k, j);
    var i := if j < k then j else j + 1;
    assert next[order[i]] == At(order, i + 1) && prev[order[k]] == At(order, k - 1);
  }

  lemma PrevWithout(next: seq<nat>, prev: seq<nat>, order: seq<nat>, k: nat, j: nat)
    requires Linked(next, prev, order) && k < |order| && j < |order| - 1 && next[order[k]] < |prev|
    ensures Without(order, k)[j] < |prev|
    ensures prev[next[order[k]] := prev[order[k]]][Without(order, k)[j]] == At(Without(order, k), j - 1)
  {
    WithoutAt(order, k, j);
    var i := if j < k then j else j + 1;
    assert prev[order[i]] == At(order, i - 1) && next[order[k]] == At(order, k + 1);
  }

  lemma LinkWithout(next: seq<nat>, prev: seq<nat>, order: seq<nat>, k: nat)
    requires Linked(next, prev, order) && k < |order|
    ensures next[order[k]] < |prev| && prev[order[k]] < |next|
    ensures order[k] !in Without(order, k)
    ensures var b := order[k]; Linked(next[prev[b] := next[b]], prev[next[b] := prev[b]], Without(order, k))
  {
    var b := order[k];
    assert next[b] == At(order, k + 1) && prev[b] == At(order, k - 1);
    forall j: nat | j < |order| - 1
      ensures Without(order, k)[j] != b
      ensures next[prev[b] := next[b]][Without(order, k)[j]] == At(Without(order, k), j + 1)
      ensures prev[next[b] := prev[b]][Without(order, k)[j]] == At(Without(order, k), j - 1)
    {
      WithoutAt(order, k, j);
      NextWithout(next, prev, order, k, j);
      PrevWithout(next, prev, order, k, j);
    }
  }

  /** The links of bio.c as it stores them: fields updated in place. */
  class Bcache {
    var next: seq<nat>
    var prev: seq<nat>
    var buf: seq<Buf>
    ghost var order: seq<nat>
    ghost var last: seq<nat>      // when each buffer was last released for good
    ghost var clock: nat

    ghost predicate Valid()
      reads this
    {
      Linked(next, prev, order) && Permutation(order) && |buf| == NBUF && Aged(order, last, clock)
    }

    ghost function Times(): Table
      reads this
    {
      Table(buf, last, clock)
    }

    ghost function Abs(): (c: Cache)
      requires Valid()
      reads this
    {
      Cache(order, buf)
    }

    /** Insert an unlinked buffer after the list head. */
    method PushFront(b: nat)
      requires Linked(next, prev, order) && b < NBUF && b !in order
      modifies this`next, this`prev, this`order
      ensures Linked(next, prev, order) && order == [b] + old(order)
    {
      LinkFront(next, prev, order, b);
      next := next[b := next[HEAD]];
      prev := prev[b := HEAD];
      prev := prev[next[HEAD] := b];
      next := next[HEAD := b];
      order := [b] + order;
    }

    /** Take the buffer at list position k off the list. */
    method Unlink(b: nat, ghost k: nat)
      requires Linked(next, prev, order) && k < |order| && order[k] == b
      modifies this`next, this`prev, this`order
      ensures Linked(next, prev, order) && order == Without(old(order), k)
      ensures b !in order
    {
      LinkWithout(next, prev, order, k);
      prev := prev[next[b] := prev[b]];
      next := next[prev[b] := next[b]];
      order := Without(order, k);
    }

    constructor ()
      ensures Valid() && Abs() == InitCache && Times() == Table(InitCache.bufs, seq(NBUF, i => i), NBUF)
    {
      next := seq(NBUF + 1, _ => HEAD);
      prev := seq(NBUF + 1, _ => HEAD);
      buf := InitCache.bufs;
      order := [];
      last, clock := seq(NBUF, i => i), NBUF;
      new;
      var b := 0;
      while b < NBUF
        invariant 0 <= b <= NBUF && Linked(next, prev, order) && buf == InitCache.bufs
        invariant last == seq(NBUF, i => i) && clock == NBUF
        invariant |order| == b && forall k | 0 <= k < b :: order[k] == b - 1 - k
      {
        PushFront(b);
        b := b + 1;
      }
      InitWf();
      assert order == InitOrder;
      InitAged(last);
    }

    /** The scan of bget for a cached copy, most recently used first. */
    method FindCached(dev: nat, blockno: nat) returns (b: nat, ghost k: nat)
      requires Valid()
      ensures k == FirstMatch(Abs(), dev, blockno, 0) && b == At(order, k)
    {
      b := next[HEAD];
      k := 0;
      while b != HEAD && !(buf[b].dev == dev && buf[b].blockno == blockno)
        invariant 0 <= k <= NBUF && b == At(order, k)
        invariant FirstMatch(Abs(), dev, blockno, 0) == FirstMatch(Abs(), dev, blockno, k)
        decreases NBUF - k
      {
        assert next[order[k]] == At(order, k + 1);
        b := next[b];
        k := k + 1;
      }
    }

    /** The scan of bget for a buffer to recycle, least recently used first. */
    method FindUnused() returns (b: nat, ghost k: nat)
      requires Valid()
      ensures k == LastFree(Abs(), NBUF) && b == At(order, k - 1)
    {
      b := prev[HEAD];
      k := NBUF;
      while b != HEAD && buf[b].refcnt != 0
        invariant 0 <= k <= NBUF && b == At(order, k - 1)
        invariant LastFree(Abs(), NBUF) == LastFree(Abs(), k)
        decreases k
      {
        assert prev[order[k - 1]] == At(order, k - 2);
        b := prev[b];
        k := k - 1;
      }
    }

    /** bget up to the release of bcache.lock; not found is the "no buffers" panic. */
    method Bget(dev: nat, blockno: nat) returns (found: bool, b: nat)
      requires Valid()
      modifies this`buf
      ensures Valid()
      ensures var spec := Get(old(Abs()), dev, blockno);
              if found then spec == Got(Abs(), b) else spec.NoBuffers? && Abs() == old(Abs())
      ensures Gets(old(Times()), dev, blockno, found, b, Times())
    {
      ghost var c := Abs();
      found, b := Search(dev, blockno);
      GetOldest(c, last, clock, dev, blockno);
    }

    method Search(dev: nat, blockno: nat) returns (found: bool, b: nat)
      requires Valid()
      modifies this`buf
      ensures Valid()
      ensures var spec := Get(old(Abs()), dev, blockno);
              if found then spec == Got(Abs(), b) else spec.NoBuffers? && Abs() == old(Abs())
    {
      ghost var c := Abs();
      ghost var k;
      found := true;
      b, k := FindCached(dev, blockno);
      if b != HEAD {
        GetHit(c, dev, blockno, k, b);
        SetBuf(b, buf[b].(refcnt := buf[b].refcnt + 1));
        return;
      }
      found, b := Recycle(dev, blockno);
    }

    /** The second half of bget. */
    method Recycle(dev: nat, blockno: nat) returns (found: bool, b: nat)
      requires Valid() && FirstMatch(Abs(), dev, blockno, 0) == NBUF
      modifies this`buf
      ensures Valid()
      ensures var spec := Get(old(Abs()), dev, blockno);
              if found then spec == Got(Abs(), b) else spec.NoBuffers? && Abs() == old(Abs())
    {
      ghost var k;
      b, k := FindUnused();
      GetMiss(Abs(), dev, blockno, k);
      found := b != HEAD;
      if found { SetBuf(b, Buf(dev, blockno, false, 1, buf[b].data)); }
    }

    method SetBuf(b: nat, x: Buf)
      requires Valid() && b < NBUF
      modifies this`buf
      ensures Valid() && Abs() == old(Abs()).(bufs := old(buf)[b := x])
    {
      buf := buf[b := x];
    }

    /** The part of brelse under bcache.lock. */
    method Brelse(b: nat)
      requires Valid() && b < NBUF && buf[b].refcnt > 0
      modifies this
      ensures Valid() && Abs() == Drop(old(Abs()), b) && Releases(old(Times()), b, Times())
    {
      ghost var u := DropReleases(Abs(), last, clock, b);
      last, clock := u.last, u.clock;
      buf := buf[b := buf[b].(refcnt := buf[b].refcnt - 1)];
      if buf[b].refcnt == 0 {
        MovePermutes(order, b);
        Unlink(b, IndexOf(order, b));
        PushFront(b);
      }
    }

    method Bpin(b: nat)
      requires Valid() && b < NBUF
      modifies this`buf
      ensures Valid() && Abs() == Pinned(old(Abs()), b)
    {
      buf := buf[b := buf[b].(refcnt := buf[b].refcnt + 1)];
    }

    method Bunpin(b: nat)
      requires Valid() && b < NBUF && buf[b].refcnt > 0
      modifies this`buf
      ensures Valid() && Abs() == Unpinned(old(Abs()), b)
    {
      buf := buf[b := buf[b].(refcnt := buf[b].refcnt - 1)];
    }

    method Do(call: Call) returns (got: (bool, nat))
      requires Valid()
      modifies this
      ensures Valid() && Did(call, old(Times()), got, Times())
    {
      got := (false, 0);
      match call {
        case Find(dev, blockno) =>
          var found, b := Bget(dev, blockno);
          got := (found, b);
        case Release(b) =>
          if b < NBUF && buf[b].refcnt > 0 { Brelse(b); }
        case Pin(b) =>
          if b < NBUF { Bpin(b); }
        case Unpin(b) =>
          if b < NBUF && buf[b].refcnt > 0 { Bunpin(b); }
      }
    }

    /** Whatever the calls, each bget that does not find its block recycles the buffer whose last release is the
        longest ago. ts are the buffers and their times before each call, and after the last. */
    method Run(calls: seq<Call>) returns (got: seq<(bool, nat)>, ghost ts: seq<Table>)
      requires Valid()
      modifies this
      ensures Valid() && |got| == |calls| && |ts| == |calls| + 1 && ts[0] == old(Times()) && ts[|calls|] == Times()
      ensures forall n: nat | n < |calls| :: Did(calls[n], ts[n], got[n], ts[n + 1])
    {
      got, ts := [], [Times()];
      for n := 0 to |calls|
        invariant Valid() && |got| == n && |ts| == n + 1 && ts[0] == old(Times()) && ts[n] == Times()
        invariant forall k: nat | k < n :: Did(calls[k], ts[k], got[k], ts[k + 1])
      {
        var g := Do(calls[n]);
        got, ts := got + [g], ts + [Times()];
      }
    }
  }
}
