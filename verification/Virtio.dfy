/** kernel/virtio_disk.c: descriptors, the available and the used ring, and a device that takes requests in order and
    completes them in any order (sections 2.6 and 5.2 of the Virtual I/O Device specification 1.1). */
module Virtio {
  import opened Folding
  import opened Params
  import opened Blocks
  import opened VirtioDevice

  const NUM: nat := 8
  const WRAP: nat := 0x1_0000          // avail->idx, used->idx and used_idx are uint16

  const F_NEXT: nat := 1
  const F_WRITE: nat := 2

  const CLEAR: Desc := Desc(Null, 0, 0, 0)

  const T_IN: nat := 0
  const T_OUT: nat := 1

  datatype Option = None | Some(b: nat)
  datatype Info = Info(b: Option, status: nat)

  /** Where a request is: in the available ring, with the device, in the used ring, or seen by the interrupt handler. */
  datatype Phase = Queued | Taken | Done | Seen

  /** The descriptors after the head, and the request. */
  datatype Chain = Chain(mid: nat, tail: nat, b: nat, write: bool, sector: nat, phase: Phase)

  // ---- rings ----

  ghost predicate Distinct(s: seq<nat>) { forall i: nat, j: nat | i < j < |s| :: s[i] != s[j] }

  lemma {:induction false} Pigeons(s: seq<nat>, n: nat)
    requires Distinct(s) && forall i: nat | i < |s| :: s[i] < n
    ensures |s| <= n
    decreases n
  {
    if s != [] {
      assert s[0] < n;
      if k: nat :| k < |s| && s[k] == n - 1 {
        Pigeons(s[..k] + s[k + 1..], n - 1);
      } else {
        Pigeons(s, n - 1);
      }
    }
  }

  /** A head that is not in the ring finds a place there that no unconsumed entry has. */
  lemma Room(s: seq<nat>, h: nat)
    requires Distinct(s) && (forall i: nat | i < |s| :: s[i] < NUM) && h < NUM && h !in s
    ensures |s| < NUM
  {
    Pigeons(s + [h], NUM);
  }

  /** The unconsumed entries of a ring of 8 places whose consumer has come to the 16-bit index at and whose producer to
      idx. */
  ghost predicate Pending(ring: seq<nat>, at: nat, idx: nat, s: seq<nat>)
    decreases |s|
  {
    && |ring| == NUM && |s| <= NUM && at < WRAP
    && if s == [] then at == idx else ring[at % NUM] == s[0] && Pending(ring, (at + 1) % WRAP, idx, s[1..])
  }

  lemma {:induction false} RingLength(ring: seq<nat>, at: nat, idx: nat, s: seq<nat>)
    requires Pending(ring, at, idx, s)
    ensures idx == (at + |s|) % WRAP
    decreases |s|
  {
    if s != [] {
      RingLength(ring, (at + 1) % WRAP, idx, s[1..]);
    }
  }

  lemma {:induction false} RingPush(ring: seq<nat>, at: nat, idx: nat, s: seq<nat>, h: nat, idx': nat)
    requires Pending(ring, at, idx, s) && |s| < NUM && idx' == (idx + 1) % WRAP
    ensures Pending(ring[idx % NUM := h], at, idx', s + [h])
    decreases |s|
  {
    RingLength(ring, at, idx, s);
    if s == [] {
      assert ([h])[1..] == [];
    } else {
      assert at % NUM != idx % NUM;
      assert (s + [h])[1..] == s[1..] + [h];
      RingPush(ring, (at + 1) % WRAP, idx, s[1..], h, idx');
    }
  }

  lemma RingEmpty(ring: seq<nat>, at: nat, idx: nat, s: seq<nat>)
    requires Pending(ring, at, idx, s)
    ensures at == idx <==> s == []
  {
    RingLength(ring, at, idx, s);
  }

  // ---- chains ----

  /** Requests in flight by head descriptor; owner gives the chain of each descriptor that is not free. */
  datatype Queue = Queue(free: seq<bool>, desc: seq<Desc>, ops: seq<Req>, info: seq<Info>, owner: seq<Option>,
                         chains: map<nat, Chain>)
  {
    ghost predicate Sized() { |free| == NUM && |desc| == NUM && |ops| == NUM && |info| == NUM && |owner| == NUM }
  }

  ghost predicate Formatted(q: Queue, h: nat, c: Chain)
    requires q.Sized()
  {
    && h < NUM && c.mid < NUM && c.tail < NUM && h != c.mid && h != c.tail && c.mid != c.tail
    && q.owner[h] == Some(h) && q.owner[c.mid] == Some(h) && q.owner[c.tail] == Some(h)
    && q.desc[h] == Desc(Op(h), 16, F_NEXT, c.mid) && q.ops[h] == Req(if c.write then T_OUT else T_IN, c.sector)
    && q.desc[c.mid] == Desc(Buffer(c.b), BSIZE, F_NEXT + if c.write then 0 else F_WRITE, c.tail)
    && q.desc[c.tail] == Desc(StatusOf(h), 1, F_WRITE, 0)
    && q.info[h] == Info(Some(c.b), if c.phase == Done || c.phase == Seen then 0 else 0xff)
  }

  /** The free descriptors and the chains, three descriptors each, partition the NUM descriptors; no buffer is in
      two. */
  ghost predicate Chains(q: Queue) {
    q.Sized() && forall k: nat {:trigger Open(k)} :: Open(k) ==> Partitioned(q)
  }

  ghost predicate Partitioned(q: Queue)
    requires q.Sized()
  {
    && (forall i: nat | i < NUM :: Placed(q, i)) && (forall h: nat | h in q.chains :: Formatted(q, h, q.chains[h]))
    && Buffers(q.chains)
  }

  /** Descriptor i is free and clear, or in the chain of its owner. */
  ghost predicate Placed(q: Queue, i: nat)
    requires q.Sized() && i < NUM
  {
    && (q.free[i] <==> q.owner[i] == None) && (q.free[i] ==> q.desc[i] == CLEAR)
    && (q.owner[i].Some? ==> q.owner[i].b in q.chains && Member(q.chains, q.owner[i].b, i))
  }

  ghost predicate Buffers(cs: map<nat, Chain>) {
    forall h: nat, k: nat | h in cs && k in cs && h != k :: cs[h].b != cs[k].b
  }

  /** Read off: each descriptor is free or in exactly one chain. */
  lemma Partition(q: Queue, i: nat)
    requires Chains(q) && i < NUM
    ensures !q.free[i] ==> exists h: nat :: h in q.chains && Member(q.chains, h, i)
    ensures forall h: nat | h in q.chains && Member(q.chains, h, i) :: !q.free[i]
    ensures forall h: nat, k: nat | h in q.chains && k in q.chains && Member(q.chains, h, i)
            && Member(q.chains, k, i) :: h == k
  {
    assert Open(0);
    assert Placed(q, i);
    forall h: nat | h in q.chains && Member(q.chains, h, i) ensures q.owner[i] == Some(h) {
      assert Formatted(q, h, q.chains[h]);
    }
  }

  ghost predicate Member(chains: map<nat, Chain>, h: nat, i: nat) {
    h in chains && (i == h || i == chains[h].mid || i == chains[h].tail)
  }

  /** Two chains have no descriptor in common. */
  lemma Separate(q: Queue, h: nat, k: nat)
    requires Chains(q) && h in q.chains && k in q.chains && h != k
    ensures Formatted(q, h, q.chains[h]) && Formatted(q, k, q.chains[k])
    ensures var c, d := q.chains[h], q.chains[k];
            k != c.mid && k != c.tail && d.mid != h && d.mid != c.mid && d.mid != c.tail && d.tail != h
                && d.tail != c.mid && d.tail != c.tail
  {
    assert Open(0);
    assert Formatted(q, h, q.chains[h]) && Formatted(q, k, q.chains[k]);
  }

  ghost function WithChain(q: Queue, h: nat, c: Chain): Queue
    requires q.Sized() && h < NUM && c.mid < NUM && c.tail < NUM
  {
    Queue(q.free[h := false][c.mid := false][c.tail := false],
          q.desc[h := Desc(Op(h), 16, F_NEXT, c.mid)][c.mid := Desc(Buffer(c.b), BSIZE, F_NEXT + if c.write then 0
              else F_WRITE, c.tail)][c.tail := Desc(StatusOf(h), 1, F_WRITE, 0)],
          q.ops[h := Req(if c.write then T_OUT else T_IN, c.sector)], q.info[h := Info(Some(c.b), 0xff)],
          q.owner[h := Some(h)][c.mid := Some(h)][c.tail := Some(h)], q.chains[h := c])
  }

  /** h, mid and tail are free. */
  ghost predicate Fits(q: Queue, h: nat, c: Chain) {
    && q.Sized() && h < NUM && c.mid < NUM && c.tail < NUM && h != c.mid && h != c.tail && c.mid != c.tail
    && q.free[h] && q.free[c.mid] && q.free[c.tail] && c.phase == Queued
  }

  lemma FreshHead(q: Queue, h: nat, c: Chain)
    requires Chains(q) && Fits(q, h, c)
    ensures h !in q.chains && q.owner[h] == None && q.owner[c.mid] == None && q.owner[c.tail] == None
  {
    assert Open(0);
    assert Placed(q, h) && Placed(q, c.mid) && Placed(q, c.tail);
    assert h in q.chains ==> Formatted(q, h, q.chains[h]);
  }

  lemma AddFormatted(q: Queue, h: nat, c: Chain, k: nat)
    requires Chains(q) && Fits(q, h, c) && k in WithChain(q, h, c).chains
    ensures Formatted(WithChain(q, h, c), k, WithChain(q, h, c).chains[k])
  {
    FreshHead(q, h, c);
    assert Open(0);
    assert k != h ==> Formatted(q, k, q.chains[k]);
  }

  lemma AddPlaced(q: Queue, h: nat, c: Chain, i: nat)
    requires Chains(q) && Fits(q, h, c) && i < NUM
    ensures Placed(WithChain(q, h, c), i)
  {
    FreshHead(q, h, c);
    assert Open(0);
    assert Placed(q, i);
    assert i != h && i != c.mid && i != c.tail ==> WithChain(q, h, c).owner[i] == q.owner[i];
  }

  lemma AddBuffers(q: Queue, h: nat, c: Chain)
    requires Chains(q) && forall k: nat | k in q.chains :: q.chains[k].b != c.b
    ensures Buffers(q.chains[h := c])
  {
    assert Open(0);
  }

  lemma AddChain(q: Queue, h: nat, c: Chain)
    requires Chains(q) && Fits(q, h, c) && forall k: nat | k in q.chains :: q.chains[k].b != c.b
    ensures h !in q.chains && Chains(WithChain(q, h, c))
  {
    FreshHead(q, h, c);
    var w := WithChain(q, h, c);
    forall k: nat | k in w.chains ensures Formatted(w, k, w.chains[k]) {
      AddFormatted(q, h, c, k);
    }
    forall i: nat | i < NUM ensures Placed(w, i) {
      AddPlaced(q, h, c, i);
    }
    AddBuffers(q, h, c);
  }

  ghost function WithoutChain(q: Queue, h: nat): (w: Queue)
    requires Chains(q) && h in q.chains
    ensures w.Sized()
  {
    assert Open(0);
    var c := q.chains[h];
    assert Formatted(q, h, c);
    Queue(q.free[h := true][c.mid := true][c.tail := true], q.desc[h := CLEAR][c.mid := CLEAR][c.tail := CLEAR],
          q.ops, q.info[h := q.info[h].(b := None)], q.owner[h := None][c.mid := None][c.tail := None], q.chains - {h})
  }

  lemma DropPlaced(q: Queue, h: nat, i: nat)
    requires Chains(q) && h in q.chains && i < NUM
    ensures Placed(WithoutChain(q, h), i)
  {
    assert Open(0);
    assert Placed(q, i) && Formatted(q, h, q.chains[h]);
    var c := q.chains[h];
    assert i != h && i != c.mid && i != c.tail ==> q.owner[i] != Some(h);
  }

  lemma DropFormatted(q: Queue, h: nat, k: nat)
    requires Chains(q) && h in q.chains && k in q.chains && k != h
    ensures Formatted(WithoutChain(q, h), k, q.chains[k])
  {
    Separate(q, h, k);
  }

  lemma DropChain(q: Queue, h: nat)
    requires Chains(q) && h in q.chains
    ensures Chains(WithoutChain(q, h))
  {
    var w := WithoutChain(q, h);
    forall k: nat | k in w.chains ensures Formatted(w, k, w.chains[k]) {
      DropFormatted(q, h, k);
    }
    forall i: nat | i < NUM ensures Placed(w, i) {
      DropPlaced(q, h, i);
    }
    assert Buffers(w.chains) by {
      assert Open(0);
    }
  }

  ghost function WithPhase(q: Queue, h: nat, ph: Phase): (w: Queue)
    requires Chains(q) && h in q.chains
    ensures w.Sized()
  {
    assert Open(0);
    assert Formatted(q, h, q.chains[h]);
    q.(chains := q.chains[h := q.chains[h].(phase := ph)],
       info := q.info[h := Info(Some(q.chains[h].b), if ph == Done || ph == Seen then 0 else 0xff)])
  }

  lemma PhaseFormatted(q: Queue, h: nat, ph: Phase, k: nat)
    requires Chains(q) && h in q.chains && k in q.chains
    ensures Formatted(WithPhase(q, h, ph), k, WithPhase(q, h, ph).chains[k])
  {
    assert Open(0);
    assert Formatted(q, h, q.chains[h]) && Formatted(q, k, q.chains[k]);
  }

  lemma PhasePlaced(q: Queue, h: nat, ph: Phase, i: nat)
    requires Chains(q) && h in q.chains && i < NUM
    ensures Placed(WithPhase(q, h, ph), i)
  {
    assert Open(0);
    assert Placed(q, i);
  }

  lemma SetPhase(q: Queue, h: nat, ph: Phase)
    requires Chains(q) && h in q.chains
    ensures Chains(WithPhase(q, h, ph))
  {
    var w := WithPhase(q, h, ph);
    forall k: nat | k in w.chains ensures Formatted(w, k, w.chains[k]) {
      PhaseFormatted(q, h, ph, k);
    }
    forall i: nat | i < NUM ensures Placed(w, i) {
      PhasePlaced(q, h, ph, i);
    }
    assert Buffers(w.chains) by {
      assert Open(0);
    }
  }

  ghost function Set(free: seq<bool>): set<nat> { set k: nat | k < |free| && free[k] }

  lemma FreedOne(free: seq<bool>, i: nat)
    requires i < |free| && !free[i]
    ensures |Set(free[i := true])| == |Set(free)| + 1
  {
    assert Set(free[i := true]) == Set(free) + {i};
  }

  lemma DropFrees(q: Queue, h: nat)
    requires Chains(q) && h in q.chains
    ensures |Set(WithoutChain(q, h).free)| == |Set(q.free)| + 3
  {
    assert Open(0);
    var c := q.chains[h];
    assert Formatted(q, h, c) && Placed(q, h) && Placed(q, c.mid) && Placed(q, c.tail);
    FreedOne(q.free, h);
    FreedOne(q.free[h := true], c.mid);
    FreedOne(q.free[h := true][c.mid := true], c.tail);
  }

  lemma AllFree(q: Queue)
    requires Chains(q) && |q.chains| == 0
    ensures |Set(q.free)| == NUM
  {
    assert Open(0);
    forall i: nat | i < NUM ensures q.free[i] {
      assert Placed(q, i);
    }
    Eight(q.free);
  }

  lemma Eight(free: seq<bool>)
    requires |free| == NUM && forall i: nat | i < NUM :: free[i]
    ensures |Set(free)| == NUM
  {
    assert Set(free) == {0, 1, 2, 3, 4, 5, 6, 7};
  }

  /** No descriptor is lost or counted twice. */
  lemma {:induction false} Counted(q: Queue)
    requires Chains(q)
    ensures |Set(q.free)| + 3 * |q.chains| == NUM
    decreases |q.chains|
  {
    if |q.chains| == 0 {
      AllFree(q);
    } else {
      var h :| h in q.chains.Keys;
      DropFrees(q, h);
      DropChain(q, h);
      var w := WithoutChain(q, h);
      assert w.chains.Keys == q.chains.Keys - {h};
      Counted(w);
    }
  }

  lemma TooFew(free: seq<bool>, idx: seq<nat>)
    requires |idx| < 3 && Distinct(idx) && forall k: nat | k < |free| && free[k] :: k in idx
    ensures |Set(free)| < 3
  {
    var s: set<nat> := set k: nat | k < |idx| :: idx[k];
    assert Set(free) <= s;
    assert s == if |idx| == 0 then {} else if |idx| == 1 then {idx[0]} else {idx[0], idx[1]};
    SubsetSize(Set(free), s);
  }

  lemma {:induction false} SubsetSize(a: set<nat>, b: set<nat>)
    requires a <= b
    ensures |a| <= |b|
    decreases |a|
  {
    if a != {} {
      var x :| x in a;
      SubsetSize(a - {x}, b - {x});
    }
  }

  /** s lists the chains in phase ph, each once. */
  ghost predicate Listed(chains: map<nat, Chain>, s: seq<nat>, ph: Phase) {
    && Distinct(s) && (forall i: nat | i < |s| :: s[i] in chains && chains[s[i]].phase == ph)
    && (forall h: nat | h in chains && chains[h].phase == ph :: h in s)
  }

  ghost predicate Marked(chains: map<nat, Chain>, busy: set<nat>) {
    forall h: nat | h in chains :: chains[h].b in busy <==> chains[h].phase != Seen
  }

  lemma ListPush(chains: map<nat, Chain>, s: seq<nat>, ph: Phase, h: nat, c: Chain)
    requires Listed(chains, s, ph) && c.phase == ph && (h in chains ==> chains[h].phase != ph)
    ensures Listed(chains[h := c], s + [h], ph)
  {
    assert h !in s;
  }

  /** h leaves phase ph, where it was first in the list, or was not in it. */
  lemma ListPop(chains: map<nat, Chain>, s: seq<nat>, ph: Phase, c: Chain)
    requires Listed(chains, s, ph) && s != [] && c.phase != ph
    ensures Listed(chains[s[0] := c], s[1..], ph)
  {
    var next := chains[s[0] := c];
    forall i: nat | i < |s[1..]| ensures s[1..][i] in next && next[s[1..][i]].phase == ph {
      assert s[1..][i] == s[i + 1] != s[0];
    }
    forall h: nat | h in next && next[h].phase == ph ensures h in s[1..] {
      assert s == [s[0]] + s[1..];
    }
  }

  lemma ListSkip(chains: map<nat, Chain>, s: seq<nat>, ph: Phase, h: nat, c: Chain)
    requires Listed(chains, s, ph) && (h in chains ==> chains[h].phase != ph) && c.phase != ph
    ensures Listed(chains[h := c], s, ph) && Listed(chains - {h}, s, ph)
  {
  }

  ghost predicate Unused(chains: map<nat, Chain>, b: nat) { forall k: nat | k in chains :: chains[k].b != b }

  /** All heads are descriptors, and so is h. */
  ghost predicate Indices(chains: map<nat, Chain>, h: nat) { h < NUM && forall k: nat | k in chains :: k < NUM }

  lemma HeadsBelow(q: Queue, h: nat)
    requires Chains(q) && h < NUM
    ensures Indices(q.chains, h)
  {
    assert Open(0);
    forall k: nat | k in q.chains ensures k < NUM {
      assert Formatted(q, k, q.chains[k]);
    }
  }

  /** free is was without the three descriptors in idx. */
  ghost predicate Took(was: seq<bool>, free: seq<bool>, idx: seq<nat>) {
    && |was| == NUM && |free| == NUM && |idx| == 3 && Distinct(idx)
       && (forall k: nat | k < 3 :: idx[k] < NUM && was[idx[k]])
    && forall k: nat | k < NUM :: free[k] <==> was[k] && k !in idx
  }

  lemma ThreeFree(was: seq<bool>, free: seq<bool>, idx: seq<nat>)
    requires Took(was, free, idx)
    ensures |Set(was)| >= 3
  {
    assert {idx[0], idx[1], idx[2]} <= Set(was);
    SubsetSize({idx[0], idx[1], idx[2]}, Set(was));
  }

  /** Three descriptors are free exactly while fewer than two requests are in flight. */
  lemma Enough(q: Queue, ok: bool, free: seq<bool>, idx: seq<nat>)
    requires Chains(q) && (if ok then Took(q.free, free, idx) else |Set(q.free)| < 3)
    ensures ok <==> |q.chains| < 2
  {
    Counted(q);
    if ok { ThreeFree(q.free, free, idx); }
  }

  lemma FreeTaken(was: seq<bool>, free: seq<bool>, idx: seq<nat>, a: nat, b: nat, c: nat)
    requires |was| == NUM && |free| == NUM && |idx| == 3 && a == idx[0] < NUM && b == idx[1] < NUM && c == idx[2] < NUM
    requires forall k: nat | k < NUM :: free[k] <==> was[k] && k !in idx
    ensures free == was[a := false][b := false][c := false]
  {
    assert forall k :: k in idx <==> k == a || k == b || k == c;
  }

  // ---- what each step keeps ----

  datatype Io = Io(queued: seq<nat>, done: seq<nat>, busy: set<nat>, avail: seq<nat>, devAvail: nat, availIdx: nat,
      used: seq<nat>, usedSeen: nat, usedIdx: nat)

  /** The rings hold exactly the requests in that phase, in order; a buffer is marked while the disk has it. */
  ghost predicate Rings(cs: map<nat, Chain>, r: Io) {
    && Listed(cs, r.queued, Queued) && Listed(cs, r.done, Done) && Marked(cs, r.busy)
    && Pending(r.avail, r.devAvail, r.availIdx, r.queued) && Pending(r.used, r.usedSeen, r.usedIdx, r.done)
    && Buffers(cs)
  }

  ghost function Published(r: Io, h: nat, b: nat, idx: nat): Io
    requires |r.avail| == NUM
  {
    r.(busy := r.busy + {b}, avail := r.avail[r.availIdx % NUM := h], availIdx := idx, queued := r.queued + [h])
  }

  lemma ListedPush(cs: map<nat, Chain>, ring: seq<nat>, at: nat, idx: nat, s: seq<nat>, ph: Phase, h: nat, idx': nat)
    requires Listed(cs, s, ph) && Pending(ring, at, idx, s) && Indices(cs, h) && h !in s && idx' == (idx + 1) % WRAP
    ensures Pending(ring[idx % NUM := h], at, idx', s + [h])
  {
    Room(s, h);
    RingPush(ring, at, idx, s, h, idx');
  }

  lemma MoveOn(cs: map<nat, Chain>, busy: set<nat>, h: nat, ph: Phase)
    requires Marked(cs, busy) && Buffers(cs) && h in cs && cs[h].phase != Seen
    ensures var to := cs[h := cs[h].(phase := ph)];
            Buffers(to) && Marked(to, if ph == Seen then busy - {cs[h].b} else busy)
  {
  }

  lemma PublishBuffers(cs: map<nat, Chain>, busy: set<nat>, h: nat, c: Chain)
    requires Marked(cs, busy) && Buffers(cs) && h !in cs && c.phase == Queued && Unused(cs, c.b)
    ensures Marked(cs[h := c], busy + {c.b}) && Buffers(cs[h := c])
  {
  }

  lemma PublishAvail(cs: map<nat, Chain>, r: Io, h: nat, c: Chain, idx: nat)
    requires Rings(cs, r) && h !in cs && c.phase == Queued && Indices(cs, h) && idx == (r.availIdx + 1) % WRAP
    ensures var to := Published(r, h, c.b, idx);
            Listed(cs[h := c], to.queued, Queued) && Pending(to.avail, to.devAvail, to.availIdx, to.queued)
  {
    ListPush(cs, r.queued, Queued, h, c);
    ListedPush(cs, r.avail, r.devAvail, r.availIdx, r.queued, Queued, h, idx);
  }

  lemma PublishUsed(cs: map<nat, Chain>, r: Io, h: nat, c: Chain, idx: nat)
    requires Rings(cs, r) && h !in cs && c.phase == Queued && idx == (r.availIdx + 1) % WRAP
    ensures var to := Published(r, h, c.b, idx);
            Listed(cs[h := c], to.done, Done) && Pending(to.used, to.usedSeen, to.usedIdx, to.done)
  {
    ListSkip(cs, r.done, Done, h, c);
  }

  lemma PublishKeeps(cs: map<nat, Chain>, r: Io, h: nat, c: Chain, idx: nat)
    requires Rings(cs, r) && h !in cs && c.phase == Queued && Unused(cs, c.b) && Indices(cs, h)
             && idx == (r.availIdx + 1) % WRAP
    ensures Rings(cs[h := c], Published(r, h, c.b, idx))
  {
    PublishBuffers(cs, r.busy, h, c);
    PublishAvail(cs, r, h, c, idx);
    PublishUsed(cs, r, h, c, idx);
  }

  lemma TakeKeeps(cs: map<nat, Chain>, r: Io, next: nat, h: nat) returns (to: map<nat, Chain>, rest: seq<nat>)
    requires Rings(cs, r) && r.devAvail != r.availIdx && next == (r.devAvail + 1) % WRAP
             && h == r.avail[r.devAvail % NUM]
    ensures r.queued == [h] + rest && h in cs && cs[h].phase == Queued && to == cs[h := cs[h].(phase := Taken)]
    ensures Rings(to, r.(devAvail := next, queued := rest))
  {
    rest := r.queued[1..];
    to := cs[h := cs[h].(phase := Taken)];
    ListPop(cs, r.queued, Queued, to[h]);
    MoveOn(cs, r.busy, h, Taken);
    ListSkip(cs, r.done, Done, h, to[h]);
  }

  lemma CompleteKeeps(cs: map<nat, Chain>, r: Io, h: nat, idx: nat, used: seq<nat>)
      returns (to: map<nat, Chain>, more: seq<nat>)
    requires Rings(cs, r) && h in cs && cs[h].phase == Taken && Indices(cs, h)
    requires idx == (r.usedIdx + 1) % WRAP && used == r.used[r.usedIdx % NUM := h]
    ensures to == cs[h := cs[h].(phase := Done)] && more == r.done + [h]
            && Rings(to, r.(used := used, usedIdx := idx, done := more))
  {
    to, more := cs[h := cs[h].(phase := Done)], r.done + [h];
    ListPush(cs, r.done, Done, h, to[h]);
    ListSkip(cs, r.queued, Queued, h, to[h]);
    ListedPush(cs, r.used, r.usedSeen, r.usedIdx, r.done, Done, h, idx);
    MoveOn(cs, r.busy, h, Done);
  }

  lemma SeenKeeps(cs: map<nat, Chain>, r: Io, next: nat, h: nat) returns (to: map<nat, Chain>, rest: seq<nat>)
    requires Rings(cs, r) && r.usedSeen != r.usedIdx && next == (r.usedSeen + 1) % WRAP && h == r.used[r.usedSeen % NUM]
    ensures r.done == [h] + rest && h in cs && cs[h].phase == Done && to == cs[h := cs[h].(phase := Seen)]
    ensures Rings(to, r.(usedSeen := next, done := rest, busy := r.busy - {cs[h].b}))
  {
    rest := r.done[1..];
    to := cs[h := cs[h].(phase := Seen)];
    ListPop(cs, r.done, Done, to[h]);
    MoveOn(cs, r.busy, h, Seen);
    ListSkip(cs, r.queued, Queued, h, to[h]);
  }

  lemma FinishKeeps(cs: map<nat, Chain>, r: Io, h: nat)
    requires Rings(cs, r) && h in cs && cs[h].b !in r.busy
    ensures Rings(cs - {h}, r)
  {
    ListSkip(cs, r.queued, Queued, h, cs[h]);
    ListSkip(cs, r.done, Done, h, cs[h]);
  }

  lemma FreeClear(q: Queue)
    requires Chains(q)
    ensures forall i: nat | i < NUM && q.free[i] :: q.desc[i] == CLEAR
  {
    assert Open(0);
    forall i: nat | i < NUM && q.free[i] ensures q.desc[i] == CLEAR {
      assert Placed(q, i);
    }
  }

  lemma HeadOf(q: Queue, h: nat)
    requires Chains(q) && h in q.chains
    ensures Indices(q.chains, h) && Formatted(q, h, q.chains[h])
    ensures !q.free[h] && !q.free[q.chains[h].mid] && !q.free[q.chains[h].tail]
  {
    assert Open(0);
    HeadsBelow(q, 0);
    assert Formatted(q, h, q.chains[h]);
    assert Placed(q, h) && Placed(q, q.chains[h].mid) && Placed(q, q.chains[h].tail);
  }

  /** A request moves on without its status changing. */
  lemma PhaseKeeps(q: Queue, h: nat, ph: Phase, cs: map<nat, Chain>)
    requires Chains(q) && h in q.chains
             && ((ph == Taken && q.chains[h].phase == Queued) || (ph == Seen && q.chains[h].phase == Done))
    requires cs == q.chains[h := q.chains[h].(phase := ph)]
    ensures Chains(q.(chains := cs)) && h < NUM
            && q.info[h] == Info(Some(q.chains[h].b), if ph == Seen then 0 else 0xff)
  {
    HeadOf(q, h);
    SetPhase(q, h, ph);
    SameInfo(q, h, ph);
    assert WithPhase(q, h, ph) == q.(chains := cs);
  }

  lemma DoneKeeps(q: Queue, h: nat, cs: map<nat, Chain>, info: seq<Info>)
    requires Chains(q) && h in q.chains && q.chains[h].phase == Taken
             && cs == q.chains[h := q.chains[h].(phase := Done)]
    requires h < NUM && info == q.info[h := q.info[h].(status := 0)]
    ensures Chains(q.(chains := cs, info := info))
  {
    HeadOf(q, h);
    SetPhase(q, h, Done);
    assert WithPhase(q, h, Done) == q.(chains := cs, info := info);
  }

  /** now is was with the listed requests seen. */
  ghost predicate AllSeen(was: map<nat, Chain>, now: map<nat, Chain>, s: seq<nat>) {
    now.Keys == was.Keys && forall h: nat | h in was ::
        now[h] == was[h].(phase := if h in s then Seen else was[h].phase)
  }

  /** Of the completions all, the handler has seen those before the ones left. */
  ghost predicate Handling(was: map<nat, Chain>, now: map<nat, Chain>, all: seq<nat>, left: seq<nat>) {
    exists s: seq<nat> :: all == s + left && AllSeen(was, now, s)
  }

  lemma HandlingStarts(cs: map<nat, Chain>, all: seq<nat>)
    ensures Handling(cs, cs, all, all)
  {
    assert all == [] + all && AllSeen(cs, cs, []);
  }

  lemma HandlingStep(was: map<nat, Chain>, cs: map<nat, Chain>, now: map<nat, Chain>, all: seq<nat>, id: nat,
      left: seq<nat>)
    requires Handling(was, cs, all, [id] + left) && id in cs && now == cs[id := cs[id].(phase := Seen)]
    ensures Handling(was, now, all, left)
  {
    var s :| all == s + ([id] + left) && AllSeen(was, cs, s);
    assert now.Keys == cs.Keys;
    assert all == (s + [id]) + left && AllSeen(was, now, s + [id]);
  }

  lemma HandlingEnds(was: map<nat, Chain>, now: map<nat, Chain>, all: seq<nat>, r: Io)
    requires Handling(was, now, all, r.done) && Rings(now, r) && r.usedSeen == r.usedIdx
    ensures r.done == [] && AllSeen(was, now, all)
  {
    RingEmpty(r.used, r.usedSeen, r.usedIdx, r.done);
    var s :| all == s + r.done && AllSeen(was, now, s);
    assert all == s;
  }

  lemma SameInfo(q: Queue, h: nat, ph: Phase)
    requires Chains(q) && h in q.chains
             && ((ph == Taken && q.chains[h].phase == Queued) || (ph == Seen && q.chains[h].phase == Done))
    ensures WithPhase(q, h, ph).info == q.info
  {
    assert Open(0);
    assert Formatted(q, h, q.chains[h]);
  }

  // ---- the data ----

  /** The buffer of a request is in memory and its sectors are on the disk; the buffer holds what is to be written, or
      what has been read. */
  ghost predicate DataAt(c: Chain, data: Block, bufs: map<nat, Block>, size: nat) {
    && c.b in bufs && c.sector * 512 + BSIZE <= size
    && (c.write || c.phase == Done || c.phase == Seen ==> bufs[c.b] == data)
  }

  ghost predicate Data(cs: map<nat, Chain>, moved: map<nat, Block>, bufs: map<nat, Block>, size: nat) {
    forall k: nat {:trigger Open(k)} :: Open(k) ==>
      forall h: nat | h in cs :: h in moved && DataAt(cs[h], moved[h], bufs, size)
  }

  lemma DataOf(cs: map<nat, Chain>, moved: map<nat, Block>, bufs: map<nat, Block>, size: nat, h: nat)
    requires Data(cs, moved, bufs, size) && h in cs
    ensures h in moved && DataAt(cs[h], moved[h], bufs, size)
  {
    assert Open(0);
  }

  lemma DataEnter(cs: map<nat, Chain>, moved: map<nat, Block>, bufs: map<nat, Block>, size: nat, h: nat, c: Chain)
    requires Data(cs, moved, bufs, size) && c.b in bufs && c.sector * 512 + BSIZE <= size && c.phase == Queued
    ensures Data(cs[h := c], moved[h := bufs[c.b]], bufs, size)
  {
    assert Open(0);
  }

  lemma DataLeave(cs: map<nat, Chain>, moved: map<nat, Block>, bufs: map<nat, Block>, size: nat, h: nat)
    requires Data(cs, moved, bufs, size)
    ensures Data(cs - {h}, moved, bufs, size)
  {
    assert Open(0);
  }

  lemma DataStore(cs: map<nat, Chain>, moved: map<nat, Block>, bufs: map<nat, Block>, size: nat, b: nat, data: Block)
    requires Data(cs, moved, bufs, size) && Unused(cs, b)
    ensures Data(cs, moved, bufs[b := data], size)
  {
    assert Open(0);
    forall h: nat | h in cs ensures DataAt(cs[h], moved[h], bufs[b := data], size) {
      assert DataAt(cs[h], moved[h], bufs, size);
    }
  }

  /** The sector number is 32 bits wide, enough for this disk. */
  method Sector(blockno: nat, ghost size: nat) returns (sector: nat)
    requires blockno * BSIZE + BSIZE <= size <= 0x200_0000_0000
    ensures sector * 512 == blockno * BSIZE
  {
    sector := blockno * (BSIZE / 512) % 0x1_0000_0000;
  }

  lemma ChainFlags(write: bool, d: Desc, s: Desc, h: Desc)
    requires h.flags == F_NEXT && d.flags == (F_NEXT + if write then 0 else F_WRITE) && s.flags == F_WRITE
    ensures HasNext(h) && !DeviceWrites(h) && HasNext(d) && DeviceWrites(d) == !write && !HasNext(s) && DeviceWrites(s)
  {
  }

  lemma Transfers(c: Chain, d: Desc, h: nat, bufs: map<nat, Block>, platter: seq<byte>)
    requires d.addr == Buffer(c.b) && d.len == BSIZE && DeviceWrites(d) == !c.write && c.b in bufs
    requires c.sector * 512 + BSIZE <= |platter|
    ensures var off := c.sector * 512;
            Transfer(Req(if c.write then T_OUT else T_IN, c.sector), d, h, bufs, platter) ==
              if c.write then Served(0, h, bufs, Stored(platter, off, bufs[c.b]))
              else Served(0, h, bufs[c.b := platter[off..off + BSIZE]], platter)
  {
  }

  /** The device does what the request says. */
  lemma Serves(q: Queue, h: nat, bufs: map<nat, Block>, platter: seq<byte>)
    requires Chains(q) && h in q.chains && q.chains[h].b in bufs && q.chains[h].sector * 512 + BSIZE <= |platter|
    ensures var c := q.chains[h]; var off := c.sector * 512;
            Serve(q.desc, q.ops, h, bufs, platter) ==
              if c.write then Served(0, h, bufs, Stored(platter, off, bufs[c.b]))
              else Served(0, h, bufs[c.b := platter[off..off + BSIZE]], platter)
  {
    var c := q.chains[h];
    assert Formatted(q, h, c) by { assert Open(0); }
    ChainFlags(c.write, q.desc[c.mid], q.desc[c.tail], q.desc[h]);
    Transfers(c, q.desc[c.mid], h, bufs, platter);
  }

  lemma DataPhase(cs: map<nat, Chain>, moved: map<nat, Block>, bufs: map<nat, Block>, size: nat, h: nat, ph: Phase)
    requires Data(cs, moved, bufs, size) && h in cs && (ph == Taken || (ph == Seen && cs[h].phase == Done))
    ensures Data(cs[h := cs[h].(phase := ph)], moved, bufs, size)
  {
    assert Open(0);
  }

  lemma DataDone(cs: map<nat, Chain>, moved: map<nat, Block>, bufs: map<nat, Block>, size: nat, h: nat, data: Block)
    requires Data(cs, moved, bufs, size) && Buffers(cs) && h in cs
    requires cs[h].b in bufs && (cs[h].write ==> bufs[cs[h].b] == data)
    ensures Data(cs[h := cs[h].(phase := Done)], moved[h := data], bufs[cs[h].b := data], size)
  {
    assert Open(0);
    var next := cs[h := cs[h].(phase := Done)];
    forall k: nat | k in next ensures DataAt(next[k], moved[h := data][k], bufs[cs[h].b := data], size) {
      assert k != h ==> cs[k].b != cs[h].b && DataAt(cs[k], moved[k], bufs, size);
    }
  }

  /** What a completed request has done to memory and disk. */
  ghost predicate Moved(c: Chain, h: nat, was: map<nat, Block>, now: map<nat, Block>, from: seq<byte>, to: seq<byte>,
      moved: map<nat, Block>, moved': map<nat, Block>)
  {
    |to| == |from| && forall k: nat {:trigger Open(k)} :: Open(k) ==>
      && c.b in was && c.b in now && c.sector * 512 + BSIZE <= |from|
      && var off := c.sector * 512;
         if c.write then now == was && moved' == moved && to == Stored(from, off, was[c.b])
         else to == from && now == was[c.b := from[off..off + BSIZE]] && moved' == moved[h := now[c.b]]
  }

  /** What one request moves changes the buffer of no other. */
  lemma ServedData(q: Queue, h: nat, moved: map<nat, Block>, bufs: map<nat, Block>, platter: seq<byte>, s: Served)
      returns (moved': map<nat, Block>)
    requires Chains(q) && Buffers(q.chains) && Data(q.chains, moved, bufs, |platter|) && h in q.chains
    requires s == Serve(q.desc, q.ops, h, bufs, platter)
    ensures s.Served? && s.status == 0 && s.head == h
    ensures Moved(q.chains[h], h, bufs, s.bufs, platter, s.platter, moved, moved')
    ensures Data(q.chains[h := q.chains[h].(phase := Done)], moved', s.bufs, |s.platter|)
  {
    var c := q.chains[h];
    DataOf(q.chains, moved, bufs, |platter|, h);
    Serves(q, h, bufs, platter);
    var data := s.bufs[c.b];
    moved' := moved[h := data];
    DataDone(q.chains, moved, bufs, |platter|, h, data);
    assert bufs[c.b := data] == s.bufs;
    if c.write { assert moved' == moved; }
  }

  /** Block n of the disk. */
  ghost function BlockAt(platter: seq<byte>, n: nat): Block
    requires n * BSIZE + BSIZE <= |platter|
  {
    platter[n * BSIZE..n * BSIZE + BSIZE]
  }

  lemma StoredBlocks(platter: seq<byte>, n: nat, data: Block, k: nat)
    requires n * BSIZE + BSIZE <= |platter| && k * BSIZE + BSIZE <= |platter|
    ensures |Stored(platter, n * BSIZE, data)| == |platter|
    ensures BlockAt(Stored(platter, n * BSIZE, data), k) == if k == n then data else BlockAt(platter, k)
  {
    var now := Stored(platter, n * BSIZE, data);
    assert k < n ==> k * BSIZE + BSIZE <= n * BSIZE;
    assert n < k ==> n * BSIZE + BSIZE <= k * BSIZE;
  }

  /** A completed write of block n has put its buffer there and changed no other block; a read has filled its buffer
      with block n and changed no other buffer. */
  lemma MovedBlocks(c: Chain, h: nat, was: map<nat, Block>, now: map<nat, Block>, from: seq<byte>, to: seq<byte>,
      moved: map<nat, Block>, moved': map<nat, Block>, n: nat, k: nat)
    requires Moved(c, h, was, now, from, to, moved, moved') && c.sector * 512 == n * BSIZE
    requires n * BSIZE + BSIZE <= |from| && k * BSIZE + BSIZE <= |from|
    ensures c.b in was && c.b in now
    ensures BlockAt(to, k) == if c.write && k == n then was[c.b] else BlockAt(from, k)
    ensures now == if c.write then was else was[c.b := BlockAt(from, n)]
  {
    assert Open(0);
    if c.write { StoredBlocks(from, n, was[c.b], k); }
  }

  class Disk {
    var free: seq<bool>
    var desc: seq<Desc>
    var ops: seq<Req>
    var info: seq<Info>
    var avail: seq<nat>
    var availIdx: nat
    var used: seq<nat>
    var usedIdx: nat          // used->idx, which the device advances
    var usedSeen: nat         // disk.used_idx
    var devAvail: nat         // how far the device has looked in avail
    var busy: set<nat>        // the buffers with b->disk set
    var bufs: map<nat, Block>     // b->data
    var platter: seq<byte>        // what is on the disk
    ghost var moved: map<nat, Block>  // what each request in flight writes, or has read
    ghost var owner: seq<Option>
    ghost var chains: map<nat, Chain>
    ghost var queued: seq<nat>
    ghost var done: seq<nat>

    ghost function Q(): Queue
      reads this`free, this`desc, this`ops, this`info, this`owner, this`chains
    {
      Queue(free, desc, ops, info, owner, chains)
    }

    /** virtio_disk_init: the queue memory is zeroed and all descriptors start out unused. */
    constructor (memory: map<nat, Block>, image: seq<byte>)
      requires |image| <= 0x200_0000_0000
      ensures Valid() && bufs == memory && platter == image && chains == map[] && busy == {}
      ensures forall i: nat | i < NUM :: free[i]
    {
      free := [true, true, true, true, true, true, true, true];
      desc := [CLEAR, CLEAR, CLEAR, CLEAR, CLEAR, CLEAR, CLEAR, CLEAR];
      ops := seq(NUM, i => Req(0, 0));
      info := seq(NUM, i => Info(None, 0));
      avail, used := [0, 0, 0, 0, 0, 0, 0, 0], [0, 0, 0, 0, 0, 0, 0, 0];
      availIdx, usedIdx, usedSeen, devAvail, busy := 0, 0, 0, 0, {};
      owner := [None, None, None, None, None, None, None, None];
      chains, queued, done := map[], [], [];
      bufs, platter, moved := memory, image, map[];
    }

    /** alloc_desc: the first free descriptor, or -1. */
    method AllocDesc() returns (i: int)
      requires |free| == NUM
      modifies this`free
      ensures |free| == NUM
      ensures i < 0 ==> free == old(free) && forall k: nat | k < NUM :: !free[k]
      ensures i >= 0 ==>
              i < NUM && old(free)[i] && free == old(free)[i := false] && forall k: nat | k < i :: !old(free)[k]
    {
      i := 0;
      while i < NUM
        invariant 0 <= i <= NUM && free == old(free) && forall k: nat | k < i :: !free[k]
      {
        if free[i] {
          free := free[i := false];
          return;
        }
        i := i + 1;
      }
      i := -1;
    }

    method FreeDesc(i: nat)
      requires |free| == NUM && |desc| == NUM && i < NUM && !free[i]
      modifies this`free, this`desc
      ensures free == old(free)[i := true] && desc == old(desc)[i := CLEAR]
    {
      desc := desc[i := CLEAR];
      free := free[i := true];
    }

    /** alloc3_desc takes three free descriptors, or none if there are not three. */
    method Alloc3Desc() returns (ok: bool, idx: seq<nat>)
      requires |free| == NUM && |desc| == NUM && forall k: nat | k < NUM && free[k] :: desc[k] == CLEAR
      modifies this`free, this`desc
      ensures desc == old(desc) && |free| == NUM
      ensures !ok ==> free == old(free) && |Set(free)| < 3
      ensures ok ==> Took(old(free), free, idx)
    {
      idx := [];
      while |idx| < 3
        invariant |idx| <= 3 && Distinct(idx) && desc == old(desc) && |free| == NUM
        invariant forall k: nat | k < |idx| :: idx[k] < NUM && old(free)[idx[k]]
        invariant forall k: nat | k < NUM :: free[k] <==> old(free)[k] && k !in idx
        decreases 3 - |idx|
      {
        var i := AllocDesc();
        if i < 0 {
          Undo(idx, old(free));
          TooFew(old(free), idx);
          return false, [];
        }
        idx := idx + [i];
      }
      ok := true;
    }

    /** alloc3_desc's inner loop. */
    method Undo(idx: seq<nat>, ghost was: seq<bool>)
      requires |free| == NUM && |desc| == NUM && |was| == NUM && Distinct(idx) && forall k: nat | k < |idx| ::
               idx[k] < NUM && was[idx[k]] && desc[idx[k]] == CLEAR
      requires forall k: nat | k < NUM :: free[k] <==> was[k] && k !in idx
      modifies this`free, this`desc
      ensures free == was && desc == old(desc)
    {
      var j := 0;
      while j < |idx|
        invariant j <= |idx| && |free| == NUM && desc == old(desc) && forall k: nat | k < NUM ::
                  free[k] <==> was[k] && k !in idx[j..]
      {
        assert idx[j..] == [idx[j]] + idx[j + 1..];
        assert idx[j] !in idx[j + 1..];
        FreeDesc(idx[j]);
        assert desc == old(desc);
        j := j + 1;
      }
    }

    /** free_chain follows the NEXT flags and frees exactly the three descriptors of the chain. */
    method FreeChain(head: nat)
      requires Chains(Q()) && head in chains
      modifies this`free, this`desc
      ensures var c := chains[head];
              && head < NUM && c.mid < NUM && c.tail < NUM
              && free == old(free)[head := true][c.mid := true][c.tail := true]
              && desc == old(desc)[head := CLEAR][c.mid := CLEAR][c.tail := CLEAR]
    {
      ghost var c := chains[head];
      HeadOf(Q(), head);
      ghost var n := 3;
      var i := head;
      while true
        invariant |free| == NUM && |desc| == NUM && 0 < n <= 3
        invariant n == 3 ==> i == head && free == old(free) && desc == old(desc)
        invariant n == 2 ==> i == c.mid && free == old(free)[head := true] && desc == old(desc)[head := CLEAR]
        invariant n == 1 ==>
                  i == c.tail && free == old(free)[head := true][c.mid := true]
                  && desc == old(desc)[head := CLEAR][c.mid := CLEAR]
        decreases n
      {
        var flag, nxt := desc[i].flags, desc[i].next;
        FreeDesc(i);
        n := n - 1;
        if flag % 2 == 1 { i := nxt; } else { break; }
      }
    }

    ghost function R(): Io
      reads this`queued, this`done, this`busy, this`avail, this`devAvail, this`availIdx, this`used, this`usedSeen,
            this`usedIdx
    {
      Io(queued, done, busy, avail, devAvail, availIdx, used, usedSeen, usedIdx)
    }

    ghost predicate Valid()
      reads this
    {
      Queues() && Data(chains, moved, bufs, |platter|) && |platter| <= 0x200_0000_0000
    }

    ghost predicate Queues()
      reads this`free, this`desc, this`ops, this`info, this`owner, this`chains, this`queued, this`done, this`busy,
            this`avail, this`devAvail, this`availIdx, this`used, this`usedSeen, this`usedIdx
    {
      Chains(Q()) && Rings(chains, R())
    }

    /** virtio_disk_rw up to the notification. If there are not three free descriptors, which is when two requests are
        in flight, nothing happens and the caller sleeps. */
    method Submit(b: nat, blockno: nat, write: bool) returns (ok: bool, h: nat)
      requires Valid() && Unused(chains, b) && b in bufs && blockno * BSIZE + BSIZE <= |platter|
      modifies this`free, this`desc, this`ops, this`info, this`avail, this`availIdx, this`busy, this`owner, this`chains,
               this`queued, this`moved
      ensures Valid()
      ensures ok <==> |old(chains)| < 2
      ensures !ok ==> Q() == old(Q()) && busy == old(busy) && queued == old(queued)
      ensures ok ==>
              h !in old(chains) && h in chains && chains == old(chains)[h := chains[h]]
              && queued == old(queued) + [h] && busy == old(busy) + {b}
      ensures ok ==>
              chains[h].b == b && chains[h].write == write
              && chains[h].sector * 512 == blockno * BSIZE && chains[h].phase == Queued
      ensures moved == if ok then old(moved)[h := bufs[b]] else old(moved)
    {
      var sector := Sector(blockno, |platter|);
      ok, h := Request(b, sector, write);
      Note(old(chains), ok, h, b);
    }

    ghost method Note(was: map<nat, Chain>, ok: bool, h: nat, b: nat)
      requires Queues() && Data(was, moved, bufs, |platter|) && |platter| <= 0x200_0000_0000 && b in bufs
      requires ok ==>
               && h in chains && chains == was[h := chains[h]] && chains[h].b == b && chains[h].phase == Queued
               && chains[h].sector * 512 + BSIZE <= |platter|
      requires !ok ==> chains == was
      modifies this`moved
      ensures Valid() && moved == if ok then old(moved)[h := bufs[b]] else old(moved)
    {
      if ok {
        DataEnter(was, moved, bufs, |platter|, h, chains[h]);
        moved := moved[h := bufs[b]];
      }
    }

    method Request(b: nat, sector: nat, write: bool) returns (ok: bool, h: nat)
      requires Queues() && Unused(chains, b)
      modifies this`free, this`desc, this`ops, this`info, this`avail, this`availIdx, this`busy, this`owner, this`chains,
               this`queued
      ensures Queues()
      ensures ok <==> |old(chains)| < 2
      ensures !ok ==> Q() == old(Q()) && chains == old(chains) && busy == old(busy) && queued == old(queued)
      ensures ok ==>
              h !in old(chains) && h in chains && chains == old(chains)[h := chains[h]]
              && queued == old(queued) + [h] && busy == old(busy) + {b}
      ensures ok ==>
              chains[h].b == b && chains[h].write == write && chains[h].sector == sector && chains[h].phase == Queued
    {
      h := 0;
      ghost var q, r := Q(), R();
      var idx;
      FreeClear(q);
      ok, idx := Alloc3Desc();
      assert R() == r;
      Enough(q, ok, free, idx);
      if ok {
        h := idx[0];
        ghost var c := Enter(q, idx, b, sector, write);
        assert R() == r;
        Publish(q.chains, h, b, c);
      }
    }

    /** The three descriptors become a chain. */
    method Enter(ghost q: Queue, idx: seq<nat>, b: nat, sector: nat, write: bool) returns (ghost c: Chain)
      requires Chains(q) && Q() == q.(free := free) && Took(q.free, free, idx) && Unused(q.chains, b)
      modifies this`desc, this`ops, this`info, this`owner, this`chains
      ensures Chains(Q()) && idx[0] !in q.chains && chains == q.chains[idx[0] := c] && Indices(q.chains, idx[0])
      ensures c.b == b && c.write == write && c.sector == sector && c.phase == Queued
    {
      var h, mid, tail := idx[0], idx[1], idx[2];
      c := Chain(mid, tail, b, write, sector, Queued);
      FreeTaken(q.free, free, idx, h, mid, tail);
      AddChain(q, h, c);
      HeadsBelow(q, h);
      Format(h, mid, tail, b, sector, write);
      owner := owner[h := Some(h)][mid := Some(h)][tail := Some(h)];
      chains := chains[h := c];
      assert Q() == WithChain(q, h, c);
    }

    /** The request goes into the available ring. */
    method Publish(ghost was: map<nat, Chain>, h: nat, b: nat, ghost c: Chain)
      requires Rings(was, R()) && h !in was && c.phase == Queued && c.b == b && Unused(was, b) && Indices(was, h)
      modifies this`avail, this`availIdx, this`busy, this`queued
      ensures Rings(was[h := c], R()) && queued == old(queued) + [h] && busy == old(busy) + {b}
    {
      ghost var r := R();
      var idx := (availIdx + 1) % WRAP;
      PublishKeeps(was, r, h, c, idx);
      busy := busy + {b};
      avail := avail[availIdx % NUM := h];
      availIdx := idx;
      queued := queued + [h];
      assert R() == Published(r, h, b, idx);
    }

    /** The three descriptors of a request, its header, and what the interrupt handler needs. */
    method Format(h: nat, mid: nat, tail: nat, b: nat, sector: nat, write: bool)
      requires |desc| == NUM && |ops| == NUM && |info| == NUM && h < NUM && mid < NUM && tail < NUM
      modifies this`desc, this`ops, this`info
      ensures ops == old(ops)[h := Req(if write then T_OUT else T_IN, sector)]
      ensures info == old(info)[h := Info(Some(b), 0xff)]
      ensures desc == old(desc)[h := Desc(Op(h), 16, F_NEXT, mid)][mid :=
              Desc(Buffer(b), BSIZE, F_NEXT + if write then 0
              else F_WRITE, tail)][tail := Desc(StatusOf(h), 1, F_WRITE, 0)]
    {
      ops := ops[h := Req(if write then T_OUT else T_IN, sector)];
      desc := desc[h := Desc(Op(h), 16, F_NEXT, mid)];
      desc := desc[mid := Desc(Buffer(b), BSIZE, (if write then 0 else F_WRITE) + F_NEXT, tail)];
      info := info[h := info[h].(status := 0xff)];
      desc := desc[tail := Desc(StatusOf(h), 1, F_WRITE, 0)];
      info := info[h := info[h].(b := Some(b))];
    }

    /** The kernel changes a buffer that no request is using. */
    method Store(b: nat, data: Block)
      requires Valid() && Unused(chains, b)
      modifies this`bufs
      ensures Valid() && bufs == old(bufs)[b := data]
    {
      DataStore(chains, moved, bufs, |platter|, b, data);
      bufs := bufs[b := data];
    }

    // ---- the device ----

    /** The device takes the next request from the available ring. */
    method DeviceTake() returns (h: nat)
      requires Valid() && devAvail != availIdx
      modifies this`devAvail, this`chains, this`queued
      ensures Valid() && old(queued) == [h] + queued && h in old(chains)
              && chains == old(chains)[h := old(chains)[h].(phase := Taken)]
    {
      ghost var q, r := Q(), R();
      var next := (devAvail + 1) % WRAP;
      h := avail[devAvail % NUM];
      ghost var cs, rest := TakeKeeps(chains, r, next, h);
      PhaseKeeps(q, h, Taken, cs);
      DataPhase(chains, moved, bufs, |platter|, h, Taken);
      Advance(next, rest, cs);
    }

    method Advance(next: nat, ghost rest: seq<nat>, ghost cs: map<nat, Chain>)
      modifies this`devAvail, this`chains, this`queued
      ensures Q() == old(Q()).(chains := cs) && R() == old(R()).(devAvail := next, queued := rest) && chains == cs
              && queued == rest
    {
      devAvail, queued, chains := next, rest, cs;
    }

    /** The device completes a request it has taken, whichever it likes: a block has gone to its place on the disk, or
        has come from there. */
    method DeviceComplete(h: nat)
      requires Valid() && h in chains && chains[h].phase == Taken
      modifies this`info, this`used, this`usedIdx, this`chains, this`done, this`bufs, this`platter, this`moved
      ensures Valid() && done == old(done) + [h] && chains == old(chains)[h := old(chains)[h].(phase := Done)]
      ensures Moved(old(chains)[h], h, old(bufs), bufs, old(platter), platter, old(moved), moved)
    {
      var status, bufs', platter';
      ghost var moved';
      status, bufs', platter', moved' := Execute(h);
      Complete(h, status);
      Settle(bufs', platter', moved');
    }

    method Settle(bufs': map<nat, Block>, platter': seq<byte>, ghost moved': map<nat, Block>)
      requires Queues() && Data(chains, moved', bufs', |platter'|) && |platter'| <= 0x200_0000_0000
      modifies this`bufs, this`platter, this`moved
      ensures Valid() && bufs == bufs' && platter == platter' && moved == moved'
    {
      bufs, platter, moved := bufs', platter', moved';
    }

    /** The device follows the chain. */
    method Execute(h: nat)
      returns (status: nat, bufs': map<nat, Block>, platter': seq<byte>, ghost moved': map<nat, Block>)
      requires Valid() && h in chains
      ensures status == 0 && Moved(chains[h], h, bufs, bufs', platter, platter', moved, moved')
      ensures Data(chains[h := chains[h].(phase := Done)], moved', bufs', |platter'|)
    {
      var served := Serve(desc, ops, h, bufs, platter);
      moved' := ServedData(Q(), h, moved, bufs, platter, served);
      status, bufs', platter' := served.status, served.bufs, served.platter;
    }

    /** The status byte, and the entry in the used ring. */
    method Complete(h: nat, status: nat)
      requires Queues() && h in chains && chains[h].phase == Taken && status == 0
      modifies this`info, this`used, this`usedIdx, this`chains, this`done
      ensures Queues() && done == old(done) + [h] && chains == old(chains)[h := old(chains)[h].(phase := Done)]
    {
      ghost var q, r := Q(), R();
      HeadOf(q, h);
      var idx := (usedIdx + 1) % WRAP;
      var used' := used[usedIdx % NUM := h];
      var info' := info[h := info[h].(status := status)];
      ghost var cs, more := CompleteKeeps(chains, r, h, idx, used');
      DoneKeeps(q, h, cs, info');
      Return(info', used', idx, more, cs);
    }

    method Return(info': seq<Info>, used': seq<nat>, idx: nat, ghost more: seq<nat>, ghost cs: map<nat, Chain>)
      modifies this`info, this`used, this`usedIdx, this`chains, this`done
      ensures Q() == old(Q()).(chains := cs, info := info')
              && R() == old(R()).(used := used', usedIdx := idx, done := more)
      ensures chains == cs && done == more
    {
      info, used, usedIdx, done, chains := info', used', idx, more, cs;
    }

    // ---- completion ----

    /** One round of virtio_disk_intr: the status is good, and the buffer let go is that of the request that is done. */
    method IntrOne() returns (id: nat)
      requires Valid() && usedSeen != usedIdx
      modifies this`usedSeen, this`busy, this`chains, this`done
      ensures Valid() && old(done) == [id] + done && id in old(chains)
              && chains == old(chains)[id := old(chains)[id].(phase := Seen)]
      ensures busy == old(busy) - {old(chains)[id].b} && id < NUM && old(info)[id].status == 0
    {
      ghost var q, r := Q(), R();
      var next := (usedSeen + 1) % WRAP;
      id := used[usedSeen % NUM];
      ghost var cs, rest := SeenKeeps(chains, r, next, id);
      PhaseKeeps(q, id, Seen, cs);
      DataPhase(chains, moved, bufs, |platter|, id, Seen);
      Release(next, info[id].b.b, rest, cs);
    }

    method Release(next: nat, b: nat, ghost rest: seq<nat>, ghost cs: map<nat, Chain>)
      modifies this`usedSeen, this`busy, this`chains, this`done
      ensures Q() == old(Q()).(chains := cs)
              && R() == old(R()).(usedSeen := next, done := rest, busy := old(busy) - {b})
      ensures chains == cs && done == rest && busy == old(busy) - {b}
    {
      busy := busy - {b};
      usedSeen, done, chains := next, rest, cs;
    }

    /** virtio_disk_intr handles every completion there is. */
    method Intr()
      requires Valid()
      modifies this`usedSeen, this`busy, this`chains, this`done
      ensures Valid() && done == [] && usedSeen == usedIdx && AllSeen(old(chains), chains, old(done))
    {
      HandlingStarts(chains, done);
      while usedSeen != usedIdx
        invariant Valid() && Handling(old(chains), chains, old(done), done)
        decreases |done|
      {
        ghost var cs := chains;
        var id := IntrOne();
        HandlingStep(old(chains), cs, chains, old(done), id, done);
      }
      HandlingEnds(old(chains), chains, old(done), R());
    }

    /** The end of virtio_disk_rw, once b->disk is clear: the three descriptors of this request are free again, and its
        buffer holds what was moved. */
    method Finish(h: nat)
      requires Valid() && h in chains && chains[h].b !in busy
      modifies this`free, this`desc, this`info, this`owner, this`chains
      ensures Valid() && chains == old(chains) - {h}
      ensures var c := old(chains)[h];
              h < NUM && c.mid < NUM && c.tail < NUM && free == old(free)[h := true][c.mid := true][c.tail := true]
      ensures var c := old(chains)[h]; c.phase == Seen && c.b in bufs && h in moved && bufs[c.b] == moved[h]
    {
      DataOf(chains, moved, bufs, |platter|, h);
      DataLeave(chains, moved, bufs, |platter|, h);
      GiveBack(h);
    }

    method GiveBack(h: nat)
      requires Queues() && h in chains && chains[h].b !in busy
      modifies this`free, this`desc, this`info, this`owner, this`chains
      ensures Queues() && chains == old(chains) - {h} && old(chains)[h].phase == Seen
      ensures var c := old(chains)[h];
              h < NUM && c.mid < NUM && c.tail < NUM && free == old(free)[h := true][c.mid := true][c.tail := true]
    {
      ghost var q, r := Q(), R();
      HeadOf(q, h);
      FinishKeeps(chains, r, h);
      ClearChain(h);
      assert R() == r;
    }

    method ClearChain(h: nat)
      requires Chains(Q()) && h in chains
      modifies this`free, this`desc, this`info, this`owner, this`chains
      ensures Chains(Q()) && chains == old(chains) - {h}
      ensures var c := old(chains)[h];
              h < NUM && c.mid < NUM && c.tail < NUM && free == old(free)[h := true][c.mid := true][c.tail := true]
    {
      ghost var q, c := Q(), chains[h];
      HeadOf(q, h);
      DropChain(q, h);
      FreeChain(h);
      info := info[h := info[h].(b := None)];
      owner := owner[h := None][c.mid := None][c.tail := None];
      chains := chains - {h};
      assert Q() == WithoutChain(q, h);
    }
  }
}
