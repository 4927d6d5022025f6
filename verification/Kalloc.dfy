/** kernel/kalloc.c: the free list threaded through the free pages themselves. */
module Kalloc {
  import opened VmModel

  function At(free: seq<nat>, k: nat): nat { if k < |free| then free[k] else 0 }

  /** head leads through the links in the pages to exactly the given pages, in that order, each once. */
  ghost predicate FreeList(pages: seq<Page>, head: nat, free: seq<nat>) {
    && head == At(free, 0)
    && (forall k: nat | k < |free| :: 0 < free[k] < |pages|)
    && (forall k: nat {:trigger pages[free[k]]} | k < |free| :: pages[free[k]] == Run(At(free, k + 1)))
    && (forall j: nat, k: nat | j < k < |free| :: free[j] != free[k])
  }

  /** Every page from lo up is either owned or free. */
  ghost predicate Partition(lo: nat, size: nat, free: seq<nat>, owner: map<nat, Slot>) {
    && (forall p: nat | lo <= p < size :: (p in owner) != (p in free))
    && (forall p | p in owner :: lo <= p < size) && (forall p | p in free :: lo <= p < size)
  }

  lemma Push(pages: seq<Page>, head: nat, free: seq<nat>, p: nat)
    requires FreeList(pages, head, free) && 0 < p < |pages| && p !in free
    ensures FreeList(pages[p := Run(head)], p, [p] + free)
  {
    var more := [p] + free;
    forall k: nat {:trigger pages[p := Run(head)][more[k]]} | k < |more|
      ensures pages[p := Run(head)][more[k]] == Run(At(more, k + 1))
    {
      if k > 0 { assert more[k] == free[k - 1]; assert pages[free[k - 1]] == Run(At(free, k)); }
    }
  }

  lemma Pop(pages: seq<Page>, head: nat, free: seq<nat>, page: Page)
    requires FreeList(pages, head, free) && free != []
    ensures head == free[0] && 0 < head < |pages| && pages[head] == Run(At(free, 1))
    ensures head !in free[1..] && FreeList(pages[head := page], At(free, 1), free[1..])
  {
    var rest := free[1..];
    assert pages[free[0]] == Run(At(free, 1));
    forall k: nat {:trigger pages[head := page][rest[k]]} | k < |rest|
      ensures pages[head := page][rest[k]] == Run(At(rest, k + 1))
    {
      assert pages[free[k + 1]] == Run(At(free, k + 2));
    }
  }

  /** Pages that are not free can hold anything. */
  lemma Frame(pages: seq<Page>, head: nat, free: seq<nat>, p: nat, page: Page)
    requires FreeList(pages, head, free) && p < |pages| && p !in free
    ensures FreeList(pages[p := page], head, free)
  {
    forall k: nat {:trigger pages[p := page][free[k]]} | k < |free|
      ensures pages[p := page][free[k]] == Run(At(free, k + 1))
    {
      assert pages[free[k]] == Run(At(free, k + 1));
    }
  }

  lemma PartitionTake(lo: nat, size: nat, free: seq<nat>, owner: map<nat, Slot>)
    requires Partition(lo, size, free, owner) && free != [] && free[0] !in free[1..]
    ensures Partition(lo, size, free[1..], owner[free[0] := Other])
  {
    assert free == [free[0]] + free[1..];
    assert forall p :: p in free <==> p == free[0] || p in free[1..];
  }

  lemma PartitionGive(lo: nat, size: nat, free: seq<nat>, owner: map<nat, Slot>, p: nat)
    requires Partition(lo, size, free, owner) && p in owner
    ensures Partition(lo, size, [p] + free, owner - {p})
  {
  }

  lemma PartitionKeys(lo: nat, size: nat, free: seq<nat>, owner: map<nat, Slot>, other: map<nat, Slot>)
    requires Partition(lo, size, free, owner) && other.Keys == owner.Keys
    ensures Partition(lo, size, free, other)
  {
    assert forall p :: p in other <==> p in other.Keys;
    assert forall p :: p in owner <==> p in owner.Keys;
  }
}
