/** Directory entries and link counts (kernel/sysfile.c, and the directory part of kernel/fs.c), seen as values. */
module LinkModel {
  const ROOT: nat := 1
  const SHORT_MAX: int := 0x7fff       // nlink is a short

  /** Storing n in a short. */
  function Short(n: int): int { (n + 0x8000) % 0x1_0000 - 0x8000 }

  /** inum 0 is a free entry. */
  datatype Dirent = Dirent(inum: nat, name: string)

  /** A device counts as a file. */
  datatype Inode = File(nlink: int) | Dir(nlink: int, ents: seq<Dirent>)

  /** The allocated inodes. */
  type Table = map<nat, Inode>

  predicate Live(n: Inode) { n.Dir? && n.nlink > 0 }

  /** Entry k of the live directory d names i, and is not ".". */
  ghost predicate Names(m: Table, d: nat, k: nat, i: nat) {
    d in m && Live(m[d]) && k < |m[d].ents| && m[d].ents[k].inum == i && m[d].ents[k].name != "."
  }

  ghost function Namers(m: Table, i: nat): set<(nat, nat)> {
    set d: nat, k: nat | d in m && m[d].Dir? && k < |m[d].ents| && Names(m, d, k, i) :: (d, k)
  }

  /** The links under way to i: counted in nlink, not yet in a directory. */
  ghost function Waiting(linking: map<nat, nat>, i: nat): set<nat> { set p: nat | p in linking && linking[p] == i }

  /** The law of link counts. */
  ghost predicate Counted(m: Table, linking: map<nat, nat>, i: nat) {
    i in m ==> m[i].nlink == |Namers(m, i)| + |Waiting(linking, i)| <= SHORT_MAX
  }

  ghost predicate UniqueNames(ents: seq<Dirent>) {
    forall j: nat, k: nat | j < k < |ents| && ents[j].inum != 0 && ents[k].inum != 0 :: ents[j].name != ents[k].name
  }

  /** The first two entries of directory d are "." and "..". */
  ghost predicate Shaped(d: nat, ents: seq<Dirent>) {
    |ents| >= 2 && ents[0] == Dirent(d, ".") && ents[1].name == ".." && ents[1].inum != 0 && d != 0 && UniqueNames(ents)
  }

  /** Directory e lists d, in entry k. */
  ghost predicate Lists(m: Table, e: nat, k: nat, d: nat) {
    e in m && Live(m[e]) && 2 <= k < |m[e].ents| && m[e].ents[k].inum == d
  }

  /** The live directory d is listed once, in the directory its ".." names; the root is not listed. */
  ghost predicate Home(m: Table, d: nat, k: nat)
    requires d in m && m[d].Dir? && |m[d].ents| >= 2
  {
    var up := m[d].ents[1].inum;
    if d == ROOT then up == ROOT && forall e: nat, j: nat :: !Lists(m, e, j, d)
    else Lists(m, up, k, d) && forall e: nat, j: nat | Lists(m, e, j, d) :: e == up && j == k
  }

  ghost predicate Placed(m: Table, d: nat) {
    d in m && Live(m[d]) && |m[d].ents| >= 2 ==> exists k: nat :: Home(m, d, k)
  }

  ghost predicate Allocated(m: Table, d: nat, k: nat) {
    d in m && Live(m[d]) && k < |m[d].ents| && m[d].ents[k].inum != 0 ==> m[d].ents[k].inum in m
  }

  /** isdirempty. */
  ghost predicate Empty(ents: seq<Dirent>) { forall k: nat | 2 <= k < |ents| :: ents[k].inum == 0 }

  ghost predicate Tree(m: Table) {
    && 0 !in m && ROOT in m && Live(m[ROOT])
    && (forall d: nat | d in m && m[d].Dir? && !Live(m[d]) :: Empty(m[d].ents))
    && (forall d: nat | d in m && m[d].Dir? :: Shaped(d, m[d].ents))
    && (forall d: nat :: Placed(m, d))
    && (forall d: nat, k: nat :: Allocated(m, d, k))
  }

  ghost predicate Inv(m: Table, linking: map<nat, nat>) {
    && Tree(m) && (forall i: nat :: Counted(m, linking, i))
    && forall p: nat | p in linking :: linking[p] in m && m[linking[p]].File?
  }

  // ---- one directory entry is written ----

  function PutEntry(ents: seq<Dirent>, k: nat, e: Dirent): seq<Dirent>
    requires k <= |ents|
  {
    if k < |ents| then ents[k := e] else ents + [e]
  }

  ghost predicate Unused(ents: seq<Dirent>, name: string) {
    forall j: nat | j < |ents| && ents[j].inum != 0 :: ents[j].name != name
  }

  ghost predicate FreeSlot(ents: seq<Dirent>, k: nat) { k <= |ents| && (k < |ents| ==> ents[k].inum == 0) }

  /** dirlink: entry k of the live directory d is to become (i, name). */
  ghost predicate CanPut(m: Table, d: nat, k: nat, name: string) {
    d in m && m[d].Dir? && FreeSlot(m[d].ents, k) && Unused(m[d].ents, name)
  }

  lemma PutShaped(d: nat, ents: seq<Dirent>, k: nat, i: nat, name: string)
    requires Shaped(d, ents) && FreeSlot(ents, k) && Unused(ents, name)
    ensures k >= 2 && name != "." && name != ".." && Shaped(d, PutEntry(ents, k, Dirent(i, name)))
  {
  }

  lemma ClearShaped(d: nat, ents: seq<Dirent>, k: nat)
    requires Shaped(d, ents) && 2 <= k < |ents|
    ensures Shaped(d, ents[k := Dirent(0, "")])
  {
  }

  /** In a shaped directory the "." entry is the first. */
  lemma DotFirst(d: nat, ents: seq<Dirent>, k: nat)
    requires Shaped(d, ents) && k < |ents| && ents[k].inum != 0
    ensures ents[k].name == "." <==> k == 0
    ensures ents[k].name == ".." <==> k == 1
  {
  }

  lemma SameNamers(m: Table, w: Table, i: nat)
    requires forall e: nat, j: nat :: Names(w, e, j, i) <==> Names(m, e, j, i)
    ensures Namers(w, i) == Namers(m, i)
  {
  }

  lemma MoreNamers(m: Table, w: Table, i: nat, d: nat, k: nat)
    requires !Names(m, d, k, i) && forall e: nat, j: nat ::
             Names(w, e, j, i) <==> Names(m, e, j, i) || (e == d && j == k)
    ensures |Namers(w, i)| == |Namers(m, i)| + 1
  {
    assert Names(w, d, k, i);
    assert Namers(w, i) == Namers(m, i) + {(d, k)};
  }

  // ---- create: a file ----

  function AddFile(m: Table, d: nat, k: nat, name: string, i: nat): Table
    requires d in m && m[d].Dir? && k <= |m[d].ents|
  {
    m[d := Dir(m[d].nlink, PutEntry(m[d].ents, k, Dirent(i, name)))][i := File(1)]
  }

  lemma AddFileNames(m: Table, d: nat, k: nat, name: string, i: nat, e: nat, j: nat, x: nat)
    requires Tree(m) && CanPut(m, d, k, name) && Live(m[d]) && i !in m && i != 0 && x != 0
    ensures Names(AddFile(m, d, k, name, i), e, j, x) <==> Names(m, e, j, x) || (e == d && j == k && x == i)
    ensures Lists(AddFile(m, d, k, name, i), e, j, x) <==> Lists(m, e, j, x) || (e == d && j == k && x == i)
  {
    assert Shaped(d, m[d].ents);
    PutShaped(d, m[d].ents, k, i, name);
  }

  lemma Unnamed(m: Table, i: nat, e: nat, j: nat)
    requires Tree(m) && i !in m && i != 0
    ensures !Names(m, e, j, i) && !Lists(m, e, j, i)
  {
    assert Allocated(m, e, j);
  }

  lemma AddFileCounted(m: Table, linking: map<nat, nat>, d: nat, k: nat, name: string, i: nat, x: nat)
    requires Inv(m, linking) && CanPut(m, d, k, name) && Live(m[d]) && i !in m && i != 0
    ensures Counted(AddFile(m, d, k, name, i), linking, x)
  {
    var w := AddFile(m, d, k, name, i);
    if x in w {
      assert Counted(m, linking, x);
      forall e: nat, j: nat ensures Names(w, e, j, x) <==> Names(m, e, j, x) || (e == d && j == k && x == i) {
        AddFileNames(m, d, k, name, i, e, j, x);
      }
      if x == i {
        forall e: nat, j: nat ensures !Names(m, e, j, i) { Unnamed(m, i, e, j); }
        MoreNamers(m, w, i, d, k);
        assert Namers(m, i) == {} && Waiting(linking, i) == {};
      } else {
        SameNamers(m, w, x);
      }
    }
  }

  lemma AddFileTree(m: Table, d: nat, k: nat, name: string, i: nat)
    requires Tree(m) && CanPut(m, d, k, name) && Live(m[d]) && i !in m && i != 0
    ensures Tree(AddFile(m, d, k, name, i))
  {
    var w := AddFile(m, d, k, name, i);
    assert Shaped(d, m[d].ents);
    PutShaped(d, m[d].ents, k, i, name);
    forall x: nat ensures Placed(w, x) {
      if x in w && Live(w[x]) {
        AddFilePlaced(m, d, k, name, i, x);
      }
    }
    forall e: nat, j: nat ensures Allocated(w, e, j) {
      assert Allocated(m, e, j);
    }
  }

  lemma AddFilePlaced(m: Table, d: nat, k: nat, name: string, i: nat, x: nat)
    requires Tree(m) && CanPut(m, d, k, name) && Live(m[d]) && i !in m && i != 0 && x in m && Live(m[x])
    ensures Placed(AddFile(m, d, k, name, i), x)
  {
    var w := AddFile(m, d, k, name, i);
    assert Placed(m, x) && Shaped(x, m[x].ents) && Shaped(d, m[d].ents);
    PutShaped(d, m[d].ents, k, i, name);
    var h: nat :| Home(m, x, h);
    forall e: nat, j: nat ensures Lists(w, e, j, x) <==> Lists(m, e, j, x) {
      AddFileNames(m, d, k, name, i, e, j, x);
    }
    assert Home(w, x, h);
  }

  lemma AddFileKeeps(m: Table, linking: map<nat, nat>, d: nat, k: nat, name: string, i: nat)
    requires Inv(m, linking) && CanPut(m, d, k, name) && Live(m[d]) && i !in m && i != 0
    ensures Inv(AddFile(m, d, k, name, i), linking)
  {
    AddFileTree(m, d, k, name, i);
    forall x: nat
      ensures Counted(AddFile(m, d, k, name, i), linking, x)
    {
      AddFileCounted(m, linking, d, k, name, i, x);
    }
  }

  // ---- create: a directory ----

  function AddDir(m: Table, d: nat, k: nat, name: string, i: nat): Table
    requires d in m && m[d].Dir? && k <= |m[d].ents|
  {
    m[d := Dir(Short(m[d].nlink + 1), PutEntry(m[d].ents, k, Dirent(i, name)))][i :=
        Dir(1, [Dirent(i, "."), Dirent(d, "..")])]
  }

  ghost predicate CanAdd(m: Table, d: nat, k: nat, name: string, i: nat) {
    Tree(m) && CanPut(m, d, k, name) && Live(m[d]) && m[d].nlink < SHORT_MAX && i !in m && i != 0
  }

  lemma AddDirNames(m: Table, d: nat, k: nat, name: string, i: nat, e: nat, j: nat, x: nat)
    requires CanAdd(m, d, k, name, i) && x != 0
    ensures Names(AddDir(m, d, k, name, i), e, j, x) <==>
            Names(m, e, j, x) || (e == d && j == k && x == i) || (e == i && j == 1 && x == d)
    ensures Lists(AddDir(m, d, k, name, i), e, j, x) <==> Lists(m, e, j, x) || (e == d && j == k && x == i)
  {
    assert Shaped(d, m[d].ents);
    PutShaped(d, m[d].ents, k, i, name);
  }

  lemma AddDirCounted(m: Table, linking: map<nat, nat>, d: nat, k: nat, name: string, i: nat, x: nat)
    requires Inv(m, linking) && CanAdd(m, d, k, name, i)
    ensures Counted(AddDir(m, d, k, name, i), linking, x)
  {
    var w := AddDir(m, d, k, name, i);
    if x in w {
      assert Counted(m, linking, x);
      forall e: nat, j: nat
        ensures Names(w, e, j, x) <==> Names(m, e, j, x) || (e == d && j == k && x == i) || (e == i && j == 1 && x == d)
      {
        AddDirNames(m, d, k, name, i, e, j, x);
      }
      if x == i {
        forall e: nat, j: nat ensures !Names(m, e, j, i) { Unnamed(m, i, e, j); }
        MoreNamers(m, w, i, d, k);
        assert Namers(m, i) == {} && Waiting(linking, i) == {};
      } else if x == d {
        MoreNamers(m, w, d, i, 1);
      } else {
        SameNamers(m, w, x);
      }
    }
  }

  lemma AddDirPlaced(m: Table, d: nat, k: nat, name: string, i: nat, x: nat)
    requires CanAdd(m, d, k, name, i) && (x == i || (x in m && Live(m[x])))
    ensures Placed(AddDir(m, d, k, name, i), x)
  {
    var w := AddDir(m, d, k, name, i);
    assert Shaped(d, m[d].ents);
    PutShaped(d, m[d].ents, k, i, name);
    forall e: nat, j: nat ensures Lists(w, e, j, x) <==> Lists(m, e, j, x) || (e == d && j == k && x == i) {
      AddDirNames(m, d, k, name, i, e, j, x);
    }
    if x == i {
      forall e: nat, j: nat ensures !Lists(m, e, j, i) { Unnamed(m, i, e, j); }
      assert Home(w, i, k);
    } else {
      assert Placed(m, x) && Shaped(x, m[x].ents);
      var h: nat :| Home(m, x, h);
      assert Home(w, x, h);
    }
  }

  lemma AddDirTree(m: Table, d: nat, k: nat, name: string, i: nat)
    requires CanAdd(m, d, k, name, i)
    ensures Tree(AddDir(m, d, k, name, i))
  {
    var w := AddDir(m, d, k, name, i);
    assert Shaped(d, m[d].ents);
    PutShaped(d, m[d].ents, k, i, name);
    forall x: nat ensures Placed(w, x) {
      if x in w && Live(w[x]) { AddDirPlaced(m, d, k, name, i, x); }
    }
    forall e: nat, j: nat ensures Allocated(w, e, j) { assert Allocated(m, e, j); }
  }

  lemma AddDirKeeps(m: Table, linking: map<nat, nat>, d: nat, k: nat, name: string, i: nat)
    requires Inv(m, linking) && CanAdd(m, d, k, name, i)
    ensures Inv(AddDir(m, d, k, name, i), linking)
  {
    AddDirTree(m, d, k, name, i);
    forall x: nat ensures Counted(AddDir(m, d, k, name, i), linking, x) { AddDirCounted(m, linking, d, k, name, i, x); }
  }

  // ---- sys_link ----

  function LinkUp(m: Table, i: nat): Table
    requires i in m && m[i].File?
  {
    m[i := File(Short(m[i].nlink + 1))]
  }

  lemma WaitingMore(linking: map<nat, nat>, p: nat, i: nat, x: nat)
    requires p !in linking
    ensures |Waiting(linking[p := i], x)| == |Waiting(linking, x)| + if x == i then 1 else 0
  {
    assert Waiting(linking[p := i], x) == Waiting(linking, x) + if x == i then {p} else {};
  }

  lemma WaitingFewer(linking: map<nat, nat>, p: nat, x: nat)
    requires p in linking
    ensures |Waiting(linking - {p}, x)| == |Waiting(linking, x)| - if x == linking[p] then 1 else 0
  {
    assert x == linking[p] ==> p in Waiting(linking, x);
    assert Waiting(linking - {p}, x) == Waiting(linking, x) - if x == linking[p] then {p} else {};
  }

  lemma LinkUpKeeps(m: Table, linking: map<nat, nat>, p: nat, i: nat)
    requires Inv(m, linking) && p !in linking && i in m && m[i].File? && m[i].nlink < SHORT_MAX
    ensures Inv(LinkUp(m, i), linking[p := i])
  {
    var w, l := LinkUp(m, i), linking[p := i];
    SameTree(m, w, i);
    forall x: nat ensures Counted(w, l, x) {
      assert Counted(m, linking, x);
      FileNamers(m, w, i, x);
      WaitingMore(linking, p, i, x);
    }
  }

  /** Only the link count of file i differs. */
  ghost predicate FileCount(m: Table, w: Table, i: nat) {
    i in m && m[i].File? && i in w && w[i].File? && w == m[i := w[i]]
  }

  lemma FileNamers(m: Table, w: Table, i: nat, x: nat)
    requires FileCount(m, w, i)
    ensures Namers(w, x) == Namers(m, x)
  {
    forall e: nat, j: nat ensures Names(w, e, j, x) <==> Names(m, e, j, x) { }
    SameNamers(m, w, x);
  }

  lemma SameTree(m: Table, w: Table, i: nat)
    requires Tree(m) && FileCount(m, w, i)
    ensures Tree(w)
  {
    forall x: nat ensures Placed(w, x) {
      assert Placed(m, x);
      if x in w && Live(w[x]) {
        assert Shaped(x, m[x].ents);
        var h: nat :| Home(m, x, h);
        assert forall e: nat, j: nat :: Lists(w, e, j, x) <==> Lists(m, e, j, x);
        assert Home(w, x, h);
      }
    }
    forall e: nat, j: nat ensures Allocated(w, e, j) { assert Allocated(m, e, j); }
  }

  function LinkDown(m: Table, i: nat): Table
    requires i in m && m[i].File?
  {
    m[i := File(Short(m[i].nlink - 1))]
  }

  /** The failing path of sys_link undoes the increment. */
  lemma LinkDownKeeps(m: Table, linking: map<nat, nat>, p: nat, i: nat)
    requires Inv(m, linking) && p in linking && linking[p] == i
    ensures Inv(LinkDown(m, i), linking - {p})
  {
    var w, l := LinkDown(m, i), linking - {p};
    SameTree(m, w, i);
    forall x: nat ensures Counted(w, l, x) {
      assert Counted(m, linking, x);
      FileNamers(m, w, i, x);
      WaitingFewer(linking, p, x);
    }
  }

  function AddLink(m: Table, d: nat, k: nat, name: string, i: nat): Table
    requires d in m && m[d].Dir? && k <= |m[d].ents|
  {
    m[d := Dir(m[d].nlink, PutEntry(m[d].ents, k, Dirent(i, name)))]
  }

  lemma AddLinkNames(m: Table, d: nat, k: nat, name: string, i: nat, e: nat, j: nat, x: nat)
    requires Tree(m) && CanPut(m, d, k, name) && Live(m[d]) && i in m && x != 0
    ensures Names(AddLink(m, d, k, name, i), e, j, x) <==> Names(m, e, j, x) || (e == d && j == k && x == i)
    ensures Lists(AddLink(m, d, k, name, i), e, j, x) <==> Lists(m, e, j, x) || (e == d && j == k && x == i)
  {
    assert Shaped(d, m[d].ents);
    PutShaped(d, m[d].ents, k, i, name);
  }

  lemma AddLinkTree(m: Table, d: nat, k: nat, name: string, i: nat)
    requires Tree(m) && CanPut(m, d, k, name) && Live(m[d]) && i in m && m[i].File?
    ensures Tree(AddLink(m, d, k, name, i))
  {
    var w := AddLink(m, d, k, name, i);
    assert Shaped(d, m[d].ents);
    PutShaped(d, m[d].ents, k, i, name);
    forall x: nat ensures Placed(w, x) {
      assert Placed(m, x);
      if x in w && Live(w[x]) {
        assert Shaped(x, m[x].ents);
        var h: nat :| Home(m, x, h);
        forall e: nat, j: nat
          ensures Lists(w, e, j, x) <==> Lists(m, e, j, x)
        {
          AddLinkNames(m, d, k, name, i, e, j, x);
        }
        assert Home(w, x, h);
      }
    }
    forall e: nat, j: nat ensures Allocated(w, e, j) { assert Allocated(m, e, j); }
  }

  lemma AddLinkKeeps(m: Table, linking: map<nat, nat>, p: nat, d: nat, k: nat, name: string, i: nat)
    requires Inv(m, linking) && p in linking && linking[p] == i && CanPut(m, d, k, name) && Live(m[d])
    ensures Inv(AddLink(m, d, k, name, i), linking - {p})
  {
    var w, l := AddLink(m, d, k, name, i), linking - {p};
    AddLinkTree(m, d, k, name, i);
    forall x: nat ensures Counted(w, l, x) {
      assert Counted(m, linking, x);
      if x in m {
        forall e: nat, j: nat
          ensures Names(w, e, j, x) <==> Names(m, e, j, x) || (e == d && j == k && x == i)
        {
          AddLinkNames(m, d, k, name, i, e, j, x);
        }
        WaitingFewer(linking, p, x);
        if x == i { MoreNamers(m, w, i, d, k); } else { SameNamers(m, w, x); }
      }
    }
  }

  // ---- sys_unlink ----

  lemma FewerNamers(m: Table, w: Table, i: nat, d: nat, k: nat)
    requires Names(m, d, k, i) && forall e: nat, j: nat ::
             Names(w, e, j, i) <==> Names(m, e, j, i) && !(e == d && j == k)
    ensures |Namers(w, i)| == |Namers(m, i)| - 1
  {
    assert (d, k) in Namers(m, i) && Namers(w, i) == Namers(m, i) - {(d, k)};
  }

  lemma ListedNamed(m: Table, d: nat, k: nat, i: nat)
    requires Tree(m) && Lists(m, d, k, i) && i != 0
    ensures Names(m, d, k, i) && i in m
  {
    assert Shaped(d, m[d].ents) && Allocated(m, d, k);
    DotFirst(d, m[d].ents, k);
  }

  function RemoveFile(m: Table, d: nat, k: nat, i: nat): Table
    requires d in m && m[d].Dir? && k < |m[d].ents| && i in m && m[i].File?
  {
    m[d := Dir(m[d].nlink, m[d].ents[k := Dirent(0, "")])][i := File(Short(m[i].nlink - 1))]
  }

  lemma RemoveFileNames(m: Table, d: nat, k: nat, i: nat, e: nat, j: nat, x: nat)
    requires Tree(m) && Lists(m, d, k, i) && i in m && m[i].File? && x != 0
    ensures Names(RemoveFile(m, d, k, i), e, j, x) <==> Names(m, e, j, x) && !(e == d && j == k)
    ensures Lists(RemoveFile(m, d, k, i), e, j, x) <==> Lists(m, e, j, x) && !(e == d && j == k)
  {
  }

  lemma RemoveFileTree(m: Table, d: nat, k: nat, i: nat)
    requires Tree(m) && Lists(m, d, k, i) && i in m && m[i].File?
    ensures Tree(RemoveFile(m, d, k, i))
  {
    var w := RemoveFile(m, d, k, i);
    assert Shaped(d, m[d].ents);
    ClearShaped(d, m[d].ents, k);
    forall x: nat ensures Placed(w, x) {
      assert Placed(m, x);
      if x in w && Live(w[x]) {
        assert Shaped(x, m[x].ents);
        var h: nat :| Home(m, x, h);
        forall e: nat, j: nat ensures Lists(w, e, j, x) <==> Lists(m, e, j, x) { RemoveFileNames(m, d, k, i, e, j, x); }
        assert Home(w, x, h);
      }
    }
    forall e: nat, j: nat ensures Allocated(w, e, j) { assert Allocated(m, e, j); }
  }

  lemma RemoveFileKeeps(m: Table, linking: map<nat, nat>, d: nat, k: nat, i: nat)
    requires Inv(m, linking) && Lists(m, d, k, i) && i in m && m[i].File?
    ensures m[i].nlink >= 1 && Inv(RemoveFile(m, d, k, i), linking)
  {
    var w := RemoveFile(m, d, k, i);
    RemoveFileTree(m, d, k, i);
    ListedNamed(m, d, k, i);
    assert (d, k) in Namers(m, i) && Counted(m, linking, i);
    forall x: nat ensures Counted(w, linking, x) {
      assert Counted(m, linking, x);
      if x in m {
        forall e: nat, j: nat
          ensures Names(w, e, j, x) <==> Names(m, e, j, x) && !(e == d && j == k)
        {
          RemoveFileNames(m, d, k, i, e, j, x);
        }
        if x == i { FewerNamers(m, w, i, d, k); } else { SameNamers(m, w, x); }
      }
    }
  }

  function RemoveDir(m: Table, d: nat, k: nat, i: nat): Table
    requires d in m && m[d].Dir? && k < |m[d].ents| && i in m && m[i].Dir?
  {
    m[d := Dir(Short(m[d].nlink - 1), m[d].ents[k := Dirent(0, "")])][i := Dir(Short(m[i].nlink - 1), m[i].ents)]
  }

  /** The directory i, listed in d, is empty. */
  ghost predicate CanRemoveDir(m: Table, linking: map<nat, nat>, d: nat, k: nat, i: nat) {
    Inv(m, linking) && Lists(m, d, k, i) && i in m && m[i].Dir? && Empty(m[i].ents)
  }

  /** Who names an empty directory: its parent's entry and nothing else. */
  lemma EmptyNamer(m: Table, linking: map<nat, nat>, d: nat, k: nat, i: nat, e: nat, j: nat)
    requires CanRemoveDir(m, linking, d, k, i) && Live(m[i]) && Names(m, e, j, i)
    ensures e == d && j == k && i != ROOT && m[i].ents[1].inum == d
  {
    assert Shaped(i, m[i].ents) && Placed(m, i);
    var h: nat :| Home(m, i, h);
    assert Shaped(e, m[e].ents) && Placed(m, e);
    DotFirst(e, m[e].ents, j);
    if j != 1 { assert Lists(m, e, j, i); }
  }

  lemma EmptyDirCounts(m: Table, linking: map<nat, nat>, d: nat, k: nat, i: nat)
    requires CanRemoveDir(m, linking, d, k, i)
    ensures m[i].nlink == 1 && i != ROOT && i != d && m[i].ents[1].inum == d && Names(m, d, k, i) && Names(m, i, 1, d)
  {
    ListedNamed(m, d, k, i);
    assert (d, k) in Namers(m, i) && Counted(m, linking, i);
    assert Waiting(linking, i) == {};
    EmptyNamer(m, linking, d, k, i, d, k);
    forall e: nat, j: nat | Names(m, e, j, i) ensures e == d && j == k { EmptyNamer(m, linking, d, k, i, e, j); }
    assert Namers(m, i) == {(d, k)};
    assert Shaped(i, m[i].ents);
  }

  /** The parent of a directory has a second namer: its own entry above it, or the root's "..". */
  lemma ParentCounts(m: Table, linking: map<nat, nat>, d: nat, k: nat, i: nat)
    requires CanRemoveDir(m, linking, d, k, i)
    ensures m[d].nlink >= 2
  {
    EmptyDirCounts(m, linking, d, k, i);
    assert Shaped(d, m[d].ents) && Placed(m, d) && Counted(m, linking, d);
    var h: nat :| Home(m, d, h);
    var e, j := if d == ROOT then d else m[d].ents[1].inum, if d == ROOT then 1 else h;
    if d != ROOT { ListedNamed(m, e, j, d); }
    assert Names(m, e, j, d) && (e, j) != (i, 1);
    assert {(e, j), (i, 1)} <= Namers(m, d);
    AtLeast({(e, j), (i, 1)}, Namers(m, d));
  }

  lemma {:induction false} AtLeast(a: set<(nat, nat)>, b: set<(nat, nat)>)
    requires a <= b
    ensures |a| <= |b|
    decreases |a|
  {
    if a != {} {
      var x :| x in a;
      AtLeast(a - {x}, b - {x});
    }
  }

  lemma RemoveDirNames(m: Table, linking: map<nat, nat>, d: nat, k: nat, i: nat, e: nat, j: nat, x: nat)
    requires CanRemoveDir(m, linking, d, k, i) && x != 0
    ensures Names(RemoveDir(m, d, k, i), e, j, x) <==>
            Names(m, e, j, x) && !(e == d && j == k) && !(e == i && j == 1 && x == d)
    ensures x != i ==> (Lists(RemoveDir(m, d, k, i), e, j, x) <==> Lists(m, e, j, x))
  {
    EmptyDirCounts(m, linking, d, k, i);
    ParentCounts(m, linking, d, k, i);
    assert Counted(m, linking, d);
    assert Shaped(i, m[i].ents);
    if e == i && j < |m[i].ents| && m[i].ents[j].inum != 0 { DotFirst(i, m[i].ents, j); }
  }

  lemma RemoveDirCounted(m: Table, linking: map<nat, nat>, d: nat, k: nat, i: nat, x: nat)
    requires CanRemoveDir(m, linking, d, k, i)
    ensures Counted(RemoveDir(m, d, k, i), linking, x)
  {
    var w := RemoveDir(m, d, k, i);
    EmptyDirCounts(m, linking, d, k, i);
    ParentCounts(m, linking, d, k, i);
    assert Counted(m, linking, x);
    if x in m {
      forall e: nat, j: nat
        ensures Names(w, e, j, x) <==> Names(m, e, j, x) && !(e == d && j == k) && !(e == i && j == 1 && x == d)
      {
        RemoveDirNames(m, linking, d, k, i, e, j, x);
      }
      if x == i {
        FewerNamers(m, w, i, d, k);
      } else if x == d {
        FewerNamers(m, w, d, i, 1);
      } else {
        SameNamers(m, w, x);
      }
    }
  }

  lemma RemoveDirTree(m: Table, linking: map<nat, nat>, d: nat, k: nat, i: nat)
    requires CanRemoveDir(m, linking, d, k, i)
    ensures Tree(RemoveDir(m, d, k, i))
  {
    var w := RemoveDir(m, d, k, i);
    EmptyDirCounts(m, linking, d, k, i);
    ParentCounts(m, linking, d, k, i);
    assert Counted(m, linking, d);
    assert Shaped(d, m[d].ents);
    ClearShaped(d, m[d].ents, k);
    forall x: nat ensures Placed(w, x) {
      assert Placed(m, x);
      if x in w && Live(w[x]) {
        assert Shaped(x, m[x].ents);
        var h: nat :| Home(m, x, h);
        forall e: nat, j: nat
          ensures Lists(w, e, j, x) <==> Lists(m, e, j, x)
        {
          RemoveDirNames(m, linking, d, k, i, e, j, x);
        }
        assert Home(w, x, h);
      }
    }
    forall e: nat, j: nat ensures Allocated(w, e, j) { assert Allocated(m, e, j); }
  }

  lemma RemoveDirKeeps(m: Table, linking: map<nat, nat>, d: nat, k: nat, i: nat)
    requires CanRemoveDir(m, linking, d, k, i)
    ensures Inv(RemoveDir(m, d, k, i), linking) && m[i].nlink == 1
  {
    RemoveDirTree(m, linking, d, k, i);
    EmptyDirCounts(m, linking, d, k, i);
    forall x: nat ensures Counted(RemoveDir(m, d, k, i), linking, x) { RemoveDirCounted(m, linking, d, k, i, x); }
  }

  // ---- iput ----

  /** An inode without links is in no live directory, and no link to it is under way. */
  lemma NoLinks(m: Table, linking: map<nat, nat>, i: nat)
    requires Inv(m, linking) && i in m && m[i].nlink == 0
    ensures Waiting(linking, i) == {} && forall e: nat, j: nat | e in m && Live(m[e]) && j < |m[e].ents| ::
            m[e].ents[j].inum != i
  {
    assert Counted(m, linking, i);
    forall e: nat, j: nat | e in m && Live(m[e]) && j < |m[e].ents| ensures m[e].ents[j].inum != i {
      assert Shaped(e, m[e].ents) && (e, j) !in Namers(m, i);
      if m[e].ents[j].inum != 0 { DotFirst(e, m[e].ents, j); }
    }
  }

  /** iput frees such an inode. */
  lemma FreeKeeps(m: Table, linking: map<nat, nat>, i: nat)
    requires Inv(m, linking) && i in m && m[i].nlink == 0
    ensures Inv(m - {i}, linking)
  {
    var w := m - {i};
    NoLinks(m, linking, i);
    forall p: nat | p in linking ensures linking[p] in w { assert linking[p] == i ==> p in Waiting(linking, i); }
    forall x: nat ensures Placed(w, x) {
      assert Placed(m, x);
      if x in w && Live(w[x]) {
        assert Shaped(x, m[x].ents);
        var h: nat :| Home(m, x, h);
        assert forall e: nat, j: nat :: Lists(w, e, j, x) <==> Lists(m, e, j, x);
        assert Home(w, x, h);
      }
    }
    forall e: nat, j: nat ensures Allocated(w, e, j) { assert Allocated(m, e, j); }
    forall x: nat ensures Counted(w, linking, x) {
      assert Counted(m, linking, x);
      forall e: nat, j: nat ensures Names(w, e, j, x) <==> Names(m, e, j, x) { }
      SameNamers(m, w, x);
    }
  }

  // ---- exactly when the law survives ----

  /** A new file's entry in a removed directory is not counted. */
  lemma AddFileIff(m: Table, linking: map<nat, nat>, d: nat, k: nat, name: string, i: nat)
    requires Inv(m, linking) && CanPut(m, d, k, name) && i !in m && i != 0
    ensures Inv(AddFile(m, d, k, name, i), linking) <==> Live(m[d])
  {
    if Live(m[d]) {
      AddFileKeeps(m, linking, d, k, name, i);
    } else {
      var w := AddFile(m, d, k, name, i);
      forall e: nat, j: nat ensures !Names(w, e, j, i) { Unnamed(m, i, e, j); }
      assert Namers(w, i) == {} && Waiting(linking, i) == {};
      assert !Counted(w, linking, i);
    }
  }

  /** A new directory in a removed one brings that one back to life, unlisted. */
  lemma Revived(m: Table, linking: map<nat, nat>, d: nat, k: nat, name: string, i: nat)
    requires Inv(m, linking) && CanPut(m, d, k, name) && !Live(m[d]) && i !in m && i != 0
    ensures !Placed(AddDir(m, d, k, name, i), d)
  {
    var w := AddDir(m, d, k, name, i);
    assert Counted(m, linking, d) && Shaped(d, m[d].ents) && Empty(m[d].ents);
    PutShaped(d, m[d].ents, k, i, name);
    NoLinks(m, linking, d);
    forall e: nat, j: nat ensures !Lists(w, e, j, d) { }
    assert w[d].nlink == 1 && d != ROOT;
  }

  lemma AddDirIff(m: Table, linking: map<nat, nat>, d: nat, k: nat, name: string, i: nat)
    requires Inv(m, linking) && CanPut(m, d, k, name) && i !in m && i != 0
    ensures Inv(AddDir(m, d, k, name, i), linking) <==> Live(m[d]) && m[d].nlink < SHORT_MAX
  {
    assert Counted(m, linking, d);
    if Live(m[d]) && m[d].nlink < SHORT_MAX {
      AddDirKeeps(m, linking, d, k, name, i);
    } else if Live(m[d]) {
      assert !Counted(AddDir(m, d, k, name, i), linking, d);
    } else {
      Revived(m, linking, d, k, name, i);
    }
  }

  lemma LinkUpIff(m: Table, linking: map<nat, nat>, p: nat, i: nat)
    requires Inv(m, linking) && p !in linking && i in m && m[i].File?
    ensures Inv(LinkUp(m, i), linking[p := i]) <==> m[i].nlink < SHORT_MAX
  {
    assert Counted(m, linking, i);
    if m[i].nlink < SHORT_MAX {
      LinkUpKeeps(m, linking, p, i);
    } else {
      assert !Counted(LinkUp(m, i), linking[p := i], i);
    }
  }

  lemma AddLinkIff(m: Table, linking: map<nat, nat>, p: nat, d: nat, k: nat, name: string, i: nat)
    requires Inv(m, linking) && p in linking && linking[p] == i && CanPut(m, d, k, name)
    ensures Inv(AddLink(m, d, k, name, i), linking - {p}) <==> Live(m[d])
  {
    if Live(m[d]) {
      AddLinkKeeps(m, linking, p, d, k, name, i);
    } else {
      var w := AddLink(m, d, k, name, i);
      assert Counted(m, linking, i);
      forall e: nat, j: nat ensures Names(w, e, j, i) <==> Names(m, e, j, i) { }
      SameNamers(m, w, i);
      WaitingFewer(linking, p, i);
      assert !Counted(w, linking - {p}, i);
    }
  }

  // ---- the image that mkfs makes ----

  /** The root directory: ".", "..", an entry for each file, and free entries up to the end of its last block. */
  ghost predicate Image(m: Table, names: seq<string>) {
    && ROOT in m && m[ROOT].Dir? && m[ROOT].nlink == 1 && |m[ROOT].ents| >= |names| + 2
    && m[ROOT].ents[0] == Dirent(ROOT, ".") && m[ROOT].ents[1] == Dirent(ROOT, "..")
    && (forall k: nat | |names| + 2 <= k < |m[ROOT].ents| :: m[ROOT].ents[k].inum == 0)
    && (forall k: nat | k < |names| :: m[ROOT].ents[k + 2] == Dirent(k + 2, names[k]))
    && (forall i: nat :: i in m <==> 1 <= i < |names| + 2)
    && (forall i: nat | 2 <= i < |names| + 2 :: m[i] == File(1))
  }

  lemma ImageInv(m: Table, names: seq<string>)
    requires Image(m, names) && (forall j: nat, k: nat | j < k < |names| :: names[j] != names[k]) && "." !in names
             && ".." !in names
    ensures Inv(m, map[])
  {
    var ents, n := m[ROOT].ents, |names| + 2;
    forall k: nat | 2 <= k < n
      ensures ents[k] == Dirent(k, names[k - 2])
    {
      var j: nat := k - 2;
      assert ents[j + 2] == Dirent(j + 2, names[j]);
    }
    forall e: nat, j: nat, i: nat | i != 0
      ensures Names(m, e, j, i) <==> e == ROOT && ((i == ROOT && j == 1) || (2 <= i < n && j == i))
    {
    }
    forall i: nat ensures Counted(m, map[], i) {
      if i in m {
        var j := if i == ROOT then 1 else i;
        assert Names(m, ROOT, j, i);
        assert Namers(m, i) == {(ROOT, j)};
        assert Waiting(map[], i) == {};
      }
    }
    assert Home(m, ROOT, 0);
  }
}
