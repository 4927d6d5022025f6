/** create, sys_link, sys_unlink and iput (kernel/sysfile.c, kernel/fs.c) on the table of inodes. create and sys_unlink
    hold the locks of both inodes while they change them, so each is one step; sys_link unlocks the file before it locks
    the directory, so it is two. Every reference that a lookup takes is dropped by an Iput of its own. */
module Links {
  import opened LinkModel
  import opened LinkRuns

  datatype Type = TDir | TFile | TDevice

  ghost predicate HasRoom(ents: seq<Dirent>) { exists j: nat :: j < |ents| && ents[j].inum == 0 }

  /** The step that create takes when it makes an inode. */
  function Making(t: Type, dp: nat, k: nat, name: string, ip: nat): Op {
    if t.TDir? then MakeDir(dp, k, name, ip) else MakeFile(dp, k, name, ip)
  }

  /** A name other than "." and ".." is found only in a directory with links, and names an allocated inode. */
  lemma Found(m: Table, d: nat, k: nat)
    requires Tree(m) && d in m && m[d].Dir? && k < |m[d].ents| && m[d].ents[k].inum != 0
    requires m[d].ents[k].name != "." && m[d].ents[k].name != ".."
    ensures Lists(m, d, k, m[d].ents[k].inum) && m[d].ents[k].inum in m
  {
    assert Shaped(d, m[d].ents) && Allocated(m, d, k);
    DotFirst(d, m[d].ents, k);
  }

  /** What a directory lists has a link. */
  lemma HasLink(m: Table, linking: map<nat, nat>, d: nat, k: nat, i: nat)
    requires Inv(m, linking) && Lists(m, d, k, i) && i in m
    ensures m[i].nlink >= 1
  {
    ListedNamed(m, d, k, i);
    assert (d, k) in Namers(m, i) && Counted(m, linking, i);
  }

  /** Entry k of dp has this name, and may be removed: it names a file, or a directory without entries of its own. */
  ghost predicate Removable(m: Table, dp: nat, k: nat, name: string) {
    && dp in m && m[dp].Dir? && k < |m[dp].ents| && Named(m[dp].ents[k], name)
    && var i := m[dp].ents[k].inum; i in m && (m[i].Dir? ==> Empty(m[i].ents))
  }

  ghost predicate Removing(m: Table, dp: nat, k: nat, ip: nat) {
    Lists(m, dp, k, ip) && ip in m && (m[ip].Dir? ==> Empty(m[ip].ents))
  }

  ghost function Removal(m: Table, dp: nat, k: nat, ip: nat): Op
    requires ip in m
  {
    if m[ip].Dir? then UnlinkDir(dp, k, ip) else UnlinkFile(dp, k, ip)
  }

  /** No other entry has the name. */
  lemma OnlyOne(m: Table, dp: nat, k: nat, name: string)
    requires Tree(m) && dp in m && m[dp].Dir? && k < |m[dp].ents| && Named(m[dp].ents[k], name)
    ensures forall j: nat | j < |m[dp].ents| && Named(m[dp].ents[j], name) :: j == k
    ensures forall j: nat | Removable(m, dp, j, name) :: j == k
  {
    assert Shaped(dp, m[dp].ents);
  }

  predicate Named(e: Dirent, name: string) { e.inum != 0 && e.name == name }

  predicate IsFile(m: Table, i: nat) { i in m && m[i].File? }

  // ---- what names stand for ----

  /** A lookup of name finds i. */
  ghost predicate Finds(ents: seq<Dirent>, name: string, i: nat) {
    i != 0 && exists k: nat :: k < |ents| && ents[k] == Dirent(i, name)
  }

  /** name now stands for i, and every other name for what it stood for. */
  ghost predicate Gains(was: seq<Dirent>, now: seq<Dirent>, name: string, i: nat) {
    forall x: string, j: nat :: Finds(now, x, j) <==> if x == name then j == i else Finds(was, x, j)
  }

  /** name stands for nothing any more, and every other name for what it stood for. */
  ghost predicate Loses(was: seq<Dirent>, now: seq<Dirent>, name: string) {
    forall x: string, j: nat :: Finds(now, x, j) <==> x != name && Finds(was, x, j)
  }

  /** No other inode has changed. */
  ghost predicate Others(was: Table, now: Table, d: nat, i: nat) {
    forall j: nat | j != d && j != i :: (j in now <==> j in was) && (j in was ==> now[j] == was[j])
  }

  lemma PutFinds(ents: seq<Dirent>, k: nat, name: string, i: nat, x: string, j: nat)
    requires FreeSlot(ents, k) && Unused(ents, name) && i != 0
    ensures Finds(PutEntry(ents, k, Dirent(i, name)), x, j) <==> if x == name then j == i else Finds(ents, x, j)
  {
    var now := PutEntry(ents, k, Dirent(i, name));
    assert now[k] == Dirent(i, name);
    assert forall h: nat | h < |ents| && h != k :: now[h] == ents[h];
    if j != 0 && Finds(ents, x, j) {
      var h: nat :| h < |ents| && ents[h] == Dirent(j, x);
      assert now[h] == Dirent(j, x);
    }
  }

  lemma PutGains(ents: seq<Dirent>, k: nat, name: string, i: nat)
    requires FreeSlot(ents, k) && Unused(ents, name) && i != 0
    ensures Gains(ents, PutEntry(ents, k, Dirent(i, name)), name, i)
  {
    forall x: string, j: nat
      ensures Finds(PutEntry(ents, k, Dirent(i, name)), x, j) <==> if x == name then j == i else Finds(ents, x, j)
    {
      PutFinds(ents, k, name, i, x, j);
    }
  }

  lemma EraseLoses(ents: seq<Dirent>, k: nat, name: string)
    requires k < |ents| && Named(ents[k], name) && forall j: nat | j < |ents| && Named(ents[j], name) :: j == k
    ensures Finds(ents, name, ents[k].inum) && Loses(ents, ents[k := Dirent(0, "")], name)
  {
    var now := ents[k := Dirent(0, "")];
    assert ents[k] == Dirent(ents[k].inum, name);
    forall x: string, j: nat ensures Finds(now, x, j) <==> x != name && Finds(ents, x, j) {
      if j != 0 && x != name && Finds(ents, x, j) {
        var h: nat :| h < |ents| && ents[h] == Dirent(j, x);
        assert now[h] == Dirent(j, x);
      }
      if Finds(now, x, j) {
        var h: nat :| h < |now| && now[h] == Dirent(j, x);
        assert ents[h] == Dirent(j, x);
      }
    }
  }

  class FileTree {
    const ninodes: nat
    var inodes: Table
    var refs: map<nat, nat>            // ip->ref, for the inodes in memory
    ghost var linking: map<nat, nat>   // the processes between the two steps of sys_link, and their files

    ghost function W(): World
      reads this
    {
      World(inodes, linking, refs)
    }

    /** The law of link counts, and what references promise. */
    ghost predicate Valid()
      reads this
    {
      Sound(W())
    }

    /** The table of the image that mkfs makes of these files. */
    constructor (n: nat, m: Table, ghost names: seq<string>)
      requires Image(m, names) && "." !in names && ".." !in names
      requires forall j: nat, k: nat | j < k < |names| :: names[j] != names[k]
      ensures Valid() && inodes == m && linking == map[] && refs == map[] && ninodes == n
    {
      ninodes, inodes, refs, linking := n, m, map[], map[];
      new;
      ImageInv(m, names);
      forall i: nat ensures Referenced(W(), i) { assert Waiting(map[], i) == {}; }
    }

    /** dirlookup: the entry with this name, or -1. */
    method Dirlookup(d: nat, name: string) returns (k: int)
      requires d in inodes && inodes[d].Dir?
      ensures k < 0 <==> Unused(inodes[d].ents, name)
      ensures k >= 0 ==> k < |inodes[d].ents| && inodes[d].ents[k].inum != 0 && inodes[d].ents[k].name == name
    {
      k := 0;
      while k < |inodes[d].ents|
        invariant 0 <= k <= |inodes[d].ents| && forall j: nat | j < k && inodes[d].ents[j].inum != 0 ::
                  inodes[d].ents[j].name != name
      {
        if inodes[d].ents[k].inum != 0 && inodes[d].ents[k].name == name { return; }
        k := k + 1;
      }
      k := -1;
    }

    /** dirlink: a free entry, or one more if space allows. */
    method Dirlink(d: nat, name: string, i: nat, space: bool) returns (ok: bool, k: nat)
      requires d in inodes && inodes[d].Dir?
      modifies this`inodes
      ensures ok ==> old(CanPut(inodes, d, k, name)) && inodes == AddLink(old(inodes), d, k, name, i)
      ensures !ok ==> inodes == old(inodes)
      ensures ok <==> old(Unused(inodes[d].ents, name) && (space || HasRoom(inodes[d].ents)))
      ensures ok && i != 0 ==> Gains(old(inodes)[d].ents, inodes[d].ents, name, i)
    {
      k := 0;
      var found := Dirlookup(d, name);
      if found >= 0 { return false, 0; }
      var ents := inodes[d].ents;
      while k < |ents| && ents[k].inum != 0
        invariant k <= |ents| && forall j: nat | j < k :: ents[j].inum != 0
      {
        k := k + 1;
      }
      if k == |ents| && !space { return false, 0; }
      if i != 0 { PutGains(ents, k, name, i); }
      inodes := inodes[d := Dir(inodes[d].nlink, PutEntry(ents, k, Dirent(i, name)))];
      ok := true;
    }

    method IsDirEmpty(d: nat) returns (r: bool)
      requires d in inodes && inodes[d].Dir?
      ensures r <==> Empty(inodes[d].ents)
    {
      var k := 2;
      while k < |inodes[d].ents|
        invariant 2 <= k && forall j: nat | 2 <= j < k && j < |inodes[d].ents| :: inodes[d].ents[j].inum == 0
      {
        if inodes[d].ents[k].inum != 0 { return false; }
        k := k + 1;
      }
      return true;
    }

    /** ialloc: the first free inode number, or 0. */
    method Ialloc() returns (i: nat)
      ensures i != 0 ==> i < ninodes && i !in inodes && forall j: nat | 1 <= j < i :: j in inodes
      ensures i == 0 ==> forall j: nat | 1 <= j < ninodes :: j in inodes
    {
      i := 1;
      while i < ninodes
        invariant 1 <= i && forall j: nat | 1 <= j < i :: j in inodes
      {
        if i !in inodes { return; }
        i := i + 1;
      }
      i := 0;
    }

    /** create, when the parent dp is locked: a new inode, the file there already, or 0. own and up tell whether there
        is a block for the new directory's entries and one for dp's. */
    method Create(dp: nat, name: string, t: Type, own: bool, up: bool) returns (ip: nat, made: bool)
      requires Valid() && dp in inodes && inodes[dp].Dir?
      modifies this`inodes, this`refs
      ensures !made ==> inodes == old(inodes)
      ensures !made && ip == 0 ==> refs == old(refs)
      ensures !made && ip != 0 ==> t.TFile? && ip in inodes && inodes[ip].File? && refs == Take(old(refs), ip)
      ensures !made && ip != 0 ==> exists k: nat :: k < |inodes[dp].ents| && inodes[dp].ents[k] == Dirent(ip, name)
      ensures made ==>
              exists k: nat ::
                Can(old(W()), Making(t, dp, k, name, ip)) && W() == Do(old(W()), Making(t, dp, k, name, ip))
      ensures made <==>
              && (t.TDir? ==> own) && old(Unused(inodes[dp].ents, name) && (up || HasRoom(inodes[dp].ents)))
              && exists j: nat :: 1 <= j < ninodes && j !in old(inodes)
      ensures made ==> Gains(old(inodes)[dp].ents, inodes[dp].ents, name, ip) && Others(old(inodes), inodes, dp, ip)
      ensures made ==>
              if t.TDir? then inodes[ip] == Dir(1, [Dirent(ip, "."), Dirent(dp, "..")]) else inodes[ip] == File(1)
      ensures !made && ip == 0 && t.TFile? ==>
              forall k: nat | k < |inodes[dp].ents| && Named(inodes[dp].ents[k], name) ::
                !IsFile(inodes, inodes[dp].ents[k].inum)
      ensures Valid() <==> (made ==> old(Live(inodes[dp]) && (t.TDir? ==> inodes[dp].nlink < SHORT_MAX)))
    {
      ghost var w := W();
      made := false;
      var found := Dirlookup(dp, name);
      if found >= 0 {
        ip := Existing(dp, found, t);
        OnlyOne(inodes, dp, found, name);
        return;
      }
      ip := Ialloc();
      if ip == 0 { return; }
      var ok, k := Fill(dp, name, t, ip, own, up);
      if !ok {
        inodes := inodes - {ip};
        assert inodes == w.m;
        return 0, false;
      }
      refs := Take(refs, ip);
      made := true;
      ghost var op := Making(t, dp, k, name, ip);
      assert Can(w, op) && W() == Do(w, op);
      StepIff(w, op);
    }

    /** create, when the name is there: its file, if a file was to be made. */
    method Existing(dp: nat, found: nat, t: Type) returns (ip: nat)
      requires Valid() && dp in inodes && inodes[dp].Dir? && found < |inodes[dp].ents|
               && inodes[dp].ents[found].inum != 0
      modifies this`refs
      ensures Valid()
      ensures ip != 0 <==> t.TFile? && var i := inodes[dp].ents[found].inum; i in inodes && inodes[i].File?
      ensures ip != 0 ==> ip == inodes[dp].ents[found].inum && refs == Take(old(refs), ip)
      ensures ip == 0 ==> refs == old(refs)
    {
      ip := inodes[dp].ents[found].inum;
      if !t.TFile? || ip !in inodes || !inodes[ip].File? { return 0; }
      Iget(ip);
    }

    /** The new inode's fields, its first entries, and its entry in dp. */
    method Fill(dp: nat, name: string, t: Type, ip: nat, own: bool, up: bool) returns (ok: bool, k: nat)
      requires dp in inodes && inodes[dp].Dir? && ip !in inodes && ip != 0
      modifies this`inodes
      ensures ok ==> old(CanPut(inodes, dp, k, name))
      ensures ok ==> inodes == if t.TDir? then AddDir(old(inodes), dp, k, name, ip)
              else AddFile(old(inodes), dp, k, name, ip)
      ensures !ok ==> inodes.Keys == old(inodes).Keys + {ip} && inodes - {ip} == old(inodes)
      ensures ok <==> (t.TDir? ==> own) && old(Unused(inodes[dp].ents, name) && (up || HasRoom(inodes[dp].ents)))
      ensures ok ==> Gains(old(inodes)[dp].ents, inodes[dp].ents, name, ip) && Others(old(inodes), inodes, dp, ip)
      ensures ok ==>
              if t.TDir? then inodes[ip] == Dir(1, [Dirent(ip, "."), Dirent(dp, "..")]) else inodes[ip] == File(1)
    {
      k := 0;
      ok := Start(dp, t, ip, own);
      if !ok { return; }
      assert inodes[dp] == old(inodes)[dp];
      ok, k := Dirlink(dp, name, ip, up);
      if !ok { return; }
      if t.TDir? { inodes := inodes[dp := Dir(Short(inodes[dp].nlink + 1), inodes[dp].ents)]; }
    }

    /** The new inode with nlink 1, and "." and ".." if it is a directory. */
    method Start(dp: nat, t: Type, ip: nat, own: bool) returns (ok: bool)
      requires dp in inodes && ip !in inodes && ip != 0
      modifies this`inodes
      ensures ok ==> inodes == old(inodes)[ip := if t.TDir? then Dir(1, [Dirent(ip, "."), Dirent(dp, "..")])
              else File(1)]
      ensures !ok ==> inodes.Keys == old(inodes).Keys + {ip} && inodes - {ip} == old(inodes)
      ensures ok <==> (t.TDir? ==> own)
    {
      if t.TDir? {
        inodes := inodes[ip := Dir(1, [])];
        var j;
        ok, j := Dirlink(ip, ".", ip, own);
        if !ok { return; }
        assert j == 0 && PutEntry([], 0, Dirent(ip, ".")) == [Dirent(ip, ".")];
        assert inodes == old(inodes)[ip := Dir(1, [Dirent(ip, ".")])];
        ok, j := Dirlink(ip, "..", dp, own);
        if !ok { return; }
        assert j == 1 && PutEntry([Dirent(ip, ".")], 1, Dirent(dp, "..")) == [Dirent(ip, "."), Dirent(dp, "..")];
      } else {
        inodes := inodes[ip := File(1)];
        ok := true;
      }
    }

    /** iget of an inode that a lookup has found. */
    method Iget(i: nat)
      requires Valid() && i in inodes
      modifies this`refs
      ensures Valid() && refs == Take(old(refs), i)
    {
      ghost var w := W();
      refs := Take(refs, i);
      assert W() == Do(w, Get(i));
      StepIff(w, Get(i));
    }

    /** The first step of sys_link: -1 for a directory, else one more link. */
    method LinkStart(p: nat, ip: nat) returns (ok: bool)
      requires Valid() && p !in linking && Spare(W(), ip)
      modifies this`inodes, this`linking
      ensures ok <==> old(inodes)[ip].File?
      ensures !ok ==> W() == old(W())
      ensures ok ==> W() == Do(old(W()), LinkBegin(p, ip))
      ensures Valid() <==> (ok ==> old(inodes)[ip].nlink < SHORT_MAX)
    {
      if inodes[ip].Dir? { return false; }
      ghost var w, op := W(), LinkBegin(p, ip);
      inodes := inodes[ip := File(Short(inodes[ip].nlink + 1))];
      linking := linking[p := ip];
      assert W() == Do(w, op);
      StepIff(w, op);
      ok := true;
    }

    /** The second step of sys_link: the entry in dp, if there is such a directory and it takes it; else the count goes
        back. parent is 0 when the new path has no parent, and near tells whether it is on the same device. */
    method LinkFinish(p: nat, ip: nat, parent: nat, near: bool, name: string, space: bool) returns (ok: bool)
      requires Valid() && p in linking && linking[p] == ip && (parent != 0 ==> parent in inodes && inodes[parent].Dir?)
      modifies this`inodes, this`linking
      ensures ok <==>
              parent != 0 && near
              && old(Unused(inodes[parent].ents, name) && (space || HasRoom(inodes[parent].ents)))
      ensures ok ==>
              exists k: nat ::
                Can(old(W()), LinkEnd(p, parent, k, name)) && W() == Do(old(W()), LinkEnd(p, parent, k, name))
      ensures ok ==>
              Gains(old(inodes)[parent].ents, inodes[parent].ents, name, ip) && Others(old(inodes), inodes, parent, 0)
      ensures !ok ==> W() == Do(old(W()), LinkUndo(p))
      ensures Valid() <==> (ok ==> old(Live(inodes[parent])))
    {
      ghost var w := W();
      ok := false;
      if parent != 0 && near {
        var k;
        ok, k := Dirlink(parent, name, ip, space);
        if ok {
          ghost var op := LinkEnd(p, parent, k, name);
          linking := linking - {p};
          assert Can(w, op) && W() == Do(w, op);
          StepIff(w, op);
          return;
        }
      }
      inodes := inodes[ip := File(Short(inodes[ip].nlink - 1))];
      linking := linking - {p};
      assert W() == Do(w, LinkUndo(p));
      StepIff(w, LinkUndo(p));
    }

    /** sys_unlink, when the parent dp is locked; the inode it has looked up is the caller's to put. */
    method Unlink(dp: nat, name: string) returns (ok: bool, ip: nat)
      requires Valid() && dp in inodes && inodes[dp].Dir?
      modifies this`inodes, this`refs
      ensures Valid()
      ensures !ok ==> W() == old(W())
      ensures ok <==> name != "." && name != ".." && exists k: nat :: Removable(old(inodes), dp, k, name)
      ensures ok ==>
              exists k: nat ::
                && Removable(old(inodes), dp, k, name) && Removing(old(inodes), dp, k, ip)
                && W() == Do(old(W()), Removal(old(inodes), dp, k, ip))
      ensures ok ==>
              && Finds(old(inodes)[dp].ents, name, ip) && Loses(old(inodes)[dp].ents, inodes[dp].ents, name)
              && Others(old(inodes), inodes, dp, ip)
    {
      ghost var w := W();
      ip := 0;
      if name == "." || name == ".." { return false, 0; }
      var k := Dirlookup(dp, name);
      if k < 0 { return false, 0; }
      Found(inodes, dp, k);
      ip := inodes[dp].ents[k].inum;
      HasLink(inodes, linking, dp, k, ip);
      assert inodes[ip].nlink >= 1;    // so "unlink: nlink < 1" is never reached
      if inodes[ip].Dir? {
        var empty := IsDirEmpty(ip);
        if !empty {
          OnlyOne(inodes, dp, k, name);
          return false, 0;
        }
      }
      ok := true;
      assert Removable(inodes, dp, k, name);
      ghost var op := Removal(inodes, dp, k, ip);
      UnlinkKeeps(w, op);
      OnlyOne(inodes, dp, k, name);
      EraseLoses(inodes[dp].ents, k, name);
      Erase(dp, k, ip);
      refs := Take(refs, ip);
      assert W() == Do(w, op);
    }

    /** The entry is cleared, and the counts go down. */
    method Erase(dp: nat, k: nat, ip: nat)
      requires dp in inodes && inodes[dp].Dir? && k < |inodes[dp].ents| && ip in inodes && ip != dp
      modifies this`inodes
      ensures inodes == if old(inodes)[ip].Dir? then RemoveDir(old(inodes), dp, k, ip)
              else RemoveFile(old(inodes), dp, k, ip)
    {
      var dir := inodes[ip].Dir?;
      inodes := inodes[dp := Dir(inodes[dp].nlink, inodes[dp].ents[k := Dirent(0, "")])];
      if dir { inodes := inodes[dp := Dir(Short(inodes[dp].nlink - 1), inodes[dp].ents)]; }
      var n := inodes[ip];
      inodes := inodes[ip := if dir then Dir(Short(n.nlink - 1), n.ents) else File(Short(n.nlink - 1))];
    }

    /** iput: the inode is freed with its last reference, if it has no links; then no live directory names it. */
    method Iput(i: nat)
      requires Valid() && Spare(W(), i)
      modifies this`inodes, this`refs
      ensures Valid() && refs == old(refs)[i := old(refs)[i] - 1]
      ensures inodes == if old(refs[i] == 1 && inodes[i].nlink == 0) then old(inodes) - {i} else old(inodes)
      ensures i !in inodes ==> forall d: nat, k: nat :: !Names(old(inodes), d, k, i)
    {
      ghost var w := W();
      PutKeeps(w, i);
      if refs[i] == 1 && inodes[i].nlink == 0 { inodes := inodes - {i}; }
      refs := refs[i := refs[i] - 1];
      assert W() == Do(w, Put(i));
    }
  }
}
