/** The directory tree that the bytes of an mkfs image mean: the start of the law of link counts. */
module RootTree {
  import opened Blocks
  import opened Mkfs
  import opened Mount
  import LinkModel

  /** The characters of a name up to its first NUL. */
  function Name(b: seq<byte>): string { if b == [] || b[0] == 0 then [] else [b[0] as char] + Name(b[1..]) }

  /** The bytes of entry k of a directory with contents d. */
  function Bytes(d: seq<byte>, k: nat): (e: seq<byte>)
    requires DIRENT * k + DIRENT <= |d|
    ensures |e| == DIRENT
  {
    d[DIRENT * k..DIRENT * k + DIRENT]
  }

  /** What the bytes of an entry mean. */
  function Decoded(e: seq<byte>): LinkModel.Dirent
    requires |e| == DIRENT
  {
    LinkModel.Dirent(e[0] as nat + 256 * e[1] as nat, Name(e[2..]))
  }

  function Entries(d: seq<byte>): (ents: seq<LinkModel.Dirent>)
    ensures |ents| == |d| / DIRENT && forall k: nat | k < |ents| :: ents[k] == Decoded(Bytes(d, k))
  {
    seq(|d| / DIRENT, k requires 0 <= k < |d| / DIRENT => Decoded(Bytes(d, k)))
  }

  /** The tree of directories and files in a list of inodes. */
  function TreeOf(v: seq<Node>): LinkModel.Table {
    map n: nat | n < |v| && v[n].typ != 0 ::
      if v[n].typ == T_DIR then LinkModel.Dir(v[n].nlink, Entries(v[n].data)) else LinkModel.File(v[n].nlink)
  }

  /** strncpy takes DIRSIZ bytes of a name. */
  function Cut(name: seq<byte>): seq<byte> { if |name| >= DIRSIZ then name[..DIRSIZ] else name }

  function NameOf(f: File): string { Name(Cut(f.name)) }

  function Names(files: seq<File>): seq<string> { seq(|files|, i requires 0 <= i < |files| => NameOf(files[i])) }

  lemma {:induction false} NamePadded(b: seq<byte>, n: nat)
    ensures Name(b + Zeros(n)) == Name(b)
  {
    if b == [] {
      assert b + Zeros(n) == Zeros(n);
    } else {
      assert (b + Zeros(n))[1..] == b[1..] + Zeros(n);
      NamePadded(b[1..], n);
    }
  }

  lemma NumberBack(inum: nat)
    requires inum < 0x1_0000
    ensures inum % 256 + 256 * (inum / 256 % 256) == inum
  {
  }

  lemma DirentParts(inum: nat, name: seq<byte>, e: seq<byte>)
    requires e == Dirent(inum, name)
    ensures e[0] == (inum % 256) as byte && e[1] == (inum / 256 % 256) as byte
    ensures e[2..] == if |name| >= DIRSIZ then Cut(name) else Cut(name) + Zeros(DIRSIZ - |name|)
  {
  }

  /** An entry reads back as it was written. */
  lemma EntryBack(inum: nat, name: seq<byte>)
    requires inum < 0x1_0000
    ensures Decoded(Dirent(inum, name)) == LinkModel.Dirent(inum, Name(Cut(name)))
  {
    DirentParts(inum, name, Dirent(inum, name));
    NumberBack(inum);
    if |name| < DIRSIZ { NamePadded(name, DIRSIZ - |name|); }
  }

  lemma BytesLeft(a: seq<byte>, b: seq<byte>, k: nat)
    requires DIRENT * k + DIRENT <= |a|
    ensures Bytes(a + b, k) == Bytes(a, k)
  {
  }

  lemma BytesRight(a: seq<byte>, b: seq<byte>, k: nat)
    requires DIRENT * k == |a| && |b| == DIRENT
    ensures Bytes(a + b, k) == b
  {
  }

  /** Entry k as mkfs writes it. */
  function Given(files: seq<File>, k: nat): seq<byte>
    requires k < |files| + 2
  {
    if k == 0 then Dirent(ROOTINO, DOT) else if k == 1 then Dirent(ROOTINO, DOTDOT) else Dirent(k, files[k - 2].name)
  }

  lemma {:induction false} RootAt(files: seq<File>, k: nat)
    requires k < |files| + 2
    ensures Bytes(RootDir(files), k) == Given(files, k)
  {
    if files == [] {
      if k == 0 {
        BytesLeft(Dirent(ROOTINO, DOT), Dirent(ROOTINO, DOTDOT), 0);
      } else {
        BytesRight(Dirent(ROOTINO, DOT), Dirent(ROOTINO, DOTDOT), 1);
      }
    } else {
      var n := |files|;
      var less, last := files[..n - 1], Dirent(n + 1, files[n - 1].name);
      assert RootDir(files) == RootDir(less) + last;
      if k < n + 1 {
        RootAt(less, k);
        BytesLeft(RootDir(less), last, k);
      } else {
        BytesRight(RootDir(less), last, k);
      }
    }
  }

  lemma DotNames()
    ensures Name(Cut(DOT)) == "." && Name(Cut(DOTDOT)) == ".."
  {
    assert DOT[1..] == [] && DOTDOT[1..] == DOT;
    assert Name(DOT) == ['.'] + Name(DOT[1..]);
  }

  /** Entry k of the root directory, with what follows it. */
  lemma RootEntry(files: seq<File>, d: seq<byte>, pad: nat, k: nat)
    requires k < |files| + 2 <= 0x1_0000 && d == RootDir(files) + Zeros(pad)
    ensures Decoded(Bytes(d, k)) == if k == 0 then LinkModel.Dirent(ROOTINO, ".")
                                    else if k == 1 then LinkModel.Dirent(ROOTINO, "..")
                                    else LinkModel.Dirent(k, NameOf(files[k - 2]))
  {
    BytesLeft(RootDir(files), Zeros(pad), k);
    RootAt(files, k);
    DotNames();
    EntryBack(if k < 2 then ROOTINO else k, if k == 0 then DOT else if k == 1 then DOTDOT else files[k - 2].name);
  }

  lemma FreeEntry(files: seq<File>, d: seq<byte>, pad: nat, k: nat)
    requires |files| + 2 <= k && DIRENT * k + DIRENT <= |d| && d == RootDir(files) + Zeros(pad)
    ensures Decoded(Bytes(d, k)).inum == 0
  {
    var e := Bytes(d, k);
    assert e[0] == d[DIRENT * k] && e[1] == d[DIRENT * k + 1];
  }

  /** What the kernel reads from an image of these files is their tree. */
  lemma MountedTree(v: seq<Node>, files: seq<File>)
    requires Mounted(v, files)
    ensures LinkModel.Image(TreeOf(v), Names(files))
  {
    var m, pad := TreeOf(v), Padding(files);
    var d := RootDir(files) + Zeros(pad);
    assert v[ROOTINO].data == d;
    RootTable(files, d, pad);
    forall i: nat | i < |v| ensures i in m <==> 1 <= i < |files| + 2 {
      MountedAt(v, files, i);
    }
    forall i: nat | 2 <= i < |files| + 2 ensures m[i] == LinkModel.File(1) {
      MountedAt(v, files, i);
    }
  }

  lemma MountedAt(v: seq<Node>, files: seq<File>, i: nat)
    requires Mounted(v, files) && i < |v|
    ensures v[i].typ != 0 <==> 1 <= i < |files| + 2
    ensures 2 <= i < |files| + 2 ==> v[i].typ == T_FILE && v[i].nlink == 1
  {
    if 2 <= i < |files| + 2 {
      var j: nat := i - 2;
      assert v[j + 2] == Node(T_FILE, 1, files[j].data);
    }
  }

  lemma RootTable(files: seq<File>, d: seq<byte>, pad: nat)
    requires |files| + 2 <= NINODES && d == RootDir(files) + Zeros(pad)
    ensures var ents, n := Entries(d), |files|;
            && |ents| >= n + 2
            && ents[0] == LinkModel.Dirent(ROOTINO, ".") && ents[1] == LinkModel.Dirent(ROOTINO, "..")
            && (forall k: nat | k < n :: ents[k + 2] == LinkModel.Dirent(k + 2, Names(files)[k]))
            && (forall k: nat | n + 2 <= k < |ents| :: ents[k].inum == 0)
  {
    var ents := Entries(d);
    RootEntry(files, d, pad, 0);
    RootEntry(files, d, pad, 1);
    forall k: nat | k < |files| ensures ents[k + 2] == LinkModel.Dirent(k + 2, Names(files)[k]) {
      RootEntry(files, d, pad, k + 2);
    }
    forall k: nat | |files| + 2 <= k < |ents| ensures ents[k].inum == 0 {
      FreeEntry(files, d, pad, k);
    }
  }

  /** So it satisfies the law of link counts, if mkfs was given different names. */
  lemma MountedCounts(v: seq<Node>, files: seq<File>)
    requires Mounted(v, files) && "." !in Names(files) && ".." !in Names(files)
    requires forall j: nat, k: nat | j < k < |files| :: NameOf(files[j]) != NameOf(files[k])
    ensures LinkModel.Inv(TreeOf(v), map[])
  {
    MountedTree(v, files);
    LinkModel.ImageInv(TreeOf(v), Names(files));
  }
}
