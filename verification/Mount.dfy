/** The kernel's file system on the image that mkfs makes. */
module Mount {
  import opened Folding
  import opened Params
  import opened Blocks
  import opened FsModel
  import opened Fs
  import opened Mkfs

  /** The inodes of an image as the kernel finds them: the root directory with its entries and zeroes behind them, file
      i in inode i + 2, and the other inodes free. */
  ghost predicate Mounted(v: seq<Node>, files: seq<File>) {
    && |v| == NINODES >= |files| + 2 && v[ROOTINO] == Node(T_DIR, 1, RootDir(files) + Zeros(Padding(files)))
    && (forall i: nat | i < |files| :: v[i + 2] == Node(T_FILE, 1, files[i].data))
    && (forall n: nat | n < NINODES && n != ROOTINO && !(2 <= n < |files| + 2) :: v[n] == Node(0, 0, []))
  }

  /** What mkfs wrote is what the file system holds. */
  method MountImage(files: seq<File>) returns (fs: FileSystem)
    requires Fits(files) && (|files| + 2) % 64 != 0
    ensures fresh(fs) && fs.L == IMAGE && fs.Valid() && |fs.inodes| == NINODES && Vacant(fs.inodes)
    ensures Mounted(Nodes(IMAGE, fs.T()), files)
  {
    var im, t := MakeFs(files);
    fs := new FileSystem(im.L, im.bitmap, im.inodes, im.blocks, im.T());
    FilesHeld(t, fs.T(), files);
    FreeInodes(t, fs.T(), files);
  }

  /** The free inodes of an image have no blocks. */
  lemma FreeInodes(t: Tree, u: Tree, files: seq<File>)
    requires Inv(IMAGE, t) && AllTight(t) && Holds(Nodes(IMAGE, t), files)
    requires ROOTINO < |u.inodes| && u == Resized(t, ROOTINO, u.inodes[ROOTINO].size)
    ensures Vacant(u.inodes)
  {
    forall n: nat | n < |u.inodes| && u.inodes[n].typ == 0 ensures Bare(u.inodes[n]) {
      FreeInode(t, files, n);
    }
  }

  lemma FreeInode(t: Tree, files: seq<File>, n: nat)
    requires Inv(IMAGE, t) && AllTight(t) && Holds(Nodes(IMAGE, t), files) && n < |t.inodes| && t.inodes[n].typ == 0
    ensures n != ROOTINO && Bare(t.inodes[n])
  {
    var v := Nodes(IMAGE, t);
    assert v[n] == Node(t.inodes[n].typ, t.inodes[n].nlink, Content(IMAGE, t, n));
    if 2 <= n < |files| + 2 { FileHeld(v, files, n - 2, n); } else if n != ROOTINO { FreeHeld(v, files, n); }
    assert t.inodes[n].size == |v[n].data| && Tight(t, n, 0);
    forall k: nat | k < NDIRECT ensures t.inodes[n].addrs[k] == 0 { assert Addr(t, n, k) == 0; }
    assert Addr(t, n, INDIRECT) == 0;
  }

  lemma FilesHeld(t: Tree, u: Tree, files: seq<File>)
    requires Inv(IMAGE, t) && Inv(IMAGE, u) && Holds(Nodes(IMAGE, t), files) && OthersKept(IMAGE, t, u, ROOTINO)
    requires u == Resized(t, ROOTINO, u.inodes[ROOTINO].size)
    requires Content(IMAGE, u, ROOTINO) == RootDir(files) + Zeros(Padding(files))
    ensures |u.inodes| == NINODES && Mounted(Nodes(IMAGE, u), files)
  {
    NodesUpdated(IMAGE, t, u, ROOTINO);
    var v := Nodes(IMAGE, t);
    assert v[ROOTINO] == Node(t.inodes[ROOTINO].typ, t.inodes[ROOTINO].nlink, Content(IMAGE, t, ROOTINO));
    forall i: nat | i < |files| ensures v[i + 2] == Node(T_FILE, 1, files[i].data) {
      FileHeld(v, files, i, i + 2);
    }
    forall n: nat | n < NINODES && n != ROOTINO && !(2 <= n < |files| + 2) ensures v[n] == Node(0, 0, []) {
      FreeHeld(v, files, n);
    }
  }

  lemma OneFile(f: File)
    requires |f.data| == 2
    ensures Fits([f])
  {
    assert [f][..0] == [];
    assert DataBlocks([f]) == DataBlocks([]) + BlockCount(2);
  }

  /** A write of two bytes whose second byte is not the user's: writei returns 0, and the first byte has changed. */
  method TornWrite(name: seq<byte>) returns (fs: FileSystem, r: int, ghost before: seq<byte>)
    ensures fresh(fs) && fs.L == IMAGE && fs.Valid() && |fs.inodes| == NINODES
    ensures r == 0 && before == [0, 0] && Content(IMAGE, fs.T(), 2) == [1, 0]
  {
    var f := File(name, [0, 0]);
    OneFile(f);
    fs := MountImage([f]);
    before := Content(IMAGE, fs.T(), 2);
    assert Nodes(IMAGE, fs.T())[0 + 2] == Node(T_FILE, 1, [f][0].data);
    ghost var touched, done, lost;
    r, touched, done, lost := fs.Writei(2, [1], 0, 2);
    assert Open(0);
    assert done == 1 && r == 0;
    assert [1][..1] == [1];
    assert Splice([0, 0], 0, [1]) == [1, 0];
  }
}
