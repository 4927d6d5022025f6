/** Runs of create, sys_link, sys_unlink, lookups and iput: when the law of link counts survives a step, and a whole
    run. */
module LinkRuns {
  import opened LinkModel

  /** refs is ip->ref, for the inodes in memory; linking are the processes between the two steps of sys_link. */
  datatype World = World(m: Table, linking: map<nat, nat>, refs: map<nat, nat>)

  function Held(refs: map<nat, nat>, i: nat): nat { if i in refs then refs[i] else 0 }

  /** A link under way holds a reference; only allocated inodes are held; one without links lasts while it is held. */
  ghost predicate Referenced(w: World, i: nat) {
    && |Waiting(w.linking, i)| <= Held(w.refs, i) && (Held(w.refs, i) > 0 ==> i in w.m)
    && (i in w.m && w.m[i].nlink == 0 ==> Held(w.refs, i) > 0)
  }

  ghost predicate Sound(w: World) { Inv(w.m, w.linking) && forall i: nat :: Referenced(w, i) }

  datatype Op =
    | MakeFile(d: nat, k: nat, name: string, i: nat)
    | MakeDir(d: nat, k: nat, name: string, i: nat)
    | LinkBegin(p: nat, i: nat)
    | LinkEnd(p: nat, d: nat, k: nat, name: string)
    | LinkUndo(p: nat)
    | UnlinkFile(d: nat, k: nat, i: nat)
    | UnlinkDir(d: nat, k: nat, i: nat)
    | Get(i: nat)
    | Put(i: nat)

  /** i has a reference that no link under way relies on. */
  ghost predicate Spare(w: World, i: nat) { i in w.m && Held(w.refs, i) > |Waiting(w.linking, i)| }

  /** What the code has checked, and what a caller must hold, before the step. */
  ghost predicate Can(w: World, op: Op) {
    match op
    case MakeFile(d, k, name, i) => CanPut(w.m, d, k, name) && i !in w.m && i != 0
    case MakeDir(d, k, name, i) => CanPut(w.m, d, k, name) && i !in w.m && i != 0
    case LinkBegin(p, i) => p !in w.linking && Spare(w, i) && w.m[i].File?
    case LinkEnd(p, d, k, name) => p in w.linking && CanPut(w.m, d, k, name)
    case LinkUndo(p) => p in w.linking && w.linking[p] in w.m && w.m[w.linking[p]].File?
    case UnlinkFile(d, k, i) => Lists(w.m, d, k, i) && i in w.m && w.m[i].File?
    case UnlinkDir(d, k, i) => Lists(w.m, d, k, i) && i in w.m && w.m[i].Dir? && Empty(w.m[i].ents)
    case Get(i) => i in w.m
    case Put(i) => Spare(w, i)
  }

  function Take(refs: map<nat, nat>, i: nat): map<nat, nat> { refs[i := Held(refs, i) + 1] }

  ghost function Do(w: World, op: Op): World
    requires Can(w, op)
  {
    match op
    case MakeFile(d, k, name, i) => World(AddFile(w.m, d, k, name, i), w.linking, Take(w.refs, i))
    case MakeDir(d, k, name, i) => World(AddDir(w.m, d, k, name, i), w.linking, Take(w.refs, i))
    case LinkBegin(p, i) => World(LinkUp(w.m, i), w.linking[p := i], w.refs)
    case LinkEnd(p, d, k, name) => World(AddLink(w.m, d, k, name, w.linking[p]), w.linking - {p}, w.refs)
    case LinkUndo(p) => World(LinkDown(w.m, w.linking[p]), w.linking - {p}, w.refs)
    case UnlinkFile(d, k, i) => World(RemoveFile(w.m, d, k, i), w.linking, Take(w.refs, i))
    case UnlinkDir(d, k, i) => World(RemoveDir(w.m, d, k, i), w.linking, Take(w.refs, i))
    case Get(i) => World(w.m, w.linking, Take(w.refs, i))
    case Put(i) => World(if LastPut(w, i) then w.m - {i} else w.m, w.linking, w.refs[i := Held(w.refs, i) - 1])
  }

  /** iput frees the inode. */
  predicate LastPut(w: World, i: nat)
    requires i in w.m
  {
    Held(w.refs, i) == 1 && w.m[i].nlink == 0
  }

  /** The parent has not been removed, and no count goes past what a short holds. */
  ghost predicate Clean(w: World, op: Op)
    requires Can(w, op)
  {
    match op
    case MakeFile(d, _, _, _) => Live(w.m[d])
    case MakeDir(d, _, _, _) => Live(w.m[d]) && w.m[d].nlink < SHORT_MAX
    case LinkBegin(_, i) => w.m[i].nlink < SHORT_MAX
    case LinkEnd(_, d, _, _) => Live(w.m[d])
    case _ => true
  }

  // ---- one step ----

  /** The tables of two worlds whose references differ only at i, which is held in the second. */
  lemma TookOne(w: World, x: World, i: nat)
    requires Sound(w) && x.linking == w.linking && x.refs == Take(w.refs, i) && i in x.m
    requires forall j: nat | j != i :: (j in x.m <==> j in w.m) && (j in w.m && x.m[j].nlink == 0 ==> w.m[j].nlink == 0)
    ensures forall j: nat :: Referenced(x, j)
  {
    forall j: nat ensures Referenced(x, j) {
      assert Referenced(w, j);
    }
  }

  lemma MakeFileIff(w: World, op: Op)
    requires Sound(w) && op.MakeFile? && Can(w, op)
    ensures Sound(Do(w, op)) <==> Clean(w, op)
  {
    AddFileIff(w.m, w.linking, op.d, op.k, op.name, op.i);
    TookOne(w, Do(w, op), op.i);
  }

  lemma MakeDirIff(w: World, op: Op)
    requires Sound(w) && op.MakeDir? && Can(w, op)
    ensures Sound(Do(w, op)) <==> Clean(w, op)
  {
    AddDirIff(w.m, w.linking, op.d, op.k, op.name, op.i);
    if Clean(w, op) { TookOne(w, Do(w, op), op.i); }
  }

  lemma LinkBeginIff(w: World, op: Op)
    requires Sound(w) && op.LinkBegin? && Can(w, op)
    ensures Sound(Do(w, op)) <==> Clean(w, op)
  {
    LinkUpIff(w.m, w.linking, op.p, op.i);
    if Clean(w, op) {
      forall j: nat ensures Referenced(Do(w, op), j) {
        assert Referenced(w, j) && Counted(w.m, w.linking, op.i);
        WaitingMore(w.linking, op.p, op.i, j);
      }
    }
  }

  lemma LinkEndIff(w: World, op: Op)
    requires Sound(w) && op.LinkEnd? && Can(w, op)
    ensures Sound(Do(w, op)) <==> Clean(w, op)
  {
    AddLinkIff(w.m, w.linking, op.p, op.d, op.k, op.name, w.linking[op.p]);
    forall j: nat ensures Referenced(Do(w, op), j) {
      assert Referenced(w, j);
      WaitingFewer(w.linking, op.p, j);
    }
  }

  lemma LinkUndoKeeps(w: World, op: Op)
    requires Sound(w) && op.LinkUndo? && Can(w, op)
    ensures Sound(Do(w, op))
  {
    var i := w.linking[op.p];
    LinkDownKeeps(w.m, w.linking, op.p, i);
    assert op.p in Waiting(w.linking, i) && Referenced(w, i) && Counted(w.m, w.linking, i);
    forall j: nat ensures Referenced(Do(w, op), j) {
      assert Referenced(w, j);
      WaitingFewer(w.linking, op.p, j);
    }
  }

  /** sys_unlink; its panic for nlink < 1 cannot happen. */
  lemma UnlinkKeeps(w: World, op: Op)
    requires Sound(w) && (op.UnlinkFile? || op.UnlinkDir?) && Can(w, op)
    ensures Sound(Do(w, op)) && w.m[op.i].nlink >= 1
  {
    if op.UnlinkFile? {
      RemoveFileKeeps(w.m, w.linking, op.d, op.k, op.i);
    } else {
      RemoveDirKeeps(w.m, w.linking, op.d, op.k, op.i);
      ParentCounts(w.m, w.linking, op.d, op.k, op.i);
      assert Counted(w.m, w.linking, op.d);
    }
    TookOne(w, Do(w, op), op.i);
  }

  /** iput frees an inode only with its last reference and without links, and then nothing names it. */
  lemma PutKeeps(w: World, i: nat)
    requires Sound(w) && Can(w, Put(i))
    ensures Sound(Do(w, Put(i)))
    ensures i !in Do(w, Put(i)).m <==> Held(w.refs, i) == 1 && w.m[i].nlink == 0
    ensures i !in Do(w, Put(i)).m ==> Waiting(w.linking, i) == {} && forall d: nat, k: nat :: !Names(w.m, d, k, i)
  {
    if LastPut(w, i) {
      FreeKeeps(w.m, w.linking, i);
      NoLinks(w.m, w.linking, i);
    }
    forall j: nat ensures Referenced(Do(w, Put(i)), j) { assert Referenced(w, j); }
  }

  /** The law survives a step exactly when the step is clean. */
  lemma StepIff(w: World, op: Op)
    requires Sound(w) && Can(w, op)
    ensures Sound(Do(w, op)) <==> Clean(w, op)
  {
    match op
    case MakeFile(_, _, _, _) => MakeFileIff(w, op);
    case MakeDir(_, _, _, _) => MakeDirIff(w, op);
    case LinkBegin(_, _) => LinkBeginIff(w, op);
    case LinkEnd(_, _, _, _) => LinkEndIff(w, op);
    case LinkUndo(_) => LinkUndoKeeps(w, op);
    case UnlinkFile(_, _, _) => UnlinkKeeps(w, op);
    case UnlinkDir(_, _, _) => UnlinkKeeps(w, op);
    case Get(i) => TookOne(w, Do(w, op), i);
    case Put(i) => PutKeeps(w, i);
  }

  // ---- whole runs ----

  /** ws are the states of a run of ops. */
  ghost predicate Run(ws: seq<World>, ops: seq<Op>) {
    |ws| == |ops| + 1 && forall n: nat | n < |ops| :: Can(ws[n], ops[n]) && ws[n + 1] == Do(ws[n], ops[n])
  }

  ghost predicate AllClean(ws: seq<World>, ops: seq<Op>)
    requires Run(ws, ops)
  {
    forall n: nat | n < |ops| :: Clean(ws[n], ops[n])
  }

  lemma {:induction false} RunSound(ws: seq<World>, ops: seq<Op>, n: nat)
    requires Run(ws, ops) && Sound(ws[0]) && AllClean(ws, ops) && n <= |ops|
    ensures Sound(ws[n])
  {
    if n > 0 {
      RunSound(ws, ops, n - 1);
      StepIff(ws[n - 1], ops[n - 1]);
    }
  }

  /** The law holds all along a run exactly when every step of it is clean. */
  lemma RunIff(ws: seq<World>, ops: seq<Op>)
    requires Run(ws, ops) && Sound(ws[0])
    ensures (forall n: nat | n < |ws| :: Sound(ws[n])) <==> AllClean(ws, ops)
  {
    if AllClean(ws, ops) {
      forall n: nat | n < |ws| ensures Sound(ws[n]) { RunSound(ws, ops, n); }
    }
    if forall n: nat | n < |ws| :: Sound(ws[n]) {
      forall n: nat | n < |ops| ensures Clean(ws[n], ops[n]) {
        var next := n + 1;
        assert Sound(ws[n]) && Sound(ws[next]) && ws[next] == Do(ws[n], ops[n]);
        StepIff(ws[n], ops[n]);
      }
    }
  }

  /** From the image that mkfs makes, and with no link under way at the end: each count is the number of entries. */
  lemma LinkCounts(ws: seq<World>, ops: seq<Op>, names: seq<string>)
    requires Run(ws, ops) && AllClean(ws, ops) && Image(ws[0].m, names) && ws[0].linking == map[] && ws[0].refs == map[]
    requires (forall j: nat, k: nat | j < k < |names| :: names[j] != names[k]) && "." !in names && ".." !in names
    ensures var w := ws[|ops|];
            Tree(w.m) && (w.linking == map[] ==> forall i: nat | i in w.m :: w.m[i].nlink == |Namers(w.m, i)|)
  {
    ImageInv(ws[0].m, names);
    forall i: nat ensures Referenced(ws[0], i) { assert Waiting(map[], i) == {}; }
    RunSound(ws, ops, |ops|);
    var w := ws[|ops|];
    if w.linking == map[] {
      forall i: nat | i in w.m ensures w.m[i].nlink == |Namers(w.m, i)| {
        assert Counted(w.m, w.linking, i) && Waiting(w.linking, i) == {};
      }
    }
  }

  // ---- a removed directory ----

  /** A directory is made and removed again while it is held. */
  lemma MadeAndRemoved(w: World, d: nat, k: nat, name: string, i: nat) returns (x: World, y: World)
    requires Sound(w) && Can(w, MakeDir(d, k, name, i)) && Clean(w, MakeDir(d, k, name, i))
    ensures x == Do(w, MakeDir(d, k, name, i)) && Sound(x) && Can(x, UnlinkDir(d, k, i))
            && y == Do(x, UnlinkDir(d, k, i))
    ensures Sound(y) && i in y.m && y.m[i] == Dir(0, [Dirent(i, "."), Dirent(d, "..")]) && y.m.Keys == w.m.Keys + {i}
  {
    var b := UnlinkDir(d, k, i);
    x := Do(w, MakeDir(d, k, name, i));
    MakeDirIff(w, MakeDir(d, k, name, i));
    assert Shaped(d, w.m[d].ents);
    PutShaped(d, w.m[d].ents, k, i, name);
    assert Can(x, b);
    y := Do(x, b);
    UnlinkKeeps(x, b);
    EmptyDirCounts(x.m, x.linking, d, k, i);
  }

  /** A file made in it then breaks the law. */
  lemma RemovedDirectory(w: World, d: nat, k: nat, name: string, i: nat, j: nat) returns (ws: seq<World>, ops: seq<Op>)
    requires Sound(w) && Can(w, MakeDir(d, k, name, i)) && Clean(w, MakeDir(d, k, name, i)) && j !in w.m && j != 0
             && j != i
    ensures Run(ws, ops) && ws[0] == w && |ops| == 3 && Sound(ws[1]) && Sound(ws[2]) && !Sound(ws[3])
    ensures ops == [MakeDir(d, k, name, i), UnlinkDir(d, k, i), MakeFile(i, 2, "f", j)]
  {
    var x, y := MadeAndRemoved(w, d, k, name, i);
    var c := MakeFile(i, 2, "f", j);
    assert Can(y, c);
    MakeFileIff(y, c);
    ws, ops := ThreeSteps(w, x, y, MakeDir(d, k, name, i), UnlinkDir(d, k, i), c);
  }

  lemma ThreeSteps(w: World, x: World, y: World, a: Op, b: Op, c: Op) returns (ws: seq<World>, ops: seq<Op>)
    requires Can(w, a) && x == Do(w, a) && Can(x, b) && y == Do(x, b) && Can(y, c)
    ensures ws == [w, x, y, Do(y, c)] && ops == [a, b, c] && Run(ws, ops)
  {
    ws, ops := [w, x, y, Do(y, c)], [a, b, c];
  }

  // ---- more links than a short can count ----

  lemma {:induction false} Longer(ents: seq<Dirent>) returns (n: nat)
    ensures forall j: nat | j < |ents| :: |ents[j].name| < n
  {
    n := 0;
    if ents != [] {
      var last := |ents| - 1;
      n := Longer(ents[..last]);
      if n <= |ents[last].name| { n := |ents[last].name| + 1; }
      forall j: nat | j < |ents| ensures |ents[j].name| < n {
        if j < last { assert ents[..last][j] == ents[j]; }
      }
    }
  }

  /** There is always a name that a directory does not have. */
  lemma NewName(ents: seq<Dirent>) returns (name: string)
    ensures Unused(ents, name)
  {
    var n := Longer(ents);
    name := seq(n, _ => 'a');
  }

  /** Process p can link the file i into d. */
  ghost predicate Ready(w: World, p: nat, d: nat, i: nat) {
    Sound(w) && p !in w.linking && Spare(w, i) && w.m[i].File? && d in w.m && Live(w.m[d])
  }

  /** sys_link of i into d, by process p. */
  lemma OneMore(w: World, p: nat, d: nat, i: nat) returns (x: World, z: World, b: Op)
    requires Ready(w, p, d, i) && w.m[i].nlink < SHORT_MAX
    ensures var a := LinkBegin(p, i);
            Can(w, a) && Clean(w, a) && x == Do(w, a) && Sound(x) && Can(x, b) && Clean(x, b) && z == Do(x, b)
    ensures Ready(z, p, d, i) && z.m[i].nlink == w.m[i].nlink + 1
  {
    var a := LinkBegin(p, i);
    x := Do(w, a);
    StepIff(w, a);
    assert Referenced(w, i) && Counted(w.m, w.linking, i);
    var name := NewName(x.m[d].ents);
    b := LinkEnd(p, d, |x.m[d].ents|, name);
    z := Do(x, b);
    StepIff(x, b);
    assert z.linking == w.linking;
  }

  /** A run in which all steps are clean. */
  ghost predicate CleanRun(ws: seq<World>, ops: seq<Op>, w: World, z: World) {
    Run(ws, ops) && AllClean(ws, ops) && ws[0] == w && ws[|ops|] == z
  }

  lemma CleanStep(ws: seq<World>, ops: seq<Op>, w: World, x: World, z: World, a: Op)
    requires CleanRun(ws, ops, x, z) && Can(w, a) && Clean(w, a) && x == Do(w, a)
    ensures CleanRun([w] + ws, [a] + ops, w, z)
  {
    var vs, os := [w] + ws, [a] + ops;
    forall n: nat | n < |os| ensures Can(vs[n], os[n]) && vs[n + 1] == Do(vs[n], os[n]) && Clean(vs[n], os[n]) {
      if n > 0 {
        var k: nat := n - 1;
        assert vs[n] == ws[k] && vs[n + 1] == ws[k + 1] && os[n] == ops[k];
        assert Can(ws[k], ops[k]) && Clean(ws[k], ops[k]);
      }
    }
  }

  /** Linking a file over and over takes its count to the largest a short holds. */
  lemma {:induction false} LinkUpTo(w: World, p: nat, d: nat, i: nat) returns (ws: seq<World>, ops: seq<Op>, z: World)
    requires Ready(w, p, d, i)
    ensures CleanRun(ws, ops, w, z) && Ready(z, p, d, i) && z.m[i].nlink == SHORT_MAX
    decreases SHORT_MAX - w.m[i].nlink
  {
    assert Counted(w.m, w.linking, i);
    if w.m[i].nlink == SHORT_MAX {
      ws, ops, z := [w], [], w;
    } else {
      var x, y, b := OneMore(w, p, d, i);
      ws, ops, z := LinkUpTo(y, p, d, i);
      CleanStep(ws, ops, x, y, z, b);
      CleanStep([x] + ws, [b] + ops, w, x, z, LinkBegin(p, i));
      ws, ops := [w] + ([x] + ws), [LinkBegin(p, i)] + ([b] + ops);
    }
  }

  /** A file with as many links as a short can count gets one more, and counts below zero. From every sound state with a
      file and a directory there is a run to such a state. */
  lemma CountWraps(w: World, p: nat, d: nat, i: nat) returns (ws: seq<World>, ops: seq<Op>, z: World)
    requires Ready(w, p, d, i)
    ensures CleanRun(ws, ops, w, z) && Sound(z) && Can(z, LinkBegin(p, i)) && z.m[i].nlink == SHORT_MAX
    ensures Do(z, LinkBegin(p, i)).m[i].nlink == -0x8000 && !Sound(Do(z, LinkBegin(p, i)))
  {
    ws, ops, z := LinkUpTo(w, p, d, i);
    StepIff(z, LinkBegin(p, i));
  }
}
