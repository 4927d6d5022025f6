/** The loops of kernel/log.c as code, alone on the disk. A ghost trace records the disk after
    every bwrite, so that a contract can speak of a crash between any two of them. Buffer reads
    return the latest contents, as LogRuns.CacheCoherence shows that bread does. */
module LogCode {
  import opened Params
  import opened Blocks
  import opened Log
  import opened LogInv

  class Journal {
    const L: Layout
    var disk: seq<Block>
    var lh: seq<nat>
    ghost var trace: seq<seq<Block>>

    ghost predicate Valid()
      reads this
    {
      L.Wf() && |disk| == L.size && Entries(L, lh)
    }

    /** Every disk state since the trace had n entries recovers to dur. */
    ghost predicate SafeSince(n: nat, dur: seq<Block>)
      requires L.Wf() && |dur| == L.size
      reads this
    {
      forall k | n <= k < |trace| :: |trace[k]| == L.size && Durable(L, trace[k], dur)
    }

    constructor (L: Layout, image: seq<Block>)
      requires L.Wf() && |image| == L.size
      ensures Valid() && this.L == L && disk == image && lh == [] && trace == []
    {
      this.L := L;
      disk := image;
      lh := [];
      trace := [];
    }

    method Bwrite(b: nat, d: Block)
      requires b < |disk|
      modifies this`disk, this`trace
      ensures disk == old(disk)[b := d] && trace == old(trace) + [disk]
    {
      disk := disk[b := d];
      trace := trace + [disk];
    }

    /** The header part of log_write: absorption, or a new last entry. */
    method LogWrite(blockno: nat)
      requires Valid() && L.Home(blockno)
      requires |lh| < LOGSIZE && |lh| < L.nlog - 1
      modifies this`lh
      ensures Valid()
      ensures lh == if blockno in old(lh) then old(lh) else old(lh) + [blockno]
    {
      var i := 0;
      while i < |lh| && lh[i] != blockno
        invariant 0 <= i <= |lh| && blockno !in lh[..i]
      {
        i := i + 1;
      }
      if i == |lh| {
        lh := lh + [blockno];
      } else {
        lh := lh[i := blockno];
      }
    }

    method WriteLog(mem: seq<Block>, ghost dur: seq<Block>)
      requires Valid() && |mem| == |dur| == L.size
      requires Durable(L, disk, dur) && HeaderCount(disk[L.logstart]) == 0
      modifies this`disk, this`trace
      ensures Valid() && Durable(L, disk, dur) && HeaderCount(disk[L.logstart]) == 0
      ensures Copied(L, disk, mem, lh, |lh|) && HomeEqual(L, disk, old(disk))
      ensures old(trace) <= trace && SafeSince(|old(trace)|, dur)
    {
      var tail := 0;
      while tail < |lh|
        invariant 0 <= tail <= |lh| && Valid()
        invariant Durable(L, disk, dur) && HeaderCount(disk[L.logstart]) == 0
        invariant Copied(L, disk, mem, lh, tail) && HomeEqual(L, disk, old(disk))
        invariant old(trace) <= trace && SafeSince(|old(trace)|, dur)
      {
        DurableKeeps(L, disk, dur, L.logstart + 1 + tail, mem[lh[tail]]);
        Bwrite(L.logstart + 1 + tail, mem[lh[tail]]);
        tail := tail + 1;
      }
    }

    /** The loop of write_head over the header buffer. */
    method HeaderBlock(buf: Block) returns (hb: Block)
      requires |lh| <= LOGSIZE && forall i | 0 <= i < |lh| :: lh[i] < TWO32
      ensures HeaderCount(hb) == |lh| && HeaderOf(hb) == lh
    {
      GetPutWord(buf, 0, |lh|);
      hb := PutWord(buf, 0, |lh|);
      var i := 0;
      while i < |lh|
        invariant 0 <= i <= |lh| && GetWord(hb, 0) == |lh|
        invariant forall k: nat | k < i :: GetWord(hb, k + 1) == lh[k]
      {
        GetPutWord(hb, i + 1, lh[i]);
        hb := PutWord(hb, i + 1, lh[i]);
        i := i + 1;
      }
    }

    method WriteHead()
      requires Valid()
      modifies this`disk, this`trace
      ensures Valid() && trace == old(trace) + [disk]
      ensures HeaderCount(disk[L.logstart]) == |lh| && HeaderOf(disk[L.logstart]) == lh
      ensures forall b: nat | b < L.size && b != L.logstart :: disk[b] == old(disk)[b]
    {
      var hb := HeaderBlock(disk[L.logstart]);
      Bwrite(L.logstart, hb);
    }

    method ReadHead()
      requires Valid() && GoodHeader(L, disk)
      modifies this`lh
      ensures Valid() && lh == HeaderOf(disk[L.logstart])
    {
      var n := HeaderCount(disk[L.logstart]);
      lh := [];
      var i := 0;
      while i < n
        invariant 0 <= i <= n && lh == HeaderOf(disk[L.logstart])[..i] && Entries(L, lh)
      {
        lh := lh + [GetWord(disk[L.logstart], i + 1)];
        i := i + 1;
      }
    }

    /** install_trans: copy each log block to its home. */
    method InstallTrans(ghost dur: seq<Block>)
      requires Valid() && |dur| == L.size && Durable(L, disk, dur) && lh == HeaderOf(disk[L.logstart])
      modifies this`disk, this`trace
      ensures Valid() && Durable(L, disk, dur) && HomeEqual(L, disk, dur)
      ensures old(trace) <= trace && SafeSince(|old(trace)|, dur)
    {
      var tail := 0;
      while tail < |lh|
        invariant 0 <= tail <= |lh| && Valid() && Durable(L, disk, dur) && lh == HeaderOf(disk[L.logstart])
        invariant forall k | 0 <= k < tail :: disk[lh[k]] == dur[lh[k]]
        invariant old(trace) <= trace && SafeSince(|old(trace)|, dur)
      {
        assert RecoversTo(L, disk, lh, lh[tail], dur[lh[tail]]);
        DurableKeeps(L, disk, dur, lh[tail], disk[L.logstart + 1 + tail]);
        Bwrite(lh[tail], disk[L.logstart + 1 + tail]);
        tail := tail + 1;
      }
      forall b: nat | L.Home(b) ensures disk[b] == dur[b] {
        assert RecoversTo(L, disk, lh, b, dur[b]);
      }
    }

    /** lh.n = 0; write_head. */
    method ClearLog(ghost dur: seq<Block>)
      requires Valid() && |dur| == L.size && HomeEqual(L, disk, dur)
      modifies this
      ensures Valid() && lh == [] && HeaderCount(disk[L.logstart]) == 0
      ensures Durable(L, disk, dur) && HomeEqual(L, disk, dur) && trace == old(trace) + [disk]
    {
      lh := [];
      WriteHead();
    }

    /** commit: up to the header write, every crash recovers the old contents; from it on, the new. */
    method Commit(mem: seq<Block>, ghost dur: seq<Block>) returns (ghost point: nat)
      requires Valid() && |mem| == |dur| == L.size
      requires Durable(L, disk, dur) && HeaderCount(disk[L.logstart]) == 0
      requires forall b: nat | L.Home(b) :: b in lh || mem[b] == dur[b]
      modifies this
      ensures Valid() && lh == [] && HeaderCount(disk[L.logstart]) == 0 && HomeEqual(L, disk, mem)
      ensures |old(trace)| <= point <= |trace| && old(trace) <= trace
      ensures forall k | |old(trace)| <= k < point :: |trace[k]| == L.size && Durable(L, trace[k], dur)
      ensures SafeSince(point, mem)
    {
      if |lh| > 0 {
        WriteLog(mem, dur);
        point := |trace|;
        ghost var logged := disk;
        assert forall b: nat | L.Home(b) :: RecoversTo(L, disk, [], b, dur[b]);
        WriteHead();
        DurableHeader(L, logged, mem, lh, disk[L.logstart]);
        assert disk == logged[L.logstart := disk[L.logstart]];
        InstallTrans(mem);
        ClearLog(mem);
      } else {
        point := |trace|;
        assert forall b: nat | L.Home(b) :: RecoversTo(L, disk, [], b, dur[b]);
      }
    }

    /** recover_from_log, crash-safe at every write: it can be crashed and started again. */
    method RecoverFromLog(ghost dur: seq<Block>)
      requires Valid() && |dur| == L.size && Durable(L, disk, dur)
      modifies this
      ensures Valid() && lh == [] && HeaderCount(disk[L.logstart]) == 0 && HomeEqual(L, disk, dur)
      ensures old(trace) <= trace && SafeSince(|old(trace)|, dur)
    {
      ReadHead();
      InstallTrans(dur);
      ClearLog(dur);
    }
  }
}
