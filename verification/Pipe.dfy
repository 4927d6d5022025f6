/** kernel/pipe.c. The pipe's lock is held from acquire to sleep or release, so each such section is one step; readers,
    writers and closers take their sections in any order. */
module Pipe {
  import opened Blocks

  const PIPESIZE: nat := 512           // nread and nwrite are 32-bit counters

  /** How a section ends: asleep on the channel, or returning a value. */
  datatype Outcome = Asleep | Return(r: int)

  // ---- the ring ----

  /** Of the bytes accepted so far, taken have been removed; the rest lie in the ring. */
  ghost predicate Fifo(data: seq<byte>, nread: nat, nwrite: nat, accepted: seq<byte>, taken: seq<byte>) {
    && |data| == PIPESIZE && |taken| <= |accepted| <= |taken| + PIPESIZE && taken == accepted[..|taken|]
    && nread == |taken| % TWO32 && nwrite == |accepted| % TWO32
    && forall k: nat | |taken| <= k < |accepted| :: Holds(data, k, accepted[k])
  }

  ghost predicate Holds(data: seq<byte>, k: nat, b: byte)
    requires |data| == PIPESIZE
  {
    data[k % PIPESIZE] == b
  }

  lemma Slots(a: nat, n: nat)
    requires n == a % TWO32
    ensures n % PIPESIZE == a % PIPESIZE && (n + 1) % TWO32 == (a + 1) % TWO32
  {
  }

  /** The two comparisons the code makes on the wrapped counters mean what they should. */
  lemma Counters(t: nat, a: nat, nread: nat, nwrite: nat)
    requires t <= a <= t + PIPESIZE && nread == t % TWO32 && nwrite == a % TWO32
    ensures nread == nwrite <==> t == a
    ensures nwrite == (nread + PIPESIZE) % TWO32 <==> a == t + PIPESIZE
    ensures (nwrite - nread) % TWO32 == a - t
  {
  }

  lemma Store(data: seq<byte>, nread: nat, nwrite: nat, accepted: seq<byte>, taken: seq<byte>, b: byte, slot: nat,
      next: nat)
    requires Fifo(data, nread, nwrite, accepted, taken) && |accepted| < |taken| + PIPESIZE
    requires slot == nwrite % PIPESIZE && next == (nwrite + 1) % TWO32
    ensures Fifo(data[slot := b], nread, next, accepted + [b], taken)
  {
    var to, all := data[slot := b], accepted + [b];
    Slots(|accepted|, nwrite);
    forall k: nat | |taken| <= k < |all| ensures Holds(to, k, all[k]) {
      if k < |accepted| {
        Apart(k, |accepted|);
        assert Holds(data, k, accepted[k]);
      }
    }
  }

  lemma Apart(k: nat, a: nat)
    requires k < a < k + PIPESIZE
    ensures k % PIPESIZE != a % PIPESIZE
  {
  }

  lemma Fetch(data: seq<byte>, nread: nat, nwrite: nat, accepted: seq<byte>, taken: seq<byte>, b: byte, next: nat)
    requires Fifo(data, nread, nwrite, accepted, taken) && |taken| < |accepted|
    requires b == data[nread % PIPESIZE] && next == (nread + 1) % TWO32
    ensures b == accepted[|taken|] && Fifo(data, next, nwrite, accepted, taken + [b])
  {
    Slots(|taken|, nread);
    assert Holds(data, |taken|, accepted[|taken|]);
    var t := |taken| + 1;
    assert accepted[..t] == taken + [b];
    assert |taken + [b]| == t;
  }

  function Min(a: int, b: int): int { if a < b then a else b }

  class Pipe {
    const data: array<byte>
    var nread: nat
    var nwrite: nat
    var readopen: bool
    var writeopen: bool
    ghost var readers: set<nat>        // asleep on &nread
    ghost var writers: set<nat>        // asleep on &nwrite
    ghost var accepted: seq<byte>      // all bytes put into the ring
    ghost var taken: seq<byte>         // all bytes removed from it
    ghost var delivered: seq<byte>     // all bytes copied to readers
    ghost var dropped: nat             // how many bytes a failing copyout has lost
    ghost var missed: bool             // a killed writer has stored bytes and woken no reader since

    ghost predicate Ring()
      reads this`nread, this`nwrite, this`accepted, this`taken, data
    {
      Fifo(data[..], nread, nwrite, accepted, taken)
    }

    /** Who sleeps has reason to; only a killed writer can leave a reader asleep beside data. */
    ghost predicate Sleepers()
      reads this
    {
      && (readers != {} && !missed ==> nread == nwrite && writeopen)
      && (writers != {} ==> nwrite == (nread + PIPESIZE) % TWO32 && readopen)
    }

    ghost predicate Valid()
      reads this, data
    {
      Ring() && Sleepers() && |taken| == |delivered| + dropped && (dropped == 0 ==> delivered == taken)
    }

    constructor ()
      ensures Valid() && accepted == [] && delivered == [] && readopen && writeopen && readers == {} && writers == {}
              && fresh(data)
    {
      data := new byte[PIPESIZE](_ => 0);
      nread, nwrite, readopen, writeopen := 0, 0, true, true;
      readers, writers, accepted, taken, delivered, dropped, missed := {}, {}, [], [], [], 0, false;
    }

    /** One byte enters the ring. */
    method Put(ch: byte)
      requires Ring() && |accepted| < |taken| + PIPESIZE
      modifies data, this`nwrite, this`accepted
      ensures Ring() && accepted == old(accepted) + [ch]
    {
      var slot, next := nwrite % PIPESIZE, (nwrite + 1) % TWO32;
      Store(data[..], nread, nwrite, accepted, taken, ch, slot, next);
      data[slot] := ch;
      nwrite := next;
      accepted := accepted + [ch];
      assert data[..] == old(data[..])[slot := ch];
    }

    /** One byte leaves the ring. */
    method Get() returns (ch: byte)
      requires Ring() && |taken| < |accepted|
      modifies this`nread, this`taken
      ensures Ring() && ch == accepted[|old(taken)|] && taken == old(taken) + [ch]
    {
      ch := data[nread % PIPESIZE];
      var next := (nread + 1) % TWO32;
      Fetch(data[..], nread, nwrite, accepted, taken, ch, next);
      nread := next;
      taken := taken + [ch];
    }

    /** FIFO: what readers have got is the front of what writers have put in, for as long as no copyout has failed. */
    lemma InOrder()
      requires Valid()
      ensures (nwrite - nread) % TWO32 == |accepted| - |taken| <= PIPESIZE
      ensures dropped == 0 ==> delivered <= accepted
    {
      Counters(|taken|, |accepted|, nread, nwrite);
    }

    /** A reader sleeps though there is a byte to read. */
    ghost predicate Stranded()
      reads this
    {
      readers != {} && nread != nwrite
    }

    /** One section of pipewrite, from index i on: src is what copyin can read, and killed answers true from index
        killAt. */
    method WriteSection(p: nat, src: seq<byte>, n: int, i: nat, killAt: nat) returns (j: nat, out: Outcome)
      requires Valid() && i <= |src| && (i == 0 || i <= n)
      modifies this`nwrite, this`accepted, this`readers, this`writers, this`missed, data
      ensures Valid() && j == StopAt(i, n, |src|, killAt, old(readopen), |old(taken)| + PIPESIZE - |old(accepted)|)
      ensures i <= j <= |src| && accepted == old(accepted) + src[i..j]
      ensures j >= n || j == |src| || j >= killAt || !readopen || |accepted| == |taken| + 512
      ensures out == if j >= n then Return(j)
                     else if !readopen || j >= killAt then Return(-1)
                     else if |accepted| == |taken| + PIPESIZE then Asleep else Return(j)
      ensures readers == if out == Return(-1) then old(readers) else {}
      ensures writers == if out == Asleep then old(writers) + {p} else old(writers)
      ensures !old(missed) ==> (Stranded() <==>
                old(readers) != {} && readopen && i < killAt < n
                    && killAt <= Min(|src|, i + (|taken| + PIPESIZE - |old(accepted)|)))
    {
      Counters(|taken|, |accepted|, nread, nwrite);
      assert writers != {} ==> |accepted| == |taken| + PIPESIZE;
      j, out := StoreLoop(src, n, i, killAt);
      Leave(p, out, i < j);
    }

    /** The wakeup and the sleep at the end of a section: none when pipewrite returns -1. */
    method Leave(p: nat, out: Outcome, stored: bool)
      modifies this`readers, this`writers, this`missed
      ensures readers == if out == Return(-1) then old(readers) else {}
      ensures writers == if out == Asleep then old(writers) + {p} else old(writers)
      ensures missed == (out == Return(-1) && (old(missed) || stored))
    {
      if out == Return(-1) {
        missed := missed || stored;
        return;
      }
      readers, missed := {}, false;
      if out == Asleep { writers := writers + {p}; }
    }

    /** pipewrite's loop, up to the point where it sleeps or is done. */
    method StoreLoop(src: seq<byte>, n: int, i: nat, killAt: nat) returns (j: nat, out: Outcome)
      requires Ring() && i <= |src| && (i == 0 || i <= n)
      modifies this`nwrite, this`accepted, data
      ensures Ring() && j == StopAt(i, n, |src|, killAt, readopen, |taken| + PIPESIZE - |old(accepted)|)
      ensures accepted == old(accepted) + src[i..j] && (i == j ==> nwrite == old(nwrite)) && (i < j ==> nwrite != nread)
      ensures out == if j >= n then Return(j)
                     else if !readopen || j >= killAt then Return(-1)
                     else if nwrite == (nread + PIPESIZE) % TWO32 then Asleep else Return(j)
      ensures nwrite == (nread + PIPESIZE) % TWO32 <==> |accepted| == |taken| + PIPESIZE
    {
      j := i;
      ghost var room := |taken| + PIPESIZE - |accepted|;
      ghost var last := StopAt(i, n, |src|, killAt, readopen, room);
      Counters(|taken|, |accepted|, nread, nwrite);
      while j < n
        invariant Ring() && i <= j <= last && |accepted| == |old(accepted)| + (j - i)
                  && accepted == old(accepted) + src[i..j]
        invariant (i == j ==> nwrite == old(nwrite)) && (i < j ==> nwrite != nread)
        invariant nwrite == (nread + PIPESIZE) % TWO32 <==> |accepted| == |taken| + PIPESIZE
      {
        if !readopen || j >= killAt { return j, Return(-1); }
        if nwrite == (nread + PIPESIZE) % TWO32 { return j, Asleep; }
        if j >= |src| { break; }
        Put(src[j]);
        Counters(|taken|, |accepted|, nread, nwrite);
        assert src[i..j + 1] == src[i..j] + [src[j]];
        j := j + 1;
      }
      out := Return(j);
    }

    /** One section of piperead: copyout can write room bytes. */
    method ReadSection(p: nat, n: int, room: nat, killed: bool) returns (out: Outcome, got: seq<byte>)
      requires Valid()
      modifies this`nread, this`taken, this`delivered, this`dropped, this`readers, this`writers
      ensures Valid()
      ensures old(nread == nwrite && writeopen) ==> taken == old(taken) && got == [] && writers == old(writers)
      ensures old(nread == nwrite && writeopen) ==>
              (if killed then out == Return(-1) && readers == old(readers)
              else out == Asleep && readers == old(readers) + {p})
      ensures !old(nread == nwrite && writeopen) ==> writers == {} && readers == old(readers) && out == Return(|got|)
      ensures !old(nread == nwrite && writeopen) ==>
              |got| == CopyLength(n, room, |accepted| - |old(taken)|)
              && got == accepted[|old(taken)|..|old(taken)| + |got|]
      ensures !old(nread == nwrite && writeopen) ==> |got| >= n || |got| == room || taken == accepted
      ensures delivered == old(delivered) + got && |taken| - |old(taken)| == |got| + (dropped - old(dropped))
      ensures dropped - old(dropped) == if old(nread != nwrite) && room < n && room < |accepted| - |old(taken)| then 1
              else 0
    {
      got := [];
      Counters(|taken|, |accepted|, nread, nwrite);
      if nread == nwrite && writeopen {
        if killed { return Return(-1), []; }
        readers := readers + {p};
        return Asleep, [];
      }
      got := CopyLoop(n, room);
      writers := {};
      out := Return(|got|);
    }

    /** piperead's copying loop. */
    method CopyLoop(n: int, room: nat) returns (got: seq<byte>)
      requires Ring()
      modifies this`nread, this`taken, this`delivered, this`dropped
      ensures Ring() && |got| == CopyLength(n, room, |accepted| - |old(taken)|)
              && got == accepted[|old(taken)|..|old(taken)| + |got|]
      ensures delivered == old(delivered) + got && dropped - old(dropped) == if room < n
              && room < |accepted| - |old(taken)| then 1 else 0
      ensures |taken| == |old(taken)| + |got| + (dropped - old(dropped))
              && (dropped == old(dropped) ==> taken == old(taken) + got)
    {
      got := [];
      var i := 0;
      while i < n
        invariant Ring() && i == |got| <= CopyLength(n, room, |accepted| - |old(taken)|) && taken == old(taken) + got
                  && dropped == old(dropped) && delivered == old(delivered) + got
        invariant got == accepted[|old(taken)|..|old(taken)| + |got|]
      {
        Counters(|taken|, |accepted|, nread, nwrite);
        if nread == nwrite { break; }
        var ch := Get();
        if i >= room {
          dropped := dropped + 1;
          break;
        }
        got := got + [ch];
        delivered := delivered + [ch];
        i := i + 1;
      }
    }

    /** kill wakes its victim, whatever it sleeps on. */
    ghost method Kill(p: nat)
      requires Valid()
      modifies this`readers, this`writers
      ensures Valid() && readers == old(readers) - {p} && writers == old(writers) - {p}
    {
      readers, writers := readers - {p}, writers - {p};
    }

    /** pipeclose; the pipe is freed when both ends are closed. */
    method Close(writable: bool) returns (freed: bool)
      requires Valid()
      modifies this`readopen, this`writeopen, this`readers, this`writers, this`missed
      ensures Valid() && writeopen == (old(writeopen) && !writable) && readopen == (old(readopen) && writable)
              && freed == (!readopen && !writeopen)
      ensures readers == (if writable then {} else old(readers)) && writers == (if writable then old(writers) else {})
    {
      if writable {
        writeopen, readers, missed := false, {}, false;
      } else {
        readopen, writers := false, {};
      }
      freed := !readopen && !writeopen;
    }
  }

  /** The index at which pipewrite's loop stops: bytes asked for, bytes readable, free places or the kill, whichever is
      first; at once if no reader is left. */
  function StopAt(i: nat, n: int, len: nat, killAt: nat, readopen: bool, room: nat): (j: nat)
    requires i <= len
    ensures i <= j && (j == i || j <= n) && j <= len
  {
    var limit := Min(Min(n, i + room), Min(len, killAt));
    if !readopen || limit < i then i else limit
  }

  function CopyLength(n: int, room: nat, available: nat): nat {
    if n < 0 then 0 else Min(n, Min(room, available))
  }

  /** A killed writer leaves a reader asleep beside the byte it has stored. */
  method MissedWakeup() returns (p: Pipe)
    ensures p.Valid() && p.Stranded() && fresh(p)
  {
    p := new Pipe();
    var out, got := p.ReadSection(1, 10, 10, false);
    var j, o := p.WriteSection(2, [65, 66], 2, 0, 1);
  }
}
