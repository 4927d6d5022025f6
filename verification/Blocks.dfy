/** Disk blocks as byte sequences, and the little-endian 32-bit words that
    the kernel reads and writes inside them (log header, indirect block). */
module Blocks {
  import opened Params

  newtype byte = x: int | 0 <= x < 256

  const WORDS: nat := 256        // 32-bit words in a block
  const TWO32: nat := 0x1_0000_0000

  type Block = b: seq<byte> | |b| == BSIZE witness seq(BSIZE, _ => 0)

  function Zeros(n: nat): (s: seq<byte>)
    ensures |s| == n && forall i | 0 <= i < n :: s[i] == 0
  {
    seq(n, _ => 0)
  }

  const ZeroBlock: Block := Zeros(BSIZE)

  /** Byte k of the little-endian form of v. */
  function Digit(v: nat, k: nat): byte
    requires k < 4
  {
    if k == 0 then (v % 256) as byte
    else if k == 1 then (v / 256 % 256) as byte
    else if k == 2 then (v / 65536 % 256) as byte
    else (v / 16777216 % 256) as byte
  }

  function GetWord(b: Block, i: nat): (v: nat)
    requires i < WORDS
    ensures v < TWO32
  {
    b[4 * i] as nat + 256 * b[4 * i + 1] as nat + 65536 * b[4 * i + 2] as nat + 16777216 * b[4 * i + 3] as nat
  }

  function PutWord(b: Block, i: nat, v: nat): Block
    requires i < WORDS
  {
    b[4 * i := Digit(v, 0)][4 * i + 1 := Digit(v, 1)][4 * i + 2 := Digit(v, 2)][4 * i + 3 := Digit(v, 3)]
  }

  lemma DigitsSum(v: nat)
    requires v < TWO32
    ensures Digit(v, 0) as nat + 256 * Digit(v, 1) as nat + 65536 * Digit(v, 2) as nat + 16777216 * Digit(v, 3) as nat
            == v
  {
    assert v / 65536 == v / 256 / 256;
    assert v / 16777216 == v / 256 / 256 / 256;
  }

  /** A word store changes exactly one word and reads back as stored. */
  lemma GetPutWord(b: Block, i: nat, v: nat)
    requires i < WORDS && v < TWO32
    ensures GetWord(PutWord(b, i, v), i) == v
    ensures forall j: nat | j < WORDS && j != i :: GetWord(PutWord(b, i, v), j) == GetWord(b, j)
  {
    DigitsSum(v);
  }

  lemma ZeroWords(i: nat)
    requires i < WORDS
    ensures GetWord(ZeroBlock, i) == 0
  {
  }
}
