/** Disk blocks as the kernel sees them: BSIZE raw bytes, some of which are read
    as little-endian 32-bit words (log header, indirect blocks). */
module Blocks {
  import opened Params

  const BSIZE: nat := 1024
  const WORDS: nat := 256            // BSIZE / sizeof(uint)

  type Byte = x: int | 0 <= x < 256
  type Block = b: seq<Byte> | |b| == BSIZE witness seq(BSIZE, i => 0)

  /** The i-th `uint` of a block. */
  function GetWord(b: Block, i: nat): (w: nat)
    requires i < WORDS
    ensures w < UINT_LIMIT
  {
    var b0: int, b1: int, b2: int, b3: int := b[4 * i], b[4 * i + 1], b[4 * i + 2], b[4 * i + 3];
    b0 + 0x100 * b1 + 0x1_0000 * b2 + 0x100_0000 * b3
  }

  lemma Digits(w: nat)
    requires w < UINT_LIMIT
    ensures 0 <= w / 0x100_0000 < 0x100
    ensures w == w % 0x100 + 0x100 * (w / 0x100 % 0x100) + 0x1_0000 * (w / 0x1_0000 % 0x100)
              + 0x100_0000 * (w / 0x100_0000)
  {
    var q := w / 0x100;
    assert w / 0x1_0000 == q / 0x100;
    var r := q / 0x100;
    assert w / 0x100_0000 == r / 0x100;
  }

  lemma WordFrame(b: Block, r: Block, i: nat, j: nat)
    requires i < WORDS && j < WORDS && i != j
    requires forall k :: 0 <= k < BSIZE && !(4 * i <= k < 4 * i + 4) ==> r[k] == b[k]
    ensures GetWord(r, j) == GetWord(b, j)
  {
    assert r[4 * j] == b[4 * j] && r[4 * j + 1] == b[4 * j + 1];
  }

  /** Stores w as the i-th `uint`, and changes no other word. */
  function SetWord(b: Block, i: nat, w: nat): (r: Block)
    requires i < WORDS && w < UINT_LIMIT
    ensures GetWord(r, i) == w
    ensures forall j :: 0 <= j < WORDS && j != i ==> GetWord(r, j) == GetWord(b, j)
  {
    Digits(w);
    var digits: seq<Byte> := [w % 0x100, w / 0x100 % 0x100, w / 0x1_0000 % 0x100, w / 0x100_0000];
    var r := b[..4 * i] + digits + b[4 * i + 4..];
    assert forall j :: 0 <= j < WORDS && j != i ==> GetWord(r, j) == GetWord(b, j) by {
      forall j | 0 <= j < WORDS && j != i ensures GetWord(r, j) == GetWord(b, j) {
        WordFrame(b, r, i, j);
      }
    }
    r
  }
}
