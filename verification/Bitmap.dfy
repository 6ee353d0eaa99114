/** The free bit map: one bit per block, eight to a byte, BPB to a bitmap block. */
module Bitmap {
  import opened Blocks

  const BPB: nat := 8 * BSIZE

  /** (x & (1 << m)) != 0 */
  predicate ByteBit(x: nat, m: nat) {
    if m == 0 then x % 2 == 1 else ByteBit(x / 2, m - 1)
  }

  /** x | (1 << m), or x & ~(1 << m). */
  function PutByteBit(x: nat, m: nat, on: bool): (y: nat)
    ensures ByteBit(y, m) == on
  {
    if m == 0 then x - x % 2 + (if on then 1 else 0)
    else 2 * PutByteBit(x / 2, m - 1, on) + x % 2
  }

  lemma {:induction false} PutByteBitFrame(x: nat, m: nat, on: bool, k: nat)
    requires k != m
    ensures ByteBit(PutByteBit(x, m, on), k) == ByteBit(x, k)
  {
    var y := PutByteBit(x, m, on);
    if m == 0 {
      assert y / 2 == x / 2;
    } else {
      assert y / 2 == PutByteBit(x / 2, m - 1, on) && y % 2 == x % 2;
      if k > 0 {
        PutByteBitFrame(x / 2, m - 1, on, k - 1);
      }
    }
  }

  function Pow2(m: nat): nat {
    if m == 0 then 1 else 2 * Pow2(m - 1)
  }

  lemma {:induction false} PutByteBitBound(x: nat, m: nat, on: bool, n: nat)
    requires m < n && x < Pow2(n)
    ensures PutByteBit(x, m, on) < Pow2(n)
  {
    var h := Pow2(n - 1);
    assert Pow2(n) == 2 * h && x / 2 < h;
    if m > 0 {
      PutByteBitBound(x / 2, m - 1, on, n - 1);
    } else {
      assert PutByteBit(x, 0, on) <= 2 * (x / 2) + 1;
    }
  }

  lemma Pow2Is(n: nat)
    requires n == 8
    ensures Pow2(n) == 256
  {
    assert Pow2(2) == 4;
    assert Pow2(4) == 16;
    assert Pow2(6) == 64;
  }

  predicate Bit(b: Block, i: nat)
    requires i < BPB
  {
    ByteBit(b[i / 8], i % 8)
  }

  /** Sets or clears bit i of a bitmap block, and changes no other bit. */
  function PutBit(b: Block, i: nat, on: bool): (r: Block)
    requires i < BPB
    ensures Bit(r, i) == on
    ensures forall j :: 0 <= j < BPB && j != i ==> Bit(r, j) == Bit(b, j)
  {
    Pow2Is(8);
    PutByteBitBound(b[i / 8], i % 8, on, 8);
    var r: Block := b[i / 8 := PutByteBit(b[i / 8], i % 8, on)];
    assert forall j :: 0 <= j < BPB && j != i ==> Bit(r, j) == Bit(b, j) by {
      forall j | 0 <= j < BPB && j != i ensures Bit(r, j) == Bit(b, j) {
        if j / 8 == i / 8 {
          PutByteBitFrame(b[i / 8], i % 8, on, j % 8);
        }
      }
    }
    r
  }
}
