// Fixed-width integers, little-endian words and the flash cell operations that
// every persistent component shares.
module Bytes {

  type u8 = x: int | 0 <= x < 0x100
  type u16 = x: int | 0 <= x < 0x1_0000
  type u32 = x: int | 0 <= x < 0x1_0000_0000
  type i32 = x: int | -0x8000_0000 <= x < 0x8000_0000

  const UINT32_MAX: u32 := 0xFFFF_FFFF

  // What a 32-bit counter goes on to; it wraps.
  function Successor(x: u32): u32 {
    if x == UINT32_MAX then 0 else x + 1
  }

  function Counted(x: u32, n: nat): u32 {
    if n == 0 then x else Successor(Counted(x, n - 1))
  }

  lemma OneMoreModulo(v: nat)
    ensures (v + 1) % 0x1_0000_0000 == if v % 0x1_0000_0000 == UINT32_MAX then 0 else v % 0x1_0000_0000 + 1
  {
  }

  lemma {:induction false} CountsModulo(x: u32, n: nat)
    ensures Counted(x, n) == (x + n) % 0x1_0000_0000
  {
    if n > 0 {
      CountsModulo(x, n - 1);
      OneMoreModulo(x + n - 1);
    }
  }

  // A counter comes round after 2^32 moves and not before.
  lemma CounterComesRound(x: u32, n: nat)
    ensures Counted(x, n) == x <==> n % 0x1_0000_0000 == 0
  {
    CountsModulo(x, n);
  }

  function Le16(x: u16): (b: seq<u8>)
    ensures |b| == 2
  {
    [x % 0x100, x / 0x100]
  }

  function Le32(x: u32): (b: seq<u8>)
    ensures |b| == 4
  {
    Le16(x % 0x1_0000) + Le16(x / 0x1_0000)
  }

  function Word16(b: seq<u8>): u16
    requires |b| == 2
  {
    var low: int, high: int := b[0], b[1];
    low + 0x100 * high
  }

  function Word32(b: seq<u8>): u32
    requires |b| == 4
  {
    var low: int, high: int := Word16(b[..2]), Word16(b[2..]);
    low + 0x1_0000 * high
  }

  lemma Word32OfLe32(x: u32)
    ensures Word32(Le32(x)) == x
  {
    assert Le32(x)[..2] == Le16(x % 0x1_0000);
    assert Le32(x)[2..] == Le16(x / 0x1_0000);
  }

  lemma Le16OfWord16(b: seq<u8>)
    requires |b| == 2
    ensures Le16(Word16(b)) == b
  {
  }

  lemma Le32OfWord32(b: seq<u8>)
    requires |b| == 4
    ensures Le32(Word32(b)) == b
  {
    var low: int, high: int := Word16(b[..2]), Word16(b[2..]);
    Le16OfWord16(b[..2]);
    Le16OfWord16(b[2..]);
    hide Word16, Le16;
    assert Word32(b) % 0x1_0000 == low && Word32(b) / 0x1_0000 == high;
    assert b == b[..2] + b[2..];
  }

  // Two's complement reinterpretation, as a C++ cast between 32-bit types does.
  function ToI32(x: u32): i32 {
    if x < 0x8000_0000 then x else x - 0x1_0000_0000
  }

  function ToU32(x: i32): u32 {
    x % 0x1_0000_0000
  }

  // C++ integer division rounds toward zero; Dafny's is Euclidean.
  function TruncDiv(a: int, b: int): (q: int)
    requires b > 0
  {
    if a >= 0 then a / b else -((-a) / b)
  }

  function TruncMod(a: int, b: int): int
    requires b > 0
  {
    a - b * TruncDiv(a, b)
  }

  lemma DivBounds(a: nat, b: nat)
    requires b > 0
    ensures a / b * b <= a < a / b * b + b
  {
    assert a == b * (a / b) + a % b;
  }

  // A quotient rounded toward zero is the most multiples that fit.
  lemma TruncBounds(a: int, b: int)
    requires b > 0
    ensures var q := TruncDiv(a, b);
            if a >= 0 then q >= 0 && q * b <= a < q * b + b else q <= 0 && q * b - b < a <= q * b
  {
    if a >= 0 {
      DivBounds(a, b);
      Natural(a, b);
    } else {
      DivBounds(-a, b);
      Natural(-a, b);
      NegatedProduct(-a / b, b);
    }
  }

  lemma Natural(a: nat, b: nat)
    requires b > 0
    ensures a / b >= 0
  {
  }

  lemma NegatedProduct(k: int, b: int)
    ensures -k * b == -(k * b)
  {
  }

  lemma TruncMonotone(x: int, y: int, b: int)
    requires x <= y && b > 0
    ensures TruncDiv(x, b) <= TruncDiv(y, b)
  {
    hide TruncDiv;
    TruncBounds(x, b);
    TruncBounds(y, b);
    var q, r := TruncDiv(x, b), TruncDiv(y, b);
    if q > r {
      ScaledOrder(r + 1, q, b);
      OneMore(r, b);
    }
  }

  lemma ScaledOrder(x: int, y: int, b: int)
    requires x <= y && b >= 0
    ensures x * b <= y * b
  {
  }

  lemma OneMore(x: int, b: int)
    ensures (x + 1) * b == x * b + b
  {
  }

  // It reaches k > 0 exactly when k multiples fit.
  lemma TruncAtLeast(a: int, b: int, k: int)
    requires b > 0 && k > 0
    ensures TruncDiv(a, b) >= k <==> a >= k * b
  {
    hide TruncDiv;
    TruncBounds(a, b);
    var q := TruncDiv(a, b);
    if q >= k {
      ScaledOrder(k, q, b);
      ScaledOrder(0, k, b);
    } else {
      ScaledOrder(q + 1, k, b);
      OneMore(q, b);
      ScaledOrder(1, k, b);
    }
  }

  lemma RealProduct(x: int, y: int)
    ensures (x * y) as real == x as real * y as real
  {
  }

  lemma QuotientTimes(x: real, y: real)
    requires y != 0.0
    ensures x / y * y == x
  {
  }

  // Where the exact quotient z lies.
  lemma TruncBetween(a: int, b: int, z: real)
    requires b > 0 && z * b as real == a as real
    ensures var q := TruncDiv(a, b) as real;
            if z >= 0.0 then q <= z < q + 1.0 else q - 1.0 < z <= q
  {
    hide TruncDiv;
    TruncBounds(a, b);
    RealProduct(TruncDiv(a, b), b);
    Between(z, b as real, a as real, TruncDiv(a, b) as real);
  }

  lemma Between(z: real, y: real, x: real, q: real)
    requires y > 0.0 && z * y == x
    requires if x >= 0.0 then q * y <= x < q * y + y else q * y - y < x <= q * y
    ensures if z >= 0.0 then q <= z < q + 1.0 else q - 1.0 < z <= q
  {
    SignByPositive(z, y);
    if x >= 0.0 {
      NotAbove(q, z, y, q * y, x);
      RealOneMore(q, q + 1.0, y);
      Below(z, q + 1.0, y, x, (q + 1.0) * y);
    } else {
      NotAbove(z, q, y, x, q * y);
      RealOneMore(q - 1.0, q, y);
      Below(q - 1.0, z, y, (q - 1.0) * y, x);
    }
  }

  lemma NotAbove(u: real, v: real, y: real, uy: real, vy: real)
    requires y > 0.0 && uy == u * y && vy == v * y && uy <= vy
    ensures u <= v
  {
    RealOrder(u, v, y);
  }

  lemma Below(u: real, v: real, y: real, uy: real, vy: real)
    requires y > 0.0 && uy == u * y && vy == v * y && uy < vy
    ensures u < v
  {
    RealOrder(v, u, y);
  }

  lemma RealOneMore(q: real, next: real, y: real)
    requires next == q + 1.0
    ensures next * y == q * y + y
  {
  }

  lemma RealOrder(u: real, v: real, y: real)
    requires y > 0.0
    ensures u <= v <==> u * y <= v * y
  {
    var d := v - u;
    RealDistribute(u, v, d, y);
    SignByPositive(d, y);
  }

  lemma RealDistribute(u: real, v: real, d: real, y: real)
    requires d == v - u
    ensures d * y == v * y - u * y
  {
  }

  lemma SignByPositive(d: real, y: real)
    requires y > 0.0
    ensures d > 0.0 ==> d * y > 0.0
    ensures d < 0.0 ==> d * y < 0.0
  {
  }

  // ----- flash cells -----

  const ERASED: u8 := 0xFF
  const CELL_BITS: nat := 8

  function AndBits(a: nat, b: nat, bits: nat): (r: nat)
    ensures r <= b
  {
    if bits == 0 then 0 else 2 * AndBits(a / 2, b / 2, bits - 1) + (if a % 2 == 1 && b % 2 == 1 then 1 else 0)
  }

  // Programming a flash cell can only clear bits.
  function ProgramCell(cell: u8, value: u8): u8 {
    AndBits(cell, value, CELL_BITS)
  }

  function Ones(bits: nat): nat {
    if bits == 0 then 0 else 2 * Ones(bits - 1) + 1
  }

  lemma {:induction false} AndWithOnes(b: nat, bits: nat)
    requires b <= Ones(bits)
    ensures AndBits(Ones(bits), b, bits) == b
  {
    if bits > 0 {
      AndWithOnes(b / 2, bits - 1);
    }
  }

  lemma ProgramErasedCell(value: u8)
    ensures ProgramCell(ERASED, value) == value
  {
    assert Ones(4) == 15;
    assert Ones(8) == ERASED;
    AndWithOnes(value, CELL_BITS);
  }

  function Blank(n: nat): (b: seq<u8>)
    ensures |b| == n
  {
    seq(n, i => ERASED)
  }

  // Cells [from, to) erased.
  function EraseCells(cells: seq<u8>, from: nat, to: nat): (r: seq<u8>)
    ensures |r| == |cells|
  {
    seq(|cells|, i requires 0 <= i < |cells| => if from <= i < to then ERASED else cells[i])
  }

  // Cells [from, to) programmed with the bytes at the same positions of image.
  function ProgramCells(cells: seq<u8>, image: seq<u8>, from: nat, to: nat): (r: seq<u8>)
    requires to <= |image|
    ensures |r| == |cells|
  {
    seq(|cells|, i requires 0 <= i < |cells| =>
      if from <= i < to then ProgramCell(cells[i], image[i]) else cells[i])
  }

  lemma ProgramErasedCells(cells: seq<u8>, image: seq<u8>, from: nat, to: nat)
    requires to <= |image| && to <= |cells|
    requires forall i :: from <= i < to ==> cells[i] == ERASED
    ensures forall i :: 0 <= i < |cells| ==>
      ProgramCells(cells, image, from, to)[i] == if from <= i < to then image[i] else cells[i]
  {
    forall i | from <= i < to
      ensures ProgramCell(cells[i], image[i]) == image[i]
    {
      ProgramErasedCell(image[i]);
    }
  }

  // The flash with the bytes from position t on replaced by slot.
  function WithSlot(flash: seq<u8>, t: nat, slot: seq<u8>): (r: seq<u8>)
    ensures |r| == |flash|
  {
    seq(|flash|, i requires 0 <= i < |flash| => if t <= i < t + |slot| then slot[i - t] else flash[i])
  }
}
