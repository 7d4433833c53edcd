// Motion compensation of 4XM: pixels of 16 bits added to a constant, two in a 32-bit word.
module FourXmMotion {
  type Pixel = x: int | 0 <= x < 0x1_0000

  // How far a block moves: columns and rows.
  datatype Vector = Vector(dx: int, dy: int)

  // The picture a block is copied from: pixels in memory, a row each stride, and the vectors that
  // a byte picks from.
  datatype Reference = Reference(memory: int -> Pixel, stride: nat, vectors: int -> Vector)

  // An entry of the table that init_mv sets up.
  function Shift(ref: Reference, motion: int): int {
    ref.vectors(motion).dx + ref.vectors(motion).dy * ref.stride
  }

  function Address(ref: Reference, i: int, j: int): int { i * ref.stride + j }

  // A pixel of the reference: row i + dy, column j + dx.
  function Moved(ref: Reference, motion: int, i: int, j: int): Pixel {
    ref.memory(Address(ref, i + ref.vectors(motion).dy, j + ref.vectors(motion).dx))
  }

  lemma ShiftMoves(ref: Reference, motion: int, i: int, j: int)
    ensures ref.memory(Address(ref, i, j) + Shift(ref, motion)) == Moved(ref, motion, i, j)
  {
    var v := ref.vectors(motion);
    assert (i + v.dy) * ref.stride == i * ref.stride + v.dy * ref.stride;
  }

  // What stands in memory two to a word, the first pixel in the low half.
  function Packed(a: Pixel, b: Pixel): int { a + 0x1_0000 * b }

  method Halves(word: int) returns (a: Pixel, b: Pixel)
    requires 0 <= word < 0x1_0000_0000
    ensures word == Packed(a, b)
  {
    a, b := word % 0x1_0000, word / 0x1_0000;
  }

  // Adding the same to both halves of a word carries from the first pixel into the second.
  lemma PackedAdd(a: Pixel, b: Pixel, dc: Pixel)
    ensures (Packed(a, b) + dc * 0x1_0001) % 0x1_0000_0000
         == Packed((a + dc) % 0x1_0000, (b + dc + (if a + dc >= 0x1_0000 then 1 else 0)) % 0x1_0000)
  {
    var low := a + dc;
    var carry := if low >= 0x1_0000 then 1 else 0;
    var high := b + dc + carry;
    assert low % 0x1_0000 == low - 0x1_0000 * carry;
    var over := if high >= 0x1_0000 then 1 else 0;
    assert high % 0x1_0000 == high - 0x1_0000 * over;
    assert Packed(a, b) + dc * 0x1_0001 == Packed(low % 0x1_0000, high % 0x1_0000) + 0x1_0000_0000 * over;
  }

  // One word or, where a block is one pixel wide, one pixel: src times 0 or 1, plus dc.
  method AddTwo(scale: int, a: Pixel, b: Pixel, dc: Pixel) returns (first: Pixel, second: Pixel)
    requires scale == 0 || scale == 1
    ensures first == Sum(scale, a, dc) % 0x1_0000
    ensures second == (Sum(scale, b, dc) + (if Sum(scale, a, dc) >= 0x1_0000 then 1 else 0)) % 0x1_0000
  {
    var word := (if scale == 0 then 0 else Packed(a, b)) + dc * 0x1_0001;
    if scale == 1 { PackedAdd(a, b, dc); } else { PackedAdd(0, 0, dc); }
    first, second := Halves(word % 0x1_0000_0000);
  }

  method AddOne(scale: int, a: Pixel, dc: Pixel) returns (first: Pixel)
    requires scale == 0 || scale == 1
    ensures first == Sum(scale, a, dc) % 0x1_0000
  {
    first := ((if scale == 0 then 0 else a) + dc * 0x1_0001) % 0x1_0000;
  }

  function Sum(scale: int, a: Pixel, dc: Pixel): nat { if scale == 0 then dc else a + dc }

  // A pixel of a block whose left edge is at x, by motion and constant. Even where no pixel is
  // taken over (scale 0) the first of two has its place in the formula, but never a carry.
  function Compensated(ref: Reference, x: int, paired: bool, scale: int, motion: int, dc: Pixel, i: int, j: int): Pixel
  {
    var carry := paired && (j - x) % 2 == 1 && Sum(scale, Moved(ref, motion, i, j - 1), dc) >= 0x1_0000;
    (Sum(scale, Moved(ref, motion, i, j), dc) + if carry then 1 else 0) % 0x1_0000
  }

  // Without a constant, a block is copied.
  lemma CopiesPixel(ref: Reference, x: int, paired: bool, motion: int, i: int, j: int)
    ensures Compensated(ref, x, paired, 1, motion, 0, i, j) == Moved(ref, motion, i, j)
  {
  }

  // Without a picture, it is filled.
  lemma FillsPixel(ref: Reference, x: int, paired: bool, motion: int, dc: Pixel, i: int, j: int)
    ensures Compensated(ref, x, paired, 0, motion, dc, i, j) == dc
  {
  }

  // With both, pixels are added modulo 2^16, exactly unless the first of two overflows into the second.
  lemma AddsPixelIff(ref: Reference, x: int, paired: bool, motion: int, dc: Pixel, i: int, j: int)
    ensures Compensated(ref, x, paired, 1, motion, dc, i, j) == (Moved(ref, motion, i, j) + dc) % 0x1_0000
       <==> !(paired && (j - x) % 2 == 1 && Moved(ref, motion, i, j - 1) + dc >= 0x1_0000)
  {
    var own := Moved(ref, motion, i, j) + dc;
    assert (own + 1) % 0x1_0000 != own % 0x1_0000;
  }
}
