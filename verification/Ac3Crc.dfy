// The two checksums of an AC-3 frame. crc1 stands in front of the data it protects, so the
// encoder divides by a power of x: it multiplies by a power of the inverse of x.
module Ac3Crc {
  import opened Gf2
  import opened Bits

  // ---- mul_poly and pow_poly ----

  method MulPoly(a0: Word, b0: Word) returns (c: Word)
    ensures c == Act(a0, b0)
    ensures Small(b0) ==> IsRemainder(Mul(a0, b0), c)
  {
    c := Zero();
    var a, b := a0, b0;
    ghost var n := 32;
    XorZero(Act(a0, b0));
    while a != Zero()
      invariant 0 <= n <= 32 && forall i :: n <= i < 32 ==> !a[i]
      invariant Xor(c, Act(a, b)) == Act(a0, b0)
      decreases n
    {
      LowestBit(a, b, c);
      if a[0] {
        c := Xor(c, b);
      }
      a := ShiftRight(a);
      b := ShiftLeft(b);
      if b[16] {
        b := Xor(b, Crc16Poly());
      }
      n := n - 1;
    }
    ActOfZeros(Zero(), b);
    XorZero(c);
    if Small(b0) {
      ProductRemainder(a0, b0);
    }
  }

  // Taking the lowest bit of a off does not change the sum.
  lemma LowestBit(a: Word, b: Word, c: Word)
    ensures Xor(if a[0] then Xor(c, b) else c, Act(ShiftRight(a), XTime(b))) == Xor(c, Act(a, b))
  {
    ActFromLowBit(a, b);
    XorGroups(c, Pick(a[0], b), Act(ShiftRight(a), XTime(b)));
    XorZero(c);
  }

  lemma XorGroups(c: Word, d: Word, e: Word)
    ensures Xor(c, Xor(d, e)) == Xor(Xor(c, d), e)
  {
  }

  lemma ProductRemainder(a: Poly, b: Word)
    requires Small(b)
    ensures IsRemainder(Mul(a, b), Act(a, b))
  {
    ActMul(a, b, One());
    WordIsItsResidue(b);
    RemIsRemainder(Mul(a, b));
  }

  // n-fold multiplication by a.
  function Times(a: Poly, n: nat, b: Word): Word {
    if n == 0 then b else Act(a, Times(a, n - 1, b))
  }

  lemma TimesStep(a: Poly, n: nat, b: Word)
    ensures Times(a, n + 1, b) == Act(a, Times(a, n, b))
  {
  }

  lemma {:induction false} TimesInside(a: Poly, n: nat, b: Word)
    ensures Times(a, n, Act(a, b)) == Times(a, n + 1, b)
  {
    if n > 0 {
      TimesInside(a, n - 1, b);
    }
  }

  lemma ActOne(b: Word)
    ensures Act([true], b) == b
  {
    assert [true][1..] == [];
    XTimeZero();
    XorZero(b);
  }

  lemma {:induction false} PowerActs(a: Poly, n: nat, b: Word)
    ensures Act(Power(a, n), b) == Times(a, n, b)
  {
    if n == 0 {
      ActOne(b);
    } else {
      PowerActs(a, n - 1, b);
      PowerStep(a, Power(a, n - 1), b, Times(a, n - 1, b));
      TimesStep(a, n - 1, b);
    }
  }

  lemma PowerStep(a: Poly, p: Poly, b: Word, c: Word)
    requires Act(p, b) == c
    ensures Act(Mul(a, p), b) == Act(a, c)
  {
    ActMul(a, p, b);
  }

  // Acting by a residue a*c is acting by c, then by a.
  lemma ResidueActs(a: Poly, c: Word, b: Word)
    requires Small(b) && Small(c)
    ensures Act(Act(a, c), b) == Act(a, Act(c, b))
  {
    var s := Act(a, c);
    ActSmall(a, c);
    WordIsItsResidue(b);
    WordIsItsResidue(s);
    WordIsItsResidue(c);
    ActCommute(s, b, One());
    ActCommute(b, a, c);
    ActCommute(b, c, One());
  }

  // Times again, as iteration of a function that hides what is applied.
  function Iterate<T>(f: T -> T, n: nat, b: T): T {
    if n == 0 then b else f(Iterate(f, n - 1, b))
  }

  function By(a: Poly): Word -> Word {
    (w: Word) => Act(a, w)
  }

  lemma {:induction false} IterateTwice<T(!new)>(f: T -> T, g: T -> T, ok: T -> bool, m: nat, b: T)
    requires ok(b)
    requires forall w {:trigger g(w)} :: ok(w) ==> ok(g(w)) && g(w) == f(f(w))
    ensures ok(Iterate(g, m, b)) && Iterate(g, m, b) == Iterate(f, m + m, b)
  {
    if m > 0 {
      IterateTwice(f, g, ok, m - 1, b);
      var k := m + m - 2;
      assert Iterate(f, k + 2, b) == f(Iterate(f, k + 1, b));
    }
  }

  lemma {:induction false} IterateKeeps<T(!new)>(f: T -> T, ok: T -> bool, n: nat, b: T)
    requires ok(b) && forall w {:trigger f(w)} :: ok(w) ==> ok(f(w))
    ensures ok(Iterate(f, n, b))
  {
    if n > 0 {
      IterateKeeps(f, ok, n - 1, b);
    }
  }

  lemma TimesSmall(a: Poly, n: nat, b: Word)
    requires Small(b)
    ensures Small(Times(a, n, b))
  {
    forall w: Word | Small(w)
      ensures Small(By(a)(w))
    {
      ActSmall(a, w);
    }
    IterateKeeps(By(a), (w: Word) => Small(w), n, b);
    TimesIsIterate(a, n, b);
  }

  lemma {:induction false} TimesIsIterate(a: Poly, n: nat, b: Word)
    ensures Times(a, n, b) == Iterate(By(a), n, b)
  {
    if n > 0 {
      TimesIsIterate(a, n - 1, b);
      TimesStep(a, n - 1, b);
    }
  }

  lemma {:induction false} IterateInside<T>(f: T -> T, n: nat, b: T)
    ensures Iterate(f, n, f(b)) == Iterate(f, n + 1, b)
  {
    if n > 0 {
      IterateInside(f, n - 1, b);
    }
  }

  // Half as many steps of the double step; an odd step is taken first.
  lemma IterateHalves<T(!new)>(f: T -> T, g: T -> T, ok: T -> bool, n: nat, b: T)
    requires ok(b) && ok(f(b))
    requires forall w {:trigger g(w)} :: ok(w) ==> ok(g(w)) && g(w) == f(f(w))
    ensures Iterate(g, n / 2, if n % 2 == 1 then f(b) else b) == Iterate(f, n, b)
  {
    if n % 2 == 1 {
      IterateTwice(f, g, ok, n / 2, f(b));
      IterateInside(f, n - 1, b);
    } else {
      IterateTwice(f, g, ok, n / 2, b);
    }
  }

  lemma SquareActs(a: Word, s: Word)
    requires Small(a) && s == Act(a, a)
    ensures forall w: Word {:trigger By(s)(w)} :: Small(w) ==> Small(By(s)(w)) && By(s)(w) == By(a)(By(a)(w))
  {
    forall w: Word | Small(w)
      ensures Small(By(s)(w)) && By(s)(w) == By(a)(By(a)(w))
    {
      ActSmall(s, w);
      ResidueActs(a, a, w);
    }
  }

  // One round of the square-and-multiply loop: s is a squared, t is r times a.
  lemma PowStep(a: Word, n: nat, r: Word, s: Word, t: Word)
    requires Small(a) && Small(r) && s == Act(a, a) && t == Act(r, a)
    ensures Small(s) && Small(t)
    ensures Iterate<Word>(By(s), n / 2, if n % 2 == 1 then t else r) == Iterate<Word>(By(a), n, r)
  {
    ActSmall(a, a);
    ActSmall(r, a);
    SmallProductCommutes(r, a);
    SquareActs(a, s);
    IterateHalves<Word>(By(a), By(s), (w: Word) => Small(w), n, r);
  }

  method PowPoly(a0: Word, n0: nat) returns (r: Word)
    requires Small(a0)
    ensures Small(r) && r == Times(a0, n0, One())
    ensures IsRemainder(Power(a0, n0), r)
  {
    var a, n := a0, n0;
    r := One();
    while n != 0
      invariant Small(a) && Small(r)
      invariant Iterate<Word>(By(a), n, r) == Iterate<Word>(By(a0), n0, One())
    {
      PowStep(a, n, r, Act(a, a), Act(r, a));
      if n % 2 == 1 {
        r := MulPoly(r, a);
      }
      a := MulPoly(a, a);
      n := n / 2;
    }
    TimesIsIterate(a0, n0, One());
    PowerActs(a0, n0, One());
    RemIsRemainder(Power(a0, n0));
  }

  lemma SmallProductCommutes(a: Word, b: Word)
    requires Small(a) && Small(b)
    ensures Act(a, b) == Act(b, a)
  {
    WordIsItsResidue(a);
    WordIsItsResidue(b);
    ActCommute(a, b, One());
  }

  // ---- the inverse of x ----

  function XTimes(n: nat, b: Word): Word {
    if n == 0 then b else XTime(XTimes(n - 1, b))
  }

  lemma ActX(b: Word)
    ensures Act(X, b) == XTime(b)
  {
    assert X == [false] + [true] && [true][1..] == [];
    ActShift([true], b);
    XTimeZero();
    XorZero(b);
  }

  lemma {:induction false} TimesX(n: nat, b: Word, powers: Word, shifts: Word)
    requires powers == Times(X, n, b) && shifts == XTimes(n, b)
    ensures powers == shifts
    decreases n
  {
    if n > 0 {
      TimesX(n - 1, b, Times(X, n - 1, b), XTimes(n - 1, b));
      TimesStep(X, n - 1, b);
      ActX(XTimes(n - 1, b));
    }
  }

  lemma XTimesIsPower(n: nat, b: Word)
    ensures Act(Power(X, n), b) == XTimes(n, b)
  {
    PowerActs(X, n, b);
    TimesX(n, b, Times(X, n, b), XTimes(n, b));
  }

  // CRC16_POLY >> 1
  function InverseOfX(): Word { ShiftRight(Crc16Poly()) }

  lemma HalfModulusInvertsX(b: Word)
    requires Small(b)
    ensures Small(InverseOfX())
    ensures Act(InverseOfX(), XTime(b)) == b && XTime(Act(InverseOfX(), b)) == b
  {
    var v := InverseOfX();
    WordIsItsResidue(v);
    assert ShiftLeft(v) == Crc16Poly()[0 := false];
    assert XTime(v) == One();
    ActXTime(v, b);
    SmallProductCommutes(v, b);
    ActXTime(b, v);
    WordIsItsResidue(b);
  }

  // x^n undoes the n-th power of the inverse.
  lemma {:induction false} PowersCancel(n: nat, b: Word)
    requires Small(b)
    ensures Times(InverseOfX(), n, XTimes(n, b)) == b
  {
    if n > 0 {
      XTimesSmall(n - 1, b);
      HalfModulusInvertsX(XTimes(n - 1, b));
      TimesInside(InverseOfX(), n - 1, XTimes(n, b));
      PowersCancel(n - 1, b);
    }
  }

  lemma {:induction false} XTimesSmall(n: nat, b: Word)
    requires Small(b)
    ensures Small(XTimes(n, b))
  {
    if n > 0 {
      XTimesSmall(n - 1, b);
      XTimeSmall(XTimes(n - 1, b));
    }
  }

  lemma {:induction false} XTimesOfTimes(m: nat, n: nat, b: Word)
    requires Small(b) && m <= n
    ensures XTimes(m, Times(InverseOfX(), n, b)) == Times(InverseOfX(), n - m, b)
  {
    if m > 0 {
      XTimesOfTimes(m - 1, n, b);
      TimesSmall(InverseOfX(), n - m, b);
      HalfModulusInvertsX(Times(InverseOfX(), n - m, b));
    }
  }

  // ---- messages ----

  // A bit string, first bit sent first, as a polynomial.
  function Message(bits: seq<bool>): Poly {
    seq(|bits|, i => if 0 <= i < |bits| then bits[|bits| - 1 - i] else false)
  }

  lemma LastBit(v: seq<bool>)
    requires v != []
    ensures Rem(Message(v)) == Xor(Pick(v[|v| - 1], One()), XTime(Rem(Message(v[..|v| - 1]))))
  {
    assert Message(v)[1..] == Message(v[..|v| - 1]);
  }

  lemma XorRotate(a: Word, b: Word, c: Word)
    ensures Xor(a, Xor(b, c)) == Xor(b, Xor(a, c))
  {
  }

  lemma {:induction false} MessageConcat(u: seq<bool>, v: seq<bool>)
    ensures Rem(Message(u + v)) == Xor(XTimes(|v|, Rem(Message(u))), Rem(Message(v)))
  {
    if v == [] {
      assert u + v == u;
      XorZero(Rem(Message(u)));
    } else {
      var v' := v[..|v| - 1];
      MessageConcat(u, v');
      LastBit(v);
      LastBit(u + v);
      assert (u + v)[..|u + v| - 1] == u + v';
      var s, t := XTimes(|v'|, Rem(Message(u))), Rem(Message(v'));
      XTimeXor(s, t);
      XorRotate(Pick(v[|v| - 1], One()), XTime(s), XTime(t));
    }
  }

  // A library call: the CRC with polynomial 0x8005 and start value 0, which is the
  // remainder of the message times x^16 (read out most significant byte first).
  function AvCrc(bits: seq<bool>): Word {
    Rem(Mul(Power(X, 16), Message(bits)))
  }

  lemma AvCrcIsShifted(bits: seq<bool>)
    ensures AvCrc(bits) == XTimes(16, Rem(Message(bits)))
    ensures Small(AvCrc(bits)) && IsRemainder(Mul(Power(X, 16), Message(bits)), AvCrc(bits))
  {
    assert Small(One());
    ActMul(Power(X, 16), Message(bits), One());
    XTimesIsPower(16, Rem(Message(bits)));
    ActSmall(Mul(Power(X, 16), Message(bits)), One());
    RemIsRemainder(Mul(Power(X, 16), Message(bits)));
  }

  // ---- bytes ----

  // The two bytes of a 16-bit big-endian store.
  function HighByte(w: Word): int { ValueOf(seq(8, i => Coef(w, 15 - i))) }

  function LowByte(w: Word): int { ValueOf(seq(8, i => Coef(w, 7 - i))) }

  function ByteBits(b: int): (bits: seq<bool>)
    ensures |bits| == 8
  {
    LowBits(b, 8)
  }

  function BitsOf(bytes: seq<int>): (bits: seq<bool>)
    ensures |bits| == 8 * |bytes|
  {
    if bytes == [] then [] else BitsOf(bytes[..|bytes| - 1]) + ByteBits(bytes[|bytes| - 1])
  }

  lemma {:induction false} BitsConcat(a: seq<int>, b: seq<int>)
    ensures BitsOf(a + b) == BitsOf(a) + BitsOf(b)
  {
    if b == [] {
      assert a + b == a;
    } else {
      var b' := b[..|b| - 1];
      BitsConcat(a, b');
      assert (a + b)[..|a + b| - 1] == a + b';
    }
  }

  lemma StoredBits(w: Word)
    ensures BitsOf([HighByte(w), LowByte(w)]) == seq(8, i => Coef(w, 15 - i)) + seq(8, i => Coef(w, 7 - i))
  {
    var hi, lo := HighByte(w), LowByte(w);
    var high, low := seq(8, i => Coef(w, 15 - i)), seq(8, i => Coef(w, 7 - i));
    LowBitsOfValue(high);
    LowBitsOfValue(low);
    assert [hi, lo] == [hi] + [lo];
    BitsConcat([hi], [lo]);
    OneByte(hi);
    OneByte(lo);
  }

  // Bytes are read as they are.
  lemma ReadBytes(bytes: seq<int>)
    requires forall i :: 0 <= i < |bytes| ==> 0 <= bytes[i] < 256
    ensures forall i {:trigger bytes[i]} :: 0 <= i < |bytes| ==> Get(BitsOf(bytes), 8 * i, 8) == bytes[i]
  {
    forall i | 0 <= i < |bytes|
      ensures Get(BitsOf(bytes), 8 * i, 8) == bytes[i]
    {
      var before, after := bytes[..i], bytes[i + 1..];
      assert bytes == (before + [bytes[i]]) + after;
      BitsConcat(before + [bytes[i]], after);
      BitsConcat(before, [bytes[i]]);
      OneByte(bytes[i]);
      EightBits();
      GetPut(BitsOf(before), 8, bytes[i], BitsOf(after));
    }
  }

  lemma OneByte(b: int)
    ensures BitsOf([b]) == ByteBits(b)
  {
    assert [b][..0] == [];
  }

  lemma StoredWord(w: Word)
    requires Small(w)
    ensures Rem(Message(BitsOf([HighByte(w), LowByte(w)]))) == w
  {
    StoredBits(w);
    var bits := seq(8, i => Coef(w, 15 - i)) + seq(8, i => Coef(w, 7 - i));
    forall i: int
      ensures Coef(Message(bits), i) == Coef(w, i)
    {
    }
    ActSame(Message(bits), w, One());
    WordIsItsResidue(w);
  }

  // ---- what the encoder stores ----

  // The word put in front of data: x^-(16 + |data|) times the CRC of data.
  function Crc1(data: seq<bool>): Word {
    Times(InverseOfX(), |data| + 16, AvCrc(data))
  }

  // It is the one word that makes the whole message divisible by the modulus.
  lemma Crc1Cancels(word: seq<bool>, w: Word, data: seq<bool>)
    requires Small(w) && Rem(Message(word)) == w
    ensures Rem(Message(word + data)) == Zero() <==> w == Crc1(data)
  {
    var d, n := Rem(Message(data)), |data|;
    Crc1Shifted(data, n, d, Crc1(data));
    MessageConcat(word, data);
    EqualIffZero(XTimes(n, w), d);
    PowersCancel(n, w);
    PowersCancel(n, Crc1(data));
  }

  lemma Crc1Shifted(data: seq<bool>, n: nat, d: Word, c: Word)
    requires d == Rem(Message(data)) && n == |data| && c == Crc1(data)
    ensures Small(d) && Small(c) && XTimes(n, c) == d
  {
    assert Small(One());
    ActSmall(Message(data), One());
    AvCrcIsShifted(data);
    XTimesOfTimes(n, n + 16, AvCrc(data));
    PowersCancel(16, d);
    TimesSmall(InverseOfX(), n + 16, AvCrc(data));
  }

  lemma EqualIffZero(a: Word, b: Word)
    ensures Xor(a, b) == Zero() <==> a == b
  {
    if Xor(a, b) == Zero() {
      forall i | 0 <= i < 32
        ensures a[i] == b[i]
      {
        assert Zero()[i] == (Coef(a, i) != Coef(b, i));
      }
    } else if a == b {
      XorZero(b);
    }
  }

  // A checksum appended behind its data.
  lemma Crc2Cancels(data: seq<bool>, word: seq<bool>)
    requires |word| == 16 && Rem(Message(word)) == AvCrc(data)
    ensures Rem(Message(data + word)) == Zero()
  {
    AvCrcIsShifted(data);
    MessageConcat(data, word);
    XorZero(AvCrc(data));
  }

  lemma {:induction false} XTimesZero(n: nat)
    ensures XTimes(n, Zero()) == Zero()
  {
    XTimeZero();
    if n > 0 {
      XTimesZero(n - 1);
    }
  }

  lemma CleanPartsAreClean(u: seq<bool>, v: seq<bool>)
    requires Rem(Message(u)) == Zero() && Rem(Message(v)) == Zero()
    ensures Rem(Message(u + v)) == Zero()
  {
    MessageConcat(u, v);
    XTimesZero(|v|);
    XorZero(Zero());
  }

  ghost predicate Divisible(bytes: seq<int>) {
    IsRemainder(Message(BitsOf(bytes)), Zero())
  }

  // Frame size of the first five eighths, in words.
  function FiveEighths(frameSize: nat): nat { frameSize / 2 + frameSize / 8 }

  // The product the encoder forms is crc1.
  lemma Crc1IsProduct(data: seq<bool>, n: nat, inv: Word, p: Word)
    requires n == |data| + 16 && inv == InverseOfX() && p == Times(inv, n, One())
    ensures Small(inv) && Act(p, AvCrc(data)) == Crc1(data) && Small(Crc1(data))
  {
    AvCrcIsShifted(data);
    HalfModulusInvertsX(One());
    TimesSmall(inv, n, AvCrc(data));
    PowerTimes(n, p, AvCrc(data));
  }

  method InvertedCrc(head: seq<int>, n: nat) returns (crc1: Word)
    requires n == 8 * |head| + 16
    ensures Small(crc1) && crc1 == Crc1(BitsOf(head))
  {
    var crc := AvCrc(BitsOf(head));
    var inv := InverseOfX();
    HalfModulusInvertsX(One());
    var crcInv := PowPoly(inv, n);
    crc1 := MulPoly(crcInv, crc);
    Crc1IsProduct(BitsOf(head), n, inv, crcInv);
  }

  ghost predicate Sealed(before: seq<int>, after: seq<int>, frameSize: nat, pos: nat)
    requires 4 <= pos <= 2 * frameSize - 2 && 2 * frameSize <= |before| == |after|
  {
    && after[..2] == before[..2] && after[4..pos] == before[4..pos]
    && (forall i :: pos <= i < 2 * frameSize - 2 && 4 <= i ==> after[i] == 0)
    && after[2 * frameSize..] == before[2 * frameSize..]
  }

  // Fills the rest of the frame with zeros and sets both checksums, as section 7.10.1 of
  // ATSC A/52 wants them: after the sync word, the first five eighths and the whole frame
  // both leave remainder zero.
  method OutputFrameEnd(frame: array<int>, frameSize: nat, pos: nat) returns (bytes: nat)
    requires 64 <= frameSize && 2 * frameSize <= frame.Length
    requires 4 <= pos <= 2 * frameSize - 2
    modifies frame
    ensures bytes == 2 * frameSize
    ensures Divisible(frame[..][2..2 * FiveEighths(frameSize)])
    ensures Divisible(frame[..][2..2 * frameSize])
    ensures Sealed(old(frame[..]), frame[..], frameSize, pos)
  {
    var n := 2 * frameSize - pos - 2;
    forall i | pos <= i < pos + n {
      frame[i] := 0;
    }
    var m := 2 * FiveEighths(frameSize);
    WriteChecksums(frame, 2 * frameSize, m);
    bytes := 2 * frameSize;
  }

  method WriteChecksums(frame: array<int>, end: nat, m: nat)
    requires end <= frame.Length && 4 <= m <= end - 2
    modifies frame
    ensures Divisible(frame[..][2..m]) && Divisible(frame[..][2..end])
    ensures forall i :: 0 <= i < frame.Length && i != 2 && i != 3 && i != end - 2 && i != end - 1 ==>
              frame[i] == old(frame[i])
  {
    ghost var padded := frame[..];
    var w := Checksums(frame[4..m], frame[m..end - 2]);
    assert padded[4..m] == frame[4..m] && padded[m..end - 2] == frame[m..end - 2];
    frame[2], frame[3] := w[0], w[1];
    frame[end - 2], frame[end - 1] := w[2], w[3];
    FrameSlices(padded, frame[..], end, m, w);
  }

  // The four checksum bytes around a frame whose first part is head and second part tail.
  method Checksums(head: seq<int>, tail: seq<int>) returns (w: seq<int>)
    ensures |w| == 4
    ensures Divisible(w[..2] + head) && Divisible(w[..2] + head + (tail + w[2..]))
  {
    var crc1 := InvertedCrc(head, 8 * |head| + 16);
    var crc2 := AvCrc(BitsOf(tail));
    w := [HighByte(crc1), LowByte(crc1), HighByte(crc2), LowByte(crc2)];
    assert w[..2] == [HighByte(crc1), LowByte(crc1)] && w[2..] == [HighByte(crc2), LowByte(crc2)];
    FrameChecks(w[..2] + head, crc1, head, tail, crc2);
  }

  lemma FrameSlices(padded: seq<int>, frame: seq<int>, end: nat, m: nat, w: seq<int>)
    requires end <= |padded| && 4 <= m <= end - 2 && |w| == 4
    requires frame == padded[2 := w[0]][3 := w[1]][end - 2 := w[2]][end - 1 := w[3]]
    ensures |frame| == |padded| && frame[2..m] == w[..2] + padded[4..m]
    ensures frame[2..end] == w[..2] + padded[4..m] + (padded[m..end - 2] + w[2..])
  {
    HeadSlice(padded, frame, end, m, w);
    TailSlice(padded, frame, end, m, w);
    assert frame[2..end] == frame[2..m] + frame[m..end];
  }

  lemma HeadSlice(padded: seq<int>, frame: seq<int>, end: nat, m: nat, w: seq<int>)
    requires end <= |padded| && 4 <= m <= end - 2 && |w| == 4
    requires frame == padded[2 := w[0]][3 := w[1]][end - 2 := w[2]][end - 1 := w[3]]
    ensures frame[2..m] == w[..2] + padded[4..m]
  {
  }

  lemma TailSlice(padded: seq<int>, frame: seq<int>, end: nat, m: nat, w: seq<int>)
    requires end <= |padded| && 4 <= m <= end - 2 && |w| == 4
    requires frame == padded[2 := w[0]][3 := w[1]][end - 2 := w[2]][end - 1 := w[3]]
    ensures frame[m..end] == padded[m..end - 2] + w[2..]
  {
  }

  lemma PowerTimes(n: nat, p: Word, b: Word)
    requires Small(b) && Small(InverseOfX()) && p == Times(InverseOfX(), n, One())
    ensures Act(p, b) == Times(InverseOfX(), n, b)
  {
    var v := InverseOfX();
    assert Small(One());
    TimesSmall(v, n, One());
    WordIsItsResidue(b);
    WordIsItsResidue(p);
    ActCommute(p, b, One());
    PowerActs(v, n, One());
    ActCommute(b, Power(v, n), One());
    PowerActs(v, n, b);
  }

  lemma FrameChecks(first: seq<int>, crc1: Word, head: seq<int>, tail: seq<int>, crc2: Word)
    requires Small(crc1) && crc1 == Crc1(BitsOf(head)) && crc2 == AvCrc(BitsOf(tail))
    requires first == [HighByte(crc1), LowByte(crc1)] + head
    ensures Divisible(first)
    ensures Divisible(first + (tail + [HighByte(crc2), LowByte(crc2)]))
  {
    var stored1, stored2 := [HighByte(crc1), LowByte(crc1)], [HighByte(crc2), LowByte(crc2)];
    StoredWord(crc1);
    BitsConcat(stored1, head);
    Crc1Cancels(BitsOf(stored1), crc1, BitsOf(head));
    AvCrcIsShifted(BitsOf(tail));
    StoredWord(crc2);
    BitsConcat(tail, stored2);
    Crc2Cancels(BitsOf(tail), BitsOf(stored2));
    BitsConcat(first, tail + stored2);
    CleanPartsAreClean(BitsOf(first), BitsOf(tail + stored2));
    RemIsRemainder(Message(BitsOf(first)));
    RemIsRemainder(Message(BitsOf(first + (tail + stored2))));
  }
}
