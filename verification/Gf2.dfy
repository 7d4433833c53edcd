// Polynomials over GF(2), and arithmetic modulo x^16 + x^15 + x^2 + 1 on machine words.
module Gf2 {
  // Coefficients, constant term first; trailing zeros are allowed.
  type Poly = seq<bool>

  // A 32-bit machine word, least significant bit first: also the polynomial it stands for.
  type Word = w: seq<bool> | |w| == 32 witness seq(32, i => false)

  function Coef(p: Poly, i: int): bool {
    0 <= i < |p| && p[i]
  }

  ghost predicate Same(p: Poly, q: Poly) {
    forall i: int :: Coef(p, i) == Coef(q, i)
  }

  function Add(p: Poly, q: Poly): Poly {
    seq(if |p| < |q| then |q| else |p|, i => Coef(p, i) != Coef(q, i))
  }

  function Mul(p: Poly, q: Poly): Poly {
    if p == [] then [] else Add(if p[0] then q else [], [false] + Mul(p[1..], q))
  }

  function Power(p: Poly, n: nat): Poly {
    if n == 0 then [true] else Mul(p, Power(p, n - 1))
  }

  const X: Poly := [false, true]

  // ---- machine words ----

  function Zero(): Word { seq(32, i => false) }

  function One(): Word { seq(32, i => i == 0) }

  // (1 << 0) | (1 << 2) | (1 << 15) | (1 << 16)
  function Crc16Poly(): Word { seq(32, i => i == 0 || i == 2 || i == 15 || i == 16) }

  function Xor(a: Word, b: Word): Word { seq(32, i => Coef(a, i) != Coef(b, i)) }

  function ShiftLeft(a: Word): Word { [false] + a[..31] }

  function ShiftRight(a: Word): Word { a[1..] + [false] }

  // The word is a residue: its degree is below 16.
  predicate Small(a: Word) {
    forall i :: 16 <= i < 32 ==> !a[i]
  }

  // r has degree below 16 and differs from p by a multiple of the modulus.
  ghost predicate IsRemainder(p: Poly, r: Word) {
    Small(r) && exists q: Poly :: Same(p, Add(Mul(q, Crc16Poly()), r))
  }

  // Multiplication of a residue by x.
  function XTime(b: Word): Word {
    var c := ShiftLeft(b);
    if c[16] then Xor(c, Crc16Poly()) else c
  }

  function Pick(c: bool, b: Word): Word { if c then b else Zero() }

  // Multiplication of the residue b by p.
  function Act(p: Poly, b: Word): Word {
    if p == [] then Zero() else Xor(Pick(p[0], b), XTime(Act(p[1..], b)))
  }

  lemma XTimeSmall(a: Word)
    requires Small(a)
    ensures Small(XTime(a))
  {
  }

  lemma XTimeXor(a: Word, b: Word)
    ensures XTime(Xor(a, b)) == Xor(XTime(a), XTime(b))
  {
    assert ShiftLeft(Xor(a, b)) == Xor(ShiftLeft(a), ShiftLeft(b));
    var c, d, p := ShiftLeft(a), ShiftLeft(b), Crc16Poly();
    assert Xor(Xor(c, d), p) == Xor(Xor(c, p), d) == Xor(c, Xor(d, p));
    assert Xor(Xor(c, p), Xor(d, p)) == Xor(c, d);
  }

  lemma XTimeZero()
    ensures XTime(Zero()) == Zero()
  {
  }

  lemma XorSwap(a: Word, b: Word, c: Word, d: Word)
    ensures Xor(Xor(a, b), Xor(c, d)) == Xor(Xor(a, c), Xor(b, d))
  {
  }

  lemma XorZero(a: Word)
    ensures Xor(a, Zero()) == a && Xor(Zero(), a) == a && Xor(a, a) == Zero()
  {
  }

  lemma {:induction false} ActSmall(p: Poly, b: Word)
    requires Small(b)
    ensures Small(Act(p, b))
  {
    if p != [] {
      ActSmall(p[1..], b);
      XTimeSmall(Act(p[1..], b));
    }
  }

  lemma {:induction false} ActZero(p: Poly)
    ensures Act(p, Zero()) == Zero()
  {
    if p != [] {
      ActZero(p[1..]);
      XTimeZero();
      XorZero(Zero());
    }
  }

  lemma {:induction false} ActXor(p: Poly, a: Word, b: Word)
    ensures Act(p, Xor(a, b)) == Xor(Act(p, a), Act(p, b))
  {
    if p == [] {
      XorZero(Zero());
    } else {
      var s, t := Act(p[1..], a), Act(p[1..], b);
      ActXor(p[1..], a, b);
      XTimeXor(s, t);
      XorZero(Zero());
      XorSwap(Pick(p[0], a), Pick(p[0], b), XTime(s), XTime(t));
    }
  }

  lemma {:induction false} ActXTime(p: Poly, b: Word)
    ensures Act(p, XTime(b)) == XTime(Act(p, b))
  {
    XTimeZero();
    if p != [] {
      ActXTime(p[1..], b);
      XTimeXor(Pick(p[0], b), XTime(Act(p[1..], b)));
    }
  }

  lemma {:induction false} ActOfZeros(p: Poly, b: Word)
    requires forall i :: 0 <= i < |p| ==> !p[i]
    ensures Act(p, b) == Zero()
  {
    if p != [] {
      ActOfZeros(p[1..], b);
      XTimeZero();
      XorZero(Zero());
    }
  }

  // The action sees coefficients only, not trailing zeros.
  lemma {:induction false} ActSame(p: Poly, q: Poly, b: Word)
    requires Same(p, q)
    ensures Act(p, b) == Act(q, b)
    decreases |p| + |q|
  {
    if p == [] || q == [] {
      forall i | 0 <= i < |p|
        ensures !p[i]
      {
        assert Coef(p, i) == Coef(q, i);
      }
      forall i | 0 <= i < |q|
        ensures !q[i]
      {
        assert Coef(p, i) == Coef(q, i);
      }
      ActOfZeros(p, b);
      ActOfZeros(q, b);
    } else {
      assert Coef(p, 0) == Coef(q, 0);
      forall i: int
        ensures Coef(p[1..], i) == Coef(q[1..], i)
      {
        if i >= 0 { assert Coef(p, i + 1) == Coef(q, i + 1); }
      }
      ActSame(p[1..], q[1..], b);
    }
  }

  lemma {:induction false} ActAdd(p: Poly, q: Poly, b: Word)
    ensures Act(Add(p, q), b) == Xor(Act(p, b), Act(q, b))
    decreases |p| + |q|
  {
    if p == [] {
      assert Add(p, q) == q;
      XorZero(Act(q, b));
    } else if q == [] {
      assert Add(p, q) == p;
      XorZero(Act(p, b));
    } else {
      assert Add(p, q)[1..] == Add(p[1..], q[1..]);
      ActAdd(p[1..], q[1..], b);
      var s, t := Act(p[1..], b), Act(q[1..], b);
      XTimeXor(s, t);
      XorSwap(Pick(p[0], b), Pick(q[0], b), XTime(s), XTime(t));
      XorZero(b);
      XorZero(Zero());
      assert Add(p, q)[0] == (p[0] != q[0]);
    }
  }

  lemma ActShift(p: Poly, b: Word)
    ensures Act([false] + p, b) == XTime(Act(p, b))
  {
    assert ([false] + p)[1..] == p;
    XorZero(XTime(Act(p, b)));
  }

  lemma {:induction false} ActMul(p: Poly, q: Poly, b: Word)
    ensures Act(Mul(p, q), b) == Act(p, Act(q, b))
  {
    if p != [] {
      ActMul(p[1..], q, b);
      ActAdd(if p[0] then q else [], [false] + Mul(p[1..], q), b);
      ActShift(Mul(p[1..], q), b);
    }
  }

  lemma {:induction false} ActCommute(p: Poly, q: Poly, b: Word)
    ensures Act(p, Act(q, b)) == Act(q, Act(p, b))
  {
    if p == [] {
      ActZero(q);
    } else {
      ActCommute(p[1..], q, b);
      var t := Act(p[1..], b);
      ActXor(q, Pick(p[0], b), XTime(t));
      ActXTime(q, t);
      ActZero(q);
    }
  }

  // ---- words as residues ----

  // Act on a word, seen from its lowest bit as the shift loop sees it.
  lemma ActFromLowBit(a: Word, b: Word)
    ensures Act(a, b) == Xor(Pick(a[0], b), Act(ShiftRight(a), XTime(b)))
  {
    forall i: int
      ensures Coef(a[1..], i) == Coef(ShiftRight(a), i)
    {
    }
    ActSame(a[1..], ShiftRight(a), b);
    ActXTime(ShiftRight(a), b);
  }

  // A residue with its first n coefficients only, n at most 16, is itself times one.
  lemma {:induction false} PrefixIsItsResidue(p: Poly)
    requires |p| <= 16
    ensures forall i :: 0 <= i < 32 ==> Act(p, One())[i] == Coef(p, i)
  {
    if p != [] {
      PrefixIsItsResidue(p[1..]);
      var t := Act(p[1..], One());
      assert !t[15];
      assert !ShiftLeft(t)[16];
      assert XTime(t) == ShiftLeft(t);
    }
  }

  lemma WordIsItsResidue(a: Word)
    requires Small(a)
    ensures Act(a, One()) == a
  {
    PrefixIsItsResidue(a[..16]);
    forall i: int
      ensures Coef(a[..16], i) == Coef(a, i)
    {
    }
    ActSame(a[..16], a, One());
    forall i | 0 <= i < 32
      ensures Act(a, One())[i] == a[i]
    {
      assert Act(a[..16], One())[i] == Coef(a[..16], i);
    }
  }

  // The modulus times one is zero: its high part overflows into exactly its low part.
  lemma ModulusActsOnOne()
    ensures Act(Crc16Poly(), One()) == Zero()
  {
    var m := Crc16Poly();
    var high := m[1..];
    forall i: int
      ensures Coef(high[..16], i) == Coef(high, i)
    {
    }
    ActSame(high[..16], high, One());
    PrefixIsItsResidue(high[..16]);
    var t := Act(high, One());
    assert forall i :: 0 <= i < 32 ==> t[i] == Coef(high[..16], i);
    assert ShiftLeft(t) == m[0 := false];
    assert XTime(t) == One();
    XorZero(One());
  }

  // The remainder of p, computed by Horner's rule.
  function Rem(p: Poly): Word {
    Act(p, One())
  }

  lemma RemIsUnique(p: Poly, r: Word)
    requires IsRemainder(p, r)
    ensures r == Rem(p)
  {
    var q: Poly :| Same(p, Add(Mul(q, Crc16Poly()), r));
    ActSame(p, Add(Mul(q, Crc16Poly()), r), One());
    ActAdd(Mul(q, Crc16Poly()), r, One());
    ActMul(q, Crc16Poly(), One());
    ModulusActsOnOne();
    ActZero(q);
    WordIsItsResidue(r);
    XorZero(r);
  }

  lemma {:induction false} RemIsRemainder(p: Poly)
    ensures IsRemainder(p, Rem(p))
  {
    assert Small(One());
    ActSmall(p, One());
    if p == [] {
      assert Same(p, Add(Mul([], Crc16Poly()), Rem(p)));
    } else {
      RemIsRemainder(p[1..]);
      var r' := Rem(p[1..]);
      var q': Poly :| Same(p[1..], Add(Mul(q', Crc16Poly()), r'));
      var q := [ShiftLeft(r')[16]] + q';
      DivisionStep(p, q', r', q);
    }
  }

  // One more low coefficient: the quotient gains the bit that the remainder overflows by.
  lemma DivisionStep(p: Poly, q': Poly, r': Word, q: Poly)
    requires p != [] && Small(r') && r' == Rem(p[1..])
    requires Same(p[1..], Add(Mul(q', Crc16Poly()), r'))
    requires q == [ShiftLeft(r')[16]] + q'
    ensures Same(p, Add(Mul(q, Crc16Poly()), Rem(p)))
  {
    var m, r, d := Crc16Poly(), Rem(p), ShiftLeft(r')[16];
    var old', new' := Mul(q', m), Mul(q, m);
    assert q[1..] == q';
    assert new' == Add(if d then m else [], [false] + old');
    assert r == Xor(Pick(p[0], One()), XTime(r'));
    forall i: int
      ensures Coef(p, i) == Coef(Add(new', r), i)
    {
      AddCoef(new', r, i);
      AddCoef(if d then m else [], [false] + old', i);
      if i > 0 {
        AddCoef(old', r', i - 1);
        assert Coef(p, i) == Coef(p[1..], i - 1) == Coef(Add(old', r'), i - 1);
        RemainderBit(p[0], r', i);
      } else if i == 0 {
        LowRemainderBit(p[0], r');
      }
    }
  }

  lemma AddCoef(p: Poly, q: Poly, i: int)
    ensures Coef(Add(p, q), i) == (Coef(p, i) != Coef(q, i))
  {
  }

  lemma LowRemainderBit(c: bool, r': Word)
    ensures Coef(Xor(Pick(c, One()), XTime(r')), 0) == (c != ShiftLeft(r')[16])
  {
  }

  lemma RemainderBit(c: bool, r': Word, i: int)
    requires i > 0 && Small(r')
    ensures Coef(Xor(Pick(c, One()), XTime(r')), i) == (Coef(r', i - 1) != (ShiftLeft(r')[16] && Coef(Crc16Poly(), i)))
  {
  }
}
