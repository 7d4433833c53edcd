// Bit strings as put_bits writes them and get_bits reads them: most significant bit first.
module Bits {
  import opened Sums

  // The number written by bits, most significant bit first.
  function ValueOf(bits: seq<bool>): int {
    if bits == [] then 0 else 2 * ValueOf(bits[..|bits| - 1]) + if bits[|bits| - 1] then 1 else 0
  }

  // The low n bits of b, most significant bit first.
  function LowBits(b: int, n: nat): (bits: seq<bool>)
    ensures |bits| == n
  {
    seq(n, i => if 0 <= i < n then b / Pow2(n - 1 - i) % 2 == 1 else false)
  }

  lemma LowBitsStep(b: int, n: nat)
    requires n > 0
    ensures LowBits(b, n) == LowBits(b / 2, n - 1) + [b % 2 == 1]
  {
    var s, t := LowBits(b, n), LowBits(b / 2, n - 1);
    forall i | 0 <= i < n - 1
      ensures s[i] == t[i]
    {
      HalfThenShift(b / 2, b % 2, n - 1 - i);
      assert 2 * (b / 2) + b % 2 == b;
    }
    assert Pow2(0) == 1;
  }

  lemma {:induction false} LowBitsOfValue(bits: seq<bool>)
    ensures LowBits(ValueOf(bits), |bits|) == bits
  {
    if bits != [] {
      LowBitsOfValue(bits[..|bits| - 1]);
      LowBitsStep(ValueOf(bits), |bits|);
    }
  }

  lemma {:induction false} LowBitsRoundTrip(v: int, n: nat)
    requires 0 <= v < Pow2(n)
    ensures ValueOf(LowBits(v, n)) == v
  {
    if n > 0 {
      LowBitsRoundTrip(v / 2, n - 1);
      LowBitsStep(v, n);
      var b := LowBits(v, n);
      assert b[..|b| - 1] == LowBits(v / 2, n - 1);
    }
  }

  lemma {:induction false} ValueOfRange(bits: seq<bool>)
    ensures 0 <= ValueOf(bits) < Pow2(|bits|)
  {
    if bits != [] {
      ValueOfRange(bits[..|bits| - 1]);
    }
  }

  // put_bits
  function Put(n: nat, v: int): (bits: seq<bool>)
    ensures |bits| == n
  {
    LowBits(v, n)
  }

  // get_bits at position pos; bits past the end read as zero.
  function Get(bits: seq<bool>, pos: nat, n: nat): int {
    if pos + n <= |bits| then ValueOf(bits[pos..pos + n]) else 0
  }

  lemma {:induction false} GetRange(bits: seq<bool>, pos: nat, n: nat)
    ensures 0 <= Get(bits, pos, n) < Pow2(n)
  {
    if pos + n <= |bits| {
      ValueOfRange(bits[pos..pos + n]);
    }
  }

  lemma GetPut(before: seq<bool>, n: nat, v: int, after: seq<bool>)
    requires 0 <= v < Pow2(n)
    ensures Get(before + Put(n, v) + after, |before|, n) == v
  {
    LowBitsRoundTrip(v, n);
    assert (before + Put(n, v) + after)[|before|..|before| + n] == Put(n, v);
  }

  lemma {:induction false} ValueOfConcat(a: seq<bool>, b: seq<bool>)
    ensures ValueOf(a + b) == ValueOf(a) * Pow2(|b|) + ValueOf(b)
  {
    if b == [] {
      assert a + b == a;
    } else {
      ValueOfConcat(a, b[..|b| - 1]);
      LastOfBoth(a, b);
      Doubled(ValueOf(a), Pow2(|b| - 1));
    }
  }

  lemma Doubled(x: int, p: int)
    ensures 2 * (x * p) == x * (2 * p)
  {
  }

  lemma EightBits()
    ensures Pow2(8) == 256
  {
    assert Pow2(4) == 16;
    Pow2Add(4, 4);
  }

  // Reading n + m bits at once.
  lemma GetTwo(bits: seq<bool>, pos: nat, n: nat, m: nat)
    requires pos + n + m <= |bits|
    ensures Get(bits, pos, n + m) == Get(bits, pos, n) * Pow2(m) + Get(bits, pos + n, m)
    ensures 0 <= Get(bits, pos + n, m) < Pow2(m)
  {
    var a, b := bits[pos..pos + n], bits[pos + n..pos + n + m];
    assert bits[pos..pos + (n + m)] == a + b;
    ValueOfConcat(a, b);
    ValueOfRange(b);
  }

  lemma GetBefore(bits: seq<bool>, after: seq<bool>, pos: nat, n: nat)
    requires pos + n <= |bits|
    ensures Get(bits + after, pos, n) == Get(bits, pos, n)
  {
    assert (bits + after)[pos..pos + n] == bits[pos..pos + n];
  }

  // A number written with a given width.
  datatype Field = Field(width: nat, value: int)

  ghost predicate Fits(f: Field) { 0 <= f.value < Pow2(f.width) }

  // Fields one after the other.
  function Encoded(fields: seq<Field>): (bits: seq<bool>)
    ensures |bits| == Width(fields)
  {
    if fields == [] then []
    else Encoded(fields[..|fields| - 1]) + Put(fields[|fields| - 1].width, fields[|fields| - 1].value)
  }

  function Width(fields: seq<Field>): nat {
    if fields == [] then 0 else Width(fields[..|fields| - 1]) + fields[|fields| - 1].width
  }

  lemma {:induction false} EncodedConcat(a: seq<Field>, b: seq<Field>)
    ensures Encoded(a + b) == Encoded(a) + Encoded(b)
    ensures Width(a + b) == Width(a) + Width(b)
  {
    if b == [] {
      assert a + b == a;
    } else {
      var n := |b| - 1;
      EncodedConcat(a, b[..n]);
      LastOfBoth(a, b);
      Associate(Encoded(a), Encoded(b[..n]), Put(b[n].width, b[n].value));
    }
  }

  lemma LastOfBoth<T>(a: seq<T>, b: seq<T>)
    requires b != []
    ensures (a + b)[..|a + b| - 1] == a + b[..|b| - 1] && (a + b)[|a + b| - 1] == b[|b| - 1]
  {
  }

  lemma Associate<T>(a: seq<T>, b: seq<T>, c: seq<T>)
    ensures a + b + c == a + (b + c)
  {
  }

  lemma EncodedLast(fields: seq<Field>, k: nat)
    requires k < |fields|
    ensures Encoded(fields[..k + 1]) == Encoded(fields[..k]) + Put(fields[k].width, fields[k].value)
    ensures Width(fields[..k + 1]) == Width(fields[..k]) + fields[k].width
  {
    assert fields[..k + 1][..k] == fields[..k];
  }

  lemma EncodedSplit(fields: seq<Field>, a: seq<Field>, b: seq<Field>)
    requires fields == a + b
    ensures Encoded(fields) == Encoded(a) + Encoded(b)
  {
    EncodedConcat(a, b);
  }

  // A field reads back wherever its bits are.
  lemma GetAt(bits: seq<bool>, head: seq<bool>, f: Field, tail: seq<bool>)
    requires Fits(f) && bits == head + Put(f.width, f.value) + tail
    ensures Get(bits, |head|, f.width) == f.value
  {
    GetPut(head, f.width, f.value, tail);
  }

  lemma Regroup<T>(all: seq<T>, a: seq<T>, b: seq<T>, c: seq<T>, d: seq<T>, e: seq<T>)
    requires all == a + ((b + c) + d) + e
    ensures all == (a + b) + c + (d + e)
  {
  }

  lemma Halves<T>(s: seq<T>, k: nat)
    requires k <= |s|
    ensures s == s[..k] + s[k..]
  {
  }

  lemma EncodedAround(fields: seq<Field>, k: nat)
    requires k < |fields|
    ensures Encoded(fields) == (Encoded(fields[..k]) + Put(fields[k].width, fields[k].value)) + Encoded(fields[k + 1..])
  {
    EncodedLast(fields, k);
    Halves(fields, k + 1);
    EncodedSplit(fields, fields[..k + 1], fields[k + 1..]);
  }

  // Each field can be read back at its place.
  lemma FieldAt(bits: seq<bool>, before: seq<bool>, fields: seq<Field>, after: seq<bool>, k: nat)
    requires k < |fields| && Fits(fields[k]) && bits == before + Encoded(fields) + after
    ensures Get(bits, |before| + Width(fields[..k]), fields[k].width) == fields[k].value
  {
    EncodedAround(fields, k);
    FieldIn(bits, before, Encoded(fields[..k]), fields[k], Encoded(fields[k + 1..]), after);
  }

  lemma FieldIn(bits: seq<bool>, before: seq<bool>, head: seq<bool>, f: Field, tail: seq<bool>, after: seq<bool>)
    requires Fits(f) && bits == before + ((head + Put(f.width, f.value)) + tail) + after
    ensures Get(bits, |before| + |head|, f.width) == f.value
  {
    Regroup(bits, before, head, Put(f.width, f.value), tail, after);
    GetAt(bits, before + head, f, tail + after);
  }

  lemma EncodedOne(f: Field)
    ensures Encoded([f]) == Put(f.width, f.value) && Width([f]) == f.width
  {
    assert [f][..0] == [];
  }

  // PutBitContext
  class BitWriter {
    var bits: seq<bool>

    constructor ()
      ensures bits == []
    {
      bits := [];
    }

    method PutBits(n: nat, v: int)
      modifies this
      ensures bits == old(bits) + Put(n, v)
    {
      bits := bits + Put(n, v);
    }
  }

  // GetBitContext
  class BitReader {
    const bits: seq<bool>
    var pos: nat

    constructor (bits: seq<bool>)
      ensures this.bits == bits && pos == 0
    {
      this.bits := bits;
      pos := 0;
    }

    method GetBits(n: nat) returns (v: int)
      modifies this
      ensures v == Get(bits, old(pos), n) && pos == old(pos) + n
    {
      v := Get(bits, pos, n);
      pos := pos + n;
    }

    method ShowBits(n: nat) returns (v: int)
      ensures v == Get(bits, pos, n)
    {
      v := Get(bits, pos, n);
    }

    method SkipBits(n: nat)
      modifies this
      ensures pos == old(pos) + n
    {
      pos := pos + n;
    }
  }

  lemma Appended(before: seq<bool>, a: seq<Field>, b: seq<Field>)
    ensures before + Encoded(a) + Encoded(b) == before + Encoded(a + b)
  {
    EncodedConcat(a, b);
    Associate(before, Encoded(a), Encoded(b));
  }

  lemma NothingYet(before: seq<bool>, f: seq<Field>)
    ensures before == before + Encoded(f[..0])
  {
  }

  // Writes field k of those expected, after the fields before it.
  method PutField(pb: BitWriter, n: nat, v: int, ghost before: seq<bool>, ghost fields: seq<Field>, ghost k: nat)
    requires k < |fields| && fields[k] == Field(n, v) && pb.bits == before + Encoded(fields[..k])
    modifies pb
    ensures pb.bits == before + Encoded(fields[..k + 1])
  {
    pb.PutBits(n, v);
    EncodedLast(fields, k);
    Associate(before, Encoded(fields[..k]), Put(n, v));
  }
}
