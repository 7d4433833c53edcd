// Mantissas of the AC-3 encoder: quantisers, and the two passes that pack small mantissas in
// groups through pointers back to the first of each group.
module Ac3Mantissa {
  import opened Sums
  import opened Bits

  // ---- quantisers ----

  const UNIT: int := 16777216

  function Abs(x: int): int { if x < 0 then -x else x }

  // sym_quant, x being c << e.
  function SymQuant(x: int, levels: int): int {
    if x >= 0 then levels / 2 + (levels * x / UNIT + 1) / 2
    else levels / 2 - (levels * -x / UNIT + 1) / 2
  }

  // How far x is from what code v stands for: (2v - levels + 1) / levels, scaled by levels * UNIT.
  function SymError(x: int, levels: int, v: int): int { Abs(levels * x - (2 * v - levels + 1) * UNIT) }

  // A code in range, the one whose value is nearest to x.
  lemma SymQuantIsNearest(x: int, levels: int, w: int)
    requires -UNIT < x < UNIT && levels in {3, 5, 7, 11, 15} && 0 <= w < levels
    ensures 0 <= SymQuant(x, levels) < levels
    ensures SymError(x, levels, SymQuant(x, levels)) <= UNIT
    ensures SymError(x, levels, SymQuant(x, levels)) <= SymError(x, levels, w)
  {
    SymQuantRange(x, levels);
    var v := SymQuant(x, levels);
    if w != v {
      assert Abs((2 * v - levels + 1) * UNIT - (2 * w - levels + 1) * UNIT) >= 2 * UNIT;
    }
  }

  lemma ScaledFloor(x: int, levels: int)
    requires 0 <= x < UNIT && levels in {3, 5, 7, 11, 15}
    ensures 0 <= levels * x / UNIT < levels
    ensures 0 <= levels * x < 0x8000_0000
  {
    if levels == 3 { } else if levels == 5 { } else if levels == 7 { } else if levels == 11 { } else { }
  }

  lemma SymQuantRange(x: int, levels: int)
    requires -UNIT < x < UNIT && levels in {3, 5, 7, 11, 15}
    ensures 0 <= SymQuant(x, levels) < levels
    ensures SymError(x, levels, SymQuant(x, levels)) <= UNIT
    ensures Abs(levels * x) < 0x8000_0000
  {
    ScaledFloor(Abs(x), levels);
    assert levels * -x == -(levels * x);
  }

  // Two's complement in n bits.
  function Signed(v: int, n: nat): int
    requires n > 0
  {
    if v < Pow2(n - 1) then v else v - Pow2(n)
  }

  // c * 2^(k - 24), rounded down.
  function Shifted(c: int, k: nat): int {
    if k >= 24 then c * Pow2(k - 24) else c / Pow2(24 - k)
  }

  // The argument asym_quant halves and rounds.
  function Scaled(c: int, e: nat, bits: nat): int { Shifted(c, e + bits) }

  function Rounded(c: int, e: nat, bits: nat): int {
    (Scaled(c, e, bits) + 1) / 2
  }

  // asym_quant
  function AsymQuant(c: int, e: nat, bits: nat): int
    requires bits > 0
  {
    var m := Pow2(bits - 1);
    var v := if Rounded(c, e, bits) >= m then m - 1 else Rounded(c, e, bits);
    v % Pow2(bits)
  }

  // How far c * 2^e / 2^24 is from code v's value, scaled by 2^24 and the number of codes.
  function AsymError(c: int, e: nat, bits: nat, v: int): int
    requires bits > 0
  {
    Abs(c * Pow2(e) * Pow2(bits) - 2 * Signed(v, bits) * UNIT)
  }

  lemma UnitIsPower()
    ensures Pow2(24) == UNIT
  {
    assert Pow2(8) == 256;
    Pow2Add(8, 8);
    Pow2Add(8, 16);
  }

  lemma FloorScaled(c: int, d: int, p: int)
    requires d > 0 && p > 0
    ensures c / d * (d * p) <= c * p < c / d * (d * p) + d * p
  {
    var q, r := c / d, c % d;
    assert c == q * d + r;
    Distribute(q * d, r, p);
    Associate(q, d, p);
    Widen(0, r, p);
    Widen(r + 1, d, p);
    Distribute(r, 1, p);
  }

  lemma Distribute(a: int, b: int, c: int)
    ensures (a + b) * c == a * c + b * c
  {
  }

  lemma ScaleBrackets(c: int, e: nat, bits: nat)
    requires bits <= 24
    ensures Scaled(c, e, bits) * UNIT <= c * Pow2(e) * Pow2(bits) < Scaled(c, e, bits) * UNIT + UNIT
  {
    Combine(c, e, bits);
    ShiftBrackets(c, e + bits);
  }

  lemma ShiftBrackets(c: int, k: nat)
    ensures Shifted(c, k) * UNIT <= c * Pow2(k) < Shifted(c, k) * UNIT + UNIT
  {
    if k >= 24 { ShiftLeft(c, k); } else { ShiftRight(c, k); }
  }

  lemma Combine(c: int, e: nat, bits: nat)
    ensures c * Pow2(e) * Pow2(bits) == c * Pow2(e + bits)
  {
    Pow2Add(e, bits);
    Associate(c, Pow2(e), Pow2(bits));
  }

  lemma ShiftLeft(c: int, k: nat)
    requires k >= 24
    ensures c * Pow2(k - 24) * UNIT == c * Pow2(k)
  {
    UnitIsPower();
    Pow2Add(k - 24, 24);
    Associate(c, Pow2(k - 24), UNIT);
  }

  lemma ShiftRight(c: int, k: nat)
    requires k < 24
    ensures c / Pow2(24 - k) * UNIT <= c * Pow2(k) < c / Pow2(24 - k) * UNIT + UNIT
  {
    UnitIsPower();
    Pow2Add(24 - k, k);
    FloorScaled(c, Pow2(24 - k), Pow2(k));
  }

  lemma Associate(a: int, b: int, c: int)
    ensures a * b * c == a * (b * c)
  {
  }

  lemma BelowScaled(x: int, s: int, p: int)
    requires -UNIT < x < UNIT && p > 0 && s * UNIT <= x * p < s * UNIT + UNIT
    ensures 0 - p <= s <= p
  {
    Widen(x, UNIT, p);
    Widen(0 - UNIT, x, p);
  }

  lemma Widen(a: int, b: int, p: int)
    requires a <= b && p >= 0
    ensures a * p <= b * p
  {
  }

  lemma RoundedRange(c: int, e: nat, bits: nat)
    requires 1 <= bits <= 24 && -UNIT < c * Pow2(e) < UNIT
    ensures 0 - Pow2(bits - 1) <= Rounded(c, e, bits) <= Pow2(bits - 1)
  {
    ScaleBrackets(c, e, bits);
    BelowScaled(c * Pow2(e), Scaled(c, e, bits), Pow2(bits));
  }

  lemma WrappedIsSigned(v: int, bits: nat)
    requires bits >= 1 && 0 - Pow2(bits - 1) <= v < Pow2(bits - 1)
    ensures 0 <= v % Pow2(bits) < Pow2(bits) && Signed(v % Pow2(bits), bits) == v
  {
    var p := Pow2(bits);
    assert p == 2 * Pow2(bits - 1);
    if v >= 0 { DivUnique(v, p, 0, v); } else { DivUnique(v, p, -1, v + p); }
  }

  // The assert of asym_quant holds, and no code is nearer than the one chosen.
  lemma AsymQuantIsNearest(c: int, e: nat, bits: nat, w: int)
    requires 1 <= bits <= 24 && -UNIT < c * Pow2(e) < UNIT && 0 <= w < Pow2(bits)
    ensures Rounded(c, e, bits) >= 0 - Pow2(bits - 1)
    ensures 0 <= AsymQuant(c, e, bits) < Pow2(bits)
    ensures AsymError(c, e, bits, AsymQuant(c, e, bits)) <= AsymError(c, e, bits, w)
    ensures AsymError(c, e, bits, AsymQuant(c, e, bits)) <= 2 * UNIT
  {
    RoundedRange(c, e, bits);
    ScaleBrackets(c, e, bits);
    var m, y := Pow2(bits - 1), c * Pow2(e) * Pow2(bits);
    var r := Rounded(c, e, bits);
    var v := if r >= m then m - 1 else r;
    WrappedIsSigned(v, bits);
    var z := Signed(w, bits);
    assert 0 - m <= z < m;
    assert r * 2 * UNIT - UNIT <= y <= r * 2 * UNIT + UNIT;
    if z > v { assert z * UNIT >= (v + 1) * UNIT; }
    if z < v { assert z * UNIT <= (v - 1) * UNIT; }
    if v < r {
      NotAboveUnit(c, e, bits);
    }
  }

  lemma NotAboveUnit(c: int, e: nat, bits: nat)
    requires bits >= 1 && c * Pow2(e) < UNIT
    ensures c * Pow2(e) * Pow2(bits) <= 2 * Pow2(bits - 1) * UNIT
  {
    var x := c * Pow2(e);
    assert x * Pow2(bits) <= UNIT * Pow2(bits);
  }

  // ---- groups ----

  // The three kinds of mantissa that share a code word, by bap 1, 2 and 4.
  datatype Class = Three | Five | Eleven

  function Grouped(b: int): bool { b == 1 || b == 2 || b == 4 }

  function ClassOf(b: int): Class { if b == 1 then Three else if b == 2 then Five else Eleven }

  function Size(g: Class): int { if g == Eleven then 2 else 3 }

  function Levels(g: Class): int { match g case Three => 3 case Five => 5 case Eleven => 11 }

  // What the mantissa of a given rank is multiplied by.
  function Weight(g: Class, rank: int): int {
    match g
    case Three => if rank <= 0 then 9 else if rank == 1 then 3 else 1
    case Five => if rank <= 0 then 25 else if rank == 1 then 5 else 1
    case Eleven => if rank <= 0 then 11 else 1
  }

  function Codes(g: Class): int { match g case Three => 27 case Five => 125 case Eleven => 121 }

  // Section 7.3.5 of ATSC A/52: the mantissa of a given rank in a group code.
  function Digit(g: Class, code: int, rank: int): int {
    match g
    case Three => if rank <= 0 then code / 9 else if rank == 1 then code % 9 / 3 else code % 9 % 3
    case Five => if rank <= 0 then code / 25 else if rank == 1 then code % 25 / 5 else code % 5
    case Eleven => if rank <= 0 then code / 11 else code % 11
  }

  // What qmant holds at a bin: a mantissa, the code of the group that begins there, or a mark
  // that the mantissa has gone into an earlier code.
  datatype Cell = Alone(value: int) | Code(kind: Class, members: seq<int>) | Merged

  // The word for a merged mantissa: no code has this value.
  const SENTINEL: int := 128

  function Number(c: Cell): int {
    match c
    case Alone(v) => v
    case Code(g, m) => Part(g, m, 0) + Part(g, m, 1) + Part(g, m, 2)
    case Merged => SENTINEL
  }

  function Part(g: Class, m: seq<int>, rank: nat): int {
    if rank < |m| then Weight(g, rank) * m[rank] else 0
  }

  ghost predicate GroupOk(g: Class, m: seq<int>) {
    1 <= |m| <= Size(g) && forall r :: 0 <= r < |m| ==> 0 <= m[r] < Levels(g)
  }

  // Adding a mantissa to a group is adding its weighted value to the code.
  lemma AddMantissa(g: Class, m: seq<int>, v: int)
    requires |m| < 3
    ensures Number(Code(g, m + [v])) == Number(Code(g, m)) + Weight(g, |m|) * v
  {
    var w := m + [v];
    assert forall r: nat :: r < |m| ==> Part(g, w, r) == Part(g, m, r);
  }

  // The mantissa of a rank, zero if the group has none there yet.
  function Member(m: seq<int>, rank: nat): int { if rank < |m| then m[rank] else 0 }

  lemma CodeOf(g: Class, m: seq<int>)
    requires GroupOk(g, m)
    ensures Number(Code(g, m))
            == Weight(g, 0) * Member(m, 0) + Weight(g, 1) * Member(m, 1) + (if g == Eleven then 0 else Member(m, 2))
  {
  }

  // A code is never the sentinel, fits its word, and gives back each mantissa, also when the
  // group is not full.
  lemma GroupNumber(g: Class, m: seq<int>, rank: nat)
    requires GroupOk(g, m) && rank < |m|
    ensures 0 <= Number(Code(g, m)) < Codes(g) < SENTINEL
    ensures Digit(g, Number(Code(g, m)), rank) == m[rank]
  {
    CodeOf(g, m);
    match g
    case Three => Base3(Member(m, 0), Member(m, 1), Member(m, 2));
    case Five => Base5(Member(m, 0), Member(m, 1), Member(m, 2));
    case Eleven => Base11(Member(m, 0), Member(m, 1));
  }

  lemma Base11(a: int, b: int)
    requires 0 <= a < 11 && 0 <= b < 11
    ensures var code := 11 * a + b; code / 11 == a && code % 11 == b
  {
  }

  lemma Base3(a: int, b: int, c: int)
    requires 0 <= a < 3 && 0 <= b < 3 && 0 <= c < 3
    ensures var code := 9 * a + 3 * b + c; code / 9 == a && code % 9 / 3 == b && code % 9 % 3 == c
  {
  }

  lemma Base5(a: int, b: int, c: int)
    requires 0 <= a < 5 && 0 <= b < 5 && 0 <= c < 5
    ensures var code := 25 * a + 5 * b + c; code / 25 == a && code % 25 / 5 == b && code % 5 == c
  {
  }

  // Mantissas so far in a class's group, and where the group's code is.
  datatype Slot = Slot(count: nat, at: int)
  datatype Slots = Slots(three: Slot, five: Slot, eleven: Slot)

  const EMPTY: Slots := Slots(Slot(0, 0), Slot(0, 0), Slot(0, 0))

  function Pick(s: Slots, g: Class): Slot {
    match g case Three => s.three case Five => s.five case Eleven => s.eleven
  }

  function Change(s: Slots, g: Class, slot: Slot): (t: Slots)
    ensures Pick(t, g) == slot && forall h :: h != g ==> Pick(t, h) == Pick(s, h)
  {
    match g
    case Three => s.(three := slot)
    case Five => s.(five := slot)
    case Eleven => s.(eleven := slot)
  }

  // The slot after one more mantissa, whose own place is given.
  function Counted(slot: Slot, g: Class, place: int): Slot {
    Slot(if slot.count + 1 >= Size(g) then 0 else slot.count + 1, if slot.count == 0 then place else slot.at)
  }

  function Advance(s: Slots, b: int, place: int): Slots {
    if Grouped(b) then Change(s, ClassOf(b), Counted(Pick(s, ClassOf(b)), ClassOf(b), place)) else s
  }

  // The open groups before bin k of a block; bins are numbered through all its channels.
  function Before(b: seq<int>, k: nat): Slots
    requires k <= |b|
  {
    if k == 0 then EMPTY else Advance(Before(b, k - 1), b[k - 1], k - 1)
  }

  function Rank(b: seq<int>, k: nat): nat
    requires k < |b|
  {
    Pick(Before(b, k), ClassOf(b[k])).count
  }

  // The bin that holds the code of bin k's group.
  function Lead(b: seq<int>, k: nat): int
    requires k < |b|
  {
    if Rank(b, k) == 0 then k else Pick(Before(b, k), ClassOf(b[k])).at
  }

  // An open group of class g began at a bin of that class.
  ghost predicate OpenAt(b: seq<int>, k: nat, g: Class)
    requires k <= |b|
  {
    var slot := Pick(Before(b, k), g);
    && slot.count < Size(g)
    && (slot.count > 0 ==> 0 <= slot.at < k && Grouped(b[slot.at]) && ClassOf(b[slot.at]) == g && Rank(b, slot.at) == 0)
  }

  lemma {:induction false} OpensAt(b: seq<int>, k: nat, g: Class)
    requires k <= |b|
    ensures OpenAt(b, k, g)
  {
    if k > 0 {
      OpensAt(b, k - 1, g);
    }
  }

  // ---- the two passes ----

  function WordWidth(b: int): nat
  {
    match b
    case 0 => 0
    case 1 => 5
    case 2 => 7
    case 3 => 3
    case 4 => 7
    case 14 => 14
    case 15 => 16
    case _ => if b > 0 then b - 1 else 0
  }

  // Values a mantissa of bap b can have.
  function Values(b: int): int {
    match b
    case 0 => 1
    case 1 => 3
    case 2 => 5
    case 3 => 7
    case 4 => 11
    case 5 => 15
    case _ => Pow2(WordWidth(b))
  }

  ghost predicate InRange(b: seq<int>, v: seq<int>) {
    |v| == |b| && forall k :: 0 <= k < |b| ==> 0 <= b[k] <= 15 && 0 <= v[k] < Values(b[k])
  }

  // Bin k's mantissa is where the decoder will look for it.
  ghost predicate Holds(b: seq<int>, v: seq<int>, cells: seq<Cell>, k: nat)
    requires k < |b| && k < |v| && k < |cells|
  {
    if !Grouped(b[k]) then cells[k] == Alone(v[k])
    else
      && 0 <= Lead(b, k) < |cells| && IsMember(cells[Lead(b, k)], ClassOf(b[k]), Rank(b, k), v[k])
      && (Rank(b, k) > 0 ==> cells[k] == Merged)
  }

  ghost predicate IsMember(c: Cell, g: Class, rank: nat, v: int) {
    c.Code? && c.kind == g && GroupOk(g, c.members) && rank < |c.members| && c.members[rank] == v
  }

  // The open group of class g, if any, holds as many mantissas as were counted.
  ghost predicate OpenIn(cells: seq<Cell>, slot: Slot, g: Class) {
    && slot.count < Size(g)
    && (slot.count > 0 ==>
        && 0 <= slot.at < |cells| && cells[slot.at].Code? && cells[slot.at].kind == g
        && |cells[slot.at].members| == slot.count && GroupOk(g, cells[slot.at].members))
  }

  ghost predicate OpenIsPartial(b: seq<int>, cells: seq<Cell>, g: Class)
    requires |cells| <= |b|
  {
    OpenIn(cells, Pick(Before(b, |cells|), g), g)
  }

  // The first pass has filled these cells.
  ghost predicate Packed(b: seq<int>, v: seq<int>, cells: seq<Cell>) {
    && |cells| <= |b| == |v|
    && (forall k :: 0 <= k < |cells| ==> Holds(b, v, cells, k))
    && OpenIsPartial(b, cells, Three) && OpenIsPartial(b, cells, Five) && OpenIsPartial(b, cells, Eleven)
  }

  // What the first pass does with the next mantissa v, of bap b, after the open groups s.
  function Stored(cells: seq<Cell>, s: Slots, b: int, v: int): (r: seq<Cell>)
    ensures |r| == |cells| + 1
  {
    if !Grouped(b) then cells + [Alone(v)]
    else
      var slot := Pick(s, ClassOf(b));
      if slot.count == 0 then cells + [Code(ClassOf(b), [v])]
      else if 0 <= slot.at < |cells| && cells[slot.at].Code? then
        cells[slot.at := Code(ClassOf(b), cells[slot.at].members + [v])] + [Merged]
      else cells + [Merged]
  }

  lemma HoldsStill(b: seq<int>, v: seq<int>, cells: seq<Cell>, k: nat)
    requires Packed(b, v, cells) && k < |cells| < |b| && InRange(b, v)
    ensures Holds(b, v, Stored(cells, Before(b, |cells|), b[|cells|], v[|cells|]), k)
  {
    assert Holds(b, v, cells, k);
    assert OpenIsPartial(b, cells, ClassOf(b[|cells|]));
  }

  lemma NewHolds(b: seq<int>, v: seq<int>, cells: seq<Cell>)
    requires Packed(b, v, cells) && |cells| < |b| && InRange(b, v)
    ensures Holds(b, v, Stored(cells, Before(b, |cells|), b[|cells|], v[|cells|]), |cells|)
  {
    assert OpenIsPartial(b, cells, ClassOf(b[|cells|]));
  }

  lemma OpenStays(cells: seq<Cell>, s: Slots, b: int, v: int, g: Class)
    requires OpenIn(cells, Pick(s, g), g) && OpenIn(cells, Pick(s, ClassOf(b)), ClassOf(b))
    requires Grouped(b) ==> 0 <= v < Levels(ClassOf(b))
    ensures OpenIn(Stored(cells, s, b, v), Pick(Advance(s, b, |cells|), g), g)
  {
    if Grouped(b) && ClassOf(b) == g {
      assert Pick(Advance(s, b, |cells|), g) == Counted(Pick(s, g), g, |cells|);
    } else {
      assert Pick(Advance(s, b, |cells|), g) == Pick(s, g);
    }
  }

  lemma PackHolds(b: seq<int>, v: seq<int>, cells: seq<Cell>, p: seq<Cell>)
    requires Packed(b, v, cells) && |cells| < |b| && InRange(b, v)
    requires p == Stored(cells, Before(b, |cells|), b[|cells|], v[|cells|])
    ensures forall k :: 0 <= k < |p| ==> Holds(b, v, p, k)
  {
    forall k | 0 <= k < |p|
      ensures Holds(b, v, p, k)
    {
      if k < |cells| { HoldsStill(b, v, cells, k); } else { NewHolds(b, v, cells); }
    }
  }

  lemma PackOpen(b: seq<int>, v: seq<int>, cells: seq<Cell>, p: seq<Cell>, g: Class)
    requires Packed(b, v, cells) && |cells| < |b| && InRange(b, v)
    requires p == Stored(cells, Before(b, |cells|), b[|cells|], v[|cells|])
    ensures OpenIsPartial(b, p, g)
  {
    var n, s := |cells|, Before(b, |cells|);
    assert Before(b, n + 1) == Advance(s, b[n], n);
    assert OpenIsPartial(b, cells, ClassOf(b[n])) && OpenIsPartial(b, cells, g);
    OpenStays(cells, s, b[n], v[n], g);
  }

  lemma PackOne(b: seq<int>, v: seq<int>, cells: seq<Cell>)
    requires Packed(b, v, cells) && |cells| < |b| && InRange(b, v)
    ensures Packed(b, v, Stored(cells, Before(b, |cells|), b[|cells|], v[|cells|]))
  {
    var p := Stored(cells, Before(b, |cells|), b[|cells|], v[|cells|]);
    PackHolds(b, v, cells, p);
    PackOpen(b, v, cells, p, Three);
    PackOpen(b, v, cells, p, Five);
    PackOpen(b, v, cells, p, Eleven);
  }

  // qmant holds the numbers of the cells.
  ghost predicate Numbers(q: seq<int>, cells: seq<Cell>) {
    |q| == |cells| && forall k :: 0 <= k < |cells| ==> q[k] == Number(cells[k])
  }

  // The second pass, up to bin n.
  function Emitted(b: seq<int>, q: seq<int>, n: nat): seq<bool>
    requires n <= |b| == |q|
  {
    if n == 0 then [] else Emitted(b, q, n - 1) + Word(b[n - 1], q[n - 1])
  }

  function Word(b: int, q: int): seq<bool> {
    if b == 0 || (Grouped(b) && q == SENTINEL) then [] else Put(WordWidth(b), q)
  }

  // compute_mantissa_size, up to bin n.
  function SizeTo(b: seq<int>, n: nat): nat
    requires n <= |b|
  {
    if n == 0 then 0
    else SizeTo(b, n - 1) + if Grouped(b[n - 1]) && Rank(b, n - 1) > 0 then 0 else WordWidth(b[n - 1])
  }

  // The first pass is done with the whole block.
  ghost predicate Finished(b: seq<int>, v: seq<int>, cells: seq<Cell>, q: seq<int>) {
    Packed(b, v, cells) && InRange(b, v) && |cells| == |b| && Numbers(q, cells)
  }

  // Which mantissas get a word, and what is in it.
  lemma WordAt(b: seq<int>, v: seq<int>, cells: seq<Cell>, q: seq<int>, k: nat)
    requires Finished(b, v, cells, q) && k < |b|
    ensures if b[k] == 0 || (Grouped(b[k]) && Rank(b, k) > 0) then Word(b[k], q[k]) == []
            else Word(b[k], q[k]) == Put(WordWidth(b[k]), q[k]) && 0 <= q[k] < Pow2(WordWidth(b[k]))
  {
    assert Holds(b, v, cells, k);
    if Grouped(b[k]) {
      if Rank(b, k) == 0 {
        GroupNumber(ClassOf(b[k]), cells[k].members, 0);
        assert Pow2(5) == 32 && Pow2(7) == 128;
      }
    } else {
      assert Pow2(3) == 8 && Pow2(4) == 16;
    }
  }

  // The second pass writes just as many bits as were predicted.
  lemma {:induction false} EmitsPredictedSize(b: seq<int>, v: seq<int>, cells: seq<Cell>, q: seq<int>, n: nat)
    requires Finished(b, v, cells, q) && n <= |b|
    ensures |Emitted(b, q, n)| == SizeTo(b, n)
  {
    if n > 0 {
      EmitsPredictedSize(b, v, cells, q, n - 1);
      WordAt(b, v, cells, q, n - 1);
    }
  }

  // ---- the decoder ----

  // Where it reads, and the group codes in hand.
  datatype Reader = Reader(pos: nat, codes: Slots)

  function Next(bits: seq<bool>, r: Reader, b: int): Reader {
    if !Grouped(b) then r.(pos := r.pos + WordWidth(b))
    else
      var g := ClassOf(b);
      var slot := Pick(r.codes, g);
      if slot.count == 0 then
        Reader(r.pos + WordWidth(b), Change(r.codes, g, Counted(slot, g, Get(bits, r.pos, WordWidth(b)))))
      else
        Reader(r.pos, Change(r.codes, g, Counted(slot, g, 0)))
  }

  function Mantissa(bits: seq<bool>, r: Reader, b: int): int {
    if b == 0 then 0
    else if !Grouped(b) then Get(bits, r.pos, WordWidth(b))
    else
      var slot := Pick(r.codes, ClassOf(b));
      Digit(ClassOf(b), if slot.count == 0 then Get(bits, r.pos, WordWidth(b)) else slot.at, slot.count)
  }

  function ReaderAt(bits: seq<bool>, pos: nat, b: seq<int>, n: nat): Reader
    requires n <= |b|
  {
    if n == 0 then Reader(pos, EMPTY) else Next(bits, ReaderAt(bits, pos, b, n - 1), b[n - 1])
  }

  function Mantissas(bits: seq<bool>, pos: nat, b: seq<int>, n: nat): (v: seq<int>)
    requires n <= |b|
    ensures |v| == n
  {
    if n == 0 then [] else Mantissas(bits, pos, b, n - 1) + [Mantissa(bits, ReaderAt(bits, pos, b, n - 1), b[n - 1])]
  }

  // The decoder holds the codes of the groups open in the encoder.
  ghost predicate Synchronised(r: Reader, pos: nat, b: seq<int>, q: seq<int>, n: nat)
    requires n <= |b| == |q|
  {
    && r.pos == pos + |Emitted(b, q, n)|
    && forall g :: SameGroup(Pick(r.codes, g), Pick(Before(b, n), g), q)
  }

  ghost predicate SameGroup(mine: Slot, theirs: Slot, q: seq<int>) {
    mine.count == theirs.count && (theirs.count > 0 ==> 0 <= theirs.at < |q| && mine.at == q[theirs.at])
  }

  lemma ReadsWord(bits: seq<bool>, before: seq<bool>, after: seq<bool>, b: int, q: int)
    requires bits == before + Word(b, q) + after && Word(b, q) == Put(WordWidth(b), q) && 0 <= q < Pow2(WordWidth(b))
    ensures Get(bits, |before|, WordWidth(b)) == q
  {
    GetPut(before, WordWidth(b), q, after);
  }

  lemma NextSynchronised(bits: seq<bool>, pos: nat, b: seq<int>, q: seq<int>, n: nat, r: Reader)
    requires n < |b| == |q| && Synchronised(r, pos, b, q, n)
    requires if b[n] == 0 || (Grouped(b[n]) && Rank(b, n) > 0) then Word(b[n], q[n]) == []
             else |Word(b[n], q[n])| == WordWidth(b[n]) && Get(bits, r.pos, WordWidth(b[n])) == q[n]
    ensures Synchronised(Next(bits, r, b[n]), pos, b, q, n + 1)
  {
    var g := ClassOf(b[n]);
    assert SameGroup(Pick(r.codes, g), Pick(Before(b, n), g), q);
    var next := Next(bits, r, b[n]);
    forall h
      ensures SameGroup(Pick(next.codes, h), Pick(Before(b, n + 1), h), q)
    {
      assert SameGroup(Pick(r.codes, h), Pick(Before(b, n), h), q);
    }
  }

  lemma MantissaIs(bits: seq<bool>, b: seq<int>, v: seq<int>, cells: seq<Cell>, q: seq<int>, n: nat, r: Reader)
    requires Finished(b, v, cells, q) && n < |b|
    requires SameGroup(Pick(r.codes, ClassOf(b[n])), Pick(Before(b, n), ClassOf(b[n])), q)
    requires b[n] == 0 || (Grouped(b[n]) && Rank(b, n) > 0) || Get(bits, r.pos, WordWidth(b[n])) == q[n]
    ensures Mantissa(bits, r, b[n]) == v[n]
  {
    assert Holds(b, v, cells, n);
    if Grouped(b[n]) {
      GroupNumber(ClassOf(b[n]), cells[Lead(b, n)].members, Rank(b, n));
    }
  }

  lemma ReadOne(bits: seq<bool>, before: seq<bool>, after: seq<bool>, b: seq<int>, v: seq<int>, cells: seq<Cell>,
                q: seq<int>, n: nat, r: Reader)
    requires Finished(b, v, cells, q) && n < |b|
    requires bits == before + Emitted(b, q, n) + Word(b[n], q[n]) + after && Synchronised(r, |before|, b, q, n)
    ensures Mantissa(bits, r, b[n]) == v[n] && Synchronised(Next(bits, r, b[n]), |before|, b, q, n + 1)
  {
    WordAt(b, v, cells, q, n);
    if b[n] != 0 && !(Grouped(b[n]) && Rank(b, n) > 0) {
      ReadsWord(bits, before + Emitted(b, q, n), after, b[n], q[n]);
    }
    MantissaIs(bits, b, v, cells, q, n, r);
    NextSynchronised(bits, |before|, b, q, n, r);
  }

  // Ungrouping gives back every mantissa of the block, whatever surrounds it in the stream.
  lemma {:induction false} MantissasRoundTrip(bits: seq<bool>, before: seq<bool>, after: seq<bool>, b: seq<int>,
                                              v: seq<int>, cells: seq<Cell>, q: seq<int>, n: nat)
    requires Finished(b, v, cells, q) && n <= |b| && bits == before + Emitted(b, q, n) + after
    ensures Mantissas(bits, |before|, b, n) == v[..n]
    ensures Synchronised(ReaderAt(bits, |before|, b, n), |before|, b, q, n)
    decreases n
  {
    if n > 0 {
      var word := Word(b[n - 1], q[n - 1]);
      Regroup(before, Emitted(b, q, n - 1), word, after);
      MantissasRoundTrip(bits, before, word + after, b, v, cells, q, n - 1);
      ReadOne(bits, before, after, b, v, cells, q, n - 1, ReaderAt(bits, |before|, b, n - 1));
      TakeOneMore(v, n);
    }
  }

  lemma TakeOneMore<T>(s: seq<T>, n: nat)
    requires 0 < n <= |s|
    ensures s[..n] == s[..n - 1] + [s[n - 1]]
  {
  }

  lemma Regroup<T>(a: seq<T>, b: seq<T>, c: seq<T>, d: seq<T>)
    ensures a + (b + c) + d == a + b + (c + d) == a + b + c + d
  {
  }

  // ---- the encoder's passes over the channels of a block ----

  // The mantissa of a coefficient c with exponent e, for a given bap.
  function Quantised(c: int, e: nat, b: int): int {
    match b
    case 0 => 0
    case 1 => SymQuant(c * Pow2(e), 3)
    case 2 => SymQuant(c * Pow2(e), 5)
    case 3 => SymQuant(c * Pow2(e), 7)
    case 4 => SymQuant(c * Pow2(e), 11)
    case 5 => SymQuant(c * Pow2(e), 15)
    case _ => if WordWidth(b) > 0 then AsymQuant(c, e, WordWidth(b)) else 0
  }

  lemma QuantisedInRange(c: int, e: nat, b: int)
    requires 0 <= b <= 15 && -UNIT < c * Pow2(e) < UNIT
    ensures 0 <= Quantised(c, e, b) < Values(b)
  {
    if 1 <= b <= 5 {
      SymQuantRange(c * Pow2(e), Values(b));
    } else if b > 5 {
      AsymQuantIsNearest(c, e, WordWidth(b), 0);
    }
  }

  // Section 7.3.3 of ATSC A/52: code v stands for Numerator / Values.
  function Numerator(b: int, v: int): int {
    if b == 0 then 0
    else if b <= 5 then 2 * v - Values(b) + 1
    else if WordWidth(b) > 0 then 2 * Signed(v, WordWidth(b)) else 0
  }

  // How far x, in units of 2^24, is from what code v stands for, scaled by Values * UNIT.
  function Off(x: int, b: int, v: int): int { Abs(x * Values(b) - Numerator(b, v) * UNIT) }

  // How far it may be: half of the distance between two codes, or all of it for the highest code
  // of those that are not symmetric.
  function Allowed(b: int): int { if b <= 5 then UNIT else 2 * UNIT }

  // What is written for a coefficient is the nearest of all codes for its bap, and near it.
  lemma QuantisedIsNearest(c: int, e: nat, b: int, w: int)
    requires 1 <= b <= 15 && -UNIT < c * Pow2(e) < UNIT && 0 <= w < Values(b)
    ensures Off(c * Pow2(e), b, Quantised(c, e, b)) <= Off(c * Pow2(e), b, w)
    ensures Off(c * Pow2(e), b, Quantised(c, e, b)) <= Allowed(b)
  {
    if b <= 5 {
      SymQuantIsNearest(c * Pow2(e), Values(b), w);
      SymIsOff(c * Pow2(e), b, w);
      SymIsOff(c * Pow2(e), b, Quantised(c, e, b));
    } else {
      AsymQuantIsNearest(c, e, WordWidth(b), w);
    }
  }

  lemma SymIsOff(x: int, b: int, v: int)
    requires 1 <= b <= 5
    ensures Off(x, b, v) == SymError(x, Values(b), v)
  {
  }

  // A word holds the members of a group, and would not hold those of one with two more values each;
  // a higher bap has more values.
  lemma ValuesFillWords(b: int)
    requires 1 <= b <= 15
    ensures var n, w := if Grouped(b) then Size(ClassOf(b)) else 1, Pow2(WordWidth(b));
      Raised(Values(b), n) <= w < Raised(Values(b) + 2, n)
    ensures b < 15 ==> Values(b) < Values(b + 1)
    ensures Grouped(b) ==> Values(b) == Levels(ClassOf(b)) && Raised(Values(b), Size(ClassOf(b))) == Codes(ClassOf(b))
  {
    assert Pow2(5) == 32 && Pow2(7) == 128;
    assert Pow2(14) == 2 * Pow2(13) && Pow2(13) == 2 * Pow2(12);
    if 5 < b < 13 { assert Pow2(b) == 2 * Pow2(b - 1); }
    if b == 14 { assert Pow2(15) == 2 * Pow2(14); }
  }

  function Raised(x: int, n: nat): int { if n == 0 then 1 else x * Raised(x, n - 1) }

  // The bins of all channels, one channel after the other.
  function Flat(rows: seq<seq<int>>): seq<int> {
    if rows == [] then [] else Flat(rows[..|rows| - 1]) + rows[|rows| - 1]
  }

  // Number of bins in the channels before ch.
  function Start(rows: seq<seq<int>>, ch: nat): nat
    requires ch <= |rows|
  {
    if ch == 0 then 0 else Start(rows, ch - 1) + |rows[ch - 1]|
  }

  // A bin's number in the block.
  function Place(rows: seq<seq<int>>, ch: nat, i: nat): nat
    requires ch < |rows|
  {
    Start(rows, ch) + i
  }

  lemma {:induction false} StartMonotone(rows: seq<seq<int>>, a: nat, b: nat)
    requires a <= b <= |rows|
    ensures Start(rows, a) <= Start(rows, b)
  {
    if a < b {
      StartMonotone(rows, a, b - 1);
    }
  }

  lemma {:induction false} StartOfPrefix(rows: seq<seq<int>>, n: nat, ch: nat)
    requires ch <= n <= |rows|
    ensures Start(rows[..n], ch) == Start(rows, ch)
  {
    if ch > 0 {
      StartOfPrefix(rows, n, ch - 1);
    }
  }

  lemma {:induction false} FlatLength(rows: seq<seq<int>>)
    ensures |Flat(rows)| == Start(rows, |rows|)
  {
    if rows != [] {
      FlatLength(rows[..|rows| - 1]);
      StartOfPrefix(rows, |rows| - 1, |rows| - 1);
    }
  }

  lemma {:induction false} FlatAt(rows: seq<seq<int>>, ch: nat, i: nat)
    requires ch < |rows| && i < |rows[ch]|
    ensures Place(rows, ch, i) < |Flat(rows)| && Flat(rows)[Place(rows, ch, i)] == rows[ch][i]
    decreases |rows|
  {
    var n := |rows| - 1;
    FlatLength(rows[..n]);
    StartOfPrefix(rows, n, n);
    if ch < n {
      FlatAt(rows[..n], ch, i);
      StartOfPrefix(rows, n, ch);
    }
  }

  lemma PlacesDiffer(rows: seq<seq<int>>, a: nat, i: nat, b: nat, j: nat)
    requires a < |rows| && i < |rows[a]| && b < |rows| && j < |rows[b]| && Place(rows, a, i) == Place(rows, b, j)
    ensures a == b && i == j
  {
    if a < b { StartMonotone(rows, a + 1, b); }
    if b < a { StartMonotone(rows, b + 1, a); }
  }

  ghost predicate SameShape(rows: seq<seq<int>>, others: seq<seq<int>>) {
    |rows| == |others| && forall ch :: 0 <= ch < |rows| ==> |rows[ch]| == |others[ch]|
  }

  // What a block is quantised from: coefficients, exponents and baps, channel by channel.
  datatype Input = Input(coefs: seq<seq<int>>, exps: seq<seq<int>>, bap: seq<seq<int>>)

  ghost predicate BinOk(x: Input, ch: nat, i: nat)
    requires SameShape(x.bap, x.coefs) && SameShape(x.bap, x.exps) && ch < |x.bap| && i < |x.bap[ch]|
  {
    0 <= x.bap[ch][i] <= 15 && x.exps[ch][i] >= 0 && -UNIT < x.coefs[ch][i] * Pow2(x.exps[ch][i]) < UNIT
  }

  ghost predicate InputOk(x: Input) {
    && SameShape(x.bap, x.coefs) && SameShape(x.bap, x.exps)
    && forall ch, i {:trigger BinOk(x, ch, i)} :: 0 <= ch < |x.bap| && 0 <= i < |x.bap[ch]| ==> BinOk(x, ch, i)
  }

  // v are the block's mantissas before grouping.
  ghost predicate AreMantissas(x: Input, v: seq<int>)
    requires InputOk(x)
  {
    && |v| == |Flat(x.bap)| == Start(x.bap, |x.bap|)
    && forall ch, i {:trigger BinOk(x, ch, i)} :: 0 <= ch < |x.bap| && 0 <= i < |x.bap[ch]| ==>
         && BinOk(x, ch, i) && 0 <= Place(x.bap, ch, i) < |v|
         && v[Place(x.bap, ch, i)] == Quantised(x.coefs[ch][i], x.exps[ch][i], x.bap[ch][i])
  }

  // A block's mantissas, channel by channel.
  function QuantisedRows(x: Input): (rows: seq<seq<int>>)
    requires InputOk(x)
    ensures SameShape(rows, x.bap)
  {
    seq(|x.bap|, ch requires 0 <= ch < |x.bap| =>
      seq(|x.bap[ch]|, i requires 0 <= i < |x.bap[ch]| =>
        assert BinOk(x, ch, i); Quantised(x.coefs[ch][i], x.exps[ch][i], x.bap[ch][i])))
  }

  lemma {:induction false} SameStarts(rows: seq<seq<int>>, others: seq<seq<int>>, ch: nat)
    requires SameShape(rows, others) && ch <= |rows|
    ensures Start(rows, ch) == Start(others, ch)
  {
    if ch > 0 {
      SameStarts(rows, others, ch - 1);
    }
  }

  lemma RowsAreMantissas(x: Input)
    requires InputOk(x)
    ensures AreMantissas(x, Flat(QuantisedRows(x)))
  {
    var rows := QuantisedRows(x);
    FlatLength(rows);
    FlatLength(x.bap);
    SameStarts(rows, x.bap, |rows|);
    forall ch, i {:trigger BinOk(x, ch, i)} | 0 <= ch < |x.bap| && 0 <= i < |x.bap[ch]|
      ensures BinOk(x, ch, i) && Place(x.bap, ch, i) < |Flat(rows)|
      ensures Flat(rows)[Place(x.bap, ch, i)] == Quantised(x.coefs[ch][i], x.exps[ch][i], x.bap[ch][i])
    {
      assert BinOk(x, ch, i);
      FlatAt(rows, ch, i);
      SameStarts(rows, x.bap, ch);
    }
  }

  // qmant's entries so far are the numbers of the cells.
  ghost predicate Filled(qmant: array2<int>, bap: seq<seq<int>>, cells: seq<Cell>)
    reads qmant
    requires Room(qmant, bap)
  {
    forall ch, i {:trigger qmant[ch, i]} :: 0 <= ch < |bap| && 0 <= i < |bap[ch]| && Place(bap, ch, i) < |cells| ==>
      qmant[ch, i] == Number(cells[Place(bap, ch, i)])
  }

  ghost predicate Room(qmant: array2<int>, bap: seq<seq<int>>) {
    |bap| <= qmant.Length0 && forall ch :: 0 <= ch < |bap| ==> |bap[ch]| <= qmant.Length1
  }

  // A counter of output_audio_block and its pointer into qmant.
  datatype Open = Open(count: nat, ch: nat, i: nat)

  ghost predicate PointsTo(bap: seq<seq<int>>, o: Open, s: Slot) {
    && o.count == s.count
    && (s.count > 0 ==> o.ch < |bap| && o.i < |bap[o.ch]| && Place(bap, o.ch, o.i) == s.at)
  }

  // One grouped mantissa: it starts a code, or goes into the code the pointer leads to.
  method PackMember(qmant: array2<int>, bap: seq<seq<int>>, ch: nat, i: nat, g: Class, o: Open, v: int,
                    ghost cells: seq<Cell>, ghost s: Slots) returns (p: Open)
    requires Room(qmant, bap) && Filled(qmant, bap, cells) && ch < |bap| && i < |bap[ch]|
    requires |cells| == Place(bap, ch, i)
    requires OpenIn(cells, Pick(s, g), g) && PointsTo(bap, o, Pick(s, g)) && Grouped(bap[ch][i])
    requires ClassOf(bap[ch][i]) == g
    modifies qmant
    ensures Filled(qmant, bap, Stored(cells, s, bap[ch][i], v))
    ensures PointsTo(bap, p, Counted(Pick(s, g), g, |cells|))
  {
    Places(bap, ch, i);
    if o.count == 0 {
      AddMantissa(g, [], v);
      assert [] + [v] == [v];
      qmant[ch, i] := Weight(g, 0) * v;
      p := Open(1, ch, i);
    } else {
      Places(bap, o.ch, o.i);
      AddMantissa(g, cells[Pick(s, g).at].members, v);
      qmant[o.ch, o.i] := qmant[o.ch, o.i] + Weight(g, o.count) * v;
      qmant[ch, i] := SENTINEL;
      p := Open(if o.count + 1 == Size(g) then 0 else o.count + 1, o.ch, o.i);
    }
  }

  lemma Places(rows: seq<seq<int>>, ch: nat, i: nat)
    requires ch < |rows| && i < |rows[ch]|
    ensures forall a, j :: 0 <= a < |rows| && 0 <= j < |rows[a]| && Place(rows, a, j) == Place(rows, ch, i) ==>
              a == ch && j == i
  {
    forall a, j | 0 <= a < |rows| && 0 <= j < |rows[a]| && Place(rows, a, j) == Place(rows, ch, i)
      ensures a == ch && j == i
    {
      PlacesDiffer(rows, a, j, ch, i);
    }
  }

  datatype Opens = Opens(three: Open, five: Open, eleven: Open)

  // The first pass stands after these cells.
  ghost predicate Passing(qmant: array2<int>, bap: seq<seq<int>>, v: seq<int>, cells: seq<Cell>, o: Opens)
    reads qmant
    requires Room(qmant, bap)
  {
    var b := Flat(bap);
    && Packed(b, v, cells) && InRange(b, v) && Filled(qmant, bap, cells)
    && PointsTo(bap, o.three, Before(b, |cells|).three)
    && PointsTo(bap, o.five, Before(b, |cells|).five)
    && PointsTo(bap, o.eleven, Before(b, |cells|).eleven)
  }

  // One turn of the first pass's inner loop.
  method StoreMantissa(qmant: array2<int>, bap: seq<seq<int>>, ch: nat, i: nat, v: int, o: Opens,
                       ghost cells: seq<Cell>, ghost s: Slots) returns (p: Opens)
    requires Room(qmant, bap) && ch < |bap| && i < |bap[ch]| && |cells| == Place(bap, ch, i)
    requires Filled(qmant, bap, cells)
    requires OpenIn(cells, s.three, Three) && OpenIn(cells, s.five, Five) && OpenIn(cells, s.eleven, Eleven)
    requires PointsTo(bap, o.three, s.three) && PointsTo(bap, o.five, s.five) && PointsTo(bap, o.eleven, s.eleven)
    modifies qmant
    ensures Filled(qmant, bap, Stored(cells, s, bap[ch][i], v))
    ensures var t := Advance(s, bap[ch][i], |cells|);
            PointsTo(bap, p.three, t.three) && PointsTo(bap, p.five, t.five) && PointsTo(bap, p.eleven, t.eleven)
  {
    p := o;
    match bap[ch][i] {
      case 1 =>
        var q := PackMember(qmant, bap, ch, i, Three, o.three, v, cells, s);
        p := o.(three := q);
      case 2 =>
        var q := PackMember(qmant, bap, ch, i, Five, o.five, v, cells, s);
        p := o.(five := q);
      case 4 =>
        var q := PackMember(qmant, bap, ch, i, Eleven, o.eleven, v, cells, s);
        p := o.(eleven := q);
      case _ =>
        Places(bap, ch, i);
        qmant[ch, i] := v;
    }
  }

  method QuantiseBin(qmant: array2<int>, x: Input, ch: nat, i: nat, o: Opens, ghost v: seq<int>, ghost cells: seq<Cell>)
      returns (p: Opens, ghost more: seq<Cell>)
    requires InputOk(x) && AreMantissas(x, v) && Room(qmant, x.bap) && ch < |x.bap| && i < |x.bap[ch]|
    requires Passing(qmant, x.bap, v, cells, o) && |cells| == Place(x.bap, ch, i)
    modifies qmant
    ensures Passing(qmant, x.bap, v, more, p) && |more| == |cells| + 1
  {
    ghost var b := Flat(x.bap);
    ghost var s := Before(b, |cells|);
    FlatAt(x.bap, ch, i);
    assert BinOk(x, ch, i);
    assert Before(b, |cells| + 1) == Advance(s, x.bap[ch][i], |cells|);
    PackOne(b, v, cells);
    more := Stored(cells, s, x.bap[ch][i], v[|cells|]);
    p := StoreMantissa(qmant, x.bap, ch, i, Quantised(x.coefs[ch][i], x.exps[ch][i], x.bap[ch][i]), o, cells, s);
  }

  lemma MantissasInRange(x: Input, v: seq<int>)
    requires InputOk(x) && AreMantissas(x, v)
    ensures InRange(Flat(x.bap), v)
  {
    forall k | 0 <= k < |v|
      ensures 0 <= Flat(x.bap)[k] <= 15 && 0 <= v[k] < Values(Flat(x.bap)[k])
    {
      var ch, i := Locate(x.bap, |x.bap|, k);
      FlatAt(x.bap, ch, i);
      assert BinOk(x, ch, i);
      QuantisedInRange(x.coefs[ch][i], x.exps[ch][i], x.bap[ch][i]);
    }
  }

  // The channel and bin with a given number.
  lemma {:induction false} Locate(rows: seq<seq<int>>, n: nat, k: nat) returns (ch: nat, i: nat)
    requires n <= |rows| && k < Start(rows, n)
    ensures ch < n && i < |rows[ch]| && Place(rows, ch, i) == k
  {
    if k >= Start(rows, n - 1) {
      ch, i := n - 1, k - Start(rows, n - 1);
    } else {
      ch, i := Locate(rows, n - 1, k);
    }
  }

  // First pass of output_audio_block: v are the block's mantissas.
  method FirstPass(qmant: array2<int>, x: Input, ghost v: seq<int>) returns (ghost cells: seq<Cell>)
    requires InputOk(x) && AreMantissas(x, v) && Room(qmant, x.bap)
    modifies qmant
    ensures Packed(Flat(x.bap), v, cells) && Filled(qmant, x.bap, cells) && |cells| == |Flat(x.bap)|
  {
    var none := Open(0, 0, 0);
    var o := Opens(none, none, none);
    cells := [];
    MantissasInRange(x, v);
    for ch := 0 to |x.bap|
      invariant Passing(qmant, x.bap, v, cells, o) && |cells| == Start(x.bap, ch)
    {
      for i := 0 to |x.bap[ch]|
        invariant Passing(qmant, x.bap, v, cells, o) && |cells| == Place(x.bap, ch, i)
      {
        o, cells := QuantiseBin(qmant, x, ch, i, o, v, cells);
      }
    }
  }

  function NumbersOf(cells: seq<Cell>): (q: seq<int>)
    ensures Numbers(q, cells)
  {
    seq(|cells|, k requires 0 <= k < |cells| => Number(cells[k]))
  }

  // What the second pass has written up to bin i of channel ch.
  function EmittedTo(bap: seq<seq<int>>, cells: seq<Cell>, n: nat): seq<bool>
    requires n <= |cells| == |Flat(bap)|
  {
    Emitted(Flat(bap), NumbersOf(cells), n)
  }

  lemma EmitOne(bap: seq<seq<int>>, cells: seq<Cell>, ch: nat, i: nat)
    requires |cells| == |Flat(bap)| && ch < |bap| && i < |bap[ch]|
    ensures Place(bap, ch, i) < |cells|
    ensures var k := Place(bap, ch, i);
            EmittedTo(bap, cells, k + 1) == EmittedTo(bap, cells, k) + Word(bap[ch][i], Number(cells[k]))
  {
    FlatAt(bap, ch, i);
  }

  method EmitChannel(qmant: array2<int>, bap: seq<seq<int>>, ch: nat, ghost cells: seq<Cell>) returns (bits: seq<bool>)
    requires Room(qmant, bap) && Filled(qmant, bap, cells) && |cells| == |Flat(bap)| && ch < |bap|
    ensures Start(bap, ch) <= Start(bap, ch + 1) <= |cells|
    ensures EmittedTo(bap, cells, Start(bap, ch + 1)) == EmittedTo(bap, cells, Start(bap, ch)) + bits
  {
    bits := [];
    FlatLength(bap);
    StartMonotone(bap, ch + 1, |bap|);
    ghost var before := EmittedTo(bap, cells, Start(bap, ch));
    for i := 0 to |bap[ch]|
      invariant EmittedTo(bap, cells, Place(bap, ch, i)) == before + bits
    {
      EmitOne(bap, cells, ch, i);
      var word := PutMantissa(bap[ch][i], qmant[ch, i]);
      Append(before, bits, word);
      bits := bits + word;
    }
  }

  lemma Append<T>(a: seq<T>, b: seq<T>, c: seq<T>)
    ensures a + b + c == a + (b + c)
  {
  }

  // Second pass: the words, in the order of the bins.
  method SecondPass(qmant: array2<int>, bap: seq<seq<int>>, ghost cells: seq<Cell>) returns (bits: seq<bool>)
    requires Room(qmant, bap) && Filled(qmant, bap, cells) && |cells| == |Flat(bap)|
    ensures bits == EmittedTo(bap, cells, |cells|)
  {
    bits := [];
    FlatLength(bap);
    for ch := 0 to |bap|
      invariant Start(bap, ch) <= |cells| && bits == EmittedTo(bap, cells, Start(bap, ch))
    {
      var more := EmitChannel(qmant, bap, ch, cells);
      bits := bits + more;
    }
  }

  method PutMantissa(b: int, q: int) returns (bits: seq<bool>)
    ensures bits == Word(b, q)
  {
    bits := [];
    match b {
      case 0 =>
      case 1 => if q != SENTINEL { bits := Put(5, q); }
      case 2 => if q != SENTINEL { bits := Put(7, q); }
      case 3 => bits := Put(3, q);
      case 4 => if q != SENTINEL { bits := Put(7, q); }
      case 14 => bits := Put(14, q);
      case 15 => bits := Put(16, q);
      case _ => bits := Put(if b > 0 then b - 1 else 0, q);
    }
  }

  // The mantissa part of output_audio_block. The decoder of section 7.3.5 of ATSC A/52 gets back
  // every quantised value, and the length is the one predicted from the baps.
  method OutputMantissas(x: Input, ghost v: seq<int>) returns (bits: seq<bool>)
    requires InputOk(x) && AreMantissas(x, v) && |x.bap| <= 6 && forall ch :: 0 <= ch < |x.bap| ==> |x.bap[ch]| <= 256
    ensures |bits| == SizeTo(Flat(x.bap), |Flat(x.bap)|)
    ensures forall before, after :: Mantissas(before + bits + after, |before|, Flat(x.bap), |v|) == v
  {
    var qmant := new int[6, 256];
    ghost var cells := FirstPass(qmant, x, v);
    bits := SecondPass(qmant, x.bap, cells);
    ghost var b, q := Flat(x.bap), NumbersOf(cells);
    MantissasInRange(x, v);
    EmitsPredictedSize(b, v, cells, q, |b|);
    forall before, after
      ensures Mantissas(before + bits + after, |before|, b, |v|) == v
    {
      MantissasRoundTrip(before + bits + after, before, after, b, v, cells, q, |b|);
      assert v[..|v|] == v;
    }
  }

  // ---- the predicted size ----

  // Groups and sizes up to a bin do not depend on the bins after it.
  lemma {:induction false} PrefixCounts(b: seq<int>, more: seq<int>, k: nat)
    requires k <= |b|
    ensures Before(b + more, k) == Before(b, k) && SizeTo(b + more, k) == SizeTo(b, k)
  {
    if k > 0 {
      PrefixCounts(b, more, k - 1);
      assert (b + more)[k - 1] == b[k - 1];
    }
  }

  // The three counters of the encoder's context, and compute_mantissa_size that moves them.
  class MantissaCounters {
    var mant1: nat
    var mant2: nat
    var mant4: nat

    ghost predicate Match(s: Slots)
      reads this
    {
      mant1 == s.three.count && mant2 == s.five.count && mant4 == s.eleven.count
    }

    constructor ()
      ensures Match(EMPTY)
    {
      mant1, mant2, mant4 := 0, 0, 0;
    }

    method CountOne(m: int, ghost s: Slots, ghost place: int) returns (bits: nat)
      requires Match(s) && s.three.count < 3 && s.five.count < 3 && s.eleven.count < 2
      modifies this
      ensures Match(Advance(s, m, place))
      ensures bits == if Grouped(m) && Pick(s, ClassOf(m)).count > 0 then 0 else WordWidth(m)
    {
      bits := 0;
      match m {
        case 0 =>
        case 1 =>
          if mant1 == 0 { bits := 5; }
          mant1 := mant1 + 1;
          if mant1 == 3 { mant1 := 0; }
        case 2 =>
          if mant2 == 0 { bits := 7; }
          mant2 := mant2 + 1;
          if mant2 == 3 { mant2 := 0; }
        case 3 => bits := 3;
        case 4 =>
          if mant4 == 0 { bits := 7; }
          mant4 := mant4 + 1;
          if mant4 == 2 { mant4 := 0; }
        case 14 => bits := 14;
        case 15 => bits := 16;
        case _ => if m > 0 { bits := m - 1; }
      }
    }

    // For channel ch, after the channels before it in the same block.
    method ComputeMantissaSize(bap: seq<seq<int>>, ch: nat) returns (bits: nat)
      requires ch < |bap| && Start(bap, ch) <= |Flat(bap)| && Match(Before(Flat(bap), Start(bap, ch)))
      modifies this
      ensures Start(bap, ch + 1) <= |Flat(bap)| && Match(Before(Flat(bap), Start(bap, ch + 1)))
      ensures bits == SizeTo(Flat(bap), Start(bap, ch + 1)) - SizeTo(Flat(bap), Start(bap, ch))
    {
      ghost var b := Flat(bap);
      FlatLength(bap);
      StartMonotone(bap, ch + 1, |bap|);
      bits := 0;
      for i := 0 to |bap[ch]|
        invariant Match(Before(b, Place(bap, ch, i)))
        invariant bits == SizeTo(b, Place(bap, ch, i)) - SizeTo(b, Start(bap, ch))
      {
        ghost var k := Place(bap, ch, i);
        FlatAt(bap, ch, i);
        OpensAt(b, k, Three);
        OpensAt(b, k, Five);
        OpensAt(b, k, Eleven);
        var more := CountOne(bap[ch][i], Before(b, k), k);
        bits := bits + more;
      }
    }
  }
}
