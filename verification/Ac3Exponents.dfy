// Exponents of the AC-3 encoder: how they are shaped so that a differential code can carry
// them, and how they travel.
module Ac3Exponents {
  import opened Sums
  import opened Bits

  datatype Strategy = Reuse | D15 | D25 | D45

  function GroupSize(s: Strategy): int {
    match s
    case D15 => 1
    case D25 => 2
    case _ => 4
  }

  // Codes sent for a channel; each carries three groups.
  function Triples(nbExps: int, s: Strategy): int { (nbExps + GroupSize(s) * 3 - 4) / (3 * GroupSize(s)) }

  // First bin of group i; group 0 is the DC bin alone.
  function First(i: int, s: Strategy): int {
    if i <= 0 then 0 else match s case D15 => i case D25 => 2 * i - 1 case _ => 4 * i - 3
  }

  // The group a bin belongs to.
  function GroupOf(b: int, s: Strategy): int {
    match s case D15 => b case D25 => (b + 1) / 2 case _ => (b + 3) / 4
  }

  // Bins that encode_exp writes: the DC bin and all groups.
  function Coded(nbExps: int, s: Strategy): int { First(3 * Triples(nbExps, s) + 1, s) }

  function Min(a: int, b: int): int { if a < b then a else b }

  function Distance(i: int, j: int): int { if i < j then j - i else i - j }

  lemma BinInGroup(b: nat, i: nat, s: Strategy)
    ensures GroupOf(b, s) == i <==> First(i, s) <= b < First(i + 1, s)
    ensures 0 <= GroupOf(b, s)
  {
    match s
    case D15 =>
    case D25 =>
    case _ =>
  }

  lemma NextGroup(i: nat, s: Strategy)
    requires i >= 1
    ensures First(i + 1, s) == First(i, s) + GroupSize(s)
  {
  }

  lemma BinsOfGroup(i: nat, s: Strategy)
    ensures forall b :: First(i, s) <= b < First(i + 1, s) ==> GroupOf(b, s) == i
  {
    forall b | First(i, s) <= b < First(i + 1, s)
      ensures GroupOf(b, s) == i
    {
      BinInGroup(b, i, s);
    }
  }

  ghost predicate Covers(nbExps: int) {
    Coded(nbExps, D15) >= nbExps && Coded(nbExps, D25) >= nbExps && Coded(nbExps, D45) >= nbExps
  }

  // Every coded coefficient has an exponent, in every strategy, exactly when nbExps is 1 mod 3.
  lemma CoverageIff(nbExps: int)
    requires nbExps >= 1
    ensures Covers(nbExps) <==> nbExps % 3 == 1
  {
    CoversD15(nbExps);
    if nbExps % 3 == 1 {
      CoversD25(nbExps);
      CoversD45(nbExps);
    }
  }

  lemma CoversD15(nbExps: int)
    requires nbExps >= 1
    ensures Coded(nbExps, D15) >= nbExps <==> nbExps % 3 == 1
  {
    assert Triples(nbExps, D15) == (nbExps - 1) / 3;
  }

  lemma CoversD25(nbExps: int)
    requires nbExps >= 1 && nbExps % 3 == 1
    ensures Coded(nbExps, D25) >= nbExps
  {
    var q := nbExps / 3;
    assert nbExps == 3 * q + 1;
    assert Triples(nbExps, D25) == (3 * q + 3) / 6 == (q + 1) / 2;
  }

  lemma CoversD45(nbExps: int)
    requires nbExps >= 1 && nbExps % 3 == 1
    ensures Coded(nbExps, D45) >= nbExps
  {
    var q := nbExps / 3;
    assert nbExps == 3 * q + 1;
    assert Triples(nbExps, D45) == (3 * q + 9) / 12 == (q + 3) / 4;
  }

  lemma CodedFits(nbExps: int, s: Strategy)
    requires 1 <= nbExps <= 253 && s != Reuse
    ensures 0 <= Triples(nbExps, s) && Coded(nbExps, s) <= 256
  {
    match s
    case D15 =>
    case D25 => assert Triples(nbExps, D25) == (nbExps + 2) / 6;
    case D45 => assert Triples(nbExps, D45) == (nbExps + 8) / 12;
  }

  // ---- the envelope ----

  // The cap that m puts on place i from place j: two per step.
  function Reach(m: seq<int>, j: int, i: int): int
    requires 0 <= j < |m|
  {
    m[j] + 2 * Distance(i, j)
  }

  // v is the cap some place lo..hi puts on place i.
  ghost predicate Touches(m: seq<int>, v: int, i: int, lo: int, hi: int) {
    exists j :: 0 <= j < |m| && lo <= j <= hi && v == Reach(m, j, i)
  }

  ghost predicate IsEnvelope(m: seq<int>, e: seq<int>) {
    && |e| == |m|
    && (forall i, j {:trigger Reach(m, j, i)} :: 0 <= i < |m| && 0 <= j < |m| ==> e[i] <= Reach(m, j, i))
    && (forall i {:trigger Touches(m, e[i], i, 0, |m|)} :: 0 <= i < |m| ==> Touches(m, e[i], i, 0, |m|))
  }

  // No neighbours differ by more than two: what the delta code can express.
  ghost predicate Gentle(e: seq<int>) {
    forall i :: 0 <= i < |e| - 1 ==> -2 <= e[i + 1] - e[i] <= 2
  }

  ghost predicate Below(e: seq<int>, m: seq<int>) {
    |e| == |m| && forall i :: 0 <= i < |m| ==> e[i] <= m[i]
  }

  lemma EnvelopeIsGentle(m: seq<int>, e: seq<int>)
    requires IsEnvelope(m, e)
    ensures Gentle(e) && Below(e, m)
  {
    forall i | 0 <= i < |e| - 1
      ensures -2 <= e[i + 1] - e[i] <= 2
    {
      assert Touches(m, e[i], i, 0, |m|) && Touches(m, e[i + 1], i + 1, 0, |m|);
      var j :| 0 <= j < |m| && e[i] == Reach(m, j, i);
      var k :| 0 <= k < |m| && e[i + 1] == Reach(m, k, i + 1);
      assert e[i + 1] <= Reach(m, j, i + 1);
      assert e[i] <= Reach(m, k, i);
    }
    forall i | 0 <= i < |m|
      ensures e[i] <= m[i]
    {
      assert e[i] <= Reach(m, i, i);
    }
  }

  lemma {:induction false} GentleStretch(s: seq<int>, i: int, j: int)
    requires Gentle(s) && 0 <= i < |s| && 0 <= j < |s|
    ensures s[i] <= s[j] + 2 * Distance(i, j)
    decreases Distance(i, j)
  {
    if i < j {
      GentleStretch(s, i + 1, j);
    } else if j < i {
      GentleStretch(s, i - 1, j);
    }
  }

  // It is the greatest: no expressible sequence under the minima rises above it anywhere.
  lemma EnvelopeIsGreatest(m: seq<int>, e: seq<int>, s: seq<int>)
    requires IsEnvelope(m, e) && Gentle(s) && Below(s, m)
    ensures Below(s, e)
  {
    forall i | 0 <= i < |m|
      ensures s[i] <= e[i]
    {
      assert Touches(m, e[i], i, 0, |m|);
      var j :| 0 <= j < |m| && e[i] == Reach(m, j, i);
      GentleStretch(s, i, j);
    }
  }

  // The forward sweep has reached place n.
  ghost predicate Forward(m: seq<int>, f: seq<int>, n: nat)
    requires |f| == |m| && n <= |m|
  {
    && (forall i, j :: 0 <= j <= i < n ==> f[i] <= Reach(m, j, i))
    && (forall i :: 0 <= i < n ==> Touches(m, f[i], i, 0, i))
    && (forall i :: n <= i < |m| ==> f[i] == m[i])
  }

  // The backward sweep has come down to place n.
  ghost predicate Backward(f: seq<int>, e: seq<int>, n: nat)
    requires |f| == |e|
  {
    && (forall i, j :: n <= i <= j < |f| ==> e[i] <= Reach(f, j, i))
    && (forall i :: n <= i < |f| ==> Touches(f, e[i], i, i, |f| - 1))
    && (forall i :: 0 <= i < n && i < |f| ==> e[i] == f[i])
  }

  lemma SweepBound(m: seq<int>, f: seq<int>, e: seq<int>, i: int, j: int)
    requires |f| == |m| == |e| && Forward(m, f, |m|) && Backward(f, e, 0)
    requires 0 <= i < |m| && 0 <= j < |m|
    ensures e[i] <= Reach(m, j, i)
  {
    if j <= i {
      assert e[i] <= Reach(f, i, i);
      assert f[i] <= Reach(m, j, i);
    } else {
      assert e[i] <= Reach(f, j, i);
      assert f[j] <= Reach(m, j, j);
    }
  }

  lemma SweepsMakeEnvelope(m: seq<int>, f: seq<int>, e: seq<int>)
    requires |f| == |m| == |e| && Forward(m, f, |m|) && Backward(f, e, 0)
    ensures IsEnvelope(m, e)
  {
    forall i, j | 0 <= i < |m| && 0 <= j < |m|
      ensures e[i] <= Reach(m, j, i)
    {
      SweepBound(m, f, e, i, j);
    }
    forall i | 0 <= i < |m|
      ensures Touches(m, e[i], i, 0, |m|)
    {
      assert Touches(f, e[i], i, i, |f| - 1);
      var j :| i <= j < |f| && e[i] == Reach(f, j, i);
      assert Touches(m, f[j], j, 0, j);
      var k :| 0 <= k <= j && f[j] == Reach(m, k, j);
      SweepBound(m, f, e, i, k);
      assert e[i] == Reach(m, k, i);
    }
  }

  lemma ForwardStep(m: seq<int>, f: seq<int>, n: nat)
    requires |f| == |m| && 1 <= n < |m| && Forward(m, f, n)
    ensures Forward(m, f[n := Min(f[n], f[n - 1] + 2)], n + 1)
  {
    var g := f[n := Min(f[n], f[n - 1] + 2)];
    assert Touches(m, f[n - 1], n - 1, 0, n - 1);
    var k :| 0 <= k <= n - 1 && f[n - 1] == Reach(m, k, n - 1);
    forall i, j | 0 <= j <= i < n + 1
      ensures g[i] <= Reach(m, j, i)
    {
      if i == n && j < n { assert f[n - 1] <= Reach(m, j, n - 1); }
    }
    forall i | 0 <= i < n + 1
      ensures Touches(m, g[i], i, 0, i)
    {
      if i == n {
        var j := if g[n] == m[n] then n else k;
        assert g[n] == Reach(m, j, n);
      } else {
        assert g[i] == f[i];
      }
    }
  }

  lemma BackwardStep(f: seq<int>, e: seq<int>, n: nat)
    requires |f| == |e| && n < |f| - 1 && Backward(f, e, n + 1)
    ensures Backward(f, e[n := Min(e[n], e[n + 1] + 2)], n)
  {
    var g := e[n := Min(e[n], e[n + 1] + 2)];
    assert Touches(f, e[n + 1], n + 1, n + 1, |f| - 1);
    var k :| n + 1 <= k < |f| && e[n + 1] == Reach(f, k, n + 1);
    forall i, j | n <= i <= j < |f|
      ensures g[i] <= Reach(f, j, i)
    {
      if i == n && j > n { assert e[n + 1] <= Reach(f, j, n + 1); }
    }
    forall i | n <= i < |f|
      ensures Touches(f, g[i], i, i, |f| - 1)
    {
      if i == n {
        var j := if g[n] == f[n] then n else k;
        assert g[n] == Reach(f, j, n);
      } else {
        assert g[i] == e[i];
      }
    }
  }

  lemma SweepStarts(m: seq<int>)
    requires m != []
    ensures Forward(m, m, 1) && Backward(m, m, |m| - 1)
  {
    assert m[0] == Reach(m, 0, 0);
    assert m[|m| - 1] == Reach(m, |m| - 1, |m| - 1);
  }

  method SweepForward(exp1: array<int>)
    requires exp1.Length > 0
    modifies exp1
    ensures Forward(old(exp1[..]), exp1[..], exp1.Length)
  {
    ghost var m := exp1[..];
    SweepStarts(m);
    for i := 1 to exp1.Length
      invariant Forward(m, exp1[..], i)
    {
      ghost var f := exp1[..];
      ForwardStep(m, f, i);
      exp1[i] := Min(exp1[i], exp1[i - 1] + 2);
      assert exp1[..] == f[i := Min(f[i], f[i - 1] + 2)];
    }
  }

  method SweepBackward(exp1: array<int>)
    requires exp1.Length > 0
    modifies exp1
    ensures Backward(old(exp1[..]), exp1[..], 0)
  {
    ghost var f := exp1[..];
    SweepStarts(f);
    for i := exp1.Length - 1 downto 0
      invariant Backward(f, exp1[..], i)
    {
      ghost var e := exp1[..];
      BackwardStep(f, e, i);
      exp1[i] := Min(exp1[i], exp1[i + 1] + 2);
      assert exp1[..] == e[i := Min(e[i], e[i + 1] + 2)];
    }
  }

  // The two sweeps of encode_exp over exp1.
  method Sweep(exp1: array<int>)
    requires exp1.Length > 0
    modifies exp1
    ensures IsEnvelope(old(exp1[..]), exp1[..])
  {
    ghost var m := exp1[..];
    SweepForward(exp1);
    ghost var f := exp1[..];
    SweepBackward(exp1);
    SweepsMakeEnvelope(m, f, exp1[..]);
  }

  // ---- encode_exp ----

  // Every bin has the value of its group.
  ghost predicate Spread(bins: seq<int>, e: seq<int>, s: Strategy) {
    && e != [] && First(|e|, s) <= |bins|
    && forall b :: 0 <= b < First(|e|, s) ==> 0 <= GroupOf(b, s) < |e| && bins[b] == e[GroupOf(b, s)]
  }

  // v is the least exponent among the bins of group i.
  ghost predicate IsGroupMin(exp: seq<int>, v: int, i: int, s: Strategy) {
    && First(i + 1, s) <= |exp|
    && (forall b :: First(i, s) <= b < First(i + 1, s) ==> v <= exp[b])
    && exists b :: First(i, s) <= b < First(i + 1, s) && v == exp[b]
  }

  // What caps each group: its least exponent, and for DC also the largest four-bit value.
  ghost predicate AreCaps(exp: seq<int>, m: seq<int>, s: Strategy) {
    && m != [] && exp != [] && m[0] == Min(exp[0], 15)
    && forall i :: 1 <= i < |m| ==> IsGroupMin(exp, m[i], i, s)
  }

  method GroupMinimum(exp: array<int>, k: int, i: int, s: Strategy) returns (least: int)
    requires 1 <= i && k == First(i, s) && First(i + 1, s) <= exp.Length
    ensures IsGroupMin(exp[..], least, i, s)
  {
    NextGroup(i, s);
    var size := GroupSize(s);
    least := exp[k];
    for j := 1 to size
      invariant forall b :: k <= b < k + j ==> least <= exp[b]
      invariant exists b :: k <= b < k + j && least == exp[b]
    {
      if exp[k + j] < least {
        least := exp[k + j];
      }
    }
  }

  lemma FirstMonotone(i: int, j: int, s: Strategy)
    requires 0 <= i <= j
    ensures 0 <= First(i, s) <= First(j, s)
  {
  }

  method GroupMinima(exp: array<int>, groups: nat, s: Strategy) returns (exp1: array<int>)
    requires First(groups + 1, s) <= exp.Length && exp.Length > 0
    ensures fresh(exp1) && exp1.Length == groups + 1 && AreCaps(exp[..], exp1[..], s)
  {
    exp1 := new int[groups + 1];
    exp1[0] := exp[0];
    var k := 1;
    for i := 1 to groups + 1
      invariant k == First(i, s) && exp1[0] == exp[0]
      invariant forall q :: 1 <= q < i ==> IsGroupMin(exp[..], exp1[q], q, s)
    {
      FirstMonotone(i + 1, groups + 1, s);
      NextGroup(i, s);
      exp1[i] := GroupMinimum(exp, k, i, s);
      k := k + GroupSize(s);
    }
    if exp1[0] > 15 {
      exp1[0] := 15;
    }
  }

  method SpreadGroups(encodedExp: array<int>, exp1: array<int>, s: Strategy)
    requires exp1.Length > 0 && encodedExp != exp1 && First(exp1.Length, s) <= encodedExp.Length
    modifies encodedExp
    ensures Spread(encodedExp[..], exp1[..], s)
    ensures forall b :: First(exp1.Length, s) <= b < encodedExp.Length ==> encodedExp[b] == old(encodedExp[b])
  {
    FirstMonotone(1, exp1.Length, s);
    encodedExp[0] := exp1[0];
    var k := 1;
    BinsOfGroup(0, s);
    for i := 1 to exp1.Length
      invariant k == First(i, s)
      invariant forall b :: 0 <= b < k ==> 0 <= GroupOf(b, s) < i && encodedExp[b] == exp1[GroupOf(b, s)]
      invariant forall b :: k <= b < encodedExp.Length ==> encodedExp[b] == old(encodedExp[b])
    {
      FirstMonotone(i + 1, exp1.Length, s);
      NextGroup(i, s);
      BinsOfGroup(i, s);
      var size := GroupSize(s);
      forall j | 0 <= j < size {
        encodedExp[k + j] := exp1[i];
      }
      k := k + size;
    }
  }

  method GroupCount(nbExps: int, s: Strategy) returns (groups: nat)
    requires 1 <= nbExps <= 253 && s != Reuse
    ensures groups == 3 * Triples(nbExps, s) && groups / 3 == Triples(nbExps, s)
  {
    CodedFits(nbExps, s);
    var size := GroupSize(s);
    groups := (nbExps + size * 3 - 4) / (3 * size) * 3;
  }

  // Shapes groups of exponents: m are their caps, e the values they get.
  method ShapeGroups(encodedExp: array<int>, exp: array<int>, groups: nat, s: Strategy)
      returns (ghost e: seq<int>, ghost m: seq<int>)
    requires encodedExp.Length == exp.Length == 256 && encodedExp != exp && First(groups + 1, s) <= 256
    modifies encodedExp
    ensures AreCaps(exp[..], m, s) && IsEnvelope(m, e)
    ensures |e| == groups + 1 && Spread(encodedExp[..], e, s)
    ensures forall b :: First(groups + 1, s) <= b < 256 ==> encodedExp[b] == old(encodedExp[b])
  {
    var exp1 := GroupMinima(exp, groups, s);
    m := exp1[..];
    Sweep(exp1);
    e := exp1[..];
    SpreadGroups(encodedExp, exp1, s);
  }

  // encode_exp
  method EncodeExp(encodedExp: array<int>, exp: array<int>, nbExps: int, s: Strategy)
      returns (bits: int, ghost e: seq<int>, ghost m: seq<int>)
    requires encodedExp.Length == exp.Length == 256 && encodedExp != exp && 1 <= nbExps <= 253 && s != Reuse
    requires forall b :: 0 <= b < 256 ==> 0 <= exp[b] <= 24
    modifies encodedExp
    ensures bits == 4 + 7 * Triples(nbExps, s)
    ensures AreCaps(exp[..], m, s) && IsEnvelope(m, e)
    ensures |e| == 3 * Triples(nbExps, s) + 1 && Spread(encodedExp[..], e, s)
    ensures Gentle(e) && 0 <= e[0] <= 15
    ensures forall b :: 0 <= b < Coded(nbExps, s) ==> 0 <= encodedExp[b] <= exp[b]
    ensures forall b :: Coded(nbExps, s) <= b < 256 ==> encodedExp[b] == old(encodedExp[b])
  {
    var groups := GroupCount(nbExps, s);
    CodedFits(nbExps, s);
    e, m := ShapeGroups(encodedExp, exp, groups, s);
    bits := 4 + groups / 3 * 7;
    NeverAbove(exp[..], m, e, encodedExp[..], s);
    EnvelopeIsGentle(m, e);
  }

  lemma EnvelopeNotNegative(exp: seq<int>, m: seq<int>, e: seq<int>, s: Strategy, i: int)
    requires AreCaps(exp, m, s) && IsEnvelope(m, e) && 0 <= i < |e|
    requires forall b :: 0 <= b < |exp| ==> 0 <= exp[b]
    ensures 0 <= e[i]
  {
    assert Touches(m, e[i], i, 0, |m|);
    var j :| 0 <= j < |m| && e[i] == Reach(m, j, i);
    assert j >= 1 ==> IsGroupMin(exp, m[j], j, s);
  }

  lemma CapsAreBelow(exp: seq<int>, m: seq<int>, s: Strategy, b: nat)
    requires AreCaps(exp, m, s) && b < |exp| && 0 <= GroupOf(b, s) < |m|
    ensures m[GroupOf(b, s)] <= exp[b]
  {
    var i := GroupOf(b, s);
    BinInGroup(b, i, s);
    if i >= 1 {
      assert IsGroupMin(exp, m[i], i, s);
    }
  }

  // In every coded bin the decoder sees an exponent no larger than the true one.
  lemma NeverAbove(exp: seq<int>, m: seq<int>, e: seq<int>, bins: seq<int>, s: Strategy)
    requires AreCaps(exp, m, s) && IsEnvelope(m, e) && Spread(bins, e, s)
    requires |exp| == |bins| && forall b :: 0 <= b < |exp| ==> 0 <= exp[b]
    ensures forall b :: 0 <= b < First(|e|, s) ==> 0 <= bins[b] <= exp[b]
    ensures 0 <= e[0] <= 15
  {
    EnvelopeIsGentle(m, e);
    EnvelopeNotNegative(exp, m, e, s, 0);
    forall b | 0 <= b < First(|e|, s)
      ensures 0 <= bins[b] <= exp[b]
    {
      EnvelopeNotNegative(exp, m, e, s, GroupOf(b, s));
      CapsAreBelow(exp, m, s, b);
    }
  }

  // ---- transport ----

  // Three deltas, each -2..2, in one code.
  function DeltaCode(a: int, b: int, c: int, d: int): int {
    ((b - a + 2) * 5 + (c - b + 2)) * 5 + (d - c + 2)
  }

  lemma DeltaCodeFits(a: int, b: int, c: int, d: int)
    requires -2 <= b - a <= 2 && -2 <= c - b <= 2 && -2 <= d - c <= 2
    ensures var code := DeltaCode(a, b, c, d);
            && 0 <= code < 125 < Pow2(7)
            && code / 25 - 2 == b - a && code % 25 / 5 - 2 == c - b && code % 5 - 2 == d - c
  {
    assert Pow2(7) == 128;
  }

  // The first exponent in four bits, then t codes of seven bits.
  function ExponentBits(e: seq<int>, t: nat): (bits: seq<bool>)
    requires |e| >= 3 * t + 1
    ensures |bits| == 4 + 7 * t
  {
    if t == 0 then Put(4, e[0])
    else ExponentBits(e, t - 1) + Put(7, DeltaCode(e[3 * t - 3], e[3 * t - 2], e[3 * t - 1], e[3 * t]))
  }

  // Section 7.1.3 of ATSC A/52: the absolute exponent, then three differences from each code.
  function ReadGroups(bits: seq<bool>, pos: nat, t: nat): (e: seq<int>)
    ensures |e| == 3 * t + 1
  {
    if t == 0 then [Get(bits, pos, 4)]
    else
      var e := ReadGroups(bits, pos, t - 1);
      var code := Get(bits, pos + 4 + 7 * (t - 1), 7);
      var a := e[3 * t - 3] + code / 25 - 2;
      var b := a + code % 25 / 5 - 2;
      e + [a, b, b + code % 5 - 2]
  }

  // The groups spread over their bins.
  function Expanded(e: seq<int>, s: Strategy, n: nat): (bins: seq<int>)
    ensures |bins| == n
  {
    seq(n, b => if 0 <= GroupOf(b, s) < |e| then e[GroupOf(b, s)] else 0)
  }

  lemma CodeAtEnd(bits: seq<bool>, before: seq<bool>, e: seq<int>, t: nat, code: int, after: seq<bool>)
    requires t > 0 && |e| >= 3 * t + 1 && 0 <= code < Pow2(7)
    requires bits == before + (ExponentBits(e, t - 1) + Put(7, code)) + after
    ensures bits == before + ExponentBits(e, t - 1) + (Put(7, code) + after)
    ensures Get(bits, |before| + 4 + 7 * (t - 1), 7) == code
  {
    var head := before + ExponentBits(e, t - 1);
    assert bits == head + Put(7, code) + after;
    GetPut(head, 7, code, after);
  }

  lemma {:induction false} GroupsRoundTrip(bits: seq<bool>, before: seq<bool>, after: seq<bool>, e: seq<int>, t: nat)
    requires |e| >= 3 * t + 1 && Gentle(e) && 0 <= e[0] <= 15 && bits == before + ExponentBits(e, t) + after
    ensures ReadGroups(bits, |before|, t) == e[..3 * t + 1]
    decreases t
  {
    if t == 0 {
      assert Pow2(4) == 16;
      GetPut(before, 4, e[0], after);
    } else {
      var k := 3 * t - 3;
      var code := DeltaCode(e[k], e[k + 1], e[k + 2], e[k + 3]);
      DeltaCodeFits(e[k], e[k + 1], e[k + 2], e[k + 3]);
      CodeAtEnd(bits, before, e, t, code, after);
      GroupsRoundTrip(bits, before, Put(7, code) + after, e, t - 1);
      ThreeMore(bits, |before|, e, t);
    }
  }

  lemma ThreeMore(bits: seq<bool>, pos: nat, e: seq<int>, t: nat)
    requires t > 0 && |e| >= 3 * t + 1 && Gentle(e)
    requires ReadGroups(bits, pos, t - 1) == e[..3 * (t - 1) + 1]
    requires Get(bits, pos + 4 + 7 * (t - 1), 7) == DeltaCode(e[3 * t - 3], e[3 * t - 2], e[3 * t - 1], e[3 * t])
    ensures ReadGroups(bits, pos, t) == e[..3 * t + 1]
  {
    var k := 3 * t - 3;
    DeltaCodeFits(e[k], e[k + 1], e[k + 2], e[k + 3]);
    var code := DeltaCode(e[k], e[k + 1], e[k + 2], e[k + 3]);
    assert ReadGroups(bits, pos, t - 1)[k] == e[k];
    ReadThree(bits, pos, t, ReadGroups(bits, pos, t - 1), code, e[k + 1], e[k + 2], e[k + 3]);
    FourMore(e, k);
  }

  lemma ReadThree(bits: seq<bool>, pos: nat, t: nat, e: seq<int>, code: int, b: int, c: int, d: int)
    requires t > 0 && |e| == 3 * t - 2 && e == ReadGroups(bits, pos, t - 1)
    requires code == Get(bits, pos + 4 + 7 * (t - 1), 7)
    requires b == e[3 * t - 3] + code / 25 - 2 && c == b + code % 25 / 5 - 2 && d == c + code % 5 - 2
    ensures ReadGroups(bits, pos, t) == e + [b, c, d]
  {
  }

  lemma FourMore(e: seq<int>, k: nat)
    requires k + 3 < |e|
    ensures e[..k + 1] + [e[k + 1], e[k + 2], e[k + 3]] == e[..k + 4]
  {
  }

  // Whatever else is in the stream, the decoder gets the encoder's exponent in every bin coded.
  lemma ExponentsRoundTrip(before: seq<bool>, after: seq<bool>, bins: seq<int>, e: seq<int>, t: nat, s: Strategy)
    requires |e| == 3 * t + 1 && Gentle(e) && 0 <= e[0] <= 15 && Spread(bins, e, s)
    ensures 0 <= First(|e|, s) <= |bins|
    ensures Expanded(ReadGroups(before + ExponentBits(e, t) + after, |before|, t), s, First(|e|, s))
         == bins[..First(|e|, s)]
  {
    GroupsRoundTrip(before + ExponentBits(e, t) + after, before, after, e, t);
    FirstMonotone(1, |e|, s);
    assert e[..3 * t + 1] == e;
  }

  // The exponent part of output_audio_block for one channel, gain range bits aside.
  method OutputExponents(encodedExp: seq<int>, t: nat, s: Strategy, ghost e: seq<int>) returns (bits: seq<bool>)
    requires s != Reuse && |e| == 3 * t + 1 && Spread(encodedExp, e, s)
    ensures bits == ExponentBits(e, t)
  {
    var size := GroupSize(s);
    FirstMonotone(1, |e|, s);
    BinInGroup(0, 0, s);
    assert encodedExp[0] == e[GroupOf(0, s)];
    var exp1 := encodedExp[0];
    bits := Put(4, exp1);
    var p := 1;
    for i := 0 to t
      invariant p == First(3 * i + 1, s) && exp1 == e[3 * i] && bits == ExponentBits(e, i)
    {
      var code;
      code, exp1, p := MergeDeltas(encodedExp, p, size, exp1, i, s, e);
      bits := bits + Put(7, code);
    }
  }

  // Merges three deltas into one code.
  method MergeDeltas(encodedExp: seq<int>, p0: int, size: int, e0: int, i: nat, s: Strategy, ghost e: seq<int>)
      returns (code: int, exp1: int, p: int)
    requires Spread(encodedExp, e, s) && 3 * i + 3 < |e| && size == GroupSize(s)
    requires p0 == First(3 * i + 1, s) && e0 == e[3 * i]
    ensures code == DeltaCode(e[3 * i], e[3 * i + 1], e[3 * i + 2], e[3 * i + 3])
    ensures p == First(3 * (i + 1) + 1, s) && exp1 == e[3 * (i + 1)]
  {
    GroupStarts(encodedExp, e, s, 3 * i + 1);
    GroupStarts(encodedExp, e, s, 3 * i + 2);
    GroupStarts(encodedExp, e, s, 3 * i + 3);
    NextGroup(3 * i + 1, s);
    NextGroup(3 * i + 2, s);
    NextGroup(3 * i + 3, s);
    p, exp1 := p0, e0;
    var exp0 := exp1;
    exp1 := encodedExp[p];
    p := p + size;
    var delta0 := exp1 - exp0 + 2;
    exp0 := exp1;
    exp1 := encodedExp[p];
    p := p + size;
    var delta1 := exp1 - exp0 + 2;
    exp0 := exp1;
    exp1 := encodedExp[p];
    p := p + size;
    var delta2 := exp1 - exp0 + 2;
    code := (delta0 * 5 + delta1) * 5 + delta2;
  }

  lemma GroupStarts(bins: seq<int>, e: seq<int>, s: Strategy, i: nat)
    requires Spread(bins, e, s) && 1 <= i < |e|
    ensures 0 <= First(i, s) < |bins| && bins[First(i, s)] == e[i]
  {
    BinInGroup(First(i, s), i, s);
    FirstMonotone(i + 1, |e|, s);
    NextGroup(i, s);
  }

  // ---- choosing strategies ----

  const NB_BLOCKS: nat := 6

  function Abs(x: int): int { if x < 0 then -x else x }

  // calc_exp_diff
  function Variation(a: seq<int>, b: seq<int>): int
    requires |a| == |b|
  {
    if a == [] then 0 else Variation(a[..|a| - 1], b[..|b| - 1]) + Abs(a[|a| - 1] - b[|b| - 1])
  }

  // It is a distance: none between equal rows and only there, and by way of a third row it is no shorter.
  lemma {:induction false} VariationIsDistance(a: seq<int>, b: seq<int>, c: seq<int>)
    requires |a| == |b| == |c|
    ensures Variation(a, b) >= 0 && (Variation(a, b) == 0 <==> a == b) && Variation(a, b) == Variation(b, a)
    ensures Variation(a, c) <= Variation(a, b) + Variation(b, c)
  {
    if a != [] {
      var n := |a| - 1;
      VariationIsDistance(a[..n], b[..n], c[..n]);
      assert a == a[..n] + [a[n]] && b == b[..n] + [b[n]];
    }
  }

  // One exponent that changes counts by as much as it changes.
  lemma {:induction false} VariationOfOne(a: seq<int>, k: nat, x: int)
    requires k < |a|
    ensures Variation(a[k := x], a) == Abs(x - a[k])
  {
    var n := |a| - 1;
    var b := a[k := x];
    if k < n {
      VariationOfOne(a[..n], k, x);
      assert b[..n] == a[..n][k := x];
    } else {
      VariationIsDistance(a[..n], a[..n], a[..n]);
      assert b[..n] == a[..n];
    }
  }

  // First block after i that does not reuse exponents.
  function RunEnd(s: seq<Strategy>, i: nat): (j: nat)
    requires i < |s|
    ensures i < j <= |s| && (j < |s| ==> s[j] != Reuse) && forall k :: i < k < j ==> s[k] == Reuse
    decreases |s| - i
  {
    if i + 1 == |s| || s[i + 1] != Reuse then i + 1 else RunEnd(s, i + 1)
  }

  function ForRun(length: int): Strategy {
    if length == 1 then D45 else if length <= 3 then D25 else D15
  }

  method CalcExpDiff(a: array<int>, b: array<int>) returns (sum: int)
    requires a.Length == b.Length
    ensures sum == Variation(a[..], b[..])
  {
    sum := 0;
    for i := 0 to a.Length
      invariant sum == Variation(a[..i], b[..i])
    {
      assert a[..i + 1][..i] == a[..i] && b[..i + 1][..i] == b[..i];
      sum := sum + Abs(a[i] - b[i]);
    }
    assert a[..a.Length] == a[..] && b[..a.Length] == b[..];
  }

  ghost predicate Rows(exp: seq<array<int>>) {
    && |exp| == NB_BLOCKS && (forall i :: 0 <= i < NB_BLOCKS ==> exp[i].Length == 256)
    && forall i, j :: 0 <= i < j < NB_BLOCKS ==> exp[i] != exp[j]
  }

  ghost predicate SameReuse(s: seq<Strategy>, t: seq<Strategy>) {
    |s| == |t| && forall k :: 0 <= k < |s| ==> (s[k] == Reuse <==> t[k] == Reuse)
  }

  // Exponents are sent anew where they changed by more than 1000 in all.
  method MarkChanges(exp: seq<array<int>>) returns (s: seq<Strategy>)
    requires Rows(exp)
    ensures |s| == NB_BLOCKS && s[0] == D15
    ensures forall i :: 0 <= i < NB_BLOCKS ==> s[i] == D15 || s[i] == Reuse
    ensures forall i :: 1 <= i < NB_BLOCKS ==> (s[i] == Reuse <==> Variation(exp[i][..], exp[i - 1][..]) <= 1000)
  {
    s := [D15];
    for i := 1 to NB_BLOCKS
      invariant |s| == i && s[0] == D15
      invariant forall k :: 0 <= k < i ==> s[k] == D15 || s[k] == Reuse
      invariant forall k :: 1 <= k < i ==> (s[k] == Reuse <==> Variation(exp[k][..], exp[k - 1][..]) <= 1000)
    {
      var expDiff := CalcExpDiff(exp[i], exp[i - 1]);
      s := s + [if expDiff > 1000 then D15 else Reuse];
    }
  }

  // Blocks 0..n are graded by the length of their runs: the shorter, the coarser.
  ghost predicate Graded(s: seq<Strategy>, n: nat) {
    forall i {:trigger RunEnd(s, i)} :: 0 <= i < n && i < |s| && s[i] != Reuse ==> s[i] == ForRun(RunEnd(s, i) - i)
  }

  method GradeRuns(s0: seq<Strategy>) returns (s: seq<Strategy>)
    requires s0 != [] && s0[0] != Reuse
    ensures SameReuse(s0, s) && Graded(s, |s|)
  {
    s := s0;
    var i := 0;
    while i < |s|
      invariant 0 <= i <= |s| && SameReuse(s0, s) && Graded(s, i)
      invariant i < |s| ==> s[i] != Reuse
    {
      var j := FindRunEnd(s, i);
      GradeOne(s, i, j);
      s := s[i := ForRun(j - i)];
      i := j;
    }
  }

  method FindRunEnd(s: seq<Strategy>, i: nat) returns (j: nat)
    requires i < |s|
    ensures i < j <= |s| && j == RunEnd(s, i)
  {
    j := i + 1;
    while j < |s| && s[j] == Reuse
      invariant i < j <= |s| && forall k :: i < k < j ==> s[k] == Reuse
    {
      j := j + 1;
    }
    RunEndIs(s, i, j);
  }

  lemma GradeOne(s: seq<Strategy>, i: nat, j: nat)
    requires i < |s| && j == RunEnd(s, i) && s[i] != Reuse && Graded(s, i)
    ensures SameReuse(s, s[i := ForRun(j - i)]) && Graded(s[i := ForRun(j - i)], j)
  {
    var t := s[i := ForRun(j - i)];
    SameRuns(s, t);
    forall k | 0 <= k < j && t[k] != Reuse
      ensures t[k] == ForRun(RunEnd(t, k) - k)
    {
      assert k <= i;
    }
  }

  // compute_exp_strategy
  method ComputeExpStrategy(exp: seq<array<int>>, isLfe: bool) returns (s: seq<Strategy>)
    requires Rows(exp)
    ensures |s| == NB_BLOCKS && s[0] != Reuse
    ensures forall i :: 1 <= i < NB_BLOCKS ==> (s[i] == Reuse <==> Variation(exp[i][..], exp[i - 1][..]) <= 1000)
    ensures isLfe ==> forall i :: 0 <= i < NB_BLOCKS && s[i] != Reuse ==> s[i] == D15
    ensures !isLfe ==> Graded(s, NB_BLOCKS)
  {
    var marks := MarkChanges(exp);
    s := marks;
    if !isLfe {
      s := GradeRuns(marks);
      assert forall i :: 0 <= i < NB_BLOCKS ==> (s[i] == Reuse <==> marks[i] == Reuse);
    }
  }

  lemma {:induction false} RunEndIs(s: seq<Strategy>, i: nat, j: nat)
    requires i < j <= |s| && (j < |s| ==> s[j] != Reuse) && forall k :: i < k < j ==> s[k] == Reuse
    ensures RunEnd(s, i) == j
    decreases |s| - i
  {
    if i + 1 < j {
      RunEndIs(s, i + 1, j);
    }
  }

  // Where runs end depends only on which blocks reuse.
  lemma SameRuns(s: seq<Strategy>, t: seq<Strategy>)
    requires |s| == |t| && forall k :: 0 <= k < |s| ==> (s[k] == Reuse <==> t[k] == Reuse)
    ensures forall i :: 0 <= i < |s| ==> RunEnd(s, i) == RunEnd(t, i)
  {
    forall i | 0 <= i < |s|
      ensures RunEnd(s, i) == RunEnd(t, i)
    {
      RunEndIs(t, i, RunEnd(s, i));
    }
  }

  // Strategies as compute_exp_strategy chooses them for exponents that change like these.
  ghost predicate Chosen(own: seq<seq<int>>, isLfe: bool, s: seq<Strategy>) {
    && |own| == |s| == NB_BLOCKS && (forall i :: 0 <= i < NB_BLOCKS ==> |own[i]| == 256) && s[0] != Reuse
    && (forall i :: 1 <= i < NB_BLOCKS ==> (s[i] == Reuse <==> Variation(own[i], own[i - 1]) <= 1000))
    && if isLfe then forall i :: 0 <= i < NB_BLOCKS && s[i] != Reuse ==> s[i] == D15 else Graded(s, NB_BLOCKS)
  }

  // Blocks with new exponents, before they are graded.
  function Marks(own: seq<seq<int>>): (s: seq<Strategy>)
    requires |own| == NB_BLOCKS && forall i :: 0 <= i < NB_BLOCKS ==> |own[i]| == 256
    ensures |s| == NB_BLOCKS
  {
    seq(NB_BLOCKS, i requires 0 <= i < NB_BLOCKS =>
      if i == 0 then D15 else if Variation(own[i], own[i - 1]) > 1000 then D15 else Reuse)
  }

  // The strategies of a channel with these exponents.
  function StrategiesOf(own: seq<seq<int>>, isLfe: bool): (s: seq<Strategy>)
    requires |own| == NB_BLOCKS && forall i :: 0 <= i < NB_BLOCKS ==> |own[i]| == 256
    ensures |s| == NB_BLOCKS
  {
    var m := Marks(own);
    if isLfe then m
    else seq(NB_BLOCKS, i requires 0 <= i < NB_BLOCKS => if m[i] == Reuse then Reuse else ForRun(RunEnd(m, i) - i))
  }

  lemma GradedIs(s: seq<Strategy>, m: seq<Strategy>)
    requires |s| == |m| == NB_BLOCKS && Graded(s, NB_BLOCKS)
    requires forall i :: 0 <= i < NB_BLOCKS ==> (s[i] == Reuse <==> m[i] == Reuse)
    ensures forall i :: 0 <= i < NB_BLOCKS ==>
      s[i] == if m[i] == Reuse then Reuse else ForRun(RunEnd(m, i) - i)
  {
    SameRuns(s, m);
  }

  // There is no other choice.
  lemma ChosenIs(own: seq<seq<int>>, isLfe: bool, s: seq<Strategy>)
    requires Chosen(own, isLfe, s)
    ensures s == StrategiesOf(own, isLfe)
  {
    var m := Marks(own);
    MarksAreChosen(own, isLfe, s);
    StrategyAt(own, isLfe, m);
    if !isLfe {
      GradedIs(s, m);
      var t := StrategiesOf(own, isLfe);
      assert |s| == |t| && forall i :: 0 <= i < |t| ==> s[i] == t[i];
    }
  }

  lemma StrategyAt(own: seq<seq<int>>, isLfe: bool, m: seq<Strategy>)
    requires |own| == NB_BLOCKS && (forall i :: 0 <= i < NB_BLOCKS ==> |own[i]| == 256) && m == Marks(own)
    ensures isLfe ==> StrategiesOf(own, isLfe) == m
    ensures !isLfe ==> forall i :: 0 <= i < NB_BLOCKS ==>
      StrategiesOf(own, isLfe)[i] == if m[i] == Reuse then Reuse else ForRun(RunEnd(m, i) - i)
  {
  }

  lemma MarksAreChosen(own: seq<seq<int>>, isLfe: bool, s: seq<Strategy>)
    requires Chosen(own, isLfe, s)
    ensures forall i :: 0 <= i < NB_BLOCKS ==> (s[i] == Reuse <==> Marks(own)[i] == Reuse)
    ensures isLfe ==> s == Marks(own)
  {
  }

  // ---- a channel through the blocks of a frame ----

  // exponent_min
  method ExponentMin(exp: array<int>, exp1: array<int>, n: nat)
    requires n <= exp.Length == exp1.Length && exp != exp1
    modifies exp
    ensures forall b :: 0 <= b < n ==> exp[b] == Min(old(exp[b]), exp1[b])
    ensures forall b :: n <= b < exp.Length ==> exp[b] == old(exp[b])
  {
    for i := 0 to n
      invariant forall b :: 0 <= b < i ==> exp[b] == Min(old(exp[b]), exp1[b])
      invariant forall b :: i <= b < exp.Length ==> exp[b] == old(exp[b])
    {
      if exp1[i] < exp[i] {
        exp[i] := exp1[i];
      }
    }
  }

  // The exponents and what they are encoded to, block by block, in arrays of their own.
  ghost predicate Apart(exp: seq<array<int>>, encodedExp: seq<array<int>>) {
    && Rows(exp) && Rows(encodedExp)
    && forall i, j :: 0 <= i < NB_BLOCKS && 0 <= j < NB_BLOCKS ==> exp[i] != encodedExp[j]
  }

  ghost predicate InRange(exp: seq<int>) { forall b :: 0 <= b < |exp| ==> 0 <= exp[b] <= 24 }

  // Block k's exponents are those of the run that began at block i, none above k's own.
  ghost predicate Serves(encoded: seq<int>, own: seq<int>, n: nat) {
    && n <= |encoded| && n <= |own|
    && forall b :: 0 <= b < n ==> 0 <= encoded[b] <= own[b]
  }

  // What encode_exp returns for the first n blocks of a channel, in all.
  function ChannelBits(s: seq<Strategy>, nbExps: int, n: nat): int
    requires n <= |s|
  {
    if n == 0 then 0
    else ChannelBits(s, nbExps, n - 1) + if s[n - 1] == Reuse then 0 else 4 + 7 * Triples(nbExps, s[n - 1])
  }

  lemma {:induction false} NothingForReuse(s: seq<Strategy>, nbExps: int, i: nat, j: nat)
    requires i <= j <= |s| && forall k :: i <= k < j ==> s[k] == Reuse
    ensures ChannelBits(s, nbExps, j) == ChannelBits(s, nbExps, i)
  {
    if i < j {
      NothingForReuse(s, nbExps, i, j - 1);
    }
  }

  // Some block of the run has v in bin b.
  ghost predicate Occurs(v: int, was: seq<seq<int>>, i: nat, j: nat, b: int) {
    exists k :: i <= k < j && k < |was| && 0 <= b < |was[k]| && v == was[k][b]
  }

  // The least exponents of blocks i to j - 1 in the first n bins, and block i's own in the others.
  ghost predicate LeastOf(least: seq<int>, was: seq<seq<int>>, i: nat, j: nat, n: nat) {
    && |least| == 256 && InRange(least) && n <= 256 && i < j <= |was|
    && (forall k :: i <= k < j ==> |was[k]| == 256)
    && (forall k, b :: i <= k < j && 0 <= b < n ==> least[b] <= was[k][b])
    && (forall b {:trigger least[b]} :: 0 <= b < n ==> Occurs(least[b], was, i, j, b))
    && forall b :: n <= b < 256 ==> least[b] == was[i][b]
  }

  // The exponents sent for blocks i to j - 1: the envelope of the caps that their least set.
  ghost predicate Shaped(e: seq<int>, s: Strategy, was: seq<seq<int>>, i: nat, j: nat, n: nat) {
    exists least, m :: LeastOf(least, was, i, j, n) && AreCaps(least, m, s) && IsEnvelope(m, e)
  }

  // Takes the minimum over the blocks that reuse block i's exponents; j is the next that does not.
  method MinimumOverRun(exp: seq<array<int>>, s: seq<Strategy>, i: nat, n: nat, ghost was: seq<seq<int>>)
      returns (j: nat)
    requires Rows(exp) && |s| == NB_BLOCKS && i < NB_BLOCKS && n <= 256 && |was| == NB_BLOCKS
    requires forall k :: i <= k < NB_BLOCKS ==> exp[k][..] == was[k] && InRange(was[k])
    modifies exp[i]
    ensures i < j <= NB_BLOCKS && (j < NB_BLOCKS ==> s[j] != Reuse) && forall k :: i < k < j ==> s[k] == Reuse
    ensures LeastOf(exp[i][..], was, i, j, n)
  {
    j := i + 1;
    LeastOfOne(was, i, n);
    while j < NB_BLOCKS && s[j] == Reuse
      invariant i < j <= NB_BLOCKS && forall k :: i < k < j ==> s[k] == Reuse
      invariant LeastOf(exp[i][..], was, i, j, n)
      invariant forall k :: i < k < NB_BLOCKS ==> exp[k][..] == was[k]
    {
      ghost var least := exp[i][..];
      ExponentMin(exp[i], exp[j], n);
      LeastOfMore(least, exp[i][..], was, i, j, n);
      j := j + 1;
    }
  }

  lemma LeastOfMore(least: seq<int>, now: seq<int>, was: seq<seq<int>>, i: nat, j: nat, n: nat)
    requires LeastOf(least, was, i, j, n) && j < |was| && |was[j]| == |now| == 256 && InRange(was[j])
    requires forall b :: 0 <= b < n ==> now[b] == Min(least[b], was[j][b])
    requires forall b :: n <= b < 256 ==> now[b] == least[b]
    ensures LeastOf(now, was, i, j + 1, n)
  {
    forall b | 0 <= b < n
      ensures Occurs(now[b], was, i, j + 1, b)
    {
      assert Occurs(least[b], was, i, j, b);
      var k :| i <= k < j && 0 <= b < |was[k]| && least[b] == was[k][b];
      assert now[b] == was[if now[b] == least[b] then k else j][b];
    }
  }

  lemma LeastOfOne(was: seq<seq<int>>, i: nat, n: nat)
    requires i < |was| && |was[i]| == 256 && InRange(was[i]) && n <= 256
    ensures LeastOf(was[i], was, i, i + 1, n)
  {
    forall b | 0 <= b < n
      ensures Occurs(was[i][b], was, i, i + 1, b)
    {
      assert i <= i < i + 1 && was[i][b] == was[i][b];
    }
  }

  // Copies the encoded exponents for the blocks that reuse them.
  method CopyOverRun(encodedExp: seq<array<int>>, i: nat, j: nat, n: nat)
    requires Rows(encodedExp) && i < j <= NB_BLOCKS && n <= 256
    modifies set k | i < k < j :: encodedExp[k]
    ensures forall k :: i <= k < j ==> encodedExp[k][..n] == old(encodedExp[i][..n])
    ensures encodedExp[i][..] == old(encodedExp[i][..])
  {
    for k := i + 1 to j
      invariant forall q :: i <= q < k ==> encodedExp[q][..n] == old(encodedExp[i][..n])
      invariant encodedExp[i][..] == old(encodedExp[i][..])
    {
      ghost var before := old(encodedExp[i][..n]);
      CopyBins(encodedExp[k], encodedExp[i], n);
    }
  }

  method CopyBins(to: array<int>, from: array<int>, n: nat)
    requires to != from && n <= to.Length == from.Length
    modifies to
    ensures to[..n] == from[..n]
  {
    for b := 0 to n
      invariant to[..b] == from[..b]
    {
      to[b] := from[b];
      assert to[..b + 1] == to[..b] + [to[b]] && from[..b + 1] == from[..b] + [from[b]];
    }
  }

  ghost function Contents(rows: seq<array<int>>): (c: seq<seq<int>>)
    reads rows
    ensures |c| == |rows| && forall k :: 0 <= k < |rows| ==> c[k] == rows[k][..]
  {
    if rows == [] then [] else Contents(rows[..|rows| - 1]) + [rows[|rows| - 1][..]]
  }

  // Encoded exponents of a block that sends its own.
  ghost predicate Sent(encoded: seq<int>, e: seq<int>, s: Strategy, nbExps: int) {
    && s != Reuse && |e| == 3 * Triples(nbExps, s) + 1 >= 1 && Gentle(e) && 0 <= e[0] <= 15 && Spread(encoded, e, s)
  }

  // Blocks i to j - 1 are a run, and have the exponents e sent in the first.
  ghost predicate RunIs(encoded: seq<seq<int>>, s: seq<Strategy>, nbExps: int, e: seq<int>, was: seq<seq<int>>, i: nat,
                        j: nat) {
    && i < j <= |s| == |encoded| == |was| && s[i] != Reuse && (j < |s| ==> s[j] != Reuse)
    && (forall k :: i < k < j ==> s[k] == Reuse)
    && |encoded[i]| == 256 && Sent(encoded[i], e, s[i], nbExps) && 1 <= nbExps <= 253
    && Shaped(e, s[i], was, i, j, nbExps)
    && forall k :: i <= k < j ==>
         |encoded[k]| == 256 && Serves(encoded[k], was[k], nbExps) && encoded[k][..nbExps] == encoded[i][..nbExps]
  }

  // One run of blocks: its exponents are sent once, in the first block.
  method EncodeRun(exp: seq<array<int>>, encodedExp: seq<array<int>>, s: seq<Strategy>, nbExps: int, i: nat,
                   ghost was: seq<seq<int>>)
      returns (j: nat, bits: int, ghost e: seq<int>)
    requires Apart(exp, encodedExp) && |s| == NB_BLOCKS && i < NB_BLOCKS && s[i] != Reuse && |was| == NB_BLOCKS
    requires 1 <= nbExps <= 253 && nbExps % 3 == 1
    requires forall k :: i <= k < NB_BLOCKS ==> exp[k][..] == was[k] && InRange(was[k])
    modifies exp[i], set k | i <= k < NB_BLOCKS :: encodedExp[k]
    ensures bits == 4 + 7 * Triples(nbExps, s[i]) && RunIs(Contents(encodedExp), s, nbExps, e, was, i, j)
    ensures forall k :: 0 <= k < i ==> Contents(encodedExp)[k] == old(Contents(encodedExp))[k]
    ensures forall k :: j <= k < NB_BLOCKS ==> exp[k][..] == was[k]
  {
    j := MinimumOverRun(exp, s, i, nbExps, was);
    ghost var least := exp[i][..];
    CodedFits(nbExps, s[i]);
    CoverageIff(nbExps);
    ghost var m;
    bits, e, m := EncodeExp(encodedExp[i], exp[i], nbExps, s[i]);
    ghost var first := encodedExp[i][..];
    assert exp[i][..] == least;
    assert Shaped(e, s[i], was, i, j, nbExps);
    CopyOverRun(encodedExp, i, j, nbExps);
    assert encodedExp[i][..] == first;
    forall k | i <= k < j
      ensures Serves(encodedExp[k][..], was[k], nbExps) && encodedExp[k][..nbExps] == encodedExp[i][..nbExps]
    {
      assert encodedExp[k][..nbExps] == first[..nbExps];
      ServesFirst(first, encodedExp[k][..], least, was, i, j, k, nbExps);
    }
  }

  lemma ServesFirst(first: seq<int>, encoded: seq<int>, least: seq<int>, was: seq<seq<int>>, i: nat, j: nat, k: nat,
                    n: nat)
    requires LeastOf(least, was, i, j, n) && i <= k < j && |first| == |encoded| == 256 && encoded[..n] == first[..n]
    requires forall b :: 0 <= b < n ==> 0 <= first[b] <= least[b]
    ensures Serves(encoded, was[k], n)
  {
    forall b | 0 <= b < n
      ensures 0 <= encoded[b] <= was[k][b]
    {
      assert encoded[..n][b] == first[..n][b];
    }
  }

  // What the decoder will see of the first n blocks.
  ghost predicate ChannelEncoded(encoded: seq<seq<int>>, s: seq<Strategy>, nbExps: int, e: seq<seq<int>>,
                                 was: seq<seq<int>>, n: nat) {
    && n <= |encoded| == |s| == |was| && |e| == n && 1 <= nbExps <= 253
    && (forall k :: 0 <= k < n ==> |encoded[k]| == 256 && Serves(encoded[k], was[k], nbExps))
    && (forall k :: 0 <= k < n && s[k] != Reuse ==>
          Sent(encoded[k], e[k], s[k], nbExps) && Shaped(e[k], s[k], was, k, RunEnd(s, k), nbExps))
    && (forall k :: 0 <= k < n && s[k] == Reuse ==> k > 0 && encoded[k][..nbExps] == encoded[k - 1][..nbExps])
  }

  lemma RunEncoded(before: seq<seq<int>>, after: seq<seq<int>>, s: seq<Strategy>, nbExps: int, e: seq<seq<int>>,
                   g: seq<int>, was: seq<seq<int>>, i: nat, j: nat)
    requires ChannelEncoded(before, s, nbExps, e, was, i) && |after| == |before| && i < j <= |before|
    requires forall k :: 0 <= k < i ==> after[k] == before[k]
    requires RunIs(after, s, nbExps, g, was, i, j)
    ensures ChannelEncoded(after, s, nbExps, e + [g] + seq(j - i - 1, _ => []), was, j)
    ensures ChannelBits(s, nbExps, j) == ChannelBits(s, nbExps, i) + 4 + 7 * Triples(nbExps, s[i])
  {
    RunEndIs(s, i, j);
    NothingForReuse(s, nbExps, i + 1, j);
  }

  // The exponents of one channel, as AC3_encode_frame encodes them: each run of blocks sends the
  // envelope of its least exponents, what a block's decoder will use is never above the block's
  // own exponents, and reused blocks have those sent last.
  method EncodeChannel(exp: seq<array<int>>, encodedExp: seq<array<int>>, s: seq<Strategy>, nbExps: int)
      returns (bits: int, ghost e: seq<seq<int>>)
    requires Apart(exp, encodedExp) && |s| == NB_BLOCKS && s[0] != Reuse && 1 <= nbExps <= 253 && nbExps % 3 == 1
    requires forall k :: 0 <= k < NB_BLOCKS ==> InRange(exp[k][..])
    modifies exp, encodedExp
    ensures bits == ChannelBits(s, nbExps, NB_BLOCKS)
    ensures ChannelEncoded(Contents(encodedExp), s, nbExps, e, old(Contents(exp)), NB_BLOCKS)
  {
    ghost var was := Contents(exp);
    bits, e := 0, [];
    var i := 0;
    while i < NB_BLOCKS
      invariant 0 <= i <= NB_BLOCKS && (i < NB_BLOCKS ==> s[i] != Reuse)
      invariant bits == ChannelBits(s, nbExps, i) && ChannelEncoded(Contents(encodedExp), s, nbExps, e, was, i)
      invariant forall k :: i <= k < NB_BLOCKS ==> exp[k][..] == was[k]
    {
      ghost var before := Contents(encodedExp);
      var j, more;
      ghost var g;
      j, more, g := EncodeRun(exp, encodedExp, s, nbExps, i, was);
      RunEncoded(before, Contents(encodedExp), s, nbExps, e, g, was, i, j);
      bits := bits + more;
      e := e + [g] + seq(j - i - 1, _ => []);
      i := j;
    }
  }
}
