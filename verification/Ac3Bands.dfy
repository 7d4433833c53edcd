// Bit allocation of AC-3 for one channel, sections 7.2.2.1 to 7.2.2.7 of ATSC A/52: power per
// band, masking curve, and from them how many bits each mantissa gets.
module Ac3Bands {
  import opened Ac3Tables

  function Min(a: int, b: int): int { if a < b then a else b }

  function Max(a: int, b: int): int { if a > b then a else b }

  function Abs(a: int): int { if a < 0 then -a else a }

  // ---- bands ----

  // Bins in band i.
  function BandSize(i: int): nat {
    if i < 28 then 1 else if i < 35 then 3 else if i < 41 then 6 else if i < 45 then 12 else 24
  }

  // First bin of band i; the last one, 50, is where bands end.
  function BandStart(i: int): int {
    if i <= 28 then i
    else if i <= 35 then 28 + 3 * (i - 28)
    else if i <= 41 then 49 + 6 * (i - 35)
    else if i <= 45 then 85 + 12 * (i - 41)
    else 133 + 24 * (i - 45)
  }

  // Band of a bin.
  function BandOf(k: int): int {
    if k < 28 then k
    else if k < 49 then 28 + (k - 28) / 3
    else if k < 85 then 35 + (k - 49) / 6
    else if k < 133 then 41 + (k - 85) / 12
    else 45 + (k - 133) / 24
  }

  // Every bin lies in one band, the one looked up.
  lemma BandOfIff(k: int, i: int)
    requires 0 <= k < 253 && 0 <= i < 50
    ensures 0 <= BandOf(k) < 50
    ensures BandOf(k) == i <==> BandStart(i) <= k < BandStart(i + 1)
  {
  }

  ghost predicate RightTables(bndtab: seq<int>, masktab: seq<int>) {
    && |bndtab| == 51 && (forall i :: 0 <= i < 51 ==> bndtab[i] == BandStart(i))
    && |masktab| == 253 && (forall k :: 0 <= k < 253 ==> masktab[k] == BandOf(k))
  }

  lemma NextBand(i: int)
    requires 0 <= i < 50
    ensures BandStart(i + 1) == BandStart(i) + BandSize(i) <= 253
  {
  }

  // ac3_common_init
  method CommonInit() returns (bndtab: array<int>, masktab: array<int>)
    ensures fresh(bndtab) && fresh(masktab) && RightTables(bndtab[..], masktab[..])
  {
    bndtab, masktab := new int[51], new int[253];
    var k, l := 0, 0;
    for i := 0 to 50
      invariant k == l == BandStart(i)
      invariant forall q :: 0 <= q < i ==> bndtab[q] == BandStart(q)
      invariant forall q :: 0 <= q < k ==> masktab[q] == BandOf(q)
    {
      bndtab[i] := l;
      NextBand(i);
      var v := BandSize(i);
      for j := 0 to v
        invariant k == BandStart(i) + j
        invariant forall q :: 0 <= q <= i ==> bndtab[q] == BandStart(q)
        invariant forall q :: 0 <= q < k ==> masktab[q] == BandOf(q)
      {
        BandOfIff(k, i);
        assert BandOf(k) == i;
        masktab[k] := i;
        k := k + 1;
      }
      l := l + v;
    }
    bndtab[50] := l;
  }

  // ---- power ----

  function LogAdd(t: Tables, v: int, p: int): int
    requires Sound(t)
  {
    Max(v, p) + t.latab[Min(Abs(v - p) / 2, 255)]
  }

  // The power of bins lo to hi - 1 together.
  function Integrated(t: Tables, psd: seq<int>, lo: int, hi: int): int
    requires Sound(t) && 0 <= lo < hi <= |psd|
    decreases hi
  {
    if hi == lo + 1 then psd[lo] else LogAdd(t, Integrated(t, psd, lo, hi - 1), psd[hi - 1])
  }

  // A band is at least as strong as its strongest bin, and 64 stronger at most for each other bin.
  lemma {:induction false} IntegratedRange(t: Tables, psd: seq<int>, lo: int, hi: int, most: int)
    requires Sound(t) && 0 <= lo < hi <= |psd| && forall i :: lo <= i < hi ==> psd[i] <= most
    ensures forall i :: lo <= i < hi ==> psd[i] <= Integrated(t, psd, lo, hi)
    ensures Integrated(t, psd, lo, hi) <= most + 64 * (hi - lo - 1)
    decreases hi
  {
    if hi > lo + 1 {
      IntegratedRange(t, psd, lo, hi - 1, most);
    }
  }

  // The standard's increments.
  ghost predicate Increments(t: Tables) {
    && Sound(t) && t.latab[0] == 64 && (forall i :: 0 <= i < 255 ==> 0 <= t.latab[i] - t.latab[i + 1] <= 1)
    && forall i :: 210 <= i < 256 ==> t.latab[i] == 0
  }

  lemma StandardIncrements()
    ensures Increments(Standard())
  {
    StandardIsSound();
    LatabEnds();
    forall i | 0 <= i < 255
      ensures 0 <= Standard().latab[i] - Standard().latab[i + 1] <= 1
    {
      LatabStep(i);
    }
  }

  lemma {:induction false} IncrementsFall(t: Tables, i: nat, j: nat)
    requires Increments(t) && i <= j < 256
    ensures t.latab[j] <= t.latab[i] <= t.latab[j] + (j - i)
  {
    if i < j {
      IncrementsFall(t, i, j - 1);
    }
  }

  // The order of two powers does not matter; equal ones make 64 more, and one that is 420 weaker
  // adds nothing.
  lemma LogAddIs(t: Tables, v: int, p: int)
    requires Increments(t)
    ensures LogAdd(t, v, p) == LogAdd(t, p, v) && LogAdd(t, v, v) == v + 64
    ensures v - p >= 420 ==> LogAdd(t, v, p) == v
  {
  }

  // More of either power is never less together.
  lemma LogAddRises(t: Tables, v: int, p: int, u: int, q: int)
    requires Increments(t) && v <= u && p <= q
    ensures LogAdd(t, v, p) <= LogAdd(t, u, q)
  {
    OneLouder(t, v, p, q);
    OneLouder(t, q, v, u);
    LogAddIs(t, v, q);
    LogAddIs(t, u, q);
  }

  lemma OneLouder(t: Tables, v: int, p: int, q: int)
    requires Increments(t) && p <= q
    ensures LogAdd(t, v, p) <= LogAdd(t, v, q)
  {
    var i, j := Min(Abs(v - p) / 2, 255), Min(Abs(v - q) / 2, 255);
    if i <= j {
      IncrementsFall(t, i, j);
      assert j == 255 ==> t.latab[j] == 0;
    } else {
      IncrementsFall(t, j, i);
    }
  }

  // A bin that is louder never makes its band quieter.
  lemma {:induction false} IntegratedRises(t: Tables, psd: seq<int>, louder: seq<int>, lo: int, hi: int)
    requires Increments(t) && 0 <= lo < hi <= |psd| == |louder| && forall i :: lo <= i < hi ==> psd[i] <= louder[i]
    ensures Integrated(t, psd, lo, hi) <= Integrated(t, louder, lo, hi)
    decreases hi
  {
    if hi > lo + 1 {
      IntegratedRises(t, psd, louder, lo, hi - 1);
      LogAddRises(t, Integrated(t, psd, lo, hi - 1), psd[hi - 1], Integrated(t, louder, lo, hi - 1), louder[hi - 1]);
    }
  }

  // The part of band k between bins start and end.
  function Lo(k: int, start: int): int { Max(start, BandStart(k)) }

  function Hi(k: int, end: int): int { Min(end, BandStart(k + 1)) }

  // Each bin of the range is in the part of its own band, and of no other.
  lemma BandsPartition(i: int, k: int, start: int, end: int)
    requires 0 <= start <= i < end <= 253 && 0 <= k < 50
    ensures Lo(k, start) <= i < Hi(k, end) <==> k == BandOf(i)
  {
    BandOfIff(i, k);
  }

  lemma BandsRise(a: int, b: int)
    requires 0 <= a <= b < 253
    ensures 0 <= BandOf(a) <= BandOf(b) < 50
  {
  }

  lemma EndsAfter(i: int, k: int)
    requires 0 <= i < 253 && BandOf(i) <= k < 50
    ensures i < BandStart(k + 1)
  {
  }

  lemma StartsBefore(i: int, k: int)
    requires 0 <= i < 253 && 0 <= k <= BandOf(i)
    ensures BandStart(k) <= i
  {
  }

  lemma PartOfBand(k: int, start: int, end: int)
    requires 0 <= start < end <= 253 && 0 <= BandOf(start) <= k <= BandOf(end - 1) < 50
    ensures Lo(k, start) < Hi(k, end) && (k < BandOf(end - 1) ==> Hi(k, end) == Lo(k + 1, start))
  {
    EndsAfter(start, k);
    StartsBefore(end - 1, k);
    NextBand(k);
    if k < BandOf(end - 1) {
      StartsBefore(end - 1, k + 1);
    }
  }

  method MapExponents(exp: seq<int>, start: int, end: int, psd: array<int>)
    requires 0 <= start < end <= 253 && |exp| >= end && psd.Length >= end
    modifies psd
    ensures forall i :: start <= i < end ==> psd[i] == 3072 - 128 * exp[i]
    ensures forall i :: 0 <= i < psd.Length && !(start <= i < end) ==> psd[i] == old(psd[i])
  {
    for bin := start to end
      invariant forall i :: start <= i < bin ==> psd[i] == 3072 - 128 * exp[i]
      invariant forall i :: 0 <= i < psd.Length && !(start <= i < bin) ==> psd[i] == old(psd[i])
    {
      psd[bin] := 3072 - exp[bin] * 128;
    }
  }

  ghost predicate IntegratedTo(t: Tables, psd: seq<int>, bndpsd: seq<int>, start: int, end: int, n: int)
    requires Sound(t)
  {
    forall k {:trigger bndpsd[k]} :: BandOf(start) <= k < n && k < |bndpsd| ==>
      0 <= Lo(k, start) < Hi(k, end) <= |psd| && bndpsd[k] == Integrated(t, psd, Lo(k, start), Hi(k, end))
  }

  // One band's turn: bins j to end1.
  method IntegrateBand(t: Tables, psd: array<int>, first: int, end1: int) returns (v: int, j: int)
    requires Sound(t) && 0 <= first < end1 <= psd.Length
    ensures v == Integrated(t, psd[..], first, end1) && j == end1
  {
    v := psd[first];
    j := first + 1;
    for i := j to end1
      invariant j == i && v == Integrated(t, psd[..], first, j)
    {
      var adr := Min(Abs(v - psd[j]) / 2, 255);
      v := Max(v, psd[j]) + t.latab[adr];
      j := j + 1;
    }
  }

  // One turn of the loop over bands.
  method IntegrateNext(t: Tables, psd: array<int>, bndpsd: array<int>, start: int, end: int, k: int, first: int,
                       end1: int)
      returns (j: int)
    requires Sound(t) && 0 <= start < end <= 253 && end <= psd.Length && bndpsd.Length == 50 && psd != bndpsd
    requires 0 <= BandOf(start) <= k <= BandOf(end - 1) < 50 && first == Lo(k, start) && end1 == Hi(k, end)
    requires IntegratedTo(t, psd[..], bndpsd[..], start, end, k)
    modifies bndpsd
    ensures IntegratedTo(t, psd[..], bndpsd[..], start, end, k + 1)
    ensures k < BandOf(end - 1) ==> j == Lo(k + 1, start)
  {
    PartOfBand(k, start, end);
    ghost var was, power := bndpsd[..], psd[..];
    var v;
    v, j := IntegrateBand(t, psd, first, end1);
    bndpsd[k] := v;
    assert psd[..] == power;
    forall q | BandOf(start) <= q < k + 1
      ensures 0 <= Lo(q, start) < Hi(q, end) && bndpsd[..][q] == Integrated(t, power, Lo(q, start), Hi(q, end))
    {
      assert q < k ==> bndpsd[..][q] == was[q];
    }
  }

  // ff_ac3_bit_alloc_calc_psd
  method CalcPsd(t: Tables, bndtab: seq<int>, masktab: seq<int>, exp: seq<int>, start: int, end: int, psd: array<int>,
                 bndpsd: array<int>)
    requires Sound(t) && RightTables(bndtab, masktab) && 0 <= start < end <= 253
    requires |exp| >= end && psd.Length >= end && bndpsd.Length == 50 && psd != bndpsd
    modifies psd, bndpsd
    ensures forall i :: start <= i < end ==> psd[i] == 3072 - 128 * exp[i]
    ensures IntegratedTo(t, psd[..], bndpsd[..], start, end, BandOf(end - 1) + 1)
  {
    MapExponents(exp, start, end, psd);
    ghost var power := psd[..];
    var j := start;
    var k := masktab[start];
    BandsRise(start, end - 1);
    StartsBefore(start, k);
    var again := true;
    while again
      invariant 0 <= BandOf(start) <= k <= BandOf(end - 1) + 1 <= 50
      invariant again <==> k <= BandOf(end - 1)
      invariant again ==> j == Lo(k, start)
      invariant psd[..] == power && IntegratedTo(t, power, bndpsd[..], start, end, k)
      decreases 50 - k
    {
      j := IntegrateNext(t, psd, bndpsd, start, end, k, j, Min(bndtab[k + 1], end));
      k := k + 1;
      again := end > bndtab[k];
      LastBand(end, k);
    }
    assert k == BandOf(end - 1) + 1;
  }

  lemma LastBand(end: int, k: int)
    requires 1 <= end <= 253 && 0 <= k <= 50
    ensures end > BandStart(k) <==> k <= BandOf(end - 1)
  {
  }

  // ---- masking ----

  // Parameters of a masking curve: decay per band and offset of the two leaks, where the knee
  // begins, and which hearing threshold applies.
  datatype Curve = Curve(fgain: int, sgain: int, fdecay: int, sdecay: int, dbknee: int, fscod: nat,
                         halfratecod: nat, isLfe: bool)

  ghost predicate CurveOk(c: Curve) {
    && 0 <= c.fgain && 0 <= c.sgain && 0 <= c.fdecay && 0 <= c.sdecay && 0 <= c.dbknee <= 2816
    && c.fscod < 3 && c.halfratecod < 3
  }

  function CalcLowcomp1(a: int, b0: int, b1: int, c: int): int {
    if b0 + 256 == b1 then c else if b0 > b1 then Max(a - 64, 0) else a
  }

  function CalcLowcomp(a: int, b0: int, b1: int, bin: int): int {
    if bin < 7 then CalcLowcomp1(a, b0, b1, 384)
    else if bin < 20 then CalcLowcomp1(a, b0, b1, 320)
    else Max(a - 128, 0)
  }

  // Low frequency compensation after band k; the low frequency channel's seventh band has none.
  function Lowcomp(b: seq<int>, isLfe: bool, k: int): (a: int)
    requires -1 <= k < |b| - 1
    ensures 0 <= a <= 384
  {
    if k < 0 then 0
    else if isLfe && k == 6 then Lowcomp(b, isLfe, k - 1)
    else CalcLowcomp(Lowcomp(b, isLfe, k - 1), b[k], b[k + 1], k)
  }

  // Power rises by exactly a step from band j to the next, where that is looked at.
  predicate Rises(b: seq<int>, isLfe: bool, j: int)
    requires 0 <= j < |b| - 1
  {
    j < 20 && !(isLfe && j == 6) && b[j] + 256 == b[j + 1]
  }

  predicate FallsAt(b: seq<int>, isLfe: bool, j: int)
    requires 0 <= j < |b| - 1
  {
    j < 20 && !(isLfe && j == 6) && b[j] > b[j + 1]
  }

  // The bands after j, up to k, from which power falls to the next.
  function Falls(b: seq<int>, isLfe: bool, j: int, k: int): set<int>
    requires 0 <= j && k < |b| - 1
  {
    set i | j < i <= k && FallsAt(b, isLfe, i)
  }

  // Compensation is what the last rise set, less 64 for each fall since then and 128 for each
  // band from 20 on.
  lemma {:induction false} LowcompSince(b: seq<int>, isLfe: bool, j: int, k: int)
    requires 0 <= j <= k < |b| - 1 && Rises(b, isLfe, j) && forall i :: j < i <= k ==> !Rises(b, isLfe, i)
    ensures Lowcomp(b, isLfe, k) ==
            Max((if j < 7 then 384 else 320) - 64 * |Falls(b, isLfe, j, k)| - 128 * Max(k - 19, 0), 0)
    decreases k
  {
    if k == j {
      assert Falls(b, isLfe, j, k) == {};
    } else {
      LowcompSince(b, isLfe, j, k - 1);
      assert !Rises(b, isLfe, k);
      FallsGrow(b, isLfe, j, k);
    }
  }

  lemma FallsGrow(b: seq<int>, isLfe: bool, j: int, k: int)
    requires 0 <= j < k < |b| - 1
    ensures |Falls(b, isLfe, j, k)| == |Falls(b, isLfe, j, k - 1)| + if FallsAt(b, isLfe, k) then 1 else 0
  {
    var less := Falls(b, isLfe, j, k - 1);
    assert Falls(b, isLfe, j, k) == if FallsAt(b, isLfe, k) then less + {k} else less;
  }

  // Without a rise there is none.
  lemma {:induction false} NoLowcomp(b: seq<int>, isLfe: bool, k: int)
    requires -1 <= k < |b| - 1 && forall i :: 0 <= i <= k ==> !Rises(b, isLfe, i)
    ensures Lowcomp(b, isLfe, k) == 0
  {
    if k >= 0 {
      NoLowcomp(b, isLfe, k - 1);
      assert !Rises(b, isLfe, k);
    }
  }

  // Leaks add up from the first band in 2..6 whose power does not fall; from band 6 otherwise.
  function LeakFrom(b: seq<int>, isLfe: bool, bin: int): (k: int)
    requires 2 <= bin <= 7 && |b| > 7
    ensures bin - 1 <= k <= 6 && k >= 1
    decreases 7 - bin
  {
    if bin == 7 then 6
    else if !(isLfe && bin == 6) && b[bin] <= b[bin + 1] then bin
    else LeakFrom(b, isLfe, bin + 1)
  }

  // Masking of band k by itself and by lower bands, which fades by decay from band to band.
  function Leak(b: seq<int>, from: int, k: int, gain: int, decay: int): int
    requires 0 <= k < |b| && from >= 0
  {
    if k <= from then b[k] - gain else Max(Leak(b, from, k - 1, gain, decay) - decay, b[k] - gain)
  }

  function Excitation(b: seq<int>, c: Curve, k: int): int
    requires 0 <= k < |b| == 50
  {
    var from := LeakFrom(b, c.isLfe, 2);
    var fast := Leak(b, from, k, c.fgain, c.fdecay);
    var slow := Leak(b, from, k, c.sgain, c.sdecay);
    if k <= from then fast - Lowcomp(b, c.isLfe, k)
    else if k < 22 then Max(fast - Lowcomp(b, c.isLfe, k), slow)
    else Max(fast, slow)
  }

  function Masking(t: Tables, b: seq<int>, c: Curve, k: int): int
    requires Sound(t) && CurveOk(c) && 0 <= k < |b| == 50
  {
    var knee := if c.dbknee > b[k] then (c.dbknee - b[k]) / 4 else 0;
    Max(t.hth[c.fscod][ShiftDown(k, c.halfratecod)], Excitation(b, c, k) + knee)
  }

  function ShiftDown(k: int, n: nat): (r: int)
    requires k >= 0
    ensures 0 <= r <= k
  {
    if n == 0 then k else if n == 1 then k / 2 else k / 4
  }

  // Each earlier band j masks band k by its power less the gain and the decay between them, and
  // one of them by just that.
  lemma {:induction false} LeakIsMaximum(b: seq<int>, from: int, k: int, gain: int, decay: int)
    requires 0 <= from <= k < |b|
    ensures forall j :: from <= j <= k ==> b[j] - gain - decay * (k - j) <= Leak(b, from, k, gain, decay)
    ensures exists j :: from <= j <= k && b[j] - gain - decay * (k - j) == Leak(b, from, k, gain, decay)
  {
    if k > from {
      LeakIsMaximum(b, from, k - 1, gain, decay);
      var prev := Leak(b, from, k - 1, gain, decay);
      var i :| from <= i <= k - 1 && b[i] - gain - decay * (k - 1 - i) == prev;
      forall j | from <= j <= k
        ensures b[j] - gain - decay * (k - j) <= Leak(b, from, k, gain, decay)
      {
        if j < k {
          assert b[j] - gain - decay * (k - 1 - j) <= prev;
          OneStep(decay, k - 1 - j);
        }
      }
      OneStep(decay, k - 1 - i);
      var w := if prev - decay >= b[k] - gain then i else k;
      assert b[w] - gain - decay * (k - w) == Leak(b, from, k, gain, decay);
    }
  }

  // Where that is: the first of bands 2 to 6 from which power does not fall to the next, the low
  // frequency channel's last not counting, and band 6 if there is none.
  lemma {:induction false} LeakFromIff(b: seq<int>, isLfe: bool, bin: int, k: int)
    requires 2 <= bin <= 7 && |b| > 7
    ensures LeakFrom(b, isLfe, bin) == k <==>
      && (if bin < 7 then bin else 6) <= k <= 6
      && (forall i :: bin <= i < k ==> b[i] > b[i + 1])
      && (k == 6 || b[k] <= b[k + 1])
    decreases 7 - bin
  {
    if bin < 7 {
      LeakFromIff(b, isLfe, bin + 1, k);
    }
  }

  // What band j leaves of its power at band k.
  function Faded(b: seq<int>, j: int, k: int, gain: int, decay: int): int
    requires 0 <= j <= k < |b|
  {
    b[j] - gain - decay * (k - j)
  }

  // A curve is the lowest that keeps above the hearing threshold and, the knee added, above what
  // each lower band leaves, slow or fast, the fast less the compensation.
  lemma MaskingIff(t: Tables, b: seq<int>, c: Curve, k: int, x: int)
    requires Sound(t) && CurveOk(c) && 0 <= k < |b| == 50
    ensures var from, knee := LeakFrom(b, c.isLfe, 2), Max(c.dbknee - b[k], 0) / 4;
      var low := if k < 22 then Lowcomp(b, c.isLfe, k) else 0;
      Masking(t, b, c, k) <= x <==>
        && t.hth[c.fscod][ShiftDown(k, c.halfratecod)] <= x
        && if k <= from then b[k] - c.fgain - low + knee <= x
           else forall j :: from <= j <= k ==>
             Faded(b, j, k, c.fgain, c.fdecay) - low + knee <= x && Faded(b, j, k, c.sgain, c.sdecay) + knee <= x
  {
    var from := LeakFrom(b, c.isLfe, 2);
    if k > from {
      LeakIsMaximum(b, from, k, c.fgain, c.fdecay);
      LeakIsMaximum(b, from, k, c.sgain, c.sdecay);
      var i :| from <= i <= k && b[i] - c.fgain - c.fdecay * (k - i) == Leak(b, from, k, c.fgain, c.fdecay);
      var j :| from <= j <= k && b[j] - c.sgain - c.sdecay * (k - j) == Leak(b, from, k, c.sgain, c.sdecay);
      assert Faded(b, i, k, c.fgain, c.fdecay) == Leak(b, from, k, c.fgain, c.fdecay);
      assert Faded(b, j, k, c.sgain, c.sdecay) == Leak(b, from, k, c.sgain, c.sdecay);
    }
  }

  lemma OneStep(decay: int, n: int)
    ensures decay * (n + 1) == decay * n + decay
  {
  }

  lemma {:induction false} LeakAtMost(b: seq<int>, from: int, k: int, gain: int, decay: int, most: int)
    requires 0 <= k < |b| && from >= 0 && gain >= 0 && decay >= 0 && forall i :: 0 <= i <= k ==> b[i] <= most
    ensures Leak(b, from, k, gain, decay) <= most
  {
    if k > from {
      LeakAtMost(b, from, k - 1, gain, decay, most);
    }
  }

  // A masking curve stays between the hearing threshold and a bound from the strongest band.
  lemma MaskingRange(t: Tables, b: seq<int>, c: Curve, k: int, most: int)
    requires Sound(t) && CurveOk(c) && 0 <= k < |b| == 50
    requires 2112 <= most && forall i :: 0 <= i <= k ==> 0 <= b[i] <= most
    ensures 752 <= Masking(t, b, c, k) <= most + 704
  {
    var from := LeakFrom(b, c.isLfe, 2);
    LeakAtMost(b, from, k, c.fgain, c.fdecay, most);
    LeakAtMost(b, from, k, c.sgain, c.sdecay, most);
  }

  // Bands that a channel does not have, whose power was never set, do not reach its curve.
  lemma MaskingLocal(t: Tables, b: seq<int>, other: seq<int>, c: Curve, n: int, k: int)
    requires Sound(t) && CurveOk(c) && |b| == |other| == 50 && 0 <= k < n <= 50
    requires n >= 23 || (c.isLfe && n == 7)
    requires forall i :: 0 <= i < n ==> b[i] == other[i]
    ensures Masking(t, b, c, k) == Masking(t, other, c, k)
  {
    LeakFromLocal(b, other, c.isLfe, n, 2);
    LeakLocal(b, other, LeakFrom(b, c.isLfe, 2), n, k, c.fgain, c.fdecay);
    LeakLocal(b, other, LeakFrom(b, c.isLfe, 2), n, k, c.sgain, c.sdecay);
    if k < 22 {
      LowcompLocal(b, other, c.isLfe, n, k);
    }
  }

  lemma {:induction false} LeakFromLocal(b: seq<int>, other: seq<int>, isLfe: bool, n: int, bin: int)
    requires |b| == |other| == 50 && (n >= 23 || (isLfe && n == 7)) && 2 <= bin <= 7
    requires forall i :: 0 <= i < n && i < 50 ==> b[i] == other[i]
    ensures LeakFrom(b, isLfe, bin) == LeakFrom(other, isLfe, bin)
    decreases 7 - bin
  {
    if bin < 7 {
      LeakFromLocal(b, other, isLfe, n, bin + 1);
    }
  }

  lemma {:induction false} LeakLocal(b: seq<int>, other: seq<int>, from: int, n: int, k: int, gain: int, decay: int)
    requires |b| == |other| && from >= 0 && 0 <= k < n <= |b| && forall i :: 0 <= i < n ==> b[i] == other[i]
    ensures Leak(b, from, k, gain, decay) == Leak(other, from, k, gain, decay)
  {
    if k > from {
      LeakLocal(b, other, from, n, k - 1, gain, decay);
    }
  }

  lemma {:induction false} LowcompLocal(b: seq<int>, other: seq<int>, isLfe: bool, n: int, k: int)
    requires |b| == |other| == 50 && -1 <= k < n && ((n >= 23 && k < 22) || (isLfe && n == 7))
    requires forall i :: 0 <= i < n && i < 50 ==> b[i] == other[i]
    ensures Lowcomp(b, isLfe, k) == Lowcomp(other, isLfe, k)
  {
    if k >= 0 {
      LowcompLocal(b, other, isLfe, n, k - 1);
    }
  }

  // ff_ac3_bit_alloc_calc_mask without coupling and delta allocation, which the encoder does
  // not use.
  method CalcMask(t: Tables, masktab: seq<int>, c: Curve, bndpsd: array<int>, end: int, mask: array<int>)
    requires Sound(t) && CurveOk(c) && |masktab| == 253 && (forall k :: 0 <= k < 253 ==> masktab[k] == BandOf(k))
    requires 1 <= end <= 253 && bndpsd.Length == mask.Length == 50 && bndpsd != mask
    modifies mask
    ensures forall k :: 0 <= k <= BandOf(end - 1) ==> mask[k] == Masking(t, bndpsd[..], c, k)
    ensures forall k :: BandOf(end - 1) < k < 50 ==> mask[k] == old(mask[k])
  {
    var bndend := masktab[end - 1] + 1;
    BandsRise(end - 1, 252);
    var excite := new int[50];
    Excite(c, bndpsd, bndend, excite);
    for bin := 0 to bndend
      invariant forall k :: 0 <= k < bin ==> mask[k] == Masking(t, bndpsd[..], c, k)
      invariant forall k :: bin <= k < bndend ==> excite[k] == Excitation(bndpsd[..], c, k)
      invariant forall k :: bndend <= k < 50 ==> mask[k] == old(mask[k])
    {
      var tmp := c.dbknee - bndpsd[bin];
      if tmp > 0 {
        excite[bin] := excite[bin] + tmp / 4;
      }
      mask[bin] := Max(t.hth[c.fscod][ShiftDown(bin, c.halfratecod)], excite[bin]);
    }
  }

  ghost predicate Excited(b: seq<int>, c: Curve, excite: seq<int>, n: int)
    requires |b| == |excite| == 50
  {
    forall k :: 0 <= k < n && k < 50 ==> excite[k] == Excitation(b, c, k)
  }

  // The state of the leaks before band k.
  ghost predicate Leaking(b: seq<int>, c: Curve, k: int, fastleak: int, slowleak: int)
    requires |b| == 50
  {
    var from := LeakFrom(b, c.isLfe, 2);
    && from < k <= 50
    && fastleak == Leak(b, from, k - 1, c.fgain, c.fdecay) && slowleak == Leak(b, from, k - 1, c.sgain, c.sdecay)
  }

  // The first bands, in which leaks do not add up; the next band is begin.
  method ExciteFirst(c: Curve, bndpsd: array<int>, excite: array<int>)
      returns (begin: int, lowcomp: int, fastleak: int, slowleak: int)
    requires bndpsd.Length == excite.Length == 50 && bndpsd != excite
    modifies excite
    ensures begin == LeakFrom(bndpsd[..], c.isLfe, 2) + 1 && lowcomp == Lowcomp(bndpsd[..], c.isLfe, begin - 1)
    ensures Leaking(bndpsd[..], c, begin, fastleak, slowleak) && Excited(bndpsd[..], c, excite[..], begin)
  {
    ghost var b := bndpsd[..];
    lowcomp := 0;
    lowcomp := CalcLowcomp1(lowcomp, bndpsd[0], bndpsd[1], 384);
    excite[0] := bndpsd[0] - c.fgain - lowcomp;
    assert lowcomp == Lowcomp(b, c.isLfe, 0);
    lowcomp := CalcLowcomp1(lowcomp, bndpsd[1], bndpsd[2], 384);
    assert lowcomp == Lowcomp(b, c.isLfe, 1);
    excite[1] := bndpsd[1] - c.fgain - lowcomp;
    begin := 7;
    fastleak, slowleak := bndpsd[1] - c.fgain, bndpsd[1] - c.sgain;
    for bin := 2 to 7
      invariant begin == 7 && lowcomp == Lowcomp(b, c.isLfe, bin - 1)
      invariant LeakFrom(b, c.isLfe, 2) == LeakFrom(b, c.isLfe, bin)
      invariant fastleak == b[bin - 1] - c.fgain && slowleak == b[bin - 1] - c.sgain
      invariant Excited(b, c, excite[..], bin)
    {
      if !(c.isLfe && bin == 6) {
        lowcomp := CalcLowcomp1(lowcomp, bndpsd[bin], bndpsd[bin + 1], 384);
      }
      fastleak := bndpsd[bin] - c.fgain;
      slowleak := bndpsd[bin] - c.sgain;
      excite[bin] := fastleak - lowcomp;
      assert Excited(b, c, excite[..], bin + 1);
      if !(c.isLfe && bin == 6) {
        if bndpsd[bin] <= bndpsd[bin + 1] {
          begin := bin + 1;
          break;
        }
      }
    }
  }

  // The excitation function.
  method Excite(c: Curve, bndpsd: array<int>, bndend: int, excite: array<int>)
    requires bndpsd.Length == excite.Length == 50 && bndpsd != excite && 1 <= bndend <= 50
    modifies excite
    ensures Excited(bndpsd[..], c, excite[..], bndend)
  {
    ghost var b := bndpsd[..];
    var begin, lowcomp, fastleak, slowleak := ExciteFirst(c, bndpsd, excite);
    var end1 := Min(bndend, 22);
    var bin := begin;
    while bin < end1
      invariant begin <= bin && (bin <= end1 || bin == begin)
      invariant lowcomp == Lowcomp(b, c.isLfe, bin - 1)
      invariant Leaking(b, c, bin, fastleak, slowleak) && Excited(b, c, excite[..], bin)
    {
      if !(c.isLfe && bin == 6) {
        lowcomp := CalcLowcomp(lowcomp, bndpsd[bin], bndpsd[bin + 1], bin);
      }
      fastleak := Max(fastleak - c.fdecay, bndpsd[bin] - c.fgain);
      slowleak := Max(slowleak - c.sdecay, bndpsd[bin] - c.sgain);
      excite[bin] := Max(fastleak - lowcomp, slowleak);
      bin := bin + 1;
    }
    if bndend > 22 {
      for bin := 22 to bndend
        invariant Leaking(b, c, bin, fastleak, slowleak) && Excited(b, c, excite[..], bin)
      {
        fastleak := Max(fastleak - c.fdecay, bndpsd[bin] - c.fgain);
        slowleak := Max(slowleak - c.sdecay, bndpsd[bin] - c.sgain);
        excite[bin] := Max(fastleak, slowleak);
      }
    }
  }

  // ---- bits per mantissa ----

  const NONE: int := -960

  // x & 0x1FE0
  function Coarse(x: int): int
    requires x >= 0
  {
    x % 8192 / 32 * 32
  }

  // Below 8192 the mask only rounds down.
  lemma CoarseRoundsDown(x: int)
    requires x >= 0
    ensures Coarse(x) == x - x % 32 <==> x < 8192
  {
    var q, r := x / 8192, x % 8192;
    assert x == 8192 * q + r && r % 32 == x % 32;
  }

  function Level(m: int, snroffset: int, floor: int): int {
    Coarse(Max(m - snroffset - floor, 0)) + floor
  }

  // The bap of a bin with power p under mask m.
  function BapAt(t: Tables, m: int, p: int, snroffset: int, floor: int): (b: int)
    requires Sound(t)
    ensures 0 <= b <= 15
  {
    if snroffset == NONE then 0
    else t.baptab[Min(Max((p - Level(m, snroffset, floor)) / 32, 0), 63)]
  }

  lemma LevelFalls(m: int, floor: int, a: int, b: int)
    requires a <= b && m - a - floor < 8192
    ensures Level(m, b, floor) <= Level(m, a, floor)
  {
    CoarseRoundsDown(Max(m - a - floor, 0));
    CoarseRoundsDown(Max(m - b - floor, 0));
  }

  // A higher offset never takes bits from a bin, if the mask bits all count.
  lemma BapMonotone(t: Tables, m: int, p: int, floor: int, a: int, b: int)
    requires Sound(t) && NONE <= a <= b && m - a - floor < 8192
    ensures BapAt(t, m, p, a, floor) <= BapAt(t, m, p, b, floor)
  {
    LevelFalls(m, floor, a, b);
    var x, y := p - Level(m, a, floor), p - Level(m, b, floor);
    assert x / 32 <= y / 32;
  }

  // Beyond that range raising the offset can take bits away.
  lemma NotMonotoneBeyond(t: Tables)
    requires Sound(t)
    ensures BapAt(t, 8192, 3072, 0, 0) > BapAt(t, 8192, 3072, 1, 0)
  {
  }

  // For every channel the encoder can meet, exponents 0 to 24 and so powers 3072 to 0, each bin's
  // bap only grows with the offset.
  lemma EncoderBapsMonotone(t: Tables, psd: seq<int>, bndpsd: seq<int>, c: Curve, end: int, i: int, floor: int, a: int,
                            b: int)
    requires Sound(t) && CurveOk(c) && 1 <= end <= 253 && |bndpsd| == 50 && end <= |psd| && 0 <= i < end
    requires forall k :: 0 <= k < end ==> 0 <= psd[k] <= 3072
    requires IntegratedTo(t, psd, bndpsd, 0, end, BandOf(end - 1) + 1)
    requires 0 <= floor && NONE <= a <= b
    ensures 0 <= BandOf(i) < 50
    ensures var m := Masking(t, bndpsd, c, BandOf(i));
            752 <= m <= 5248 && BapAt(t, m, psd[i], a, floor) <= BapAt(t, m, psd[i], b, floor)
  {
    BandsRise(i, end - 1);
    var n := BandOf(end - 1) + 1;
    forall k | 0 <= k < n
      ensures 0 <= bndpsd[k] <= 4544
    {
      BandPowerRange(t, psd, bndpsd, end, k);
    }
    MaskingRange(t, bndpsd, c, BandOf(i), 4544);
    BapMonotone(t, Masking(t, bndpsd, c, BandOf(i)), psd[i], floor, a, b);
  }

  lemma BandPowerRange(t: Tables, psd: seq<int>, bndpsd: seq<int>, end: int, k: int)
    requires Sound(t) && 1 <= end <= 253 && |bndpsd| == 50 && end <= |psd| && 0 <= k <= BandOf(end - 1) < 50
    requires forall k :: 0 <= k < end ==> 0 <= psd[k] <= 3072
    requires IntegratedTo(t, psd, bndpsd, 0, end, BandOf(end - 1) + 1)
    ensures 0 <= bndpsd[k] <= 4544
  {
    assert bndpsd[k] == Integrated(t, psd, Lo(k, 0), Hi(k, end));
    IntegratedRange(t, psd, Lo(k, 0), Hi(k, end), 3072);
    NextBand(k);
    assert psd[Lo(k, 0)] >= 0;
  }

  // The bins from start to n have their baps.
  ghost predicate Allotted(t: Tables, mask: seq<int>, psd: seq<int>, bap: seq<int>, start: int, n: int, snroffset: int,
                           floor: int)
    requires Sound(t)
  {
    forall i :: start <= i < n && 0 <= i < |bap| && i < |psd| ==>
      0 <= BandOf(i) < |mask| && bap[i] == BapAt(t, mask[BandOf(i)], psd[i], snroffset, floor)
  }

  // One turn of the loop over bands.
  method AllotBand(t: Tables, mask: seq<int>, psd: seq<int>, bap: array<int>, start: int, first: int, end1: int, j: int,
                   snroffset: int, floor: int) returns (i: int)
    requires Sound(t) && snroffset != NONE && bap.Length == 256
    requires 0 <= start <= first <= 253 && end1 <= 253 && end1 <= |psd| && 0 <= j < |mask|
    requires forall k :: first <= k < end1 ==> BandOf(k) == j
    requires Allotted(t, mask, psd, bap[..], start, first, snroffset, floor)
    modifies bap
    ensures i == Max(first, end1) && Allotted(t, mask, psd, bap[..], start, i, snroffset, floor)
    ensures forall k :: 0 <= k < start ==> bap[k] == old(bap[k])
    ensures forall k :: i <= k < 256 ==> bap[k] == old(bap[k])
  {
    var v := Coarse(Max(mask[j] - snroffset - floor, 0)) + floor;
    i := first;
    while i < end1
      invariant first <= i <= Max(first, end1)
      invariant Allotted(t, mask, psd, bap[..], start, i, snroffset, floor)
      invariant forall k :: 0 <= k < start ==> bap[k] == old(bap[k])
      invariant forall k :: i <= k < 256 ==> bap[k] == old(bap[k])
    {
      var address := Min(Max((psd[i] - v) / 32, 0), 63);
      bap[i] := t.baptab[address];
      i := i + 1;
    }
  }

  // The loop looks whether to go on at the start of the band it has just done, so it does one more.
  function LastTurn(j: int, end: int): (last: int)
    requires 0 <= j <= 50 && end <= 253
    decreases 50 - j
  {
    if j < 50 && end > BandStart(j) then LastTurn(j + 1, end) else j
  }

  // The last band whose mask is read is the one after that of the last bin; of the 50 masks that
  // callers have it is one too many exactly from bin 230 on.
  lemma {:induction false} SurplusBand(start: int, end: int, j: int)
    requires 0 <= start < end <= 253 && BandOf(start) <= j <= BandOf(end - 1) + 1
    ensures 0 <= BandOf(start) && BandOf(end - 1) < 50
    ensures LastTurn(j, end) == BandOf(end - 1) + 1 && (LastTurn(j, end) == 50 <==> end > 229)
    decreases 50 - j
  {
    BandsRise(start, end - 1);
    LastBand(end, j);
    LastBand(end, 49);
    if j <= BandOf(end - 1) {
      SurplusBand(start, end, j + 1);
    }
  }

  // So a channel of 230 bins reads a mask that is not there, and one of 229 does not.
  lemma SurplusAt230(mask: seq<int>)
    requires |mask| == 50
    ensures LastTurn(0, 230) == |mask| && LastTurn(0, 229) < |mask|
  {
    SurplusBand(0, 230, 0);
    SurplusBand(0, 229, 0);
  }

  // ff_ac3_bit_alloc_calc_bap, for as many masks as it reads; the surplus band gets nothing.
  method CalcBap(t: Tables, bndtab: seq<int>, masktab: seq<int>, mask: seq<int>, psd: seq<int>, start: int, end: int,
                 snroffset: int, floor: int, bap: array<int>) returns (ghost last: int)
    requires Sound(t) && RightTables(bndtab, masktab) && 0 <= start < end <= 253
    requires |mask| > BandOf(end - 1) + 1 && |psd| >= end && bap.Length == 256
    modifies bap
    ensures snroffset != NONE ==> Allotted(t, mask, psd, bap[..], start, end, snroffset, floor)
    ensures snroffset != NONE ==> forall i :: 0 <= i < 256 && !(start <= i < end) ==> bap[i] == old(bap[i])
    ensures snroffset == NONE ==> forall i :: 0 <= i < 256 ==> bap[i] == 0
    ensures 0 <= BandOf(start) < 50 && (snroffset != NONE ==> last == LastTurn(BandOf(start), end))
  {
    last := 0;
    BandOfIff(start, 0);
    if snroffset == NONE {
      forall i | 0 <= i < 256 {
        bap[i] := 0;
      }
      return;
    }
    var i := start;
    var j := masktab[start];
    BandsRise(start, end - 1);
    StartsBefore(start, j);
    SurplusBand(start, end, j);
    ghost var final := BandOf(end - 1) + 1;
    var again := true;
    while again
      invariant 0 <= BandOf(start) <= j <= final + 1 && (again ==> j <= final)
      invariant again ==> i == From(start, end, j)
      invariant again || (i == end && last == final)
      invariant Allotted(t, mask, psd, bap[..], start, i, snroffset, floor)
      invariant forall k :: 0 <= k < start ==> bap[k] == old(bap[k])
      invariant forall k :: i <= k < 256 ==> bap[k] == old(bap[k])
      decreases 52 - j
    {
      last := j;
      var end1 := Min(bndtab[j] + BandSize(j), end);
      Turn(start, end, j, i, end1);
      i := AllotBand(t, mask, psd, bap, start, i, end1, j, snroffset, floor);
      again := end > bndtab[j];
      j := j + 1;
    }
  }

  // One turn: its bins are those of its band from start on, and it is the last if no bin is left.
  lemma Turn(start: int, end: int, j: int, i: int, end1: int)
    requires 0 <= start < end <= 253 && 0 <= BandOf(start) <= j <= BandOf(end - 1) + 1 <= 50
    requires i == From(start, end, j) && end1 == Min(BandStart(j) + BandSize(j), end)
    ensures start <= i && forall k :: i <= k < end1 ==> BandOf(k) == j
    ensures end > BandStart(j) <==> j <= BandOf(end - 1)
    ensures Max(i, end1) == if end > BandStart(j) then From(start, end, j + 1) else end
  {
    LastBand(end, j);
    if j < 50 {
      NextBand(j);
      StartsBefore(start, BandOf(start));
      EndsAfter(start, j);
    }
    AllInBand(i, end1, j);
  }

  // Where the turn for band j begins.
  function From(start: int, end: int, j: int): int { Min(Max(start, BandStart(j)), end) }

  lemma AllInBand(first: int, end1: int, j: int)
    requires 0 <= first && end1 <= 253 && 0 <= j <= 50
    requires first < end1 ==> j < 50 && BandStart(j) <= first && end1 <= BandStart(j + 1)
    ensures forall k :: first <= k < end1 ==> BandOf(k) == j
  {
    forall k | first <= k < end1
      ensures BandOf(k) == j
    {
      BandOfIff(k, j);
    }
  }
}
