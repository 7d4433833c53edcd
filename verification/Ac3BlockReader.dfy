// One block of the encoder's frames read back by the syntax of section 5.3.3 of ATSC A/52, from its
// bits and what the blocks before it left known: every flag and code is read where the syntax has
// it, and the bits of each mantissa follow from what has been read.
module Ac3BlockReader {
  import opened Bits
  import opened Ac3Config
  import opened Wrappers
  import opened Ac3Exponents
  import opened Ac3Block
  import A = Ac3BitAlloc
  import B = Ac3Bands
  import E = Ac3Encoder
  import M = Ac3Mantissa
  import P = Ac3Parameters
  import T = Ac3Tables

  function Place(x: int): nat { if x >= 0 then x else 0 }

  // ---- bit allocation ----

  // The curve that follows from a channel's exponents.
  function MaskedOf(t: T.Tables, exp: seq<int>, c: B.Curve): A.Masked
    requires T.Sound(t) && B.CurveOk(c)
  {
    if !(1 <= |exp| <= 229) then A.Masked([], [], 0)
    else
      var psd := seq(|exp|, i requires 0 <= i < |exp| => 3072 - 128 * exp[i]);
      var b := BandPower(t, psd);
      A.Masked(seq(50, k requires 0 <= k < 50 => B.Masking(t, b, c, k)), psd, |exp|)
  }

  function BandPower(t: T.Tables, psd: seq<int>): (b: seq<int>)
    requires T.Sound(t)
    ensures |b| == 50
  {
    seq(50, k =>
      if 0 <= B.Lo(k, 0) < B.Hi(k, |psd|) <= |psd| then B.Integrated(t, psd, B.Lo(k, 0), B.Hi(k, |psd|)) else 0)
  }

  lemma {:induction false} IntegratedSame(t: T.Tables, a: seq<int>, b: seq<int>, lo: int, hi: int)
    requires T.Sound(t) && 0 <= lo < hi <= |a| && hi <= |b| && forall i :: lo <= i < hi ==> a[i] == b[i]
    ensures B.Integrated(t, a, lo, hi) == B.Integrated(t, b, lo, hi)
    decreases hi
  {
    if hi > lo + 1 {
      IntegratedSame(t, a, b, lo, hi - 1);
    }
  }

  // Channels long enough for every part of the masking to be set, as the encoder's are.
  ghost predicate LongEnough(n: int, c: B.Curve) { 1 <= n <= 229 && (B.BandOf(n - 1) >= 22 || (c.isLfe && n == 7)) }

  lemma SamePower(t: T.Tables, x: A.Masked, exp: seq<int>, c: B.Curve, bndpsd: seq<int>, psd: seq<int>, k: int)
    requires T.Sound(t) && B.CurveOk(c) && A.MaskedOk(x) && x.bins == |exp| == |psd| && |bndpsd| == 50
    requires 1 <= |exp| <= 229
    requires A.FollowsFrom(t, x, bndpsd, c) && 0 <= k <= B.BandOf(|exp| - 1) < 50
    requires forall i :: 0 <= i < |exp| ==> x.psd[i] == psd[i]
    ensures bndpsd[k] == BandPower(t, psd)[k]
  {
    assert bndpsd[k] == B.Integrated(t, x.psd, B.Lo(k, 0), B.Hi(k, x.bins));
    IntegratedSame(t, x.psd, psd, B.Lo(k, 0), B.Hi(k, x.bins));
  }

  // Whatever curve follows from the exponents, the baps are those of this one.
  lemma SameRow(t: T.Tables, x: A.Masked, exp: seq<int>, c: B.Curve, snroffset: int, floor: int)
    requires T.Sound(t) && B.CurveOk(c) && LongEnough(|exp|, c) && A.IsMasked(t, x, exp, c)
    ensures A.RowOf(t, MaskedOf(t, exp, c), snroffset, floor) == A.RowOf(t, x, snroffset, floor)
  {
    var y := MaskedOf(t, exp, c);
    var bndpsd: seq<int> :| |bndpsd| == 50 && A.FollowsFrom(t, x, bndpsd, c);
    B.BandsRise(|exp| - 1, 228);
    var n := B.BandOf(|exp| - 1) + 1;
    forall k | 0 <= k < n
      ensures bndpsd[k] == BandPower(t, y.psd)[k]
    {
      SamePower(t, x, exp, c, bndpsd, y.psd, k);
    }
    forall k | 0 <= k < n
      ensures x.mask[k] == y.mask[k]
    {
      B.MaskingLocal(t, bndpsd, BandPower(t, y.psd), c, n, k);
    }
    RowsAgree(t, x, y, snroffset, floor);
  }

  lemma RowsAgree(t: T.Tables, x: A.Masked, y: A.Masked, snroffset: int, floor: int)
    requires T.Sound(t) && x.bins == y.bins <= 229 && |x.mask| == |y.mask| == 50 && |x.psd| >= x.bins
    requires |y.psd| >= x.bins
    requires forall i :: 0 <= i < x.bins ==> x.psd[i] == y.psd[i]
    requires forall k :: 0 <= k <= B.BandOf(x.bins - 1) && k < 50 ==> x.mask[k] == y.mask[k]
    ensures A.RowOf(t, x, snroffset, floor) == A.RowOf(t, y, snroffset, floor)
  {
    forall i | 0 <= i < x.bins
      ensures A.RowOf(t, x, snroffset, floor)[i] == A.RowOf(t, y, snroffset, floor)[i]
    {
      B.BandsRise(i, x.bins - 1);
    }
  }

  // ---- what is read ----

  // What the header says of a frame.
  datatype Stream = Stream(h: Shape, fscod: int, halfratecod: int)

  // Flags of a block that say nothing of where anything is.
  datatype Flags = Flags(switched: seq<int>, dither: seq<int>, gainRanges: seq<int>)

  // What a block may keep of those before it: exponents and bins of each channel, rematrixing, and
  // the parameters of bit allocation.
  datatype Known = Known(exps: seq<seq<int>>, bins: seq<int>, rematrixed: seq<int>, codes: Codes, csnroffst: int,
                         fine: seq<int>, gains: seq<int>)

  const NOTHING: Known := Known([], [], [], Codes(0, 0, 0, 0, 0), 0, [], [])

  // A block: its flags and strategies, what is known with it, baps of each bin, mantissas in the order
  // they came, and where the next begins.
  datatype Block = Block(flags: Flags, strat: seq<Strategy>, known: Known, baps: seq<seq<int>>, v: seq<int>,
                         next: int)

  function Bit(bits: seq<bool>, pos: nat): nat { if Get(bits, pos, 1) == 1 then 1 else 0 }

  function FlagRun(bits: seq<bool>, place: nat, n: nat): (s: seq<int>)
    ensures |s| == n
  {
    seq(n, k requires 0 <= k < n => Flag(bits, place, k))
  }

  // ---- flags ----

  // dynrnge; coupling comes after it, then in stereo rematrixing.
  function DynamicAt(h: Shape, pos: nat): nat { pos + 2 * h.full }

  function RematrixAt(bits: seq<bool>, h: Shape, pos: nat): nat {
    DynamicAt(h, pos) + 2 + Bit(bits, DynamicAt(h, pos) + 1)
  }

  function FlagsEnd(bits: seq<bool>, h: Shape, pos: nat): nat {
    var r := RematrixAt(bits, h, pos);
    if h.acmod == 2 then r + 1 + 4 * Bit(bits, r) else r
  }

  // No dynamic range word and no coupling; the first block says what there is to say.
  predicate Plain(bits: seq<bool>, h: Shape, pos: nat, first: bool) {
    var d := DynamicAt(h, pos);
    && Bit(bits, d) == 0 && (Bit(bits, d + 1) == 1 ==> Bit(bits, d + 2) == 0)
    && (first ==> Bit(bits, d + 1) == 1 && (h.acmod == 2 ==> Bit(bits, RematrixAt(bits, h, pos)) == 1))
  }

  function Rematrixed(bits: seq<bool>, h: Shape, pos: nat, before: seq<int>): seq<int> {
    var r := RematrixAt(bits, h, pos);
    if h.acmod == 2 && Bit(bits, r) == 1 then FlagRun(bits, r + 1, 4) else before
  }

  // ---- strategies, bandwidths and exponents ----

  function StrategyOf(code: int): Strategy {
    match code case 0 => Reuse case 1 => D15 case 2 => D25 case _ => D45
  }

  function ReadStrategies(bits: seq<bool>, h: Shape, place: nat): (s: seq<Strategy>)
    ensures |s| == h.all
  {
    seq(h.all, ch requires 0 <= ch < h.all => StrategyOf(Get(bits, place + 2 * ch, if ch < h.full then 2 else 1)))
  }

  // The bins of a channel, from its bandwidth code where that is new.
  function ReadBins(bits: seq<bool>, h: Shape, place: nat, strat: seq<Strategy>, before: seq<int>): (n: seq<int>)
    requires |strat| == h.all >= h.full
    ensures |n| == h.all
  {
    seq(h.all, ch requires 0 <= ch < h.all =>
      if ch >= h.full then 7
      else if strat[ch] != Reuse then (BandwidthAt(bits, place, strat, ch) + 12) * 3 + 37
      else if ch < |before| then before[ch] else 0)
  }

  predicate BinsOk(n: seq<int>) { forall ch :: 0 <= ch < |n| ==> 1 <= n[ch] <= 253 }

  // Where the exponents of channel n begin, those of the first at x.
  function ExponentsAt(h: Shape, bins: seq<int>, strat: seq<Strategy>, x: int, n: nat): int
    requires n <= |bins| == |strat|
  {
    if n == 0 then x
    else
      ExponentsAt(h, bins, strat, x, n - 1)
      + if strat[n - 1] == Reuse then 0
        else 4 + 7 * Triples(bins[n - 1], strat[n - 1]) + if n - 1 < h.full then 2 else 0
  }

  // New exponents, or those of the block before.
  function ReadExponents(bits: seq<bool>, place: nat, s: Strategy, n: int, before: seq<seq<int>>, ch: nat): seq<int> {
    if s == Reuse then if ch < |before| then before[ch] else []
    else Expanded(ReadGroups(bits, place, Place(Triples(n, s))), s, Place(n))
  }

  function AllExponents(bits: seq<bool>, h: Shape, places: seq<int>, strat: seq<Strategy>, bins: seq<int>,
                        before: seq<seq<int>>): (e: seq<seq<int>>)
    requires |strat| == |places| == |bins| == h.all
    ensures |e| == h.all
  {
    seq(h.all, ch requires 0 <= ch < h.all =>
      ReadExponents(bits, Place(places[ch]), strat[ch], bins[ch], before, ch))
  }

  function GainRanges(bits: seq<bool>, h: Shape, places: seq<int>, strat: seq<Strategy>, bins: seq<int>): seq<int>
    requires |strat| == |places| == |bins| == h.all >= h.full
  {
    seq(h.full, ch requires 0 <= ch < h.full =>
      if strat[ch] == Reuse then 0 else Get(bits, Place(places[ch] + 4 + 7 * Triples(bins[ch], strat[ch])), 2))
  }

  // How a block is laid out: where the exponents of each channel begin, and what follows the last.
  datatype Layout = Layout(strat: seq<Strategy>, bins: seq<int>, starts: seq<int>)

  function ReadLayout(bits: seq<bool>, h: Shape, pos: nat, first: bool, before: seq<int>): (l: Option<Layout>)
    requires h.all >= h.full
    ensures l.Some? ==> |l.value.strat| == |l.value.bins| == h.all && |l.value.starts| == h.all + 1
  {
    var place := FlagsEnd(bits, h, pos);
    var strat := ReadStrategies(bits, h, place);
    var w := place + 2 * h.full + if h.lfe then 1 else 0;
    var bins := ReadBins(bits, h, w, strat, before);
    if !Plain(bits, h, pos, first) || (first && Reuse in strat) || !BinsOk(bins) then None
    else Some(Layout(strat, bins, Starts(h, bins, strat, w + 6 * Fresh(strat, h.full))))
  }

  function Starts(h: Shape, bins: seq<int>, strat: seq<Strategy>, x: int): (places: seq<int>)
    requires |bins| == |strat| == h.all
    ensures |places| == h.all + 1
  {
    seq(h.all + 1, ch requires 0 <= ch < h.all + 1 => ExponentsAt(h, bins, strat, x, ch))
  }

  // A block up to its exponents.
  datatype Front = Front(flags: Flags, strat: seq<Strategy>, bins: seq<int>, rematrixed: seq<int>, exps: seq<seq<int>>,
                         end: nat)

  function ReadFront(bits: seq<bool>, h: Shape, pos: nat, first: bool, before: Known): Option<Front>
    requires h.all >= h.full
  {
    match ReadLayout(bits, h, pos, first, before.bins)
    case None => None
    case Some(l) => Some(FrontFrom(bits, h, pos, before, l))
  }

  // Once it is known where everything is;
  function FrontFrom(bits: seq<bool>, h: Shape, pos: nat, before: Known, l: Layout): Front
    requires |l.strat| == |l.bins| == h.all >= h.full && |l.starts| == h.all + 1
  {
    var places := l.starts[..h.all];
    Front(Flags(FlagRun(bits, pos, h.full), FlagRun(bits, pos + h.full, h.full),
                GainRanges(bits, h, places, l.strat, l.bins)),
          l.strat, l.bins, Rematrixed(bits, h, pos, before.rematrixed),
          AllExponents(bits, h, places, l.strat, l.bins, before.exps), Place(l.starts[h.all]))
  }

  // ---- parameters ----

  // The parameters of bit allocation, new or kept, and where the mantissas begin.
  datatype Side = Side(codes: Codes, csnroffst: int, fine: seq<int>, gains: seq<int>, end: nat)

  function ReadSide(bits: seq<bool>, h: Shape, a: nat, first: bool, before: Known): Option<Side> {
    var b := if Bit(bits, a) == 1 then a + 12 else a + 1;
    var d := if Bit(bits, b) == 1 then b + 7 + 7 * h.all else b + 1;
    // no delta bit allocation, and nothing to skip
    if (first && (Bit(bits, a) == 0 || Bit(bits, b) == 0)) || Bit(bits, d) == 1 || Bit(bits, d + 1) == 1 then None
    else Some(SideFrom(bits, h, a, b, d + 2, before))
  }

  function SideFrom(bits: seq<bool>, h: Shape, a: nat, b: nat, end: nat, before: Known): Side {
    var codes := if Bit(bits, a) == 1 then CodesAt(bits, a + 1) else before.codes;
    if Bit(bits, b) == 0 then Side(codes, before.csnroffst, before.fine, before.gains, end)
    else Side(codes, Get(bits, b + 1, 6), seq(h.all, ch requires 0 <= ch < h.all => Get(bits, b + 7 + 7 * ch, 4)),
              seq(h.all, ch requires 0 <= ch < h.all => Get(bits, b + 11 + 7 * ch, 3)), end)
  }

  // The curve of a channel.
  function CurveOf(s: Stream, k: Known, ch: nat): (c: B.Curve)
    ensures B.CurveOk(c)
  {
    P.CurveBy(k.codes, if ch < |k.gains| then k.gains[ch] else 0, s.fscod, s.halfratecod, s.h.lfe && ch == 5)
  }

  function AllBaps(t: T.Tables, s: Stream, k: Known): (b: seq<seq<int>>)
    requires T.Sound(t) && |k.exps| == s.h.all
    ensures |b| == s.h.all
  {
    seq(s.h.all, ch requires 0 <= ch < s.h.all =>
      A.RowOf(t, MaskedOf(t, k.exps[ch], CurveOf(s, k, ch)),
              A.SnrOffset(k.csnroffst, if ch < |k.fine| then k.fine[ch] else 0), P.FloorBy(k.codes)))
  }

  // ---- a block ----

  function ReadBlock(t: T.Tables, bits: seq<bool>, s: Stream, pos: nat, first: bool, before: Known): Option<Block>
    requires T.Sound(t) && s.h.all >= s.h.full
  {
    match ReadFront(bits, s.h, pos, first, before)
    case None => None
    case Some(f) =>
      match ReadSide(bits, s.h, f.end, first, before)
      case None => None
      case Some(d) => WithSide(t, bits, s, f, d)
  }

  function WithSide(t: T.Tables, bits: seq<bool>, s: Stream, f: Front, d: Side): Option<Block>
    requires T.Sound(t)
  {
    var k := Known(f.exps, f.bins, f.rematrixed, d.codes, d.csnroffst, d.fine, d.gains);
    if |f.exps| != s.h.all then None else Some(WithBaps(bits, f, k, AllBaps(t, s, k), d.end))
  }

  function WithBaps(bits: seq<bool>, f: Front, k: Known, baps: seq<seq<int>>, mantissas: nat): Block {
    var flat := M.Flat(baps);
    Block(f.flags, f.strat, k, baps, M.Mantissas(bits, mantissas, flat, |flat|), mantissas + M.SizeTo(flat, |flat|))
  }

  // ---- what is read is what was written ----

  lemma StrategiesRead(bits: seq<bool>, h: Shape, place: nat, strat: seq<Strategy>)
    requires |strat| == h.all >= h.full && SaysStrategies(bits, place, h, strat)
    ensures ReadStrategies(bits, h, place) == strat
  {
    forall ch | 0 <= ch < h.all
      ensures StrategyOf(Get(bits, place + 2 * ch, if ch < h.full then 2 else 1)) == strat[ch]
    {
      assert StrategyOf(Code(strat[ch])) == strat[ch];
    }
  }

  // Groups read and spread again are the encoded exponents.
  lemma GroupsSpread(bits: seq<bool>, place: nat, n: nat, s: Strategy, e: seq<int>, encoded: seq<int>)
    requires 1 <= n <= 253 && n % 3 == 1 && n <= |encoded| && Sent(encoded, e, s, n)
    requires GroupsAt(bits, place, Triples(n, s), e)
    ensures Expanded(ReadGroups(bits, place, Place(Triples(n, s))), s, n) == encoded[..n]
  {
    CoverageIff(n);
    assert Coded(n, s) == First(|e|, s) >= n;
  }

  // The exponents of a block: those sent, and those of the block before where they are reused.
  ghost predicate Follow(h: Shape, strat: seq<Strategy>, e: seq<seq<int>>, encoded: seq<seq<int>>,
                         before: seq<seq<int>>) {
    && |strat| == |e| == |encoded| == h.all
    && (forall ch :: 0 <= ch < h.all ==> |encoded[ch]| == 256)
    && forall ch :: 0 <= ch < h.all ==>
         if strat[ch] == Reuse then ch < |before| && before[ch] == encoded[ch][..Bins(h, ch)]
         else Sent(encoded[ch], e[ch], strat[ch], Bins(h, ch))
  }

  // What is known with a block of the encoder's.
  function KnownOf(h: Shape, o: Offsets, encoded: seq<seq<int>>): Known
    requires |encoded| == h.all && forall ch :: 0 <= ch < h.all ==> |encoded[ch]| == 256
  {
    Known(E.Cut(h, encoded), AllBins(h), if h.acmod == 2 then [0, 0, 0, 0] else [], CODES, o.csnroffst,
          seq(h.all, _ => o.fsnroffst), seq(h.all, _ => FGAIN))
  }

  function AllBins(h: Shape): (n: seq<int>)
    ensures |n| == h.all
  {
    seq(h.all, ch => Bins(h, ch))
  }

  // Long blocks with dither and no gain range.
  function FlagsOf(h: Shape): Flags {
    Flags(seq(h.full, _ => 0), seq(h.full, _ => 1), seq(h.full, _ => 0))
  }

  // The first block says all that is kept, and the others keep it.
  ghost predicate Carries(h: Shape, o: Offsets, first: bool, strat: seq<Strategy>, before: Known) {
    if first then before == NOTHING && Reuse !in strat
    else
      && before.bins == AllBins(h) && before.rematrixed == (if h.acmod == 2 then [0, 0, 0, 0] else [])
      && before.codes == CODES && before.csnroffst == o.csnroffst && before.fine == seq(h.all, _ => o.fsnroffst)
      && before.gains == seq(h.all, _ => FGAIN)
  }

  // ---- flags read ----

  function CommonFlagAt(bits: seq<bool>, pos: nat, h: Shape, k: nat): int { Flag(bits, pos, 2 * h.full + k) }

  ghost predicate CommonAt(bits: seq<bool>, pos: nat, h: Shape, first: bool) {
    forall k: nat {:trigger CommonFlagAt(bits, pos, h, k)} :: k < |CommonFlags(h, first)| ==>
      CommonFlagAt(bits, pos, h, k) == CommonFlags(h, first)[k].value
  }

  lemma FlagsAt(bits: seq<bool>, pos: nat, h: Shape, first: bool)
    requires SaysFlags(bits, pos, h, first)
    ensures FlagRun(bits, pos, h.full) == seq(h.full, _ => 0)
    ensures FlagRun(bits, pos + h.full, h.full) == seq(h.full, _ => 1)
    ensures CommonAt(bits, pos, h, first)
  {
    var f := FlagFields(h, first);
    var blksw, dith := FlagRun(bits, pos, h.full), FlagRun(bits, pos + h.full, h.full);
    forall k: nat | k < h.full
      ensures blksw[k] == 0
    {
      assert f[k] == Field(1, 0) && Flag(bits, pos, k) == 0;
    }
    forall k: nat | k < h.full
      ensures dith[k] == 1
    {
      assert f[h.full + k] == Field(1, 1) && Flag(bits, pos, h.full + k) == 1;
    }
    forall k: nat | k < |CommonFlags(h, first)|
      ensures CommonFlagAt(bits, pos, h, k) == CommonFlags(h, first)[k].value
    {
      assert f[2 * h.full + k] == CommonFlags(h, first)[k];
    }
  }

  lemma CommonValues(h: Shape, first: bool)
    ensures var f := CommonFlags(h, first);
      && |f| == (if first then 3 else 2) + (if h.acmod != 2 then 0 else if first then 5 else 1)
      && f[0].value == 0 && f[1].value == (if first then 1 else 0) && (first ==> f[2].value == 0)
      && (h.acmod == 2 && first ==> f[3].value == 1 && forall k :: 4 <= k < 8 ==> f[k].value == 0)
      && (h.acmod == 2 && !first ==> f[2].value == 0)
  {
    var f := CommonFlags(h, first);
    if h.acmod == 2 && first {
      assert f == [Field(1, 0), Field(1, 1), Field(1, 0), Field(1, 1)] + Repeat(4, Field(1, 0));
    } else if first {
      assert f == [Field(1, 0), Field(1, 1), Field(1, 0)];
    } else if h.acmod == 2 {
      assert f == [Field(1, 0), Field(1, 0), Field(1, 0)];
    } else {
      assert f == [Field(1, 0), Field(1, 0)];
    }
  }

  lemma CommonRead(bits: seq<bool>, pos: nat, h: Shape, first: bool)
    requires CommonAt(bits, pos, h, first)
    ensures Plain(bits, h, pos, first) && FlagsEnd(bits, h, pos) == pos + FlagBits(h, first)
    ensures h.acmod == 2 ==> RematrixAt(bits, h, pos) == pos + 2 * h.full + (if first then 3 else 2)
    ensures h.acmod == 2 ==> Bit(bits, RematrixAt(bits, h, pos)) == if first then 1 else 0
  {
    var d := 2 * h.full;
    CommonValues(h, first);
    assert CommonFlagAt(bits, pos, h, 0) == Get(bits, pos + d, 1);
    assert CommonFlagAt(bits, pos, h, 1) == Get(bits, pos + d + 1, 1);
    if first {
      assert CommonFlagAt(bits, pos, h, 2) == Get(bits, pos + d + 2, 1);
      if h.acmod == 2 {
        assert CommonFlagAt(bits, pos, h, 3) == Get(bits, pos + d + 3, 1);
      }
    } else if h.acmod == 2 {
      assert CommonFlagAt(bits, pos, h, 2) == Get(bits, pos + d + 2, 1);
    }
  }

  lemma FlagsRead(bits: seq<bool>, pos: nat, h: Shape, first: bool, before: seq<int>)
    requires SaysFlags(bits, pos, h, first)
    requires before == if first || h.acmod != 2 then [] else [0, 0, 0, 0]
    ensures Plain(bits, h, pos, first) && FlagsEnd(bits, h, pos) == pos + FlagBits(h, first)
    ensures FlagRun(bits, pos, h.full) == seq(h.full, _ => 0)
    ensures FlagRun(bits, pos + h.full, h.full) == seq(h.full, _ => 1)
    ensures Rematrixed(bits, h, pos, before) == if h.acmod == 2 then [0, 0, 0, 0] else []
  {
    FlagsAt(bits, pos, h, first);
    CommonRead(bits, pos, h, first);
    if first && h.acmod == 2 {
      CommonValues(h, first);
      var w := FlagRun(bits, pos + 2 * h.full + 4, 4);
      forall k: nat | k < 4
        ensures w[k] == 0
      {
        assert CommonFlagAt(bits, pos, h, 4 + k) == 0;
      }
    }
  }

  // ---- exponents read ----

  lemma BinsRead(bits: seq<bool>, h: Shape, place: nat, strat: seq<Strategy>, before: seq<int>)
    requires |strat| == h.all >= h.full && SaysBandwidths(bits, place, h, strat)
    requires Reuse in strat ==> before == AllBins(h)
    ensures ReadBins(bits, h, place, strat, before) == AllBins(h) && BinsOk(AllBins(h))
  {
    forall ch: nat | ch < h.all
      ensures ReadBins(bits, h, place, strat, before)[ch] == Bins(h, ch)
    {
      if ch < h.full && strat[ch] != Reuse {
        assert BandwidthAt(bits, place, strat, ch) == BANDWIDTH;
      }
    }
  }

  lemma {:induction false} PlacesRead(h: Shape, strat: seq<Strategy>, x: int, n: nat)
    requires |strat| == h.all >= h.full && n <= h.all
    ensures ExponentsAt(h, AllBins(h), strat, x, n)
         == x + ExponentSize(h, strat, n) + 2 * Fresh(strat, if n < h.full then n else h.full)
  {
    if n > 0 {
      PlacesRead(h, strat, x, n - 1);
    }
  }

  lemma ExponentsRead(bits: seq<bool>, h: Shape, places: seq<int>, strat: seq<Strategy>, e: seq<seq<int>>,
                      encoded: seq<seq<int>>, before: seq<seq<int>>)
    requires ShapeOk(h) && ExponentsOk(h, strat, e) && Follow(h, strat, e, encoded, before)
    requires SaysExponents(bits, places, h, strat, e)
    ensures AllExponents(bits, h, places, strat, AllBins(h), before) == E.Cut(h, encoded)
    ensures GainRanges(bits, h, places, strat, AllBins(h)) == seq(h.full, _ => 0)
  {
    RangesRead(bits, h, places, strat, e);
    var got, want := AllExponents(bits, h, places, strat, AllBins(h), before), E.Cut(h, encoded);
    forall ch: nat | ch < h.all
      ensures got[ch] == want[ch]
    {
      ChannelRead(bits, h, places, strat, e, encoded, before, ch);
    }
    assert got == want;
  }

  lemma ChannelRead(bits: seq<bool>, h: Shape, places: seq<int>, strat: seq<Strategy>, e: seq<seq<int>>,
                    encoded: seq<seq<int>>, before: seq<seq<int>>, ch: nat)
    requires ShapeOk(h) && ExponentsOk(h, strat, e) && Follow(h, strat, e, encoded, before) && ch < h.all
    requires SaysExponents(bits, places, h, strat, e)
    ensures ReadExponents(bits, Place(places[ch]), strat[ch], Bins(h, ch), before, ch) == encoded[ch][..Bins(h, ch)]
  {
    if strat[ch] != Reuse {
      assert ChannelSays(bits, places[ch], h, ch, Triples(Bins(h, ch), strat[ch]), e[ch]);
      GroupsSpread(bits, Place(places[ch]), Bins(h, ch), strat[ch], e[ch], encoded[ch]);
    }
  }

  lemma RangesRead(bits: seq<bool>, h: Shape, places: seq<int>, strat: seq<Strategy>, e: seq<seq<int>>)
    requires ShapeOk(h) && ExponentsOk(h, strat, e) && SaysExponents(bits, places, h, strat, e)
    ensures GainRanges(bits, h, places, strat, AllBins(h)) == seq(h.full, _ => 0)
  {
    forall ch: nat | ch < h.full && strat[ch] != Reuse
      ensures Get(bits, Place(places[ch] + 4 + 7 * Triples(Bins(h, ch), strat[ch])), 2) == 0
    {
      assert ChannelSays(bits, places[ch], h, ch, Triples(Bins(h, ch), strat[ch]), e[ch]);
    }
  }

  // The front of a block of the encoder's.
  function FrontOf(h: Shape, strat: seq<Strategy>, encoded: seq<seq<int>>, end: int): Front
    requires |encoded| == h.all && forall ch :: 0 <= ch < h.all ==> |encoded[ch]| == 256
  {
    Front(FlagsOf(h), strat, AllBins(h), if h.acmod == 2 then [0, 0, 0, 0] else [], E.Cut(h, encoded), Place(end))
  }

  lemma FrontRead(bits: seq<bool>, h: Shape, pos: nat, first: bool, o: Offsets, before: Known, p: Places,
                  strat: seq<Strategy>, e: seq<seq<int>>, encoded: seq<seq<int>>)
    requires ShapeOk(h) && ExponentsOk(h, strat, e) && Follow(h, strat, e, encoded, before.exps)
    requires Carries(h, o, first, strat, before) && p == PlacesOf(pos, h, first, strat) && p.offsets >= 0
    requires SaysFlags(bits, p.flags, h, first) && SaysStrategies(bits, p.strategies, h, strat)
    requires SaysBandwidths(bits, p.bandwidths, h, strat) && SaysExponents(bits, p.exponents, h, strat, e)
    ensures ReadFront(bits, h, pos, first, before) == Some(FrontOf(h, strat, encoded, p.offsets))
  {
    var l := Layout(strat, AllBins(h), p.exponents + [p.offsets]);
    FlagsRead(bits, pos, h, first, before.rematrixed);
    LayoutRead(bits, h, pos, first, before.bins, p, l);
    FrontFromRead(bits, h, pos, before, p, strat, e, encoded, l);
    FrontIs(bits, h, pos, first, before, l, FrontOf(h, strat, encoded, p.offsets));
  }

  lemma LayoutRead(bits: seq<bool>, h: Shape, pos: nat, first: bool, before: seq<int>, p: Places, l: Layout)
    requires ShapeOk(h) && |l.strat| == h.all && p == PlacesOf(pos, h, first, l.strat)
    requires if first then Reuse !in l.strat else before == AllBins(h)
    requires Plain(bits, h, pos, first) && FlagsEnd(bits, h, pos) == pos + FlagBits(h, first)
    requires SaysStrategies(bits, p.strategies, h, l.strat) && SaysBandwidths(bits, p.bandwidths, h, l.strat)
    requires l == Layout(l.strat, AllBins(h), p.exponents + [p.offsets])
    ensures ReadLayout(bits, h, pos, first, before) == Some(l)
  {
    StrategiesRead(bits, h, p.strategies, l.strat);
    BinsRead(bits, h, p.bandwidths, l.strat, before);
    StartsMatch(h, pos, first, l.strat, p, p.bandwidths + 6 * Fresh(l.strat, h.full));
    LayoutIs(bits, h, pos, first, before, p.strategies, p.bandwidths, l);
  }

  lemma LayoutIs(bits: seq<bool>, h: Shape, pos: nat, first: bool, before: seq<int>, place: nat, w: nat, l: Layout)
    requires h.all >= h.full && Plain(bits, h, pos, first) && place == FlagsEnd(bits, h, pos)
    requires l.strat == ReadStrategies(bits, h, place) && (first ==> Reuse !in l.strat)
    requires w == place + 2 * h.full + if h.lfe then 1 else 0
    requires l.bins == ReadBins(bits, h, w, l.strat, before) && BinsOk(l.bins)
    requires l.starts == Starts(h, l.bins, l.strat, w + 6 * Fresh(l.strat, h.full))
    ensures ReadLayout(bits, h, pos, first, before) == Some(l)
  {
  }

  lemma FrontIs(bits: seq<bool>, h: Shape, pos: nat, first: bool, before: Known, l: Layout, f: Front)
    requires h.all >= h.full && ReadLayout(bits, h, pos, first, before.bins) == Some(l)
    requires FrontFrom(bits, h, pos, before, l) == f
    ensures ReadFront(bits, h, pos, first, before) == Some(f)
  {
  }

  lemma StartIs(h: Shape, pos: nat, first: bool, strat: seq<Strategy>, x: int, ch: nat)
    requires |strat| == h.all && ShapeOk(h) && ch <= h.all
    requires x == pos + FlagBits(h, first) + 2 * h.full + (if h.lfe then 1 else 0) + 6 * Fresh(strat, h.full)
    ensures pos + ExponentPlace(h, first, strat, ch) == ExponentsAt(h, AllBins(h), strat, x, ch)
  {
    PlacesRead(h, strat, x, ch);
  }

  lemma StartsMatch(h: Shape, pos: nat, first: bool, strat: seq<Strategy>, p: Places, x: int)
    requires |strat| == h.all && ShapeOk(h) && p == PlacesOf(pos, h, first, strat)
    requires x == p.bandwidths + 6 * Fresh(strat, h.full)
    ensures p.exponents + [p.offsets] == Starts(h, AllBins(h), strat, x)
  {
    forall ch: nat | ch <= h.all
      ensures pos + ExponentPlace(h, first, strat, ch) == ExponentsAt(h, AllBins(h), strat, x, ch)
    {
      StartIs(h, pos, first, strat, x, ch);
    }
    SameStarts(p.exponents, p.offsets, Starts(h, AllBins(h), strat, x));
  }

  lemma SameStarts(places: seq<int>, end: int, starts: seq<int>)
    requires |starts| == |places| + 1 && starts[|places|] == end
    requires forall ch :: 0 <= ch < |places| ==> starts[ch] == places[ch]
    ensures places + [end] == starts
  {
  }

  lemma FrontFromRead(bits: seq<bool>, h: Shape, pos: nat, before: Known, p: Places, strat: seq<Strategy>,
                      e: seq<seq<int>>, encoded: seq<seq<int>>, l: Layout)
    requires ShapeOk(h) && ExponentsOk(h, strat, e) && Follow(h, strat, e, encoded, before.exps) && p.offsets >= 0
    requires |p.exponents| == h.all && l == Layout(strat, AllBins(h), p.exponents + [p.offsets])
    requires SaysExponents(bits, p.exponents, h, strat, e)
    requires FlagRun(bits, pos, h.full) == seq(h.full, _ => 0)
    requires FlagRun(bits, pos + h.full, h.full) == seq(h.full, _ => 1)
    requires Rematrixed(bits, h, pos, before.rematrixed) == if h.acmod == 2 then [0, 0, 0, 0] else []
    ensures FrontFrom(bits, h, pos, before, l) == FrontOf(h, strat, encoded, p.offsets)
  {
    assert l.starts[..h.all] == p.exponents && l.starts[h.all] == p.offsets;
    ExponentsRead(bits, h, p.exponents, strat, e, encoded, before.exps);
  }

  // ---- parameters read ----

  // The parameters of every block of the encoder's.
  function SideOf(h: Shape, o: Offsets, end: int): Side {
    Side(CODES, o.csnroffst, seq(h.all, _ => o.fsnroffst), seq(h.all, _ => FGAIN), Place(end))
  }

  lemma SideRead(bits: seq<bool>, h: Shape, place: nat, first: bool, o: Offsets, strat: seq<Strategy>, before: Known)
    requires Carries(h, o, first, strat, before) && SaysAllocation(bits, place, h, first, o)
    ensures ReadSide(bits, h, place, first, before)
         == Some(SideOf(h, o, place + if first then 21 + 7 * h.all else 4))
  {
    if first {
      FirstSide(bits, h, place, o, before);
    } else {
      assert Flag(bits, place, 0) == Get(bits, place, 1) && Flag(bits, place, 1) == Get(bits, place + 1, 1);
      assert Flag(bits, place, 2) == Get(bits, place + 2, 1) && Flag(bits, place, 3) == Get(bits, place + 3, 1);
    }
  }

  lemma FirstSide(bits: seq<bool>, h: Shape, place: nat, o: Offsets, before: Known)
    requires SaysAllocation(bits, place, h, true, o)
    ensures ReadSide(bits, h, place, true, before)
         == Some(SideOf(h, o, place + 21 + 7 * h.all))
  {
    var b, end := place + 12, place + 19 + 7 * h.all;
    assert Flag(bits, end, 0) == Get(bits, end, 1) && Flag(bits, end, 1) == Get(bits, end + 1, 1);
    forall ch: nat | ch < h.all
      ensures Get(bits, b + 7 + 7 * ch, 4) == o.fsnroffst && Get(bits, b + 11 + 7 * ch, 3) == FGAIN
    {
      assert FineOffset(bits, place, ch) == o.fsnroffst && GainCode(bits, place, ch) == FGAIN;
    }
    assert seq(h.all, ch requires 0 <= ch < h.all => Get(bits, b + 7 + 7 * ch, 4)) == seq(h.all, _ => o.fsnroffst);
    assert seq(h.all, ch requires 0 <= ch < h.all => Get(bits, b + 11 + 7 * ch, 3)) == seq(h.all, _ => FGAIN);
    assert b + 7 + 7 * h.all == end;
    SideIs(bits, h, place, o, before, b, end + 2);
  }

  lemma SideIs(bits: seq<bool>, h: Shape, place: nat, o: Offsets, before: Known, b: nat, end: nat)
    requires b == place + 12 && end == b + 9 + 7 * h.all && SaysParameters(bits, place, o)
    requires Bit(bits, end - 2) == Bit(bits, end - 1) == 0
    requires seq(h.all, ch requires 0 <= ch < h.all => Get(bits, b + 7 + 7 * ch, 4)) == seq(h.all, _ => o.fsnroffst)
    requires seq(h.all, ch requires 0 <= ch < h.all => Get(bits, b + 11 + 7 * ch, 3)) == seq(h.all, _ => FGAIN)
    ensures ReadSide(bits, h, place, true, before)
         == Some(SideOf(h, o, end))
  {
  }

  // ---- baps read ----

  // The curves the encoder allocates by.
  function CurvesOf(s: Stream): (c: seq<B.Curve>)
    ensures |c| == s.h.all && forall ch :: 0 <= ch < s.h.all ==> B.CurveOk(c[ch])
  {
    seq(s.h.all, ch requires 0 <= ch < s.h.all => CurveFor(s, ch))
  }

  function CurveFor(s: Stream, ch: nat): (c: B.Curve)
    ensures B.CurveOk(c)
  {
    E.CurveFor(s.fscod, s.halfratecod, s.h.lfe && ch == 5)
  }

  // A low frequency channel comes after five others.
  predicate SixthIsLfe(h: Shape) { h.lfe ==> h.full == 5 }

  lemma BinsLongEnough(h: Shape, c: B.Curve, ch: nat)
    requires ch >= h.full ==> c.isLfe
    ensures LongEnough(Bins(h, ch), c)
  {
  }

  lemma BapsRead(t: T.Tables, s: Stream, encoded: seq<seq<int>>, block: seq<A.Masked>, o: Offsets)
    requires T.Sound(t) && |encoded| == s.h.all && (forall ch :: 0 <= ch < s.h.all ==> |encoded[ch]| == 256)
    requires A.BlockMasked(t, block, E.Cut(s.h, encoded), CurvesOf(s))
    requires ShapeOk(s.h) && SixthIsLfe(s.h)
    ensures AllBaps(t, s, KnownOf(s.h, o, encoded))
         == A.RowsOf(t, block, A.SnrOffset(o.csnroffst, o.fsnroffst), E.FLOOR)
  {
    var sn, exps, k := A.SnrOffset(o.csnroffst, o.fsnroffst), E.Cut(s.h, encoded), KnownOf(s.h, o, encoded);
    forall ch: nat | ch < s.h.all
      ensures A.RowOf(t, MaskedOf(t, exps[ch], CurveOf(s, k, ch)), sn, P.FloorBy(CODES))
           == A.RowOf(t, block[ch], sn, E.FLOOR)
    {
      var c := CurvesOf(s)[ch];
      P.CodesGiveCurve(s.fscod, s.halfratecod, s.h.lfe && ch == 5);
      BinsLongEnough(s.h, c, ch);
      SameRow(t, block[ch], exps[ch], c, sn, E.FLOOR);
    }
  }

  // ---- the whole block ----

  // What a block at these places should be read as.
  function Expected(h: Shape, o: Offsets, mantissas: int, strat: seq<Strategy>, encoded: seq<seq<int>>,
                    baps: seq<seq<int>>, v: seq<int>): Block
    requires |encoded| == h.all && forall ch :: 0 <= ch < h.all ==> |encoded[ch]| == 256
  {
    Block(FlagsOf(h), strat, KnownOf(h, o, encoded), baps, v, mantissas + M.SizeTo(M.Flat(baps), |M.Flat(baps)|))
  }

  lemma MantissasAfter(h: Shape, pos: nat, first: bool, strat: seq<Strategy>, p: Places)
    requires |strat| == h.all && ShapeOk(h) && p == PlacesOf(pos, h, first, strat)
    ensures p.mantissas == p.offsets + if first then 21 + 7 * h.all else 4
  {
  }

  // From the place before it, and from what the blocks before it left known.
  lemma BlockIsRead(t: T.Tables, bits: seq<bool>, s: Stream, o: Offsets, pos: nat, first: bool, before: Known,
                    p: Places, strat: seq<Strategy>, e: seq<seq<int>>, encoded: seq<seq<int>>, block: seq<A.Masked>,
                    baps: seq<seq<int>>, v: seq<int>)
    requires T.Sound(t) && ShapeOk(s.h) && ExponentsOk(s.h, strat, e) && Follow(s.h, strat, e, encoded, before.exps)
    requires A.BlockMasked(t, block, E.Cut(s.h, encoded), CurvesOf(s))
    requires baps == A.RowsOf(t, block, A.SnrOffset(o.csnroffst, o.fsnroffst), E.FLOOR)
    requires ShapeOk(s.h) && SixthIsLfe(s.h)
    requires Carries(s.h, o, first, strat, before)
    requires p == PlacesOf(pos, s.h, first, strat) && Says(bits, p, s.h, first, strat, e, o, M.Flat(baps), v)
    ensures ReadBlock(t, bits, s, pos, first, before) == Some(Expected(s.h, o, p.mantissas, strat, encoded, baps, v))
  {
    var f, d := FrontOf(s.h, strat, encoded, p.offsets), SideOf(s.h, o, p.mantissas);
    PartsRead(bits, s.h, o, pos, first, before, p, strat, e, encoded, M.Flat(baps), v, f, d);
    BapsRead(t, s, encoded, block, o);
    ReadBlockIs(t, bits, s, pos, first, before, f, d);
    WithSideRead(t, bits, s, f, d, KnownOf(s.h, o, encoded), baps, v);
  }

  lemma PartsRead(bits: seq<bool>, h: Shape, o: Offsets, pos: nat, first: bool, before: Known, p: Places,
                  strat: seq<Strategy>, e: seq<seq<int>>, encoded: seq<seq<int>>, b: seq<int>, v: seq<int>,
                  f: Front, d: Side)
    requires ShapeOk(h) && ExponentsOk(h, strat, e) && Follow(h, strat, e, encoded, before.exps)
    requires Carries(h, o, first, strat, before)
    requires p == PlacesOf(pos, h, first, strat) && Says(bits, p, h, first, strat, e, o, b, v)
    requires f == FrontOf(h, strat, encoded, p.offsets) && d == SideOf(h, o, p.mantissas)
    ensures ReadFront(bits, h, pos, first, before) == Some(f)
    ensures ReadSide(bits, h, f.end, first, before) == Some(d) && MantissasAt(bits, d.end, b, v)
  {
    FrontRead(bits, h, pos, first, o, before, p, strat, e, encoded);
    SidePart(bits, h, pos, first, o, before, p, strat, b, v, f.end, d);
  }

  lemma SidePart(bits: seq<bool>, h: Shape, pos: nat, first: bool, o: Offsets, before: Known, p: Places,
                 strat: seq<Strategy>, b: seq<int>, v: seq<int>, place: nat, d: Side)
    requires |strat| == h.all && ShapeOk(h)
    requires Carries(h, o, first, strat, before) && p == PlacesOf(pos, h, first, strat)
    requires SaysAllocation(bits, p.offsets, h, first, o) && MantissasAt(bits, p.mantissas, b, v)
    requires place == Place(p.offsets) && d == SideOf(h, o, p.mantissas)
    ensures ReadSide(bits, h, place, first, before) == Some(d) && MantissasAt(bits, d.end, b, v)
  {
    MantissasAfter(h, pos, first, strat, p);
    SideRead(bits, h, place, first, o, strat, before);
  }

  lemma WithSideRead(t: T.Tables, bits: seq<bool>, s: Stream, f: Front, d: Side, k: Known, baps: seq<seq<int>>,
                     v: seq<int>)
    requires T.Sound(t) && |f.exps| == s.h.all
    requires k == Known(f.exps, f.bins, f.rematrixed, d.codes, d.csnroffst, d.fine, d.gains)
    requires AllBaps(t, s, k) == baps && MantissasAt(bits, d.end, M.Flat(baps), v)
    ensures WithSide(t, bits, s, f, d)
         == Some(Block(f.flags, f.strat, k, baps, v, d.end + M.SizeTo(M.Flat(baps), |M.Flat(baps)|)))
  {
    WithBapsIs(bits, f, k, baps, d.end, v);
    WithSideIs(t, bits, s, f, d, k, baps);
  }

  lemma ReadBlockIs(t: T.Tables, bits: seq<bool>, s: Stream, pos: nat, first: bool, before: Known, f: Front, d: Side)
    requires T.Sound(t) && s.h.all >= s.h.full && ReadFront(bits, s.h, pos, first, before) == Some(f)
    requires ReadSide(bits, s.h, f.end, first, before) == Some(d)
    ensures ReadBlock(t, bits, s, pos, first, before) == WithSide(t, bits, s, f, d)
  {
  }

  lemma WithSideIs(t: T.Tables, bits: seq<bool>, s: Stream, f: Front, d: Side, k: Known, baps: seq<seq<int>>)
    requires T.Sound(t) && |f.exps| == s.h.all
    requires k == Known(f.exps, f.bins, f.rematrixed, d.codes, d.csnroffst, d.fine, d.gains)
    requires AllBaps(t, s, k) == baps
    ensures WithSide(t, bits, s, f, d) == Some(WithBaps(bits, f, k, baps, d.end))
  {
  }

  lemma WithBapsIs(bits: seq<bool>, f: Front, k: Known, baps: seq<seq<int>>, mantissas: nat, v: seq<int>)
    requires MantissasAt(bits, mantissas, M.Flat(baps), v)
    ensures WithBaps(bits, f, k, baps, mantissas)
         == Block(f.flags, f.strat, k, baps, v, mantissas + M.SizeTo(M.Flat(baps), |M.Flat(baps)|))
  {
  }
}
