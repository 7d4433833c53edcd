// Audio blocks of an AC-3 frame, section 5.3.3 of ATSC A/52: what the encoder writes around
// exponents and mantissas, and that its size was predicted to the bit.
module Ac3Block {
  import opened Sums
  import opened Bits
  import opened Ac3Config
  import opened Ac3Exponents
  import opened Ac3Header
  import M = Ac3Mantissa

  const BANDWIDTH: int := 50
  const FGAIN: int := 4

  // Codes of the parameters of bit allocation that all channels share.
  datatype Codes = Codes(sdecay: int, fdecay: int, sgain: int, dbknee: int, floor: int)

  // The defaults of compute_bit_allocation.
  const CODES: Codes := Codes(2, 1, 1, 2, 4)

  function Code(s: Strategy): int {
    match s case Reuse => 0 case D15 => 1 case D25 => 2 case D45 => 3
  }

  // The shape of a stream: full channels, all channels, and its mode.
  datatype Shape = Shape(full: nat, all: nat, acmod: int, lfe: bool)

  function ShapeOf(c: Config): Shape { Shape(c.nbChannels, c.nbAll, c.acmod, c.lfe) }

  ghost predicate ShapeOk(h: Shape) {
    h.all == h.full + (if h.lfe then 1 else 0) && 1 <= h.full <= 5 && 1 <= h.acmod <= 7
  }

  // Coefficients of a channel.
  function Bins(h: Shape, ch: int): int { if ch >= h.full then 7 else (BANDWIDTH + 12) * 3 + 37 }

  // Exponents as encode_exp left them, by group; none where they are reused.
  ghost predicate ExponentsOk(h: Shape, strat: seq<Strategy>, e: seq<seq<int>>) {
    && |strat| == |e| == h.all
    && (forall ch :: 0 <= ch < h.all && strat[ch] != Reuse ==> |e[ch]| == 3 * Triples(Bins(h, ch), strat[ch]) + 1 >= 1)
    && forall ch :: h.full <= ch < h.all ==> strat[ch] == Reuse || strat[ch] == D15
  }

  // ---- fields ----

  function Repeat(n: nat, f: Field): (s: seq<Field>)
    ensures |s| == n && forall i :: 0 <= i < n ==> s[i] == f
  {
    seq(n, _ => f)
  }

  // Block switch, dither, dynamic range, coupling; what only the first block must say is said there.
  function FlagFields(h: Shape, first: bool): seq<Field> {
    Repeat(h.full, Field(1, 0)) + Repeat(h.full, Field(1, 1)) + CommonFlags(h, first)
  }

  function CommonFlags(h: Shape, first: bool): seq<Field> {
    [Field(1, 0)] + (if first then [Field(1, 1), Field(1, 0)] else [Field(1, 0)])
    + if h.acmod != 2 then [] else if first then [Field(1, 1)] + Repeat(4, Field(1, 0)) else [Field(1, 0)]
  }

  // Exponent strategies.
  function StrategyFields(h: Shape, strat: seq<Strategy>): (s: seq<Field>)
    requires |strat| == h.all && h.all >= h.full
    ensures |s| == h.all
  {
    seq(h.all, ch requires 0 <= ch < h.all => Field(if ch < h.full then 2 else 1, Code(strat[ch])))
  }

  // Bandwidths of the first n channels, where new.
  function BandwidthFields(strat: seq<Strategy>, n: nat): seq<Field>
    requires n <= |strat|
  {
    if n == 0 then []
    else BandwidthFields(strat, n - 1) + Bandwidth(strat[n - 1])
  }

  function Bandwidth(s: Strategy): seq<Field> { if s != Reuse then [Field(6, BANDWIDTH)] else [] }

  // Channels among the first n with new exponents.
  function Fresh(strat: seq<Strategy>, n: nat): nat
    requires n <= |strat|
  {
    if n == 0 then 0 else Fresh(strat, n - 1) + if strat[n - 1] != Reuse then 1 else 0
  }

  // The offsets found by the search.
  datatype Offsets = Offsets(csnroffst: int, fsnroffst: int)

  function ChannelOffsets(n: nat, o: Offsets): seq<Field> {
    if n == 0 then [] else ChannelOffsets(n - 1, o) + [Field(4, o.fsnroffst), Field(3, FGAIN)]
  }

  function ParameterFields(o: Offsets): seq<Field> {
    [Field(1, 1), Field(2, CODES.sdecay), Field(2, CODES.fdecay), Field(2, CODES.sgain), Field(2, CODES.dbknee),
     Field(3, CODES.floor), Field(1, 1), Field(6, o.csnroffst)]
  }

  // Bit allocation parameters and offsets.
  function AllocFields(h: Shape, first: bool, o: Offsets): seq<Field> {
    if first then ParameterFields(o) + ChannelOffsets(h.all, o) + [Field(1, 0), Field(1, 0)]
    else [Field(1, 0), Field(1, 0), Field(1, 0), Field(1, 0)]
  }

  // ---- what a block consists of ----

  // Exponents of the first n channels, where new; full channels have two bits of gain range.
  function ExponentPart(h: Shape, strat: seq<Strategy>, e: seq<seq<int>>, n: nat): seq<bool>
    requires ExponentsOk(h, strat, e) && n <= h.all
  {
    if n == 0 then []
    else ExponentPart(h, strat, e, n - 1) + ChannelExponents(h, strat, e, n - 1)
  }

  function ChannelExponents(h: Shape, strat: seq<Strategy>, e: seq<seq<int>>, ch: nat): seq<bool>
    requires ExponentsOk(h, strat, e) && ch < h.all
  {
    if strat[ch] == Reuse then []
    else ExponentBits(e[ch], Triples(Bins(h, ch), strat[ch])) + Gain(h, ch)
  }

  // Gain range of a full channel: none.
  function Gain(h: Shape, ch: nat): seq<bool> { if ch < h.full then Put(2, 0) else [] }

  function FirstPart(h: Shape, first: bool, strat: seq<Strategy>): seq<Field>
    requires |strat| == h.all && h.all >= h.full
  {
    FlagFields(h, first) + StrategyFields(h, strat) + BandwidthFields(strat, h.full)
  }

  function BlockBits(h: Shape, first: bool, strat: seq<Strategy>, e: seq<seq<int>>, o: Offsets,
                     mantissas: seq<bool>): seq<bool>
    requires ExponentsOk(h, strat, e) && h.all >= h.full
  {
    Encoded(FirstPart(h, first, strat)) + ExponentPart(h, strat, e, h.all)
    + Encoded(AllocFields(h, first, o)) + mantissas
  }

  // ---- sizes ----

  // What encode_exp returned for the first n channels.
  function ExponentSize(h: Shape, strat: seq<Strategy>, n: nat): int
    requires n <= |strat|
  {
    if n == 0 then 0
    else ExponentSize(h, strat, n - 1) +
         if strat[n - 1] == Reuse then 0 else 4 + 7 * Triples(Bins(h, n - 1), strat[n - 1])
  }

  // Bits of a block other than exponents and mantissas, as compute_bit_allocation counts them.
  function SideBits(h: Shape, first: bool, strat: seq<Strategy>): int
    requires |strat| == h.all >= h.full
  {
    2 * h.full + 2 + (if h.acmod == 2 then if first then 5 else 1 else 0) + 2 * h.full + (if h.lfe then 1 else 0)
    + 8 * Fresh(strat, h.full) + 4 + if first then 1 + 8 + 3 + 6 + 7 * h.all else 0
  }

  lemma {:induction false} ExponentPartSize(h: Shape, strat: seq<Strategy>, e: seq<seq<int>>, n: nat)
    requires ExponentsOk(h, strat, e) && n <= h.all && ShapeOk(h)
    ensures |ExponentPart(h, strat, e, n)|
            == ExponentSize(h, strat, n) + 2 * Fresh(strat, if n < h.full then n else h.full)
  {
    if n > 0 {
      ExponentPartSize(h, strat, e, n - 1);
    }
  }

  lemma {:induction false} BandwidthWidth(strat: seq<Strategy>, n: nat)
    requires n <= |strat|
    ensures Bits.Width(BandwidthFields(strat, n)) == 6 * Fresh(strat, n)
  {
    if n > 0 {
      BandwidthWidth(strat, n - 1);
      EncodedConcat(BandwidthFields(strat, n - 1), Bandwidth(strat[n - 1]));
      EncodedOne(Field(6, BANDWIDTH));
    }
  }

  lemma FlagWidth(h: Shape, first: bool)
    ensures Bits.Width(FlagFields(h, first))
            == 2 * h.full + (if first then 3 else 2) + if h.acmod != 2 then 0 else if first then 5 else 1
  {
    EncodedConcat(Repeat(h.full, Field(1, 0)) + Repeat(h.full, Field(1, 1)), CommonFlags(h, first));
    EncodedConcat(Repeat(h.full, Field(1, 0)), Repeat(h.full, Field(1, 1)));
    UnitWidth(Repeat(h.full, Field(1, 0)));
    UnitWidth(Repeat(h.full, Field(1, 1)));
    CommonWidth(h, first);
  }

  lemma CommonWidth(h: Shape, first: bool)
    ensures Bits.Width(CommonFlags(h, first))
            == (if first then 3 else 2) + if h.acmod != 2 then 0 else if first then 5 else 1
  {
    UnitWidth(CommonFlags(h, first));
  }

  lemma {:induction false} UnitWidth(s: seq<Field>)
    requires forall i :: 0 <= i < |s| ==> s[i].width == 1
    ensures Bits.Width(s) == |s|
  {
    if s != [] {
      UnitWidth(s[..|s| - 1]);
    }
  }

  lemma StrategyWidth(h: Shape, strat: seq<Strategy>)
    requires |strat| == h.all && ShapeOk(h)
    ensures Bits.Width(StrategyFields(h, strat)) == 2 * h.full + if h.lfe then 1 else 0
  {
    var s := StrategyFields(h, strat);
    TwoWide(s[..h.full]);
    if h.lfe {
      assert s[..h.full] == s[..|s| - 1];
    } else {
      assert s[..h.full] == s;
    }
  }

  lemma {:induction false} TwoWide(s: seq<Field>)
    requires forall i :: 0 <= i < |s| ==> s[i].width == 2
    ensures Bits.Width(s) == 2 * |s|
  {
    if s != [] {
      TwoWide(s[..|s| - 1]);
    }
  }

  lemma {:induction false} ChannelOffsetsWidth(n: nat, o: Offsets)
    ensures Bits.Width(ChannelOffsets(n, o)) == 7 * n && |ChannelOffsets(n, o)| == 2 * n
  {
    if n > 0 {
      ChannelOffsetsWidth(n - 1, o);
      EncodedConcat(ChannelOffsets(n - 1, o), [Field(4, o.fsnroffst), Field(3, FGAIN)]);
      EncodedConcat([Field(4, o.fsnroffst)], [Field(3, FGAIN)]);
      EncodedOne(Field(4, o.fsnroffst));
      EncodedOne(Field(3, FGAIN));
      assert [Field(4, o.fsnroffst)] + [Field(3, FGAIN)] == [Field(4, o.fsnroffst), Field(3, FGAIN)];
    }
  }

  lemma ParameterWidth(o: Offsets)
    ensures Bits.Width(ParameterFields(o)) == 19
    ensures forall k :: 0 <= k < 8 ==> Bits.Width(ParameterFields(o)[..k]) == [0, 1, 3, 5, 7, 9, 12, 13][k]
  {
    var f := ParameterFields(o);
    assert f[..8] == f;
    WidthOfNext(f, 0);
    WidthOfNext(f, 1);
    WidthOfNext(f, 2);
    WidthOfNext(f, 3);
    WidthOfNext(f, 4);
    WidthOfNext(f, 5);
    WidthOfNext(f, 6);
    WidthOfNext(f, 7);
  }

  lemma AllocWidth(h: Shape, first: bool, o: Offsets)
    ensures Bits.Width(AllocFields(h, first, o)) == if first then 21 + 7 * h.all else 4
  {
    if first {
      UnitWidth([Field(1, 0), Field(1, 0)]);
      ParameterWidth(o);
      ChannelOffsetsWidth(h.all, o);
      EncodedConcat(ParameterFields(o) + ChannelOffsets(h.all, o), [Field(1, 0), Field(1, 0)]);
      EncodedConcat(ParameterFields(o), ChannelOffsets(h.all, o));
    } else {
      UnitWidth(AllocFields(h, first, o));
    }
  }

  // A block has the bits that were counted for it.
  lemma BlockSize(h: Shape, first: bool, strat: seq<Strategy>, e: seq<seq<int>>, o: Offsets, mantissas: seq<bool>)
    requires ExponentsOk(h, strat, e) && ShapeOk(h)
    ensures |BlockBits(h, first, strat, e, o, mantissas)|
         == SideBits(h, first, strat) + ExponentSize(h, strat, h.all) + |mantissas|
  {
    EncodedConcat(FlagFields(h, first) + StrategyFields(h, strat), BandwidthFields(strat, h.full));
    EncodedConcat(FlagFields(h, first), StrategyFields(h, strat));
    FlagWidth(h, first);
    StrategyWidth(h, strat);
    BandwidthWidth(strat, h.full);
    ExponentPartSize(h, strat, e, h.all);
    AllocWidth(h, first, o);
  }

  // ---- writing ----

  // The same field n times over.
  method PutRun(pb: BitWriter, n: nat, width: nat, v: int, ghost before: seq<bool>, ghost f: seq<Field>, ghost k: nat)
    requires k + n <= |f| && (forall i :: k <= i < k + n ==> f[i] == Field(width, v))
    requires pb.bits == before + Encoded(f[..k])
    modifies pb
    ensures pb.bits == before + Encoded(f[..k + n])
  {
    for ch := 0 to n
      invariant pb.bits == before + Encoded(f[..k + ch])
    {
      PutField(pb, width, v, before, f, k + ch);
    }
  }

  method OutputFlags(pb: BitWriter, h: Shape, first: bool)
    modifies pb
    ensures pb.bits == old(pb.bits) + Encoded(FlagFields(h, first))
  {
    ghost var before, f := pb.bits, FlagFields(h, first);
    NothingYet(before, f);
    PutRun(pb, h.full, 1, 0, before, f, 0);
    PutRun(pb, h.full, 1, 1, before, f, h.full);
    ghost var head := Repeat(h.full, Field(1, 0)) + Repeat(h.full, Field(1, 1));
    assert f[..2 * h.full] == head;
    OutputCommonFlags(pb, h, first);
    Appended(before, head, CommonFlags(h, first));
  }

  method OutputCommonFlags(pb: BitWriter, h: Shape, first: bool)
    modifies pb
    ensures pb.bits == old(pb.bits) + Encoded(CommonFlags(h, first))
  {
    ghost var before, f := pb.bits, CommonFlags(h, first);
    NothingYet(before, f);
    PutField(pb, 1, 0, before, f, 0);
    if first {
      PutField(pb, 1, 1, before, f, 1);
      PutField(pb, 1, 0, before, f, 2);
    } else {
      PutField(pb, 1, 0, before, f, 1);
    }
    OutputRematrixing(pb, h, first, before, f);
    assert f[..|f|] == f;
  }

  // Rematrixing, said in stereo only.
  method OutputRematrixing(pb: BitWriter, h: Shape, first: bool, ghost before: seq<bool>, ghost f: seq<Field>)
    requires f == CommonFlags(h, first) && pb.bits == before + Encoded(f[..if first then 3 else 2])
    modifies pb
    ensures pb.bits == before + Encoded(f[..|f|])
  {
    if h.acmod == 2 {
      if first {
        PutField(pb, 1, 1, before, f, 3);
        PutRun(pb, 4, 1, 0, before, f, 4);
      } else {
        PutField(pb, 1, 0, before, f, 2);
      }
    }
  }

  method OutputStrategies(pb: BitWriter, h: Shape, strat: seq<Strategy>)
    requires |strat| == h.all && ShapeOk(h)
    modifies pb
    ensures pb.bits == old(pb.bits) + Encoded(StrategyFields(h, strat))
  {
    ghost var before, f := pb.bits, StrategyFields(h, strat);
    NothingYet(before, f);
    for ch := 0 to h.full
      invariant pb.bits == before + Encoded(f[..ch])
    {
      PutField(pb, 2, Code(strat[ch]), before, f, ch);
    }
    if h.lfe {
      PutField(pb, 1, Code(strat[h.full]), before, f, h.full);
    }
    assert f[..h.all] == f;
  }

  method OutputBandwidths(pb: BitWriter, h: Shape, strat: seq<Strategy>)
    requires |strat| == h.all && ShapeOk(h)
    modifies pb
    ensures pb.bits == old(pb.bits) + Encoded(BandwidthFields(strat, h.full))
  {
    ghost var before := pb.bits;
    NoBandwidths(before, strat, 0);
    for ch := 0 to h.full
      invariant Follows(pb.bits, before, strat, ch)
    {
      OutputNextBandwidth(pb, strat, ch, before);
    }
  }

  // The bandwidths of the first n channels follow what was there.
  ghost predicate Follows(bits: seq<bool>, before: seq<bool>, strat: seq<Strategy>, n: nat) {
    n <= |strat| && bits == before + Encoded(BandwidthFields(strat, n))
  }

  method OutputNextBandwidth(pb: BitWriter, strat: seq<Strategy>, ch: nat, ghost before: seq<bool>)
    requires ch < |strat| && Follows(pb.bits, before, strat, ch)
    modifies pb
    ensures Follows(pb.bits, before, strat, ch + 1)
  {
    OutputBandwidth(pb, strat[ch]);
    NextBandwidth(before, strat, ch);
  }

  lemma NoBandwidths(before: seq<bool>, strat: seq<Strategy>, n: nat)
    requires n == 0
    ensures Follows(before, before, strat, n)
  {
  }

  lemma NextBandwidth(before: seq<bool>, strat: seq<Strategy>, ch: nat)
    requires ch < |strat|
    ensures before + Encoded(BandwidthFields(strat, ch)) + Encoded(Bandwidth(strat[ch]))
         == before + Encoded(BandwidthFields(strat, ch + 1))
  {
    Appended(before, BandwidthFields(strat, ch), Bandwidth(strat[ch]));
  }

  method OutputBandwidth(pb: BitWriter, s: Strategy)
    modifies pb
    ensures pb.bits == old(pb.bits) + Encoded(Bandwidth(s))
  {
    if s != Reuse {
      pb.PutBits(6, BANDWIDTH);
      EncodedOne(Field(6, BANDWIDTH));
    } else {
      assert Bandwidth(s) == [];
    }
  }

  // Exponents of all channels, with the gain range of the full ones.
  method OutputBlockExponents(pb: BitWriter, h: Shape, strat: seq<Strategy>, encodedExp: seq<seq<int>>,
                              ghost e: seq<seq<int>>)
    requires ExponentsOk(h, strat, e) && ShapeOk(h) && |encodedExp| == h.all
    requires forall ch :: 0 <= ch < h.all && strat[ch] != Reuse ==> Spread(encodedExp[ch], e[ch], strat[ch])
    modifies pb
    ensures pb.bits == old(pb.bits) + ExponentPart(h, strat, e, h.all)
  {
    ghost var before := pb.bits;
    assert before == before + [];
    for ch := 0 to h.all
      invariant pb.bits == before + ExponentPart(h, strat, e, ch)
    {
      var part := OutputChannelExponents(h, strat, encodedExp[ch], ch, e);
      NextExponents(before, h, strat, e, ch);
      pb.bits := pb.bits + part;
    }
  }

  lemma NextExponents(before: seq<bool>, h: Shape, strat: seq<Strategy>, e: seq<seq<int>>, ch: nat)
    requires ExponentsOk(h, strat, e) && ch < h.all
    ensures before + ExponentPart(h, strat, e, ch) + ChannelExponents(h, strat, e, ch)
         == before + ExponentPart(h, strat, e, ch + 1)
  {
    Associate(before, ExponentPart(h, strat, e, ch), ChannelExponents(h, strat, e, ch));
  }

  method OutputChannelExponents(h: Shape, strat: seq<Strategy>, encodedExp: seq<int>, ch: nat, ghost e: seq<seq<int>>)
      returns (part: seq<bool>)
    requires ExponentsOk(h, strat, e) && ShapeOk(h) && ch < h.all
    requires strat[ch] != Reuse ==> Spread(encodedExp, e[ch], strat[ch])
    ensures part == ChannelExponents(h, strat, e, ch)
  {
    part := [];
    if strat[ch] != Reuse {
      part := OutputExponents(encodedExp, Triples(Bins(h, ch), strat[ch]), strat[ch], e[ch]);
      if ch < h.full {
        part := part + Put(2, 0);
      } else {
        assert part == part + [];
      }
    }
  }

  method OutputAllocation(pb: BitWriter, h: Shape, first: bool, o: Offsets)
    modifies pb
    ensures pb.bits == old(pb.bits) + Encoded(AllocFields(h, first, o))
  {
    ghost var before, f := pb.bits, AllocFields(h, first, o);
    NothingYet(before, f);
    if first {
      ghost var head, tail := ParameterFields(o) + ChannelOffsets(h.all, o), [Field(1, 0), Field(1, 0)];
      OutputParameters(pb, o);
      OutputOffsets(pb, h.all, o);
      Appended(before, ParameterFields(o), ChannelOffsets(h.all, o));
      ghost var was := pb.bits;
      NothingYet(was, tail);
      PutRun(pb, 2, 1, 0, was, tail, 0);
      assert tail[..2] == tail;
      Appended(before, head, tail);
    } else {
      PutRun(pb, 4, 1, 0, before, f, 0);
      assert f[..4] == f;
    }
  }

  method OutputParameters(pb: BitWriter, o: Offsets)
    modifies pb
    ensures pb.bits == old(pb.bits) + Encoded(ParameterFields(o))
  {
    ghost var before, f := pb.bits, ParameterFields(o);
    NothingYet(before, f);
    PutField(pb, 1, 1, before, f, 0);
    PutField(pb, 2, CODES.sdecay, before, f, 1);
    PutField(pb, 2, CODES.fdecay, before, f, 2);
    PutField(pb, 2, CODES.sgain, before, f, 3);
    PutField(pb, 2, CODES.dbknee, before, f, 4);
    PutField(pb, 3, CODES.floor, before, f, 5);
    PutField(pb, 1, 1, before, f, 6);
    PutField(pb, 6, o.csnroffst, before, f, 7);
    assert f[..8] == f;
  }

  method OutputOffsets(pb: BitWriter, n: nat, o: Offsets)
    modifies pb
    ensures pb.bits == old(pb.bits) + Encoded(ChannelOffsets(n, o))
  {
    ghost var before := pb.bits;
    assert before == before + Encoded([]);
    for ch := 0 to n
      invariant pb.bits == before + Encoded(ChannelOffsets(ch, o))
    {
      ghost var pair := [Field(4, o.fsnroffst), Field(3, FGAIN)];
      ghost var was := pb.bits;
      NothingYet(was, pair);
      PutField(pb, 4, o.fsnroffst, was, pair, 0);
      PutField(pb, 3, FGAIN, was, pair, 1);
      assert pair[..2] == pair;
      Appended(before, ChannelOffsets(ch, o), pair);
    }
  }

  // output_audio_block
  method OutputAudioBlock(pb: BitWriter, h: Shape, first: bool, strat: seq<Strategy>, encodedExp: seq<seq<int>>,
                          o: Offsets, x: M.Input, ghost e: seq<seq<int>>,
                          ghost v: seq<int>) returns (ghost mantissas: seq<bool>)
    requires ExponentsOk(h, strat, e) && ShapeOk(h) && |encodedExp| == h.all
    requires forall ch :: 0 <= ch < h.all && strat[ch] != Reuse ==> Spread(encodedExp[ch], e[ch], strat[ch])
    requires M.InputOk(x) && M.AreMantissas(x, v) && |x.bap| <= 6
    requires forall ch :: 0 <= ch < |x.bap| ==> |x.bap[ch]| <= 256
    modifies pb
    ensures pb.bits == old(pb.bits) + BlockBits(h, first, strat, e, o, mantissas)
    ensures |mantissas| == M.SizeTo(M.Flat(x.bap), |M.Flat(x.bap)|)
    ensures forall before, after :: M.Mantissas(before + mantissas + after, |before|, M.Flat(x.bap), |v|) == v
  {
    ghost var before := pb.bits;
    OutputFlags(pb, h, first);
    OutputStrategies(pb, h, strat);
    Appended(before, FlagFields(h, first), StrategyFields(h, strat));
    OutputBandwidths(pb, h, strat);
    Appended(before, FlagFields(h, first) + StrategyFields(h, strat), BandwidthFields(strat, h.full));
    OutputBlockExponents(pb, h, strat, encodedExp, e);
    OutputAllocation(pb, h, first, o);
    var part := M.OutputMantissas(x, v);
    mantissas := part;
    pb.bits := pb.bits + part;
    Together(before, Encoded(FirstPart(h, first, strat)), ExponentPart(h, strat, e, h.all),
             Encoded(AllocFields(h, first, o)), part);
  }

  lemma Together<T>(a: seq<T>, b: seq<T>, c: seq<T>, d: seq<T>, e: seq<T>)
    ensures a + b + c + d + e == a + (b + c + d + e)
  {
  }

  // ---- reading a block back ----

  // Where the parts of a block are, from what precedes them.
  function FlagBits(h: Shape, first: bool): nat {
    2 * h.full + (if first then 3 else 2) + if h.acmod != 2 then 0 else if first then 5 else 1
  }

  function ExponentStart(h: Shape, first: bool, strat: seq<Strategy>): nat
    requires |strat| == h.all >= h.full
  {
    FlagBits(h, first) + 2 * h.full + (if h.lfe then 1 else 0) + 6 * Fresh(strat, h.full)
  }

  function ExponentPlace(h: Shape, first: bool, strat: seq<Strategy>, ch: nat): int
    requires |strat| == h.all >= h.full && ch <= h.all
  {
    ExponentStart(h, first, strat) + ExponentSize(h, strat, ch) + 2 * Fresh(strat, if ch < h.full then ch else h.full)
  }

  function MantissaPlace(h: Shape, first: bool, strat: seq<Strategy>): int
    requires |strat| == h.all >= h.full
  {
    SideBits(h, first, strat) + ExponentSize(h, strat, h.all)
  }

  // The exponents are such as four and seven bit codes can carry.
  ghost predicate Codable(h: Shape, strat: seq<Strategy>, e: seq<seq<int>>)
    requires ExponentsOk(h, strat, e)
  {
    forall ch :: 0 <= ch < h.all && strat[ch] != Reuse ==> Gentle(e[ch]) && 0 <= e[ch][0] <= 15
  }

  ghost predicate GroupsAt(bits: seq<bool>, place: int, t: int, e: seq<int>) {
    place >= 0 && t >= 0 && ReadGroups(bits, place, t) == e
  }

  ghost predicate MantissasAt(bits: seq<bool>, place: int, b: seq<int>, v: seq<int>) {
    place >= 0 && M.Mantissas(bits, place, b, |b|) == v
  }

  // Where a block's flags, strategies, bandwidths, exponents by channel, parameters and mantissas begin.
  datatype Places = Places(flags: int, strategies: int, bandwidths: int, exponents: seq<int>, offsets: int,
                           mantissas: int)

  // A decoder knows them from what it has read before.
  function PlacesOf(pos: int, h: Shape, first: bool, strat: seq<Strategy>): Places
    requires |strat| == h.all >= h.full
  {
    Places(pos, pos + FlagBits(h, first), pos + FlagBits(h, first) + 2 * h.full + (if h.lfe then 1 else 0),
           seq(h.all, ch requires 0 <= ch < h.all => pos + ExponentPlace(h, first, strat, ch)),
           pos + ExponentPlace(h, first, strat, h.all),
           pos + MantissaPlace(h, first, strat))
  }

  // The bits say: these flags,
  ghost predicate SaysFlags(bits: seq<bool>, place: int, h: Shape, first: bool) {
    place >= 0 && forall k: nat {:trigger Flag(bits, place, k)} :: k < |FlagFields(h, first)| ==>
      Flag(bits, place, k) == FlagFields(h, first)[k].value
  }

  function Flag(bits: seq<bool>, place: nat, k: nat): int { Get(bits, place + k, 1) }

  // these strategies,
  ghost predicate SaysStrategies(bits: seq<bool>, place: int, h: Shape, strat: seq<Strategy>)
    requires |strat| == h.all >= h.full
  {
    place >= 0 && forall ch :: 0 <= ch < h.all ==>
      Get(bits, place + 2 * ch, if ch < h.full then 2 else 1) == Code(strat[ch])
  }

  // these bandwidths and exponents where they are new, without a gain range,
  ghost predicate SaysBandwidths(bits: seq<bool>, place: int, h: Shape, strat: seq<Strategy>)
    requires |strat| == h.all >= h.full
  {
    place >= 0 && forall ch: nat {:trigger strat[ch]} :: ch < h.full && strat[ch] != Reuse ==>
      BandwidthAt(bits, place, strat, ch) == BANDWIDTH
  }

  function BandwidthAt(bits: seq<bool>, place: nat, strat: seq<Strategy>, ch: nat): int
    requires ch <= |strat|
  {
    Get(bits, place + 6 * Fresh(strat, ch), 6)
  }

  ghost predicate SaysExponents(bits: seq<bool>, places: seq<int>, h: Shape, strat: seq<Strategy>, e: seq<seq<int>>)
    requires ExponentsOk(h, strat, e)
  {
    |places| == h.all && forall ch {:trigger e[ch]} {:trigger places[ch]} :: 0 <= ch < h.all && strat[ch] != Reuse ==>
      ChannelSays(bits, places[ch], h, ch, Triples(Bins(h, ch), strat[ch]), e[ch])
  }

  ghost predicate ChannelSays(bits: seq<bool>, place: int, h: Shape, ch: int, t: int, e: seq<int>) {
    GroupsAt(bits, place, t, e) && (ch < h.full ==> Get(bits, place + 4 + 7 * t, 2) == 0)
  }

  // these parameters and offsets for every channel, in the first block; then no delta bit allocation
  // and nothing to skip,
  ghost predicate SaysAllocation(bits: seq<bool>, place: int, h: Shape, first: bool, o: Offsets) {
    && place >= 0
    && if first then
         && SaysParameters(bits, place, o)
         && (forall ch: nat {:trigger FineOffset(bits, place, ch)} :: ch < h.all ==>
               FineOffset(bits, place, ch) == o.fsnroffst && GainCode(bits, place, ch) == FGAIN)
         && Flag(bits, place + 19 + 7 * h.all, 0) == Flag(bits, place + 19 + 7 * h.all, 1) == 0
       else forall k: nat {:trigger Flag(bits, place, k)} :: k < 4 ==> Flag(bits, place, k) == 0
  }

  ghost predicate SaysParameters(bits: seq<bool>, place: nat, o: Offsets) {
    && Get(bits, place, 1) == Get(bits, place + 12, 1) == 1 && CodesAt(bits, place + 1) == CODES
    && Get(bits, place + 13, 6) == o.csnroffst
  }

  function CodesAt(bits: seq<bool>, place: nat): Codes {
    Codes(Get(bits, place, 2), Get(bits, place + 2, 2), Get(bits, place + 4, 2), Get(bits, place + 6, 2),
          Get(bits, place + 8, 3))
  }

  function FineOffset(bits: seq<bool>, place: nat, ch: nat): int { Get(bits, place + 19 + 7 * ch, 4) }

  function GainCode(bits: seq<bool>, place: nat, ch: nat): int { Get(bits, place + 23 + 7 * ch, 3) }

  // and, given the bits for each, these mantissas.
  ghost predicate Says(bits: seq<bool>, p: Places, h: Shape, first: bool, strat: seq<Strategy>, e: seq<seq<int>>,
                       o: Offsets, b: seq<int>, v: seq<int>)
    requires ExponentsOk(h, strat, e) && h.all >= h.full
  {
    && SaysFlags(bits, p.flags, h, first) && SaysStrategies(bits, p.strategies, h, strat)
    && SaysBandwidths(bits, p.bandwidths, h, strat) && SaysExponents(bits, p.exponents, h, strat, e)
    && SaysAllocation(bits, p.offsets, h, first, o) && MantissasAt(bits, p.mantissas, b, v)
  }

  // A run of flags.
  lemma {:induction false} FlagsRead(bits: seq<bool>, before: seq<bool>, f: seq<Field>, after: seq<bool>, k: nat)
    requires bits == before + Encoded(f) + after && k < |f|
    requires forall i :: 0 <= i < |f| ==> f[i].width == 1 && 0 <= f[i].value <= 1
    ensures Flag(bits, |before|, k) == f[k].value
  {
    UnitWidth(f[..k]);
    FieldAt(bits, before, f, after, k);
  }

  lemma ReadFlags(bits: seq<bool>, before: seq<bool>, h: Shape, first: bool, after: seq<bool>, place: int)
    requires bits == before + Encoded(FlagFields(h, first)) + after && place == |before|
    ensures SaysFlags(bits, place, h, first)
  {
    var f := FlagFields(h, first);
    forall k: nat | k < |f|
      ensures Flag(bits, place, k) == f[k].value
    {
      FlagsRead(bits, before, f, after, k);
    }
  }

  // The bandwidths sent are one after the other and all the same.
  lemma {:induction false} BandwidthsAre(strat: seq<Strategy>, n: nat)
    requires n <= |strat|
    ensures BandwidthFields(strat, n) == Repeat(Fresh(strat, n), Field(6, BANDWIDTH))
  {
    if n > 0 {
      BandwidthsAre(strat, n - 1);
    }
  }

  lemma {:induction false} FreshRises(strat: seq<Strategy>, ch: nat, n: nat)
    requires ch < n <= |strat| && strat[ch] != Reuse
    ensures Fresh(strat, ch) < Fresh(strat, n)
  {
    if ch < n - 1 {
      FreshRises(strat, ch, n - 1);
    }
  }

  lemma ReadBandwidths(bits: seq<bool>, before: seq<bool>, h: Shape, strat: seq<Strategy>, after: seq<bool>, place: int)
    requires |strat| == h.all >= h.full && bits == before + Encoded(BandwidthFields(strat, h.full)) + after
    requires place == |before|
    ensures SaysBandwidths(bits, place, h, strat)
  {
    BandwidthsAre(strat, h.full);
    SameBandwidths(bits, before, h, strat, after, Fresh(strat, h.full));
  }

  lemma SameBandwidths(bits: seq<bool>, before: seq<bool>, h: Shape, strat: seq<Strategy>, after: seq<bool>, n: nat)
    requires |strat| == h.all >= h.full && n == Fresh(strat, h.full)
    requires bits == before + Encoded(Repeat(n, Field(6, BANDWIDTH))) + after
    ensures SaysBandwidths(bits, |before|, h, strat)
  {
    forall ch: nat | ch < h.full && strat[ch] != Reuse
      ensures BandwidthAt(bits, |before|, strat, ch) == BANDWIDTH
    {
      FreshRises(strat, ch, h.full);
      OneBandwidth(bits, before, after, n, Fresh(strat, ch));
    }
  }

  lemma OneBandwidth(bits: seq<bool>, before: seq<bool>, after: seq<bool>, n: nat, k: nat)
    requires k < n && bits == before + Encoded(Repeat(n, Field(6, BANDWIDTH))) + after
    ensures Get(bits, |before| + 6 * k, 6) == BANDWIDTH
  {
    var w := Repeat(n, Field(6, BANDWIDTH));
    Powers();
    SixWide(w[..k]);
    FieldAt(bits, before, w, after, k);
  }

  lemma {:induction false} SixWide(s: seq<Field>)
    requires forall i :: 0 <= i < |s| ==> s[i].width == 6
    ensures Bits.Width(s) == 6 * |s|
  {
    if s != [] {
      SixWide(s[..|s| - 1]);
    }
  }

  lemma ReadStrategies(bits: seq<bool>, before: seq<bool>, h: Shape, first: bool, strat: seq<Strategy>,
                       after: seq<bool>, place: int)
    requires |strat| == h.all && ShapeOk(h)
    requires forall ch :: h.full <= ch < h.all ==> strat[ch] == Reuse || strat[ch] == D15
    requires bits == before + Encoded(FlagFields(h, first)) + Encoded(StrategyFields(h, strat)) + after
    requires place == |before| + FlagBits(h, first)
    ensures SaysStrategies(bits, place, h, strat)
  {
    FlagWidth(h, first);
    forall ch | 0 <= ch < h.all
      ensures Get(bits, place + 2 * ch, if ch < h.full then 2 else 1) == Code(strat[ch])
    {
      ReadStrategy(bits, before + Encoded(FlagFields(h, first)), h, strat, after, ch);
    }
  }

  lemma ReadStrategy(bits: seq<bool>, before: seq<bool>, h: Shape, strat: seq<Strategy>, after: seq<bool>, ch: nat)
    requires |strat| == h.all && ShapeOk(h) && ch < h.all && (ch >= h.full ==> strat[ch] == Reuse || strat[ch] == D15)
    requires bits == before + Encoded(StrategyFields(h, strat)) + after
    ensures Get(bits, |before| + 2 * ch, if ch < h.full then 2 else 1) == Code(strat[ch])
  {
    var f := StrategyFields(h, strat);
    Powers();
    TwoWide(f[..ch]);
    FieldAt(bits, before, f, after, ch);
  }

  lemma {:induction false} ExponentPartSplit(h: Shape, strat: seq<Strategy>, e: seq<seq<int>>, ch: nat, n: nat)
      returns (rest: seq<bool>)
    requires ExponentsOk(h, strat, e) && ch < n <= h.all
    ensures ExponentPart(h, strat, e, n) == ExponentPart(h, strat, e, ch) + ChannelExponents(h, strat, e, ch) + rest
  {
    rest := [];
    if n == ch + 1 {
      assert ExponentPart(h, strat, e, n) == ExponentPart(h, strat, e, n) + rest;
    } else {
      var more := ExponentPartSplit(h, strat, e, ch, n - 1);
      rest := more + ChannelExponents(h, strat, e, n - 1);
      Associate(ExponentPart(h, strat, e, ch) + ChannelExponents(h, strat, e, ch), more,
                ChannelExponents(h, strat, e, n - 1));
      assert ExponentPart(h, strat, e, n) == ExponentPart(h, strat, e, n - 1) + ChannelExponents(h, strat, e, n - 1);
    }
  }

  lemma ReadOneChannel(bits: seq<bool>, head: seq<bool>, e: seq<int>, t: nat, h: Shape, ch: nat, tail: seq<bool>,
                       place: nat)
    requires |e| == 3 * t + 1 && Gentle(e) && 0 <= e[0] <= 15 && place == |head|
    requires bits == head + ExponentBits(e, t) + (Gain(h, ch) + tail)
    ensures ChannelSays(bits, place, h, ch, t, e)
  {
    GroupsRoundTrip(bits, head, Gain(h, ch) + tail, e, t);
    assert e[..3 * t + 1] == e;
    if ch < h.full {
      assert Pow2(2) == 4;
      assert bits == (head + ExponentBits(e, t)) + Put(2, 0) + tail;
      GetPut(head + ExponentBits(e, t), 2, 0, tail);
    }
  }

  lemma ChannelAt(bits: seq<bool>, before: seq<bool>, h: Shape, strat: seq<Strategy>, e: seq<seq<int>>,
                  after: seq<bool>, ch: nat)
      returns (tail: seq<bool>)
    requires ExponentsOk(h, strat, e) && ch < h.all && strat[ch] != Reuse
    requires bits == before + ExponentPart(h, strat, e, h.all) + after
    ensures bits == (before + ExponentPart(h, strat, e, ch)) + ExponentBits(e[ch], Triples(Bins(h, ch), strat[ch]))
                    + (Gain(h, ch) + tail)
  {
    var rest := ExponentPartSplit(h, strat, e, ch, h.all);
    tail := rest + after;
    Placed(bits, before, ExponentPart(h, strat, e, ch), ExponentBits(e[ch], Triples(Bins(h, ch), strat[ch])),
           Gain(h, ch), rest, after);
  }

  lemma ReadExponents(bits: seq<bool>, before: seq<bool>, h: Shape, strat: seq<Strategy>, e: seq<seq<int>>,
                      after: seq<bool>, ch: nat, place: int)
    requires ExponentsOk(h, strat, e) && Codable(h, strat, e) && ch < h.all && strat[ch] != Reuse
    requires bits == before + ExponentPart(h, strat, e, h.all) + after
    requires place == |before| + |ExponentPart(h, strat, e, ch)|
    ensures ChannelSays(bits, place, h, ch, Triples(Bins(h, ch), strat[ch]), e[ch])
  {
    var tail := ChannelAt(bits, before, h, strat, e, after, ch);
    ReadOneChannel(bits, before + ExponentPart(h, strat, e, ch), e[ch], Triples(Bins(h, ch), strat[ch]), h, ch, tail,
                   place);
  }

  lemma Placed<T>(all: seq<T>, a: seq<T>, b: seq<T>, x: seq<T>, y: seq<T>, c: seq<T>, d: seq<T>)
    requires all == a + (b + (x + y) + c) + d
    ensures all == (a + b) + x + (y + (c + d))
  {
  }

  ghost predicate OffsetsFit(o: Offsets) { 0 <= o.csnroffst <= 63 && 0 <= o.fsnroffst <= 15 }

  lemma {:induction false} OffsetsSplit(n: nat, k: nat, o: Offsets) returns (rest: seq<Field>)
    requires k < n
    ensures ChannelOffsets(n, o) == ChannelOffsets(k, o) + [Field(4, o.fsnroffst)] + ([Field(3, FGAIN)] + rest)
  {
    rest := [];
    if k < n - 1 {
      var more := OffsetsSplit(n - 1, k, o);
      rest := more + [Field(4, o.fsnroffst), Field(3, FGAIN)];
    }
  }

  // A field in the middle of others.
  lemma ReadMiddle(bits: seq<bool>, before: seq<bool>, a: seq<Field>, f: Field, z: seq<Field>, after: seq<bool>)
    requires Fits(f) && bits == before + Encoded(a + [f] + z) + after
    ensures Get(bits, |before| + Bits.Width(a), f.width) == f.value
  {
    var all := a + [f] + z;
    assert all[..|a|] == a && all[|a|] == f;
    FieldAt(bits, before, all, after, |a|);
  }

  lemma ReadAllocation(bits: seq<bool>, before: seq<bool>, h: Shape, first: bool, o: Offsets, after: seq<bool>,
                       place: int)
    requires OffsetsFit(o) && bits == before + Encoded(AllocFields(h, first, o)) + after && place == |before|
    ensures SaysAllocation(bits, place, h, first, o)
  {
    if first {
      ReadParameters(bits, before, h, o, after);
      forall ch: nat | ch < h.all
        ensures FineOffset(bits, place, ch) == o.fsnroffst && GainCode(bits, place, ch) == FGAIN
      {
        ReadFine(bits, before, h, o, after, ch);
        ReadGainCode(bits, before, h, o, after, ch);
      }
      ReadLastFlags(bits, before, h, o, after);
    } else {
      forall k: nat | k < 4
        ensures Flag(bits, place, k) == 0
      {
        FlagsRead(bits, before, AllocFields(h, false, o), after, k);
      }
    }
  }

  lemma ReadParameters(bits: seq<bool>, before: seq<bool>, h: Shape, o: Offsets, after: seq<bool>)
    requires OffsetsFit(o) && bits == before + Encoded(AllocFields(h, true, o)) + after
    ensures SaysParameters(bits, |before|, o)
  {
    ParameterAt(bits, before, h, o, after, 0, 0);
    ParameterAt(bits, before, h, o, after, 1, 1);
    ParameterAt(bits, before, h, o, after, 2, 3);
    ParameterAt(bits, before, h, o, after, 3, 5);
    ParameterAt(bits, before, h, o, after, 4, 7);
    ParameterAt(bits, before, h, o, after, 5, 9);
    ParameterAt(bits, before, h, o, after, 6, 12);
    ParameterAt(bits, before, h, o, after, 7, 13);
  }

  lemma ParameterAt(bits: seq<bool>, before: seq<bool>, h: Shape, o: Offsets, after: seq<bool>, k: nat, at: nat)
    requires OffsetsFit(o) && bits == before + Encoded(AllocFields(h, true, o)) + after && k < 8
    requires at == [0, 1, 3, 5, 7, 9, 12, 13][k]
    ensures Get(bits, |before| + at, ParameterFields(o)[k].width) == ParameterFields(o)[k].value
  {
    Powers();
    var f, z := ParameterFields(o), ChannelOffsets(h.all, o) + [Field(1, 0), Field(1, 0)];
    Associate(f, ChannelOffsets(h.all, o), [Field(1, 0), Field(1, 0)]);
    var all := AllocFields(h, true, o);
    assert all == f + z && all[..k] == f[..k] && all[k] == f[k];
    ParameterWidth(o);
    FieldAt(bits, before, all, after, k);
  }

  // A channel's two fields, and what stands around them.
  lemma FineAround(h: Shape, o: Offsets, ch: nat) returns (a: seq<Field>, z: seq<Field>)
    requires ch < h.all
    ensures AllocFields(h, true, o) == a + [Field(4, o.fsnroffst)] + ([Field(3, FGAIN)] + z)
    ensures Bits.Width(a) == 19 + 7 * ch
  {
    var rest := OffsetsSplit(h.all, ch, o);
    a, z := ParameterFields(o) + ChannelOffsets(ch, o), rest + [Field(1, 0), Field(1, 0)];
    var g := [Field(3, FGAIN)] + rest;
    FinePlaced(ParameterFields(o), ChannelOffsets(ch, o), [Field(4, o.fsnroffst)], g, [Field(1, 0), Field(1, 0)]);
    EncodedConcat(ParameterFields(o), ChannelOffsets(ch, o));
    ParameterWidth(o);
    ChannelOffsetsWidth(ch, o);
    Associate([Field(3, FGAIN)], rest, [Field(1, 0), Field(1, 0)]);
  }

  lemma ReadFine(bits: seq<bool>, before: seq<bool>, h: Shape, o: Offsets, after: seq<bool>, ch: nat)
    requires OffsetsFit(o) && ch < h.all && bits == before + Encoded(AllocFields(h, true, o)) + after
    ensures Get(bits, |before| + 19 + 7 * ch, 4) == o.fsnroffst
  {
    Powers();
    var a, z := FineAround(h, o, ch);
    ReadMiddle(bits, before, a, Field(4, o.fsnroffst), [Field(3, FGAIN)] + z, after);
  }

  lemma ReadGainCode(bits: seq<bool>, before: seq<bool>, h: Shape, o: Offsets, after: seq<bool>, ch: nat)
    requires OffsetsFit(o) && ch < h.all && bits == before + Encoded(AllocFields(h, true, o)) + after
    ensures Get(bits, |before| + 23 + 7 * ch, 3) == FGAIN
  {
    Powers();
    var a, z := FineAround(h, o, ch);
    SecondOfTwo(a, Field(4, o.fsnroffst), Field(3, FGAIN), z);
    ReadMiddle(bits, before, a + [Field(4, o.fsnroffst)], Field(3, FGAIN), z, after);
  }

  lemma SecondOfTwo(a: seq<Field>, f: Field, g: Field, z: seq<Field>)
    ensures a + [f] + ([g] + z) == (a + [f]) + [g] + z
    ensures Bits.Width(a + [f]) == Bits.Width(a) + f.width
  {
    EncodedConcat(a, [f]);
    EncodedOne(f);
  }

  lemma ReadLastFlags(bits: seq<bool>, before: seq<bool>, h: Shape, o: Offsets, after: seq<bool>)
    requires bits == before + Encoded(AllocFields(h, true, o)) + after
    ensures var end := |before| + 19 + 7 * h.all; Flag(bits, end, 0) == Flag(bits, end, 1) == 0
  {
    var a, z := ParameterFields(o) + ChannelOffsets(h.all, o), [Field(1, 0), Field(1, 0)];
    EncodedConcat(a, z);
    EncodedConcat(ParameterFields(o), ChannelOffsets(h.all, o));
    ParameterWidth(o);
    ChannelOffsetsWidth(h.all, o);
    assert bits == (before + Encoded(a)) + Encoded(z) + after;
    FlagsRead(bits, before + Encoded(a), z, after, 0);
    FlagsRead(bits, before + Encoded(a), z, after, 1);
  }

  lemma FinePlaced<T>(p: seq<T>, a: seq<T>, f: seq<T>, g: seq<T>, z: seq<T>)
    ensures p + (a + f + g) + z == (p + a) + f + (g + z)
  {
  }

  // The mantissa bits give these mantissas, whatever they stand between.
  ghost predicate Decodes(mantissas: seq<bool>, b: seq<int>, v: seq<int>) {
    |b| == |v| && forall before, after :: M.Mantissas(before + mantissas + after, |before|, b, |b|) == v
  }

  lemma BlockParts(bits: seq<bool>, before: seq<bool>, f: seq<Field>, s: seq<Field>, w: seq<Field>, x: seq<bool>,
                   a: seq<bool>, m: seq<bool>, after: seq<bool>)
    requires bits == before + (Encoded(f + s + w) + x + a + m) + after
    ensures bits == before + Encoded(f) + Encoded(s) + (Encoded(w) + x + a + m + after)
    ensures bits == (before + Encoded(f + s + w)) + x + (a + m + after)
    ensures bits == (before + Encoded(f + s + w) + x) + a + (m + after)
    ensures bits == (before + Encoded(f + s + w) + x + a) + m + after
  {
    EncodedConcat(f + s, w);
    EncodedConcat(f, s);
    Shuffle(bits, before, Encoded(f), Encoded(s), Encoded(w), x, a, m, after);
  }

  lemma Shuffle<T>(bits: seq<T>, before: seq<T>, f: seq<T>, s: seq<T>, w: seq<T>, x: seq<T>, a: seq<T>, m: seq<T>,
                   after: seq<T>)
    requires bits == before + (f + s + w + x + a + m) + after
    ensures bits == before + f + s + (w + x + a + m + after)
    ensures bits == (before + (f + s + w)) + x + (a + m + after)
    ensures bits == (before + (f + s + w) + x) + a + (m + after)
    ensures bits == (before + (f + s + w) + x + a) + m + after
  {
  }

  lemma PlacesAre(h: Shape, first: bool, strat: seq<Strategy>, e: seq<seq<int>>, o: Offsets, ch: nat)
    requires ExponentsOk(h, strat, e) && ShapeOk(h) && ch <= h.all
    ensures ExponentPlace(h, first, strat, ch)
         == |Encoded(FirstPart(h, first, strat))| + |ExponentPart(h, strat, e, ch)|
    ensures MantissaPlace(h, first, strat)
         == |Encoded(FirstPart(h, first, strat))| + |ExponentPart(h, strat, e, h.all)|
             + |Encoded(AllocFields(h, first, o))|
  {
    EncodedConcat(FlagFields(h, first) + StrategyFields(h, strat), BandwidthFields(strat, h.full));
    EncodedConcat(FlagFields(h, first), StrategyFields(h, strat));
    FlagWidth(h, first);
    StrategyWidth(h, strat);
    BandwidthWidth(strat, h.full);
    ExponentPartSize(h, strat, e, ch);
    ExponentPartSize(h, strat, e, h.all);
    AllocWidth(h, first, o);
  }

  lemma ExponentsAt(bits: seq<bool>, before: seq<bool>, h: Shape, first: bool, strat: seq<Strategy>, e: seq<seq<int>>,
                    start: seq<bool>, after: seq<bool>, ch: nat, place: int)
    requires ExponentsOk(h, strat, e) && ShapeOk(h) && Codable(h, strat, e) && ch < h.all && strat[ch] != Reuse
    requires start == before + Encoded(FirstPart(h, first, strat))
    requires bits == start + ExponentPart(h, strat, e, h.all) + after
    requires place == |before| + ExponentPlace(h, first, strat, ch)
    ensures ChannelSays(bits, place, h, ch, Triples(Bins(h, ch), strat[ch]), e[ch])
  {
    PlacesAre(h, first, strat, e, Offsets(0, 0), ch);
    ReadExponents(bits, start, h, strat, e, after, ch, place);
  }

  lemma AllExponents(bits: seq<bool>, before: seq<bool>, h: Shape, first: bool, strat: seq<Strategy>, e: seq<seq<int>>,
                     start: seq<bool>, after: seq<bool>, places: seq<int>)
    requires ExponentsOk(h, strat, e) && ShapeOk(h) && Codable(h, strat, e)
    requires start == before + Encoded(FirstPart(h, first, strat))
    requires bits == start + ExponentPart(h, strat, e, h.all) + after
    requires |places| == h.all
    requires forall ch :: 0 <= ch < h.all ==> places[ch] == |before| + ExponentPlace(h, first, strat, ch)
    ensures SaysExponents(bits, places, h, strat, e)
  {
    forall ch | 0 <= ch < h.all && strat[ch] != Reuse
      ensures ChannelSays(bits, places[ch], h, ch, Triples(Bins(h, ch), strat[ch]), e[ch])
    {
      ExponentsAt(bits, before, h, first, strat, e, start, after, ch, places[ch]);
    }
  }

  lemma ReadMantissas(bits: seq<bool>, head: seq<bool>, m: seq<bool>, b: seq<int>, v: seq<int>, after: seq<bool>,
                      place: int)
    requires Decodes(m, b, v) && bits == head + m + after && place == |head|
    ensures MantissasAt(bits, place, b, v)
  {
    assert M.Mantissas(head + m + after, |head|, b, |b|) == v;
  }

  // From a block written by the encoder, wherever it stands, the syntax of section 5.3.3 gives
  // the flags, strategies, bandwidths, exponents, parameters, offsets and mantissas of it.
  lemma BlockRoundTrip(bits: seq<bool>, before: seq<bool>, h: Shape, first: bool, strat: seq<Strategy>,
                       e: seq<seq<int>>, o: Offsets, m: seq<bool>, b: seq<int>, v: seq<int>, after: seq<bool>,
                       p: Places)
    requires ExponentsOk(h, strat, e) && ShapeOk(h) && Codable(h, strat, e) && OffsetsFit(o) && Decodes(m, b, v)
    requires bits == before + BlockBits(h, first, strat, e, o, m) + after && p == PlacesOf(|before|, h, first, strat)
    ensures Says(bits, p, h, first, strat, e, o, b, v)
  {
    var f, s, w := FlagFields(h, first), StrategyFields(h, strat), BandwidthFields(strat, h.full);
    var x, a := ExponentPart(h, strat, e, h.all), Encoded(AllocFields(h, first, o));
    BlockParts(bits, before, f, s, w, x, a, m, after);
    FirstParts(bits, before, h, first, strat, e, a + m + after, Encoded(w) + x + a + m + after, p);
    BeforeBandwidths(before, h, first, strat);
    BandwidthPart(bits, before + Encoded(f) + Encoded(s), h, strat, Encoded(w), x, a, m, after, p.bandwidths);
    var start := before + Encoded(FirstPart(h, first, strat));
    LastParts(bits, before, h, first, strat, e, o, m, b, v, start, start + x, after, p.offsets, p.mantissas);
  }

  lemma FirstParts(bits: seq<bool>, before: seq<bool>, h: Shape, first: bool, strat: seq<Strategy>, e: seq<seq<int>>,
                   after: seq<bool>, rest: seq<bool>, p: Places)
    requires ExponentsOk(h, strat, e) && ShapeOk(h) && Codable(h, strat, e) && p == PlacesOf(|before|, h, first, strat)
    requires bits == before + Encoded(FlagFields(h, first)) + Encoded(StrategyFields(h, strat)) + rest
    requires bits == (before + Encoded(FirstPart(h, first, strat))) + ExponentPart(h, strat, e, h.all) + after
    ensures SaysFlags(bits, p.flags, h, first) && SaysStrategies(bits, p.strategies, h, strat)
    ensures SaysExponents(bits, p.exponents, h, strat, e)
  {
    Associate(before + Encoded(FlagFields(h, first)), Encoded(StrategyFields(h, strat)), rest);
    ReadFlags(bits, before, h, first, Encoded(StrategyFields(h, strat)) + rest, p.flags);
    ReadStrategies(bits, before, h, first, strat, rest, p.strategies);
    AllExponents(bits, before, h, first, strat, e, before + Encoded(FirstPart(h, first, strat)), after, p.exponents);
  }

  lemma BeforeBandwidths(before: seq<bool>, h: Shape, first: bool, strat: seq<Strategy>)
    requires |strat| == h.all && ShapeOk(h)
    ensures |before + Encoded(FlagFields(h, first)) + Encoded(StrategyFields(h, strat))|
         == |before| + FlagBits(h, first) + 2 * h.full + if h.lfe then 1 else 0
  {
    FlagWidth(h, first);
    StrategyWidth(h, strat);
  }

  lemma BandwidthPart(bits: seq<bool>, head: seq<bool>, h: Shape, strat: seq<Strategy>, w: seq<bool>, x: seq<bool>,
                      a: seq<bool>, m: seq<bool>, after: seq<bool>, place: int)
    requires |strat| == h.all >= h.full && w == Encoded(BandwidthFields(strat, h.full)) && place == |head|
    requires bits == head + (w + x + a + m + after)
    ensures SaysBandwidths(bits, place, h, strat)
  {
    assert bits == head + w + (x + a + m + after);
    ReadBandwidths(bits, head, h, strat, x + a + m + after, place);
  }

  lemma LastParts(bits: seq<bool>, before: seq<bool>, h: Shape, first: bool, strat: seq<Strategy>, e: seq<seq<int>>,
                  o: Offsets, m: seq<bool>, b: seq<int>, v: seq<int>, start: seq<bool>, middle: seq<bool>,
                  after: seq<bool>, p: int, q: int)
    requires ExponentsOk(h, strat, e) && ShapeOk(h) && OffsetsFit(o) && Decodes(m, b, v)
    requires start == before + Encoded(FirstPart(h, first, strat)) && middle == start + ExponentPart(h, strat, e, h.all)
    requires bits == middle + Encoded(AllocFields(h, first, o)) + (m + after)
    requires bits == middle + Encoded(AllocFields(h, first, o)) + m + after
    requires p == |before| + ExponentPlace(h, first, strat, h.all) && q == |before| + MantissaPlace(h, first, strat)
    ensures SaysAllocation(bits, p, h, first, o)
    ensures MantissasAt(bits, q, b, v)
  {
    PlacesAre(h, first, strat, e, o, h.all);
    ReadAllocation(bits, middle, h, first, o, m + after, p);
    ReadMantissas(bits, middle + Encoded(AllocFields(h, first, o)), m, b, v, after, q);
  }
}
