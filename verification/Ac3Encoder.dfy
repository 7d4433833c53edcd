// AC3_encode_frame from its exponents on: how long the frame is, how finely it is quantised, and
// that what comes out is a frame a decoder can take apart.
module Ac3Encoder {
  import opened Sums
  import Bits
  import opened Ac3Config
  import opened Ac3Exponents
  import opened Ac3Block
  import opened Ac3Frame
  import A = Ac3BitAlloc
  import B = Ac3Bands
  import H = Ac3Header
  import M = Ac3Mantissa
  import R = Ac3Rate
  import S = Ac3Sync
  import T = Ac3Tables

  // Strategies and encoded exponents of each block's channels, their coefficients, and by how
  // much these were shifted before.
  datatype FrameInput = FrameInput(strats: seq<seq<Strategy>>, encoded: seq<seq<seq<int>>>, coefs: seq<seq<seq<int>>>,
                                   shifts: seq<seq<int>>)

  // A coefficient the quantisers take.
  ghost predicate InQuantiserRange(c: int, e: int) {
    e >= 0 && -M.UNIT < c * Pow2(e) < M.UNIT
  }

  // Channel ch of block i: encoded exponents as EncodeChannel leaves them, coefficients in range.
  ghost predicate ChannelOk(h: Shape, f: FrameInput, e: seq<seq<seq<int>>>, i: nat, ch: nat)
    requires StrategiesOk(h, f.strats) && |f.encoded| == |f.coefs| == |f.shifts| == |e| == NB_BLOCKS && i < NB_BLOCKS
    requires ch < h.all
    requires |f.encoded[i]| == |f.coefs[i]| == |f.shifts[i]| == |e[i]| == h.all
    requires (i > 0 ==> |f.encoded[i - 1]| == h.all)
  {
    var n := Bins(h, ch);
    && |f.encoded[i][ch]| == 256 && |f.coefs[i][ch]| == 256 && InRange(f.encoded[i][ch][..n])
    && (if f.strats[i][ch] == Reuse
        then i > 0 && |f.encoded[i - 1][ch]| == 256 && f.encoded[i][ch][..n] == f.encoded[i - 1][ch][..n]
        else Sent(f.encoded[i][ch], e[i][ch], f.strats[i][ch], n))
    && forall k :: 0 <= k < n ==> InQuantiserRange(f.coefs[i][ch][k], f.encoded[i][ch][k] - f.shifts[i][ch])
  }

  ghost predicate FrameInputOk(h: Shape, f: FrameInput, e: seq<seq<seq<int>>>) {
    && StrategiesOk(h, f.strats) && |f.encoded| == |f.coefs| == |f.shifts| == |e| == NB_BLOCKS
    && (forall i :: 0 <= i < NB_BLOCKS ==> |f.encoded[i]| == |f.coefs[i]| == |f.shifts[i]| == |e[i]| == h.all)
    && (forall i, ch {:trigger ChannelOk(h, f, e, i, ch)} :: 0 <= i < NB_BLOCKS && 0 <= ch < h.all ==>
          ChannelOk(h, f, e, i, ch))
    && forall i, ch :: 0 <= i < NB_BLOCKS && h.full <= ch < h.all ==> f.strats[i][ch] == Reuse || f.strats[i][ch] == D15
  }

  // The parameters compute_bit_allocation sets.
  const FLOOR: int := 0x1F0

  function CurveFor(fscod: int, halfratecod: int, isLfe: bool): (c: B.Curve)
    ensures B.CurveOk(c)
  {
    B.Curve(0x280, 0x4D8, Halved(0x53, halfratecod), Halved(0x13, halfratecod), 0x900,
            if 0 <= fscod < 3 then fscod else 0, if 0 <= halfratecod < 3 then halfratecod else 0, isLfe)
  }

  function EncoderCurve(c: Config, ch: nat): B.Curve { CurveFor(c.fscod, c.halfratecod, c.lfe && ch == 5) }

  function Curves(c: Config): (s: seq<B.Curve>)
    ensures |s| == c.nbAll && forall ch :: 0 <= ch < c.nbAll ==> s[ch] == EncoderCurve(c, ch)
  {
    seq(c.nbAll, ch requires 0 <= ch < c.nbAll => EncoderCurve(c, ch))
  }

  // The exponents of the bins there are.
  function Cut(h: Shape, rows: seq<seq<int>>): (r: seq<seq<int>>)
    requires |rows| == h.all && forall ch :: 0 <= ch < h.all ==> |rows[ch]| == 256
    ensures |r| == h.all && forall ch :: 0 <= ch < h.all ==> r[ch] == rows[ch][..Bins(h, ch)]
  {
    seq(h.all, ch requires 0 <= ch < h.all => rows[ch][..Bins(h, ch)])
  }

  function CutAll(h: Shape, blocks: seq<seq<seq<int>>>): (r: seq<seq<seq<int>>>)
    requires forall i :: 0 <= i < |blocks| ==> |blocks[i]| == h.all && forall ch :: 0 <= ch < h.all ==>
      |blocks[i][ch]| == 256
    ensures |r| == |blocks| && forall i :: 0 <= i < |blocks| ==> r[i] == Cut(h, blocks[i])
  {
    seq(|blocks|, i requires 0 <= i < |blocks| => Cut(h, blocks[i]))
  }

  function Reuses(strats: seq<seq<Strategy>>): (r: seq<seq<bool>>)
    ensures |r| == |strats| && forall i :: 0 <= i < |strats| ==> |r[i]| == |strats[i]|
    ensures forall i, ch :: 0 <= i < |strats| && 0 <= ch < |strats[i]| ==> r[i][ch] == (strats[i][ch] == Reuse)
  {
    seq(|strats|, i requires 0 <= i < |strats| =>
      seq(|strats[i]|, ch requires 0 <= ch < |strats[i]| => strats[i][ch] == Reuse))
  }

  lemma InputLengths(h: Shape, f: FrameInput, e: seq<seq<seq<int>>>)
    requires FrameInputOk(h, f, e)
    ensures forall i :: 0 <= i < NB_BLOCKS ==> |f.encoded[i]| == h.all && forall ch :: 0 <= ch < h.all ==>
      |f.encoded[i][ch]| == 256
    ensures A.ReuseOk(CutAll(h, f.encoded), Reuses(f.strats), h.all)
  {
    forall i, ch | 0 <= i < NB_BLOCKS && 0 <= ch < h.all
      ensures |f.encoded[i][ch]| == 256
    {
      assert ChannelOk(h, f, e, i, ch);
    }
    var r := CutAll(h, f.encoded);
    forall i, ch | 0 <= i < NB_BLOCKS && 0 <= ch < h.all && f.strats[i][ch] == Reuse
      ensures i > 0 && r[i][ch] == r[i - 1][ch]
    {
      assert ChannelOk(h, f, e, i, ch);
    }
  }

  // ---- from the baps to what is written ----

  function Exponents(h: Shape, f: FrameInput, i: nat): (r: seq<seq<int>>)
    requires i < |f.encoded| && i < |f.shifts| && |f.encoded[i]| == |f.shifts[i]| == h.all
    requires forall ch :: 0 <= ch < h.all ==> |f.encoded[i][ch]| == 256
    ensures |r| == h.all && forall ch :: 0 <= ch < h.all ==> |r[ch]| == Bins(h, ch)
    ensures forall ch, k :: 0 <= ch < h.all && 0 <= k < Bins(h, ch) ==>
      r[ch][k] == f.encoded[i][ch][k] - f.shifts[i][ch]
  {
    seq(h.all, ch requires 0 <= ch < h.all =>
      seq(Bins(h, ch), k requires 0 <= k < Bins(h, ch) => f.encoded[i][ch][k] - f.shifts[i][ch]))
  }

  function BlockOf(h: Shape, f: FrameInput, i: nat, bap: seq<seq<int>>): BlockInput
    requires i < |f.strats| && i < |f.encoded| && i < |f.shifts| && i < |f.coefs|
    requires |f.encoded[i]| == |f.shifts[i]| == |f.coefs[i]| == h.all
    requires forall ch :: 0 <= ch < h.all ==> |f.encoded[i][ch]| == 256 && |f.coefs[i][ch]| == 256
  {
    BlockInput(f.strats[i], f.encoded[i], M.Input(Cut(h, f.coefs[i]), Exponents(h, f, i), bap))
  }

  // Baps for every bin of every channel.
  ghost predicate BapsOk(h: Shape, bap: seq<seq<int>>) {
    && |bap| == h.all
    && (forall ch :: 0 <= ch < h.all ==> |bap[ch]| == Bins(h, ch))
    && forall ch, k :: 0 <= ch < h.all && 0 <= k < |bap[ch]| ==> 0 <= bap[ch][k] <= 15
  }

  lemma BlockInputOk(h: Shape, f: FrameInput, e: seq<seq<seq<int>>>, i: nat, bap: seq<seq<int>>)
    requires FrameInputOk(h, f, e) && i < NB_BLOCKS && BapsOk(h, bap)
    ensures forall ch :: 0 <= ch < h.all ==> |f.encoded[i][ch]| == 256 && |f.coefs[i][ch]| == 256
    ensures M.InputOk(BlockOf(h, f, i, bap).x)
    ensures InputOk(h, BlockOf(h, f, i, bap), e[i], M.Flat(M.QuantisedRows(BlockOf(h, f, i, bap).x)))
  {
    forall ch | 0 <= ch < h.all
      ensures |f.encoded[i][ch]| == 256 && |f.coefs[i][ch]| == 256
      ensures f.strats[i][ch] != Reuse ==> Sent(f.encoded[i][ch], e[i][ch], f.strats[i][ch], Bins(h, ch))
    {
      assert ChannelOk(h, f, e, i, ch);
    }
    var d := BlockOf(h, f, i, bap);
    forall ch, k {:trigger M.BinOk(d.x, ch, k)} | 0 <= ch < |d.x.bap| && 0 <= k < |d.x.bap[ch]|
      ensures M.BinOk(d.x, ch, k)
    {
      assert ChannelOk(h, f, e, i, ch);
      assert InQuantiserRange(f.coefs[i][ch][k], f.encoded[i][ch][k] - f.shifts[i][ch]);
    }
    M.RowsAreMantissas(d.x);
  }

  // All blocks, with the baps that were found.
  function BlocksOf(h: Shape, f: FrameInput, baps: seq<seq<seq<int>>>): (d: seq<BlockInput>)
    requires |f.strats| == |f.encoded| == |f.shifts| == |f.coefs| == |baps| == NB_BLOCKS
    requires forall i :: 0 <= i < NB_BLOCKS ==> |f.encoded[i]| == |f.shifts[i]| == |f.coefs[i]| == h.all
    requires forall i, ch :: 0 <= i < NB_BLOCKS && 0 <= ch < h.all ==>
               |f.encoded[i][ch]| == 256 && |f.coefs[i][ch]| == 256
    ensures |d| == NB_BLOCKS && forall i :: 0 <= i < NB_BLOCKS ==> d[i] == BlockOf(h, f, i, baps[i])
  {
    seq(NB_BLOCKS, i requires 0 <= i < NB_BLOCKS => BlockOf(h, f, i, baps[i]))
  }

  ghost predicate LengthsOk(h: Shape, f: FrameInput) {
    && |f.strats| == |f.encoded| == |f.shifts| == |f.coefs| == NB_BLOCKS
    && (forall i :: 0 <= i < NB_BLOCKS ==> |f.encoded[i]| == |f.shifts[i]| == |f.coefs[i]| == h.all)
    && forall i, ch :: 0 <= i < NB_BLOCKS && 0 <= ch < h.all ==> |f.encoded[i][ch]| == 256 && |f.coefs[i][ch]| == 256
  }

  lemma HasLengths(h: Shape, f: FrameInput, e: seq<seq<seq<int>>>)
    requires FrameInputOk(h, f, e)
    ensures LengthsOk(h, f)
  {
    forall i, ch | 0 <= i < NB_BLOCKS && 0 <= ch < h.all
      ensures |f.encoded[i][ch]| == 256 && |f.coefs[i][ch]| == 256
    {
      assert ChannelOk(h, f, e, i, ch);
    }
  }

  // The values before grouping, block by block.
  ghost function Values(d: seq<BlockInput>): (v: seq<seq<int>>)
    requires forall i :: 0 <= i < |d| ==> M.InputOk(d[i].x)
    ensures |v| == |d| && forall i :: 0 <= i < |d| ==> v[i] == M.Flat(M.QuantisedRows(d[i].x))
  {
    seq(|d|, i requires 0 <= i < |d| => M.Flat(M.QuantisedRows(d[i].x)))
  }

  lemma BlocksInputOk(h: Shape, f: FrameInput, e: seq<seq<seq<int>>>, baps: seq<seq<seq<int>>>)
    requires FrameInputOk(h, f, e) && LengthsOk(h, f) && |baps| == NB_BLOCKS
    requires forall i :: 0 <= i < NB_BLOCKS ==> BapsOk(h, baps[i])
    ensures var d := BlocksOf(h, f, baps);
      && (forall i :: 0 <= i < NB_BLOCKS ==> M.InputOk(d[i].x)) && InputsOk(h, d, e, Values(d))
  {
    var d := BlocksOf(h, f, baps);
    forall i | 0 <= i < NB_BLOCKS
      ensures M.InputOk(d[i].x) && InputOk(h, d[i], e[i], M.Flat(M.QuantisedRows(d[i].x)))
    {
      BlockInputOk(h, f, e, i, baps[i]);
    }
  }

  // A block of the allocation has a bap for every bin.
  lemma AllocationOk(h: Shape, t: T.Tables, block: seq<A.Masked>, snroffset: int)
    requires T.Sound(t) && |block| == h.all
    requires forall ch :: 0 <= ch < h.all ==> A.MaskedOk(block[ch]) && block[ch].bins == Bins(h, ch)
    ensures BapsOk(h, A.RowsOf(t, block, snroffset, FLOOR))
  {
  }

  lemma {:induction false} SameBits(h: Shape, f: FrameInput, baps: seq<seq<seq<int>>>, n: nat)
    requires LengthsOk(h, f) && |baps| == NB_BLOCKS && n <= NB_BLOCKS
    ensures BapTotal(BlocksOf(h, f, baps), n) == A.MantissaBits(baps[..n])
  {
    if n > 0 {
      SameBits(h, f, baps, n - 1);
      assert baps[..n][..n - 1] == baps[..n - 1];
    }
  }

  // Masked channels have the right bins.
  lemma MaskedBins(h: Shape, t: T.Tables, frame: seq<seq<A.Masked>>, exps: seq<seq<seq<int>>>, curves: seq<B.Curve>)
    requires T.Sound(t) && (forall ch :: 0 <= ch < |curves| ==> B.CurveOk(curves[ch])) && |frame| == |exps| == NB_BLOCKS
    requires forall i :: 0 <= i < NB_BLOCKS ==> |exps[i]| == |curves| == h.all && forall ch :: 0 <= ch < h.all ==>
      |exps[i][ch]| == Bins(h, ch)
    requires forall i :: 0 <= i < NB_BLOCKS ==> A.BlockMasked(t, frame[i], exps[i], curves)
    ensures forall i :: 0 <= i < NB_BLOCKS ==> |frame[i]| == h.all
    ensures forall i, ch :: 0 <= i < NB_BLOCKS && 0 <= ch < h.all ==>
              A.MaskedOk(frame[i][ch]) && frame[i][ch].bins == Bins(h, ch)
  {
    forall i, ch | 0 <= i < NB_BLOCKS && 0 <= ch < h.all
      ensures |frame[i]| == h.all && A.MaskedOk(frame[i][ch]) && frame[i][ch].bins == Bins(h, ch)
    {
      assert A.BlockMasked(t, frame[i], exps[i], curves);
      assert A.IsMasked(t, frame[i][ch], exps[i][ch], curves[ch]);
    }
  }

  lemma CurvesOk(c: Config)
    requires Accepted(c)
    ensures forall ch :: 0 <= ch < c.nbAll ==> B.CurveOk(Curves(c)[ch])
  {
  }

  // Bits of a frame apart from mantissas, as compute_bit_allocation counts them.
  ghost predicate IsFrameBits(c: Config, f: FrameInput, exponentBits: int, frameBits: int)
    requires StrategiesOk(ShapeOf(c), f.strats)
  {
    frameBits == exponentBits + 65 + H.FrameBitsInc(c.acmod) + SideTotal(ShapeOf(c), f.strats, NB_BLOCKS) + 18
  }

  // The masking curves are those that follow from the exponents as they were encoded.
  ghost predicate FrameMasked(c: Config, t: T.Tables, f: FrameInput, frame: seq<seq<A.Masked>>)
    requires T.Sound(t) && LengthsOk(ShapeOf(c), f) && |Curves(c)| == ShapeOf(c).all
    requires forall ch :: 0 <= ch < c.nbAll ==> B.CurveOk(Curves(c)[ch])
  {
    |frame| == NB_BLOCKS && forall i :: 0 <= i < NB_BLOCKS ==>
      A.BlockMasked(t, frame[i], CutAll(ShapeOf(c), f.encoded)[i], Curves(c))
  }

  // What there is to allocate for this input: nothing of it is for the search to choose.
  ghost predicate IsProblem(p: A.Problem, c: Config, t: T.Tables, f: FrameInput, frameSize: int, exponentBits: int) {
    && T.Sound(t) && StrategiesOk(ShapeOf(c), f.strats) && LengthsOk(ShapeOf(c), f) && |Curves(c)| == ShapeOf(c).all
    && (forall ch :: 0 <= ch < c.nbAll ==> B.CurveOk(Curves(c)[ch]))
    && p.t == t && p.floor == FLOOR && p.frameSize == frameSize && IsFrameBits(c, f, exponentBits, p.frameBits)
    && FrameMasked(c, t, f, p.frame)
  }

  // The allocator keeps the offsets found for the next frame, and the old ones if none were.
  ghost predicate Offered(result: int, o: Offsets, channels: nat, coarse: int, fine: seq<int>, coarse0: int,
                          fine0: seq<int>) {
    if result == 0 then coarse == o.csnroffst && fine == seq(channels, _ => o.fsnroffst)
    else coarse == coarse0 && fine == fine0
  }

  // The bit allocation of a frame: its problem, and the answer to it.
  method Allocate(c: Config, alloc: A.BitAllocator, t: T.Tables, f: FrameInput, frameSize: int, exponentBits: int,
                  ghost e: seq<seq<seq<int>>>)
      returns (result: int, baps: seq<seq<seq<int>>>, o: Offsets, frameBits: int, ghost p: A.Problem)
    requires Accepted(c) && T.Sound(t) && alloc.Valid() && alloc.channels == c.nbAll && FrameInputOk(ShapeOf(c), f, e)
    modifies alloc
    ensures alloc.Valid() && A.ProblemOk(p) && IsProblem(p, c, t, f, frameSize, exponentBits)
    ensures p.frameBits == frameBits
    ensures Offered(result, o, c.nbAll, alloc.csnroffst, alloc.fsnroffst, old(alloc.csnroffst), old(alloc.fsnroffst))
    ensures result == 0 || result == -1
    ensures result == -1 <==> A.NoneFits(p, old(alloc.csnroffst))
    ensures result == 0 ==> A.Fitting(p, o.csnroffst, o.fsnroffst, baps) && A.Finest(p, o.csnroffst, o.fsnroffst)
    ensures result == 0 ==> |baps| == NB_BLOCKS && forall i :: 0 <= i < NB_BLOCKS ==> BapsOk(ShapeOf(c), baps[i])
  {
    var h := ShapeOf(c);
    ShapeOfAccepted(c);
    InputLengths(h, f, e);
    HasLengths(h, f, e);
    CurvesOk(c);
    frameBits := PredictFrameBits(h, f.strats, exponentBits);
    var frame := A.BitAllocMasking(t, alloc.bndtab, alloc.masktab, CutAll(h, f.encoded), Reuses(f.strats), Curves(c));
    MaskedBins(h, t, frame, CutAll(h, f.encoded), Curves(c));
    var problem := A.Problem(t, frame, FLOOR, frameBits, frameSize);
    p := problem;
    result, baps := alloc.Search(problem);
    o := Offsets(0, 0);
    if result == 0 {
      ghost var fine :| A.Fitting(p, alloc.csnroffst, fine, baps) && A.Finest(p, alloc.csnroffst, fine)
        && alloc.fsnroffst == seq(alloc.channels, _ => fine);
      o := Offsets(alloc.csnroffst, alloc.fsnroffst[0]);
      forall i | 0 <= i < NB_BLOCKS
        ensures BapsOk(h, baps[i])
      {
        AllocationOk(h, t, frame[i], A.SnrOffset(alloc.csnroffst, fine));
      }
    }
  }

  lemma FrameSizeBounds(c: Config, frameSize: int)
    requires Accepted(c) && H.FrameSizeOk(c, frameSize)
    ensures 64 <= frameSize <= 1920
  {
    R.AcceptedRates(c);
    H.AcceptedFields(c);
  }

  // The blocks of a frame are the input's: strategies, exponents, and each bin's quantised value.
  ghost predicate Carries(h: Shape, f: FrameInput, e: seq<seq<seq<int>>>, baps: seq<seq<seq<int>>>, b: seq<BlockData>,
                          q: seq<Quantised>) {
    && LengthsOk(h, f) && |e| == |baps| == |b| == |q| == NB_BLOCKS
    && forall i :: 0 <= i < NB_BLOCKS ==>
         && b[i].strat == f.strats[i] && b[i].e == e[i] && q[i].b == M.Flat(baps[i])
         && M.InputOk(BlockOf(h, f, i, baps[i]).x) && M.AreMantissas(BlockOf(h, f, i, baps[i]).x, q[i].v)
  }

  // A frame of the input: as long as it should be, finished, and cut out of a stream whole.
  ghost predicate IsFrameOf(bytes: seq<int>, c: Config, frameSize: int, o: Offsets, f: FrameInput,
                            e: seq<seq<seq<int>>>, baps: seq<seq<seq<int>>>, b: seq<BlockData>, q: seq<Quantised>,
                            crc1: int, fill: seq<bool>)
    requires Accepted(c)
  {
    && |bytes| == 2 * frameSize && 128 <= |bytes| <= 3840 && BlocksOk(ShapeOf(c), b) && H.FrameSizeOk(c, frameSize)
    && Finished(bytes, c, frameSize, o, b, q, crc1, fill) && S.Announced(bytes)
    && Carries(ShapeOf(c), f, e, baps, b, q)
  }

  // A frame for an allocation that fits.
  method WriteFrame(c: Config, frameSize: nat, o: Offsets, f: FrameInput, baps: seq<seq<seq<int>>>, exponentBits: int,
                    frame: array<int>, ghost e: seq<seq<seq<int>>>, ghost t: T.Tables, ghost p: A.Problem)
      returns (bytes: nat, ghost b: seq<BlockData>, ghost q: seq<Quantised>, ghost crc1: int, ghost fill: seq<bool>)
    requires Accepted(c) && H.FrameSizeOk(c, frameSize) && frame.Length == 3840
    requires FrameInputOk(ShapeOf(c), f, e) && |baps| == NB_BLOCKS
    requires forall i :: 0 <= i < NB_BLOCKS ==> BapsOk(ShapeOf(c), baps[i])
    requires exponentBits == ChannelTotal(ShapeOf(c), f.strats, c.nbAll)
    requires IsProblem(p, c, t, f, frameSize, exponentBits)
    requires A.Fitting(p, o.csnroffst, o.fsnroffst, baps)
    modifies frame
    ensures bytes <= 3840 && IsFrameOf(frame[..bytes], c, frameSize, o, f, e, baps, b, q, crc1, fill)
  {
    var h := ShapeOf(c);
    HasLengths(h, f, e);
    var d := BlocksOf(h, f, baps);
    BlocksInputOk(h, f, e, baps);
    RoomFound(h, f, baps, frameSize, p.frameBits, exponentBits, p, o);
    FrameSizeBounds(c, frameSize);
    bytes, b, q, crc1, fill := OutputFrame(c, frameSize, o, d, frame, p.frameBits, e, Values(d));
    WrittenIsInput(h, f, e, baps, d, Values(d), b, q);
    FinishedIsAnnounced(frame[..bytes], c, frameSize, o, b, q, crc1, fill);
  }

  // The frame says its own length: the parser will cut it out of a stream whole.
  lemma FinishedIsAnnounced(bytes: seq<int>, c: Config, frameSize: nat, o: Offsets, b: seq<BlockData>,
                            q: seq<Quantised>, crc1: int, fill: seq<bool>)
    requires Accepted(c) && BlocksOk(ShapeOf(c), b) && |bytes| == 2 * frameSize >= 128 && H.FrameSizeOk(c, frameSize)
    requires Finished(bytes, c, frameSize, o, b, q, crc1, fill)
    ensures S.Announced(bytes)
  {
    var all := BlocksTo(ShapeOf(c), o, b, NB_BLOCKS);
    Bits.Associate(Bits.Encoded(H.HeaderFields(c, frameSize, crc1)), all, fill);
    S.FrameIsAnnounced(bytes, c, frameSize, crc1, all + fill);
  }

  // The rest of AC3_encode_frame, up to the frame's last byte, when the search finds room (the
  // source goes on without looking): the frame is as long as the rate control says, its
  // quantisation the finest within a step, and everything in it can be read back.
  method EncodeFrame(c: Config, sizer: R.FrameSizer, alloc: A.BitAllocator, t: T.Tables, f: FrameInput,
                     exponentBits: int, frame: array<int>, ghost e: seq<seq<seq<int>>>)
      returns (result: int, bytes: nat, baps: seq<seq<seq<int>>>, o: Offsets, ghost p: A.Problem,
               ghost b: seq<BlockData>, ghost q: seq<Quantised>, ghost crc1: int, ghost fill: seq<bool>)
    requires Accepted(c) && T.Sound(t) && sizer.Valid() && sizer.r == R.RatesOf(c) && alloc.Valid()
    requires alloc.channels == c.nbAll
    requires FrameInputOk(ShapeOf(c), f, e) && exponentBits == ChannelTotal(ShapeOf(c), f.strats, c.nbAll)
    requires frame.Length == 3840
    modifies sizer, alloc, frame
    ensures sizer.Valid() && alloc.Valid() && sizer.frames == old(sizer.frames) + 1
    ensures A.ProblemOk(p) && IsProblem(p, c, t, f, sizer.frameSize, exponentBits)
    ensures Offered(result, o, c.nbAll, alloc.csnroffst, alloc.fsnroffst, old(alloc.csnroffst), old(alloc.fsnroffst))
    ensures (result == -1 <==> A.NoneFits(p, old(alloc.csnroffst))) && (result == 0 || result == -1)
    ensures result == 0 ==> A.Fitting(p, o.csnroffst, o.fsnroffst, baps) && A.Finest(p, o.csnroffst, o.fsnroffst)
    ensures result == 0 ==>
      bytes <= 3840 && IsFrameOf(frame[..bytes], c, sizer.frameSize, o, f, e, baps, b, q, crc1, fill)
  {
    sizer.NextFrame(c);
    R.AcceptedRates(c);
    bytes := 0;
    b, q, crc1, fill := [], [], 0, [];
    var frameBits;
    result, baps, o, frameBits, p := Allocate(c, alloc, t, f, sizer.frameSize, exponentBits, e);
    if result == 0 {
      bytes, b, q, crc1, fill := WriteFrame(c, sizer.frameSize, o, f, baps, exponentBits, frame, e, t, p);
    }
  }

  lemma RoomFound(h: Shape, f: FrameInput, baps: seq<seq<seq<int>>>, frameSize: int, frameBits: int, exponentBits: int,
                  p: A.Problem, o: Offsets)
    requires LengthsOk(h, f) && StrategiesOk(h, f.strats) && |baps| == NB_BLOCKS
    requires exponentBits == ChannelTotal(h, f.strats, h.all)
    requires frameBits == exponentBits + 65 + H.FrameBitsInc(h.acmod) + SideTotal(h, f.strats, NB_BLOCKS) + 18
    requires T.Sound(p.t) && p.frameSize == frameSize && p.frameBits == frameBits
    requires A.Fitting(p, o.csnroffst, o.fsnroffst, baps)
    ensures var d := BlocksOf(h, f, baps); StrategiesOk(h, InputStrategies(d)) && RoomFor(h, d, frameSize, frameBits)
  {
    var d := BlocksOf(h, f, baps);
    assert InputStrategies(d) == f.strats;
    SameBits(h, f, baps, NB_BLOCKS);
    assert baps[..NB_BLOCKS] == baps;
  }

  lemma WrittenIsInput(h: Shape, f: FrameInput, e: seq<seq<seq<int>>>, baps: seq<seq<seq<int>>>, d: seq<BlockInput>,
                       v: seq<seq<int>>, b: seq<BlockData>, q: seq<Quantised>)
    requires LengthsOk(h, f) && |baps| == NB_BLOCKS && d == BlocksOf(h, f, baps) && |e| == |v| == NB_BLOCKS
    requires InputsOk(h, d, e, v) && MatchesAll(d, e, v, b, q, NB_BLOCKS)
    ensures Carries(h, f, e, baps, b, q)
  {
    forall i | 0 <= i < NB_BLOCKS
      ensures b[i].strat == f.strats[i] && b[i].e == e[i] && q[i].b == M.Flat(baps[i])
      ensures M.InputOk(d[i].x) && M.AreMantissas(d[i].x, q[i].v)
    {
      assert Matches(d[i], e[i], b[i], q[i], v[i]);
      assert InputOk(h, d[i], e[i], v[i]);
    }
  }
}
