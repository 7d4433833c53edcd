// A decoder of the encoder's frames, from their bits alone, by ATSC A/52: it works out where
// everything is and how many bits each mantissa has from what it has read. What it gives back is
// what the encoder was given.
module Ac3Decoder {
  import opened Sums
  import opened Bits
  import opened Ac3Config
  import opened Wrappers
  import opened Ac3Exponents
  import opened Ac3Block
  import opened Ac3BlockReader
  import opened Ac3Frame
  import A = Ac3BitAlloc
  import C = Ac3Crc
  import E = Ac3Encoder
  import H = Ac3Header
  import I = Ac3Info
  import M = Ac3Mantissa
  import S = Ac3Sync
  import T = Ac3Tables

  // ---- a frame ----

  // How a block is read whose place is known, and what the blocks before it left known.
  type BlockReader = (nat, bool, Known) -> Option<Block>

  function Reader(t: T.Tables, bits: seq<bool>, s: Stream): BlockReader
    requires T.Sound(t) && s.h.all >= s.h.full
  {
    (pos: nat, first: bool, before: Known) => ReadBlock(t, bits, s, pos, first, before)
  }

  // Block n, the blocks before it being read; it begins where the last of them ended.
  function ReadNext(read: BlockReader, start: nat, done: seq<Block>): Option<Block> {
    if done == [] then read(start, true, NOTHING)
    else read(Place(done[|done| - 1].next), false, done[|done| - 1].known)
  }

  // The first n blocks.
  function ReadBlocks(read: BlockReader, start: nat, n: nat): (b: Option<seq<Block>>)
    ensures b.Some? ==> |b.value| == n
  {
    if n == 0 then Some([])
    else
      match ReadBlocks(read, start, n - 1)
      case None => None
      case Some(done) =>
        match ReadNext(read, start, done)
        case None => None
        case Some(b) => Some(done + [b])
  }

  function StreamOf(bits: seq<bool>): Stream { StreamFrom(S.CodedOf(bits)) }

  function StreamFrom(k: H.Coded): (s: Stream) {
    var full: nat := H.ChannelsOf(k.acmod);
    Stream(Shape(full, full + (if k.lfeon == 1 then 1 else 0), k.acmod, k.lfeon == 1), k.fscod, H.Max(k.bsid, 8) - 8)
  }

  datatype Frame = Frame(h: Shape, info: I.Info, blocks: seq<Block>)

  // A frame that is not accepted gives none; nor does one with what the encoder never sends: dual
  // mono, coupling, dynamic range, delta bit allocation, or bytes to skip.
  function DecodeFrame(t: T.Tables, bits: seq<bool>): Option<Frame>
    requires T.Sound(t)
  {
    var s := StreamOf(bits);
    if H.Outcome(bits) != 0 || s.h.acmod < 1 || s.h.acmod > 7 then None
    else
      var info := I.ReadInfo(bits, I.InfoPlace(s.h.acmod));
      match ReadBlocks(Reader(t, bits, s), info.next, NB_BLOCKS)
      case None => None
      case Some(blocks) => Some(Frame(s.h, info, blocks))
  }

  // ---- a whole frame ----

  // What all blocks should be read as, and what makes them so.
  ghost predicate Readable(t: T.Tables, bits: seq<bool>, s: Stream, o: Offsets, starts: seq<int>, f: E.FrameInput,
                           e: seq<seq<seq<int>>>, frame: seq<seq<A.Masked>>, baps: seq<seq<seq<int>>>, v: seq<seq<int>>)
  {
    && T.Sound(t) && ShapeOk(s.h) && SixthIsLfe(s.h) && E.LengthsOk(s.h, f) && StrategiesOk(s.h, f.strats)
    && |starts| == |e| == |frame| == |baps| == |v| == NB_BLOCKS
    && forall i: nat {:trigger ReadableBlock(t, bits, s, o, starts[i], f, i, e[i], frame[i], baps[i], v[i])} ::
         i < NB_BLOCKS ==> ReadableBlock(t, bits, s, o, starts[i], f, i, e[i], frame[i], baps[i], v[i])
  }

  ghost predicate ReadableBlock(t: T.Tables, bits: seq<bool>, s: Stream, o: Offsets, start: int, f: E.FrameInput,
                                i: nat, e: seq<seq<int>>, block: seq<A.Masked>, baps: seq<seq<int>>, v: seq<int>)
    requires T.Sound(t) && ShapeOk(s.h) && E.LengthsOk(s.h, f) && StrategiesOk(s.h, f.strats) && i < NB_BLOCKS
  {
    && start >= 0 && ExponentsOk(s.h, f.strats[i], e) && (i == 0 ==> Reuse !in f.strats[i])
    && Follow(s.h, f.strats[i], e, f.encoded[i], if i == 0 then [] else E.Cut(s.h, f.encoded[i - 1]))
    && A.BlockMasked(t, block, E.Cut(s.h, f.encoded[i]), CurvesOf(s))
    && baps == A.RowsOf(t, block, A.SnrOffset(o.csnroffst, o.fsnroffst), E.FLOOR)
    && Says(bits, PlacesOf(start, s.h, i == 0, f.strats[i]), s.h, i == 0, f.strats[i], e, o, M.Flat(baps), v)
  }

  // Each block begins where the one before ends.
  ghost predicate Adjoining(h: Shape, strats: seq<seq<Strategy>>, baps: seq<seq<seq<int>>>, starts: seq<int>)
    requires StrategiesOk(h, strats) && |starts| == |baps| == NB_BLOCKS
  {
    forall i: nat {:trigger Ends(h, strats, baps, starts, i)} :: i < NB_BLOCKS - 1 ==>
      starts[i + 1] == Ends(h, strats, baps, starts, i)
  }

  // Where block i ends.
  function Ends(h: Shape, strats: seq<seq<Strategy>>, baps: seq<seq<seq<int>>>, starts: seq<int>, i: nat): int
    requires StrategiesOk(h, strats) && |starts| == |baps| == NB_BLOCKS && i < NB_BLOCKS
  {
    PlacesOf(starts[i], h, i == 0, strats[i]).mantissas + M.SizeTo(M.Flat(baps[i]), |M.Flat(baps[i])|)
  }

  function Wanted(s: Stream, o: Offsets, f: E.FrameInput, starts: seq<int>, baps: seq<seq<seq<int>>>,
                  v: seq<seq<int>>, i: nat): Block
    requires ShapeOk(s.h) && E.LengthsOk(s.h, f) && StrategiesOk(s.h, f.strats)
    requires |starts| == |baps| == |v| == NB_BLOCKS && i < NB_BLOCKS
  {
    Expected(s.h, o, PlacesOf(starts[i], s.h, i == 0, f.strats[i]).mantissas, f.strats[i], f.encoded[i], baps[i], v[i])
  }

  // Blocks of which each is what is read where the one before ends.
  ghost predicate StepAt(read: BlockReader, start: nat, blocks: seq<Block>, i: nat)
    requires i < |blocks|
  {
    ReadNext(read, start, blocks[..i]) == Some(blocks[i])
  }

  lemma {:induction false} StepsAreRead(read: BlockReader, start: nat, blocks: seq<Block>, n: nat)
    requires n <= |blocks|
    requires forall i: nat {:trigger StepAt(read, start, blocks, i)} :: i < |blocks| ==> StepAt(read, start, blocks, i)
    ensures ReadBlocks(read, start, n) == Some(blocks[..n])
  {
    if n > 0 {
      StepsAreRead(read, start, blocks, n - 1);
      assert StepAt(read, start, blocks, n - 1);
      assert blocks[..n] == blocks[..n - 1] + [blocks[n - 1]];
    }
  }

  // What is known before block i.
  function KnownBefore(h: Shape, o: Offsets, f: E.FrameInput, i: nat): Known
    requires E.LengthsOk(h, f) && i < NB_BLOCKS
  {
    if i == 0 then NOTHING else KnownOf(h, o, f.encoded[i - 1])
  }

  lemma WantedStep(t: T.Tables, bits: seq<bool>, s: Stream, o: Offsets, starts: seq<int>, f: E.FrameInput,
                   e: seq<seq<seq<int>>>, frame: seq<seq<A.Masked>>, baps: seq<seq<seq<int>>>, v: seq<seq<int>>,
                   blocks: seq<Block>, start: nat, i: nat)
    requires Readable(t, bits, s, o, starts, f, e, frame, baps, v) && Adjoining(s.h, f.strats, baps, starts)
    requires start == starts[0]
    requires |blocks| == NB_BLOCKS && i < NB_BLOCKS && blocks[i] == Wanted(s, o, f, starts, baps, v, i)
    requires i > 0 ==> blocks[i - 1] == Wanted(s, o, f, starts, baps, v, i - 1)
    ensures StepAt(Reader(t, bits, s), start, blocks, i)
  {
    BlockWanted(t, bits, s, o, starts, f, e, frame, baps, v, i);
    if i > 0 {
      WantedEnds(s, o, f, starts, baps, v, i);
    }
    NextIs(Reader(t, bits, s), start, blocks, i, starts[i], KnownBefore(s.h, o, f, i));
    ReaderReads(t, bits, s, starts[i], i == 0, KnownBefore(s.h, o, f, i));
  }

  lemma NextIs(read: BlockReader, start: nat, blocks: seq<Block>, i: nat, pos: nat, known: Known)
    requires i < |blocks|
    requires if i == 0 then pos == start && known == NOTHING
             else pos == blocks[i - 1].next && known == blocks[i - 1].known
    ensures ReadNext(read, start, blocks[..i]) == read(pos, i == 0, known)
  {
    if i > 0 {
      assert blocks[..i][|blocks[..i]| - 1] == blocks[i - 1];
    }
  }

  lemma ReaderReads(t: T.Tables, bits: seq<bool>, s: Stream, pos: nat, first: bool, known: Known)
    requires T.Sound(t) && s.h.all >= s.h.full
    ensures Reader(t, bits, s)(pos, first, known) == ReadBlock(t, bits, s, pos, first, known)
  {
  }

  lemma BlockWanted(t: T.Tables, bits: seq<bool>, s: Stream, o: Offsets, starts: seq<int>, f: E.FrameInput,
                    e: seq<seq<seq<int>>>, frame: seq<seq<A.Masked>>, baps: seq<seq<seq<int>>>, v: seq<seq<int>>,
                    i: nat)
    requires Readable(t, bits, s, o, starts, f, e, frame, baps, v) && i < NB_BLOCKS
    ensures starts[i] >= 0
    ensures ReadBlock(t, bits, s, starts[i], i == 0, KnownBefore(s.h, o, f, i))
         == Some(Wanted(s, o, f, starts, baps, v, i))
  {
    assert ReadableBlock(t, bits, s, o, starts[i], f, i, e[i], frame[i], baps[i], v[i]);
    ReadableIsRead(t, bits, s, o, starts[i], f, i, e[i], frame[i], baps[i], v[i]);
  }

  lemma ReadableIsRead(t: T.Tables, bits: seq<bool>, s: Stream, o: Offsets, start: nat, f: E.FrameInput, i: nat,
                       e: seq<seq<int>>, block: seq<A.Masked>, baps: seq<seq<int>>, v: seq<int>)
    requires T.Sound(t) && ShapeOk(s.h) && SixthIsLfe(s.h) && E.LengthsOk(s.h, f) && StrategiesOk(s.h, f.strats)
    requires i < NB_BLOCKS && ReadableBlock(t, bits, s, o, start, f, i, e, block, baps, v)
    ensures ReadBlock(t, bits, s, start, i == 0, KnownBefore(s.h, o, f, i))
         == Some(Expected(s.h, o, PlacesOf(start, s.h, i == 0, f.strats[i]).mantissas, f.strats[i], f.encoded[i],
                          baps, v))
  {
    BlockIsRead(t, bits, s, o, start, i == 0, KnownBefore(s.h, o, f, i), PlacesOf(start, s.h, i == 0, f.strats[i]),
                f.strats[i], e, f.encoded[i], block, baps, v);
  }

  lemma WantedEnds(s: Stream, o: Offsets, f: E.FrameInput, starts: seq<int>, baps: seq<seq<seq<int>>>,
                   v: seq<seq<int>>, i: nat)
    requires ShapeOk(s.h) && E.LengthsOk(s.h, f) && StrategiesOk(s.h, f.strats)
    requires |starts| == |baps| == |v| == NB_BLOCKS
    requires Adjoining(s.h, f.strats, baps, starts) && 0 < i < NB_BLOCKS
    ensures Wanted(s, o, f, starts, baps, v, i - 1).next == starts[i]
    ensures Wanted(s, o, f, starts, baps, v, i - 1).known == KnownBefore(s.h, o, f, i)
  {
    assert starts[i] == Ends(s.h, f.strats, baps, starts, i - 1);
  }

  // What an encoder leaves, as the decoder needs it.
  lemma InputFollows(h: Shape, f: E.FrameInput, e: seq<seq<seq<int>>>, i: nat)
    requires E.FrameInputOk(h, f, e) && i < NB_BLOCKS
    ensures E.LengthsOk(h, f) && (i == 0 ==> Reuse !in f.strats[i])
    ensures Follow(h, f.strats[i], e[i], f.encoded[i], if i == 0 then [] else E.Cut(h, f.encoded[i - 1]))
  {
    E.HasLengths(h, f, e);
    forall ch | 0 <= ch < h.all
      ensures if f.strats[i][ch] == Reuse
              then i > 0 && f.encoded[i - 1][ch][..Bins(h, ch)] == f.encoded[i][ch][..Bins(h, ch)]
              else Sent(f.encoded[i][ch], e[i][ch], f.strats[i][ch], Bins(h, ch))
    {
      assert E.ChannelOk(h, f, e, i, ch);
    }
  }

  function StreamFor(c: Config): Stream { Stream(ShapeOf(c), c.fscod, c.halfratecod) }

  lemma CurvesAre(c: Config)
    requires Accepted(c)
    ensures CurvesOf(StreamFor(c)) == E.Curves(c)
  {
    H.AcceptedFields(c);
  }

  lemma StreamIs(bits: seq<bool>, c: Config, frameSize: int, crc1: int, after: seq<bool>)
    requires Accepted(c) && H.FrameSizeOk(c, frameSize) && 0 <= crc1 < 65536
    requires bits == Encoded(H.HeaderFields(c, frameSize, crc1)) + after
    ensures H.Outcome(bits) == 0 && StreamOf(bits) == StreamFor(c)
  {
    var k := S.CodedOf(bits);
    H.HeaderRoundTrip(bits, c, frameSize, crc1, after, k);
    StreamFromHeader(k, c, frameSize, crc1);
  }

  lemma StreamFromHeader(k: H.Coded, c: Config, frameSize: int, crc1: int)
    requires Accepted(c) && H.IsHeaderOf(k, c, frameSize, crc1)
    ensures StreamFrom(k) == StreamFor(c)
  {
    H.AcceptedFields(c);
    ChannelsAre(c);
  }

  lemma ChannelsAre(c: Config)
    requires Accepted(c)
    ensures H.ChannelsOf(c.acmod) == c.nbChannels && c.nbAll == c.nbChannels + (if c.lfe then 1 else 0)
    ensures c.lfe ==> c.nbChannels == 5
  {
  }

  // The places are those where the blocks end.
  lemma PlacesAdjoin(h: Shape, strats: seq<seq<Strategy>>, sizes: seq<int>, baps: seq<seq<seq<int>>>)
    requires StrategiesOk(h, strats) && |sizes| == |baps| == NB_BLOCKS
    requires forall i :: 0 <= i < NB_BLOCKS ==> sizes[i] == M.SizeTo(M.Flat(baps[i]), |M.Flat(baps[i])|)
    ensures Adjoining(h, strats, baps, BlockPlaces(h, strats, sizes))
    ensures BlockPlace(h, strats, sizes, 0) == I.HeaderBits(h.acmod)
  {
    var starts := BlockPlaces(h, strats, sizes);
    forall i: nat | i < NB_BLOCKS - 1
      ensures starts[i + 1] == Ends(h, strats, baps, starts, i)
    {
      NextPlace(h, strats, sizes, i);
    }
  }

  lemma NextPlace(h: Shape, strats: seq<seq<Strategy>>, sizes: seq<int>, i: nat)
    requires StrategiesOk(h, strats) && |sizes| == NB_BLOCKS && i < NB_BLOCKS
    ensures BlockPlace(h, strats, sizes, i + 1)
         == BlockPlace(h, strats, sizes, i) + MantissaPlace(h, i == 0, strats[i]) + sizes[i]
  {
    assert sizes[..i + 1][..i] == sizes[..i];
  }

  lemma BlockAllocated(t: T.Tables, c: Config, f: E.FrameInput, p: A.Problem, frameSize: int, exponentBits: int,
                       o: Offsets, baps: seq<seq<seq<int>>>, i: nat)
    requires Accepted(c) && T.Sound(t) && E.LengthsOk(ShapeOf(c), f) && |E.Curves(c)| == ShapeOf(c).all
    requires E.IsProblem(p, c, t, f, frameSize, exponentBits) && A.Fitting(p, o.csnroffst, o.fsnroffst, baps)
    requires i < NB_BLOCKS
    ensures |p.frame| == |baps| == NB_BLOCKS
    ensures A.BlockMasked(t, p.frame[i], E.Cut(ShapeOf(c), f.encoded[i]), CurvesOf(StreamFor(c)))
    ensures baps[i] == A.RowsOf(t, p.frame[i], A.SnrOffset(o.csnroffst, o.fsnroffst), E.FLOOR)
  {
    CurvesAre(c);
    assert E.FrameMasked(c, t, f, p.frame);
    assert A.BlockMasked(t, p.frame[i], E.CutAll(ShapeOf(c), f.encoded)[i], E.Curves(c));
    assert baps[i] == A.Allocation(p, A.SnrOffset(o.csnroffst, o.fsnroffst))[i];
  }

  lemma BlockReadable(t: T.Tables, bits: seq<bool>, c: Config, f: E.FrameInput, e: seq<seq<seq<int>>>, p: A.Problem,
                      frameSize: int, exponentBits: int, o: Offsets, baps: seq<seq<seq<int>>>, b: seq<BlockData>,
                      q: seq<Quantised>, starts: seq<int>, i: nat)
    requires Accepted(c) && T.Sound(t) && BlocksOk(ShapeOf(c), b) && |baps| == |q| == |e| == NB_BLOCKS && i < NB_BLOCKS
    requires E.FrameInputOk(ShapeOf(c), f, e) && E.IsProblem(p, c, t, f, frameSize, exponentBits)
    requires A.Fitting(p, o.csnroffst, o.fsnroffst, baps)
    requires b[i].strat == f.strats[i] && b[i].e == e[i] && q[i].b == M.Flat(baps[i])
    requires |starts| == NB_BLOCKS && starts[i] >= 0 && FrameSays(bits, ShapeOf(c), o, b, q, starts)
    ensures E.LengthsOk(ShapeOf(c), f) && StrategiesOk(ShapeOf(c), f.strats) && |p.frame| == NB_BLOCKS
    ensures ReadableBlock(t, bits, StreamFor(c), o, starts[i], f, i, e[i], p.frame[i], baps[i],
                          q[i].v)
  {
    var h := ShapeOf(c);
    InputFollows(h, f, e, i);
    BlockAllocated(t, c, f, p, frameSize, exponentBits, o, baps, i);
    SaysBlock(bits, h, o, b, q, starts, i);
  }

  lemma SaysBlock(bits: seq<bool>, h: Shape, o: Offsets, b: seq<BlockData>, q: seq<Quantised>, starts: seq<int>, i: nat)
    requires BlocksOk(h, b) && FrameSays(bits, h, o, b, q, starts) && i < NB_BLOCKS
    ensures Says(bits, PlacesOf(starts[i], h, i == 0, b[i].strat), h, i == 0, b[i].strat, b[i].e, o, q[i].b, q[i].v)
  {
    assert b[i].strat == b[i].strat;
  }

  // A frame read back: what the encoder was given for each block, the baps it worked out, and the
  // mantissas it wrote.
  ghost predicate IsFrameFor(frame: Frame, h: Shape, o: Offsets, f: E.FrameInput, baps: seq<seq<seq<int>>>,
                             q: seq<Quantised>)
    requires E.LengthsOk(h, f) && |baps| == |q| == NB_BLOCKS
  {
    && frame.h == h && frame.info == I.Sent(I.HeaderBits(h.acmod)) && |frame.blocks| == NB_BLOCKS
    && forall i {:trigger frame.blocks[i]} :: 0 <= i < NB_BLOCKS ==>
         && frame.blocks[i].flags == FlagsOf(h) && frame.blocks[i].strat == f.strats[i]
         && frame.blocks[i].known == KnownOf(h, o, f.encoded[i])
         && frame.blocks[i].baps == baps[i] && frame.blocks[i].v == q[i].v
  }

  ghost predicate DecodesTo(bytes: seq<int>, h: Shape, t: T.Tables, o: Offsets, f: E.FrameInput,
                            baps: seq<seq<seq<int>>>, q: seq<Quantised>)
    requires T.Sound(t)
  {
    && E.LengthsOk(h, f) && |baps| == |q| == NB_BLOCKS && DecodeFrame(t, C.BitsOf(bytes)).Some?
    && IsFrameFor(DecodeFrame(t, C.BitsOf(bytes)).value, h, o, f, baps, q)
  }

  // Bin k of a channel, as a decoder hears it: from the exponent, bap and mantissa read there, it is
  // off the coefficient, shifted as its block was, by what its bap allows; and without bits it is nothing.
  ghost predicate BinNear(block: Block, c: int, shift: int, ch: nat, k: nat) {
    && ch < |block.baps| == |block.known.exps| && k < |block.baps[ch]| == |block.known.exps[ch]|
    && M.Place(block.baps, ch, k) < |block.v| && shift <= block.known.exps[ch][k]
    && var b, v := block.baps[ch][k], block.v[M.Place(block.baps, ch, k)];
       if b == 0 then v == 0
       else M.Off(c * Pow2(block.known.exps[ch][k] - shift), b, v) <= M.Allowed(b)
  }

  // All bins of a frame.
  ghost predicate Near(frame: Frame, f: E.FrameInput) {
    && frame.h.all >= frame.h.full && E.LengthsOk(frame.h, f) && |frame.blocks| == NB_BLOCKS
    && forall i, ch, k {:trigger BinNear(frame.blocks[i], f.coefs[i][ch][k], f.shifts[i][ch], ch, k)} ::
         0 <= i < NB_BLOCKS && 0 <= ch < frame.h.all && 0 <= k < Bins(frame.h, ch) ==>
           BinNear(frame.blocks[i], f.coefs[i][ch][k], f.shifts[i][ch], ch, k)
  }

  lemma BinIsNear(h: Shape, f: E.FrameInput, i: nat, bap: seq<seq<int>>, v: seq<int>, block: Block, ch: nat, k: nat)
    requires E.LengthsOk(h, f) && i < NB_BLOCKS && ch < h.all && k < Bins(h, ch)
    requires M.InputOk(E.BlockOf(h, f, i, bap).x) && M.AreMantissas(E.BlockOf(h, f, i, bap).x, v)
    requires block.baps == bap && block.v == v && block.known.exps == E.Cut(h, f.encoded[i])
    ensures BinNear(block, f.coefs[i][ch][k], f.shifts[i][ch], ch, k)
  {
    var x := E.BlockOf(h, f, i, bap).x;
    assert M.BinOk(x, ch, k);
    if bap[ch][k] > 0 {
      M.QuantisedIsNearest(x.coefs[ch][k], x.exps[ch][k], bap[ch][k], 0);
    }
  }

  // What a decoder makes of the frame is near the coefficients.
  lemma FrameIsNear(frame: Frame, h: Shape, o: Offsets, f: E.FrameInput, e: seq<seq<seq<int>>>,
                    baps: seq<seq<seq<int>>>, b: seq<BlockData>, q: seq<Quantised>)
    requires h.all >= h.full && E.Carries(h, f, e, baps, b, q) && IsFrameFor(frame, h, o, f, baps, q)
    ensures Near(frame, f)
  {
    forall i, ch, k | 0 <= i < NB_BLOCKS && 0 <= ch < h.all && 0 <= k < Bins(h, ch)
      ensures BinNear(frame.blocks[i], f.coefs[i][ch][k], f.shifts[i][ch], ch, k)
    {
      assert b[i].strat == f.strats[i];
      BinIsNear(h, f, i, baps[i], q[i].v, frame.blocks[i], ch, k);
    }
  }

  // The frame that these bytes are, if they are one, is near the coefficients.
  ghost predicate Heard(bytes: seq<int>, t: T.Tables, f: E.FrameInput)
    requires T.Sound(t)
  {
    DecodeFrame(t, C.BitsOf(bytes)).Some? && Near(DecodeFrame(t, C.BitsOf(bytes)).value, f)
  }

  lemma DecodedIsNear(bytes: seq<int>, c: Config, t: T.Tables, frameSize: int, o: Offsets, f: E.FrameInput,
                      e: seq<seq<seq<int>>>, baps: seq<seq<seq<int>>>, b: seq<BlockData>, q: seq<Quantised>,
                      crc1: int, fill: seq<bool>)
    requires Accepted(c) && T.Sound(t) && ShapeOf(c).all >= ShapeOf(c).full
    requires E.IsFrameOf(bytes, c, frameSize, o, f, e, baps, b, q, crc1, fill)
    requires DecodesTo(bytes, ShapeOf(c), t, o, f, baps, q)
    ensures Heard(bytes, t, f)
  {
    FrameIsNear(DecodeFrame(t, C.BitsOf(bytes)).value, ShapeOf(c), o, f, e, baps, b, q);
  }

  // Decoding the bits of a frame, and nothing else, gives the input of the encoder back.
  lemma DecodeFrameIsInverse(bytes: seq<int>, c: Config, t: T.Tables, f: E.FrameInput, e: seq<seq<seq<int>>>,
                             p: A.Problem, frameSize: int, exponentBits: int, o: Offsets, baps: seq<seq<seq<int>>>,
                             b: seq<BlockData>, q: seq<Quantised>, crc1: int, fill: seq<bool>)
    requires Accepted(c) && T.Sound(t) && E.FrameInputOk(ShapeOf(c), f, e)
    requires E.IsProblem(p, c, t, f, frameSize, exponentBits)
    requires A.Fitting(p, o.csnroffst, o.fsnroffst, baps)
    requires E.IsFrameOf(bytes, c, frameSize, o, f, e, baps, b, q, crc1, fill)
    ensures DecodesTo(bytes, ShapeOf(c), t, o, f, baps, q)
  {
    var h, bits := ShapeOf(c), C.BitsOf(bytes);
    var s, v := StreamFor(c), MantissasOf(q);
    var starts := FrameStarts(bytes, c, f, e, frameSize, o, baps, b, q, crc1, fill);
    FrameStream(bytes, c, frameSize, o, b, q, crc1, fill);
    FrameReadable(bits, c, t, f, e, p, frameSize, exponentBits, o, baps, b, q, starts);
    H.AcceptedFields(c);
    var frame := DecodeIs(t, bits, s, o, starts, f, e, p.frame, baps, v);
    WantedIsFrame(frame, s, o, f, starts, baps, q, v);
  }

  // The stream, its offsets and its blocks make the frame.
  lemma DecodeIs(t: T.Tables, bits: seq<bool>, s: Stream, o: Offsets, starts: seq<int>, f: E.FrameInput,
                 e: seq<seq<seq<int>>>, masked: seq<seq<A.Masked>>, baps: seq<seq<seq<int>>>,
                 v: seq<seq<int>>) returns (frame: Frame)
    requires Readable(t, bits, s, o, starts, f, e, masked, baps, v) && Adjoining(s.h, f.strats, baps, starts)
    requires starts[0] == I.HeaderBits(s.h.acmod) && H.Outcome(bits) == 0 && StreamOf(bits) == s
    requires I.ReadInfo(bits, I.InfoPlace(s.h.acmod)) == I.Sent(I.HeaderBits(s.h.acmod))
    ensures DecodeFrame(t, bits) == Some(frame) && frame.h == s.h && frame.info == I.Sent(I.HeaderBits(s.h.acmod))
    ensures frame.blocks == AllWanted(s, o, f, starts, baps, v)
  {
    BlockWanted(t, bits, s, o, starts, f, e, masked, baps, v, 0);
    WholeFrame(t, bits, s, o, starts, f, e, masked, baps, v);
    frame := Frame(s.h, I.Sent(I.HeaderBits(s.h.acmod)), AllWanted(s, o, f, starts, baps, v));
  }

  function AllWanted(s: Stream, o: Offsets, f: E.FrameInput, starts: seq<int>, baps: seq<seq<seq<int>>>,
                     v: seq<seq<int>>): (blocks: seq<Block>)
    requires ShapeOk(s.h) && E.LengthsOk(s.h, f) && StrategiesOk(s.h, f.strats)
    requires |starts| == |baps| == |v| == NB_BLOCKS
    ensures |blocks| == NB_BLOCKS
    ensures forall i: nat {:trigger blocks[i]} :: i < NB_BLOCKS ==> blocks[i] == Wanted(s, o, f, starts, baps, v, i)
  {
    seq(NB_BLOCKS, i requires 0 <= i < NB_BLOCKS => Wanted(s, o, f, starts, baps, v, i))
  }

  lemma WantedIsFrame(frame: Frame, s: Stream, o: Offsets, f: E.FrameInput, starts: seq<int>, baps: seq<seq<seq<int>>>,
                      q: seq<Quantised>, v: seq<seq<int>>)
    requires ShapeOk(s.h) && E.LengthsOk(s.h, f) && StrategiesOk(s.h, f.strats)
    requires |starts| == |baps| == |v| == |q| == NB_BLOCKS
    requires frame.h == s.h && frame.info == I.Sent(I.HeaderBits(s.h.acmod)) && v == MantissasOf(q)
    requires frame.blocks == AllWanted(s, o, f, starts, baps, v)
    ensures IsFrameFor(frame, s.h, o, f, baps, q)
  {
    forall i | 0 <= i < NB_BLOCKS
      ensures frame.blocks[i] == Wanted(s, o, f, starts, baps, v, i)
    {
    }
  }

  function MantissasOf(q: seq<Quantised>): (v: seq<seq<int>>)
    ensures |v| == |q| && forall i :: 0 <= i < |q| ==> v[i] == q[i].v
  {
    seq(|q|, i requires 0 <= i < |q| => q[i].v)
  }

  // Where the blocks of a finished frame begin.
  lemma FrameStarts(bytes: seq<int>, c: Config, f: E.FrameInput, e: seq<seq<seq<int>>>, frameSize: int, o: Offsets,
                    baps: seq<seq<seq<int>>>, b: seq<BlockData>, q: seq<Quantised>, crc1: int,
                    fill: seq<bool>) returns (starts: seq<int>)
    requires Accepted(c) && E.FrameInputOk(ShapeOf(c), f, e)
    requires E.IsFrameOf(bytes, c, frameSize, o, f, e, baps, b, q, crc1, fill)
    ensures |starts| == |baps| == |q| == |b| == |e| == NB_BLOCKS && StrategiesOk(ShapeOf(c), f.strats)
    ensures Adjoining(ShapeOf(c), f.strats, baps, starts) && starts[0] == I.HeaderBits(ShapeOf(c).acmod)
    ensures forall i :: 0 <= i < NB_BLOCKS ==> starts[i] >= 0
    ensures FrameSays(C.BitsOf(bytes), ShapeOf(c), o, b, q, starts)
  {
    var h := ShapeOf(c);
    var strats := f.strats;
    CarriedSizes(h, f, e, baps, b, q);
    starts := BlockPlaces(h, strats, Sizes(q));
    PlacesAdjoin(h, strats, Sizes(q), baps);
    forall i | 0 <= i < NB_BLOCKS
      ensures starts[i] >= 0
    {
      PlacesOfBlocks(h, o, b, Sizes(q), i);
    }
  }

  lemma CarriedSizes(h: Shape, f: E.FrameInput, e: seq<seq<seq<int>>>, baps: seq<seq<seq<int>>>, b: seq<BlockData>,
                     q: seq<Quantised>)
    requires BlocksOk(h, b) && StrategiesOk(h, f.strats) && E.Carries(h, f, e, baps, b, q)
    ensures Strategies(h, b) == f.strats && |q| == |baps| == NB_BLOCKS
    ensures forall i :: 0 <= i < NB_BLOCKS ==> Sizes(q)[i] == M.SizeTo(M.Flat(baps[i]), |M.Flat(baps[i])|)
  {
    forall i | 0 <= i < NB_BLOCKS
      ensures b[i].strat == f.strats[i] && q[i].b == M.Flat(baps[i])
    {
    }
  }

  lemma FrameStream(bytes: seq<int>, c: Config, frameSize: int, o: Offsets, b: seq<BlockData>, q: seq<Quantised>,
                    crc1: int, fill: seq<bool>)
    requires Accepted(c) && BlocksOk(ShapeOf(c), b) && H.FrameSizeOk(c, frameSize) && |bytes| == 2 * frameSize >= 128
    requires Finished(bytes, c, frameSize, o, b, q, crc1, fill)
    ensures H.Outcome(C.BitsOf(bytes)) == 0 && StreamOf(C.BitsOf(bytes)) == StreamFor(c)
    ensures I.ReadInfo(C.BitsOf(bytes), I.InfoPlace(c.acmod)) == I.Sent(I.HeaderBits(c.acmod))
  {
    Associate(Encoded(H.HeaderFields(c, frameSize, crc1)), BlocksTo(ShapeOf(c), o, b, NB_BLOCKS), fill);
    StreamIs(C.BitsOf(bytes), c, frameSize, crc1, BlocksTo(ShapeOf(c), o, b, NB_BLOCKS) + fill);
    I.InfoIsRead(C.BitsOf(bytes), c, frameSize, crc1, BlocksTo(ShapeOf(c), o, b, NB_BLOCKS) + fill);
  }

  lemma FrameReadable(bits: seq<bool>, c: Config, t: T.Tables, f: E.FrameInput, e: seq<seq<seq<int>>>, p: A.Problem,
                      frameSize: int, exponentBits: int, o: Offsets, baps: seq<seq<seq<int>>>, b: seq<BlockData>,
                      q: seq<Quantised>, starts: seq<int>)
    requires Accepted(c) && T.Sound(t) && BlocksOk(ShapeOf(c), b)
    requires E.FrameInputOk(ShapeOf(c), f, e) && E.IsProblem(p, c, t, f, frameSize, exponentBits)
    requires A.Fitting(p, o.csnroffst, o.fsnroffst, baps)
    requires E.Carries(ShapeOf(c), f, e, baps, b, q)
    requires |starts| == NB_BLOCKS && (forall i :: 0 <= i < NB_BLOCKS ==> starts[i] >= 0)
    requires FrameSays(bits, ShapeOf(c), o, b, q, starts)
    ensures |q| == NB_BLOCKS
    ensures Readable(t, bits, StreamFor(c), o, starts, f, e, p.frame, baps, MantissasOf(q))
  {
    ShapeOfStream(c);
    BlockReadable(t, bits, c, f, e, p, frameSize, exponentBits, o, baps, b, q, starts, 0);
    forall i: nat | i < NB_BLOCKS
      ensures ReadableBlock(t, bits, StreamFor(c), o, starts[i], f, i, e[i], p.frame[i], baps[i], q[i].v)
    {
      BlockReadable(t, bits, c, f, e, p, frameSize, exponentBits, o, baps, b, q, starts, i);
    }
    ReadableFrom(t, bits, StreamFor(c), o, starts, f, e, p.frame, baps, q);
  }

  lemma ShapeOfStream(c: Config)
    requires Accepted(c)
    ensures StreamFor(c).h == ShapeOf(c) && ShapeOk(ShapeOf(c)) && SixthIsLfe(ShapeOf(c))
  {
    H.AcceptedFields(c);
    ChannelsAre(c);
  }

  lemma ReadableFrom(t: T.Tables, bits: seq<bool>, s: Stream, o: Offsets, starts: seq<int>, f: E.FrameInput,
                     e: seq<seq<seq<int>>>, frame: seq<seq<A.Masked>>, baps: seq<seq<seq<int>>>, q: seq<Quantised>)
    requires T.Sound(t) && ShapeOk(s.h) && SixthIsLfe(s.h) && E.LengthsOk(s.h, f) && StrategiesOk(s.h, f.strats)
    requires |starts| == |e| == |frame| == |baps| == |q| == NB_BLOCKS
    requires forall i: nat :: i < NB_BLOCKS ==>
      ReadableBlock(t, bits, s, o, starts[i], f, i, e[i], frame[i], baps[i], q[i].v)
    ensures Readable(t, bits, s, o, starts, f, e, frame, baps, MantissasOf(q))
  {
  }

  // All six blocks are read as they should be.
  lemma WholeFrame(t: T.Tables, bits: seq<bool>, s: Stream, o: Offsets, starts: seq<int>, f: E.FrameInput,
                   e: seq<seq<seq<int>>>, frame: seq<seq<A.Masked>>, baps: seq<seq<seq<int>>>, v: seq<seq<int>>)
    requires Readable(t, bits, s, o, starts, f, e, frame, baps, v) && Adjoining(s.h, f.strats, baps, starts)
    requires starts[0] >= 0
    ensures ReadBlocks(Reader(t, bits, s), starts[0], NB_BLOCKS) == Some(AllWanted(s, o, f, starts, baps, v))
  {
    var blocks := AllWanted(s, o, f, starts, baps, v);
    forall i: nat | i < NB_BLOCKS
      ensures StepAt(Reader(t, bits, s), starts[0], blocks, i)
    {
      WantedStep(t, bits, s, o, starts, f, e, frame, baps, v, blocks, starts[0], i);
    }
    StepsAreRead(Reader(t, bits, s), starts[0], blocks, NB_BLOCKS);
    assert blocks[..NB_BLOCKS] == blocks;
  }
}
