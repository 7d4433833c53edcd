// A whole AC-3 frame: its size is predicted before anything is written, the six blocks fill just
// that, and what is written can be read back.
module Ac3Frame {
  import opened Sums
  import opened Bits
  import opened Ac3Config
  import opened Ac3Exponents
  import opened Ac3Header
  import opened Ac3Block
  import C = Ac3Crc
  import M = Ac3Mantissa

  // ---- prediction ----

  ghost predicate StrategiesOk(h: Shape, strats: seq<seq<Strategy>>) {
    ShapeOk(h) && |strats| == NB_BLOCKS && forall i :: 0 <= i < NB_BLOCKS ==> |strats[i]| == h.all
  }

  // Bits of the first n blocks other than exponents and mantissas.
  function SideTotal(h: Shape, strats: seq<seq<Strategy>>, n: nat): int
    requires StrategiesOk(h, strats) && n <= NB_BLOCKS
  {
    if n == 0 then 0 else SideTotal(h, strats, n - 1) + SideBits(h, n == 1, strats[n - 1])
  }

  // The parameters that only the first block carries.
  function FirstExtras(h: Shape): int { 1 + 8 + 3 + 6 + 7 * h.all }

  // Counts 8 bits for each full channel with new exponents.
  method CountFresh(h: Shape, strat: seq<Strategy>) returns (bits: int)
    requires |strat| == h.all && ShapeOk(h)
    ensures bits == 8 * Fresh(strat, h.full)
  {
    bits := 0;
    for ch := 0 to h.full
      invariant bits == 8 * Fresh(strat, ch)
    {
      if strat[ch] != Reuse {
        bits := bits + (6 + 2);
      }
    }
  }

  // The count of compute_bit_allocation, from the size of the exponents on.
  method PredictFrameBits(h: Shape, strats: seq<seq<Strategy>>, exponentBits: int) returns (frameBits: int)
    requires StrategiesOk(h, strats)
    ensures frameBits == exponentBits + 65 + FrameBitsInc(h.acmod) + SideTotal(h, strats, NB_BLOCKS) + 18
  {
    frameBits := exponentBits + 65;
    frameBits := frameBits + FrameBitsInc(h.acmod);
    ghost var start := frameBits;
    for i := 0 to NB_BLOCKS
      invariant frameBits == start + SideTotal(h, strats, i) - if i > 0 then FirstExtras(h) else 0
    {
      frameBits := frameBits + h.full * 2 + 2;
      if h.acmod == 2 {
        frameBits := frameBits + 1;
        if i == 0 {
          frameBits := frameBits + 4;
        }
      }
      frameBits := frameBits + 2 * h.full;
      if h.lfe {
        frameBits := frameBits + 1;
      }
      var more := CountFresh(h, strats[i]);
      frameBits := frameBits + more;
      frameBits := frameBits + 1 + 1 + 2;
    }
    frameBits := frameBits + 1;
    frameBits := frameBits + 2 * 4 + 3 + 6 + h.all * (4 + 3);
    frameBits := frameBits + 2;
    frameBits := frameBits + 16;
  }

  // ---- what is written ----

  // A block's strategies, group exponents and mantissa bits.
  datatype BlockData = BlockData(strat: seq<Strategy>, e: seq<seq<int>>, mantissas: seq<bool>)

  ghost predicate BlocksOk(h: Shape, blocks: seq<BlockData>) {
    ShapeOk(h) && |blocks| == NB_BLOCKS && forall i :: 0 <= i < NB_BLOCKS ==>
      ExponentsOk(h, blocks[i].strat, blocks[i].e)
  }

  function OneBlock(h: Shape, o: Offsets, d: BlockData, first: bool): seq<bool>
    requires ExponentsOk(h, d.strat, d.e) && h.all >= h.full
  {
    BlockBits(h, first, d.strat, d.e, o, d.mantissas)
  }

  // The bits of each block.
  function Parts(h: Shape, o: Offsets, blocks: seq<BlockData>): (parts: seq<seq<bool>>)
    requires BlocksOk(h, blocks)
    ensures |parts| == NB_BLOCKS && forall i :: 0 <= i < NB_BLOCKS ==> parts[i] == OneBlock(h, o, blocks[i], i == 0)
  {
    seq(NB_BLOCKS, i requires 0 <= i < NB_BLOCKS => OneBlock(h, o, blocks[i], i == 0))
  }

  function Joined(parts: seq<seq<bool>>, n: nat): seq<bool>
    requires n <= |parts|
  {
    if n == 0 then [] else Joined(parts, n - 1) + parts[n - 1]
  }

  function BlocksTo(h: Shape, o: Offsets, blocks: seq<BlockData>, n: nat): seq<bool>
    requires BlocksOk(h, blocks) && n <= NB_BLOCKS
  {
    Joined(Parts(h, o, blocks), n)
  }

  function Strategies(h: Shape, blocks: seq<BlockData>): (s: seq<seq<Strategy>>)
    requires BlocksOk(h, blocks)
    ensures StrategiesOk(h, s) && forall i :: 0 <= i < NB_BLOCKS ==> s[i] == blocks[i].strat
  {
    seq(NB_BLOCKS, i requires 0 <= i < NB_BLOCKS => blocks[i].strat)
  }

  function MantissaTotal(blocks: seq<BlockData>, n: nat): int
    requires n <= |blocks|
  {
    if n == 0 then 0 else MantissaTotal(blocks, n - 1) + |blocks[n - 1].mantissas|
  }

  // What encode_exp returned for all channels of the first n blocks.
  function ExponentTotal(h: Shape, strats: seq<seq<Strategy>>, n: nat, channels: nat): int
    requires StrategiesOk(h, strats) && n <= NB_BLOCKS && channels <= h.all
  {
    if n == 0 then 0 else ExponentTotal(h, strats, n - 1, channels) + ExponentSize(h, strats[n - 1], channels)
  }

  lemma {:induction false} BlocksSize(h: Shape, o: Offsets, blocks: seq<BlockData>, n: nat)
    requires BlocksOk(h, blocks) && n <= NB_BLOCKS
    ensures |BlocksTo(h, o, blocks, n)|
         == SideTotal(h, Strategies(h, blocks), n)
             + ExponentTotal(h, Strategies(h, blocks), n, h.all) + MantissaTotal(blocks, n)
  {
    if n > 0 {
      BlocksSize(h, o, blocks, n - 1);
      TotalsStep(h, blocks, Strategies(h, blocks), n);
      NextBlockSize(h, o, blocks, n);
    } else {
      NoBlocksSize(h, o, blocks);
    }
  }

  lemma NoBlocksSize(h: Shape, o: Offsets, blocks: seq<BlockData>)
    requires BlocksOk(h, blocks)
    ensures |BlocksTo(h, o, blocks, 0)| == SideTotal(h, Strategies(h, blocks), 0) == MantissaTotal(blocks, 0) == 0
    ensures ExponentTotal(h, Strategies(h, blocks), 0, h.all) == 0
  {
  }

  lemma NextBlockSize(h: Shape, o: Offsets, blocks: seq<BlockData>, n: nat)
    requires BlocksOk(h, blocks) && 0 < n <= NB_BLOCKS
    ensures |BlocksTo(h, o, blocks, n)|
         == |BlocksTo(h, o, blocks, n - 1)|
             + SideBits(h, n == 1, blocks[n - 1].strat) + ExponentSize(h, blocks[n - 1].strat, h.all)
             + |blocks[n - 1].mantissas|
  {
    OneBlockSize(h, o, blocks[n - 1], n == 1);
    JoinedStep(Parts(h, o, blocks), n);
  }

  lemma TotalsStep(h: Shape, blocks: seq<BlockData>, s: seq<seq<Strategy>>, n: nat)
    requires BlocksOk(h, blocks) && 0 < n <= NB_BLOCKS && s == Strategies(h, blocks)
    ensures SideTotal(h, s, n) == SideTotal(h, s, n - 1) + SideBits(h, n == 1, blocks[n - 1].strat)
    ensures ExponentTotal(h, s, n, h.all)
         == ExponentTotal(h, s, n - 1, h.all) + ExponentSize(h, blocks[n - 1].strat, h.all)
    ensures MantissaTotal(blocks, n) == MantissaTotal(blocks, n - 1) + |blocks[n - 1].mantissas|
  {
  }

  lemma JoinedStep(parts: seq<seq<bool>>, n: nat)
    requires 0 < n <= |parts|
    ensures |Joined(parts, n)| == |Joined(parts, n - 1)| + |parts[n - 1]|
  {
  }

  lemma OneBlockSize(h: Shape, o: Offsets, d: BlockData, first: bool)
    requires ShapeOk(h) && ExponentsOk(h, d.strat, d.e)
    ensures |OneBlock(h, o, d, first)| == SideBits(h, first, d.strat) + ExponentSize(h, d.strat, h.all) + |d.mantissas|
  {
    BlockSize(h, first, d.strat, d.e, o, d.mantissas);
  }

  // A channel's strategies through the blocks.
  function Column(h: Shape, strats: seq<seq<Strategy>>, ch: nat): (s: seq<Strategy>)
    requires StrategiesOk(h, strats) && ch < h.all
    ensures |s| == NB_BLOCKS && forall i :: 0 <= i < NB_BLOCKS ==> s[i] == strats[i][ch]
  {
    seq(NB_BLOCKS, i requires 0 <= i < NB_BLOCKS => strats[i][ch])
  }

  // The same, channel by channel as AC3_encode_frame adds it up.
  function ChannelTotal(h: Shape, strats: seq<seq<Strategy>>, channels: nat): int
    requires StrategiesOk(h, strats) && channels <= h.all
  {
    if channels == 0 then 0
    else ChannelTotal(h, strats, channels - 1) +
         ChannelBits(Column(h, strats, channels - 1), Bins(h, channels - 1), NB_BLOCKS)
  }

  lemma {:induction false} AddColumn(h: Shape, strats: seq<seq<Strategy>>, n: nat, ch: nat)
    requires StrategiesOk(h, strats) && n <= NB_BLOCKS && ch < h.all
    ensures ExponentTotal(h, strats, n, ch + 1)
         == ExponentTotal(h, strats, n, ch) + ChannelBits(Column(h, strats, ch), Bins(h, ch), n)
  {
    if n > 0 {
      AddColumn(h, strats, n - 1, ch);
    }
  }

  lemma {:induction false} RowsAndColumns(h: Shape, strats: seq<seq<Strategy>>, channels: nat)
    requires StrategiesOk(h, strats) && channels <= h.all
    ensures ChannelTotal(h, strats, channels) == ExponentTotal(h, strats, NB_BLOCKS, channels)
  {
    if channels > 0 {
      RowsAndColumns(h, strats, channels - 1);
      AddColumn(h, strats, NB_BLOCKS, channels - 1);
    } else {
      NoChannels(h, strats, NB_BLOCKS);
    }
  }

  lemma {:induction false} NoChannels(h: Shape, strats: seq<seq<Strategy>>, n: nat)
    requires StrategiesOk(h, strats) && n <= NB_BLOCKS
    ensures ExponentTotal(h, strats, n, 0) == 0
  {
    if n > 0 {
      NoChannels(h, strats, n - 1);
    }
  }

  // Header and blocks have as many bits as predicted, less 18 for the end of the frame: if the
  // prediction fits the frame they end at least two bytes before it.
  lemma SizeIsPredicted(c: Config, frameSize: int, o: Offsets, blocks: seq<BlockData>, frameBits: int)
    requires Accepted(c) && BlocksOk(ShapeOf(c), blocks)
    requires var h, s := ShapeOf(c), Strategies(ShapeOf(c), blocks);
      frameBits == ChannelTotal(h, s, h.all) + 65 + FrameBitsInc(h.acmod) + SideTotal(h, s, NB_BLOCKS) + 18
    ensures var n := |Encoded(HeaderFields(c, frameSize, 0))| + |BlocksTo(ShapeOf(c), o, blocks, NB_BLOCKS)|;
      && n == frameBits + MantissaTotal(blocks, NB_BLOCKS) - 18
      && (16 * frameSize - (frameBits + MantissaTotal(blocks, NB_BLOCKS)) >= 0 ==> (n + 7) / 8 <= 2 * frameSize - 2)
  {
    AcceptedFields(c);
    HeaderWidth(c, frameSize, 0);
    BlocksSize(ShapeOf(c), o, blocks, NB_BLOCKS);
    RowsAndColumns(ShapeOf(c), Strategies(ShapeOf(c), blocks), c.nbAll);
  }

  // ---- bytes ----

  // n bytes from 8n bits.
  function Bytes(bits: seq<bool>, n: nat): (bytes: seq<int>)
    requires |bits| == 8 * n
    ensures |bytes| == n
  {
    if n == 0 then [] else Bytes(bits[..8 * (n - 1)], n - 1) + [ValueOf(bits[8 * (n - 1)..])]
  }

  lemma {:induction false} BytesRoundTrip(bits: seq<bool>, n: nat)
    requires |bits| == 8 * n
    ensures C.BitsOf(Bytes(bits, n)) == bits
  {
    if n > 0 {
      var head, last := bits[..8 * (n - 1)], bits[8 * (n - 1)..];
      BytesRoundTrip(head, n - 1);
      LowBitsOfValue(last);
      C.BitsConcat(Bytes(head, n - 1), [ValueOf(last)]);
      C.OneByte(ValueOf(last));
      Halves(bits, 8 * (n - 1));
    }
  }

  // Zero bits up to n bytes.
  function Padded(bits: seq<bool>, n: nat): (p: seq<bool>)
    requires |bits| <= 8 * n
    ensures |p| == 8 * n
  {
    bits + seq(8 * n - |bits|, _ => false)
  }

  lemma BytesStep(bits: seq<bool>, n: nat, i: nat)
    requires |bits| == 8 * n && i < n
    ensures Bytes(bits[..8 * (i + 1)], i + 1) == Bytes(bits[..8 * i], i) + [ValueOf(bits[8 * i..8 * i + 8])]
  {
    var b := bits[..8 * (i + 1)];
    assert b[..8 * i] == bits[..8 * i] && b[8 * i..] == bits[8 * i..8 * i + 8];
  }

  // flush_put_bits: what was written, as whole bytes at the start of the buffer.
  method FlushPutBits(pb: BitWriter, frame: array<int>) returns (pos: nat)
    requires |pb.bits| <= 8 * frame.Length
    modifies frame
    ensures pos == (|pb.bits| + 7) / 8 && pos <= frame.Length && C.BitsOf(frame[..pos]) == Padded(pb.bits, pos)
    ensures forall i :: pos <= i < frame.Length ==> frame[i] == old(frame[i])
  {
    pos := (|pb.bits| + 7) / 8;
    var bits := Padded(pb.bits, pos);
    for i := 0 to pos
      invariant frame[..i] == Bytes(bits[..8 * i], i)
      invariant forall k :: i <= k < frame.Length ==> frame[k] == old(frame[k])
    {
      BytesStep(bits, pos, i);
      frame[i] := ValueOf(bits[8 * i..8 * i + 8]);
      assert frame[..i + 1] == frame[..i] + [frame[i]];
    }
    assert bits[..8 * pos] == bits;
    BytesRoundTrip(bits, pos);
  }

  // ---- sealing ----

  function HeaderRest(c: Config, frameSize: int): seq<Field> {
    FirstFields(c, frameSize, 0)[2..] + MixLevels(c.acmod) + LastFields(c.lfe)
  }

  // The checksum is the second of the header's fields.
  lemma HeaderAround(c: Config, frameSize: int, crc1: int)
    ensures Encoded(HeaderFields(c, frameSize, crc1))
         == Put(16, SYNC_WORD) + Put(16, crc1) + Encoded(HeaderRest(c, frameSize))
  {
    var pair := [Field(16, SYNC_WORD), Field(16, crc1)];
    HeaderParts(c, frameSize, crc1);
    EncodedConcat(pair, HeaderRest(c, frameSize));
    EncodedConcat([Field(16, SYNC_WORD)], [Field(16, crc1)]);
    assert [Field(16, SYNC_WORD)] + [Field(16, crc1)] == pair;
    EncodedOne(Field(16, SYNC_WORD));
    EncodedOne(Field(16, crc1));
  }

  lemma HeaderParts(c: Config, frameSize: int, crc1: int)
    ensures HeaderFields(c, frameSize, crc1) == [Field(16, SYNC_WORD), Field(16, crc1)] + HeaderRest(c, frameSize)
  {
    var f := FirstFields(c, frameSize, crc1);
    assert f == [Field(16, SYNC_WORD), Field(16, crc1)] + FirstFields(c, frameSize, 0)[2..];
    FourParts([Field(16, SYNC_WORD), Field(16, crc1)], FirstFields(c, frameSize, 0)[2..], MixLevels(c.acmod),
              LastFields(c.lfe));
  }

  lemma FourParts<T>(a: seq<T>, b: seq<T>, c: seq<T>, d: seq<T>)
    ensures (a + b) + c + d == a + (b + c + d)
  {
  }

  // The bits of a frame once it is sealed: those written, but for the checksum, and what fills it.
  lemma SealedBits(before: seq<int>, after: seq<int>, frameSize: nat, pos: nat, c: Config, rest: seq<bool>)
      returns (crc1: int, fill: seq<bool>)
    requires 4 <= pos <= 2 * frameSize - 2 && 2 * frameSize <= |before| == |after|
    requires C.Sealed(before, after, frameSize, pos)
    requires C.BitsOf(before[..pos]) == Encoded(HeaderFields(c, frameSize, 0)) + rest
    ensures 0 <= crc1 < 65536
    ensures C.BitsOf(after[..2 * frameSize]) == Encoded(HeaderFields(c, frameSize, crc1)) + rest + fill
  {
    HeaderAround(c, frameSize, 0);
    SplitBytes(before, pos);
    SplitBytes(after, pos);
    Halves(after[..2 * frameSize], pos);
    assert after[..2 * frameSize][..pos] == after[..pos];
    fill := C.BitsOf(after[..2 * frameSize][pos..]);
    C.BitsConcat(after[..pos], after[..2 * frameSize][pos..]);
    var word := C.BitsOf(after[2..4]);
    crc1 := ValueOf(word);
    LowBitsOfValue(word);
    ValueOfRange(word);
    Powers();
    HeaderAround(c, frameSize, crc1);
    SwapWord(C.BitsOf(before[..2]), C.BitsOf(before[2..4]), C.BitsOf(before[4..pos]), Put(16, SYNC_WORD), Put(16, 0),
             Encoded(HeaderRest(c, frameSize)), rest, word);
  }

  lemma SplitBytes(bytes: seq<int>, pos: nat)
    requires 4 <= pos <= |bytes|
    ensures C.BitsOf(bytes[..pos]) == C.BitsOf(bytes[..2]) + C.BitsOf(bytes[2..4]) + C.BitsOf(bytes[4..pos])
  {
    assert bytes[..pos] == bytes[..2] + bytes[2..4] + bytes[4..pos];
    C.BitsConcat(bytes[..2] + bytes[2..4], bytes[4..pos]);
    C.BitsConcat(bytes[..2], bytes[2..4]);
  }

  lemma SwapWord<T>(a: seq<T>, b: seq<T>, d: seq<T>, x: seq<T>, y: seq<T>, z: seq<T>, rest: seq<T>, w: seq<T>)
    requires |a| == |x| && |b| == |y| && a + b + d == (x + y + z) + rest
    ensures a == x && d == z + rest && a + w + d == (x + w + z) + rest
  {
    assert (a + b + d)[..|a|] == a && ((x + y + z) + rest)[..|a|] == x;
    assert (a + b + d)[|a + b|..] == d && ((x + y + z) + rest)[|a + b|..] == z + rest;
  }

  // ---- reading a frame back ----

  lemma {:induction false} JoinedAround(parts: seq<seq<bool>>, i: nat, n: nat) returns (rest: seq<bool>)
    requires i < n <= |parts|
    ensures Joined(parts, n) == Joined(parts, i) + parts[i] + rest
  {
    rest := [];
    if n == i + 1 {
      assert Joined(parts, n) == Joined(parts, n) + rest;
    } else {
      var more := JoinedAround(parts, i, n - 1);
      rest := more + parts[n - 1];
      Associate(Joined(parts, i) + parts[i], more, parts[n - 1]);
    }
  }

  // Where block i begins: a decoder knows it from the blocks before.
  function BlockPlace(h: Shape, strats: seq<seq<Strategy>>, sizes: seq<int>, i: nat): int
    requires StrategiesOk(h, strats) && i <= NB_BLOCKS == |sizes|
  {
    65 + FrameBitsInc(h.acmod) + SideTotal(h, strats, i) + ExponentTotal(h, strats, i, h.all) + Sum(sizes[..i])
  }

  // Mantissas of block i by bin, and the bits each was given.
  datatype Quantised = Quantised(b: seq<int>, v: seq<int>)

  ghost predicate Faithful(blocks: seq<BlockData>, q: seq<Quantised>) {
    |blocks| == |q| && forall i :: 0 <= i < |blocks| ==> Decodes(blocks[i].mantissas, q[i].b, q[i].v)
  }

  ghost predicate AllCodable(h: Shape, blocks: seq<BlockData>)
    requires BlocksOk(h, blocks)
  {
    forall i :: 0 <= i < NB_BLOCKS ==> Codable(h, blocks[i].strat, blocks[i].e)
  }

  // The bits say each block as it was put in.
  ghost predicate FrameSays(bits: seq<bool>, h: Shape, o: Offsets, blocks: seq<BlockData>, q: seq<Quantised>,
                            places: seq<int>)
    requires BlocksOk(h, blocks)
  {
    && |q| == |places| == NB_BLOCKS
    && forall i {:trigger blocks[i]} :: 0 <= i < NB_BLOCKS ==>
         Says(bits, PlacesOf(places[i], h, i == 0, blocks[i].strat), h, i == 0, blocks[i].strat, blocks[i].e, o,
              q[i].b, q[i].v)
  }

  // Header and blocks, wherever the frame's checksum and filling come from, read back as written.
  lemma FrameRoundTrip(bits: seq<bool>, header: seq<bool>, h: Shape, o: Offsets, blocks: seq<BlockData>,
                       q: seq<Quantised>, after: seq<bool>, places: seq<int>)
    requires BlocksOk(h, blocks) && AllCodable(h, blocks) && OffsetsFit(o) && Faithful(blocks, q)
    requires bits == header + BlocksTo(h, o, blocks, NB_BLOCKS) + after
    requires |places| == NB_BLOCKS
    requires forall i :: 0 <= i < NB_BLOCKS ==> places[i] == |header| + |BlocksTo(h, o, blocks, i)|
    ensures FrameSays(bits, h, o, blocks, q, places)
  {
    forall i | 0 <= i < NB_BLOCKS
      ensures Says(bits, PlacesOf(places[i], h, i == 0, blocks[i].strat), h, i == 0, blocks[i].strat, blocks[i].e, o,
                   q[i].b, q[i].v)
    {
      BlockInFrame(bits, header, h, o, blocks, q, after, i, places[i]);
    }
  }

  lemma BlockInFrame(bits: seq<bool>, header: seq<bool>, h: Shape, o: Offsets, blocks: seq<BlockData>,
                     q: seq<Quantised>, after: seq<bool>, i: nat, place: int)
    requires BlocksOk(h, blocks) && AllCodable(h, blocks) && OffsetsFit(o) && Faithful(blocks, q) && i < NB_BLOCKS
    requires bits == header + BlocksTo(h, o, blocks, NB_BLOCKS) + after
    requires place == |header| + |BlocksTo(h, o, blocks, i)|
    ensures Says(bits, PlacesOf(place, h, i == 0, blocks[i].strat), h, i == 0, blocks[i].strat, blocks[i].e, o, q[i].b,
                 q[i].v)
  {
    var parts := Parts(h, o, blocks);
    var rest := JoinedAround(parts, i, NB_BLOCKS);
    InTheMiddle(bits, header, Joined(parts, i), parts[i], rest, after);
    OneInFrame(bits, header + Joined(parts, i), h, i == 0, o, blocks[i], q[i], rest + after, place);
  }

  lemma OneInFrame(bits: seq<bool>, before: seq<bool>, h: Shape, first: bool, o: Offsets, d: BlockData, q: Quantised,
                   after: seq<bool>, place: int)
    requires ExponentsOk(h, d.strat, d.e) && ShapeOk(h) && Codable(h, d.strat, d.e) && OffsetsFit(o)
    requires Decodes(d.mantissas, q.b, q.v)
    requires bits == before + OneBlock(h, o, d, first) + after && place == |before|
    ensures Says(bits, PlacesOf(place, h, first, d.strat), h, first, d.strat, d.e, o, q.b, q.v)
  {
    BlockRoundTrip(bits, before, h, first, d.strat, d.e, o, d.mantissas, q.b, q.v, after,
                   PlacesOf(place, h, first, d.strat));
  }

  lemma InTheMiddle<T>(all: seq<T>, a: seq<T>, b: seq<T>, c: seq<T>, d: seq<T>, e: seq<T>)
    requires all == a + (b + c + d) + e
    ensures all == (a + b) + c + (d + e)
  {
  }

  // The places a decoder computes are those where the blocks are.
  lemma {:induction false} PlacesOfBlocks(h: Shape, o: Offsets, blocks: seq<BlockData>, sizes: seq<int>, i: nat)
    requires BlocksOk(h, blocks) && |sizes| == NB_BLOCKS && i <= NB_BLOCKS
    requires forall k :: 0 <= k < NB_BLOCKS ==> sizes[k] == |blocks[k].mantissas|
    ensures BlockPlace(h, Strategies(h, blocks), sizes, i) == 65 + FrameBitsInc(h.acmod) + |BlocksTo(h, o, blocks, i)|
  {
    BlocksSize(h, o, blocks, i);
    SizesSum(blocks, sizes, i);
  }

  lemma {:induction false} SizesSum(blocks: seq<BlockData>, sizes: seq<int>, i: nat)
    requires i <= |blocks| == |sizes| && forall k :: 0 <= k < |blocks| ==> sizes[k] == |blocks[k].mantissas|
    ensures Sum(sizes[..i]) == MantissaTotal(blocks, i)
  {
    if i > 0 {
      SizesSum(blocks, sizes, i - 1);
      assert sizes[..i][..i - 1] == sizes[..i - 1];
    }
  }

  // ---- writing a frame ----

  // What a block is written from: strategies, encoded exponents, and coefficients with their baps.
  datatype BlockInput = BlockInput(strat: seq<Strategy>, encodedExp: seq<seq<int>>, x: M.Input)

  ghost predicate InputOk(h: Shape, d: BlockInput, e: seq<seq<int>>, v: seq<int>) {
    && ShapeOk(h) && ExponentsOk(h, d.strat, e) && Codable(h, d.strat, e) && |d.encodedExp| == h.all
    && (forall ch :: 0 <= ch < h.all && d.strat[ch] != Reuse ==> Spread(d.encodedExp[ch], e[ch], d.strat[ch]))
    && M.InputOk(d.x) && M.AreMantissas(d.x, v) && |d.x.bap| <= 6 && forall ch :: 0 <= ch < |d.x.bap| ==>
      |d.x.bap[ch]| <= 256
  }

  ghost predicate InputsOk(h: Shape, d: seq<BlockInput>, e: seq<seq<seq<int>>>, v: seq<seq<int>>) {
    |d| == |e| == |v| == NB_BLOCKS && forall i :: 0 <= i < NB_BLOCKS ==> InputOk(h, d[i], e[i], v[i])
  }

  // What the baps of the first n blocks come to.
  function BapTotal(d: seq<BlockInput>, n: nat): int
    requires n <= |d|
  {
    if n == 0 then 0 else BapTotal(d, n - 1) + BapBits(d[n - 1])
  }

  function BapBits(d: BlockInput): int { M.SizeTo(M.Flat(d.x.bap), |M.Flat(d.x.bap)|) }

  // The strategies and exponents of block data are those of the input.
  ghost predicate Matches(d: BlockInput, e: seq<seq<int>>, b: BlockData, q: Quantised, v: seq<int>) {
    && b.strat == d.strat && b.e == e && q == Quantised(M.Flat(d.x.bap), v)
    && Decodes(b.mantissas, q.b, q.v) && |b.mantissas| == BapBits(d)
  }

  ghost predicate MatchesAll(d: seq<BlockInput>, e: seq<seq<seq<int>>>, v: seq<seq<int>>, b: seq<BlockData>,
                             q: seq<Quantised>, n: nat)
    requires n <= |d| && n <= |e| && n <= |v|
  {
    |b| == |q| == n && forall i :: 0 <= i < n ==> Matches(d[i], e[i], b[i], q[i], v[i])
  }

  function Join(parts: seq<seq<bool>>): seq<bool> { Joined(parts, |parts|) }

  lemma {:induction false} JoinedPrefix(parts: seq<seq<bool>>, more: seq<seq<bool>>, n: nat)
    requires n <= |parts|
    ensures Joined(parts + more, n) == Joined(parts, n)
  {
    if n > 0 {
      JoinedPrefix(parts, more, n - 1);
    }
  }

  // Writes one block after those before it.
  method OutputBlock(pb: BitWriter, h: Shape, first: bool, d: BlockInput, o: Offsets, ghost e: seq<seq<int>>,
                     ghost v: seq<int>)
      returns (ghost b: BlockData, ghost q: Quantised)
    requires InputOk(h, d, e, v)
    modifies pb
    ensures ExponentsOk(h, b.strat, b.e) && Matches(d, e, b, q, v)
    ensures pb.bits == old(pb.bits) + OneBlock(h, o, b, first)
  {
    ghost var m := OutputAudioBlock(pb, h, first, d.strat, d.encodedExp, o, d.x, e, v);
    b, q := BlockData(d.strat, e, m), Quantised(M.Flat(d.x.bap), v);
  }

  // The first n blocks have been written.
  ghost predicate Written(h: Shape, o: Offsets, b: seq<BlockData>, parts: seq<seq<bool>>) {
    |parts| == |b| && h.all >= h.full
    && forall k :: 0 <= k < |b| ==> ExponentsOk(h, b[k].strat, b[k].e) && parts[k] == OneBlock(h, o, b[k], k == 0)
  }

  lemma OneMoreWritten(h: Shape, o: Offsets, b: seq<BlockData>, parts: seq<seq<bool>>, bi: BlockData)
    requires Written(h, o, b, parts) && ExponentsOk(h, bi.strat, bi.e)
    ensures Written(h, o, b + [bi], parts + [OneBlock(h, o, bi, |b| == 0)])
  {
  }

  lemma OneMoreMatched(d: seq<BlockInput>, e: seq<seq<seq<int>>>, v: seq<seq<int>>, b: seq<BlockData>,
                       q: seq<Quantised>, bi: BlockData, qi: Quantised)
    requires |b| < |d| == |e| == |v| && MatchesAll(d, e, v, b, q, |b|)
    requires Matches(d[|b|], e[|b|], bi, qi, v[|b|])
    ensures MatchesAll(d, e, v, b + [bi], q + [qi], |b| + 1)
  {
  }

  // Writes all blocks.
  method OutputBlocks(pb: BitWriter, h: Shape, d: seq<BlockInput>, o: Offsets, ghost e: seq<seq<seq<int>>>,
                      ghost v: seq<seq<int>>)
      returns (ghost b: seq<BlockData>, ghost q: seq<Quantised>)
    requires InputsOk(h, d, e, v)
    modifies pb
    ensures BlocksOk(h, b) && AllCodable(h, b) && MatchesAll(d, e, v, b, q, NB_BLOCKS)
    ensures pb.bits == old(pb.bits) + BlocksTo(h, o, b, NB_BLOCKS)
  {
    b, q := [], [];
    ghost var before, parts := pb.bits, [];
    assert before == before + Join(parts) && InputOk(h, d[0], e[0], v[0]);
    for i := 0 to NB_BLOCKS
      invariant MatchesAll(d, e, v, b, q, i) && Written(h, o, b, parts)
      invariant pb.bits == before + Join(parts)
    {
      ghost var bi, qi := OutputBlock(pb, h, i == 0, d[i], o, e[i], v[i]);
      JoinOne(before, parts, OneBlock(h, o, bi, i == 0));
      OneMoreWritten(h, o, b, parts, bi);
      OneMoreMatched(d, e, v, b, q, bi, qi);
      parts := parts + [OneBlock(h, o, bi, i == 0)];
      b, q := b + [bi], q + [qi];
    }
    AllWritten(h, o, d, e, v, b, q, parts);
  }

  lemma AllWritten(h: Shape, o: Offsets, d: seq<BlockInput>, e: seq<seq<seq<int>>>, v: seq<seq<int>>, b: seq<BlockData>,
                   q: seq<Quantised>, parts: seq<seq<bool>>)
    requires InputsOk(h, d, e, v) && MatchesAll(d, e, v, b, q, NB_BLOCKS) && Written(h, o, b, parts)
    ensures BlocksOk(h, b) && AllCodable(h, b) && Join(parts) == BlocksTo(h, o, b, NB_BLOCKS)
  {
    assert InputOk(h, d[0], e[0], v[0]);
    assert parts == Parts(h, o, b);
  }

  lemma JoinOne(before: seq<bool>, parts: seq<seq<bool>>, part: seq<bool>)
    ensures before + Join(parts) + part == before + Join(parts + [part])
  {
    JoinedPrefix(parts, [part], |parts|);
    Associate(before, Join(parts), part);
  }

  // Room for what was predicted.
  ghost predicate RoomFor(h: Shape, d: seq<BlockInput>, frameSize: int, frameBits: int)
    requires |d| == NB_BLOCKS && StrategiesOk(h, InputStrategies(d))
  {
    var s := InputStrategies(d);
    && frameBits == ChannelTotal(h, s, h.all) + 65 + FrameBitsInc(h.acmod) + SideTotal(h, s, NB_BLOCKS) + 18
    && 16 * frameSize - (frameBits + BapTotal(d, NB_BLOCKS)) >= 0
  }

  function InputStrategies(d: seq<BlockInput>): (s: seq<seq<Strategy>>)
    ensures |s| == |d| && forall i :: 0 <= i < |d| ==> s[i] == d[i].strat
  {
    seq(|d|, i requires 0 <= i < |d| => d[i].strat)
  }

  // What the mantissas of each block come to: a decoder counts it from the baps it works out.
  function Sizes(q: seq<Quantised>): (s: seq<int>)
    ensures |s| == |q| && forall i :: 0 <= i < |q| ==> s[i] == M.SizeTo(q[i].b, |q[i].b|)
  {
    seq(|q|, i requires 0 <= i < |q| => M.SizeTo(q[i].b, |q[i].b|))
  }

  // Each block has the mantissa bits its baps ask for.
  ghost predicate Sized(b: seq<BlockData>, q: seq<Quantised>) {
    |b| == |q| == NB_BLOCKS && forall i :: 0 <= i < NB_BLOCKS ==> |b[i].mantissas| == Sizes(q)[i]
  }

  // Where all blocks begin.
  function BlockPlaces(h: Shape, strats: seq<seq<Strategy>>, sizes: seq<int>): (s: seq<int>)
    requires StrategiesOk(h, strats) && |sizes| == NB_BLOCKS
    ensures |s| == NB_BLOCKS && forall i :: 0 <= i < NB_BLOCKS ==> s[i] == BlockPlace(h, strats, sizes, i)
  {
    seq(NB_BLOCKS, i requires 0 <= i < NB_BLOCKS => BlockPlace(h, strats, sizes, i))
  }

  // A finished frame: both checksums hold, its header is that of the configuration, and every
  // block can be read from it where a decoder looks for it.
  ghost predicate Finished(bytes: seq<int>, c: Config, frameSize: int, o: Offsets, b: seq<BlockData>, q: seq<Quantised>,
                           crc1: int, fill: seq<bool>)
    requires Accepted(c) && BlocksOk(ShapeOf(c), b) && |bytes| == 2 * frameSize >= 128
  {
    && C.Divisible(bytes[2..2 * C.FiveEighths(frameSize)]) && C.Divisible(bytes[2..])
    && 0 <= crc1 < 65536
    && C.BitsOf(bytes) == Encoded(HeaderFields(c, frameSize, crc1)) + BlocksTo(ShapeOf(c), o, b, NB_BLOCKS) + fill
    && Outcome(C.BitsOf(bytes)) == 0
    && Faithful(b, q) && Sized(b, q)
    && FrameSays(C.BitsOf(bytes), ShapeOf(c), o, b, q, BlockPlaces(ShapeOf(c), Strategies(ShapeOf(c), b), Sizes(q)))
  }

  lemma ShapeOfAccepted(c: Config)
    requires Accepted(c)
    ensures ShapeOk(ShapeOf(c))
  {
  }

  lemma {:induction false} SameTotals(d: seq<BlockInput>, e: seq<seq<seq<int>>>, v: seq<seq<int>>, b: seq<BlockData>,
                                      q: seq<Quantised>, n: nat)
    requires |d| == |e| == |v| == NB_BLOCKS && MatchesAll(d, e, v, b, q, NB_BLOCKS) && n <= NB_BLOCKS
    ensures MantissaTotal(b, n) == BapTotal(d, n)
  {
    if n > 0 {
      SameTotals(d, e, v, b, q, n - 1);
      assert Matches(d[n - 1], e[n - 1], b[n - 1], q[n - 1], v[n - 1]);
    }
  }

  // What was written leaves room for the end of the frame.
  lemma BlocksFit(c: Config, frameSize: int, o: Offsets, d: seq<BlockInput>, e: seq<seq<seq<int>>>, v: seq<seq<int>>,
                  b: seq<BlockData>, q: seq<Quantised>, frameBits: int)
    requires Accepted(c) && BlocksOk(ShapeOf(c), b) && |d| == |e| == |v| == NB_BLOCKS
    requires MatchesAll(d, e, v, b, q, NB_BLOCKS)
    requires StrategiesOk(ShapeOf(c), InputStrategies(d)) && RoomFor(ShapeOf(c), d, frameSize, frameBits)
    ensures var n := |Encoded(HeaderFields(c, frameSize, 0)) + BlocksTo(ShapeOf(c), o, b, NB_BLOCKS)|;
      n >= 65 && (n + 7) / 8 <= 2 * frameSize - 2
  {
    SameTotals(d, e, v, b, q, NB_BLOCKS);
    assert Strategies(ShapeOf(c), b) == InputStrategies(d) by {
      forall i | 0 <= i < NB_BLOCKS
        ensures b[i].strat == d[i].strat
      {
        assert Matches(d[i], e[i], b[i], q[i], v[i]);
      }
    }
    SizeIsPredicted(c, frameSize, o, b, frameBits);
    AcceptedFields(c);
    HeaderWidth(c, frameSize, 0);
  }

  lemma FinishedFrame(before: seq<int>, after: seq<int>, c: Config, frameSize: nat, pos: nat, o: Offsets,
                      b: seq<BlockData>, q: seq<Quantised>, written: seq<bool>) returns (crc1: int, fill: seq<bool>)
    requires Accepted(c) && BlocksOk(ShapeOf(c), b) && AllCodable(ShapeOf(c), b) && OffsetsFit(o) && Faithful(b, q)
    requires Sized(b, q)
    requires 64 <= frameSize && 2 * frameSize <= |before| == |after| && FrameSizeOk(c, frameSize)
    requires 4 <= pos <= 2 * frameSize - 2 && C.Sealed(before, after, frameSize, pos)
    requires written == Encoded(HeaderFields(c, frameSize, 0)) + BlocksTo(ShapeOf(c), o, b, NB_BLOCKS)
    requires |written| <= 8 * pos && C.BitsOf(before[..pos]) == Padded(written, pos)
    requires C.Divisible(after[2..2 * C.FiveEighths(frameSize)]) && C.Divisible(after[2..2 * frameSize])
    ensures Finished(after[..2 * frameSize], c, frameSize, o, b, q, crc1, fill)
  {
    var h := ShapeOf(c);
    var pad := seq(8 * pos - |written|, _ => false);
    var all := BlocksTo(h, o, b, NB_BLOCKS);
    Associate(Encoded(HeaderFields(c, frameSize, 0)), all, pad);
    crc1, fill := SealedBits(before, after, frameSize, pos, c, all + pad);
    var header := Encoded(HeaderFields(c, frameSize, crc1));
    var bytes := after[..2 * frameSize];
    Regrouped(header, all, pad, fill);
    fill := pad + fill;
    ReadFinished(C.BitsOf(bytes), c, frameSize, o, b, q, crc1, fill);
    SlicesOfSlice(after, frameSize);
  }

  lemma SlicesOfSlice(after: seq<int>, frameSize: nat)
    requires 64 <= frameSize && 2 * frameSize <= |after|
    ensures after[..2 * frameSize][2..2 * C.FiveEighths(frameSize)] == after[2..2 * C.FiveEighths(frameSize)]
    ensures after[..2 * frameSize][2..] == after[2..2 * frameSize]
  {
  }

  lemma Regrouped<T>(a: seq<T>, b: seq<T>, c: seq<T>, d: seq<T>)
    ensures a + (b + c) + d == a + b + (c + d)
  {
  }

  // The parser accepts the finished frame and its blocks read as they were written.
  lemma ReadFinished(bits: seq<bool>, c: Config, frameSize: nat, o: Offsets, b: seq<BlockData>, q: seq<Quantised>,
                     crc1: int, fill: seq<bool>)
    requires Accepted(c) && BlocksOk(ShapeOf(c), b) && AllCodable(ShapeOf(c), b) && OffsetsFit(o) && Faithful(b, q)
    requires Sized(b, q)
    requires FrameSizeOk(c, frameSize) && 0 <= crc1 < 65536
    requires bits == Encoded(HeaderFields(c, frameSize, crc1)) + BlocksTo(ShapeOf(c), o, b, NB_BLOCKS) + fill
    ensures Outcome(bits) == 0
    ensures FrameSays(bits, ShapeOf(c), o, b, q, BlockPlaces(ShapeOf(c), Strategies(ShapeOf(c), b), Sizes(q)))
  {
    var h := ShapeOf(c);
    var header, all := Encoded(HeaderFields(c, frameSize, crc1)), BlocksTo(h, o, b, NB_BLOCKS);
    Associate(header, all, fill);
    HeaderRoundTrip(bits, c, frameSize, crc1, all + fill, Coded(0, 0, 0, 0, 0, 0, 0, 0, 0, 0, 0));
    var places := BlockPlaces(h, Strategies(h, b), Sizes(q));
    HeaderWidth(c, frameSize, crc1);
    AcceptedFields(c);
    forall i | 0 <= i < NB_BLOCKS
      ensures places[i] == |header| + |BlocksTo(h, o, b, i)|
    {
      PlacesOfBlocks(h, o, b, Sizes(q), i);
    }
    FrameRoundTrip(bits, header, h, o, b, q, fill, places);
  }

  // The rest of AC3_encode_frame, when the allocation fits: header, six blocks and the end of the
  // frame. No assert of output_frame_end fails, the frame has the bytes its header says, its
  // checksums hold, and a decoder reads every block back.
  method OutputFrame(c: Config, frameSize: nat, o: Offsets, d: seq<BlockInput>, frame: array<int>, ghost frameBits: int,
                     ghost e: seq<seq<seq<int>>>, ghost v: seq<seq<int>>)
      returns (bytes: nat, ghost b: seq<BlockData>, ghost q: seq<Quantised>, ghost crc1: int, ghost fill: seq<bool>)
    requires Accepted(c) && FrameSizeOk(c, frameSize) && 64 <= frameSize <= 1920 && frame.Length == 3840
    requires InputsOk(ShapeOf(c), d, e, v) && OffsetsFit(o)
    requires StrategiesOk(ShapeOf(c), InputStrategies(d)) && RoomFor(ShapeOf(c), d, frameSize, frameBits)
    modifies frame
    ensures bytes == 2 * frameSize && BlocksOk(ShapeOf(c), b) && MatchesAll(d, e, v, b, q, NB_BLOCKS)
    ensures Finished(frame[..bytes], c, frameSize, o, b, q, crc1, fill)
  {
    var pb := new BitWriter();
    OutputFrameHeader(pb, c, frameSize);
    assert [] + Encoded(HeaderFields(c, frameSize, 0)) == Encoded(HeaderFields(c, frameSize, 0));
    b, q := OutputBlocks(pb, ShapeOf(c), d, o, e, v);
    ghost var written := pb.bits;
    BlocksFit(c, frameSize, o, d, e, v, b, q, frameBits);
    var pos := FlushPutBits(pb, frame);
    ghost var before := frame[..];
    assert before[..pos] == frame[..pos];
    bytes := C.OutputFrameEnd(frame, frameSize, pos);
    MatchedIsFaithful(d, e, v, b, q);
    crc1, fill := FinishedFrame(before, frame[..], c, frameSize, pos, o, b, q, written);
    assert frame[..][..bytes] == frame[..bytes];
  }

  lemma MatchedIsFaithful(d: seq<BlockInput>, e: seq<seq<seq<int>>>, v: seq<seq<int>>, b: seq<BlockData>,
                          q: seq<Quantised>)
    requires |d| == |e| == |v| == NB_BLOCKS && MatchesAll(d, e, v, b, q, NB_BLOCKS)
    ensures Faithful(b, q) && Sized(b, q)
  {
    forall i | 0 <= i < NB_BLOCKS
      ensures Decodes(b[i].mantissas, q[i].b, q[i].v) && |b[i].mantissas| == M.SizeTo(q[i].b, |q[i].b|)
    {
      assert Matches(d[i], e[i], b[i], q[i], v[i]);
    }
  }
}
