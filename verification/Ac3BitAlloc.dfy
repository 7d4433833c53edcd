// The search of the AC-3 encoder for the finest quantisation that fits a frame: sections 7.2.2
// and 5.4.3.37 of ATSC A/52 and compute_bit_allocation.
module Ac3BitAlloc {
  import opened Ac3Tables
  import B = Ac3Bands
  import M = Ac3Mantissa
  import E = Ac3Exponents

  // ---- what is allocated ----

  // Masking curve and power of one channel in one block.
  datatype Masked = Masked(mask: seq<int>, psd: seq<int>, bins: nat)

  ghost predicate MaskedOk(x: Masked) {
    |x.mask| == 50 && 1 <= x.bins <= 229 && |x.psd| >= x.bins
  }

  // All of a frame: blocks of channels; the bits spent on everything else, and words there are.
  datatype Problem = Problem(t: Tables, frame: seq<seq<Masked>>, floor: int, frameBits: int, frameSize: int)

  ghost predicate ProblemOk(p: Problem) {
    && Sound(p.t) && |p.frame| == E.NB_BLOCKS
    && forall i, ch :: 0 <= i < |p.frame| && 0 <= ch < |p.frame[i]| ==> MaskedOk(p.frame[i][ch])
  }

  // The offset for a coarse and a fine step.
  function SnrOffset(csnroffst: int, fsnroffst: int): int { ((csnroffst - 15) * 16 + fsnroffst) * 4 }

  function RowOf(t: Tables, x: Masked, snroffset: int, floor: int): (row: seq<int>)
    requires Sound(t)
    ensures |row| == x.bins
  {
    seq(x.bins, i => if 0 <= B.BandOf(i) < |x.mask| && 0 <= i < |x.psd|
                     then B.BapAt(t, x.mask[B.BandOf(i)], x.psd[i], snroffset, floor) else 0)
  }

  function RowsOf(t: Tables, block: seq<Masked>, snroffset: int, floor: int): (rows: seq<seq<int>>)
    requires Sound(t)
    ensures |rows| == |block|
  {
    seq(|block|, ch requires 0 <= ch < |block| => RowOf(t, block[ch], snroffset, floor))
  }

  // The baps of all blocks for an offset.
  function Allocation(p: Problem, snroffset: int): (baps: seq<seq<seq<int>>>)
    requires Sound(p.t)
    ensures |baps| == |p.frame|
  {
    seq(|p.frame|, i requires 0 <= i < |p.frame| => RowsOf(p.t, p.frame[i], snroffset, p.floor))
  }

  function BlockBits(rows: seq<seq<int>>): int {
    M.SizeTo(M.Flat(rows), |M.Flat(rows)|)
  }

  function MantissaBits(baps: seq<seq<seq<int>>>): int {
    if baps == [] then 0 else MantissaBits(baps[..|baps| - 1]) + BlockBits(baps[|baps| - 1])
  }

  // Bits to spare with an offset; negative when the frame is too small.
  function Spare(p: Problem, csnroffst: int, fsnroffst: int): int
    requires Sound(p.t)
  {
    16 * p.frameSize - (p.frameBits + MantissaBits(Allocation(p, SnrOffset(csnroffst, fsnroffst))))
  }

  // ---- masking curves ----

  // The curve and power that follow from a channel's exponents.
  ghost predicate IsMasked(t: Tables, x: Masked, exp: seq<int>, c: B.Curve)
    requires Sound(t) && B.CurveOk(c)
  {
    && MaskedOk(x) && x.bins == |exp|
    && (forall i :: 0 <= i < |exp| ==> x.psd[i] == 3072 - 128 * exp[i])
    && exists bndpsd: seq<int> :: |bndpsd| == 50 && FollowsFrom(t, x, bndpsd, c)
  }

  ghost predicate FollowsFrom(t: Tables, x: Masked, bndpsd: seq<int>, c: B.Curve)
    requires Sound(t) && B.CurveOk(c) && MaskedOk(x) && |bndpsd| == 50
  {
    && B.IntegratedTo(t, x.psd, bndpsd, 0, x.bins, B.BandOf(x.bins - 1) + 1)
    && forall k :: 0 <= k <= B.BandOf(x.bins - 1) && k < 50 ==> x.mask[k] == B.Masking(t, bndpsd, c, k)
  }

  method MaskChannel(t: Tables, bndtab: seq<int>, masktab: seq<int>, exp: seq<int>, c: B.Curve) returns (x: Masked)
    requires Sound(t) && B.RightTables(bndtab, masktab) && B.CurveOk(c) && 1 <= |exp| <= 229
    ensures IsMasked(t, x, exp, c)
  {
    var psd, bndpsd, mask := new int[256], new int[50], new int[50];
    B.CalcPsd(t, bndtab, masktab, exp, 0, |exp|, psd, bndpsd);
    ghost var power := psd[..];
    B.CalcMask(t, masktab, c, bndpsd, |exp|, mask);
    x := Masked(mask[..], psd[..], |exp|);
    assert psd[..] == power;
    assert FollowsFrom(t, x, bndpsd[..], c);
  }

  ghost predicate BlockMasked(t: Tables, block: seq<Masked>, exps: seq<seq<int>>, curves: seq<B.Curve>)
    requires Sound(t) && |exps| == |curves| && forall ch :: 0 <= ch < |curves| ==> B.CurveOk(curves[ch])
  {
    |block| == |exps| && forall ch :: 0 <= ch < |exps| ==> IsMasked(t, block[ch], exps[ch], curves[ch])
  }

  // Exponents of the channels of each block; a block that reuses has those of the one before.
  ghost predicate ReuseOk(exps: seq<seq<seq<int>>>, reuse: seq<seq<bool>>, channels: nat) {
    && |exps| == |reuse| && (forall i :: 0 <= i < |exps| ==> |exps[i]| == |reuse[i]| == channels)
    && (forall i, ch :: 0 <= i < |exps| && 0 <= ch < channels ==> 1 <= |exps[i][ch]| <= 229)
    && forall i, ch :: 0 <= i < |exps| && 0 <= ch < channels && reuse[i][ch] ==> i > 0 && exps[i][ch] == exps[i - 1][ch]
  }

  // bit_alloc_masking for one block, given the block before it.
  method MaskBlock(t: Tables, bndtab: seq<int>, masktab: seq<int>, exps: seq<seq<int>>, reuse: seq<bool>,
                   curves: seq<B.Curve>, previous: seq<Masked>) returns (block: seq<Masked>)
    requires Sound(t) && B.RightTables(bndtab, masktab) && |exps| == |curves| == |reuse|
    requires forall ch :: 0 <= ch < |curves| ==> B.CurveOk(curves[ch]) && 1 <= |exps[ch]| <= 229
    requires forall ch :: 0 <= ch < |curves| && reuse[ch] ==>
               ch < |previous| && IsMasked(t, previous[ch], exps[ch], curves[ch])
    ensures BlockMasked(t, block, exps, curves)
  {
    block := [];
    for ch := 0 to |exps|
      invariant |block| == ch && forall k :: 0 <= k < ch ==> IsMasked(t, block[k], exps[k], curves[k])
    {
      var x;
      if reuse[ch] {
        x := previous[ch];
      } else {
        x := MaskChannel(t, bndtab, masktab, exps[ch], curves[ch]);
      }
      block := block + [x];
    }
  }

  // What a block reuses follows from its own exponents, since they are those of the block before.
  lemma ReusedIsMasked(t: Tables, exps: seq<seq<seq<int>>>, reuse: seq<seq<bool>>, curves: seq<B.Curve>,
                       previous: seq<Masked>, i: nat, ch: nat)
    requires Sound(t) && ReuseOk(exps, reuse, |curves|) && 0 < i < |exps| && ch < |curves| && reuse[i][ch]
    requires forall k :: 0 <= k < |curves| ==> B.CurveOk(curves[k])
    requires BlockMasked(t, previous, exps[i - 1], curves)
    ensures ch < |previous| && IsMasked(t, previous[ch], exps[i][ch], curves[ch])
  {
    assert exps[i][ch] == exps[i - 1][ch];
  }

  // bit_alloc_masking: copying the curve where exponents are reused gives the curve that would
  // be computed from them.
  method BitAllocMasking(t: Tables, bndtab: seq<int>, masktab: seq<int>, exps: seq<seq<seq<int>>>,
                         reuse: seq<seq<bool>>, curves: seq<B.Curve>) returns (frame: seq<seq<Masked>>)
    requires Sound(t) && B.RightTables(bndtab, masktab) && ReuseOk(exps, reuse, |curves|)
    requires forall ch :: 0 <= ch < |curves| ==> B.CurveOk(curves[ch])
    ensures |frame| == |exps| && forall i :: 0 <= i < |exps| ==> BlockMasked(t, frame[i], exps[i], curves)
  {
    frame := [];
    for i := 0 to |exps|
      invariant |frame| == i && forall k :: 0 <= k < i ==> BlockMasked(t, frame[k], exps[k], curves)
    {
      var previous := if i == 0 then [] else frame[i - 1];
      forall ch | 0 <= ch < |curves| && reuse[i][ch]
        ensures ch < |previous| && IsMasked(t, previous[ch], exps[i][ch], curves[ch])
      {
        ReusedIsMasked(t, exps, reuse, curves, previous, i, ch);
      }
      var block := MaskBlock(t, bndtab, masktab, exps[i], reuse[i], curves, previous);
      frame := frame + [block];
    }
  }

  // Two steps up never leave a bin with less: for any exponents an encoder can send, a higher
  // offset gives each mantissa at least as many levels.
  lemma AllocationMonotone(p: Problem, exp: seq<int>, c: B.Curve, a: int, b: int, i: nat, ch: nat, bin: nat)
    requires ProblemOk(p) && B.CurveOk(c) && B.NONE <= a <= b && p.floor >= 0
    requires i < |p.frame| && ch < |p.frame[i]| && bin < |exp| && IsMasked(p.t, p.frame[i][ch], exp, c)
    requires forall k :: 0 <= k < |exp| ==> 0 <= exp[k] <= 24
    ensures Allocation(p, a)[i][ch][bin] <= Allocation(p, b)[i][ch][bin]
  {
    var x := p.frame[i][ch];
    var bndpsd: seq<int> :| |bndpsd| == 50 && FollowsFrom(p.t, x, bndpsd, c);
    B.BandsRise(bin, x.bins - 1);
    B.EncoderBapsMonotone(p.t, x.psd, bndpsd, c, x.bins, bin, p.floor, a, b);
  }

  // Pairs of offsets stand in lexicographic order: sixteen fine steps make a coarse one.
  lemma OffsetsInOrder(coarse: int, fine: int, coarse': int, fine': int)
    requires 0 <= fine <= 15 && 0 <= fine' <= 15
    ensures SnrOffset(coarse, fine) <= SnrOffset(coarse', fine')
       <==> coarse < coarse' || (coarse == coarse' && fine <= fine')
    ensures SnrOffset(0, 0) == B.NONE && SnrOffset(coarse + 1, 0) == SnrOffset(coarse, 15) + 4
  {
  }

  // So no later pair gives any mantissa fewer bits.
  lemma LaterPairMonotone(p: Problem, exp: seq<int>, c: B.Curve, coarse: int, fine: int, coarse': int, fine': int,
                          i: nat, ch: nat, bin: nat)
    requires ProblemOk(p) && B.CurveOk(c) && p.floor >= 0 && 0 <= coarse && 0 <= fine <= 15 && 0 <= fine' <= 15
    requires coarse < coarse' || (coarse == coarse' && fine <= fine')
    requires i < |p.frame| && ch < |p.frame[i]| && bin < |exp| && IsMasked(p.t, p.frame[i][ch], exp, c)
    requires forall k :: 0 <= k < |exp| ==> 0 <= exp[k] <= 24
    ensures Allocation(p, SnrOffset(coarse, fine))[i][ch][bin] <= Allocation(p, SnrOffset(coarse', fine'))[i][ch][bin]
  {
    OffsetsInOrder(coarse, fine, coarse', fine');
    OffsetsInOrder(0, 0, coarse, fine);
    AllocationMonotone(p, exp, c, SnrOffset(coarse, fine), SnrOffset(coarse', fine'), i, ch, bin);
  }

  // ---- bit_alloc ----

  // The baps of one channel.
  method AllocateChannel(p: Problem, bndtab: seq<int>, masktab: seq<int>, x: Masked, snroffset: int)
      returns (row: seq<int>)
    requires Sound(p.t) && MaskedOk(x) && B.RightTables(bndtab, masktab)
    ensures row == RowOf(p.t, x, snroffset, p.floor)
  {
    var bap := new int[256];
    B.BandsRise(x.bins - 1, 228);
    ghost var last := B.CalcBap(p.t, bndtab, masktab, x.mask, x.psd, 0, x.bins, snroffset, p.floor, bap);
    row := bap[..x.bins];
    forall i | 0 <= i < x.bins
      ensures row[i] == RowOf(p.t, x, snroffset, p.floor)[i]
    {
      B.BandsRise(i, 228);
    }
  }

  // Counts one more channel of a block.
  method CountChannel(counters: M.MantissaCounters, rows: seq<seq<int>>, row: seq<int>) returns (more: int)
    requires counters.Match(M.Before(M.Flat(rows), |M.Flat(rows)|))
    modifies counters
    ensures counters.Match(M.Before(M.Flat(rows + [row]), |M.Flat(rows + [row])|))
    ensures BlockBits(rows + [row]) == BlockBits(rows) + more
  {
    OneMoreRow(rows, row);
    more := counters.ComputeMantissaSize(rows + [row], |rows|);
  }

  // The baps of one block and the size of its mantissas.
  method AllocateBlock(p: Problem, bndtab: seq<int>, masktab: seq<int>, i: nat, snroffset: int)
      returns (rows: seq<seq<int>>, bits: int)
    requires ProblemOk(p) && i < |p.frame| && B.RightTables(bndtab, masktab)
    ensures rows == RowsOf(p.t, p.frame[i], snroffset, p.floor) && bits == BlockBits(rows)
  {
    var counters := new M.MantissaCounters();
    ghost var want := RowsOf(p.t, p.frame[i], snroffset, p.floor);
    rows, bits := [], 0;
    for ch := 0 to |p.frame[i]|
      invariant rows == want[..ch] && bits == BlockBits(rows)
      invariant counters.Match(M.Before(M.Flat(rows), |M.Flat(rows)|))
    {
      var row := AllocateChannel(p, bndtab, masktab, p.frame[i][ch], snroffset);
      var more := CountChannel(counters, rows, row);
      rows := rows + [row];
      bits := bits + more;
    }
    assert want[..|p.frame[i]|] == want;
  }

  // bit_alloc
  method BitAlloc(p: Problem, bndtab: seq<int>, masktab: seq<int>, csnroffst: int, fsnroffst: int)
      returns (left: int, bap: seq<seq<seq<int>>>)
    requires ProblemOk(p) && B.RightTables(bndtab, masktab)
    ensures left == Spare(p, csnroffst, fsnroffst) && bap == Allocation(p, SnrOffset(csnroffst, fsnroffst))
  {
    var snroffset := ((csnroffst - 15) * 16 + fsnroffst) * 4;
    ghost var want := Allocation(p, snroffset);
    var frameBits := p.frameBits;
    bap := [];
    for i := 0 to |p.frame|
      invariant bap == want[..i] && frameBits == p.frameBits + MantissaBits(bap)
    {
      var rows, bits := AllocateBlock(p, bndtab, masktab, i, snroffset);
      assert (bap + [rows])[..i] == bap;
      bap := bap + [rows];
      frameBits := frameBits + bits;
    }
    assert want[..|p.frame|] == want;
    left := 16 * p.frameSize - frameBits;
  }

  lemma OneMoreRow(rows: seq<seq<int>>, row: seq<int>)
    ensures M.Flat(rows + [row]) == M.Flat(rows) + row
    ensures var n := |M.Flat(rows)|;
      && M.Start(rows + [row], |rows|) == n && M.Start(rows + [row], |rows| + 1) == |M.Flat(rows + [row])|
      && M.Before(M.Flat(rows + [row]), n) == M.Before(M.Flat(rows), n)
      && M.SizeTo(M.Flat(rows + [row]), n) == M.SizeTo(M.Flat(rows), n)
  {
    var both := rows + [row];
    assert both[..|rows|] == rows;
    M.FlatLength(rows);
    M.FlatLength(both);
    M.StartOfPrefix(both, |rows|, |rows|);
    M.PrefixCounts(M.Flat(rows), row, |M.Flat(rows)|);
  }

  // ---- compute_bit_allocation ----

  ghost predicate OffsetsOk(csnroffst: int, fsnroffst: int) { 0 <= csnroffst <= 63 && 0 <= fsnroffst <= 15 }

  // No coarse offset the search tries on its way down from start leaves room.
  ghost predicate NoneFits(p: Problem, start: int)
    requires Sound(p.t)
  {
    forall c {:trigger Spare(p, c, 0)} :: 0 <= c <= start && (start - c) % 4 == 0 ==> Spare(p, c, 0) < 0
  }

  // bap is the allocation for these offsets, and the frame has room for it.
  ghost predicate Fitting(p: Problem, csnroffst: int, fsnroffst: int, bap: seq<seq<seq<int>>>)
    requires Sound(p.t)
  {
    && OffsetsOk(csnroffst, fsnroffst) && Spare(p, csnroffst, fsnroffst) >= 0
    && bap == Allocation(p, SnrOffset(csnroffst, fsnroffst))
  }

  // The next step of either offset would not fit; the fine one comes last.
  ghost predicate Finest(p: Problem, csnroffst: int, fsnroffst: int)
    requires Sound(p.t)
  {
    && (csnroffst == 63 || Spare(p, csnroffst + 1, 0) < 0)
    && (fsnroffst == 15 || Spare(p, csnroffst, fsnroffst + 1) < 0)
  }

  // The encoder's offsets, kept from frame to frame as the place to start.
  class BitAllocator {
    const bndtab: seq<int>
    const masktab: seq<int>
    const channels: nat
    var csnroffst: int
    var fsnroffst: seq<int>

    ghost predicate Valid()
      reads this
    {
      B.RightTables(bndtab, masktab) && 0 <= csnroffst <= 63 && |fsnroffst| == channels
    }

    constructor (bndtab: seq<int>, masktab: seq<int>, channels: nat)
      requires B.RightTables(bndtab, masktab)
      ensures Valid() && csnroffst == 40 && this.channels == channels
    {
      this.bndtab, this.masktab, this.channels := bndtab, masktab, channels;
      csnroffst, fsnroffst := 40, seq(channels, _ => 0);
    }

    // Down by four until there is room; -1 if there is none.
    method GoDown(p: Problem) returns (c: int, bap: seq<seq<seq<int>>>)
      requires Valid() && ProblemOk(p)
      ensures c >= 0 ==> Fitting(p, c, 0, bap)
      ensures c < 0 <==> NoneFits(p, csnroffst)
    {
      c := csnroffst;
      var left;
      left, bap := BitAlloc(p, bndtab, masktab, c, 0);
      while c >= 0 && left < 0
        invariant -4 <= c <= csnroffst && (csnroffst - c) % 4 == 0
        invariant c >= 0 ==> left == Spare(p, c, 0) && bap == Allocation(p, SnrOffset(c, 0))
        invariant forall d {:trigger Spare(p, d, 0)} :: 0 <= d && c < d <= csnroffst && (csnroffst - d) % 4 == 0 ==>
          Spare(p, d, 0) < 0
      {
        c := c - 4;
        if c >= 0 {
          left, bap := BitAlloc(p, bndtab, masktab, c, 0);
        }
      }
    }

    // Up by inc at a time as long as there is room.
    method RaiseCoarse(p: Problem, c0: int, bap0: seq<seq<seq<int>>>, inc: int)
        returns (c: int, bap: seq<seq<seq<int>>>)
      requires Valid() && ProblemOk(p) && Fitting(p, c0, 0, bap0) && inc > 0
      ensures Fitting(p, c, 0, bap) && (c + inc > 63 || Spare(p, c + inc, 0) < 0)
    {
      c, bap := c0, bap0;
      while c + inc <= 63
        invariant Fitting(p, c, 0, bap)
      {
        var left, bap1 := BitAlloc(p, bndtab, masktab, c + inc, 0);
        if left < 0 {
          break;
        }
        c, bap := c + inc, bap1;
      }
    }

    method RaiseFine(p: Problem, c: int, f0: int, bap0: seq<seq<seq<int>>>, inc: int)
        returns (f: int, bap: seq<seq<seq<int>>>)
      requires Valid() && ProblemOk(p) && Fitting(p, c, f0, bap0) && inc > 0
      ensures Fitting(p, c, f, bap) && (f + inc > 15 || Spare(p, c, f + inc) < 0)
    {
      f, bap := f0, bap0;
      while f + inc <= 15
        invariant Fitting(p, c, f, bap)
      {
        var left, bap1 := BitAlloc(p, bndtab, masktab, c, f + inc);
        if left < 0 {
          break;
        }
        f, bap := f + inc, bap1;
      }
    }

    // The search of compute_bit_allocation.
    method Search(p: Problem) returns (result: int, bap: seq<seq<seq<int>>>)
      requires Valid() && ProblemOk(p)
      modifies this
      ensures Valid()
      ensures result == -1 <==> NoneFits(p, old(csnroffst))
      ensures result == -1 ==> csnroffst == old(csnroffst) && fsnroffst == old(fsnroffst)
      ensures result == 0 || result == -1
      ensures result == 0 ==> exists f ::
        Fitting(p, csnroffst, f, bap) && Finest(p, csnroffst, f) && fsnroffst == seq(channels, _ => f)
    {
      var c, f;
      c, bap := GoDown(p);
      if c < 0 {
        return -1, bap;
      }
      c, bap := RaiseCoarse(p, c, bap, 4);
      c, bap := RaiseCoarse(p, c, bap, 1);
      f, bap := RaiseFine(p, c, 0, bap, 4);
      f, bap := RaiseFine(p, c, f, bap, 1);
      csnroffst := c;
      fsnroffst := seq(channels, _ => f);
      result := 0;
      assert Fitting(p, csnroffst, f, bap) && Finest(p, csnroffst, f);
    }
  }
}
