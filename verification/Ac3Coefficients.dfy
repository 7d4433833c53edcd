// The first half of AC3_encode_frame after the transform: exponents of the coefficients, which of
// them are sent, and that the rest of the encoder can go on from there.
module Ac3Coefficients {
  import opened Sums
  import opened Ac3Config
  import opened Ac3Exponents
  import opened Ac3Block
  import opened Ac3Frame
  import opened Ac3Shifts
  import E = Ac3Encoder
  import A = Ac3BitAlloc
  import D = Ac3Decoder
  import M = Ac3Mantissa
  import R = Ac3Rate
  import T = Ac3Tables

  // ---- exponents of coefficients ----

  // av_log2
  function Log2(v: nat): nat { if v < 2 then 0 else 1 + Log2(v / 2) }

  lemma {:induction false} Log2Brackets(v: nat)
    requires v > 0
    ensures Pow2(Log2(v)) <= v < Pow2(Log2(v) + 1)
  {
    if v >= 2 {
      Log2Brackets(v / 2);
    }
  }

  // The exponent of a coefficient that is not zero; 24 and more is nothing.
  function Raw(c: int, shift: int): int { 23 - Log2(Abs(c)) + shift }

  // A block's coefficients and their exponents.
  ghost predicate Measured(coefs: seq<int>, exp: seq<int>, shift: int) {
    && |coefs| == |exp| == 256 && InRange(exp)
    && forall k :: 0 <= k < 256 ==> if coefs[k] == 0 then exp[k] == 24 else exp[k] == Raw(coefs[k], shift) < 24
  }

  // Exponents are bytes: none may be negative.
  ghost predicate NotTooLarge(coefs: seq<int>, shift: int) {
    forall k {:trigger coefs[k]} :: 0 <= k < |coefs| && coefs[k] != 0 ==> Raw(coefs[k], shift) >= 0
  }

  // The exponents of one block; coefficients too small for any are set to zero.
  method ComputeExponents(coef: array<int>, shift: int) returns (exp: array<int>)
    requires coef.Length == 256 && NotTooLarge(coef[..], shift)
    modifies coef
    ensures fresh(exp) && Measured(coef[..], exp[..], shift)
    ensures forall k :: 0 <= k < 256 ==>
      coef[k] == if old(coef[k]) != 0 && Raw(old(coef[k]), shift) < 24 then old(coef[k]) else 0
  {
    exp := new int[256];
    ghost var was := coef[..];
    for j := 0 to 256
      invariant forall k :: 0 <= k < j ==> coef[k] == if was[k] != 0 && Raw(was[k], shift) < 24 then was[k] else 0
      invariant forall k :: 0 <= k < j ==> 0 <= exp[k] <= 24
      invariant forall k :: 0 <= k < j ==> if coef[k] == 0 then exp[k] == 24 else exp[k] == Raw(coef[k], shift) < 24
      invariant forall k :: j <= k < 256 ==> coef[k] == was[k]
    {
      assert was[j] == coef[j];
      var e := 24;
      if coef[j] != 0 {
        e := Raw(coef[j], shift);
        if e >= 24 {
          e := 24;
          coef[j] := 0;
        }
      }
      exp[j] := e;
    }
  }

  // An exponent that is no larger than a coefficient's own keeps it within the quantisers' range.
  lemma WithinRange(c: int, own: int, encoded: int, shift: int)
    requires if c == 0 then own == 24 else own == Raw(c, shift) < 24
    requires shift <= encoded <= own
    ensures E.InQuantiserRange(c, encoded - shift)
  {
    if c != 0 {
      var l := Log2(Abs(c));
      Log2Brackets(Abs(c));
      BelowUnit(c, l, encoded - shift);
    }
  }

  lemma BelowUnit(c: int, l: nat, e: nat)
    requires Abs(c) < Pow2(l + 1) && e + l <= 23
    ensures -M.UNIT < c * Pow2(e) < M.UNIT
  {
    ThreePowers(l + 1, 23 - l - e, e);
    UnitIs();
    ProductBelow(c, Pow2(l + 1), Pow2(23 - l - e), Pow2(e), Pow2(l + 1 + (23 - l - e) + e));
  }

  lemma ProductBelow(c: int, p: nat, q: nat, r: nat, unit: int)
    requires Abs(c) < p && q >= 1 && r >= 1 && unit == p * q * r
    ensures -unit < c * r < unit
  {
    Scaled(Abs(c), p, r, q);
    SignedProduct(c, r, Abs(c) * r);
  }

  lemma ThreePowers(a: nat, b: nat, c: nat)
    ensures Pow2(a + b + c) == Pow2(a) * Pow2(b) * Pow2(c)
  {
    Pow2Add(a, b);
    Pow2Add(a + b, c);
  }

  lemma UnitIs()
    ensures Pow2(24) == M.UNIT
  {
    assert Pow2(6) == 64;
    Pow2Add(6, 6);
    Pow2Add(12, 12);
  }

  lemma Scaled(a: nat, p: nat, e: nat, q: nat)
    requires a < p && e >= 1 && q >= 1
    ensures a * e < p * q * e
  {
    assert a * e <= (p - 1) * e == p * e - e;
    assert p * e * 1 <= p * e * q == p * q * e;
  }

  lemma SignedProduct(c: int, p: int, x: int)
    requires x == Abs(c) * p
    ensures c * p == if c >= 0 then x else -x
  {
  }

  // ---- one channel ----

  // Rows of values in arrays of their own.
  method MakeRows(values: seq<seq<int>>) returns (rows: seq<array<int>>)
    requires |values| == NB_BLOCKS && forall i :: 0 <= i < NB_BLOCKS ==> |values[i]| == 256
    ensures Rows(rows) && (forall i :: 0 <= i < NB_BLOCKS ==> fresh(rows[i])) && Contents(rows) == values
  {
    rows := [];
    for i := 0 to NB_BLOCKS
      invariant |rows| == i && forall k :: 0 <= k < i ==>
                  fresh(rows[k]) && rows[k].Length == 256 && rows[k][..] == values[k]
      invariant forall j, k :: 0 <= j < k < i ==> rows[j] != rows[k]
    {
      var row := new int[256](k requires 0 <= k < 256 => values[i][k]);
      assert row[..] == values[i];
      rows := rows + [row];
    }
  }

  // The exponents, and room for what they are encoded to.
  method MakeBoth(values: seq<seq<int>>) returns (exp: seq<array<int>>, rows: seq<array<int>>)
    requires |values| == NB_BLOCKS && forall i :: 0 <= i < NB_BLOCKS ==> |values[i]| == 256
    ensures Apart(exp, rows) && Contents(exp) == values
    ensures forall i :: 0 <= i < NB_BLOCKS ==> fresh(exp[i]) && fresh(rows[i])
  {
    exp := MakeRows(values);
    rows := MakeRows(values);
  }

  // A channel's exponents for all blocks: strategies, encoded exponents, and how many bits they take.
  ghost predicate ChannelDone(h: Shape, ch: nat, own: seq<seq<int>>, s: seq<Strategy>, encoded: seq<seq<int>>,
                              e: seq<seq<int>>)
  {
    && Chosen(own, h.lfe && ch == h.full, s) && |encoded| == |e| == NB_BLOCKS
    && ChannelEncoded(encoded, s, Bins(h, ch), e, own, NB_BLOCKS)
  }

  method EncodeOneChannel(h: Shape, ch: nat, own: seq<seq<int>>)
      returns (s: seq<Strategy>, encoded: seq<seq<int>>, bits: int, ghost e: seq<seq<int>>)
    requires ShapeOk(h) && ch < h.all && |own| == NB_BLOCKS
    requires forall i :: 0 <= i < NB_BLOCKS ==> |own[i]| == 256 && InRange(own[i])
    ensures ChannelDone(h, ch, own, s, encoded, e) && bits == ChannelBits(s, Bins(h, ch), NB_BLOCKS)
  {
    var exp, rows := MakeBoth(own);
    s := ChooseStrategies(exp, own, h.lfe && ch == h.full);
    RowsInRange(exp, own);
    bits, e := EncodeChannel(exp, rows, s, Bins(h, ch));
    encoded := Values(rows);
  }

  method ChooseStrategies(exp: seq<array<int>>, ghost own: seq<seq<int>>, isLfe: bool) returns (s: seq<Strategy>)
    requires Rows(exp) && Contents(exp) == own
    ensures Chosen(own, isLfe, s)
  {
    s := ComputeExpStrategy(exp, isLfe);
    assert forall i :: 0 <= i < NB_BLOCKS ==> exp[i][..] == own[i];
  }

  lemma RowsInRange(exp: seq<array<int>>, own: seq<seq<int>>)
    requires Rows(exp) && Contents(exp) == own && forall i :: 0 <= i < NB_BLOCKS ==> InRange(own[i])
    ensures forall i :: 0 <= i < NB_BLOCKS ==> InRange(exp[i][..])
  {
  }

  function Values(rows: seq<array<int>>): (v: seq<seq<int>>)
    reads rows
    ensures v == Contents(rows)
  {
    if rows == [] then [] else Values(rows[..|rows| - 1]) + [rows[|rows| - 1][..]]
  }

  // ---- all channels ----

  // What is there for channel ch of each block.
  function Side<X>(blocks: seq<seq<X>>, ch: nat): (s: seq<X>)
    requires forall i :: 0 <= i < |blocks| ==> ch < |blocks[i]|
    ensures |s| == |blocks| && forall i :: 0 <= i < |blocks| ==> s[i] == blocks[i][ch]
  {
    seq(|blocks|, i requires 0 <= i < |blocks| => blocks[i][ch])
  }

  // From channels of blocks to blocks of channels.
  function Turned<X>(sides: seq<seq<X>>, blocks: nat): (r: seq<seq<X>>)
    requires forall ch :: 0 <= ch < |sides| ==> |sides[ch]| == blocks
    ensures |r| == blocks && forall i :: 0 <= i < blocks ==> |r[i]| == |sides|
    ensures forall i, ch :: 0 <= i < blocks && 0 <= ch < |sides| ==> r[i][ch] == sides[ch][i]
  {
    seq(blocks, i requires 0 <= i < blocks => seq(|sides|, ch requires 0 <= ch < |sides| => sides[ch][i]))
  }

  ghost predicate OwnOk(h: Shape, own: seq<seq<seq<int>>>) {
    && |own| == NB_BLOCKS && (forall i :: 0 <= i < NB_BLOCKS ==> |own[i]| == h.all)
    && forall i, ch :: 0 <= i < NB_BLOCKS && 0 <= ch < h.all ==> |own[i][ch]| == 256 && InRange(own[i][ch])
  }

  // Every channel of these blocks is done.
  ghost predicate AllDone(h: Shape, own: seq<seq<seq<int>>>, strats: seq<seq<Strategy>>, encoded: seq<seq<seq<int>>>,
                          e: seq<seq<seq<int>>>)
  {
    && OwnOk(h, own) && |strats| == |encoded| == |e| == NB_BLOCKS
    && (forall i :: 0 <= i < NB_BLOCKS ==> |strats[i]| == |encoded[i]| == |e[i]| == h.all)
    && forall ch: nat {:trigger Side(own, ch)} :: ch < h.all ==>
         ChannelDone(h, ch, Side(own, ch), Side(strats, ch), Side(encoded, ch), Side(e, ch))
  }

  // One channel more.
  method EncodeNext(h: Shape, own: seq<seq<seq<int>>>, ch: nat, ss0: seq<seq<Strategy>>, es0: seq<seq<seq<int>>>,
                    bits0: int, ghost gs0: seq<seq<seq<int>>>)
      returns (ss: seq<seq<Strategy>>, es: seq<seq<seq<int>>>, bits: int, ghost gs: seq<seq<seq<int>>>)
    requires ShapeOk(h) && ch < h.all && SidesDone(h, own, ss0, es0, gs0, ch) && bits0 == SideBitsTo(h, ss0, ch)
    ensures SidesDone(h, own, ss, es, gs, ch + 1) && bits == SideBitsTo(h, ss, ch + 1)
  {
    var s, encoded, more;
    ghost var g;
    s, encoded, more, g := EncodeOneChannel(h, ch, Side(own, ch));
    OneMoreSide(h, ss0, s, ch);
    OneMoreDone(h, own, ss0, es0, gs0, ch, s, encoded, g);
    ss, es, bits, gs := ss0 + [s], es0 + [encoded], bits0 + more, gs0 + [g];
  }

  // Strategies and exponents of all channels, and their size as AC3_encode_frame adds it up.
  method EncodeExponents(h: Shape, own: seq<seq<seq<int>>>)
      returns (strats: seq<seq<Strategy>>, encoded: seq<seq<seq<int>>>, exponentBits: int, ghost e: seq<seq<seq<int>>>)
    requires ShapeOk(h) && OwnOk(h, own)
    ensures StrategiesOk(h, strats) && AllDone(h, own, strats, encoded, e)
    ensures exponentBits == ChannelTotal(h, strats, h.all)
  {
    var ss, es: seq<seq<seq<int>>> := [], [];
    ghost var gs: seq<seq<seq<int>>> := [];
    exponentBits := 0;
    for ch := 0 to h.all
      invariant SidesDone(h, own, ss, es, gs, ch) && exponentBits == SideBitsTo(h, ss, ch)
    {
      ss, es, exponentBits, gs := EncodeNext(h, own, ch, ss, es, exponentBits, gs);
    }
    strats, encoded, e := Turned(ss, NB_BLOCKS), Turned(es, NB_BLOCKS), Turned(gs, NB_BLOCKS);
    TurnedDone(h, own, ss, es, gs, strats, encoded, e);
  }

  ghost predicate InBlocks<X>(sides: seq<seq<X>>) { forall ch :: 0 <= ch < |sides| ==> |sides[ch]| == NB_BLOCKS }

  // The first n channels are done.
  ghost predicate SidesDone(h: Shape, own: seq<seq<seq<int>>>, ss: seq<seq<Strategy>>, es: seq<seq<seq<int>>>,
                            gs: seq<seq<seq<int>>>, n: nat)
  {
    && OwnOk(h, own) && |ss| == |es| == |gs| == n <= h.all
    && InBlocks(ss) && InBlocks(es) && InBlocks(gs)
    && forall ch: nat {:trigger ss[ch]} :: ch < n ==> ChannelDone(h, ch, Side(own, ch), ss[ch], es[ch], gs[ch])
  }

  lemma OneMoreDone(h: Shape, own: seq<seq<seq<int>>>, ss: seq<seq<Strategy>>, es: seq<seq<seq<int>>>,
                    gs: seq<seq<seq<int>>>, n: nat, s: seq<Strategy>, encoded: seq<seq<int>>, g: seq<seq<int>>)
    requires SidesDone(h, own, ss, es, gs, n) && n < h.all && ChannelDone(h, n, Side(own, n), s, encoded, g)
    ensures SidesDone(h, own, ss + [s], es + [encoded], gs + [g], n + 1)
  {
    var ss1, es1, gs1 := ss + [s], es + [encoded], gs + [g];
    forall ch: nat | ch < n + 1
      ensures ChannelDone(h, ch, Side(own, ch), ss1[ch], es1[ch], gs1[ch])
    {
      if ch < n {
        assert ss1[ch] == ss[ch] && es1[ch] == es[ch] && gs1[ch] == gs[ch];
      }
    }
  }

  lemma SideOfTurned<X>(sides: seq<seq<X>>, rows: seq<seq<X>>, blocks: nat, ch: nat)
    requires (forall k :: 0 <= k < |sides| ==> |sides[k]| == blocks) && rows == Turned(sides, blocks) && ch < |sides|
    ensures Side(rows, ch) == sides[ch]
  {
  }

  lemma TurnedDone(h: Shape, own: seq<seq<seq<int>>>, ss: seq<seq<Strategy>>, es: seq<seq<seq<int>>>,
                   gs: seq<seq<seq<int>>>, strats: seq<seq<Strategy>>, encoded: seq<seq<seq<int>>>,
                   e: seq<seq<seq<int>>>)
    requires ShapeOk(h) && SidesDone(h, own, ss, es, gs, h.all)
    requires strats == Turned(ss, NB_BLOCKS) && encoded == Turned(es, NB_BLOCKS) && e == Turned(gs, NB_BLOCKS)
    ensures StrategiesOk(h, strats) && AllDone(h, own, strats, encoded, e)
    ensures ChannelTotal(h, strats, h.all) == SideBitsTo(h, ss, h.all)
  {
    forall ch: nat | ch < h.all
      ensures ChannelDone(h, ch, Side(own, ch), Side(strats, ch), Side(encoded, ch), Side(e, ch))
    {
      TurnedChannel(h, own, ss, es, gs, strats, encoded, e, ch);
    }
    TurnedTotal(h, strats, ss);
  }

  lemma TurnedChannel(h: Shape, own: seq<seq<seq<int>>>, ss: seq<seq<Strategy>>, es: seq<seq<seq<int>>>,
                      gs: seq<seq<seq<int>>>, strats: seq<seq<Strategy>>, encoded: seq<seq<seq<int>>>,
                      e: seq<seq<seq<int>>>, ch: nat)
    requires SidesDone(h, own, ss, es, gs, h.all) && ch < h.all
    requires strats == Turned(ss, NB_BLOCKS) && encoded == Turned(es, NB_BLOCKS) && e == Turned(gs, NB_BLOCKS)
    ensures ChannelDone(h, ch, Side(own, ch), Side(strats, ch), Side(encoded, ch), Side(e, ch))
  {
    SideOfTurned(ss, strats, NB_BLOCKS, ch);
    SideOfTurned(es, encoded, NB_BLOCKS, ch);
    SideOfTurned(gs, e, NB_BLOCKS, ch);
    assert ChannelDone(h, ch, Side(own, ch), ss[ch], es[ch], gs[ch]);
  }

  lemma TurnedTotal(h: Shape, strats: seq<seq<Strategy>>, ss: seq<seq<Strategy>>)
    requires |ss| == h.all && InBlocks(ss) && strats == Turned(ss, NB_BLOCKS) && StrategiesOk(h, strats)
    ensures ChannelTotal(h, strats, h.all) == SideBitsTo(h, ss, h.all)
  {
    forall ch: nat | ch < h.all
      ensures Side(strats, ch) == ss[ch]
    {
      SideOfTurned(ss, strats, NB_BLOCKS, ch);
    }
    SidesAreColumns(h, strats, ss, h.all);
  }

  function SideBitsTo(h: Shape, sides: seq<seq<Strategy>>, n: nat): int
    requires n <= |sides| && forall ch :: 0 <= ch < n ==> |sides[ch]| == NB_BLOCKS
  {
    if n == 0 then 0 else SideBitsTo(h, sides, n - 1) + ChannelBits(sides[n - 1], Bins(h, n - 1), NB_BLOCKS)
  }

  lemma {:induction false} OneMoreSide(h: Shape, sides: seq<seq<Strategy>>, s: seq<Strategy>, n: nat)
    requires n <= |sides| && |s| == NB_BLOCKS && forall ch :: 0 <= ch < |sides| ==> |sides[ch]| == NB_BLOCKS
    ensures SideBitsTo(h, sides + [s], n) == SideBitsTo(h, sides, n)
  {
    if n > 0 {
      OneMoreSide(h, sides, s, n - 1);
    }
  }

  lemma {:induction false} SidesAreColumns(h: Shape, strats: seq<seq<Strategy>>, sides: seq<seq<Strategy>>, n: nat)
    requires StrategiesOk(h, strats) && n <= h.all == |sides|
    requires forall ch: nat {:trigger sides[ch]} :: ch < h.all ==>
               |sides[ch]| == NB_BLOCKS && Side(strats, ch) == sides[ch]
    ensures ChannelTotal(h, strats, n) == SideBitsTo(h, sides, n)
  {
    if n > 0 {
      SidesAreColumns(h, strats, sides, n - 1);
      assert Column(h, strats, n - 1) == Side(strats, n - 1) == sides[n - 1];
    }
  }

  // ---- into the rest of the encoder ----

  // Coefficients of all blocks with their exponents and shifts.
  ghost predicate AllMeasured(h: Shape, own: seq<seq<seq<int>>>, coefs: seq<seq<seq<int>>>, shifts: seq<seq<int>>) {
    && |own| == |coefs| == |shifts| == NB_BLOCKS
    && (forall i :: 0 <= i < NB_BLOCKS ==> |own[i]| == |coefs[i]| == |shifts[i]| == h.all)
    && forall i, ch {:trigger coefs[i][ch]} :: 0 <= i < NB_BLOCKS && 0 <= ch < h.all ==>
      Measured(coefs[i][ch], own[i][ch], shifts[i][ch])
  }

  // What the quantisers shift by is not negative.
  predicate ShiftsFit(h: Shape, encoded: seq<seq<seq<int>>>, shifts: seq<seq<int>>)
    requires |encoded| == |shifts| == NB_BLOCKS
    requires forall i :: 0 <= i < NB_BLOCKS ==> |encoded[i]| == |shifts[i]| == h.all
    requires forall i, ch :: 0 <= i < NB_BLOCKS && 0 <= ch < h.all ==> |encoded[i][ch]| == 256
  {
    forall i, ch, k :: 0 <= i < NB_BLOCKS && 0 <= ch < h.all && 0 <= k < Bins(h, ch) && k < 256 ==>
      shifts[i][ch] <= encoded[i][ch][k]
  }

  // Channel ch of block i, out of the rows of that channel.
  ghost predicate OneOk(h: Shape, ch: nat, s: seq<Strategy>, encoded: seq<seq<int>>, e: seq<seq<int>>, i: nat,
                        coefs: seq<int>, shift: int)
    requires |s| == |encoded| == |e| == NB_BLOCKS && i < NB_BLOCKS && |coefs| == 256
  {
    var n := Bins(h, ch);
    && |encoded[i]| == 256 && InRange(encoded[i][..n]) && (ch >= h.full ==> s[i] == Reuse || s[i] == D15)
    && (if s[i] == Reuse then i > 0 && |encoded[i - 1]| == 256 && encoded[i][..n] == encoded[i - 1][..n]
        else Sent(encoded[i], e[i], s[i], n))
    && (forall k :: 0 <= k < n ==> E.InQuantiserRange(coefs[k], encoded[i][k] - shift))
  }

  lemma OneChannelOk(h: Shape, ch: nat, own: seq<seq<int>>, s: seq<Strategy>, encoded: seq<seq<int>>, e: seq<seq<int>>,
                     i: nat, coefs: seq<int>, shift: int)
    requires ShapeOk(h) && ch < h.all && i < NB_BLOCKS && ChannelDone(h, ch, own, s, encoded, e)
    requires Measured(coefs, own[i], shift)
    requires forall k :: 0 <= k < Bins(h, ch) ==> shift <= encoded[i][k]
    ensures OneOk(h, ch, s, encoded, e, i, coefs, shift)
  {
    DoneAt(h, ch, own, s, encoded, e, i);
    ServedInRange(encoded[i], own[i], coefs, shift, Bins(h, ch));
    OneOkFrom(h, ch, s, encoded, e, i, coefs, shift, Bins(h, ch));
  }

  lemma OneOkFrom(h: Shape, ch: nat, s: seq<Strategy>, encoded: seq<seq<int>>, e: seq<seq<int>>, i: nat,
                  coefs: seq<int>, shift: int, n: nat)
    requires |s| == |encoded| == |e| == NB_BLOCKS && i < NB_BLOCKS && |coefs| == 256 && n == Bins(h, ch) <= 256
    requires |encoded[i]| == 256 && InRange(encoded[i][..n]) && (ch >= h.full ==> s[i] == Reuse || s[i] == D15)
    requires s[i] == Reuse ==> i > 0 && |encoded[i - 1]| == 256 && encoded[i][..n] == encoded[i - 1][..n]
    requires s[i] != Reuse ==> Sent(encoded[i], e[i], s[i], n)
    requires forall k :: 0 <= k < n ==> E.InQuantiserRange(coefs[k], encoded[i][k] - shift)
    ensures OneOk(h, ch, s, encoded, e, i, coefs, shift)
  {
  }

  // What is done of a channel, in one block.
  lemma DoneAt(h: Shape, ch: nat, own: seq<seq<int>>, s: seq<Strategy>, encoded: seq<seq<int>>, e: seq<seq<int>>,
               i: nat)
    requires ShapeOk(h) && ch < h.all && i < NB_BLOCKS && ChannelDone(h, ch, own, s, encoded, e)
    ensures var n := Bins(h, ch);
      && 1 <= n <= 253 && |own| == NB_BLOCKS && |encoded[i]| == 256 && |own[i]| == 256 && Serves(encoded[i], own[i], n)
      && (s[i] == Reuse ==> i > 0 && |encoded[i - 1]| == 256 && encoded[i][..n] == encoded[i - 1][..n])
      && (s[i] != Reuse ==> Sent(encoded[i], e[i], s[i], n))
    ensures ch >= h.full ==> s[i] == Reuse || s[i] == D15
  {
    EncodedAt(encoded, s, Bins(h, ch), e, own, i);
    ChosenForLfe(own, h.lfe && ch == h.full, s, i);
  }

  lemma EncodedAt(encoded: seq<seq<int>>, s: seq<Strategy>, n: nat, e: seq<seq<int>>, own: seq<seq<int>>, i: nat)
    requires ChannelEncoded(encoded, s, n, e, own, NB_BLOCKS) && i < NB_BLOCKS
    ensures |encoded[i]| == 256 && Serves(encoded[i], own[i], n)
    ensures s[i] == Reuse ==> i > 0 && |encoded[i - 1]| == 256 && encoded[i][..n] == encoded[i - 1][..n]
    ensures s[i] != Reuse ==> Sent(encoded[i], e[i], s[i], n)
  {
  }

  lemma ChosenForLfe(own: seq<seq<int>>, isLfe: bool, s: seq<Strategy>, i: nat)
    requires Chosen(own, isLfe, s) && i < NB_BLOCKS
    ensures |own[i]| == 256 && (isLfe ==> s[i] == Reuse || s[i] == D15)
  {
  }

  lemma ServedInRange(encoded: seq<int>, own: seq<int>, coefs: seq<int>, shift: int, n: nat)
    requires Serves(encoded, own, n) && Measured(coefs, own, shift) && n <= 256
    requires forall k :: 0 <= k < n ==> shift <= encoded[k]
    ensures InRange(encoded[..n]) && forall k :: 0 <= k < n ==> E.InQuantiserRange(coefs[k], encoded[k] - shift)
  {
    forall k | 0 <= k < n
      ensures E.InQuantiserRange(coefs[k], encoded[k] - shift)
    {
      WithinRange(coefs[k], own[k], encoded[k], shift);
    }
  }

  lemma ChannelOkFrom(h: Shape, f: E.FrameInput, e: seq<seq<seq<int>>>, i: nat, ch: nat, s: seq<Strategy>,
                      encoded: seq<seq<int>>, g: seq<seq<int>>)
    requires StrategiesOk(h, f.strats) && |f.encoded| == |f.coefs| == |f.shifts| == |e| == NB_BLOCKS && i < NB_BLOCKS
    requires ch < h.all
    requires |f.encoded[i]| == |f.coefs[i]| == |f.shifts[i]| == |e[i]| == h.all
    requires (i > 0 ==> |f.encoded[i - 1]| == h.all)
    requires |s| == |encoded| == |g| == NB_BLOCKS && s[i] == f.strats[i][ch] && g[i] == e[i][ch]
    requires encoded[i] == f.encoded[i][ch]
    requires i > 0 ==> encoded[i - 1] == f.encoded[i - 1][ch]
    requires |f.coefs[i][ch]| == 256 && OneOk(h, ch, s, encoded, g, i, f.coefs[i][ch], f.shifts[i][ch])
    ensures E.ChannelOk(h, f, e, i, ch) && (ch >= h.full ==> f.strats[i][ch] == Reuse || f.strats[i][ch] == D15)
  {
  }

  lemma EncodedLengths(h: Shape, own: seq<seq<seq<int>>>, strats: seq<seq<Strategy>>, encoded: seq<seq<seq<int>>>,
                       e: seq<seq<seq<int>>>)
    requires AllDone(h, own, strats, encoded, e)
    ensures forall i, ch :: 0 <= i < NB_BLOCKS && 0 <= ch < h.all ==> |encoded[i][ch]| == 256
  {
    forall i, ch | 0 <= i < NB_BLOCKS && 0 <= ch < h.all
      ensures |encoded[i][ch]| == 256
    {
      assert ChannelDone(h, ch, Side(own, ch), Side(strats, ch), Side(encoded, ch), Side(e, ch));
      assert |Side(encoded, ch)[i]| == 256;
    }
  }

  // What the exponents' encoding leaves is what the rest of the encoder asks for. Only that no
  // exponent lies below its block's shift is left to check.
  lemma InputFromExponents(h: Shape, own: seq<seq<seq<int>>>, f: E.FrameInput, e: seq<seq<seq<int>>>)
    requires StrategiesOk(h, f.strats) && AllDone(h, own, f.strats, f.encoded, e)
    requires AllMeasured(h, own, f.coefs, f.shifts)
    requires forall i, ch :: 0 <= i < NB_BLOCKS && 0 <= ch < h.all ==> |f.encoded[i][ch]| == 256
    requires ShiftsFit(h, f.encoded, f.shifts)
    ensures E.FrameInputOk(h, f, e)
  {
    forall i, ch | 0 <= i < NB_BLOCKS && 0 <= ch < h.all
      ensures E.ChannelOk(h, f, e, i, ch) && (ch >= h.full ==> f.strats[i][ch] == Reuse || f.strats[i][ch] == D15)
    {
      var own1, s, enc, g := Side(own, ch), Side(f.strats, ch), Side(f.encoded, ch), Side(e, ch);
      assert ChannelDone(h, ch, own1, s, enc, g);
      assert Measured(f.coefs[i][ch], own1[i], f.shifts[i][ch]);
      OneChannelOk(h, ch, own1, s, enc, g, i, f.coefs[i][ch], f.shifts[i][ch]);
      ChannelOkFrom(h, f, e, i, ch, s, enc, g);
    }
  }

  // Whatever the encoding makes of them, these exponents leave no shift negative.
  ghost predicate ShiftsAllowed(h: Shape, own: seq<seq<seq<int>>>, shifts: seq<seq<int>>)
    requires OwnOk(h, own) && |shifts| == NB_BLOCKS && forall i :: 0 <= i < NB_BLOCKS ==> |shifts[i]| == h.all
  {
    forall i: nat, ch: nat {:trigger shifts[i][ch]} :: i < NB_BLOCKS && ch < h.all ==>
      AllowedAt(h, own, i, ch, shifts[i][ch])
  }

  ghost predicate AllowedAt(h: Shape, own: seq<seq<seq<int>>>, i: nat, ch: nat, shift: int)
    requires OwnOk(h, own) && i < NB_BLOCKS && ch < h.all
  {
    BlockAllows(Side(own, ch), h.lfe && ch == h.full, Bins(h, ch), i, shift)
  }

  // Before anything is encoded it is known whether an exponent will lie below its block's shift.
  lemma ShiftsFitIff(h: Shape, own: seq<seq<seq<int>>>, strats: seq<seq<Strategy>>, encoded: seq<seq<seq<int>>>,
                     e: seq<seq<seq<int>>>, shifts: seq<seq<int>>)
    requires ShapeOk(h) && AllDone(h, own, strats, encoded, e) && |shifts| == NB_BLOCKS
    requires forall i :: 0 <= i < NB_BLOCKS ==> |shifts[i]| == h.all
    requires forall i, ch :: 0 <= i < NB_BLOCKS && 0 <= ch < h.all ==> |encoded[i][ch]| == 256
    ensures ShiftsFit(h, encoded, shifts) <==> ShiftsAllowed(h, own, shifts)
  {
    forall i: nat, ch: nat | i < NB_BLOCKS && ch < h.all
      ensures BlockFits(encoded[i][ch], Bins(h, ch), shifts[i][ch]) <==> AllowedAt(h, own, i, ch, shifts[i][ch])
    {
      OneBlockFitsIff(h, own, strats, encoded, e, i, ch, shifts[i][ch]);
    }
    FitsByBlock(h, encoded, shifts);
  }

  lemma OneBlockFitsIff(h: Shape, own: seq<seq<seq<int>>>, strats: seq<seq<Strategy>>, encoded: seq<seq<seq<int>>>,
                        e: seq<seq<seq<int>>>, i: nat, ch: nat, shift: int)
    requires ShapeOk(h) && AllDone(h, own, strats, encoded, e) && i < NB_BLOCKS && ch < h.all && |encoded[i][ch]| == 256
    ensures BlockFits(encoded[i][ch], Bins(h, ch), shift) <==> AllowedAt(h, own, i, ch, shift)
  {
    var own1, enc := Side(own, ch), Side(encoded, ch);
    ChannelFitsIff(h, ch, own1, Side(strats, ch), enc, Side(e, ch), i, shift);
    assert enc[i] == encoded[i][ch];
  }

  lemma BinsCovered(h: Shape, ch: nat)
    ensures 1 <= Bins(h, ch) <= 253 && Bins(h, ch) % 3 == 1
  {
  }

  lemma ChannelFitsIff(h: Shape, ch: nat, own: seq<seq<int>>, s: seq<Strategy>, encoded: seq<seq<int>>,
                       e: seq<seq<int>>, i: nat, shift: int)
    requires ShapeOk(h) && ch < h.all && i < NB_BLOCKS && ChannelDone(h, ch, own, s, encoded, e)
    ensures |own| == |encoded| == NB_BLOCKS && (forall k :: 0 <= k < NB_BLOCKS ==> |own[k]| == 256)
    ensures |encoded[i]| == 256
    ensures BlockFits(encoded[i], Bins(h, ch), shift) <==>
              BlockAllows(own, h.lfe && ch == h.full, Bins(h, ch), i, shift)
  {
    DoneAt(h, ch, own, s, encoded, e, i);
    BinsCovered(h, ch);
    BlockFitsIff(own, h.lfe && ch == h.full, s, encoded, e, Bins(h, ch), i, shift);
  }

  lemma FitsByBlock(h: Shape, encoded: seq<seq<seq<int>>>, shifts: seq<seq<int>>)
    requires |encoded| == |shifts| == NB_BLOCKS
    requires forall i :: 0 <= i < NB_BLOCKS ==> |encoded[i]| == |shifts[i]| == h.all
    requires forall i, ch :: 0 <= i < NB_BLOCKS && 0 <= ch < h.all ==> |encoded[i][ch]| == 256
    ensures ShiftsFit(h, encoded, shifts) <==>
      forall i: nat, ch: nat {:trigger shifts[i][ch]} :: i < NB_BLOCKS && ch < h.all ==>
        BlockFits(encoded[i][ch], Bins(h, ch), shifts[i][ch])
  {
  }

  // A mono frame whose first block is loud and whose others, quieter, were shifted up by five: the
  // exponents are those of the coefficients, and the encoder comes to a negative shift.
  lemma LoudThenQuiet(h: Shape, own: seq<seq<seq<int>>>, coefs: seq<seq<seq<int>>>, shifts: seq<seq<int>>)
    requires h == Shape(1, 1, 1, false)
    requires own == seq(NB_BLOCKS, i => [seq(256, _ => if i == 0 then 4 else 5)])
    requires coefs == seq(NB_BLOCKS, i => [seq(256, _ => if i == 0 then 524288 else 8388608)])
    requires shifts == seq(NB_BLOCKS, i => [if i == 0 then 0 else 5])
    ensures OwnOk(h, own) && AllMeasured(h, own, coefs, shifts) && !ShiftsAllowed(h, own, shifts)
  {
    LoudAndQuiet();
    forall i | 0 <= i < NB_BLOCKS
      ensures Measured(coefs[i][0], own[i][0], shifts[i][0])
    {
    }
    assert OwnOk(h, own);
    QuietAfterLoud(Side(own, 0), false, Bins(h, 0));
    assert shifts[1][0] == 5;
  }

  lemma LoudAndQuiet()
    ensures Raw(524288, 0) == 4 && Raw(8388608, 5) == 5
  {
    assert Pow2(5) == 32 && Pow2(6) == 64;
    Pow2Add(6, 6);
    Pow2Add(12, 6);
    Pow2Add(18, 5);
    LogOfPower(524288, 19);
    LogOfPower(8388608, 23);
  }

  lemma {:induction false} LogOfPower(v: nat, n: nat)
    requires v == Pow2(n)
    ensures Log2(v) == n
  {
    if n > 0 {
      LogOfPower(v / 2, n - 1);
    }
  }

  // All that is done before the frame is sized, and whether the rest can go on from it.
  method PrepareFrame(h: Shape, own: seq<seq<seq<int>>>, coefs: seq<seq<seq<int>>>, shifts: seq<seq<int>>)
      returns (f: E.FrameInput, exponentBits: int, fits: bool, ghost e: seq<seq<seq<int>>>)
    requires ShapeOk(h) && OwnOk(h, own) && AllMeasured(h, own, coefs, shifts)
    ensures AllDone(h, own, f.strats, f.encoded, e) && f.coefs == coefs && f.shifts == shifts
    ensures StrategiesOk(h, f.strats) && exponentBits == ChannelTotal(h, f.strats, h.all)
    ensures (fits <==> ShiftsAllowed(h, own, shifts)) && (fits <==> E.FrameInputOk(h, f, e))
  {
    var strats, encoded;
    strats, encoded, exponentBits, e := EncodeExponents(h, own);
    EncodedLengths(h, own, strats, encoded, e);
    f := E.FrameInput(strats, encoded, coefs, shifts);
    fits := ShiftsFit(h, encoded, shifts);
    ShiftsFitIff(h, own, strats, encoded, e, shifts);
    ShiftsNeeded(h, f, e);
    if fits {
      InputFromExponents(h, own, f, e);
    }
  }

  // AC3_encode_frame from the transformed coefficients on. Where an exponent lies below its
  // block's shift the source shifts by a negative count; -2 stands for that.
  method EncodeCoefficients(c: Config, sizer: R.FrameSizer, alloc: A.BitAllocator, t: T.Tables, own: seq<seq<seq<int>>>,
                            coefs: seq<seq<seq<int>>>, shifts: seq<seq<int>>, frame: array<int>)
      returns (result: int, bytes: nat, f: E.FrameInput, baps: seq<seq<seq<int>>>, o: Offsets,
               ghost e: seq<seq<seq<int>>>, ghost exponentBits: int, ghost p: A.Problem, ghost b: seq<BlockData>,
               ghost q: seq<Quantised>, ghost crc1: int, ghost fill: seq<bool>)
    requires Accepted(c) && T.Sound(t) && sizer.Valid() && sizer.r == R.RatesOf(c) && alloc.Valid()
    requires alloc.channels == c.nbAll
    requires OwnOk(ShapeOf(c), own) && AllMeasured(ShapeOf(c), own, coefs, shifts) && frame.Length == 3840
    modifies sizer, alloc, frame
    ensures sizer.Valid() && alloc.Valid()
    ensures AllDone(ShapeOf(c), own, f.strats, f.encoded, e) && f.coefs == coefs && f.shifts == shifts
    ensures StrategiesOk(ShapeOf(c), f.strats) && exponentBits == ChannelTotal(ShapeOf(c), f.strats, c.nbAll)
    ensures result == 0 || result == -1 || result == -2
    ensures result == -2 <==> !ShiftsAllowed(ShapeOf(c), own, shifts)
    ensures result == -2 <==> !E.FrameInputOk(ShapeOf(c), f, e)
    ensures result != -2 ==> A.ProblemOk(p) && E.IsProblem(p, c, t, f, sizer.frameSize, exponentBits)
    ensures result != -2 ==> (result == -1 <==> A.NoneFits(p, old(alloc.csnroffst)))
    ensures result != -2 ==> sizer.frames == old(sizer.frames) + 1
    ensures E.Offered(result, o, c.nbAll, alloc.csnroffst, alloc.fsnroffst, old(alloc.csnroffst), old(alloc.fsnroffst))
    ensures result == 0 ==> A.Fitting(p, o.csnroffst, o.fsnroffst, baps) && A.Finest(p, o.csnroffst, o.fsnroffst)
    ensures result == 0 ==>
      bytes <= 3840 && E.IsFrameOf(frame[..bytes], c, sizer.frameSize, o, f, e, baps, b, q, crc1, fill)
    ensures result == 0 ==> D.DecodesTo(frame[..bytes], ShapeOf(c), t, o, f, baps, q)
    ensures result == 0 ==> D.Heard(frame[..bytes], t, f)
  {
    ShapeOfAccepted(c);
    var fits, bits;
    f, bits, fits, e := PrepareFrame(ShapeOf(c), own, coefs, shifts);
    exponentBits := bits;
    if fits {
      result, bytes, baps, o, p, b, q, crc1, fill := E.EncodeFrame(c, sizer, alloc, t, f, bits, frame, e);
      if result == 0 {
        FrameDecodes(frame[..bytes], c, t, f, e, p, sizer.frameSize, bits, o, baps, b, q, crc1, fill);
      }
    } else {
      result, bytes, baps, o := -2, 0, [], Offsets(0, 0);
      p, b, q, crc1, fill := A.Problem(t, [], 0, 0, 0), [], [], 0, [];
    }
  }

  // Decoding gives the encoder's input back, and with it something near the coefficients.
  lemma FrameDecodes(bytes: seq<int>, c: Config, t: T.Tables, f: E.FrameInput, e: seq<seq<seq<int>>>, p: A.Problem,
                     frameSize: int, exponentBits: int, o: Offsets, baps: seq<seq<seq<int>>>, b: seq<BlockData>,
                     q: seq<Quantised>, crc1: int, fill: seq<bool>)
    requires Accepted(c) && T.Sound(t) && E.FrameInputOk(ShapeOf(c), f, e)
    requires E.IsProblem(p, c, t, f, frameSize, exponentBits)
    requires A.Fitting(p, o.csnroffst, o.fsnroffst, baps)
    requires E.IsFrameOf(bytes, c, frameSize, o, f, e, baps, b, q, crc1, fill)
    ensures D.DecodesTo(bytes, ShapeOf(c), t, o, f, baps, q) && D.Heard(bytes, t, f)
  {
    ShapeOfAccepted(c);
    D.DecodeFrameIsInverse(bytes, c, t, f, e, p, frameSize, exponentBits, o, baps, b, q, crc1, fill);
    D.DecodedIsNear(bytes, c, t, frameSize, o, f, e, baps, b, q, crc1, fill);
  }

  lemma ShiftsNeeded(h: Shape, f: E.FrameInput, e: seq<seq<seq<int>>>)
    requires |f.encoded| == |f.shifts| == NB_BLOCKS
    requires forall i :: 0 <= i < NB_BLOCKS ==> |f.encoded[i]| == |f.shifts[i]| == h.all
    requires forall i, ch :: 0 <= i < NB_BLOCKS && 0 <= ch < h.all ==> |f.encoded[i][ch]| == 256
    ensures E.FrameInputOk(h, f, e) ==> ShiftsFit(h, f.encoded, f.shifts)
  {
    if E.FrameInputOk(h, f, e) {
      forall i, ch, k | 0 <= i < NB_BLOCKS && 0 <= ch < h.all && 0 <= k < Bins(h, ch) && k < 256
        ensures f.shifts[i][ch] <= f.encoded[i][ch][k]
      {
        assert E.ChannelOk(h, f, e, i, ch);
        assert E.InQuantiserRange(f.coefs[i][ch][k], f.encoded[i][ch][k] - f.shifts[i][ch]);
      }
    }
  }
}
