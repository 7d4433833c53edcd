// The frame header of AC-3: how the encoder writes it and how ff_ac3_parse_header reads it.
module Ac3Header {
  import opened Sums
  import opened Bits
  import opened Ac3Config

  const SYNC_WORD: int := 0x0B77

  function Bit(b: bool): int { if b then 1 else 0 }

  // acmod says a centre channel, surround channels, or plain stereo.
  function HasCentre(acmod: int): bool { acmod % 2 == 1 && acmod != 1 }

  function HasSurround(acmod: int): bool { acmod / 4 % 2 == 1 }

  function Optional(there: bool, f: Field): seq<Field> { if there then [f] else [] }

  function MixLevels(acmod: int): seq<Field> {
    Optional(HasCentre(acmod), Field(2, 1)) + Optional(HasSurround(acmod), Field(2, 1))
    + Optional(acmod == 2, Field(2, 0))
  }

  function FirstFields(c: Config, frameSize: int, crc1: int): seq<Field> {
    [Field(16, SYNC_WORD), Field(16, crc1), Field(2, c.fscod), Field(6, c.frmsizecod + (frameSize - c.frameSizeMin)),
     Field(5, c.bsid), Field(3, 0), Field(3, c.acmod)]
  }

  // Low frequency channel and dialogue level; then flags, of which only "original" is set.
  function LastFields(lfe: bool): seq<Field> { [Field(1, Bit(lfe)), Field(5, 31)] + Absent() }

  function Absent(): seq<Field> {
    [Field(1, 0), Field(1, 0), Field(1, 0), Field(1, 0), Field(1, 1), Field(1, 0), Field(1, 0), Field(1, 0)]
  }

  // Sections 5.3.1 and 5.3.2 of ATSC A/52.
  function HeaderFields(c: Config, frameSize: int, crc1: int): seq<Field> {
    FirstFields(c, frameSize, crc1) + MixLevels(c.acmod) + LastFields(c.lfe)
  }

  // What compute_bit_allocation reckons for the mix levels.
  function FrameBitsInc(acmod: int): int { if acmod <= 1 then 0 else if acmod == 5 || acmod == 7 then 4 else 2 }

  lemma HeaderWidth(c: Config, frameSize: int, crc1: int)
    requires 1 <= c.acmod <= 7
    ensures Width(HeaderFields(c, frameSize, crc1)) == 65 + FrameBitsInc(c.acmod)
  {
    var a, m, z := FirstFields(c, frameSize, crc1), MixLevels(c.acmod), LastFields(c.lfe);
    EncodedConcat(a + m, z);
    EncodedConcat(a, m);
    FirstWidth(a);
    LastWidth(z);
    MixWidth(c.acmod);
  }

  lemma MixWidth(acmod: int)
    requires 1 <= acmod <= 7
    ensures Width(MixLevels(acmod)) == FrameBitsInc(acmod)
  {
    WidthOfOne(Field(2, 1));
    WidthOfOne(Field(2, 0));
    EncodedConcat([Field(2, 1)], [Field(2, 1)]);
    var m := MixLevels(acmod);
    if acmod == 1 { assert m == []; }
    else if acmod == 2 { assert m == [Field(2, 0)]; }
    else if acmod == 5 || acmod == 7 { assert m == [Field(2, 1)] + [Field(2, 1)]; }
    else { assert m == [Field(2, 1)]; }
  }

  lemma WidthOfOne(f: Field)
    ensures Width([f]) == f.width
  {
    EncodedOne(f);
  }

  lemma WidthOfNext(fields: seq<Field>, k: nat)
    requires k < |fields|
    ensures Width(fields[..k + 1]) == Width(fields[..k]) + fields[k].width
  {
    EncodedLast(fields, k);
  }

  lemma FirstWidth(a: seq<Field>)
    requires |a| == 7 && a[0].width == a[1].width == 16 && a[2].width == 2 && a[3].width == 6 && a[4].width == 5
    requires a[5].width == a[6].width == 3
    ensures Width(a[..0]) == 0 && Width(a[..1]) == 16 && Width(a[..2]) == 32 && Width(a[..3]) == 34
    ensures Width(a[..4]) == 40
    ensures Width(a[..5]) == 45 && Width(a[..6]) == 48 && Width(a) == 51
  {
    assert a[..7] == a;
    WidthOfNext(a, 0);
    WidthOfNext(a, 1);
    WidthOfNext(a, 2);
    WidthOfNext(a, 3);
    WidthOfNext(a, 4);
    WidthOfNext(a, 5);
    WidthOfNext(a, 6);
  }

  lemma LastWidth(z: seq<Field>)
    requires |z| == 10 && z[1].width == 5 && forall k :: 0 <= k < 10 && k != 1 ==> z[k].width == 1
    ensures Width(z) == 14 && Width(z[..1]) == 1
    ensures forall k :: 2 <= k < 10 ==> Width(z[..k]) == 4 + k
  {
    assert z[..10] == z;
    WidthOfNext(z, 0);
    WidthOfNext(z, 1);
    WidthOfNext(z, 2);
    WidthOfNext(z, 3);
    WidthOfNext(z, 4);
    WidthOfNext(z, 5);
    WidthOfNext(z, 6);
    WidthOfNext(z, 7);
    WidthOfNext(z, 8);
    WidthOfNext(z, 9);
  }

  method PutOptional(pb: BitWriter, there: bool, n: nat, v: int)
    modifies pb
    ensures pb.bits == old(pb.bits) + Encoded(Optional(there, Field(n, v)))
  {
    if there {
      pb.PutBits(n, v);
      EncodedOne(Field(n, v));
    } else {
      assert Encoded(Optional(there, Field(n, v))) == [];
    }
  }

  method OutputMixLevels(pb: BitWriter, acmod: int)
    modifies pb
    ensures pb.bits == old(pb.bits) + Encoded(MixLevels(acmod))
  {
    ghost var before := pb.bits;
    ghost var a, b := Optional(HasCentre(acmod), Field(2, 1)), Optional(HasSurround(acmod), Field(2, 1));
    ghost var c := Optional(acmod == 2, Field(2, 0));
    PutOptional(pb, HasCentre(acmod), 2, 1);
    PutOptional(pb, HasSurround(acmod), 2, 1);
    Appended(before, a, b);
    PutOptional(pb, acmod == 2, 2, 0);
    Appended(before, a + b, c);
  }

  // output_frame_header; crc1 is filled in later.
  method OutputFrameHeader(pb: BitWriter, c: Config, frameSize: int)
    modifies pb
    ensures pb.bits == old(pb.bits) + Encoded(HeaderFields(c, frameSize, 0))
  {
    ghost var before, first := pb.bits, FirstFields(c, frameSize, 0);
    OutputHeaderStart(pb, c, frameSize);
    OutputMixLevels(pb, c.acmod);
    Appended(before, first, MixLevels(c.acmod));
    OutputHeaderEnd(pb, c.lfe);
    Appended(before, first + MixLevels(c.acmod), LastFields(c.lfe));
  }

  method OutputHeaderStart(pb: BitWriter, c: Config, frameSize: int)
    modifies pb
    ensures pb.bits == old(pb.bits) + Encoded(FirstFields(c, frameSize, 0))
  {
    ghost var before, f := pb.bits, FirstFields(c, frameSize, 0);
    NothingYet(before, f);
    PutField(pb, 16, SYNC_WORD, before, f, 0);
    PutField(pb, 16, 0, before, f, 1);
    PutField(pb, 2, c.fscod, before, f, 2);
    PutField(pb, 6, c.frmsizecod + (frameSize - c.frameSizeMin), before, f, 3);
    PutField(pb, 5, c.bsid, before, f, 4);
    PutField(pb, 3, 0, before, f, 5);
    PutField(pb, 3, c.acmod, before, f, 6);
    assert f[..7] == f;
  }

  method OutputHeaderEnd(pb: BitWriter, lfe: bool)
    modifies pb
    ensures pb.bits == old(pb.bits) + Encoded(LastFields(lfe))
  {
    ghost var before, f := pb.bits, [Field(1, Bit(lfe)), Field(5, 31)];
    NothingYet(before, f);
    PutField(pb, 1, Bit(lfe), before, f, 0);
    PutField(pb, 5, 31, before, f, 1);
    assert f[..2] == f;
    OutputAbsent(pb);
    Appended(before, f, Absent());
  }

  method OutputAbsent(pb: BitWriter)
    modifies pb
    ensures pb.bits == old(pb.bits) + Encoded(Absent())
  {
    ghost var before, f := pb.bits, Absent();
    NothingYet(before, f);
    PutField(pb, 1, 0, before, f, 0);
    PutField(pb, 1, 0, before, f, 1);
    PutField(pb, 1, 0, before, f, 2);
    PutField(pb, 1, 0, before, f, 3);
    PutField(pb, 1, 1, before, f, 4);
    PutField(pb, 1, 0, before, f, 5);
    PutField(pb, 1, 0, before, f, 6);
    PutField(pb, 1, 0, before, f, 7);
    assert f[..8] == f;
  }

  // ---- parsing ----

  // AC3HeaderInfo: what was coded, and what follows from it.
  datatype Coded = Coded(syncWord: int, crc1: int, fscod: int, frmsizecod: int, bsid: int, bsmod: int, acmod: int,
                         cmixlev: int, surmixlev: int, dsurmod: int, lfeon: int)
  datatype Derived = Derived(halfratecod: int, sampleRate: int, bitRate: int, channels: int, frameSize: int)
  datatype HeaderInfo = HeaderInfo(coded: Coded, derived: Derived)

  // Full bandwidth channels of an audio coding mode.
  function ChannelsOf(acmod: int): int {
    match acmod
    case 0 => 2
    case 1 => 1
    case 2 => 2
    case 3 => 3
    case 4 => 3
    case 5 => 4
    case 6 => 4
    case _ => 5
  }

  function Max(a: int, b: int): int { if a > b then a else b }

  // Where the bit for the low frequency channel is.
  function LfePlace(acmod: int): int {
    51 + (if HasCentre(acmod) then 2 else 0) + (if HasSurround(acmod) then 2 else 0) + if acmod == 2 then 2 else 0
  }

  // The coded elements are what the bits say.
  ghost predicate Reads(bits: seq<bool>, h: Coded) {
    && h.syncWord == Get(bits, 0, 16) && h.crc1 == Get(bits, 16, 16)
    && h.fscod == Get(bits, 32, 2) && h.frmsizecod == Get(bits, 34, 6) && h.bsid == Get(bits, 16, 29) % 32
    && h.bsmod == Get(bits, 45, 3) && h.acmod == Get(bits, 48, 3)
    && h.cmixlev == (if HasCentre(h.acmod) then Get(bits, 51, 2) else 0)
    && h.surmixlev == (if HasSurround(h.acmod) then Get(bits, if HasCentre(h.acmod) then 53 else 51, 2) else 0)
    && h.dsurmod == (if h.acmod == 2 then Get(bits, 51, 2) else 0)
    && h.lfeon == Get(bits, LfePlace(h.acmod), 1)
  }

  function Derive(h: Coded): Derived {
    var half := Max(h.bsid, 8) - 8;
    Derived(half, Halved(Frequency(h.fscod), half), Halved(1000 * BitRate(h.frmsizecod / 2), half),
            ChannelsOf(h.acmod) + h.lfeon, 2 * FrameWords(h.frmsizecod, h.fscod))
  }

  function Outcome(bits: seq<bool>): int {
    if Get(bits, 0, 16) != SYNC_WORD then -1
    else if Get(bits, 16, 29) % 32 > 10 then -2
    else if Get(bits, 32, 2) == 3 then -3
    else if Get(bits, 34, 6) > 37 then -4
    else 0
  }

  // ff_ac3_parse_header: -1 no sync word, -2 not this syntax, -3 bad sampling rate, -4 bad frame
  // size code, 0 accepted.
  method ParseHeader(bits: seq<bool>) returns (err: int, hdr: HeaderInfo)
    ensures err == Outcome(bits)
    ensures err == 0 ==> Reads(bits, hdr.coded) && hdr.derived == Derive(hdr.coded)
    ensures err == -2 ==> hdr.coded.bsid == Get(bits, 16, 29) % 32
  {
    var gbc := new BitReader(bits);
    var h;
    err, h := ParseStart(gbc);
    hdr := HeaderInfo(h, Derived(0, 0, 0, 0, 0));
    if err == 0 {
      h := ParseRest(gbc, h);
      hdr := HeaderInfo(h, Derive(h));
    }
  }

  // As far as the frame size code.
  method ParseStart(gbc: BitReader) returns (err: int, h: Coded)
    requires gbc.pos == 0
    modifies gbc
    ensures err == Outcome(gbc.bits)
    ensures err == 0 ==> gbc.pos == 40 && h.syncWord == Get(gbc.bits, 0, 16) && h.crc1 == Get(gbc.bits, 16, 16)
    ensures err == 0 ==> h.fscod == Get(gbc.bits, 32, 2) && h.frmsizecod == Get(gbc.bits, 34, 6)
    ensures err == 0 || err == -2 ==> h.bsid == Get(gbc.bits, 16, 29) % 32
    ensures err == 0 ==> h.cmixlev == h.surmixlev == h.dsurmod == 0
  {
    h := Coded(0, 0, 0, 0, 0, 0, 0, 0, 0, 0, 0);
    var v := gbc.GetBits(16);
    h := h.(syncWord := v);
    if v != SYNC_WORD {
      return -1, h;
    }
    v := gbc.ShowBits(29);
    h := h.(bsid := v % 32);
    if h.bsid > 10 {
      return -2, h;
    }
    v := gbc.GetBits(16);
    h := h.(crc1 := v);
    v := gbc.GetBits(2);
    h := h.(fscod := v);
    if h.fscod == 3 {
      return -3, h;
    }
    v := gbc.GetBits(6);
    h := h.(frmsizecod := v);
    if h.frmsizecod > 37 {
      return -4, h;
    }
    err := 0;
  }

  method ParseRest(gbc: BitReader, h0: Coded) returns (h: Coded)
    requires gbc.pos == 40 && h0.cmixlev == h0.surmixlev == h0.dsurmod == 0
    modifies gbc
    ensures h.(bsmod := 0, acmod := 0, cmixlev := 0, surmixlev := 0, dsurmod := 0, lfeon := 0)
         == h0.(bsmod := 0, acmod := 0, cmixlev := 0, surmixlev := 0, dsurmod := 0, lfeon := 0)
    ensures h.bsmod == Get(gbc.bits, 45, 3) && h.acmod == Get(gbc.bits, 48, 3)
    ensures h.cmixlev == if HasCentre(h.acmod) then Get(gbc.bits, 51, 2) else 0
    ensures h.surmixlev == if HasSurround(h.acmod) then Get(gbc.bits, if HasCentre(h.acmod) then 53 else 51, 2) else 0
    ensures h.dsurmod == if h.acmod == 2 then Get(gbc.bits, 51, 2) else 0
    ensures h.lfeon == Get(gbc.bits, LfePlace(h.acmod), 1)
  {
    h := h0;
    gbc.SkipBits(5);
    var v := gbc.GetBits(3);
    h := h.(bsmod := v);
    v := gbc.GetBits(3);
    h := h.(acmod := v);
    if HasCentre(h.acmod) {
      v := gbc.GetBits(2);
      h := h.(cmixlev := v);
    }
    if HasSurround(h.acmod) {
      v := gbc.GetBits(2);
      h := h.(surmixlev := v);
    }
    if h.acmod == 2 {
      v := gbc.GetBits(2);
      h := h.(dsurmod := v);
    }
    v := gbc.GetBits(1);
    h := h.(lfeon := v);
  }

  // ---- round trip ----

  ghost predicate FrameSizeOk(c: Config, frameSize: int) {
    c.frameSizeMin <= frameSize <= c.frameSizeMin + if c.fscod == 1 then 1 else 0
  }

  lemma AcceptedFields(c: Config)
    requires Accepted(c)
    ensures 1 <= c.acmod <= 7 && 0 <= c.fscod < 3 && 8 <= c.bsid <= 10 && 0 <= c.frmsizecod <= 36
    ensures c.frmsizecod % 2 == 0
    ensures c.halfratecod == c.bsid - 8 && ChannelsOf(c.acmod) + Bit(c.lfe) == c.nbAll
    ensures c.sampleRate == Halved(Frequency(c.fscod), c.halfratecod)
    ensures c.frameSizeMin == FrameWords(c.frmsizecod, c.fscod)
    ensures c.bitRate == Halved(BitRate(c.frmsizecod / 2), c.halfratecod)
  {
  }

  lemma Powers()
    ensures Pow2(1) == 2 && Pow2(2) == 4 && Pow2(3) == 8 && Pow2(5) == 32 && Pow2(6) == 64 && Pow2(16) == 65536
  {
    assert Pow2(8) == 256;
    Pow2Add(8, 8);
  }

  // The first fields read as they were written.
  lemma ReadFirst(bits: seq<bool>, c: Config, frameSize: int, crc1: int, after: seq<bool>)
    requires 1 <= c.acmod <= 7 && 0 <= c.fscod < 3 && 8 <= c.bsid <= 10 && 0 <= c.frmsizecod <= 36
    requires FrameSizeOk(c, frameSize) && 0 <= crc1 < 65536
    requires bits == Encoded(FirstFields(c, frameSize, crc1)) + after
    ensures Get(bits, 0, 16) == SYNC_WORD && Get(bits, 16, 16) == crc1 && Get(bits, 32, 2) == c.fscod
    ensures Get(bits, 34, 6) == c.frmsizecod + (frameSize - c.frameSizeMin) && Get(bits, 40, 5) == c.bsid
    ensures Get(bits, 45, 3) == 0 && Get(bits, 48, 3) == c.acmod
  {
    var f := FirstFields(c, frameSize, crc1);
    Powers();
    FirstWidth(f);
    assert bits == [] + Encoded(f) + after;
    FieldAt(bits, [], f, after, 0);
    FieldAt(bits, [], f, after, 1);
    FieldAt(bits, [], f, after, 2);
    FieldAt(bits, [], f, after, 3);
    FieldAt(bits, [], f, after, 4);
    FieldAt(bits, [], f, after, 5);
    FieldAt(bits, [], f, after, 6);
  }

  // Looking 29 bits ahead shows the version.
  lemma ReadAhead(bits: seq<bool>)
    requires |bits| >= 45
    ensures Get(bits, 16, 29) % 32 == Get(bits, 40, 5)
  {
    GetTwo(bits, 16, 24, 5);
    assert Pow2(5) == 32;
    LastFive(Get(bits, 16, 24), Get(bits, 40, 5), Get(bits, 16, 29));
  }

  lemma LastFive(high: int, low: int, all: int)
    requires 0 <= low < 32 && all == high * 32 + low
    ensures all % 32 == low
  {
  }

  lemma ReadMixLevels(bits: seq<bool>, before: seq<bool>, acmod: int, lfe: bool, after: seq<bool>)
    requires 1 <= acmod <= 7 && |before| == 51
    requires bits == before + Encoded(MixLevels(acmod) + LastFields(lfe)) + after
    ensures HasCentre(acmod) ==> Get(bits, 51, 2) == 1
    ensures HasSurround(acmod) ==> Get(bits, if HasCentre(acmod) then 53 else 51, 2) == 1
    ensures acmod == 2 ==> Get(bits, 51, 2) == 0
    ensures Get(bits, LfePlace(acmod), 1) == Bit(lfe)
  {
    ReadLfe(bits, before, acmod, lfe, after);
    if acmod != 1 {
      ReadLevels(bits, before, acmod, MixLevels(acmod) + LastFields(lfe), after);
    }
  }

  lemma ReadLfe(bits: seq<bool>, before: seq<bool>, acmod: int, lfe: bool, after: seq<bool>)
    requires 1 <= acmod <= 7 && |before| == 51
    requires bits == before + Encoded(MixLevels(acmod) + LastFields(lfe)) + after
    ensures Get(bits, LfePlace(acmod), 1) == Bit(lfe)
  {
    var m := MixLevels(acmod);
    MixWidth(acmod);
    ReadAfter(bits, before, m, LastFields(lfe), after);
  }

  // The first field of those that follow m.
  lemma ReadAfter(bits: seq<bool>, before: seq<bool>, m: seq<Field>, z: seq<Field>, after: seq<bool>)
    requires z != [] && z[0].width <= 2 && 0 <= z[0].value < Pow2(z[0].width) && bits == before + Encoded(m + z) + after
    ensures Get(bits, |before| + Bits.Width(m), z[0].width) == z[0].value
  {
    var f := m + z;
    assert f[..|m|] == m && f[|m|] == z[0];
    FieldAt(bits, before, f, after, |m|);
  }

  lemma ReadLevels(bits: seq<bool>, before: seq<bool>, acmod: int, f: seq<Field>, after: seq<bool>)
    requires 2 <= acmod <= 7 && |before| == 51 && bits == before + Encoded(f) + after
    requires |f| > |MixLevels(acmod)| && forall i :: 0 <= i < |MixLevels(acmod)| ==> f[i] == MixLevels(acmod)[i]
    ensures HasCentre(acmod) ==> Get(bits, 51, 2) == 1
    ensures HasSurround(acmod) ==> Get(bits, if HasCentre(acmod) then 53 else 51, 2) == 1
    ensures acmod == 2 ==> Get(bits, 51, 2) == 0
  {
    FirstLevel(acmod);
    assert f[0] == MixLevels(acmod)[0];
    Powers();
    ReadFirstOf(bits, before, f, after);
    if |MixLevels(acmod)| == 2 {
      assert f[1] == MixLevels(acmod)[1];
      ReadSecondOf(bits, before, f, after);
    }
  }

  lemma ReadFirstOf(bits: seq<bool>, before: seq<bool>, f: seq<Field>, after: seq<bool>)
    requires f != [] && f[0].width == 2 && 0 <= f[0].value < 4 && bits == before + Encoded(f) + after
    ensures Get(bits, |before|, 2) == f[0].value
  {
    Powers();
    assert f == [] + f;
    ReadAfter(bits, before, [], f, after);
  }

  lemma ReadSecondOf(bits: seq<bool>, before: seq<bool>, f: seq<Field>, after: seq<bool>)
    requires |f| >= 2 && f[0].width == f[1].width == 2 && 0 <= f[1].value < 4 && bits == before + Encoded(f) + after
    ensures Get(bits, |before| + 2, 2) == f[1].value
  {
    Powers();
    Halves(f, 1);
    assert f[..1] == [f[0]];
    EncodedOne(f[0]);
    ReadAfter(bits, before, [f[0]], f[1..], after);
  }

  lemma FirstLevel(acmod: int)
    requires 2 <= acmod <= 7
    ensures |MixLevels(acmod)| == if HasCentre(acmod) && HasSurround(acmod) then 2 else 1
    ensures MixLevels(acmod)[0] == Field(2, if acmod == 2 then 0 else 1)
    ensures |MixLevels(acmod)| == 2 ==> MixLevels(acmod)[1] == Field(2, 1)
    ensures acmod == 2 ==> !HasCentre(acmod) && !HasSurround(acmod)
    ensures acmod != 2 ==> HasCentre(acmod) || HasSurround(acmod)
  {
  }

  ghost predicate IsHeaderOf(h: Coded, c: Config, frameSize: int, crc1: int) {
    && h.syncWord == SYNC_WORD && h.crc1 == crc1 && h.fscod == c.fscod && h.bsid == c.bsid && h.bsmod == 0
    && h.frmsizecod == c.frmsizecod + (frameSize - c.frameSizeMin) && h.acmod == c.acmod
    && h.cmixlev == Bit(HasCentre(c.acmod)) && h.surmixlev == Bit(HasSurround(c.acmod)) && h.dsurmod == 0
    && h.lfeon == Bit(c.lfe)
  }

  // For every configuration the encoder accepts, either frame size and whatever checksum, the
  // parser takes the header and gives back every coded element, the sampling rate, bit rate and
  // channels the encoder was set to, and the bytes in the frame.
  lemma HeaderRoundTrip(bits: seq<bool>, c: Config, frameSize: int, crc1: int, after: seq<bool>, h: Coded)
    requires Accepted(c) && FrameSizeOk(c, frameSize) && 0 <= crc1 < 65536
    requires bits == Encoded(HeaderFields(c, frameSize, crc1)) + after
    ensures Outcome(bits) == 0
    ensures Reads(bits, h) ==> IsHeaderOf(h, c, frameSize, crc1)
    ensures Reads(bits, h) ==>
              Derive(h) == Derived(c.halfratecod, c.sampleRate, 1000 * c.bitRate, c.nbAll, 2 * frameSize)
  {
    AcceptedFields(c);
    var a, m, z := FirstFields(c, frameSize, crc1), MixLevels(c.acmod), LastFields(c.lfe);
    HeaderSplit(bits, a, m, z, after);
    FirstWidth(a);
    ReadFirst(bits, c, frameSize, crc1, Encoded(m + z) + after);
    ReadAhead(bits);
    ReadMixLevels(bits, Encoded(a), c.acmod, c.lfe, after);
    if Reads(bits, h) {
      CodedIs(bits, c, frameSize, crc1, h);
      DerivedIs(c, frameSize, h);
    }
  }

  lemma CodedIs(bits: seq<bool>, c: Config, frameSize: int, crc1: int, h: Coded)
    requires Reads(bits, h) && 1 <= c.acmod <= 7 && 8 <= c.bsid <= 10
    requires Get(bits, 0, 16) == SYNC_WORD && Get(bits, 16, 16) == crc1 && Get(bits, 32, 2) == c.fscod
    requires Get(bits, 34, 6) == c.frmsizecod + (frameSize - c.frameSizeMin) && Get(bits, 16, 29) % 32 == c.bsid
    requires Get(bits, 45, 3) == 0 && Get(bits, 48, 3) == c.acmod
    requires HasCentre(c.acmod) ==> Get(bits, 51, 2) == 1
    requires HasSurround(c.acmod) ==> Get(bits, if HasCentre(c.acmod) then 53 else 51, 2) == 1
    requires c.acmod == 2 ==> Get(bits, 51, 2) == 0
    requires Get(bits, LfePlace(c.acmod), 1) == Bit(c.lfe)
    ensures IsHeaderOf(h, c, frameSize, crc1)
  {
  }

  lemma HeaderSplit(bits: seq<bool>, a: seq<Field>, m: seq<Field>, z: seq<Field>, after: seq<bool>)
    requires bits == Encoded(a + m + z) + after
    ensures bits == Encoded(a) + Encoded(m + z) + after && bits == Encoded(a) + (Encoded(m + z) + after)
  {
    Associate(a, m, z);
    EncodedConcat(a, m + z);
    Associate(Encoded(a), Encoded(m + z), after);
  }

  lemma DerivedIs(c: Config, frameSize: int, h: Coded)
    requires Accepted(c) && FrameSizeOk(c, frameSize) && 0 <= h.crc1 < 65536 && IsHeaderOf(h, c, frameSize, h.crc1)
    ensures Derive(h) == Derived(c.halfratecod, c.sampleRate, 1000 * c.bitRate, c.nbAll, 2 * frameSize)
  {
    AcceptedFields(c);
    var i := c.frmsizecod / 2;
    HalvesOfRates(i, c.halfratecod);
    assert h.frmsizecod / 2 == i;
    assert FrameWords(h.frmsizecod, h.fscod) == frameSize;
  }

  lemma HalvesOfRates(i: int, half: int)
    requires 0 <= i < 19 && 0 <= half < 3
    ensures Halved(1000 * BitRate(i), half) == 1000 * Halved(BitRate(i), half)
  {
  }
}
