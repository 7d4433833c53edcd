// The ADTS muxer puts a header before each AAC packet; what it writes is what aac_sync reads.
module AdtsMux {
  import opened Sums
  import opened Bits
  import C = Ac3Crc
  import F = Ac3Frame
  import P = FrameParser
  import Y = AacSync

  const HEADER_SIZE: nat := 7

  // ADTSContext, once there was extradata.
  datatype Context = Context(objecttype: int, sampleRateIndex: int, channelConf: int)

  // decode_extradata
  method DecodeExtradata(bits: seq<bool>) returns (c: Context)
    ensures c == Context(Get(bits, 0, 5) - 1, Get(bits, 5, 4), Get(bits, 9, 4))
  {
    var gb := new BitReader(bits);
    var objecttype := gb.GetBits(5);
    var sampleRateIndex := gb.GetBits(4);
    var channelConf := gb.GetBits(4);
    c := Context(objecttype - 1, sampleRateIndex, channelConf);
  }

  // What put_bits asserts of a header's fields: each value fits.
  ghost predicate Writable(c: Context, size: nat) {
    && 0 <= c.objecttype < 4 && 0 <= c.sampleRateIndex < 16 && 0 <= c.channelConf < 8
    && HEADER_SIZE + size < 8192
  }

  function FixedFields(c: Context): seq<Field> {
    [Field(12, 0xFFF), Field(1, 0), Field(2, 0), Field(1, 1), Field(2, c.objecttype), Field(4, c.sampleRateIndex),
     Field(1, 0), Field(3, c.channelConf), Field(1, 0), Field(1, 0)]
  }

  function VariableFields(size: nat): seq<Field> {
    [Field(1, 0), Field(1, 0), Field(13, HEADER_SIZE + size), Field(11, 0x7FF), Field(2, 0)]
  }

  // The header is seven bytes of these fields.
  ghost predicate IsHeader(header: seq<int>, c: Context, size: nat) {
    |header| == HEADER_SIZE && C.BitsOf(header) == Encoded(FixedFields(c)) + Encoded(VariableFields(size))
  }

  // adts_write_frame_header
  method WriteFrameHeader(c: Context, size: nat) returns (header: seq<int>)
    requires Writable(c, size)
    ensures IsHeader(header, c, size)
  {
    var pb := new BitWriter();
    var buf := new int[HEADER_SIZE];
    WriteFixed(pb, c);
    WriteVariable(pb, size);
    FixedWidth(FixedFields(c));
    VariableWidth(VariableFields(size));
    var pos := F.FlushPutBits(pb, buf);
    header := buf[..pos];
    assert F.Padded(pb.bits, pos) == pb.bits;
  }

  method WriteFixed(pb: BitWriter, c: Context)
    modifies pb
    ensures pb.bits == old(pb.bits) + Encoded(FixedFields(c))
  {
    ghost var before, f := pb.bits, FixedFields(c);
    NothingYet(before, f);
    PutField(pb, 12, 0xFFF, before, f, 0);
    PutField(pb, 1, 0, before, f, 1);
    PutField(pb, 2, 0, before, f, 2);
    PutField(pb, 1, 1, before, f, 3);
    PutField(pb, 2, c.objecttype, before, f, 4);
    PutField(pb, 4, c.sampleRateIndex, before, f, 5);
    PutField(pb, 1, 0, before, f, 6);
    PutField(pb, 3, c.channelConf, before, f, 7);
    PutField(pb, 1, 0, before, f, 8);
    PutField(pb, 1, 0, before, f, 9);
    assert f[..10] == f;
  }

  method WriteVariable(pb: BitWriter, size: nat)
    modifies pb
    ensures pb.bits == old(pb.bits) + Encoded(VariableFields(size))
  {
    ghost var before, f := pb.bits, VariableFields(size);
    NothingYet(before, f);
    PutField(pb, 1, 0, before, f, 0);
    PutField(pb, 1, 0, before, f, 1);
    PutField(pb, 13, HEADER_SIZE + size, before, f, 2);
    PutField(pb, 11, 0x7FF, before, f, 3);
    PutField(pb, 2, 0, before, f, 4);
    assert f[..5] == f;
  }

  lemma WidthOfNext(f: seq<Field>, k: nat)
    requires k < |f|
    ensures Width(f[..k + 1]) == Width(f[..k]) + f[k].width
  {
    EncodedLast(f, k);
  }

  lemma FixedWidth(f: seq<Field>)
    requires |f| == 10 && f[0].width == 12 && f[1].width == 1 && f[2].width == 2 && f[3].width == 1 && f[4].width == 2
    requires f[5].width == 4 && f[6].width == 1 && f[7].width == 3 && f[8].width == f[9].width == 1
    ensures Width(f[..0]) == 0 && Width(f[..5]) == 18 && Width(f[..7]) == 23 && Width(f) == 28
  {
    assert f[..10] == f;
    WidthOfNext(f, 0);
    WidthOfNext(f, 1);
    WidthOfNext(f, 2);
    WidthOfNext(f, 3);
    WidthOfNext(f, 4);
    WidthOfNext(f, 5);
    WidthOfNext(f, 6);
    WidthOfNext(f, 7);
    WidthOfNext(f, 8);
    WidthOfNext(f, 9);
  }

  lemma VariableWidth(f: seq<Field>)
    requires |f| == 5 && f[0].width == f[1].width == 1 && f[2].width == 13 && f[3].width == 11 && f[4].width == 2
    ensures Width(f[..2]) == 2 && Width(f[..4]) == 26 && Width(f) == 28
  {
    assert f[..5] == f;
    WidthOfNext(f, 0);
    WidthOfNext(f, 1);
    WidthOfNext(f, 2);
    WidthOfNext(f, 3);
    WidthOfNext(f, 4);
  }

  // ---- round trip ----

  lemma FixedAre(bits: seq<bool>, c: Context, after: seq<bool>)
    requires 0 <= c.sampleRateIndex < 16 && 0 <= c.channelConf < 8
    requires bits == Encoded(FixedFields(c)) + after
    ensures Get(bits, 0, 12) == 0xFFF && Get(bits, 18, 4) == c.sampleRateIndex && Get(bits, 23, 3) == c.channelConf
  {
    var f := FixedFields(c);
    FixedWidth(f);
    assert bits == [] + Encoded(f) + after;
    assert Pow2(3) == 8 && Pow2(4) == 16 && Pow2(6) == 64;
    Pow2Add(6, 6);
    FieldAt(bits, [], f, after, 0);
    FieldAt(bits, [], f, after, 5);
    FieldAt(bits, [], f, after, 7);
  }

  lemma VariableAre(bits: seq<bool>, before: seq<bool>, size: nat)
    requires HEADER_SIZE + size < 8192 && bits == before + Encoded(VariableFields(size)) && |before| == 28
    ensures Get(bits, 30, 13) == HEADER_SIZE + size && Get(bits, 54, 2) == 0
  {
    var f := VariableFields(size);
    VariableWidth(f);
    assert bits == before + Encoded(f) + [];
    assert Pow2(2) == 4;
    Y.ThirteenBits();
    FieldAt(bits, before, f, [], 2);
    FieldAt(bits, before, f, [], 4);
  }

  // aac_sync takes the header if and only if its tables have the rate and the channels, and then
  // says how long header and packet are, and a frame's samples.
  lemma HeaderIsReadIff(header: seq<int>, c: Context, size: nat)
    requires Writable(c, size) && IsHeader(header, c, size)
    ensures Y.SyncInfo(header).size
         == if c.sampleRateIndex < 13 && c.channelConf > 0 then HEADER_SIZE + size else 0
    ensures Y.SyncInfo(header).size > 0 ==>
      && Y.SyncInfo(header).sampleRate == Y.SampleRate(c.sampleRateIndex)
      && Y.SyncInfo(header).channels == Y.Channels(c.channelConf) && Y.SyncInfo(header).samples == 1024
  {
    var bits := C.BitsOf(header);
    FixedAre(bits, c, Encoded(VariableFields(size)));
    FixedWidth(FixedFields(c));
    VariableAre(bits, Encoded(FixedFields(c)), size);
  }

  // ---- a stream ----

  // adts_write_packet, for a stream with extradata.
  method WritePacket(c: Context, pkt: seq<int>) returns (out: seq<int>)
    requires Writable(c, |pkt|)
    ensures if pkt == [] then out == [] else IsFrame(out, c, pkt)
  {
    out := [];
    if pkt != [] {
      out := WriteFrameHeader(c, |pkt|);
      out := out + pkt;
    }
  }

  // A header, and the packet it is for.
  ghost predicate IsFrame(frame: seq<int>, c: Context, pkt: seq<int>) {
    |frame| == HEADER_SIZE + |pkt| && IsHeader(frame[..HEADER_SIZE], c, |pkt|) && frame[HEADER_SIZE..] == pkt
  }

  ghost predicate AreFrames(frames: seq<seq<int>>, c: Context, pkts: seq<seq<int>>) {
    |frames| == |pkts| && forall i :: 0 <= i < |frames| ==> IsFrame(frames[i], c, pkts[i])
  }

  // Packets that are written at all.
  function Kept(pkts: seq<seq<int>>): seq<seq<int>> {
    if pkts == [] then []
    else Kept(pkts[..|pkts| - 1]) + if pkts[|pkts| - 1] == [] then [] else [pkts[|pkts| - 1]]
  }

  method WritePackets(c: Context, pkts: seq<seq<int>>) returns (stream: seq<int>, ghost frames: seq<seq<int>>)
    requires forall i :: 0 <= i < |pkts| ==> Writable(c, |pkts[i]|)
    ensures stream == P.Joined(frames) && AreFrames(frames, c, Kept(pkts))
  {
    stream, frames := [], [];
    for i := 0 to |pkts|
      invariant stream == P.Joined(frames) && AreFrames(frames, c, Kept(pkts[..i]))
    {
      var out := WritePacket(c, pkts[i]);
      assert pkts[..i + 1][..i] == pkts[..i];
      if pkts[i] != [] {
        assert (frames + [out])[..|frames|] == frames;
        frames := frames + [out];
      }
      stream := stream + out;
    }
    assert pkts[..|pkts|] == pkts;
  }

  // Whatever pieces the stream comes in, the parser gives back header and packet of each packet
  // written, if the rate and the channels are in its tables.
  method CutPackets(ghost c: Context, ghost pkts: seq<seq<int>>, ghost frames: seq<seq<int>>, chunks: seq<seq<int>>)
      returns (out: seq<seq<int>>)
    requires forall i :: 0 <= i < |pkts| ==> Writable(c, |pkts[i]|)
    requires AreFrames(frames, c, Kept(pkts)) && P.Joined(chunks) == P.Joined(frames)
    requires c.sampleRateIndex < 13 && c.channelConf > 0
    ensures AreFrames(out, c, Kept(pkts))
  {
    ghost var x := P.Syntax(HEADER_SIZE, Y.SyncInfo);
    KeptOnes(pkts);
    forall i | 0 <= i < |frames|
      ensures P.Announced(x, frames[i]) && HEADER_SIZE < |frames[i]| <= P.BUFFER_SIZE
    {
      assert Kept(pkts)[i] in pkts;
      HeaderIsReadIff(frames[i][..HEADER_SIZE], c, |Kept(pkts)[i]|);
    }
    P.JoinedIsChained(frames);
    out := P.CutFrames(P.Syntax(HEADER_SIZE, Y.SyncInfo), false, chunks, [], frames);
  }

  lemma {:induction false} KeptOnes(pkts: seq<seq<int>>)
    ensures forall p :: p in Kept(pkts) <==> p in pkts && p != []
  {
    if pkts != [] {
      KeptOnes(pkts[..|pkts| - 1]);
      assert pkts == pkts[..|pkts| - 1] + [pkts[|pkts| - 1]];
    }
  }
}
