// AAC as an instance of the frame parser: what aac_sync makes of seven bytes. It returns the
// length they say as it is, so a frame can be as short as its header, or shorter.
module AacSync {
  import opened Sums
  import opened Bits
  import C = Ac3Crc
  import P = FrameParser
  import S = Ac3Sync

  const HEADER_SIZE: nat := 7
  const NOTHING: P.Info := P.Info(0, 0, 0, 0, 0)

  function SampleRate(i: int): int {
    if 0 <= i < 13 then [96000, 88200, 64000, 48000, 44100, 32000, 24000, 22050, 16000, 12000, 11025, 8000, 7350][i]
    else 0
  }

  function Channels(i: int): int { if 0 <= i < 7 then i else if i == 7 then 8 else 0 }

  // A header with a sampling rate and channels of the tables.
  predicate Accepted(bits: seq<bool>) {
    Get(bits, 0, 12) == 0xFFF && SampleRate(Get(bits, 18, 4)) != 0 && Channels(Get(bits, 23, 3)) != 0
  }

  // aac_frame_length
  function Length(bits: seq<bool>): int { Get(bits, 30, 13) }

  // aac_sync
  function SyncInfo(header: seq<int>): P.Info {
    var bits := C.BitsOf(header);
    if !Accepted(bits) then NOTHING
    else
      var sampleRate, samples := SampleRate(Get(bits, 18, 4)), (Get(bits, 54, 2) + 1) * 1024;
      P.Info(Length(bits), Channels(Get(bits, 23, 3)), sampleRate,
             S.Quotient(Length(bits) * 8 * sampleRate, samples), samples)
  }

  lemma ThirteenBits()
    ensures Pow2(13) == 8192
  {
    assert Pow2(6) == 64 && Pow2(7) == 128;
    Pow2Add(6, 7);
  }

  // aac_sync keeps the parser's demand but for accepted headers of one to six bytes' length.
  lemma SyncContractIff(x: P.Syntax, header: seq<int>)
    requires |header| == HEADER_SIZE == x.headerSize
    ensures P.SizeOk(x, SyncInfo(header).size) <==> !(Accepted(C.BitsOf(header)) && 1 <= Length(C.BitsOf(header)) <= 6)
  {
    GetRange(C.BitsOf(header), 30, 13);
    ThirteenBits();
  }

  // A frame waits at the end of a stream if and only if the stream ends with an accepted header
  // of length seven that no frame before it holds.
  lemma WaitsIff(x: P.Syntax, s: seq<int>)
    requires x == P.Syntax(HEADER_SIZE, SyncInfo)
    ensures P.EndsShort(x, s) <==>
      && |s| >= HEADER_SIZE && Accepted(C.BitsOf(s[|s| - HEADER_SIZE..]))
      && Length(C.BitsOf(s[|s| - HEADER_SIZE..])) == 7
      && P.ScanFrom(x, s[..|s| - 1], 0).size == 0 && P.ScanFrom(x, s[..|s| - 1], 0).stop == |s| - HEADER_SIZE
  {
  }

  // Stereo at 44100 Hz, length seven: a header and nothing else.
  const BARE_HEADER: seq<int> := [0xFF, 0xF1, 0x50, 0x80, 0x00, 0xFF, 0xFC]

  lemma BareHeader()
    ensures |BARE_HEADER| == HEADER_SIZE && SyncInfo(BARE_HEADER).size == 7
  {
    var bits := C.BitsOf(BARE_HEADER);
    C.ReadBytes(BARE_HEADER);
    assert BARE_HEADER[0] == 0xFF && BARE_HEADER[1] == 0xF1 && BARE_HEADER[2] == 0x50 && BARE_HEADER[3] == 0x80;
    assert BARE_HEADER[4] == 0x00 && BARE_HEADER[5] == 0xFF;
    SyncAndRate(bits);
    ChannelsAre(bits);
    LengthIs(bits);
  }

  lemma SyncAndRate(bits: seq<bool>)
    requires |bits| == 56 && Get(bits, 0, 8) == 0xFF && Get(bits, 8, 8) == 0xF1 && Get(bits, 16, 8) == 0x50
    ensures Get(bits, 0, 12) == 0xFFF && Get(bits, 18, 4) == 4
  {
    EightBits();
    assert Pow2(2) == 4 && Pow2(4) == 16 && Pow2(6) == 64;
    S.SplitGet(bits, 0, 8, 8);
    S.SplitGet(bits, 0, 12, 4);
    S.SplitGet(bits, 16, 2, 6);
    S.SplitGet(bits, 18, 4, 2);
  }

  lemma ChannelsAre(bits: seq<bool>)
    requires |bits| == 56 && Get(bits, 16, 8) == 0x50 && Get(bits, 24, 8) == 0x80
    ensures Get(bits, 23, 3) == 2
  {
    EightBits();
    assert Pow2(6) == 64 && Pow2(9) == 512;
    S.SplitGet(bits, 16, 8, 8);
    S.SplitGet(bits, 16, 7, 9);
    S.SplitGet(bits, 23, 3, 6);
  }

  lemma LengthIs(bits: seq<bool>)
    requires |bits| == 56 && Get(bits, 24, 8) == 0x80 && Get(bits, 32, 8) == 0x00 && Get(bits, 40, 8) == 0xFF
    ensures Get(bits, 30, 13) == 7
  {
    assert Pow2(2) == 4 && Pow2(5) == 32 && Pow2(6) == 64 && Pow2(3) == 8;
    S.SplitGet(bits, 24, 6, 2);
    S.SplitGet(bits, 40, 3, 5);
    S.SplitGet(bits, 30, 2, 11);
    S.SplitGet(bits, 32, 8, 3);
  }

  // Handed over as a whole stream, it is a frame that is found and not given.
  lemma BareHeaderWaits(x: P.Syntax)
    requires x == P.Syntax(HEADER_SIZE, SyncInfo)
    ensures P.EndsShort(x, BARE_HEADER) && P.MetOk(x, BARE_HEADER, 0)
    ensures P.ScanFrom(x, BARE_HEADER, 0).frames == [BARE_HEADER]
  {
    BareHeader();
    P.HeaderAlone(x, BARE_HEADER);
  }

  method BareStream() returns (frames: seq<seq<int>>)
    ensures frames == []
  {
    var x := P.Syntax(HEADER_SIZE, SyncInfo);
    BareHeaderWaits(x);
    var chunks := [BARE_HEADER];
    assert chunks[..0] == [];
    assert P.Joined(chunks) == P.Joined([]) + BARE_HEADER == BARE_HEADER;
    ghost var held, size;
    frames, held, size := P.ParseAll(x, false, chunks);
    assert P.Waiting(x, BARE_HEADER) == [BARE_HEADER];
    assert |frames| == 0;
  }
}
