// AC-3 as an instance of the frame parser: what ac3_sync makes of seven bytes, and that the
// parser cuts an encoder's stream back into its frames.
module Ac3Sync {
  import opened Sums
  import opened Bits
  import opened Ac3Config
  import opened Ac3Header
  import C = Ac3Crc
  import P = FrameParser

  const HEADER_SIZE: nat := 7

  // The coded elements, read at their places.
  function CodedOf(bits: seq<bool>): (h: Coded)
    ensures Reads(bits, h)
  {
    var acmod := Get(bits, 48, 3);
    Coded(Get(bits, 0, 16), Get(bits, 16, 16), Get(bits, 32, 2), Get(bits, 34, 6), Get(bits, 16, 29) % 32,
          Get(bits, 45, 3), acmod,
          if HasCentre(acmod) then Get(bits, 51, 2) else 0,
          if HasSurround(acmod) then Get(bits, if HasCentre(acmod) then 53 else 51, 2) else 0,
          if acmod == 2 then Get(bits, 51, 2) else 0,
          Get(bits, LfePlace(acmod), 1))
  }

  const NOTHING: P.Info := P.Info(0, 0, 0, 0, 0)

  function Blocks(numblkscod: int): int {
    if numblkscod == 0 then 1 else if numblkscod == 1 then 2 else if numblkscod == 2 then 3 else 6
  }

  // The enhanced syntax, from its stream type on.
  function EnhancedInfo(bits: seq<bool>): P.Info {
    if Get(bits, 16, 2) != 0 || Get(bits, 18, 3) != 0 then NOTHING
    else
      var frmsiz := Get(bits, 21, 11) + 1;
      var fscod := Get(bits, 32, 2);
      var fscod2 := Get(bits, 34, 2);
      if fscod == 3 && fscod2 == 3 then NOTHING
      else
        var sampleRate := if fscod == 3 then Frequency(fscod2) / 2 else Frequency(fscod);
        var samples := Blocks(if fscod == 3 then 3 else fscod2) * 256;
        var acmod := Get(bits, 36, 3);
        P.Info(2 * frmsiz, ChannelsOf(acmod) + Get(bits, 39, 1), sampleRate,
               Quotient(frmsiz * sampleRate * 16, samples), samples)
  }

  function Quotient(a: int, b: int): int { if b > 0 then a / b else 0 }

  // ac3_sync
  function SyncInfo(header: seq<int>): P.Info {
    var bits := C.BitsOf(header);
    var err := Outcome(bits);
    if err < 0 && err != -2 then NOTHING
    else
      var h := CodedOf(bits);
      var d := Derive(h);
      if h.bsid <= 10 then P.Info(d.frameSize, d.channels, d.sampleRate, d.bitRate, 1536)
      else if h.bsid <= 16 then EnhancedInfo(bits)
      else NOTHING
  }

  // A header of the enhanced syntax for a frame shorter than the header.
  predicate TooShort(bits: seq<bool>) {
    && Outcome(bits) == -2 && Get(bits, 16, 29) % 32 <= 16 && Get(bits, 16, 2) == 0 && Get(bits, 18, 3) == 0
    && !(Get(bits, 32, 2) == 3 && Get(bits, 34, 2) == 3) && Get(bits, 21, 11) <= 2
  }

  lemma PlainSizes(bits: seq<bool>)
    requires Outcome(bits) == 0
    ensures 128 <= Derive(CodedOf(bits)).frameSize <= 3840
  {
    var h := CodedOf(bits);
    GetRange(bits, 32, 2);
    GetRange(bits, 34, 6);
    Powers();
    WordsRange(h.frmsizecod, h.fscod);
  }

  lemma WordsRange(frmsizecod: int, fscod: int)
    requires 0 <= frmsizecod <= 37 && 0 <= fscod < 3
    ensures 64 <= FrameWords(frmsizecod, fscod) <= 1920
  {
  }

  // ac3_sync keeps the parser's demand on it but for the enhanced headers with a size of three
  // words or less.
  lemma SyncContractIff(header: seq<int>)
    requires |header| == HEADER_SIZE
    ensures (SyncInfo(header).size == 0 || HEADER_SIZE <= SyncInfo(header).size <= P.BUFFER_SIZE) <==>
      !TooShort(C.BitsOf(header))
  {
    var bits := C.BitsOf(header);
    GetRange(bits, 21, 11);
    ElevenBits();
    if Outcome(bits) == 0 {
      PlainSizes(bits);
    }
  }

  lemma ElevenBits()
    ensures Pow2(11) == 2048
  {
    assert Pow2(5) == 32 && Pow2(6) == 64;
    Pow2Add(5, 6);
  }

  // Sizes are counted in words, so no frame is just as long as its header.
  lemma SyncSizes(header: seq<int>)
    requires |header| == HEADER_SIZE
    ensures 0 <= SyncInfo(header).size <= 4096 && SyncInfo(header).size % 2 == 0
  {
    var bits := C.BitsOf(header);
    GetRange(bits, 21, 11);
    ElevenBits();
    if Outcome(bits) == 0 {
      PlainSizes(bits);
    }
  }

  // Seven bytes that say a frame has two.
  const SHORT_HEADER: seq<int> := [0x0B, 0x77, 0x00, 0x00, 0x00, 0x80, 0x00]

  lemma TooShortHeader()
    ensures |SHORT_HEADER| == HEADER_SIZE && TooShort(C.BitsOf(SHORT_HEADER)) && SyncInfo(SHORT_HEADER).size == 2
  {
    var bits := C.BitsOf(SHORT_HEADER);
    ShortHeaderFields(bits);
    assert Outcome(bits) == -2 && CodedOf(bits).bsid == 16;
  }

  lemma ShortHeaderFields(bits: seq<bool>)
    requires bits == C.BitsOf(SHORT_HEADER)
    ensures Get(bits, 0, 16) == SYNC_WORD && Get(bits, 16, 29) % 32 == 16
    ensures Get(bits, 16, 2) == Get(bits, 18, 3) == Get(bits, 21, 11) == Get(bits, 32, 2) == Get(bits, 34, 2) == 0
  {
    C.ReadBytes(SHORT_HEADER);
    assert SHORT_HEADER[0] == 0x0B && SHORT_HEADER[1] == 0x77 && SHORT_HEADER[2] == SHORT_HEADER[3] == 0;
    assert SHORT_HEADER[4] == 0 && SHORT_HEADER[5] == 0x80;
    FirstHalf(bits);
    SecondHalf(bits);
  }

  lemma FirstHalf(bits: seq<bool>)
    requires |bits| == 56 && Get(bits, 0, 8) == 0x0B && Get(bits, 8, 8) == 0x77
    requires Get(bits, 16, 8) == Get(bits, 24, 8) == 0
    ensures Get(bits, 0, 16) == SYNC_WORD && Get(bits, 16, 2) == Get(bits, 18, 3) == Get(bits, 21, 11) == 0
  {
    EightBits();
    ElevenBits();
    SplitGet(bits, 0, 8, 8);
    SplitGet(bits, 16, 8, 8);
    SplitGet(bits, 16, 5, 11);
    SplitGet(bits, 16, 2, 3);
    assert Pow2(3) == 8;
  }

  lemma SecondHalf(bits: seq<bool>)
    requires |bits| == 56 && Get(bits, 32, 8) == 0 && Get(bits, 40, 8) == 0x80
    ensures Get(bits, 32, 2) == Get(bits, 34, 2) == 0 && Get(bits, 16, 29) % 32 == 16
  {
    assert Pow2(2) == 4 && Pow2(4) == 16;
    SplitGet(bits, 32, 4, 4);
    SplitGet(bits, 32, 2, 2);
    VersionIs(bits);
  }

  lemma VersionIs(bits: seq<bool>)
    requires |bits| == 56 && Get(bits, 40, 8) == 0x80
    ensures Get(bits, 16, 29) % 32 == 16
  {
    assert Pow2(3) == 8 && Pow2(5) == 32;
    SplitGet(bits, 40, 5, 3);
    SplitGet(bits, 16, 24, 5);
    LowFive(Get(bits, 16, 29), Get(bits, 16, 24), Get(bits, 40, 5));
  }

  lemma LowFive(v: int, high: int, low: int)
    requires v == high * 32 + low && 0 <= low < 32
    ensures v % 32 == low
  {
  }

  // A number read in two parts.
  lemma SplitGet(bits: seq<bool>, pos: nat, n: nat, m: nat)
    requires pos + n + m <= |bits|
    ensures Get(bits, pos, n + m) == Get(bits, pos, n) * Pow2(m) + Get(bits, pos + n, m)
    ensures 0 <= Get(bits, pos, n) < Pow2(n) && 0 <= Get(bits, pos + n, m) < Pow2(m)
  {
    GetTwo(bits, pos, n, m);
    GetRange(bits, pos, n);
  }

  // ---- a stream of encoded frames ----

  // A frame that announces its own length.
  ghost predicate Announced(f: seq<int>) { P.Announced(P.Syntax(HEADER_SIZE, SyncInfo), f) }

  lemma SameStart(p: seq<bool>, rest: seq<bool>)
    requires |p| == 56
    ensures Outcome(p + rest) == Outcome(p)
    ensures Get(p + rest, 16, 16) == Get(p, 16, 16) && Get(p + rest, 45, 3) == Get(p, 45, 3)
    ensures Get(p + rest, 48, 3) == Get(p, 48, 3)
    ensures Get(p + rest, 32, 2) == Get(p, 32, 2) && Get(p + rest, 34, 6) == Get(p, 34, 6)
    ensures Get(p + rest, 16, 29) == Get(p, 16, 29)
    ensures Get(p + rest, 0, 16) == Get(p, 0, 16)
  {
    GetBefore(p, rest, 0, 16);
    GetBefore(p, rest, 16, 16);
    GetBefore(p, rest, 16, 29);
    GetBefore(p, rest, 32, 2);
    GetBefore(p, rest, 34, 6);
    GetBefore(p, rest, 45, 3);
    GetBefore(p, rest, 48, 3);
  }

  lemma SameLevels(p: seq<bool>, rest: seq<bool>, acmod: int)
    requires |p| == 56 && 0 <= acmod < 8
    ensures Get(p + rest, 51, 2) == Get(p, 51, 2) && Get(p + rest, 53, 2) == Get(p, 53, 2)
    ensures Get(p + rest, LfePlace(acmod), 1) == Get(p, LfePlace(acmod), 1)
  {
    GetBefore(p, rest, 51, 2);
    GetBefore(p, rest, 53, 2);
    GetBefore(p, rest, LfePlace(acmod), 1);
  }

  // Seven bytes say all that the header says.
  lemma HeaderInSevenBytes(p: seq<bool>, rest: seq<bool>)
    requires |p| == 56
    ensures Outcome(p + rest) == Outcome(p) && Reads(p + rest, CodedOf(p))
  {
    SameStart(p, rest);
    GetRange(p, 48, 3);
    assert Pow2(3) == 8;
    SameLevels(p, rest, Get(p, 48, 3));
  }

  lemma FrameIsAnnounced(bytes: seq<int>, c: Config, frameSize: nat, crc1: int, after: seq<bool>)
    requires Accepted(c) && FrameSizeOk(c, frameSize) && 0 <= crc1 < 65536 && |bytes| == 2 * frameSize >= HEADER_SIZE
    requires C.BitsOf(bytes) == Encoded(HeaderFields(c, frameSize, crc1)) + after
    ensures Announced(bytes)
  {
    var p := C.BitsOf(bytes[..HEADER_SIZE]);
    assert bytes == bytes[..HEADER_SIZE] + bytes[HEADER_SIZE..];
    C.BitsConcat(bytes[..HEADER_SIZE], bytes[HEADER_SIZE..]);
    HeaderInSevenBytes(p, C.BitsOf(bytes[HEADER_SIZE..]));
    HeaderRoundTrip(C.BitsOf(bytes), c, frameSize, crc1, after, CodedOf(p));
    AcceptedFields(c);
  }

  // Whatever pieces a stream of announced frames comes in, the parser gives back the frames, and
  // passes over bytes before them at none of which ac3_sync takes anything for a header. It meets
  // no header but theirs, so those that say too little are of no matter.
  method CutStream(chunks: seq<seq<int>>, ghost junk: seq<int>, ghost frames: seq<seq<int>>)
      returns (out: seq<seq<int>>)
    requires P.Joined(chunks) == junk + P.Chained(frames) && forall i :: 0 <= i < |frames| ==> Announced(frames[i])
    requires forall k {:trigger Window(P.Joined(chunks), k)} ::
      0 <= k < |junk| && k + HEADER_SIZE <= |P.Joined(chunks)| ==> SyncInfo(Window(P.Joined(chunks), k)).size == 0
    ensures out == frames
  {
    var x := P.Syntax(HEADER_SIZE, SyncInfo);
    forall i | 0 <= i < |frames|
      ensures P.Announced(x, frames[i]) && HEADER_SIZE < |frames[i]| <= P.BUFFER_SIZE
    {
      assert Announced(frames[i]);
      SyncSizes(frames[i][..HEADER_SIZE]);
    }
    forall k | 0 <= k < |junk| && k + HEADER_SIZE <= |P.Joined(chunks)|
      ensures P.SizeAt(x, P.Joined(chunks), k) == 0
    {
      assert SyncInfo(Window(P.Joined(chunks), k)).size == 0;
    }
    out := P.CutFrames(x, true, chunks, junk, frames);
  }

  // As many bytes as a header has.
  function Window(s: seq<int>, k: nat): seq<int>
    requires k + HEADER_SIZE <= |s|
  {
    s[k..k + HEADER_SIZE]
  }
}
