// What AC3_encode_init settles for the rest of a stream, and the tables it looks things up in.
module Ac3Config {
  import opened Wrappers

  function Frequency(fscod: int): int { if fscod == 0 then 48000 else if fscod == 1 then 44100 else 32000 }

  // In kilobits per second.
  function BitRate(i: int): int {
    if i < 0 then 0
    else if i < 10 then [32, 40, 48, 56, 64, 80, 96, 112, 128, 160][i]
    else if i < 19 then [192, 224, 256, 320, 384, 448, 512, 576, 640][i - 10]
    else 0
  }

  // Words in a frame, by frame size code and sampling rate code: table 5.18 of ATSC A/52.
  function FrameWords(frmsizecod: int, fscod: int): int {
    var i := frmsizecod / 2;
    if fscod == 0 then Words48(i) else if fscod == 2 then Words32(i) else Words44(i) + frmsizecod % 2
  }

  function Words48(i: int): int {
    if i < 0 then 0
    else if i < 10 then [64, 80, 96, 112, 128, 160, 192, 224, 256, 320][i]
    else if i < 19 then [384, 448, 512, 640, 768, 896, 1024, 1152, 1280][i - 10]
    else 0
  }

  function Words44(i: int): int {
    if i < 0 then 0
    else if i < 10 then [69, 87, 104, 121, 139, 174, 208, 243, 278, 348][i]
    else if i < 19 then [417, 487, 557, 696, 835, 975, 1114, 1253, 1393][i - 10]
    else 0
  }

  function Words32(i: int): int {
    if i < 0 then 0
    else if i < 10 then [96, 120, 144, 168, 192, 240, 288, 336, 384, 480][i]
    else if i < 19 then [576, 672, 768, 960, 1152, 1344, 1536, 1728, 1920][i - 10]
    else 0
  }

  // The table holds, for 1536 samples, the whole words of a frame; with 44100 Hz they are never
  // enough, and odd codes have one more.
  lemma FrameWordsIsQuotient(frmsizecod: int, fscod: int)
    requires 0 <= frmsizecod < 38 && 0 <= fscod < 3
    ensures var words := 1536 * (1000 * BitRate(frmsizecod / 2)) / (16 * Frequency(fscod));
            FrameWords(frmsizecod, fscod) == words + if fscod == 1 then frmsizecod % 2 else 0
    ensures 1536 * (1000 * BitRate(frmsizecod / 2)) % (16 * Frequency(fscod)) == 0 <==> fscod != 1
  {
  }

  function Halved(x: int, n: int): int { if n <= 0 then x else if n == 1 then x / 2 else x / 4 }

  datatype Config = Config(acmod: int, lfe: bool, nbChannels: nat, nbAll: nat, sampleRate: int, halfratecod: int,
                           fscod: int, bsid: int, bitRate: int, frmsizecod: int, frameSizeMin: int)

  function Acmod(channels: int): int {
    if channels <= 1 then 1 else if channels == 2 then 2 else if channels == 3 then 3
    else if channels == 4 then 6 else 7
  }

  // The configuration for a number of channels, a sampling rate and a bit rate of the tables.
  function Settled(channels: nat, half: nat, fscod: nat, i: nat): Config {
    Config(Acmod(channels), channels == 6, if channels > 5 then 5 else channels, channels,
           Halved(Frequency(fscod), half), half, fscod, 8 + half, Halved(BitRate(i), half), 2 * i,
           FrameWords(2 * i, fscod))
  }

  ghost predicate InTables(channels: nat, half: nat, fscod: nat, i: nat) {
    1 <= channels <= 6 && half < 3 && fscod < 3 && i < 19
  }

  ghost predicate Accepted(c: Config) {
    exists channels, half, fscod, i :: InTables(channels, half, fscod, i) && c == Settled(channels, half, fscod, i)
  }

  // Division rounds toward zero.
  function Thousands(x: int): int { if x >= 0 then x / 1000 else -((-x) / 1000) }

  // The nine sampling rates are different.
  lemma FrequenciesDiffer(half: nat, fscod: nat, half1: nat, fscod1: nat)
    requires half < 3 && fscod < 3 && half1 < 3 && fscod1 < 3
    requires Halved(Frequency(fscod), half) == Halved(Frequency(fscod1), half1)
    ensures half == half1 && fscod == fscod1
  {
  }

  ghost predicate IsFrequency(freq: int, half: nat, fscod: nat) {
    half < 3 && fscod < 3 && Halved(Frequency(fscod), half) == freq
  }

  ghost predicate IsBitRate(rate: int, half: nat, i: nat) {
    i < 19 && Halved(BitRate(i), half) == rate
  }

  method FindFrequency(freq: int) returns (found: bool, half: nat, fscod: nat)
    ensures found ==> IsFrequency(freq, half, fscod)
    ensures !found ==> forall i: nat, j: nat :: !IsFrequency(freq, i, j)
  {
    found, half, fscod := false, 0, 0;
    for i := 0 to 3
      invariant !found && forall h: nat, j: nat :: h < i ==> !IsFrequency(freq, h, j)
    {
      for j := 0 to 3
        invariant !found && forall h: nat :: h < j ==> !IsFrequency(freq, i, h)
      {
        if Halved(Frequency(j), i) == freq {
          return true, i, j;
        }
      }
    }
  }

  method FindBitRate(rate: int, half: nat) returns (i: nat)
    ensures i <= 19 && (i < 19 ==> IsBitRate(rate, half, i))
    ensures i == 19 ==> forall k: nat :: !IsBitRate(rate, half, k)
  {
    i := 0;
    while i < 19 && Halved(BitRate(i), half) != rate
      invariant i <= 19 && forall k: nat :: k < i ==> !IsBitRate(rate, half, k)
    {
      i := i + 1;
    }
  }

  // AC3_encode_init: it accepts just the rates of the tables, halved and halved again alike.
  method EncodeInit(freq: int, bitrate: int, channels: int) returns (c: Option<Config>)
    ensures c.Some? ==> exists half, fscod, i ::
      && 1 <= channels && InTables(channels, half, fscod, i) && IsFrequency(freq, half, fscod)
      && IsBitRate(Thousands(bitrate), half, i) && c.value == Settled(channels, half, fscod, i)
    ensures c.None? && 1 <= channels <= 6 ==> forall half: nat, fscod: nat, i: nat ::
      !(IsFrequency(freq, half, fscod) && IsBitRate(Thousands(bitrate), half, i))
    ensures c.Some? ==> Accepted(c.value)
  {
    if channels < 1 || channels > 6 {
      return None;
    }
    var found, half, fscod := FindFrequency(freq);
    if !found {
      return None;
    }
    var i := FindBitRate(Thousands(bitrate), half);
    if i == 19 {
      forall h: nat, f: nat, k: nat
        ensures !(IsFrequency(freq, h, f) && IsBitRate(Thousands(bitrate), h, k))
      {
        if IsFrequency(freq, h, f) {
          FrequenciesDiffer(half, fscod, h, f);
        }
      }
      return None;
    }
    assert InTables(channels, half, fscod, i);
    c := Some(Settled(channels, half, fscod, i));
  }
}
