// The rest of the bit stream information of an AC-3 frame: what section 5.3.2 of ATSC A/52 has
// after the low frequency flag, read in full.
module Ac3Info {
  import opened Bits
  import opened Ac3Config
  import opened Wrappers
  import H = Ac3Header

  // Dialogue level, and what may be there behind a flag each; next is the first bit of the first block.
  datatype Info = Info(dialnorm: int, compr: Option<int>, langcod: Option<int>, production: Option<int>,
                       copyright: int, original: int, timecod1: Option<int>, timecod2: Option<int>,
                       addbsil: Option<int>, next: nat)

  function Word(bits: seq<bool>, pos: nat, n: nat): Option<int> {
    if Get(bits, pos, 1) == 1 then Some(Get(bits, pos + 1, n)) else None
  }

  function Past(bits: seq<bool>, pos: nat, n: nat): nat { if Get(bits, pos, 1) == 1 then pos + 1 + n else pos + 1 }

  // Additional information has a length of 1 to 64 bytes, and those bytes.
  function PastMore(bits: seq<bool>, pos: nat): nat {
    GetRange(bits, pos + 1, 6);
    if Get(bits, pos, 1) == 1 then pos + 7 + 8 * (Get(bits, pos + 1, 6) + 1) else pos + 1
  }

  // For one programme; a second one would have the first four again.
  function ReadInfo(bits: seq<bool>, pos: nat): Info {
    var langcode := Past(bits, pos + 5, 8);
    var production := Past(bits, langcode, 8);
    var rights := Past(bits, production, 7);
    var timecod2 := Past(bits, rights + 2, 14);
    var more := Past(bits, timecod2, 14);
    Info(Get(bits, pos, 5), Word(bits, pos + 5, 8), Word(bits, langcode, 8), Word(bits, production, 7),
         Get(bits, rights, 1), Get(bits, rights + 1, 1), Word(bits, rights + 2, 14), Word(bits, timecod2, 14),
         Word(bits, more, 6), PastMore(bits, more))
  }

  // The quietest dialogue level, an original, and nothing else.
  function Sent(next: nat): Info { Info(31, None, None, None, 0, 1, None, None, None, next) }

  // The flag at the end of the first fields; the rest begins behind it.
  function InfoPlace(acmod: int): nat { H.LfePlace(acmod) + 1 }

  function HeaderBits(acmod: int): nat { 65 + H.FrameBitsInc(acmod) }

  lemma FlagsAre(bits: seq<bool>, before: seq<bool>, lfe: bool, after: seq<bool>)
    requires bits == before + Encoded(H.LastFields(lfe)) + after
    ensures Get(bits, |before| + 1, 5) == 31
    ensures forall k: nat :: 2 <= k < 10 ==> Get(bits, |before| + 4 + k, 1) == H.LastFields(lfe)[k].value
  {
    var z := H.LastFields(lfe);
    H.LastWidth(z);
    H.Powers();
    FieldAt(bits, before, z, after, 1);
    forall k: nat | 2 <= k < 10
      ensures Get(bits, |before| + 4 + k, 1) == z[k].value
    {
      FieldAt(bits, before, z, after, k);
    }
  }

  lemma LastAre(bits: seq<bool>, before: seq<bool>, lfe: bool, after: seq<bool>)
    requires bits == before + Encoded(H.LastFields(lfe)) + after
    ensures ReadInfo(bits, |before| + 1) == Sent(|before| + 14)
  {
    FlagsAre(bits, before, lfe, after);
    var z := H.LastFields(lfe);
    assert z[2].value == z[3].value == z[4].value == z[5].value == z[7].value == z[8].value == z[9].value == 0;
    assert z[6].value == 1;
  }

  // Whatever the checksum, a decoder finds what the encoder sends, and where the blocks begin.
  lemma InfoIsRead(bits: seq<bool>, c: Config, frameSize: int, crc1: int, after: seq<bool>)
    requires Accepted(c) && bits == Encoded(H.HeaderFields(c, frameSize, crc1)) + after
    ensures ReadInfo(bits, InfoPlace(c.acmod)) == Sent(HeaderBits(c.acmod))
  {
    var first := Encoded(H.FirstFields(c, frameSize, crc1) + H.MixLevels(c.acmod));
    H.AcceptedFields(c);
    EncodedConcat(H.FirstFields(c, frameSize, crc1) + H.MixLevels(c.acmod), H.LastFields(c.lfe));
    FirstBits(c, frameSize, crc1);
    LastAre(bits, first, c.lfe, after);
  }

  lemma FirstBits(c: Config, frameSize: int, crc1: int)
    requires 1 <= c.acmod <= 7
    ensures |Encoded(H.FirstFields(c, frameSize, crc1) + H.MixLevels(c.acmod))| == H.LfePlace(c.acmod)
    ensures HeaderBits(c.acmod) == H.LfePlace(c.acmod) + 14
  {
    H.FirstWidth(H.FirstFields(c, frameSize, crc1));
    H.MixWidth(c.acmod);
    EncodedConcat(H.FirstFields(c, frameSize, crc1), H.MixLevels(c.acmod));
    LevelsPlace(c.acmod);
  }

  lemma LevelsPlace(acmod: int)
    requires 1 <= acmod <= 7
    ensures H.LfePlace(acmod) == 51 + H.FrameBitsInc(acmod)
  {
  }
}
