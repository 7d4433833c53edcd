// The parameters of bit allocation by their codes: the tables of ac3tab.c, and that the codes the
// encoder sends stand for the parameters it allocates by.
module Ac3Parameters {
  import opened Ac3Config
  import opened Ac3Block
  import B = Ac3Bands
  import E = Ac3Encoder

  // Entries of a table; codes are read from fields that have no others.
  function Entry(table: seq<int>, code: int): (v: int)
    ensures v == 0 || v in table
  {
    if 0 <= code < |table| then table[code] else 0
  }

  const SLOW_DECAY: seq<int> := [0x0f, 0x11, 0x13, 0x15]
  const FAST_DECAY: seq<int> := [0x3f, 0x53, 0x67, 0x7b]
  const SLOW_GAIN: seq<int> := [0x540, 0x4d8, 0x478, 0x410]
  const DB_PER_BIT: seq<int> := [0x000, 0x700, 0x900, 0xb00]
  const FLOORS: seq<int> := [0x2f0, 0x2b0, 0x270, 0x230, 0x1f0, 0x170, 0x0f0, -0x800]
  const FAST_GAIN: seq<int> := [0x080, 0x100, 0x180, 0x200, 0x280, 0x300, 0x380, 0x400]

  // A channel's masking curve, from the codes of a block and the header.
  function CurveBy(c: Codes, fgaincod: int, fscod: int, halfratecod: int, isLfe: bool): (curve: B.Curve)
    ensures B.CurveOk(curve)
  {
    B.Curve(Entry(FAST_GAIN, fgaincod), Entry(SLOW_GAIN, c.sgain), Halved(Entry(FAST_DECAY, c.fdecay), halfratecod),
            Halved(Entry(SLOW_DECAY, c.sdecay), halfratecod), Entry(DB_PER_BIT, c.dbknee),
            if 0 <= fscod < 3 then fscod else 0, if 0 <= halfratecod < 3 then halfratecod else 0, isLfe)
  }

  function FloorBy(c: Codes): int { Entry(FLOORS, c.floor) }

  // What a decoder makes of the codes is what the encoder allocates by.
  lemma CodesGiveCurve(fscod: int, halfratecod: int, isLfe: bool)
    ensures CurveBy(CODES, FGAIN, fscod, halfratecod, isLfe) == E.CurveFor(fscod, halfratecod, isLfe)
    ensures FloorBy(CODES) == E.FLOOR
  {
  }
}
