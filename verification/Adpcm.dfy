// Sample codecs of adpcm.c: IMA, Microsoft and Yamaha, one nibble a sample.
module Adpcm {
  // step_table, ten entries to a row.
  function StepRow(r: int): seq<int> {
    match r
    case 0 => [7, 8, 9, 10, 11, 12, 13, 14, 16, 17]
    case 1 => [19, 21, 23, 25, 28, 31, 34, 37, 41, 45]
    case 2 => [50, 55, 60, 66, 73, 80, 88, 97, 107, 118]
    case 3 => [130, 143, 157, 173, 190, 209, 230, 253, 279, 307]
    case 4 => [337, 371, 408, 449, 494, 544, 598, 658, 724, 796]
    case 5 => [876, 963, 1060, 1166, 1282, 1411, 1552, 1707, 1878, 2066]
    case 6 => [2272, 2499, 2749, 3024, 3327, 3660, 4026, 4428, 4871, 5358]
    case 7 => [5894, 6484, 7132, 7845, 8630, 9493, 10442, 11487, 12635, 13899]
    case _ => [15289, 16818, 18500, 20350, 22385, 24623, 27086, 29794, 32767]
  }

  const INDEX_TABLE: seq<int> := [-1, -1, -1, -1, 2, 4, 6, 8, -1, -1, -1, -1, 2, 4, 6, 8]

  const ADAPTATION_TABLE: seq<int> :=
    [230, 230, 230, 230, 307, 409, 512, 614, 768, 614, 512, 409, 307, 230, 230, 230]

  const ADAPT_COEFF1: seq<int> := [256, 512, 0, 192, 240, 460, 392]
  const ADAPT_COEFF2: seq<int> := [0, -256, 0, 64, 0, -208, -232]

  const YAMAHA_INDEXSCALE: seq<int> :=
    [230, 230, 230, 230, 307, 409, 512, 614, 230, 230, 230, 230, 307, 409, 512, 614]

  const YAMAHA_DIFFLOOKUP: seq<int> := [1, 3, 5, 7, 9, 11, 13, 15, -1, -3, -5, -7, -9, -11, -13, -15]

  type Nibble = n: int | 0 <= n < 16
  type Short = x: int | -32768 <= x <= 32767
  type StepIndex = x: int | 0 <= x <= 88

  function StepOf(i: StepIndex): (s: int)
    ensures 7 <= s <= 32767
  {
    StepRow(i / 10)[i % 10]
  }

  // ---- C arithmetic ----

  // Division rounds toward zero.
  function Quot(a: int, b: int): int
    requires b > 0
  {
    if a >= 0 then a / b else -((-a) / b)
  }

  function Clip(x: int, lo: int, hi: int): (r: int)
    requires lo <= hi
    ensures lo <= r <= hi
  {
    if x < lo then lo else if x > hi then hi else x
  }

  function ClampToShort(x: int): Short { Clip(x, -32768, 32767) }

  ghost predicate Shorts(xs: seq<int>) {
    forall i :: 0 <= i < |xs| ==> -32768 <= xs[i] <= 32767
  }

  function Abs(x: int): nat { if x < 0 then -x else x }

  function Min(a: int, b: int): int { if a < b then a else b }

  function Max(a: int, b: int): int { if a < b then b else a }

  function Signed(nibble: Nibble): int { if nibble >= 8 then nibble - 16 else nibble }

  // ---- decoding one nibble ----

  // The part of a channel's status that decoding reads and writes. step is the step index
  // for IMA, idelta for MS and the step itself for Yamaha.
  datatype State = State(sample1: int, sample2: int, step: int)

  datatype Codec = ImaWav | Ms(coeff1: int, coeff2: int) | Yamaha

  ghost predicate StateOk(v: Codec, s: State) {
    && -32768 <= s.sample1 <= 32767 && -32768 <= s.sample2 <= 32767
    && match v
       case ImaWav => 0 <= s.step <= 88
       case Ms(_, _) => s.step >= 16
       case Yamaha => 127 <= s.step <= 24567
  }

  function ImaPredict(predictor: int, stepIndex: StepIndex, nibble: Nibble): Short {
    var diff := (2 * (nibble % 8) + 1) * StepOf(stepIndex) / 8;
    ClampToShort(if nibble >= 8 then predictor - diff else predictor + diff)
  }

  function ImaNextIndex(stepIndex: int, nibble: Nibble): StepIndex {
    Clip(stepIndex + INDEX_TABLE[nibble], 0, 88)
  }

  function MsPredictor(v: Codec, sample1: int, sample2: int): int
    requires v.Ms?
  {
    Quot(sample1 * v.coeff1 + sample2 * v.coeff2, 256)
  }

  function MsNextDelta(idelta: int, nibble: Nibble): int {
    Max(16, ADAPTATION_TABLE[nibble] * idelta / 256)
  }

  function YamahaPredict(predictor: int, step: int, nibble: Nibble): Short {
    ClampToShort(predictor + Quot(step * YAMAHA_DIFFLOOKUP[nibble], 8))
  }

  function YamahaNextStep(step: int, nibble: Nibble): int {
    Clip(step * YAMAHA_INDEXSCALE[nibble] / 256, 127, 24567)
  }

  // One decoded sample: the new state, whose sample1 is the sample put out.
  function Expand(v: Codec, s: State, nibble: Nibble): (r: State)
    requires StateOk(v, s)
    ensures StateOk(v, r) && r.sample2 == s.sample1
  {
    match v
    case ImaWav => State(ImaPredict(s.sample1, s.step, nibble), s.sample1, ImaNextIndex(s.step, nibble))
    case Ms(_, _) =>
      State(ClampToShort(MsPredictor(v, s.sample1, s.sample2) + Signed(nibble) * s.step), s.sample1,
            MsNextDelta(s.step, nibble))
    case Yamaha => State(YamahaPredict(s.sample1, s.step, nibble), s.sample1, YamahaNextStep(s.step, nibble))
  }

  function Replay(v: Codec, s: State, nibbles: seq<Nibble>): (r: State)
    requires StateOk(v, s)
    ensures StateOk(v, r)
  {
    if nibbles == [] then s
    else Expand(v, Replay(v, s, nibbles[..|nibbles| - 1]), nibbles[|nibbles| - 1])
  }

  // The encoder's formula for IMA and Yamaha, with a signed product, is the decoder's.
  lemma ImaFormulasAgree(predictor: int, stepIndex: StepIndex, nibble: Nibble)
    ensures ClampToShort(predictor + Quot(StepOf(stepIndex) * YAMAHA_DIFFLOOKUP[nibble], 8))
            == ImaPredict(predictor, stepIndex, nibble)
  {
    var m := 2 * (nibble % 8) + 1;
    assert YAMAHA_DIFFLOOKUP[nibble] == if nibble >= 8 then -m else m;
    var s := StepOf(stepIndex);
    assert s * -m == -(s * m) && s * m == m * s;
    assert s * m > 0;
  }

  // ---- a channel ----

  class ChannelStatus {
    var predictor: int
    var stepIndex: int
    var step: int
    var prevSample: int
    var sample1: int
    var sample2: int
    var coeff1: int
    var coeff2: int
    var idelta: int

    // adpcm_decode_init and a zeroed encoder context agree on these.
    constructor ()
      ensures predictor == stepIndex == step == prevSample == sample1 == sample2 == coeff1 == coeff2 == idelta == 0
    {
      predictor, stepIndex, step, prevSample := 0, 0, 0, 0;
      sample1, sample2, coeff1, coeff2, idelta := 0, 0, 0, 0, 0;
    }
  }
}
