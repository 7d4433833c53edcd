// Greedy encoding and block decoding in lockstep: what the decoder puts out for an encoded
// block is, sample for sample, what the encoder had reconstructed.
module AdpcmBlocks {
  import opened Adpcm

  // ---- one sample, encoder side ----

  // IMA and Yamaha keep no second sample outside the trellis search.
  function Advance(v: Codec, s: State, nibble: Nibble): (r: State)
    requires StateOk(v, s)
    ensures StateOk(v, r)
  {
    if v.Ms? then Expand(v, s, nibble) else Expand(v, s, nibble).(sample2 := 0)
  }

  function ScaledNibble(delta: int, step: int): Nibble
    requires step > 0
  {
    Min(7, Abs(delta) * 4 / step) + if delta < 0 then 8 else 0
  }

  function MsNibble(delta: int, idelta: int): Nibble
    requires idelta > 0
  {
    var bias := if delta >= 0 then Quot(idelta, 2) else Quot(-idelta, 2);
    var n := Clip(Quot(delta + bias, idelta), -8, 7);
    if n < 0 then n + 16 else n
  }

  // The nibble the greedy encoder chooses.
  function Greedy(v: Codec, s: State, sample: int): Nibble
    requires StateOk(v, s)
  {
    match v
    case ImaWav => ScaledNibble(sample - s.sample1, StepOf(s.step))
    case Ms(_, _) => MsNibble(sample - MsPredictor(v, s.sample1, s.sample2), s.step)
    case Yamaha => ScaledNibble(sample - s.sample1, s.step)
  }

  function EncoderState(v: Codec, c: ChannelStatus): State
    reads c
  {
    match v
    case ImaWav => State(c.prevSample, 0, c.stepIndex)
    case Ms(_, _) => State(c.sample1, c.sample2, c.idelta)
    case Yamaha => if c.step == 0 then State(0, 0, 127) else State(c.predictor, 0, c.step)
  }

  function DecoderState(v: Codec, c: ChannelStatus): State
    reads c
  {
    if v.ImaWav? then State(c.predictor, 0, c.stepIndex) else EncoderState(v, c)
  }

  method ImaCompressSample(c: ChannelStatus, sample: int) returns (nibble: Nibble)
    requires StateOk(ImaWav, EncoderState(ImaWav, c))
    modifies c
    ensures nibble == Greedy(ImaWav, old(EncoderState(ImaWav, c)), sample)
    ensures EncoderState(ImaWav, c) == Advance(ImaWav, old(EncoderState(ImaWav, c)), nibble)
  {
    var delta := sample - c.prevSample;
    var step := StepOf(c.stepIndex);
    nibble := ScaledNibble(delta, step);
    ImaFormulasAgree(c.prevSample, c.stepIndex, nibble);
    c.prevSample := ClampToShort(c.prevSample + Quot(step * YAMAHA_DIFFLOOKUP[nibble], 8));
    c.stepIndex := Clip(c.stepIndex + INDEX_TABLE[nibble], 0, 88);
  }

  method ImaExpandNibble(c: ChannelStatus, nibble: Nibble) returns (sample: int)
    requires StateOk(ImaWav, DecoderState(ImaWav, c))
    modifies c
    ensures DecoderState(ImaWav, c) == Advance(ImaWav, old(DecoderState(ImaWav, c)), nibble)
    ensures sample == DecoderState(ImaWav, c).sample1
  {
    var step := StepOf(c.stepIndex);
    var stepIndex := c.stepIndex + INDEX_TABLE[nibble];
    if stepIndex < 0 { stepIndex := 0; } else if stepIndex > 88 { stepIndex := 88; }
    var diff := (2 * (nibble % 8) + 1) * step / 8;
    var predictor := c.predictor;
    if nibble >= 8 { predictor := predictor - diff; } else { predictor := predictor + diff; }
    c.predictor := ClampToShort(predictor);
    c.stepIndex := stepIndex;
    sample := c.predictor;
  }

  method MsCompressSample(c: ChannelStatus, sample: int) returns (nibble: Nibble)
    requires StateOk(Ms(c.coeff1, c.coeff2), EncoderState(Ms(c.coeff1, c.coeff2), c))
    modifies c
    ensures c.coeff1 == old(c.coeff1) && c.coeff2 == old(c.coeff2)
    ensures var v := Ms(c.coeff1, c.coeff2);
            && nibble == Greedy(v, old(EncoderState(Ms(c.coeff1, c.coeff2), c)), sample)
            && EncoderState(v, c) == Advance(v, old(EncoderState(Ms(c.coeff1, c.coeff2), c)), nibble)
  {
    var predictor := Quot(c.sample1 * c.coeff1 + c.sample2 * c.coeff2, 256);
    var n := sample - predictor;
    var bias;
    if n >= 0 { bias := Quot(c.idelta, 2); } else { bias := Quot(-c.idelta, 2); }
    n := Clip(Quot(n + bias, c.idelta), -8, 7);
    nibble := if n < 0 then n + 16 else n;
    predictor := ClampToShort(predictor + Signed(nibble) * c.idelta);
    c.sample2 := c.sample1;
    c.sample1 := predictor;
    c.idelta := ADAPTATION_TABLE[nibble] * c.idelta / 256;
    if c.idelta < 16 { c.idelta := 16; }
  }

  method MsExpandNibble(c: ChannelStatus, nibble: Nibble) returns (sample: int)
    requires StateOk(Ms(c.coeff1, c.coeff2), DecoderState(Ms(c.coeff1, c.coeff2), c))
    modifies c
    ensures c.coeff1 == old(c.coeff1) && c.coeff2 == old(c.coeff2)
    ensures var v := Ms(c.coeff1, c.coeff2);
            && DecoderState(v, c) == Advance(v, old(DecoderState(Ms(c.coeff1, c.coeff2), c)), nibble)
            && sample == DecoderState(v, c).sample1
  {
    var predictor := Quot(c.sample1 * c.coeff1 + c.sample2 * c.coeff2, 256);
    predictor := ClampToShort(predictor + Signed(nibble) * c.idelta);
    c.sample2 := c.sample1;
    c.sample1 := predictor;
    c.idelta := ADAPTATION_TABLE[nibble] * c.idelta / 256;
    if c.idelta < 16 { c.idelta := 16; }
    sample := predictor;
  }

  method YamahaCompressSample(c: ChannelStatus, sample: int) returns (nibble: Nibble)
    requires StateOk(Yamaha, EncoderState(Yamaha, c))
    modifies c
    ensures nibble == Greedy(Yamaha, old(EncoderState(Yamaha, c)), sample)
    ensures EncoderState(Yamaha, c) == Advance(Yamaha, old(EncoderState(Yamaha, c)), nibble)
  {
    if c.step == 0 {
      c.predictor := 0;
      c.step := 127;
    }
    var delta := sample - c.predictor;
    nibble := ScaledNibble(delta, c.step);
    c.predictor := ClampToShort(c.predictor + Quot(c.step * YAMAHA_DIFFLOOKUP[nibble], 8));
    c.step := Clip(c.step * YAMAHA_INDEXSCALE[nibble] / 256, 127, 24567);
  }

  method YamahaExpandNibble(c: ChannelStatus, nibble: Nibble) returns (sample: int)
    requires StateOk(Yamaha, DecoderState(Yamaha, c))
    modifies c
    ensures DecoderState(Yamaha, c) == Advance(Yamaha, old(DecoderState(Yamaha, c)), nibble)
    ensures sample == DecoderState(Yamaha, c).sample1
  {
    if c.step == 0 {
      c.predictor := 0;
      c.step := 127;
    }
    c.predictor := ClampToShort(c.predictor + Quot(c.step * YAMAHA_DIFFLOOKUP[nibble], 8));
    c.step := Clip(c.step * YAMAHA_INDEXSCALE[nibble] / 256, 127, 24567);
    sample := c.predictor;
  }

  // ---- quality of one sample ----

  // A nibble that did not saturate lands within an eighth of a step, plus rounding.
  lemma ImaErrorBound(s: State, sample: int)
    requires StateOk(ImaWav, s) && -32768 <= sample <= 32767
    ensures var step := StepOf(s.step);
            var got := Advance(ImaWav, s, Greedy(ImaWav, s, sample)).sample1;
            Abs(sample - s.sample1) * 4 / step <= 7 ==> Abs(sample - got) <= step / 8 + 1
  {
    var step := StepOf(s.step);
    var delta := sample - s.sample1;
    var n := ScaledNibble(delta, step);
    var q := Abs(delta) * 4 / step;
    if q <= 7 {
      NibbleParts(delta, step, q, n);
      QuotientBracket(Abs(delta), step, q);
      var diff := (2 * q + 1) * step / 8;
      ClampMovesCloser(if delta < 0 then s.sample1 - diff else s.sample1 + diff, sample);
      assert ImaPredict(s.sample1, s.step, n) == ClampToShort(if n >= 8 then s.sample1 - diff else s.sample1 + diff);
    }
  }

  lemma NibbleParts(delta: int, step: int, q: int, n: Nibble)
    requires step > 0 && q == Abs(delta) * 4 / step && q <= 7 && n == ScaledNibble(delta, step)
    ensures 0 <= q && n % 8 == q && (n >= 8 <==> delta < 0)
  {
  }

  lemma QuotientBracket(a: nat, step: int, q: int)
    requires step > 0 && q == a * 4 / step && 0 <= q <= 7
    ensures Abs(a - (2 * q + 1) * step / 8) <= step / 8 + 1
  {
    assert q * step <= a * 4 < (q + 1) * step;
    if q == 0 { } else if q == 1 { } else if q == 2 { } else if q == 3 { }
    else if q == 4 { } else if q == 5 { } else if q == 6 { } else { }
  }

  // The greedy nibble of IMA and Yamaha against any other: nearer to the difference, but for what
  // rounding the two values can cost.
  lemma ScaledIsNearest(delta: int, step: int, y: Nibble)
    requires step >= 7
    ensures Abs(delta - Jump(step, ScaledNibble(delta, step))) <= Abs(delta - Jump(step, y)) + 1
    ensures Abs(delta) * 4 / step <= 7 ==> Abs(delta - Jump(step, ScaledNibble(delta, step))) <= step / 8 + 1
  {
    var n, a := ScaledNibble(delta, step), Abs(delta);
    var k := Min(7, a * 4 / step);
    QuotientAtLeast(a, step);
    JumpIs(step, n, k);
    JumpIs(step, y, y % 8);
    MiddleIsNearest(a, step, k, y % 8);
    MiddleRises(0, y % 8, step);
    MiddleIsNearest(a, step, k, 0);
    if a * 4 / step <= 7 {
      QuotientBracket(a, step, k);
    }
  }

  // What a nibble adds to the predictor.
  function Jump(step: int, n: Nibble): int { Quot(step * YAMAHA_DIFFLOOKUP[n], 8) }

  function Middle(k: int, step: int): int { (2 * k + 1) * step / 8 }

  lemma QuotientAtLeast(a: nat, step: int)
    requires step > 0
    ensures 0 <= a * 4 / step
  {
  }

  lemma JumpIs(step: int, n: Nibble, k: int)
    requires step > 0 && k == n % 8
    ensures Jump(step, n) == (if n >= 8 then -Middle(k, step) else Middle(k, step)) && Middle(k, step) >= 0
  {
    var m := 2 * k + 1;
    assert YAMAHA_DIFFLOOKUP[n] == if n >= 8 then -m else m;
    assert step * -m == -(step * m) && step * m == m * step;
    assert m * step > 0;
  }

  lemma MiddleRises(j: int, k: int, step: int)
    requires step > 0 && j <= k
    ensures Middle(j, step) <= Middle(k, step)
  {
    assert (k - j) * step >= 0;
    assert (2 * k + 1) * step == (2 * j + 1) * step + 2 * ((k - j) * step);
  }

  // Each quarter of a step has its middle; that of the quarter a lies in is the nearest.
  lemma MiddleIsNearest(a: nat, step: int, k: int, j: int)
    requires step > 0 && k == Min(7, a * 4 / step) && 0 <= k && 0 <= j <= 7
    ensures Abs(a - Middle(k, step)) <= Abs(a - Middle(j, step)) + 1
  {
    Quarter(a, step, k);
    MiddleSteps(k, step);
    Neighbours(a, step, k * step);
    if j < k {
      MiddleRises(j, k - 1, step);
    } else if k < j {
      MiddleRises(k + 1, j, step);
    }
  }

  lemma Quarter(a: nat, step: int, k: int)
    requires step > 0 && k == Min(7, a * 4 / step) && 0 <= k
    ensures k * step <= 4 * a && (k < 7 ==> 4 * a < k * step + step)
  {
    var q := a * 4 / step;
    assert q * step <= a * 4 < q * step + step;
    assert (q - k) * step >= 0;
  }

  lemma MiddleSteps(k: int, step: int)
    ensures Middle(k, step) == (2 * (k * step) + step) / 8
    ensures Middle(k - 1, step) == (2 * (k * step) - step) / 8
    ensures Middle(k + 1, step) == (2 * (k * step) + 3 * step) / 8
  {
  }

  lemma Neighbours(a: nat, step: int, u: int)
    requires step > 0 && u <= 4 * a
    ensures (2 * u - step) / 8 <= a && Abs(a - (2 * u + step) / 8) <= a - (2 * u - step) / 8 + 1
    ensures 4 * a < u + step ==>
      a <= (2 * u + 3 * step) / 8 && Abs(a - (2 * u + step) / 8) <= (2 * u + 3 * step) / 8 - a + 1
  {
  }

  // A Yamaha nibble that did not saturate lands as near; no other's value is nearer by more than one.
  lemma YamahaErrorBound(s: State, sample: int, y: Nibble)
    requires StateOk(Yamaha, s) && -32768 <= sample <= 32767
    ensures var n := Greedy(Yamaha, s, sample);
      && Abs(sample - s.sample1 - Jump(s.step, n)) <= Abs(sample - s.sample1 - Jump(s.step, y)) + 1
      && (Abs(sample - s.sample1) * 4 / s.step <= 7 ==>
            Abs(sample - Advance(Yamaha, s, n).sample1) <= s.step / 8 + 1)
  {
    var n := Greedy(Yamaha, s, sample);
    ScaledIsNearest(sample - s.sample1, s.step, y);
    ClampMovesCloser(s.sample1 + Jump(s.step, n), sample);
  }

  // The MS nibble is the nearest of all sixteen.
  lemma MsNibbleIsNearest(delta: int, idelta: int, y: Nibble)
    requires idelta > 0
    ensures Abs(delta - Signed(MsNibble(delta, idelta)) * idelta) <= Abs(delta - Signed(y) * idelta)
    ensures Abs(delta - Signed(MsNibble(delta, idelta)) * idelta) <= idelta / 2 <==>
      -8 * idelta - idelta / 2 <= delta <= 7 * idelta + idelta / 2
  {
    var q := Quot(delta + if delta >= 0 then Quot(idelta, 2) else Quot(-idelta, 2), idelta);
    RoundedQuotient(delta, idelta, q);
    var k := Clip(q, -8, 7);
    ClippedNibble(q);
    ClippedIsNearest(delta, idelta, q, k, Signed(y));
  }

  lemma ClippedIsNearest(delta: int, step: int, q: int, k: int, y: int)
    requires step > 0 && Abs(delta - q * step) <= step / 2 && k == Clip(q, -8, 7) && -8 <= y <= 7
    ensures Abs(delta - k * step) <= Abs(delta - y * step)
    ensures Abs(delta - k * step) <= step / 2 <==> -8 * step - step / 2 <= delta <= 7 * step + step / 2
  {
    Steps(k, y, step);
    Steps(k, q, step);
    Steps(k, 7, step);
    Steps(k, -8, step);
    NoNearer(delta, step, q * step, k * step, y * step);
  }

  lemma NoNearer(delta: int, step: int, u: int, v: int, w: int)
    requires step > 0 && Abs(delta - u) <= step / 2
    requires w == v || w + step <= v || v + step <= w
    requires u == v || u + step <= v <= w || w <= v <= u - step
    ensures Abs(delta - v) <= Abs(delta - w)
  {
  }

  lemma RoundedQuotient(delta: int, idelta: int, q: int)
    requires idelta > 0 && q == Quot(delta + if delta >= 0 then Quot(idelta, 2) else Quot(-idelta, 2), idelta)
    ensures Abs(delta - q * idelta) <= idelta / 2
  {
    var x := Abs(delta) + idelta / 2;
    var a := x / idelta;
    assert Quot(-idelta, 2) == -(idelta / 2);
    assert a * idelta <= x < a * idelta + idelta;
    assert q == if delta >= 0 then a else -a;
    assert (-a) * idelta == -(a * idelta);
  }

  // Multiples of a step are at least a step apart.
  lemma Steps(j: int, k: int, step: int)
    requires step > 0
    ensures j < k ==> j * step + step <= k * step
    ensures k < j ==> k * step + step <= j * step
  {
    if j < k {
      MoreSteps(j, k, step);
    } else if k < j {
      MoreSteps(k, j, step);
    }
  }

  lemma MoreSteps(j: int, k: int, step: int)
    requires step > 0 && j < k
    ensures j * step + step <= k * step
  {
    var n := k - j - 1;
    assert n * step >= 0;
    assert k * step == j * step + step + n * step;
  }

  // A sample within reach is reconstructed within half a step, and no other nibble's value is nearer.
  lemma MsErrorBound(v: Codec, s: State, sample: int, y: Nibble)
    requires v.Ms? && StateOk(v, s) && -32768 <= sample <= 32767
    ensures var n, delta := Greedy(v, s, sample), sample - MsPredictor(v, s.sample1, s.sample2);
      && Abs(delta - Signed(n) * s.step) <= Abs(delta - Signed(y) * s.step)
      && (-8 * s.step - s.step / 2 <= delta <= 7 * s.step + s.step / 2 ==>
            Abs(sample - Advance(v, s, n).sample1) <= s.step / 2)
  {
    var n, p := Greedy(v, s, sample), MsPredictor(v, s.sample1, s.sample2);
    MsNibbleIsNearest(sample - p, s.step, y);
    ClampMovesCloser(p + Signed(n) * s.step, sample);
  }

  lemma ClampMovesCloser(x: int, target: int)
    requires -32768 <= target <= 32767
    ensures Abs(target - ClampToShort(x)) <= Abs(target - x)
  {
  }

  // With the predictor the greedy MS encoder uses, the adaptive step never outgrows 16 bits.
  lemma MsDeltaBounded(s: State, sample: int)
    requires StateOk(Ms(256, 0), s) && s.step <= 26214 && -32768 <= sample <= 32767
    ensures 16 <= Advance(Ms(256, 0), s, Greedy(Ms(256, 0), s, sample)).step <= 26214
  {
    var v := Ms(256, 0);
    assert MsPredictor(v, s.sample1, s.sample2) == s.sample1;
    var delta := sample - s.sample1;
    NibbleNeedsDelta(delta, s.step);
    NextDeltaBounded(s.step, MsNibble(delta, s.step), Abs(delta));
  }

  lemma NextDeltaBounded(idelta: int, n: Nibble, d: nat)
    requires 16 <= idelta <= 26214 && d <= 65535
    requires Abs(Signed(n)) > 0 ==> 2 * d >= (2 * Abs(Signed(n)) - 1) * idelta
    ensures 16 <= MsNextDelta(idelta, n) <= 26214
  {
    match n
    case 4 => assert 7 * idelta <= 2 * d;
    case 5 => assert 9 * idelta <= 2 * d;
    case 6 => assert 11 * idelta <= 2 * d;
    case 7 => assert 13 * idelta <= 2 * d;
    case 8 => assert 15 * idelta <= 2 * d;
    case 9 => assert 13 * idelta <= 2 * d;
    case 10 => assert 11 * idelta <= 2 * d;
    case 11 => assert 9 * idelta <= 2 * d;
    case 12 => assert 7 * idelta <= 2 * d;
    case _ => assert ADAPTATION_TABLE[n] == 230;
  }

  // A nibble of magnitude m is only chosen for a difference of about m - 1/2 steps.
  lemma NibbleNeedsDelta(delta: int, idelta: int)
    requires idelta >= 16
    ensures var m := Abs(Signed(MsNibble(delta, idelta)));
            m > 0 ==> 2 * Abs(delta) >= (2 * m - 1) * idelta
  {
    var half := idelta / 2;
    var a := (Abs(delta) + half) / idelta;
    MsNibbleMagnitude(delta, idelta, a);
    var m := Abs(Signed(MsNibble(delta, idelta)));
    QuotientTimes(Abs(delta) + half, idelta, a, m);
  }

  lemma MsNibbleMagnitude(delta: int, idelta: int, a: int)
    requires idelta >= 16 && a == (Abs(delta) + idelta / 2) / idelta
    ensures Abs(Signed(MsNibble(delta, idelta))) <= a
  {
    var x := Abs(delta) + idelta / 2;
    var y := delta + if delta >= 0 then Quot(idelta, 2) else Quot(-idelta, 2);
    assert y == if delta >= 0 then x else -x;
    QuotientSign(y, idelta, x, a);
    ClippedNibble(Quot(y, idelta));
  }

  lemma QuotientSign(y: int, d: int, x: int, a: int)
    requires d > 0 && x > 0 && a == x / d && (y == x || y == -x)
    ensures Abs(Quot(y, d)) == a
  {
    DivNonNegative(x, d);
  }

  lemma DivNonNegative(x: int, d: int)
    requires d > 0 && x >= 0
    ensures x / d >= 0
  {
  }

  lemma ClippedNibble(q: int)
    ensures var n := Clip(q, -8, 7);
            Signed(if n < 0 then n + 16 else n) == n && Abs(n) <= Abs(q)
  {
  }

  lemma QuotientTimes(x: int, d: int, q: int, m: int)
    requires d > 0 && x >= 0 && q == x / d && m <= q
    ensures m * d <= x
  {
    assert q * d <= x;
    assert (q - m) * d >= 0;
  }

  // ---- runs of samples ----

  type Step = (State, Nibble) -> State
  type Choice = (State, int) -> Nibble

  // A codec seen from outside: what a nibble does to the state, and which nibble is chosen.
  datatype Model = Model(f: Step, g: Choice)

  // Names a state and a nibble or sample at which the model is to be compared with the codec.
  predicate At(s: State, x: int) { true }

  // The model is the codec's, on every state the codec can be in.
  ghost predicate Implements(m: Model, v: Codec) {
    && (forall s: State, n: Nibble {:trigger At(s, n), m.f(s, n)} :: StateOk(v, s) ==> m.f(s, n) == Advance(v, s, n))
    && (forall s: State, x: int {:trigger At(s, x), m.g(s, x)} :: StateOk(v, s) ==> m.g(s, x) == Greedy(v, s, x))
  }

  // Every codec has its model.
  lemma ModelOf(v: Codec) returns (m: Model)
    ensures Implements(m, v)
  {
    m := Model((s: State, n: Nibble) => if StateOk(v, s) then Advance(v, s, n) else s,
               (s: State, x: int) => if StateOk(v, s) then Greedy(v, s, x) else 0);
  }

  ghost function Run(f: Step, s: State, nibbles: seq<Nibble>): State {
    if nibbles == [] then s else f(Run(f, s, nibbles[..|nibbles| - 1]), nibbles[|nibbles| - 1])
  }

  // The samples a decoder puts out.
  ghost function Outputs(f: Step, s: State, nibbles: seq<Nibble>): (r: seq<int>)
    ensures |r| == |nibbles|
  {
    if nibbles == [] then [] else Outputs(f, s, nibbles[..|nibbles| - 1]) + [Run(f, s, nibbles).sample1]
  }

  // The nibbles an encoder chooses for a run of samples.
  ghost function Chosen(f: Step, g: Choice, s: State, samples: seq<int>): (r: seq<Nibble>)
    ensures |r| == |samples|
  {
    if samples == [] then []
    else
      var before := Chosen(f, g, s, samples[..|samples| - 1]);
      before + [g(Run(f, s, before), samples[|samples| - 1])]
  }

  lemma RunOne(f: Step, s: State, a: seq<Nibble>, n: Nibble)
    ensures Run(f, s, a + [n]) == f(Run(f, s, a), n)
    ensures Outputs(f, s, a + [n]) == Outputs(f, s, a) + [f(Run(f, s, a), n).sample1]
  {
    assert (a + [n])[..|a|] == a;
  }

  lemma ChosenOne(f: Step, g: Choice, s: State, xs: seq<int>, x: int)
    ensures Chosen(f, g, s, xs + [x]) == Chosen(f, g, s, xs) + [g(Run(f, s, Chosen(f, g, s, xs)), x)]
  {
    assert (xs + [x])[..|xs|] == xs;
  }

  // One more sample of a run: what the encoder's own reconstruction is.
  lemma ChosenStep(f: Step, g: Choice, s: State, xs: seq<int>, x: int, n: Nibble)
    requires n == g(Run(f, s, Chosen(f, g, s, xs)), x)
    ensures Chosen(f, g, s, xs + [x]) == Chosen(f, g, s, xs) + [n]
    ensures Run(f, s, Chosen(f, g, s, xs + [x])) == f(Run(f, s, Chosen(f, g, s, xs)), n)
  {
    ChosenOne(f, g, s, xs, x);
    RunOne(f, s, Chosen(f, g, s, xs), n);
  }

  ghost predicate Matches(v: Codec, c: ChannelStatus)
    reads c
  {
    v.Ms? ==> v == Ms(c.coeff1, c.coeff2)
  }

  // One sample in any of the three codecs.
  method Compress(v: Codec, ghost m: Model, c: ChannelStatus, x: int) returns (n: Nibble)
    requires Implements(m, v) && Matches(v, c) && StateOk(v, EncoderState(v, c))
    modifies c
    ensures Matches(v, c) && StateOk(v, EncoderState(v, c))
    ensures n == m.g(old(EncoderState(v, c)), x)
    ensures EncoderState(v, c) == m.f(old(EncoderState(v, c)), n)
  {
    ghost var s := EncoderState(v, c);
    match v {
      case ImaWav => n := ImaCompressSample(c, x);
      case Ms(_, _) => n := MsCompressSample(c, x);
      case Yamaha => n := YamahaCompressSample(c, x);
    }
    assert At(s, x) && At(s, n);
  }

  method Decompress(v: Codec, ghost m: Model, c: ChannelStatus, n: Nibble) returns (x: int)
    requires Implements(m, v) && Matches(v, c) && StateOk(v, DecoderState(v, c))
    modifies c
    ensures Matches(v, c) && StateOk(v, DecoderState(v, c))
    ensures DecoderState(v, c) == m.f(old(DecoderState(v, c)), n)
    ensures x == DecoderState(v, c).sample1
  {
    ghost var s := DecoderState(v, c);
    match v {
      case ImaWav => x := ImaExpandNibble(c, n);
      case Ms(_, _) => x := MsExpandNibble(c, n);
      case Yamaha => x := YamahaExpandNibble(c, n);
    }
    assert At(s, n);
  }

  // ---- encoder runs ----

  ghost function Encoded(m: Model, s: State, xs: seq<int>): (n: seq<Nibble>)
    ensures |n| == |xs|
  {
    Chosen(m.f, m.g, s, xs)
  }

  ghost function Decoded(m: Model, s: State, n: seq<Nibble>): (xs: seq<int>)
    ensures |xs| == |n|
  {
    Outputs(m.f, s, n)
  }

  ghost function After(m: Model, s: State, n: seq<Nibble>): State {
    Run(m.f, s, n)
  }

  // The encoder has coded xs since it was in state s.
  ghost predicate Tracks(v: Codec, m: Model, c: ChannelStatus, s: State, xs: seq<int>)
    reads c
  {
    && Implements(m, v) && Matches(v, c) && StateOk(v, EncoderState(v, c))
    && EncoderState(v, c) == After(m, s, Encoded(m, s, xs))
  }

  // The decoder has read the nibbles n since it was in state s.
  ghost predicate Follows(v: Codec, m: Model, c: ChannelStatus, s: State, n: seq<Nibble>)
    reads c
  {
    Implements(m, v) && Matches(v, c) && StateOk(v, DecoderState(v, c)) && DecoderState(v, c) == After(m, s, n)
  }

  method CompressNext(v: Codec, ghost m: Model, c: ChannelStatus, x: int, ghost s: State, ghost xs: seq<int>)
      returns (n: Nibble)
    requires Tracks(v, m, c, s, xs)
    modifies c
    ensures Tracks(v, m, c, s, xs + [x]) && Encoded(m, s, xs + [x]) == Encoded(m, s, xs) + [n]
  {
    n := Compress(v, m, c, x);
    ChosenStep(m.f, m.g, s, xs, x, n);
  }

  method DecompressNext(v: Codec, ghost m: Model, c: ChannelStatus, n: Nibble, ghost s: State, ghost ns: seq<Nibble>)
      returns (x: int)
    requires Follows(v, m, c, s, ns)
    modifies c
    ensures Follows(v, m, c, s, ns + [n]) && Decoded(m, s, ns + [n]) == Decoded(m, s, ns) + [x]
  {
    x := Decompress(v, m, c, n);
    RunOne(m.f, s, ns, n);
  }

  // ---- bytes ----

  type Byte = b: int | 0 <= b < 256

  function Le16(x: int): (b: seq<Byte>)
    ensures |b| == 2
  {
    [x % 256, x / 256 % 256]
  }

  // (int16_t)(lo + (hi << 8))
  function ReadLe16(lo: Byte, hi: Byte): int {
    var u := lo + 256 * hi;
    if u >= 32768 then u - 65536 else u
  }

  lemma Le16RoundTrip(x: int)
    requires -32768 <= x <= 32767
    ensures ReadLe16(Le16(x)[0], Le16(x)[1]) == x
  {
  }

  // A byte from two nibbles in coding order; MS puts the first one high, the others low.
  function Join(v: Codec, a: Nibble, b: Nibble): Byte { if v.Ms? then 16 * a + b else a + 16 * b }

  function First(v: Codec, b: Byte): Nibble { if v.Ms? then b / 16 else b % 16 }

  function Second(v: Codec, b: Byte): Nibble { if v.Ms? then b % 16 else b / 16 }

  function Pack(v: Codec, n: seq<Nibble>): (b: seq<Byte>)
    ensures 2 * |b| <= |n| <= 2 * |b| + 1
  {
    if |n| < 2 then [] else Pack(v, n[..|n| - 2]) + [Join(v, n[|n| - 2], n[|n| - 1])]
  }

  function Unpack(v: Codec, b: seq<Byte>): (n: seq<Nibble>)
    ensures |n| == 2 * |b|
  {
    if b == [] then [] else Unpack(v, b[..|b| - 1]) + [First(v, b[|b| - 1]), Second(v, b[|b| - 1])]
  }

  lemma PackPair(v: Codec, n: seq<Nibble>, a: Nibble, b: Nibble)
    ensures Pack(v, n + [a, b]) == Pack(v, n) + [Join(v, a, b)]
  {
    assert (n + [a, b])[..|n|] == n;
  }

  lemma UnpackByte(v: Codec, bytes: seq<Byte>, b: Byte)
    ensures Unpack(v, bytes + [b]) == Unpack(v, bytes) + [First(v, b), Second(v, b)]
  {
    assert (bytes + [b])[..|bytes|] == bytes;
  }

  lemma SplitJoined(v: Codec, a: Nibble, b: Nibble)
    ensures First(v, Join(v, a, b)) == a && Second(v, Join(v, a, b)) == b
  {
  }

  lemma {:induction false} UnpackPack(v: Codec, n: seq<Nibble>, pairs: nat)
    requires |n| == 2 * pairs
    ensures Unpack(v, Pack(v, n)) == n
  {
    if pairs > 0 {
      var m := n[..|n| - 2];
      var a, b := n[|n| - 2], n[|n| - 1];
      assert n == m + [a, b];
      UnpackPack(v, m, pairs - 1);
      PackPair(v, m, a, b);
      UnpackByte(v, Pack(v, m), Join(v, a, b));
      SplitJoined(v, a, b);
    }
  }

  // ---- channels in turn ----

  function Interleave<T>(a: seq<T>, b: seq<T>): (r: seq<T>)
    requires |a| == |b|
    ensures |r| == 2 * |a|
  {
    if a == [] then [] else Interleave(a[..|a| - 1], b[..|a| - 1]) + [a[|a| - 1], b[|a| - 1]]
  }

  lemma InterleaveOne<T>(a: seq<T>, b: seq<T>, x: T, y: T)
    requires |a| == |b|
    ensures Interleave(a + [x], b + [y]) == Interleave(a, b) + [x, y]
  {
    assert (a + [x])[..|a|] == a && (b + [y])[..|a|] == b;
  }

  function Evens<T>(s: seq<T>): (r: seq<T>)
    ensures 2 * |r| <= |s| <= 2 * |r| + 1
  {
    if |s| < 2 then [] else Evens(s[..|s| - 2]) + [s[|s| - 2]]
  }

  function Odds<T>(s: seq<T>): (r: seq<T>)
    ensures 2 * |r| <= |s| <= 2 * |r| + 1
  {
    if |s| < 2 then [] else Odds(s[..|s| - 2]) + [s[|s| - 1]]
  }

  lemma SplitPair<T>(s: seq<T>, x: T, y: T)
    ensures Evens(s + [x, y]) == Evens(s) + [x] && Odds(s + [x, y]) == Odds(s) + [y]
  {
    assert (s + [x, y])[..|s|] == s;
  }

  lemma {:induction false} SplitInterleave<T>(a: seq<T>, b: seq<T>)
    requires |a| == |b|
    ensures Evens(Interleave(a, b)) == a && Odds(Interleave(a, b)) == b
  {
    if a != [] {
      var m := |a| - 1;
      SplitInterleave(a[..m], b[..m]);
      SplitLast(a, b, Interleave(a[..m], b[..m]), a[..m], b[..m], m);
    }
  }

  lemma SplitLast<T>(a: seq<T>, b: seq<T>, t: seq<T>, c: seq<T>, d: seq<T>, m: nat)
    requires |a| == |b| == m + 1 && c == a[..m] && d == b[..m] && t == Interleave(c, d) && Evens(t) == c && Odds(t) == d
    ensures Evens(Interleave(a, b)) == a && Odds(Interleave(a, b)) == b
  {
    SplitPair(t, a[m], b[m]);
    assert Interleave(a, b) == t + [a[m], b[m]];
    assert a == c + [a[m]] && b == d + [b[m]];
  }

  // ---- runs of bytes ----

  // Two samples of one channel into a byte.
  method CompressByte(v: Codec, ghost m: Model, c: ChannelStatus, x: int, y: int, ghost s: State, ghost xs: seq<int>)
      returns (byte: Byte, ghost a: Nibble, ghost b: Nibble)
    requires Tracks(v, m, c, s, xs)
    modifies c
    ensures Tracks(v, m, c, s, xs + [x, y]) && Encoded(m, s, xs + [x, y]) == Encoded(m, s, xs) + [a, b]
    ensures byte == Join(v, a, b)
  {
    var n := CompressNext(v, m, c, x, s, xs);
    var k := CompressNext(v, m, c, y, s, xs + [x]);
    a, b := n, k;
    assert xs + [x] + [y] == xs + [x, y];
    byte := Join(v, n, k);
  }

  // Codes 2 * pairs samples of one channel.
  method CompressRun(v: Codec, ghost m: Model, c: ChannelStatus, ys: seq<int>, pairs: nat, ghost s: State,
                     ghost xs: seq<int>)
      returns (bytes: seq<Byte>, ghost out: seq<Nibble>)
    requires Tracks(v, m, c, s, xs) && |ys| == 2 * pairs
    modifies c
    ensures Tracks(v, m, c, s, xs + ys)
    ensures |out| == |ys| && Encoded(m, s, xs + ys) == Encoded(m, s, xs) + out && bytes == Pack(v, out)
  {
    bytes, out := [], [];
    ghost var done, base := xs, Encoded(m, s, xs);
    for i := 0 to pairs
      invariant |out| == 2 * i && bytes == Pack(v, out)
      invariant done == xs + ys[..2 * i] && Tracks(v, m, c, s, done)
      invariant Encoded(m, s, done) == base + out
    {
      var x, y := ys[2 * i], ys[2 * i + 1];
      MorePairs(xs, ys, i, i + 1);
      var byte, a, b := CompressByte(v, m, c, x, y, s, done);
      done := done + [x, y];
      PackPair(v, out, a, b);
      bytes := bytes + [byte];
      out := out + [a, b];
    }
    assert xs + ys[..2 * pairs] == xs + ys;
  }

  lemma MorePairs(xs: seq<int>, ys: seq<int>, m: nat, k: nat)
    requires k == m + 1 && 2 * k <= |ys|
    ensures xs + ys[..2 * k] == xs + ys[..2 * m] + [ys[2 * m], ys[2 * m + 1]]
  {
  }

  lemma SplitFirstPairs<T>(ys: seq<T>, m: nat, k: nat)
    requires k == m + 1 && 2 * k <= |ys|
    ensures Evens(ys[..2 * k]) == Evens(ys[..2 * m]) + [ys[2 * m]]
    ensures Odds(ys[..2 * k]) == Odds(ys[..2 * m]) + [ys[2 * m + 1]]
  {
    assert ys[..2 * k] == ys[..2 * m] + [ys[2 * m], ys[2 * m + 1]];
    SplitPair(ys[..2 * m], ys[2 * m], ys[2 * m + 1]);
  }

  lemma PackBoth(v: Codec, e: seq<Nibble>, o: seq<Nibble>, a: Nibble, b: Nibble)
    requires |e| == |o|
    ensures Pack(v, Interleave(e + [a], o + [b])) == Pack(v, Interleave(e, o)) + [Join(v, a, b)]
  {
    InterleaveOne(e, o, a, b);
    PackPair(v, Interleave(e, o), a, b);
  }

  // One sample of each channel into a byte.
  method CompressBoth(v: Codec, ghost m: Model, c0: ChannelStatus, c1: ChannelStatus, x: int, y: int, ghost s0: State,
                      ghost s1: State, ghost e: seq<int>, ghost o: seq<int>)
      returns (byte: Byte, ghost a: Nibble, ghost b: Nibble)
    requires c0 != c1 && Tracks(v, m, c0, s0, e) && Tracks(v, m, c1, s1, o)
    modifies c0, c1
    ensures Tracks(v, m, c0, s0, e + [x]) && Tracks(v, m, c1, s1, o + [y])
    ensures Encoded(m, s0, e + [x]) == Encoded(m, s0, e) + [a] && Encoded(m, s1, o + [y]) == Encoded(m, s1, o) + [b]
    ensures byte == Join(v, a, b)
  {
    var n := CompressNext(v, m, c0, x, s0, e);
    var k := CompressNext(v, m, c1, y, s1, o);
    a, b := n, k;
    byte := Join(v, n, k);
  }

  // The first i pairs of samples have been coded.
  ghost predicate PairsCoded(v: Codec, m: Model, ys: seq<int>, i: nat, s0: State, s1: State, e: seq<int>, o: seq<int>,
                             bytes: seq<Byte>) {
    && 2 * i <= |ys| && e == Evens(ys[..2 * i]) && o == Odds(ys[..2 * i]) && |e| == |o|
    && |Encoded(m, s0, e)| == |Encoded(m, s1, o)| && bytes == Pack(v, Interleave(Encoded(m, s0, e), Encoded(m, s1, o)))
  }

  lemma OneMorePair(v: Codec, m: Model, ys: seq<int>, i: nat, s0: State, s1: State, e: seq<int>, o: seq<int>,
                    bytes: seq<Byte>, a: Nibble, b: Nibble)
    requires PairsCoded(v, m, ys, i, s0, s1, e, o, bytes) && 2 * i + 2 <= |ys|
    requires Encoded(m, s0, e + [ys[2 * i]]) == Encoded(m, s0, e) + [a]
    requires Encoded(m, s1, o + [ys[2 * i + 1]]) == Encoded(m, s1, o) + [b]
    ensures PairsCoded(v, m, ys, i + 1, s0, s1, e + [ys[2 * i]], o + [ys[2 * i + 1]], bytes + [Join(v, a, b)])
  {
    SplitFirstPairs(ys, i, i + 1);
    PackBoth(v, Encoded(m, s0, e), Encoded(m, s1, o), a, b);
  }

  // Codes the samples of two channels in turn (MS stereo).
  method CompressPairs(v: Codec, ghost m: Model, c0: ChannelStatus, c1: ChannelStatus, ys: seq<int>, pairs: nat,
                       ghost s0: State, ghost s1: State)
      returns (bytes: seq<Byte>, ghost e: seq<int>, ghost o: seq<int>)
    requires c0 != c1 && |ys| == 2 * pairs && Tracks(v, m, c0, s0, []) && Tracks(v, m, c1, s1, [])
    modifies c0, c1
    ensures e == Evens(ys) && o == Odds(ys) && Tracks(v, m, c0, s0, e) && Tracks(v, m, c1, s1, o)
    ensures bytes == Pack(v, Interleave(Encoded(m, s0, e), Encoded(m, s1, o)))
  {
    bytes, e, o := [], [], [];
    for i := 0 to pairs
      invariant PairsCoded(v, m, ys, i, s0, s1, e, o, bytes)
      invariant Tracks(v, m, c0, s0, e) && Tracks(v, m, c1, s1, o)
    {
      var x, y := ys[2 * i], ys[2 * i + 1];
      var byte, a, b := CompressBoth(v, m, c0, c1, x, y, s0, s1, e, o);
      OneMorePair(v, m, ys, i, s0, s1, e, o, bytes, a, b);
      bytes := bytes + [byte];
      e, o := e + [x], o + [y];
    }
    assert ys[..2 * pairs] == ys;
  }

  method DecompressByte(v: Codec, ghost m: Model, c0: ChannelStatus, byte: Byte, ghost s: State, ghost n: seq<Nibble>)
      returns (x: int, y: int)
    requires Follows(v, m, c0, s, n)
    modifies c0
    ensures var n' := n + [First(v, byte), Second(v, byte)];
            Follows(v, m, c0, s, n') && Decoded(m, s, n') == Decoded(m, s, n) + [x, y]
  {
    var a, b := First(v, byte), Second(v, byte);
    x := DecompressNext(v, m, c0, a, s, n);
    y := DecompressNext(v, m, c0, b, s, n + [a]);
    assert n + [a] + [b] == n + [a, b];
  }

  method DecompressRun(v: Codec, ghost m: Model, c: ChannelStatus, bytes: seq<Byte>, ghost s: State,
                       ghost n: seq<Nibble>) returns (out: seq<int>)
    requires Follows(v, m, c, s, n)
    modifies c
    ensures Follows(v, m, c, s, n + Unpack(v, bytes))
    ensures Decoded(m, s, n + Unpack(v, bytes)) == Decoded(m, s, n) + out
  {
    out := [];
    ghost var read, base := n, Decoded(m, s, n);
    for k := 0 to |bytes|
      invariant read == n + Unpack(v, bytes[..k]) && Follows(v, m, c, s, read)
      invariant Decoded(m, s, read) == base + out
    {
      MoreNibbles(v, n, bytes, k, k + 1);
      var x, y := DecompressByte(v, m, c, bytes[k], s, read);
      read := read + [First(v, bytes[k]), Second(v, bytes[k])];
      out := out + [x, y];
    }
    assert bytes[..|bytes|] == bytes;
  }

  lemma MoreNibbles(v: Codec, n: seq<Nibble>, bytes: seq<Byte>, k: nat, l: nat)
    requires l == k + 1 <= |bytes|
    ensures n + Unpack(v, bytes[..l]) == n + Unpack(v, bytes[..k]) + [First(v, bytes[k]), Second(v, bytes[k])]
  {
    UnpackByte(v, bytes[..k], bytes[k]);
    assert bytes[..l] == bytes[..k] + [bytes[k]];
  }

  // A byte that holds a nibble of each channel.
  method DecompressBoth(v: Codec, ghost m: Model, c0: ChannelStatus, c1: ChannelStatus, byte: Byte, out0: seq<int>,
                        ghost s0: State, ghost s1: State, ghost e: seq<Nibble>, ghost o: seq<Nibble>)
      returns (out: seq<int>)
    requires c0 != c1 && |e| == |o| && Follows(v, m, c0, s0, e) && Follows(v, m, c1, s1, o)
    requires out0 == Interleave(Decoded(m, s0, e), Decoded(m, s1, o))
    modifies c0, c1
    ensures Follows(v, m, c0, s0, e + [First(v, byte)]) && Follows(v, m, c1, s1, o + [Second(v, byte)])
    ensures out == Interleave(Decoded(m, s0, e + [First(v, byte)]), Decoded(m, s1, o + [Second(v, byte)]))
  {
    ghost var de, od := Decoded(m, s0, e), Decoded(m, s1, o);
    var x := DecompressNext(v, m, c0, First(v, byte), s0, e);
    var y := DecompressNext(v, m, c1, Second(v, byte), s1, o);
    InterleaveOne(de, od, x, y);
    out := out0 + [x, y];
  }

  lemma SplitByte(v: Codec, bytes: seq<Byte>, k: nat)
    requires k < |bytes|
    ensures Evens(Unpack(v, bytes[..k + 1])) == Evens(Unpack(v, bytes[..k])) + [First(v, bytes[k])]
    ensures Odds(Unpack(v, bytes[..k + 1])) == Odds(Unpack(v, bytes[..k])) + [Second(v, bytes[k])]
  {
    UnpackByte(v, bytes[..k], bytes[k]);
    assert bytes[..k + 1] == bytes[..k] + [bytes[k]];
    SplitPair(Unpack(v, bytes[..k]), First(v, bytes[k]), Second(v, bytes[k]));
  }

  ghost predicate PairsRead(v: Codec, m: Model, c0: ChannelStatus, c1: ChannelStatus, s0: State, s1: State,
                            bytes: seq<Byte>, k: nat, out: seq<int>, e: seq<Nibble>, o: seq<Nibble>)
    reads c0, c1
  {
    && k <= |bytes| && e == Evens(Unpack(v, bytes[..k])) && o == Odds(Unpack(v, bytes[..k]))
    && Follows(v, m, c0, s0, e) && Follows(v, m, c1, s1, o)
    && out == Interleave(Decoded(m, s0, e), Decoded(m, s1, o))
  }

  method DecompressPair(v: Codec, ghost m: Model, c0: ChannelStatus, c1: ChannelStatus, bytes: seq<Byte>, k: nat,
                        out0: seq<int>, ghost s0: State, ghost s1: State, ghost e0: seq<Nibble>, ghost o0: seq<Nibble>)
      returns (out: seq<int>, ghost e: seq<Nibble>, ghost o: seq<Nibble>)
    requires c0 != c1 && k < |bytes| && PairsRead(v, m, c0, c1, s0, s1, bytes, k, out0, e0, o0)
    modifies c0, c1
    ensures PairsRead(v, m, c0, c1, s0, s1, bytes, k + 1, out, e, o)
  {
    SplitByte(v, bytes, k);
    out := DecompressBoth(v, m, c0, c1, bytes[k], out0, s0, s1, e0, o0);
    e, o := e0 + [First(v, bytes[k])], o0 + [Second(v, bytes[k])];
  }

  method DecompressPairs(v: Codec, ghost m: Model, c0: ChannelStatus, c1: ChannelStatus, bytes: seq<Byte>,
                         ghost s0: State, ghost s1: State)
      returns (out: seq<int>, ghost e: seq<Nibble>, ghost o: seq<Nibble>)
    requires c0 != c1 && Follows(v, m, c0, s0, []) && Follows(v, m, c1, s1, [])
    modifies c0, c1
    ensures PairsRead(v, m, c0, c1, s0, s1, bytes, |bytes|, out, e, o)
  {
    out, e, o := [], [], [];
    for k := 0 to |bytes|
      invariant PairsRead(v, m, c0, c1, s0, s1, bytes, k, out, e, o)
    {
      out, e, o := DecompressPair(v, m, c0, c1, bytes, k, out, s0, s1, e, o);
    }
  }

  // ---- Yamaha, mono: no header, the state runs on from block to block ----

  method EncodeYamahaBlock(ghost m: Model, c: ChannelStatus, samples: seq<int>, pairs: nat, ghost s: State)
      returns (dst: seq<Byte>)
    requires |samples| == 2 * pairs && Tracks(Yamaha, m, c, s, [])
    modifies c
    ensures Tracks(Yamaha, m, c, s, samples) && dst == Pack(Yamaha, Encoded(m, s, samples))
  {
    ghost var out;
    dst, out := CompressRun(Yamaha, m, c, samples, pairs, s, []);
    assert [] + samples == samples && [] + out == out;
  }

  // A decoder in the encoder's state stays in it, and puts out the encoder's reconstructions.
  method YamahaLockstep(enc: ChannelStatus, dec: ChannelStatus, samples: seq<int>, pairs: nat)
      returns (out: seq<int>, ghost m: Model)
    requires enc != dec && |samples| == 2 * pairs
    requires StateOk(Yamaha, EncoderState(Yamaha, enc)) && DecoderState(Yamaha, dec) == EncoderState(Yamaha, enc)
    modifies enc, dec
    ensures Implements(m, Yamaha)
    ensures var s := old(EncoderState(Yamaha, enc));
            out == Decoded(m, s, Encoded(m, s, samples)) && Tracks(Yamaha, m, enc, s, samples)
    ensures DecoderState(Yamaha, dec) == EncoderState(Yamaha, enc)
  {
    m := ModelOf(Yamaha);
    ghost var s := EncoderState(Yamaha, enc);
    var dst := EncodeYamahaBlock(m, enc, samples, pairs, s);
    UnpackPack(Yamaha, Encoded(m, s, samples), pairs);
    out := DecompressRun(Yamaha, m, dec, dst, s, []);
    assert [] + Unpack(Yamaha, dst) == Unpack(Yamaha, dst);
    assert [] + out == out;
  }

  // ---- Yamaha, stereo ----

  // Without the search a byte holds two samples of one channel, and channels take turns by bytes.
  function ByChannel(l: seq<Nibble>, r: seq<Nibble>, pairs: nat): (b: seq<Byte>)
    requires |l| == |r| == 2 * pairs
    ensures |b| == 2 * pairs
  {
    if pairs == 0 then []
    else
      var k := 2 * pairs - 2;
      ByChannel(l[..k], r[..k], pairs - 1) + [Join(Yamaha, l[k], l[k + 1]), Join(Yamaha, r[k], r[k + 1])]
  }

  // The second sample of the left channel is the first of the right one, in each pair of bytes.
  ghost predicate Crossed(l: seq<Nibble>, r: seq<Nibble>, pairs: nat)
    requires |l| == |r| == 2 * pairs
  {
    forall i {:trigger l[2 * i + 1]} :: 0 <= i < pairs ==> l[2 * i + 1] == r[2 * i]
  }

  // The decoder takes one nibble of a byte for each channel. So it reads a channel's own nibbles
  // if and only if those that change places are the same.
  lemma {:induction false} YamahaStereoIff(l: seq<Nibble>, r: seq<Nibble>, pairs: nat, n: seq<Nibble>)
    requires |l| == |r| == 2 * pairs && n == Unpack(Yamaha, ByChannel(l, r, pairs))
    ensures |Evens(n)| == |Odds(n)| == 2 * pairs
    ensures (Evens(n) == l <==> Crossed(l, r, pairs)) && (Odds(n) == r <==> Crossed(l, r, pairs))
    decreases pairs
  {
    if pairs > 0 {
      var k := 2 * pairs - 2;
      var l0, r0 := l[..k], r[..k];
      var b0 := ByChannel(l0, r0, pairs - 1);
      var n0 := Unpack(Yamaha, b0);
      YamahaStereoIff(l0, r0, pairs - 1, n0);
      assert ByChannel(l, r, pairs) == b0 + [Join(Yamaha, l[k], l[k + 1]), Join(Yamaha, r[k], r[k + 1])];
      CrossedMore(l, r, l0, r0, k, pairs);
      CrossedPair(l, r, l0, r0, b0, k, n);
    }
  }

  lemma CrossedMore(l: seq<Nibble>, r: seq<Nibble>, l0: seq<Nibble>, r0: seq<Nibble>, k: nat, pairs: nat)
    requires pairs > 0 && k == 2 * pairs - 2 && |l| == |r| == k + 2 && l0 == l[..k] && r0 == r[..k]
    ensures Crossed(l, r, pairs) <==> Crossed(l0, r0, pairs - 1) && l[k + 1] == r[k]
  {
    assert forall i :: 0 <= i < pairs - 1 ==> l0[2 * i + 1] == l[2 * i + 1] && r0[2 * i] == r[2 * i];
    assert l[2 * (pairs - 1) + 1] == l[k + 1];
  }

  lemma CrossedPair(l: seq<Nibble>, r: seq<Nibble>, l0: seq<Nibble>, r0: seq<Nibble>, b0: seq<Byte>, k: nat,
                    n: seq<Nibble>)
    requires |l| == |r| == k + 2 && l0 == l[..k] && r0 == r[..k]
    requires |Evens(Unpack(Yamaha, b0))| == |Odds(Unpack(Yamaha, b0))| == k
    requires n == Unpack(Yamaha, b0 + [Join(Yamaha, l[k], l[k + 1]), Join(Yamaha, r[k], r[k + 1])])
    ensures var n0 := Unpack(Yamaha, b0);
      && |Evens(n)| == |Odds(n)| == k + 2
      && (Evens(n) == l <==> Evens(n0) == l0 && l[k + 1] == r[k])
      && (Odds(n) == r <==> Odds(n0) == r0 && l[k + 1] == r[k])
  {
    TwoBytes(b0, l[k], l[k + 1], r[k], r[k + 1]);
    TwoMore(Evens(Unpack(Yamaha, b0)), l, l0, r[k], k);
    TwoMoreAfter(Odds(Unpack(Yamaha, b0)), r, r0, l[k + 1], k);
  }

  lemma TwoBytes(b0: seq<Byte>, w: Nibble, x: Nibble, y: Nibble, z: Nibble)
    ensures var n0, n := Unpack(Yamaha, b0), Unpack(Yamaha, b0 + [Join(Yamaha, w, x), Join(Yamaha, y, z)]);
      Evens(n) == Evens(n0) + [w] + [y] && Odds(n) == Odds(n0) + [x] + [z]
  {
    var a, b := Join(Yamaha, w, x), Join(Yamaha, y, z);
    SplitJoined(Yamaha, w, x);
    SplitJoined(Yamaha, y, z);
    assert b0 + [a, b] == (b0 + [a]) + [b];
    SplitOne(b0, a);
    SplitOne(b0 + [a], b);
  }

  lemma SplitOne(b0: seq<Byte>, a: Byte)
    ensures Evens(Unpack(Yamaha, b0 + [a])) == Evens(Unpack(Yamaha, b0)) + [First(Yamaha, a)]
    ensures Odds(Unpack(Yamaha, b0 + [a])) == Odds(Unpack(Yamaha, b0)) + [Second(Yamaha, a)]
  {
    UnpackByte(Yamaha, b0, a);
    SplitPair(Unpack(Yamaha, b0), First(Yamaha, a), Second(Yamaha, a));
  }

  lemma TwoMore(e: seq<Nibble>, l: seq<Nibble>, l0: seq<Nibble>, x: Nibble, k: nat)
    requires |e| == k && |l| == k + 2 && l0 == l[..k]
    ensures e + [l[k]] + [x] == l <==> e == l0 && l[k + 1] == x
  {
    assert l == l0 + [l[k], l[k + 1]];
    assert (e + [l[k]] + [x])[..k] == e && (e + [l[k]] + [x])[k + 1] == x;
  }

  lemma TwoMoreAfter(o: seq<Nibble>, r: seq<Nibble>, r0: seq<Nibble>, x: Nibble, k: nat)
    requires |o| == k && |r| == k + 2 && r0 == r[..k]
    ensures o + [x] + [r[k + 1]] == r <==> o == r0 && x == r[k]
  {
    assert r == r0 + [r[k], r[k + 1]];
    assert (o + [x] + [r[k + 1]])[..k] == o && (o + [x] + [r[k + 1]])[k] == x;
  }

  // Two pairs of samples of each channel into two bytes.
  method CompressByteEach(ghost m: Model, c0: ChannelStatus, c1: ChannelStatus, w: int, x: int, y: int, z: int,
                          ghost s: State, ghost t: State, ghost e: seq<int>, ghost o: seq<int>)
      returns (left: Byte, right: Byte, ghost a: Nibble, ghost b: Nibble, ghost c: Nibble, ghost d: Nibble)
    requires c0 != c1 && Tracks(Yamaha, m, c0, s, e) && Tracks(Yamaha, m, c1, t, o)
    modifies c0, c1
    ensures Tracks(Yamaha, m, c0, s, e + [w, y]) && Tracks(Yamaha, m, c1, t, o + [x, z])
    ensures Encoded(m, s, e + [w, y]) == Encoded(m, s, e) + [a, b]
    ensures Encoded(m, t, o + [x, z]) == Encoded(m, t, o) + [c, d]
    ensures left == Join(Yamaha, a, b) && right == Join(Yamaha, c, d)
  {
    left, a, b := CompressByte(Yamaha, m, c0, w, y, s, e);
    right, c, d := CompressByte(Yamaha, m, c1, x, z, t, o);
  }

  lemma ByChannelMore(l: seq<Nibble>, r: seq<Nibble>, i: nat, a: Nibble, b: Nibble, c: Nibble, d: Nibble)
    requires |l| == |r| == 2 * i
    ensures ByChannel(l + [a, b], r + [c, d], i + 1) == ByChannel(l, r, i) + [Join(Yamaha, a, b), Join(Yamaha, c, d)]
  {
    assert (l + [a, b])[..2 * i] == l && (r + [c, d])[..2 * i] == r;
  }

  lemma FourSamples(samples: seq<int>, i: nat)
    requires 4 * i + 4 <= |samples|
    ensures Evens(samples[..4 * i + 4]) == Evens(samples[..4 * i]) + [samples[4 * i], samples[4 * i + 2]]
    ensures Odds(samples[..4 * i + 4]) == Odds(samples[..4 * i]) + [samples[4 * i + 1], samples[4 * i + 3]]
  {
    SplitFirstPairs(samples, 2 * i, 2 * i + 1);
    SplitFirstPairs(samples, 2 * i + 1, 2 * i + 2);
  }

  // i groups of four samples are coded.
  ghost predicate FoursCoded(m: Model, samples: seq<int>, i: nat, s: State, t: State, e: seq<int>, o: seq<int>,
                             dst: seq<Byte>) {
    && 4 * i <= |samples| && e == Evens(samples[..4 * i]) && o == Odds(samples[..4 * i]) && |e| == |o| == 2 * i
    && dst == ByChannel(Encoded(m, s, e), Encoded(m, t, o), i)
  }

  method EncodeYamahaStereo(ghost m: Model, c0: ChannelStatus, c1: ChannelStatus, samples: seq<int>, pairs: nat,
                            ghost s: State, ghost t: State)
      returns (dst: seq<Byte>, ghost e: seq<int>, ghost o: seq<int>)
    requires c0 != c1 && |samples| == 4 * pairs && Tracks(Yamaha, m, c0, s, []) && Tracks(Yamaha, m, c1, t, [])
    modifies c0, c1
    ensures e == Evens(samples) && o == Odds(samples) && |e| == |o| == 2 * pairs
    ensures Tracks(Yamaha, m, c0, s, e) && Tracks(Yamaha, m, c1, t, o)
    ensures dst == ByChannel(Encoded(m, s, e), Encoded(m, t, o), pairs)
  {
    dst, e, o := [], [], [];
    for i := 0 to pairs
      invariant FoursCoded(m, samples, i, s, t, e, o, dst)
      invariant Tracks(Yamaha, m, c0, s, e) && Tracks(Yamaha, m, c1, t, o)
    {
      var w, x, y, z := samples[4 * i], samples[4 * i + 1], samples[4 * i + 2], samples[4 * i + 3];
      FourSamples(samples, i);
      assert 4 * (i + 1) == 4 * i + 4;
      var left, right, a, b, c, d := CompressByteEach(m, c0, c1, w, x, y, z, s, t, e, o);
      ByChannelMore(Encoded(m, s, e), Encoded(m, t, o), i, a, b, c, d);
      e, o := e + [w, y], o + [x, z];
      dst := dst + [left, right];
    }
    assert samples[..4 * pairs] == samples;
  }

  // Samples that no clamping has touched.
  ghost predicate Inside(xs: seq<int>) { forall i :: 0 <= i < |xs| ==> -32768 < xs[i] < 32767 }

  // From one state, two nibbles that give one sample are the same.
  lemma YamahaStepTells(s: State, x: Nibble, y: Nibble)
    requires StateOk(Yamaha, s) && -32768 < YamahaPredict(s.sample1, s.step, x) < 32767
    requires YamahaPredict(s.sample1, s.step, x) == YamahaPredict(s.sample1, s.step, y)
    ensures x == y
  {
    var a, b := YAMAHA_DIFFLOOKUP[x], YAMAHA_DIFFLOOKUP[y];
    if a < b {
      JumpsDiffer(s.step, a, b);
    } else if b < a {
      JumpsDiffer(s.step, b, a);
    }
  }

  lemma JumpsDiffer(step: int, a: int, b: int)
    requires step >= 127 && a + 2 <= b
    ensures Quot(step * a, 8) < Quot(step * b, 8)
  {
    var c := b - a - 2;
    assert step * c >= 0;
    assert step * b == step * a + 2 * step + step * c;
  }

  // A decoder's samples tell the nibbles, if those of one of the two runs are untouched.
  lemma {:induction false} OutputsTell(m: Model, s: State, a: seq<Nibble>, b: seq<Nibble>)
    requires Implements(m, Yamaha) && StateOk(Yamaha, s) && |a| == |b| && Inside(Decoded(m, s, a))
    ensures StateOk(Yamaha, After(m, s, a)) && (Decoded(m, s, a) == Decoded(m, s, b) ==> a == b)
  {
    if a != [] {
      var k := |a| - 1;
      var r := After(m, s, a[..k]);
      LastOutput(m, s, a);
      LastOutput(m, s, b);
      OutputsTell(m, s, a[..k], b[..k]);
      assert At(r, a[k]) && At(r, b[k]);
      if Decoded(m, s, a) == Decoded(m, s, b) {
        assert Decoded(m, s, a[..k]) == Decoded(m, s, a)[..k] == Decoded(m, s, b)[..k] == Decoded(m, s, b[..k]);
        assert m.f(r, a[k]).sample1 == Decoded(m, s, a)[k] == Decoded(m, s, b)[k] == m.f(r, b[k]).sample1;
        YamahaStepTells(r, a[k], b[k]);
      }
    }
  }

  lemma LastOutput(m: Model, s: State, a: seq<Nibble>)
    requires a != []
    ensures var k := |a| - 1;
      && Decoded(m, s, a)[..k] == Decoded(m, s, a[..k]) && After(m, s, a) == m.f(After(m, s, a[..k]), a[k])
      && Decoded(m, s, a)[k] == m.f(After(m, s, a[..k]), a[k]).sample1
  {
  }

  // Encoding a stereo block without the search and decoding it: what comes out is the encoder's
  // reconstructions if the nibbles that change places are the same; and only then, if those of
  // one channel are untouched by clamping.
  method YamahaStereoGreedy(enc0: ChannelStatus, enc1: ChannelStatus, dec0: ChannelStatus, dec1: ChannelStatus,
                            samples: seq<int>, pairs: nat)
      returns (out: seq<int>, ghost m: Model, ghost l: seq<Nibble>, ghost r: seq<Nibble>)
    requires enc0 != enc1 && dec0 != dec1 && enc0 != dec0 && enc0 != dec1 && enc1 != dec0 && enc1 != dec1
    requires |samples| == 4 * pairs
    requires StateOk(Yamaha, EncoderState(Yamaha, enc0)) && DecoderState(Yamaha, dec0) == EncoderState(Yamaha, enc0)
    requires StateOk(Yamaha, EncoderState(Yamaha, enc1)) && DecoderState(Yamaha, dec1) == EncoderState(Yamaha, enc1)
    modifies enc0, enc1, dec0, dec1
    ensures Implements(m, Yamaha) && |l| == |r| == 2 * pairs
    ensures var s, t := old(EncoderState(Yamaha, enc0)), old(EncoderState(Yamaha, enc1));
      && l == Encoded(m, s, Evens(samples)) && r == Encoded(m, t, Odds(samples))
      && (Crossed(l, r, pairs) ==> out == Interleave(Decoded(m, s, l), Decoded(m, t, r)))
      && (Inside(Decoded(m, s, l)) || Inside(Decoded(m, t, r)) ==>
            (out == Interleave(Decoded(m, s, l), Decoded(m, t, r)) <==> Crossed(l, r, pairs)))
  {
    m := ModelOf(Yamaha);
    ghost var s, t := EncoderState(Yamaha, enc0), EncoderState(Yamaha, enc1);
    var dst;
    ghost var e, o;
    dst, e, o := EncodeYamahaStereo(m, enc0, enc1, samples, pairs, s, t);
    l, r := Encoded(m, s, e), Encoded(m, t, o);
    ghost var l1, r1;
    out, l1, r1 := DecompressPairs(Yamaha, m, dec0, dec1, dst, s, t);
    assert dst[..|dst|] == dst;
    StereoOutputs(m, s, t, l, r, pairs, Unpack(Yamaha, dst));
  }

  lemma StereoOutputs(m: Model, s: State, t: State, l: seq<Nibble>, r: seq<Nibble>, pairs: nat, n: seq<Nibble>)
    requires Implements(m, Yamaha) && StateOk(Yamaha, s) && StateOk(Yamaha, t)
    requires |l| == |r| == 2 * pairs && n == Unpack(Yamaha, ByChannel(l, r, pairs))
    ensures |Evens(n)| == |Odds(n)| == 2 * pairs
    ensures var out := Interleave(Decoded(m, s, Evens(n)), Decoded(m, t, Odds(n)));
      var own := Interleave(Decoded(m, s, l), Decoded(m, t, r));
      && (Crossed(l, r, pairs) ==> out == own)
      && (Inside(Decoded(m, s, l)) || Inside(Decoded(m, t, r)) ==> (out == own <==> Crossed(l, r, pairs)))
  {
    YamahaStereoIff(l, r, pairs, n);
    SplitInterleave(Decoded(m, s, Evens(n)), Decoded(m, t, Odds(n)));
    SplitInterleave(Decoded(m, s, l), Decoded(m, t, r));
    if Inside(Decoded(m, s, l)) {
      OutputsTell(m, s, l, Evens(n));
    }
    if Inside(Decoded(m, t, r)) {
      OutputsTell(m, t, r, Odds(n));
    }
  }

  // Silence on the right and a step on the left do not come out as they went in.
  lemma YamahaStereoFails(m: Model)
    requires Implements(m, Yamaha)
    ensures var s := State(0, 0, 127);
      var l, r := Encoded(m, s, [0, 1000]), Encoded(m, s, [0, 0]);
      && |l| == |r| == 2 && !Crossed(l, r, 1) && Decoded(m, s, l) == [15, 253]
      && Decoded(m, s, Evens(Unpack(Yamaha, ByChannel(l, r, 1)))) != Decoded(m, s, l)
  {
    var s, t := State(0, 0, 127), State(15, 0, 127);
    var l, r := Encoded(m, s, [0, 1000]), Encoded(m, s, [0, 0]);
    FirstIsZero(m, s, 1000);
    FirstIsZero(m, s, 0);
    assert At(t, 1000) && m.g(t, 1000) == Greedy(Yamaha, t, 1000) == 7;
    FailsAt(m, s, l, r, Unpack(Yamaha, ByChannel(l, r, 1)));
  }

  lemma FailsAt(m: Model, s: State, l: seq<Nibble>, r: seq<Nibble>, n: seq<Nibble>)
    requires Implements(m, Yamaha) && s == State(0, 0, 127) && |l| == |r| == 2 && l[0] == 0 && l[1] == 7 && r[0] == 0
    requires n == Unpack(Yamaha, ByChannel(l, r, 1))
    ensures !Crossed(l, r, 1) && Decoded(m, s, l) == [15, 253] && Decoded(m, s, Evens(n)) != Decoded(m, s, l)
  {
    assert l[2 * 0 + 1] == 7 && r[2 * 0] == 0;
    TwoOutputs(m, s, l);
    YamahaStereoIff(l, r, 1, n);
    OutputsTell(m, s, l, Evens(n));
  }

  lemma TwoOutputs(m: Model, s: State, l: seq<Nibble>)
    requires Implements(m, Yamaha) && s == State(0, 0, 127) && |l| == 2 && l[0] == 0 && l[1] == 7
    ensures StateOk(Yamaha, s) && Decoded(m, s, l) == [15, 253]
  {
    var t := State(15, 0, 127);
    YamahaQuietStep(s);
    assert At(s, 0) && m.f(s, 0) == t;
    assert At(t, 7) && m.f(t, 7).sample1 == Advance(Yamaha, t, 7).sample1 == 253;
    var none: seq<Nibble> := [];
    LastOutput(m, s, l);
    LastOutput(m, s, l[..1]);
    assert l[..1][..0] == none && After(m, s, none) == s;
  }

  lemma FirstIsZero(m: Model, s: State, x: int)
    requires Implements(m, Yamaha) && s == State(0, 0, 127)
    ensures Encoded(m, s, [0, x]) == [0, m.g(State(15, 0, 127), x)]
  {
    assert At(s, 0);
    YamahaQuietStep(s);
    assert m.g(s, 0) == 0 && m.f(s, 0) == State(15, 0, 127);
    FirstNibble(m.f, m.g, s, [0, x], State(15, 0, 127));
  }

  lemma YamahaQuietStep(s: State)
    requires s == State(0, 0, 127)
    ensures StateOk(Yamaha, s) && Greedy(Yamaha, s, 0) == 0 && Advance(Yamaha, s, 0) == State(15, 0, 127)
  {
  }

  lemma FirstNibble(f: Step, g: Choice, s: State, xs: seq<int>, t: State)
    requires |xs| == 2 && xs[0] == 0 && g(s, 0) == 0 && f(s, 0) == t
    ensures Chosen(f, g, s, xs) == [0, g(t, xs[1])]
  {
    OneNibble(f, g, s, xs[..1], t);
    var one := Chosen(f, g, s, xs[..1]);
    assert one == [0] && Run(f, s, one) == t;
  }

  lemma OneNibble(f: Step, g: Choice, s: State, xs: seq<int>, t: State)
    requires |xs| == 1 && xs[0] == 0 && g(s, 0) == 0 && f(s, 0) == t
    ensures Chosen(f, g, s, xs) == [0] && Run(f, s, Chosen(f, g, s, xs)) == t
  {
    var none: seq<Nibble> := [];
    assert Chosen(f, g, s, xs[..0]) == none && Run(f, s, none) == s;
    RunOne(f, s, none, 0);
    assert none + [0] == [0];
  }

  // ---- MS ----

  const MS: Codec := Ms(256, 0)

  lemma {:induction false} EncodedStaysBounded(m: Model, s: State, xs: seq<int>)
    requires Implements(m, MS) && StateOk(MS, s) && s.step <= 26214 && Shorts(xs)
    ensures var r := After(m, s, Encoded(m, s, xs)); StateOk(MS, r) && r.step <= 26214
  {
    if xs != [] {
      var k := |xs| - 1;
      EncodedStaysBounded(m, s, xs[..k]);
      var r, x := After(m, s, Encoded(m, s, xs[..k])), xs[k];
      assert xs == xs[..k] + [x];
      assert At(r, x);
      var n := m.g(r, x);
      assert At(r, n);
      ChosenStep(m.f, m.g, s, xs[..k], x, n);
      MsDeltaBounded(r, x);
    }
  }

  function AtLeast16(idelta: int): int { if idelta < 16 then 16 else idelta }

  // Starts a channel from its first two samples; the predictor is always number 0.
  method MsStart(c: ChannelStatus, first: int, second: int)
    modifies c
    ensures EncoderState(MS, c) == State(first, second, AtLeast16(old(c.idelta))) && Matches(MS, c)
  {
    c.coeff1, c.coeff2 := ADAPT_COEFF1[0], ADAPT_COEFF2[0];
    if c.idelta < 16 { c.idelta := 16; }
    c.sample1, c.sample2 := first, second;
  }

  function MsMonoHeader(s: State): (b: seq<Byte>)
    ensures |b| == 7
  {
    [0] + Le16(s.step) + Le16(s.sample1) + Le16(s.sample2)
  }

  function MsStereoHeader(s: State, t: State): (b: seq<Byte>)
    ensures |b| == 14
  {
    [0, 0] + Le16(s.step) + Le16(t.step) + Le16(s.sample1) + Le16(t.sample1) + Le16(s.sample2) + Le16(t.sample2)
  }

  method EncodeMsMono(ghost m: Model, c: ChannelStatus, samples: seq<int>, bytes: nat)
      returns (dst: seq<Byte>, ghost s: State)
    requires Implements(m, MS)
    requires |samples| == 2 + 2 * bytes && Shorts(samples) && c.idelta <= 26214
    modifies c
    ensures s == State(samples[0], samples[1], AtLeast16(old(c.idelta))) && 16 <= s.step <= 26214
    ensures dst == MsMonoHeader(s) + Pack(MS, Encoded(m, s, samples[2..]))
    ensures Tracks(MS, m, c, s, samples[2..]) && 16 <= c.idelta <= 26214
  {
    MsStart(c, samples[0], samples[1]);
    s := EncoderState(MS, c);
    var header := MsMonoHeader(State(c.sample1, c.sample2, c.idelta));
    var data;
    ghost var out;
    data, out := CompressRun(MS, m, c, samples[2..], bytes, s, []);
    assert [] + samples[2..] == samples[2..] && [] + out == out;
    EncodedStaysBounded(m, s, samples[2..]);
    dst := header + data;
  }

  method DecodeMsMono(ghost m: Model, c: ChannelStatus, buf: seq<Byte>) returns (out: seq<int>, ghost s: State)
    requires Implements(m, MS)
    requires |buf| >= 7 && buf[0] == 0 && ReadLe16(buf[1], buf[2]) >= 16
    modifies c
    ensures s == State(ReadLe16(buf[3], buf[4]), ReadLe16(buf[5], buf[6]), ReadLe16(buf[1], buf[2]))
    ensures StateOk(MS, s)
    ensures out == [s.sample1, s.sample2] + Decoded(m, s, Unpack(MS, buf[7..]))
    ensures Follows(MS, m, c, s, Unpack(MS, buf[7..]))
  {
    c.coeff1, c.coeff2 := ADAPT_COEFF1[buf[0]], ADAPT_COEFF2[buf[0]];
    c.idelta := ReadLe16(buf[1], buf[2]);
    c.sample1 := ReadLe16(buf[3], buf[4]);
    c.sample2 := ReadLe16(buf[5], buf[6]);
    s := DecoderState(MS, c);
    var head := [c.sample1, c.sample2];
    var data := DecompressRun(MS, m, c, buf[7..], s, []);
    assert [] + Unpack(MS, buf[7..]) == Unpack(MS, buf[7..]) && [] + data == data;
    out := head + data;
  }

  // Decoding the block gives the two samples sent verbatim, then the reconstructions.
  method MsMonoLockstep(enc: ChannelStatus, dec: ChannelStatus, samples: seq<int>, bytes: nat)
      returns (out: seq<int>, ghost m: Model, ghost s: State)
    requires enc != dec && |samples| == 2 + 2 * bytes && Shorts(samples) && enc.idelta <= 26214
    modifies enc, dec
    ensures Implements(m, MS)
    ensures s == State(samples[0], samples[1], AtLeast16(old(enc.idelta)))
    ensures out == samples[..2] + Decoded(m, s, Encoded(m, s, samples[2..]))
    ensures Tracks(MS, m, enc, s, samples[2..]) && DecoderState(MS, dec) == EncoderState(MS, enc)
    ensures 16 <= enc.idelta <= 26214
  {
    m := ModelOf(MS);
    var dst;
    dst, s := EncodeMsMono(m, enc, samples, bytes);
    ghost var n := Encoded(m, s, samples[2..]);
    Le16RoundTrip(s.step);
    Le16RoundTrip(s.sample1);
    Le16RoundTrip(s.sample2);
    MsMonoFields(s, Pack(MS, n));
    UnpackPack(MS, n, bytes);
    ghost var s';
    out, s' := DecodeMsMono(m, dec, dst);
  }

  lemma MsMonoFields(s: State, data: seq<Byte>)
    ensures var b := MsMonoHeader(s) + data;
            && b[0] == 0 && b[7..] == data && [b[1], b[2]] == Le16(s.step)
            && [b[3], b[4]] == Le16(s.sample1) && [b[5], b[6]] == Le16(s.sample2)
  {
  }

  method EncodeMsStereo(ghost m: Model, c0: ChannelStatus, c1: ChannelStatus, samples: seq<int>, bytes: nat)
      returns (dst: seq<Byte>, ghost s: State, ghost t: State)
    requires Implements(m, MS)
    requires c0 != c1 && |samples| == 4 + 2 * bytes && Shorts(samples) && c0.idelta <= 26214 && c1.idelta <= 26214
    modifies c0, c1
    ensures s == State(samples[0], samples[2], AtLeast16(old(c0.idelta))) && 16 <= s.step <= 26214
    ensures t == State(samples[1], samples[3], AtLeast16(old(c1.idelta))) && 16 <= t.step <= 26214
    ensures var e, o := Evens(samples[4..]), Odds(samples[4..]);
            && dst == MsStereoHeader(s, t) + Pack(MS, Interleave(Encoded(m, s, e), Encoded(m, t, o)))
            && Tracks(MS, m, c0, s, e) && Tracks(MS, m, c1, t, o)
    ensures 16 <= c0.idelta <= 26214 && 16 <= c1.idelta <= 26214
  {
    MsStart(c0, samples[0], samples[2]);
    MsStart(c1, samples[1], samples[3]);
    s, t := EncoderState(MS, c0), EncoderState(MS, c1);
    var header := MsStereoHeader(State(c0.sample1, c0.sample2, c0.idelta), State(c1.sample1, c1.sample2, c1.idelta));
    var data;
    ghost var e, o;
    data, e, o := CompressPairs(MS, m, c0, c1, samples[4..], bytes, s, t);
    HalvesAreShorts(samples[4..]);
    EncodedStaysBounded(m, s, e);
    EncodedStaysBounded(m, t, o);
    dst := header + data;
  }

  lemma {:induction false} HalvesAreShorts(xs: seq<int>)
    requires Shorts(xs)
    ensures Shorts(Evens(xs)) && Shorts(Odds(xs))
  {
    if |xs| >= 2 {
      HalvesAreShorts(xs[..|xs| - 2]);
    }
  }

  method DecodeMsStereo(ghost m: Model, c0: ChannelStatus, c1: ChannelStatus, buf: seq<Byte>)
      returns (out: seq<int>, ghost s: State, ghost t: State)
    requires Implements(m, MS)
    requires c0 != c1 && |buf| >= 14 && buf[0] == 0 && buf[1] == 0
    requires ReadLe16(buf[2], buf[3]) >= 16 && ReadLe16(buf[4], buf[5]) >= 16
    modifies c0, c1
    ensures s == State(ReadLe16(buf[6], buf[7]), ReadLe16(buf[10], buf[11]), ReadLe16(buf[2], buf[3])) && StateOk(MS, s)
    ensures t == State(ReadLe16(buf[8], buf[9]), ReadLe16(buf[12], buf[13]), ReadLe16(buf[4], buf[5])) && StateOk(MS, t)
    ensures var e, o := Evens(Unpack(MS, buf[14..])), Odds(Unpack(MS, buf[14..]));
            && out == [s.sample1, t.sample1, s.sample2, t.sample2] + Interleave(Decoded(m, s, e), Decoded(m, t, o))
            && Follows(MS, m, c0, s, e) && Follows(MS, m, c1, t, o)
  {
    c0.coeff1, c0.coeff2 := ADAPT_COEFF1[buf[0]], ADAPT_COEFF2[buf[0]];
    c1.coeff1, c1.coeff2 := ADAPT_COEFF1[buf[1]], ADAPT_COEFF2[buf[1]];
    c0.idelta := ReadLe16(buf[2], buf[3]);
    c1.idelta := ReadLe16(buf[4], buf[5]);
    c0.sample1 := ReadLe16(buf[6], buf[7]);
    c1.sample1 := ReadLe16(buf[8], buf[9]);
    c0.sample2 := ReadLe16(buf[10], buf[11]);
    c1.sample2 := ReadLe16(buf[12], buf[13]);
    s, t := DecoderState(MS, c0), DecoderState(MS, c1);
    var head := [c0.sample1, c1.sample1, c0.sample2, c1.sample2];
    var data;
    ghost var e, o;
    data, e, o := DecompressPairs(MS, m, c0, c1, buf[14..], s, t);
    assert buf[14..][..|buf| - 14] == buf[14..];
    out := head + data;
  }

  method MsStereoLockstep(enc0: ChannelStatus, enc1: ChannelStatus, dec0: ChannelStatus, dec1: ChannelStatus,
                          samples: seq<int>, bytes: nat)
      returns (out: seq<int>, ghost m: Model, ghost s: State, ghost t: State)
    requires enc0 != enc1 && dec0 != dec1 && enc0 != dec0 && enc0 != dec1 && enc1 != dec0 && enc1 != dec1
    requires |samples| == 4 + 2 * bytes && Shorts(samples) && enc0.idelta <= 26214 && enc1.idelta <= 26214
    modifies enc0, enc1, dec0, dec1
    ensures Implements(m, MS)
    ensures s == State(samples[0], samples[2], AtLeast16(old(enc0.idelta)))
    ensures t == State(samples[1], samples[3], AtLeast16(old(enc1.idelta)))
    ensures var e, o := Evens(samples[4..]), Odds(samples[4..]);
            out == samples[..4] + Interleave(Decoded(m, s, Encoded(m, s, e)), Decoded(m, t, Encoded(m, t, o)))
    ensures DecoderState(MS, dec0) == EncoderState(MS, enc0) && DecoderState(MS, dec1) == EncoderState(MS, enc1)
    ensures 16 <= enc0.idelta <= 26214 && 16 <= enc1.idelta <= 26214
  {
    m := ModelOf(MS);
    var dst;
    dst, s, t := EncodeMsStereo(m, enc0, enc1, samples, bytes);
    ghost var e, o := Evens(samples[4..]), Odds(samples[4..]);
    HalfLengths(samples[4..], bytes);
    out := DecodeMsStereoBlock(m, dec0, dec1, dst, s, t, Encoded(m, s, e), Encoded(m, t, o), bytes);
  }

  method DecodeMsStereoBlock(ghost m: Model, dec0: ChannelStatus, dec1: ChannelStatus, dst: seq<Byte>, ghost s: State,
                             ghost t: State, ghost ne: seq<Nibble>, ghost no: seq<Nibble>, ghost bytes: nat)
      returns (out: seq<int>)
    requires Implements(m, MS)
    requires dec0 != dec1 && |ne| == |no| == bytes && FitsHeader(s) && FitsHeader(t) && s.step >= 16 && t.step >= 16
    requires dst == MsStereoHeader(s, t) + Pack(MS, Interleave(ne, no))
    modifies dec0, dec1
    ensures out == [s.sample1, t.sample1, s.sample2, t.sample2] + Interleave(Decoded(m, s, ne), Decoded(m, t, no))
    ensures DecoderState(MS, dec0) == After(m, s, ne) && DecoderState(MS, dec1) == After(m, t, no)
  {
    MsStereoFields(s, t, Pack(MS, Interleave(ne, no)));
    UnpackPack(MS, Interleave(ne, no), bytes);
    SplitInterleave(ne, no);
    ghost var s', t';
    out, s', t' := DecodeMsStereo(m, dec0, dec1, dst);
    assert s' == s && t' == t;
  }

  lemma HalfLengths(xs: seq<int>, m: nat)
    requires |xs| == 2 * m
    ensures |Evens(xs)| == |Odds(xs)| == m
  {
  }

  predicate FitsHeader(s: State) {
    -32768 <= s.step <= 32767 && -32768 <= s.sample1 <= 32767 && -32768 <= s.sample2 <= 32767
  }

  lemma MsStereoFields(s: State, t: State, data: seq<Byte>)
    requires FitsHeader(s) && FitsHeader(t)
    ensures var b := MsStereoHeader(s, t) + data;
            && b[0] == 0 && b[1] == 0 && b[14..] == data
            && ReadLe16(b[2], b[3]) == s.step && ReadLe16(b[4], b[5]) == t.step
            && ReadLe16(b[6], b[7]) == s.sample1 && ReadLe16(b[8], b[9]) == t.sample1
            && ReadLe16(b[10], b[11]) == s.sample2 && ReadLe16(b[12], b[13]) == t.sample2
  {
    Le16RoundTrip(s.step);
    Le16RoundTrip(s.sample1);
    Le16RoundTrip(s.sample2);
    Le16RoundTrip(t.step);
    Le16RoundTrip(t.sample1);
    Le16RoundTrip(t.sample2);
  }

  // ---- IMA WAV ----

  // The bytes of a stereo block: four of the left channel, four of the right, and so on.
  function ImaStereo(e: seq<Nibble>, o: seq<Nibble>, groups: nat): (b: seq<Byte>)
    requires |e| == |o| == 8 * groups
    ensures |b| == 8 * groups
  {
    if groups == 0 then []
    else
      var k := 8 * groups - 8;
      ImaStereo(e[..k], o[..k], groups - 1) + FourBytes(e[k..]) + FourBytes(o[k..])
  }

  function FourBytes(n: seq<Nibble>): (b: seq<Byte>)
    requires |n| == 8
    ensures |b| == 4
  {
    Pack(ImaWav, n)
  }

  // The nibbles of one channel, whose bytes start at offset off of each group of eight.
  function ImaSide(data: seq<Byte>, groups: nat, off: nat): (n: seq<Nibble>)
    requires |data| == 8 * groups && off <= 4
    ensures |n| == 8 * groups
  {
    if groups == 0 then []
    else
      var k := 8 * groups - 8;
      ImaSide(data[..k], groups - 1, off) + Unpack(ImaWav, data[k + off..k + off + 4])
  }

  lemma ImaSideGroup(data: seq<Byte>, bytes: seq<Byte>, g: nat, off: nat)
    requires |data| == 8 * g && |bytes| == 8 && off <= 4
    ensures ImaSide(data + bytes, g + 1, off) == ImaSide(data, g, off) + Unpack(ImaWav, bytes[off..off + 4])
  {
    var k := 8 * (g + 1) - 8;
    assert (data + bytes)[..k] == data;
    assert (data + bytes)[k + off..k + off + 4] == bytes[off..off + 4];
  }

  lemma FourBytesRoundTrip(a: seq<Nibble>, b: seq<Nibble>)
    requires |a| == |b| == 8
    ensures var bytes := FourBytes(a) + FourBytes(b);
            Unpack(ImaWav, bytes[0..4]) == a && Unpack(ImaWav, bytes[4..8]) == b
  {
    var bytes := FourBytes(a) + FourBytes(b);
    assert bytes[0..4] == FourBytes(a) && bytes[4..8] == FourBytes(b);
    UnpackPack(ImaWav, a, 4);
    UnpackPack(ImaWav, b, 4);
  }

  lemma {:induction false} ImaStereoRoundTrip(e: seq<Nibble>, o: seq<Nibble>, groups: nat)
    requires |e| == |o| == 8 * groups
    ensures ImaSide(ImaStereo(e, o, groups), groups, 0) == e
    ensures ImaSide(ImaStereo(e, o, groups), groups, 4) == o
  {
    if groups > 0 {
      var g := groups - 1;
      var e', o', a, b := e[..8 * g], o[..8 * g], e[8 * g..], o[8 * g..];
      assert e == e' + a && o == o' + b;
      ImaStereoRoundTrip(e', o', g);
      ImaStereoGroup(e', o', a, b, g);
      var bytes := FourBytes(a) + FourBytes(b);
      FourBytesRoundTrip(a, b);
      ImaSideGroup(ImaStereo(e', o', g), bytes, g, 0);
      ImaSideGroup(ImaStereo(e', o', g), bytes, g, 4);
    }
  }

  function ImaHeader(s: State): (b: seq<Byte>)
    requires 0 <= s.step <= 88
    ensures |b| == 4
  {
    Le16(s.sample1) + [s.step, 0]
  }

  // A block starts from a sample sent verbatim and the step index the encoder has reached.
  method ImaStart(c: ChannelStatus, first: int) returns (header: seq<Byte>)
    requires 0 <= c.stepIndex <= 88 && -32768 <= first <= 32767
    modifies c`prevSample
    ensures EncoderState(ImaWav, c) == State(first, 0, old(c.stepIndex)) && header == ImaHeader(EncoderState(ImaWav, c))
  {
    c.prevSample := first;
    header := Le16(c.prevSample) + [c.stepIndex, 0];
  }

  method ImaRead(c: ChannelStatus, header: seq<Byte>)
    requires |header| == 4
    modifies c
    ensures DecoderState(ImaWav, c) ==
            State(ReadLe16(header[0], header[1]), 0, if header[2] > 88 then 88 else header[2])
  {
    c.predictor := ReadLe16(header[0], header[1]);
    c.stepIndex := header[2];
    if c.stepIndex > 88 { c.stepIndex := 88; }
  }

  lemma ImaHeaderRoundTrip(s: State)
    requires StateOk(ImaWav, s) && s.sample2 == 0
    ensures var h := ImaHeader(s); State(ReadLe16(h[0], h[1]), 0, if h[2] > 88 then 88 else h[2]) == s
  {
    Le16RoundTrip(s.sample1);
  }

  method EncodeImaMono(ghost m: Model, c: ChannelStatus, samples: seq<int>, groups: nat)
      returns (dst: seq<Byte>, ghost s: State)
    requires Implements(m, ImaWav)
    requires |samples| == 1 + 8 * groups && Shorts(samples) && 0 <= c.stepIndex <= 88
    modifies c
    ensures s == State(samples[0], 0, old(c.stepIndex)) && StateOk(ImaWav, s)
    ensures dst == ImaHeader(s) + Pack(ImaWav, Encoded(m, s, samples[1..]))
    ensures Tracks(ImaWav, m, c, s, samples[1..])
  {
    var header := ImaStart(c, samples[0]);
    s := EncoderState(ImaWav, c);
    var data;
    ghost var out;
    data, out := CompressRun(ImaWav, m, c, samples[1..], 4 * groups, s, []);
    assert [] + samples[1..] == samples[1..] && [] + out == out;
    dst := header + data;
  }

  // The sample in the header is not put out again; the decoder's status is the encoder's.
  method ImaMonoLockstep(enc: ChannelStatus, dec: ChannelStatus, samples: seq<int>, groups: nat)
      returns (out: seq<int>, ghost m: Model, ghost s: State)
    requires enc != dec && |samples| == 1 + 8 * groups && Shorts(samples) && 0 <= enc.stepIndex <= 88
    modifies enc, dec
    ensures Implements(m, ImaWav)
    ensures s == State(samples[0], 0, old(enc.stepIndex))
    ensures out == Decoded(m, s, Encoded(m, s, samples[1..]))
    ensures Tracks(ImaWav, m, enc, s, samples[1..]) && DecoderState(ImaWav, dec) == EncoderState(ImaWav, enc)
  {
    m := ModelOf(ImaWav);
    var dst;
    dst, s := EncodeImaMono(m, enc, samples, groups);
    ghost var n := Encoded(m, s, samples[1..]);
    assert dst[..4] == ImaHeader(s) && dst[4..] == Pack(ImaWav, n);
    ImaHeaderRoundTrip(s);
    UnpackPack(ImaWav, n, 4 * groups);
    ImaRead(dec, dst[..4]);
    out := DecompressRun(ImaWav, m, dec, dst[4..], s, []);
    assert [] + n == n && [] + out == out;
  }

  lemma {:induction false} SplitConcat<T>(xs: seq<T>, ys: seq<T>, m: nat, k: nat)
    requires |xs| == 2 * m && |ys| == 2 * k
    ensures Evens(xs + ys) == Evens(xs) + Evens(ys) && Odds(xs + ys) == Odds(xs) + Odds(ys)
  {
    if k == 0 {
      assert xs + ys == xs;
    } else {
      var n := |ys| - 2;
      SplitConcat(xs, ys[..n], m, k - 1);
      assert xs + ys == (xs + ys[..n]) + [ys[n], ys[n + 1]];
      SplitPair(xs + ys[..n], ys[n], ys[n + 1]);
    }
  }

  lemma ImaStereoGroup(e: seq<Nibble>, o: seq<Nibble>, a: seq<Nibble>, b: seq<Nibble>, g: nat)
    requires |e| == |o| == 8 * g && |a| == |b| == 8
    ensures ImaStereo(e + a, o + b, g + 1) == ImaStereo(e, o, g) + (FourBytes(a) + FourBytes(b))
  {
    assert (e + a)[..8 * g] == e && (o + b)[..8 * g] == o;
    assert (e + a)[8 * g..] == a && (o + b)[8 * g..] == b;
  }

  // g groups of a stereo block are coded.
  ghost predicate GroupsCoded(m: Model, c0: ChannelStatus, c1: ChannelStatus, s: State, t: State, rest: seq<int>,
                              g: nat, data: seq<Byte>, e: seq<int>, o: seq<int>)
    reads c0, c1
  {
    && 16 * g <= |rest| && e == Evens(rest[..16 * g]) && o == Odds(rest[..16 * g]) && |e| == |o| == 8 * g
    && Tracks(ImaWav, m, c0, s, e) && Tracks(ImaWav, m, c1, t, o)
    && data == ImaStereo(Encoded(m, s, e), Encoded(m, t, o), g)
  }

  // One group of sixteen interleaved samples: four bytes of each channel.
  method ImaEncodeGroup(ghost m: Model, c0: ChannelStatus, c1: ChannelStatus, rest: seq<int>, g: nat, data0: seq<Byte>,
                        ghost s: State, ghost t: State, ghost e0: seq<int>, ghost o0: seq<int>)
      returns (data: seq<Byte>, ghost e: seq<int>, ghost o: seq<int>)
    requires c0 != c1 && 16 * g + 16 <= |rest| && GroupsCoded(m, c0, c1, s, t, rest, g, data0, e0, o0)
    modifies c0, c1
    ensures GroupsCoded(m, c0, c1, s, t, rest, g + 1, data, e, o)
  {
    var ys := rest[16 * g..16 * g + 16];
    SplitNextGroup(rest, g, g + 1);
    var left, right;
    ghost var a, b;
    left, a := CompressRun(ImaWav, m, c0, Evens(ys), 4, s, e0);
    right, b := CompressRun(ImaWav, m, c1, Odds(ys), 4, t, o0);
    e, o := e0 + Evens(ys), o0 + Odds(ys);
    data := data0 + (left + right);
    ImaStereoGroup(Encoded(m, s, e0), Encoded(m, t, o0), a, b, g);
  }

  method EncodeImaGroups(ghost m: Model, c0: ChannelStatus, c1: ChannelStatus, rest: seq<int>, groups: nat,
                         ghost s: State, ghost t: State)
      returns (data: seq<Byte>, ghost e: seq<int>, ghost o: seq<int>)
    requires c0 != c1 && |rest| == 16 * groups && Tracks(ImaWav, m, c0, s, []) && Tracks(ImaWav, m, c1, t, [])
    modifies c0, c1
    ensures e == Evens(rest) && o == Odds(rest) && |e| == |o| == 8 * groups
    ensures Tracks(ImaWav, m, c0, s, e) && Tracks(ImaWav, m, c1, t, o)
    ensures data == ImaStereo(Encoded(m, s, e), Encoded(m, t, o), groups)
  {
    data, e, o := [], [], [];
    for g := 0 to groups
      invariant GroupsCoded(m, c0, c1, s, t, rest, g, data, e, o)
    {
      data, e, o := ImaEncodeGroup(m, c0, c1, rest, g, data, s, t, e, o);
    }
    assert rest[..16 * groups] == rest;
  }

  lemma SplitNextGroup(rest: seq<int>, g: nat, k: nat)
    requires k == g + 1 && 16 * k <= |rest|
    ensures var ys := rest[16 * g..16 * g + 16];
            && Evens(rest[..16 * k]) == Evens(rest[..16 * g]) + Evens(ys) && |Evens(ys)| == 8
            && Odds(rest[..16 * k]) == Odds(rest[..16 * g]) + Odds(ys) && |Odds(ys)| == 8
  {
    var ys := rest[16 * g..16 * g + 16];
    SplitConcat(rest[..16 * g], ys, 8 * g, 8);
    assert rest[..16 * k] == rest[..16 * g] + ys;
  }

  // The source moves its sample pointer on after the first header, so the right channel's
  // header takes the second left sample; decoding is in step all the same.
  method EncodeImaStereo(ghost m: Model, c0: ChannelStatus, c1: ChannelStatus, samples: seq<int>, groups: nat)
      returns (dst: seq<Byte>, ghost s: State, ghost t: State, ghost e: seq<int>, ghost o: seq<int>)
    requires Implements(m, ImaWav)
    requires c0 != c1 && |samples| == 2 + 16 * groups && groups > 0 && Shorts(samples)
    requires 0 <= c0.stepIndex <= 88 && 0 <= c1.stepIndex <= 88
    modifies c0, c1
    ensures s == State(samples[0], 0, old(c0.stepIndex)) && t == State(samples[2], 0, old(c1.stepIndex))
    ensures StateOk(ImaWav, s) && StateOk(ImaWav, t)
    ensures e == Evens(samples[2..]) && o == Odds(samples[2..]) && |e| == |o| == 8 * groups
    ensures dst == ImaHeader(s) + ImaHeader(t) + ImaStereo(Encoded(m, s, e), Encoded(m, t, o), groups)
    ensures Tracks(ImaWav, m, c0, s, e) && Tracks(ImaWav, m, c1, t, o)
    ensures ReadLe16(dst[0], dst[1]) == samples[0]
    ensures ReadLe16(dst[4], dst[5]) == samples[1] <==> samples[1] == samples[2]
  {
    var h0 := ImaStart(c0, samples[0]);
    var h1 := ImaStart(c1, samples[2]);
    s, t := EncoderState(ImaWav, c0), EncoderState(ImaWav, c1);
    var data;
    data, e, o := EncodeImaGroups(m, c0, c1, samples[2..], groups, s, t);
    dst := h0 + h1 + data;
    RightHeaderIff(samples, s, t, dst);
  }

  // So the right channel's header is its own first sample if and only if that is the second one
  // of the left channel.
  lemma RightHeaderIff(samples: seq<int>, s: State, t: State, dst: seq<Byte>)
    requires |samples| >= 3 && Shorts(samples) && s.sample1 == samples[0] && t.sample1 == samples[2]
    requires 0 <= s.step <= 88 && 0 <= t.step <= 88 && ImaHeader(s) + ImaHeader(t) <= dst
    ensures ReadLe16(dst[0], dst[1]) == samples[0]
    ensures ReadLe16(dst[4], dst[5]) == samples[1] <==> samples[1] == samples[2]
  {
    Le16RoundTrip(samples[0]);
    Le16RoundTrip(samples[2]);
    var both := ImaHeader(s) + ImaHeader(t);
    assert forall i :: 0 <= i < 8 ==> dst[i] == both[i];
  }

  // A right channel that begins with one and is silent after, next to a silent left one: its
  // header says zero.
  lemma RightHeaderFails(samples: seq<int>, s: State, t: State, step: int, dst: seq<Byte>)
    requires |samples| == 18 && samples[1] == 1 && forall i :: 0 <= i < 18 && i != 1 ==> samples[i] == 0
    requires 0 <= step <= 88 && s == State(samples[0], 0, step) && t == State(samples[2], 0, step)
    requires ImaHeader(s) + ImaHeader(t) <= dst
    ensures ReadLe16(dst[4], dst[5]) != samples[1]
  {
    RightHeaderIff(samples, s, t, dst);
  }

  // Eight bytes: the decoder takes a nibble of each channel in turn.
  method ImaDecodeGroup(ghost m: Model, c0: ChannelStatus, c1: ChannelStatus, bytes: seq<Byte>, ghost s: State,
                        ghost t: State, ghost e0: seq<Nibble>, ghost o0: seq<Nibble>)
      returns (out: seq<int>, ghost e: seq<Nibble>, ghost o: seq<Nibble>)
    requires c0 != c1 && |bytes| == 8 && |e0| == |o0| && Follows(ImaWav, m, c0, s, e0) && Follows(ImaWav, m, c1, t, o0)
    modifies c0, c1
    ensures e == e0 + Unpack(ImaWav, bytes[0..4]) && o == o0 + Unpack(ImaWav, bytes[4..8])
    ensures Follows(ImaWav, m, c0, s, e) && Follows(ImaWav, m, c1, t, o)
    ensures Interleave(Decoded(m, s, e), Decoded(m, t, o)) ==
            Interleave(Decoded(m, s, e0), Decoded(m, t, o0)) + out
  {
    out, e, o := [], e0, o0;
    ghost var before := Interleave(Decoded(m, s, e0), Decoded(m, t, o0));
    for i := 0 to 4
      invariant e == e0 + Unpack(ImaWav, bytes[0..i]) && o == o0 + Unpack(ImaWav, bytes[4..4 + i]) && |e| == |o|
      invariant Follows(ImaWav, m, c0, s, e) && Follows(ImaWav, m, c1, t, o)
      invariant Interleave(Decoded(m, s, e), Decoded(m, t, o)) == before + out
    {
      UnpackNext(e0, bytes, 0, i, i + 1);
      UnpackNext(o0, bytes, 4, 4 + i, 4 + (i + 1));
      out, e, o := ImaDecodeTwo(m, c0, c1, bytes[i], bytes[4 + i], s, t, e, o, before, out);
    }
  }

  lemma UnpackNext(n: seq<Nibble>, bytes: seq<Byte>, i: nat, m: nat, k: nat)
    requires i <= m < |bytes| && k == m + 1
    ensures n + Unpack(ImaWav, bytes[i..k])
         == n + Unpack(ImaWav, bytes[i..m]) + [First(ImaWav, bytes[m]), Second(ImaWav, bytes[m])]
  {
    UnpackByte(ImaWav, bytes[i..m], bytes[m]);
    assert bytes[i..k] == bytes[i..m] + [bytes[m]];
  }

  lemma InterleaveTwo<T>(a: seq<T>, b: seq<T>, w: T, x: T, y: T, z: T)
    requires |a| == |b|
    ensures Interleave(a + [w] + [y], b + [x] + [z]) == Interleave(a, b) + [w, x, y, z]
  {
    InterleaveOne(a, b, w, x);
    InterleaveOne(a + [w], b + [x], y, z);
    assert Interleave(a, b) + [w, x] + [y, z] == Interleave(a, b) + [w, x, y, z];
  }

  // A byte of each channel: low nibbles first.
  method ImaDecodeTwo(ghost m: Model, c0: ChannelStatus, c1: ChannelStatus, b0: Byte, b1: Byte, ghost s: State,
                      ghost t: State, ghost e0: seq<Nibble>, ghost o0: seq<Nibble>, ghost before: seq<int>,
                      out0: seq<int>)
      returns (out: seq<int>, ghost e: seq<Nibble>, ghost o: seq<Nibble>)
    requires c0 != c1 && |e0| == |o0| && Follows(ImaWav, m, c0, s, e0) && Follows(ImaWav, m, c1, t, o0)
    requires Interleave(Decoded(m, s, e0), Decoded(m, t, o0)) == before + out0
    modifies c0, c1
    ensures e == e0 + [First(ImaWav, b0), Second(ImaWav, b0)] && o == o0 + [First(ImaWav, b1), Second(ImaWav, b1)]
    ensures Follows(ImaWav, m, c0, s, e) && Follows(ImaWav, m, c1, t, o)
    ensures Interleave(Decoded(m, s, e), Decoded(m, t, o)) == before + out
  {
    var w, x, y, z;
    ghost var a, b, c, d := First(ImaWav, b0), First(ImaWav, b1), Second(ImaWav, b0), Second(ImaWav, b1);
    w := DecompressNext(ImaWav, m, c0, First(ImaWav, b0), s, e0);
    x := DecompressNext(ImaWav, m, c1, First(ImaWav, b1), t, o0);
    y := DecompressNext(ImaWav, m, c0, Second(ImaWav, b0), s, e0 + [a]);
    z := DecompressNext(ImaWav, m, c1, Second(ImaWav, b1), t, o0 + [b]);
    e, o := e0 + [a] + [c], o0 + [b] + [d];
    out := out0 + [w, x, y, z];
    InterleaveTwo(Decoded(m, s, e0), Decoded(m, t, o0), w, x, y, z);
    assert before + out0 + [w, x, y, z] == before + out;
    assert e == e0 + [a, c] && o == o0 + [b, d];
  }

  lemma SidesNext(data: seq<Byte>, g: nat, k: nat)
    requires k == g + 1 && 8 * k <= |data|
    ensures var bytes := data[8 * g..8 * g + 8];
            && ImaSide(data[..8 * k], k, 0) == ImaSide(data[..8 * g], g, 0) + Unpack(ImaWav, bytes[0..4])
            && ImaSide(data[..8 * k], k, 4) == ImaSide(data[..8 * g], g, 4) + Unpack(ImaWav, bytes[4..8])
  {
    var bytes := data[8 * g..8 * g + 8];
    ImaSideGroup(data[..8 * g], bytes, g, 0);
    ImaSideGroup(data[..8 * g], bytes, g, 4);
    assert data[..8 * k] == data[..8 * g] + bytes;
  }

  ghost predicate GroupsRead(m: Model, c0: ChannelStatus, c1: ChannelStatus, s: State, t: State, data: seq<Byte>,
                             g: nat, out: seq<int>, e: seq<Nibble>, o: seq<Nibble>)
    reads c0, c1
  {
    && 8 * g <= |data| && e == ImaSide(data[..8 * g], g, 0) && o == ImaSide(data[..8 * g], g, 4)
    && Follows(ImaWav, m, c0, s, e) && Follows(ImaWav, m, c1, t, o)
    && out == Interleave(Decoded(m, s, e), Decoded(m, t, o))
  }

  method ImaDecodeNext(ghost m: Model, c0: ChannelStatus, c1: ChannelStatus, data: seq<Byte>, g: nat, out0: seq<int>,
                       ghost s: State, ghost t: State, ghost e0: seq<Nibble>, ghost o0: seq<Nibble>)
      returns (out: seq<int>, ghost e: seq<Nibble>, ghost o: seq<Nibble>)
    requires c0 != c1 && 8 * g + 8 <= |data| && GroupsRead(m, c0, c1, s, t, data, g, out0, e0, o0)
    modifies c0, c1
    ensures GroupsRead(m, c0, c1, s, t, data, g + 1, out, e, o)
  {
    SidesNext(data, g, g + 1);
    var more;
    more, e, o := ImaDecodeGroup(m, c0, c1, data[8 * g..8 * g + 8], s, t, e0, o0);
    out := out0 + more;
  }

  method ImaDecodeGroups(ghost m: Model, c0: ChannelStatus, c1: ChannelStatus, data: seq<Byte>, groups: nat,
                         ghost s: State, ghost t: State)
      returns (out: seq<int>, ghost e: seq<Nibble>, ghost o: seq<Nibble>)
    requires c0 != c1 && |data| == 8 * groups && Follows(ImaWav, m, c0, s, []) && Follows(ImaWav, m, c1, t, [])
    modifies c0, c1
    ensures e == ImaSide(data, groups, 0) && o == ImaSide(data, groups, 4)
    ensures Follows(ImaWav, m, c0, s, e) && Follows(ImaWav, m, c1, t, o)
    ensures out == Interleave(Decoded(m, s, e), Decoded(m, t, o))
  {
    out, e, o := [], [], [];
    for g := 0 to groups
      invariant GroupsRead(m, c0, c1, s, t, data, g, out, e, o)
    {
      out, e, o := ImaDecodeNext(m, c0, c1, data, g, out, s, t, e, o);
    }
    assert data[..8 * groups] == data;
  }

  method ImaDecodeStereoBlock(ghost m: Model, dec0: ChannelStatus, dec1: ChannelStatus, dst: seq<Byte>, groups: nat,
                              ghost s: State, ghost t: State, ghost ne: seq<Nibble>, ghost no: seq<Nibble>)
      returns (out: seq<int>)
    requires Implements(m, ImaWav)
    requires dec0 != dec1 && |ne| == |no| == 8 * groups
    requires StateOk(ImaWav, s) && StateOk(ImaWav, t) && s.sample2 == t.sample2 == 0
    requires dst == ImaHeader(s) + ImaHeader(t) + ImaStereo(ne, no, groups)
    modifies dec0, dec1
    ensures out == Interleave(Decoded(m, s, ne), Decoded(m, t, no))
    ensures DecoderState(ImaWav, dec0) == After(m, s, ne) && DecoderState(ImaWav, dec1) == After(m, t, no)
  {
    ImaStereoRoundTrip(ne, no, groups);
    ImaHeaderRoundTrip(s);
    ImaHeaderRoundTrip(t);
    assert dst[..4] == ImaHeader(s) && dst[4..8] == ImaHeader(t) && dst[8..] == ImaStereo(ne, no, groups);
    ImaRead(dec0, dst[..4]);
    ImaRead(dec1, dst[4..8]);
    ghost var e', o';
    out, e', o' := ImaDecodeGroups(m, dec0, dec1, dst[8..], groups, s, t);
  }

  method ImaStereoLockstep(enc0: ChannelStatus, enc1: ChannelStatus, dec0: ChannelStatus, dec1: ChannelStatus,
                           samples: seq<int>, groups: nat)
      returns (out: seq<int>, ghost m: Model, ghost s: State, ghost t: State)
    requires enc0 != enc1 && dec0 != dec1 && enc0 != dec0 && enc0 != dec1 && enc1 != dec0 && enc1 != dec1
    requires |samples| == 2 + 16 * groups && groups > 0 && Shorts(samples)
    requires 0 <= enc0.stepIndex <= 88 && 0 <= enc1.stepIndex <= 88
    modifies enc0, enc1, dec0, dec1
    ensures Implements(m, ImaWav)
    ensures s == State(samples[0], 0, old(enc0.stepIndex)) && t == State(samples[2], 0, old(enc1.stepIndex))
    ensures var e, o := Evens(samples[2..]), Odds(samples[2..]);
            out == Interleave(Decoded(m, s, Encoded(m, s, e)), Decoded(m, t, Encoded(m, t, o)))
    ensures DecoderState(ImaWav, dec0) == EncoderState(ImaWav, enc0)
    ensures DecoderState(ImaWav, dec1) == EncoderState(ImaWav, enc1)
  {
    m := ModelOf(ImaWav);
    var dst;
    ghost var e, o;
    dst, s, t, e, o := EncodeImaStereo(m, enc0, enc1, samples, groups);
    out := ImaDecodeStereoBlock(m, dec0, dec1, dst, groups, s, t, Encoded(m, s, e), Encoded(m, t, o));
  }
}
