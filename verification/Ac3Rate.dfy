// Frame size control: at 44100, 22050 and 11025 Hz a frame is not a whole number of words, so
// now and then one more word keeps the stream at its bit rate.
module Ac3Rate {
  import opened Sums
  import opened Ac3Config

  const WORD: int := 0x1_0000_0000
  const FRAME_SAMPLES: int := 1536

  // Bits per second, samples per second and words of the smaller frame.
  datatype Rates = Rates(bits: int, samples: int, words: int)

  function RatesOf(c: Config): Rates { Rates(1000 * c.bitRate, c.sampleRate, c.frameSizeMin) }

  // The encoder's two counters.
  datatype Counters = Counters(bits: int, samples: int)

  // How far the bits run ahead of the samples, scaled by both rates.
  function Lead(r: Rates, s: Counters): int { s.bits * r.samples - s.samples * r.bits }

  // What a smaller frame adds to the lead.
  function Drift(r: Rates): int { 16 * r.words * r.samples - FRAME_SAMPLES * r.bits }

  ghost predicate RatesOk(r: Rates) {
    r.bits > 0 && r.samples > 0 && -16 * r.samples < Drift(r) <= 0
  }

  // The renormalising loop of AC3_encode_frame.
  function Renormalised(r: Rates, s: Counters): Counters
    requires r.bits > 0
    decreases s.bits
  {
    if s.bits >= r.bits && s.samples >= r.samples && s.bits >= 0
    then Renormalised(r, Counters(s.bits - r.bits, s.samples - r.samples)) else s
  }

  // Whether a frame is given the extra word, in integers or with products kept to 32 bits.
  function Behind(r: Rates, s: Counters, wrap: bool): bool {
    if wrap then s.bits * r.samples % WORD < s.samples * r.bits % WORD else s.bits * r.samples < s.samples * r.bits
  }

  function FrameSize(r: Rates, s: Counters, wrap: bool): int
    requires r.bits > 0
  {
    r.words + if Behind(r, Renormalised(r, s), wrap) then 1 else 0
  }

  function AfterFrame(r: Rates, s: Counters, wrap: bool): Counters
    requires r.bits > 0
  {
    var t := Renormalised(r, s);
    Counters(t.bits + 16 * FrameSize(r, s, wrap), t.samples + FRAME_SAMPLES)
  }

  // The counters after n frames, and all bits written by then.
  function Run(r: Rates, n: nat, wrap: bool): Counters
    requires r.bits > 0
  {
    if n == 0 then Counters(0, 0) else AfterFrame(r, Run(r, n - 1, wrap), wrap)
  }

  function Written(r: Rates, n: nat, wrap: bool): int
    requires r.bits > 0
  {
    if n == 0 then 0 else Written(r, n - 1, wrap) + 16 * FrameSize(r, Run(r, n - 1, wrap), wrap)
  }

  // ---- over the integers ----

  lemma {:induction false} RenormalisedKeeps(r: Rates, s: Counters) returns (k: nat)
    requires r.bits > 0 && r.samples > 0 && s.bits >= 0 && s.samples >= 0
    ensures var t := Renormalised(r, s);
      && t.bits == s.bits - k * r.bits && t.samples == s.samples - k * r.samples
      && t.bits >= 0 && t.samples >= 0 && (t.bits < r.bits || t.samples < r.samples) && Lead(r, t) == Lead(r, s)
    decreases s.bits
  {
    k := 0;
    if s.bits >= r.bits && s.samples >= r.samples {
      var u := Counters(s.bits - r.bits, s.samples - r.samples);
      k := RenormalisedKeeps(r, u);
      StepBack(r, s);
      k := k + 1;
    }
  }

  lemma StepBack(r: Rates, s: Counters)
    ensures Lead(r, Counters(s.bits - r.bits, s.samples - r.samples)) == Lead(r, s)
  {
  }

  ghost predicate OnTime(r: Rates, s: Counters) {
    s.bits >= 0 && s.samples >= 0 && Drift(r) <= Lead(r, s) < Drift(r) + 16 * r.samples
  }

  // What the lead gains in a frame.
  function Gain(r: Rates, extra: bool): int { Drift(r) + if extra then 16 * r.samples else 0 }

  lemma LeadAfter(r: Rates, t: Counters, extra: bool)
    ensures var size := r.words + if extra then 1 else 0;
      Lead(r, Counters(t.bits + 16 * size, t.samples + FRAME_SAMPLES)) == Lead(r, t) + Gain(r, extra)
  {
  }

  lemma BehindIffNegative(r: Rates, t: Counters)
    ensures Behind(r, t, false) <==> Lead(r, t) < 0
  {
  }

  // One frame, in integers, keeps the lead within a word.
  lemma FrameKeepsTime(r: Rates, s: Counters)
    requires RatesOk(r) && OnTime(r, s) && r.words >= 0
    ensures OnTime(r, AfterFrame(r, s, false))
  {
    var k := RenormalisedKeeps(r, s);
    var t := Renormalised(r, s);
    BehindIffNegative(r, t);
    LeadAfter(r, t, Behind(r, t, false));
  }

  lemma {:induction false} RunOnTime(r: Rates, n: nat)
    requires RatesOk(r) && r.words >= 0
    ensures OnTime(r, Run(r, n, false))
  {
    if n > 0 {
      RunOnTime(r, n - 1);
      FrameKeepsTime(r, Run(r, n - 1, false));
    }
  }

  ghost predicate Positive(s: Counters) { s.bits >= 0 && s.samples >= 0 }

  // The counters remember the bits written and the frames, less what was renormalised away.
  lemma {:induction false} LeadIsTotal(r: Rates, n: nat, wrap: bool)
    requires r.bits > 0 && r.samples > 0 && r.words >= 0
    ensures Positive(Run(r, n, wrap))
    ensures Lead(r, Run(r, n, wrap)) == Written(r, n, wrap) * r.samples - FRAME_SAMPLES * n * r.bits
  {
    if n > 0 {
      LeadIsTotal(r, n - 1, wrap);
      var s := Run(r, n - 1, wrap);
      var k := RenormalisedKeeps(r, s);
      var extra := Behind(r, Renormalised(r, s), wrap);
      LeadAfter(r, Renormalised(r, s), extra);
      Accumulate(r, Written(r, n - 1, wrap), n - 1, extra);
    }
  }

  lemma Accumulate(r: Rates, written: int, n: int, extra: bool)
    ensures var size := r.words + if extra then 1 else 0;
      (written + 16 * size) * r.samples - FRAME_SAMPLES * (n + 1) * r.bits
      == written * r.samples - FRAME_SAMPLES * n * r.bits + Gain(r, extra)
  {
  }

  // After any number of frames the bits written are less than 16 away from their due.
  lemma RateHolds(r: Rates, n: nat)
    requires RatesOk(r) && r.words >= 0
    ensures -16 * r.samples < Written(r, n, false) * r.samples - FRAME_SAMPLES * n * r.bits < 16 * r.samples
  {
    RunOnTime(r, n);
    LeadIsTotal(r, n, false);
  }

  // ---- rates of the tables ----

  lemma AcceptedRates(c: Config)
    requires Accepted(c)
    ensures RatesOk(RatesOf(c)) && 64 <= c.frameSizeMin <= 1920 && (Drift(RatesOf(c)) == 0 <==> c.fscod != 1)
  {
    var channels, half, fscod, i :| InTables(channels, half, fscod, i) && c == Settled(channels, half, fscod, i);
    DriftOf(half, fscod, i);
  }

  lemma DriftOf(half: nat, fscod: nat, i: nat)
    requires half < 3 && fscod < 3 && i < 19
    ensures var r := Rates(1000 * Halved(BitRate(i), half), Halved(Frequency(fscod), half), FrameWords(2 * i, fscod));
            RatesOk(r) && 64 <= r.words <= 1920 && (Drift(r) == 0 <==> fscod != 1)
  {
    assert 2 * i / 2 == i && 2 * i % 2 == 0;
    if fscod == 0 { Drift48(half, i); } else if fscod == 1 { Drift44(half, i); } else { Drift32(half, i); }
  }

  lemma Drift48(half: nat, i: nat)
    requires half < 3 && i < 19
    ensures 64 <= Words48(i) <= 1280
    ensures Drift(Rates(1000 * Halved(BitRate(i), half), Halved(48000, half), Words48(i))) == 0
    ensures BitRate(i) >= 32
  {
  }

  lemma Drift32(half: nat, i: nat)
    requires half < 3 && i < 19
    ensures 96 <= Words32(i) <= 1920
    ensures Drift(Rates(1000 * Halved(BitRate(i), half), Halved(32000, half), Words32(i))) == 0
    ensures BitRate(i) >= 32
  {
  }

  lemma Drift44(half: nat, i: nat)
    requires half < 3 && i < 19
    ensures var r := Rates(1000 * Halved(BitRate(i), half), Halved(44100, half), Words44(i));
            69 <= r.words <= 1393 && -16 * r.samples < Drift(r) < 0
    ensures BitRate(i) >= 32
  {
  }

  // ---- in 32 bits ----

  ghost predicate IsRenormalised(r: Rates, t: Counters) { t.bits < r.bits || t.samples < r.samples }

  lemma ProductsBounded(r: Rates, t: Counters)
    requires RatesOk(r) && OnTime(r, t) && IsRenormalised(r, t)
    ensures 0 <= t.bits * r.samples < r.bits * r.samples + 16 * r.samples
    ensures 0 <= t.samples * r.bits < r.bits * r.samples + 16 * r.samples
  {
    if t.bits < r.bits { Times(t.bits + 1, r.bits, r.samples); } else { Times(t.samples + 1, r.samples, r.bits); }
  }

  lemma Times(a: int, b: int, c: int)
    requires a <= b && c >= 0
    ensures a * c <= b * c
  {
  }

  // Rates whose products stay below 2^32.
  ghost predicate ProductsFit(r: Rates) { r.bits * r.samples + 16 * r.samples <= WORD }

  lemma FittingProductsAgree(r: Rates, t: Counters)
    requires RatesOk(r) && OnTime(r, t) && IsRenormalised(r, t) && ProductsFit(r)
    ensures Behind(r, t, true) == Behind(r, t, false)
  {
    ProductsBounded(r, t);
  }

  // The rates of the 44100 Hz family: what the counters are multiples of there.
  function Family(half: nat, i: nat): Rates
  {
    Rates(1000 * Halved(BitRate(i), half), Halved(44100, half), Words44(i))
  }

  function Grain(half: nat): nat { if half == 0 then 12 else if half == 1 then 6 else 3 }

  ghost predicate Grained(half: nat, t: Counters) {
    && t.bits % 16 == 0
    && if half == 0 then t.samples % 12 == 0 else if half == 1 then t.samples % 6 == 0 else t.samples % 3 == 0
  }

  // The one state in which the products are on different sides of a multiple of 2^32.
  ghost predicate Straddling(r: Rates, t: Counters) {
    r.bits == 256000 && r.samples == 44100 && t == Counters(97392, 16776)
  }

  lemma FamilyFits(half: nat, i: nat)
    requires half < 3 && i < 19 && (half == 0 ==> i <= 6) && (half == 1 ==> i <= 14)
    ensures ProductsFit(Family(half, i))
  {
  }

  // The most multiples of x below n.
  function Under(n: int, x: int): int
    requires x > 0
  {
    (n - 1) / x
  }

  // No product of samples with the bit rate lies below limit, and its product of bits with the
  // sampling rate above: multiples of a and c that are within the lead of each other are on the
  // same side.
  predicate Apart(r: Rates, a: int, c: int, limit: int)
    requires a > 0 && c > 0
  {
    && c * Under(limit, c) + Drift(r) + 16 * r.samples <= a * (Under(limit, a) + 1)
    && c * (Under(limit, c) + 1) + Drift(r) > a * Under(limit, a)
  }

  lemma ApartSameSide(r: Rates, a: int, c: int, limit: int, b: int, q: int)
    requires a > 0 && c > 0 && Apart(r, a, c, limit) && Drift(r) <= a * b - c * q < Drift(r) + 16 * r.samples
    ensures limit <= a * b <==> limit <= c * q
  {
    var x, y := Under(limit, a), Under(limit, c);
    UnderIs(limit, a, x);
    UnderIs(limit, c, y);
    if q <= y {
      Times(q, y, c);
      Cancel(b, x + 1, a);
      Times(b, x, a);
    } else {
      Times(y + 1, q, c);
      Cancel(x, b, a);
      Times(x + 1, b, a);
    }
  }

  lemma Cancel(b: int, x: int, a: int)
    requires a * b < a * x && a > 0
    ensures b < x
  {
    if b >= x {
      Times(x, b, a);
    }
  }

  lemma UnderIs(n: int, x: int, k: int)
    requires x > 0 && k == Under(n, x)
    ensures x * k < n <= x * (k + 1)
  {
  }

  lemma GrainedForm(half: nat, i: nat, t: Counters) returns (b: int, q: int)
    requires half < 2 && i < 19 && Grained(half, t) && Positive(t)
    ensures b >= 0 && q >= 0 && t.bits == 16 * b && t.samples == Grain(half) * q
    ensures var r := Family(half, i);
      t.bits * r.samples == 16 * r.samples * b && t.samples * r.bits == Grain(half) * r.bits * q
  {
    b, q := t.bits / 16, t.samples / Grain(half);
  }

  // Below the largest product there are at most six multiples of 2^32, and all but one keep apart.
  predicate MultipleApart(r: Rates, grain: nat, m: nat)
    requires r.bits > 0 && r.samples > 0 && grain > 0
  {
    || m * WORD >= r.bits * r.samples + 16 * r.samples
    || (r == ODD && m == 1)
    || Apart(r, 16 * r.samples, grain * r.bits, m * WORD)
  }

  predicate AllApart(r: Rates, grain: nat) {
    && r.bits > 0 && r.samples > 0 && grain > 0 && r.bits * r.samples + 16 * r.samples < 7 * WORD
    && MultipleApart(r, grain, 1) && MultipleApart(r, grain, 2) && MultipleApart(r, grain, 3)
    && MultipleApart(r, grain, 4) && MultipleApart(r, grain, 5) && MultipleApart(r, grain, 6)
  }

  lemma LowApart()
    ensures AllApart(Rates(112000, 44100, 243), 12) && AllApart(Rates(128000, 44100, 278), 12)
    ensures AllApart(Rates(160000, 44100, 348), 12) && AllApart(Rates(192000, 44100, 417), 12)
    ensures AllApart(Rates(224000, 44100, 487), 12) && AllApart(ODD, 12)
  {
  }

  lemma HighApart()
    ensures AllApart(Rates(320000, 44100, 696), 12) && AllApart(Rates(384000, 44100, 835), 12)
    ensures AllApart(Rates(448000, 44100, 975), 12)
  {
  }

  lemma HighestApart()
    ensures AllApart(Rates(512000, 44100, 1114), 12) && AllApart(Rates(576000, 44100, 1253), 12)
  {
  }

  lemma LastApart()
    ensures AllApart(Rates(640000, 44100, 1393), 12)
  {
  }

  lemma HalfApart()
    ensures AllApart(Rates(224000, 22050, 975), 6) && AllApart(Rates(256000, 22050, 1114), 6)
    ensures AllApart(Rates(288000, 22050, 1253), 6) && AllApart(Rates(320000, 22050, 1393), 6)
  {
  }

  lemma WideApart(half: nat, i: nat)
    requires IsWide(half, i)
    ensures AllApart(Family(half, i), Grain(half))
  {
    if half == 1 {
      HalfApart();
    } else if i <= 12 {
      LowApart();
    } else {
      HighApart();
      HighestApart();
      LastApart();
    }
  }

  lemma MultiplesApart(half: nat, i: nat, m: nat)
    requires IsWide(half, i)
    ensures AllApart(Family(half, i), Grain(half)) && (1 <= m <= 6 ==> MultipleApart(Family(half, i), Grain(half), m))
  {
    WideApart(half, i);
  }

  // In this family too the wrapped comparison is right, but in that one state.
  lemma FamilyAgrees(half: nat, i: nat, t: Counters)
    requires half < 3 && i < 19 && Grained(half, t)
    requires var r := Family(half, i); RatesOk(r) && OnTime(r, t) && IsRenormalised(r, t) && !Straddling(r, t)
    ensures Behind(Family(half, i), t, true) == Behind(Family(half, i), t, false)
  {
    var r := Family(half, i);
    if half == 2 || (half == 1 && i <= 14) || (half == 0 && i <= 6) {
      FamilyFits(half, i);
      FittingProductsAgree(r, t);
    } else {
      WideAgrees(half, i, t);
    }
  }

  ghost predicate IsWide(half: nat, i: nat) { i < 19 && ((half == 1 && i > 14) || (half == 0 && i > 6)) }

  lemma SameSide(half: nat, i: nat, t: Counters, m: int)
    requires IsWide(half, i) && Grained(half, t)
    requires var r := Family(half, i); RatesOk(r) && OnTime(r, t) && IsRenormalised(r, t) && !Straddling(r, t)
    ensures var r := Family(half, i); m * WORD <= t.bits * r.samples <==> m * WORD <= t.samples * r.bits
  {
    var r := Family(half, i);
    ProductsBounded(r, t);
    MultiplesApart(half, i, 1);
    var b, q := GrainedForm(half, i, t);
    if half == 0 && i == 12 && m == 1 {
      OddApart(b, q);
    } else if 1 <= m <= 6 && m * WORD < r.bits * r.samples + 16 * r.samples {
      MultiplesApart(half, i, m);
      ApartSameSide(r, 16 * r.samples, Grain(half) * r.bits, m * WORD, b, q);
    }
  }

  // For 256 kbit/s, 2^32 itself lies between the products of one state only.
  lemma OddApart(b: int, q: int)
    requires -196800 <= 705600 * b - 3072000 * q < 508800 && !(16 * b == 97392 && 12 * q == 16776)
    ensures WORD <= 705600 * b <==> WORD <= 3072000 * q
  {
    assert q <= 1398 <==> 3072000 * q < WORD;
    assert b <= 6086 <==> 705600 * b < WORD;
  }

  lemma WideAgrees(half: nat, i: nat, t: Counters)
    requires IsWide(half, i) && Grained(half, t)
    requires var r := Family(half, i); RatesOk(r) && OnTime(r, t) && IsRenormalised(r, t) && !Straddling(r, t)
    ensures Behind(Family(half, i), t, true) == Behind(Family(half, i), t, false)
  {
    var r := Family(half, i);
    var x, y := t.bits * r.samples, t.samples * r.bits;
    forall m: int
      ensures m * WORD <= x <==> m * WORD <= y
    {
      SameSide(half, i, t, m);
    }
    SameSideAgrees(x, y);
  }

  lemma SameSideAgrees(x: int, y: int)
    requires forall m: int {:trigger m * WORD} :: m * WORD <= x <==> m * WORD <= y
    ensures x % WORD < y % WORD <==> x < y
  {
    var m, n := x / WORD, y / WORD;
    assert m * WORD <= x && n * WORD <= y;
    assert m * WORD <= y && n * WORD <= x;
  }

  // ---- whole runs in 32 bits ----

  ghost predicate RatesGrained(half: nat, r: Rates) {
    r.bits > 0 && r.samples > 0 && r.words > 0 && Grained(half, Counters(r.bits, r.samples))
  }

  lemma FamilyGrained(half: nat, i: nat)
    requires half < 3 && i < 19
    ensures RatesGrained(half, Family(half, i))
  {
  }

  lemma Difference(a: int, b: int, d: int)
    requires d > 0 && a % d == 0 && b % d == 0
    ensures (a - b) % d == 0 && (a + b) % d == 0
  {
    var i, j := a / d, b / d;
    Quotient(a, d);
    Quotient(b, d);
    Spread(d, i, j);
    Multiple(i - j, d);
    Multiple(i + j, d);
  }

  lemma Quotient(a: int, d: int)
    requires d > 0 && a % d == 0
    ensures a == d * (a / d)
  {
  }

  lemma Spread(d: int, i: int, j: int)
    ensures d * (i - j) == d * i - d * j && d * (i + j) == d * i + d * j
  {
  }

  lemma Multiple(m: int, d: int)
    requires d > 0
    ensures (d * m) % d == 0
  {
    DivUnique(d * m, d, m, 0);
  }

  lemma LessGrained(half: nat, s: Counters, d: Counters)
    requires Grained(half, s) && Grained(half, d)
    ensures Grained(half, Counters(s.bits - d.bits, s.samples - d.samples))
  {
    Difference(s.bits, d.bits, 16);
    Difference(s.samples, d.samples, Grain(half));
  }

  lemma MoreGrained(half: nat, t: Counters, size: int)
    requires Grained(half, t)
    ensures Grained(half, Counters(t.bits + 16 * size, t.samples + FRAME_SAMPLES))
  {
    Multiple(size, 16);
    Difference(t.bits, 16 * size, 16);
    Difference(t.samples, FRAME_SAMPLES, Grain(half));
  }

  lemma {:induction false} RenormalisedStaysGrained(half: nat, r: Rates, s: Counters)
    requires RatesGrained(half, r) && Grained(half, s)
    ensures Grained(half, Renormalised(r, s))
    decreases s.bits
  {
    if s.bits >= r.bits && s.samples >= r.samples && s.bits >= 0 {
      LessGrained(half, s, Counters(r.bits, r.samples));
      RenormalisedStaysGrained(half, r, Counters(s.bits - r.bits, s.samples - r.samples));
    }
  }

  lemma {:induction false} RunGrained(half: nat, r: Rates, n: nat, wrap: bool)
    requires RatesGrained(half, r)
    ensures Grained(half, Run(r, n, wrap))
  {
    if n > 0 {
      RunGrained(half, r, n - 1, wrap);
      var s := Run(r, n - 1, wrap);
      RenormalisedStaysGrained(half, r, s);
      MoreGrained(half, Renormalised(r, s), FrameSize(r, s, wrap));
    }
  }

  // The counters with which frame n is sized, in integers.
  function Before(r: Rates, n: nat): Counters
    requires r.bits > 0
  {
    Renormalised(r, Run(r, n, false))
  }


  ghost predicate InFamily(half: nat, i: nat) { half < 3 && i < 19 }

  lemma FamilyOk(half: nat, i: nat)
    requires InFamily(half, i)
    ensures RatesOk(Family(half, i)) && Family(half, i).words > 0
  {
    Drift44(half, i);
  }

  lemma BeforeIs(half: nat, i: nat, n: nat)
    requires InFamily(half, i)
    ensures Family(half, i).bits > 0
    ensures var r := Family(half, i);
              OnTime(r, Before(r, n)) && IsRenormalised(r, Before(r, n)) && Grained(half, Before(r, n))
  {
    var r := Family(half, i);
    FamilyOk(half, i);
    FamilyGrained(half, i);
    RunOnTime(r, n);
    RunGrained(half, r, n, false);
    RenormalisedStaysGrained(half, r, Run(r, n, false));
    var k := RenormalisedKeeps(r, Run(r, n, false));
  }

  // As long as the integers never stand in that state, 32 bits give the same run.
  lemma {:induction false} SameRun(half: nat, i: nat, n: nat)
    requires InFamily(half, i) && Family(half, i).bits > 0
    requires forall k: nat :: k < n ==> !Straddling(Family(half, i), Before(Family(half, i), k))
    ensures Run(Family(half, i), n, true) == Run(Family(half, i), n, false)
    ensures Written(Family(half, i), n, true) == Written(Family(half, i), n, false)
  {
    if n > 0 {
      SameRun(half, i, n - 1);
      FamilyOk(half, i);
      BeforeIs(half, i, n - 1);
      FamilyAgrees(half, i, Before(Family(half, i), n - 1));
    }
  }

  // A lead of zero stays zero, wrapped or not.
  lemma {:induction false} ExactRun(r: Rates, n: nat, wrap: bool)
    requires r.bits > 0 && r.samples > 0 && r.words >= 0 && Drift(r) == 0
    ensures Positive(Run(r, n, wrap)) && Lead(r, Run(r, n, wrap)) == 0 && FrameSize(r, Run(r, n, wrap), wrap) == r.words
  {
    if n > 0 {
      ExactRun(r, n - 1, wrap);
      var s := Run(r, n - 1, wrap);
      var k := RenormalisedKeeps(r, s);
      LeadAfter(r, Renormalised(r, s), false);
    }
    var k := RenormalisedKeeps(r, Run(r, n, wrap));
  }

  // ---- the one rate that goes wrong ----

  const ODD: Rates := Rates(256000, 44100, 557)
  const ODD_FRAME: nat := 1791
  const PERIOD: nat := 3675

  // Samples before frame n, less what was renormalised away.
  lemma SamplesOf(r: Rates, n: nat) returns (k: nat)
    requires r.bits > 0 && r.samples > 0 && r.words >= 0
    ensures Positive(Run(r, n, false)) && Run(r, n, false).samples == FRAME_SAMPLES * n - k * r.samples
  {
    k := 0;
    if n > 0 {
      var j := SamplesOf(r, n - 1);
      var d := RenormalisedKeeps(r, Run(r, n - 1, false));
      k := j + d;
      TakeAway(FRAME_SAMPLES * (n - 1), j, d, r.samples);
    }
  }

  lemma TakeAway(total: int, j: int, d: int, x: int)
    ensures total - j * x - d * x == total - (j + d) * x
  {
  }

  lemma SamplesBefore(n: nat) returns (k: nat)
    ensures Before(ODD, n).samples == FRAME_SAMPLES * n - 44100 * k
  {
    Drift44(0, 12);
    var j := SamplesOf(ODD, n);
    var d := RenormalisedKeeps(ODD, Run(ODD, n, false));
    k := j + d;
  }

  lemma OddIsFamily()
    ensures Family(0, 12) == ODD
  {
  }

  // 1536 n is 16776 beyond a multiple of 44100 once in 3675 frames.
  lemma OnceInAPeriod(n: nat, k: int)
    requires 1536 * n - 44100 * k == 16776
    ensures n % PERIOD == ODD_FRAME
  {
    var m, c := n / PERIOD, n % PERIOD;
    var j := k - 128 * m;
    assert 128 * c == 1398 + 3675 * j;
    assert c == 1791 + 3675 * (491 + 1292 * j - 45 * c);
  }

  // The state comes back once in 3675 frames.
  lemma StraddlesIff(n: nat)
    ensures Straddling(ODD, Before(ODD, n)) <==> n % PERIOD == ODD_FRAME
  {
    OddIsFamily();
    BeforeIs(0, 12, n);
    var t := Before(ODD, n);
    var k := SamplesBefore(n);
    if Straddling(ODD, t) {
      OnceInAPeriod(n, k);
    } else if n % PERIOD == ODD_FRAME {
      var m := n / PERIOD;
      var b := t.bits / 16;
      assert -196800 <= 705600 * b - 256000 * t.samples < 508800;
      assert t.samples == 16776 + 44100 * (62 + 128 * m - k);
      OnlyState(b, 62 + 128 * m - k);
    }
  }

  lemma OnlyState(b: int, j: int)
    requires -196800 <= 705600 * b - 256000 * (16776 + 44100 * j) < 508800 && b >= 0 && 16776 + 44100 * j >= 0
    requires 16 * b < 256000 || 16776 + 44100 * j < 44100
    ensures b == 6087 && j == 0
  {
  }

  lemma StraddlingStep(s: Counters)
    requires Straddling(ODD, Renormalised(ODD, s))
    ensures AfterFrame(ODD, s, true) == Counters(106320, 18312) && AfterFrame(ODD, s, false) == Counters(106304, 18312)
    ensures FrameSize(ODD, s, true) == 558 && FrameSize(ODD, s, false) == 557
  {
  }

  lemma RejoiningSteps()
    ensures AfterFrame(ODD, Counters(106320, 18312), true) == Counters(115232, 19848)
    ensures AfterFrame(ODD, Counters(106304, 18312), false) == Counters(115216, 19848)
    ensures AfterFrame(ODD, Counters(115232, 19848), true) == Counters(124144, 21384)
    ensures AfterFrame(ODD, Counters(115216, 19848), false) == Counters(124144, 21384)
  {
  }

  // Both runs side by side: apart for two frames of every 3675, and together again.
  ghost predicate SideBySide(n: nat, wrapped: Counters, whole: Counters) {
    if n % PERIOD == ODD_FRAME + 1 then wrapped == Counters(106320, 18312) && whole == Counters(106304, 18312)
    else if n % PERIOD == ODD_FRAME + 2 then wrapped == Counters(115232, 19848) && whole == Counters(115216, 19848)
    else wrapped == whole
  }

  lemma SideBySideStep(n: nat, r: Rates, w: Counters, h: Counters)
    requires r == ODD && SideBySide(n, w, h) && (Straddling(r, Renormalised(r, h)) <==> n % PERIOD == ODD_FRAME)
    requires n % PERIOD != ODD_FRAME ==> Behind(r, Renormalised(r, h), true) == Behind(r, Renormalised(r, h), false)
    ensures SideBySide(n + 1, AfterFrame(r, w, true), AfterFrame(r, h, false))
  {
    NextInPeriod(n);
    if n % PERIOD == ODD_FRAME {
      StraddlingStep(h);
    } else if w != h {
      RejoiningSteps();
    }
  }

  lemma NextInPeriod(n: nat)
    ensures (n + 1) % PERIOD == if n % PERIOD == PERIOD - 1 then 0 else n % PERIOD + 1
  {
  }

  lemma {:induction false} OddRun(n: nat, r: Rates)
    requires r == ODD
    ensures SideBySide(n, Run(r, n, true), Run(r, n, false))
  {
    if n > 0 {
      OddRun(n - 1, r);
      StraddlesIff(n - 1);
      OddIsFamily();
      FamilyOk(0, 12);
      BeforeIs(0, 12, n - 1);
      if (n - 1) % PERIOD != ODD_FRAME {
        FamilyAgrees(0, 12, Before(r, n - 1));
      }
      SideBySideStep(n - 1, r, Run(r, n - 1, true), Run(r, n - 1, false));
    }
  }

  // With 256 kbit/s at 44100 Hz the runs differ after just those frames. The bits written are
  // never 20 ahead of their due, nor 16 behind, and at most one word more than they should be.
  lemma OddRateHolds(n: nat)
    ensures Run(ODD, n, true) == Run(ODD, n, false) <==> !(n % PERIOD == ODD_FRAME + 1 || n % PERIOD == ODD_FRAME + 2)
    ensures -16 * 44100 < Written(ODD, n, true) * 44100 - FRAME_SAMPLES * n * 256000 < 20 * 44100
    ensures Written(ODD, n, true) == Written(ODD, n, false) + if Run(ODD, n, true) == Run(ODD, n, false) then 0 else 16
  {
    OddIsFamily();
    FamilyOk(0, 12);
    OddRun(n, ODD);
    RunOnTime(ODD, n);
    LeadIsTotal(ODD, n, true);
    LeadIsTotal(ODD, n, false);
  }

  // The first time is frame 1791: 32 bits give it a word where integers do not, and the bits
  // written are then 19 ahead of their due.
  lemma OddRateMissteps(r: Rates, n: nat)
    requires r == ODD && n % PERIOD == ODD_FRAME
    ensures FrameSize(r, Run(r, n, true), true) == FrameSize(r, Run(r, n, false), false) + 1
    ensures Written(r, n + 1, true) * 44100 - FRAME_SAMPLES * (n + 1) * 256000 == 840000 > 19 * 44100
    ensures Run(r, n, true) == Run(r, n, false) && Run(r, n + 1, true) != Run(r, n + 1, false)
  {
    OddRun(n, r);
    StraddlesIff(n);
    StraddlingStep(Run(r, n, true));
    NextInPeriod(n);
    OddRun(n + 1, r);
    LeadIsTotal(r, n + 1, true);
  }

  lemma NextRun(r: Rates, n: nat, wrap: bool)
    requires r.bits > 0
    ensures Run(r, n + 1, wrap) == AfterFrame(r, Run(r, n, wrap), wrap)
  {
  }

  // For every accepted configuration but that one, the encoder's 32-bit products never change
  // the size of a frame.
  lemma WrapIsHarmlessIff(c: Config)
    requires Accepted(c)
    ensures RatesOf(c).bits > 0
    ensures (forall n: nat :: Run(RatesOf(c), n, true) == Run(RatesOf(c), n, false)) <==>
      !(c.sampleRate == 44100 && c.bitRate == 256)
  {
    AcceptedRates(c);
    var r := RatesOf(c);
    var channels, half, fscod, i :| InTables(channels, half, fscod, i) && c == Settled(channels, half, fscod, i);
    if fscod == 1 {
      assert r == Family(half, i) by { assert 2 * i / 2 == i; }
      if r == ODD {
        OddRateMissteps(r, ODD_FRAME);
      } else {
        assert !(c.sampleRate == 44100 && c.bitRate == 256) by { NotOdd(half, i); }
        forall n: nat
          ensures Run(r, n, true) == Run(r, n, false)
        {
          SameRun(half, i, n);
        }
      }
    } else {
      NotAt44100(half, fscod);
      forall n: nat
        ensures Run(r, n, true) == Run(r, n, false)
      {
        ExactRunsSame(r, n);
      }
    }
  }

  lemma NotOdd(half: nat, i: nat)
    requires InFamily(half, i) && Family(half, i) != ODD
    ensures !(Halved(44100, half) == 44100 && Halved(BitRate(i), half) == 256)
  {
  }

  lemma NotAt44100(half: nat, fscod: nat)
    requires half < 3 && fscod < 3 && fscod != 1
    ensures Halved(Frequency(fscod), half) != 44100
  {
  }

  lemma {:induction false} ExactRunsSame(r: Rates, n: nat)
    requires r.bits > 0 && r.samples > 0 && r.words >= 0 && Drift(r) == 0
    ensures Run(r, n, true) == Run(r, n, false)
  {
    if n > 0 {
      ExactRunsSame(r, n - 1);
      ExactRun(r, n - 1, true);
      ExactRun(r, n - 1, false);
    }
  }

  // ---- the encoder's counters ----

  ghost predicate Odd(r: Rates) { r.samples == 44100 && r.bits == 256000 }

  lemma Less(x: int, y: int, n: int, d: int)
    requires x * y < n * y + d && y > 0 && d <= 96 * y
    ensures x < n + 96
  {
    if x >= n + 96 {
      Times(n + 96, x, y);
    }
  }

  // On time, the counters themselves never come near 2^32.
  lemma CountersFit(r: Rates, s: Counters)
    requires RatesOk(r) && OnTime(r, s) && IsRenormalised(r, s) && 8000 <= r.bits <= 640000 && r.samples <= 48000
    ensures s.bits < r.bits + 96 < WORD && s.samples < r.samples + 96 < WORD
  {
    ProductsBounded(r, s);
    var f, b := r.samples, r.bits;
    assert b * f == f * b;
    Less(s.bits, f, b, 16 * f);
    Less(s.samples, b, f, 16 * f);
  }

  class FrameSizer {
    const r: Rates
    var bitsWritten: int
    var samplesWritten: int
    var frameSize: int
    ghost var frames: nat
    ghost var written: int

    function Now(): Counters
      reads this
    {
      Counters(bitsWritten, samplesWritten)
    }

    ghost predicate Valid()
      reads this
    {
      && RatesOk(r) && r.words >= 0 && Now() == Run(r, frames, true) && written == Written(r, frames, true)
      && (!Odd(r) ==> Run(r, frames, true) == Run(r, frames, false) && written == Written(r, frames, false))
    }

    constructor (c: Config)
      requires Accepted(c)
      ensures Valid() && r == RatesOf(c) && frames == 0 && written == 0
    {
      r := RatesOf(c);
      bitsWritten, samplesWritten, frameSize := 0, 0, c.frameSizeMin;
      frames, written := 0, 0;
      new;
      AcceptedRates(c);
    }

    // The counters go down by a second of bits and of samples as long as both can.
    method Renormalise()
      requires r.bits > 0
      modifies this`bitsWritten, this`samplesWritten
      ensures Now() == Renormalised(r, old(Now()))
    {
      while bitsWritten >= r.bits && samplesWritten >= r.samples && bitsWritten >= 0
        invariant Renormalised(r, Now()) == Renormalised(r, old(Now()))
        decreases bitsWritten
      {
        bitsWritten := bitsWritten - r.bits;
        samplesWritten := samplesWritten - r.samples;
      }
    }

    // The frame size control of AC3_encode_frame, products in 32 bits. The frame is as long as
    // it would be in integers and the bits so far are less than 16 from their due, but at 256
    // kbit/s and 44100 Hz; there they are less than 20 ahead.
    method NextFrame(ghost c: Config)
      requires Valid() && Accepted(c) && r == RatesOf(c)
      modifies this
      ensures Valid() && frames == old(frames) + 1 && written == old(written) + 16 * frameSize
      ensures frameSize == FrameSize(r, old(Now()), true) && r.words <= frameSize <= r.words + 1
      ensures c.fscod != 1 ==> frameSize == r.words
      ensures -16 * r.samples < written * r.samples - FRAME_SAMPLES * frames * r.bits
      ensures written * r.samples - FRAME_SAMPLES * frames * r.bits < (if Odd(r) then 20 else 16) * r.samples
    {
      Renormalise();
      ghost var t := Now();
      var extra := IsBehind();
      frameSize := r.words + if extra then 1 else 0;
      bitsWritten := bitsWritten + frameSize * 16;
      samplesWritten := samplesWritten + FRAME_SAMPLES;
      frames := frames + 1;
      written := written + 16 * frameSize;
      FrameDone(r, frames - 1, t, Now());
      Controlled(c, frames);
    }

    method IsBehind() returns (extra: bool)
      ensures extra == Behind(r, Now(), true)
    {
      extra := bitsWritten * r.samples % WORD < samplesWritten * r.bits % WORD;
    }
  }

  lemma FrameDone(r: Rates, n: nat, t: Counters, after: Counters)
    requires r.bits > 0 && t == Renormalised(r, Run(r, n, true))
    requires var size := r.words + if Behind(r, t, true) then 1 else 0;
      after == Counters(t.bits + size * 16, t.samples + FRAME_SAMPLES)
    ensures after == Run(r, n + 1, true)
    ensures FrameSize(r, Run(r, n, true), true) == r.words + if Behind(r, t, true) then 1 else 0
    ensures Written(r, n + 1, true) == Written(r, n, true) + 16 * FrameSize(r, Run(r, n, true), true)
  {
  }

  lemma OddIsOne(c: Config)
    requires Accepted(c) && Odd(RatesOf(c))
    ensures RatesOf(c) == ODD
  {
    var channels, half, fscod, i :| InTables(channels, half, fscod, i) && c == Settled(channels, half, fscod, i);
    assert 2 * i / 2 == i;
    assert half == 0 && fscod == 1;
  }

  lemma Controlled(c: Config, n: nat)
    requires Accepted(c)
    ensures RatesOk(RatesOf(c)) && RatesOf(c).words >= 0
    ensures var r := RatesOf(c);
      && (!Odd(r) ==> Run(r, n, true) == Run(r, n, false) && Written(r, n, true) == Written(r, n, false))
      && -16 * r.samples < Written(r, n, true) * r.samples - FRAME_SAMPLES * n * r.bits
      && Written(r, n, true) * r.samples - FRAME_SAMPLES * n * r.bits < (if Odd(r) then 20 else 16) * r.samples
    ensures c.fscod != 1 && n > 0 ==> FrameSize(RatesOf(c), Run(RatesOf(c), n - 1, true), true) == RatesOf(c).words
  {
    AcceptedRates(c);
    WrapIsHarmlessIff(c);
    var r := RatesOf(c);
    if !Odd(r) {
      SameRunSameBits(r, n);
      RateHolds(r, n);
    } else {
      OddIsOne(c);
      OddRateHolds(n);
    }
    if c.fscod != 1 && n > 0 {
      ExactRun(r, n - 1, true);
    }
  }

  lemma {:induction false} SameRunSameBits(r: Rates, n: nat)
    requires r.bits > 0 && forall k: nat :: Run(r, k, true) == Run(r, k, false)
    ensures Written(r, n, true) == Written(r, n, false)
  {
    if n > 0 {
      SameRunSameBits(r, n - 1);
      NextRun(r, n - 1, true);
      NextRun(r, n - 1, false);
      assert Run(r, n, true).bits == Run(r, n, false).bits;
    }
  }
}
