// Blocks whose nibbles the trellis search has chosen: how they are packed, and that a decoder
// stays in step with the encoder from block to block.
module AdpcmTrellisBlocks {
  import opened Adpcm
  import opened AdpcmBlocks
  import T = AdpcmTrellis

  // The search carries a second sample where decoders have none, for IMA and Yamaha.
  ghost predicate Alike(v: Codec, s: State, t: State) {
    s.sample1 == t.sample1 && s.step == t.step && (v.Ms? ==> s.sample2 == t.sample2)
  }

  // What the decoder knows of the state a search begins in.
  ghost predicate Begins(v: Codec, s: State, t: State) {
    StateOk(v, s) && StateOk(v, t) && Alike(v, s, t) && (v.Ms? || s.sample2 == 0)
  }

  lemma SameStep(v: Codec, m: Model, s: State, t: State, x: Nibble, sample: int)
    requires Implements(m, v) && Begins(v, s, t)
    ensures Begins(v, m.f(s, x), Expand(v, t, x)) && T.Transition(v).expand(t, x) == Expand(v, t, x)
    ensures T.Transition(v).tries(t, sample, x) <==> T.InReach(v, s, sample, T.IndexOf(v, x))
  {
    assert At(s, x);
  }

  // From there on the decoder does what the search did, and the nibbles that were tried there
  // are those that would be tried here.
  lemma {:induction false} SameFromHeader(v: Codec, m: Model, s: State, t: State, n: seq<Nibble>, wanted: seq<int>)
    requires Implements(m, v) && Begins(v, s, t) && |n| == |wanted|
    ensures Begins(v, After(m, s, n), Replay(v, t, n)) && T.Run(T.Transition(v), t, n) == Replay(v, t, n)
    ensures T.Tried(T.Transition(v), t, n, wanted) <==> TriedFrom(v, m, s, n, wanted)
  {
    if n != [] {
      var k := |n| - 1;
      SameFromHeader(v, m, s, t, n[..k], wanted[..k]);
      SameStep(v, m, After(m, s, n[..k]), Replay(v, t, n[..k]), n[k], wanted[k]);
    }
  }

  // Each nibble is one of those around the exact quotient for its sample.
  ghost predicate TriedFrom(v: Codec, m: Model, s: State, n: seq<Nibble>, wanted: seq<int>)
    requires |n| == |wanted|
  {
    n == [] ||
    var k := |n| - 1;
    && TriedFrom(v, m, s, n[..k], wanted[..k])
    && StateOk(v, After(m, s, n[..k])) && T.InReach(v, After(m, s, n[..k]), wanted[k], T.IndexOf(v, n[k]))
  }

  // ---- the greedy encoder's choice is among those tried ----

  // From each of the lighter nodes; and for IMA and Yamaha from all.
  lemma GreedyIsDue(v: Codec, s: State, sample: int)
    requires StateOk(v, s)
    ensures T.Due(v, s, sample, true, Greedy(v, s, sample))
    ensures !v.Ms? ==> T.Due(v, s, sample, false, Greedy(v, s, sample))
  {
    if v.Ms? {
      var delta := sample - MsPredictor(v, s.sample1, s.sample2);
      var q := Quot(delta + if delta >= 0 then Quot(s.step, 2) else Quot(-s.step, 2), s.step);
      RoundedQuotient(delta, s.step, q);
      RoundingIsNear(delta, s.step, q);
      ClippedNibble(q);
    } else {
      var step := if v.ImaWav? then StepOf(s.step) else s.step;
      QuotientOf((sample - s.sample1) * 4, step, Abs(sample - s.sample1) * 4 / step);
    }
  }

  // Rounding moves the quotient by one at most.
  lemma RoundingIsNear(delta: int, step: int, q: int)
    requires step > 0 && Abs(delta - q * step) <= step / 2
    ensures Abs(q - Quot(delta, step)) <= 1
  {
    var k := Quot(delta, step);
    T.QuotBracket(delta, step, k);
    Steps(q, k, step);
    Steps(q, k - 1, step);
    Steps(q, k + 1, step);
    assert (k - 1) * step == k * step - step && (k + 1) * step == k * step + step;
  }

  // ---- the MS step fits its header field here too ----

  const MS_LIMIT: int := 28086

  lemma ReachNeedsDifference(s: State, sample: int, n: Nibble)
    requires StateOk(MS, s) && -32768 <= sample <= 32767 && T.InReach(MS, s, sample, T.IndexOf(MS, n))
    ensures Signed(n) != 0 ==> (Abs(Signed(n)) - 1) * s.step <= 65535
  {
    var d, x := sample - s.sample1, Abs(Signed(n));
    assert MsPredictor(MS, s.sample1, s.sample2) == s.sample1;
    var q := Abs(d) / s.step;
    QuotientOf(d, s.step, q);
    assert x <= q + 1;
    if x > 0 {
      QuotientTimes(Abs(d), s.step, q, x - 1);
    }
  }

  lemma QuotientOf(d: int, step: int, q: int)
    requires step > 0 && q == Abs(d) / step
    ensures q >= 0 && Quot(d, step) == if d >= 0 then q else -q
  {
  }

  // A step past the limit would need a larger difference than two samples can have.
  lemma NextStepWithin(step: int, n: Nibble)
    requires 16 <= step <= MS_LIMIT && (Signed(n) != 0 ==> (Abs(Signed(n)) - 1) * step <= 65535)
    ensures 16 <= MsNextDelta(step, n) <= MS_LIMIT
  {
    match n
    case 4 => assert 3 * step <= 65535;
    case 5 => assert 4 * step <= 65535;
    case 6 => assert 5 * step <= 65535;
    case 7 => assert 6 * step <= 65535;
    case 8 => assert 7 * step <= 65535;
    case 9 => assert 6 * step <= 65535;
    case 10 => assert 5 * step <= 65535;
    case 11 => assert 4 * step <= 65535;
    case 12 => assert 3 * step <= 65535;
    case _ => assert ADAPTATION_TABLE[n] == 230;
  }

  lemma {:induction false} TriedStaysBounded(m: Model, s: State, n: seq<Nibble>, wanted: seq<int>)
    requires Implements(m, MS) && StateOk(MS, s) && s.step <= MS_LIMIT && Shorts(wanted)
    requires |n| == |wanted| && TriedFrom(MS, m, s, n, wanted)
    ensures StateOk(MS, After(m, s, n)) && After(m, s, n).step <= MS_LIMIT
  {
    if n != [] {
      var k := |n| - 1;
      var r := After(m, s, n[..k]);
      TriedStaysBounded(m, s, n[..k], wanted[..k]);
      assert At(r, n[k]);
      ReachNeedsDifference(r, wanted[k], n[k]);
      NextStepWithin(r.step, n[k]);
    }
  }

  // ---- one channel ----

  // The channel can be coded further: its second sample is one, whatever it is for.
  ghost predicate Ready(v: Codec, c: ChannelStatus)
    reads c
  {
    Matches(v, c) && -32768 <= c.sample2 <= 32767 && StateOk(v, DecoderState(v, c))
  }

  lemma LeftWhereDecoded(v: Codec, c: ChannelStatus, last: State)
    requires Matches(v, c) && StateOk(v, last)
    requires c.predictor == c.sample1 == last.sample1 && c.sample2 == last.sample2
    requires c.stepIndex == c.step == c.idelta == last.step
    ensures Ready(v, c) && Begins(v, DecoderState(v, c), last)
  {
  }

  // What a search writes for the nibbles it found, and where it leaves the channel: where a
  // decoder is that has read them.
  method Search(v: Codec, trellis: nat, stride: nat, samples: seq<int>, c: ChannelStatus, n: nat, ghost m: Model,
                ghost s: State)
      returns (nibbles: seq<Nibble>)
    requires Shorts(samples) && trellis > 0 && stride > 0 && (n > 0 ==> (n - 1) * stride < |samples|)
    requires Implements(m, v) && Matches(v, c) && Begins(v, s, T.InitialState(v, c))
    modifies c
    ensures |nibbles| == n && TriedFrom(v, m, s, nibbles, T.Strided(samples, stride, n))
    ensures Ready(v, c) && DecoderState(v, c) == After(m, s, nibbles)
    ensures v == MS && s.step <= MS_LIMIT ==> c.idelta <= MS_LIMIT
  {
    var dst := new Nibble[n](_ => 0);
    ghost var t := T.InitialState(v, c);
    ghost var rungs := T.CompressTrellis(v, trellis, stride, samples, dst, c, n);
    assert dst[..n] == dst[..];
    nibbles := dst[..];
    LeftWhereDecoded(v, c, Replay(v, t, nibbles));
    SameFromHeader(v, m, s, t, nibbles, T.Strided(samples, stride, n));
    if v == MS && s.step <= MS_LIMIT {
      T.StridedShorts(samples, stride, n);
      TriedStaysBounded(m, s, nibbles, T.Strided(samples, stride, n));
    }
  }

  // ---- packing ----

  method PackMono(v: Codec, n: seq<Nibble>, pairs: nat) returns (bytes: seq<Byte>)
    requires |n| == 2 * pairs
    ensures bytes == Pack(v, n)
  {
    bytes := [];
    for i := 0 to pairs
      invariant bytes == Pack(v, n[..2 * i])
    {
      PackPair(v, n[..2 * i], n[2 * i], n[2 * i + 1]);
      assert n[..2 * (i + 1)] == n[..2 * i] + [n[2 * i], n[2 * i + 1]];
      bytes := bytes + [Join(v, n[2 * i], n[2 * i + 1])];
    }
    assert n[..2 * pairs] == n;
  }

  // A nibble of each channel in a byte.
  method PackStereo(v: Codec, e: seq<Nibble>, o: seq<Nibble>) returns (bytes: seq<Byte>)
    requires |e| == |o|
    ensures bytes == Pack(v, Interleave(e, o))
  {
    bytes := [];
    for i := 0 to |e|
      invariant bytes == Pack(v, Interleave(e[..i], o[..i]))
    {
      NextPair(v, e, o, i, i + 1);
      bytes := bytes + [Join(v, e[i], o[i])];
    }
    assert e[..|e|] == e && o[..|o|] == o;
  }

  lemma NextPair(v: Codec, e: seq<Nibble>, o: seq<Nibble>, i: nat, k: nat)
    requires k == i + 1 <= |e| == |o|
    ensures Pack(v, Interleave(e[..k], o[..k])) == Pack(v, Interleave(e[..i], o[..i])) + [Join(v, e[i], o[i])]
  {
    PackBoth(v, e[..i], o[..i], e[i], o[i]);
    assert e[..k] == e[..i] + [e[i]] && o[..k] == o[..i] + [o[i]];
  }

  // Four bytes of each channel in turn.
  method PackGroups(e: seq<Nibble>, o: seq<Nibble>, groups: nat) returns (bytes: seq<Byte>)
    requires |e| == |o| == 8 * groups
    ensures bytes == ImaStereo(e, o, groups)
  {
    bytes := [];
    for g := 0 to groups
      invariant bytes == ImaStereo(e[..8 * g], o[..8 * g], g)
    {
      var left := PackMono(ImaWav, e[8 * g..8 * g + 8], 4);
      var right := PackMono(ImaWav, o[8 * g..8 * g + 8], 4);
      NextGroup(e, o, g, 8 * g, 8 * g + 8);
      bytes := bytes + (left + right);
    }
    assert e[..8 * groups] == e && o[..8 * groups] == o;
  }

  lemma NextGroup(e: seq<Nibble>, o: seq<Nibble>, g: nat, i: nat, k: nat)
    requires i == 8 * g && k == i + 8 <= |e| == |o|
    ensures ImaStereo(e[..k], o[..k], g + 1) == ImaStereo(e[..i], o[..i], g) + (FourBytes(e[i..k]) + FourBytes(o[i..k]))
  {
    ImaStereoGroup(e[..i], o[..i], e[i..k], o[i..k], g);
    assert e[..k] == e[..i] + e[i..k] && o[..k] == o[..i] + o[i..k];
  }

  // ---- Yamaha: a byte has two nibbles of the one channel, or one of each of two ----

  method YamahaMono(trellis: nat, enc: ChannelStatus, dec: ChannelStatus, samples: seq<int>, pairs: nat)
      returns (out: seq<int>, ghost m: Model, ghost n: seq<Nibble>)
    requires Shorts(samples) && trellis > 0 && enc != dec && |samples| == 2 * pairs && YamahaInStep(enc, dec)
    modifies enc, dec
    ensures Implements(m, Yamaha) && YamahaInStep(enc, dec)
    ensures |n| == |samples| && TriedFrom(Yamaha, m, old(DecoderState(Yamaha, enc)), n, samples)
    ensures out == Decoded(m, old(DecoderState(Yamaha, enc)), n)
  {
    m := ModelOf(Yamaha);
    ghost var s := DecoderState(Yamaha, enc);
    StridedOne(samples, |samples|);
    var nibbles := Search(Yamaha, trellis, 1, samples, enc, |samples|, m, s);
    assert samples[..|samples|] == samples;
    n := nibbles;
    var dst := PackMono(Yamaha, nibbles, pairs);
    UnpackPack(Yamaha, n, pairs);
    out := DecompressRun(Yamaha, m, dec, dst, s, []);
    assert [] + n == n && [] + out == out;
  }

  lemma {:induction false} StridedOne(samples: seq<int>, n: nat)
    requires n <= |samples|
    ensures (n - 1) * 1 == n - 1 && T.Strided(samples, 1, n) == samples[..n]
  {
    if n > 0 {
      StridedOne(samples, n - 1);
    }
  }

  // Every second sample: the left channel's, and from one further on the right channel's.
  lemma {:induction false} StridedTwo(samples: seq<int>, n: nat)
    requires 2 * n <= |samples|
    ensures T.Strided(samples, 2, n) == Evens(samples[..2 * n])
    ensures n > 0 ==> T.Strided(samples[1..], 2, n) == Odds(samples[..2 * n])
  {
    if n > 0 {
      StridedTwo(samples, n - 1);
      SplitFirstPairs(samples, n - 1, n);
      assert samples[1..][(n - 1) * 2] == samples[2 * (n - 1) + 1];
      if n == 1 {
        assert samples[..2 * (n - 1)] == [];
      }
    }
  }

  // Both channels' searches, on the same interleaved samples.
  method SearchBoth(v: Codec, trellis: nat, samples: seq<int>, c0: ChannelStatus, c1: ChannelStatus, n: nat,
                    ghost m: Model, ghost s: State, ghost t: State) returns (left: seq<Nibble>, right: seq<Nibble>)
    requires Shorts(samples) && trellis > 0 && c0 != c1 && |samples| == 2 * n && n > 0 && Implements(m, v)
    requires Matches(v, c0) && Matches(v, c1)
    requires Begins(v, s, T.InitialState(v, c0)) && Begins(v, t, T.InitialState(v, c1))
    modifies c0, c1
    ensures |left| == |right| == |Evens(samples)| == |Odds(samples)| == n
    ensures TriedFrom(v, m, s, left, Evens(samples)) && TriedFrom(v, m, t, right, Odds(samples))
    ensures Ready(v, c0) && DecoderState(v, c0) == After(m, s, left) && Ready(v, c1)
    ensures DecoderState(v, c1) == After(m, t, right)
    ensures v == MS && s.step <= MS_LIMIT ==> c0.idelta <= MS_LIMIT
    ensures v == MS && t.step <= MS_LIMIT ==> c1.idelta <= MS_LIMIT
  {
    StridedTwo(samples, n);
    assert samples[..2 * n] == samples;
    HalfLengths(samples, n);
    left := Search(v, trellis, 2, samples, c0, n, m, s);
    right := Search(v, trellis, 2, samples[1..], c1, n, m, t);
  }

  // What one encoder and one decoder of a channel share before a Yamaha block, and after it.
  ghost predicate YamahaInStep(enc: ChannelStatus, dec: ChannelStatus)
    reads enc, dec
  {
    Ready(Yamaha, enc) && DecoderState(Yamaha, dec) == DecoderState(Yamaha, enc)
  }

  method YamahaStereo(trellis: nat, enc0: ChannelStatus, enc1: ChannelStatus, dec0: ChannelStatus, dec1: ChannelStatus,
                      samples: seq<int>, bytes: nat)
      returns (out: seq<int>, ghost m: Model, ghost left: seq<Nibble>, ghost right: seq<Nibble>)
    requires Shorts(samples) && trellis > 0 && bytes > 0 && |samples| == 2 * bytes
    requires enc0 != enc1 && dec0 != dec1 && enc0 != dec0 && enc0 != dec1 && enc1 != dec0 && enc1 != dec1
    requires YamahaInStep(enc0, dec0) && YamahaInStep(enc1, dec1)
    modifies enc0, enc1, dec0, dec1
    ensures Implements(m, Yamaha) && YamahaInStep(enc0, dec0) && YamahaInStep(enc1, dec1)
    ensures |left| == |right| == |Evens(samples)| == |Odds(samples)| == bytes
    ensures var s, t := old(DecoderState(Yamaha, enc0)), old(DecoderState(Yamaha, enc1));
      && TriedFrom(Yamaha, m, s, left, Evens(samples)) && TriedFrom(Yamaha, m, t, right, Odds(samples))
      && out == Interleave(Decoded(m, s, left), Decoded(m, t, right))
  {
    m := ModelOf(Yamaha);
    ghost var s, t := DecoderState(Yamaha, enc0), DecoderState(Yamaha, enc1);
    var n0, n1 := SearchBoth(Yamaha, trellis, samples, enc0, enc1, bytes, m, s, t);
    left, right := n0, n1;
    var dst := PackStereo(Yamaha, n0, n1);
    UnpackPack(Yamaha, Interleave(n0, n1), bytes);
    SplitInterleave(n0, n1);
    ghost var e, o;
    out, e, o := DecompressPairs(Yamaha, m, dec0, dec1, dst, s, t);
    assert dst[..|dst|] == dst;
  }

  // ---- MS ----

  method MsMono(trellis: nat, enc: ChannelStatus, dec: ChannelStatus, samples: seq<int>, bytes: nat)
      returns (out: seq<int>, ghost m: Model, ghost s: State, ghost n: seq<Nibble>)
    requires Shorts(samples) && trellis > 0 && enc != dec && |samples| == 2 + 2 * bytes && enc.idelta <= MS_LIMIT
    modifies enc, dec
    ensures Implements(m, MS) && s == State(samples[0], samples[1], AtLeast16(old(enc.idelta))) && StateOk(MS, s)
    ensures |n| == 2 * bytes && TriedFrom(MS, m, s, n, samples[2..]) && out == samples[..2] + Decoded(m, s, n)
    ensures DecoderState(MS, dec) == DecoderState(MS, enc) == After(m, s, n) && 16 <= enc.idelta <= MS_LIMIT
  {
    m := ModelOf(MS);
    MsStart(enc, samples[0], samples[1]);
    s := EncoderState(MS, enc);
    var header := MsMonoHeader(State(enc.sample1, enc.sample2, enc.idelta));
    StridedOne(samples[2..], 2 * bytes);
    assert samples[2..][..2 * bytes] == samples[2..];
    var nibbles := Search(MS, trellis, 1, samples[2..], enc, 2 * bytes, m, s);
    n := nibbles;
    var data := PackMono(MS, nibbles, bytes);
    UnpackPack(MS, n, bytes);
    out := ReadMsMono(m, dec, header + data, data, s, n);
  }

  method ReadMsMono(ghost m: Model, dec: ChannelStatus, dst: seq<Byte>, ghost data: seq<Byte>, ghost s: State,
                    ghost n: seq<Nibble>)
      returns (out: seq<int>)
    requires Implements(m, MS) && FitsHeader(s) && s.step >= 16 && dst == MsMonoHeader(s) + data
    requires Unpack(MS, data) == n
    modifies dec
    ensures out == [s.sample1, s.sample2] + Decoded(m, s, n) && DecoderState(MS, dec) == After(m, s, n)
  {
    MsHeaderReads(s);
    MsMonoFields(s, data);
    ghost var s';
    out, s' := DecodeMsMono(m, dec, dst);
    assert s' == s;
  }

  lemma MsHeaderReads(s: State)
    requires FitsHeader(s)
    ensures ReadLe16(Le16(s.step)[0], Le16(s.step)[1]) == s.step
    ensures ReadLe16(Le16(s.sample1)[0], Le16(s.sample1)[1]) == s.sample1
    ensures ReadLe16(Le16(s.sample2)[0], Le16(s.sample2)[1]) == s.sample2
  {
    Le16RoundTrip(s.step);
    Le16RoundTrip(s.sample1);
    Le16RoundTrip(s.sample2);
  }

  method MsStereo(trellis: nat, enc0: ChannelStatus, enc1: ChannelStatus, dec0: ChannelStatus, dec1: ChannelStatus,
                  samples: seq<int>, bytes: nat)
      returns (out: seq<int>, ghost m: Model, ghost s: State, ghost t: State, ghost left: seq<Nibble>,
               ghost right: seq<Nibble>)
    requires Shorts(samples) && trellis > 0 && bytes > 0 && |samples| == 4 + 2 * bytes && enc0.idelta <= MS_LIMIT
    requires enc1.idelta <= MS_LIMIT
    requires enc0 != enc1 && dec0 != dec1 && enc0 != dec0 && enc0 != dec1 && enc1 != dec0 && enc1 != dec1
    modifies enc0, enc1, dec0, dec1
    ensures Implements(m, MS) && s == State(samples[0], samples[2], AtLeast16(old(enc0.idelta)))
    ensures t == State(samples[1], samples[3], AtLeast16(old(enc1.idelta)))
    ensures |left| == |right| == |Evens(samples[4..])| == |Odds(samples[4..])| == bytes
    ensures TriedFrom(MS, m, s, left, Evens(samples[4..])) && TriedFrom(MS, m, t, right, Odds(samples[4..]))
    ensures out == samples[..4] + Interleave(Decoded(m, s, left), Decoded(m, t, right))
    ensures DecoderState(MS, dec0) == DecoderState(MS, enc0) && DecoderState(MS, dec1) == DecoderState(MS, enc1)
    ensures 16 <= enc0.idelta <= MS_LIMIT && 16 <= enc1.idelta <= MS_LIMIT
  {
    m := ModelOf(MS);
    MsStart(enc0, samples[0], samples[2]);
    MsStart(enc1, samples[1], samples[3]);
    s, t := EncoderState(MS, enc0), EncoderState(MS, enc1);
    var header := MsStereoHeader(State(enc0.sample1, enc0.sample2, enc0.idelta),
                                 State(enc1.sample1, enc1.sample2, enc1.idelta));
    var n0, n1 := SearchBoth(MS, trellis, samples[4..], enc0, enc1, bytes, m, s, t);
    left, right := n0, n1;
    var data := PackStereo(MS, n0, n1);
    out := DecodeMsStereoBlock(m, dec0, dec1, header + data, s, t, left, right, bytes);
  }

  // ---- IMA WAV ----

  ghost predicate ImaReady(c: ChannelStatus)
    reads c
  {
    0 <= c.stepIndex <= 88 && -32768 <= c.sample2 <= 32767
  }

  method ImaMono(trellis: nat, enc: ChannelStatus, dec: ChannelStatus, samples: seq<int>, groups: nat)
      returns (out: seq<int>, ghost m: Model, ghost s: State, ghost n: seq<Nibble>)
    requires Shorts(samples) && trellis > 0 && enc != dec && |samples| == 1 + 8 * groups && ImaReady(enc)
    modifies enc, dec
    ensures Implements(m, ImaWav) && s == State(samples[0], 0, old(enc.stepIndex)) && ImaReady(enc)
    ensures |n| == 8 * groups && TriedFrom(ImaWav, m, s, n, samples[1..]) && out == Decoded(m, s, n)
    ensures DecoderState(ImaWav, dec) == DecoderState(ImaWav, enc) == After(m, s, n)
  {
    m := ModelOf(ImaWav);
    var header := ImaStart(enc, samples[0]);
    s := EncoderState(ImaWav, enc);
    StridedOne(samples[1..], 8 * groups);
    assert samples[1..][..8 * groups] == samples[1..];
    var nibbles := Search(ImaWav, trellis, 1, samples[1..], enc, 8 * groups, m, s);
    n := nibbles;
    var data := PackMono(ImaWav, nibbles, 4 * groups);
    UnpackPack(ImaWav, n, 4 * groups);
    out := ReadImaMono(m, dec, header, data, s, n);
  }

  method ReadImaMono(ghost m: Model, dec: ChannelStatus, header: seq<Byte>, data: seq<Byte>, ghost s: State,
                     ghost n: seq<Nibble>)
      returns (out: seq<int>)
    requires Implements(m, ImaWav) && StateOk(ImaWav, s) && s.sample2 == 0 && header == ImaHeader(s)
    requires Unpack(ImaWav, data) == n
    modifies dec
    ensures out == Decoded(m, s, n) && DecoderState(ImaWav, dec) == After(m, s, n)
  {
    ImaHeaderRoundTrip(s);
    ImaRead(dec, header);
    out := DecompressRun(ImaWav, m, dec, data, s, []);
    assert [] + n == n && [] + out == out;
  }

  // The right channel's header has the second left sample, as without the search.
  method ImaStereoBlock(trellis: nat, enc0: ChannelStatus, enc1: ChannelStatus, dec0: ChannelStatus,
                        dec1: ChannelStatus, samples: seq<int>, groups: nat)
      returns (out: seq<int>, ghost m: Model, ghost s: State, ghost t: State, ghost left: seq<Nibble>,
               ghost right: seq<Nibble>)
    requires Shorts(samples) && trellis > 0 && groups > 0 && |samples| == 2 + 16 * groups && ImaReady(enc0)
    requires ImaReady(enc1)
    requires enc0 != enc1 && dec0 != dec1 && enc0 != dec0 && enc0 != dec1 && enc1 != dec0 && enc1 != dec1
    modifies enc0, enc1, dec0, dec1
    ensures Implements(m, ImaWav) && ImaReady(enc0) && ImaReady(enc1)
    ensures s == State(samples[0], 0, old(enc0.stepIndex)) && t == State(samples[2], 0, old(enc1.stepIndex))
    ensures |left| == |right| == |Evens(samples[2..])| == |Odds(samples[2..])| == 8 * groups
    ensures TriedFrom(ImaWav, m, s, left, Evens(samples[2..])) && TriedFrom(ImaWav, m, t, right, Odds(samples[2..]))
    ensures out == Interleave(Decoded(m, s, left), Decoded(m, t, right))
    ensures DecoderState(ImaWav, dec0) == DecoderState(ImaWav, enc0)
    ensures DecoderState(ImaWav, dec1) == DecoderState(ImaWav, enc1)
  {
    m := ModelOf(ImaWav);
    var h0 := ImaStart(enc0, samples[0]);
    var h1 := ImaStart(enc1, samples[2]);
    s, t := EncoderState(ImaWav, enc0), EncoderState(ImaWav, enc1);
    var n0, n1 := SearchBoth(ImaWav, trellis, samples[2..], enc0, enc1, 8 * groups, m, s, t);
    left, right := n0, n1;
    var data := PackGroups(n0, n1, groups);
    out := ImaDecodeStereoBlock(m, dec0, dec1, h0 + h1 + data, groups, s, t, left, right);
  }
}
