// The parser that cuts a byte stream into AAC or AC-3 frames, however the stream is handed over.
module FrameParser {
  import opened Wrappers

  // What a header says; size 0 means it is no header.
  datatype Info = Info(size: int, channels: int, sampleRate: int, bitRate: int, samples: int)

  // A header length and a function that recognises headers.
  datatype Syntax = Syntax(headerSize: nat, sync: seq<int> -> Info)

  const BUFFER_SIZE: nat := 8192

  // What the parser demands of the sizes it meets: none, or a frame as long as its header that
  // fits the buffer.
  predicate SizeOk(x: Syntax, size: int) { size == 0 || x.headerSize <= size <= BUFFER_SIZE }

  predicate HeaderFits(x: Syntax) { 1 <= x.headerSize <= BUFFER_SIZE }

  // A syntax of which it can meet no others.
  ghost predicate SyntaxOk(x: Syntax) {
    HeaderFits(x) && forall h {:trigger x.sync(h)} :: |h| == x.headerSize ==> SizeOk(x, x.sync(h).size)
  }

  // ---- a scan of the whole stream ----

  // Frames found, bytes passed over, and where the scan stopped: at a frame of which size bytes
  // are not all there, or, size 0, at fewer bytes than a header.
  datatype Scan = Scan(frames: seq<seq<int>>, skipped: nat, stop: nat, size: int)

  function SizeAt(x: Syntax, s: seq<int>, pos: nat): int
    requires pos + x.headerSize <= |s|
  {
    x.sync(s[pos..pos + x.headerSize]).size
  }

  // From pos on: at each byte where a header is, take its frame; else go on to the next byte.
  function ScanFrom(x: Syntax, s: seq<int>, pos: nat): Scan
    requires HeaderFits(x)
    decreases |s| - pos
  {
    if pos + x.headerSize > |s| then Scan([], 0, pos, 0)
    else
      var z := SizeAt(x, s, pos);
      if z == 0 then Skip(ScanFrom(x, s, pos + 1))
      else if SizeOk(x, z) && pos + z <= |s| then Found(s[pos..pos + z], ScanFrom(x, s, pos + z))
      else Scan([], 0, pos, z)
  }

  function Skip(rest: Scan): Scan { rest.(skipped := rest.skipped + 1) }

  function Found(frame: seq<int>, rest: Scan): Scan { rest.(frames := [frame] + rest.frames) }

  // Two scans, the second from where the first stopped.
  function After(a: Scan, b: Scan): Scan { Scan(a.frames + b.frames, a.skipped + b.skipped, b.stop, b.size) }

  lemma SamePiece(s: seq<int>, t: seq<int>, a: nat, b: nat)
    requires a <= b <= |s|
    ensures (s + t)[a..b] == s[a..b]
  {
  }

  // More bytes change nothing that was found; the scan goes on from where it stopped.
  lemma {:induction false} ScanGoesOn(x: Syntax, s: seq<int>, t: seq<int>, pos: nat)
    requires HeaderFits(x) && pos <= |s|
    ensures ScanFrom(x, s, pos).stop <= |s|
    ensures ScanFrom(x, s + t, pos) == After(ScanFrom(x, s, pos), ScanFrom(x, s + t, ScanFrom(x, s, pos).stop))
    decreases |s| - pos
  {
    if pos + x.headerSize <= |s| {
      SamePiece(s, t, pos, pos + x.headerSize);
      var z := SizeAt(x, s, pos);
      if z == 0 {
        ScanGoesOn(x, s, t, pos + 1);
        var a := ScanFrom(x, s, pos + 1);
        AfterSkip(a, ScanFrom(x, s + t, a.stop));
      } else if SizeOk(x, z) && pos + z <= |s| {
        SamePiece(s, t, pos, pos + z);
        ScanGoesOn(x, s, t, pos + z);
        var a := ScanFrom(x, s, pos + z);
        AfterFound(s[pos..pos + z], a, ScanFrom(x, s + t, a.stop));
      } else {
        AfterNothing(Scan([], 0, pos, z), ScanFrom(x, s + t, pos));
      }
    } else {
      AfterNothing(Scan([], 0, pos, 0), ScanFrom(x, s + t, pos));
    }
  }

  lemma AfterSkip(a: Scan, b: Scan)
    ensures After(Skip(a), b) == Skip(After(a, b))
  {
  }

  lemma AfterFound(f: seq<int>, a: Scan, b: Scan)
    ensures After(Found(f, a), b) == Found(f, After(a, b))
  {
    assert ([f] + a.frames) + b.frames == [f] + (a.frames + b.frames);
  }

  lemma AfterNothing(a: Scan, b: Scan)
    requires a.frames == [] && a.skipped == 0
    ensures After(a, b) == b
  {
    assert [] + b.frames == b.frames;
  }

  // Every byte is in a frame, was skipped, or is still to be decided.
  lemma {:induction false} ScanAccounts(x: Syntax, s: seq<int>, pos: nat)
    requires HeaderFits(x) && pos <= |s|
    ensures var r := ScanFrom(x, s, pos); pos <= r.stop <= |s| && Lengths(r.frames) + r.skipped == r.stop - pos
    decreases |s| - pos
  {
    if pos + x.headerSize <= |s| {
      var z := SizeAt(x, s, pos);
      if z == 0 {
        ScanAccounts(x, s, pos + 1);
      } else if SizeOk(x, z) && pos + z <= |s| {
        ScanAccounts(x, s, pos + z);
        LengthsOfMore(s[pos..pos + z], ScanFrom(x, s, pos + z).frames);
      }
    }
  }

  function Lengths(frames: seq<seq<int>>): int {
    if frames == [] then 0 else |frames[0]| + Lengths(frames[1..])
  }

  lemma LengthsOfMore(f: seq<int>, rest: seq<seq<int>>)
    ensures Lengths([f] + rest) == |f| + Lengths(rest)
  {
    assert ([f] + rest)[1..] == rest;
  }

  // A frame that announces its own length.
  ghost predicate Announced(x: Syntax, f: seq<int>) {
    |f| >= x.headerSize && x.sync(f[..x.headerSize]).size == |f|
  }

  function Chained(frames: seq<seq<int>>): seq<int> {
    if frames == [] then [] else frames[0] + Chained(frames[1..])
  }

  lemma {:induction false} ChainedLast(frames: seq<seq<int>>, f: seq<int>)
    ensures Chained(frames + [f]) == Chained(frames) + f
  {
    if frames == [] {
      assert Chained([f]) == f + Chained([]);
    } else {
      ChainedLast(frames[1..], f);
      assert (frames + [f])[1..] == frames[1..] + [f];
    }
  }

  lemma {:induction false} JoinedIsChained(frames: seq<seq<int>>)
    ensures Joined(frames) == Chained(frames)
  {
    if frames != [] {
      JoinedIsChained(frames[..|frames| - 1]);
      ChainedLast(frames[..|frames| - 1], frames[|frames| - 1]);
      assert frames == frames[..|frames| - 1] + [frames[|frames| - 1]];
    }
  }

  lemma ChainedFirst(s: seq<int>, before: seq<int>, f: seq<int>, rest: seq<int>, n: nat)
    requires s == before + (f + rest) && n <= |f|
    ensures s == before + f + rest && s[|before|..|before| + |f|] == f && s[|before|..|before| + n] == f[..n]
  {
  }

  // The sizes that a scan meets from pos on are all as the parser demands.
  ghost predicate MetOk(x: Syntax, s: seq<int>, pos: nat)
    requires HeaderFits(x)
    decreases |s| - pos
  {
    pos + x.headerSize <= |s| ==>
      var z := SizeAt(x, s, pos);
      && SizeOk(x, z)
      && if z == 0 then MetOk(x, s, pos + 1) else pos + z <= |s| ==> MetOk(x, s, pos + z)
  }

  lemma {:induction false} SyntaxMeetsNoOther(x: Syntax, s: seq<int>, pos: nat)
    requires SyntaxOk(x)
    ensures MetOk(x, s, pos)
    decreases |s| - pos
  {
    if pos + x.headerSize <= |s| {
      var z := SizeAt(x, s, pos);
      if z == 0 {
        SyntaxMeetsNoOther(x, s, pos + 1);
      } else if pos + z <= |s| {
        SyntaxMeetsNoOther(x, s, pos + z);
      }
    }
  }

  // Where a scan of the bytes so far stops, the scan of the whole stream comes by.
  lemma {:induction false} MetOnTheWay(x: Syntax, s: seq<int>, t: seq<int>, pos: nat)
    requires HeaderFits(x) && pos <= |s| && MetOk(x, s + t, pos)
    ensures MetOk(x, s + t, ScanFrom(x, s, pos).stop)
    decreases |s| - pos
  {
    if pos + x.headerSize <= |s| {
      SamePiece(s, t, pos, pos + x.headerSize);
      var z := SizeAt(x, s, pos);
      if z == 0 {
        MetOnTheWay(x, s, t, pos + 1);
      } else if pos + z <= |s| {
        MetOnTheWay(x, s, t, pos + z);
      }
    }
  }

  // A scan of frames put one after the other finds just these, and meets just their sizes.
  lemma {:induction false} ScanFindsFrames(x: Syntax, before: seq<int>, frames: seq<seq<int>>, s: seq<int>)
    requires HeaderFits(x) && s == before + Chained(frames)
    requires forall i :: 0 <= i < |frames| ==> Announced(x, frames[i]) && |frames[i]| <= BUFFER_SIZE
    ensures ScanFrom(x, s, |before|) == Scan(frames, 0, |s|, 0) && MetOk(x, s, |before|)
    decreases |frames|
  {
    if frames != [] {
      var f, rest := frames[0], frames[1..];
      assert Announced(x, f);
      ChainedFirst(s, before, f, Chained(rest), x.headerSize);
      ScanFindsFrames(x, before + f, rest, s);
      assert [f] + rest == frames;
    }
  }

  // No header stands at any byte of this part.
  ghost predicate NoHeader(x: Syntax, s: seq<int>, pos: nat, n: nat) {
    forall k {:trigger SizeAt(x, s, k)} :: pos <= k < n && k + x.headerSize <= |s| ==> SizeAt(x, s, k) == 0
  }

  // Such a part hides no frame: a scan passes over it and finds what one from its end on finds.
  lemma {:induction false} JunkIsSkipped(x: Syntax, s: seq<int>, pos: nat, n: nat)
    requires HeaderFits(x) && pos <= n <= |s| && NoHeader(x, s, pos, n)
    ensures ScanFrom(x, s, pos).frames == ScanFrom(x, s, n).frames
    ensures n + x.headerSize <= |s| ==> ScanFrom(x, s, pos).skipped == n - pos + ScanFrom(x, s, n).skipped
    ensures MetOk(x, s, pos) <==> MetOk(x, s, n)
    ensures n + x.headerSize <= |s| ==> ScanFrom(x, s, pos).size == ScanFrom(x, s, n).size
    decreases n - pos
  {
    if pos < n && pos + x.headerSize <= |s| {
      assert SizeAt(x, s, pos) == 0;
      JunkIsSkipped(x, s, pos + 1, n);
    }
  }

  // What a scan makes of a tail that is just decided or not yet.
  lemma ScanTail(x: Syntax, s: seq<int>, pos: nat)
    requires HeaderFits(x) && pos <= |s|
    ensures var n, r := |s| - pos, ScanFrom(x, s, pos);
      if n < x.headerSize then r == Scan([], 0, pos, 0)
      else if SizeAt(x, s, pos) == 0 then n == x.headerSize ==> r == Scan([], 1, pos + 1, 0)
      else if n < SizeAt(x, s, pos) then r == Scan([], 0, pos, SizeAt(x, s, pos))
      else n == SizeAt(x, s, pos) <= BUFFER_SIZE ==> r == Scan([s[pos..]], 0, |s|, 0)
  {
    if |s| - pos >= x.headerSize {
      var z := SizeAt(x, s, pos);
      if z != 0 && |s| - pos == z {
        assert s[pos..pos + z] == s[pos..];
      }
    }
  }

  // ---- states of the parser ----

  // With the bytes taken and frames given so far, held are the bytes of the header (size 0) or
  // frame being put together. The parser has found what a scan of the bytes taken finds, but for
  // a frame no longer than its header, which it gives only when it is handed another byte.
  ghost predicate InStep(x: Syntax, taken: seq<int>, given: seq<seq<int>>, held: seq<int>, size: int) {
    && HeaderFits(x) && |held| <= |taken| && held == taken[|taken| - |held|..]
    && (size == 0 ==> |held| < x.headerSize)
    && (size != 0 ==> x.headerSize <= |held| <= size <= BUFFER_SIZE && size == x.sync(held[..x.headerSize]).size)
    && (Complete(held, size) ==> size == x.headerSize)
    && ScanFrom(x, taken, 0)
       == if Complete(held, size) then Scan(given + [held], Skipped(x, taken), |taken|, 0)
          else Scan(given, Skipped(x, taken), |taken| - |held|, size)
  }

  // The last byte completes a header, and the header is a whole frame.
  ghost predicate EndsShort(x: Syntax, s: seq<int>)
    requires HeaderFits(x)
  {
    && |s| >= x.headerSize && x.sync(s[|s| - x.headerSize..]).size == x.headerSize
    && var r := ScanFrom(x, s[..|s| - 1], 0); r.size == 0 && r.stop == |s| - x.headerSize
  }

  predicate Complete(held: seq<int>, size: int) { size != 0 && |held| == size }

  function Skipped(x: Syntax, taken: seq<int>): nat
    requires HeaderFits(x)
  {
    ScanFrom(x, taken, 0).skipped
  }

  lemma HeldGrows(x: Syntax, taken: seq<int>, given: seq<seq<int>>, held: seq<int>, size: int, chunk: seq<int>)
    requires InStep(x, taken, given, held, size) && !Complete(held, size)
    ensures var all, now := taken + chunk, held + chunk;
      && now == all[|all| - |now|..]
      && ScanFrom(x, all, 0)
         == After(Scan(given, Skipped(x, taken), |taken| - |held|, size), ScanFrom(x, all, |all| - |now|))
      && (|now| >= x.headerSize ==> SizeAt(x, all, |all| - |now|) == x.sync(now[..x.headerSize]).size)
  {
    ScanGoesOn(x, taken, chunk, 0);
    var all, now := taken + chunk, held + chunk;
    if |now| >= x.headerSize {
      var pos := |all| - |now|;
      assert all[pos..pos + x.headerSize] == now[..x.headerSize];
    }
  }

  // Where the scan of all bytes but the last stops.
  lemma BeforeLast(x: Syntax, taken: seq<int>, given: seq<seq<int>>, held: seq<int>, size: int, chunk: seq<int>)
    requires InStep(x, taken, given, held, size) && !Complete(held, size) && chunk != []
    requires |held + chunk| <= if size == 0 then x.headerSize else size
    ensures var all := taken + chunk;
      var r := ScanFrom(x, all[..|all| - 1], 0);
      r.stop == |taken| - |held| && r.size == size
  {
    var all, less := taken + chunk, chunk[..|chunk| - 1];
    assert all[..|all| - 1] == taken + less;
    HeldGrows(x, taken, given, held, size, less);
    if size != 0 {
      assert (held + less)[..x.headerSize] == held[..x.headerSize];
    }
    ScanTail(x, taken + less, |taken| - |held|);
  }

  // What becomes of the bytes of a header.
  lemma HeaderGrows(x: Syntax, taken: seq<int>, given: seq<seq<int>>, held: seq<int>, chunk: seq<int>)
    requires InStep(x, taken, given, held, 0) && 0 < |chunk| <= x.headerSize - |held|
    requires |held + chunk| == x.headerSize ==> SizeOk(x, x.sync(held + chunk).size)
    ensures var now := held + chunk;
      if |now| < x.headerSize then InStep(x, taken + chunk, given, now, 0)
      else if x.sync(now).size == 0 then InStep(x, taken + chunk, given, now[1..], 0)
      else InStep(x, taken + chunk, given, now, x.sync(now).size)
    ensures EndsShort(x, taken + chunk) <==> |held + chunk| == x.headerSize == x.sync(held + chunk).size
  {
    var all, now := taken + chunk, held + chunk;
    HeldGrows(x, taken, given, held, 0, chunk);
    BeforeLast(x, taken, given, held, 0, chunk);
    ScanTail(x, all, |all| - |now|);
    assert given + [] == given;
    if |now| == x.headerSize {
      assert now[..x.headerSize] == now;
    }
  }

  // And of a frame.
  lemma FrameGrows(x: Syntax, taken: seq<int>, given: seq<seq<int>>, held: seq<int>, size: int, chunk: seq<int>)
    requires InStep(x, taken, given, held, size) && size != 0 && 0 < |chunk| <= size - |held|
    ensures var now := held + chunk;
      if |now| < size then InStep(x, taken + chunk, given, now, size)
      else InStep(x, taken + chunk, given + [now], [], 0)
    ensures !EndsShort(x, taken + chunk)
  {
    var all, now := taken + chunk, held + chunk;
    HeldGrows(x, taken, given, held, size, chunk);
    BeforeLast(x, taken, given, held, size, chunk);
    assert now[..x.headerSize] == held[..x.headerSize];
    ScanTail(x, all, |all| - |now|);
    assert given + [] == given;
  }

  // A header that the parser has together is one the scan of the whole stream meets.
  lemma HeaderMet(x: Syntax, stream: seq<int>, taken: seq<int>, given: seq<seq<int>>, held: seq<int>, chunk: seq<int>)
    requires InStep(x, taken, given, held, 0) && taken + chunk <= stream && MetOk(x, stream, 0)
    requires |held + chunk| == x.headerSize
    ensures SizeOk(x, x.sync(held + chunk).size)
  {
    var rest, pos := stream[|taken|..], |taken| - |held|;
    assert stream == taken + rest;
    MetOnTheWay(x, taken, rest, 0);
    assert stream[pos..pos + x.headerSize] == held + chunk;
  }

  // ---- the parser ----

  lemma HeaderTaken(x: Syntax, stream: seq<int>, taken: seq<int>, given: seq<seq<int>>, held: seq<int>, chunk: seq<int>)
    requires InStep(x, taken, given, held, 0) && taken + chunk <= stream && MetOk(x, stream, 0)
    requires 0 < |chunk| <= x.headerSize - |held|
    ensures var now := held + chunk;
      if |now| < x.headerSize then InStep(x, taken + chunk, given, now, 0)
      else if x.sync(now).size == 0 then InStep(x, taken + chunk, given, now[1..], 0)
      else InStep(x, taken + chunk, given, now, x.sync(now).size)
    ensures EndsShort(x, taken + chunk) <==> |held + chunk| == x.headerSize == x.sync(held + chunk).size
  {
    if |held + chunk| == x.headerSize {
      HeaderMet(x, stream, taken, given, held, chunk);
    }
    HeaderGrows(x, taken, given, held, chunk);
  }

  // Some bytes more.
  lemma Onward(stream: seq<int>, taken: seq<int>, buf: seq<int>, n: nat)
    requires taken + buf <= stream && n <= |buf|
    ensures taken + buf[..n] <= stream && taken + buf[..n] + buf[n..] == taken + buf
  {
  }

  // What is taken when of buf all but the end is used up.
  lemma TakenIs(taken: seq<int>, was: seq<int>, buf: seq<int>, used: nat)
    requires used <= |buf| && taken + buf[used..] == was + buf
    ensures taken == was + buf[..used]
  {
    assert (taken + buf[used..])[..|taken|] == taken;
    assert (was + buf)[..|taken|] == was + buf[..used];
  }

  class Parser {
    const x: Syntax
    const isAc3: bool
    const inbuf: array<int>
    var ptr: nat
    var frameSize: int
    // Codec parameters taken from the last header.
    var channels: int
    var sampleRate: int
    var bitRate: int
    var samples: int
    // All that it will ever be handed, and bytes taken and frames given so far.
    ghost const stream: seq<int>
    ghost var taken: seq<int>
    ghost var given: seq<seq<int>>

    // A whole frame no longer than its header waits to be given.
    ghost predicate Late()
      reads this
    {
      frameSize > 0 && ptr == frameSize
    }

    // A frame waits just if the bytes taken end with it.
    ghost predicate Settled()
      requires HeaderFits(x)
      reads this
    {
      Late() <==> EndsShort(x, taken)
    }

    ghost predicate Valid()
      reads this, inbuf
    {
      && inbuf.Length == BUFFER_SIZE && ptr <= BUFFER_SIZE && InStep(x, taken, given, inbuf[..ptr], frameSize)
      && taken <= stream && MetOk(x, stream, 0)
    }

    constructor (x: Syntax, isAc3: bool, ghost stream: seq<int>)
      requires HeaderFits(x) && MetOk(x, stream, 0)
      ensures Valid() && taken == [] && given == [] && this.x == x && this.stream == stream && fresh(inbuf)
      ensures !Late() && Settled()
    {
      this.x, this.isAc3, this.stream := x, isAc3, stream;
      inbuf := new int[BUFFER_SIZE];
      ptr, frameSize := 0, 0;
      channels, sampleRate, bitRate, samples := 0, 0, 0, 0;
      taken, given := [], [];
      new;
      assert inbuf[..0] == [];
    }

    // memcpy to the end of the buffer.
    method Append(chunk: seq<int>)
      requires ptr + |chunk| <= inbuf.Length
      modifies this`ptr, inbuf
      ensures ptr == old(ptr) + |chunk| && inbuf[..ptr] == old(inbuf[..ptr]) + chunk
    {
      forall i | 0 <= i < |chunk| {
        inbuf[ptr + i] := chunk[i];
      }
      ptr := ptr + |chunk|;
      assert inbuf[..ptr] == old(inbuf[..ptr]) + chunk;
    }

    // No sync found: move by one byte.
    method DropByte()
      requires 0 < ptr <= inbuf.Length
      modifies this`ptr, inbuf
      ensures ptr == old(ptr) - 1 && inbuf[..ptr] == old(inbuf[1..ptr])
    {
      forall i | 0 <= i < ptr - 1 {
        inbuf[i] := inbuf[i + 1];
      }
      ptr := ptr - 1;
    }

    // Codec parameters; AC-3 leaves a channel count of 1 or 2 that was asked for.
    method UpdateCodec(info: Info)
      modifies this`channels, this`sampleRate, this`bitRate, this`samples
      ensures sampleRate == info.sampleRate && bitRate == info.bitRate && samples == info.samples
      ensures channels == if isAc3 && (old(channels) == 1 || old(channels) == 2) then old(channels) else info.channels
    {
      sampleRate := info.sampleRate;
      if isAc3 {
        if channels != 1 && channels != 2 {
          channels := info.channels;
        }
      } else {
        channels := info.channels;
      }
      bitRate := info.bitRate;
      samples := info.samples;
    }

    // Bytes for a header; when it is whole, see what it says.
    method TakeHeader(chunk: seq<int>)
      requires Valid() && frameSize == 0 && 0 < |chunk| <= x.headerSize - ptr && taken + chunk <= stream
      modifies this, inbuf
      ensures Valid() && Settled() && taken == old(taken) + chunk && given == old(given)
    {
      HeaderTaken(x, stream, taken, given, inbuf[..ptr], chunk);
      Append(chunk);
      taken := taken + chunk;
      ghost var now := inbuf[..ptr];
      if ptr == x.headerSize {
        var info := x.sync(inbuf[..x.headerSize]);
        if info.size == 0 {
          assert inbuf[1..ptr] == now[1..];
          DropByte();
        } else {
          frameSize := info.size;
          UpdateCodec(info);
        }
      }
    }

    // Bytes for a frame; when it is whole, it is given.
    method TakeFrame(chunk: seq<int>) returns (out: Option<seq<int>>)
      requires Valid() && frameSize != 0 && |chunk| <= frameSize - ptr && (|chunk| == 0 ==> Late())
      requires taken + chunk <= stream
      modifies this, inbuf
      ensures Valid() && taken == old(taken) + chunk && (|chunk| > 0 ==> Settled())
      ensures out.None? ==> given == old(given)
      ensures out.Some? ==> given == old(given) + [out.value] && !Late()
      ensures out.Some? <==> old(ptr) + |chunk| == old(frameSize)
    {
      if |chunk| > 0 {
        FrameGrows(x, taken, given, inbuf[..ptr], frameSize, chunk);
      } else {
        assert taken + chunk == taken && inbuf[..ptr] + chunk == inbuf[..ptr];
      }
      Append(chunk);
      taken := taken + chunk;
      out := None;
      if ptr == frameSize {
        out := Some(inbuf[..frameSize]);
        given := given + [inbuf[..ptr]];
        ptr := 0;
        frameSize := 0;
        assert inbuf[..ptr] == [];
      }
    }

    // One turn of the loop, with the bytes still there.
    method TakeSome(buf: seq<int>) returns (len: nat, out: Option<seq<int>>)
      requires Valid() && buf != [] && taken + buf <= stream
      modifies this, inbuf
      ensures Valid() && len <= |buf| && taken == old(taken) + buf[..len] && (len > 0 ==> Settled())
      ensures out.None? ==> given == old(given) && len > 0
      ensures out.Some? ==> given == old(given) + [out.value] && !Late()
      ensures len == 0 ==> old(Late())
    {
      out := None;
      if frameSize == 0 {
        len := if x.headerSize - ptr < |buf| then x.headerSize - ptr else |buf|;
        Onward(stream, taken, buf, len);
        TakeHeader(buf[..len]);
      } else {
        len := if frameSize - ptr < |buf| then frameSize - ptr else |buf|;
        Onward(stream, taken, buf, len);
        out := TakeFrame(buf[..len]);
      }
    }

    // ff_aac_ac3_parse: takes bytes up to the end of a frame, or all of them.
    method Parse(buf: seq<int>) returns (used: nat, out: Option<seq<int>>)
      requires Valid() && taken + buf <= stream
      modifies this, inbuf
      ensures Valid() && used <= |buf| && taken == old(taken) + buf[..used]
      ensures used == |buf| > 0 ==> Settled()
      ensures buf == [] ==> Settled() == old(Settled())
      ensures out.None? ==> used == |buf| && given == old(given)
      ensures out.Some? ==> given == old(given) + [out.value] && !Late()
      ensures out.Some? && used == 0 ==> old(Late())
    {
      used, out := 0, None;
      var rest := buf;
      while rest != [] && out.None?
        invariant Valid() && used + |rest| == |buf| && rest == buf[used..]
        invariant taken + rest == old(taken) + buf
        invariant out.None? ==> given == old(given)
        invariant out.Some? ==> given == old(given) + [out.value] && !Late()
        invariant used == 0 ==> if out.Some? then old(Late()) else Late() == old(Late())
        invariant rest == [] && buf != [] ==> Settled()
        invariant buf == [] ==> Settled() == old(Settled())
        decreases |rest|, if out.None? then 1 else 0
      {
        ghost var was := taken;
        var len;
        len, out := TakeSome(rest);
        Onward(stream, was, rest, len);
        rest := rest[len..];
        used := used + len;
      }
      TakenIs(taken, old(taken), buf, used);
    }
  }

  // ---- whole streams ----

  function Joined(chunks: seq<seq<int>>): seq<int> {
    if chunks == [] then [] else Joined(chunks[..|chunks| - 1]) + chunks[|chunks| - 1]
  }

  // The frame that waits at the end of a stream, if one does.
  ghost function Waiting(x: Syntax, s: seq<int>): seq<seq<int>>
    requires HeaderFits(x)
  {
    if EndsShort(x, s) then [s[|s| - x.headerSize..]] else []
  }

  // Frames given and the one that waits are those of the scan; no byte is lost.
  lemma NothingLost(x: Syntax, taken: seq<int>, given: seq<seq<int>>, held: seq<int>, size: int)
    requires InStep(x, taken, given, held, size) && (Complete(held, size) <==> EndsShort(x, taken))
    ensures given + Waiting(x, taken) == ScanFrom(x, taken, 0).frames
    ensures given == ScanFrom(x, taken, 0).frames <==> !EndsShort(x, taken)
    ensures |taken| == Lengths(given) + Skipped(x, taken) + |held|
  {
    ScanAccounts(x, taken, 0);
    assert given + [] == given;
    if Complete(held, size) {
      LengthsOfLast(given, held);
      assert Waiting(x, taken) == [held];
    }
  }

  lemma {:induction false} LengthsOfLast(given: seq<seq<int>>, f: seq<int>)
    ensures Lengths(given + [f]) == Lengths(given) + |f|
  {
    if given != [] {
      LengthsOfLast(given[1..], f);
      assert (given + [f])[1..] == given[1..] + [f];
    } else {
      assert Lengths([f]) == |f| + Lengths([f][1..]);
    }
  }

  // Hands one chunk over, call by call, until it is used up.
  method ParseChunk(p: Parser, chunk: seq<int>) returns (frames: seq<seq<int>>)
    requires p.Valid() && p.Settled() && p.taken + chunk <= p.stream
    modifies p, p.inbuf
    ensures p.Valid() && p.Settled() && p.taken == old(p.taken) + chunk && p.given == old(p.given) + frames
  {
    frames := [];
    var rest := chunk;
    while rest != []
      invariant p.Valid() && p.taken + rest == old(p.taken) + chunk && p.given == old(p.given) + frames
      invariant rest == [] ==> p.Settled()
      decreases |rest|, if p.Late() then 1 else 0
    {
      ghost var was := p.taken;
      var used, out := p.Parse(rest);
      Onward(p.stream, was, rest, used);
      rest := rest[used..];
      if out.Some? {
        frames := frames + [out.value];
      }
    }
  }

  // However a stream is cut up, the frames given and the one that may wait are those that a scan
  // of the whole stream finds. One waits if and only if the last byte of all completes a header
  // that is a whole frame.
  method ParseAll(x: Syntax, isAc3: bool, chunks: seq<seq<int>>)
      returns (frames: seq<seq<int>>, ghost held: seq<int>, ghost size: int)
    requires HeaderFits(x) && MetOk(x, Joined(chunks), 0)
    ensures frames + Waiting(x, Joined(chunks)) == ScanFrom(x, Joined(chunks), 0).frames
    ensures frames == ScanFrom(x, Joined(chunks), 0).frames <==> !EndsShort(x, Joined(chunks))
    ensures InStep(x, Joined(chunks), frames, held, size)
    ensures |Joined(chunks)| == Lengths(frames) + Skipped(x, Joined(chunks)) + |held|
  {
    var p := new Parser(x, isAc3, Joined(chunks));
    frames := [];
    for i := 0 to |chunks|
      invariant p.Valid() && p.Settled() && p.x == x && p.given == frames && p.taken == Joined(chunks[..i])
      invariant p.stream == Joined(chunks) && fresh(p) && fresh(p.inbuf)
    {
      JoinedPrefix(chunks, i + 1);
      assert chunks[..i + 1][..i] == chunks[..i];
      var more := ParseChunk(p, chunks[i]);
      frames := frames + more;
    }
    assert chunks[..|chunks|] == chunks;
    held, size := p.inbuf[..p.ptr], p.frameSize;
    NothingLost(x, p.taken, frames, held, size);
  }

  lemma {:induction false} JoinedPrefix(chunks: seq<seq<int>>, n: nat)
    requires n <= |chunks|
    ensures Joined(chunks[..n]) <= Joined(chunks)
    decreases |chunks| - n
  {
    if n < |chunks| {
      JoinedPrefix(chunks, n + 1);
      assert chunks[..n + 1][..n] == chunks[..n];
    } else {
      assert chunks[..n] == chunks;
    }
  }

  // A frame at the start of what is left, its last byte there or not.
  lemma FrameAhead(x: Syntax, t: seq<int>, pos: nat, n: nat)
    requires HeaderFits(x) && pos + x.headerSize <= |t| && SizeAt(x, t, pos) == n
    requires x.headerSize < n <= BUFFER_SIZE
    ensures ScanFrom(x, t, pos).size == if pos + n <= |t| then ScanFrom(x, t, pos + n).size else n
  {
  }

  // One byte short, a scan of frames stops at the last of them.
  lemma {:induction false} AllButOneByte(x: Syntax, before: seq<int>, frames: seq<seq<int>>, s: seq<int>)
    requires HeaderFits(x) && s == before + Chained(frames) && frames != []
    requires forall i :: 0 <= i < |frames| ==> Announced(x, frames[i]) && x.headerSize < |frames[i]| <= BUFFER_SIZE
    ensures |s| > |before| && ScanFrom(x, s[..|s| - 1], |before|).size == |frames[|frames| - 1]|
    decreases |frames|
  {
    var f, rest := frames[0], frames[1..];
    assert Announced(x, f);
    ChainedFirst(s, before, f, Chained(rest), x.headerSize);
    var n := |before|;
    assert s[..|s| - 1][n..n + x.headerSize] == s[n..n + x.headerSize];
    FrameAhead(x, s[..|s| - 1], n, |f|);
    if rest != [] {
      assert rest[|rest| - 1] == frames[|frames| - 1];
      assert forall i :: 0 <= i < |rest| ==> rest[i] == frames[i + 1];
      AllButOneByte(x, before + f, rest, s);
    }
  }

  // Nothing waits at the end of a stream of frames that are longer than their headers.
  lemma EndsWell(x: Syntax, junk: seq<int>, frames: seq<seq<int>>, s: seq<int>)
    requires HeaderFits(x) && s == junk + Chained(frames) && NoHeader(x, s, 0, |junk|)
    requires forall i :: 0 <= i < |frames| ==> Announced(x, frames[i]) && x.headerSize < |frames[i]| <= BUFFER_SIZE
    ensures !EndsShort(x, s)
  {
    if frames == [] {
      assert Chained(frames) == [];
      if |s| >= x.headerSize {
        var k := |s| - x.headerSize;
        assert SizeAt(x, s, k) == 0 && s[k..k + x.headerSize] == s[k..];
      }
    } else {
      AllButOneByte(x, junk, frames, s);
      var t := s[..|s| - 1];
      assert junk <= t;
      forall k: nat | k < |junk| && k + x.headerSize <= |t|
        ensures SizeAt(x, t, k) == 0
      {
        assert SizeAt(x, s, k) == 0 && t[k..k + x.headerSize] == s[k..k + x.headerSize];
      }
      JunkIsSkipped(x, t, 0, |junk|);
    }
  }

  // Frames one after the other come out as they went in, whatever stands before the first, unless
  // it be a header. Only their own headers are met, so it does not matter what others might say.
  method CutFrames(x: Syntax, isAc3: bool, chunks: seq<seq<int>>, ghost junk: seq<int>, ghost frames: seq<seq<int>>)
      returns (out: seq<seq<int>>)
    requires HeaderFits(x) && Joined(chunks) == junk + Chained(frames) && NoHeader(x, Joined(chunks), 0, |junk|)
    requires forall i :: 0 <= i < |frames| ==> Announced(x, frames[i]) && x.headerSize < |frames[i]| <= BUFFER_SIZE
    ensures out == frames
  {
    ghost var s := Joined(chunks);
    ScanFindsFrames(x, junk, frames, s);
    JunkIsSkipped(x, s, 0, |junk|);
    EndsWell(x, junk, frames, s);
    ghost var held, size;
    out, held, size := ParseAll(x, isAc3, chunks);
  }

  // A stream that is just one such header: the scan has its frame, and a parser waits.
  lemma HeaderAlone(x: Syntax, h: seq<int>)
    requires HeaderFits(x) && |h| == x.headerSize == x.sync(h).size
    ensures EndsShort(x, h) && MetOk(x, h, 0) && ScanFrom(x, h, 0).frames == [h]
  {
    assert h[0..|h|] == h && h[0..] == h;
  }
}
