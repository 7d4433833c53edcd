// The reading thread and the decoders it feeds, step by step: a seek empties each queue and puts
// a mark in it, and between any packet from before the seek and any from after it a decoder gets
// the mark. Steps under a queue's lock are atomic; all others may come in any order.
module SeekBarrier {
  import opened PacketQueue

  // One queue: what is in it, what its decoder has got from it, and whether its stream is open.
  // marksLost: a mark could not be put for want of memory.
  datatype Channel = Channel(queue: seq<Packet>, taken: seq<Packet>, open: bool, aborted: bool, marksLost: bool)

  // Where the reading thread is: at the top of its loop, in the middle of a seek with so many of
  // its six queue operations done, or with a packet for a queue in its hand.
  datatype Reader = Top | Seeking(done: nat) | Holding(pkt: Packet, to: nat)

  datatype State = State(channels: seq<Channel>, reader: Reader, epoch: nat, read: nat)

  const QUEUES: nat := 3

  datatype Event =
    | SeekSucceeds
    | SeekFails
    | SeekStep(memory: bool)
    | ReadPacket(bytes: nat, to: nat)
    | PutPacket(memory: bool)
    | Decode(queue: nat)
    | Abort(queue: nat)

  ghost predicate Initial(s: State) {
    && |s.channels| == QUEUES && s.reader == Top && s.epoch == 0 && s.read == 0
    && forall q :: 0 <= q < QUEUES ==>
      s.channels[q].queue == [] && s.channels[q].taken == [] && !s.channels[q].marksLost
  }

  predicate Enabled(s: State, e: Event) {
    |s.channels| == QUEUES && match e
    case SeekSucceeds => s.reader == Top
    case SeekFails => s.reader == Top
    case SeekStep(_) => s.reader.Seeking? && s.reader.done < 2 * QUEUES
    case ReadPacket(_, _) => s.reader == Top
    case PutPacket(_) => s.reader.Holding?
    case Decode(q) => q < QUEUES && !s.channels[q].aborted && s.channels[q].queue != []
    case Abort(q) => q < QUEUES
  }

  // The six operations of a seek: of each queue in turn, flush and put the mark, if it is open.
  function SeekOne(c: Channel, put: bool, memory: bool): Channel {
    if !c.open then c
    else if !put then c.(queue := [])
    else if memory then c.(queue := c.queue + [FlushMark])
    else c.(marksLost := true)
  }

  function Do(s: State, e: Event): State
    requires Enabled(s, e)
  {
    match e
    case SeekSucceeds => s.(reader := Seeking(0), epoch := s.epoch + 1)
    case SeekFails => s
    case SeekStep(memory) =>
      var q, put := s.reader.done / 2, s.reader.done % 2 == 1;
      s.(channels := s.channels[q := SeekOne(s.channels[q], put, memory)],
         reader := if s.reader.done + 1 == 2 * QUEUES then Top else Seeking(s.reader.done + 1))
    case ReadPacket(bytes, to) =>
      s.(reader := Holding(Data(s.epoch, s.read, bytes), to), read := s.read + 1)
    case PutPacket(memory) =>
      var to := s.reader.to;
      s.(reader := Top,
         channels := if memory && to < QUEUES && s.channels[to].open
                     then s.channels[to := s.channels[to].(queue := s.channels[to].queue + [s.reader.pkt])]
                     else s.channels)
    case Decode(q) =>
      var c := s.channels[q];
      s.(channels := s.channels[q := c.(queue := c.queue[1..], taken := c.taken + [c.queue[0]])])
    case Abort(q) => s.(channels := s.channels[q := s.channels[q].(aborted := true)])
  }

  ghost predicate IsRun(run: seq<State>, events: seq<Event>) {
    && |run| == |events| + 1 && Initial(run[0])
    && forall i :: 0 <= i < |events| ==> Enabled(run[i], events[i]) && run[i + 1] == Do(run[i], events[i])
  }

  // ---- what every run keeps ----

  // What a decoder has got or will, in order.
  function Through(c: Channel): seq<Packet> { c.taken + c.queue }

  ghost predicate MarkBetween(w: seq<Packet>, i: int, j: int) {
    exists k :: i < k < j && 0 <= k < |w| && w[k].FlushMark?
  }

  // Packets of different epochs have a mark between them.
  ghost predicate Barred(w: seq<Packet>) {
    forall i, j {:trigger MarkBetween(w, i, j)} ::
      0 <= i < j < |w| && w[i].Data? && w[j].Data? && w[i].epoch < w[j].epoch ==> MarkBetween(w, i, j)
  }

  // Every packet of an epoch before n has a mark after it.
  ghost predicate ClosedBefore(w: seq<Packet>, n: nat) {
    forall i {:trigger MarkBetween(w, i, |w|)} :: 0 <= i < |w| && w[i].Data? && w[i].epoch < n ==>
      MarkBetween(w, i, |w|)
  }

  // In the order they were read, none twice, none from the future.
  ghost predicate Ordered(w: seq<Packet>, n: int, epoch: nat) {
    && (forall i :: 0 <= i < |w| && w[i].Data? ==> w[i].number < n && w[i].epoch <= epoch)
    && forall i, j :: 0 <= i < j < |w| && w[i].Data? && w[j].Data? ==>
         w[i].number < w[j].number && w[i].epoch <= w[j].epoch
  }

  // The seek under way has yet to put its mark in queue q.
  predicate MarkDue(r: Reader, q: nat) { r.Seeking? && r.done <= 2 * q + 1 }

  // With m packets read for the queues and the mark of a seek due or not.
  ghost predicate OneKeeps(c: Channel, m: int, epoch: nat, due: bool) {
    && Ordered(Through(c), m, epoch) && (!c.open ==> Through(c) == [])
    && (!c.marksLost ==> Barred(Through(c)) && (due || ClosedBefore(Through(c), epoch)))
  }

  // Packets read, but for the one in hand.
  function Handed(s: State): int { if s.reader.Holding? then s.read - 1 else s.read }

  ghost predicate ChannelKeeps(s: State, q: nat)
    requires q < |s.channels|
  {
    OneKeeps(s.channels[q], Handed(s), s.epoch, MarkDue(s.reader, q))
  }

  ghost predicate Keeps(s: State) {
    && |s.channels| == QUEUES
    && (s.reader.Seeking? ==> s.reader.done < 2 * QUEUES)
    && (s.reader.Holding? ==>
         s.read > 0 && s.reader.pkt.Data? && s.reader.pkt.epoch == s.epoch && s.reader.pkt.number == s.read - 1)
    && forall q: nat :: q < QUEUES ==> ChannelKeeps(s, q)
  }

  lemma PrefixKeeps(w: seq<Packet>, n: nat, epoch: nat, k: nat)
    requires k <= |w|
    ensures Barred(w) ==> Barred(w[..k])
    ensures Ordered(w, n, epoch) ==> Ordered(w[..k], n, epoch)
  {
    if Barred(w) {
      forall i, j | 0 <= i < j < k && w[i].Data? && w[j].Data? && w[i].epoch < w[j].epoch
        ensures MarkBetween(w[..k], i, j)
      {
        assert MarkBetween(w, i, j);
        var m :| i < m < j && w[m].FlushMark?;
        assert w[..k][m].FlushMark?;
      }
    }
  }

  lemma MarkStays(w: seq<Packet>, p: Packet, i: int, j: int)
    requires MarkBetween(w, i, j)
    ensures MarkBetween(w + [p], i, j) && MarkBetween(w + [p], i, j + 1)
  {
    var k :| i < k < j && 0 <= k < |w| && w[k].FlushMark?;
    assert (w + [p])[k].FlushMark?;
  }

  lemma MarkCloses(w: seq<Packet>, n: nat, epoch: nat, m: int)
    requires Ordered(w, m, epoch)
    ensures Ordered(w + [FlushMark], m, epoch) && ClosedBefore(w + [FlushMark], n)
    ensures (Barred(w) ==> Barred(w + [FlushMark]))
  {
    var v := w + [FlushMark];
    forall i | 0 <= i < |v| && v[i].Data? && v[i].epoch < n
      ensures MarkBetween(v, i, |v|)
    {
      assert v[|w|].FlushMark?;
    }
    if Barred(w) {
      forall i, j | 0 <= i < j < |v| && v[i].Data? && v[j].Data? && v[i].epoch < v[j].epoch
        ensures MarkBetween(v, i, j)
      {
        assert MarkBetween(w, i, j);
        MarkStays(w, FlushMark, i, j);
      }
    }
  }

  lemma PacketFollows(w: seq<Packet>, p: Packet, m: int, epoch: nat)
    requires Ordered(w, m, epoch) && p.Data? && p.number == m && p.epoch == epoch
    ensures Ordered(w + [p], m + 1, epoch)
    ensures Barred(w) && ClosedBefore(w, epoch) ==> Barred(w + [p]) && ClosedBefore(w + [p], epoch)
  {
    var v := w + [p];
    if Barred(w) && ClosedBefore(w, epoch) {
      forall i, j | 0 <= i < j < |v| && v[i].Data? && v[j].Data? && v[i].epoch < v[j].epoch
        ensures MarkBetween(v, i, j)
      {
        assert MarkBetween(w, i, j);
        MarkStays(w, p, i, j);
      }
      forall i | 0 <= i < |v| && v[i].Data? && v[i].epoch < epoch
        ensures MarkBetween(v, i, |v|)
      {
        assert MarkBetween(w, i, |w|);
        MarkStays(w, p, i, |w|);
      }
    }
  }

  lemma MoreRead(w: seq<Packet>, m: int, n: int, epoch: nat, later: nat)
    requires Ordered(w, m, epoch) && m <= n && epoch <= later
    ensures Ordered(w, n, later)
  {
  }

  // What one operation of a seek does to its channel.
  lemma SeekOneKeeps(c: Channel, put: bool, memory: bool, m: nat, epoch: nat)
    requires Ordered(Through(c), m, epoch) && (!c.open ==> Through(c) == []) && (!c.marksLost ==> Barred(Through(c)))
    ensures var d := SeekOne(c, put, memory);
      && Ordered(Through(d), m, epoch) && (!d.open ==> Through(d) == [])
      && (!d.marksLost ==> Barred(Through(d)) && (put ==> ClosedBefore(Through(d), epoch)))
  {
    if c.open {
      if !put {
        PrefixKeeps(Through(c), m, epoch, |c.taken|);
        assert Through(c)[..|c.taken|] == c.taken + [];
      } else if memory {
        MarkCloses(Through(c), epoch, epoch, m);
        assert Through(c) + [FlushMark] == c.taken + (c.queue + [FlushMark]);
      }
    }
  }

  lemma SeekStepKeeps(s: State, memory: bool, q: nat)
    requires Keeps(s) && Enabled(s, SeekStep(memory)) && q < QUEUES
    ensures ChannelKeeps(Do(s, SeekStep(memory)), q)
  {
    assert ChannelKeeps(s, q);
    if q == s.reader.done / 2 {
      SeekOneKeeps(s.channels[q], s.reader.done % 2 == 1, memory, s.read, s.epoch);
    }
  }

  // A packet of the present epoch comes in.
  lemma InKeeps(c: Channel, p: Packet, m: int, epoch: nat)
    requires OneKeeps(c, m, epoch, false) && p.Data? && p.number == m && p.epoch == epoch && c.open
    ensures OneKeeps(c.(queue := c.queue + [p]), m + 1, epoch, false)
  {
    PacketFollows(Through(c), p, m, epoch);
    assert Through(c) + [p] == c.taken + (c.queue + [p]);
  }

  // Packets go elsewhere, or a new epoch begins.
  lemma LaterKeeps(c: Channel, m: int, epoch: nat, due: bool, n: int, later: nat)
    requires OneKeeps(c, m, epoch, due) && m <= n && epoch <= later
    ensures OneKeeps(c, n, later, due || epoch < later)
  {
    MoreRead(Through(c), m, n, epoch, later);
  }

  lemma PutKeeps(s: State, memory: bool, q: nat)
    requires Keeps(s) && Enabled(s, PutPacket(memory)) && q < QUEUES
    ensures ChannelKeeps(Do(s, PutPacket(memory)), q)
  {
    var c, t := s.channels[q], Do(s, PutPacket(memory));
    assert ChannelKeeps(s, q) && t.reader == Top && t.epoch == s.epoch && Handed(t) == s.read;
    if memory && q == s.reader.to && c.open {
      assert t.channels[q] == c.(queue := c.queue + [s.reader.pkt]);
      InKeeps(c, s.reader.pkt, s.read - 1, s.epoch);
    } else {
      assert t.channels[q] == c;
      LaterKeeps(c, s.read - 1, s.epoch, false, s.read, s.epoch);
    }
  }

  lemma DecodeKeeps(s: State, p: nat, q: nat)
    requires Keeps(s) && Enabled(s, Decode(p)) && q < QUEUES
    ensures ChannelKeeps(Do(s, Decode(p)), q)
  {
    assert ChannelKeeps(s, q);
    var c := s.channels[q];
    if p == q {
      assert Through(c) == (c.taken + [c.queue[0]]) + c.queue[1..];
    }
  }

  lemma OtherKeeps(s: State, e: Event, q: nat)
    requires Keeps(s) && Enabled(s, e) && q < QUEUES && (e.SeekSucceeds? || e.SeekFails? || e.ReadPacket? || e.Abort?)
    ensures ChannelKeeps(Do(s, e), q)
  {
    assert ChannelKeeps(s, q);
    if e.SeekSucceeds? {
      LaterKeeps(s.channels[q], s.read, s.epoch, false, s.read, s.epoch + 1);
    } else if e.Abort? {
      assert Through(Do(s, e).channels[q]) == Through(s.channels[q]);
    }
  }

  lemma StepKeepsChannel(s: State, e: Event, q: nat)
    requires Keeps(s) && Enabled(s, e) && q < QUEUES
    ensures ChannelKeeps(Do(s, e), q)
  {
    match e
    case SeekStep(memory) => SeekStepKeeps(s, memory, q);
    case PutPacket(memory) => PutKeeps(s, memory, q);
    case Decode(p) => DecodeKeeps(s, p, q);
    case _ => OtherKeeps(s, e, q);
  }

  lemma StepKeeps(s: State, e: Event)
    requires Keeps(s) && Enabled(s, e)
    ensures Keeps(Do(s, e))
  {
    forall q: nat | q < QUEUES
      ensures ChannelKeeps(Do(s, e), q)
    {
      StepKeepsChannel(s, e, q);
    }
  }

  lemma {:induction false} RunKeeps(run: seq<State>, events: seq<Event>, n: nat)
    requires IsRun(run, events) && n < |run|
    ensures Keeps(run[n])
  {
    if n > 0 {
      RunKeeps(run, events, n - 1);
      StepKeeps(run[n - 1], events[n - 1]);
    } else {
      forall q: nat | q < QUEUES
        ensures ChannelKeeps(run[0], q)
      {
        assert Through(run[0].channels[q]) == [];
      }
    }
  }

  // In every run, at every moment and for each decoder: the packets it has got come in the order
  // they were read and none twice; and if no mark was lost, between one from before a successful
  // seek and one from after it there is a mark.
  lemma SeekBarrierHolds(run: seq<State>, events: seq<Event>, n: nat, q: nat)
    requires IsRun(run, events) && n < |run| && q < QUEUES
    ensures |run[n].channels| == QUEUES
    ensures var c := run[n].channels[q];
      && Ordered(c.taken, run[n].read, run[n].epoch)
      && (!c.marksLost ==> Barred(c.taken))
  {
    RunKeeps(run, events, n);
    var s := run[n];
    assert ChannelKeeps(s, q);
    var c := s.channels[q];
    PrefixKeeps(Through(c), s.read, s.epoch, |c.taken|);
    assert Through(c)[..|c.taken|] == c.taken;
    MoreRead(Through(c), if s.reader.Holding? then s.read - 1 else s.read, s.read, s.epoch, s.epoch);
  }

  // ---- exactly what breaks the barrier ----

  lemma AppendedIff(w: seq<Packet>, p: Packet)
    requires Barred(w)
    ensures Barred(w + [p]) <==> p.FlushMark? || ClosedBefore(w, p.epoch)
  {
    var v := w + [p];
    if p.Data? && Barred(v) {
      forall i | 0 <= i < |w| && w[i].Data? && w[i].epoch < p.epoch
        ensures MarkBetween(w, i, |w|)
      {
        assert v[i] == w[i] && v[|w|] == p && MarkBetween(v, i, |w|);
        var k :| i < k < |w| && v[k].FlushMark?;
        assert w[k].FlushMark?;
      }
    } else if p.FlushMark? || ClosedBefore(w, p.epoch) {
      forall i, j | 0 <= i < j < |v| && v[i].Data? && v[j].Data? && v[i].epoch < v[j].epoch
        ensures MarkBetween(v, i, j)
      {
        assert j < |w| ==> MarkBetween(w, i, j);
        assert j == |w| ==> MarkBetween(w, i, |w|);
        MarkStays(w, p, i, j);
      }
    }
  }

  // Of all steps only a packet that finds its queue open breaks the order of what goes through it,
  // and it does if and only if a packet from before the last seek has no mark after it.
  lemma BreaksIff(s: State, e: Event, q: nat)
    requires Keeps(s) && Enabled(s, e) && q < QUEUES && Barred(Through(s.channels[q]))
    ensures |Do(s, e).channels| == QUEUES
    ensures !Barred(Through(Do(s, e).channels[q])) <==>
      e == PutPacket(true) && s.reader.to == q && s.channels[q].open && !ClosedBefore(Through(s.channels[q]), s.epoch)
  {
    var c, d := s.channels[q], Do(s, e).channels[q];
    match e
    case PutPacket(memory) =>
      AppendedIff(Through(c), s.reader.pkt);
      assert Through(c) + [s.reader.pkt] == c.taken + (c.queue + [s.reader.pkt]);
    case SeekStep(memory) =>
      PrefixKeeps(Through(c), 0, 0, |c.taken|);
      assert Through(c)[..|c.taken|] == c.taken + [];
      AppendedIff(Through(c), FlushMark);
      assert Through(c) + [FlushMark] == c.taken + (c.queue + [FlushMark]);
    case Decode(p) =>
      assert p == q ==> Through(c) == (c.taken + [c.queue[0]]) + c.queue[1..];
    case _ =>
      assert Through(d) == Through(c);
  }

  // ---- which runs do ----

  // The epoch of what is in queue q: until the mark of a seek under way, that before it.
  function EpochOf(s: State, q: nat): int { if MarkDue(s.reader, q) then s.epoch - 1 else s.epoch }

  // Queue q has been emptied for a seek, and its mark comes next.
  predicate Flushed(r: Reader, q: nat) { r.Seeking? && r.done == 2 * q + 1 }

  // A queue holds packets of one epoch, with a mark at most before them, and none just before
  // its mark is put.
  ghost predicate QueueKeeps(s: State, q: nat)
    requires q < |s.channels|
  {
    var c := s.channels[q];
    && (s.reader.Seeking? ==> s.epoch > 0)
    && (Flushed(s.reader, q) ==> c.queue == [])
    && (forall i :: 0 <= i < |c.queue| ==> if c.queue[i].FlushMark? then i == 0 else c.queue[i].epoch == EpochOf(s, q))
    && forall i :: 0 <= i < |c.taken| && c.taken[i].Data? ==> c.taken[i].epoch <= EpochOf(s, q)
  }

  lemma QueueStep(s: State, e: Event, q: nat)
    requires Keeps(s) && Enabled(s, e) && q < QUEUES && QueueKeeps(s, q)
    ensures |Do(s, e).channels| == QUEUES && QueueKeeps(Do(s, e), q) && EpochOf(Do(s, e), q) >= EpochOf(s, q)
  {
    match e
    case SeekStep(memory) => QueueSeekStep(s, memory, q);
    case PutPacket(memory) => QueuePut(s, memory, q);
    case Decode(p) => QueueDecode(s, p, q);
    case _ =>
      assert Do(s, e).channels[q].queue == s.channels[q].queue && Do(s, e).channels[q].taken == s.channels[q].taken;
  }

  lemma QueueSeekStep(s: State, memory: bool, q: nat)
    requires Keeps(s) && Enabled(s, SeekStep(memory)) && q < QUEUES && QueueKeeps(s, q)
    ensures var t := Do(s, SeekStep(memory));
            |t.channels| == QUEUES && QueueKeeps(t, q) && EpochOf(t, q) >= EpochOf(s, q)
  {
    var t := Do(s, SeekStep(memory));
    assert ChannelKeeps(s, q);
    if s.reader.done / 2 != q {
      assert t.channels[q] == s.channels[q];
    } else if s.reader.done % 2 == 0 {
      assert t.channels[q].queue == [] && t.channels[q].taken == s.channels[q].taken;
    } else {
      assert |t.channels[q].queue| <= 1 && t.channels[q].taken == s.channels[q].taken;
    }
  }

  lemma QueuePut(s: State, memory: bool, q: nat)
    requires Keeps(s) && Enabled(s, PutPacket(memory)) && q < QUEUES && QueueKeeps(s, q)
    ensures var t := Do(s, PutPacket(memory));
            |t.channels| == QUEUES && QueueKeeps(t, q) && EpochOf(t, q) == EpochOf(s, q)
  {
    var c, d := s.channels[q], Do(s, PutPacket(memory)).channels[q];
    assert d.taken == c.taken && (d.queue == c.queue || d.queue == c.queue + [s.reader.pkt]);
  }

  lemma QueueDecode(s: State, p: nat, q: nat)
    requires Keeps(s) && Enabled(s, Decode(p)) && q < QUEUES && QueueKeeps(s, q)
    ensures var t := Do(s, Decode(p)); |t.channels| == QUEUES && QueueKeeps(t, q) && EpochOf(t, q) == EpochOf(s, q)
  {
    var c, d := s.channels[q], Do(s, Decode(p)).channels[q];
    if p == q {
      assert d.taken == c.taken + [c.queue[0]] && d.queue == c.queue[1..];
    } else {
      assert d == c;
    }
  }

  lemma {:induction false} RunQueue(run: seq<State>, events: seq<Event>, n: nat, q: nat)
    requires IsRun(run, events) && n < |run| && q < QUEUES
    ensures |run[n].channels| == QUEUES && QueueKeeps(run[n], q)
  {
    if n > 0 {
      RunQueue(run, events, n - 1, q);
      RunKeeps(run, events, n - 1);
      QueueStep(run[n - 1], events[n - 1], q);
    }
  }

  // At step k the mark of a seek for queue q finds no memory, and what the decoder got last is a packet.
  ghost predicate Loses(run: seq<State>, events: seq<Event>, k: nat, q: nat) {
    && k < |run| && k < |events| && |run[k].channels| == QUEUES && q < QUEUES
    && events[k] == SeekStep(false) && run[k].reader == Seeking(2 * q + 1) && run[k].channels[q].open
    && run[k].channels[q].taken != [] && run[k].channels[q].taken[|run[k].channels[q].taken| - 1].Data?
  }

  // At step m the decoder of queue q gets a packet, or a mark.
  ghost predicate Gets(run: seq<State>, events: seq<Event>, m: nat, q: nat, data: bool) {
    && m < |run| && m < |events| && |run[m].channels| == QUEUES && q < QUEUES
    && events[m] == Decode(q) && run[m].channels[q].queue != [] && run[m].channels[q].queue[0].Data? == data
  }

  ghost predicate NoMarkGot(run: seq<State>, events: seq<Event>, k: nat, n: nat, q: nat) {
    forall m: nat {:trigger Gets(run, events, m, q, false)} :: k < m < n ==> !Gets(run, events, m, q, false)
  }

  // By step n a mark has been lost, and the decoder has got none since.
  ghost predicate Exposed(run: seq<State>, events: seq<Event>, n: nat, q: nat) {
    exists k: nat {:trigger Loses(run, events, k, q)} ::
      k < n && Loses(run, events, k, q) && NoMarkGot(run, events, k, n, q)
  }

  lemma ExposedOn(run: seq<State>, events: seq<Event>, n: nat, q: nat)
    requires Exposed(run, events, n, q) && !Gets(run, events, n, q, false)
    ensures Exposed(run, events, n + 1, q)
  {
    var k: nat :| k < n && Loses(run, events, k, q) && NoMarkGot(run, events, k, n, q);
    assert NoMarkGot(run, events, k, n + 1, q);
  }

  // A packet from before the last seek has no mark after it.
  ghost predicate Open(s: State, q: nat)
    requires q < |s.channels|
  {
    s.channels[q].open && !Flushed(s.reader, q) && !ClosedTo(Through(s.channels[q]), EpochOf(s, q))
  }

  ghost predicate ClosedTo(w: seq<Packet>, n: int) {
    forall i {:trigger MarkBetween(w, i, |w|)} :: 0 <= i < |w| && w[i].Data? && w[i].epoch < n ==>
      MarkBetween(w, i, |w|)
  }

  lemma OpenStays(w: seq<Packet>, v: seq<Packet>, n: int)
    requires w <= v && (forall i :: |w| <= i < |v| ==> v[i].Data? ==> v[i].epoch >= n) && ClosedTo(w, n)
    ensures ClosedTo(v, n)
  {
    forall i | 0 <= i < |v| && v[i].Data? && v[i].epoch < n
      ensures MarkBetween(v, i, |v|)
    {
      assert w[i] == v[i] && MarkBetween(w, i, |w|);
      var k :| i < k < |w| && w[k].FlushMark?;
      assert v[k].FlushMark?;
    }
  }

  lemma OpenEndsInData(w: seq<Packet>, n: int)
    requires !ClosedTo(w, n)
    ensures w != [] && w[|w| - 1].Data?
  {
    var i :| 0 <= i < |w| && w[i].Data? && w[i].epoch < n && !MarkBetween(w, i, |w|);
    if w[|w| - 1].FlushMark? {
      assert MarkBetween(w, i, |w|);
    }
  }

  // A mark that is got closes all before it.
  lemma MarkGotCloses(s: State, q: nat)
    requires q < |s.channels| && QueueKeeps(s, q) && s.channels[q].queue != [] && s.channels[q].queue[0].FlushMark?
    ensures ClosedTo(Through(s.channels[q]), EpochOf(s, q))
  {
    var c := s.channels[q];
    var w := Through(c);
    forall i | 0 <= i < |w| && w[i].Data?
      ensures w[i].epoch < EpochOf(s, q) ==> MarkBetween(w, i, |w|)
    {
      if i < |c.taken| {
        assert w[|c.taken|].FlushMark?;
      } else {
        assert w[i] == c.queue[i - |c.taken|];
      }
    }
  }

  lemma MarkPutCloses(w: seq<Packet>, n: int)
    ensures ClosedTo(w + [FlushMark], n)
  {
    var v := w + [FlushMark];
    forall i | 0 <= i < |v| && v[i].Data? && v[i].epoch < n
      ensures MarkBetween(v, i, |v|)
    {
      assert v[|w|].FlushMark?;
    }
  }

  // How a queue comes to be open: it was, and no mark was got; or a mark is lost in this step.
  lemma OpenStep(s: State, e: Event, q: nat)
    requires Keeps(s) && Enabled(s, e) && q < QUEUES && QueueKeeps(s, q)
    ensures |Do(s, e).channels| == QUEUES
    ensures var c := s.channels[q];
      Open(Do(s, e), q) ==>
        || (Open(s, q) && !(e == Decode(q) && c.queue[0].FlushMark?))
        || (e == SeekStep(false) && s.reader == Seeking(2 * q + 1) && c.open
            && c.taken != [] && c.taken[|c.taken| - 1].Data?)
  {
    var c, d := s.channels[q], Do(s, e).channels[q];
    match e
    case SeekStep(memory) =>
      if s.reader.done == 2 * q + 1 {
        OpenPut(s, memory, q);
      }
    case PutPacket(memory) =>
      if d != c {
        assert Through(d) == Through(c) + [s.reader.pkt];
        if ClosedTo(Through(c), EpochOf(s, q)) {
          OpenStays(Through(c), Through(d), EpochOf(s, q));
        }
      }
    case Decode(p) =>
      if p == q {
        assert Through(d) == Through(c);
        if c.queue[0].FlushMark? {
          MarkGotCloses(s, q);
        }
      }
    case _ =>
      assert Through(d) == Through(c);
  }

  lemma OpenPut(s: State, memory: bool, q: nat)
    requires Keeps(s) && Enabled(s, SeekStep(memory)) && q < QUEUES && QueueKeeps(s, q) && s.reader.done == 2 * q + 1
    ensures |Do(s, SeekStep(memory)).channels| == QUEUES
    ensures var c := s.channels[q];
      Open(Do(s, SeekStep(memory)), q) ==> !memory && c.open && c.taken != [] && c.taken[|c.taken| - 1].Data?
  {
    var t := Do(s, SeekStep(memory));
    var c, d := s.channels[q], t.channels[q];
    if c.open && memory {
      assert Through(d) == c.taken + [FlushMark];
      MarkPutCloses(c.taken, EpochOf(t, q));
    } else if Open(t, q) {
      assert Through(d) == c.taken;
      OpenEndsInData(Through(d), EpochOf(t, q));
    }
  }

  // So an open queue has lost its mark.
  lemma {:induction false} OpenIsExposed(run: seq<State>, events: seq<Event>, n: nat, q: nat)
    requires IsRun(run, events) && n < |run| && q < QUEUES
    ensures |run[n].channels| == QUEUES && (Open(run[n], q) ==> Exposed(run, events, n, q))
  {
    RunQueue(run, events, n, q);
    if n == 0 {
      assert Through(run[0].channels[q]) == [];
    } else if Open(run[n], q) {
      RunKeeps(run, events, n - 1);
      RunQueue(run, events, n - 1, q);
      OpenStep(run[n - 1], events[n - 1], q);
      if Loses(run, events, n - 1, q) {
        assert NoMarkGot(run, events, n - 1, n, q);
      } else {
        OpenIsExposed(run, events, n - 1, q);
        ExposedOn(run, events, n - 1, q);
      }
    }
  }

  // A packet got while an older one has no mark after it comes out of an open queue.
  lemma StaleIsOpen(s: State, q: nat)
    requires Keeps(s) && q < QUEUES && QueueKeeps(s, q) && s.channels[q].queue != [] && s.channels[q].queue[0].Data?
    requires !ClosedBefore(s.channels[q].taken, s.channels[q].queue[0].epoch)
    ensures Open(s, q)
  {
    var c := s.channels[q];
    assert ChannelKeeps(s, q) && c.queue[0].epoch == EpochOf(s, q);
    var w := Through(c);
    assert forall l :: |c.taken| <= l < |w| ==> w[l] == c.queue[l - |c.taken|];
    var i :| 0 <= i < |c.taken| && c.taken[i].Data? && c.taken[i].epoch < c.queue[0].epoch
      && !MarkBetween(c.taken, i, |c.taken|);
    assert w[i] == c.taken[i] && !MarkBetween(w, i, |w|);
  }

  // After a mark was lost and until the next is got, a decoder gets packets only, of later epochs.
  lemma {:induction false} AfterLoss(run: seq<State>, events: seq<Event>, k: nat, m: nat, q: nat)
    requires IsRun(run, events) && k < m < |run| && Loses(run, events, k, q) && NoMarkGot(run, events, k, m, q)
    ensures |run[m].channels| == QUEUES
    ensures var was, now := run[k].channels[q].taken, run[m].channels[q].taken;
      && was <= now && (forall i :: |was| <= i < |now| ==> now[i].Data?) && EpochOf(run[m], q) >= run[k].epoch
  {
    RunQueue(run, events, m, q);
    if m > k + 1 {
      assert NoMarkGot(run, events, k, m - 1, q);
      AfterLoss(run, events, k, m - 1, q);
      RunKeeps(run, events, m - 1);
      RunQueue(run, events, m - 1, q);
      QueueStep(run[m - 1], events[m - 1], q);
      if events[m - 1] == Decode(q) {
        assert !Gets(run, events, m - 1, q, false);
      }
    }
  }

  // The packet after is out of order.
  lemma LossBreaks(run: seq<State>, events: seq<Event>, k: nat, m: nat, q: nat)
    requires IsRun(run, events) && k < m < |run| - 1 && Loses(run, events, k, q) && NoMarkGot(run, events, k, m, q)
    requires Gets(run, events, m, q, true)
    ensures |run[m + 1].channels| == QUEUES && !Barred(run[m + 1].channels[q].taken)
  {
    RunQueue(run, events, k, q);
    RunQueue(run, events, m, q);
    AfterLoss(run, events, k, m, q);
    var was, now, p := run[k].channels[q].taken, run[m].channels[q].taken, run[m].channels[q].queue[0];
    var i, j, w := |was| - 1, |now|, now + [p];
    assert run[m + 1].channels[q].taken == w;
    assert w[i] == was[i] && w[i].epoch < p.epoch;
    assert forall l :: |was| <= l < j ==> w[l] == now[l] && w[l].Data?;
    assert !MarkBetween(w, i, j);
  }

  lemma {:induction false} TakenGrows(run: seq<State>, events: seq<Event>, m: nat, n: nat, q: nat)
    requires IsRun(run, events) && m <= n < |run| && q < QUEUES
    ensures |run[m].channels| == |run[n].channels| == QUEUES
    ensures run[m].channels[q].taken <= run[n].channels[q].taken
  {
    RunQueue(run, events, m, q);
    RunQueue(run, events, n, q);
    if m < n {
      TakenGrows(run, events, m, n - 1, q);
    }
  }

  // At steps k and m of a run: a mark finds no memory, the decoder having got a packet last; and
  // it gets a packet with no mark between.
  ghost predicate BreaksAt(run: seq<State>, events: seq<Event>, k: nat, m: nat, q: nat) {
    k < m && Loses(run, events, k, q) && Gets(run, events, m, q, true) && NoMarkGot(run, events, k, m, q)
  }

  // In every run what a decoder has got is out of order if and only if that has happened.
  lemma {:induction false} DecoderBrokenIff(run: seq<State>, events: seq<Event>, n: nat, q: nat)
    requires IsRun(run, events) && n < |run| && q < QUEUES
    ensures |run[n].channels| == QUEUES
    ensures !Barred(run[n].channels[q].taken) <==>
      exists k: nat, m: nat {:trigger BreaksAt(run, events, k, m, q)} :: m < n && BreaksAt(run, events, k, m, q)
  {
    RunQueue(run, events, n, q);
    if k: nat, m: nat :| m < n && BreaksAt(run, events, k, m, q) {
      LossBreaks(run, events, k, m, q);
      TakenGrows(run, events, m + 1, n, q);
      var w, v := run[n].channels[q].taken, run[m + 1].channels[q].taken;
      PrefixKeeps(w, 0, 0, |v|);
      assert w[..|v|] == v;
    }
    if !Barred(run[n].channels[q].taken) {
      var k, m := BrokenBy(run, events, n, q);
    }
  }

  lemma {:induction false} BrokenBy(run: seq<State>, events: seq<Event>, n: nat, q: nat) returns (k: nat, m: nat)
    requires IsRun(run, events) && n < |run| && q < QUEUES
    ensures |run[n].channels| == QUEUES
    ensures !Barred(run[n].channels[q].taken) ==> m < n && BreaksAt(run, events, k, m, q)
  {
    RunQueue(run, events, n, q);
    k, m := 0, 0;
    if n > 0 && !Barred(run[n].channels[q].taken) {
      RunKeeps(run, events, n - 1);
      RunQueue(run, events, n - 1, q);
      var s := run[n - 1];
      if !Barred(s.channels[q].taken) {
        k, m := BrokenBy(run, events, n - 1, q);
      } else {
        m := n - 1;
        TakenOutOfOrder(s, events[m], q);
        StaleIsOpen(s, q);
        OpenIsExposed(run, events, m, q);
        k :| k < m && Loses(run, events, k, q) && NoMarkGot(run, events, k, m, q);
        assert Gets(run, events, m, q, true);
      }
    }
  }

  // Of all steps of a decoder one that gets a packet breaks the order.
  lemma TakenOutOfOrder(s: State, e: Event, q: nat)
    requires Keeps(s) && Enabled(s, e) && q < QUEUES && Barred(s.channels[q].taken)
    ensures |Do(s, e).channels| == QUEUES
    ensures !Barred(Do(s, e).channels[q].taken) ==>
      && e == Decode(q) && s.channels[q].queue[0].Data?
      && !ClosedBefore(s.channels[q].taken, s.channels[q].queue[0].epoch)
  {
    var c, d := s.channels[q], Do(s, e).channels[q];
    if e == Decode(q) {
      AppendedIff(c.taken, c.queue[0]);
      assert d.taken == c.taken + [c.queue[0]];
    } else {
      assert d.taken == c.taken;
    }
  }

  // ---- a mark that is lost ----

  // One open channel, with what is in it and what was got from it.
  function Alone(queue: seq<Packet>, taken: seq<Packet>, lost: bool, reader: Reader, epoch: nat, read: nat): State {
    var shut := Channel([], [], false, false, false);
    State([Channel(queue, taken, true, false, lost), shut, shut], reader, epoch, read)
  }

  // A run that ends in state t.
  ghost predicate RunTo(run: seq<State>, events: seq<Event>, t: State) {
    IsRun(run, events) && run[|events|] == t
  }

  lemma OneMore(run: seq<State>, events: seq<Event>, s: State, e: Event, t: State)
      returns (r: seq<State>, v: seq<Event>)
    requires RunTo(run, events, s) && Goes(s, e, t)
    ensures RunTo(r, v, t)
  {
    r, v := run + [t], events + [e];
  }

  // A packet, a seek whose mark finds no memory, and another packet: the decoder gets both with
  // nothing between.
  lemma LostMarkBreaks() returns (run: seq<State>, events: seq<Event>)
    ensures IsRun(run, events)
    ensures |run[|events|].channels| == QUEUES
    ensures var c := run[|events|].channels[0]; c.marksLost && !Barred(c.taken)
  {
    var a, b := Data(0, 0, 1), Data(1, 1, 1);
    run, events := [Alone([], [], false, Top, 0, 0)], [];
    run, events := Delivered(run, events, a, [], false, 0, 0);
    run, events := MarkLost(run, events, [] + [a]);
    run, events := SeekEnds(run, events, [] + [a]);
    run, events := Delivered(run, events, b, [] + [a], true, 1, 1);
    assert !MarkBetween([] + [a] + [b], 0, 1);
  }

  lemma Delivered(run: seq<State>, events: seq<Event>, p: Packet, taken: seq<Packet>, lost: bool, epoch: nat, read: nat)
      returns (r: seq<State>, v: seq<Event>)
    requires p == Data(epoch, read, 1) && RunTo(run, events, Alone([], taken, lost, Top, epoch, read))
    ensures RunTo(r, v, Alone([], taken + [p], lost, Top, epoch, read + 1))
  {
    var s0, s1 := Alone([], taken, lost, Top, epoch, read), Alone([], taken, lost, Holding(p, 0), epoch, read + 1);
    var s2, s3 := Alone([p], taken, lost, Top, epoch, read + 1), Alone([], taken + [p], lost, Top, epoch, read + 1);
    Delivers(p, taken, lost, epoch, read);
    r, v := OneMore(run, events, s0, ReadPacket(1, 0), s1);
    r, v := OneMore(r, v, s1, PutPacket(true), s2);
    r, v := OneMore(r, v, s2, Decode(0), s3);
  }

  lemma MarkLost(run: seq<State>, events: seq<Event>, taken: seq<Packet>) returns (r: seq<State>, v: seq<Event>)
    requires RunTo(run, events, Alone([], taken, false, Top, 0, 1))
    ensures RunTo(r, v, Alone([], taken, true, Seeking(2), 1, 1))
  {
    var s0, s1 := Alone([], taken, false, Top, 0, 1), Alone([], taken, false, Seeking(0), 1, 1);
    var s2, s3 := Alone([], taken, false, Seeking(1), 1, 1), Alone([], taken, true, Seeking(2), 1, 1);
    LosesMark(taken);
    r, v := OneMore(run, events, s0, SeekSucceeds, s1);
    r, v := OneMore(r, v, s1, SeekStep(true), s2);
    r, v := OneMore(r, v, s2, SeekStep(false), s3);
  }

  lemma SeekEnds(run: seq<State>, events: seq<Event>, taken: seq<Packet>) returns (r: seq<State>, v: seq<Event>)
    requires RunTo(run, events, Alone([], taken, true, Seeking(2), 1, 1))
    ensures RunTo(r, v, Alone([], taken, true, Top, 1, 1))
  {
    var s2, s3 := Alone([], taken, true, Seeking(2), 1, 1), Alone([], taken, true, Seeking(3), 1, 1);
    var s4, s5 := Alone([], taken, true, Seeking(4), 1, 1), Alone([], taken, true, Seeking(5), 1, 1);
    SeekElsewhere(taken, 2);
    SeekElsewhere(taken, 3);
    SeekElsewhere(taken, 4);
    SeekElsewhere(taken, 5);
    r, v := OneMore(run, events, s2, SeekStep(true), s3);
    r, v := OneMore(r, v, s3, SeekStep(true), s4);
    r, v := OneMore(r, v, s4, SeekStep(true), s5);
    r, v := OneMore(r, v, s5, SeekStep(true), Alone([], taken, true, Top, 1, 1));
  }

  ghost predicate Goes(s: State, e: Event, t: State) { Enabled(s, e) && t == Do(s, e) }

  // A packet is read, put in the open queue, and got from it.
  lemma Delivers(p: Packet, taken: seq<Packet>, lost: bool, epoch: nat, read: nat)
    requires p == Data(epoch, read, 1)
    ensures Goes(Alone([], taken, lost, Top, epoch, read), ReadPacket(1, 0),
                 Alone([], taken, lost, Holding(p, 0), epoch, read + 1))
    ensures Goes(Alone([], taken, lost, Holding(p, 0), epoch, read + 1), PutPacket(true),
                 Alone([p], taken, lost, Top, epoch, read + 1))
    ensures Goes(Alone([p], taken, lost, Top, epoch, read + 1), Decode(0),
                 Alone([], taken + [p], lost, Top, epoch, read + 1))
  {
    var shut := Channel([], [], false, false, false);
    var empty, full := Channel([], taken, true, false, lost), Channel([p], taken, true, false, lost);
    SetFirst(empty, shut, shut, full);
    SetFirst(full, shut, shut, Channel([], taken + [p], true, false, lost));
    assert [] + [p] == [p] && [p][1..] == [];
  }

  lemma SetFirst<T>(x: T, y: T, z: T, w: T)
    ensures [x, y, z][0 := w] == [w, y, z]
  {
  }

  lemma LosesMark(taken: seq<Packet>)
    ensures Goes(Alone([], taken, false, Top, 0, 1), SeekSucceeds, Alone([], taken, false, Seeking(0), 1, 1))
    ensures Goes(Alone([], taken, false, Seeking(0), 1, 1), SeekStep(true), Alone([], taken, false, Seeking(1), 1, 1))
    ensures Goes(Alone([], taken, false, Seeking(1), 1, 1), SeekStep(false), Alone([], taken, true, Seeking(2), 1, 1))
  {
    var shut, mine := Channel([], [], false, false, false), Channel([], taken, true, false, false);
    SetFirst(mine, shut, shut, mine);
    SetFirst(mine, shut, shut, mine.(marksLost := true));
  }

  lemma SeekElsewhere(taken: seq<Packet>, done: nat)
    requires 2 <= done <= 5
    ensures Goes(Alone([], taken, true, Seeking(done), 1, 1), SeekStep(true),
                 Alone([], taken, true, if done == 5 then Top else Seeking(done + 1), 1, 1))
  {
    var s := Alone([], taken, true, Seeking(done), 1, 1);
    assert s.channels[done / 2 := s.channels[done / 2]] == s.channels;
  }

  // ---- the lists that stand behind the steps ----

  // One queue's two operations in a seek, on the list itself.
  method SeekQueue(q: Queue, ghost c: Channel, memory: bool)
    requires q.Valid() && q.Contents() == c.queue && c.open
    modifies q, q.last
    ensures q.Valid() && q.abortRequest == old(q.abortRequest)
    ensures q.Contents() == SeekOne(SeekOne(c, false, memory), true, memory).queue
  {
    q.Flush();
    var ok := q.Put(FlushMark, memory);
  }

  // A decoder's turn at its queue; it looks for the mark.
  method DecodeNext(q: Queue, ghost c: Channel) returns (r: Outcome, flush: bool)
    requires q.Valid() && q.Contents() == c.queue && q.abortRequest == c.aborted
    modifies q
    ensures q.Valid()
    ensures c.aborted ==> r == Aborted && q.Contents() == c.queue
    ensures !c.aborted && c.queue == [] ==> r == Waits && q.Contents() == c.queue
    ensures !c.aborted && c.queue != [] ==> r == Got(c.queue[0]) && q.Contents() == c.queue[1..]
    ensures flush <==> r.Got? && r.pkt.FlushMark?
  {
    r := q.Get(true);
    flush := r.Got? && r.pkt.FlushMark?;
  }
}
