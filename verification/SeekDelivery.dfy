// Nothing that is put in a queue is lost but by a flush: in every run, what a decoder has got of
// the packets and marks put since its queue's last flush, and after them what is in the queue, are
// just these, in their order. All is read off the events alone.
module SeekDelivery {
  import opened PacketQueue
  import opened SeekBarrier

  // ---- what the first n events say ----

  // Seeks that succeeded; packets read; operations of seeks.
  function Seeks(events: seq<Event>, n: nat): nat
    requires n <= |events|
  {
    if n == 0 then 0 else Seeks(events, n - 1) + if events[n - 1].SeekSucceeds? then 1 else 0
  }

  function Reads(events: seq<Event>, n: nat): nat
    requires n <= |events|
  {
    if n == 0 then 0 else Reads(events, n - 1) + if events[n - 1].ReadPacket? then 1 else 0
  }

  function Operations(events: seq<Event>, n: nat): nat
    requires n <= |events|
  {
    if n == 0 then 0 else Operations(events, n - 1) + if events[n - 1].SeekStep? then 1 else 0
  }

  // The packet read last, and the queue it is for.
  function ReadLast(events: seq<Event>, n: nat): (Packet, nat)
    requires n <= |events|
  {
    if n == 0 then (FlushMark, QUEUES)
    else if events[n - 1].ReadPacket? then
      (Data(Seeks(events, n - 1), Reads(events, n - 1), events[n - 1].bytes), events[n - 1].to)
    else ReadLast(events, n - 1)
  }

  // Event i flushes queue q; each seek goes through the queues in turn, two operations for each.
  predicate Flushes(events: seq<Event>, i: nat, q: nat)
    requires i < |events|
  {
    events[i].SeekStep? && Operations(events, i) % (2 * QUEUES) == 2 * q
  }

  // The events after the last flush begin here.
  function Since(events: seq<Event>, n: nat, q: nat): (k: nat)
    requires n <= |events|
    ensures k <= n && (k > 0 ==> Flushes(events, k - 1, q)) && forall i :: k <= i < n ==> !Flushes(events, i, q)
  {
    if n == 0 || Flushes(events, n - 1, q) then n else Since(events, n - 1, q)
  }

  // What event i puts in queue q.
  function PutAt(events: seq<Event>, i: nat, q: nat): seq<Packet>
    requires i < |events|
  {
    if events[i] == SeekStep(true) && Operations(events, i) % (2 * QUEUES) == 2 * q + 1 then [FlushMark]
    else if events[i] == PutPacket(true) && ReadLast(events, i).1 == q then [ReadLast(events, i).0]
    else []
  }

  function Puts(events: seq<Event>, from: nat, n: nat, q: nat): seq<Packet>
    requires n <= |events|
  {
    if n <= from then [] else Puts(events, from, n - 1, q) + PutAt(events, n - 1, q)
  }

  // How often its decoder was given something.
  function Gets(events: seq<Event>, from: nat, n: nat, q: nat): nat
    requires n <= |events|
  {
    if n <= from then 0 else Gets(events, from, n - 1, q) + if events[n - 1] == Decode(q) then 1 else 0
  }

  // ---- the reading thread is where the events put it ----

  ghost predicate Follows(s: State, events: seq<Event>, n: nat)
    requires n <= |events|
  {
    && |s.channels| == QUEUES && s.epoch == Seeks(events, n) && s.read == Reads(events, n)
    && var done := Operations(events, n) % (2 * QUEUES);
       match s.reader
       case Top => done == 0
       case Seeking(d) => d == done
       case Holding(pkt, to) => done == 0 && (pkt, to) == ReadLast(events, n)
  }

  lemma {:induction false} ReaderFollows(run: seq<State>, events: seq<Event>, n: nat)
    requires IsRun(run, events) && n < |run|
    ensures Follows(run[n], events, n)
  {
    if n > 0 {
      ReaderFollows(run, events, n - 1);
    }
  }

  // ---- delivery ----

  // With k of them got since the last flush.
  ghost predicate Delivers(c: Channel, puts: seq<Packet>, k: nat) {
    k <= |c.taken| && c.taken[|c.taken| - k..] + c.queue == puts
  }

  // What one event does to an open queue and its decoder.
  ghost predicate Moves(c: Channel, d: Channel, flush: bool, put: seq<Packet>, get: bool) {
    && d.open && (get ==> !flush && put == [] && c.queue != [])
    && d.taken == (if get then c.taken + [c.queue[0]] else c.taken)
    && d.queue == if flush then [] else if get then c.queue[1..] else c.queue + put
  }

  lemma EventMoves(s: State, events: seq<Event>, n: nat, q: nat)
    requires n < |events| && q < QUEUES && Follows(s, events, n) && Enabled(s, events[n]) && s.channels[q].open
    ensures |Do(s, events[n]).channels| == QUEUES
    ensures Moves(s.channels[q], Do(s, events[n]).channels[q], Flushes(events, n, q), PutAt(events, n, q),
                  events[n] == Decode(q))
  {
    match events[n]
    case SeekStep(memory) => SeekMoves(s, events, n, q, memory);
    case PutPacket(memory) =>
      assert PutAt(events, n, q) == if memory && s.reader.to == q then [s.reader.pkt] else [];
    case _ =>
      assert PutAt(events, n, q) == [] && !Flushes(events, n, q);
  }

  lemma SeekMoves(s: State, events: seq<Event>, n: nat, q: nat, memory: bool)
    requires n < |events| && q < QUEUES && Follows(s, events, n) && events[n] == SeekStep(memory)
    requires Enabled(s, events[n]) && s.channels[q].open
    ensures Moves(s.channels[q], Do(s, events[n]).channels[q], Flushes(events, n, q), PutAt(events, n, q), false)
  {
    var done := s.reader.done;
    assert done == Operations(events, n) % (2 * QUEUES);
    if done / 2 == q {
      assert done == 2 * q || done == 2 * q + 1;
    }
  }

  lemma MovesDeliver(c: Channel, d: Channel, flush: bool, put: seq<Packet>, get: bool, puts: seq<Packet>, k: nat)
    requires Moves(c, d, flush, put, get) && Delivers(c, puts, k)
    ensures |d.taken| == |c.taken| + (if get then 1 else 0)
    ensures if flush then Delivers(d, [], 0) else Delivers(d, puts + put, k + if get then 1 else 0)
  {
    var got := c.taken[|c.taken| - k..];
    if get {
      OneGot(c.taken, c.queue, k);
      assert puts + put == puts;
    } else if flush {
      assert d.taken[|d.taken|..] + d.queue == [];
    } else {
      assert d.taken[|d.taken| - k..] == got && got + (c.queue + put) == puts + put;
    }
  }

  lemma OneGot(taken: seq<Packet>, queue: seq<Packet>, k: nat)
    requires k <= |taken| && queue != []
    ensures (taken + [queue[0]])[|taken| - k..] + queue[1..] == taken[|taken| - k..] + queue
  {
    assert (taken + [queue[0]])[|taken| - k..] == taken[|taken| - k..] + [queue[0]];
    assert queue == [queue[0]] + queue[1..];
  }

  // What an event adds to the counts, from nothing where it flushes.
  lemma CountsMove(events: seq<Event>, n: nat, q: nat)
    requires n < |events|
    ensures var since, next := Since(events, n, q), Since(events, n + 1, q);
      var get := if events[n] == Decode(q) then 1 else 0;
      && Gets(events, 0, n + 1, q) == Gets(events, 0, n, q) + get
      && if Flushes(events, n, q) then Puts(events, next, n + 1, q) == [] && Gets(events, next, n + 1, q) == 0
         else && Puts(events, next, n + 1, q) == Puts(events, since, n, q) + PutAt(events, n, q)
              && Gets(events, next, n + 1, q) == Gets(events, since, n, q) + get
  {
  }

  // In every run and at every moment, for each open queue: what its decoder has got of the packets
  // and marks put since the last flush, followed by those still in the queue, are all that were put,
  // memory being found for them, in order; and it has got one thing each time.
  lemma {:induction false} DeliveryComplete(run: seq<State>, events: seq<Event>, n: nat, q: nat)
    requires IsRun(run, events) && n < |run| && q < QUEUES && run[0].channels[q].open
    ensures |run[n].channels| == QUEUES && run[n].channels[q].open
    ensures var c, since := run[n].channels[q], Since(events, n, q);
      && Delivers(c, Puts(events, since, n, q), Gets(events, since, n, q))
      && |c.taken| == Gets(events, 0, n, q)
  {
    if n > 0 {
      DeliveryComplete(run, events, n - 1, q);
      ReaderFollows(run, events, n - 1);
      var since := Since(events, n - 1, q);
      EventMoves(run[n - 1], events, n - 1, q);
      CountsMove(events, n - 1, q);
      MovesDeliver(run[n - 1].channels[q], run[n].channels[q], Flushes(events, n - 1, q), PutAt(events, n - 1, q),
                   events[n - 1] == Decode(q), Puts(events, since, n - 1, q), Gets(events, since, n - 1, q));
    }
  }

  // A queue whose stream is not open has nothing put in it.
  lemma {:induction false} ClosedStaysEmpty(run: seq<State>, events: seq<Event>, n: nat, q: nat)
    requires IsRun(run, events) && n < |run| && q < QUEUES && !run[0].channels[q].open
    ensures |run[n].channels| == QUEUES && !run[n].channels[q].open
    ensures run[n].channels[q].queue == run[n].channels[q].taken == []
  {
    if n > 0 {
      ClosedStaysEmpty(run, events, n - 1, q);
    }
  }

  // ---- the list that stands behind the step ----

  // packet_queue_put for the packet in hand.
  method PutRead(queue: Queue, pkt: Packet, ghost s: State, memory: bool) returns (ok: bool)
    requires Enabled(s, PutPacket(memory)) && s.reader.pkt == pkt && s.reader.to < QUEUES
    requires s.channels[s.reader.to].open
    requires queue.Valid() && queue.Contents() == s.channels[s.reader.to].queue
    modifies queue, queue.last
    ensures queue.Valid() && ok == memory && queue.abortRequest == old(queue.abortRequest)
    ensures queue.Contents() == Do(s, PutPacket(memory)).channels[s.reader.to].queue
  {
    ok := queue.Put(pkt, memory);
  }
}
