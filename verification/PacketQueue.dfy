// The player's packet queues: a linked list with counts, under a lock.
module PacketQueue {
  import opened Sums

  // What separates packets before a seek from those after it, and packets themselves: the seeks
  // made before they were read, their number in the order of reading, and their size.
  datatype Packet = FlushMark | Data(epoch: nat, number: nat, bytes: nat)

  function SizeOf(p: Packet): nat { if p.Data? then p.bytes else 0 }

  function Sizes(packets: seq<Packet>): (s: seq<int>)
    ensures |s| == |packets| && forall i :: 0 <= i < |packets| ==> s[i] == SizeOf(packets[i])
  {
    seq(|packets|, i requires 0 <= i < |packets| => SizeOf(packets[i]))
  }

  // AVPacketList
  class Node {
    var pkt: Packet
    var next: Node?

    constructor (pkt: Packet)
      ensures this.pkt == pkt && next == null
    {
      this.pkt, this.next := pkt, null;
    }
  }

  datatype Outcome = Aborted | NoPacket | Waits | Got(pkt: Packet)

  // Each method is what its counterpart does while it holds the mutex.
  class Queue {
    var first: Node?
    var last: Node?
    var nbPackets: int
    var size: int
    var abortRequest: bool
    // The nodes from first to last.
    ghost var spine: seq<Node>

    ghost predicate Linked()
      reads this, spine
    {
      && (forall i :: 0 <= i < |spine| - 1 ==> spine[i].next == spine[i + 1])
      && (spine != [] ==> spine[|spine| - 1].next == null)
      && (forall i, j :: 0 <= i < j < |spine| ==> spine[i] != spine[j])
      && first == (if spine == [] then null else spine[0])
      && last == (if spine == [] then null else spine[|spine| - 1])
    }

    ghost function Contents(): (c: seq<Packet>)
      reads this, spine
      ensures |c| == |spine| && forall i :: 0 <= i < |spine| ==> c[i] == spine[i].pkt
    {
      Packets(spine)
    }

    ghost predicate Valid()
      reads this, spine
    {
      Linked() && nbPackets == |spine| && size == Sum(Sizes(Contents()))
    }

    // packet_queue_init
    constructor ()
      ensures Valid() && Contents() == [] && !abortRequest && fresh(spine)
    {
      first, last, nbPackets, size, abortRequest := null, null, 0, 0, false;
      spine := [];
      new;
      assert Sizes(Contents()) == [];
    }

    // packet_queue_flush
    method Flush()
      requires Valid()
      modifies this
      ensures Valid() && Contents() == [] && abortRequest == old(abortRequest) && spine == []
    {
      var pkt := first;
      ghost var i := 0;
      while pkt != null
        invariant 0 <= i <= |spine| && spine == old(spine) && first == old(first) && last == old(last)
        invariant pkt == if i < |spine| then spine[i] else null
        decreases |spine| - i
      {
        var pkt1 := pkt.next;
        pkt := pkt1;
        i := i + 1;
      }
      last := null;
      first := null;
      nbPackets := 0;
      size := 0;
      spine := [];
      assert Sizes(Contents()) == [];
    }

    // Makes a node the last of the list.
    method Link(pkt1: Node)
      requires Linked() && pkt1.next == null && pkt1 !in spine
      modifies this`first, this`last, this`spine, last
      ensures Linked() && spine == old(spine) + [pkt1] && Contents() == old(Contents()) + [pkt1.pkt]
      ensures pkt1.pkt == old(pkt1.pkt)
    {
      if last == null {
        first := pkt1;
      } else {
        last.next := pkt1;
      }
      last := pkt1;
      spine := spine + [pkt1];
    }

    // Takes a packet of a given size into the counts.
    method Count(n: nat)
      modifies this`nbPackets, this`size
      ensures nbPackets == old(nbPackets) + 1 && size == old(size) + n
    {
      nbPackets := nbPackets + 1;
      size := size + n;
    }

    // packet_queue_put; it may fail for want of memory.
    method Put(pkt: Packet, memory: bool) returns (ok: bool)
      requires Valid()
      modifies this, last
      ensures Valid() && ok == memory && abortRequest == old(abortRequest)
      ensures Contents() == if ok then old(Contents()) + [pkt] else old(Contents())
      ensures forall n :: n in spine ==> n in old(spine) || fresh(n)
    {
      ok := memory;
      if memory {
        var pkt1 := new Node(pkt);
        SizesAppend(Contents(), pkt);
        Link(pkt1);
        assert Linked() && nbPackets == |spine| - 1;
        Count(SizeOf(pkt));
      }
    }

    // packet_queue_abort
    method Abort()
      requires Valid()
      modifies this`abortRequest
      ensures Valid() && abortRequest && Contents() == old(Contents())
    {
      abortRequest := true;
    }

    // One turn of packet_queue_get.
    method Get(block: bool) returns (r: Outcome)
      requires Valid()
      modifies this
      ensures Valid() && abortRequest == old(abortRequest)
      ensures abortRequest ==> r == Aborted
      ensures !abortRequest && old(Contents()) == [] ==> r == if block then Waits else NoPacket
      ensures !abortRequest && old(Contents()) != [] ==> r == Got(old(Contents())[0])
      ensures Contents() == if r.Got? then old(Contents())[1..] else old(Contents())
      ensures forall n :: n in spine ==> n in old(spine)
    {
      if abortRequest {
        return Aborted;
      }
      var pkt1 := first;
      if pkt1 != null {
        ghost var was := Contents();
        first := pkt1.next;
        if first == null {
          last := null;
        }
        nbPackets := nbPackets - 1;
        size := size - SizeOf(pkt1.pkt);
        spine := spine[1..];
        assert Contents() == was[1..];
        SizesFirst(was);
        r := Got(pkt1.pkt);
      } else if !block {
        r := NoPacket;
      } else {
        r := Waits;
      }
    }
  }

  ghost function Packets(spine: seq<Node>): (c: seq<Packet>)
    reads spine
    ensures |c| == |spine| && forall i :: 0 <= i < |spine| ==> c[i] == spine[i].pkt
  {
    if spine == [] then [] else Packets(spine[..|spine| - 1]) + [spine[|spine| - 1].pkt]
  }

  lemma SizesAppend(packets: seq<Packet>, p: Packet)
    ensures Sum(Sizes(packets + [p])) == Sum(Sizes(packets)) + SizeOf(p)
  {
    assert Sizes(packets + [p]) == Sizes(packets) + [SizeOf(p)];
    SumAppend(Sizes(packets), SizeOf(p));
  }

  lemma SizesFirst(packets: seq<Packet>)
    requires packets != []
    ensures Sum(Sizes(packets)) == SizeOf(packets[0]) + Sum(Sizes(packets[1..]))
  {
    assert Sizes(packets) == [SizeOf(packets[0])] + Sizes(packets[1..]);
    SumConcat([SizeOf(packets[0])], Sizes(packets[1..]));
    SumAppend([], SizeOf(packets[0]));
    assert [] + [SizeOf(packets[0])] == [SizeOf(packets[0])];
  }
}
