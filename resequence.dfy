/**
 * TcpResequenceBuffer (src/internet/model/tcp-resequence-buffer.cc): a receiver-side buffer that
 * holds TCP segments arriving out of order (as packet spraying makes them do) and hands them up
 * to TCP in sequence. Segments that continue the expected sequence join an in-order queue; later
 * ones wait in a min-heap on their sequence number and join the in-order queue once the gap
 * before them closes; retransmissions flush everything queued so far.
 *
 * Sequence numbers are unbounded naturals here (SequenceNumber32 wrap-around is not modelled),
 * and handing a segment up to TCP (the m_tcpForwardUp callback) appends it to a `forwarded` list.
 */
module Resequence {
  import opened Wrappers
  import opened Words

  /** m_sizeLimit as the constructor sets it: 64000 bytes of in-order data. */
  const SIZE_LIMIT: nat := 64000

  /** TcpHeader flag bits. */
  const FIN: u8 := 0x01
  const SYN: u8 := 0x02

  /**
   * TcpResequenceBufferElement: the segment's sequence number, its SYN and FIN flags, its payload
   * size in bytes and the packet itself (an identifier; its addresses travel with it unchanged).
   */
  datatype Element = Element(seqNo: nat, isSyn: bool, isFin: bool, dataSize: nat, packet: nat)

  /** What BufferPacket reads from a packet whose TCP header could be peeked. */
  datatype Segment = Segment(seqNo: u32, flags: u8, headerLength: u8, packetSize: u32, packet: nat)

  /** Bit b of a flags byte. */
  function HasFlag(flags: u8, bit: u8): bool
    requires bit == FIN || bit == SYN
  {
    (flags / bit) % 2 == 1
  }

  /**
   * The element BufferPacket builds: the payload is the packet size less the header length in
   * 32-bit words, as a uint32 (so it wraps when the header claims more than the packet holds).
   */
  function ElementOf(s: Segment): (e: Element)
    ensures e.seqNo == s.seqNo && e.packet == s.packet
    ensures e.isSyn <==> HasFlag(s.flags, SYN)
    ensures e.isFin <==> HasFlag(s.flags, FIN)
    ensures e.dataSize < U32_LIMIT
    ensures 4 * s.headerLength <= s.packetSize ==> e.dataSize + 4 * s.headerLength == s.packetSize
  {
    Element(s.seqNo, HasFlag(s.flags, SYN), HasFlag(s.flags, FIN),
            (s.packetSize - 4 * s.headerLength) % U32_LIMIT, s.packet)
  }

  /** CalculateNextSeq: the sequence number after the segment; SYN and FIN each count as one. */
  function NextSeq(e: Element): (n: nat)
  {
    e.seqNo + e.dataSize + (if e.isSyn || e.isFin then 1 else 0)
  }

  lemma NextSeqBounds(e: Element)
    ensures e.seqNo + e.dataSize <= NextSeq(e) <= e.seqNo + e.dataSize + 1
    ensures NextSeq(e) == e.seqNo + e.dataSize <==> !e.isSyn && !e.isFin
  {
  }

  function Last<T>(s: seq<T>): T
    requires s != []
  {
    s[|s| - 1]
  }

  /** Total payload of a list of elements. */
  function TotalSize(q: seq<Element>): nat
  {
    if q == [] then 0 else TotalSize(q[..|q| - 1]) + Last(q).dataSize
  }

  /** Elements ordered by sequence number, smallest first: the order the heap yields them in. */
  predicate Ascending(q: seq<Element>)
  {
    forall i, j :: 0 <= i < j < |q| ==> q[i].seqNo <= q[j].seqNo
  }

  /**
   * std::priority_queue::push on the min-heap, as a list in the order the heap yields: the
   * element goes after every element whose sequence number is not larger than its own.
   * std::priority_queue leaves the order among equal sequence numbers unspecified; first in,
   * first out among them is this model's choice.
   */
  function Insert(q: seq<Element>, e: Element): (r: seq<Element>)
    ensures multiset(r) == multiset(q) + multiset{e}
  {
    if q == [] then [e]
    else if e.seqNo < q[0].seqNo then [e] + q
    else
      assert q == [q[0]] + q[1..];
      [q[0]] + Insert(q[1..], e)
  }

  /** Pushing keeps the heap's order. */
  lemma {:induction false} InsertAscending(q: seq<Element>, e: Element)
    requires Ascending(q)
    ensures Ascending(Insert(q, e))
  {
    if q != [] && e.seqNo >= q[0].seqNo {
      var rest := Insert(q[1..], e);
      InsertAscending(q[1..], e);
      forall x | x in rest
        ensures q[0].seqNo <= x.seqNo
      {
        assert x in multiset(rest);
      }
      assert Insert(q, e) == [q[0]] + rest;
    }
  }

  /** The whole state of a buffer, and what it has handed up so far. */
  datatype Buffer = Buffer(
    size: nat,
    firstSeq: nat,
    nextSeq: nat,
    inOrder: seq<Element>,
    outOrder: seq<Element>,
    forwarded: seq<Element>)

  /** A new buffer: nothing queued, both sequence numbers 0. */
  const EMPTY: Buffer := Buffer(0, 0, 0, [], [], [])

  /**
   * The in-order queue is a run of consecutive segments: each starts where the one before it
   * ends, except after a segment ending at 0 (the first-packet rule accepts anything after it),
   * and nextSeq is where the last one ends. size is the run's payload, and the heap is in order.
   */
  predicate Valid(b: Buffer)
  {
    && (forall k :: 0 < k < |b.inOrder| ==>
          NextSeq(b.inOrder[k - 1]) == 0 || b.inOrder[k].seqNo == NextSeq(b.inOrder[k - 1]))
    && (b.inOrder != [] ==> b.nextSeq == NextSeq(Last(b.inOrder)))
    && b.size == TotalSize(b.inOrder)
    && Ascending(b.outOrder)
  }

  /** PutInTheInOrderQueue accepts the first packet ever (nextSeq 0) or the expected one. */
  predicate Fits(b: Buffer, e: Element)
  {
    b.nextSeq == 0 || b.nextSeq == e.seqNo
  }

  /** PutInTheInOrderQueue on an element it accepts. */
  function Put(b: Buffer, e: Element): (r: Buffer)
    requires Fits(b, e)
    ensures r.inOrder == b.inOrder + [e] && r.outOrder == b.outOrder && r.forwarded == b.forwarded
    ensures r.nextSeq == NextSeq(e)
    ensures r.firstSeq == if NextSeq(e) == 0 then e.seqNo else b.firstSeq
  {
    Buffer(b.size + e.dataSize, if NextSeq(e) == 0 then e.seqNo else b.firstSeq, NextSeq(e),
           b.inOrder + [e], b.outOrder, b.forwarded)
  }

  /** The heap's smallest elements move to the in-order queue while they fit. */
  function Drain(b: Buffer): Buffer
    decreases |b.outOrder|
  {
    if b.outOrder != [] && Fits(b, b.outOrder[0]) then
      Drain(Put(b, b.outOrder[0]).(outOrder := b.outOrder[1..]))
    else b
  }

  /** FlushInOrderQueue: every queued element is handed up, in queue order. */
  function FlushIn(b: Buffer): Buffer
  {
    b.(forwarded := b.forwarded + b.inOrder, inOrder := [], size := 0)
  }

  /** FlushOutOrderQueue: every heap element is handed up, smallest sequence number first. */
  function FlushOut(b: Buffer): Buffer
  {
    b.(forwarded := b.forwarded + b.outOrder, outOrder := [])
  }

  /** A segment inside the span already buffered in order: BufferPacket ignores it. */
  predicate Duplicate(b: Buffer, e: Element)
  {
    b.firstSeq <= e.seqNo < b.nextSeq
  }

  /** BufferPacket on an element: the four cases of the source, in its order. */
  function Step(b: Buffer, e: Element): Buffer
  {
    if e.seqNo < b.firstSeq then
      var flushed := FlushIn(b);
      var next := if NextSeq(e) != b.firstSeq then NextSeq(e) else b.nextSeq;
      flushed.(nextSeq := next, forwarded := flushed.forwarded + [e], firstSeq := next)
    else if Duplicate(b, e) then b
    else if Fits(b, e) then
      var drained := Drain(Put(b, e));
      if drained.size >= SIZE_LIMIT then FlushIn(drained).(firstSeq := drained.nextSeq) else drained
    else b.(outOrder := Insert(b.outOrder, e))
  }

  /** BufferPacket on a packet: one whose TCP header cannot be peeked is ignored. */
  function Receive(b: Buffer, s: Option<Segment>): Buffer
  {
    match s
    case None => b
    case Some(segment) => Step(b, ElementOf(segment))
  }

  /** The elements a buffer holds or has handed up. */
  function Seen(b: Buffer): multiset<Element>
  {
    multiset(b.forwarded) + multiset(b.inOrder) + multiset(b.outOrder)
  }

  lemma {:induction false} TotalSizeAppend(q: seq<Element>, e: Element)
    ensures TotalSize(q + [e]) == TotalSize(q) + e.dataSize
  {
    assert (q + [e])[..|q|] == q;
  }

  lemma PutValid(b: Buffer, e: Element)
    requires Valid(b) && Fits(b, e)
    ensures Valid(Put(b, e))
  {
    TotalSizeAppend(b.inOrder, e);
    var q := b.inOrder + [e];
    if b.inOrder != [] {
      assert q[|q| - 2] == Last(b.inOrder);
    }
  }

  /** Moving one element from the heap's front keeps the heap in order. */
  lemma AscendingTail(q: seq<Element>)
    requires Ascending(q) && q != []
    ensures Ascending(q[1..])
  {
  }

  /** How many heap elements Drain moves. */
  function Moved(b: Buffer): (k: nat)
    ensures k <= |b.outOrder|
    decreases |b.outOrder|
  {
    if b.outOrder != [] && Fits(b, b.outOrder[0]) then
      1 + Moved(Put(b, b.outOrder[0]).(outOrder := b.outOrder[1..]))
    else 0
  }

  /**
   * Draining moves a prefix of the heap to the back of the in-order queue, forwards nothing,
   * and stops at the first element that does not fit.
   */
  lemma {:induction false} DrainShape(b: Buffer)
    ensures Drain(b).inOrder == b.inOrder + b.outOrder[..Moved(b)]
    ensures Drain(b).outOrder == b.outOrder[Moved(b)..]
    ensures Drain(b).forwarded == b.forwarded
    ensures Drain(b).outOrder == [] || !Fits(Drain(b), Drain(b).outOrder[0])
    decreases |b.outOrder|
  {
    if b.outOrder != [] && Fits(b, b.outOrder[0]) {
      var e := b.outOrder[0];
      var next := Put(b, e).(outOrder := b.outOrder[1..]);
      DrainShape(next);
      var k := Moved(next);
      assert b.outOrder[..k + 1] == [e] + next.outOrder[..k];
      assert b.outOrder[k + 1..] == next.outOrder[k..];
    } else {
      assert b.outOrder[..0] == [] && b.outOrder[0..] == b.outOrder;
      assert b.inOrder + [] == b.inOrder;
    }
  }

  /** Draining keeps the buffer well formed. */
  lemma {:induction false} DrainValid(b: Buffer)
    requires Valid(b)
    ensures Valid(Drain(b))
    decreases |b.outOrder|
  {
    if b.outOrder != [] && Fits(b, b.outOrder[0]) {
      PutValid(b, b.outOrder[0]);
      AscendingTail(b.outOrder);
      DrainValid(Put(b, b.outOrder[0]).(outOrder := b.outOrder[1..]));
    }
  }

  /** Draining loses nothing. */
  lemma DrainSeen(b: Buffer)
    ensures Seen(Drain(b)) == Seen(b)
  {
    DrainShape(b);
    var k := Moved(b);
    assert b.outOrder == b.outOrder[..k] + b.outOrder[k..];
  }

  /** Every BufferPacket keeps the buffer well formed. */
  lemma StepValid(b: Buffer, e: Element)
    requires Valid(b)
    ensures Valid(Step(b, e))
  {
    if e.seqNo < b.firstSeq {
    } else if Duplicate(b, e) {
    } else if Fits(b, e) {
      PutValid(b, e);
      DrainValid(Put(b, e));
    } else {
      InsertAscending(b.outOrder, e);
    }
  }

  /**
   * Nothing is lost and nothing is made up: after BufferPacket the buffer holds or has handed up
   * exactly what it held or had handed up before, plus the new segment unless it was ignored as a
   * duplicate.
   */
  lemma StepConserves(b: Buffer, e: Element)
    ensures Duplicate(b, e) && !(e.seqNo < b.firstSeq) ==> Step(b, e) == b
    ensures !Duplicate(b, e) || e.seqNo < b.firstSeq ==> Seen(Step(b, e)) == Seen(b) + multiset{e}
  {
    if e.seqNo < b.firstSeq {
      RetransmissionSeen(b, e);
    } else if Duplicate(b, e) {
    } else if Fits(b, e) {
      ArrivalSeen(b, e);
    } else {
      assert Step(b, e) == b.(outOrder := Insert(b.outOrder, e));
    }
  }

  lemma RetransmissionSeen(b: Buffer, e: Element)
    requires e.seqNo < b.firstSeq
    ensures Seen(Step(b, e)) == Seen(b) + multiset{e}
  {
    var r := Step(b, e);
    assert r.forwarded == b.forwarded + b.inOrder + [e] && r.inOrder == [] && r.outOrder == b.outOrder;
  }

  lemma ArrivalSeen(b: Buffer, e: Element)
    requires !(e.seqNo < b.firstSeq) && !Duplicate(b, e) && Fits(b, e)
    ensures Seen(Step(b, e)) == Seen(b) + multiset{e}
  {
    var put := Put(b, e);
    var drained := Drain(put);
    DrainSeen(put);
    assert Seen(put) == Seen(b) + multiset{e};
    assert Seen(FlushIn(drained)) == Seen(drained);
    assert Seen(FlushIn(drained).(firstSeq := drained.nextSeq)) == Seen(drained);
  }

  /**
   * A retransmission (below firstSeq) flushes the in-order queue and then hands the segment up
   * behind it; nextSeq moves to the segment's end unless that end is firstSeq, and afterwards
   * firstSeq and nextSeq agree.
   */
  lemma Retransmission(b: Buffer, e: Element)
    requires e.seqNo < b.firstSeq
    ensures Step(b, e).forwarded == b.forwarded + b.inOrder + [e]
    ensures Step(b, e).inOrder == [] && Step(b, e).size == 0 && Step(b, e).outOrder == b.outOrder
    ensures Step(b, e).nextSeq == (if NextSeq(e) != b.firstSeq then NextSeq(e) else b.nextSeq)
    ensures Step(b, e).firstSeq == Step(b, e).nextSeq
  {
  }

  /**
   * An expected segment joins the in-order queue, followed by the heap elements that then fit;
   * if the queue reaches the size limit it is handed up whole and firstSeq catches up with
   * nextSeq. The heap keeps the elements that did not fit, in order.
   */
  lemma InOrderArrival(b: Buffer, e: Element)
    requires Valid(b) && !(e.seqNo < b.firstSeq) && !Duplicate(b, e) && Fits(b, e)
    ensures var k := Moved(Put(b, e)); var r := Step(b, e);
      && r.outOrder == b.outOrder[k..]
      && (Drain(Put(b, e)).size >= SIZE_LIMIT ==>
            r.inOrder == [] && r.forwarded == b.forwarded + b.inOrder + [e] + b.outOrder[..k]
            && r.firstSeq == r.nextSeq && r.size == 0)
      && (Drain(Put(b, e)).size < SIZE_LIMIT ==>
            r.inOrder == b.inOrder + [e] + b.outOrder[..k] && r.forwarded == b.forwarded)
    ensures Step(b, e).outOrder == [] || !Fits(Step(b, e), Step(b, e).outOrder[0])
  {
    DrainShape(Put(b, e));
  }

  /** A segment beyond the expected one waits in the heap, which stays in order. */
  lemma EarlyArrival(b: Buffer, e: Element)
    requires Valid(b) && !(e.seqNo < b.firstSeq) && !Duplicate(b, e) && !Fits(b, e)
    ensures e.seqNo > b.nextSeq
    ensures Step(b, e) == b.(outOrder := Insert(b.outOrder, e))
    ensures Ascending(Step(b, e).outOrder)
  {
    InsertAscending(b.outOrder, e);
  }

  /** FlushOutOrderQueue hands the heap up in ascending sequence order. */
  lemma FlushOutAscending(b: Buffer)
    requires Valid(b)
    ensures FlushOut(b).forwarded[|b.forwarded|..] == b.outOrder
    ensures Ascending(FlushOut(b).forwarded[|b.forwarded|..])
    ensures Seen(FlushOut(b)) == Seen(b) && Valid(FlushOut(b))
  {
    assert FlushOut(b).forwarded[|b.forwarded|..] == b.outOrder;
  }

  class TcpResequenceBuffer {
    var size: nat
    var firstSeq: nat
    var nextSeq: nat
    /** m_inOrderQueue, front first. */
    var inOrderQueue: seq<Element>
    /** m_outOrderQueue, in the order the min-heap yields its elements. */
    var outOrderQueue: seq<Element>
    /** What m_tcpForwardUp has been handed, oldest first. */
    var forwarded: seq<Element>

    function State(): Buffer
      reads this
    {
      Buffer(size, firstSeq, nextSeq, inOrderQueue, outOrderQueue, forwarded)
    }

    /** The constructor: nothing queued, both sequence numbers 0; the timers are not modelled. */
    constructor ()
      ensures State() == EMPTY && Valid(State())
    {
      size := 0;
      firstSeq := 0;
      nextSeq := 0;
      inOrderQueue := [];
      outOrderQueue := [];
      forwarded := [];
    }

    /** FlushOneElement: hands one element up to TCP. */
    method FlushOneElement(e: Element)
      modifies this`forwarded
      ensures forwarded == old(forwarded) + [e]
    {
      forwarded := forwarded + [e];
    }

    /**
     * PutInTheInOrderQueue: appends the element when it is the first packet or the expected
     * one, and reports whether it did; otherwise nothing changes.
     */
    method PutInTheInOrderQueue(e: Element) returns (ok: bool)
      modifies this
      ensures ok == Fits(old(State()), e)
      ensures State() == if ok then Put(old(State()), e) else old(State())
    {
      if nextSeq == 0 || nextSeq == e.seqNo {
        inOrderQueue := inOrderQueue + [e];
        size := size + e.dataSize;
        nextSeq := NextSeq(e);
        if nextSeq == 0 {
          firstSeq := e.seqNo;
        }
        return true;
      } else {
        return false;
      }
    }

    /** FlushInOrderQueue: hands up the in-order queue front to back, then empties it. */
    method FlushInOrderQueue()
      modifies this
      ensures State() == FlushIn(old(State()))
    {
      var i := 0;
      while i < |inOrderQueue|
        invariant 0 <= i <= |inOrderQueue|
        invariant forwarded == old(forwarded) + inOrderQueue[..i]
        invariant inOrderQueue == old(inOrderQueue) && size == old(size)
        invariant firstSeq == old(firstSeq) && nextSeq == old(nextSeq) && outOrderQueue == old(outOrderQueue)
      {
        FlushOneElement(inOrderQueue[i]);
        assert inOrderQueue[..i + 1] == inOrderQueue[..i] + [inOrderQueue[i]];
        i := i + 1;
      }
      assert inOrderQueue[..i] == inOrderQueue;
      inOrderQueue := [];
      size := 0;
    }

    /** FlushOutOrderQueue: hands up the heap's elements, smallest first, until it is empty. */
    method FlushOutOrderQueue()
      modifies this
      ensures State() == FlushOut(old(State()))
    {
      while outOrderQueue != []
        invariant forwarded + outOrderQueue == old(forwarded) + old(outOrderQueue)
        invariant inOrderQueue == old(inOrderQueue) && size == old(size)
        invariant firstSeq == old(firstSeq) && nextSeq == old(nextSeq)
        decreases |outOrderQueue|
      {
        FlushOneElement(outOrderQueue[0]);
        assert outOrderQueue == [outOrderQueue[0]] + outOrderQueue[1..];
        outOrderQueue := outOrderQueue[1..];
      }
    }

    /** BufferPacket on an element whose header has been read. */
    method BufferElement(e: Element)
      modifies this
      ensures State() == Step(old(State()), e)
    {
      if e.seqNo < firstSeq {
        FlushInOrderQueue();
        if NextSeq(e) != firstSeq {
          nextSeq := NextSeq(e);
        }
        FlushOneElement(e);
        firstSeq := nextSeq;
      } else if firstSeq <= e.seqNo && e.seqNo < nextSeq {
      } else {
        var ok := PutInTheInOrderQueue(e);
        if ok {
          ghost var target := Drain(State());
          while outOrderQueue != []
            invariant Drain(State()) == target
            decreases |outOrderQueue|
          {
            var fits := PutInTheInOrderQueue(outOrderQueue[0]);
            if fits {
              outOrderQueue := outOrderQueue[1..];
            } else {
              break;
            }
          }
          if size >= SIZE_LIMIT {
            FlushInOrderQueue();
            firstSeq := nextSeq;
          }
        } else {
          outOrderQueue := Insert(outOrderQueue, e);
        }
      }
    }

    /**
     * BufferPacket: a packet whose TCP header cannot be peeked is dropped with an error log;
     * any other is buffered as its element.
     */
    method BufferPacket(s: Option<Segment>)
      modifies this
      ensures State() == Receive(old(State()), s)
    {
      if s.Some? {
        BufferElement(ElementOf(s.value));
      }
    }
  }
}
