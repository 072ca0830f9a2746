/**
 * FlowBender (src/internet/model/tcp-flow-bender.cc): a TCP sender counts acknowledged and
 * ECN-echo-marked bytes over each round trip. Once per round trip (when an ACK reaches the high
 * transmit mark recorded at the previous check) it computes the marked fraction; after N
 * consecutive round trips with a fraction above T it bumps V, the value mixed into the flow's
 * hash so that the flow moves to another path.
 */
module FlowBender {
  import opened Words

  /** Defaults of the T and N attributes. */
  const DEFAULT_T: real := 0.05
  const DEFAULT_N: nat := 1

  /** GetPauseTime: MicroSeconds(80), in nanoseconds. */
  const PAUSE_TIME: int := 80_000

  /** The counters the sender updates on every ACK. */
  datatype Counters = Counters(totalBytes: nat, markedBytes: nat, numCongestionRtt: nat, v: nat, highTxMark: nat)

  /** The counters a fresh sender starts with (the copy constructor too): V is 1. */
  const INITIAL: Counters := Counters(0, 0, 0, 1, 0)

  /**
   * The round trip was congested: marked / total exceeds T. With nothing acknowledged the
   * source computes 0 / 0, a NaN, which compares false, so such a round trip is not congested.
   */
  predicate Congested(marked: nat, total: nat, t: real)
  {
    total > 0 && (marked as real) / (total as real) > t
  }

  /** The state after CheckCongestion: count the congested round trip or reset the run; clear the byte counters. */
  function AfterCheck(c: Counters, t: real, n: nat): (c': Counters)
    ensures c'.totalBytes == 0 && c'.markedBytes == 0 && c'.highTxMark == c.highTxMark
    ensures c.v <= c'.v <= c.v + 1
    ensures c'.v == c.v + 1 <==> Congested(c.markedBytes, c.totalBytes, t) && c.numCongestionRtt + 1 >= n
    ensures !Congested(c.markedBytes, c.totalBytes, t) ==> c'.numCongestionRtt == 0
    ensures n >= 1 && c.numCongestionRtt < n ==> c'.numCongestionRtt < n
  {
    var c1 := c.(markedBytes := 0, totalBytes := 0);
    if Congested(c.markedBytes, c.totalBytes, t) then
      var rtt := c.numCongestionRtt + 1;
      if rtt >= n then c1.(numCongestionRtt := 0, v := c.v + 1)
      else c1.(numCongestionRtt := rtt)
    else c1.(numCongestionRtt := 0)
  }

  /** The state after ReceivedPacket: add the acknowledged bytes (to the marked ones too under ECE), then check once per round trip. */
  function AfterAck(c: Counters, highTxMark: nat, ackNumber: nat, ackedBytes: nat, withEce: bool,
                          t: real, n: nat): (c': Counters)
    ensures c.markedBytes <= c.totalBytes ==> c'.markedBytes <= c'.totalBytes
    ensures ackNumber < c.highTxMark ==>
      c' == c.(totalBytes := c.totalBytes + ackedBytes,
               markedBytes := c.markedBytes + if withEce then ackedBytes else 0)
    ensures ackNumber >= c.highTxMark ==> c'.highTxMark == highTxMark && c'.totalBytes == 0
  {
    var c1 := c.(totalBytes := c.totalBytes + ackedBytes,
                 markedBytes := c.markedBytes + if withEce then ackedBytes else 0);
    if ackNumber >= c.highTxMark then AfterCheck(c1.(highTxMark := highTxMark), t, n)
    else c1
  }

  /** The counters after a series of checks, the i-th seeing rtts[i] as its (marked, total) bytes. */
  function Checks(c: Counters, rtts: seq<(nat, nat)>, t: real, n: nat): Counters
    decreases |rtts|
  {
    if rtts == [] then c
    else Checks(AfterCheck(c.(markedBytes := rtts[0].0, totalBytes := rtts[0].1), t, n), rtts[1..], t, n)
  }

  /**
   * A run of congested round trips that completes N in a row bumps V by exactly one and restarts
   * the count; a run that stops short leaves V alone and remembers how far it got.
   */
  lemma {:induction false} CongestedRun(c: Counters, rtts: seq<(nat, nat)>, t: real, n: nat)
    requires n >= 1 && c.numCongestionRtt + |rtts| <= n
    requires forall i :: 0 <= i < |rtts| ==> Congested(rtts[i].0, rtts[i].1, t)
    ensures var c' := Checks(c, rtts, t, n);
      if c.numCongestionRtt + |rtts| == n && rtts != []
      then c'.v == c.v + 1 && c'.numCongestionRtt == 0
      else c'.v == c.v && c'.numCongestionRtt == c.numCongestionRtt + |rtts|
    decreases |rtts|
  {
    if rtts != [] {
      var c1 := AfterCheck(c.(markedBytes := rtts[0].0, totalBytes := rtts[0].1), t, n);
      if c.numCongestionRtt + 1 == n {
        assert |rtts| == 1 && rtts[1..] == [];
      } else {
        assert c1.numCongestionRtt == c.numCongestionRtt + 1 && c1.v == c.v;
        CongestedRun(c1, rtts[1..], t, n);
      }
    }
  }

  /** V never goes down, and k round-trip checks raise it by at most k. */
  lemma {:induction false} VBounded(c: Counters, rtts: seq<(nat, nat)>, t: real, n: nat)
    ensures c.v <= Checks(c, rtts, t, n).v <= c.v + |rtts|
    decreases |rtts|
  {
    if rtts != [] {
      var c1 := AfterCheck(c.(markedBytes := rtts[0].0, totalBytes := rtts[0].1), t, n);
      VBounded(c1, rtts[1..], t, n);
    }
  }

  class TcpFlowBender {
    var totalBytes: nat
    var markedBytes: nat
    var numCongestionRtt: nat
    var v: nat
    var highTxMark: nat
    var t: real
    var n: nat

    function State(): Counters
      reads this
    {
      Counters(totalBytes, markedBytes, numCongestionRtt, v, highTxMark)
    }

    /** Marked bytes are part of the acknowledged bytes. */
    predicate Valid()
      reads this
    {
      markedBytes <= totalBytes
    }

    constructor ()
      ensures Valid() && State() == INITIAL && t == DEFAULT_T && n == DEFAULT_N
    {
      totalBytes, markedBytes, numCongestionRtt, v, highTxMark := 0, 0, 0, 1, 0;
      t, n := DEFAULT_T, DEFAULT_N;
    }

    /** The copy constructor keeps T and N and restarts every counter. */
    constructor Copy(other: TcpFlowBender)
      ensures Valid() && State() == INITIAL && t == other.t && n == other.n
    {
      totalBytes, markedBytes, numCongestionRtt, v, highTxMark := 0, 0, 0, 1, 0;
      t, n := other.t, other.n;
    }

    method ReceivedPacket(highTxMark': nat, ackNumber: nat, ackedBytes: nat, withEce: bool)
      requires Valid()
      modifies this
      ensures Valid() && t == old(t) && n == old(n)
      ensures State() == AfterAck(old(State()), highTxMark', ackNumber, ackedBytes, withEce, t, n)
    {
      totalBytes := totalBytes + ackedBytes;
      if withEce {
        markedBytes := markedBytes + ackedBytes;
      }
      if ackNumber >= highTxMark {
        highTxMark := highTxMark';
        CheckCongestion();
      }
    }

    method CheckCongestion()
      modifies this
      ensures Valid() && t == old(t) && n == old(n)
      ensures State() == AfterCheck(old(State()), t, n)
    {
      if Congested(markedBytes, totalBytes, t) {
        numCongestionRtt := numCongestionRtt + 1;
        if numCongestionRtt >= n {
          numCongestionRtt := 0;
          v := v + 1;
        }
      } else {
        numCongestionRtt := 0;
      }
      markedBytes := 0;
      totalBytes := 0;
    }

    function GetV(): nat
      reads this
    {
      v
    }
  }
}
