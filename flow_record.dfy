/**
 * The per-flow part of the flow-monitor parsers (examples/load-balance/fail-debug-parser.py and
 * examples/load-balance/flowmon-parse-results.py, which share it line for line): reading a
 * time attribute, the five-tuple a flow is keyed by, and the metrics derived from a FlowStats
 * record, each absent (None) when its denominator is not positive.
 */
module FlowRecord {
  import opened Wrappers

  /** The Python exceptions the parsers can raise. */
  datatype Failure =
    | ValueError      // a malformed number, or a tuple unpacking of the wrong length
    | KeyError        // a flow id or protocol missing from a dict
    | AttributeError  // a flow that never received its five-tuple
    | TypeError       // arithmetic on None
    | ZeroDivisionError

  // ---------------------------------------------------------------- numbers

  predicate IsDigit(c: char)
  {
    '0' <= c <= '9'
  }

  predicate AllDigits(s: string)
  {
    forall i :: 0 <= i < |s| ==> IsDigit(s[i])
  }

  /** The value of a string of decimal digits. */
  function DigitsValue(s: string): nat
    requires AllDigits(s)
  {
    if s == [] then 0
    else DigitsValue(s[..|s| - 1]) * 10 + (s[|s| - 1] as int - '0' as int)
  }

  /**
   * long(s) on its strict form: an optional sign, then one or more digits. Python 2's long()
   * also accepts surrounding blanks and a trailing L or l; those forms are errors here.
   */
  function ParseInt(s: string): Option<int>
  {
    if |s| > 1 && (s[0] == '-' || s[0] == '+') && AllDigits(s[1..]) then
      var magnitude: int := DigitsValue(s[1..]);
      Some(if s[0] == '-' then -magnitude else magnitude)
    else if |s| > 0 && AllDigits(s) then Some(DigitsValue(s))
    else None
  }

  /** The decimal digits of n, without leading zeros. */
  function ShowNat(n: nat): (s: string)
    ensures |s| > 0 && AllDigits(s)
  {
    if n < 10 then [('0' as int + n) as char]
    else ShowNat(n / 10) + [('0' as int + n % 10) as char]
  }

  /** str(n) for an integer. */
  function Show(n: int): string
  {
    if n < 0 then "-" + ShowNat(-n) else ShowNat(n)
  }

  lemma {:induction false} ShowNatValue(n: nat)
    ensures DigitsValue(ShowNat(n)) == n
    decreases n
  {
    if n >= 10 {
      ShowNatValue(n / 10);
      var s := ShowNat(n);
      assert s[..|s| - 1] == ShowNat(n / 10);
    }
  }

  /** long() reads back what str() writes. */
  lemma ParseShow(n: int)
    ensures ParseInt(Show(n)) == Some(n)
  {
    if n < 0 {
      ShowNatValue(-n);
      assert Show(n)[1..] == ShowNat(-n);
    } else {
      ShowNatValue(n);
    }
  }

  // ---------------------------------------------------------------- parse_time_ns

  predicate EndsWithNs(tm: string)
  {
    |tm| >= 2 && tm[|tm| - 2..] == "ns"
  }

  /** tm[:-4]: the string without its last four characters (empty when it is shorter). */
  function DropLast4(tm: string): (s: string)
    ensures |tm| >= 4 ==> s == tm[..|tm| - 4]
    ensures |tm| < 4 ==> s == ""
  {
    if |tm| >= 4 then tm[..|tm| - 4] else ""
  }

  /**
   * parse_time_ns: ValueError unless tm ends in "ns"; otherwise the integer written by all but
   * the last four characters (the "ns" and the ".0" that ns-3 prints before it).
   */
  function ParseTimeNs(tm: string): (r: Result<int, Failure>)
    ensures !EndsWithNs(tm) ==> r == Err(ValueError)
    ensures r.Ok? <==> EndsWithNs(tm) && ParseInt(DropLast4(tm)).Some?
  {
    if !EndsWithNs(tm) then Err(ValueError)
    else
      match ParseInt(DropLast4(tm))
      case None => Err(ValueError)
      case Some(v) => Ok(v)
  }

  /** A time as ns-3 writes it, "+1500.0ns" or "-3.0ns", reads back as its count of nanoseconds. */
  lemma ParseTimeRoundTrip(n: int)
    ensures ParseTimeNs(Show(n) + ".0ns") == Ok(n)
    ensures n >= 0 ==> ParseTimeNs("+" + Show(n) + ".0ns") == Ok(n)
  {
    var tm := Show(n) + ".0ns";
    assert tm[|tm| - 2..] == "ns";
    assert DropLast4(tm) == Show(n);
    ParseShow(n);
    if n >= 0 {
      var tm' := "+" + Show(n) + ".0ns";
      assert tm'[|tm'| - 2..] == "ns";
      assert DropLast4(tm') == "+" + ShowNat(n);
      assert ("+" + ShowNat(n))[1..] == ShowNat(n);
      ShowNatValue(n);
    }
  }

  /** A time without the ".0" loses two digits: "1500ns" reads as 15. */
  lemma ShortTimeLosesDigits()
    ensures ParseTimeNs("1500ns") == Ok(15)
  {
    assert "1500ns"[4..] == "ns";
    assert DropLast4("1500ns") == "15";
    assert AllDigits("15");
    assert "15"[..1] == "1" && "1"[..0] == "";
    assert DigitsValue("15") == 15;
  }

  // ---------------------------------------------------------------- FiveTuple

  /** FiveTuple: a flow's addresses (as the strings the XML holds), ports and protocol number. */
  datatype FiveTuple = FiveTuple(
    sourceAddress: string,
    destinationAddress: string,
    sourcePort: int,
    destinationPort: int,
    protocol: int)

  /** The Python tuple __eq__ and __hash__ are built from. */
  function Fields(t: FiveTuple): (string, string, int, int, int)
  {
    (t.sourceAddress, t.destinationAddress, t.sourcePort, t.destinationPort, t.protocol)
  }

  /** FiveTuple.__eq__: the field tuples are equal. */
  predicate Eq(a: FiveTuple, b: FiveTuple)
  {
    Fields(a) == Fields(b)
  }

  /** FiveTuple.__ne__: not __eq__. */
  predicate Ne(a: FiveTuple, b: FiveTuple)
  {
    !Eq(a, b)
  }

  /** FiveTuple.__hash__, for whatever hash of a tuple Python computes. */
  function Hash(t: FiveTuple, tupleHash: ((string, string, int, int, int)) -> int): int
  {
    tupleHash(Fields(t))
  }

  /**
   * __eq__ is exactly value equality of the five fields, __ne__ its negation, and equal tuples
   * hash alike: as dict keys, five-tuples behave as the values of this datatype.
   */
  lemma FiveTupleKeys(a: FiveTuple, b: FiveTuple, tupleHash: ((string, string, int, int, int)) -> int)
    ensures Eq(a, b) <==> a == b
    ensures Ne(a, b) <==> a != b
    ensures Eq(a, b) ==> Hash(a, tupleHash) == Hash(b, tupleHash)
  {
  }

  // ---------------------------------------------------------------- Flow

  /**
   * The attributes of a FlowStats/Flow element that Flow.__init__ reads, with the four time
   * attributes and delaySum already read as integer nanoseconds.
   */
  datatype FlowElement = FlowElement(
    flowId: int,
    rxPackets: nat,
    txPackets: nat,
    timeFirstTxPacket: int,
    timeLastTxPacket: int,
    timeFirstRxPacket: int,
    timeLastRxPacket: int,
    txBytes: nat,
    rxBytes: nat,
    timesForwarded: nat,
    delaySum: int,
    lostPackets: nat)

  /** ProbeFlowStats: one probe's count of a flow's packets and bytes, and its mean delay from the first probe. */
  datatype ProbeFlowStats = ProbeFlowStats(probeId: int, packets: int, bytes: int, delayFromFirstProbe: real)

  /** A Flow object: the counters, the derived metrics, and what Simulation attaches later. */
  datatype Flow = Flow(
    flowId: int,
    txBytes: nat,
    txPackets: nat,
    rxBytes: nat,
    rxPackets: nat,
    rxDuration: real,
    fct: Option<real>,
    hopCount: real,
    delayMean: Option<real>,
    packetSizeMean: Option<real>,
    rxBitrate: Option<real>,
    txBitrate: Option<real>,
    lostPackets: nat,
    packetLossRatio: Option<real>,
    fiveTuple: Option<FiveTuple>,
    probeStats: seq<ProbeFlowStats>)

  /** Nanoseconds to seconds (the scripts' *1e-9). */
  function Seconds(ns: int): real
  {
    ns as real / 1_000_000_000.0
  }

  /** hopCount when no packet arrived. */
  const NO_HOP_COUNT: real := -1000.0

  /** Flow.__init__. */
  function MakeFlow(el: FlowElement): Flow
  {
    var txDuration := Seconds(el.timeLastTxPacket - el.timeFirstTxPacket);
    var rxDuration := Seconds(el.timeLastRxPacket - el.timeFirstRxPacket);
    var fct := Seconds(el.timeLastRxPacket - el.timeFirstTxPacket);
    var rx := el.rxPackets;
    Flow(
      el.flowId, el.txBytes, el.txPackets, el.rxBytes, rx, rxDuration,
      if fct > 0.0 then Some(fct) else None,
      if rx != 0 then el.timesForwarded as real / rx as real + 1.0 else NO_HOP_COUNT,
      if rx != 0 then Some(Seconds(el.delaySum) / rx as real) else None,
      if rx != 0 then Some(el.rxBytes as real / rx as real) else None,
      if rxDuration > 0.0 then Some((el.rxBytes * 8) as real / rxDuration) else None,
      if txDuration > 0.0 then Some((el.txBytes * 8) as real / txDuration) else None,
      el.lostPackets,
      if rx == 0 then None else Some(el.lostPackets as real / (rx + el.lostPackets) as real),
      None,
      [])
  }

  /**
   * The completion time and the two bit rates are present exactly when their duration in whole
   * nanoseconds is positive, and then they are that duration in seconds (positive) and bytes*8
   * over it (never negative).
   */
  lemma RatesPresence(el: FlowElement)
    ensures var f := MakeFlow(el);
      && (f.fct.Some? <==> el.timeLastRxPacket > el.timeFirstTxPacket)
      && (f.txBitrate.Some? <==> el.timeLastTxPacket > el.timeFirstTxPacket)
      && (f.rxBitrate.Some? <==> el.timeLastRxPacket > el.timeFirstRxPacket)
    ensures var f := MakeFlow(el);
      && (f.fct.Some? ==> f.fct.value == Seconds(el.timeLastRxPacket - el.timeFirstTxPacket) > 0.0)
      && (f.txBitrate.Some? ==>
            f.txBitrate.value == (el.txBytes * 8) as real / Seconds(el.timeLastTxPacket - el.timeFirstTxPacket)
            && f.txBitrate.value >= 0.0)
      && (f.rxBitrate.Some? ==>
            f.rxBitrate.value == (el.rxBytes * 8) as real / Seconds(el.timeLastRxPacket - el.timeFirstRxPacket)
            && f.rxBitrate.value >= 0.0)
  {
  }

  /**
   * Without received packets the delay, size and loss metrics are absent and the hop count is
   * -1000; otherwise all three are present, the hop count is timesForwarded/rxPackets + 1 (at
   * least 1), and the loss ratio lost/(rx + lost) lies in [0, 1).
   */
  lemma ReceivedMetrics(el: FlowElement)
    ensures var f := MakeFlow(el);
      el.rxPackets == 0 ==>
        f.delayMean.None? && f.packetSizeMean.None? && f.packetLossRatio.None? && f.hopCount == NO_HOP_COUNT
    ensures var f := MakeFlow(el);
      el.rxPackets != 0 ==>
        && f.delayMean.Some? && f.packetSizeMean.Some? && f.packetLossRatio.Some?
        && f.hopCount == el.timesForwarded as real / el.rxPackets as real + 1.0 && f.hopCount >= 1.0
        && f.packetLossRatio.value == el.lostPackets as real / (el.rxPackets + el.lostPackets) as real
        && 0.0 <= f.packetLossRatio.value < 1.0
  {
    if el.rxPackets != 0 {
      var lost := el.lostPackets as real;
      var total := (el.rxPackets + el.lostPackets) as real;
      assert lost < total;
      assert lost / total < 1.0 by {
        assert lost / total * total == lost;
      }
    }
  }

  /** A new Flow has no five-tuple and no probe records yet and keeps the element's counters. */
  lemma NewFlowIsBare(el: FlowElement)
    ensures var f := MakeFlow(el);
      && f.fiveTuple.None? && f.probeStats == []
      && f.flowId == el.flowId && f.txBytes == el.txBytes && f.txPackets == el.txPackets
      && f.rxBytes == el.rxBytes && f.rxPackets == el.rxPackets && f.lostPackets == el.lostPackets
  {
  }
}
