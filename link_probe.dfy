/**
 * Ipv4LinkProbe (src/link-monitor/model/ipv4-link-probe.cc): per-interface counters fed by
 * trace callbacks (bytes transmitted, bytes dequeued, queue and queue-disc occupancy), and a
 * periodic check that appends, for every non-loopback interface, a LinkStats record with the
 * current counters and the link utilisation over the last check period.
 */
module LinkProbe {
  import opened Wrappers
  import opened Words

  /** MicroSeconds(100), in nanoseconds: the default check period. */
  const DEFAULT_CHECK_TIME: int := 100_000

  /** LinkProbe::LinkStats; times in nanoseconds, utilisations as exact reals. */
  datatype LinkStats = LinkStats(
    checkTime: int,
    accumulatedTxBytes: nat,
    txLinkUtility: real,
    accumulatedDequeueBytes: nat,
    dequeueLinkUtility: real,
    packetsInQueue: nat,
    bytesInQueue: nat,
    packetsInQueueDisc: nat,
    bytesInQueueDisc: nat)

  /** std::map::operator[] on a counter map: a missing interface reads as 0. */
  function Get(m: map<u32, nat>, i: u32): nat
  {
    if i in m then m[i] else 0
  }

  /**
   * GetLinkUtility: bytes * 8 over what the link can carry in the period (bit rate times the
   * period in seconds); 0 when the interface has no data rate.
   */
  function Utility(dataRate: map<u32, nat>, i: u32, bytes: nat, periodNs: int): (u: real)
    requires periodNs > 0 && forall j :: j in dataRate ==> dataRate[j] > 0
    ensures u >= 0.0
    ensures i !in dataRate ==> u == 0.0
    ensures i in dataRate && bytes * 8 * 1_000_000_000 <= dataRate[i] * periodNs ==> u <= 1.0
  {
    if i !in dataRate then 0.0
    else
      var capacity := (dataRate[i] as real) * (periodNs as real) / 1_000_000_000.0;
      UtilityAtMostOne(bytes, dataRate[i], periodNs);
      ((bytes * 8) as real) / capacity
  }

  lemma UtilityAtMostOne(bytes: nat, rate: nat, periodNs: int)
    requires rate > 0 && periodNs > 0
    ensures var capacity := (rate as real) * (periodNs as real) / 1_000_000_000.0;
      capacity > 0.0 &&
      (bytes * 8 * 1_000_000_000 <= rate * periodNs ==> ((bytes * 8) as real) / capacity <= 1.0)
  {
    var capacity := (rate as real) * (periodNs as real) / 1_000_000_000.0;
    assert (rate as real) * (periodNs as real) == (rate * periodNs) as real;
    if bytes * 8 * 1_000_000_000 <= rate * periodNs {
      assert ((bytes * 8) as real) * 1_000_000_000.0 <= (rate * periodNs) as real;
      assert ((bytes * 8) as real) <= capacity;
    }
  }

  /**
   * What a check reads besides the records: the period, the data rates and the six per-interface
   * counters the trace callbacks maintain.
   */
  datatype Counters = Counters(
    checkTime: int,
    dataRate: map<u32, nat>,
    txBytes: map<u32, nat>,
    dequeueBytes: map<u32, nat>,
    packetsInQueue: map<u32, nat>,
    bytesInQueue: map<u32, nat>,
    packetsInQueueDisc: map<u32, nat>,
    bytesInQueueDisc: map<u32, nat>)

  /** The period is positive and every data rate is positive, so utilities are defined. */
  predicate RatesValid(c: Counters)
  {
    c.checkTime > 0 && forall j :: j in c.dataRate ==> c.dataRate[j] > 0
  }

  /** The last of the records (if any) holds byte counts no larger than the current ones. */
  predicate Behind(c: Counters, interface: u32, records: seq<LinkStats>)
  {
    records != [] ==>
      && Last(records).accumulatedTxBytes <= Get(c.txBytes, interface)
      && Last(records).accumulatedDequeueBytes <= Get(c.dequeueBytes, interface)
  }

  predicate AllBehind(c: Counters, records: map<u32, seq<LinkStats>>)
  {
    forall i :: i in records ==> Behind(c, i, records[i])
  }

  /**
   * The record CheckCurrentStatus appends for an interface at time now, given the interface's
   * records so far: the current counters, and utilities over the bytes since the last record
   * (since 0 for the first record). Queue-disc bytes are the queue disc's byte count.
   */
  function NewStats(c: Counters, interface: u32, now: int, records: seq<LinkStats>): (s: LinkStats)
    requires RatesValid(c) && Behind(c, interface, records)
    ensures s.checkTime == now
    ensures s.accumulatedTxBytes == Get(c.txBytes, interface)
    ensures s.accumulatedDequeueBytes == Get(c.dequeueBytes, interface)
    ensures s.packetsInQueue == Get(c.packetsInQueue, interface)
    ensures s.bytesInQueue == Get(c.bytesInQueue, interface)
    ensures s.packetsInQueueDisc == Get(c.packetsInQueueDisc, interface)
    ensures s.bytesInQueueDisc == Get(c.bytesInQueueDisc, interface)
    ensures s.txLinkUtility >= 0.0 && s.dequeueLinkUtility >= 0.0
    ensures records == [] ==>
      s.txLinkUtility == Utility(c.dataRate, interface, s.accumulatedTxBytes, c.checkTime)
    ensures records == [] ==>
      s.dequeueLinkUtility == Utility(c.dataRate, interface, s.accumulatedDequeueBytes, c.checkTime)
    ensures records != [] ==>
      s.txLinkUtility
        == Utility(c.dataRate, interface, s.accumulatedTxBytes - Last(records).accumulatedTxBytes, c.checkTime)
    ensures records != [] ==>
      s.dequeueLinkUtility
        == Utility(c.dataRate, interface, s.accumulatedDequeueBytes - Last(records).accumulatedDequeueBytes, c.checkTime)
  {
    var tx := Get(c.txBytes, interface);
    var dq := Get(c.dequeueBytes, interface);
    var lastTx := if records == [] then 0 else Last(records).accumulatedTxBytes;
    var lastDq := if records == [] then 0 else Last(records).accumulatedDequeueBytes;
    LinkStats(now, tx, Utility(c.dataRate, interface, tx - lastTx, c.checkTime),
              dq, Utility(c.dataRate, interface, dq - lastDq, c.checkTime),
              Get(c.packetsInQueue, interface), Get(c.bytesInQueue, interface),
              Get(c.packetsInQueueDisc, interface), Get(c.bytesInQueueDisc, interface))
  }

  /**
   * The record the source appends for an interface that already has records: the same except
   * that bytesInQueueDisc is filled from the queue disc's packet count.
   */
  function NewStatsAsWritten(c: Counters, interface: u32, now: int, records: seq<LinkStats>): (s: LinkStats)
    requires RatesValid(c) && Behind(c, interface, records) && records != []
    ensures s == NewStats(c, interface, now, records).(bytesInQueueDisc := Get(c.packetsInQueueDisc, interface))
  {
    var tx := Get(c.txBytes, interface);
    var dq := Get(c.dequeueBytes, interface);
    var lastTx := Last(records).accumulatedTxBytes;
    var lastDq := Last(records).accumulatedDequeueBytes;
    LinkStats(now, tx, Utility(c.dataRate, interface, tx - lastTx, c.checkTime),
              dq, Utility(c.dataRate, interface, dq - lastDq, c.checkTime),
              Get(c.packetsInQueue, interface), Get(c.bytesInQueue, interface),
              Get(c.packetsInQueueDisc, interface), Get(c.packetsInQueueDisc, interface))
  }

  /** The records an interface has: none if it was never checked. */
  function RecordsOf(stats: map<u32, seq<LinkStats>>, interface: u32): seq<LinkStats>
  {
    if interface in stats then stats[interface] else []
  }

  /**
   * The records after a check at time now has reached interface upTo: interfaces 1 .. upTo - 1
   * have gained their record, computed from the records before the check.
   */
  function Checked(c: Counters, before: map<u32, seq<LinkStats>>, upTo: u32, now: int): map<u32, seq<LinkStats>>
    requires RatesValid(c) && AllBehind(c, before)
  {
    if upTo <= 1 then before
    else
      var i := upTo - 1;
      Checked(c, before, i, now)[i := RecordsOf(before, i) + [NewStats(c, i, now, RecordsOf(before, i))]]
  }

  /** What Checked holds: one new record for each of the interfaces 1 .. upTo - 1, nothing else. */
  lemma {:induction false} CheckedRecords(c: Counters, before: map<u32, seq<LinkStats>>, upTo: u32, now: int)
    requires RatesValid(c) && AllBehind(c, before)
    ensures forall i :: i in Checked(c, before, upTo, now) <==> i in before || 1 <= i < upTo
    ensures forall i :: 1 <= i < upTo ==>
      Checked(c, before, upTo, now)[i] == RecordsOf(before, i) + [NewStats(c, i, now, RecordsOf(before, i))]
    ensures forall i :: i in before && !(1 <= i < upTo) ==> Checked(c, before, upTo, now)[i] == before[i]
  {
    if upTo > 1 {
      CheckedRecords(c, before, upTo - 1, now);
    }
  }

  class Ipv4LinkProbe {
    /** m_ipv4->GetNInterfaces(): interface 0 is the loopback and is never probed. */
    const nInterfaces: u32
    var checkTime: int
    var accumulatedTxBytes: map<u32, nat>
    var accumulatedDequeueBytes: map<u32, nat>
    var nPacketsInQueue: map<u32, nat>
    var nBytesInQueue: map<u32, nat>
    var nPacketsInQueueDisc: map<u32, nat>
    var nBytesInQueueDisc: map<u32, nat>
    /** m_dataRate: bits per second. */
    var dataRate: map<u32, nat>
    /** m_stats: per interface, the records of successive checks, oldest first. */
    var stats: map<u32, seq<LinkStats>>

    /** Everything a check reads except the records. */
    function Snapshot(): Counters
      reads this`checkTime, this`dataRate, this`accumulatedTxBytes, this`accumulatedDequeueBytes
      reads this`nPacketsInQueue, this`nBytesInQueue, this`nPacketsInQueueDisc, this`nBytesInQueueDisc
    {
      Counters(checkTime, dataRate, accumulatedTxBytes, accumulatedDequeueBytes,
               nPacketsInQueue, nBytesInQueue, nPacketsInQueueDisc, nBytesInQueueDisc)
    }

    /**
     * The period and the rates are positive, every interface with records has at least one, and
     * the byte counters never fall below the last value recorded for them, so the uint64
     * differences the check takes never wrap.
     */
    predicate Valid()
      reads this
    {
      && RatesValid(Snapshot())
      && (forall i :: i in stats ==> stats[i] != [])
      && AllBehind(Snapshot(), stats)
    }

    /**
     * The source sets every counter of interfaces 1 .. n - 1 to 0; with counters read through
     * Get, empty maps read the same.
     */
    constructor (nInterfaces: u32)
      ensures Valid() && this.nInterfaces == nInterfaces && checkTime == DEFAULT_CHECK_TIME
      ensures forall i :: Get(accumulatedTxBytes, i) == 0 && Get(accumulatedDequeueBytes, i) == 0
      ensures forall i :: Get(nPacketsInQueue, i) == 0 && Get(nBytesInQueue, i) == 0
      ensures forall i :: Get(nPacketsInQueueDisc, i) == 0 && Get(nBytesInQueueDisc, i) == 0
      ensures dataRate == map[] && stats == map[]
    {
      this.nInterfaces := nInterfaces;
      checkTime := DEFAULT_CHECK_TIME;
      accumulatedTxBytes := map[];
      accumulatedDequeueBytes := map[];
      nPacketsInQueue := map[];
      nBytesInQueue := map[];
      nPacketsInQueueDisc := map[];
      nBytesInQueueDisc := map[];
      dataRate := map[];
      stats := map[];
    }

    /** SetDataRateAll: every non-loopback interface gets the rate; other entries are kept. */
    method SetDataRateAll(rate: nat)
      requires Valid() && rate > 0
      modifies this`dataRate
      ensures Valid()
      ensures forall i :: 1 <= i < nInterfaces ==> i in dataRate && dataRate[i] == rate
      ensures forall i :: !(1 <= i < nInterfaces) ==>
        (i in dataRate <==> i in old(dataRate)) && (i in dataRate ==> dataRate[i] == old(dataRate)[i])
    {
      var interface: u32 := 1;
      while interface < nInterfaces
        invariant 1 <= interface as int <= if nInterfaces == 0 then 1 else nInterfaces as int
        invariant Valid()
        invariant forall i :: 1 <= i < interface ==> i in dataRate && dataRate[i] == rate
        invariant forall i :: !(1 <= i < interface) ==>
          (i in dataRate <==> i in old(dataRate)) && (i in dataRate ==> dataRate[i] == old(dataRate)[i])
      {
        dataRate := dataRate[interface := rate];
        interface := interface + 1;
      }
    }

    method SetCheckTime(t: int)
      requires Valid() && t > 0
      modifies this`checkTime
      ensures Valid() && checkTime == t
    {
      checkTime := t;
    }

    /** TxLogger: a packet of size bytes left on the interface. */
    method TxLogger(size: nat, interface: u32)
      requires Valid()
      modifies this`accumulatedTxBytes
      ensures Valid()
      ensures Get(accumulatedTxBytes, interface) == Get(old(accumulatedTxBytes), interface) + size
      ensures forall i :: i != interface ==> Get(accumulatedTxBytes, i) == Get(old(accumulatedTxBytes), i)
    {
      accumulatedTxBytes := accumulatedTxBytes[interface := Get(accumulatedTxBytes, interface) + size];
    }

    /** DequeueLogger: a packet of size bytes was dequeued from the interface's device queue. */
    method DequeueLogger(size: nat, interface: u32)
      requires Valid()
      modifies this`accumulatedDequeueBytes
      ensures Valid()
      ensures Get(accumulatedDequeueBytes, interface) == Get(old(accumulatedDequeueBytes), interface) + size
      ensures forall i :: i != interface ==> Get(accumulatedDequeueBytes, i) == Get(old(accumulatedDequeueBytes), i)
    {
      accumulatedDequeueBytes := accumulatedDequeueBytes[interface := Get(accumulatedDequeueBytes, interface) + size];
    }

    method PacketsInQueueLogger(nPackets: nat, interface: u32)
      requires Valid()
      modifies this`nPacketsInQueue
      ensures Valid() && nPacketsInQueue == old(nPacketsInQueue)[interface := nPackets]
    {
      nPacketsInQueue := nPacketsInQueue[interface := nPackets];
    }

    method BytesInQueueLogger(nBytes: nat, interface: u32)
      requires Valid()
      modifies this`nBytesInQueue
      ensures Valid() && nBytesInQueue == old(nBytesInQueue)[interface := nBytes]
    {
      nBytesInQueue := nBytesInQueue[interface := nBytes];
    }

    method PacketsInQueueDiscLogger(nPackets: nat, interface: u32)
      requires Valid()
      modifies this`nPacketsInQueueDisc
      ensures Valid() && nPacketsInQueueDisc == old(nPacketsInQueueDisc)[interface := nPackets]
    {
      nPacketsInQueueDisc := nPacketsInQueueDisc[interface := nPackets];
    }

    method BytesInQueueDiscLogger(nBytes: nat, interface: u32)
      requires Valid()
      modifies this`nBytesInQueueDisc
      ensures Valid() && nBytesInQueueDisc == old(nBytesInQueueDisc)[interface := nBytes]
    {
      nBytesInQueueDisc := nBytesInQueueDisc[interface := nBytes];
    }

    /** GetLinkUtility over the check period. */
    function GetLinkUtility(interface: u32, bytes: nat): (u: real)
      requires Valid()
      reads this
      ensures u >= 0.0
      ensures interface !in dataRate ==> u == 0.0
      ensures interface in dataRate && bytes * 8 * 1_000_000_000 <= dataRate[interface] * checkTime ==> u <= 1.0
    {
      Utility(dataRate, interface, bytes, checkTime)
    }

    /** Appends the interface's record for time now to its list. */
    method AppendRecord(interface: u32, now: int)
      requires Valid()
      modifies this`stats
      ensures Valid()
      ensures stats == old(stats)[interface := RecordsOf(old(stats), interface)
                                    + [NewStats(Snapshot(), interface, now, RecordsOf(old(stats), interface))]]
    {
      var records := RecordsOf(stats, interface);
      stats := stats[interface := records + [NewStats(Snapshot(), interface, now, records)]];
    }

    /**
     * CheckCurrentStatus at time now: every non-loopback interface gains one record, computed
     * from the counters and its records before the check; no other list changes. Rescheduling
     * the next check is not part of this model.
     */
    method CheckCurrentStatus(now: int)
      requires Valid()
      modifies this`stats
      ensures Valid()
      ensures stats == Checked(Snapshot(), old(stats), nInterfaces, now)
    {
      var interface: u32 := 1;
      ghost var c := Snapshot();
      while interface < nInterfaces
        invariant 1 <= interface as int <= if nInterfaces == 0 then 1 else nInterfaces as int
        invariant c == Snapshot() && Valid()
        invariant stats == Checked(c, old(stats), interface, now)
      {
        CheckedRecords(c, old(stats), interface, now);
        AppendRecord(interface, now);
        interface := interface + 1;
      }
    }
  }

  function Last<T>(s: seq<T>): T
    requires s != []
  {
    s[|s| - 1]
  }

  /**
   * An interface whose queue disc holds 3 packets and 4500 bytes gets, from its second check on,
   * a record claiming 3 bytes queued in the disc: the packet count, not the byte count.
   */
  method SecondCheckRecordsPacketCount() returns (p: Ipv4LinkProbe)
    ensures fresh(p) && p.Valid()
    ensures 1 in p.stats && |p.stats[1]| == 1
    ensures NewStatsAsWritten(p.Snapshot(), 1, 200_000, p.stats[1]).bytesInQueueDisc == 3
    ensures NewStats(p.Snapshot(), 1, 200_000, p.stats[1]).bytesInQueueDisc == 4500
  {
    p := new Ipv4LinkProbe(2);
    p.PacketsInQueueDiscLogger(3, 1);
    p.BytesInQueueDiscLogger(4500, 1);
    p.CheckCurrentStatus(100_000);
    CheckedRecords(p.Snapshot(), map[], 2, 100_000);
  }
}
