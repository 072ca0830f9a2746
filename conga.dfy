/**
 * CONGA (src/conga-routing/model/ipv4-conga-routing.cc): congestion-aware load balancing in a
 * leaf-spine fabric. Each switch measures its own output ports with a discounting rate estimator
 * (DRE, the per-port counter X). A source leaf tags every packet with the uplink it took (LbTag)
 * and a congestion field (CE) that spines raise to the congestion of the port they forward on.
 * The destination leaf records that CE per (source leaf, LbTag) in its from-leaf table and
 * piggybacks one entry of it, round-robin and preferring changed ones, on packets going back; the
 * source leaf stores that feedback in its to-leaf table. A new flowlet leaves by a port that
 * minimises the larger of its local and remote congestion.
 */
module Conga {
  import opened Wrappers
  import opened Words
  import opened Routing
  import opened CongaTag

  /** LOOPBACK_PORT: an FbLbTag of 0 carries no feedback. */
  const LOOPBACK_PORT: u32 := 0

  /** The constructor's defaults, in nanoseconds: aging time 10 ms, flowlet timeout 50 us. */
  const DEFAULT_AGING_TIME: int := 10_000_000
  const DEFAULT_FLOWLET_TIMEOUT: int := 50_000

  /** Flowlet: the port of a flow's current flowlet and when its last packet was seen. */
  datatype Flowlet = Flowlet(port: u32, activeTime: int)

  /** FeedbackInfo: the CE last received for a path, whether it is yet to be fed back, and when. */
  datatype FeedbackInfo = FeedbackInfo(ce: u32, change: bool, updateTime: int)

  /** An entry of the to-leaf table: when the remote metric was learnt, and the metric. */
  datatype Remote = Remote(time: int, congestion: u32)

  /**
   * The tables RouteInput and the timers change: the DRE counters (m_XMap), the to-leaf and
   * from-leaf tables, the flowlet table and the feedback round-robin index.
   */
  datatype Tables = Tables(
    xMap: map<u32, u32>,
    toLeaf: map<u32, map<u32, Remote>>,
    fromLeaf: map<u32, map<u32, FeedbackInfo>>,
    flowletTable: map<u32, Flowlet>,
    feedbackIndex: nat)

  const EMPTY_TABLES: Tables := Tables(map[], map[], map[], map[], 0)

  /** No from-leaf table is empty (so the round-robin modulus is never 0). */
  predicate Valid(t: Tables)
  {
    forall leaf :: leaf in t.fromLeaf ==> t.fromLeaf[leaf] != map[]
  }

  // ---------------------------------------------------------------- local DRE

  /** A port's DRE counter: 0 when the port has none yet. */
  function LocalX(xMap: map<u32, u32>, port: u32): u32
  {
    if port in xMap then xMap[port] else 0
  }

  /**
   * UpdateLocalDre's new table: the port's counter grows by the packet's bytes (its size plus
   * its IP header's), as uint32 arithmetic; no other counter changes.
   */
  function AddToDre(xMap: map<u32, u32>, port: u32, bytes: nat): (m: map<u32, u32>)
    ensures port in m && m[port] == (LocalX(xMap, port) + bytes) % U32_LIMIT
    ensures LocalX(xMap, port) + bytes < U32_LIMIT ==> m[port] == LocalX(xMap, port) + bytes
    ensures forall q :: q != port ==> (q in m <==> q in xMap) && (q in xMap ==> m[q] == xMap[q])
  {
    xMap[port := (LocalX(xMap, port) + bytes) % U32_LIMIT]
  }

  // ---------------------------------------------------------------- to-leaf table

  /** InitCongestion's new table: (now, congestion) for the leaf's port; nothing else changes. */
  function SetRemote(toLeaf: map<u32, map<u32, Remote>>, leaf: u32, port: u32, r: Remote)
    : (m: map<u32, map<u32, Remote>>)
    ensures leaf in m && port in m[leaf] && m[leaf][port] == r
    ensures leaf in toLeaf ==>
      forall q :: q != port ==> (q in m[leaf] <==> q in toLeaf[leaf]) && (q in toLeaf[leaf] ==> m[leaf][q] == toLeaf[leaf][q])
    ensures leaf !in toLeaf ==> m[leaf] == map[port := r]
    ensures forall l :: l != leaf ==> (l in m <==> l in toLeaf) && (l in toLeaf ==> m[l] == toLeaf[l])
  {
    var inner := if leaf in toLeaf then toLeaf[leaf] else map[];
    toLeaf[leaf := inner[port := r]]
  }

  // ---------------------------------------------------------------- from-leaf table and feedback

  /** The receiving leaf's new from-leaf table: the path's entry is (ce, changed, now). */
  function RecordFeedback(fromLeaf: map<u32, map<u32, FeedbackInfo>>, leaf: u32, lbTag: u32, ce: u32, now: int)
    : (m: map<u32, map<u32, FeedbackInfo>>)
    ensures leaf in m && lbTag in m[leaf] && m[leaf][lbTag] == FeedbackInfo(ce, true, now)
    ensures leaf in fromLeaf ==>
      forall q :: q != lbTag ==> (q in m[leaf] <==> q in fromLeaf[leaf]) && (q in fromLeaf[leaf] ==> m[leaf][q] == fromLeaf[leaf][q])
    ensures forall l :: l != leaf ==> (l in m <==> l in fromLeaf) && (l in fromLeaf ==> m[l] == fromLeaf[l])
  {
    var inner := if leaf in fromLeaf then fromLeaf[leaf] else map[];
    fromLeaf[leaf := inner[lbTag := FeedbackInfo(ce, true, now)]]
  }

  /** Strictly increasing: the order std::map iterates its keys in. */
  predicate Increasing(s: seq<u32>)
  {
    forall i, j :: 0 <= i < j < |s| ==> s[i] < s[j]
  }

  lemma {:induction false} HasMinimum(s: set<u32>)
    requires s != {}
    ensures exists m :: m in s && forall y :: y in s ==> m <= y
    decreases |s|
  {
    var x :| x in s;
    var rest := s - {x};
    if rest == {} {
      assert s == {x};
      assert x in s && forall y :: y in s ==> x <= y;
    } else {
      HasMinimum(rest);
      var m :| m in rest && forall y :: y in rest ==> m <= y;
      LeastOfTwo(s, x, m);
    }
  }

  lemma LeastOfTwo(s: set<u32>, x: u32, m: u32)
    requires x in s && m in s - {x} && forall y :: y in s - {x} ==> m <= y
    ensures var least := if x < m then x else m; least in s && forall y :: y in s ==> least <= y
  {
    forall y | y in s && y != x
      ensures m <= y
    {
      assert y in s - {x};
    }
  }

  /** The smallest key of a non-empty key set. */
  function Min(s: set<u32>): (m: u32)
    requires s != {}
    ensures m in s && forall y :: y in s ==> m <= y
  {
    HasMinimum(s);
    var m :| m in s && forall y :: y in s ==> m <= y;
    m
  }

  /** A map's keys in iteration order: ascending. */
  function SortedKeys(s: set<u32>): (r: seq<u32>)
    ensures |r| == |s| && Increasing(r)
    ensures forall k :: k in r <==> k in s
    decreases |s|
  {
    if s == {} then []
    else
      var m := Min(s);
      var rest := SortedKeys(s - {m});
      assert forall k :: k in rest ==> m < k;
      [m] + rest
  }

  /** The keys in iteration order starting from position start and wrapping around. */
  function Rotation(keys: seq<u32>, start: nat): (r: seq<u32>)
    requires start < |keys|
    ensures |r| == |keys| && r[0] == keys[start]
    ensures forall j :: 0 <= j < |keys| ==> r[j] == if start + j < |keys| then keys[start + j] else keys[start + j - |keys|]
  {
    keys[start..] + keys[..start]
  }

  /** The position of the first key whose entry is still to be fed back. */
  function FirstChanged(keys: seq<u32>, inner: map<u32, FeedbackInfo>): (r: Option<nat>)
    requires forall k :: k in keys ==> k in inner
    ensures r.Some? ==> r.value < |keys| && inner[keys[r.value]].change
    ensures r.Some? ==> forall j :: 0 <= j < r.value ==> !inner[keys[j]].change
    ensures r.None? ==> forall j :: 0 <= j < |keys| ==> !inner[keys[j]].change
  {
    if keys == [] then None
    else if inner[keys[0]].change then Some(0)
    else
      match FirstChanged(keys[1..], inner)
      case None => None
      case Some(i) => Some(i + 1)
  }

  /**
   * The entry a source leaf piggybacks: starting from position index mod n of the table (in
   * key order) and wrapping around, the first entry still to be fed back, or the starting one
   * when none is.
   */
  function PickFeedback(inner: map<u32, FeedbackInfo>, index: nat): (k: u32)
    requires inner != map[]
    ensures k in inner
    ensures (exists q :: q in inner && inner[q].change) ==> inner[k].change
  {
    var keys := SortedKeys(inner.Keys);
    var rot := Rotation(keys, index % |keys|);
    match FirstChanged(rot, inner)
    case Some(j) => rot[j]
    case None =>
      RotationCovers(keys, index % |keys|);
      rot[0]
  }

  /** Every key appears in a rotation of the keys. */
  lemma RotationCovers(keys: seq<u32>, start: nat)
    requires start < |keys|
    ensures forall q :: q in keys ==> q in Rotation(keys, start)
  {
    var rot := Rotation(keys, start);
    forall q | q in keys
      ensures q in rot
    {
      var i :| 0 <= i < |keys| && keys[i] == q;
      var j := if i >= start then i - start else i + |keys| - start;
      assert rot[j] == q;
    }
  }

  /** What a source leaf piggybacks, and the from-leaf table and index after it. */
  datatype Feedback = Feedback(fbLbTag: u32, fbMetric: u32, fromLeaf: map<u32, map<u32, FeedbackInfo>>, index: nat)

  /**
   * The feedback step of a source leaf: nothing (FbLbTag 0, metric 0) without a from-leaf table
   * for the destination leaf; otherwise the picked entry's path and CE, whose change flag is then
   * cleared, and the round-robin index advances by one.
   */
  function Piggyback(fromLeaf: map<u32, map<u32, FeedbackInfo>>, destLeaf: u32, index: nat): (f: Feedback)
    requires forall leaf :: leaf in fromLeaf ==> fromLeaf[leaf] != map[]
  {
    if destLeaf !in fromLeaf then Feedback(LOOPBACK_PORT, 0, fromLeaf, index)
    else
      var inner := fromLeaf[destLeaf];
      var k := PickFeedback(inner, index);
      Feedback(k, inner[k].ce, fromLeaf[destLeaf := inner[k := inner[k].(change := false)]], index + 1)
  }

  /**
   * Piggybacking: without a table for the destination leaf nothing is sent and nothing changes.
   * Otherwise a recorded path is sent with its CE, a changed entry whenever there is one; that
   * entry alone loses its change flag, and the index advances by exactly one.
   */
  lemma PiggybackSpec(fromLeaf: map<u32, map<u32, FeedbackInfo>>, destLeaf: u32, index: nat)
    requires forall leaf :: leaf in fromLeaf ==> fromLeaf[leaf] != map[]
    ensures var f := Piggyback(fromLeaf, destLeaf, index);
      destLeaf !in fromLeaf ==> f == Feedback(LOOPBACK_PORT, 0, fromLeaf, index)
    ensures var f := Piggyback(fromLeaf, destLeaf, index);
      destLeaf in fromLeaf ==>
        var inner := fromLeaf[destLeaf];
        && f.fbLbTag in inner && f.fbMetric == inner[f.fbLbTag].ce && f.index == index + 1
        && ((exists q :: q in inner && inner[q].change) ==> inner[f.fbLbTag].change)
        && f.fromLeaf == fromLeaf[destLeaf := inner[f.fbLbTag := inner[f.fbLbTag].(change := false)]]
    ensures forall leaf :: leaf in Piggyback(fromLeaf, destLeaf, index).fromLeaf ==>
      Piggyback(fromLeaf, destLeaf, index).fromLeaf[leaf] != map[]
  {
  }

  // ---------------------------------------------------------------- candidate ports

  /** A port's congestion degree: the larger of its local and its remote metric. */
  function Degree(xMap: map<u32, u32>, remote: map<u32, Remote>, quantize: (u32, u32) -> u32, port: u32): u32
  {
    var local := if port in xMap then quantize(port, xMap[port]) else 0;
    var rem := if port in remote then remote[port].congestion else 0;
    if local < rem then rem else local
  }

  /** The least degree over the entries, starting from the uint32 maximum. */
  function MinDegree(entries: seq<RouteEntry>, degree: u32 -> u32): (m: u32)
    ensures forall e :: e in entries ==> m <= degree(e.port)
    ensures entries != [] ==> exists e :: e in entries && m == degree(e.port)
  {
    if entries == [] then U32_MAX
    else
      var m := MinDegree(entries[..|entries| - 1], degree);
      var last := entries[|entries| - 1];
      assert entries == entries[..|entries| - 1] + [last];
      if degree(last.port) < m then degree(last.port) else m
  }

  /** The ports of the entries of degree m, in entry order. */
  function PortsOfDegree(entries: seq<RouteEntry>, degree: u32 -> u32, m: u32): (r: seq<u32>)
    ensures forall p :: p in r <==> exists e :: e in entries && e.port == p && degree(p) == m
  {
    if entries == [] then []
    else
      var init := entries[..|entries| - 1];
      var last := entries[|entries| - 1];
      assert entries == init + [last];
      PortsOfDegree(init, degree, m) + (if degree(last.port) == m then [last.port] else [])
  }

  /**
   * The candidate loop as written: a strictly better port restarts the list with itself, and the
   * "equally good" test that follows then also holds for it, so it is listed twice.
   */
  function CandidatesAsWritten(entries: seq<RouteEntry>, degree: u32 -> u32): (r: (u32, seq<u32>))
  {
    if entries == [] then (U32_MAX as u32, [])
    else
      var (m, c) := CandidatesAsWritten(entries[..|entries| - 1], degree);
      var port := entries[|entries| - 1].port;
      var d := degree(port);
      var (m1, c1) := if d < m then (d, [port]) else (m, c);
      if d == m1 then (m1, c1 + [port]) else (m1, c1)
  }

  /** The candidate loop as its comments describe it: strictly better, else equally good. */
  function Candidates(entries: seq<RouteEntry>, degree: u32 -> u32): (r: (u32, seq<u32>))
  {
    if entries == [] then (U32_MAX as u32, [])
    else
      var (m, c) := Candidates(entries[..|entries| - 1], degree);
      var port := entries[|entries| - 1].port;
      var d := degree(port);
      if d < m then (d, [port])
      else if d == m then (m, c + [port])
      else (m, c)
  }

  /** No entry has a degree below m: then none is of any degree below m. */
  lemma {:induction false} NoneBelow(entries: seq<RouteEntry>, degree: u32 -> u32, m: u32, d: u32)
    requires forall e :: e in entries ==> m <= degree(e.port)
    requires d < m
    ensures PortsOfDegree(entries, degree, d) == []
    decreases |entries|
  {
    if entries != [] {
      var init := entries[..|entries| - 1];
      assert entries == init + [entries[|entries| - 1]];
      NoneBelow(init, degree, m, d);
    }
  }

  /**
   * The corrected candidates are exactly the ports of least degree, each once per entry, in
   * entry order; the minimum found is the least degree.
   */
  lemma {:induction false} CandidatesAreMinimal(entries: seq<RouteEntry>, degree: u32 -> u32)
    ensures Candidates(entries, degree).0 == MinDegree(entries, degree)
    ensures Candidates(entries, degree).1 == PortsOfDegree(entries, degree, MinDegree(entries, degree))
    ensures entries != [] ==> Candidates(entries, degree).1 != []
    decreases |entries|
  {
    if entries != [] {
      var init := entries[..|entries| - 1];
      var last := entries[|entries| - 1];
      assert entries == init + [last];
      CandidatesAreMinimal(init, degree);
      var m := MinDegree(init, degree);
      var d := degree(last.port);
      var least := if d < m then d else m;
      assert MinDegree(entries, degree) == least;
      assert entries[..|entries| - 1] == init;
      assert PortsOfDegree(entries, degree, least) == PortsOfDegree(init, degree, least) + (if d == least then [last.port] else []);
      if d < m {
        NoneBelow(init, degree, m, d);
      }
    }
  }

  /**
   * The loop as written lists the same ports, but the first port of least degree twice whenever
   * that degree is below the uint32 maximum.
   */
  lemma {:induction false} AsWrittenRepeatsFirst(entries: seq<RouteEntry>, degree: u32 -> u32)
    ensures CandidatesAsWritten(entries, degree).0 == Candidates(entries, degree).0
    ensures var c := Candidates(entries, degree);
      CandidatesAsWritten(entries, degree).1 == if c.1 != [] && c.0 < U32_MAX then [c.1[0]] + c.1 else c.1
    decreases |entries|
  {
    if entries != [] {
      var init := entries[..|entries| - 1];
      AsWrittenRepeatsFirst(init, degree);
      CandidatesNonEmpty(init, degree);
    }
  }

  /** Some entry always makes some candidate: the minimum never stays above every degree. */
  lemma {:induction false} CandidatesNonEmpty(entries: seq<RouteEntry>, degree: u32 -> u32)
    ensures entries != [] <==> Candidates(entries, degree).1 != []
    ensures entries == [] <==> Candidates(entries, degree).0 == U32_MAX && Candidates(entries, degree).1 == []
    decreases |entries|
  {
    if entries != [] {
      CandidatesNonEmpty(entries[..|entries| - 1], degree);
    }
  }

  /** Two equally idle ports 1 and 2: the loop as written lists port 1 twice. */
  lemma AsWrittenFavoursFirst()
    ensures var entries := [RouteEntry(Ipv4Address(0), 0, 1), RouteEntry(Ipv4Address(0), 0, 2)];
      && CandidatesAsWritten(entries, _ => 0).1 == [1, 1, 2]
      && Candidates(entries, _ => 0).1 == [1, 2]
  {
    var entries := [RouteEntry(Ipv4Address(0), 0, 1), RouteEntry(Ipv4Address(0), 0, 2)];
    assert entries[..1] == [entries[0]];
    assert entries[..1][..0] == [];
  }

  // ---------------------------------------------------------------- RouteInput

  /** The router's configuration, as the setters leave it. */
  datatype Config = Config(
    isLeaf: bool,
    leafId: u32,
    ecmpMode: bool,
    flowletTimeout: int,
    entries: seq<RouteEntry>,
    ipLeafIdMap: map<Ipv4Address, u32>)

  /**
   * What RouteInput reads of a packet: its addresses, its FlowIdTag and Ipv4CongaTag if any, and
   * the bytes UpdateLocalDre counts (its size plus its IP header's).
   */
  datatype Packet = Packet(src: Ipv4Address, dest: Ipv4Address, flowId: Option<u32>, tag: Option<CongaHeader>, bytes: nat)

  /** RouteInput's verdict, the Conga tag the packet leaves with (if any), and the new tables. */
  datatype Outcome = Outcome(verdict: Verdict, tag: Option<CongaHeader>, tables: Tables)

  /** The flow's flowlet is still open at time now. */
  predicate Hit(table: map<u32, Flowlet>, timeout: int, flowId: u32, now: int)
  {
    flowId in table && now - table[flowId].activeTime <= timeout
  }

  /** The degree of each port towards a destination leaf. */
  /**
   * The to-leaf table of a destination leaf, read as empty when none exists: every port's remote
   * congestion is then 0, the default the inner lookup gives for a missing port.
   */
  function RemoteOf(toLeaf: map<u32, map<u32, Remote>>, destLeaf: u32): map<u32, Remote>
  {
    if destLeaf in toLeaf then toLeaf[destLeaf] else map[]
  }

  function DegreeTo(t: Tables, destLeaf: u32, quantize: (u32, u32) -> u32): u32 -> u32
  {
    port => Degree(t.xMap, RemoteOf(t.toLeaf, destLeaf), quantize, port)
  }

  /**
   * As written, the source picks the port of a new flowlet by looking each port up in the to-leaf
   * table of the destination leaf without checking that the table exists: it dereferences the end
   * iterator of m_congaToLeafTable exactly on this path, which has no defined behaviour.
   */
  predicate ReadsMissingTable(cfg: Config, t: Tables, p: Packet, forwarding: bool, now: int)
  {
    && Admissible(p.dest, forwarding) && p.flowId.Some? && Matching(cfg.entries, p.dest) != []
    && cfg.isLeaf && p.tag.None? && p.dest in cfg.ipLeafIdMap
    && !Hit(t.flowletTable, cfg.flowletTimeout, p.flowId.value, now)
    && cfg.ipLeafIdMap[p.dest] !in t.toLeaf
  }

  /**
   * The first packet a fresh leaf sends towards another leaf, before any feedback from it and
   * without InitCongestion, takes that path; the corrected model forwards it and, with no remote
   * congestion known, ranks the ports by their local congestion alone.
   */
  lemma FirstFlowletReadsMissingTable(quantize: (u32, u32) -> u32)
    ensures var dest := Ipv4Address(0x0A00_0001);
      var cfg := Config(true, 2, false, DEFAULT_FLOWLET_TIMEOUT, [RouteEntry(Ipv4Address(0), 0, 1)], map[dest := 1]);
      var p := Packet(Ipv4Address(0x0A00_0101), dest, Some(7), None, 100);
      && ReadsMissingTable(cfg, EMPTY_TABLES, p, true, 0)
      && RouteInputSpec(cfg, EMPTY_TABLES, p, true, 0, 0, quantize).verdict.accepted
      && forall port :: DegreeTo(EMPTY_TABLES, 1, quantize)(port) == 0
  {
    var dest := Ipv4Address(0x0A00_0001);
    var cfg := Config(true, 2, false, DEFAULT_FLOWLET_TIMEOUT, [RouteEntry(Ipv4Address(0), 0, 1)], map[dest := 1]);
    var p := Packet(Ipv4Address(0x0A00_0101), dest, Some(7), None, 100);
    DefaultRouteMatches(cfg.entries[0], dest);
    assert cfg.entries[0] in Matching(cfg.entries, dest);
    assert ReadsMissingTable(cfg, EMPTY_TABLES, p, true, 0);
    RouteInputAccepts(cfg, EMPTY_TABLES, p, true, 0, 0, quantize);
  }

  /** Without a to-leaf table for the destination leaf, a port's degree is its local congestion. */
  lemma MissingTableIsLocalOnly(t: Tables, destLeaf: u32, quantize: (u32, u32) -> u32, port: u32)
    requires destLeaf !in t.toLeaf
    ensures DegreeTo(t, destLeaf, quantize)(port) == (if port in t.xMap then quantize(port, t.xMap[port]) else 0)
  {
  }

  /** The port a source leaf sends by: the open flowlet's, else the cached one if still a candidate, else a random candidate. */
  function SenderPort(cfg: Config, t: Tables, flowId: u32, destLeaf: u32, entries: seq<RouteEntry>,
                      now: int, r: nat, quantize: (u32, u32) -> u32): u32
    requires entries != []
  {
    if Hit(t.flowletTable, cfg.flowletTimeout, flowId, now) then t.flowletTable[flowId].port
    else
      var cands := Candidates(entries, DegreeTo(t, destLeaf, quantize)).1;
      CandidatesNonEmpty(entries, DegreeTo(t, destLeaf, quantize));
      if flowId in t.flowletTable && t.flowletTable[flowId].port in cands then t.flowletTable[flowId].port
      else cands[r % |cands|]
  }

  /** A source leaf (the packet has no Conga tag yet). */
  function Send(cfg: Config, t: Tables, p: Packet, flowId: u32, entries: seq<RouteEntry>,
                now: int, r: nat, quantize: (u32, u32) -> u32): Outcome
    requires Valid(t) && entries != [] && p.tag.None? && p.flowId == Some(flowId)
    requires cfg.isLeaf
  {
    if p.dest !in cfg.ipLeafIdMap then Outcome(Reject, p.tag, t)
    else
      var destLeaf := cfg.ipLeafIdMap[p.dest];
      var f := Piggyback(t.fromLeaf, destLeaf, t.feedbackIndex);
      var port := SenderPort(cfg, t, flowId, destLeaf, entries, now, r, quantize);
      var t' := t.(fromLeaf := f.fromLeaf, feedbackIndex := f.index,
                   flowletTable := t.flowletTable[flowId := Flowlet(port, now)],
                   xMap := AddToDre(t.xMap, port, p.bytes));
      Outcome(Forward(port), Some(CongaHeader(port, 0, f.fbLbTag, f.fbMetric)), t')
  }

  /** A destination leaf: record the path's CE and the feedback, drop the tag, forward by ECMP. */
  function Receive(cfg: Config, t: Tables, p: Packet, flowId: u32, entries: seq<RouteEntry>, now: int): Outcome
    requires entries != [] && p.tag.Some?
  {
    if p.src !in cfg.ipLeafIdMap then Outcome(Reject, p.tag, t)
    else
      var srcLeaf := cfg.ipLeafIdMap[p.src];
      var tag := p.tag.value;
      var fromLeaf := RecordFeedback(t.fromLeaf, srcLeaf, tag.lbTag, tag.ce, now);
      var toLeaf := if tag.fbLbTag != LOOPBACK_PORT then SetRemote(t.toLeaf, srcLeaf, tag.fbLbTag, Remote(now, tag.fbMetric))
                    else t.toLeaf;
      var port := entries[flowId % |entries|].port;
      Outcome(Forward(port), None, t.(fromLeaf := fromLeaf, toLeaf := toLeaf, xMap := AddToDre(t.xMap, port, p.bytes)))
  }

  /** A spine: forward by ECMP and raise the tag's CE to the port's quantised congestion. */
  function Relay(t: Tables, p: Packet, flowId: u32, entries: seq<RouteEntry>, quantize: (u32, u32) -> u32): Outcome
    requires entries != []
  {
    if p.tag.None? then Outcome(Reject, p.tag, t)
    else
      var port := entries[flowId % |entries|].port;
      var xMap := AddToDre(t.xMap, port, p.bytes);
      var x := quantize(port, xMap[port]);
      var tag := if x > p.tag.value.ce then p.tag.value.(ce := x) else p.tag.value;
      Outcome(Forward(port), Some(tag), t.(xMap := xMap))
  }

  /**
   * RouteInput as a function of the configuration, the tables, the packet, whether the input
   * interface forwards, the arrival time, rand()'s value r and QuantizingX. In ECMP mode the
   * ECMP port is handed to ucb first and processing goes on.
   */
  function RouteInputSpec(cfg: Config, t: Tables, p: Packet, forwarding: bool, now: int, r: nat,
                          quantize: (u32, u32) -> u32): Outcome
    requires Valid(t)
  {
    if !Admissible(p.dest, forwarding) || p.flowId.None? then Outcome(Reject, p.tag, t)
    else
      var flowId := p.flowId.value;
      var entries := Matching(cfg.entries, p.dest);
      if entries == [] then Outcome(Reject, p.tag, t)
      else
        var ecmp := if cfg.ecmpMode then [Unicast(entries[flowId % |entries|].port)] else [];
        var o := if !cfg.isLeaf then Relay(t, p, flowId, entries, quantize)
                 else if p.tag.None? then Send(cfg, t, p, flowId, entries, now, r, quantize)
                 else Receive(cfg, t, p, flowId, entries, now);
        o.(verdict := Verdict(o.verdict.accepted, ecmp + o.verdict.calls))
  }

  /**
   * When RouteInput refuses a packet it reports ERROR_NOROUTETOHOST and changes no table and no
   * tag; it refuses exactly the non-unicast or non-forwarding, untagged-by-flow, unroutable
   * packets, and those whose leaf is unknown or, at a spine, that carry no Conga tag.
   */
  lemma RouteInputAccepts(cfg: Config, t: Tables, p: Packet, forwarding: bool, now: int, r: nat,
                          quantize: (u32, u32) -> u32)
    requires Valid(t)
    ensures var o := RouteInputSpec(cfg, t, p, forwarding, now, r, quantize);
      o.verdict.accepted <==>
        && Admissible(p.dest, forwarding) && p.flowId.Some? && Matching(cfg.entries, p.dest) != []
        && (cfg.isLeaf && p.tag.None? ==> p.dest in cfg.ipLeafIdMap)
        && (cfg.isLeaf && p.tag.Some? ==> p.src in cfg.ipLeafIdMap)
        && (!cfg.isLeaf ==> p.tag.Some?)
    ensures var o := RouteInputSpec(cfg, t, p, forwarding, now, r, quantize);
      !o.verdict.accepted ==>
        o.tables == t && o.tag == p.tag && o.verdict.calls[|o.verdict.calls| - 1] == Error(ErrorNoRouteToHost)
    ensures var o := RouteInputSpec(cfg, t, p, forwarding, now, r, quantize);
      o.verdict.accepted ==> exists port :: o.verdict.calls[|o.verdict.calls| - 1] == Unicast(port)
  {
  }

  /**
   * A spine forwards by ECMP (the flow id modulo the number of matching entries) and leaves the
   * tag's CE at the larger of its old value and the port's quantised congestion, so CE never
   * decreases along a path; the other tag fields pass unchanged.
   */
  lemma SpineRaisesCe(cfg: Config, t: Tables, p: Packet, forwarding: bool, now: int, r: nat,
                      quantize: (u32, u32) -> u32)
    requires Valid(t) && !cfg.isLeaf
    requires RouteInputSpec(cfg, t, p, forwarding, now, r, quantize).verdict.accepted
    ensures var o := RouteInputSpec(cfg, t, p, forwarding, now, r, quantize);
      var entries := Matching(cfg.entries, p.dest);
      var port := entries[p.flowId.value % |entries|].port;
      var x := quantize(port, o.tables.xMap[port]);
      && o.verdict.calls[|o.verdict.calls| - 1] == Unicast(port)
      && o.tag.Some? && o.tag.value.ce >= p.tag.value.ce
      && o.tag.value.ce == (if x > p.tag.value.ce then x else p.tag.value.ce)
      && o.tag.value == p.tag.value.(ce := o.tag.value.ce)
      && o.tables == t.(xMap := AddToDre(t.xMap, port, p.bytes))
  {
  }

  /**
   * A destination leaf records the path's CE as changed at time now, stores the piggybacked
   * metric for the source leaf only when FbLbTag is not the loopback port, removes the tag and
   * forwards by ECMP.
   */
  lemma ReceiverRecords(cfg: Config, t: Tables, p: Packet, forwarding: bool, now: int, r: nat,
                        quantize: (u32, u32) -> u32)
    requires Valid(t) && cfg.isLeaf && p.tag.Some?
    requires RouteInputSpec(cfg, t, p, forwarding, now, r, quantize).verdict.accepted
    ensures var o := RouteInputSpec(cfg, t, p, forwarding, now, r, quantize);
      var srcLeaf := cfg.ipLeafIdMap[p.src];
      var tag := p.tag.value;
      && o.tag.None?
      && o.tables.fromLeaf == RecordFeedback(t.fromLeaf, srcLeaf, tag.lbTag, tag.ce, now)
      && o.tables.fromLeaf[srcLeaf][tag.lbTag] == FeedbackInfo(tag.ce, true, now)
      && (tag.fbLbTag != LOOPBACK_PORT ==> o.tables.toLeaf[srcLeaf][tag.fbLbTag] == Remote(now, tag.fbMetric))
      && (tag.fbLbTag == LOOPBACK_PORT ==> o.tables.toLeaf == t.toLeaf)
      && o.tables.flowletTable == t.flowletTable && o.tables.feedbackIndex == t.feedbackIndex
  {
  }

  /**
   * The sender's port: an open flowlet keeps its port; otherwise the port belongs to a route of
   * least congestion degree (the cached one when it qualifies).
   */
  lemma SenderPortIsLeastCongested(cfg: Config, t: Tables, flowId: u32, destLeaf: u32, entries: seq<RouteEntry>,
                                   now: int, r: nat, quantize: (u32, u32) -> u32)
    requires entries != []
    ensures var port := SenderPort(cfg, t, flowId, destLeaf, entries, now, r, quantize);
      && (Hit(t.flowletTable, cfg.flowletTimeout, flowId, now) ==> port == t.flowletTable[flowId].port)
      && (!Hit(t.flowletTable, cfg.flowletTimeout, flowId, now) ==>
            exists e :: e in entries && e.port == port
              && DegreeTo(t, destLeaf, quantize)(port) == MinDegree(entries, DegreeTo(t, destLeaf, quantize)))
  {
    if !Hit(t.flowletTable, cfg.flowletTimeout, flowId, now) {
      var degree := DegreeTo(t, destLeaf, quantize);
      CandidatesAreMinimal(entries, degree);
    }
  }

  /**
   * A source leaf sends by SenderPort over the destination's matching routes, tags the packet
   * with that port, CE 0 and the piggybacked feedback, and refreshes the flow's flowlet there.
   */
  lemma SenderTags(cfg: Config, t: Tables, p: Packet, forwarding: bool, now: int, r: nat,
                   quantize: (u32, u32) -> u32)
    requires Valid(t) && cfg.isLeaf && p.tag.None?
    requires RouteInputSpec(cfg, t, p, forwarding, now, r, quantize).verdict.accepted
    ensures var o := RouteInputSpec(cfg, t, p, forwarding, now, r, quantize);
      var flowId := p.flowId.value;
      var destLeaf := cfg.ipLeafIdMap[p.dest];
      var f := Piggyback(t.fromLeaf, destLeaf, t.feedbackIndex);
      var port := SenderPort(cfg, t, flowId, destLeaf, Matching(cfg.entries, p.dest), now, r, quantize);
      && o.verdict.calls[|o.verdict.calls| - 1] == Unicast(port)
      && o.tag == Some(CongaHeader(port, 0, f.fbLbTag, f.fbMetric))
      && o.tables.flowletTable == t.flowletTable[flowId := Flowlet(port, now)]
      && o.tables.fromLeaf == f.fromLeaf && o.tables.feedbackIndex == f.index
      && o.tables.xMap == AddToDre(t.xMap, port, p.bytes) && o.tables.toLeaf == t.toLeaf
  {
  }

  /** RouteInput keeps every from-leaf table non-empty. */
  lemma RouteInputValid(cfg: Config, t: Tables, p: Packet, forwarding: bool, now: int, r: nat,
                        quantize: (u32, u32) -> u32)
    requires Valid(t)
    ensures Valid(RouteInputSpec(cfg, t, p, forwarding, now, r, quantize).tables)
  {
    if p.dest in cfg.ipLeafIdMap {
      PiggybackSpec(t.fromLeaf, cfg.ipLeafIdMap[p.dest], t.feedbackIndex);
    }
  }

  // ---------------------------------------------------------------- aging

  /** A to-leaf table after aging: stale metrics drop to 0, entries and their times are kept. */
  function AgeRemote(inner: map<u32, Remote>, now: int, agingTime: int): map<u32, Remote>
  {
    map port | port in inner :: if now - inner[port].time > agingTime then inner[port].(congestion := 0) else inner[port]
  }

  /** A from-leaf table after aging: only the entries updated within the aging time remain. */
  function FreshFeedback(inner: map<u32, FeedbackInfo>, now: int, agingTime: int): map<u32, FeedbackInfo>
  {
    map lbTag | lbTag in inner && now - inner[lbTag].updateTime <= agingTime :: inner[lbTag]
  }

  /**
   * AgingEvent's tables: every to-leaf table aged, every from-leaf table stripped of its stale
   * entries and dropped when none is left. (The source erases entries while iterating over the
   * maps; the model takes the evidently intended filter.)
   */
  function Aged(t: Tables, now: int, agingTime: int): Tables
  {
    t.(toLeaf := AgedToLeaf(t.toLeaf, now, agingTime), fromLeaf := AgedFromLeaf(t.fromLeaf, now, agingTime))
  }

  function AgedToLeaf(toLeaf: map<u32, map<u32, Remote>>, now: int, agingTime: int): map<u32, map<u32, Remote>>
  {
    map leaf | leaf in toLeaf :: AgeRemote(toLeaf[leaf], now, agingTime)
  }

  function AgedFromLeaf(fromLeaf: map<u32, map<u32, FeedbackInfo>>, now: int, agingTime: int)
    : map<u32, map<u32, FeedbackInfo>>
  {
    map leaf | leaf in fromLeaf && FreshFeedback(fromLeaf[leaf], now, agingTime) != map[]
      :: FreshFeedback(fromLeaf[leaf], now, agingTime)
  }

  /** Some entry of a to-leaf table was learnt within the aging time. */
  predicate HasFreshRemote(inner: map<u32, Remote>, now: int, agingTime: int)
  {
    exists port :: port in inner && now - inner[port].time <= agingTime
  }

  /** AgingEvent reschedules itself while some entry of either table is still within the aging time. */
  predicate AnyFresh(t: Tables, now: int, agingTime: int)
  {
    || (exists leaf :: leaf in t.toLeaf && HasFreshRemote(t.toLeaf[leaf], now, agingTime))
    || (exists leaf :: leaf in t.fromLeaf && FreshFeedback(t.fromLeaf[leaf], now, agingTime) != map[])
  }

  /**
   * Aging keeps every to-leaf entry and its time, zeroing exactly the stale metrics; it keeps
   * exactly the fresh from-leaf entries, leaves no from-leaf table empty, and touches nothing else.
   */
  lemma AgingSpec(t: Tables, now: int, agingTime: int)
    ensures var a := Aged(t, now, agingTime);
      forall leaf, port :: leaf in t.toLeaf && port in t.toLeaf[leaf] ==>
        && leaf in a.toLeaf && port in a.toLeaf[leaf]
        && a.toLeaf[leaf][port].time == t.toLeaf[leaf][port].time
        && a.toLeaf[leaf][port].congestion
           == (if now - t.toLeaf[leaf][port].time > agingTime then 0 else t.toLeaf[leaf][port].congestion)
    ensures var a := Aged(t, now, agingTime);
      forall leaf :: leaf in a.toLeaf <==> leaf in t.toLeaf
    ensures var a := Aged(t, now, agingTime);
      forall leaf, lbTag ::
        (leaf in a.fromLeaf && lbTag in a.fromLeaf[leaf]) <==>
        (leaf in t.fromLeaf && lbTag in t.fromLeaf[leaf] && now - t.fromLeaf[leaf][lbTag].updateTime <= agingTime)
    ensures var a := Aged(t, now, agingTime);
      forall leaf, lbTag :: leaf in a.fromLeaf && lbTag in a.fromLeaf[leaf] ==>
        a.fromLeaf[leaf][lbTag] == t.fromLeaf[leaf][lbTag]
    ensures Valid(Aged(t, now, agingTime))
    ensures Aged(t, now, agingTime).xMap == t.xMap && Aged(t, now, agingTime).flowletTable == t.flowletTable
  {
    var a := Aged(t, now, agingTime);
    forall leaf, lbTag | leaf in t.fromLeaf && lbTag in t.fromLeaf[leaf] && now - t.fromLeaf[leaf][lbTag].updateTime <= agingTime
      ensures leaf in a.fromLeaf && lbTag in a.fromLeaf[leaf]
    {
      assert lbTag in FreshFeedback(t.fromLeaf[leaf], now, agingTime);
    }
  }

  // ---------------------------------------------------------------- loops of the router

  /**
   * The candidate loop of RouteInput over the matching entries, computing each port's degree
   * from the DRE table and the destination leaf's to-leaf table.
   */
  method CandidatePorts(entries: seq<RouteEntry>, xMap: map<u32, u32>, remote: map<u32, Remote>,
                        quantize: (u32, u32) -> u32) returns (minPortCongestion: u32, portCandidates: seq<u32>)
    ensures (minPortCongestion, portCandidates) == Candidates(entries, port => Degree(xMap, remote, quantize, port))
  {
    ghost var degree := port => Degree(xMap, remote, quantize, port);
    minPortCongestion := U32_MAX;
    portCandidates := [];
    var i := 0;
    while i < |entries|
      invariant 0 <= i <= |entries|
      invariant (minPortCongestion, portCandidates) == Candidates(entries[..i], degree)
    {
      assert entries[..i + 1][..i] == entries[..i];
      var port := entries[i].port;
      var localCongestion: u32 := 0;
      var remoteCongestion: u32 := 0;
      if port in xMap {
        localCongestion := quantize(port, xMap[port]);
      }
      if port in remote {
        remoteCongestion := remote[port].congestion;
      }
      var congestionDegree := if localCongestion < remoteCongestion then remoteCongestion else localCongestion;
      assert congestionDegree == degree(port);
      if congestionDegree < minPortCongestion {
        minPortCongestion := congestionDegree;
        portCandidates := [port];
      } else if congestionDegree == minPortCongestion {
        portCandidates := portCandidates + [port];
      }
      i := i + 1;
    }
    assert entries[..i] == entries;
  }

  /** The first changed entry of a sequence is unique: FirstChanged finds it, or finds none when none is. */
  lemma FirstChangedAt(keys: seq<u32>, inner: map<u32, FeedbackInfo>, j: nat)
    requires forall k :: k in keys ==> k in inner
    requires j < |keys| && inner[keys[j]].change
    requires forall i :: 0 <= i < j ==> !inner[keys[i]].change
    ensures FirstChanged(keys, inner) == Some(j)
  {
  }

  /**
   * The walk of a source leaf over a from-leaf table's keys from position start: unless that
   * entry is changed, step on at most n times, wrapping around, until a changed entry is
   * reached. Position pos of the keys is position j of their rotation from start.
   */
  method WalkToChanged(keys: seq<u32>, inner: map<u32, FeedbackInfo>, start: nat)
    returns (pos: nat, ghost j: nat, found: bool)
    requires start < |keys| && forall k :: k in keys ==> k in inner
    ensures pos < |keys| && j < |keys| && keys[pos] == Rotation(keys, start)[j]
    ensures found ==> FirstChanged(Rotation(keys, start), inner) == Some(j)
    ensures !found ==> j == 0 && FirstChanged(Rotation(keys, start), inner) == None
  {
    var n := |keys|;
    ghost var rot := Rotation(keys, start);
    pos := start;
    j := 0;
    found := inner[keys[pos]].change;
    var loopIndex := 0;
    while loopIndex < n && !found
      invariant 0 <= loopIndex <= n && pos < n && j < n
      invariant pos == (if start + j < n then start + j else start + j - n)
      invariant keys[pos] == rot[j]
      invariant found ==> inner[rot[j]].change && forall i :: 0 <= i < j ==> !inner[rot[i]].change
      invariant !found ==> j == (if loopIndex < n then loopIndex else 0)
      invariant !found ==> forall i :: 0 <= i <= loopIndex && i < n ==> !inner[rot[i]].change
    {
      pos := pos + 1;
      if pos == n {
        pos := 0;
      }
      loopIndex := loopIndex + 1;
      j := if loopIndex < n then loopIndex else 0;
      found := inner[keys[pos]].change;
    }
    if found {
      FirstChangedAt(rot, inner, j);
    }
  }

  /** The entry a source leaf's walk stops at is the one PickFeedback names. */
  method ScanFeedback(inner: map<u32, FeedbackInfo>, index: nat) returns (k: u32)
    requires inner != map[]
    ensures k == PickFeedback(inner, index)
  {
    var keys := SortedKeys(inner.Keys);
    var pos, j, found := WalkToChanged(keys, inner, index % |keys|);
    k := keys[pos];
  }

  /** Aging every to-leaf table, noting whether some entry is still fresh. */
  method AgeToLeafTables(toLeaf: map<u32, map<u32, Remote>>, now: int, agingTime: int)
    returns (aged: map<u32, map<u32, Remote>>, anyFresh: bool)
    ensures aged == AgedToLeaf(toLeaf, now, agingTime)
    ensures anyFresh <==> exists l :: l in toLeaf && HasFreshRemote(toLeaf[l], now, agingTime)
  {
    aged := toLeaf;
    anyFresh := false;
    var todo := toLeaf.Keys;
    while todo != {}
      invariant todo <= toLeaf.Keys && aged.Keys == toLeaf.Keys
      invariant forall l :: l in toLeaf && l !in todo ==> aged[l] == AgeRemote(toLeaf[l], now, agingTime)
      invariant forall l :: l in todo ==> aged[l] == toLeaf[l]
      invariant anyFresh <==> exists l :: l in toLeaf && l !in todo && HasFreshRemote(toLeaf[l], now, agingTime)
      decreases todo
    {
      var leaf :| leaf in todo;
      var inner, stillFresh := AgeRemoteTable(aged[leaf], now, agingTime);
      aged := aged[leaf := inner];
      if stillFresh {
        anyFresh := true;
      }
      todo := todo - {leaf};
    }
  }

  /** Dropping the stale entries of every from-leaf table, and the tables left empty. */
  method DropStaleTables(fromLeaf: map<u32, map<u32, FeedbackInfo>>, now: int, agingTime: int)
    returns (kept: map<u32, map<u32, FeedbackInfo>>, anyFresh: bool)
    ensures kept == AgedFromLeaf(fromLeaf, now, agingTime)
    ensures anyFresh <==> exists l :: l in fromLeaf && FreshFeedback(fromLeaf[l], now, agingTime) != map[]
  {
    kept := fromLeaf;
    anyFresh := false;
    var todo := fromLeaf.Keys;
    ghost var target := AgedFromLeaf(fromLeaf, now, agingTime);
    while todo != {}
      invariant todo <= fromLeaf.Keys
      invariant forall l :: l in kept <==> l in target || l in todo
      invariant forall l :: l in kept && l !in todo ==> kept[l] == target[l]
      invariant forall l :: l in todo ==> kept[l] == fromLeaf[l]
      invariant anyFresh <==> exists l :: l in fromLeaf && l !in todo && FreshFeedback(fromLeaf[l], now, agingTime) != map[]
      decreases todo
    {
      var leaf :| leaf in todo;
      var inner := DropStaleFeedback(kept[leaf], now, agingTime);
      assert inner == FreshFeedback(fromLeaf[leaf], now, agingTime);
      if inner == map[] {
        assert leaf !in target;
        kept := kept - {leaf};
      } else {
        assert target[leaf] == inner;
        kept := kept[leaf := inner];
        anyFresh := true;
      }
      todo := todo - {leaf};
    }
  }

  /** Aging one to-leaf table in place, noting whether an entry is still fresh. */
  method AgeRemoteTable(inner: map<u32, Remote>, now: int, agingTime: int) returns (aged: map<u32, Remote>, stillFresh: bool)
    ensures aged == AgeRemote(inner, now, agingTime)
    ensures stillFresh == HasFreshRemote(inner, now, agingTime)
  {
    aged := inner;
    stillFresh := false;
    var todo := inner.Keys;
    while todo != {}
      invariant todo <= inner.Keys && aged.Keys == inner.Keys
      invariant forall q :: q in inner && q !in todo ==> aged[q] == AgeRemote(inner, now, agingTime)[q]
      invariant forall q :: q in todo ==> aged[q] == inner[q]
      invariant stillFresh <==> exists q :: q in inner && q !in todo && now - inner[q].time <= agingTime
      decreases todo
    {
      var q :| q in todo;
      if now - aged[q].time > agingTime {
        aged := aged[q := aged[q].(congestion := 0)];
      } else {
        stillFresh := true;
      }
      todo := todo - {q};
    }
  }

  /** Dropping the stale entries of one from-leaf table, in place. */
  method DropStaleFeedback(inner: map<u32, FeedbackInfo>, now: int, agingTime: int) returns (kept: map<u32, FeedbackInfo>)
    ensures kept == FreshFeedback(inner, now, agingTime)
  {
    kept := inner;
    var todo := inner.Keys;
    while todo != {}
      invariant todo <= inner.Keys
      invariant forall q :: q in kept <==> q in FreshFeedback(inner, now, agingTime) || q in todo
      invariant forall q :: q in kept ==> kept[q] == inner[q]
      decreases todo
    {
      var q :| q in todo;
      if now - kept[q].updateTime > agingTime {
        kept := map k | k in kept && k != q :: kept[k];
      }
      todo := todo - {q};
    }
  }

  // ---------------------------------------------------------------- the router

  class Ipv4CongaRouting {
    /** m_isLeaf, m_leafId */
    var isLeaf: bool
    var leafId: u32
    /** m_flowletTimeout, in nanoseconds */
    var flowletTimeout: int
    /** m_ecmpMode */
    var ecmpMode: bool
    /** m_routeEntryList */
    var routeEntryList: seq<RouteEntry>
    /** m_ipLeafIdMap: host address to the id of its leaf switch */
    var ipLeafIdMap: map<Ipv4Address, u32>
    /** m_XMap, m_congaToLeafTable, m_congaFromLeafTable, m_flowletTable, m_feedbackIndex */
    var xMap: map<u32, u32>
    var toLeaf: map<u32, map<u32, Remote>>
    var fromLeaf: map<u32, map<u32, FeedbackInfo>>
    var flowletTable: map<u32, Flowlet>
    var feedbackIndex: nat

    function Cfg(): Config
      reads this`isLeaf, this`leafId, this`ecmpMode, this`flowletTimeout, this`routeEntryList, this`ipLeafIdMap
    {
      Config(isLeaf, leafId, ecmpMode, flowletTimeout, routeEntryList, ipLeafIdMap)
    }

    function State(): Tables
      reads this`xMap, this`toLeaf, this`fromLeaf, this`flowletTable, this`feedbackIndex
    {
      Tables(xMap, toLeaf, fromLeaf, flowletTable, feedbackIndex)
    }

    predicate Valid()
      reads this`fromLeaf
    {
      forall leaf :: leaf in fromLeaf ==> fromLeaf[leaf] != map[]
    }

    /** A spine with no routes, no tables and the default timers. */
    constructor ()
      ensures Cfg() == Config(false, 0, false, DEFAULT_FLOWLET_TIMEOUT, [], map[])
      ensures State() == EMPTY_TABLES && Valid()
    {
      isLeaf := false;
      leafId := 0;
      flowletTimeout := DEFAULT_FLOWLET_TIMEOUT;
      ecmpMode := false;
      routeEntryList := [];
      ipLeafIdMap := map[];
      xMap := map[];
      toLeaf := map[];
      fromLeaf := map[];
      flowletTable := map[];
      feedbackIndex := 0;
    }

    /** SetLeafId: the switch becomes a leaf with the given id. */
    method SetLeafId(id: u32)
      modifies this`isLeaf, this`leafId
      ensures Cfg() == old(Cfg()).(isLeaf := true, leafId := id)
    {
      isLeaf := true;
      leafId := id;
    }

    method SetFlowletTimeout(timeout: int)
      modifies this`flowletTimeout
      ensures Cfg() == old(Cfg()).(flowletTimeout := timeout)
    {
      flowletTimeout := timeout;
    }

    method AddAddressToLeafIdMap(addr: Ipv4Address, id: u32)
      modifies this`ipLeafIdMap
      ensures Cfg() == old(Cfg()).(ipLeafIdMap := old(ipLeafIdMap)[addr := id])
    {
      ipLeafIdMap := ipLeafIdMap[addr := id];
    }

    method EnableEcmpMode()
      modifies this`ecmpMode
      ensures Cfg() == old(Cfg()).(ecmpMode := true)
    {
      ecmpMode := true;
    }

    method AddRoute(network: Ipv4Address, mask: bv32, port: u32)
      modifies this`routeEntryList
      ensures Cfg() == old(Cfg()).(entries := old(routeEntryList) + [RouteEntry(network, mask, port)])
    {
      routeEntryList := routeEntryList + [RouteEntry(network, mask, port)];
    }

    /** InitCongestion: seeds the remote metric of a leaf's port, learnt at time now. */
    method InitCongestion(leaf: u32, port: u32, congestion: u32, now: int)
      modifies this`toLeaf
      ensures State() == old(State()).(toLeaf := SetRemote(old(toLeaf), leaf, port, Remote(now, congestion)))
    {
      toLeaf := SetRemote(toLeaf, leaf, port, Remote(now, congestion));
    }

    /** UpdateLocalDre: adds the packet's bytes to the port's counter and returns the new value. */
    method UpdateLocalDre(port: u32, bytes: nat) returns (newX: u32)
      modifies this`xMap
      ensures xMap == AddToDre(old(xMap), port, bytes) && newX == xMap[port]
    {
      var x := if port in xMap then xMap[port] else 0;
      newX := (x + bytes) % U32_LIMIT;
      xMap := xMap[port := newX];
    }

    /**
     * The feedback step of a source leaf: advance to position feedbackIndex mod n of the
     * destination leaf's table, walk on (wrapping) to the first changed entry unless the start is
     * one, and send that entry after clearing its change flag.
     */
    method PiggybackFeedback(destLeaf: u32) returns (fbLbTag: u32, fbMetric: u32)
      requires Valid()
      modifies this`fromLeaf, this`feedbackIndex
      ensures Piggyback(old(fromLeaf), destLeaf, old(feedbackIndex)) == Feedback(fbLbTag, fbMetric, fromLeaf, feedbackIndex)
    {
      fbLbTag, fbMetric := LOOPBACK_PORT, 0;
      if destLeaf !in fromLeaf {
        return;
      }
      var inner := fromLeaf[destLeaf];
      fbLbTag := ScanFeedback(inner, feedbackIndex);
      feedbackIndex := feedbackIndex + 1;
      fbMetric := inner[fbLbTag].ce;
      fromLeaf := fromLeaf[destLeaf := inner[fbLbTag := inner[fbLbTag].(change := false)]];
    }

    /**
     * The port of a source leaf's packet: the open flowlet's, else the cached port if it is still
     * a candidate, else a random candidate. The feedback step before it changes none of the
     * tables read here.
     */
    method SelectPort(ghost t: Tables, flowId: u32, destLeaf: u32, entries: seq<RouteEntry>, now: int, r: nat,
                      quantize: (u32, u32) -> u32) returns (selectedPort: u32)
      requires entries != [] && t.xMap == xMap && t.toLeaf == toLeaf && t.flowletTable == flowletTable
      ensures selectedPort == SenderPort(Cfg(), t, flowId, destLeaf, entries, now, r, quantize)
    {
      if flowId in flowletTable && now - flowletTable[flowId].activeTime <= flowletTimeout {
        selectedPort := flowletTable[flowId].port;
      } else {
        var _, portCandidates := CandidatePorts(entries, xMap, RemoteOf(toLeaf, destLeaf), quantize);
        assert portCandidates == Candidates(entries, DegreeTo(t, destLeaf, quantize)).1;
        CandidatesNonEmpty(entries, DegreeTo(t, destLeaf, quantize));
        if flowId in flowletTable && flowletTable[flowId].port in portCandidates {
          selectedPort := flowletTable[flowId].port;
        } else {
          selectedPort := portCandidates[r % |portCandidates|];
        }
      }
    }

    /** RouteInput at a source leaf. */
    method SendLeaf(p: Packet, flowId: u32, entries: seq<RouteEntry>, now: int, r: nat, quantize: (u32, u32) -> u32)
      returns (v: Verdict, tag: Option<CongaHeader>)
      requires Valid() && entries != [] && p.tag.None? && p.flowId == Some(flowId)
      requires isLeaf
      modifies this`xMap, this`fromLeaf, this`flowletTable, this`feedbackIndex
      ensures Outcome(v, tag, State()) == Send(Cfg(), old(State()), p, flowId, entries, now, r, quantize)
    {
      if p.dest !in ipLeafIdMap {
        return Reject, p.tag;
      }
      var destLeaf := ipLeafIdMap[p.dest];
      ghost var t := State();
      var fbLbTag, fbMetric := PiggybackFeedback(destLeaf);
      ghost var f := Piggyback(t.fromLeaf, destLeaf, t.feedbackIndex);
      assert f == Feedback(fbLbTag, fbMetric, fromLeaf, feedbackIndex);
      var selectedPort := SelectPort(t, flowId, destLeaf, entries, now, r, quantize);
      flowletTable := flowletTable[flowId := Flowlet(selectedPort, now)];
      var _ := UpdateLocalDre(selectedPort, p.bytes);
      v := Forward(selectedPort);
      tag := Some(CongaHeader(selectedPort, 0, fbLbTag, fbMetric));
      assert State() == t.(fromLeaf := fromLeaf, feedbackIndex := feedbackIndex,
                           flowletTable := t.flowletTable[flowId := Flowlet(selectedPort, now)],
                           xMap := AddToDre(t.xMap, selectedPort, p.bytes));
    }

    /** RouteInput at a destination leaf. */
    method ReceiveLeaf(p: Packet, flowId: u32, entries: seq<RouteEntry>, now: int) returns (v: Verdict, tag: Option<CongaHeader>)
      requires entries != [] && p.tag.Some?
      modifies this`xMap, this`toLeaf, this`fromLeaf
      ensures Outcome(v, tag, State()) == Receive(Cfg(), old(State()), p, flowId, entries, now)
    {
      if p.src !in ipLeafIdMap {
        return Reject, p.tag;
      }
      var sourceLeafId := ipLeafIdMap[p.src];
      var congaTag := p.tag.value;
      fromLeaf := RecordFeedback(fromLeaf, sourceLeafId, congaTag.lbTag, congaTag.ce, now);
      if congaTag.fbLbTag != LOOPBACK_PORT {
        toLeaf := SetRemote(toLeaf, sourceLeafId, congaTag.fbLbTag, Remote(now, congaTag.fbMetric));
      }
      var selectedPort := entries[flowId % |entries|].port;
      var _ := UpdateLocalDre(selectedPort, p.bytes);
      v := Forward(selectedPort);
      tag := None;
    }

    /** RouteInput at a spine. */
    method RelaySpine(p: Packet, flowId: u32, entries: seq<RouteEntry>, quantize: (u32, u32) -> u32)
      returns (v: Verdict, tag: Option<CongaHeader>)
      requires entries != []
      modifies this`xMap
      ensures Outcome(v, tag, State()) == Relay(old(State()), p, flowId, entries, quantize)
    {
      if p.tag.None? {
        return Reject, p.tag;
      }
      var selectedPort := entries[flowId % |entries|].port;
      var x := UpdateLocalDre(selectedPort, p.bytes);
      var quantizingX := quantize(selectedPort, x);
      var congaTag := p.tag.value;
      if quantizingX > congaTag.ce {
        congaTag := congaTag.(ce := quantizingX);
      }
      v := Forward(selectedPort);
      tag := Some(congaTag);
    }

    /**
     * RouteInput: the verdict, the packet's Conga tag on leaving, and the new tables are those of
     * RouteInputSpec; the configuration does not change.
     */
    method RouteInput(p: Packet, forwarding: bool, now: int, r: nat, quantize: (u32, u32) -> u32)
      returns (v: Verdict, tag: Option<CongaHeader>)
      requires Valid()
      modifies this`xMap, this`toLeaf, this`fromLeaf, this`flowletTable, this`feedbackIndex
      ensures Outcome(v, tag, State()) == RouteInputSpec(old(Cfg()), old(State()), p, forwarding, now, r, quantize)
      ensures Valid()
    {
      ghost var t := State();
      RouteInputValid(Cfg(), t, p, forwarding, now, r, quantize);
      if !Admissible(p.dest, forwarding) || p.flowId.None? {
        return Reject, p.tag;
      }
      var flowId := p.flowId.value;
      var routeEntries := LookupRouteEntries(routeEntryList, p.dest);
      if routeEntries == [] {
        return Reject, p.tag;
      }
      var ecmp: seq<Action> := [];
      if ecmpMode {
        ecmp := [Unicast(routeEntries[flowId % |routeEntries|].port)];
      }
      var w: Verdict;
      if !isLeaf {
        w, tag := RelaySpine(p, flowId, routeEntries, quantize);
      } else if p.tag.None? {
        w, tag := SendLeaf(p, flowId, routeEntries, now, r, quantize);
      } else {
        w, tag := ReceiveLeaf(p, flowId, routeEntries, now);
      }
      v := Verdict(w.accepted, ecmp + w.calls);
    }

    /**
     * AgingEvent at time now: every to-leaf metric older than the aging time drops to 0, every
     * stale from-leaf entry goes (and with it a table left empty); the event reschedules itself
     * while some entry is fresh.
     */
    method AgingEvent(now: int) returns (reschedule: bool)
      modifies this`toLeaf, this`fromLeaf
      ensures State() == Aged(old(State()), now, DEFAULT_AGING_TIME)
      ensures reschedule == AnyFresh(old(State()), now, DEFAULT_AGING_TIME)
      ensures Valid()
    {
      ghost var t := State();
      var freshTo, freshFrom;
      toLeaf, freshTo := AgeToLeafTables(toLeaf, now, DEFAULT_AGING_TIME);
      fromLeaf, freshFrom := DropStaleTables(fromLeaf, now, DEFAULT_AGING_TIME);
      reschedule := freshTo || freshFrom;
      AgingSpec(t, now, DEFAULT_AGING_TIME);
    }
  }
}
