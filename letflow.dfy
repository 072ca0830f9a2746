/**
 * LetFlow (src/letflow-routing/model/ipv4-letflow-routing.cc): a switch keeps, per flow id, the
 * port of the flow's current flowlet and when it last saw a packet of it. A packet arriving
 * within the flowlet timeout of the previous one follows it; otherwise the switch picks one of
 * the destination's candidate ports at random and starts a new flowlet there.
 */
module LetFlow {
  import opened Wrappers
  import opened Words
  import opened Routing

  /** MicroSeconds(50), in nanoseconds. */
  const DEFAULT_FLOWLET_TIMEOUT: int := 50_000

  /** LetFlowFlowlet: the port of the flow's flowlet and the time its last packet was seen. */
  datatype Flowlet = Flowlet(port: u32, activeTime: int)

  /** What RouteInput reads of a packet: its destination and its FlowIdTag, if any. */
  datatype Packet = Packet(dest: Ipv4Address, flowId: Option<u32>)

  /** The flow's flowlet is still open at time now: seen within the timeout. */
  predicate Hit(table: map<u32, Flowlet>, timeout: int, flowId: u32, now: int)
  {
    flowId in table && now - table[flowId].activeTime <= timeout
  }

  /**
   * RouteInput as a function of the route entries, the flowlet table, the timeout, the packet,
   * whether the input interface forwards, the arrival time and rand()'s value r; it yields the
   * verdict and the new flowlet table.
   */
  function RouteInputSpec(entries: seq<RouteEntry>, table: map<u32, Flowlet>, timeout: int,
                          p: Packet, forwarding: bool, now: int, r: nat): (res: (Verdict, map<u32, Flowlet>))
    ensures !res.0.accepted ==> res.0 == Reject && res.1 == table
    ensures res.0.accepted <==>
      Admissible(p.dest, forwarding) && p.flowId.Some? && Matching(entries, p.dest) != []
  {
    if !Admissible(p.dest, forwarding) || p.flowId.None? then (Reject, table)
    else
      var candidates := Matching(entries, p.dest);
      var flowId := p.flowId.value;
      if candidates == [] then (Reject, table)
      else if Hit(table, timeout, flowId, now) then
        var port := table[flowId].port;
        (Forward(port), table[flowId := Flowlet(port, now)])
      else
        var port := candidates[r % |candidates|].port;
        (Forward(port), table[flowId := Flowlet(port, now)])
  }

  /**
   * An accepted packet goes out of exactly one port and refreshes its flow's flowlet there:
   * the flowlet's port when it is still open, otherwise a candidate route of the destination.
   */
  lemma AcceptedPacket(entries: seq<RouteEntry>, table: map<u32, Flowlet>, timeout: int,
                       p: Packet, forwarding: bool, now: int, r: nat)
    requires RouteInputSpec(entries, table, timeout, p, forwarding, now, r).0.accepted
    ensures var (v, table') := RouteInputSpec(entries, table, timeout, p, forwarding, now, r);
      exists port ::
        && v == Forward(port)
        && table' == table[p.flowId.value := Flowlet(port, now)]
        && (Hit(table, timeout, p.flowId.value, now) ==> port == table[p.flowId.value].port)
        && (!Hit(table, timeout, p.flowId.value, now) ==>
              exists e :: e in entries && IsMatch(e, p.dest) && e.port == port)
  {
    var candidates := Matching(entries, p.dest);
    var flowId := p.flowId.value;
    if Hit(table, timeout, flowId, now) {
      var port := table[flowId].port;
      assert RouteInputSpec(entries, table, timeout, p, forwarding, now, r).0 == Forward(port);
    } else {
      var e := candidates[r % |candidates|];
      MatchingMembers(entries, p.dest, e);
      assert RouteInputSpec(entries, table, timeout, p, forwarding, now, r).0 == Forward(e.port);
    }
  }

  /** The ports a run of packets of one flow to one destination takes, arriving at times ts. */
  function Ports(entries: seq<RouteEntry>, table: map<u32, Flowlet>, timeout: int,
                 p: Packet, ts: seq<int>, rs: seq<nat>): (ports: seq<u32>)
    requires Admissible(p.dest, true) && p.flowId.Some? && Matching(entries, p.dest) != []
    requires |rs| == |ts|
    ensures |ports| == |ts|
    decreases |ts|
  {
    if ts == [] then []
    else
      var (v, table') := RouteInputSpec(entries, table, timeout, p, true, ts[0], rs[0]);
      [v.calls[0].port] + Ports(entries, table', timeout, p, ts[1..], rs[1..])
  }

  /** No gap between consecutive arrivals exceeds the timeout. */
  predicate Bursty(ts: seq<int>, timeout: int)
  {
    forall i :: 0 < i < |ts| ==> ts[i] - ts[i - 1] <= timeout
  }

  /**
   * Flowlet stickiness: in a burst whose gaps never exceed the flowlet timeout, every packet
   * after the first leaves by the port the first one took, whatever rand() returns.
   */
  lemma {:induction false} BurstSticks(entries: seq<RouteEntry>, table: map<u32, Flowlet>, timeout: int,
                                       p: Packet, ts: seq<int>, rs: seq<nat>)
    requires Admissible(p.dest, true) && p.flowId.Some? && Matching(entries, p.dest) != []
    requires |rs| == |ts| && Bursty(ts, timeout)
    ensures forall i :: 0 <= i < |ts| ==>
      Ports(entries, table, timeout, p, ts, rs)[i] == Ports(entries, table, timeout, p, ts, rs)[0]
    decreases |ts|
  {
    if |ts| > 1 {
      var (v, table') := RouteInputSpec(entries, table, timeout, p, true, ts[0], rs[0]);
      var flowId := p.flowId.value;
      AcceptedPacket(entries, table, timeout, p, true, ts[0], rs[0]);
      assert table'[flowId] == Flowlet(v.calls[0].port, ts[0]);
      assert Bursty(ts[1..], timeout) by {
        forall i | 0 < i < |ts[1..]|
          ensures ts[1..][i] - ts[1..][i - 1] <= timeout
        {
          assert ts[1..][i] == ts[i + 1] && ts[1..][i - 1] == ts[i];
        }
      }
      BurstSticks(entries, table', timeout, p, ts[1..], rs[1..]);
      assert Hit(table', timeout, flowId, ts[1]) by {
        assert ts[1] - ts[0] <= timeout;
      }
      var (v2, _) := RouteInputSpec(entries, table', timeout, p, true, ts[1], rs[1]);
      AcceptedPacket(entries, table', timeout, p, true, ts[1], rs[1]);
      assert v2.calls[0].port == v.calls[0].port;
      var ports := Ports(entries, table, timeout, p, ts, rs);
      var tail := Ports(entries, table', timeout, p, ts[1..], rs[1..]);
      assert ports == [v.calls[0].port] + tail;
      assert tail[0] == v2.calls[0].port;
      forall i | 0 <= i < |ports|
        ensures ports[i] == ports[0]
      {
        if i > 0 {
          assert ports[i] == tail[i - 1];
          assert tail[i - 1] == tail[0];
        }
      }
    }
  }

  class Ipv4LetFlowRouting {
    /** m_routeEntryList */
    var routeEntryList: seq<RouteEntry>
    /** m_flowletTable: flow id to its current flowlet. */
    var flowletTable: map<u32, Flowlet>
    /** m_flowletTimeout, in nanoseconds. */
    var flowletTimeout: int

    constructor ()
      ensures routeEntryList == [] && flowletTable == map[]
      ensures flowletTimeout == DEFAULT_FLOWLET_TIMEOUT
    {
      routeEntryList := [];
      flowletTable := map[];
      flowletTimeout := DEFAULT_FLOWLET_TIMEOUT;
    }

    /** AddRoute: appends an entry; the new route becomes a candidate of every destination it matches. */
    method AddRoute(network: Ipv4Address, mask: bv32, port: u32)
      modifies this
      ensures routeEntryList == old(routeEntryList) + [RouteEntry(network, mask, port)]
      ensures flowletTable == old(flowletTable) && flowletTimeout == old(flowletTimeout)
    {
      routeEntryList := routeEntryList + [RouteEntry(network, mask, port)];
    }

    method SetFlowletTimeout(timeout: int)
      modifies this
      ensures flowletTimeout == timeout
      ensures routeEntryList == old(routeEntryList) && flowletTable == old(flowletTable)
    {
      flowletTimeout := timeout;
    }

    /** RouteInput: decides the packet's port and updates the flowlet table as RouteInputSpec says. */
    method RouteInput(p: Packet, forwarding: bool, now: int, r: nat) returns (v: Verdict)
      modifies this
      ensures (v, flowletTable)
           == RouteInputSpec(routeEntryList, old(flowletTable), flowletTimeout, p, forwarding, now, r)
      ensures routeEntryList == old(routeEntryList) && flowletTimeout == old(flowletTimeout)
    {
      if !Admissible(p.dest, forwarding) || p.flowId.None? {
        return Reject;
      }
      var flowId := p.flowId.value;
      var routeEntries := LookupRouteEntries(routeEntryList, p.dest);
      if routeEntries == [] {
        return Reject;
      }
      if flowId in flowletTable {
        var flowlet := flowletTable[flowId];
        if now - flowlet.activeTime <= flowletTimeout {
          flowlet := flowlet.(activeTime := now);
          v := Forward(flowlet.port);
          flowletTable := flowletTable[flowId := flowlet];
          return;
        }
      }
      var selectedPort := routeEntries[r % |routeEntries|].port;
      v := Forward(selectedPort);
      flowletTable := flowletTable[flowId := Flowlet(selectedPort, now)];
    }
  }
}
