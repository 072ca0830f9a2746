/**
 * CLOVE edge load balancing (src/clove/model/ipv4-clove.cc): the sending host keeps, per flow,
 * the path of its current flowlet. A flowlet idle for at least the timeout moves to a path drawn
 * at random among those known for the destination's top-of-rack switch.
 */
module Clove {
  import opened Wrappers
  import opened Words

  /** MicroSeconds(200), in nanoseconds. */
  const DEFAULT_FLOWLET_TIMEOUT: int := 200_000

  /** CLOVE_RUNMODE_EDGE_FLOWLET, CLOVE_RUNMODE_ECN, CLOVE_RUNMODE_INT. */
  const RUNMODE_EDGE_FLOWLET: u32 := 0
  const RUNMODE_ECN: u32 := 1
  const RUNMODE_INT: u32 := 2

  /** A flowlet: when the flow was last seen and the path it is on. */
  datatype Flowlet = Flowlet(lastSeen: int, path: u32)

  /**
   * CalPath: a random known path to the ToR (r is rand()'s value) in edge-flowlet mode; 0 when
   * no path to the ToR is known or in the unimplemented ECN and INT modes.
   */
  function CalPath(availablePath: map<u32, seq<u32>>, runMode: u32, destTor: u32, r: nat): (path: u32)
    requires destTor in availablePath ==> availablePath[destTor] != []
    ensures path == 0 || (destTor in availablePath && path in availablePath[destTor])
    ensures runMode == RUNMODE_EDGE_FLOWLET && destTor in availablePath ==> path in availablePath[destTor]
  {
    if destTor !in availablePath then 0
    else
      var paths := availablePath[destTor];
      if runMode == RUNMODE_EDGE_FLOWLET then paths[r % |paths|] else 0
  }

  /** FindTorId: the ToR an address was registered under, if any. */
  function FindTorId(ipTorMap: map<u32, u32>, addr: u32): (tor: Option<u32>)
    ensures tor.Some? <==> addr in ipTorMap
    ensures tor.Some? ==> tor.value == ipTorMap[addr]
  {
    if addr in ipTorMap then Some(ipTorMap[addr]) else None
  }

  class Ipv4Clove {
    var flowletTimeout: int
    var runMode: u32
    /** m_availablePath: destination ToR to the path ids known for it. */
    var availablePath: map<u32, seq<u32>>
    /** m_ipTorMap: host address to its ToR. */
    var ipTorMap: map<u32, u32>
    /** m_flowletMap: flow id to its flowlet. */
    var flowletMap: map<u32, Flowlet>

    /** Every ToR with an entry has at least one path: AddAvailPath creates entries by pushing one. */
    predicate Valid()
      reads this
    {
      forall t :: t in availablePath ==> availablePath[t] != []
    }

    constructor ()
      ensures Valid()
      ensures flowletTimeout == DEFAULT_FLOWLET_TIMEOUT && runMode == RUNMODE_EDGE_FLOWLET
      ensures availablePath == map[] && ipTorMap == map[] && flowletMap == map[]
    {
      flowletTimeout := DEFAULT_FLOWLET_TIMEOUT;
      runMode := RUNMODE_EDGE_FLOWLET;
      availablePath := map[];
      ipTorMap := map[];
      flowletMap := map[];
    }

    /** The copy constructor copies the timeout and the run mode only; all tables start empty. */
    constructor Copy(other: Ipv4Clove)
      ensures Valid()
      ensures flowletTimeout == other.flowletTimeout && runMode == other.runMode
      ensures availablePath == map[] && ipTorMap == map[] && flowletMap == map[]
    {
      flowletTimeout := other.flowletTimeout;
      runMode := other.runMode;
      availablePath := map[];
      ipTorMap := map[];
      flowletMap := map[];
    }

    /** AddAddressWithTor: registers (or re-registers) the address under the ToR. */
    method AddAddressWithTor(address: u32, torId: u32)
      modifies this
      ensures ipTorMap == old(ipTorMap)[address := torId]
      ensures availablePath == old(availablePath) && flowletMap == old(flowletMap)
      ensures flowletTimeout == old(flowletTimeout) && runMode == old(runMode)
    {
      ipTorMap := ipTorMap[address := torId];
    }

    /** AddAvailPath: appends a path to the ToR's list, creating the list if needed. */
    method AddAvailPath(destTor: u32, path: u32)
      requires Valid()
      modifies this
      ensures Valid()
      ensures availablePath == old(availablePath)[destTor :=
        (if destTor in old(availablePath) then old(availablePath)[destTor] else []) + [path]]
      ensures ipTorMap == old(ipTorMap) && flowletMap == old(flowletMap)
      ensures flowletTimeout == old(flowletTimeout) && runMode == old(runMode)
    {
      if destTor !in availablePath {
        availablePath := availablePath[destTor := []];
      }
      availablePath := availablePath[destTor := availablePath[destTor] + [path]];
    }

    /**
     * GetPath as a function of the state: the path returned and the new flowlet table, for a
     * packet at time now with r1 and r2 the values of the two rand() calls CalPath may make.
     */
    function GetPathSpec(flowId: u32, saddr: u32, daddr: u32, now: int, r1: nat, r2: nat): (res: (u32, map<u32, Flowlet>))
      requires Valid()
      reads this
    {
      match FindTorId(ipTorMap, daddr)
      case None => (0, flowletMap)
      case Some(destTor) =>
        var flowlet := if flowId in flowletMap then flowletMap[flowId]
                       else Flowlet(0, CalPath(availablePath, runMode, destTor, r1));
        var flowlet := if now - flowlet.lastSeen >= flowletTimeout
                       then flowlet.(path := CalPath(availablePath, runMode, destTor, r2))
                       else flowlet;
        var flowlet := flowlet.(lastSeen := now);
        (flowlet.path, flowletMap[flowId := flowlet])
    }

    /**
     * What a path request yields: 0 with nothing recorded when the destination's ToR is unknown;
     * otherwise the flow's flowlet is stamped with now, keeps its path while it has been seen
     * within the timeout, and otherwise takes a fresh known path of the destination's ToR (or 0
     * if none is known).
     */
    lemma GetPathOutcome(flowId: u32, saddr: u32, daddr: u32, now: int, r1: nat, r2: nat)
      requires Valid()
      ensures var (path, table) := GetPathSpec(flowId, saddr, daddr, now, r1, r2);
        && (daddr !in ipTorMap ==> path == 0 && table == flowletMap)
        && (daddr in ipTorMap ==>
              && table == flowletMap[flowId := Flowlet(now, path)]
              && (flowId in flowletMap && now - flowletMap[flowId].lastSeen < flowletTimeout ==>
                    path == flowletMap[flowId].path)
              && (path == 0 || (ipTorMap[daddr] in availablePath && path in availablePath[ipTorMap[daddr]]) ||
                  (flowId in flowletMap && path == flowletMap[flowId].path)))
    {
    }

    /** GetPath: the source ToR is looked up only to log its absence; it does not affect the path. */
    method GetPath(flowId: u32, saddr: u32, daddr: u32, now: int, r1: nat, r2: nat) returns (path: u32)
      requires Valid()
      modifies this
      ensures Valid()
      ensures availablePath == old(availablePath) && ipTorMap == old(ipTorMap)
      ensures flowletTimeout == old(flowletTimeout) && runMode == old(runMode)
      ensures (path, flowletMap) == old(GetPathSpec(flowId, saddr, daddr, now, r1, r2))
    {
      var destTor := FindTorId(ipTorMap, daddr);
      if destTor.None? {
        return 0;
      }
      var sourceTor := FindTorId(ipTorMap, saddr);
      var flowlet: Flowlet;
      if flowId in flowletMap {
        flowlet := flowletMap[flowId];
      } else {
        flowlet := Flowlet(0, CalPath(availablePath, runMode, destTor.value, r1));
      }
      if now - flowlet.lastSeen >= flowletTimeout {
        flowlet := flowlet.(path := CalPath(availablePath, runMode, destTor.value, r2));
      }
      flowlet := flowlet.(lastSeen := now);
      flowletMap := flowletMap[flowId := flowlet];
      return flowlet.path;
    }
  }
}
