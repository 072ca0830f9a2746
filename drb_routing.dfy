/**
 * DRB/Presto end-host routing (src/drb-routing/model/ipv4-drb-routing.cc). RouteOutput does not
 * route: it tags each outgoing packet with the next XPath path id of its flow (PER_FLOW mode) or
 * of its destination (PER_DEST mode), cycling through the path list; a path added with weight w
 * appears w times. Destinations may have their own path lists (weighted Presto).
 */
module DrbRouting {
  import opened Wrappers
  import opened Words
  import opened RoundRobin

  /** DrbRoutingMode: PER_DEST = 0, PER_FLOW = 1; m_mode is a plain unsigned attribute. */
  const PER_DEST: u32 := 0
  const PER_FLOW: u32 := 1

  /** The SocketErrno values RouteOutput sets. */
  datatype SocketErrno = ErrorNotError | ErrorNoRouteToHost

  /** What RouteOutput reads of a packet: its FlowIdTag, if any, and the header's destination. */
  datatype OutPacket = OutPacket(flowId: Option<u32>, dest: u32)

  /**
   * What RouteOutput leaves behind: the sockerr it set (None when it set none) and the XPath
   * path id it attached to the packet (None when it attached none). It always returns a null route.
   */
  datatype OutputResult = OutputResult(sockerr: Option<SocketErrno>, pathTag: Option<u32>)

  /** The key a packet's round robin position is stored under, or None when RouteOutput gives up. */
  function FlowKey(mode: u32, p: OutPacket): (k: Option<u32>)
    ensures k.Some? <==> (mode == PER_FLOW && p.flowId.Some?) || mode == PER_DEST
  {
    if mode == PER_FLOW then p.flowId
    else if mode == PER_DEST then Some(p.dest)
    else None
  }

  /** Appends k copies of x, one push_back at a time. */
  method AppendCopies(s: seq<u32>, x: u32, k: u32) returns (r: seq<u32>)
    ensures r == s + Copies(x, k)
  {
    r := s;
    var i := 0;
    while i < k
      invariant 0 <= i <= k
      invariant r == s + Copies(x, i)
    {
      r := r + [x];
      i := i + 1;
    }
  }

  class Ipv4DrbRouting {
    /** m_paths: the default path list. */
    var paths: seq<u32>
    /** m_extraPaths: destination to its own path list. */
    var extraPaths: map<u32, seq<u32>>
    /** m_indexMap: flow key to the position its next packet uses. */
    var indexMap: map<u32, nat>
    /** m_mode */
    var mode: u32

    constructor ()
      ensures paths == [] && extraPaths == map[] && indexMap == map[] && mode == PER_FLOW
    {
      paths := [];
      extraPaths := map[];
      indexMap := map[];
      mode := PER_FLOW;
    }

    /** The path list a destination uses. */
    function PathsFor(dest: u32): seq<u32>
      reads this
    {
      if dest in extraPaths then extraPaths[dest] else paths
    }

    /**
     * A packet RouteOutput would tag has a non-empty list and, if its key is stored, a position
     * inside that list (otherwise the source divides by zero or indexes out of range).
     */
    predicate CanTag(p: OutPacket)
      reads this
    {
      var key := FlowKey(mode, p);
      key.Some? ==>
        && |PathsFor(p.dest)| > 0
        && (key.value in indexMap ==> indexMap[key.value] < |PathsFor(p.dest)|)
    }

    /** AddPath(path): the same as AddPath(1, path). */
    method AddPath(path: u32) returns (ok: bool)
      modifies this
      ensures ok && paths == old(paths) + [path]
      ensures extraPaths == old(extraPaths) && indexMap == old(indexMap) && mode == old(mode)
    {
      ok := AddPathWithWeight(1, path);
    }

    /** AddPath(weight, path): a weight other than 1 is refused unless the mode is PER_FLOW. */
    method AddPathWithWeight(weight: u32, path: u32) returns (ok: bool)
      modifies this
      ensures ok <==> weight == 1 || mode == PER_FLOW
      ensures paths == if ok then old(paths) + Copies(path, weight) else old(paths)
      ensures extraPaths == old(extraPaths) && indexMap == old(indexMap) && mode == old(mode)
    {
      if weight != 1 && mode != PER_FLOW {
        return false;
      }
      paths := AppendCopies(paths, path, weight);
      return true;
    }

    /**
     * AddWeightedPath(weight, path, exclusiveIPs): adds the weighted path to the default list
     * (through AddPath, whose refusal is ignored) and to every destination list whose destination
     * is not excluded; it always reports success.
     */
    method AddWeightedPath(weight: u32, path: u32, exclusiveIPs: set<u32>) returns (ok: bool)
      modifies this
      ensures ok
      ensures paths == if weight == 1 || mode == PER_FLOW then old(paths) + Copies(path, weight) else old(paths)
      ensures extraPaths == map k | k in old(extraPaths) ::
        if k in exclusiveIPs then old(extraPaths)[k] else old(extraPaths)[k] + Copies(path, weight)
      ensures indexMap == old(indexMap) && mode == old(mode)
    {
      var _ := AddPathWithWeight(weight, path);
      var lists := extraPaths;
      var keys := lists.Keys;
      while keys != {}
        invariant keys <= extraPaths.Keys && lists.Keys == extraPaths.Keys
        invariant forall k :: k in extraPaths ==>
          lists[k] == if k in keys || k in exclusiveIPs then extraPaths[k] else extraPaths[k] + Copies(path, weight)
        modifies {}
        decreases keys
      {
        var key :| key in keys;
        if key !in exclusiveIPs {
          var ps := AppendCopies(lists[key], path, weight);
          lists := lists[key := ps];
        }
        keys := keys - {key};
      }
      extraPaths := lists;
      return true;
    }

    /**
     * AddWeightedPath(destAddr, weight, path): the destination's list (a copy of the default
     * list when it has none yet) gains the weighted path.
     */
    method AddWeightedPathForDest(destAddr: u32, weight: u32, path: u32) returns (ok: bool)
      modifies this
      ensures ok
      ensures extraPaths == old(extraPaths)[destAddr := old(PathsFor(destAddr)) + Copies(path, weight)]
      ensures paths == old(paths) && indexMap == old(indexMap) && mode == old(mode)
    {
      var ps := if destAddr in extraPaths then extraPaths[destAddr] else paths;
      ps := AppendCopies(ps, path, weight);
      extraPaths := extraPaths[destAddr := ps];
      return true;
    }

    /**
     * RouteOutput: r is rand()'s value. A null packet is left alone; a packet without a key for
     * the mode gets ERROR_NOROUTETOHOST; otherwise the packet is tagged with the entry at its
     * key's position (or at r mod the list length for a new key), the next position is stored,
     * and sockerr is ERROR_NOTERROR.
     */
    method RouteOutput(p: Option<OutPacket>, r: nat) returns (res: OutputResult)
      requires p.Some? ==> CanTag(p.value)
      modifies this
      ensures paths == old(paths) && extraPaths == old(extraPaths) && mode == old(mode)
      ensures p.None? ==> res == OutputResult(None, None) && indexMap == old(indexMap)
      ensures p.Some? && FlowKey(mode, p.value).None? ==>
        res == OutputResult(Some(ErrorNoRouteToHost), None) && indexMap == old(indexMap)
      ensures p.Some? && FlowKey(mode, p.value).Some? ==>
        var key := FlowKey(mode, p.value).value;
        var ps := PathsFor(p.value.dest);
        var i := Start(old(indexMap), key, r, |ps|);
        && res == OutputResult(Some(ErrorNotError), Some(ps[i]))
        && indexMap == old(indexMap)[key := Next(i, |ps|)]
    {
      if p.None? {
        return OutputResult(None, None);
      }
      var packet := p.value;
      var flowIdentify := 0;
      if mode == PER_FLOW {
        if packet.flowId.None? {
          return OutputResult(Some(ErrorNoRouteToHost), None);
        }
        flowIdentify := packet.flowId.value;
      } else if mode == PER_DEST {
        flowIdentify := packet.dest;
      } else {
        return OutputResult(Some(ErrorNoRouteToHost), None);
      }
      var ps := if packet.dest in extraPaths then extraPaths[packet.dest] else paths;
      var index := r % |ps|;
      if flowIdentify in indexMap {
        index := indexMap[flowIdentify];
      }
      var path := ps[index];
      indexMap := indexMap[flowIdentify := (index + 1) % |ps|];
      return OutputResult(Some(ErrorNotError), Some(path));
    }

    /** RouteInput: DRB only routes at end hosts, so every packet is handed to ecb and refused. */
    function RouteInput(): (res: (bool, SocketErrno))
      ensures !res.0 && res.1 == ErrorNoRouteToHost
    {
      (false, ErrorNoRouteToHost)
    }
  }

  /**
   * Once a flow's key has a position, k packets of it are tagged with the path ids Picks names:
   * the flow sprays its packets over its list cyclically, each path as often as its weight per round.
   */
  method SprayFlow(drb: Ipv4DrbRouting, p: OutPacket, rs: seq<nat>) returns (tags: seq<u32>)
    requires FlowKey(drb.mode, p).Some? && FlowKey(drb.mode, p).value in drb.indexMap
    requires drb.CanTag(p)
    modifies drb
    ensures tags == Picks(old(drb.PathsFor(p.dest)), old(drb.indexMap[FlowKey(drb.mode, p).value]), |rs|)
  {
    ghost var key := FlowKey(drb.mode, p).value;
    ghost var ps := drb.PathsFor(p.dest);
    ghost var start := drb.indexMap[key];
    tags := [];
    var j := 0;
    while j < |rs|
      invariant 0 <= j <= |rs|
      invariant drb.PathsFor(p.dest) == ps && FlowKey(drb.mode, p) == Some(key)
      invariant key in drb.indexMap && drb.CanTag(p)
      invariant Picks(ps, start, |rs|) == tags + Picks(ps, drb.indexMap[key], |rs| - j)
    {
      var res := drb.RouteOutput(Some(p), rs[j]);
      tags := tags + [res.pathTag.value];
      j := j + 1;
    }
  }
}
