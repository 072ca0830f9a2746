/**
 * XPath source routing (src/xpath-routing/model/ipv4-xpath-routing.cc). The sender writes the
 * whole path into the packet's XPath tag as a number whose base-100 digits are the output ports
 * of successive switches, first hop lowest (examples/load-balance/fattree-simulation.cc builds
 * it as edgePort + 100 * corePort). Each switch forwards on the lowest digit and strips it; a
 * path id of 0 marks the final hop, which XPath leaves to other routing.
 */
module XPath {
  import opened Wrappers
  import opened Words
  import opened Routing

  /** One base-100 digit per hop. */
  const PORT_BASE: nat := 100

  /** What RouteInput reads of a packet: its destination and its XPath tag, if any. */
  datatype Packet = Packet(dest: Ipv4Address, pathTag: Option<u32>)

  /** The path id a sender writes for the given ports, first hop lowest. */
  function Encode(ports: seq<nat>): nat
  {
    if ports == [] then 0 else ports[0] + PORT_BASE * Encode(ports[1..])
  }

  /** 100^k: the first path id that needs more than k hops. */
  function Pow100(k: nat): (r: nat)
    ensures r > 0
  {
    if k == 0 then 1 else PORT_BASE * Pow100(k - 1)
  }

  /** A path of ports below 100 takes fewer than 100^k ids; with at most four hops it fits in 32 bits. */
  lemma {:induction false} EncodeBound(ports: seq<nat>)
    requires forall i :: 0 <= i < |ports| ==> ports[i] < PORT_BASE
    ensures Encode(ports) < Pow100(|ports|)
    ensures |ports| <= 4 ==> Encode(ports) < U32_LIMIT
    decreases |ports|
  {
    if ports != [] {
      EncodeBound(ports[1..]);
      assert Encode(ports[1..]) + 1 <= Pow100(|ports| - 1);
      assert Encode(ports) < PORT_BASE * (Encode(ports[1..]) + 1);
    }
    if |ports| <= 4 {
      Pow100Monotone(|ports|, 4);
      assert Pow100(4) == 100_000_000;
    }
  }

  lemma {:induction false} Pow100Monotone(j: nat, k: nat)
    requires j <= k
    ensures Pow100(j) <= Pow100(k)
    decreases k
  {
    if j < k {
      Pow100Monotone(j, k - 1);
    }
  }

  /** The port this switch uses, computed as the source does: pathId - (pathId / 100) * 100. */
  function CurrentPort(pathId: u32): (port: u32)
    ensures port == pathId % PORT_BASE
    ensures port < PORT_BASE
  {
    pathId - (pathId / PORT_BASE) * PORT_BASE
  }

  /** Decoding strips the lowest digit: the port and the path id left for the next switches. */
  lemma DecodeHop(ports: seq<nat>)
    requires ports != [] && forall i :: 0 <= i < |ports| ==> ports[i] < PORT_BASE
    ensures Encode(ports) % PORT_BASE == ports[0]
    ensures Encode(ports) / PORT_BASE == Encode(ports[1..])
  {
  }

  /**
   * RouteInput as written: the port bound check lets a port equal to GetNInterfaces() through,
   * although interfaces are numbered from 0 to GetNInterfaces() - 1. It yields the verdict and
   * the packet's XPath tag afterwards (removed on every path after the tag is found, re-added
   * holding the rest of the path when the packet is forwarded).
   */
  function RouteInputAsWritten(p: Packet, forwarding: bool, nInterfaces: u32): (res: (Verdict, Option<u32>))
    ensures res.0.accepted <==>
      Admissible(p.dest, forwarding) && p.pathTag.Some? && p.pathTag.value != 0
      && CurrentPort(p.pathTag.value) <= nInterfaces
  {
    if !Admissible(p.dest, forwarding) then (Reject, p.pathTag)
    else if p.pathTag.None? then (Reject, None)
    else
      var pathId := p.pathTag.value;
      if pathId == 0 then (Reject, None)
      else
        var currentPort := CurrentPort(pathId);
        if currentPort > nInterfaces then (Reject, None)
        else (Forward(currentPort), Some(pathId / PORT_BASE))
  }

  /** On a switch with three interfaces (0, 1, 2), path id 3 is forwarded to interface 3, which does not exist. */
  lemma AsWrittenAcceptsMissingInterface()
    ensures var res := RouteInputAsWritten(Packet(Ipv4Address(0x0A00_0001), Some(3)), true, 3);
      res.0 == Forward(3) && !(3 < 3)
  {
  }

  /**
   * RouteInput with the evidently intended bound: only ports naming an existing interface
   * (below GetNInterfaces()) are forwarded; everything else is as written.
   */
  function RouteInput(p: Packet, forwarding: bool, nInterfaces: u32): (res: (Verdict, Option<u32>))
    ensures res.0.accepted <==>
      Admissible(p.dest, forwarding) && p.pathTag.Some? && p.pathTag.value != 0
      && CurrentPort(p.pathTag.value) < nInterfaces
    ensures res.0.accepted ==>
      && res.0 == Forward(CurrentPort(p.pathTag.value))
      && res.0.calls[0].port < nInterfaces
      && res.1 == Some(p.pathTag.value / PORT_BASE)
    ensures !res.0.accepted ==> res.0 == Reject
  {
    if !Admissible(p.dest, forwarding) then (Reject, p.pathTag)
    else if p.pathTag.None? then (Reject, None)
    else
      var pathId := p.pathTag.value;
      if pathId == 0 then (Reject, None)
      else
        var currentPort := CurrentPort(pathId);
        if currentPort >= nInterfaces then (Reject, None)
        else (Forward(currentPort), Some(pathId / PORT_BASE))
  }

  /** The two differ only on a port equal to the interface count. */
  lemma AsWrittenDiffersOnlyAtBound(p: Packet, forwarding: bool, nInterfaces: u32)
    requires p.pathTag.Some? && CurrentPort(p.pathTag.value) != nInterfaces
    ensures RouteInputAsWritten(p, forwarding, nInterfaces) == RouteInput(p, forwarding, nInterfaces)
  {
  }

  /**
   * The callbacks a packet meets on its way when every switch has nInterfaces interfaces:
   * the switches forward it hop by hop until one rejects it.
   */
  function Journey(dest: Ipv4Address, pathId: u32, nInterfaces: u32): seq<Action>
    decreases pathId
  {
    var (v, tag) := RouteInput(Packet(dest, Some(pathId)), true, nInterfaces);
    if !v.accepted then v.calls
    else v.calls + Journey(dest, tag.value, nInterfaces)
  }

  /** The forwarding actions for a list of ports. */
  function Hops(ports: seq<nat>): (acts: seq<Action>)
    requires forall i :: 0 <= i < |ports| ==> ports[i] < U32_LIMIT
    ensures |acts| == |ports|
  {
    if ports == [] then [] else [Unicast(ports[0])] + Hops(ports[1..])
  }

  /**
   * Source routing works: a path of at most four hops whose ports all name existing interfaces
   * (and whose last port is not 0, which would be lost) is followed port by port, and the switch
   * after the last hop sees path id 0 and hands the packet back.
   */
  lemma {:induction false} JourneyFollowsPath(dest: Ipv4Address, ports: seq<nat>, nInterfaces: u32)
    requires Admissible(dest, true)
    requires |ports| <= 4
    requires forall i :: 0 <= i < |ports| ==> ports[i] < PORT_BASE && ports[i] < nInterfaces as int
    requires ports != [] ==> ports[|ports| - 1] != 0
    ensures Encode(ports) < U32_LIMIT
    ensures Journey(dest, Encode(ports), nInterfaces) == Hops(ports) + [Error(ErrorNoRouteToHost)]
    decreases |ports|
  {
    EncodeBound(ports);
    if ports == [] {
      assert Journey(dest, 0, nInterfaces) == Reject.calls;
    } else {
      var pathId: u32 := Encode(ports);
      DecodeHop(ports);
      if |ports| == 1 {
        assert Encode(ports[1..]) == 0;
        assert pathId == ports[0];
        assert pathId != 0;
      } else {
        assert ports[1..][|ports[1..]| - 1] == ports[|ports| - 1];
        assert Encode(ports[1..]) != 0 by {
          EncodeNonZero(ports[1..]);
        }
        assert pathId != 0;
      }
      JourneyFollowsPath(dest, ports[1..], nInterfaces);
    }
  }

  /** A non-empty path whose last port is not 0 has a non-zero id. */
  lemma {:induction false} EncodeNonZero(ports: seq<nat>)
    requires ports != [] && ports[|ports| - 1] != 0
    ensures Encode(ports) != 0
    decreases |ports|
  {
    if |ports| > 1 {
      assert ports[1..][|ports[1..]| - 1] == ports[|ports| - 1];
      EncodeNonZero(ports[1..]);
    }
  }
}
