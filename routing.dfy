/**
 * What the load-balancing routers (CONGA, LetFlow, DRILL, XPath) share: route entries matched
 * by network and mask, the linear lookup each router runs over its entry list, and the
 * outcome of Ipv4RoutingProtocol::RouteInput, i.e. which callback the packet is handed to.
 */
module Routing {
  import opened Words

  /** The two Socket::SocketErrno values these routers report. */
  datatype SocketErrno = ErrorNotError | ErrorNoRouteToHost

  /** A callback RouteInput invokes: ucb with the chosen output interface, or ecb with an error. */
  datatype Action = Unicast(port: u32) | Error(err: SocketErrno)

  /** RouteInput's boolean result and the callbacks it invoked, in order. */
  datatype Verdict = Verdict(accepted: bool, calls: seq<Action>)

  /** The rejection every router uses: ecb with ERROR_NOROUTETOHOST, then false. */
  const Reject: Verdict := Verdict(false, [Error(ErrorNoRouteToHost)])

  /** ucb on one interface, then true. */
  function Forward(port: u32): (v: Verdict)
    ensures v.accepted && v.calls == [Unicast(port)]
  {
    Verdict(true, [Unicast(port)])
  }

  /** Ipv4Address::IsMulticast: the class D range 224.0.0.0 to 239.255.255.255. */
  predicate IsMulticast(a: Ipv4Address)
  {
    0xE000_0000 <= a.bits <= 0xEFFF_FFFF
  }

  /** Ipv4Address::IsBroadcast: the limited broadcast address 255.255.255.255. */
  predicate IsBroadcast(a: Ipv4Address)
  {
    a.bits == 0xFFFF_FFFF
  }

  /** The first two checks of every RouteInput: a unicast destination, forwarding enabled. */
  predicate Admissible(dest: Ipv4Address, forwarding: bool)
  {
    !IsMulticast(dest) && !IsBroadcast(dest) && forwarding
  }

  /** An IPv4 address as its 32 bits, most significant first. */
  datatype Ipv4Address = Ipv4Address(bits: bv32)

  /** A route entry: a network, its mask and the output interface packets to it may take. */
  datatype RouteEntry = RouteEntry(network: Ipv4Address, mask: bv32, port: u32)

  /** Ipv4Mask::IsMatch(dest, network): both agree on every bit the mask sets. */
  predicate IsMatch(e: RouteEntry, dest: Ipv4Address)
  {
    dest.bits & e.mask == e.network.bits & e.mask
  }

  /** The entries matching dest, in list order: every candidate route of the destination. */
  function Matching(entries: seq<RouteEntry>, dest: Ipv4Address): (r: seq<RouteEntry>)
    ensures |r| <= |entries|
  {
    if entries == [] then []
    else
      var rest := Matching(entries[..|entries| - 1], dest);
      var last := entries[|entries| - 1];
      assert entries == entries[..|entries| - 1] + [last];
      if IsMatch(last, dest) then rest + [last] else rest
  }

  /** The candidates are exactly the listed entries that match: none is lost, none is invented. */
  lemma {:induction false} MatchingMembers(entries: seq<RouteEntry>, dest: Ipv4Address, e: RouteEntry)
    ensures e in Matching(entries, dest) <==> e in entries && IsMatch(e, dest)
    decreases |entries|
  {
    if entries != [] {
      var init := entries[..|entries| - 1];
      MatchingMembers(init, dest, e);
      assert entries == init + [entries[|entries| - 1]];
    }
  }

  /** A mask of zero matches every destination: a default route is a candidate everywhere. */
  lemma DefaultRouteMatches(e: RouteEntry, dest: Ipv4Address)
    requires e.mask == 0
    ensures IsMatch(e, dest)
  {
  }

  /** Adding a route keeps every earlier candidate and adds the new entry exactly when it matches. */
  lemma MatchingAppend(entries: seq<RouteEntry>, e: RouteEntry, dest: Ipv4Address)
    ensures Matching(entries + [e], dest)
         == Matching(entries, dest) + (if IsMatch(e, dest) then [e] else [])
  {
    assert (entries + [e])[..|entries + [e]| - 1] == entries;
  }

  /**
   * The lookup loop of LookupCongaRouteEntries, LookupLetFlowRouteEntries and
   * LookupDrillRouteEntries: scan the list and keep the matching entries in order.
   */
  method LookupRouteEntries(entries: seq<RouteEntry>, dest: Ipv4Address) returns (r: seq<RouteEntry>)
    ensures r == Matching(entries, dest)
  {
    r := [];
    var i := 0;
    while i < |entries|
      invariant 0 <= i <= |entries|
      invariant r == Matching(entries[..i], dest)
    {
      var e := entries[i];
      MatchingAppend(entries[..i], e, dest);
      assert entries[..i + 1] == entries[..i] + [e];
      if IsMatch(e, dest) {
        r := r + [e];
      }
      i := i + 1;
    }
    assert entries[..i] == entries;
  }
}
