/**
 * DRILL (src/drill-routing/model/ipv4-drill-routing.cc): a switch sends every packet to the
 * least loaded of d randomly sampled candidate ports and the port it chose last time for the
 * destination, comparing their current queue lengths in bytes.
 */
module Drill {
  import opened Words
  import opened Routing

  /** The default of the "d" attribute: two samples per packet. */
  const DEFAULT_D: u32 := 2

  /** A port and its queue length: the best choice so far while sampling. */
  datatype Choice = Choice(port: u32, load: u32)

  /** The starting point when the destination has no previous best: port 0 with the largest load. */
  const NO_CHOICE: Choice := Choice(0, U32_MAX)

  /** perm reorders 0..n-1: the outcome of std::random_shuffle on n candidates. */
  predicate IsPermutation(perm: seq<nat>, n: nat)
  {
    && |perm| == n
    && (forall i :: 0 <= i < n ==> perm[i] < n)
    && (forall j :: 0 <= j < n ==> j in perm)
  }

  /**
   * The sampling loop: visit the ports in order and take one only when its load is strictly
   * below the best so far, so ties keep the earlier choice.
   */
  function Sample(ports: seq<u32>, load: u32 -> u32, best: Choice): (r: Choice)
    ensures r.load <= best.load
    ensures r == best || (r.port in ports && r.load == load(r.port) && r.load < best.load)
    ensures forall i :: 0 <= i < |ports| ==> r.load <= load(ports[i])
    decreases |ports|
  {
    if ports == [] then best
    else
      var next := if load(ports[0]) < best.load then Choice(ports[0], load(ports[0])) else best;
      Sample(ports[1..], load, next)
  }

  /** The candidate ports in the shuffled order. */
  function Shuffled(candidates: seq<RouteEntry>, perm: seq<nat>): (ports: seq<u32>)
    requires IsPermutation(perm, |candidates|)
    ensures |ports| == |candidates|
    ensures forall i :: 0 <= i < |ports| ==> ports[i] == candidates[perm[i]].port
  {
    seq(|perm|, i requires 0 <= i < |perm| => candidates[perm[i]].port)
  }

  /** min(d, n): how many shuffled candidates are sampled. */
  function SampleNum(d: u32, n: nat): (k: nat)
    ensures k <= n && k <= d
    ensures k == d || k == n
  {
    if d < n then d else n
  }

  /**
   * RouteInput as a function of the route entries, the previous-best table, d, the destination,
   * whether the input interface forwards, the shuffle and the queue lengths; it yields the
   * verdict and the new previous-best table.
   */
  function RouteInputSpec(entries: seq<RouteEntry>, previousBest: map<Ipv4Address, u32>, d: u32,
                          dest: Ipv4Address, forwarding: bool, perm: seq<nat>,
                          load: u32 -> u32): (res: (Verdict, map<Ipv4Address, u32>))
    requires IsPermutation(perm, |Matching(entries, dest)|)
    ensures !res.0.accepted ==> res.0 == Reject && res.1 == previousBest
    ensures res.0.accepted <==> Admissible(dest, forwarding) && Matching(entries, dest) != []
    ensures res.0.accepted ==> dest in res.1 && res.0 == Forward(res.1[dest]) && res.1 == previousBest[dest := res.1[dest]]
  {
    var candidates := Matching(entries, dest);
    if !Admissible(dest, forwarding) || candidates == [] then (Reject, previousBest)
    else
      var start := if dest in previousBest then Choice(previousBest[dest], load(previousBest[dest]))
                   else NO_CHOICE;
      var chosen := Sample(Shuffled(candidates, perm)[..SampleNum(d, |candidates|)], load, start);
      var table := previousBest[dest := chosen.port];
      (Forward(chosen.port), table)
  }

  /**
   * The port chosen is no more loaded than any sampled candidate nor than the previous best,
   * and it is either the previous best (or port 0 when there was none) or a sampled candidate
   * strictly less loaded than that.
   */
  lemma ChosenIsLeastLoaded(entries: seq<RouteEntry>, previousBest: map<Ipv4Address, u32>, d: u32,
                            dest: Ipv4Address, forwarding: bool, perm: seq<nat>, load: u32 -> u32)
    requires IsPermutation(perm, |Matching(entries, dest)|)
    requires Admissible(dest, forwarding) && Matching(entries, dest) != []
    ensures var candidates := Matching(entries, dest);
      var port := RouteInputSpec(entries, previousBest, d, dest, forwarding, perm, load).1[dest];
      && (forall i :: 0 <= i < SampleNum(d, |candidates|) ==> load(port) <= load(candidates[perm[i]].port))
      && (dest in previousBest ==> load(port) <= load(previousBest[dest]))
      && (port == (if dest in previousBest then previousBest[dest] else 0)
          || exists e :: e in entries && IsMatch(e, dest) && e.port == port)
  {
    var candidates := Matching(entries, dest);
    var k := SampleNum(d, |candidates|);
    var sampled := Shuffled(candidates, perm)[..k];
    var start := if dest in previousBest then Choice(previousBest[dest], load(previousBest[dest]))
                 else NO_CHOICE;
    var chosen := Sample(sampled, load, start);
    forall i | 0 <= i < k
      ensures load(chosen.port) <= load(candidates[perm[i]].port)
    {
      assert sampled[i] == candidates[perm[i]].port;
    }
    if chosen != start {
      var j :| 0 <= j < |sampled| && sampled[j] == chosen.port;
      MatchingMembers(entries, dest, candidates[perm[j]]);
    }
  }

  /**
   * The comparison is strict: when no sampled candidate is strictly less loaded than the
   * previous best (or than 2^32-1 when there is none), the previous best, or interface 0, is kept.
   */
  lemma TiesKeepStart(entries: seq<RouteEntry>, previousBest: map<Ipv4Address, u32>, d: u32,
                      dest: Ipv4Address, forwarding: bool, perm: seq<nat>, load: u32 -> u32)
    requires IsPermutation(perm, |Matching(entries, dest)|)
    requires Admissible(dest, forwarding) && Matching(entries, dest) != []
    requires forall i :: 0 <= i < SampleNum(d, |Matching(entries, dest)|) ==>
      load(Matching(entries, dest)[perm[i]].port)
        >= if dest in previousBest then load(previousBest[dest]) else U32_MAX
    ensures RouteInputSpec(entries, previousBest, d, dest, forwarding, perm, load).1[dest]
         == if dest in previousBest then previousBest[dest] else 0
  {
    var candidates := Matching(entries, dest);
    var sampled := Shuffled(candidates, perm)[..SampleNum(d, |candidates|)];
    var start := if dest in previousBest then Choice(previousBest[dest], load(previousBest[dest]))
                 else NO_CHOICE;
    var chosen := Sample(sampled, load, start);
    if chosen != start {
      assert false;
    }
  }

  /**
   * When d is at least the number of candidates every candidate is sampled, and the chosen
   * port's queue is the shortest among all of them.
   */
  lemma SamplingEverything(entries: seq<RouteEntry>, previousBest: map<Ipv4Address, u32>, d: u32,
                           dest: Ipv4Address, forwarding: bool, perm: seq<nat>, load: u32 -> u32)
    requires IsPermutation(perm, |Matching(entries, dest)|)
    requires Admissible(dest, forwarding) && Matching(entries, dest) != []
    requires d as int >= |Matching(entries, dest)|
    ensures var port := RouteInputSpec(entries, previousBest, d, dest, forwarding, perm, load).1[dest];
      forall e :: e in entries && IsMatch(e, dest) ==> load(port) <= load(e.port)
  {
    var candidates := Matching(entries, dest);
    var port := RouteInputSpec(entries, previousBest, d, dest, forwarding, perm, load).1[dest];
    ChosenIsLeastLoaded(entries, previousBest, d, dest, forwarding, perm, load);
    forall e | e in entries && IsMatch(e, dest)
      ensures load(port) <= load(e.port)
    {
      MatchingMembers(entries, dest, e);
      var j :| 0 <= j < |candidates| && candidates[j] == e;
      assert j in perm;
      var i :| 0 <= i < |perm| && perm[i] == j;
      assert load(port) <= load(candidates[perm[i]].port);
    }
  }

  class Ipv4DrillRouting {
    /** m_routeEntryList */
    var routeEntryList: seq<RouteEntry>
    /** m_previousBestQueueMap: destination to the port chosen for it last time. */
    var previousBestQueueMap: map<Ipv4Address, u32>
    /** m_d: how many candidates are sampled per packet. */
    var d: u32

    constructor ()
      ensures routeEntryList == [] && previousBestQueueMap == map[] && d == DEFAULT_D
    {
      routeEntryList := [];
      previousBestQueueMap := map[];
      d := DEFAULT_D;
    }

    /** AddRoute: appends an entry to the route list. */
    method AddRoute(network: Ipv4Address, mask: bv32, port: u32)
      modifies this
      ensures routeEntryList == old(routeEntryList) + [RouteEntry(network, mask, port)]
      ensures previousBestQueueMap == old(previousBestQueueMap) && d == old(d)
    {
      routeEntryList := routeEntryList + [RouteEntry(network, mask, port)];
    }

    /**
     * RouteInput: perm is the shuffle std::random_shuffle applies to the candidates and load
     * stands for CalculateQueueLength, the bytes queued on an interface's device and queue disc.
     */
    method RouteInput(dest: Ipv4Address, forwarding: bool, perm: seq<nat>, load: u32 -> u32)
      returns (v: Verdict)
      requires IsPermutation(perm, |Matching(routeEntryList, dest)|)
      modifies this
      ensures routeEntryList == old(routeEntryList) && d == old(d)
      ensures (v, previousBestQueueMap)
           == RouteInputSpec(routeEntryList, old(previousBestQueueMap), d, dest, forwarding, perm, load)
    {
      if !Admissible(dest, forwarding) {
        return Reject;
      }
      var allPorts := LookupRouteEntries(routeEntryList, dest);
      if allPorts == [] {
        return Reject;
      }
      var shuffled := Shuffled(allPorts, perm);
      var best := NO_CHOICE;
      if dest in previousBestQueueMap {
        best := Choice(previousBestQueueMap[dest], load(previousBestQueueMap[dest]));
      }
      var sampleNum := if d < |allPorts| as int then d as int else |allPorts|;
      ghost var start := best;
      var samplePort := 0;
      while samplePort < sampleNum
        invariant 0 <= samplePort <= sampleNum
        invariant Sample(shuffled[..sampleNum], load, start)
               == Sample(shuffled[samplePort..sampleNum], load, best)
        modifies {}
      {
        var sampleLoad := load(shuffled[samplePort]);
        assert shuffled[samplePort..sampleNum][1..] == shuffled[samplePort + 1..sampleNum];
        if sampleLoad < best.load {
          best := Choice(shuffled[samplePort], sampleLoad);
        }
        samplePort := samplePort + 1;
      }
      assert shuffled[..sampleNum] == shuffled[0..sampleNum];
      previousBestQueueMap := previousBestQueueMap[dest := best.port];
      v := Forward(best.port);
    }
  }
}
