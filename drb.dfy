/**
 * Ipv4Drb (src/internet/model/ipv4-drb.cc): the per-flow round robin over core switch addresses
 * used by the DRB/Presto examples. An address added k times has weight k.
 */
module Drb {
  import opened Words
  import opened Wrappers
  import opened RoundRobin

  class Ipv4Drb {
    /** m_coreSwitchAddressList: addresses as 32-bit values, one entry per unit of weight. */
    var coreSwitchAddressList: seq<u32>
    /** m_indexMap: flow id to the position its next packet uses. */
    var indexMap: map<u32, nat>

    /** Every stored position lies inside the list (the list only grows). */
    predicate Valid()
      reads this
    {
      forall f :: f in indexMap ==> indexMap[f] < |coreSwitchAddressList|
    }

    constructor ()
      ensures Valid()
      ensures coreSwitchAddressList == [] && indexMap == map[]
    {
      coreSwitchAddressList := [];
      indexMap := map[];
    }

    /** AddCoreSwitchAddress(addr): appends one entry. */
    method AddCoreSwitchAddress(addr: u32)
      requires Valid()
      modifies this
      ensures Valid()
      ensures coreSwitchAddressList == old(coreSwitchAddressList) + [addr]
      ensures indexMap == old(indexMap)
    {
      coreSwitchAddressList := coreSwitchAddressList + [addr];
    }

    /** AddCoreSwitchAddress(k, addr): appends k copies, giving addr weight k. */
    method AddCoreSwitchAddressWeighted(k: u32, addr: u32)
      requires Valid()
      modifies this
      ensures Valid()
      ensures coreSwitchAddressList == old(coreSwitchAddressList) + Copies(addr, k)
      ensures indexMap == old(indexMap)
    {
      var i := 0;
      while i < k
        invariant 0 <= i <= k
        invariant Valid()
        invariant coreSwitchAddressList == old(coreSwitchAddressList) + Copies(addr, i)
        invariant indexMap == old(indexMap)
      {
        AddCoreSwitchAddress(addr);
        i := i + 1;
      }
    }

    /**
     * GetCoreSwitchAddress: with an empty list the default address (None); otherwise the entry at
     * the flow's stored position, or at rand() mod |list| (r is rand()'s value) for a new flow,
     * after which the position that follows it is stored for the flow.
     */
    method GetCoreSwitchAddress(flowId: u32, r: nat) returns (addr: Option<u32>)
      requires Valid()
      modifies this
      ensures Valid()
      ensures coreSwitchAddressList == old(coreSwitchAddressList)
      ensures old(coreSwitchAddressList) == [] ==> addr == None && indexMap == old(indexMap)
      ensures old(coreSwitchAddressList) != [] ==>
        var n := |coreSwitchAddressList|;
        var i := Start(old(indexMap), flowId, r, n);
        addr == Some(coreSwitchAddressList[i]) && indexMap == old(indexMap)[flowId := Next(i, n)]
    {
      var listSize := |coreSwitchAddressList|;
      if listSize == 0 {
        return None;
      }
      var index := r % listSize;
      if flowId in indexMap {
        index := indexMap[flowId];
      }
      indexMap := indexMap[flowId := (index + 1) % listSize];
      addr := Some(coreSwitchAddressList[index]);
    }
  }

  /**
   * k packets of a flow that already has a stored position receive the entries Picks names:
   * whatever r each call draws, the flow walks the list cyclically from its stored position.
   */
  method ConsecutiveCalls(drb: Ipv4Drb, flowId: u32, rs: seq<nat>) returns (addrs: seq<u32>)
    requires drb.Valid() && flowId in drb.indexMap
    modifies drb
    ensures drb.Valid()
    ensures addrs == Picks(old(drb.coreSwitchAddressList), old(drb.indexMap[flowId]), |rs|)
  {
    ghost var s := drb.coreSwitchAddressList;
    ghost var start := drb.indexMap[flowId];
    addrs := [];
    var j := 0;
    while j < |rs|
      invariant 0 <= j <= |rs|
      invariant drb.Valid() && drb.coreSwitchAddressList == s && flowId in drb.indexMap
      invariant Picks(s, start, |rs|) == addrs + Picks(s, drb.indexMap[flowId], |rs| - j)
    {
      var a := drb.GetCoreSwitchAddress(flowId, rs[j]);
      addrs := addrs + [a.value];
      j := j + 1;
    }
  }
}
