/**
 * The reduction both flow-monitor parsers run over the flows of their simulations: counts and
 * sums over the retained flows, a large tier (more than 10,000,000 bytes sent), a small tier
 * (fewer than 100,000) and the small flow with the longest completion time, then the averages
 * they print.
 */
module FlowTotals {
  import opened Wrappers
  import opened FlowRecord

  const LARGE_FLOW_BYTES: nat := 10_000_000
  const SMALL_FLOW_BYTES: nat := 100_000

  /** fct, txBitrate and rxBitrate are all present. */
  predicate Complete(f: Flow)
  {
    f.fct.Some? && f.txBitrate.Some? && f.rxBitrate.Some?
  }

  /** A flow of 52-byte packets and one 4-byte remainder, which the parsers leave out. */
  predicate ControlOnly(f: Flow)
  {
    f.txBytes == 52 * f.txPackets + 4
  }

  predicate Large(f: Flow)
  {
    f.txBytes > LARGE_FLOW_BYTES
  }

  predicate Small(f: Flow)
  {
    f.txBytes < SMALL_FLOW_BYTES
  }

  /** The parsers' accumulators. */
  datatype Totals = Totals(
    flowCount: nat,
    totalFct: real,
    totalPackets: nat,
    totalRxPackets: nat,
    totalLostPackets: nat,
    largeFlowCount: nat,
    largeFlowTotalFct: real,
    smallFlowCount: nat,
    smallFlowTotalFct: real,
    maxSmallFlowId: int,
    maxSmallFlowFct: real)

  const ZERO: Totals := Totals(0, 0.0, 0, 0, 0, 0, 0.0, 0, 0.0, 0, 0.0)

  /** One retained flow added to the accumulators. */
  function Accumulate(t: Totals, f: Flow): Totals
    requires Complete(f)
  {
    var fct := f.fct.value;
    var t1 := t.(flowCount := t.flowCount + 1, totalFct := t.totalFct + fct,
                 totalPackets := t.totalPackets + f.txPackets, totalRxPackets := t.totalRxPackets + f.rxPackets,
                 totalLostPackets := t.totalLostPackets + f.lostPackets);
    var t2 := if Large(f) then t1.(largeFlowCount := t1.largeFlowCount + 1, largeFlowTotalFct := t1.largeFlowTotalFct + fct)
              else t1;
    if !Small(f) then t2
    else
      var t3 := t2.(smallFlowCount := t2.smallFlowCount + 1, smallFlowTotalFct := t2.smallFlowTotalFct + fct);
      if fct > t3.maxSmallFlowFct then t3.(maxSmallFlowId := f.flowId, maxSmallFlowFct := fct) else t3
  }

  /** The accumulators after a run of retained flows, in order. */
  function AccumulateAll(t: Totals, flows: seq<Flow>): Totals
    requires forall f :: f in flows ==> Complete(f)
  {
    if flows == [] then t
    else Accumulate(AccumulateAll(t, flows[..|flows| - 1]), flows[|flows| - 1])
  }

  function CountLarge(flows: seq<Flow>): nat
  {
    if flows == [] then 0 else CountLarge(flows[..|flows| - 1]) + if Large(flows[|flows| - 1]) then 1 else 0
  }

  function CountSmall(flows: seq<Flow>): nat
  {
    if flows == [] then 0 else CountSmall(flows[..|flows| - 1]) + if Small(flows[|flows| - 1]) then 1 else 0
  }

  /** A flow's completion time, 0 when it has none. */
  function FctOf(f: Flow): real
  {
    if f.fct.Some? then f.fct.value else 0.0
  }

  /** Position k holds the first small flow of longest completion time. */
  predicate FirstWorstSmall(flows: seq<Flow>, k: nat)
  {
    && k < |flows| && Small(flows[k])
    && (forall j :: 0 <= j < |flows| && Small(flows[j]) ==> FctOf(flows[j]) <= FctOf(flows[k]))
    && (forall j :: 0 <= j < k && Small(flows[j]) ==> FctOf(flows[j]) < FctOf(flows[k]))
  }

  /** From zero, the accumulators count every flow, the large and the small ones; the tiers are disjoint. */
  lemma {:induction false} AccumulateAllCounts(flows: seq<Flow>)
    requires forall f :: f in flows ==> Complete(f)
    ensures var t := AccumulateAll(ZERO, flows);
      && t.flowCount == |flows| && t.largeFlowCount == CountLarge(flows) && t.smallFlowCount == CountSmall(flows)
      && t.largeFlowCount + t.smallFlowCount <= t.flowCount
    decreases |flows|
  {
    if flows != [] {
      var init := flows[..|flows| - 1];
      assert forall g :: g in init ==> g in flows;
      AccumulateAllCounts(init);
    }
  }

  /**
   * With no small flow the worst small flow stays (0, 0); otherwise it is the first small flow
   * of longest completion time, since the strict comparison keeps the earliest of equals.
   */
  lemma {:induction false} AccumulateAllWorstSmall(flows: seq<Flow>)
    requires forall f :: f in flows ==> Complete(f) && f.fct.value > 0.0
    ensures var t := AccumulateAll(ZERO, flows);
      CountSmall(flows) == 0 ==> t.maxSmallFlowId == 0 && t.maxSmallFlowFct == 0.0
    ensures var t := AccumulateAll(ZERO, flows);
      CountSmall(flows) > 0 ==>
        exists k: nat :: FirstWorstSmall(flows, k) && t.maxSmallFlowId == flows[k].flowId && t.maxSmallFlowFct == FctOf(flows[k])
    decreases |flows|
  {
    if flows != [] {
      var init := flows[..|flows| - 1];
      var f := flows[|flows| - 1];
      assert forall g :: g in init ==> g in flows;
      AccumulateAllWorstSmall(init);
      var t := AccumulateAll(ZERO, init);
      AccumulateWorst(t, f);
      if CountSmall(init) > 0 {
        var k: nat :| FirstWorstSmall(init, k) && t.maxSmallFlowId == init[k].flowId && t.maxSmallFlowFct == FctOf(init[k]);
        WorstExtends(flows, k);
        assert init[k] == flows[k];
      } else if Small(f) {
        WorstFirst(flows);
      }
    }
  }

  /** How one flow moves the worst small flow: only a small flow strictly slower replaces it. */
  lemma AccumulateWorst(t: Totals, f: Flow)
    requires Complete(f)
    ensures var r := Accumulate(t, f);
      && r.smallFlowCount == t.smallFlowCount + (if Small(f) then 1 else 0)
      && (if Small(f) && FctOf(f) > t.maxSmallFlowFct
          then r.maxSmallFlowId == f.flowId && r.maxSmallFlowFct == FctOf(f)
          else r.maxSmallFlowId == t.maxSmallFlowId && r.maxSmallFlowFct == t.maxSmallFlowFct)
  {
  }

  /** Appending a flow keeps the first worst small flow unless the new one is small and strictly slower. */
  lemma WorstExtends(flows: seq<Flow>, k: nat)
    requires |flows| > 0 && FirstWorstSmall(flows[..|flows| - 1], k)
    ensures var f := flows[|flows| - 1];
      if Small(f) && FctOf(f) > FctOf(flows[k]) then FirstWorstSmall(flows, |flows| - 1) else FirstWorstSmall(flows, k)
  {
    var init := flows[..|flows| - 1];
    assert forall j :: 0 <= j < |init| ==> init[j] == flows[j];
  }

  /** A small flow after no small flow is the first worst one. */
  lemma WorstFirst(flows: seq<Flow>)
    requires |flows| > 0 && Small(flows[|flows| - 1])
    requires CountSmall(flows[..|flows| - 1]) == 0
    ensures FirstWorstSmall(flows, |flows| - 1)
  {
    var init := flows[..|flows| - 1];
    NoSmall(init);
    assert forall j :: 0 <= j < |init| ==> init[j] == flows[j];
  }

  lemma {:induction false} NoSmall(flows: seq<Flow>)
    requires CountSmall(flows) == 0
    ensures forall j :: 0 <= j < |flows| ==> !Small(flows[j])
    decreases |flows|
  {
    if flows != [] {
      var init := flows[..|flows| - 1];
      NoSmall(init);
      assert forall j :: 0 <= j < |init| ==> init[j] == flows[j];
    }
  }

  /** The protocols the {6: 'TCP', 17: 'UDP'} lookup knows; any other raises KeyError. */
  predicate KnownProtocol(t: FiveTuple)
  {
    t.protocol == 6 || t.protocol == 17
  }

  // ---------------------------------------------------------------- the printed summary

  /** What the parsers print after the loop. An absent tier average is "No large/small flows". */
  datatype Report = Report(
    avgFct: real,
    largeFlowAvgFct: Option<real>,
    smallFlowAvgFct: Option<real>,
    flowCount: nat,
    totalPackets: nat,
    totalRxPackets: nat,
    totalLostPackets: nat,
    maxSmallFlowId: int)

  /**
   * The summary: the overall average is taken without a guard, so no retained flow at all raises
   * ZeroDivisionError; the tier averages are guarded by their counts.
   */
  function Summarize(t: Totals): (r: Result<Report, Failure>)
    ensures r.Err? <==> t.flowCount == 0
    ensures r.Ok? ==>
      && r.value.avgFct * t.flowCount as real == t.totalFct
      && (r.value.largeFlowAvgFct.Some? <==> t.largeFlowCount > 0)
      && (r.value.smallFlowAvgFct.Some? <==> t.smallFlowCount > 0)
      && (r.value.largeFlowAvgFct.Some? ==> r.value.largeFlowAvgFct.value * t.largeFlowCount as real == t.largeFlowTotalFct)
      && (r.value.smallFlowAvgFct.Some? ==> r.value.smallFlowAvgFct.value * t.smallFlowCount as real == t.smallFlowTotalFct)
  {
    if t.flowCount == 0 then Err(ZeroDivisionError)
    else
      Ok(Report(
        t.totalFct / t.flowCount as real,
        if t.largeFlowCount == 0 then None else Some(t.largeFlowTotalFct / t.largeFlowCount as real),
        if t.smallFlowCount == 0 then None else Some(t.smallFlowTotalFct / t.smallFlowCount as real),
        t.flowCount, t.totalPackets, t.totalRxPackets, t.totalLostPackets, t.maxSmallFlowId))
  }

  // ---------------------------------------------------------------- the loop over flows

  /** The flows of all simulations, simulation by simulation. */
  function Concat(sims: seq<seq<Flow>>): seq<Flow>
  {
    if sims == [] then [] else Concat(sims[..|sims| - 1]) + sims[|sims| - 1]
  }

  /** A loop body over flows that may raise: the state after each flow, or the first exception. */
  function Fold<S>(st: S, flows: seq<Flow>, visit: (S, Flow) -> Result<S, Failure>): Result<S, Failure>
  {
    if flows == [] then Ok(st)
    else
      match Fold(st, flows[..|flows| - 1], visit)
      case Err(e) => Err(e)
      case Ok(s) => visit(s, flows[|flows| - 1])
  }

  /** Running over a + b is running over a, then over b from where a stopped. */
  lemma {:induction false} FoldAppend<S>(st: S, a: seq<Flow>, b: seq<Flow>, visit: (S, Flow) -> Result<S, Failure>)
    ensures Fold(st, a + b, visit) == match Fold(st, a, visit) case Err(e) => Err(e) case Ok(s) => Fold(s, b, visit)
    decreases |b|
  {
    if b == [] {
      assert a + b == a;
    } else {
      var b' := b[..|b| - 1];
      assert (a + b)[..|a + b| - 1] == a + b';
      FoldAppend(st, a, b', visit);
    }
  }

  /** The loop over one simulation's flows. */
  method VisitAll<S>(st: S, flows: seq<Flow>, visit: (S, Flow) -> Result<S, Failure>) returns (r: Result<S, Failure>)
    ensures r == Fold(st, flows, visit)
  {
    var s := st;
    var i := 0;
    while i < |flows|
      invariant 0 <= i <= |flows| && Fold(st, flows[..i], visit) == Ok(s)
    {
      assert flows[..i + 1][..i] == flows[..i];
      var next := visit(s, flows[i]);
      if next.Err? {
        FoldPrefixErr(st, flows[..i + 1], flows, visit);
        return next;
      }
      s := next.value;
      i := i + 1;
    }
    assert flows[..i] == flows;
    r := Ok(s);
  }

  /** The loop over the simulations, and inside it over each one's flows. */
  method VisitSimulations<S>(st: S, sims: seq<seq<Flow>>, visit: (S, Flow) -> Result<S, Failure>) returns (r: Result<S, Failure>)
    ensures r == Fold(st, Concat(sims), visit)
  {
    var s := st;
    var i := 0;
    while i < |sims|
      invariant 0 <= i <= |sims| && Fold(st, Concat(sims[..i]), visit) == Ok(s)
    {
      assert sims[..i + 1][..i] == sims[..i];
      FoldAppend(st, Concat(sims[..i]), sims[i], visit);
      r := VisitAll(s, sims[i], visit);
      if r.Err? {
        ConcatPrefix(sims, i + 1);
        FoldPrefixErr(st, Concat(sims[..i + 1]), Concat(sims), visit);
        return;
      }
      s := r.value;
      i := i + 1;
    }
    assert sims[..i] == sims;
    r := Ok(s);
  }

  lemma {:induction false} ConcatPrefix(sims: seq<seq<Flow>>, n: nat)
    requires n <= |sims|
    ensures Concat(sims[..n]) <= Concat(sims)
    decreases |sims| - n
  {
    if n < |sims| {
      ConcatPrefix(sims, n + 1);
      assert sims[..n + 1][..n] == sims[..n];
    } else {
      assert sims[..n] == sims;
    }
  }

  /** An exception on a prefix of the flows is the exception of them all. */
  lemma {:induction false} FoldPrefixErr<S>(st: S, prefix: seq<Flow>, flows: seq<Flow>, visit: (S, Flow) -> Result<S, Failure>)
    requires prefix <= flows && Fold(st, prefix, visit).Err?
    ensures Fold(st, flows, visit) == Fold(st, prefix, visit)
    decreases |flows|
  {
    if |flows| > |prefix| {
      assert prefix <= flows[..|flows| - 1];
      FoldPrefixErr(st, prefix, flows[..|flows| - 1], visit);
    } else {
      assert flows == prefix;
    }
  }
}
