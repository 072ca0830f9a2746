/**
 * The flow-monitor report: one run over a document's simulations that prints each counted flow
 * and the FCT summary of them all.
 */
module FlowmonReport {
  import opened Wrappers
  import opened FlowRecord
  import opened FlowSimulation
  import opened FlowTotals

  /** A flow the report counts: complete and not a control-only flow. */
  predicate Retained(f: Flow)
  {
    Complete(f) && !ControlOnly(f)
  }

  /**
   * The body of the loop over flows: a counted flow is accumulated, then printed, and printing
   * raises for a flow without a tuple, an unknown protocol or no mean delay.
   */
  function Visit(t: Totals, f: Flow): Result<Totals, Failure>
  {
    if !Retained(f) then Ok(t)
    else if f.fiveTuple.None? then Err(AttributeError)
    else if !KnownProtocol(f.fiveTuple.value) then Err(KeyError)
    else if f.delayMean.None? then Err(TypeError)
    else Ok(Accumulate(t, f))
  }

  function Visitor(): (Totals, Flow) -> Result<Totals, Failure>
  {
    (t, f) => Visit(t, f)
  }

  /** A counted flow the report can print. */
  predicate Printable(f: Flow)
  {
    f.fiveTuple.Some? && KnownProtocol(f.fiveTuple.value) && f.delayMean.Some?
  }

  /** The flows the report counts, in order. */
  function RetainedFlows(flows: seq<Flow>): (r: seq<Flow>)
    ensures forall f :: f in r ==> f in flows && Retained(f)
  {
    if flows == [] then []
    else
      var init := RetainedFlows(flows[..|flows| - 1]);
      var f := flows[|flows| - 1];
      if Retained(f) then init + [f] else init
  }

  /**
   * The loop completes exactly when every counted flow is printable, and then it has added
   * exactly the counted flows to the accumulators; the others leave them as they were.
   */
  lemma {:induction false} PassSpec(t: Totals, flows: seq<Flow>)
    ensures Fold(t, flows, Visitor()).Ok? <==> forall f :: f in flows && Retained(f) ==> Printable(f)
    ensures Fold(t, flows, Visitor()).Ok? ==> Fold(t, flows, Visitor()).value == AccumulateAll(t, RetainedFlows(flows))
    decreases |flows|
  {
    if flows != [] {
      var init := flows[..|flows| - 1];
      var f := flows[|flows| - 1];
      PassSpec(t, init);
      assert forall g :: g in init ==> g in flows;
      assert flows == init + [f];
      var rs := RetainedFlows(init);
      if Retained(f) {
        assert (rs + [f])[..|rs|] == rs;
      }
    }
  }

  /** main: build the simulations, run the loop over all their flows, then print the summary. */
  function Run(els: seq<SimulationElement>): Result<Report, Failure>
  {
    match Simulations(els)
    case Err(e) => Err(e)
    case Ok(sims) =>
      match Fold(ZERO, Concat(sims), Visitor())
      case Err(e) => Err(e)
      case Ok(t) => Summarize(t)
  }

  /**
   * Once the document's simulations are built, the report is the summary of the counted flows;
   * with every counted flow printable it fails only when there is none, with ZeroDivisionError.
   */
  lemma RunSpec(els: seq<SimulationElement>)
    requires Simulations(els).Ok?
    ensures var flows := Concat(Simulations(els).value);
      (forall f :: f in flows && Retained(f) ==> Printable(f)) ==>
        && Run(els) == Summarize(AccumulateAll(ZERO, RetainedFlows(flows)))
        && (Run(els).Err? <==> RetainedFlows(flows) == [])
        && (Run(els).Ok? ==> Run(els).value.flowCount == |RetainedFlows(flows)|)
  {
    var flows := Concat(Simulations(els).value);
    PassSpec(ZERO, flows);
    if forall f :: f in flows && Retained(f) ==> Printable(f) {
      AccumulateAllCounts(RetainedFlows(flows));
    }
  }

  method PrintReport(els: seq<SimulationElement>) returns (r: Result<Report, Failure>)
    ensures r == Run(els)
  {
    var sims := ReadSimulations(els);
    if sims.Err? {
      return Err(sims.error);
    }
    var totals := VisitSimulations(ZERO, sims.value, Visitor());
    if totals.Err? {
      return Err(totals.error);
    }
    r := Summarize(totals.value);
  }
}
