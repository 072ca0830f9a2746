/**
 * The failure-debug parser: a first run (id 1) over a baseline flow-monitor document records the
 * packets each five-tuple sent; a second run (id 2) over a comparison document keeps only the
 * tuples the baseline knows, records them too and prints the FCT summary; the comparison then
 * counts the baseline flows missing from the second run and those that sent fewer packets there.
 */
module FailDebugParser {
  import opened Wrappers
  import opened FlowRecord
  import opened FlowSimulation
  import opened FlowTotals

  const BASE_RUN: int := 1
  const COMPARE_RUN: int := 2

  /** The module's two global dictionaries from five-tuple to packets sent. */
  datatype SizeMaps = SizeMaps(baseMap: map<FiveTuple, nat>, compareMap: map<FiveTuple, nat>)

  /** What the loop over flows carries: its accumulators and the global dictionaries. */
  datatype PassState = PassState(totals: Totals, maps: SizeMaps)

  /**
   * A flow the run counts: complete, not a control-only flow in the baseline run, and in the
   * second run only a tuple the baseline recorded.
   */
  predicate Retained(f: Flow, id: int, baseMap: map<FiveTuple, nat>)
  {
    && Complete(f)
    && !(id == BASE_RUN && ControlOnly(f))
    && !(id == COMPARE_RUN && f.fiveTuple.Some? && f.fiveTuple.value !in baseMap)
  }

  /** The body of the loop over flows. The tuple is read first, so a flow without one raises. */
  function Visit(id: int, st: PassState, f: Flow): Result<PassState, Failure>
  {
    if f.fiveTuple.None? then Err(AttributeError)
    else if !Retained(f, id, st.maps.baseMap) then Ok(st)
    else if !KnownProtocol(f.fiveTuple.value) then Err(KeyError)
    else
      var t := f.fiveTuple.value;
      var maps := if id == BASE_RUN then st.maps.(baseMap := st.maps.baseMap[t := f.txPackets])
                  else st.maps.(compareMap := st.maps.compareMap[t := f.txPackets]);
      Ok(PassState(Accumulate(st.totals, f), maps))
  }

  function Visitor(id: int): (PassState, Flow) -> Result<PassState, Failure>
  {
    (st, f) => Visit(id, st, f)
  }

  /** The flows a run counts, in order. */
  function RetainedFlows(flows: seq<Flow>, id: int, baseMap: map<FiveTuple, nat>): (r: seq<Flow>)
    ensures forall f :: f in r ==> f in flows && Retained(f, id, baseMap)
  {
    if flows == [] then []
    else
      var init := RetainedFlows(flows[..|flows| - 1], id, baseMap);
      var f := flows[|flows| - 1];
      if Retained(f, id, baseMap) then init + [f] else init
  }

  /** A dictionary after each flow's tuple is set to its packet count, in order. */
  function Written(m: map<FiveTuple, nat>, flows: seq<Flow>): map<FiveTuple, nat>
  {
    if flows == [] then m
    else
      var w := Written(m, flows[..|flows| - 1]);
      var f := flows[|flows| - 1];
      if f.fiveTuple.Some? then w[f.fiveTuple.value := f.txPackets] else w
  }

  /**
   * A written dictionary holds the old keys and the flows' tuples, and a tuple's value is the
   * packet count of the last flow carrying it.
   */
  lemma {:induction false} WrittenSpec(m: map<FiveTuple, nat>, flows: seq<Flow>)
    ensures forall t :: t in Written(m, flows) <==> t in m || exists i :: 0 <= i < |flows| && flows[i].fiveTuple == Some(t)
    ensures forall i :: 0 <= i < |flows| && flows[i].fiveTuple.Some?
                        && (forall j :: i < j < |flows| ==> flows[j].fiveTuple != flows[i].fiveTuple)
                        ==> Written(m, flows)[flows[i].fiveTuple.value] == flows[i].txPackets
    decreases |flows|
  {
    if flows != [] {
      var init := flows[..|flows| - 1];
      WrittenSpec(m, init);
      assert forall i :: 0 <= i < |init| ==> init[i] == flows[i];
    }
  }

  /** A run completes exactly when every flow carries a tuple and every counted flow's protocol is TCP or UDP. */
  lemma {:induction false} PassOutcome(id: int, st: PassState, flows: seq<Flow>)
    ensures Fold(st, flows, Visitor(id)).Ok? <==>
      forall f :: f in flows ==> f.fiveTuple.Some? && (Retained(f, id, st.maps.baseMap) ==> KnownProtocol(f.fiveTuple.value))
    decreases |flows|
  {
    if flows != [] {
      var init := flows[..|flows| - 1];
      var f := flows[|flows| - 1];
      PassOutcome(id, st, init);
      PassKeeps(id, st, init);
      assert forall g :: g in init ==> g in flows;
      assert flows == init + [f];
      var r := Fold(st, init, Visitor(id));
      if r.Ok? {
        assert Fold(st, flows, Visitor(id)) == Visit(id, r.value, f);
        assert Retained(f, id, r.value.maps.baseMap) == Retained(f, id, st.maps.baseMap);
      }
    }
  }

  /** The baseline run never changes compareMap, nor any other run baseMap. */
  lemma {:induction false} PassKeeps(id: int, st: PassState, flows: seq<Flow>)
    ensures var r := Fold(st, flows, Visitor(id));
      r.Ok? ==> if id == BASE_RUN then r.value.maps.compareMap == st.maps.compareMap
                else r.value.maps.baseMap == st.maps.baseMap
    decreases |flows|
  {
    if flows != [] {
      PassKeeps(id, st, flows[..|flows| - 1]);
    }
  }

  /** A completed run adds exactly its counted flows to the accumulators. */
  lemma {:induction false} PassTotals(id: int, st: PassState, flows: seq<Flow>)
    requires Fold(st, flows, Visitor(id)).Ok?
    ensures Fold(st, flows, Visitor(id)).value.totals == AccumulateAll(st.totals, RetainedFlows(flows, id, st.maps.baseMap))
    decreases |flows|
  {
    if flows != [] {
      var init := flows[..|flows| - 1];
      var f := flows[|flows| - 1];
      PassKeeps(id, st, init);
      PassTotals(id, st, init);
      var s := Fold(st, init, Visitor(id)).value;
      assert Fold(st, flows, Visitor(id)) == Visit(id, s, f);
      assert Retained(f, id, s.maps.baseMap) == Retained(f, id, st.maps.baseMap);
      var rs := RetainedFlows(init, id, st.maps.baseMap);
      if Retained(f, id, st.maps.baseMap) {
        assert (rs + [f])[..|rs|] == rs;
      }
    }
  }

  /** A completed run writes exactly its counted flows' tuples: into baseMap in the baseline run, compareMap otherwise. */
  lemma {:induction false} PassWrites(id: int, st: PassState, flows: seq<Flow>)
    requires Fold(st, flows, Visitor(id)).Ok?
    ensures var r := Fold(st, flows, Visitor(id)).value;
      if id == BASE_RUN then r.maps.baseMap == Written(st.maps.baseMap, RetainedFlows(flows, id, st.maps.baseMap))
      else r.maps.compareMap == Written(st.maps.compareMap, RetainedFlows(flows, id, st.maps.baseMap))
    decreases |flows|
  {
    if flows != [] {
      var init := flows[..|flows| - 1];
      var f := flows[|flows| - 1];
      PassKeeps(id, st, init);
      PassWrites(id, st, init);
      var s := Fold(st, init, Visitor(id)).value;
      assert Fold(st, flows, Visitor(id)) == Visit(id, s, f);
      assert Retained(f, id, s.maps.baseMap) == Retained(f, id, st.maps.baseMap);
      var rs := RetainedFlows(init, id, st.maps.baseMap);
      if Retained(f, id, st.maps.baseMap) {
        assert (rs + [f])[..|rs|] == rs;
      }
    }
  }

  // ---------------------------------------------------------------- parse(fileName, id)

  /** What a run leaves behind: the dictionaries, and the summary the second run prints. */
  datatype Parsed = Parsed(maps: SizeMaps, report: Option<Report>)

  /**
   * parse: build the document's simulations, run the loop over all their flows from zeroed
   * accumulators, and in any run but the baseline summarise (an empty run raises
   * ZeroDivisionError there).
   */
  function Parse(els: seq<SimulationElement>, id: int, maps: SizeMaps): (r: Result<Parsed, Failure>)
    ensures r.Ok? ==> (r.value.report.Some? <==> id != BASE_RUN)
  {
    match Simulations(els)
    case Err(e) => Err(e)
    case Ok(sims) =>
      match Fold(PassState(ZERO, maps), Concat(sims), Visitor(id))
      case Err(e) => Err(e)
      case Ok(st) =>
        if id == BASE_RUN then Ok(Parsed(st.maps, None))
        else
          match Summarize(st.totals)
          case Err(e) => Err(e)
          case Ok(report) => Ok(Parsed(st.maps, Some(report)))
  }

  /**
   * A completed run other than the baseline reports on exactly the flows it counted: their
   * number, and the summary of their accumulators.
   */
  lemma ParseReport(els: seq<SimulationElement>, id: int, maps: SizeMaps)
    requires Parse(els, id, maps).Ok? && id != BASE_RUN
    ensures var kept := RetainedFlows(Concat(Simulations(els).value), id, maps.baseMap);
      && Summarize(AccumulateAll(ZERO, kept)).Ok?
      && Parse(els, id, maps).value.report == Some(Summarize(AccumulateAll(ZERO, kept)).value)
      && Parse(els, id, maps).value.report.value.flowCount == |kept| > 0
  {
    var flows := Concat(Simulations(els).value);
    PassTotals(id, PassState(ZERO, maps), flows);
    AccumulateAllCounts(RetainedFlows(flows, id, maps.baseMap));
  }

  method ParseFile(els: seq<SimulationElement>, id: int, maps: SizeMaps) returns (r: Result<Parsed, Failure>)
    ensures r == Parse(els, id, maps)
  {
    var sims := ReadSimulations(els);
    if sims.Err? {
      return Err(sims.error);
    }
    var pass := VisitSimulations(PassState(ZERO, maps), sims.value, Visitor(id));
    if pass.Err? {
      return Err(pass.error);
    }
    if id == BASE_RUN {
      return Ok(Parsed(pass.value.maps, None));
    }
    var report := Summarize(pass.value.totals);
    if report.Err? {
      return Err(report.error);
    }
    r := Ok(Parsed(pass.value.maps, Some(report.value)));
  }

  // ---------------------------------------------------------------- main

  /** Baseline flows the second run never recorded. */
  function NotExist(m: SizeMaps): set<FiveTuple>
  {
    set t | t in m.baseMap && t !in m.compareMap
  }

  /** Baseline flows both runs recorded. */
  function Common(m: SizeMaps): set<FiveTuple>
  {
    set t | t in m.baseMap && t in m.compareMap
  }

  /** Baseline flows that sent fewer packets in the second run. */
  function WrongSize(m: SizeMaps): set<FiveTuple>
  {
    set t | t in m.baseMap && t in m.compareMap && m.baseMap[t] > m.compareMap[t]
  }

  /**
   * Every baseline flow is either missing or common, never both, and a flow is of wrong size
   * only when both runs have it and the second sent fewer packets: equal or larger is fine.
   */
  lemma DiffPartition(m: SizeMaps)
    ensures |NotExist(m)| + |Common(m)| == |m.baseMap.Keys|
    ensures WrongSize(m) <= Common(m) && |WrongSize(m)| <= |Common(m)|
    ensures forall t :: t in Common(m) ==> (t in WrongSize(m) <==> m.compareMap[t] < m.baseMap[t])
    ensures |NotExist(m)| == 0 <==> m.baseMap.Keys <= m.compareMap.Keys
  {
    assert NotExist(m) + Common(m) == m.baseMap.Keys;
    assert NotExist(m) * Common(m) == {};
    assert Common(m) == WrongSize(m) + (Common(m) - WrongSize(m));
    if |NotExist(m)| == 0 {
      assert NotExist(m) == {};
    } else {
      var t :| t in NotExist(m);
    }
  }

  /** The first loop of main: count the baseline tuples missing from compareMap. */
  method CountNotExist(m: SizeMaps) returns (total: nat)
    ensures total == |NotExist(m)|
  {
    total := 0;
    var todo := m.baseMap.Keys;
    ghost var counted: set<FiveTuple> := {};
    while todo != {}
      invariant todo <= m.baseMap.Keys && counted <= m.baseMap.Keys && total == |counted|
      invariant forall t :: t in m.baseMap && t !in todo ==> (t in counted <==> t !in m.compareMap)
      invariant forall t :: t in counted ==> t !in todo
      decreases |todo|
    {
      var t :| t in todo;
      if t !in m.compareMap {
        total := total + 1;
        counted := counted + {t};
      }
      todo := todo - {t};
    }
    assert counted == NotExist(m);
  }

  /** The second loop of main: count the baseline tuples that sent fewer packets in the second run. */
  method CountWrongSize(m: SizeMaps) returns (total: nat)
    ensures total == |WrongSize(m)|
  {
    total := 0;
    var todo := m.baseMap.Keys;
    ghost var counted: set<FiveTuple> := {};
    while todo != {}
      invariant todo <= m.baseMap.Keys && counted <= m.baseMap.Keys && total == |counted|
      invariant forall t :: t in m.baseMap && t !in todo ==> (t in counted <==> t in WrongSize(m))
      invariant forall t :: t in counted ==> t !in todo
      decreases |todo|
    {
      var t :| t in todo;
      if t in m.compareMap && m.baseMap[t] > m.compareMap[t] {
        total := total + 1;
        counted := counted + {t};
      }
      todo := todo - {t};
    }
    assert counted == WrongSize(m);
  }

  /** What main prints at the end: the second run's summary and the two counts. */
  datatype Comparison = Comparison(report: Report, notExist: nat, wrongSize: nat)

  const EMPTY_MAPS: SizeMaps := SizeMaps(map[], map[])

  /** main: the baseline run, the second run, then the two counts over the final dictionaries. */
  function Compare(base: seq<SimulationElement>, compare: seq<SimulationElement>): Result<Comparison, Failure>
  {
    match Parse(base, BASE_RUN, EMPTY_MAPS)
    case Err(e) => Err(e)
    case Ok(p1) =>
      match Parse(compare, COMPARE_RUN, p1.maps)
      case Err(e) => Err(e)
      case Ok(p2) =>
        Ok(Comparison(p2.report.value, |NotExist(p2.maps)|, |WrongSize(p2.maps)|))
  }

  method RunComparison(base: seq<SimulationElement>, compare: seq<SimulationElement>) returns (r: Result<Comparison, Failure>)
    ensures r == Compare(base, compare)
  {
    var p1 := ParseFile(base, BASE_RUN, EMPTY_MAPS);
    if p1.Err? {
      return Err(p1.error);
    }
    var p2 := ParseFile(compare, COMPARE_RUN, p1.value.maps);
    if p2.Err? {
      return Err(p2.error);
    }
    var notExist := CountNotExist(p2.value.maps);
    var wrongSize := CountWrongSize(p2.value.maps);
    r := Ok(Comparison(p2.value.report.value, notExist, wrongSize));
  }

  /**
   * After both runs, the second run's dictionary holds only baseline tuples, the baseline
   * dictionary is the one the first run wrote, and the missing flows plus the flows both runs
   * saw are all the baseline flows.
   */
  lemma CompareSpec(base: seq<SimulationElement>, compare: seq<SimulationElement>)
    requires Parse(base, BASE_RUN, EMPTY_MAPS).Ok?
    requires Parse(compare, COMPARE_RUN, Parse(base, BASE_RUN, EMPTY_MAPS).value.maps).Ok?
    ensures var p1 := Parse(base, BASE_RUN, EMPTY_MAPS).value;
      var p2 := Parse(compare, COMPARE_RUN, p1.maps).value;
      && p2.report.Some?
      && p1.maps.compareMap == map[]
      && p2.maps.baseMap == p1.maps.baseMap
      && p2.maps.compareMap.Keys <= p2.maps.baseMap.Keys
      && Compare(base, compare).Ok?
      && Compare(base, compare).value.notExist + |Common(p2.maps)| == |p1.maps.baseMap.Keys|
  {
    var p1 := Parse(base, BASE_RUN, EMPTY_MAPS).value;
    var sims1 := Simulations(base).value;
    PassKeeps(BASE_RUN, PassState(ZERO, EMPTY_MAPS), Concat(sims1));
    var sims2 := Simulations(compare).value;
    var st2 := PassState(ZERO, p1.maps);
    var flows2 := Concat(sims2);
    PassKeeps(COMPARE_RUN, st2, flows2);
    PassWrites(COMPARE_RUN, st2, flows2);
    var kept := RetainedFlows(flows2, COMPARE_RUN, p1.maps.baseMap);
    WrittenSpec(p1.maps.compareMap, kept);
    var p2 := Parse(compare, COMPARE_RUN, p1.maps).value;
    forall t | t in p2.maps.compareMap
      ensures t in p2.maps.baseMap
    {
      var i :| 0 <= i < |kept| && kept[i].fiveTuple == Some(t);
      assert kept[i] in kept;
    }
    DiffPartition(p2.maps);
  }
}
