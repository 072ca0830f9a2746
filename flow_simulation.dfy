/**
 * Simulation.__init__ of both flow-monitor parsers: build a Flow per FlowStats/Flow element,
 * index them by flow id (a later flow with the same id replaces an earlier one in the index),
 * then attach the classifier's five-tuples and the probes' records to the indexed flows.
 */
module FlowSimulation {
  import opened Wrappers
  import opened FlowRecord

  /** One Ipv4FlowClassifier/Flow element: a flow id and its five-tuple. */
  datatype ClassifierRecord = ClassifierRecord(flowId: int, tuple: FiveTuple)

  /** One FlowProbe/FlowStats element. */
  datatype ProbeStatsElement = ProbeStatsElement(flowId: int, packets: int, bytes: int, delayFromFirstProbeSum: string)

  /** One FlowProbe element: its index and its records. */
  datatype ProbeElement = ProbeElement(index: int, stats: seq<ProbeStatsElement>)

  /** A FlowMonitor element: its flows, its Ipv4FlowClassifier elements and its probes. */
  datatype SimulationElement = SimulationElement(
    flows: seq<FlowElement>,
    classifiers: seq<seq<ClassifierRecord>>,
    probes: seq<ProbeElement>)

  // ---------------------------------------------------------------- flow_map

  /** flow_map: each flow id to the position of the last flow carrying it. */
  function FlowIndex(flows: seq<Flow>): (index: map<int, nat>)
    ensures forall i :: 0 <= i < |flows| ==> flows[i].flowId in index
    ensures forall id :: id in index ==> index[id] < |flows| && flows[index[id]].flowId == id
    ensures forall id, j :: id in index && index[id] < j < |flows| ==> flows[j].flowId != id
  {
    var ids := Ids(flows);
    var index := LastPositions(ids);
    forall i | 0 <= i < |flows|
      ensures flows[i].flowId in index
    {
      assert ids[i] in ids;
    }
    index
  }

  /** Appending a flow appends its id. */
  lemma IdsSnoc(flows: seq<Flow>, f: Flow)
    ensures Ids(flows + [f]) == Ids(flows) + [f.flowId]
  {
  }

  /** Appending an id points it at the new last position. */
  lemma LastPositionsSnoc(ids: seq<int>, id: int)
    ensures LastPositions(ids + [id]) == LastPositions(ids)[id := |ids|]
  {
    assert (ids + [id])[..|ids|] == ids;
  }

  function Ids(flows: seq<Flow>): (ids: seq<int>)
    ensures |ids| == |flows| && forall i :: 0 <= i < |flows| ==> ids[i] == flows[i].flowId
  {
    seq(|flows|, i requires 0 <= i < |flows| => flows[i].flowId)
  }

  /** Each id to the position of its last occurrence. */
  function LastPositions(ids: seq<int>): (index: map<int, nat>)
    ensures forall id :: id in index <==> id in ids
    ensures forall id :: id in index ==> index[id] < |ids| && ids[index[id]] == id
    ensures forall id, j :: id in index && index[id] < j < |ids| ==> ids[j] != id
  {
    if ids == [] then map[]
    else
      var init := ids[..|ids| - 1];
      assert forall i :: 0 <= i < |init| ==> init[i] == ids[i];
      assert forall id :: id in ids <==> id in init || id == ids[|ids| - 1];
      LastPositions(init)[ids[|ids| - 1] := |ids| - 1]
  }

  /** The index fits the flow list: every position it holds is a flow with that id. */
  predicate Indexes(index: map<int, nat>, flows: seq<Flow>)
  {
    forall id :: id in index ==> index[id] < |flows| && flows[index[id]].flowId == id
  }

  // ---------------------------------------------------------------- classifier

  /**
   * The classifier loop: each record's tuple is set on the flow its id indexes; an id with no
   * flow raises KeyError.
   */
  function Classify(flows: seq<Flow>, index: map<int, nat>, records: seq<ClassifierRecord>): (r: Result<seq<Flow>, Failure>)
    requires Indexes(index, flows)
    ensures r.Ok? ==> |r.value| == |flows| && Indexes(index, r.value)
    ensures r.Err? ==> r.error == KeyError
  {
    if records == [] then Ok(flows)
    else
      match Classify(flows, index, records[..|records| - 1])
      case Err(e) => Err(e)
      case Ok(fs) =>
        var rec := records[|records| - 1];
        if rec.flowId !in index then Err(KeyError)
        else
          var i := index[rec.flowId];
          Ok(fs[i := fs[i].(fiveTuple := Some(rec.tuple))])
  }

  /** The tuple of the last record for a flow id, if any. */
  function LastTuple(records: seq<ClassifierRecord>, id: int): Option<FiveTuple>
  {
    if records == [] then None
    else if records[|records| - 1].flowId == id then Some(records[|records| - 1].tuple)
    else LastTuple(records[..|records| - 1], id)
  }

  /** The classifier loop succeeds exactly when every record names a known flow. */
  lemma {:induction false} ClassifyOk(flows: seq<Flow>, index: map<int, nat>, records: seq<ClassifierRecord>)
    requires Indexes(index, flows)
    ensures Classify(flows, index, records).Ok? <==> forall r :: r in records ==> r.flowId in index
    decreases |records|
  {
    if records != [] {
      var init := records[..|records| - 1];
      var rec := records[|records| - 1];
      ClassifyOk(flows, index, init);
      assert records == init + [rec];
      if forall r :: r in records ==> r.flowId in index {
        assert forall r :: r in init ==> r in records;
      }
    }
  }

  /**
   * After a successful classifier loop each flow the index holds has the tuple of the last record
   * for its id, while every other flow (and a shadowed earlier flow with the same id) keeps what
   * it had. Nothing but the tuples changes.
   */
  lemma {:induction false} ClassifySpec(flows: seq<Flow>, index: map<int, nat>, records: seq<ClassifierRecord>)
    requires Indexes(index, flows)
    ensures var c := Classify(flows, index, records);
      c.Ok? ==> forall i :: 0 <= i < |flows| ==>
        var id := flows[i].flowId;
        && c.value[i] == flows[i].(fiveTuple := c.value[i].fiveTuple)
        && c.value[i].fiveTuple
           == if id in index && index[id] == i && LastTuple(records, id).Some? then LastTuple(records, id)
              else flows[i].fiveTuple
    decreases |records|
  {
    if records != [] {
      ClassifySpec(flows, index, records[..|records| - 1]);
    }
  }

  // ---------------------------------------------------------------- probes

  /** A probe record as ProbeFlowStats: the mean delay needs a readable delay sum when packets > 0. */
  function ProbeStats(probeId: int, s: ProbeStatsElement): Result<ProbeFlowStats, Failure>
  {
    if s.packets > 0 then
      match ParseTimeNs(s.delayFromFirstProbeSum)
      case Err(e) => Err(e)
      case Ok(sum) => Ok(ProbeFlowStats(probeId, s.packets, s.bytes, sum as real / s.packets as real))
    else Ok(ProbeFlowStats(probeId, s.packets, s.bytes, 0.0))
  }

  /** The probes' records in document order, each with its probe's index. */
  function Records(probes: seq<ProbeElement>): seq<(int, ProbeStatsElement)>
  {
    if probes == [] then []
    else Records(probes[..|probes| - 1]) + Tagged(probes[|probes| - 1].index, probes[|probes| - 1].stats)
  }

  function Tagged(probeId: int, stats: seq<ProbeStatsElement>): (r: seq<(int, ProbeStatsElement)>)
    ensures |r| == |stats| && forall i :: 0 <= i < |stats| ==> r[i] == (probeId, stats[i])
  {
    if stats == [] then [] else Tagged(probeId, stats[..|stats| - 1]) + [(probeId, stats[|stats| - 1])]
  }

  /**
   * The probe loop: each record is appended to the probe list of the flow its id indexes; a bad
   * delay sum raises ValueError and an unknown id KeyError, in that order.
   */
  function Attach(flows: seq<Flow>, index: map<int, nat>, records: seq<(int, ProbeStatsElement)>)
    : (r: Result<seq<Flow>, Failure>)
    requires Indexes(index, flows)
    ensures r.Ok? ==> |r.value| == |flows| && Indexes(index, r.value)
  {
    if records == [] then Ok(flows)
    else
      match Attach(flows, index, records[..|records| - 1])
      case Err(e) => Err(e)
      case Ok(fs) =>
        var (probeId, s) := records[|records| - 1];
        match ProbeStats(probeId, s)
        case Err(e) => Err(e)
        case Ok(p) =>
          if s.flowId !in index then Err(KeyError)
          else
            var i := index[s.flowId];
            Ok(fs[i := fs[i].(probeStats := fs[i].probeStats + [p])])
  }

  /** The records for one flow id, in order, as ProbeFlowStats (a bad record reads as nothing). */
  function ProbesFor(records: seq<(int, ProbeStatsElement)>, id: int): seq<ProbeFlowStats>
  {
    if records == [] then []
    else
      var (probeId, s) := records[|records| - 1];
      var p := ProbeStats(probeId, s);
      ProbesFor(records[..|records| - 1], id) + (if s.flowId == id && p.Ok? then [p.value] else [])
  }

  /**
   * The probe loop succeeds exactly when every record names a known flow and every record with
   * packets has a readable delay sum.
   */
  lemma {:induction false} AttachOk(flows: seq<Flow>, index: map<int, nat>, records: seq<(int, ProbeStatsElement)>)
    requires Indexes(index, flows)
    ensures Attach(flows, index, records).Ok? <==>
      forall k :: 0 <= k < |records| ==> records[k].1.flowId in index && ProbeStats(records[k].0, records[k].1).Ok?
    decreases |records|
  {
    if records != [] {
      var init := records[..|records| - 1];
      AttachOk(flows, index, init);
      assert forall k :: 0 <= k < |init| ==> init[k] == records[k];
    }
  }

  /**
   * After a successful probe loop each indexed flow has gained the records for its id in
   * document order, appended after those it had, and nothing else has changed.
   */
  lemma {:induction false} AttachSpec(flows: seq<Flow>, index: map<int, nat>, records: seq<(int, ProbeStatsElement)>)
    requires Indexes(index, flows)
    ensures var a := Attach(flows, index, records);
      a.Ok? ==> forall i :: 0 <= i < |flows| ==>
        var id := flows[i].flowId;
        && a.value[i] == flows[i].(probeStats := a.value[i].probeStats)
        && a.value[i].probeStats
           == flows[i].probeStats + if id in index && index[id] == i then ProbesFor(records, id) else []
    decreases |records|
  {
    if records != [] {
      var init := records[..|records| - 1];
      AttachSpec(flows, index, init);
      var a := Attach(flows, index, records);
      if a.Ok? {
        var fs := Attach(flows, index, init).value;
        var (probeId, st) := records[|records| - 1];
        var p := ProbeStats(probeId, st).value;
        var k := index[st.flowId];
        assert a.value == fs[k := fs[k].(probeStats := fs[k].probeStats + [p])];
        forall i | 0 <= i < |flows|
          ensures var id := flows[i].flowId;
            && a.value[i] == flows[i].(probeStats := a.value[i].probeStats)
            && a.value[i].probeStats
               == flows[i].probeStats + if id in index && index[id] == i then ProbesFor(records, id) else []
        {
          AttachAt(flows, index, init, fs, st, p, a.value, i);
        }
      }
    }
  }

  /** The probe loop's last step, seen from one position. */
  lemma AttachAt(flows: seq<Flow>, index: map<int, nat>, init: seq<(int, ProbeStatsElement)>, fs: seq<Flow>,
                 st: ProbeStatsElement, p: ProbeFlowStats, a: seq<Flow>, i: nat)
    requires Indexes(index, flows) && i < |flows| == |fs| && st.flowId in index
    requires a == fs[index[st.flowId] := fs[index[st.flowId]].(probeStats := fs[index[st.flowId]].probeStats + [p])]
    requires var id := flows[i].flowId;
      && fs[i] == flows[i].(probeStats := fs[i].probeStats)
      && fs[i].probeStats == flows[i].probeStats + if id in index && index[id] == i then ProbesFor(init, id) else []
    ensures var id := flows[i].flowId;
      && a[i] == flows[i].(probeStats := a[i].probeStats)
      && a[i].probeStats
         == flows[i].probeStats + if id in index && index[id] == i then ProbesFor(init, id) + (if st.flowId == id then [p] else []) else []
  {
  }

  // ---------------------------------------------------------------- Simulation

  /** The flows built from the elements, in document order. */
  function Flows(els: seq<FlowElement>): (flows: seq<Flow>)
    ensures |flows| == |els| && forall i :: 0 <= i < |els| ==> flows[i] == MakeFlow(els[i])
  {
    seq(|els|, i requires 0 <= i < |els| => MakeFlow(els[i]))
  }

  /**
   * Simulation.__init__: exactly one classifier element (else the unpacking raises ValueError),
   * the flows in document order, then the classifier's tuples, then the probes' records.
   */
  function Simulate(el: SimulationElement): Result<seq<Flow>, Failure>
  {
    if |el.classifiers| != 1 then Err(ValueError)
    else
      var flows := Flows(el.flows);
      var index := FlowIndex(flows);
      match Classify(flows, index, el.classifiers[0])
      case Err(e) => Err(e)
      case Ok(fs) => Attach(fs, index, Records(el.probes))
  }

  /**
   * A simulation needs exactly one classifier element, and classifier records that all name a
   * flow of the element.
   */
  lemma SimulateErrors(el: SimulationElement)
    ensures |el.classifiers| != 1 ==> Simulate(el) == Err(ValueError)
    ensures |el.classifiers| == 1 && (exists r :: r in el.classifiers[0] && forall e :: e in el.flows ==> e.flowId != r.flowId)
      ==> Simulate(el) == Err(KeyError)
  {
    if |el.classifiers| == 1 {
      var flows := Flows(el.flows);
      var index := FlowIndex(flows);
      var records := el.classifiers[0];
      ClassifyOk(flows, index, records);
      if exists r :: r in records && forall e :: e in el.flows ==> e.flowId != r.flowId {
        var r :| r in records && forall e :: e in el.flows ==> e.flowId != r.flowId;
        forall id | id in index
          ensures exists e :: e in el.flows && e.flowId == id
        {
          assert el.flows[index[id]] in el.flows;
        }
      }
    }
  }

  /** The stages of a built simulation: flows, classified flows, flows with probes. */
  lemma SimulateStages(el: SimulationElement)
    requires Simulate(el).Ok?
    ensures var flows := Flows(el.flows);
      var index := FlowIndex(flows);
      && Classify(flows, index, el.classifiers[0]).Ok?
      && Simulate(el) == Attach(Classify(flows, index, el.classifiers[0]).value, index, Records(el.probes))
  {
  }

  /** A built simulation holds the elements' flows in document order, each keeping its counters and metrics. */
  lemma SimulateFlows(el: SimulationElement)
    requires Simulate(el).Ok?
    ensures |Simulate(el).value| == |el.flows|
    ensures forall i :: 0 <= i < |el.flows| ==>
      var f := Simulate(el).value[i];
      f == MakeFlow(el.flows[i]).(fiveTuple := f.fiveTuple, probeStats := f.probeStats)
  {
    SimulateStages(el);
    var flows := Flows(el.flows);
    var index := FlowIndex(flows);
    var records := el.classifiers[0];
    ClassifySpec(flows, index, records);
    var c := Classify(flows, index, records).value;
    AttachSpec(c, index, Records(el.probes));
  }

  /** A flow shadowed by a later one with the same id receives no tuple and no probe record. */
  lemma SimulateShadowed(el: SimulationElement)
    requires Simulate(el).Ok?
    ensures |Simulate(el).value| == |el.flows|
    ensures forall i, j :: 0 <= i < j < |el.flows| && el.flows[j].flowId == el.flows[i].flowId ==>
      Simulate(el).value[i].fiveTuple.None? && Simulate(el).value[i].probeStats == []
  {
    SimulateStages(el);
    var flows := Flows(el.flows);
    var index := FlowIndex(flows);
    var records := el.classifiers[0];
    ClassifySpec(flows, index, records);
    var c := Classify(flows, index, records).value;
    AttachSpec(c, index, Records(el.probes));
    forall i, j | 0 <= i < j < |el.flows| && el.flows[j].flowId == el.flows[i].flowId
      ensures Simulate(el).value[i].fiveTuple.None? && Simulate(el).value[i].probeStats == []
    {
      assert flows[j].flowId == flows[i].flowId && c[i].flowId == flows[i].flowId;
    }
  }

  // ---------------------------------------------------------------- the loops

  /** The first loop: build each flow, list it, and point flow_map at it. */
  method BuildFlows(els: seq<FlowElement>) returns (flows: seq<Flow>, flowMap: map<int, nat>)
    ensures flows == Flows(els) && flowMap == FlowIndex(flows)
  {
    flows := [];
    flowMap := map[];
    var i := 0;
    while i < |els|
      invariant 0 <= i <= |els|
      invariant |flows| == i && (forall k :: 0 <= k < i ==> flows[k] == MakeFlow(els[k]))
      invariant flowMap == LastPositions(Ids(flows))
    {
      var flow := MakeFlow(els[i]);
      IdsSnoc(flows, flow);
      LastPositionsSnoc(Ids(flows), flow.flowId);
      flowMap := flowMap[flow.flowId := |flows|];
      flows := flows + [flow];
      i := i + 1;
    }
    assert flows == Flows(els);
  }

  /** The classifier loop. */
  method ApplyClassifier(flows: seq<Flow>, flowMap: map<int, nat>, records: seq<ClassifierRecord>)
    returns (r: Result<seq<Flow>, Failure>)
    requires Indexes(flowMap, flows)
    ensures r == Classify(flows, flowMap, records)
  {
    var fs := flows;
    var j := 0;
    while j < |records|
      invariant 0 <= j <= |records| && Indexes(flowMap, fs)
      invariant Classify(flows, flowMap, records[..j]) == Ok(fs)
    {
      var rec := records[j];
      assert records[..j + 1][..j] == records[..j];
      if rec.flowId !in flowMap {
        ClassifyStops(flows, flowMap, records, records[..j + 1]);
        return Err(KeyError);
      }
      var k := flowMap[rec.flowId];
      fs := fs[k := fs[k].(fiveTuple := Some(rec.tuple))];
      j := j + 1;
    }
    assert records[..j] == records;
    r := Ok(fs);
  }

  /** The inner probe loop: one FlowProbe's records, attached after the records done before it. */
  method AttachProbe(base: seq<Flow>, flowMap: map<int, nat>, ghost done: seq<(int, ProbeStatsElement)>,
                     fs: seq<Flow>, probe: ProbeElement) returns (r: Result<seq<Flow>, Failure>)
    requires Indexes(flowMap, base) && Attach(base, flowMap, done) == Ok(fs)
    ensures r == Attach(base, flowMap, done + Tagged(probe.index, probe.stats))
  {
    ghost var all := done + Tagged(probe.index, probe.stats);
    var flows := fs;
    var s := 0;
    assert done + Tagged(probe.index, probe.stats[..0]) == done;
    while s < |probe.stats|
      invariant 0 <= s <= |probe.stats|
      invariant Attach(base, flowMap, done + Tagged(probe.index, probe.stats[..s])) == Ok(flows)
    {
      var stats := probe.stats[s];
      ghost var upTo := done + Tagged(probe.index, probe.stats[..s + 1]);
      TaggedStep(done, probe.index, probe.stats, s);
      AttachSnoc(base, flowMap, done + Tagged(probe.index, probe.stats[..s]), probe.index, stats, flows);
      var ps := ProbeStats(probe.index, stats);
      if ps.Err? || stats.flowId !in flowMap {
        AttachStops(base, flowMap, all, upTo);
        return if ps.Err? then Err(ps.error) else Err(KeyError);
      }
      var k := flowMap[stats.flowId];
      flows := flows[k := flows[k].(probeStats := flows[k].probeStats + [ps.value])];
      s := s + 1;
    }
    assert probe.stats[..s] == probe.stats;
    r := Ok(flows);
  }

  /** The records of one more probe statistic: one more at the end, and still a prefix of all of them. */
  lemma TaggedStep(done: seq<(int, ProbeStatsElement)>, probeId: int, stats: seq<ProbeStatsElement>, s: nat)
    requires s < |stats|
    ensures done + Tagged(probeId, stats[..s + 1]) == done + Tagged(probeId, stats[..s]) + [(probeId, stats[s])]
    ensures done + Tagged(probeId, stats[..s + 1]) <= done + Tagged(probeId, stats)
  {
    assert stats[..s + 1][..s] == stats[..s];
    assert Tagged(probeId, stats[..s + 1]) == Tagged(probeId, stats)[..s + 1];
  }

  /** One more record: the probe loop's step. */
  lemma AttachSnoc(flows: seq<Flow>, index: map<int, nat>, prefix: seq<(int, ProbeStatsElement)>,
                   probeId: int, s: ProbeStatsElement, fs: seq<Flow>)
    requires Indexes(index, flows) && Attach(flows, index, prefix) == Ok(fs)
    ensures Attach(flows, index, prefix + [(probeId, s)]) ==
      match ProbeStats(probeId, s)
      case Err(e) => Err(e)
      case Ok(p) =>
        if s.flowId !in index then Err(KeyError)
        else Ok(fs[index[s.flowId] := fs[index[s.flowId]].(probeStats := fs[index[s.flowId]].probeStats + [p])])
  {
    assert (prefix + [(probeId, s)])[..|prefix|] == prefix;
  }

  /** The outer probe loop. */
  method ApplyProbes(flows: seq<Flow>, flowMap: map<int, nat>, probes: seq<ProbeElement>)
    returns (r: Result<seq<Flow>, Failure>)
    requires Indexes(flowMap, flows)
    ensures r == Attach(flows, flowMap, Records(probes))
  {
    var fs := flows;
    var p := 0;
    while p < |probes|
      invariant 0 <= p <= |probes|
      invariant Attach(flows, flowMap, Records(probes[..p])) == Ok(fs)
    {
      assert probes[..p + 1][..p] == probes[..p];
      r := AttachProbe(flows, flowMap, Records(probes[..p]), fs, probes[p]);
      if r.Err? {
        RecordsPrefix(probes, p + 1);
        AttachStops(flows, flowMap, Records(probes), Records(probes[..p + 1]));
        return;
      }
      fs := r.value;
      p := p + 1;
    }
    assert probes[..p] == probes;
    r := Ok(fs);
  }

  /** Simulation.__init__ over one FlowMonitor element, with flow_map as each id's position in the list. */
  method BuildSimulation(el: SimulationElement) returns (r: Result<seq<Flow>, Failure>)
    ensures r == Simulate(el)
  {
    if |el.classifiers| != 1 {
      return Err(ValueError);
    }
    var flows, flowMap := BuildFlows(el.flows);
    r := ApplyClassifier(flows, flowMap, el.classifiers[0]);
    if r.Ok? {
      r := ApplyProbes(r.value, flowMap, el.probes);
    }
  }

  /**
   * The document loop: one Simulation per top-level FlowMonitor element, in order; the first
   * element that raises ends the parse with its exception.
   */
  function Simulations(els: seq<SimulationElement>): Result<seq<seq<Flow>>, Failure>
  {
    BuildEach(els, Simulate)
  }

  /** Each element built in order, stopping at the first that raises. */
  function BuildEach(els: seq<SimulationElement>, build: SimulationElement -> Result<seq<Flow>, Failure>)
    : (r: Result<seq<seq<Flow>>, Failure>)
    ensures r.Ok? <==> forall i :: 0 <= i < |els| ==> build(els[i]).Ok?
    ensures r.Ok? ==> |r.value| == |els| && forall i :: 0 <= i < |els| ==> build(els[i]) == Ok(r.value[i])
  {
    if els == [] then Ok([])
    else
      match BuildEach(els[..|els| - 1], build)
      case Err(e) => Err(e)
      case Ok(sims) =>
        match build(els[|els| - 1])
        case Err(e) => Err(e)
        case Ok(flows) => Ok(sims + [flows])
  }

  /** The exception that ends the document loop is that of the first element that raises. */
  lemma {:induction false} BuildEachError(els: seq<SimulationElement>, build: SimulationElement -> Result<seq<Flow>, Failure>)
    requires BuildEach(els, build).Err?
    ensures exists i :: 0 <= i < |els| && build(els[i]) == Err(BuildEach(els, build).error)
                        && forall j :: 0 <= j < i ==> build(els[j]).Ok?
    decreases |els|
  {
    var init := els[..|els| - 1];
    assert forall j :: 0 <= j < |init| ==> init[j] == els[j];
    if BuildEach(init, build).Err? {
      BuildEachError(init, build);
    } else {
      assert build(els[|els| - 1]) == Err(BuildEach(els, build).error);
    }
  }

  /** The iterparse loop over the document's FlowMonitor elements. */
  method ReadSimulations(els: seq<SimulationElement>) returns (r: Result<seq<seq<Flow>>, Failure>)
    ensures r == Simulations(els)
  {
    var sims: seq<seq<Flow>> := [];
    var i := 0;
    while i < |els|
      invariant 0 <= i <= |els| && BuildEach(els[..i], Simulate) == Ok(sims)
    {
      assert els[..i + 1][..i] == els[..i];
      var sim := BuildSimulation(els[i]);
      if sim.Err? {
        BuildEachStops(els, i + 1, Simulate);
        return Err(sim.error);
      }
      sims := sims + [sim.value];
      i := i + 1;
    }
    assert els[..i] == els;
    r := Ok(sims);
  }

  /** An exception among the first n elements is the exception of the whole document. */
  lemma {:induction false} BuildEachStops(els: seq<SimulationElement>, n: nat, build: SimulationElement -> Result<seq<Flow>, Failure>)
    requires n <= |els| && BuildEach(els[..n], build).Err?
    ensures BuildEach(els, build) == BuildEach(els[..n], build)
    decreases |els| - n
  {
    if n < |els| {
      assert els[..n + 1][..n] == els[..n];
      BuildEachStops(els, n + 1, build);
    } else {
      assert els[..n] == els;
    }
  }

  /** An error on a prefix of the classifier records is the error of them all. */
  lemma {:induction false} ClassifyStops(flows: seq<Flow>, index: map<int, nat>, records: seq<ClassifierRecord>,
                                         prefix: seq<ClassifierRecord>)
    requires Indexes(index, flows) && prefix <= records
    requires Classify(flows, index, prefix).Err?
    ensures Classify(flows, index, records) == Classify(flows, index, prefix)
    decreases |records|
  {
    if |records| > |prefix| {
      assert prefix <= records[..|records| - 1];
      ClassifyStops(flows, index, records[..|records| - 1], prefix);
    } else {
      assert records == prefix;
    }
  }

  /** An error on a prefix of the probe records is the error of them all. */
  lemma {:induction false} AttachStops(flows: seq<Flow>, index: map<int, nat>, records: seq<(int, ProbeStatsElement)>,
                                       prefix: seq<(int, ProbeStatsElement)>)
    requires Indexes(index, flows) && prefix <= records
    requires Attach(flows, index, prefix).Err?
    ensures Attach(flows, index, records) == Attach(flows, index, prefix)
    decreases |records|
  {
    if |records| > |prefix| {
      assert prefix <= records[..|records| - 1];
      AttachStops(flows, index, records[..|records| - 1], prefix);
    } else {
      assert records == prefix;
    }
  }

  /** The records of the first n probes come first among the records of all of them. */
  lemma {:induction false} RecordsPrefix(probes: seq<ProbeElement>, n: nat)
    requires n <= |probes|
    ensures Records(probes[..n]) <= Records(probes)
    decreases |probes| - n
  {
    if n < |probes| {
      RecordsPrefix(probes, n + 1);
      assert probes[..n + 1][..n] == probes[..n];
    } else {
      assert probes[..n] == probes;
    }
  }
}
