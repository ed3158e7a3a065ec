/** How the three stages fit together: the names augmentation gives the
    probes are the names aggregation splits back into tensor names, and the
    statistics that come out key the parameter derivation. */
module Pipeline {
  import opened OnnxGraph
  import opened PyBuiltins
  import opened Augment
  import opened Collect
  import opened QuantParams

  /** `rpartition('_')[0]` of either probe output of candidate `p` is the
      tensor that candidate's probes read: the role suffixes hold no `_`. */
  lemma ProbeNameRoundTrip(ns: seq<Node>)
    requires CandidatesHaveOutputs(ns)
    ensures |ProbeOutputs(ns)| == 2 * |ProbedTensors(ns)|
    ensures forall p :: 0 <= p < |ProbedTensors(ns)| ==>
      && RPartitionHead(ProbeOutputs(ns)[2 * p], '_') == ProbedTensors(ns)[p]
      && RPartitionHead(ProbeOutputs(ns)[2 * p + 1], '_') == ProbedTensors(ns)[p]
  {
    ProbeLayout(ns);
    forall p | 0 <= p < |ProbedTensors(ns)|
      ensures RPartitionHead(ProbeOutputs(ns)[2 * p], '_') == ProbedTensors(ns)[p]
      ensures RPartitionHead(ProbeOutputs(ns)[2 * p + 1], '_') == ProbedTensors(ns)[p]
    {
      SuffixStripped(ProbedTensors(ns)[p]);
    }
  }

  /** Both role suffixes are removed by splitting on the last `_`. */
  lemma SuffixStripped(t: string)
    ensures RPartitionHead(t + MinSuffix, '_') == t
    ensures RPartitionHead(t + MaxSuffix, '_') == t
  {
    assert '_' !in MinTail && '_' !in MaxTail;
    assert t + MinSuffix == t + ['_'] + MinTail;
    assert t + MaxSuffix == t + ['_'] + MaxTail;
    RPartitionHeadOfSuffixed(t, '_', MinTail);
    RPartitionHeadOfSuffixed(t, '_', MaxTail);
  }

  /** Unique probe output names come from unique probed tensors. */
  lemma ProbedTensorsDistinct(ns: seq<Node>)
    requires CandidatesHaveOutputs(ns)
    requires Distinct(ProbeOutputs(ns))
    ensures Distinct(ProbedTensors(ns))
  {
    ProbeLayout(ns);
    var ts := ProbedTensors(ns);
    forall a, b | 0 <= a < b < |ts| ensures ts[a] != ts[b] {
      assert ProbeOutputs(ns)[2 * a] != ProbeOutputs(ns)[2 * b];
    }
  }

  /** Aggregating the runs of an augmented graph: with at least one original
      output and unique output names, the naive mode succeeds and maps each
      probed Conv/MatMul tensor to the least value its ReduceMin probe took
      and the greatest value its ReduceMax probe took over all samples. */
  lemma StatisticsKeyedByProbedTensors(g: Graph, snapshots: seq<Snapshot>)
    requires CandidatesHaveOutputs(g.nodes)
    requires |g.outputs| > 0
    requires Distinct(g.outputs + ProbeOutputs(g.nodes))
    requires |snapshots| > 0
    requires Conforming(snapshots, |g.outputs + ProbeOutputs(g.nodes)|)
    ensures
      var r := NaiveCalibration(|g.outputs|, g.outputs + ProbeOutputs(g.nodes), snapshots, NaiveMode);
      var tensors := ProbedTensors(g.nodes);
      && r.Ok?
      && r.value.Keys == set t | t in tensors
      && |ProbeOutputs(g.nodes)| == 2 * |tensors|
      && forall p :: 0 <= p < |tensors| ==> tensors[p] in r.value && r.value[tensors[p]] == PairRange(snapshots, |g.outputs|, p)
  {
    var names := g.outputs + ProbeOutputs(g.nodes);
    var added := Drop(names, |g.outputs|);
    assert added == ProbeOutputs(g.nodes);
    DistinctTail(g.outputs, added);
    ProbedTensorsDistinct(g.nodes);
    KeysAreProbedTensors(g.nodes);
    NaiveCalibrationKeys(|g.outputs|, names, snapshots);
    var tensors := ProbedTensors(g.nodes);
    var r := NaiveCalibration(|g.outputs|, names, snapshots, NaiveMode);
    assert ProbeKeys(added) == tensors;
    forall p | 0 <= p < |tensors|
      ensures tensors[p] in r.value && r.value[tensors[p]] == PairRange(snapshots, |g.outputs|, p)
    {
      assert tensors[p] == ProbeKeys(added)[p];
    }
  }

  /** The names aggregation keys its result by, read off an augmented graph,
      are the probed tensors in traversal order. */
  lemma KeysAreProbedTensors(ns: seq<Node>)
    requires CandidatesHaveOutputs(ns)
    ensures |ProbeOutputs(ns)| == 2 * |ProbedTensors(ns)|
    ensures ProbeKeys(ProbeOutputs(ns)) == ProbedTensors(ns)
  {
    ProbeNameRoundTrip(ns);
  }

  /** A list of unique names has a tail of unique names. */
  lemma DistinctTail(xs: seq<string>, ys: seq<string>)
    requires Distinct(xs + ys)
    ensures Distinct(ys)
  {
    forall a, b | 0 <= a < b < |ys| ensures ys[a] != ys[b] {
      assert ys[a] == (xs + ys)[|xs| + a] && ys[b] == (xs + ys)[|xs| + b];
    }
  }

  /** Without an original output the first probe name is the key line 88
      drops, so aggregation raises KeyError as soon as there is a candidate. */
  lemma NoOriginalOutputRaisesKeyError(g: Graph, snapshots: seq<Snapshot>)
    requires CandidatesHaveOutputs(g.nodes)
    requires g.outputs == [] && |Candidates(g.nodes)| > 0
    requires |snapshots| > 0
    requires Conforming(snapshots, |ProbeOutputs(g.nodes)|)
    ensures NaiveCalibration(0, ProbeOutputs(g.nodes), snapshots, NaiveMode) == Err(KeyError)
  {
    ProbeLayout(g.nodes);
  }

  /** Feeding those statistics to parameter derivation over the original
      graph: when it succeeds, there is one parameter pair per probed tensor,
      each with a zero point in [0, 255]. */
  lemma ParamsCoverProbedTensors(g: Graph, stats: map<string, Range>)
    requires CandidatesHaveOutputs(g.nodes)
    requires stats.Keys == set t | t in ProbedTensors(g.nodes)
    requires QuantizationParams(g, 8, Some(stats)).Ok?
    ensures QuantizationParams(g, 8, Some(stats)).value.Keys == stats.Keys
    ensures forall t :: t in stats ==> 0 <= QuantizationParams(g, 8, Some(stats)).value[t].zeroPoint <= 255
  {
    ParamsKeys(g.nodes, stats, |g.nodes|);
    forall t | t in stats ensures t in FirstOutputNames(g.nodes, |g.nodes|) {
      ProbedTensorIsFirstOutput(g.nodes, t);
    }
  }

  /** Each probed tensor is the first output of some node. */
  lemma ProbedTensorIsFirstOutput(ns: seq<Node>, t: string)
    requires CandidatesHaveOutputs(ns)
    requires t in ProbedTensors(ns)
    ensures t in FirstOutputNames(ns, |ns|)
  {
    ProbeLayout(ns);
    var p :| 0 <= p < |ProbedTensors(ns)| && ProbedTensors(ns)[p] == t;
    var c := Candidates(ns)[p];
    assert c in ns;
    var i :| 0 <= i < |ns| && ns[i] == c;
    assert t == ns[i].outputs[0];
  }
}
