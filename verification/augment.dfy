/** Graph augmentation (`augment_graph`): every Conv and MatMul node gets a
    ReduceMin probe and a ReduceMax probe on its first output, and the probes'
    outputs become graph outputs, so that one inference run reports the range
    of every candidate tensor. */
module Augment {
  import opened OnnxGraph
  import opened PyBuiltins

  /** The operator types that are calibrated, in the order of the source list. */
  const QuantizationCandidates: seq<string> := ["Conv", "MatMul"]

  /** The separator that `get_intermediate_outputs` splits probe names on. */
  const Separator: char := '_'

  /** Role suffixes: the separator followed by a tail free of separators. */
  const MinTail: string := "ReduceMin"
  const MaxTail: string := "ReduceMax"
  const MinSuffix: string := [Separator] + MinTail
  const MaxSuffix: string := [Separator] + MaxTail

  /** `keepdims=0`: each probe reduces its tensor to a scalar. */
  const KeepDimsOff: Attribute := Attribute("keepdims", 0.0, 0)

  predicate IsCandidate(n: Node) {
    n.opType in QuantizationCandidates
  }

  /** Every candidate has a first output; otherwise `node.output[0]` raises. */
  predicate CandidatesHaveOutputs(ns: seq<Node>) {
    forall i :: 0 <= i < |ns| && IsCandidate(ns[i]) ==> |ns[i].outputs| > 0
  }

  /** The candidates of `ns`, in traversal order. */
  function Candidates(ns: seq<Node>): (cs: seq<Node>)
    ensures |cs| <= |ns|
    ensures forall n :: n in cs <==> n in ns && IsCandidate(n)
  {
    if ns == [] then []
    else
      var last := ns[|ns| - 1];
      assert ns == ns[..|ns| - 1] + [last];
      Candidates(ns[..|ns| - 1]) + (if IsCandidate(last) then [last] else [])
  }

  /** The probe that reports the minimum of `n`'s first output. */
  function ReduceMinProbe(n: Node): Node
    requires |n.outputs| > 0
  {
    Node("ReduceMin", n.name + MinSuffix, [n.outputs[0]], [n.outputs[0] + MinSuffix], [KeepDimsOff])
  }

  /** The probe that reports the maximum of `n`'s first output. */
  function ReduceMaxProbe(n: Node): Node
    requires |n.outputs| > 0
  {
    Node("ReduceMax", n.name + MaxSuffix, [n.outputs[0]], [n.outputs[0] + MaxSuffix], [KeepDimsOff])
  }

  /** The first output of each candidate: the tensors that get probed. */
  function ProbedTensors(ns: seq<Node>): seq<string>
    requires CandidatesHaveOutputs(ns)
  {
    if ns == [] then []
    else
      var last := ns[|ns| - 1];
      ProbedTensors(ns[..|ns| - 1]) + (if IsCandidate(last) then [last.outputs[0]] else [])
  }

  /** The nodes augmentation appends: a min probe then a max probe per candidate. */
  function ProbeNodes(ns: seq<Node>): seq<Node>
    requires CandidatesHaveOutputs(ns)
  {
    if ns == [] then []
    else
      var last := ns[|ns| - 1];
      ProbeNodes(ns[..|ns| - 1])
        + (if IsCandidate(last) then [ReduceMinProbe(last), ReduceMaxProbe(last)] else [])
  }

  /** The output declarations augmentation appends: each probe's output. */
  function ProbeOutputs(ns: seq<Node>): seq<string>
    requires CandidatesHaveOutputs(ns)
  {
    if ns == [] then []
    else
      var last := ns[|ns| - 1];
      ProbeOutputs(ns[..|ns| - 1])
        + (if IsCandidate(last) then [last.outputs[0] + MinSuffix, last.outputs[0] + MaxSuffix] else [])
  }

  /** Layout of the appended probes: for E candidates, 2E nodes and 2E
      outputs; the i-th candidate in traversal order owns positions 2i (its
      ReduceMin probe) and 2i+1 (its ReduceMax probe), and both probes read
      that candidate's first output. */
  lemma ProbeLayout(ns: seq<Node>)
    requires CandidatesHaveOutputs(ns)
    ensures |ProbedTensors(ns)| == |Candidates(ns)|
    ensures |ProbeNodes(ns)| == 2 * |Candidates(ns)|
    ensures |ProbeOutputs(ns)| == 2 * |Candidates(ns)|
    ensures forall i :: 0 <= i < |Candidates(ns)| ==>
      && |Candidates(ns)[i].outputs| > 0
      && ProbedTensors(ns)[i] == Candidates(ns)[i].outputs[0]
      && ProbeNodes(ns)[2 * i] == ReduceMinProbe(Candidates(ns)[i])
      && ProbeNodes(ns)[2 * i + 1] == ReduceMaxProbe(Candidates(ns)[i])
      && ProbeOutputs(ns)[2 * i] == ProbedTensors(ns)[i] + MinSuffix
      && ProbeOutputs(ns)[2 * i + 1] == ProbedTensors(ns)[i] + MaxSuffix
  {
    TensorLayout(ns);
    NodeLayout(ns);
    OutputLayout(ns);
  }

  /** Dropping the last node keeps every remaining candidate's output. */
  lemma PrefixHasOutputs(ns: seq<Node>)
    requires CandidatesHaveOutputs(ns) && ns != []
    ensures CandidatesHaveOutputs(ns[..|ns| - 1])
    ensures IsCandidate(ns[|ns| - 1]) ==> |ns[|ns| - 1].outputs| > 0
  {
    var pre := ns[..|ns| - 1];
    forall i | 0 <= i < |pre| && IsCandidate(pre[i]) ensures |pre[i].outputs| > 0 {
      assert pre[i] == ns[i];
    }
  }

  /** The i-th probed tensor is the i-th candidate's first output. */
  lemma {:induction false} TensorLayout(ns: seq<Node>)
    requires CandidatesHaveOutputs(ns)
    ensures |ProbedTensors(ns)| == |Candidates(ns)|
    ensures forall i :: 0 <= i < |Candidates(ns)| ==>
      |Candidates(ns)[i].outputs| > 0 && ProbedTensors(ns)[i] == Candidates(ns)[i].outputs[0]
  {
    if ns != [] {
      var pre := ns[..|ns| - 1];
      PrefixHasOutputs(ns);
      TensorLayout(pre);
      forall i | 0 <= i < |Candidates(ns)|
        ensures |Candidates(ns)[i].outputs| > 0 && ProbedTensors(ns)[i] == Candidates(ns)[i].outputs[0]
      {
        if i < |Candidates(pre)| {
          assert Candidates(ns)[i] == Candidates(pre)[i];
          assert ProbedTensors(ns)[i] == ProbedTensors(pre)[i];
        }
      }
    }
  }

  /** The i-th candidate owns probe nodes 2i and 2i+1. */
  lemma {:induction false} NodeLayout(ns: seq<Node>)
    requires CandidatesHaveOutputs(ns)
    ensures |ProbeNodes(ns)| == 2 * |Candidates(ns)|
    ensures forall i :: 0 <= i < |Candidates(ns)| ==>
      && |Candidates(ns)[i].outputs| > 0
      && ProbeNodes(ns)[2 * i] == ReduceMinProbe(Candidates(ns)[i])
      && ProbeNodes(ns)[2 * i + 1] == ReduceMaxProbe(Candidates(ns)[i])
  {
    if ns != [] {
      var pre := ns[..|ns| - 1];
      PrefixHasOutputs(ns);
      NodeLayout(pre);
      forall i | 0 <= i < |Candidates(ns)|
        ensures && |Candidates(ns)[i].outputs| > 0
                && ProbeNodes(ns)[2 * i] == ReduceMinProbe(Candidates(ns)[i])
                && ProbeNodes(ns)[2 * i + 1] == ReduceMaxProbe(Candidates(ns)[i])
      {
        if i < |Candidates(pre)| {
          assert Candidates(ns)[i] == Candidates(pre)[i];
          assert ProbeNodes(ns)[2 * i] == ProbeNodes(pre)[2 * i];
          assert ProbeNodes(ns)[2 * i + 1] == ProbeNodes(pre)[2 * i + 1];
        }
      }
    }
  }

  /** Probe outputs 2i and 2i+1 are the i-th probed tensor with the two role
      suffixes. */
  lemma {:induction false} OutputLayout(ns: seq<Node>)
    requires CandidatesHaveOutputs(ns)
    ensures |ProbeOutputs(ns)| == 2 * |ProbedTensors(ns)|
    ensures forall i :: 0 <= i < |ProbedTensors(ns)| ==>
      && ProbeOutputs(ns)[2 * i] == ProbedTensors(ns)[i] + MinSuffix
      && ProbeOutputs(ns)[2 * i + 1] == ProbedTensors(ns)[i] + MaxSuffix
  {
    if ns != [] {
      var pre := ns[..|ns| - 1];
      PrefixHasOutputs(ns);
      OutputLayout(pre);
      forall i | 0 <= i < |ProbedTensors(ns)|
        ensures && ProbeOutputs(ns)[2 * i] == ProbedTensors(ns)[i] + MinSuffix
                && ProbeOutputs(ns)[2 * i + 1] == ProbedTensors(ns)[i] + MaxSuffix
      {
        if i < |ProbedTensors(pre)| {
          assert ProbedTensors(ns)[i] == ProbedTensors(pre)[i];
          assert ProbeOutputs(ns)[2 * i] == ProbeOutputs(pre)[2 * i];
          assert ProbeOutputs(ns)[2 * i + 1] == ProbeOutputs(pre)[2 * i + 1];
        }
      }
    }
  }

  /** Probe outputs are named uniquely when the probed tensors are. */
  lemma ProbeOutputsDistinct(ns: seq<Node>)
    requires CandidatesHaveOutputs(ns)
    requires Distinct(ProbedTensors(ns))
    ensures Distinct(ProbeOutputs(ns))
  {
    ProbeLayout(ns);
    var ts := ProbedTensors(ns);
    var outs := ProbeOutputs(ns);
    forall a, b | 0 <= a < b < |outs| ensures outs[a] != outs[b] {
      SuffixedNamesDiffer(ts[a / 2], ts[b / 2], a % 2, b % 2);
    }
  }

  /** `x + suffix` names determine both `x` and the role suffix. */
  lemma SuffixedNamesDiffer(x: string, y: string, rx: nat, ry: nat)
    requires rx < 2 && ry < 2
    requires x != y || rx != ry
    ensures x + (if rx == 0 then MinSuffix else MaxSuffix) != y + (if ry == 0 then MinSuffix else MaxSuffix)
  {
    var sx := if rx == 0 then MinSuffix else MaxSuffix;
    var sy := if ry == 0 then MinSuffix else MaxSuffix;
    assert (x + sx)[..|x|] == x && (y + sy)[..|y|] == y;
    assert (x + sx)[|x| + 8] == sx[8] && (y + sy)[|y| + 8] == sy[8];
  }

  /** One more node of the traversal: the candidate check, and the probes it adds. */
  lemma PrefixStep(ns: seq<Node>, i: nat)
    requires i < |ns|
    ensures ns[..i + 1][..i] == ns[..i] && ns[..i + 1][i] == ns[i]
    ensures CandidatesHaveOutputs(ns[..i + 1]) <==>
      CandidatesHaveOutputs(ns[..i]) && (IsCandidate(ns[i]) ==> |ns[i].outputs| > 0)
    ensures !CandidatesHaveOutputs(ns[..i + 1]) ==> !CandidatesHaveOutputs(ns)
  {
    assert ns[..i + 1][..i] == ns[..i];
    if !CandidatesHaveOutputs(ns[..i + 1]) {
      var k :| 0 <= k < i + 1 && IsCandidate(ns[..i + 1][k]) && |ns[..i + 1][k].outputs| == 0;
      assert ns[k] == ns[..i + 1][k];
    }
  }

  /** A model whose graph `augment_graph` edits in place. */
  class Model {
    var nodes: seq<Node>
    var outputs: seq<string>

    constructor (g: Graph)
      ensures nodes == g.nodes && outputs == g.outputs
    {
      nodes := g.nodes;
      outputs := g.outputs;
    }

    /** Appends the probes and their output declarations. The probes are
        collected first and added only after the whole node list has been
        visited, so a candidate without an output leaves the model as it was. */
    method AugmentGraph() returns (r: Outcome)
      modifies this
      ensures r == if CandidatesHaveOutputs(old(nodes)) then Pass else Fail(IndexError)
      ensures r.Pass? ==> nodes == old(nodes) + ProbeNodes(old(nodes))
      ensures r.Pass? ==> outputs == old(outputs) + ProbeOutputs(old(nodes))
      ensures r.Fail? ==> nodes == old(nodes) && outputs == old(outputs)
    {
      var ns := nodes;
      var addedNodes: seq<Node> := [];
      var addedOutputs: seq<string> := [];
      var i := 0;
      while i < |ns|
        invariant 0 <= i <= |ns|
        invariant nodes == ns == old(nodes) && outputs == old(outputs)
        invariant CandidatesHaveOutputs(ns[..i])
        invariant addedNodes == ProbeNodes(ns[..i])
        invariant addedOutputs == ProbeOutputs(ns[..i])
      {
        var node := ns[i];
        PrefixStep(ns, i);
        if IsCandidate(node) {
          if |node.outputs| == 0 {
            return Fail(IndexError);
          }
          var reduceMinNode := ReduceMinProbe(node);
          addedNodes := addedNodes + [reduceMinNode];
          addedOutputs := addedOutputs + [reduceMinNode.outputs[0]];
          var reduceMaxNode := ReduceMaxProbe(node);
          addedNodes := addedNodes + [reduceMaxNode];
          addedOutputs := addedOutputs + [reduceMaxNode.outputs[0]];
        }
        i := i + 1;
      }
      assert ns[..i] == ns;
      nodes := nodes + addedNodes;
      outputs := outputs + addedOutputs;
      return Pass;
    }
  }
}
