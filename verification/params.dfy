/** Parameter derivation (`calculate_scale_zeropoint` and
    `calculate_quantization_params`): each observed range is widened to
    contain zero, tightened by a Clip or Relu that follows the node in list
    order, and turned into the scale and zero point of 8-bit affine
    quantization, real = scale * (q - zero_point) with q in [0, 255]. The
    scale is an exact real; its rounding to float32 is not modelled. */
module QuantParams {
  import opened OnnxGraph
  import opened PyBuiltins
  import opened Collect

  /** The source's two-element list [zero_point, scale]. */
  datatype QuantParam = QuantParam(zeroPoint: int, scale: real)

  /** The largest 8-bit quantized level. */
  const MaxLevel: real := 255.0

  const NbitsMessage: string :=
    "Unknown value for nbits. only 8 bit quantization is currently supported"
  const ThresholdsMessage: string :=
    "output quantization threshold is required to calculate quantization thresholds"

  /** The range `calculate_scale_zeropoint` quantizes: the observed range
      widened to contain zero, then intersected with the bounds of a Clip
      successor (its first two attributes), or floored at zero by a Relu
      successor. A Clip with fewer than two attributes raises IndexError. */
  function AdjustRange(nextNode: Node, rmin: real, rmax: real): (r: Result<Range>)
    ensures r.Err? <==> nextNode.opType == "Clip" && |nextNode.attributes| < 2
    ensures r.Err? ==> r.error == IndexError
    ensures r.Ok? ==> Min(rmin, 0.0) <= r.value.rmin && r.value.rmax <= Max(rmax, 0.0)
    ensures r.Ok? && nextNode.opType == "Clip" ==>
      && r.value.rmin == Max(Min(rmin, 0.0), nextNode.attributes[0].f)
      && r.value.rmax == Min(Max(rmax, 0.0), nextNode.attributes[1].f)
    ensures r.Ok? && nextNode.opType == "Relu" ==> r.value == Range(0.0, Max(rmax, 0.0))
    ensures r.Ok? && nextNode.opType != "Clip" && nextNode.opType != "Relu" ==>
      r.value == Range(Min(rmin, 0.0), Max(rmax, 0.0))
    ensures r.Ok? && (nextNode.opType == "Clip" ==> nextNode.attributes[0].f <= 0.0 <= nextNode.attributes[1].f) ==>
      r.value.rmin <= 0.0 <= r.value.rmax
  {
    var rmin := Min(rmin, 0.0);
    var rmax := Max(rmax, 0.0);
    if nextNode.opType == "Clip" then
      if |nextNode.attributes| < 2 then Err(IndexError)
      else
        var clipMin := nextNode.attributes[0].f;
        var clipMax := nextNode.attributes[1].f;
        var rmin := if rmin < clipMin then clipMin else rmin;
        var rmax := if rmax > clipMax then clipMax else rmax;
        Ok(Range(rmin, rmax))
    else if nextNode.opType == "Relu" then
      Ok(Range(if rmin < 0.0 then 0.0 else rmin, rmax))
    else
      Ok(Range(rmin, rmax))
  }

  /** `calculate_scale_zeropoint`. `node` is accepted and not used, as in
      the source. The zero point is rounded half to even, and the scale falls
      back to 1 when the adjusted range is a single point. */
  function CalculateScaleZeropoint(node: Node, nextNode: Node, rmin: real, rmax: real): (r: Result<QuantParam>)
    ensures r.Err? <==> AdjustRange(nextNode, rmin, rmax).Err?
    ensures r.Err? ==> r.error == IndexError
    ensures r.Ok? ==> 0 <= r.value.zeroPoint <= 255 && r.value.scale != 0.0
    ensures r.Ok? ==>
      var a := AdjustRange(nextNode, rmin, rmax).value;
      && (r.value.scale > 0.0 <==> a.rmin <= a.rmax)
      && (a.rmin == a.rmax ==> r.value.scale == 1.0)
      && (a.rmin != a.rmax ==> r.value.scale * MaxLevel == a.rmax - a.rmin)
  {
    match AdjustRange(nextNode, rmin, rmax)
    case Err(e) => Err(e)
    case Ok(a) =>
      var scale := if a.rmin != a.rmax then (a.rmax - a.rmin) / MaxLevel else 1.0;
      var initialZeroPoint := (0.0 - a.rmin) / scale;
      var zeroPoint := RoundHalfEven(Max(0.0, Min(MaxLevel, initialZeroPoint)));
      Ok(QuantParam(zeroPoint, scale))
  }

  /** The real value quantized level `q` stands for. */
  function Dequantize(p: QuantParam, q: int): real {
    p.scale * ((q - p.zeroPoint) as real)
  }

  /** For a proper range that contains zero, the 256 levels span it: level 0
      and level 255 stand for its ends up to half a step, the zero point
      stands for 0 exactly, and the zero point is the nearest level to the
      ideal zero point -rmin / scale. */
  lemma AffineGridSpansRange(node: Node, nextNode: Node, rmin: real, rmax: real)
    requires CalculateScaleZeropoint(node, nextNode, rmin, rmax).Ok?
    requires
      var a := AdjustRange(nextNode, rmin, rmax).value;
      a.rmin <= 0.0 <= a.rmax && a.rmin < a.rmax
    ensures
      var p := CalculateScaleZeropoint(node, nextNode, rmin, rmax).value;
      var a := AdjustRange(nextNode, rmin, rmax).value;
      && p.scale > 0.0
      && Dequantize(p, p.zeroPoint) == 0.0
      && -p.scale / 2.0 <= Dequantize(p, 0) - a.rmin <= p.scale / 2.0
      && -p.scale / 2.0 <= Dequantize(p, 255) - a.rmax <= p.scale / 2.0
      && -0.5 <= (p.zeroPoint as real) - (-a.rmin / p.scale) <= 0.5
  {
    var a := AdjustRange(nextNode, rmin, rmax).value;
    var p := CalculateScaleZeropoint(node, nextNode, rmin, rmax).value;
    var s := (a.rmax - a.rmin) / MaxLevel;
    var x := (0.0 - a.rmin) / s;
    ProperRangeParams(node, nextNode, rmin, rmax);
    var z := p.zeroPoint as real;
    GridArithmetic(a.rmin, a.rmax, s, x, z);
    DequantizeEnds(p, s, z);
  }

  /** The parameters of a proper adjusted range, as `calculate_scale_zeropoint`
      computes them. */
  lemma ProperRangeParams(node: Node, nextNode: Node, rmin: real, rmax: real)
    requires AdjustRange(nextNode, rmin, rmax).Ok?
    requires AdjustRange(nextNode, rmin, rmax).value.rmin != AdjustRange(nextNode, rmin, rmax).value.rmax
    ensures
      var a := AdjustRange(nextNode, rmin, rmax).value;
      var s := (a.rmax - a.rmin) / MaxLevel;
      CalculateScaleZeropoint(node, nextNode, rmin, rmax)
        == Ok(QuantParam(RoundHalfEven(Max(0.0, Min(MaxLevel, (0.0 - a.rmin) / s))), s))
  {
  }

  /** Levels 0 and 255 of parameters with scale `s` and zero point `z`. */
  lemma DequantizeEnds(p: QuantParam, s: real, z: real)
    requires p.scale == s && z == p.zeroPoint as real
    ensures Dequantize(p, p.zeroPoint) == 0.0
    ensures Dequantize(p, 0) == s * (0.0 - z)
    ensures Dequantize(p, 255) == s * (255.0 - z)
  {
  }

  /** The arithmetic behind AffineGridSpansRange, on the adjusted range
      [lo, hi], its scale `s`, ideal zero point `x` and zero point `z`. */
  lemma GridArithmetic(lo: real, hi: real, s: real, x: real, z: real)
    requires lo <= 0.0 <= hi && lo < hi
    requires s == (hi - lo) / MaxLevel
    requires x == (0.0 - lo) / s
    requires z == RoundHalfEven(Max(0.0, Min(MaxLevel, x))) as real
    ensures s > 0.0 && x * s == -lo && 0.0 <= x <= MaxLevel
    ensures -0.5 <= z - x <= 0.5
    ensures -s / 2.0 <= s * (0.0 - z) - lo <= s / 2.0
    ensures -s / 2.0 <= s * (255.0 - z) - hi <= s / 2.0
  {
    assert x * s == -lo;
    IdealZeroInLevels(lo, hi, s, x);
    var d := x - z;
    HalfStepBound(s, d);
    assert s * d == s * x - s * z;
    assert s * (0.0 - z) - lo == s * d;
    assert s * (255.0 - z) - hi == s * d by {
      assert s * 255.0 == hi - lo;
      assert s * (255.0 - z) == s * 255.0 - s * z;
    }
  }

  /** The ideal zero point of a range containing zero lies among the levels. */
  lemma IdealZeroInLevels(lo: real, hi: real, s: real, x: real)
    requires lo <= 0.0 <= hi && lo < hi
    requires s == (hi - lo) / MaxLevel && x * s == -lo
    ensures 0.0 <= x <= MaxLevel
  {
    assert s * MaxLevel == hi - lo;
    assert s > 0.0;
    assert x == (0.0 - lo) / s;
    assert MaxLevel - x == (s * MaxLevel + lo) / s == hi / s;
  }

  /** A step of `s` scaled by at most half a unit moves by at most `s / 2`. */
  lemma HalfStepBound(s: real, d: real)
    requires s > 0.0 && -0.5 <= d <= 0.5
    ensures -s / 2.0 <= s * d <= s / 2.0
  {
    if d >= 0.0 {
      assert s * d <= s * 0.5;
    } else {
      assert s * (-d) <= s * 0.5;
    }
  }

  /** Widening the observed range never shrinks the scale, as long as the
      narrower range does not fall back to the degenerate scale of 1. */
  lemma ScaleMonotone(node: Node, nextNode: Node, rmin1: real, rmax1: real, rmin2: real, rmax2: real)
    requires rmin2 <= rmin1 && rmax1 <= rmax2
    requires CalculateScaleZeropoint(node, nextNode, rmin1, rmax1).Ok?
    requires
      var a := AdjustRange(nextNode, rmin1, rmax1).value;
      a.rmin < a.rmax
    ensures CalculateScaleZeropoint(node, nextNode, rmin2, rmax2).Ok?
    ensures CalculateScaleZeropoint(node, nextNode, rmin1, rmax1).value.scale
         <= CalculateScaleZeropoint(node, nextNode, rmin2, rmax2).value.scale
  {
    var a1 := AdjustRange(nextNode, rmin1, rmax1).value;
    var a2 := AdjustRange(nextNode, rmin2, rmax2).value;
    assert a2.rmin <= a1.rmin && a1.rmax <= a2.rmax;
    assert a1.rmax - a1.rmin <= a2.rmax - a2.rmin;
  }

  /** A Clip(0, 6) after a node observed in [-2, 10] narrows the range to
      [0, 6]: scale 6/255 and zero point 0. */
  lemma ClipFusionExample(node: Node, clip: Node)
    requires clip.opType == "Clip" && |clip.attributes| >= 2
    requires clip.attributes[0].f == 0.0 && clip.attributes[1].f == 6.0
    ensures AdjustRange(clip, -2.0, 10.0) == Ok(Range(0.0, 6.0))
    ensures CalculateScaleZeropoint(node, clip, -2.0, 10.0) == Ok(QuantParam(0, 6.0 / 255.0))
  {
  }

  /** A Relu after a node observed in [-3, 5] raises the floor: [0, 5]. After
      [-3, -1] the adjusted range is the single point 0, so the scale is 1. */
  lemma ReluFusionExample(node: Node, relu: Node)
    requires relu.opType == "Relu"
    ensures AdjustRange(relu, -3.0, 5.0) == Ok(Range(0.0, 5.0))
    ensures CalculateScaleZeropoint(node, relu, -3.0, 5.0) == Ok(QuantParam(0, 5.0 / 255.0))
    ensures CalculateScaleZeropoint(node, relu, -3.0, -1.0) == Ok(QuantParam(0, 1.0))
  {
  }

  /** An observed range [2, 2] is widened to [0, 2] before the scale is
      computed, so the fallback scale of 1 is not used; it is used only when
      the adjusted range is the single point 0, as for [0, 0]. */
  lemma PointRangeExamples(node: Node, next: Node)
    requires next.opType != "Clip" && next.opType != "Relu"
    ensures CalculateScaleZeropoint(node, next, 2.0, 2.0) == Ok(QuantParam(0, 2.0 / 255.0))
    ensures CalculateScaleZeropoint(node, next, 0.0, 0.0) == Ok(QuantParam(0, 1.0))
  {
  }

  /** A Clip whose bounds lie above the observed range leaves an inverted
      range, and the scale comes out negative: [-1, 1] followed by Clip(2, 3)
      gives the range [2, 1], scale -1/255 and zero point 255. */
  lemma ClipAboveRangeExample(node: Node, clip: Node)
    requires clip.opType == "Clip" && |clip.attributes| >= 2
    requires clip.attributes[0].f == 2.0 && clip.attributes[1].f == 3.0
    ensures AdjustRange(clip, -1.0, 1.0) == Ok(Range(2.0, 1.0))
    ensures CalculateScaleZeropoint(node, clip, -1.0, 1.0) == Ok(QuantParam(255, -1.0 / 255.0))
  {
  }

  /** The keys `calculate_quantization_params` can produce from the first
      `k` nodes: their first outputs. */
  function FirstOutputNames(nodes: seq<Node>, k: nat): set<string>
    requires k <= |nodes|
  {
    set i | 0 <= i < k && |nodes[i].outputs| > 0 :: nodes[i].outputs[0]
  }

  /** The loop body for node `index`: reading `node.output[0]` and, when it
      has thresholds, `nodes[index + 1]` can raise IndexError. */
  function ParamStep(nodes: seq<Node>, thresholds: map<string, Range>, index: nat, params: map<string, QuantParam>)
    : Result<map<string, QuantParam>>
    requires index < |nodes|
  {
    var node := nodes[index];
    if |node.outputs| == 0 then Err(IndexError)
    else if node.outputs[0] !in thresholds then Ok(params)
    else if index + 1 >= |nodes| then Err(IndexError)
    else
      var t := thresholds[node.outputs[0]];
      match CalculateScaleZeropoint(node, nodes[index + 1], t.rmin, t.rmax)
      case Err(e) => Err(e)
      case Ok(p) => Ok(params[node.outputs[0] := p])
  }

  /** `quantization_params` once the loop has visited the first `k` nodes;
      every parameter in it is a valid 8-bit one. */
  function ParamsUpTo(nodes: seq<Node>, thresholds: map<string, Range>, k: nat): (r: Result<map<string, QuantParam>>)
    requires k <= |nodes|
    ensures r.Ok? ==> forall name :: name in r.value ==>
      0 <= r.value[name].zeroPoint <= 255 && r.value[name].scale != 0.0
  {
    if k == 0 then Ok(map[])
    else
      match ParamsUpTo(nodes, thresholds, k - 1)
      case Err(e) => Err(e)
      case Ok(params) => ParamStep(nodes, thresholds, k - 1, params)
  }

  /** What `calculate_quantization_params` returns: the bit width and the
      presence of thresholds are checked before any node is visited. */
  function QuantizationParams(graph: Graph, nbits: int, thresholds: Option<map<string, Range>>)
    : Result<map<string, QuantParam>>
  {
    if nbits != 8 then Err(ValueError(NbitsMessage))
    else if thresholds.None? then Err(ValueError(ThresholdsMessage))
    else ParamsUpTo(graph.nodes, thresholds.value, |graph.nodes|)
  }

  /** Node `i` passes the loop body without raising: it has an output, and
      if that output has thresholds, a successor exists and is not a Clip
      lacking its two bound attributes. */
  predicate StepSucceeds(nodes: seq<Node>, thresholds: map<string, Range>, i: nat)
    requires i < |nodes|
  {
    && |nodes[i].outputs| > 0
    && (nodes[i].outputs[0] in thresholds ==>
          && i + 1 < |nodes|
          && !(nodes[i + 1].opType == "Clip" && |nodes[i + 1].attributes| < 2))
  }

  /** The loop completes exactly when every node passes its step, and every
      failure is an IndexError. */
  lemma {:induction false} ParamsSucceedIff(nodes: seq<Node>, thresholds: map<string, Range>, k: nat)
    requires k <= |nodes|
    ensures ParamsUpTo(nodes, thresholds, k).Ok? <==> forall i :: 0 <= i < k ==> StepSucceeds(nodes, thresholds, i)
    ensures ParamsUpTo(nodes, thresholds, k).Err? ==> ParamsUpTo(nodes, thresholds, k).error == IndexError
  {
    if k > 0 {
      ParamsSucceedIff(nodes, thresholds, k - 1);
      if forall i :: 0 <= i < k ==> StepSucceeds(nodes, thresholds, i) {
        assert StepSucceeds(nodes, thresholds, k - 1);
        assert ParamsUpTo(nodes, thresholds, k - 1).Ok?;
      } else {
        var i :| 0 <= i < k && !StepSucceeds(nodes, thresholds, i);
        if i == k - 1 && ParamsUpTo(nodes, thresholds, k - 1).Ok? {
          assert !StepSucceeds(nodes, thresholds, k - 1);
        }
      }
    }
  }

  /** The result is keyed by exactly the first outputs that have thresholds. */
  lemma {:induction false} ParamsKeys(nodes: seq<Node>, thresholds: map<string, Range>, k: nat)
    requires k <= |nodes|
    requires ParamsUpTo(nodes, thresholds, k).Ok?
    ensures ParamsUpTo(nodes, thresholds, k).value.Keys == FirstOutputNames(nodes, k) * thresholds.Keys
  {
    if k > 0 {
      ParamsKeys(nodes, thresholds, k - 1);
      var node := nodes[k - 1];
      assert FirstOutputNames(nodes, k) == FirstOutputNames(nodes, k - 1) + {node.outputs[0]};
    }
  }

  /** The parameters stored for a name are those `calculate_scale_zeropoint`
      gives the last node with that first output, its successor and its
      thresholds. */
  lemma {:induction false} ParamsValue(nodes: seq<Node>, thresholds: map<string, Range>, k: nat, i: nat)
    requires k <= |nodes| && ParamsUpTo(nodes, thresholds, k).Ok?
    requires i < k && |nodes[i].outputs| > 0 && nodes[i].outputs[0] in thresholds
    requires forall j :: i < j < k ==> |nodes[j].outputs| == 0 || nodes[j].outputs[0] != nodes[i].outputs[0]
    ensures i + 1 < |nodes|
    ensures
      var name := nodes[i].outputs[0];
      && name in ParamsUpTo(nodes, thresholds, k).value
      && CalculateScaleZeropoint(nodes[i], nodes[i + 1], thresholds[name].rmin, thresholds[name].rmax)
           == Ok(ParamsUpTo(nodes, thresholds, k).value[name])
  {
    if i < k - 1 {
      ParamsValue(nodes, thresholds, k - 1, i);
    }
  }

  /** A node with thresholds in the last position has no successor:
      `model.graph.node[index + 1]` raises IndexError. */
  lemma LastNodeWithThresholdsRaises(graph: Graph, thresholds: map<string, Range>)
    requires |graph.nodes| > 0
    requires
      var last := graph.nodes[|graph.nodes| - 1];
      |last.outputs| > 0 && last.outputs[0] in thresholds
    ensures QuantizationParams(graph, 8, Some(thresholds)) == Err(IndexError)
  {
    ParamsSucceedIff(graph.nodes, thresholds, |graph.nodes|);
  }

  /** Once the loop has raised, the call has raised that error. */
  lemma {:induction false} ErrorPersists(nodes: seq<Node>, thresholds: map<string, Range>, k: nat, e: Error)
    requires k <= |nodes|
    requires ParamsUpTo(nodes, thresholds, k) == Err(e)
    ensures ParamsUpTo(nodes, thresholds, |nodes|) == Err(e)
    decreases |nodes| - k
  {
    if k < |nodes| {
      ErrorPersists(nodes, thresholds, k + 1, e);
    }
  }

  /** `calculate_quantization_params`: one pass over the nodes in list order,
      filling `quantization_params` for every node whose first output has
      thresholds, with the node that follows it as its successor. */
  method CalculateQuantizationParams(graph: Graph, nbits: int, thresholds: Option<map<string, Range>>)
    returns (r: Result<map<string, QuantParam>>)
    ensures r == QuantizationParams(graph, nbits, thresholds)
    ensures nbits != 8 ==> r == Err(ValueError(NbitsMessage))
    ensures nbits == 8 && thresholds.None? ==> r == Err(ValueError(ThresholdsMessage))
    ensures r.Ok? ==> forall name :: name in r.value ==> 0 <= r.value[name].zeroPoint <= 255
  {
    if nbits != 8 {
      return Err(ValueError(NbitsMessage));
    }
    if thresholds.None? {
      return Err(ValueError(ThresholdsMessage));
    }
    var th := thresholds.value;
    var nodes := graph.nodes;
    var params: map<string, QuantParam> := map[];
    var index := 0;
    while index < |nodes|
      invariant index <= |nodes|
      invariant ParamsUpTo(nodes, th, index) == Ok(params)
    {
      var node := nodes[index];
      if |node.outputs| == 0 {
        ErrorPersists(nodes, th, index + 1, IndexError);
        return Err(IndexError);
      }
      var nodeOutputName := node.outputs[0];
      if nodeOutputName in th {
        var nodeThresholds := th[nodeOutputName];
        if index + 1 >= |nodes| {
          ErrorPersists(nodes, th, index + 1, IndexError);
          return Err(IndexError);
        }
        var nodeParams := CalculateScaleZeropoint(node, nodes[index + 1], nodeThresholds.rmin, nodeThresholds.rmax);
        if nodeParams.Err? {
          ErrorPersists(nodes, th, index + 1, nodeParams.error);
          return Err(nodeParams.error);
        }
        params := params[nodeOutputName := nodeParams.value];
      }
      index := index + 1;
    }
    return Ok(params);
  }
}
