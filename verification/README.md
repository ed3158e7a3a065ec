# Calibration for 8-bit quantization of ONNX models

This project is a Dafny model of the calibration script
`onnxruntime/python/tools/quantization/calibrate.py`. The script turns a
float32 ONNX model into the per-tensor parameters of 8-bit affine
quantization. It has three stages.

1. **Augmentation** (`augment_graph`). Each `Conv` and `MatMul` node (a
   *candidate*) gets a `ReduceMin` probe and a `ReduceMax` probe on its first
   output. The probes' outputs become graph outputs. A probe is named
   `<node name>_ReduceMin`/`_ReduceMax`, and its output is
   `<tensor>_ReduceMin`/`_ReduceMax`.
   - Modelled by the class `Augment.Model`, whose method `AugmentGraph`
     appends to the `nodes` and `outputs` fields in place.
2. **Aggregation** (`get_intermediate_outputs`). The augmented model runs on
   every calibration sample. The values of each output are gathered per name.
   The first declared output is dropped. The probe outputs are paired as
   (min probe, max probe), and for each pair the least min and the greatest
   max over all samples are taken. Each pair is keyed by the text before the
   last `_` of its min probe's name.
   - Modelled by `Collect.GetIntermediateOutputs`, a loop method proved
     against the function `Collect.NaiveCalibration`.
   - The inference session is replaced by its results: one snapshot per
     sample.
3. **Parameter derivation** (`calculate_scale_zeropoint`,
   `calculate_quantization_params`).
   - Each range is widened to contain 0.
   - It is then narrowed by a `Clip` successor or floored at 0 by a `Relu`
     successor.
   - The result becomes `scale = (rmax - rmin) / 255` (1 for a single-point
     range) and `zero_point = round(clamp(-rmin / scale, 0, 255))`.
   - The "successor" is the next node in list order.
   - `QuantParams.CalculateQuantizationParams` is the loop over the nodes. It
     is proved against `QuantParams.QuantizationParams`.

The module `PyBuiltins` gives exact models of the Python built-ins the script
relies on:
- `str.rpartition`;
- `min` and `max` over a list;
- `round`, which rounds half to even;
- slicing past the end;
- `dict(zip(...))`, where a later key overwrites an earlier one.

The module `Pipeline` relates the stages. The names that augmentation invents
are the names that aggregation splits back into tensor names. The statistics
it produces are keyed by exactly the probed tensors.

Behaviours of the code that the model reproduces as written:
- **The error order in aggregation.**
  - An empty sample list raises `IndexError` at `intermediate_outputs[0]`.
  - This happens before `calib_mode` is looked at.
  - An unknown mode raises `ValueError` only after inference has run.
- **Widening before the single-point check.** Ranges are widened to contain
  0 before the single-point test, so an observed range `[2, 2]` gets scale
  `2/255`. The fallback scale of 1 applies only when the adjusted range is a
  single point: `[0, 0]` (an observed range that is `[0, 0]`, or one at or
  below zero followed by a Relu) or a point that a Clip narrows it to.
- **A Clip above the range.** A `Clip` whose bounds both lie above the
  widened range leaves an inverted range, so the scale comes out negative
  (`QuantParams.ClipAboveRangeExample`).
- **A candidate last in the node list.** When the last node's output has
  thresholds, `model.graph.node[index+1]` raises `IndexError`.
- **No original output.** With no original output, the first probe name is
  the key that line 88 drops, and aggregation raises `KeyError`.

## Model

| member | source | states |
|---|---|---|
| Augment.Candidates | onnxruntime/python/tools/quantization/calibrate.py:33-37 | the nodes selected are exactly the Conv and MatMul nodes of the graph |
| Augment.Model.AugmentGraph | onnxruntime/python/tools/quantization/calibrate.py:24-54 | the call succeeds exactly when every candidate has an output. It then appends the probe nodes and probe output declarations to the existing lists, leaving the original entries in place. A candidate without an output raises IndexError and leaves the model unchanged |
| Augment.ProbeLayout | onnxruntime/python/tools/quantization/calibrate.py:36-51 | E candidates give 2E appended nodes and 2E appended outputs. Candidate i owns position 2i (its ReduceMin probe) and position 2i+1 (its ReduceMax probe) |
| Augment.TensorLayout | onnxruntime/python/tools/quantization/calibrate.py:36-38 | the i-th probed tensor is the first output of the i-th candidate in traversal order |
| Augment.NodeLayout | onnxruntime/python/tools/quantization/calibrate.py:40-50 | appended nodes 2i and 2i+1 are the ReduceMin and ReduceMax probes of candidate i. Each is named after its node plus a role suffix, reads the candidate's first output and has keepdims=0 |
| Augment.OutputLayout | onnxruntime/python/tools/quantization/calibrate.py:42-51 | appended outputs 2i and 2i+1 are the i-th probed tensor followed by `_ReduceMin` and by `_ReduceMax` |
| Augment.ProbeOutputsDistinct | onnxruntime/python/tools/quantization/calibrate.py:42-49 | unique probed tensors give unique probe output names |
| Augment.SuffixedNamesDiffer | onnxruntime/python/tools/quantization/calibrate.py:42-49 | a name made of a tensor plus a role suffix determines both the tensor and the role |
| Collect.MergeSnapshots | onnxruntime/python/tools/quantization/calibrate.py:78-83 | after the nested loop, every output name maps to the list of values it took, one per sample, in sample order |
| Collect.GetIntermediateOutputs | onnxruntime/python/tools/quantization/calibrate.py:57-97 | the result equals the naive-mode aggregation, with the source's order of failures: IndexError without samples, then ValueError for an unknown mode, KeyError with no original output, and IndexError for an unpaired probe |
| Collect.NaiveCalibrationKeys | onnxruntime/python/tools/quantization/calibrate.py:89-96 | when the checks pass and the keys are unique, the result's keys are the probe keys, and key p maps to (min over samples of min probe p, max over samples of max probe p) |
| Collect.NaivePairs | onnxruntime/python/tools/quantization/calibrate.py:90-92 | a successful pairing has an even number of names and one pair per two names. A first name missing from the cleaned dictionary raises KeyError |
| Collect.NaivePairsValues | onnxruntime/python/tools/quantization/calibrate.py:90-92 | pair p is (min of the list of name 2p, max of the list of name 2p+1), and both names were found |
| Collect.NaivePairsAllFound | onnxruntime/python/tools/quantization/calibrate.py:90-92 | when every name is found, pairing succeeds exactly on an even count. An odd count raises IndexError |
| Collect.CleanLookups | onnxruntime/python/tools/quantization/calibrate.py:84-96 | the lookups in the dictionary that has lost its first key give exactly the naive-mode aggregation result |
| Collect.ProbeNamesFound | onnxruntime/python/tools/quantization/calibrate.py:84-88 | with at least one original output, every probe output name survives the dropping of the first key |
| Collect.PairsMatchColumns | onnxruntime/python/tools/quantization/calibrate.py:88-92 | when all names are found and paired, the pairs are the per-column extrema of the samples |
| Collect.NaiveCalibrationIgnoresSampleOrder | onnxruntime/python/tools/quantization/calibrate.py:75-96 | permuting the calibration samples does not change the result or the error |
| Collect.SameColumnValues | onnxruntime/python/tools/quantization/calibrate.py:81-83 | two sample lists with the same multiset of snapshots give every output the same set of values |
| PyBuiltins.RPartitionHead | onnxruntime/python/tools/quantization/calibrate.py:85 | the head is everything before the last separator, or empty when there is no separator |
| PyBuiltins.RPartitionHeadOfSuffixed | onnxruntime/python/tools/quantization/calibrate.py:85 | appending a separator and a tail free of separators is undone by rpartition |
| PyBuiltins.MinOf | onnxruntime/python/tools/quantization/calibrate.py:90 | `min` of a non-empty list is an element of it and is below every element |
| PyBuiltins.MaxOf | onnxruntime/python/tools/quantization/calibrate.py:91 | `max` of a non-empty list is an element of it and is above every element |
| PyBuiltins.ExtremaDependOnlyOnValues | onnxruntime/python/tools/quantization/calibrate.py:90-91 | `min` and `max` depend only on which values occur |
| PyBuiltins.RoundHalfEven | onnxruntime/python/tools/quantization/calibrate.py:122 | `round` lands within 1/2 of its argument, breaks ties to even, and maps [0, 255] into 0..255 |
| PyBuiltins.ZipToMap | onnxruntime/python/tools/quantization/calibrate.py:96 | the keys of `dict(zip(k, v))` are the elements of k. With unique keys, k[i] maps to v[i] |
| QuantParams.AdjustRange | onnxruntime/python/tools/quantization/calibrate.py:103-118 | the range is widened to contain 0 and never grows beyond that. A Clip successor intersects it with the Clip's bounds. A Relu successor gives [0, max(rmax, 0)]. Any other successor leaves the widened range. A Clip with fewer than two attributes raises IndexError. Zero stays inside unless the Clip bounds exclude it |
| QuantParams.CalculateScaleZeropoint | onnxruntime/python/tools/quantization/calibrate.py:99-126 | it fails exactly when adjusting the range fails. The zero point is in [0, 255] and the scale is non-zero. The scale is positive exactly when the adjusted range is not inverted, is 1 on a single-point range, and is otherwise the range width over 255 |
| QuantParams.AffineGridSpansRange | onnxruntime/python/tools/quantization/calibrate.py:120-122 | for a proper range containing 0: the zero point dequantizes to exactly 0, levels 0 and 255 dequantize to the range ends within half a step, and the zero point is the nearest integer to -rmin/scale |
| QuantParams.ScaleMonotone | onnxruntime/python/tools/quantization/calibrate.py:103-120 | widening the observed range never shrinks the scale, provided the narrower adjusted range is proper and not a single point |
| QuantParams.ClipFusionExample | onnxruntime/python/tools/quantization/calibrate.py:109-122 | [-2, 10] followed by Clip(0, 6) gives the range [0, 6], scale 6/255 and zero point 0 |
| QuantParams.ReluFusionExample | onnxruntime/python/tools/quantization/calibrate.py:116-122 | [-3, 5] followed by Relu gives the range [0, 5], scale 5/255 and zero point 0; [-3, -1] followed by Relu adjusts to [0, 0] and falls back to scale 1 |
| QuantParams.PointRangeExamples | onnxruntime/python/tools/quantization/calibrate.py:103-122 | [2, 2] gives scale 2/255 and zero point 0. [0, 0] gives scale 1 and zero point 0 |
| QuantParams.ClipAboveRangeExample | onnxruntime/python/tools/quantization/calibrate.py:109-122 | [-1, 1] followed by Clip(2, 3) gives the inverted range [2, 1], scale -1/255 and zero point 255 |
| QuantParams.ParamsUpTo | onnxruntime/python/tools/quantization/calibrate.py:156-162 | every parameter pair the loop stores has a zero point in [0, 255] and a non-zero scale |
| QuantParams.ParamsSucceedIff | onnxruntime/python/tools/quantization/calibrate.py:157-162 | the loop completes exactly when every node has an output, and every node whose output has thresholds has a successor that is not a Clip lacking its bounds. Every failure is an IndexError |
| QuantParams.ParamsKeys | onnxruntime/python/tools/quantization/calibrate.py:157-162 | the keys of the result are exactly the node first outputs that have thresholds |
| QuantParams.ParamsValue | onnxruntime/python/tools/quantization/calibrate.py:157-162 | the value stored for a name is `calculate_scale_zeropoint` of the last node with that first output, the node after it, and that name's thresholds |
| QuantParams.ErrorPersists | onnxruntime/python/tools/quantization/calibrate.py:157-162 | an exception raised at some node is the exception of the whole call |
| QuantParams.LastNodeWithThresholdsRaises | onnxruntime/python/tools/quantization/calibrate.py:161 | when the last node's output has thresholds, the call raises IndexError |
| QuantParams.CalculateQuantizationParams | onnxruntime/python/tools/quantization/calibrate.py:128-164 | nbits other than 8 raises ValueError first, then missing thresholds raise ValueError. Otherwise the result is the one-pass loop over the nodes, and every zero point is in [0, 255] |
| Pipeline.ProbeNameRoundTrip | onnxruntime/python/tools/quantization/calibrate.py:85 | `rpartition('_')[0]` of either probe output of candidate p gives back the tensor that candidate's probes read |
| Pipeline.SuffixStripped | onnxruntime/python/tools/quantization/calibrate.py:85 | splitting on the last `_` removes either role suffix |
| Pipeline.ProbedTensorsDistinct | onnxruntime/python/tools/quantization/calibrate.py:85 | unique probe output names come from unique probed tensors |
| Pipeline.KeysAreProbedTensors | onnxruntime/python/tools/quantization/calibrate.py:84-85 | the keys aggregation computes from an augmented graph's probe outputs are the probed tensors, in order |
| Pipeline.StatisticsKeyedByProbedTensors | onnxruntime/python/tools/quantization/calibrate.py:84-96 | for an augmented graph with at least one original output and unique output names, and at least one sample, aggregation succeeds. It maps exactly the probed tensors, each to the least value its ReduceMin probe reported and the greatest value its ReduceMax probe reported |
| Pipeline.NoOriginalOutputRaisesKeyError | onnxruntime/python/tools/quantization/calibrate.py:88-92 | with no original output, at least one candidate and at least one sample, aggregation raises KeyError |
| Pipeline.ParamsCoverProbedTensors | onnxruntime/python/tools/quantization/calibrate.py:156-164 | when derivation over statistics keyed by the probed tensors succeeds, it gives one parameter pair per probed tensor, each with a zero point in [0, 255]; a probed tensor made by the last node raises IndexError instead |
| Pipeline.ProbedTensorIsFirstOutput | onnxruntime/python/tools/quantization/calibrate.py:158 | every probed tensor is the first output of some node |

## Left out

- Collect.GetIntermediateOutputs: the model takes the results of
  `session.run` and the names from `session.get_outputs()` as parameters.
  - It requires each sample to report one value per declared output, which is
    the session's contract.
  - It requires the output names to be unique. Duplicate names, which would
    merge lists in `merged_dict`, are not modelled.
  - `numModelOutputs` is a parameter. The source reads it from the model at
    `model_path`, and its entry point passes the original model there.
- Collect.GetIntermediateOutputs: the values of the original outputs, which
  are tensors, are abstracted to numbers. The code stores them but never
  reads them.
- QuantParams.CalculateScaleZeropoint:
  - the scale is an exact real, so its rounding to float32 by `np.float32`
    is not modelled;
  - `np.uint8` is not modelled either. It is the identity on the clamped,
    rounded zero point.
  - Non-finite values (NaN, infinity) are not modelled.
- QuantParams.CalculateQuantizationParams: thresholds are modelled as
  (min, max) pairs. A threshold list with fewer than two entries, which
  would raise IndexError at `node_thresholds[1]`, is not represented.
- Augment.Model.AugmentGraph: value-info element types and shapes
  (`TensorProto.FLOAT`, `()`) are not modelled. An appended output is only
  its name.
- The probe nodes carry `keepdims=0` as an attribute value. What ReduceMin
  and ReduceMax compute at run time belongs to the inference engine, which
  is not part of this model.
- `load_pb_file` and the command-line entry point `main` are not part of
  this model. Neither are the file I/O, the image preprocessing and the
  final call to `quantize`. The entry point passes the in-place augmented
  model to `calculate_quantization_params`, so the last original node's
  successor there is a probe node. The model states that stage over any
  given graph.
- Collect.GetIntermediateOutputs: `list(merged_dict.keys())[0]` is taken
  to be the first output name, because dicts keep insertion order from
  Python 3.7 on. Under older Pythons the dropped key is arbitrary, and that
  behaviour is not modelled.
- `onnx.load`, `onnx.save` and protobuf serialization are not modelled.
  Graphs are given as values.
