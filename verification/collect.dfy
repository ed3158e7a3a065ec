/** Statistics aggregation (`get_intermediate_outputs`): the augmented model
    is run once per calibration sample; the values of the probe outputs are
    gathered per output name, paired (min probe, max probe), folded over the
    samples and keyed by the probed tensor's name. The inference session is
    not modelled: its results are given as one snapshot per sample. */
module Collect {
  import opened OnnxGraph
  import opened PyBuiltins

  /** An observed value range: (min over samples, max over samples). */
  datatype Range = Range(rmin: real, rmax: real)

  /** One inference result: one value per declared output, in declared
      order. A probe output is a scalar; the values of the original outputs
      are stored but never read, so they are abstracted to a number too. */
  type Snapshot = seq<real>

  const NaiveMode: string := "naive"
  const UnknownCalibModeMessage: string :=
    "Unknown value for calib_mode. Currently only naive mode is supported."

  /** The contract of the inference session: each run returns one value per
      declared output. */
  predicate Conforming(snapshots: seq<Snapshot>, width: nat) {
    forall j :: 0 <= j < |snapshots| ==> |snapshots[j]| == width
  }

  /** The values output `q` took, one per sample, in sample order. */
  function Column(snapshots: seq<Snapshot>, q: nat): seq<real>
    requires forall j :: 0 <= j < |snapshots| ==> q < |snapshots[j]|
  {
    seq(|snapshots|, j requires 0 <= j < |snapshots| => snapshots[j][q])
  }

  /** `rpartition('_')[0]` of every other probe output name, starting with
      the first: the names the result is keyed by. */
  function ProbeKeys(added: seq<string>): (keys: seq<string>)
    ensures |keys| == (|added| + 1) / 2
    ensures forall p :: 0 <= p < |keys| ==> keys[p] == RPartitionHead(added[2 * p], '_')
  {
    seq((|added| + 1) / 2, p requires 0 <= p < (|added| + 1) / 2 => RPartitionHead(added[2 * p], '_'))
  }

  /** The range of probe pair `p`: the least value the min probe (output
      `offset + 2p`) reported over all samples, and the greatest value the
      max probe (output `offset + 2p + 1`) reported. */
  function PairRange(snapshots: seq<Snapshot>, offset: nat, p: nat): Range
    requires |snapshots| > 0
    requires forall j :: 0 <= j < |snapshots| ==> offset + 2 * p + 1 < |snapshots[j]|
  {
    Range(MinOf(Column(snapshots, offset + 2 * p)), MaxOf(Column(snapshots, offset + 2 * p + 1)))
  }

  /** The ranges of the first `count` probe pairs, in pair order. */
  function PairRanges(snapshots: seq<Snapshot>, offset: nat, count: nat): (rs: seq<Range>)
    requires |snapshots| > 0
    requires count > 0 ==> forall j :: 0 <= j < |snapshots| ==> offset + 2 * count <= |snapshots[j]|
    ensures |rs| == count
    ensures forall p :: 0 <= p < count ==> rs[p] == PairRange(snapshots, offset, p)
  {
    seq(count, p requires 0 <= p < count => PairRange(snapshots, offset, p))
  }

  /** What `get_intermediate_outputs` returns, stated per output column.
      Without samples, `intermediate_outputs[0]` raises IndexError, before
      the mode is looked at; an unknown mode raises ValueError; with no
      original output the first probe name is the key the code drops, so its
      lookup raises KeyError; an odd number of probe outputs leaves the last
      min probe without a partner and raises IndexError. */
  function NaiveCalibration(numModelOutputs: nat, outputNames: seq<string>, snapshots: seq<Snapshot>, calibMode: string)
    : Result<map<string, Range>>
    requires Conforming(snapshots, |outputNames|)
  {
    var added := Drop(outputNames, numModelOutputs);
    if |snapshots| == 0 then Err(IndexError)
    else if calibMode != NaiveMode then Err(ValueError(UnknownCalibModeMessage))
    else if numModelOutputs == 0 && |added| > 0 then Err(KeyError)
    else if |added| % 2 == 1 then Err(IndexError)
    else Ok(ZipToMap(ProbeKeys(added), PairRanges(snapshots, numModelOutputs, |added| / 2)))
  }

  /** The naive-mode result when it succeeds: with samples, at least one
      original output and an even number of probe outputs whose keys are
      unique, probe pair `p` is keyed by its tensor name and holds its range. */
  lemma NaiveCalibrationKeys(numModelOutputs: nat, outputNames: seq<string>, snapshots: seq<Snapshot>)
    requires Conforming(snapshots, |outputNames|)
    requires |snapshots| > 0 && numModelOutputs > 0
    requires |Drop(outputNames, numModelOutputs)| % 2 == 0
    requires Distinct(ProbeKeys(Drop(outputNames, numModelOutputs)))
    ensures
      var r := NaiveCalibration(numModelOutputs, outputNames, snapshots, NaiveMode);
      var keys := ProbeKeys(Drop(outputNames, numModelOutputs));
      && r.Ok?
      && r.value.Keys == set k | k in keys
      && forall p :: 0 <= p < |keys| ==> r.value[keys[p]] == PairRange(snapshots, numModelOutputs, p)
  {
    var added := Drop(outputNames, numModelOutputs);
    var keys := ProbeKeys(added);
    var ranges := PairRanges(snapshots, numModelOutputs, |added| / 2);
    assert NaiveCalibration(numModelOutputs, outputNames, snapshots, NaiveMode) == Ok(ZipToMap(keys, ranges));
    var m := ZipToMap(keys, ranges);
    assert forall p :: 0 <= p < |keys| ==> m[keys[p]] == ranges[p];
  }

  /** The `pairs` comprehension over the gathered lists: for i = 0, 2, 4, ...
      the min of the list of `added[i]` and the max of the list of
      `added[i+1]`, each looked up in `clean`. */
  function NaivePairs(clean: map<string, seq<real>>, added: seq<string>): (r: Result<seq<Range>>)
    requires forall k :: k in clean ==> |clean[k]| > 0
    ensures r.Ok? ==> |added| % 2 == 0 && |r.value| == |added| / 2
    ensures |added| > 0 && added[0] !in clean ==> r == Err(KeyError)
  {
    if |added| == 0 then Ok([])
    else if added[0] !in clean then Err(KeyError)
    else if |added| == 1 then Err(IndexError)
    else if added[1] !in clean then Err(KeyError)
    else
      var first := Range(MinOf(clean[added[0]]), MaxOf(clean[added[1]]));
      match NaivePairs(clean, added[2..])
      case Err(e) => Err(e)
      case Ok(rest) => Ok([first] + rest)
  }

  /** Each pair the comprehension produces is the min of the list of its
      first name and the max of the list of its second name. */
  lemma {:induction false} NaivePairsValues(clean: map<string, seq<real>>, added: seq<string>)
    requires forall k :: k in clean ==> |clean[k]| > 0
    requires NaivePairs(clean, added).Ok?
    ensures
      var pairs := NaivePairs(clean, added).value;
      forall p :: 0 <= p < |pairs| ==>
        && added[2 * p] in clean && added[2 * p + 1] in clean
        && pairs[p] == Range(MinOf(clean[added[2 * p]]), MaxOf(clean[added[2 * p + 1]]))
  {
    if |added| > 0 {
      var tail := added[2..];
      NaivePairsValues(clean, tail);
      var pairs := NaivePairs(clean, added).value;
      var rest := NaivePairs(clean, tail).value;
      assert pairs == [Range(MinOf(clean[added[0]]), MaxOf(clean[added[1]]))] + rest;
      forall p | 0 <= p < |pairs|
        ensures added[2 * p] in clean && added[2 * p + 1] in clean
        ensures pairs[p] == Range(MinOf(clean[added[2 * p]]), MaxOf(clean[added[2 * p + 1]]))
      {
        if p > 0 {
          assert added[2 * p] == tail[2 * (p - 1)] && added[2 * p + 1] == tail[2 * (p - 1) + 1];
          assert pairs[p] == rest[p - 1];
        }
      }
    }
  }

  /** When every name is found, the comprehension fails exactly on an odd
      count, with IndexError on the unpaired last name. */
  lemma {:induction false} NaivePairsAllFound(clean: map<string, seq<real>>, added: seq<string>)
    requires forall k :: k in clean ==> |clean[k]| > 0
    requires forall k :: k in added ==> k in clean
    ensures |added| % 2 == 1 ==> NaivePairs(clean, added) == Err(IndexError)
    ensures NaivePairs(clean, added).Ok? <==> |added| % 2 == 0
  {
    if |added| >= 2 {
      var tail := added[2..];
      assert forall k :: k in tail ==> k in added by {
        forall k | k in tail ensures k in added {
          var i :| 0 <= i < |tail| && tail[i] == k;
          assert added[i + 2] == k;
        }
      }
      NaivePairsAllFound(clean, tail);
    }
  }

  /** The nested loop that fills `merged_dict`: every output name is mapped
      to the list of the values it took, sample by sample. */
  method MergeSnapshots(outputNames: seq<string>, snapshots: seq<Snapshot>)
    returns (merged: map<string, seq<real>>)
    requires Distinct(outputNames)
    requires Conforming(snapshots, |outputNames|) && |snapshots| > 0
    ensures merged.Keys == set k | k in outputNames
    ensures forall q :: 0 <= q < |outputNames| ==> merged[outputNames[q]] == Column(snapshots, q)
  {
    merged := map[];
    var j := 0;
    while j < |snapshots|
      invariant 0 <= j <= |snapshots|
      invariant forall k :: k in merged ==> k in outputNames
      invariant forall q :: 0 <= q < |outputNames| ==> (outputNames[q] in merged <==> j > 0)
      invariant forall q :: 0 <= q < |outputNames| && j > 0 ==>
                  merged[outputNames[q]] == Column(snapshots[..j], q)
    {
      var d := snapshots[j];
      var t := 0;
      while t < |outputNames|
        invariant 0 <= t <= |outputNames|
        invariant forall k :: k in merged ==> k in outputNames
        invariant forall q :: 0 <= q < |outputNames| ==> (outputNames[q] in merged <==> q < t || j > 0)
        invariant forall q :: 0 <= q < t ==> merged[outputNames[q]] == Column(snapshots[..j + 1], q)
        invariant forall q :: t <= q < |outputNames| && j > 0 ==>
                    merged[outputNames[q]] == Column(snapshots[..j], q)
      {
        var k := outputNames[t];
        ColumnStep(snapshots, j, t);
        merged := merged[k := (if k in merged then merged[k] else []) + [d[t]]];
        t := t + 1;
      }
      j := j + 1;
    }
    assert snapshots[..j] == snapshots;
  }

  /** One more sample appends its value to every column. */
  lemma ColumnStep(snapshots: seq<Snapshot>, j: nat, q: nat)
    requires j < |snapshots|
    requires forall i :: 0 <= i < |snapshots| ==> q < |snapshots[i]|
    ensures Column(snapshots[..j + 1], q) == (if j == 0 then [] else Column(snapshots[..j], q)) + [snapshots[j][q]]
  {
  }

  /** `get_intermediate_outputs` over given inference results: `outputNames`
      are the session's output names, `snapshots` its results per sample and
      `numModelOutputs` the output count of the model before augmentation. */
  method GetIntermediateOutputs(numModelOutputs: nat, outputNames: seq<string>, snapshots: seq<Snapshot>, calibMode: string)
    returns (r: Result<map<string, Range>>)
    requires Distinct(outputNames)
    requires Conforming(snapshots, |outputNames|)
    ensures r == NaiveCalibration(numModelOutputs, outputNames, snapshots, calibMode)
  {
    if |snapshots| == 0 {
      return Err(IndexError);
    }
    var merged := MergeSnapshots(outputNames, snapshots);
    var added := Drop(outputNames, numModelOutputs);
    var nodeNames := ProbeKeys(added);
    // list(merged_dict.keys())[0] is the first name inserted (dicts keep
    // insertion order): outputNames[0]
    var clean := if |outputNames| == 0 then merged else merged - {outputNames[0]};
    if calibMode != NaiveMode {
      return Err(ValueError(UnknownCalibModeMessage));
    }
    var pairs := NaivePairs(clean, added);
    if pairs.Err? {
      r := Err(pairs.error);
    } else {
      r := Ok(ZipToMap(nodeNames, pairs.value));
    }
    CleanLookups(numModelOutputs, outputNames, snapshots, merged, clean, added, pairs, r);
  }

  /** How the lookups in `clean` turn out: with no original output the first
      probe name is the dropped key; otherwise every probe name is found, and
      its list is that output's column. */
  lemma CleanLookups(numModelOutputs: nat, outputNames: seq<string>, snapshots: seq<Snapshot>,
                     merged: map<string, seq<real>>, clean: map<string, seq<real>>, added: seq<string>,
                     pairs: Result<seq<Range>>, r: Result<map<string, Range>>)
    requires Distinct(outputNames)
    requires Conforming(snapshots, |outputNames|) && |snapshots| > 0
    requires merged.Keys == set k | k in outputNames
    requires forall q :: 0 <= q < |outputNames| ==> merged[outputNames[q]] == Column(snapshots, q)
    requires clean == if |outputNames| == 0 then merged else merged - {outputNames[0]}
    requires added == Drop(outputNames, numModelOutputs)
    requires forall k :: k in clean ==> |clean[k]| > 0
    requires pairs == NaivePairs(clean, added)
    requires r == if pairs.Err? then Err(pairs.error) else Ok(ZipToMap(ProbeKeys(added), pairs.value))
    ensures r == NaiveCalibration(numModelOutputs, outputNames, snapshots, NaiveMode)
  {
    if numModelOutputs == 0 && |added| > 0 {
      assert added[0] == outputNames[0];
    } else {
      ProbeNamesFound(numModelOutputs, outputNames, merged, clean, added);
      NaivePairsAllFound(clean, added);
      if |added| % 2 == 0 {
        PairsMatchColumns(numModelOutputs, outputNames, snapshots, merged, clean, added, pairs);
      }
    }
  }

  /** Past at least one original output, no probe name is the dropped key. */
  lemma ProbeNamesFound(numModelOutputs: nat, outputNames: seq<string>,
                        merged: map<string, seq<real>>, clean: map<string, seq<real>>, added: seq<string>)
    requires Distinct(outputNames)
    requires merged.Keys == set k | k in outputNames
    requires clean == if |outputNames| == 0 then merged else merged - {outputNames[0]}
    requires added == Drop(outputNames, numModelOutputs)
    requires numModelOutputs > 0 || |added| == 0
    ensures forall k :: k in added ==> k in clean
  {
    forall k | k in added ensures k in clean {
      var i :| 0 <= i < |added| && added[i] == k;
      assert k == outputNames[numModelOutputs + i];
    }
  }

  /** When every probe name is found, the pairs are the per-column extrema. */
  lemma PairsMatchColumns(numModelOutputs: nat, outputNames: seq<string>, snapshots: seq<Snapshot>,
                          merged: map<string, seq<real>>, clean: map<string, seq<real>>, added: seq<string>,
                          pairs: Result<seq<Range>>)
    requires Distinct(outputNames)
    requires Conforming(snapshots, |outputNames|) && |snapshots| > 0
    requires forall q :: 0 <= q < |outputNames| ==> outputNames[q] in merged && merged[outputNames[q]] == Column(snapshots, q)
    requires forall k :: k in clean ==> k in merged && clean[k] == merged[k] && |clean[k]| > 0
    requires added == Drop(outputNames, numModelOutputs) && |added| % 2 == 0
    requires forall k :: k in added ==> k in clean
    requires pairs == NaivePairs(clean, added)
    ensures pairs.Ok?
    ensures pairs.value == PairRanges(snapshots, numModelOutputs, |added| / 2)
  {
    NaivePairsAllFound(clean, added);
    NaivePairsValues(clean, added);
    var ranges := PairRanges(snapshots, numModelOutputs, |added| / 2);
    forall p | 0 <= p < |added| / 2 ensures pairs.value[p] == ranges[p] {
      assert added[2 * p] == outputNames[numModelOutputs + 2 * p];
      assert added[2 * p + 1] == outputNames[numModelOutputs + 2 * p + 1];
    }
  }

  /** Shuffling the calibration samples does not change the statistics: the
      min and max folds only see which values occur. */
  lemma NaiveCalibrationIgnoresSampleOrder(
    numModelOutputs: nat, outputNames: seq<string>, s1: seq<Snapshot>, s2: seq<Snapshot>, calibMode: string)
    requires Conforming(s1, |outputNames|) && Conforming(s2, |outputNames|)
    requires multiset(s1) == multiset(s2)
    ensures NaiveCalibration(numModelOutputs, outputNames, s1, calibMode)
         == NaiveCalibration(numModelOutputs, outputNames, s2, calibMode)
  {
    assert |s1| == |multiset(s1)| == |multiset(s2)| == |s2|;
    var added := Drop(outputNames, numModelOutputs);
    if |s1| > 0 && calibMode == NaiveMode && !(numModelOutputs == 0 && |added| > 0) && |added| % 2 == 0 {
      forall p | 0 <= p < |added| / 2
        ensures PairRange(s1, numModelOutputs, p) == PairRange(s2, numModelOutputs, p)
      {
        SameColumnValues(s1, s2, |outputNames|, numModelOutputs + 2 * p);
        SameColumnValues(s1, s2, |outputNames|, numModelOutputs + 2 * p + 1);
        ExtremaDependOnlyOnValues(Column(s1, numModelOutputs + 2 * p), Column(s2, numModelOutputs + 2 * p));
        ExtremaDependOnlyOnValues(Column(s1, numModelOutputs + 2 * p + 1), Column(s2, numModelOutputs + 2 * p + 1));
      }
      var ranges1 := PairRanges(s1, numModelOutputs, |added| / 2);
      var ranges2 := PairRanges(s2, numModelOutputs, |added| / 2);
      assert ranges1 == ranges2;
    }
  }

  /** Two sample lists holding the same snapshots give every output column
      the same set of values. */
  lemma SameColumnValues(s1: seq<Snapshot>, s2: seq<Snapshot>, width: nat, q: nat)
    requires Conforming(s1, width) && Conforming(s2, width) && q < width
    requires multiset(s1) == multiset(s2)
    ensures forall x :: x in Column(s1, q) <==> x in Column(s2, q)
  {
    forall x | x in Column(s1, q) ensures x in Column(s2, q) {
      var j :| 0 <= j < |s1| && Column(s1, q)[j] == x;
      assert s1[j] in multiset(s2);
      var j2 :| 0 <= j2 < |s2| && s2[j2] == s1[j];
      assert Column(s2, q)[j2] == x;
    }
    forall x | x in Column(s2, q) ensures x in Column(s1, q) {
      var j :| 0 <= j < |s2| && Column(s2, q)[j] == x;
      assert s2[j] in multiset(s1);
      var j1 :| 0 <= j1 < |s1| && s1[j1] == s2[j];
      assert Column(s1, q)[j1] == x;
    }
  }
}
