/** The Python built-ins the calibration code relies on, over exact values:
    `str.rpartition`, `min`/`max` of a list, `round`, slicing past the end
    and `dict(zip(...))`. */
module PyBuiltins {

  predicate Distinct<T(==)>(s: seq<T>) {
    forall i, j :: 0 <= i < j < |s| ==> s[i] != s[j]
  }

  /** `s[k:]`: a start past the end gives the empty list instead of failing. */
  function Drop<T>(s: seq<T>, k: nat): (r: seq<T>)
    ensures |r| == if k <= |s| then |s| - k else 0
    ensures forall i :: 0 <= i < |r| ==> r[i] == s[k + i]
  {
    if k <= |s| then s[k..] else []
  }

  /** `s.rpartition(sep)[0]`: everything before the last `sep`, or the empty
      string when `sep` does not occur in `s`. */
  function RPartitionHead(s: string, sep: char): (head: string)
    ensures sep !in s ==> head == ""
    ensures sep in s ==>
      && |head| < |s|
      && s[..|head|] == head
      && s[|head|] == sep
      && sep !in s[|head| + 1..]
  {
    if |s| == 0 then ""
    else if s[|s| - 1] == sep then s[..|s| - 1]
    else
      assert sep in s ==> sep in s[..|s| - 1] by {
        if sep in s {
          var k :| 0 <= k < |s| && s[k] == sep;
          assert s[..|s| - 1][k] == sep;
        }
      }
      var head := RPartitionHead(s[..|s| - 1], sep);
      assert sep in s ==> s[|head| + 1..] == s[..|s| - 1][|head| + 1..] + [s[|s| - 1]];
      head
  }

  /** Appending `sep` and a tail free of `sep` is undone by `rpartition`. */
  lemma RPartitionHeadOfSuffixed(x: string, sep: char, tail: string)
    requires sep !in tail
    ensures RPartitionHead(x + [sep] + tail, sep) == x
  {
    var s := x + [sep] + tail;
    assert s[|x|] == sep;
    var head := RPartitionHead(s, sep);
    assert s[..|x|] == x;
  }

  /** `min(a, b)` and `max(a, b)` on two numbers. */
  function Min(a: real, b: real): real {
    if b < a then b else a
  }

  function Max(a: real, b: real): real {
    if b > a then b else a
  }

  /** `min(s)` over a non-empty list. */
  function MinOf(s: seq<real>): (m: real)
    requires |s| > 0
    ensures m in s
    ensures forall x :: x in s ==> m <= x
  {
    if |s| == 1 then s[0]
    else
      assert s == [s[0]] + s[1..];
      var rest := MinOf(s[1..]);
      if s[0] <= rest then s[0] else rest
  }

  /** `max(s)` over a non-empty list. */
  function MaxOf(s: seq<real>): (m: real)
    requires |s| > 0
    ensures m in s
    ensures forall x :: x in s ==> x <= m
  {
    if |s| == 1 then s[0]
    else
      assert s == [s[0]] + s[1..];
      var rest := MaxOf(s[1..]);
      if s[0] >= rest then s[0] else rest
  }

  /** `min` and `max` depend only on which values occur, not on their order
      or multiplicity. */
  lemma ExtremaDependOnlyOnValues(a: seq<real>, b: seq<real>)
    requires |a| > 0 && |b| > 0
    requires forall x :: x in a <==> x in b
    ensures MinOf(a) == MinOf(b) && MaxOf(a) == MaxOf(b)
  {
  }

  /** Python's `round` on one argument: to the nearest integer, ties to even. */
  function RoundHalfEven(x: real): (r: int)
    ensures (r as real) - x <= 0.5 && x - (r as real) <= 0.5
    ensures x - (x.Floor as real) == 0.5 ==> r % 2 == 0
    ensures 0.0 <= x <= 255.0 ==> 0 <= r <= 255
  {
    var f := x.Floor;
    var d := x - f as real;
    if d < 0.5 then f
    else if d > 0.5 then f + 1
    else if f % 2 == 0 then f
    else f + 1
  }

  /** `dict(zip(keys, values))` for lists of equal length: a later pair
      overwrites an earlier one with the same key. */
  function ZipToMap<K(==), V>(keys: seq<K>, values: seq<V>): (m: map<K, V>)
    requires |keys| == |values|
    ensures m.Keys == set k | k in keys
    ensures Distinct(keys) ==> forall i :: 0 <= i < |keys| ==> m[keys[i]] == values[i]
  {
    if |keys| == 0 then map[]
    else
      var n := |keys| - 1;
      var m := ZipToMap(keys[..n], values[..n]);
      assert keys == keys[..n] + [keys[n]];
      m[keys[n] := values[n]]
  }
}
