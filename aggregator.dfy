/** computeAverageMoisture (main.cpp:38-47): the arithmetic mean of the values of the observation
    set, 0 for an empty set. */
module Aggregator {
  import opened Observations

  /** Sum of the values of a mapping, taken in no particular order. */
  ghost function MapSum(m: map<string, real>): real
    decreases |m|
  {
    if m == map[] then 0.0
    else
      var k :| k in m;
      m[k] + MapSum(m - {k})
  }

  /** The mean the program reports: sum of all values over the number of entries, 0 when empty. */
  ghost function Mean(m: map<string, real>): real {
    if |m| == 0 then 0.0 else MapSum(m) / |m| as real
  }

  /** The sum does not depend on which entry is taken first. */
  lemma {:induction false} MapSumRemove(m: map<string, real>, k: string)
    requires k in m
    ensures MapSum(m) == m[k] + MapSum(m - {k})
    decreases |m|
  {
    var k' :| k' in m && MapSum(m) == m[k'] + MapSum(m - {k'});
    if k' != k {
      MapSumRemove(m - {k'}, k);
      MapSumRemove(m - {k}, k');
      assert m - {k'} - {k} == m - {k} - {k'};
    }
  }

  /** Sum of the values in iteration order, as the loop adds them up. */
  function SumValues(s: seq<Observation>): real
    decreases |s|
  {
    if s == [] then 0.0 else s[0].value + SumValues(s[1..])
  }

  /** Adding up in key order gives the order-free sum of the mapping. */
  lemma {:induction false} SumValuesIsMapSum(s: ObservationSet)
    ensures SumValues(s) == MapSum(ToMap(s))
    decreases |s|
  {
    if s != [] {
      SumValuesIsMapSum(s[1..]);
      TailMap(s);
      MapSumRemove(ToMap(s), s[0].date);
    }
  }

  method ComputeAverageMoisture(data: ObservationSet) returns (avg: real)
    ensures avg == Mean(ToMap(data))
  {
    var total := 0.0;
    var count := 0;
    for i := 0 to |data|
      invariant count == i
      invariant total + SumValues(data[i..]) == SumValues(data)
    {
      assert data[i..][1..] == data[i + 1..];
      total := total + data[i].value;
      count := count + 1;
    }
    avg := if count != 0 then total / count as real else 0.0;
    assert data[|data|..] == [];
    SumValuesIsMapSum(data);
    ToMapSize(data);
  }

  /** For a nonempty set, the mean is the sum of the values in key order over the number of
      entries. */
  lemma MeanIsAverage(s: ObservationSet)
    requires s != []
    ensures Mean(ToMap(s)) == SumValues(s) / |s| as real
  {
    SumValuesIsMapSum(s);
    ToMapSize(s);
  }

  /** The mean lies between the smallest and the largest value. */
  lemma MeanWithinBounds(m: map<string, real>, lo: real, hi: real)
    requires m != map[]
    requires forall k :: k in m ==> lo <= m[k] <= hi
    ensures lo <= Mean(m) <= hi
  {
    MapSumBounds(m, lo, hi);
    assert |m| > 0 by { assert m.Keys != {}; }
    Times(lo, |m|);
    Times(hi, |m|);
    DivideBounds(MapSum(m), |m| as real, lo, hi);
  }

  /** n copies of a added up. */
  function Repeat(a: real, n: nat): real {
    if n == 0 then 0.0 else a + Repeat(a, n - 1)
  }

  lemma {:induction false} Times(a: real, n: nat)
    ensures Repeat(a, n) == a * n as real
  {
    if n > 0 {
      Times(a, n - 1);
    }
  }

  lemma DivideBounds(total: real, n: real, lo: real, hi: real)
    requires n > 0.0 && lo * n <= total <= hi * n
    ensures lo <= total / n <= hi
  {
  }

  lemma {:induction false} MapSumBounds(m: map<string, real>, lo: real, hi: real)
    requires forall k :: k in m ==> lo <= m[k] <= hi
    ensures Repeat(lo, |m|) <= MapSum(m) <= Repeat(hi, |m|)
    decreases |m|
  {
    if m != map[] {
      var k :| k in m;
      var rest := m - {k};
      MapSumRemove(m, k);
      MapSumBounds(rest, lo, hi);
      assert |m| == |rest| + 1 by { assert |m.Keys| == |rest.Keys| + 1; }
    }
  }
}
