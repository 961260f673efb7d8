/** The per-zone summary built at evaluation (get_results): a sorted copy of
    the samples, their median, mean and worst value. */
module ZoneResults {
  import opened Stats
  import opened Zones

  /** One row of the results. The standard deviation is not a field here:
      it needs a square root (see Stats.GetBesselVariance for the part
      before it). */
  datatype ZoneResult = ZoneResult(
    name: string,
    sortedTimes: seq<real>,
    median: real,
    mean: real,
    worstTime: real)

  /** Every zone has at least one sample; the worst time is read from the
      back of the sorted copy, which is undefined for an empty one. */
  predicate AllSampled(zones: seq<Zone>) {
    forall i :: 0 <= i < |zones| ==> |zones[i].frameTimes| > 0
  }

  /** The summary of one zone. */
  function ResultOf(z: Zone): (r: ZoneResult)
    requires |z.frameTimes| > 0
    ensures r.name == z.name
    ensures Sorted(r.sortedTimes) && multiset(r.sortedTimes) == multiset(z.frameTimes)
    ensures r.worstTime in z.frameTimes
    ensures forall i :: 0 <= i < |z.frameTimes| ==> z.frameTimes[i] <= r.worstTime
    ensures r.mean == Mean(z.frameTimes)
    ensures r.median == Median(r.sortedTimes)
    ensures r.sortedTimes[0] <= r.median <= r.worstTime
    ensures r.sortedTimes[0] <= r.mean <= r.worstTime
  {
    var sorted := SortAscending(z.frameTimes);
    SortedLastIsMax(z.frameTimes, sorted);
    SortedCopyFacts(z.frameTimes, sorted);
    var worst := sorted[|sorted| - 1];
    ZoneResult(z.name, sorted, Median(sorted), Mean(sorted), worst)
  }

  /** One summary per zone, in zone order. */
  function ResultsOf(zones: seq<Zone>): (r: seq<ZoneResult>)
    requires AllSampled(zones)
    ensures |r| == |zones|
    ensures forall i :: 0 <= i < |zones| ==> r[i] == ResultOf(zones[i])
    ensures forall i :: 0 <= i < |zones| ==> r[i].name == zones[i].name
    ensures forall i :: 0 <= i < |zones| ==>
              Sorted(r[i].sortedTimes) && multiset(r[i].sortedTimes) == multiset(zones[i].frameTimes)
    ensures forall i :: 0 <= i < |zones| ==> r[i].mean == Mean(zones[i].frameTimes)
  {
    seq(|zones|, i requires 0 <= i < |zones| && AllSampled(zones) => ResultOf(zones[i]))
  }

  /** The body of get_results' loop for one zone: sort a copy of its
      samples and take the statistics from the sorted copy. */
  method GetZoneResult(z: Zone) returns (result: ZoneResult)
    requires |z.frameTimes| > 0
    ensures result == ResultOf(z)
  {
    var sorted := SortAscending(z.frameTimes);
    var median := Median(sorted);
    var mean := GetMean(sorted);
    var worst := sorted[|sorted| - 1];
    result := ZoneResult(z.name, sorted, median, mean, worst);
  }

  /** The loop of get_results: one result per zone, in zone order. */
  method GetResults(zones: seq<Zone>) returns (results: seq<ZoneResult>)
    requires AllSampled(zones)
    ensures results == ResultsOf(zones)
  {
    results := [];
    for i := 0 to |zones|
      invariant |results| == i
      invariant forall j :: 0 <= j < i ==> results[j] == ResultOf(zones[j])
    {
      var result := GetZoneResult(zones[i]);
      results := results + [result];
    }
    ResultsOfUnique(zones, results);
  }

  /** ResultsOf is the only sequence holding ResultOf of each zone in zone
      order. */
  lemma ResultsOfUnique(zones: seq<Zone>, rs: seq<ZoneResult>)
    requires AllSampled(zones) && |rs| == |zones|
    requires forall j :: 0 <= j < |zones| ==> rs[j] == ResultOf(zones[j])
    ensures rs == ResultsOf(zones)
  {
    var all := ResultsOf(zones);
    assert forall j :: 0 <= j < |zones| ==> rs[j] == all[j];
  }
}
