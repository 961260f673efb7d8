/** The profiler session: the process-wide state record, the stored results
    and the operations the host loop calls (zone, start, slice) together
    with the control calls (clear_results, factory_reset). zone, start,
    slice and slice's helpers are proved against the pure state machine in
    Lifecycle; evaluate, clear_results and factory_reset state their effect
    directly. */
module Profiler {
  import opened Zones
  import opened ZoneResults
  import opened Lifecycle

  class Session {
    /** The configuration in force; the setters are not part of this model. */
    const config: Config
    /** Renders the stored results into the report text. It is a parameter
        of the model: module Report states the layout rules of the report
        separately, and this function is not tied to them. */
    const render: seq<ZoneResult> -> string

    var status: Status
    var zones: seq<Zone>
    var targetZone: nat
    var recordedSlices: int
    var warmupRunsLeft: int

    var results: seq<ZoneResult>
    var resultStr: string
    /** The result sets handed to the completion callback, in call order. */
    var callbackLog: seq<seq<ZoneResult>>

    /** The state machine fields as one value. */
    function Snapshot(): State
      reads this
    {
      State(status, zones, targetZone, recordedSlices, warmupRunsLeft)
    }

    /** The state machine invariant, and the report text kept in step with
        the stored results. */
    ghost predicate Valid()
      reads this
    {
      Inv(Snapshot(), config) && ReportMatches()
    }

    /** The report text is the rendering of the stored results, and empty
        when there are none. */
    predicate ReportMatches()
      reads this
    {
      if results == [] then resultStr == [] else resultStr == render(results)
    }

    constructor (config: Config, render: seq<ZoneResult> -> string)
      ensures Valid()
      ensures this.config == config && this.render == render
      ensures Snapshot() == InitialState
      ensures results == [] && resultStr == [] && callbackLog == []
    {
      this.config := config;
      this.render := render;
      status := Ready;
      zones := [];
      targetZone := 0;
      recordedSlices := 0;
      warmupRunsLeft := 0;
      results := [];
      resultStr := [];
      callbackLog := [];
    }

    /** zone(name): registers the name (creating the null zone on the very
        first call) and answers whether the region should run this
        iteration. Each newly appended zone reserves room for the configured
        sample count; a negative count converts to a huge size, so the
        reservation throws std::length_error right after the append. That
        throw is lengthError: the call then gives no answer (run is false)
        and, on the very first call, only the null zone has been appended. */
    method Zone(name: string) returns (run: bool, lengthError: bool)
      requires Valid()
      modifies this`zones
      ensures Valid()
      ensures lengthError <==> config.targetSampleCount < 0 && !IsZoneKnown(old(zones), name)
      ensures lengthError ==> !run
      ensures lengthError && old(zones) == [] ==> Snapshot() == AfterZone(old(Snapshot()), "")
      ensures !(lengthError && old(zones) == []) ==> Snapshot() == AfterZone(old(Snapshot()), name)
      ensures zones != [] && zones[0].name == ""
      ensures !(lengthError && old(zones) == []) ==> IsZoneKnown(zones, name)
      ensures forall i :: 0 <= i < |zones| && zones[i].name == name ==> i == ZoneIndex(zones, name)
      ensures IsZoneKnown(old(zones), name) ==> zones == old(zones)
      ensures !lengthError ==> run == ShouldRun(Snapshot(), name)
      ensures !lengthError ==>
                (!run <==> status == Measuring && targetZone != 0 && ZoneIndex(zones, name) == targetZone)
    {
      ghost var before := Snapshot();
      if zones == [] {
        zones := [NullZone];
        if config.targetSampleCount < 0 {
          ZonePreservesInv(before, config, "");
          assert Snapshot() == AfterZone(before, "");
          return false, true;
        }
      }
      ZonePreservesInv(before, config, name);
      if !IsZoneKnown(zones, name) {
        zones := zones + [Zones.Zone(name, [])];
        if config.targetSampleCount < 0 {
          assert Snapshot() == AfterZone(before, name);
          return false, true;
        }
      }
      assert Snapshot() == AfterZone(before, name);
      lengthError := false;
      if status == Measuring {
        var currentZone := ZoneIndex(zones, name);
        if targetZone == 0 {
          return true, false;
        }
        return currentZone != targetZone, false;
      }
      return true, false;
    }

    /** start(): only a Ready session moves to Starting. */
    method Start()
      requires Valid()
      modifies this`status
      ensures Valid()
      ensures Snapshot() == Lifecycle.Start(old(Snapshot()))
    {
      if status == Ready {
        status := Starting;
      }
    }

    /** reset_state: samples dropped zone by zone; names, order and status
        are kept. */
    method ResetState()
      modifies this`zones, this`targetZone, this`recordedSlices, this`warmupRunsLeft
      ensures Snapshot() == ResetPass(old(Snapshot()), config)
    {
      targetZone := 0;
      recordedSlices := 0;
      warmupRunsLeft := config.warmupRuns;
      var i := 0;
      while i < |zones|
        modifies this`zones
        invariant 0 <= i <= |zones| == |old(zones)|
        invariant forall j :: 0 <= j < i ==> zones[j] == Zones.Zone(old(zones)[j].name, [])
        invariant forall j :: i <= j < |zones| ==> zones[j] == old(zones)[j]
      {
        zones := zones[i := zones[i].(frameTimes := [])];
        i := i + 1;
      }
      assert zones == ClearedZones(old(zones));
    }

    /** record_slice: the target zone must exist. */
    method RecordSlice(timeDeltaMs: real)
      requires targetZone < |zones|
      modifies this`zones, this`recordedSlices
      ensures Snapshot() == Record(old(Snapshot()), timeDeltaMs)
    {
      var target := zones[targetZone];
      zones := zones[targetZone := target.(frameTimes := target.frameTimes + [timeDeltaMs])];
      recordedSlices := recordedSlices + 1;
    }

    /** start_next_zone_measurement: the warmup counter is not touched. */
    method StartNextZoneMeasurement()
      modifies this`targetZone, this`recordedSlices
      ensures Snapshot() == Advance(old(Snapshot()))
    {
      targetZone := targetZone + 1;
      recordedSlices := 0;
    }

    /** evaluate: store the per-zone results and the report text, hand the
        results to the completion callback when one is set, and return to
        Ready. */
    method Evaluate()
      requires AllSampled(zones)
      modifies this`results, this`resultStr, this`callbackLog, this`status
      ensures status == Ready
      ensures results == ResultsOf(zones) && |results| == |zones|
      ensures resultStr == render(results)
      ensures callbackLog == old(callbackLog) + (if config.hasDoneCallback then [results] else [])
    {
      results := GetResults(zones);
      resultStr := render(results);
      if config.hasDoneCallback {
        callbackLog := callbackLog + [results];
      }
      status := Ready;
    }

    /** slice(time): one iteration of the host loop. */
    method Slice(timeDeltaMs: real)
      requires Valid()
      requires CanRecord(Snapshot())
      modifies this`zones, this`targetZone, this`recordedSlices, this`warmupRunsLeft, this`status,
               this`results, this`resultStr, this`callbackLog
      ensures Valid()
      ensures Snapshot() == SliceStep(old(Snapshot()), config, timeDeltaMs)
      ensures Evaluates(old(Snapshot()), config) ==>
                && AllSampled(zones)
                && results == ResultsOf(zones)
                && resultStr == render(results)
                && callbackLog == old(callbackLog) + (if config.hasDoneCallback then [results] else [])
                && ResultsAvailable()
      ensures !Evaluates(old(Snapshot()), config) ==>
                results == old(results) && resultStr == old(resultStr) && callbackLog == old(callbackLog)
    {
      ghost var before := Snapshot();
      ghost var after := SliceStep(before, config, timeDeltaMs);
      SlicePreservesInv(before, config, timeDeltaMs);
      if Evaluates(before, config) {
        EvaluationHasFullZones(before, config, timeDeltaMs);
      }
      if status == Ready {
        return;
      } else if status == Starting {
        ResetState();
        status := Measuring;
        assert Snapshot() == after;
      } else {
        if warmupRunsLeft > 0 {
          warmupRunsLeft := warmupRunsLeft - 1;
          assert Snapshot() == after;
          return;
        }
        RecordSlice(timeDeltaMs);
        if SampleTargetReached(Snapshot(), config) {
          StartNextZoneMeasurement();
          if AllZonesDone(Snapshot()) {
            assert |zones| == |before.zones| > 0;
            Evaluate();
            assert results != [];
          } else {
            assert !Evaluates(before, config);
          }
        } else {
          assert !Evaluates(before, config);
        }
        assert Snapshot() == after;
      }
    }

    /** are_results_ready() as written: it tests the slice counter, which
        is zero whenever the session is Ready, so it never answers true. */
    function AreResultsReady(): (ready: bool)
      reads this
      ensures Valid() ==> !ready
    {
      Lifecycle.AreResultsReady(Snapshot())
    }

    /** The intended meaning of are_results_ready(): a pass has been
        evaluated and its results are still stored. When it holds, the
        report text is their rendering; when a Ready session has none, the
        report text is empty. */
    function ResultsAvailable(): (ready: bool)
      reads this
      ensures Valid() && ready ==> resultStr == render(results)
      ensures Valid() && !ready && status == Ready ==> resultStr == []
    {
      status == Ready && results != []
    }

    /** clear_results: drop the stored results and report text only. */
    method ClearResults()
      modifies this`results, this`resultStr
      ensures results == [] && resultStr == []
      ensures old(Valid()) ==> Valid()
      ensures !ResultsAvailable()
    {
      results := [];
      resultStr := [];
    }

    /** factory_reset: forget every zone and result and return to Ready,
        with the warmup counter armed from the configuration. */
    method FactoryReset()
      modifies this
      ensures Valid()
      ensures Snapshot() == State(Ready, [], 0, 0, config.warmupRuns)
      ensures results == [] && resultStr == []
      ensures callbackLog == old(callbackLog)
      ensures !ResultsAvailable()
    {
      zones := [];
      status := Ready;
      ResetState();
      ClearResults();
    }
  }
}
