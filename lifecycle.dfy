/** The measurement state machine as pure functions over a snapshot of the
    session fields: Ready -> Starting -> Measuring -> Ready, driven by
    start() and slice(time). These functions are the specification the
    Profiler.Session methods are proved against. */
module Lifecycle {
  import opened Zones

  datatype Status = Ready | Starting | Measuring

  /** The configuration values the state machine reads. The source does not
      validate them, so any integers are allowed. */
  datatype Config = Config(targetSampleCount: int, warmupRuns: int, hasDoneCallback: bool)

  /** The session fields the state machine updates (the wall-clock field
      used by the time-measuring slice() is not part of this model). */
  datatype State = State(
    status: Status,
    zones: seq<Zone>,
    targetZone: nat,
    recordedSlices: int,
    warmupRunsLeft: int)

  const InitialState: State := State(Ready, [], 0, 0, 0)

  /** Samples each zone receives in a pass: the target count, or one when
      the target is below one (the target test runs after the increment). */
  function PerZone(cfg: Config): (k: nat)
    ensures k >= 1
  {
    if cfg.targetSampleCount >= 1 then cfg.targetSampleCount else 1
  }

  /** Slices discarded after the reset of a pass. */
  function WarmupSlices(cfg: Config): nat {
    if cfg.warmupRuns > 0 then cfg.warmupRuns else 0
  }

  /** is_sample_target_reached: once a slice has been recorded, the target
      counts as reached exactly when the zone holds its full per-zone share. */
  predicate SampleTargetReached(s: State, cfg: Config): (r: bool)
    ensures s.recordedSlices >= 1 ==> (r <==> s.recordedSlices >= PerZone(cfg))
  {
    s.recordedSlices >= cfg.targetSampleCount
  }

  /** Zone i has had its turn as the zone under test in the current pass. */
  predicate HadTurn(s: State, i: int) {
    i < s.targetZone
  }

  /** are_all_zones_done: the pass is over exactly when every zone has had
      its turn; while one remains, the target names a registered zone. */
  predicate AllZonesDone(s: State): (r: bool)
    ensures r <==> forall i :: 0 <= i < |s.zones| ==> HadTurn(s, i)
    ensures !r ==> s.targetZone < |s.zones|
  {
    assert s.targetZone < |s.zones| ==> !HadTurn(s, s.targetZone);
    s.targetZone >= |s.zones|
  }

  /** The flag behind are_results_ready(). */
  predicate AreResultsReady(s: State) {
    s.status == Ready && s.recordedSlices > 0
  }

  /** Every zone with its samples dropped, names and order kept. */
  function ClearedZones(zones: seq<Zone>): (r: seq<Zone>)
    ensures |r| == |zones|
    ensures forall i :: 0 <= i < |r| ==> r[i] == Zone(zones[i].name, [])
  {
    seq(|zones|, i requires 0 <= i < |zones| => Zone(zones[i].name, []))
  }

  /** reset_state: restart the pass at the null zone with the configured
      warmup; status and zone names are left alone, every sample is dropped. */
  function ResetPass(s: State, cfg: Config): (r: State)
    ensures r.status == s.status
    ensures r.targetZone == 0 && r.recordedSlices == 0 && r.warmupRunsLeft == cfg.warmupRuns
    ensures |r.zones| == |s.zones|
    ensures forall i :: 0 <= i < |r.zones| ==>
              r.zones[i].name == s.zones[i].name && r.zones[i].frameTimes == []
    ensures NamesDistinct(s.zones) ==> NamesDistinct(r.zones)
  {
    s.(targetZone := 0, recordedSlices := 0, warmupRunsLeft := cfg.warmupRuns,
       zones := ClearedZones(s.zones))
  }

  /** record_slice: append the value to the target zone's samples; every
      other zone and field except the counter is left alone. */
  function Record(s: State, t: real): (r: State)
    requires s.targetZone < |s.zones|
    ensures |r.zones| == |s.zones|
    ensures r.zones[s.targetZone].name == s.zones[s.targetZone].name
    ensures r.zones[s.targetZone].frameTimes == s.zones[s.targetZone].frameTimes + [t]
    ensures forall i :: 0 <= i < |s.zones| && i != s.targetZone ==> r.zones[i] == s.zones[i]
    ensures r.recordedSlices == s.recordedSlices + 1
    ensures r.(zones := s.zones, recordedSlices := s.recordedSlices) == s
  {
    var z := s.zones[s.targetZone];
    s.(zones := s.zones[s.targetZone := Zone(z.name, z.frameTimes + [t])],
       recordedSlices := s.recordedSlices + 1)
  }

  /** start_next_zone_measurement: only the target and the counter change;
      the warmup counter is not re-armed. */
  function Advance(s: State): (r: State)
    ensures r.targetZone == s.targetZone + 1 && r.recordedSlices == 0
    ensures r.(targetZone := s.targetZone, recordedSlices := s.recordedSlices) == s
  {
    s.(targetZone := s.targetZone + 1, recordedSlices := 0)
  }

  /** start(): a Ready session becomes Starting; in any other status
      nothing changes, so afterwards the session is never Ready. */
  function Start(s: State): (r: State)
    ensures r.status != Ready
    ensures s.status == Ready ==> r == s.(status := Starting)
    ensures s.status != Ready ==> r == s
    ensures r.(status := s.status) == s
  {
    if s.status == Ready then s.(status := Starting) else s
  }

  /** The state after zone(name) has registered the name. */
  function AfterZone(s: State, name: string): State {
    s.(zones := Register(s.zones, name))
  }

  /** The answer of zone(name), computed on the state after registration:
      only the zone under test is switched off, and nothing is while the
      null zone is the target. */
  function ShouldRun(s: State, name: string): (run: bool)
    ensures !run <==> s.status == Measuring && s.targetZone != 0 && ZoneIndex(s.zones, name) == s.targetZone
  {
    if s.status == Measuring then
      if s.targetZone == 0 then true else ZoneIndex(s.zones, name) != s.targetZone
    else true
  }

  /** A recording slice needs the target zone to exist (the source indexes
      the zone list without a check). */
  predicate CanRecord(s: State) {
    s.status == Measuring && s.warmupRunsLeft <= 0 ==> s.targetZone < |s.zones|
  }

  /** slice(time): the whole effect on the state machine fields. */
  function SliceStep(s: State, cfg: Config, t: real): (r: State)
    requires CanRecord(s)
    ensures |r.zones| == |s.zones|
    ensures forall i :: 0 <= i < |s.zones| ==> r.zones[i].name == s.zones[i].name
  {
    match s.status
    case Ready => s
    case Starting => ResetPass(s, cfg).(status := Measuring)
    case Measuring =>
      if s.warmupRunsLeft > 0 then s.(warmupRunsLeft := s.warmupRunsLeft - 1)
      else
        var recorded := Record(s, t);
        if SampleTargetReached(recorded, cfg) then
          var advanced := Advance(recorded);
          if AllZonesDone(advanced) then advanced.(status := Ready) else advanced
        else recorded
  }

  /** Outside Measuring, slice() records nothing: while Ready it changes
      nothing; while Starting it discards the time, runs reset_state and
      switches to Measuring. */
  lemma SliceOutsideMeasuring(s: State, cfg: Config, t: real)
    requires CanRecord(s)
    ensures s.status == Ready ==> SliceStep(s, cfg, t) == s
    ensures s.status == Starting ==> SliceStep(s, cfg, t) == ResetPass(s, cfg).(status := Measuring)
  {
  }

  /** Whether slice() ends the pass and runs the evaluation. */
  predicate Evaluates(s: State, cfg: Config) {
    && s.status == Measuring
    && s.warmupRunsLeft <= 0
    && s.recordedSlices + 1 >= cfg.targetSampleCount
    && s.targetZone + 1 >= |s.zones|
  }

  /** Samples zone i holds while Measuring: a full set before the target,
      the running count at the target, none after it. */
  function ExpectedSamples(s: State, cfg: Config, i: int): int {
    if i < s.targetZone then PerZone(cfg)
    else if i == s.targetZone then s.recordedSlices
    else 0
  }

  /** The invariant of a session that the operations keep. */
  ghost predicate Inv(s: State, cfg: Config) {
    && NamesDistinct(s.zones)
    && (s.zones != [] ==> s.zones[0].name == "")
    && (s.status == Ready ==> s.recordedSlices == 0)
    && (s.status == Measuring ==>
          && (s.targetZone < |s.zones| || (s.zones == [] && s.targetZone == 0 && s.recordedSlices == 0))
          && 0 <= s.recordedSlices < PerZone(cfg)
          && forall i :: 0 <= i < |s.zones| ==>
               |s.zones[i].frameTimes| == ExpectedSamples(s, cfg, i))
  }

  lemma InitialStateValid(cfg: Config)
    ensures Inv(InitialState, cfg)
  {
  }

  lemma StartPreservesInv(s: State, cfg: Config)
    requires Inv(s, cfg)
    ensures Inv(Start(s), cfg)
  {
  }

  /** Registration keeps the invariant in every status; in particular a
      zone first seen during a pass lands after the target and joins it. */
  lemma ZonePreservesInv(s: State, cfg: Config, name: string)
    requires Inv(s, cfg)
    ensures Inv(AfterZone(s, name), cfg)
    ensures s.zones != [] ==> AfterZone(s, name).zones[0] == s.zones[0]
    ensures AfterZone(s, name).zones[0].name == ""
  {
    var r := AfterZone(s, name);
    if s.zones != [] {
      assert r.zones[0] == r.zones[..|s.zones|][0];
    }
    if s.status == Measuring {
      forall i | 0 <= i < |r.zones|
        ensures |r.zones[i].frameTimes| == ExpectedSamples(r, cfg, i)
      {
        if i < |s.zones| {
          assert r.zones[i] == r.zones[..|s.zones|][i];
        } else {
          assert r.zones[i].frameTimes == [];
          assert s.zones == [] || i > s.targetZone;
        }
      }
    }
  }

  /** A recording slice leaves the target zone existing whenever the zone
      list is not empty. */
  lemma InvCanRecord(s: State, cfg: Config)
    requires Inv(s, cfg) && s.zones != []
    ensures CanRecord(s)
  {
  }

  /** slice() keeps the invariant: the target index only grows, the counter
      stays below the per-zone target, and every zone before the target
      holds a full set of samples. */
  lemma SlicePreservesInv(s: State, cfg: Config, t: real)
    requires Inv(s, cfg) && CanRecord(s)
    ensures Inv(SliceStep(s, cfg, t), cfg)
    ensures s.status == Measuring ==> SliceStep(s, cfg, t).targetZone >= s.targetZone
  {
    var r := SliceStep(s, cfg, t);
    assert NamesDistinct(r.zones) by {
      forall i, j | 0 <= i < j < |r.zones| ensures r.zones[i].name != r.zones[j].name {
        assert r.zones[i].name == s.zones[i].name && r.zones[j].name == s.zones[j].name;
      }
    }
    if s.status == Measuring && s.warmupRunsLeft <= 0 {
      var recorded := Record(s, t);
      assert forall i :: 0 <= i < |s.zones| ==>
        |recorded.zones[i].frameTimes| == ExpectedSamples(recorded, cfg, i);
    }
  }

  /** When slice() evaluates, every zone holds a full set of samples, so
      the statistics over each zone are defined. */
  lemma EvaluationHasFullZones(s: State, cfg: Config, t: real)
    requires Inv(s, cfg) && CanRecord(s) && Evaluates(s, cfg)
    ensures SliceStep(s, cfg, t).status == Ready
    ensures forall i :: 0 <= i < |s.zones| ==>
              |SliceStep(s, cfg, t).zones[i].frameTimes| == PerZone(cfg)
  {
    var recorded := Record(s, t);
    assert forall i :: 0 <= i < |s.zones| ==>
      |recorded.zones[i].frameTimes| == ExpectedSamples(recorded, cfg, i);
  }

  /** As written, are_results_ready() can never answer true: a session is
      only Ready with a zero slice counter. */
  lemma ResultsNeverReady(s: State, cfg: Config)
    requires Inv(s, cfg)
    ensures !AreResultsReady(s)
  {
  }

  /** Toggle consistency: however many other zones the same loop iteration
      registers in between, a second zone(name) call changes nothing and
      gives the same answer as the first. */
  lemma ToggleConsistent(s: State, name: string, others: seq<string>)
    ensures var first := AfterZone(s, name);
            var between := first.(zones := RegisterAll(first.zones, others));
            && AfterZone(between, name) == between
            && ShouldRun(AfterZone(between, name), name) == ShouldRun(first, name)
  {
    var first := AfterZone(s, name);
    RegisteredIndexStable(s.zones, name, others);
    assert IsZoneKnown(RegisterAll(first.zones, others), name);
  }

  /** A run of consecutive slice() calls with the given times. */
  function Run(s: State, cfg: Config, ts: seq<real>): (r: State)
    requires Inv(s, cfg) && s.zones != []
    ensures Inv(r, cfg) && |r.zones| == |s.zones|
    ensures forall i :: 0 <= i < |s.zones| ==> r.zones[i].name == s.zones[i].name
    decreases |ts|
  {
    if ts == [] then s
    else
      InvCanRecord(s, cfg);
      SlicePreservesInv(s, cfg, ts[0]);
      Run(SliceStep(s, cfg, ts[0]), cfg, ts[1..])
  }

  lemma {:induction false} RunAppend(s: State, cfg: Config, a: seq<real>, b: seq<real>)
    requires Inv(s, cfg) && s.zones != []
    ensures Run(s, cfg, a + b) == Run(Run(s, cfg, a), cfg, b)
    decreases |a|
  {
    if a == [] {
      assert a + b == b;
    } else {
      InvCanRecord(s, cfg);
      SlicePreservesInv(s, cfg, a[0]);
      assert (a + b)[1..] == a[1..] + b;
      RunAppend(SliceStep(s, cfg, a[0]), cfg, a[1..], b);
    }
  }

  /** Warmup slices only count down; nothing is recorded. */
  lemma {:induction false} WarmupPhase(s: State, cfg: Config, ts: seq<real>)
    requires Inv(s, cfg) && s.zones != []
    requires s.status == Measuring && |ts| <= s.warmupRunsLeft
    ensures Run(s, cfg, ts) == s.(warmupRunsLeft := s.warmupRunsLeft - |ts|)
    decreases |ts|
  {
    if ts != [] {
      InvCanRecord(s, cfg);
      SlicePreservesInv(s, cfg, ts[0]);
      WarmupPhase(SliceStep(s, cfg, ts[0]), cfg, ts[1..]);
    }
  }

  /** The rest of one zone's sub-pass: the slices are appended to the target
      zone only, then the target moves on (and the pass ends after the last
      zone). Warmup is not re-armed. */
  lemma {:induction false} RecordZone(s: State, cfg: Config, ts: seq<real>)
    requires Inv(s, cfg) && s.zones != []
    requires s.status == Measuring && s.warmupRunsLeft <= 0
    requires |ts| == PerZone(cfg) - s.recordedSlices
    ensures s.targetZone < |s.zones|
    ensures Run(s, cfg, ts) ==
              s.(status := if s.targetZone + 1 == |s.zones| then Ready else Measuring,
                 targetZone := s.targetZone + 1,
                 recordedSlices := 0,
                 zones := s.zones[s.targetZone :=
                   Zone(s.zones[s.targetZone].name, s.zones[s.targetZone].frameTimes + ts)])
    decreases |ts|
  {
    var tz := s.targetZone;
    var z := s.zones[tz];
    InvCanRecord(s, cfg);
    SlicePreservesInv(s, cfg, ts[0]);
    var next := SliceStep(s, cfg, ts[0]);
    if |ts| == 1 {
      assert ts == [ts[0]];
    } else {
      assert next == Record(s, ts[0]);
      RecordZone(next, cfg, ts[1..]);
      assert z.frameTimes + [ts[0]] + ts[1..] == z.frameTimes + ts;
      assert next.zones[tz := Zone(z.name, z.frameTimes + [ts[0]] + ts[1..])]
          == s.zones[tz := Zone(z.name, z.frameTimes + ts)];
    }
  }

  /** The slices of consecutive sub-passes, one chunk per zone. */
  function Flatten(chunks: seq<seq<real>>): seq<real> {
    if chunks == [] then [] else chunks[0] + Flatten(chunks[1..])
  }

  lemma {:induction false} FlattenLength(chunks: seq<seq<real>>, k: nat)
    requires forall c :: 0 <= c < |chunks| ==> |chunks[c]| == k
    ensures |Flatten(chunks)| == |chunks| * k
  {
    if chunks != [] {
      FlattenLength(chunks[1..], k);
    }
  }

  /** How the rest of a pass leaves the zones: those before the first
      target untouched, and the zone at from + c holding exactly chunk c. */
  predicate HoldsChunks(before: seq<Zone>, after: seq<Zone>, from: nat, chunks: seq<seq<real>>) {
    && |after| == |before| && from + |chunks| == |before|
    && (forall i :: 0 <= i < from ==> after[i] == before[i])
    && (forall i :: from <= i < |before| ==> after[i] == Zone(before[i].name, chunks[i - from]))
  }

  /** Filling zone from with the first chunk, then the later zones with the
      rest, fills them all. */
  lemma HoldsChunksStep(
    before: seq<Zone>, mid: seq<Zone>, after: seq<Zone>, from: nat, chunks: seq<seq<real>>)
    requires chunks != [] && from + |chunks| == |before|
    requires mid == before[from := Zone(before[from].name, chunks[0])]
    requires HoldsChunks(mid, after, from + 1, chunks[1..])
    ensures HoldsChunks(before, after, from, chunks)
  {
    forall i | from < i < |before|
      ensures after[i] == Zone(before[i].name, chunks[i - from])
    {
      assert chunks[1..][i - (from + 1)] == chunks[i - from];
    }
  }

  /** The first sub-pass of the rest of a pass: the zone under test, which
      starts empty, receives exactly the first chunk, and the remaining
      slices run on from the state this leaves. */
  lemma FirstSubPass(s: State, cfg: Config, chunks: seq<seq<real>>) returns (mid: State)
    requires Inv(s, cfg) && s.zones != []
    requires s.status == Measuring && s.warmupRunsLeft <= 0 && s.recordedSlices == 0
    requires chunks != [] && |chunks[0]| == PerZone(cfg)
    ensures s.targetZone < |s.zones|
    ensures mid == s.(status := if s.targetZone + 1 == |s.zones| then Ready else Measuring,
                      targetZone := s.targetZone + 1,
                      zones := s.zones[s.targetZone := Zone(s.zones[s.targetZone].name, chunks[0])])
    ensures Inv(mid, cfg)
    ensures Run(s, cfg, Flatten(chunks)) == Run(mid, cfg, Flatten(chunks[1..]))
  {
    var tz := s.targetZone;
    RecordZone(s, cfg, chunks[0]);
    assert s.zones[tz].frameTimes == [] by {
      assert |s.zones[tz].frameTimes| == ExpectedSamples(s, cfg, tz);
    }
    assert s.zones[tz].frameTimes + chunks[0] == chunks[0];
    mid := Run(s, cfg, chunks[0]);
    RunAppend(s, cfg, chunks[0], Flatten(chunks[1..]));
  }

  /** From the first slice of zone tz's sub-pass to the end of the pass:
      zone tz + c receives exactly chunk c, earlier zones are untouched, and
      the session ends Ready with the counter at zero. */
  lemma {:induction false} RecordZonesFrom(s: State, cfg: Config, chunks: seq<seq<real>>)
    requires Inv(s, cfg) && s.zones != []
    requires s.status == Measuring && s.warmupRunsLeft <= 0 && s.recordedSlices == 0
    requires |chunks| == |s.zones| - s.targetZone
    requires forall c :: 0 <= c < |chunks| ==> |chunks[c]| == PerZone(cfg)
    ensures var r := Run(s, cfg, Flatten(chunks));
            && r.status == Ready && r.targetZone == |s.zones| && r.recordedSlices == 0
            && r.warmupRunsLeft == s.warmupRunsLeft
            && HoldsChunks(s.zones, r.zones, s.targetZone, chunks)
    decreases |chunks|
  {
    if |chunks| == 1 {
      LastSubPass(s, cfg, chunks);
    } else {
      var tz := s.targetZone;
      var mid := FirstSubPass(s, cfg, chunks);
      assert mid.targetZone == tz + 1;
      assert mid.zones == s.zones[tz := Zone(s.zones[tz].name, chunks[0])];
      RecordZonesFrom(mid, cfg, chunks[1..]);
      var after := Run(mid, cfg, Flatten(chunks[1..])).zones;
      assert HoldsChunks(mid.zones, after, tz + 1, chunks[1..]);
      HoldsChunksStep(s.zones, mid.zones, after, tz, chunks);
    }
  }

  /** The sub-pass of the last zone ends the pass. */
  lemma LastSubPass(s: State, cfg: Config, chunks: seq<seq<real>>)
    requires Inv(s, cfg) && s.zones != []
    requires s.status == Measuring && s.warmupRunsLeft <= 0 && s.recordedSlices == 0
    requires |chunks| == 1 && |s.zones| == s.targetZone + 1
    requires |chunks[0]| == PerZone(cfg)
    ensures var r := Run(s, cfg, Flatten(chunks));
            && r.status == Ready && r.targetZone == |s.zones| && r.recordedSlices == 0
            && r.warmupRunsLeft == s.warmupRunsLeft
            && HoldsChunks(s.zones, r.zones, s.targetZone, chunks)
  {
    var mid := FirstSubPass(s, cfg, chunks);
    assert Flatten(chunks[1..]) == [];
    HoldsChunksStep(s.zones, mid.zones, mid.zones, s.targetZone, chunks);
  }

  /** A whole pass after start(): one discarded slice that resets the
      pass, the warmup slices (once per pass, not per zone), then one chunk
      of PerZone(cfg) slices per zone. Afterwards the session is Ready,
      zone i holds exactly chunk i, names and order are unchanged, and the
      results-ready flag is still false. */
  lemma MeasurementPass(
    s: State, cfg: Config, first: real, warmup: seq<real>, chunks: seq<seq<real>>)
    requires Inv(s, cfg) && s.zones != [] && s.status == Starting
    requires |warmup| == WarmupSlices(cfg)
    requires |chunks| == |s.zones|
    requires forall c :: 0 <= c < |chunks| ==> |chunks[c]| == PerZone(cfg)
    ensures |[first] + warmup + Flatten(chunks)| == 1 + WarmupSlices(cfg) + |s.zones| * PerZone(cfg)
    ensures var r := Run(s, cfg, [first] + warmup + Flatten(chunks));
            && r.status == Ready
            && r.targetZone == |s.zones| && r.recordedSlices == 0
            && |r.zones| == |s.zones|
            && (forall i :: 0 <= i < |s.zones| ==> r.zones[i] == Zone(s.zones[i].name, chunks[i]))
            && !AreResultsReady(r)
  {
    FlattenLength(chunks, PerZone(cfg));
    InvCanRecord(s, cfg);
    SlicePreservesInv(s, cfg, first);
    var reset := SliceStep(s, cfg, first);
    assert Run(s, cfg, [first]) == reset;
    if warmup != [] {
      WarmupPhase(reset, cfg, warmup);
    }
    var warmed := Run(reset, cfg, warmup);
    assert warmed.warmupRunsLeft <= 0;
    RunAppend(s, cfg, [first], warmup);
    assert Run(s, cfg, [first] + warmup) == warmed;
    RunAppend(s, cfg, [first] + warmup, Flatten(chunks));
    RecordZonesFrom(warmed, cfg, chunks);
  }
}
