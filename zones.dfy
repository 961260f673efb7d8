/** The zone registry: an ordered list of named zones, each with the frame
    times recorded while it was the one switched off. Index 0 holds the
    null zone (empty name), the baseline with every zone switched on. */
module Zones {

  datatype Zone = Zone(name: string, frameTimes: seq<real>)

  /** The zone created before the first user zone; it stands for the
      configuration in which nothing is switched off. */
  const NullZone: Zone := Zone("", [])

  /** No two zones share a name. */
  predicate NamesDistinct(zones: seq<Zone>) {
    forall i, j :: 0 <= i < j < |zones| ==> zones[i].name != zones[j].name
  }

  /** Position of the first zone with the given name, or -1 when there is
      none (the linear search of get_zone_index). */
  function ZoneIndex(zones: seq<Zone>, name: string): (r: int)
    ensures -1 <= r < |zones|
    ensures r == -1 <==> forall i :: 0 <= i < |zones| ==> zones[i].name != name
    ensures r >= 0 ==> zones[r].name == name
    ensures r >= 0 ==> forall i :: 0 <= i < r ==> zones[i].name != name
  {
    if zones == [] then -1
    else if zones[0].name == name then 0
    else
      var j := ZoneIndex(zones[1..], name);
      if j == -1 then -1 else j + 1
  }

  /** is_zone_known: some zone carries the name. */
  predicate IsZoneKnown(zones: seq<Zone>, name: string): (known: bool)
    ensures known <==> exists i :: 0 <= i < |zones| && zones[i].name == name
  {
    ZoneIndex(zones, name) != -1
  }

  /** The registry update performed by every zone() call: the null zone is
      created on the very first call, and an unknown name is appended with
      no samples. */
  function Register(zones: seq<Zone>, name: string): (r: seq<Zone>)
    ensures r != []
    ensures zones == [] ==> r[0] == NullZone
    ensures zones == [] ==> r == (if name == "" then [NullZone] else [NullZone, Zone(name, [])])
    ensures zones != [] ==> |zones| <= |r| <= |zones| + 1 && r[..|zones|] == zones
    ensures IsZoneKnown(zones, name) ==> r == zones
    ensures IsZoneKnown(r, name)
    ensures forall i :: |zones| <= i < |r| ==> r[i].frameTimes == []
    ensures NamesDistinct(zones) ==> NamesDistinct(r)
    ensures NamesDistinct(zones) ==>
              forall i :: 0 <= i < |r| && r[i].name == name ==> i == ZoneIndex(r, name)
  {
    var withNull := if zones == [] then [NullZone] else zones;
    if IsZoneKnown(withNull, name) then withNull
    else
      var r := withNull + [Zone(name, [])];
      assert r[|withNull|].name == name;
      r
  }

  /** Registering many names in turn, as the zone() calls of one loop
      iteration do. */
  function RegisterAll(zones: seq<Zone>, names: seq<string>): seq<Zone>
    decreases |names|
  {
    if names == [] then zones else RegisterAll(Register(zones, names[0]), names[1..])
  }

  /** Registration only appends: a name already present keeps its index. */
  lemma ZoneIndexStable(zones: seq<Zone>, more: seq<Zone>, name: string)
    requires IsZoneKnown(zones, name)
    ensures ZoneIndex(zones + more, name) == ZoneIndex(zones, name)
  {
    var k := ZoneIndex(zones, name);
    assert (zones + more)[k] == zones[k];
  }

  lemma {:induction false} RegisterAllExtends(zones: seq<Zone>, names: seq<string>)
    requires zones != []
    ensures |zones| <= |RegisterAll(zones, names)|
    ensures RegisterAll(zones, names)[..|zones|] == zones
    decreases |names|
  {
    if names != [] {
      var next := Register(zones, names[0]);
      RegisterAllExtends(next, names[1..]);
      assert next[..|zones|] == zones;
      assert RegisterAll(zones, names)[..|zones|] == RegisterAll(next, names[1..])[..|next|][..|zones|];
    }
  }

  /** Whatever other zones a loop iteration registers after the first
      zone(name) call, name keeps the index it got there. */
  lemma RegisteredIndexStable(zones: seq<Zone>, name: string, others: seq<string>)
    ensures ZoneIndex(RegisterAll(Register(zones, name), others), name)
            == ZoneIndex(Register(zones, name), name)
  {
    KnownIndexStable(Register(zones, name), name, others);
  }

  lemma KnownIndexStable(first: seq<Zone>, name: string, others: seq<string>)
    requires first != [] && IsZoneKnown(first, name)
    ensures ZoneIndex(RegisterAll(first, others), name) == ZoneIndex(first, name)
  {
    var later := RegisterAll(first, others);
    RegisterAllExtends(first, others);
    assert later == first + later[|first|..];
    ZoneIndexStable(first, later[|first|..], name);
  }
}
