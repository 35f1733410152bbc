/** De-duplication of zone addresses: districts and areas whose labels normalise alike are
    merged, and look-ups by label keep answering. `normalize` is any function. */
module ZoneAddresses {
  import opened Basics

  datatype Area = Area(code: string, name: string)

  datatype District = District(name: string, localCouncilDistrict: Option<string>, areas: seq<Area>)

  datatype City = City(code: string, name: string, districts: seq<District>)

  type Normalizer = string -> string

  function AreaLabel(normalize: Normalizer): Area -> string {
    (area: Area) => normalize(area.name)
  }

  function DistrictLabel(normalize: Normalizer): District -> string {
    (district: District) => normalize(district.name)
  }

  function FindZoneDistrict(city: City, value: string, normalize: Normalizer): Option<District> {
    Find(city.districts, DistrictLabel(normalize), normalize(value))
  }

  function FindZoneArea(district: Option<District>, value: string, normalize: Normalizer): Option<Area> {
    if district.None? then None else Find(district.value.areas, AreaLabel(normalize), normalize(value))
  }

  // ------------------------------------------------------- one reduction step

  /** What one round of the outer reduction makes of the districts so far. */
  function Merge(districts: seq<District>, source: District, normalize: Normalizer): seq<District> {
    var k := FindIndex(districts, DistrictLabel(normalize), normalize(source.name));
    if k < |districts| then
      districts[k := districts[k].(areas := Absorb(districts[k].areas, source.areas, AreaLabel(normalize)))]
    else districts + [source.(areas := Absorb([], source.areas, AreaLabel(normalize)))]
  }

  function MergeAll(sources: seq<District>, normalize: Normalizer): seq<District> {
    if sources == [] then []
    else Merge(MergeAll(sources[..|sources| - 1], normalize), sources[|sources| - 1], normalize)
  }

  /** The inner `forEach`: pushes the areas with new labels onto the district at `k`. */
  method PushAreas(districts: seq<District>, k: nat, areas: seq<Area>, normalize: Normalizer)
    returns (merged: seq<District>)
    requires k < |districts|
    ensures merged == districts[k := districts[k].(areas := Absorb(districts[k].areas, areas, AreaLabel(normalize)))]
  {
    merged := districts;
    for n := 0 to |areas|
      invariant merged ==
                districts[k := districts[k].(areas := Absorb(districts[k].areas, areas[..n], AreaLabel(normalize)))]
    {
      assert areas[..n + 1][..n] == areas[..n];
      if !HasKey(merged[k].areas, AreaLabel(normalize), normalize(areas[n].name)) {
        merged := merged[k := merged[k].(areas := merged[k].areas + [areas[n]])];
      }
    }
    assert areas[..|areas|] == areas;
  }

  method DedupeZoneCity(city: City, normalize: Normalizer) returns (deduped: City)
    ensures deduped == city.(districts := MergeAll(city.districts, normalize))
  {
    var districts: seq<District> := [];
    for n := 0 to |city.districts|
      invariant districts == MergeAll(city.districts[..n], normalize)
    {
      assert city.districts[..n + 1][..n] == city.districts[..n];
      var source := city.districts[n];
      ghost var before := districts;
      var k := FindIndex(districts, DistrictLabel(normalize), normalize(source.name));
      if k == |districts| {
        districts := districts + [source.(areas := [])];
      }
      districts := PushAreas(districts, k, source.areas, normalize);
      assert districts == Merge(before, source, normalize);
    }
    assert city.districts[..|city.districts|] == city.districts;
    deduped := city.(districts := districts);
  }

  method DedupeZoneCities(cities: seq<City>, normalize: Normalizer) returns (deduped: seq<City>)
    ensures |deduped| == |cities|
    ensures forall i :: 0 <= i < |cities| ==>
                          deduped[i] == cities[i].(districts := MergeAll(cities[i].districts, normalize))
  {
    deduped := [];
    for n := 0 to |cities|
      invariant |deduped| == n
      invariant forall i :: 0 <= i < n ==>
                deduped[i] == cities[i].(districts := MergeAll(cities[i].districts, normalize))
    {
      var city := DedupeZoneCity(cities[n], normalize);
      deduped := deduped + [city];
    }
  }

  // ------------------------------------------------------- what merging keeps

  /** All areas that districts with a label hold, in order. */
  function AreasUnder(sources: seq<District>, key: string, normalize: Normalizer): seq<Area> {
    if sources == [] then []
    else AreasUnder(sources[..|sources| - 1], key, normalize)
         + (if normalize(sources[|sources| - 1].name) == key then sources[|sources| - 1].areas else [])
  }

  /** One round changes only the district with the source's label. */
  lemma {:induction false} MergeFinds(districts: seq<District>, source: District, key: string, normalize: Normalizer)
    requires DistinctKeys(districts, DistrictLabel(normalize))
    ensures DistinctKeys(Merge(districts, source, normalize), DistrictLabel(normalize))
    ensures Find(Merge(districts, source, normalize), DistrictLabel(normalize), key) ==
            if key != normalize(source.name) then Find(districts, DistrictLabel(normalize), key)
            else match Find(districts, DistrictLabel(normalize), key)
                 case None => Some(source.(areas := Absorb([], source.areas, AreaLabel(normalize))))
                 case Some(d) => Some(d.(areas := Absorb(d.areas, source.areas, AreaLabel(normalize))))
  {
    var names := DistrictLabel(normalize);
    var k := FindIndex(districts, names, normalize(source.name));
    if k < |districts| {
      var next := districts[k].(areas := Absorb(districts[k].areas, source.areas, AreaLabel(normalize)));
      FindAfterUpdate(districts, k, next, names, key);
      var merged := districts[k := next];
      assert forall i :: 0 <= i < |merged| ==> names(merged[i]) == names(districts[i]);
    } else {
      var added := source.(areas := Absorb([], source.areas, AreaLabel(normalize)));
      FindInConcat(districts, [added], names, key);
      FindMeans(districts, names, key);
      assert (districts + [added])[..|districts|] == districts;
      DistinctPush(districts + [added], names);
    }
  }

  /** Under each label there is one district: the first one, holding the first area of
      every area label among all districts with that label. */
  lemma {:induction false} MergedDistrict(sources: seq<District>, key: string, normalize: Normalizer)
    ensures DistinctKeys(MergeAll(sources, normalize), DistrictLabel(normalize))
    ensures Find(MergeAll(sources, normalize), DistrictLabel(normalize), key) ==
            match Find(sources, DistrictLabel(normalize), key)
            case None => None
            case Some(first) =>
              Some(first.(areas := Absorb([], AreasUnder(sources, key, normalize), AreaLabel(normalize))))
  {
    if sources != [] {
      var front, source, names := sources[..|sources| - 1], sources[|sources| - 1], DistrictLabel(normalize);
      assert sources == front + [source];
      MergedDistrict(front, key, normalize);
      MergeFinds(MergeAll(front, normalize), source, key, normalize);
      FindInConcat(front, [source], names, key);
      FindMeans(front, names, key);
      if key != normalize(source.name) {
        assert AreasUnder(sources, key, normalize) == AreasUnder(front, key, normalize);
        assert Find([source], names, key) == None;
      } else if HasKey(front, names, key) {
        AbsorbInSteps([], AreasUnder(front, key, normalize), source.areas, AreaLabel(normalize));
      } else {
        NoAreasUnder(front, key, normalize);
        assert [] + source.areas == source.areas;
        assert Find([source], names, key) == Some(source);
      }
    }
  }

  lemma {:induction false} NoAreasUnder(sources: seq<District>, key: string, normalize: Normalizer)
    requires !HasKey(sources, DistrictLabel(normalize), key)
    ensures AreasUnder(sources, key, normalize) == []
  {
    if sources != [] {
      var n := |sources| - 1;
      assert sources == sources[..n] + [sources[n]];
      HasKeyInConcat(sources[..n], [sources[n]], DistrictLabel(normalize), key);
      assert [sources[n]][0] == sources[n];
      NoAreasUnder(sources[..n], key, normalize);
    }
  }

  ghost predicate HoldsArea(district: District, key: string, areaLabel: string, normalize: Normalizer) {
    normalize(district.name) == key && HasKey(district.areas, AreaLabel(normalize), areaLabel)
  }

  lemma {:induction false} AreasUnderHas(sources: seq<District>, key: string, areaLabel: string, normalize: Normalizer)
    ensures HasKey(AreasUnder(sources, key, normalize), AreaLabel(normalize), areaLabel) <==>
            exists d :: d in sources && HoldsArea(d, key, areaLabel, normalize)
  {
    if sources != [] {
      var front, last := sources[..|sources| - 1], sources[|sources| - 1];
      assert sources == front + [last];
      AreasUnderHas(front, key, areaLabel, normalize);
      if normalize(last.name) == key {
        HasKeyInConcat(AreasUnder(front, key, normalize), last.areas, AreaLabel(normalize), areaLabel);
        assert HasKey(last.areas, AreaLabel(normalize), areaLabel) <==> HoldsArea(last, key, areaLabel, normalize);
      } else {
        assert AreasUnder(sources, key, normalize) == AreasUnder(front, key, normalize);
        assert !HoldsArea(last, key, areaLabel, normalize);
      }
    }
  }

  // ------------------------------------------------------- the theorems

  /** District labels are pairwise distinct, and so are the area labels in each district. */
  lemma LabelsAreDistinct(sources: seq<District>, normalize: Normalizer, i: nat)
    requires i < |MergeAll(sources, normalize)|
    ensures DistinctKeys(MergeAll(sources, normalize), DistrictLabel(normalize))
    ensures DistinctKeys(MergeAll(sources, normalize)[i].areas, AreaLabel(normalize))
  {
    var merged := MergeAll(sources, normalize);
    var key := normalize(merged[i].name);
    MergedDistrict(sources, key, normalize);
    FindIsThatRow(merged, DistrictLabel(normalize), i);
    AbsorbIsDistinct([], AreasUnder(sources, key, normalize), AreaLabel(normalize));
  }

  /** Looking up a district and then an area succeeds exactly when some original district
      with that label held an area with that label, and finds the first such area. */
  lemma LookupsKeepAnswering(city: City, district: string, area: string, normalize: Normalizer)
    ensures var deduped := city.(districts := MergeAll(city.districts, normalize));
            FindZoneArea(FindZoneDistrict(deduped, district, normalize), area, normalize) ==
            Find(AreasUnder(city.districts, normalize(district), normalize), AreaLabel(normalize), normalize(area))
    ensures var deduped := city.(districts := MergeAll(city.districts, normalize));
            FindZoneArea(FindZoneDistrict(deduped, district, normalize), area, normalize).Some? <==>
            exists d :: d in city.districts && HoldsArea(d, normalize(district), normalize(area), normalize)
  {
    var key, areaLabel := normalize(district), normalize(area);
    var areas := AreasUnder(city.districts, key, normalize);
    MergedDistrict(city.districts, key, normalize);
    AbsorbKeepsFirst([], areas, AreaLabel(normalize), areaLabel);
    assert [] + areas == areas;
    AreasUnderHas(city.districts, key, areaLabel, normalize);
    FindMeans(areas, AreaLabel(normalize), areaLabel);
    FindMeans(city.districts, DistrictLabel(normalize), key);
    if !HasKey(city.districts, DistrictLabel(normalize), key) {
      NoAreasUnder(city.districts, key, normalize);
    }
  }

  lemma MergeOfNew(districts: seq<District>, source: District, normalize: Normalizer)
    requires !HasKey(districts, DistrictLabel(normalize), normalize(source.name))
    requires DistinctKeys(source.areas, AreaLabel(normalize))
    ensures Merge(districts, source, normalize) == districts + [source]
  {
    assert [] + source.areas == source.areas;
    AbsorbAllNew([], source.areas, AreaLabel(normalize));
  }

  lemma {:induction false} DistinctIsFixed(districts: seq<District>, normalize: Normalizer)
    requires DistinctKeys(districts, DistrictLabel(normalize))
    requires forall i :: 0 <= i < |districts| ==> DistinctKeys(districts[i].areas, AreaLabel(normalize))
    ensures MergeAll(districts, normalize) == districts
  {
    if districts != [] {
      var n := |districts| - 1;
      var front, last := districts[..n], districts[n];
      DistinctPush(districts, DistrictLabel(normalize));
      DistinctIsFixed(front, normalize);
      MergeOfNew(front, last, normalize);
      assert districts == front + [last];
    }
  }

  /** De-duplicating twice is de-duplicating once. */
  lemma DedupingIsIdempotent(sources: seq<District>, normalize: Normalizer)
    ensures MergeAll(MergeAll(sources, normalize), normalize) == MergeAll(sources, normalize)
  {
    var merged := MergeAll(sources, normalize);
    MergedDistrict(sources, "", normalize);
    forall i | 0 <= i < |merged|
      ensures DistinctKeys(merged[i].areas, AreaLabel(normalize))
    {
      LabelsAreDistinct(sources, normalize, i);
    }
    DistinctIsFixed(merged, normalize);
  }
}
