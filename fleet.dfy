/**
 * The company's own unit list (`loadTowList`) and the two caches behind its
 * location labels: district names fetched per province, and the last known
 * city and district of each unit, which the add and edit dialogs also write.
 */
module Fleet {
  import opened Common
  import opened Text
  import opened Catalog
  import opened Format
  import opened Locator

  /** A unit as `listTowTrucks` returns it; an absent or zero `id` is 0, absent strings "". */
  datatype OwnUnit = OwnUnit(
    id: int, driverName: string, licensePlate: string, isActive: Option<bool>,
    firstArea: Option<Area>, driverPhotoUrl: string)

  /** A cached unit location; an absent name is "". */
  datatype SavedLoc = SavedLoc(city: string, district: string)

  /**
   * A row of the unit list. `id` is `None` where the page falls back to the
   * clock; `location`, `areaCity` and `areaDistrict` are "" where it leaves
   * them undefined.
   */
  datatype Row = Row(
    id: Option<int>, name: string, plate: string, location: string,
    isActive: Option<bool>, areaProvinceId: Option<int>, areaDistrictId: Option<int>,
    areaCity: string, areaDistrict: string, photoUrl: Option<string>)

  /**
   * What the row builder reads from the page: the catalog, the current
   * selection, and `NEXT_PUBLIC_API_BASE` ("" when unset).
   */
  datatype Page = Page(
    provinces: seq<Province>, districts: seq<District>,
    selectedProvince: Option<int>, selectedDistrict: Option<int>, apiEnv: string)

  function SelectedProvince(page: Page): string {
    SelectedProvinceName(page.provinces, page.selectedProvince)
  }

  function SelectedDistrict(page: Page): string {
    SelectedDistrictName(page.districts, page.selectedDistrict)
  }

  const ProvincePrefix := "İl #"
  const DistrictPrefix := "İlce #"

  /** `<prefix><id>` for a non-zero id (`İl #<id>`, `İlce #<id>`), "" otherwise. */
  function Placeholder(prefix: string, id: Option<int>): (r: string)
    ensures r != "" <==> id.Some? && id.value != 0
    ensures r != "" ==> r == prefix + IntToString(id.value)
  {
    if id.Some? && id.value != 0 then prefix + IntToString(id.value) else ""
  }

  /** A placeholder names exactly one id. */
  lemma PlaceholdersNameOneId(prefix: string, a: int, b: int)
    requires a != 0 && b != 0
    requires Placeholder(prefix, Some(a)) == Placeholder(prefix, Some(b))
    ensures a == b
  {
    assert (prefix + IntToString(a))[|prefix|..] == IntToString(a);
    assert (prefix + IntToString(b))[|prefix|..] == IntToString(b);
    IntToStringInjective(a, b);
  }

  /** A province placeholder is never a district placeholder. */
  lemma PlaceholderFormsDiffer(a: int, b: int)
    requires a != 0 && b != 0
    ensures Placeholder(ProvincePrefix, Some(a)) != Placeholder(DistrictPrefix, Some(b))
  {
    assert Placeholder(ProvincePrefix, Some(a))[2] == ' ';
    assert Placeholder(DistrictPrefix, Some(b))[2] == 'c';
  }

  function AreaProvinceId(area: Option<Area>): Option<int> {
    if area.Some? then area.value.provinceId else None
  }

  function AreaDistrictId(area: Option<Area>): Option<int> {
    if area.Some? then area.value.districtId else None
  }

  function AreaCity(area: Option<Area>): string {
    if area.Some? then area.value.city else ""
  }

  function AreaDistrict(area: Option<Area>): string {
    if area.Some? then area.value.district else ""
  }

  function SavedCity(saved: Option<SavedLoc>): string {
    if saved.Some? then saved.value.city else ""
  }

  function SavedDistrict(saved: Option<SavedLoc>): string {
    if saved.Some? then saved.value.district else ""
  }

  /**
   * The province label of a row: the catalog's name for the area's province,
   * then the cached city, then the area's own city, then `İl #<id>`, and the
   * selected province's name last, so it is never empty.
   */
  function ProvinceLabel(page: Page, area: Option<Area>, saved: Option<SavedLoc>): (r: string)
    ensures r != ""
    ensures ProvinceNameOf(page.provinces, AreaProvinceId(area)) != "" ==>
      r == ProvinceNameOf(page.provinces, AreaProvinceId(area))
    ensures ProvinceNameOf(page.provinces, AreaProvinceId(area)) == "" && SavedCity(saved) != "" ==>
      r == SavedCity(saved)
    ensures (ProvinceNameOf(page.provinces, AreaProvinceId(area)) == "" && SavedCity(saved) == ""
       && AreaCity(area) != "") ==> r == AreaCity(area)
    ensures (ProvinceNameOf(page.provinces, AreaProvinceId(area)) == "" && SavedCity(saved) == ""
       && AreaCity(area) == "" && Placeholder(ProvincePrefix, AreaProvinceId(area)) != "") ==>
      r == Placeholder(ProvincePrefix, AreaProvinceId(area))
    ensures (ProvinceNameOf(page.provinces, AreaProvinceId(area)) == "" && SavedCity(saved) == ""
       && AreaCity(area) == "" && Placeholder(ProvincePrefix, AreaProvinceId(area)) == "") ==>
      r == SelectedProvince(page)
  {
    var xs := [ProvinceNameOf(page.provinces, AreaProvinceId(area)), SavedCity(saved), AreaCity(area),
               Placeholder(ProvincePrefix, AreaProvinceId(area)), SelectedProvince(page)];
    assert xs[0] == ProvinceNameOf(page.provinces, AreaProvinceId(area)) && xs[1] == SavedCity(saved);
    assert xs[2] == AreaCity(area) && xs[3] == Placeholder(ProvincePrefix, AreaProvinceId(area));
    assert xs[4] == SelectedProvince(page);
    FirstNonEmpty(xs)
  }

  /** `districtNameCache[id] || ""` for the area's district, "" without one. */
  function CachedDistrict(names: map<int, string>, area: Option<Area>): string {
    var id := AreaDistrictId(area);
    if id.Some? && id.value in names then names[id.value] else ""
  }

  /** The name of the area's district among the districts currently loaded. */
  function DistrictFromState(page: Page, area: Option<Area>): string {
    var id := AreaDistrictId(area);
    if id.Some? then DistrictNameOf(page.districts, id.value) else ""
  }

  /**
   * The district label of a row: the area's own district, then the district
   * name cache, then the loaded districts, then the cached district, then
   * `İlce #<id>`, and the selected district's name last.
   */
  function DistrictLabel(page: Page, names: map<int, string>, area: Option<Area>, saved: Option<SavedLoc>): (r: string)
    ensures AreaDistrict(area) != "" ==> r == AreaDistrict(area)
    ensures AreaDistrict(area) == "" && CachedDistrict(names, area) != "" ==> r == CachedDistrict(names, area)
    ensures (AreaDistrict(area) == "" && CachedDistrict(names, area) == ""
       && DistrictFromState(page, area) != "") ==> r == DistrictFromState(page, area)
    ensures (AreaDistrict(area) == "" && CachedDistrict(names, area) == ""
       && DistrictFromState(page, area) == "" && SavedDistrict(saved) != "") ==> r == SavedDistrict(saved)
    ensures (AreaDistrict(area) == "" && CachedDistrict(names, area) == ""
       && DistrictFromState(page, area) == "" && SavedDistrict(saved) == ""
       && Placeholder(DistrictPrefix, AreaDistrictId(area)) != "") ==> r == Placeholder(DistrictPrefix, AreaDistrictId(area))
    ensures (AreaDistrict(area) == "" && CachedDistrict(names, area) == ""
       && DistrictFromState(page, area) == "" && SavedDistrict(saved) == ""
       && Placeholder(DistrictPrefix, AreaDistrictId(area)) == "") ==> r == SelectedDistrict(page)
  {
    var xs := [AreaDistrict(area), CachedDistrict(names, area), DistrictFromState(page, area),
               SavedDistrict(saved), Placeholder(DistrictPrefix, AreaDistrictId(area)), SelectedDistrict(page)];
    assert xs[0] == AreaDistrict(area) && xs[1] == CachedDistrict(names, area);
    assert xs[2] == DistrictFromState(page, area) && xs[3] == SavedDistrict(saved);
    assert xs[4] == Placeholder(DistrictPrefix, AreaDistrictId(area)) && xs[5] == SelectedDistrict(page);
    FirstNonEmpty(xs)
  }

  /**
   * The location line: "district, province" from the labels, or the selected
   * names when both labels are empty. The province label never is, so the line
   * is the province label behind the district label when there is one.
   */
  function Location(page: Page, district: string, province: string): (r: string)
    requires province != ""
    ensures r == if district == "" then province else district + ", " + province
  {
    var fromArea := JoinNonEmpty([district, province], ", ");
    var fallback := JoinNonEmpty([SelectedDistrict(page), SelectedProvince(page)], ", ");
    assert [district, province][1..] == [province];
    assert [province][1..] == [];
    assert JoinNonEmpty([province], ", ") == province;
    var xs := [fromArea, fallback, ""];
    assert xs[0] == fromArea;
    FirstNonEmpty(xs)
  }

  /** The row `loadTowList` builds for one unit, given the cached location it read. */
  function BuildRow(page: Page, names: map<int, string>, u: OwnUnit, saved: Option<SavedLoc>): (row: Row)
    ensures row.id.Some? <==> u.id != 0
    ensures row.name == (if u.driverName != "" then u.driverName else "Çekici")
    ensures row.plate == u.licensePlate
    ensures row.location ==
      var district := DistrictLabel(page, names, u.firstArea, saved);
      var province := ProvinceLabel(page, u.firstArea, saved);
      if district == "" then province else district + ", " + province
    ensures row.isActive == u.isActive
    ensures row.areaProvinceId == if AreaProvinceId(u.firstArea).Some? then AreaProvinceId(u.firstArea) else page.selectedProvince
    ensures row.areaDistrictId == AreaDistrictId(u.firstArea)
    ensures row.areaCity == AreaCity(u.firstArea)
    ensures AreaDistrict(u.firstArea) != "" ==> row.areaDistrict == AreaDistrict(u.firstArea)
    ensures AreaDistrict(u.firstArea) == "" && CachedDistrict(names, u.firstArea) != "" ==>
      row.areaDistrict == CachedDistrict(names, u.firstArea)
    ensures AreaDistrict(u.firstArea) == "" && CachedDistrict(names, u.firstArea) == "" ==>
      row.areaDistrict == DistrictFromState(page, u.firstArea)
    ensures row.photoUrl == PhotoUrl(ApiBase(page.apiEnv), u.driverPhotoUrl)
  {
    var area := u.firstArea;
    var province := ProvinceLabel(page, area, saved);
    var district := DistrictLabel(page, names, area, saved);
    var districts := [AreaDistrict(area), CachedDistrict(names, area), DistrictFromState(page, area)];
    assert districts[0] == AreaDistrict(area) && districts[1] == CachedDistrict(names, area);
    assert districts[2] == DistrictFromState(page, area);
    Row(
      if u.id != 0 then Some(u.id) else None,
      if u.driverName != "" then u.driverName else "Çekici",
      u.licensePlate,
      Location(page, district, province),
      u.isActive,
      if AreaProvinceId(area).Some? then AreaProvinceId(area) else page.selectedProvince,
      AreaDistrictId(area),
      AreaCity(area),
      FirstNonEmpty(districts),
      PhotoUrl(ApiBase(page.apiEnv), u.driverPhotoUrl))
  }

  /** The location a unit's row leaves in the cache: its labels, the old district where the label is empty. */
  function SavedEntry(page: Page, names: map<int, string>, u: OwnUnit, saved: Option<SavedLoc>): (e: SavedLoc)
    ensures e.city == ProvinceLabel(page, u.firstArea, saved)
    ensures DistrictLabel(page, names, u.firstArea, saved) != "" ==> e.district == DistrictLabel(page, names, u.firstArea, saved)
    ensures DistrictLabel(page, names, u.firstArea, saved) == "" ==> e.district == SavedDistrict(saved)
  {
    var province := ProvinceLabel(page, u.firstArea, saved);
    var district := DistrictLabel(page, names, u.firstArea, saved);
    var cities := [province, SavedCity(saved)];
    var districts := [district, SavedDistrict(saved)];
    assert cities[0] == province && districts[0] == district && districts[1] == SavedDistrict(saved);
    SavedLoc(FirstNonEmpty(cities), FirstNonEmpty(districts))
  }

  /** The cached location of the unit with id `id`, read only for a non-zero id. */
  function Lookup(locs: map<int, SavedLoc>, id: int): Option<SavedLoc> {
    if id != 0 && id in locs then Some(locs[id]) else None
  }

  /** How one unit becomes a row and a cache entry, given the cached location it read. */
  type RowStep = (OwnUnit, Option<SavedLoc>) -> (Row, SavedLoc)

  /** The step `loadTowList` applies to each unit. */
  function TowRowStep(page: Page, names: map<int, string>): RowStep {
    (u: OwnUnit, saved: Option<SavedLoc>) => (BuildRow(page, names, u, saved), SavedEntry(page, names, u, saved))
  }

  /**
   * The rows for `units` and the location cache after them, unit by unit: each
   * unit reads its cached location and then, when it has an id, overwrites it.
   */
  function Rows(step: RowStep, units: seq<OwnUnit>, locs: map<int, SavedLoc>): (seq<Row>, map<int, SavedLoc>)
  {
    if units == [] then ([], locs)
    else
      var (rows, locs') := Rows(step, units[..|units| - 1], locs);
      var u := units[|units| - 1];
      var out := step(u, Lookup(locs', u.id));
      (rows + [out.0], if u.id != 0 then locs'[u.id := out.1] else locs')
  }

  /** One row per unit, in order. */
  lemma {:induction false} RowsLength(step: RowStep, units: seq<OwnUnit>, locs: map<int, SavedLoc>)
    ensures |Rows(step, units, locs).0| == |units|
  {
    if units != [] {
      RowsLength(step, units[..|units| - 1], locs);
    }
  }

  /** Some unit of `units` has the non-zero id `id`. */
  predicate HasUnit(units: seq<OwnUnit>, id: int) {
    id != 0 && exists i :: 0 <= i < |units| && units[i].id == id
  }

  /** Entries for ids no unit carries are left as they were. */
  lemma {:induction false} RowsKeepOtherIds(step: RowStep, units: seq<OwnUnit>, locs: map<int, SavedLoc>, id: int)
    requires !HasUnit(units, id)
    ensures (id in Rows(step, units, locs).1 <==> id in locs)
    ensures id in locs ==> Rows(step, units, locs).1[id] == locs[id]
  {
    if units != [] {
      var init := units[..|units| - 1];
      assert forall k :: 0 <= k < |init| ==> init[k] == units[k];
      assert !HasUnit(init, id);
      RowsKeepOtherIds(step, init, locs, id);
      assert units[|units| - 1].id != id || id == 0;
    }
  }

  /** Every unit with an id has an entry afterwards. */
  lemma {:induction false} RowsRecordEveryId(step: RowStep, units: seq<OwnUnit>, locs: map<int, SavedLoc>, id: int)
    requires HasUnit(units, id)
    ensures id in Rows(step, units, locs).1
  {
    var init := units[..|units| - 1];
    if units[|units| - 1].id != id {
      var i :| 0 <= i < |units| && units[i].id == id;
      assert init[i].id == id;
      RowsRecordEveryId(step, init, locs, id);
    }
  }

  /** No two units share a non-zero id. */
  predicate DistinctIds(units: seq<OwnUnit>) {
    forall i, j :: 0 <= i < j < |units| && units[i].id != 0 ==> units[i].id != units[j].id
  }

  /**
   * With distinct ids, unit `i`'s row and cache entry depend only on the cache
   * as it was before the list: no unit sees another's write.
   */
  lemma {:induction false} RowsDistinct(step: RowStep, units: seq<OwnUnit>, locs: map<int, SavedLoc>, i: nat)
    requires DistinctIds(units) && i < |units|
    ensures |Rows(step, units, locs).0| == |units|
    ensures Rows(step, units, locs).0[i] == step(units[i], Lookup(locs, units[i].id)).0
    ensures units[i].id != 0 ==>
      (units[i].id in Rows(step, units, locs).1
       && Rows(step, units, locs).1[units[i].id] == step(units[i], Lookup(locs, units[i].id)).1)
  {
    var init := units[..|units| - 1];
    var last := |units| - 1;
    assert DistinctIds(init) by {
      forall a, b | 0 <= a < b < |init| && init[a].id != 0 ensures init[a].id != init[b].id {
        assert init[a] == units[a] && init[b] == units[b];
      }
    }
    RowsLength(step, units, locs);
    RowsLength(step, init, locs);
    var prior := Rows(step, init, locs).1;
    if i < last {
      assert init[i] == units[i];
      RowsDistinct(step, init, locs, i);
      assert units[i].id != 0 ==> units[last].id != units[i].id;
    } else {
      assert forall k :: 0 <= k < |init| ==> init[k] == units[k];
      assert !HasUnit(init, units[last].id);
      if units[last].id != 0 {
        RowsKeepOtherIds(step, init, locs, units[last].id);
      }
      assert Lookup(prior, units[last].id) == Lookup(locs, units[last].id);
    }
  }

  /** The same for the rows `loadTowList` builds: row and entry of a unit come from the old cache. */
  lemma TowRowsDistinct(page: Page, names: map<int, string>, units: seq<OwnUnit>, locs: map<int, SavedLoc>, i: nat)
    requires DistinctIds(units) && i < |units|
    ensures |Rows(TowRowStep(page, names), units, locs).0| == |units|
    ensures Rows(TowRowStep(page, names), units, locs).0[i] == BuildRow(page, names, units[i], Lookup(locs, units[i].id))
    ensures units[i].id != 0 ==>
      (units[i].id in Rows(TowRowStep(page, names), units, locs).1
       && Rows(TowRowStep(page, names), units, locs).1[units[i].id]
          == SavedEntry(page, names, units[i], Lookup(locs, units[i].id)))
  {
    var step := TowRowStep(page, names);
    RowsDistinct(step, units, locs, i);
    var saved := Lookup(locs, units[i].id);
    assert step(units[i], saved) == (BuildRow(page, names, units[i], saved), SavedEntry(page, names, units[i], saved));
  }

  /**
   * The district names kept by one fetch: each district stored under its id,
   * in order, so a later district with the same id wins.
   */
  function StoreNames(m: map<int, string>, ds: seq<District>): map<int, string>
  {
    if ds == [] then m
    else
      var d := ds[|ds| - 1];
      StoreNames(m, ds[..|ds| - 1])[d.districtId := d.districtName]
  }

  /** The district name cache after fetching the provinces `provs`; an absent response threw and is skipped. */
  function Filled(m: map<int, string>, provs: seq<int>, fetched: map<int, seq<District>>): map<int, string>
  {
    if provs == [] then m
    else
      var m' := Filled(m, provs[..|provs| - 1], fetched);
      var p := provs[|provs| - 1];
      if p in fetched then StoreNames(m', fetched[p]) else m'
  }

  /** `ds` lists a district with id `id`. */
  predicate Lists(ds: seq<District>, id: int) {
    exists i :: 0 <= i < |ds| && ds[i].districtId == id
  }

  /** A fetch leaves ids it does not list alone. */
  lemma {:induction false} StoreNamesKeeps(m: map<int, string>, ds: seq<District>, id: int)
    requires !Lists(ds, id)
    ensures (id in StoreNames(m, ds) <==> id in m)
    ensures id in m ==> StoreNames(m, ds)[id] == m[id]
  {
    if ds != [] {
      var init := ds[..|ds| - 1];
      assert !Lists(init, id);
      StoreNamesKeeps(m, init, id);
    }
  }

  /** A listed id ends up with the name of the last district listing it. */
  lemma {:induction false} StoreNamesLastWins(m: map<int, string>, ds: seq<District>, i: nat)
    requires i < |ds|
    requires forall j :: i < j < |ds| ==> ds[j].districtId != ds[i].districtId
    ensures ds[i].districtId in StoreNames(m, ds)
    ensures StoreNames(m, ds)[ds[i].districtId] == ds[i].districtName
  {
    var init := ds[..|ds| - 1];
    if i < |ds| - 1 {
      assert init[i] == ds[i];
      StoreNamesLastWins(m, init, i);
    }
  }

  /** Some province in `provs` whose fetch answered lists a district with id `id`. */
  predicate Fetched(provs: seq<int>, fetched: map<int, seq<District>>, id: int) {
    exists k :: 0 <= k < |provs| && provs[k] in fetched && Lists(fetched[provs[k]], id)
  }

  /** The fill loop writes only district ids some answered fetch lists. */
  lemma {:induction false} FilledKeeps(m: map<int, string>, provs: seq<int>, fetched: map<int, seq<District>>, id: int)
    requires !Fetched(provs, fetched, id)
    ensures (id in Filled(m, provs, fetched) <==> id in m)
    ensures id in m ==> Filled(m, provs, fetched)[id] == m[id]
  {
    if provs != [] {
      var init := provs[..|provs| - 1];
      assert !Fetched(init, fetched, id);
      FilledKeeps(m, init, fetched, id);
      var p := provs[|provs| - 1];
      if p in fetched {
        StoreNamesKeeps(Filled(m, init, fetched), fetched[p], id);
      }
    }
  }

  /** Every district an answered fetch lists has a cached name afterwards. */
  lemma {:induction false} FilledHasFetched(m: map<int, string>, provs: seq<int>, fetched: map<int, seq<District>>, id: int)
    requires Fetched(provs, fetched, id)
    ensures id in Filled(m, provs, fetched)
  {
    var init := provs[..|provs| - 1];
    var p := provs[|provs| - 1];
    var before := Filled(m, init, fetched);
    if p in fetched && Lists(fetched[p], id) {
      var ds := fetched[p];
      var i :| 0 <= i < |ds| && ds[i].districtId == id;
      var last := LastListing(ds, i);
      StoreNamesLastWins(before, ds, last);
    } else {
      var k :| 0 <= k < |provs| && provs[k] in fetched && Lists(fetched[provs[k]], id);
      assert init[k] == provs[k];
      FilledHasFetched(m, init, fetched, id);
      if p in fetched {
        StoreNamesKeeps(before, fetched[p], id);
      }
    }
  }

  /**
   * Which name the fill loop leaves: that of the last district listing the id
   * in the last answered fetch that lists it at all.
   */
  lemma {:induction false} FilledLastWins(m: map<int, string>, provs: seq<int>, fetched: map<int, seq<District>>,
                                          k: nat, i: nat)
    requires k < |provs| && provs[k] in fetched && i < |fetched[provs[k]]|
    requires forall j :: i < j < |fetched[provs[k]]| ==>
      fetched[provs[k]][j].districtId != fetched[provs[k]][i].districtId
    requires forall k' :: k < k' < |provs| ==>
      !(provs[k'] in fetched && Lists(fetched[provs[k']], fetched[provs[k]][i].districtId))
    ensures fetched[provs[k]][i].districtId in Filled(m, provs, fetched)
    ensures Filled(m, provs, fetched)[fetched[provs[k]][i].districtId] == fetched[provs[k]][i].districtName
  {
    var init := provs[..|provs| - 1];
    var p := provs[|provs| - 1];
    var before := Filled(m, init, fetched);
    var d := fetched[provs[k]][i];
    if k == |provs| - 1 {
      StoreNamesLastWins(before, fetched[p], i);
    } else {
      assert init[k] == provs[k];
      assert forall k' :: k < k' < |init| ==> init[k'] == provs[k'];
      FilledLastWins(m, init, fetched, k, i);
      if p in fetched {
        assert !Lists(fetched[p], d.districtId);
        StoreNamesKeeps(before, fetched[p], d.districtId);
      }
    }
  }

  /** The last position at or after `i` listing the same id as `ds[i]`. */
  lemma {:induction false} LastListing(ds: seq<District>, i: nat) returns (last: nat)
    requires i < |ds|
    ensures i <= last < |ds| && ds[last].districtId == ds[i].districtId
    ensures forall j :: last < j < |ds| ==> ds[j].districtId != ds[i].districtId
    decreases |ds| - i
  {
    var later := i + 1;
    while later < |ds| && ds[later].districtId != ds[i].districtId
      invariant i < later <= |ds|
      invariant forall j :: i < j < later ==> ds[j].districtId != ds[i].districtId
      decreases |ds| - later
    {
      later := later + 1;
    }
    if later == |ds| {
      last := i;
    } else {
      last := LastListing(ds, later);
    }
  }

  /**
   * A unit whose first area names a district by id but not by name, whose
   * district has no name in the cache, and whose area has a non-zero province.
   */
  predicate NeedsNames(u: OwnUnit, names: map<int, string>) {
    && u.firstArea.Some?
    && u.firstArea.value.districtId.Some?
    && u.firstArea.value.district == ""
    && (u.firstArea.value.districtId.value !in names || names[u.firstArea.value.districtId.value] == "")
    && u.firstArea.value.provinceId.Some? && u.firstArea.value.provinceId.value != 0
  }

  /** The provinces whose districts are fetched, in the order the `Set` first meets them. */
  function ToFetch(units: seq<OwnUnit>, names: map<int, string>): seq<int>
  {
    if units == [] then []
    else
      var rest := ToFetch(units[..|units| - 1], names);
      var u := units[|units| - 1];
      if NeedsNames(u, names) && u.firstArea.value.provinceId.value !in rest
      then rest + [u.firstArea.value.provinceId.value]
      else rest
  }

  /** A province is fetched exactly once, and exactly when some unit needs its districts. */
  lemma {:induction false} ToFetchExact(units: seq<OwnUnit>, names: map<int, string>)
    ensures forall a, b :: 0 <= a < b < |ToFetch(units, names)| ==> ToFetch(units, names)[a] != ToFetch(units, names)[b]
    ensures forall p :: p in ToFetch(units, names) <==>
      exists i :: 0 <= i < |units| && NeedsNames(units[i], names) && units[i].firstArea.value.provinceId.value == p
  {
    if units != [] {
      var init := units[..|units| - 1];
      ToFetchExact(init, names);
      forall p | exists i :: 0 <= i < |units| && NeedsNames(units[i], names) && units[i].firstArea.value.provinceId.value == p
        ensures p in ToFetch(units, names)
      {
        var i :| 0 <= i < |units| && NeedsNames(units[i], names) && units[i].firstArea.value.provinceId.value == p;
        if i < |init| {
          assert init[i] == units[i];
        }
      }
      forall p | p in ToFetch(units, names)
        ensures exists i :: 0 <= i < |units| && NeedsNames(units[i], names) && units[i].firstArea.value.provinceId.value == p
      {
        if p in ToFetch(init, names) {
          var i :| 0 <= i < |init| && NeedsNames(init[i], names) && init[i].firstArea.value.provinceId.value == p;
          assert units[i] == init[i];
        } else {
          assert NeedsNames(units[|units| - 1], names);
        }
      }
    }
  }

  /** The page's two caches. */
  class LocationCache {
    /** `districtNameCache`: district id to name. */
    var districtNames: map<int, string>
    /** `towLocCache`: unit id to its last known city and district. */
    var unitLocations: map<int, SavedLoc>

    constructor ()
      ensures districtNames == map[] && unitLocations == map[]
    {
      districtNames := map[];
      unitLocations := map[];
    }

    /** The `provincesToFetch` pass over the units. */
    method CollectProvincesToFetch(units: seq<OwnUnit>) returns (provs: seq<int>)
      ensures provs == ToFetch(units, districtNames)
    {
      provs := [];
      for i := 0 to |units|
        invariant provs == ToFetch(units[..i], districtNames)
      {
        assert units[..i + 1][..i] == units[..i];
        var area := units[i].firstArea;
        if area.Some? && area.value.districtId.Some? && area.value.district == ""
          && (area.value.districtId.value !in districtNames || districtNames[area.value.districtId.value] == "")
          && area.value.provinceId.Some? && area.value.provinceId.value != 0
        {
          var p := area.value.provinceId.value;
          if p !in provs {
            provs := provs + [p];
          }
        }
      }
      assert units[..|units|] == units;
    }

    /** Store one fetch's districts under their ids. */
    method StoreDistricts(ds: seq<District>)
      modifies this
      ensures districtNames == StoreNames(old(districtNames), ds)
      ensures unitLocations == old(unitLocations)
    {
      ghost var start := districtNames;
      for j := 0 to |ds|
        invariant districtNames == StoreNames(start, ds[..j])
        invariant unitLocations == old(unitLocations)
      {
        assert ds[..j + 1][..j] == ds[..j];
        districtNames := districtNames[ds[j].districtId := ds[j].districtName];
      }
      assert ds[..|ds|] == ds;
    }

    /**
     * The fill loop: fetch each province's districts in turn, skipping a fetch
     * that throws (an id absent from `fetched`).
     */
    method FillDistrictNames(provs: seq<int>, fetched: map<int, seq<District>>)
      modifies this
      ensures districtNames == Filled(old(districtNames), provs, fetched)
      ensures unitLocations == old(unitLocations)
    {
      ghost var start := districtNames;
      for k := 0 to |provs|
        invariant districtNames == Filled(start, provs[..k], fetched)
        invariant unitLocations == old(unitLocations)
      {
        assert provs[..k + 1][..k] == provs[..k];
        if provs[k] in fetched {
          StoreDistricts(fetched[provs[k]]);
        }
      }
      assert provs[..|provs|] == provs;
    }

    /** The `map` over the units that builds the rows and writes each unit's location. */
    method BuildRows(page: Page, units: seq<OwnUnit>) returns (rows: seq<Row>)
      modifies this
      ensures (rows, unitLocations) == Rows(TowRowStep(page, districtNames), units, old(unitLocations))
      ensures districtNames == old(districtNames)
    {
      ghost var start := unitLocations;
      rows := [];
      for i := 0 to |units|
        invariant (rows, unitLocations) == Rows(TowRowStep(page, districtNames), units[..i], start)
        invariant districtNames == old(districtNames)
      {
        assert units[..i + 1][..i] == units[..i];
        var u := units[i];
        var saved := if u.id != 0 && u.id in unitLocations then Some(unitLocations[u.id]) else None;
        var out := TowRowStep(page, districtNames)(u, saved);
        rows := rows + [out.0];
        if u.id != 0 {
          unitLocations := unitLocations[u.id := out.1];
        }
      }
      assert units[..|units|] == units;
    }

    /**
     * `loadTowList`: nothing without a token or when listing the units throws;
     * otherwise fetch the missing district names, then build the rows.
     */
    method LoadTowList(page: Page, token: string, listed: Reply<OwnUnit>, fetched: map<int, seq<District>>)
      returns (rows: Option<seq<Row>>)
      modifies this
      ensures token == "" || listed.Threw? ==>
        rows.None? && districtNames == old(districtNames) && unitLocations == old(unitLocations)
      ensures token != "" && listed.Returned? ==>
        var units := if listed.body.Some? then listed.body.value else [];
        && districtNames == Filled(old(districtNames), ToFetch(units, old(districtNames)), fetched)
        && rows.Some?
        && (rows.value, unitLocations) == Rows(TowRowStep(page, districtNames), units, old(unitLocations))
    {
      if token == "" || listed.Threw? {
        return None;
      }
      var units := if listed.body.Some? then listed.body.value else [];
      var provs := CollectProvincesToFetch(units);
      FillDistrictNames(provs, fetched);
      var built := BuildRows(page, units);
      rows := Some(built);
    }

    /** `handleTowSave`: a saved new unit with an id is cached at the selected names. */
    method RecordAddedUnit(page: Page, newId: int)
      modifies this
      ensures newId != 0 ==>
        unitLocations == old(unitLocations)[newId := SavedLoc(SelectedProvince(page), SelectedDistrict(page))]
      ensures newId == 0 ==> unitLocations == old(unitLocations)
      ensures districtNames == old(districtNames)
    {
      if newId != 0 {
        unitLocations := unitLocations[newId := SavedLoc(SelectedProvince(page), SelectedDistrict(page))];
      }
    }

    /**
     * `handleTowEditSave`: an updated unit with an id is cached at the area the
     * server returned, else at the names the dialog worked out from the chosen
     * province and district, else at the row's old names.
     */
    method RecordEditedUnit(updatedId: int, area: Option<Area>, provinces: seq<Province>, chosenProvince: Option<int>,
                            loaded: seq<District>, chosenDistrict: Option<int>, current: Row)
      modifies this
      ensures updatedId != 0 ==> unitLocations == old(unitLocations)[updatedId := EditedEntry(area,
        EditProvinceName(provinces, chosenProvince, current),
        EditDistrictName(loaded, chosenDistrict, old(districtNames), current), current)]
      ensures updatedId == 0 ==> unitLocations == old(unitLocations)
      ensures districtNames == old(districtNames)
    {
      var provinceName := EditProvinceName(provinces, chosenProvince, current);
      var districtName := EditDistrictName(loaded, chosenDistrict, districtNames, current);
      if updatedId != 0 {
        unitLocations := unitLocations[updatedId := EditedEntry(area, provinceName, districtName, current)];
      }
    }
  }

  /** The location the edit dialog caches. */
  function EditedEntry(area: Option<Area>, provinceName: string, districtName: string, current: Row): (e: SavedLoc)
    ensures AreaCity(area) != "" ==> e.city == AreaCity(area)
    ensures AreaCity(area) == "" && provinceName != "" ==> e.city == provinceName
    ensures AreaCity(area) == "" && provinceName == "" ==> e.city == current.areaCity
    ensures AreaDistrict(area) != "" ==> e.district == AreaDistrict(area)
    ensures AreaDistrict(area) == "" && districtName != "" ==> e.district == districtName
    ensures AreaDistrict(area) == "" && districtName == "" ==> e.district == current.areaDistrict
  {
    var cities := [AreaCity(area), provinceName, current.areaCity];
    var districts := [AreaDistrict(area), districtName, current.areaDistrict];
    assert cities[0] == AreaCity(area) && cities[1] == provinceName && cities[2] == current.areaCity;
    assert districts[0] == AreaDistrict(area) && districts[1] == districtName && districts[2] == current.areaDistrict;
    SavedLoc(FirstNonEmpty(cities), FirstNonEmpty(districts))
  }

  /** The edit dialog's province name: the chosen catalog province's, else the row's old city. */
  function EditProvinceName(provinces: seq<Province>, chosen: Option<int>, current: Row): (r: string)
    ensures ProvinceNameOf(provinces, chosen) != "" ==> r == ProvinceNameOf(provinces, chosen)
    ensures ProvinceNameOf(provinces, chosen) == "" ==> r == current.areaCity
  {
    var xs := [ProvinceNameOf(provinces, chosen), current.areaCity];
    assert xs[0] == ProvinceNameOf(provinces, chosen) && xs[1] == current.areaCity;
    FirstNonEmpty(xs)
  }

  /**
   * The edit dialog's district name: the chosen district's among those loaded,
   * then the district name cache, then the row's old district, then `İlce #<id>`.
   */
  function EditDistrictName(loaded: seq<District>, chosen: Option<int>, names: map<int, string>, current: Row): (r: string)
    ensures chosen.Some? && DistrictNameOf(loaded, chosen.value) != "" ==> r == DistrictNameOf(loaded, chosen.value)
    ensures (chosen.Some? && DistrictNameOf(loaded, chosen.value) == ""
       && chosen.value in names && names[chosen.value] != "") ==> r == names[chosen.value]
    ensures ((chosen.None? || (DistrictNameOf(loaded, chosen.value) == ""
       && (chosen.value !in names || names[chosen.value] == ""))) && current.areaDistrict != "") ==> r == current.areaDistrict
    ensures ((chosen.None? || (DistrictNameOf(loaded, chosen.value) == ""
       && (chosen.value !in names || names[chosen.value] == ""))) && current.areaDistrict == "") ==>
      r == Placeholder(DistrictPrefix, current.areaDistrictId)
  {
    var fromLoaded := if chosen.Some? then DistrictNameOf(loaded, chosen.value) else "";
    var fromCache := if chosen.Some? && chosen.value in names then names[chosen.value] else "";
    var xs := [fromLoaded, fromCache, current.areaDistrict, Placeholder(DistrictPrefix, current.areaDistrictId)];
    assert xs[0] == fromLoaded && xs[1] == fromCache;
    assert xs[2] == current.areaDistrict && xs[3] == Placeholder(DistrictPrefix, current.areaDistrictId);
    FirstNonEmpty(xs)
  }

  /** A province the city list names gets the catalog's name, whatever the caches hold. */
  lemma CatalogNameWins(cities: seq<City>, page: Page, area: Area, saved: Option<SavedLoc>, id: int)
    requires page.provinces == Provinces(cities)
    requires area.provinceId == Some(id)
    requires exists i :: 0 <= i < |cities| && Claims(cities[i], id)
    ensures ProvinceLabel(page, Some(area), saved) == ProvinceNameOf(page.provinces, Some(id))
  {
    ProvinceNameOfCatalog(cities, id);
  }

  /** A unit with no area and no cached location is labelled with the selected names. */
  lemma NoAreaUsesSelection(page: Page, names: map<int, string>, u: OwnUnit, locs: map<int, SavedLoc>)
    requires u.firstArea.None?
    requires Lookup(locs, u.id).None?
    ensures ProvinceLabel(page, u.firstArea, Lookup(locs, u.id)) == SelectedProvince(page)
    ensures DistrictLabel(page, names, u.firstArea, Lookup(locs, u.id)) == SelectedDistrict(page)
  {
  }
}
