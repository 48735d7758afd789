/**
 * The province and district catalog: the flat city list the backend serves,
 * the province list `uniqueProvinces` derives from it, the name-to-id lookups
 * used after reverse geocoding, and the names of the current selection.
 */
module Catalog {
  import opened Common
  import opened Text

  /** One row of the city list; an absent `cityName` is "". */
  datatype City = City(provinceId: int, cityName: string)

  /** One entry of `uniqueProvinces`. */
  datatype Province = Province(id: int, name: string)

  /** One district of a province; an absent `districtName` is "". */
  datatype District = District(districtId: int, districtName: string)

  /** Some entry of `ps` carries the id `id`. */
  predicate HasId(ps: seq<Province>, id: int) {
    exists k :: 0 <= k < |ps| && ps[k].id == id
  }

  /** A row that may give its id a province entry: it has a non-empty name. */
  predicate Claims(c: City, id: int) {
    c.provinceId == id && c.cityName != ""
  }

  /**
   * The entries of `uniqueProvinces`, row by row: a row adds its id with its
   * name unless the id is already listed or the name is empty.
   */
  function Provinces(cities: seq<City>): seq<Province>
  {
    if cities == [] then []
    else
      var ps := Provinces(cities[..|cities| - 1]);
      var c := cities[|cities| - 1];
      if !HasId(ps, c.provinceId) && c.cityName != "" then ps + [Province(c.provinceId, c.cityName)]
      else ps
  }

  /**
   * The `Map` of `uniqueProvinces` as a key order plus a key-to-name map:
   * `order` lists the keys in insertion order, the way `map.entries()` yields them.
   */
  ghost predicate Tracks(order: seq<int>, names: map<int, string>, ps: seq<Province>) {
    && |order| == |ps|
    && (forall k :: 0 <= k < |order| ==> order[k] in names && order[k] == ps[k].id && names[order[k]] == ps[k].name)
    && (forall id :: id in names <==> HasId(ps, id))
  }

  lemma HasIdSnoc(ps: seq<Province>, p: Province)
    ensures forall id :: HasId(ps + [p], id) <==> HasId(ps, id) || p.id == id
  {
    forall id | HasId(ps + [p], id) ensures HasId(ps, id) || p.id == id {
      var k :| 0 <= k < |ps + [p]| && (ps + [p])[k].id == id;
      if k < |ps| { assert ps[k] == (ps + [p])[k]; }
    }
    forall id | HasId(ps, id) ensures HasId(ps + [p], id) {
      var k :| 0 <= k < |ps| && ps[k].id == id;
      assert (ps + [p])[k] == ps[k];
    }
    assert (ps + [p])[|ps|] == p;
  }

  /** `uniqueProvinces`: one pass over the rows filling a map, then its entries in order. */
  method UniqueProvinces(cities: seq<City>) returns (ps: seq<Province>)
    ensures ps == Provinces(cities)
  {
    var names: map<int, string> := map[];
    var order: seq<int> := [];
    for i := 0 to |cities|
      invariant Tracks(order, names, Provinces(cities[..i]))
    {
      var c := cities[i];
      assert cities[..i + 1][..i] == cities[..i];
      HasIdSnoc(Provinces(cities[..i]), Province(c.provinceId, c.cityName));
      if c.provinceId !in names && c.cityName != "" {
        names := names[c.provinceId := c.cityName];
        order := order + [c.provinceId];
      }
    }
    assert cities[..|cities|] == cities;
    ps := [];
    for k := 0 to |order|
      invariant |ps| == k
      invariant forall j :: 0 <= j < k ==> ps[j] == Province(order[j], names[order[j]])
    {
      ps := ps + [Province(order[k], names[order[k]])];
    }
  }

  /** Every entry has a name, and no id is listed twice. */
  lemma {:induction false} ProvincesWellFormed(cities: seq<City>)
    ensures forall k :: 0 <= k < |Provinces(cities)| ==> Provinces(cities)[k].name != ""
    ensures forall j, k :: 0 <= j < k < |Provinces(cities)| ==> Provinces(cities)[j].id != Provinces(cities)[k].id
  {
    if cities != [] {
      ProvincesWellFormed(cities[..|cities| - 1]);
    }
  }

  /** An id is listed exactly when some row with a non-empty name carries it. */
  lemma {:induction false} ProvincesComplete(cities: seq<City>, id: int)
    ensures HasId(Provinces(cities), id) <==> exists i :: 0 <= i < |cities| && Claims(cities[i], id)
  {
    if cities != [] {
      var init := cities[..|cities| - 1];
      ProvincesComplete(init, id);
      var ps := Provinces(cities);
      if HasId(ps, id) && !HasId(Provinces(init), id) {
        assert Claims(cities[|cities| - 1], id);
      }
      if exists i :: 0 <= i < |cities| && Claims(cities[i], id) {
        var i :| 0 <= i < |cities| && Claims(cities[i], id);
        if i < |init| {
          assert Claims(init[i], id);
          var k :| 0 <= k < |Provinces(init)| && Provinces(init)[k].id == id;
          assert ps[k].id == id;
        } else if !HasId(Provinces(init), id) {
          assert ps[|ps| - 1].id == id;
        } else {
          var k :| 0 <= k < |Provinces(init)| && Provinces(init)[k].id == id;
          assert ps[k].id == id;
        }
      }
    }
  }

  /**
   * Entry `k` comes from row `ks[k]`, the first row that claims its id, and the
   * entries appear in the order of those rows.
   */
  lemma {:induction false} ProvincesFirstClaim(cities: seq<City>) returns (ks: seq<nat>)
    ensures |ks| == |Provinces(cities)|
    ensures forall k :: 0 <= k < |ks| ==> ks[k] < |cities|
    ensures forall j, k :: 0 <= j < k < |ks| ==> ks[j] < ks[k]
    ensures forall k :: 0 <= k < |ks| ==>
      cities[ks[k]] == City(Provinces(cities)[k].id, Provinces(cities)[k].name)
    ensures forall k, i :: 0 <= k < |ks| && 0 <= i < ks[k] ==> !Claims(cities[i], Provinces(cities)[k].id)
  {
    if cities == [] {
      ks := [];
    } else {
      var init := cities[..|cities| - 1];
      var last := cities[|cities| - 1];
      var ks0 := ProvincesFirstClaim(init);
      var ps0 := Provinces(init);
      if !HasId(ps0, last.provinceId) && last.cityName != "" {
        ks := ks0 + [|cities| - 1];
        ProvincesComplete(init, last.provinceId);
        forall i | 0 <= i < |cities| - 1 ensures !Claims(cities[i], last.provinceId) {
          assert cities[i] == init[i];
        }
      } else {
        ks := ks0;
      }
      forall k, i | 0 <= k < |ks0| && 0 <= i < ks[k] ensures !Claims(cities[i], Provinces(cities)[k].id) {
        assert cities[i] == init[i];
      }
    }
  }

  /** A province's normalized name equals `target`. */
  predicate ProvinceNamed(p: Province, target: string) {
    Normalize(Some(p.name)) == target
  }

  /** A district's normalized name equals `target`. */
  predicate DistrictNamed(d: District, target: string) {
    Normalize(Some(d.districtName)) == target
  }

  /**
   * `findProvinceId`: nothing for a name that normalizes to "", otherwise the id
   * of the first entry whose normalized name equals the normalized target.
   */
  function FindProvinceId(ps: seq<Province>, name: Option<string>): (r: Option<int>)
    ensures Normalize(name) == "" ==> r.None?
    ensures r.None? && Normalize(name) != "" ==>
      forall k :: 0 <= k < |ps| ==> !ProvinceNamed(ps[k], Normalize(name))
    ensures r.Some? ==> exists k :: (0 <= k < |ps| && ps[k].id == r.value
                                     && ProvinceNamed(ps[k], Normalize(name))
                                     && forall j :: 0 <= j < k ==> !ProvinceNamed(ps[j], Normalize(name)))
  {
    var target := Normalize(name);
    if target == "" then None
    else match FirstIndex(ps, (p: Province) => ProvinceNamed(p, target))
      case None => None
      case Some(k) => Some(ps[k].id)
  }

  /** `findDistrictId`, the same search over the districts of one province. */
  function FindDistrictId(ds: seq<District>, name: Option<string>): (r: Option<int>)
    ensures Normalize(name) == "" ==> r.None?
    ensures r.None? && Normalize(name) != "" ==>
      forall k :: 0 <= k < |ds| ==> !DistrictNamed(ds[k], Normalize(name))
    ensures r.Some? ==> exists k :: (0 <= k < |ds| && ds[k].districtId == r.value
                                     && DistrictNamed(ds[k], Normalize(name))
                                     && forall j :: 0 <= j < k ==> !DistrictNamed(ds[j], Normalize(name)))
  {
    var target := Normalize(name);
    if target == "" then None
    else match FirstIndex(ds, (d: District) => DistrictNamed(d, target))
      case None => None
      case Some(k) => Some(ds[k].districtId)
  }

  /** Looking up an already normalized name finds the same province. */
  lemma FindProvinceIdNormalized(ps: seq<Province>, name: Option<string>)
    ensures FindProvinceId(ps, Some(Normalize(name))) == FindProvinceId(ps, name)
  {
    NormalizeIdempotent(name);
  }

  /** Looking up an already normalized name finds the same district. */
  lemma FindDistrictIdNormalized(ds: seq<District>, name: Option<string>)
    ensures FindDistrictId(ds, Some(Normalize(name))) == FindDistrictId(ds, name)
  {
    NormalizeIdempotent(name);
  }

  /** A province's own name finds it, or an earlier entry spelled the same way. */
  lemma FindProvinceIdOwnName(ps: seq<Province>, k: nat)
    requires k < |ps| && Normalize(Some(ps[k].name)) != ""
    ensures FindProvinceId(ps, Some(ps[k].name)).Some?
  {
    assert ProvinceNamed(ps[k], Normalize(Some(ps[k].name)));
  }

  /** With distinct normalized names, a province's own name finds exactly its id. */
  lemma FindProvinceIdExact(ps: seq<Province>, k: nat)
    requires k < |ps| && Normalize(Some(ps[k].name)) != ""
    requires forall j :: 0 <= j < |ps| && j != k ==> Normalize(Some(ps[j].name)) != Normalize(Some(ps[k].name))
    ensures FindProvinceId(ps, Some(ps[k].name)) == Some(ps[k].id)
  {
    FindProvinceIdOwnName(ps, k);
  }

  /** Two spellings with the same normal form find the same province. */
  lemma FindProvinceIdSameNormal(ps: seq<Province>, a: Option<string>, b: Option<string>)
    requires Normalize(a) == Normalize(b)
    ensures FindProvinceId(ps, a) == FindProvinceId(ps, b)
  {}

  /**
   * `selectedProvinceName`: the name of the first entry whose id is the selected
   * one, or "Ankara" when nothing is selected, nothing matches, or the name is empty.
   */
  function SelectedProvinceName(ps: seq<Province>, selected: Option<int>): (r: string)
    ensures r != ""
    ensures selected.None? ==> r == "Ankara"
    ensures selected.Some? ==>
      (forall k :: 0 <= k < |ps| ==> ps[k].id != selected.value) ==> r == "Ankara"
    ensures selected.Some? ==> forall k ::
      (0 <= k < |ps| && ps[k].id == selected.value && ps[k].name != ""
       && (forall j :: 0 <= j < k ==> ps[j].id != selected.value)) ==> r == ps[k].name
  {
    if selected.None? then "Ankara"
    else match FirstIndex(ps, (p: Province) => p.id == selected.value)
      case None => "Ankara"
      case Some(k) => if ps[k].name != "" then ps[k].name else "Ankara"
  }

  /**
   * `selectedDistrictName`: the name of the first district whose id is the
   * selected one, or "" when there is none.
   */
  function SelectedDistrictName(ds: seq<District>, selected: Option<int>): (r: string)
    ensures selected.None? ==> r == ""
    ensures selected.Some? ==>
      (forall k :: 0 <= k < |ds| ==> ds[k].districtId != selected.value) ==> r == ""
    ensures selected.Some? ==> forall k ::
      (0 <= k < |ds| && ds[k].districtId == selected.value
       && (forall j :: 0 <= j < k ==> ds[j].districtId != selected.value)) ==> r == ds[k].districtName
  {
    if selected.None? then ""
    else DistrictNameOf(ds, selected.value)
  }

  /** `ds.find(d => d.districtId === id)?.districtName || ""`. */
  function DistrictNameOf(ds: seq<District>, id: int): (r: string)
    ensures (forall k :: 0 <= k < |ds| ==> ds[k].districtId != id) ==> r == ""
    ensures forall k ::
      (0 <= k < |ds| && ds[k].districtId == id
       && (forall j :: 0 <= j < k ==> ds[j].districtId != id)) ==> r == ds[k].districtName
  {
    match FirstIndex(ds, (d: District) => d.districtId == id)
      case None => ""
      case Some(k) => ds[k].districtName
  }

  /** `uniqueProvinces.find(p => p.id === id)?.name`, "" when there is none. */
  function ProvinceNameOf(ps: seq<Province>, id: Option<int>): (r: string)
    ensures id.None? ==> r == ""
    ensures id.Some? && !HasId(ps, id.value) ==> r == ""
    ensures id.Some? ==> forall k ::
      (0 <= k < |ps| && ps[k].id == id.value
       && (forall j :: 0 <= j < k ==> ps[j].id != id.value)) ==> r == ps[k].name
  {
    if id.None? then ""
    else match FirstIndex(ps, (p: Province) => p.id == id.value)
      case None => ""
      case Some(k) => ps[k].name
  }

  /** On the derived province list, a catalog id's name is its first row's name. */
  lemma ProvinceNameOfCatalog(cities: seq<City>, id: int)
    requires exists i :: 0 <= i < |cities| && Claims(cities[i], id)
    ensures ProvinceNameOf(Provinces(cities), Some(id)) != ""
  {
    ProvincesComplete(cities, id);
    ProvincesWellFormed(cities);
    var ps := Provinces(cities);
    var k :| 0 <= k < |ps| && ps[k].id == id;
  }
}
