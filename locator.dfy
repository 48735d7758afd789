/**
 * The nearest-provider search of the home page: the units the rich
 * `/api/location/nearest` endpoint returns are filtered by the selected
 * province and district and turned into company cards (`processTowTrucks`),
 * with the older `/api/Companies/nearest` endpoint as the fallback when the
 * rich one throws (`loadCompanies`). Both endpoints are given as their results.
 */
module Locator {
  import opened Common
  import opened Format

  /** An operating area of a unit; an absent id is `None`, an absent name "". */
  datatype Area = Area(provinceId: Option<int>, districtId: Option<int>, city: string, district: string)

  /** The `{}` that stands in when a unit has no area at all. */
  const EmptyArea := Area(None, None, "", "")

  /**
   * A unit as the rich endpoint reports it. An absent or zero `id` is 0 (both
   * are falsy to the page); absent strings are "".
   */
  datatype TowUnit = TowUnit(
    id: int, isActive: bool, operatingAreas: seq<Area>,
    driverName: string, licensePlate: string,
    companyPhone: string, companyEmail: string,
    companyServiceCity: string, companyAddress: string,
    driverPhotoUrl: string)

  /**
   * A company card. `id` is `None` where the page falls back to the clock;
   * `city`, `district`, `serviceCity` and `fullAddress` are "" where the page
   * leaves them undefined.
   */
  datatype Company = Company(
    id: Option<int>, companyName: string, phoneNumber: string, email: string,
    city: string, district: string, serviceCity: string, fullAddress: string,
    licensePlate: Option<string>, driverPhotoUrl: Option<string>)

  /** The selected province and district; `None` is an empty selection. */
  datatype Selection = Selection(provinceId: Option<int>, districtId: Option<int>)

  /** The query both endpoints receive. */
  datatype Query = Query(provinceId: Option<int>, districtId: Option<int>, limit: nat)

  /** How an endpoint call ended: it threw, or it returned a list or `null`. */
  datatype Reply<T> = Threw | Returned(body: Option<seq<T>>)

  /** What `loadCompanies` shows, and the query it sent to each endpoint (`None`: not asked). */
  datatype Search = Search(companies: seq<Company>, richQuery: Option<Query>, legacyQuery: Option<Query>)

  predicate NoSelection(f: Selection) {
    f.provinceId.None? && f.districtId.None?
  }

  /** An area serves the selection: its province and district agree wherever one is selected. */
  predicate AreaMatches(f: Selection, a: Area) {
    && (f.provinceId.None? || a.provinceId == f.provinceId)
    && (f.districtId.None? || a.districtId == f.districtId)
  }

  /** `processTowTrucks` keeps an active unit that, under a selection, has a matching area. */
  predicate Kept(f: Selection, u: TowUnit) {
    u.isActive && (NoSelection(f) || exists k :: 0 <= k < |u.operatingAreas| && AreaMatches(f, u.operatingAreas[k]))
  }

  /** The area shown on the card: the first matching one, else the first one, else `{}`. */
  function DisplayArea(f: Selection, areas: seq<Area>): (a: Area)
    ensures (exists k :: 0 <= k < |areas| && AreaMatches(f, areas[k])) ==>
      exists k :: 0 <= k < |areas| && a == areas[k] && AreaMatches(f, a)
        && forall j :: 0 <= j < k ==> !AreaMatches(f, areas[j])
    ensures (forall k :: 0 <= k < |areas| ==> !AreaMatches(f, areas[k])) ==>
      a == if areas == [] then EmptyArea else areas[0]
  {
    match FirstIndex(areas, (x: Area) => AreaMatches(f, x))
      case Some(k) => areas[k]
      case None => if areas == [] then EmptyArea else areas[0]
  }

  /** The card built for a kept unit. */
  function ToCompany(f: Selection, u: TowUnit, base: string): (c: Company)
    ensures u.driverName != "" ==> c.companyName == u.driverName
    ensures u.driverName == "" && u.licensePlate != "" ==> c.companyName == u.licensePlate
    ensures u.driverName == "" && u.licensePlate == "" ==> c.companyName == "Çekici"
    ensures c.id.Some? <==> u.id != 0
    ensures c.city == DisplayArea(f, u.operatingAreas).city
    ensures c.district == DisplayArea(f, u.operatingAreas).district
    ensures c.licensePlate.None? <==> u.licensePlate == ""
    ensures c.driverPhotoUrl == PhotoUrl(base, u.driverPhotoUrl)
  {
    var area := DisplayArea(f, u.operatingAreas);
    var names := [u.driverName, u.licensePlate, "Çekici"];
    assert names[0] == u.driverName && names[1] == u.licensePlate && names[2] == "Çekici";
    Company(
      if u.id != 0 then Some(u.id) else None,
      FirstNonEmpty(names),
      u.companyPhone, u.companyEmail, area.city, area.district,
      u.companyServiceCity, u.companyAddress,
      if u.licensePlate != "" then Some(u.licensePlate) else None,
      PhotoUrl(base, u.driverPhotoUrl))
  }

  /** The cards `processTowTrucks` pushes for `units`, unit by unit. */
  function Processed(f: Selection, units: seq<TowUnit>, base: string): seq<Company>
  {
    if units == [] then []
    else
      var rest := Processed(f, units[..|units| - 1], base);
      var u := units[|units| - 1];
      if Kept(f, u) then rest + [ToCompany(f, u, base)] else rest
  }

  /** `processTowTrucks`: skip the inactive and the non-matching units, push a card for the rest. */
  method ProcessTowTrucks(f: Selection, units: seq<TowUnit>, base: string) returns (companies: seq<Company>)
    ensures companies == Processed(f, units, base)
  {
    companies := [];
    for i := 0 to |units|
      invariant companies == Processed(f, units[..i], base)
    {
      var u := units[i];
      assert units[..i + 1][..i] == units[..i];
      if !u.isActive {
        continue;
      }
      var matchesArea := true;
      if !NoSelection(f) {
        matchesArea := exists k :: 0 <= k < |u.operatingAreas| && AreaMatches(f, u.operatingAreas[k]);
      }
      if !matchesArea {
        continue;
      }
      companies := companies + [ToCompany(f, u, base)];
    }
    assert units[..|units|] == units;
  }

  /**
   * The cards are the kept units, in input order: card `k` is built from unit
   * `idx[k]`, those indices increase, and every kept unit has a card.
   */
  lemma {:induction false} ProcessedSelects(f: Selection, units: seq<TowUnit>, base: string) returns (idx: seq<nat>)
    ensures |idx| == |Processed(f, units, base)|
    ensures forall k :: 0 <= k < |idx| ==> idx[k] < |units| && Kept(f, units[idx[k]])
    ensures forall k :: 0 <= k < |idx| ==> Processed(f, units, base)[k] == ToCompany(f, units[idx[k]], base)
    ensures forall j, k :: 0 <= j < k < |idx| ==> idx[j] < idx[k]
    ensures forall i :: 0 <= i < |units| && Kept(f, units[i]) ==> i in idx
  {
    if units == [] {
      idx := [];
    } else {
      var init := units[..|units| - 1];
      var idx0 := ProcessedSelects(f, init, base);
      assert units == init + [units[|units| - 1]];
      idx := SelectsAppend(f, init, units[|units| - 1], base, idx0);
    }
  }

  /** One more unit: its card, when it is kept, comes last. */
  lemma SelectsAppend(f: Selection, init: seq<TowUnit>, u: TowUnit, base: string, idx0: seq<nat>) returns (idx: seq<nat>)
    requires |idx0| == |Processed(f, init, base)|
    requires forall k :: 0 <= k < |idx0| ==> idx0[k] < |init| && Kept(f, init[idx0[k]])
    requires forall k :: 0 <= k < |idx0| ==> Processed(f, init, base)[k] == ToCompany(f, init[idx0[k]], base)
    requires forall j, k :: 0 <= j < k < |idx0| ==> idx0[j] < idx0[k]
    requires forall i :: 0 <= i < |init| && Kept(f, init[i]) ==> i in idx0
    ensures |idx| == |Processed(f, init + [u], base)|
    ensures forall k :: 0 <= k < |idx| ==> idx[k] < |init + [u]| && Kept(f, (init + [u])[idx[k]])
    ensures forall k :: 0 <= k < |idx| ==> Processed(f, init + [u], base)[k] == ToCompany(f, (init + [u])[idx[k]], base)
    ensures forall j, k :: 0 <= j < k < |idx| ==> idx[j] < idx[k]
    ensures forall i :: 0 <= i < |init + [u]| && Kept(f, (init + [u])[i]) ==> i in idx
  {
    var units := init + [u];
    assert units[..|init|] == init;
    assert forall i :: 0 <= i < |init| ==> units[i] == init[i];
    if Kept(f, u) {
      idx := idx0 + [|init|];
    } else {
      idx := idx0;
    }
  }

  /** There are never more cards than units. */
  lemma {:induction false} ProcessedLength(f: Selection, units: seq<TowUnit>, base: string)
    ensures |Processed(f, units, base)| <= |units|
  {
    if units != [] {
      ProcessedLength(f, units[..|units| - 1], base);
    }
  }

  /** The query sent to both endpoints: the selection only when there are no coordinates. */
  function NearestQuery(f: Selection, hasCoords: bool): Query
  {
    if hasCoords then Query(None, None, 20) else Query(f.provinceId, f.districtId, 20)
  }

  /**
   * `loadCompanies`: nothing to search without a selection and coordinates; the
   * rich endpoint's units processed when it returns some; no cards when it
   * returns none; the legacy list as it is when the rich endpoint throws; and
   * no cards when the legacy endpoint throws too. Photo paths are resolved
   * against `ApiBase(env)`, `env` being `NEXT_PUBLIC_API_BASE` ("" when unset).
   */
  method LoadCompanies(f: Selection, hasCoords: bool, rich: Reply<TowUnit>, legacy: Reply<Company>, env: string)
    returns (s: Search)
    ensures NoSelection(f) && !hasCoords ==> s == Search([], None, None)
    ensures !(NoSelection(f) && !hasCoords) ==> s.richQuery.Some?
    ensures s.richQuery.Some? ==> s.richQuery.value.limit == 20
    ensures s.richQuery.Some? && hasCoords ==> s.richQuery.value.provinceId.None? && s.richQuery.value.districtId.None?
    ensures s.richQuery.Some? && !hasCoords ==>
      s.richQuery.value.provinceId == f.provinceId && s.richQuery.value.districtId == f.districtId
    ensures s.legacyQuery.Some? <==> !(NoSelection(f) && !hasCoords) && rich.Threw?
    ensures s.legacyQuery.Some? ==> s.legacyQuery == s.richQuery
    ensures s.richQuery.Some? && rich.Returned? && (rich.body.None? || rich.body.value == []) ==> s.companies == []
    ensures s.richQuery.Some? && rich.Returned? && rich.body.Some? ==> s.companies == Processed(f, rich.body.value, ApiBase(env))
    ensures s.legacyQuery.Some? && legacy.Returned? && legacy.body.Some? ==> s.companies == legacy.body.value
    ensures s.legacyQuery.Some? && (legacy.Threw? || legacy.body.None?) ==> s.companies == []
  {
    if NoSelection(f) && !hasCoords {
      return Search([], None, None);
    }
    var q := NearestQuery(f, hasCoords);
    if rich.Returned? {
      if rich.body.Some? && |rich.body.value| > 0 {
        var companies := ProcessTowTrucks(f, rich.body.value, ApiBase(env));
        return Search(companies, Some(q), None);
      }
      return Search([], Some(q), None);
    }
    if legacy.Returned? && legacy.body.Some? {
      return Search(legacy.body.value, Some(q), Some(q));
    }
    return Search([], Some(q), Some(q));
  }

  /** With coordinates the client-side filter still applies: a unit without a matching area gets no card. */
  lemma FilterAppliesWithCoordinates(f: Selection, units: seq<TowUnit>, base: string, i: nat)
    requires i < |units| && !NoSelection(f)
    requires forall k :: 0 <= k < |units[i].operatingAreas| ==> !AreaMatches(f, units[i].operatingAreas[k])
    ensures forall k :: 0 <= k < |Processed(f, units, base)| ==>
      exists j :: 0 <= j < |units| && j != i && Processed(f, units, base)[k] == ToCompany(f, units[j], base)
  {
    var idx := ProcessedSelects(f, units, base);
    forall k | 0 <= k < |Processed(f, units, base)|
      ensures exists j :: 0 <= j < |units| && j != i && Processed(f, units, base)[k] == ToCompany(f, units[j], base)
    {
      assert Kept(f, units[idx[k]]);
      assert idx[k] != i;
    }
  }
}
