/**
 * The field selection `reverseGeocode` applies to the address object of an
 * OpenStreetMap Nominatim reverse-geocoding reply. The HTTP exchange itself is
 * reduced to its outcome: a rejected `fetch`, a reply that is not `ok`, a body
 * that is not JSON, or the decoded body.
 */
module Geocode {
  import opened Common

  /** The address fields the selection reads; an absent field is "". */
  datatype Address = Address(
    state: string, province: string, region: string, stateDistrict: string,
    town: string, city: string, county: string, suburb: string,
    village: string, municipality: string)

  /**
   * What the HTTP exchange produced: `fetch` rejected, a non-`ok` status, an
   * `ok` reply whose body `res.json()` cannot decode, or a decoded body with or
   * without `address` (a `null` body has none).
   */
  datatype Reply = Rejected | NotOk | NotJson | Ok(address: Option<Address>)

  /** `reverseGeocode`'s outcome: it throws, or it returns two guessed names. */
  datatype Outcome = GeocodeFailed | Located(provinceName: string, districtName: string)

  const NoAddress := Address("", "", "", "", "", "", "", "", "", "")

  /** The province guess: `state`, then `province`, then `region`, then `state_district`. */
  function ProvinceGuess(a: Address): (r: string)
    ensures a.state != "" ==> r == a.state
    ensures a.state == "" && a.province != "" ==> r == a.province
    ensures a.state == "" && a.province == "" && a.region != "" ==> r == a.region
    ensures a.state == "" && a.province == "" && a.region == "" ==> r == a.stateDistrict
  {
    var xs := [a.state, a.province, a.region, a.stateDistrict];
    assert xs[0] == a.state && xs[1] == a.province && xs[2] == a.region && xs[3] == a.stateDistrict;
    FirstNonEmpty(xs)
  }

  /**
   * The district guess: `town`, then `city`, `county`, `suburb`, `village`,
   * and `municipality` last.
   */
  function DistrictGuess(a: Address): (r: string)
    ensures a.town != "" ==> r == a.town
    ensures a.town == "" && a.city != "" ==> r == a.city
    ensures a.town == "" && a.city == "" && a.county != "" ==> r == a.county
    ensures a.town == "" && a.city == "" && a.county == "" && a.suburb != "" ==> r == a.suburb
    ensures a.town == "" && a.city == "" && a.county == "" && a.suburb == "" && a.village != "" ==> r == a.village
    ensures a.town == "" && a.city == "" && a.county == "" && a.suburb == "" && a.village == "" ==> r == a.municipality
  {
    var xs := [a.town, a.city, a.county, a.suburb, a.village, a.municipality];
    assert xs[0] == a.town && xs[1] == a.city && xs[2] == a.county;
    assert xs[3] == a.suburb && xs[4] == a.village && xs[5] == a.municipality;
    FirstNonEmpty(xs)
  }

  /**
   * `reverseGeocode`: it throws when `fetch` rejects, when the status is not
   * `ok` and when the body is not JSON; a body without an address guesses nothing.
   */
  function ReverseGeocode(reply: Reply): (r: Outcome)
    ensures r.GeocodeFailed? <==> !reply.Ok?
    ensures reply.Ok? && reply.address.None? ==> r == Located("", "")
    ensures reply.Ok? && reply.address.Some? ==>
      r == Located(ProvinceGuess(reply.address.value), DistrictGuess(reply.address.value))
  {
    match reply
    case Rejected => GeocodeFailed
    case NotOk => GeocodeFailed
    case NotJson => GeocodeFailed
    case Ok(address) =>
      var a := if address.Some? then address.value else NoAddress;
      Located(ProvinceGuess(a), DistrictGuess(a))
  }

  /** A guess is always one of the fields it reads, and "" only when all of them are. */
  lemma GuessesComeFromFields(a: Address)
    ensures ProvinceGuess(a) in {a.state, a.province, a.region, a.stateDistrict}
    ensures DistrictGuess(a) in {a.town, a.city, a.county, a.suburb, a.village, a.municipality}
    ensures ProvinceGuess(a) == "" <==> a.state == "" && a.province == "" && a.region == "" && a.stateDistrict == ""
    ensures DistrictGuess(a) == "" <==>
      a.town == "" && a.city == "" && a.county == "" && a.suburb == "" && a.village == "" && a.municipality == ""
  {
  }
}
