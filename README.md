# Yoldan Çek home page: a verified model of its data logic

Yoldan Çek is a tow-truck marketplace. Its Next.js home page (`app/page.tsx`)
does four things worth modelling:

- It searches for tow units near the user. It asks a rich endpoint first and
  a legacy one when that throws. It filters the units by the selected
  province and district, then turns each kept unit into a company card.
- It builds the province list from the city catalog, keeping the first
  non-empty name per province id. It matches geocoded or typed names against
  that list and the district list after normalising them.
- A signed-in company owner sees a list of their own units. Each row gets
  location labels from a chain of fallbacks. Behind the list are two caches
  the page writes as it goes: district names fetched per province, and the
  last known city and district of each unit. The add and edit dialogs also
  write the second cache.
- It formats photo URLs, `tel:` links, Turkish licence plates and the user's
  initials.

The model is plain Dafny, one module per concern:

| file | module | models |
|---|---|---|
| `common.dfy` | `Common` | `Option`, first match, first non-empty string, filter, `filter(Boolean).join` |
| `text.dfy` | `Text` | whitespace and case, `normalizeText`, trimming, splitting, `String(n)` |
| `catalog.dfy` | `Catalog` | `uniqueProvinces`, `findProvinceId`/`findDistrictId`, the selected names |
| `geocode.dfy` | `Geocode` | the address-field choice of `reverseGeocode` |
| `locator.dfy` | `Locator` | `processTowTrucks`, and `loadCompanies` with its fallback |
| `format.dfy` | `Format` | photo URLs, the phone link, `formatLicensePlate`, `initials` |
| `fleet.dfy` | `Fleet` | `loadTowList`; the class `LocationCache` holding the two caches; the cache writes of `handleTowSave`/`handleTowEditSave` |

What is pure in the page is a Dafny function with lemmas. What the page does
by looping and mutating is a method, proved against a function that
specifies it:

- `Catalog.UniqueProvinces` fills a map and an order list, proved equal to
  `Catalog.Provinces`.
- `Locator.ProcessTowTrucks` is the `for … continue` loop, proved equal to
  `Locator.Processed`.
- `Fleet.LocationCache` holds the two caches as `map` fields. Its methods
  change them in place:
  - the provinces-to-fetch pass;
  - the fill loop;
  - the row `map` that writes each unit's location;
  - the two dialog writes.

  Each is proved against `Fleet.ToFetch`, `Fleet.Filled` or `Fleet.Rows` (the
  fold over the units).

Modelling conventions:

- An absent JavaScript string (`undefined`, `null`) is `""`, because every use
  in the page treats both as falsy through `||`.
- Optional numeric ids are `Option<int>`. An absent or zero unit id is `0`,
  which the page also treats as falsy.
- The `<select>` values `provinceId`/`districtId` are strings in the page; here
  they are `Option<int>`, with `None` for the empty selection. The page
  compares them as `String(id) === value`, modelled as id equality.
  `Text.IntToStringInjective` proves that `String` is injective on integers,
  so the two agree for every value the select can hold.
- Where the page calls the network, the model takes the outcome instead:
  - a `Reply` is "threw" or "returned a list or null";
  - the district fetches are a map from province id to the districts
    returned, and a province absent from it is a fetch that threw.

Where the design description and the code differ, the model follows the code:

- A unit row's province label is never empty. The last fallback,
  `selectedProvinceName`, itself falls back to `"Ankara"`
  (`Catalog.SelectedProvinceName`, `Fleet.ProvinceLabel`).
- `reverseGeocode` fails when `fetch` rejects, when the reply is not `ok` and
  when an `ok` body is not JSON. A decoded body with no address, or with none
  of the fields, gives two empty guesses, not an error.
- With coordinates the search query carries no province or district (`Locator.LoadCompanies`). The
  client-side area filter of `processTowTrucks` still applies to the returned
  units (`Locator.FilterAppliesWithCoordinates`).

## Model

| member | source | states |
|---|---|---|
| Common.FirstNonEmpty | app/page.tsx:685-692 | the result is "" exactly when every candidate is empty; otherwise it is the first non-empty candidate, every earlier one being empty |
| Common.JoinNonEmpty | app/page.tsx:707-712 | `filter(Boolean).join(sep)` is "" exactly when every part is empty |
| Common.JoinNonEmptyIsJoin | app/page.tsx:707-712 | `filter(Boolean).join(sep)` is the plain `join` of the non-empty parts: each kept part once, in order, with `sep` between neighbours |
| Common.Filter | app/page.tsx:1521 | a filter keeps only elements satisfying the predicate, is never longer, is the identity when all satisfy it and empty when none does |
| Common.FilterSelects | app/page.tsx:1521 | the kept elements are exactly the satisfying ones in their original order: element k is `xs[idx[k]]` for increasing indices, and every satisfying index is among them |
| Common.FilterConcat | app/page.tsx:1521 | filtering a concatenation is the concatenation of the filtered parts |
| Text.NormalizeShape | app/page.tsx:132-133 | `normalizeText` yields a lower-case string without leading or trailing whitespace, whose only whitespace is single blanks |
| Text.NormalizeIdempotent | app/page.tsx:132-133 | normalising a normalised string changes nothing |
| Text.Normalize | app/page.tsx:132-133 | an absent value normalises to "" |
| Text.NormalizeExample | app/page.tsx:132-133 | "Çankaya " and "ÇANKAYA" both normalise to "çankaya" under the Turkish lower-casing |
| Text.CollapseNoDoubleSpace | app/page.tsx:133 | replacing whitespace runs by one blank leaves no two adjacent whitespace characters |
| Text.CollapseOfCollapsed | app/page.tsx:133 | a string already made of single blanks is left as it is by the collapse |
| Text.LowerIdempotent | app/page.tsx:133 | the Turkish lower-casing of a character is a fixed point of itself |
| Text.JoinSplit | app/page.tsx:1224 | joining the parts `split(" ")` returns gives back the string |
| Text.SplitJoin | app/page.tsx:1224 | splitting parts joined by a separator they do not contain gives back the parts |
| Text.IntToStringInjective | app/page.tsx:346-349 | `String(a) == String(b)` only when `a == b`, so comparing selected ids as strings is comparing ids |
| Text.NatToStringRoundTrip | app/page.tsx:689-690 | the decimal digits of a natural number read back to that number |
| Catalog.UniqueProvinces | app/page.tsx:333-344 | the provinces the map-filling loop returns are exactly `Provinces(cities)` |
| Catalog.ProvincesWellFormed | app/page.tsx:333-344 | every province has a non-empty name and no id appears twice |
| Catalog.ProvincesComplete | app/page.tsx:335-338 | a province id is listed exactly when some row with a non-empty name carries it |
| Catalog.ProvincesFirstClaim | app/page.tsx:335-343 | entry k comes from a row at strictly increasing index, takes that row's name, and no earlier row claims its id: first name wins, first-occurrence order |
| Catalog.FindProvinceId | app/page.tsx:575-580 | no id for an empty normalised name; otherwise the id of the first province whose normalised name equals the target, none when no name does |
| Catalog.FindDistrictId | app/page.tsx:582-589 | the same first-match lookup over a district list |
| Catalog.FindProvinceIdNormalized | app/page.tsx:575-580 | looking up an already normalised name finds the same id |
| Catalog.FindDistrictIdNormalized | app/page.tsx:582-589 | the same for districts |
| Catalog.FindProvinceIdOwnName | app/page.tsx:575-580 | a province whose normalised name is non-empty is always found by its own name |
| Catalog.FindProvinceIdExact | app/page.tsx:575-580 | when no other province normalises alike, a province's own name finds exactly its id |
| Catalog.FindProvinceIdSameNormal | app/page.tsx:575-580 | names that normalise alike find the same id |
| Catalog.SelectedProvinceName | app/page.tsx:346-349 | never empty: the first province with the selected id, its name when non-empty, else "Ankara" |
| Catalog.SelectedDistrictName | app/page.tsx:351-354 | the name of the first district with the selected id, "" without a selection or match |
| Catalog.DistrictNameOf | app/page.tsx:680-683 | the name of the first district with the id, "" when none has it |
| Catalog.ProvinceNameOf | app/page.tsx:685 | the name of the first province with the id, "" for no id or an unknown one |
| Catalog.ProvinceNameOfCatalog | app/page.tsx:333-344 | a province some city row names has a non-empty catalog name |
| Geocode.ProvinceGuess | app/page.tsx:559-560 | state, then province, region and state_district: the first non-empty |
| Geocode.DistrictGuess | app/page.tsx:561-568 | town, then city, county, suburb, village and municipality: the first non-empty |
| Geocode.ReverseGeocode | app/page.tsx:552-572 | fails exactly when `fetch` rejects, the reply is not `ok` or the body is not JSON; a decoded body without an address guesses "" twice; otherwise the two guesses |
| Geocode.GuessesComeFromFields | app/page.tsx:557-568 | each guess is one of the fields it reads, and "" exactly when all of them are |
| Locator.DisplayArea | app/page.tsx:250-258 | the first area matching the selection, else the first area, else the empty area |
| Locator.ToCompany | app/page.tsx:260-299 | card name is driver name, else plate, else "Çekici"; id only for a non-zero unit id; city and district from the display area; plate absent when empty; photo resolved |
| Locator.ProcessTowTrucks | app/page.tsx:231-305 | the cards the loop pushes are exactly `Processed(units)` |
| Locator.ProcessedSelects | app/page.tsx:232-302 | card k is built from kept unit idx[k]; the indices increase; every active unit with a matching area, or any active unit without a selection, has a card |
| Locator.ProcessedLength | app/page.tsx:232-302 | there are never more cards than units |
| Locator.LoadCompanies | app/page.tsx:203-326 | nothing is asked without a selection or coordinates; otherwise the rich endpoint is asked with limit 20, with no province or district when there are coordinates and the selection's ids when there are none, and the legacy endpoint gets the same query exactly when the rich one throws; the rich endpoint's units processed (photos against `ApiBase(env)`) when it returns some, none when it returns none; the legacy list when the rich one throws; none when both throw |
| Locator.FilterAppliesWithCoordinates | app/page.tsx:237-248 | under a selection, a unit with no matching area yields no card |
| Format.ApiBase | app/page.tsx:293-296 | the configured base when set, otherwise exactly the default `https://api.yoldancek.com`; never empty |
| Format.PhotoUrl | app/page.tsx:289-298 | no URL for an empty path; an `http` URL unchanged; otherwise base, exactly one `/`, and the path without its own leading `/` |
| Format.PhotoUrlIdempotent | app/page.tsx:735-744 | with an `http` base, resolving a resolved URL changes nothing |
| Format.DropLeadingZeros | app/page.tsx:1524 | `replace(/^0+/, "")` drops a prefix of zeros and leaves a string not starting with `0` |
| Format.DropLeadingZerosEmpty | app/page.tsx:1524 | only a string of zeros loses everything |
| Format.CountryForm | app/page.tsx:1525-1529 | "" exactly when the cleaned number is all zeros; otherwise the result starts with `+` |
| Format.TelHref | app/page.tsx:1530-1532 | no link exactly when there is no number; a link always starts with `tel:+` |
| Format.TelHrefDigits | app/page.tsx:1520-1532 | the link is `tel:` and the cleaned number when it had a `+`, else `tel:+90` and the number without its leading zeros |
| Format.TelHrefStable | app/page.tsx:1520-1532 | formatting an already formatted number yields the same link |
| Format.CleanPlate | app/page.tsx:138-140 | the cleaned plate holds digits and capitals only, and is empty exactly when the input has no allowed character |
| Format.FormatLicensePlate | app/page.tsx:136-164 | "" exactly when nothing is left after cleaning |
| Format.FormatLicensePlateLayout | app/page.tsx:144-161 | the output is the first two cleaned characters, optionally a blank and 1–3 non-digits, optionally a blank and 1–4 digits; at most 11 characters and upper-case |
| Format.PlateLayoutShape | app/page.tsx:135-164 | a plate in that layout is at most 11 characters long and upper-case |
| Format.TwoLetterDigitLost | app/page.tsx:147-159 | as written, "34 AB" followed by any digit formats back to "34 AB" |
| Format.FormatPlateIntended | app/page.tsx:136-164 | the corrected formatter returns "" exactly when nothing is left after cleaning |
| Format.ArrangePlateLayout | app/page.tsx:144-161 | the corrected output follows the same layout; the letter group is the leading non-digit run after the province code, and the digits come from the four positions behind it |
| Format.PlateLetters | app/page.tsx:147-152 | the corrected letter group: at most three non-digits that directly follow the province code, ended by a digit when shorter than three and not at the end |
| Format.PlateDigits | app/page.tsx:154-159 | the corrected digit group: at most four digits, starting with a digit right behind a letter group shorter than three |
| Format.ArrangeLayout | app/page.tsx:144-161 | reading a laid-out plate again, with its blanks removed, finds the same province code, letter group and digit group |
| Format.FormatPlateIntendedIdempotent | app/page.tsx:1871-1874 | the corrected formatter is idempotent, so reformatting on every keystroke leaves a formatted plate alone |
| Format.FormatPlateIntendedAgrees | app/page.tsx:135 | on the documented three-letter plates the corrected formatter gives what the code as written gives |
| Format.TwoLetterDigitKept | app/page.tsx:147-159 | the corrected formatter turns "34 AB" and a digit into "34 AB " and that digit |
| Format.Initials | app/page.tsx:1222-1228 | one or two characters: "K" without a word; the upper-cased first letter of the first word, and of the second word when there is one |
| Fleet.Placeholder | app/page.tsx:689-704 | the prefix (`İl #` or `İlce #`) and the id exactly for a non-zero id, "" otherwise |
| Fleet.PlaceholdersNameOneId | app/page.tsx:689-704 | two ids with the same placeholder are the same id |
| Fleet.PlaceholderFormsDiffer | app/page.tsx:689-704 | a province placeholder never equals a district placeholder |
| Fleet.ProvinceLabel | app/page.tsx:685-692 | catalog name, then cached city, then area city, then `İl #<id>`, then the selected province name; never empty |
| Fleet.DistrictLabel | app/page.tsx:693-706 | area district, then the district-name cache, then the loaded districts, then the cached district, then `İlce #<id>`, then the selected district name |
| Fleet.Location | app/page.tsx:707-713 | with a non-empty province label the location is "district, province", or the province alone without a district label |
| Fleet.BuildRow | app/page.tsx:676-746 | row id only for a non-zero unit id; name or "Çekici"; plate; location "district label, province label", or the province label alone when the district label is empty; `isActive` as listed; area ids, the province id falling back to the selection; `areaCity` the area's city; `areaDistrict` the area's district, else the cached district name, else the loaded district's name; photo resolved against `ApiBase(env)` |
| Fleet.SavedEntry | app/page.tsx:714-719 | the cache entry takes the province label, and the district label unless it is empty, when the old district stays |
| Fleet.RowsLength | app/page.tsx:675-748 | one row per unit |
| Fleet.RowsKeepOtherIds | app/page.tsx:714-719 | cache entries of ids no unit carries are untouched |
| Fleet.RowsRecordEveryId | app/page.tsx:714-719 | every unit with a non-zero id has a cache entry afterwards |
| Fleet.RowsDistinct | app/page.tsx:675-748 | with distinct ids, unit i's row and entry are computed from the cache as it was before the list |
| Fleet.TowRowsDistinct | app/page.tsx:675-748 | the same for `loadTowList`'s rows: row i is `BuildRow` and its cache entry `SavedEntry` on the old cache |
| Fleet.StoreNamesKeeps | app/page.tsx:666-668 | one fetch writes only the district ids it lists |
| Fleet.StoreNamesLastWins | app/page.tsx:666-668 | a listed id ends with the name of the last district listing it |
| Fleet.FilledKeeps | app/page.tsx:664-673 | the fill loop writes only ids an answered fetch lists |
| Fleet.FilledHasFetched | app/page.tsx:664-673 | every district an answered fetch lists is named afterwards |
| Fleet.FilledLastWins | app/page.tsx:664-673 | the name it holds is that of the last district listing the id in the last answered fetch that lists it |
| Fleet.LastListing | app/page.tsx:666-668 | the last position listing a given district id |
| Fleet.ToFetchExact | app/page.tsx:649-662 | each province is fetched once, exactly when some unit lacks the name of its area's district |
| Fleet.LocationCache.constructor | app/page.tsx:110-113 | both caches start empty |
| Fleet.LocationCache.CollectProvincesToFetch | app/page.tsx:649-662 | the provinces collected are `ToFetch(units, cache)` |
| Fleet.LocationCache.StoreDistricts | app/page.tsx:666-668 | the name cache becomes `StoreNames(old cache, districts)`; the location cache is unchanged |
| Fleet.LocationCache.FillDistrictNames | app/page.tsx:664-673 | the name cache becomes `Filled(old cache, provinces, fetched)`; the location cache is unchanged |
| Fleet.LocationCache.BuildRows | app/page.tsx:675-748 | rows and location cache are `Rows(TowRowStep(...), units, old cache)`; the name cache is unchanged |
| Fleet.LocationCache.LoadTowList | app/page.tsx:642-755 | nothing changes without a token or when listing throws; otherwise names are filled for `ToFetch`, then the rows and location cache are `Rows` over the listed units (none for `null`) |
| Fleet.LocationCache.RecordAddedUnit | app/page.tsx:980-986 | a new unit with an id is cached at the names of the page's selected province and district (`Fleet.SelectedProvince`, `Fleet.SelectedDistrict`); nothing else changes |
| Fleet.LocationCache.RecordEditedUnit | app/page.tsx:1121-1184 | an updated unit with an id is cached at `EditedEntry` of the returned area and of the names `EditProvinceName` and `EditDistrictName` compute from the chosen ids, the loaded districts and the district name cache; nothing else changes |
| Fleet.EditedEntry | app/page.tsx:1180-1181 | city: the server's area city, then the dialog's province name, then the row's city; the same chain for the district |
| Fleet.EditProvinceName | app/page.tsx:1121-1123 | the chosen catalog province's name, else the row's old city |
| Fleet.EditDistrictName | app/page.tsx:1124-1131 | the chosen district's loaded name, then the name cache, then the row's district, then `İlce #<id>` |
| Fleet.CatalogNameWins | app/page.tsx:685-686 | a province the city catalog names is labelled with that name, whatever the caches hold |
| Fleet.NoAreaUsesSelection | app/page.tsx:685-706 | a unit without area or cached location is labelled with the selected names |

## Left out

- Rendering, React state and effects, toasts and loading flags.
- Network calls: `getCities`, `getDistricts`, `listTowTrucks`, the two nearest
  endpoints, `updateTowTruck`, and Nominatim itself. The model takes each
  call's outcome as a parameter.
- Asynchrony is not modelled. Every handler runs to completion in order, as
  if no other handler ran between its awaits.
- Browser geolocation is left out, and so are the floating-point fields the
  page copies: distance, latitude, longitude. Only whether coordinates exist
  is modelled.
- `Date.now()` and `Math.random()` stand in for a missing id. The model
  writes `None` for such an id.
- `localStorage` is not modelled:
  - where the page persists the location cache after each write, it is
    skipped;
  - the session and cache restore on load (JSON parsing, one `try` around
    all keys) is left out.
- `handleTowSave` and `handleTowEditSave`: only their cache writes and name
  chains are modelled. The optimistic row pushed into the list, the payload
  building and the reload are left out. So is the `towList.find` for the
  edited row, whose result the model takes as a parameter.
- Text.Lower: models `toLocaleLowerCase("tr-TR")` on ASCII, Latin-1 and the
  Turkish İ/I/Ğ/Ş only. Other scripts are left as they are.
- Text.Upper: models `toUpperCase` one character to one on the same letters.
  `ß` (which becomes `SS`), `ÿ` and other scripts are left unchanged.
- Text.IsSpace: is the fixed set JavaScript's `\s` matches. It is not derived
  from the Unicode tables.
- Format.Initials: takes the first character of each word as a Unicode code
  point. `parts[0]?.[0]` takes the first UTF-16 code unit, so for a word
  starting outside the Basic Multilingual Plane the page shows half a
  surrogate pair where the model shows the whole character.
- Fleet.LocationCache.LoadTowList: takes the token directly. The
  `tokenValue || authToken` choice is left to the caller.

## Findings

| source | as written | input that shows it | evidently intended | confidence | as-written member | corrected member |
|---|---|---|---|---|---|---|
| app/page.tsx:147-159 | the letter group is the non-digits among cleaned positions 3–5, and digits are read only from positions 6–9 | the plate field is reformatted on every keystroke (app/page.tsx:1871-1874): typing any digit after "34 AB" gives "34 AB" again, so a plate with a two-letter group can never get its digits | the letter group is the run of up to three non-digits after the province code, and the digits are read from the positions behind that run | medium, not executed | Format.TwoLetterDigitLost | Format.FormatPlateIntendedIdempotent |
