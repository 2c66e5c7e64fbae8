# Citizen-complaints dashboard: the query step, in Dafny

The dashboard (`src/pages/MainPage.jsx`) shows a bundled list of citizen complaints as a table,
four counters, and a map of markers. Everything it computes happens in four small routines on
the main page. This project models those four routines as Dafny functions and one method, and
proves what they promise:

- **`statusToTagColor`** (`StatusTag.TagColor`). A closed mapping from a status to an antd tag
  colour, with a default case.
- **`filteredData`** (`RecordFilter.FilteredData`). The search text is trimmed and lower-cased
  (`Needle`). A record is shown when the status picked in the selector is unset or falsy, or
  equals the record's status exactly (`MatchesStatus`). If the normalised query is empty,
  that status test alone decides. Otherwise the normalised query must also occur in the
  record's haystack. The haystack is the truthy ones of `address` and `status`, joined by one
  space and lower-cased (`Haystack`). `Select` is the order-preserving `data.filter` with that
  callback (`Keep`).
- **`stats`** (`Stats.ComputeStats`). A loop over the whole dataset that starts from
  `total = data.length` and bumps one counter per known status on an exact match. Given by
  `CountStatus` (records with exactly a given status) and `CountUnrecognised`.
- **`mapCenter`** (`MapCenter.Center`). It keeps the filtered records that have both
  coordinates (`Geolocated`). With none it returns the fixed centre `(53.2205, 63.6283)`;
  otherwise it returns the mean latitude and the mean longitude (`SumLatitude`,
  `SumLongitude`, the two `reduce` calls).

The JavaScript built-ins the filter relies on are modelled in `JsStrings`:
- `trim`, over the exact ECMAScript WhiteSpace and LineTerminator set;
- `toLowerCase`, for Basic Latin, Latin-1 and the Cyrillic block;
- `includes`, as a scan, with a reference definition `IsSubstring`;
- `join`.

Records are the datatype `Records.Complaint`. A field the JSON may leave out is an
`Option`. A coordinate is `Some` exactly when `typeof` gives `"number"`. The dataset and the
query are inputs. The routines are functions of them, not of the React state that holds them.

Modules, one file each: `Wrappers` (Option), `Records`, `JsStrings`, `StatusTag`,
`RecordFilter`, `Stats`, `MapCenter`.

The status selector offers the three statuses and can be cleared (src/pages/MainPage.jsx:153-163).
The code's test is `!status`, so any falsy value means no status is picked. The model takes the
selector's value as an `Option<string>`: both `None` and `Some("")` mean unset, and any other
string is matched exactly.

## Model

| member | source | states |
|---|---|---|
| `StatusTag.TagColor` | src/pages/MainPage.jsx:21-32 | total over strings; "В работе" → "processing", "Решено" → "success", "Отклонено" → "error"; the result is one of the four antd colours, and it is "default" exactly when the status is none of the three |
| `StatusTag.TagColorDistinguishesKnown` | src/pages/MainPage.jsx:21-32 | two known statuses get the same colour iff they are the same status |
| `JsStrings.LeadingWhitespace` | src/pages/MainPage.jsx:75 | the length of the longest whitespace prefix: all characters before it are whitespace, the one at it is not |
| `JsStrings.TrailingWhitespace` | src/pages/MainPage.jsx:75 | the length of the longest whitespace suffix, likewise |
| `JsStrings.Trim` | src/pages/MainPage.jsx:75 | `trim()`: the result is the slice between the leading and trailing whitespace runs, begins and ends with non-whitespace, and is empty iff the input is all whitespace |
| `JsStrings.TrailingWhitespaceOfSuffix` | src/pages/MainPage.jsx:75 | dropping a prefix that ends before the last non-whitespace character keeps the trailing whitespace run (trimming the front first does not change what the back trim removes) |
| `JsStrings.LowerChar` | src/pages/MainPage.jsx:83 | `toLowerCase` on one character: changes exactly the capitals of the modelled ranges, and never returns a capital |
| `JsStrings.ToLower` | src/pages/MainPage.jsx:83 | `toLowerCase()` keeps the length and lower-cases each character in place |
| `JsStrings.LowerCharKeepsWhitespace` | src/pages/MainPage.jsx:75 | lower-casing a character neither makes nor unmakes whitespace |
| `JsStrings.LeadingWhitespaceToLower` | src/pages/MainPage.jsx:75 | lower-casing keeps the leading whitespace run |
| `JsStrings.TrailingWhitespaceToLower` | src/pages/MainPage.jsx:75 | lower-casing keeps the trailing whitespace run |
| `JsStrings.TrimToLower` | src/pages/MainPage.jsx:75 | `s.trim().toLowerCase()` equals `s.toLowerCase().trim()` |
| `JsStrings.IncludesIff` | src/pages/MainPage.jsx:85 | `includes` holds iff the needle occurs at some position of the haystack (both directions) |
| `RecordFilter.IsTruthy` | src/pages/MainPage.jsx:81 | `Boolean` on an optional string field; a definition with no contract of its own, characterised through `TruthyValues` and `HaystackShape` |
| `RecordFilter.TruthyValues` | src/pages/MainPage.jsx:81 | `filter(Boolean)` keeps no more values than there are fields, and every kept value is non-empty and is the value of one of the fields |
| `JsStrings.Join` | src/pages/MainPage.jsx:82 | `join(" ")`; no contract of its own, its result for the haystack is given by `HaystackShape` |
| `RecordFilter.Haystack` | src/pages/MainPage.jsx:80-83 | no contract of its own; characterised by `HaystackShape` and `MatchingIgnoresOtherFields` |
| `RecordFilter.MatchesStatus` | src/pages/MainPage.jsx:77 | `!status \|\| item.status === status`; no contract of its own, its meaning is the first conjunct of `PassesIff` |
| `RecordFilter.Keep` | src/pages/MainPage.jsx:76-86 | the `filter` callback over the normalised query; no contract of its own, characterised by `PassesIff` |
| `RecordFilter.Passes` | src/pages/MainPage.jsx:75-85 | the callback's test for the typed query; no contract of its own, characterised by `PassesIff` |
| `RecordFilter.Select` | src/pages/MainPage.jsx:76-86 | `data.filter(...)`: the result is no longer than the input and every record in it is from the input and satisfies the callback |
| `RecordFilter.FilteredData` | src/pages/MainPage.jsx:74-87 | the result is no longer than the dataset and every record in it is from the dataset and passes; fixed completely by `FilteredMultiplicity` together with `FilteredIsSubsequence` |
| `JsStrings.IsJsWhitespace` | src/pages/MainPage.jsx:75 | the code points `trim()` removes; a definition with no contract, used by `LeadingWhitespace`, `TrailingWhitespace` and `Trim` |
| `JsStrings.Includes` | src/pages/MainPage.jsx:85 | `includes`: a longer needle is never included and the empty needle always is; characterised in both directions by `IncludesIff` |
| `RecordFilter.Needle` | src/pages/MainPage.jsx:75 | the normalised query is no longer than the typed one and is empty iff the typed query is all whitespace |
| `RecordFilter.HaystackShape` | src/pages/MainPage.jsx:80-83 | the haystack is the lower-cased "address status" when both are non-empty, the lower-cased address or status alone when only one is, and empty when neither is |
| `RecordFilter.MatchingIgnoresOtherFields` | src/pages/MainPage.jsx:80-83 | two records with the same address and status pass or fail together: id, category, description, date, coordinates and photo never affect matching |
| `RecordFilter.PassesIff` | src/pages/MainPage.jsx:77-85 | a record passes iff (no status picked, or its status equals the picked one) and (the normalised query is empty, or it is a substring of the haystack) |
| `RecordFilter.FilteredIgnoresQueryCase` | src/pages/MainPage.jsx:75 | queries that lower-case to the same text show the same records |
| `RecordFilter.SubsequenceLength` | src/pages/MainPage.jsx:168 | a subsequence is no longer than the sequence it comes from |
| `RecordFilter.FilteredIsSubsequence` | src/pages/MainPage.jsx:76-86 | the result is the dataset with some records left out and the rest in their original order |
| `RecordFilter.FilteredLength` | src/pages/MainPage.jsx:168 | the shown count `n` in "Показано: n / total" is at most the dataset size |
| `RecordFilter.FilteredMultiplicity` | src/pages/MainPage.jsx:76-86 | each record occurs in the result as often as in the dataset if it passes, and not at all otherwise |
| `RecordFilter.FilteredMembership` | src/pages/MainPage.jsx:76-86 | soundness and completeness: a record is shown iff it is in the dataset and passes |
| `RecordFilter.FilteredConcat` | src/pages/MainPage.jsx:76-86 | filtering a concatenation is the concatenation of the filtered parts |
| `RecordFilter.FilteredAllPass` | src/pages/MainPage.jsx:76-86 | when every record passes, the result is the dataset itself, in content and in order |
| `RecordFilter.FilteredBlankQuery` | src/pages/MainPage.jsx:75-78 | with no status picked and an empty or all-whitespace query, the result equals the dataset |
| `RecordFilter.FilteredIdempotent` | src/pages/MainPage.jsx:74-87 | filtering the result again with the same query and status returns the same sequence |
| `Stats.CountStatus` | src/pages/MainPage.jsx:102-106 | the number of records with exactly a given status is at most the dataset length; the rest is stated by `CountStatusConcat`, `CountsPartition` and `CountIsFilteredLength` |
| `Stats.CountUnrecognised` | src/pages/MainPage.jsx:102-106 | the number of records with none of the three statuses is at most the dataset length; the rest is stated by `CountsPartition` and `UnrecognisedZeroIff` |
| `Stats.ComputeStats` | src/pages/MainPage.jsx:100-108 | `total` is the dataset length, each counter is the number of records whose status equals its status exactly, and the three counters add up to at most `total`; only the dataset is an input |
| `Stats.CountStatusConcat` | src/pages/MainPage.jsx:102-106 | the count over a concatenation is the sum of the counts of its parts |
| `Stats.CountsPartition` | src/pages/MainPage.jsx:101-106 | the three counters plus the number of records with an unrecognised status equal the dataset length |
| `Stats.UnrecognisedZeroIff` | src/pages/MainPage.jsx:102-106 | no record has an unrecognised status iff every status is one of the three |
| `Stats.CountsSumToTotalIff` | src/pages/MainPage.jsx:101-106 | the three counters add up to `total` iff every record's status is one of the three |
| `Stats.UnrecognisedCountsOnlyInTotal` | src/pages/MainPage.jsx:102-106 | a record with any other status leaves the three counters unchanged and is counted only in `total` |
| `Stats.CountUnrecognisedSnoc` | src/pages/MainPage.jsx:102-106 | appending a record adds one to the unrecognised count exactly when its status is not known |
| `Stats.CountIsFilteredLength` | src/pages/MainPage.jsx:101-106 | a counter equals the number of rows shown when its status is picked and the query is empty or all whitespace |
| `MapCenter.IsGeolocated` | src/pages/MainPage.jsx:91 | both coordinates are numbers; a definition with no contract, used by `Geolocated` and `GeolocatedMembership` |
| `MapCenter.SumLatitude` | src/pages/MainPage.jsx:95 | the left-fold `reduce` of the latitudes, over exact reals; no contract of its own, bounded by `SumLatitudeBounds` |
| `MapCenter.SumLongitude` | src/pages/MainPage.jsx:96 | the left-fold `reduce` of the longitudes, over exact reals; no contract of its own, bounded by `SumLongitudeBounds` |
| `MapCenter.Center` | src/pages/MainPage.jsx:89-98 | `mapCenter`, over exact reals; no contract of its own, characterised by `CenterFallback`, `CenterSingle`, `CenterIgnoresUnlocated` and `CenterWithinBounds` |
| `MapCenter.Geolocated` | src/pages/MainPage.jsx:90-92 | the kept records all have both coordinates and are no more than the input |
| `MapCenter.GeolocatedMembership` | src/pages/MainPage.jsx:90-92 | a record is kept iff it is in the input and has both coordinates |
| `MapCenter.GeolocatedOfGeolocated` | src/pages/MainPage.jsx:90-92 | records that all have coordinates are kept unchanged |
| `MapCenter.CenterFallback` | src/pages/MainPage.jsx:93 | with no record having both coordinates (including no record at all) the centre is `(53.2205, 63.6283)` |
| `MapCenter.CenterSingle` | src/pages/MainPage.jsx:95-97 | with exactly one geolocated record the centre is that record's position |
| `MapCenter.CenterIgnoresUnlocated` | src/pages/MainPage.jsx:90-92 | records without coordinates do not move the centre |
| `MapCenter.SumLatitudeBounds` | src/pages/MainPage.jsx:95 | over exact reals, the latitude sum of `n` records lies between `n` times any lower and upper bound of their latitudes |
| `MapCenter.SumLongitudeBounds` | src/pages/MainPage.jsx:96 | over exact reals, the same for longitudes |
| `MapCenter.MeanLatitudeWithin` | src/pages/MainPage.jsx:95 | over exact reals, the mean latitude lies between any bounds of the latitudes |
| `MapCenter.MeanLongitudeWithin` | src/pages/MainPage.jsx:96 | over exact reals, the mean longitude lies between any bounds of the longitudes |
| `MapCenter.CenterWithinBounds` | src/pages/MainPage.jsx:89-98 | over exact reals, when some record is geolocated, the centre lies inside every box that holds all geolocated records |
| `MapCenter.CenterOfFilteredFallback` | src/pages/MainPage.jsx:89-93 | when no record that passes the filter has coordinates, the map of the filtered records is centred on the default position |

## Left out

- React state and hooks (`useState`, `useMemo`, `openDetails`, the modal flags, src/pages/MainPage.jsx:64-72): UI interaction state. The routines are modelled as functions of the dataset, the query text and the picked status.
- `mapKey` (src/pages/MainPage.jsx:110): it formats floating-point numbers as strings.
- All JSX rendering: the table and its columns, the statistic cards, the search box and selector, the Leaflet map, markers and popups (src/pages/MainPage.jsx:34-61, 114-242).
- src/components/RequestDetailsModal.jsx and src/main.jsx are not part of this model. They only present one record and bootstrap the page.
- Loading `data.json` (src/pages/MainPage.jsx:18): the dataset is an input sequence.
- MapCenter.Center: the mean is over exact reals, not IEEE-754 doubles. Rounding is not modelled. NaN or infinite coordinates, which `typeof` accepts as numbers, cannot be expressed.
- MapCenter.CenterWithinBounds, MapCenter.MeanLatitudeWithin, MapCenter.MeanLongitudeWithin (and the two Sum bounds they rest on): the bound is a fact about the exact real-valued mean. In doubles, rounding can push the mean out of the box by one ulp: three records at latitude 53.2205 give `(53.2205 + 53.2205 + 53.2205) / 3 = 53.220499999999994`, below the box [53.2205, 53.2205]. Likewise three coordinates of 0.1 average to 0.10000000000000002. `CenterSingle` and `CenterFallback` hold exactly in doubles too.
- JsStrings.LowerChar: models `toLowerCase` only for Basic Latin, Latin-1 Supplement and Cyrillic (U+0400–U+04FF). Every other character is left unchanged, including Greek, Latin Extended and the one-to-many mapping of U+0130.
- JsStrings: strings are sequences of Unicode scalar values, not UTF-16 code units. Lone surrogates cannot be expressed.
- Records.Complaint: `id` is an integer. String ids are not modelled because no routine reads the id.
- Records.Complaint: `address` is a string when present. A non-string truthy value, which `join` would stringify, is not modelled.
- Records.Complaint: a record with no `status` is modelled with the empty status. Both are falsy, so both are dropped from the haystack, and neither equals a picked status.
