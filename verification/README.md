# Texas legislative district lookup — a Dafny model

`api/lookup.js` is a serverless endpoint. It answers a latitude and longitude with the
Texas House and Texas Senate district numbers for that point. It keeps one GeoJSON
boundary file per chamber and does four things:

- It computes each file's bounding box once, at load.
- It rejects a point that falls outside a chamber's box, without scanning that file.
- Otherwise it scans the file's features for the first polygon that contains the point.
- It reads the district number out of that feature's free-form attributes:
  - First pass: an ordered list of keys, each value coerced leniently to a number.
  - Second pass: a `district <digits>` label inside a name field.

This project models that logic and proves what it promises.

| file | models |
|---|---|
| `Wrappers.dfy` | `Option`, with `None` standing for JavaScript's `null` |
| `JsText.dfy` | ECMAScript white space and line terminators, digit runs, `String.prototype.trim` |
| `JsNumber.dfy` | `Number(string)`: the StringToNumber grammar of ECMAScript, including overflow to an infinity |
| `JsValue.dfy` | the attribute values a feature carries, `Number(String(v).trim())` and `toNumberOrNull` |
| `NamePattern.dfy` | the regular expression `/district\s+(\d+)/i` applied with `String.prototype.match` |
| `Resolver.dfy` | `extractDistrictNumber`: key precedence, the `OBJECTID` exclusion, chamber key selection, the name-label pass |
| `Locator.dfy` | GeoJSON data, `getCollectionBbox`, `pointInBbox`, `findDistrict` |
| `Lookup.dfy` | loading the two datasets and the handler's bad-request check, box gate, per-chamber scan and JSON output |

Two computations belong to the Turf library and are not modelled:

- **Point-in-polygon** is a parameter, `contains: (Feature, Position) -> Containment`. It answers `Inside`, `Outside` or `Throws`.
- **The computed bounding box** is a value, `computed: Option<Bbox>`. `None` means Turf threw.

Every property below therefore holds for every behaviour of those two Turf functions.

## Model

| member | source | states |
|---|---|---|
| JsText.Trim | api/lookup.js:17 | the trimmed text neither starts nor ends with white space, is no longer than the input, and is empty exactly when the input is all white space |
| JsText.TrimPadded | api/lookup.js:17 | trimming undoes padding: for any white-space padding around a text that has no outer white space, trim gives back that text |
| JsNumber.OverflowIsDoubleLimit | api/lookup.js:17-18 | the overflow threshold is 2^1024 - 2^970, the largest finite double plus half a unit in its last place: the least magnitude a correctly rounding engine such as V8 turns into an infinity (for literals of more than 20 significant digits ECMAScript lets an engine cut at the 20th digit first, so near this threshold the result can differ between engines) |
| JsNumber.FromExact | api/lookup.js:17-18 | a literal's value is kept when it is within the range of a double; beyond that it becomes an infinity of the same sign, never NaN |
| JsNumber.DecimalValue | api/lookup.js:17 | the decimal digits of `n` read back as `n` |
| JsNumber.DigitsParse | api/lookup.js:17 | a plain digit run is an unsigned decimal literal whose value is what the digits denote |
| JsNumber.DecimalRoundTrip | api/lookup.js:17 | `Number` of any space-padded, optionally negative decimal numeral gives back the number, or the same-signed infinity when it is out of range |
| JsNumber.BlankIsZero | api/lookup.js:17 | the empty string and every white-space string convert to 0 |
| JsNumber.NonNumericIsNaN | api/lookup.js:17 | a text whose first non-space character cannot start a numeric literal is NaN, unless it is `Infinity` |
| JsNumber.WordIsNaN | api/lookup.js:17 | words such as `null`, `true`, `undefined` and district names convert to NaN |
| JsNumber.InfinityText | api/lookup.js:17 | `Infinity` and `-Infinity` convert to the infinities |
| JsNumber.RadixText | api/lookup.js:17 | after `0x`, `0o` or `0b` the text is an unsigned integer in that radix; missing or foreign digits give NaN |
| JsNumber.SignedRadixIsNaN | api/lookup.js:17 | a sign in front of a radix prefix gives NaN |
| JsValue.ToNumber | api/lookup.js:17 | `null`, `undefined` and booleans pass through `String` and `trim` and come out NaN |
| JsValue.ToNumberOrNull | api/lookup.js:15-19 | `null` for `null`, `undefined` and booleans; otherwise a number exactly when the coercion is finite, and that number is the coerced value and lies within range |
| JsValue.DecimalStringCoerces | api/lookup.js:15-19 | a padded decimal string coerces to its value |
| JsValue.BlankCoercesToZero | api/lookup.js:15-19 | a blank string coerces to 0 and not to `null` |
| JsValue.InfinityIsNull | api/lookup.js:15-19 | `"Infinity"` parses but is not finite, so it yields `null` |
| NamePattern.CaptureAt | api/lookup.js:53 | a capture at a position is a non-empty run of decimal digits |
| NamePattern.CaptureIsGreedy | api/lookup.js:53 | the engine finds a capture at a position exactly when the pattern's language matches there; every such match is witnessed, and the capture is the longest digit run any match there can take |
| NamePattern.CaptureIsSound | api/lookup.js:53 | a capture comes from a way of matching: the keyword, at least one space, then exactly the captured digits |
| NamePattern.CaptureIsLongest | api/lookup.js:53 | every way the pattern can match at a position is found by the engine, and uses no more digits than the capture holds |
| NamePattern.MatchStart | api/lookup.js:53 | `m.index` is leftmost: the pattern matches there and at no earlier position |
| NamePattern.MatchIsLeftmost | api/lookup.js:53 | a capture at a position with none before it is what `match` returns |
| NamePattern.Match | api/lookup.js:53 | `match` gives `null` exactly when the pattern matches at no position; otherwise its capture is non-empty and all digits |
| NamePattern.MatchesHouseLabel | api/lookup.js:48-54 | "State House District 114" gives the capture "114" |
| Wrappers.FirstSomeIsFirst | api/lookup.js:42-46 | a loop that stops at the first entry yielding a result stops at the first index where one is present and returns that entry, and returns nothing when there is none |
| Resolver.DirectValue | api/lookup.js:43-45 | a key offers a value only when it is not `OBJECTID` and the value coerces to a finite number within range |
| Resolver.PatternValue | api/lookup.js:52-54 | a name field yields a label number only for a string that matches the pattern; that number is finite or positive infinity, never NaN |
| Resolver.NameFieldValue | api/lookup.js:50-58 | a label match in a name field wins over that field's own numeric value |
| Resolver.ExtractDistrictNumber | api/lookup.js:22-62 | falsy attributes give `null`; when the first pass finds a value the result is a finite number within range |
| Resolver.DirectPrecedence | api/lookup.js:26-46 | the first listed key, in the order `DIST_NBR`, `DISTRICT`, `district`, `District`, `OBJECTID`, chamber key, `NAMELSAD`, `NAME`, `name`, `REP_NM`, other than `OBJECTID` whose value coerces to a number decides the result, whatever later keys hold |
| Resolver.GenericKeyOutranks | api/lookup.js:26-46 | a numeric `DIST_NBR` wins over any chamber-key or `NAMELSAD` value |
| Resolver.BlankDistNbrIsZero | api/lookup.js:42-45 | a blank `DIST_NBR` resolves to 0 and hides every later key |
| Resolver.SecondKeyDecides | api/lookup.js:41-46 | with no `DIST_NBR`, a `DISTRICT` string that coerces to a number decides the result |
| Resolver.FractionExample | api/lookup.js:41-46 | the first pass returns any finite number: a `DISTRICT` of "12.5" resolves to 12.5 |
| Resolver.ReadsOnlyListedKeys | api/lookup.js:26-59 | two attribute sets that agree on the listed keys other than `OBJECTID` resolve alike |
| Resolver.SameValueSameOffers | api/lookup.js:43-57 | both passes read a key through its value alone |
| Resolver.ObjectIdIgnored | api/lookup.js:45 | setting or removing `OBJECTID` never changes the result |
| Resolver.ChamberSelectsKey | api/lookup.js:33 | the chamber `"house"` reads `SLDLST` and ignores `SLDUST`; every other chamber string reads `SLDUST` and ignores `SLDLST` |
| Resolver.BareNumberFallbackDead | api/lookup.js:55-57 | once the first pass has failed, the second pass yields only label numbers: its bare-number fallback can never fire |
| Resolver.UnnumberedNameField | api/lookup.js:52-57 | a name field in which the first pass found no number yields its label number or nothing |
| Resolver.NameLabelFallback | api/lookup.js:48-61 | when the first pass fails, the result is the label number of the first of `NAMELSAD`, `NAME`, `name` that carries a label, and `null` when none does |
| Resolver.LabelNumber | api/lookup.js:53-54 | a string whose label captures the digits `m` yields `Number(m)`, and `Number(m)` is the value those digits denote, or an infinity when that is out of range |
| Resolver.HouseLabelExample | api/lookup.js:48-54 | a feature whose only attribute is `NAMELSAD: "State House District 114"` resolves to 114 |
| Locator.CollectionBbox | api/lookup.js:65-73 | an embedded four-entry `bbox` is used as it is; the computed box is used only when there is none |
| Locator.PointInBbox | api/lookup.js:78-82 | an absent box admits every point; a finite box admits exactly the points within it, edges included; a box with a NaN corner admits none |
| Locator.EmptyBoxRejects | api/lookup.js:78-82 | the box Turf computes for a collection without coordinates rejects every point |
| Locator.BoxIsInclusive | api/lookup.js:81 | a finite box admits its four corners and rejects a point just past its eastern edge |
| Locator.FirstHit | api/lookup.js:87-105 | the scan stops at a feature the point is in, and the point is in no earlier feature |
| Locator.FirstHitUnique | api/lookup.js:87-105 | the stopping index is the only one with no hit before it and a hit at it |
| Locator.FindDistrict | api/lookup.js:84-108 | anything other than a `FeatureCollection` with a `features` array gives `null`; a number comes back only when some feature contains the point |
| Locator.FirstMatchDecides | api/lookup.js:102-104 | the first feature containing the point decides the answer, even when its attributes yield `null` |
| Locator.NoMatchIsNull | api/lookup.js:107 | when no feature contains the point, the answer is `null` |
| Locator.ThrowIsOutside | api/lookup.js:95-100 | a containment test that throws gives the same answer as one that says "outside" |
| Locator.NonHitSkipped | api/lookup.js:87-93 | inserting a feature the point is not in, anywhere in the array, never changes the answer; this covers null entries, non-features, missing or non-polygonal geometry, and a throwing test |
| Locator.IneligibleNeverHit | api/lookup.js:93 | a feature whose geometry is neither `Polygon` nor `MultiPolygon` is never a hit, whatever the containment test says |
| Lookup.LoadDataset | api/lookup.js:75-76 | a dataset keeps its document, and has no box only when Turf could compute none |
| Lookup.Locate | api/lookup.js:130-134 | a point outside the box gets `null`; one inside gets the scan's answer |
| Lookup.OutsideBoxIsNull | api/lookup.js:130-134 | outside the box the answer is `null` whatever the document and the containment test, so no scan is needed |
| Lookup.CoveringBoxIsShortcut | api/lookup.js:129-134 | when the box holds every point any feature contains, the box gate changes no answer |
| Lookup.Handle | api/lookup.js:112-134 | a request is a bad request exactly when the parsed latitude or longitude is not finite |
| Lookup.ChambersIndependent | api/lookup.js:130-134 | the house answer does not depend on the senate dataset, and the senate answer does not depend on the house dataset |
| Lookup.JsonNumber | api/lookup.js:156 | `JSON.stringify` writes a finite district number as itself; it writes `null` for no number and for an infinity |
| Lookup.ResponseIsFiniteOrNull | api/lookup.js:156 | each number in a response body is finite and within range; it is `null` exactly when that chamber found no finite number |

## Notable behaviour the proofs make explicit

- A blank value under any listed key other than `OBJECTID`, when no earlier key coerces to a number, resolves to district 0; a blank `DIST_NBR` always does (`Resolver.BlankDistNbrIsZero`).
- The generic keys `DIST_NBR`, `DISTRICT`, `district`, `District` are tried before the chamber key `SLDLST`/`SLDUST` (`Resolver.DirectPrecedence`, `Resolver.GenericKeyOutranks`). `OBJECTID` is listed but never used (`Resolver.ObjectIdIgnored`).
- The first pass returns any finite number, not only whole numbers: a `DISTRICT` of "12.5" gives 12.5 (`Resolver.FractionExample`).
- A label whose digit run denotes a value of at least 2^1024 - 2^970 (about 1.8 × 10^308, `JsNumber.OverflowIsDoubleLimit`) gives an infinity in a correctly rounding engine such as V8 (`Resolver.LabelNumber`), which reaches the JSON body as `null` (`Lookup.ResponseIsFiniteOrNull`).
- Resolution has exactly two passes, the listed keys and then the name labels; no other attribute is ever read (`Resolver.ReadsOnlyListedKeys`).
- There are exactly two boundary layers, house and senate, and each is answered from its own dataset alone (`Lookup.ChambersIndependent`).
- The second pass's bare-number fallback is unreachable (`Resolver.BareNumberFallbackDead`). Whatever it could find, the first pass has already tried, because the three name fields are also first-pass keys.

## Left out

- Request plumbing is not modelled:
  - reading `req.query` and `parseFloat`: `Lookup.Handle` takes the parsed latitude and longitude as inputs;
  - the `debug` payload (lines 137-154);
  - the error response of the `catch` at line 157.
- The Turf library is not part of this model:
  - `turf.booleanPointInPolygon` is the `contains` parameter;
  - `turf.bbox` is the `computed` value;
  - `turf.point` is the `Position` it builds.
- Module loading (`require` of the two GeoJSON files) is not modelled. The documents are inputs to `Lookup.LoadDataset`.
- JsNumber.FromExact: a number keeps the exact value of its literal rather than being rounded to the nearest double. Only the double's range is modelled, so overflow to an infinity is exact, but two literals that round to the same double stay distinct.
- Locator.CollectionBbox: the entries of an embedded `bbox` are taken to be numbers. A JSON `bbox` holding strings or other values, which JavaScript would coerce during comparison, is not modelled.
- Resolver.ExtractDistrictNumber: truthy attributes that are not an object are not modelled. A `properties` of `5` or `"x"` behaves like an empty attribute set in JavaScript; the model represents attributes only as a map or as absent.
- Strings are sequences of Unicode scalar values, not UTF-16 code units, so lone surrogates cannot be written. Every character the trim, the numeric grammar and the pattern care about lies in the Basic Multilingual Plane, so no decision changes.
- An object or array attribute value is carried as the text `String(v)` gives for it (`JsValue.Obj`). How that text arises (`toString`, `join`) is not modelled.
- JsNumber.StringToNumber has no contract of its own. Its meaning is stated by the lemmas in the table, which pin down its result for decimal numerals, radix literals, blank strings, words and infinities. Decimal fractions and exponents are parsed, but they are characterised only by the example "12.5".
- JsValue.ToNumber: every value converts without throwing. In JavaScript, `String(v)` at line 17 throws a `TypeError` for an object whose `toString` and `valueOf` give no primitive, such as `{"toString": 1}`, and the handler then answers 500 (line 157). The model does not represent such values, so it does not show that throw.
- Resolver.ObjectIdIgnored: holds for every value the model represents. Line 44 converts `OBJECTID` before line 45 skips it, so in JavaScript an `OBJECTID` whose `String()` throws turns the answer into the 500 above.
