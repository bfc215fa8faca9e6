# timeduration — a verified model

`timeduration` is a single C++ header that turns human-readable durations
such as `"2h 30m 15s"` into seconds and back. It has two parts, and this
project models both in Dafny.

- **`CTimePeriod::CScanner`** is a cursor-driven lexer. A maximal run of
  digits is a number. The maximal run of letters *immediately* after it is
  its unit literal. The number is added into a map from multiplier to
  count:
  - under the table's multiplier when the literal is a key;
  - under the hard-coded bucket 60 when there is no literal;
  - nowhere when the literal is unknown. This is not an error.

  Every other character is skipped on its own.
- **`CTimePeriod`** is the duration value. It can be built from components,
  from text (through `Parse`) or from raw seconds. `Validate` stores the
  day/hour/minute/second breakdown by cascading C++ division. The value is
  written out by `toString` and `asSqlInterval`, queried through `isZero`, and
  compared memberwise by the defaulted `operator<=>`.

Files:

- `Decimal.dfy`:
  - ASCII `isdigit`/`isalpha`;
  - `std::stoll` on a digit run (`ParseDecimal`);
  - `std::format("{}")` of an integer (`FormatNat`, `FormatInt`), with the
    round trip proved between them.
- `Truncated.dfy`: C++ `/` and `%`, which truncate toward zero.
- `Scanning.dfy`:
  - the specification of the scanner: `Lex` lists the numbers of a source
    with their glued literals; `Accumulate` and `Scan` deliver them into
    buckets, with `RoutedSum` as an independent reference definition of a
    bucket;
  - the lemmas about that specification;
  - the `Scanner` class, whose loops are proved against `Scan`.
- `TimeDuration.dfy`:
  - the unit table;
  - the weighted sum `Parse` computes, proved equal to the per-number
    `Contribution`;
  - `Normalize` (what `Validate` stores) and `Render` (what `toString`
    writes);
  - the round trip from a non-negative total through its text and back
    through the scanner;
  - the `TimePeriod` class.
- `Scenarios.dfy`: the concrete inputs of the library's tests and
  examples, stated for what the code does.

Where the tests and the code disagree, the model follows the code.

- `"1 hours 30 minutes 45 seconds"`: the tests expect three buckets. The
  scanner only attaches letters that touch the digits, so every number goes
  to bucket 60 and the scan is `{60: 76}` (`ScanDetachedLongUnits`).
  For the same text `Parse` gives 4560 seconds where the test expects 5445
  (`ParseDetachedLongUnits`).
- `"1d 5h"` and `"30m"`: the tests expect `"1d 5h 0s"` and `"30m 0s"`.
  `toString` writes the seconds only when they are positive or nothing has
  been written yet, so the text is `"1d 5h "` and `"30m "`, each with a
  trailing space (`RenderDaysHours`, `RenderMinutes`, `RenderEnding`).
- `CTimePeriod(59, 59, 23, 365)`: the test expects more than 365 days. The
  components are already within their clock ranges, so `Validate` stores
  exactly 365 days (`NormalizeAlmostYear`).

## Model

| member | source | states |
|---|---|---|
| Decimal.ParseDecimal | include/timeduration/timeduration.hpp:56 | `std::stoll` of a digit run: the value is below 10 to the number of digits |
| Decimal.IsDigit | include/timeduration/timeduration.hpp:47-48 | definition: `isdigit` on ASCII, the characters `0` to `9` |
| Decimal.IsAlpha | include/timeduration/timeduration.hpp:52 | definition: `isalpha` on ASCII, the letters `a` to `z` and `A` to `Z` |
| Decimal.FormatNat | include/timeduration/timeduration.hpp:203-206 | the decimal text of a natural is non-empty and all digits, has one digit exactly below 10, and has no leading zero except for 0 itself |
| Decimal.ParseFormat | include/timeduration/timeduration.hpp:187 | reading back the decimal text of a natural gives the natural |
| Decimal.FormatInt | include/timeduration/timeduration.hpp:187 | `std::format("{}")` of an integer: the shortest text, i.e. digits that read back as the value with no leading zero except for 0 itself, or `-` followed by such digits for the magnitude |
| Decimal.ParseOneDigit | include/timeduration/timeduration.hpp:56 | one digit reads as its own value |
| Decimal.ParseTwoDigits | include/timeduration/timeduration.hpp:56 | two digits read as tens and units |
| Decimal.ParseThreeDigits | include/timeduration/timeduration.hpp:56 | three digits read as hundreds, tens and units |
| Truncated.Div | include/timeduration/timeduration.hpp:99-106 | C++ division by a positive divisor: the quotient has the sign of the dividend |
| Truncated.Mod | include/timeduration/timeduration.hpp:99-106 | C++ remainder: divisor times quotient plus remainder is the dividend, and the remainder has the dividend's sign and is smaller than the divisor |
| Scanning.Span | include/timeduration/timeduration.hpp:48 | a `while (p(Peek())) Advance()` run is no longer than the text and all its characters satisfy the predicate |
| Scanning.SpanFacts | include/timeduration/timeduration.hpp:48 | the run is a prefix of the text and is maximal: the next character fails the predicate |
| Scanning.SpanOf | include/timeduration/timeduration.hpp:48 | the run over `x + y` is exactly `x` when `x` passes throughout and `y` starts with a failing character |
| Scanning.SpanPrefix | include/timeduration/timeduration.hpp:52 | appending text after a run that already stopped does not change the run |
| Scanning.Token | include/timeduration/timeduration.hpp:47-53 | definition: the number read from the maximal digit run at the head of the text, with the maximal letter run right after it as its literal |
| Scanning.TokenLength | include/timeduration/timeduration.hpp:47-53 | a token covers at least one and at most all remaining characters |
| Scanning.TokenOf | include/timeduration/timeduration.hpp:47-53 | a digit run followed by a maximal letter run is read as that number with that literal |
| Scanning.TokenLengthOf | include/timeduration/timeduration.hpp:47-53 | that token covers exactly the digits and the letters |
| Scanning.Lex | include/timeduration/timeduration.hpp:46-85 | definition: the tokens of the whole source in order, a character that does not start a digit run being skipped on its own |
| Scanning.LexSkip | include/timeduration/timeduration.hpp:47 | a character that is not a digit is skipped and yields nothing |
| Scanning.LexNumber | include/timeduration/timeduration.hpp:47-58 | a source starting with digits and letters yields that number with that literal, then the numbers of the rest |
| Scanning.LexUnitThenSpace | include/timeduration/timeduration.hpp:47-58 | a number with a unit and then a space yields that pair, then the numbers after the space |
| Scanning.LexNoDigits | include/timeduration/timeduration.hpp:79-85 | a source without digits yields no numbers |
| Scanning.TokenSeparated | include/timeduration/timeduration.hpp:48-53 | text after a separator does not change the token before it |
| Scanning.LexSeparated | include/timeduration/timeduration.hpp:79-85 | a separator that is neither digit nor letter splits the source into two parts lexed independently |
| Scanning.DefaultMultiplier | include/timeduration/timeduration.hpp:56 | definition: the bucket 60 a number without letters goes to, fixed in the scanner and not taken from the table |
| Scanning.Route | include/timeduration/timeduration.hpp:55-65 | definition: a number without letters goes to bucket 60, one whose letters are a table key to that key's multiplier, any other is dropped |
| Scanning.Added | include/timeduration/timeduration.hpp:67-72 | adding to a bucket creates it if absent, raises its count by the value, and leaves other buckets alone |
| Scanning.Deliver | include/timeduration/timeduration.hpp:55-72 | definition: the buckets after one number is routed and added, unchanged when it is dropped |
| Scanning.Accumulate | include/timeduration/timeduration.hpp:79-85 | definition: the buckets after the numbers are delivered left to right |
| Scanning.Scan | include/timeduration/timeduration.hpp:75-85 | definition: what a fresh scanner over the text with the given table returns |
| Scanning.AccumulateBuckets | include/timeduration/timeduration.hpp:55-72 | after delivering numbers, a multiplier is a key exactly when it was before or some number was routed to it, and it gained the sum of those numbers |
| Scanning.ScanBuckets | include/timeduration/timeduration.hpp:46-85 | the keys of a scan are exactly the multipliers hit, and each holds the sum of the numbers routed to it |
| Scanning.RoutedSumAppend | include/timeduration/timeduration.hpp:67-72 | the sum routed to a multiplier adds up over a concatenation |
| Scanning.AccumulateAppendKeys | include/timeduration/timeduration.hpp:67-72 | a multiplier is a bucket of a concatenation's delivery exactly when it is a bucket of either part's |
| Scanning.AccumulateAppendGet | include/timeduration/timeduration.hpp:67-72 | each bucket of a concatenation's delivery is the sum of the parts' buckets |
| Scanning.ScanMerge | include/timeduration/timeduration.hpp:46-85 | two parts joined by a separator scan to the bucket-wise sum of their scans |
| Scanning.ScanMergeDefault | include/timeduration/timeduration.hpp:55-56 | two parts that each fill only bucket 60, joined by a separator, fill bucket 60 with the sum |
| Scanning.AccumulateCons | include/timeduration/timeduration.hpp:79-85 | delivering a list is delivering its head, then its tail |
| Scanning.AccumulateOne | include/timeduration/timeduration.hpp:55-58 | delivering one number is routing it once |
| Scanning.AccumulateStep | include/timeduration/timeduration.hpp:79-85 | delivering the numbers of a source is delivering its first token (or skipping its first character), then the rest |
| Scanning.ScanNoDigits | include/timeduration/timeduration.hpp:79-85 | a source without digits, the empty one included, scans to the empty map |
| Scanning.ScanBareNumber | include/timeduration/timeduration.hpp:55-56 | a bare number goes to bucket 60 whatever the table holds |
| Scanning.ScanDetachedUnit | include/timeduration/timeduration.hpp:52-56 | a unit separated from its number by a space is not attached: the number goes to bucket 60 and the letters are skipped |
| Scanning.ScanUnknownUnit | include/timeduration/timeduration.hpp:62-65 | a letter run that is not a table key contributes nothing, and the scan goes on with what follows |
| Scanning.Scanner.constructor | include/timeduration/timeduration.hpp:75-77 | the scanner keeps the source and the table, starts at position 0 with no buckets |
| Scanning.Scanner.AtEnd | include/timeduration/timeduration.hpp:33-35 | at the end exactly when no input remains |
| Scanning.Scanner.Peek | include/timeduration/timeduration.hpp:41-44 | the character at the cursor, or a character that is neither digit nor letter at the end |
| Scanning.Scanner.Advance | include/timeduration/timeduration.hpp:37-39 | returns the character at the cursor and moves the cursor one step |
| Scanning.Scanner.AddValue | include/timeduration/timeduration.hpp:67-72 | the buckets become `Added(old buckets, multiplier, value)` |
| Scanning.Scanner.AddLiteralValue | include/timeduration/timeduration.hpp:62-65 | adds under the literal's multiplier when it is a key, changes nothing otherwise |
| Scanning.Scanner.ScanToken | include/timeduration/timeduration.hpp:46-60 | on a digit, consumes exactly the token and delivers it; on anything else, consumes one character and changes no bucket |
| Scanning.Scanner.ScanTokens | include/timeduration/timeduration.hpp:79-85 | runs to the end and returns the old buckets with every number of the remaining source delivered, i.e. `Scan` for a fresh scanner |
| TimeDuration.Pick | include/timeduration/timeduration.hpp:165-166 | the bucket taken next is a key of the map |
| TimeDuration.DefaultTable | include/timeduration/timeduration.hpp:155-163 | definition: the twelve-entry unit table `Parse` hands to the scanner |
| TimeDuration.UnitTable | include/timeduration/timeduration.hpp:155-163 | the table holds exactly `s`, `m`, `h`, `d`, `mo`, `y` and their long spellings, both spellings mapping to 1, 60, 3600, 86400, 2419200 and 31536000 respectively |
| TimeDuration.WeightedSum | include/timeduration/timeduration.hpp:165-166 | definition: the sum of multiplier times count over all buckets, taken in any order |
| TimeDuration.WeightedSumPick | include/timeduration/timeduration.hpp:165-166 | the sum of multiplier times count does not depend on which bucket is taken first |
| TimeDuration.WeightedSumAdded | include/timeduration/timeduration.hpp:166 | adding a value to a bucket adds multiplier times value to the weighted sum |
| TimeDuration.AccumulateWeightedSum | include/timeduration/timeduration.hpp:153-169 | the weighted sum after delivering numbers is the old sum plus each number times the multiplier it was routed to |
| TimeDuration.ScanWeightedSum | include/timeduration/timeduration.hpp:153-169 | `Parse` weights the buckets to the same total as weighting each number of the source as it is read |
| TimeDuration.ShortUnits | include/timeduration/timeduration.hpp:155-163 | `d`, `h`, `m` and `s` are in the table with 86400, 3600, 60 and 1 |
| TimeDuration.Normalize | include/timeduration/timeduration.hpp:95-107 | the breakdown adds back up to the total, hours, minutes and seconds lie strictly within their clock ranges, and all components share the total's sign |
| TimeDuration.NormalizeUnique | include/timeduration/timeduration.hpp:95-107 | for a non-negative total, any breakdown with components in clock range that adds up to it is the one `Validate` stores |
| TimeDuration.NormalizeSeconds | include/timeduration/timeduration.hpp:105-106 | for a non-negative total the seconds are the total modulo 60 |
| TimeDuration.Render | include/timeduration/timeduration.hpp:201-208 | the text `toString` writes is never empty |
| TimeDuration.Segment | include/timeduration/timeduration.hpp:203-205 | definition: `"<n><unit> "` for a positive component, nothing otherwise |
| TimeDuration.AppendSegment | include/timeduration/timeduration.hpp:203-205 | appending a component's `"<n><unit> "` when it is positive, and nothing otherwise, appends its segment |
| TimeDuration.SegmentEmpty | include/timeduration/timeduration.hpp:203-205 | a component's segment is written exactly when the component is positive |
| TimeDuration.ContributionSegment | include/timeduration/timeduration.hpp:203-205 | a written segment, scanned back, contributes its component times its unit's multiplier |
| TimeDuration.ContributionSeconds | include/timeduration/timeduration.hpp:206 | the written seconds, scanned back, contribute the seconds |
| TimeDuration.RenderContribution | include/timeduration/timeduration.hpp:201-208 | the text of a non-negative breakdown, scanned back, weighs `86400 d + 3600 h + 60 m + s` |
| TimeDuration.RenderReadsBack | include/timeduration/timeduration.hpp:153-169 | for every non-negative total, parsing what `toString` writes gives back the total |
| TimeDuration.RenderLast | include/timeduration/timeduration.hpp:201-208 | the text of a non-negative breakdown ends in a space when the seconds are zero and a larger component is not, and in `s` otherwise |
| TimeDuration.RenderEnding | include/timeduration/timeduration.hpp:201-208 | the text of a non-negative total ends in a space exactly when the total is non-zero and a whole number of minutes |
| TimeDuration.SqlInterval | include/timeduration/timeduration.hpp:186-188 | the SQL text is `interval `, then the total in decimal, then ` second` |
| TimeDuration.SqlIntervalReadsBack | include/timeduration/timeduration.hpp:186-188 | for a non-negative total, the number in the SQL text is all digits and reads back as the total |
| TimeDuration.CompareIntOrder | include/timeduration/timeduration.hpp:219 | comparing totals is a total order: equivalence is equality, swapping the arguments flips the result, and it is transitive |
| TimeDuration.Then | include/timeduration/timeduration.hpp:219 | definition: one step of the defaulted memberwise comparison, the first non-equivalent member deciding |
| TimeDuration.TimePeriod.Validate | include/timeduration/timeduration.hpp:95-107 | the stored breakdown is `Normalize(total)`: it adds up to the total, and for a non-negative total the components lie in clock range |
| TimeDuration.TimePeriod.constructor | include/timeduration/timeduration.hpp:118-125 | the total is `s + 60 m + 3600 h + 86400 d`, and the breakdown is valid |
| TimeDuration.TimePeriod.FromString | include/timeduration/timeduration.hpp:132-135 | the total is the weighted sum of the scan of the text with the default table |
| TimeDuration.TimePeriod.FromSeconds | include/timeduration/timeduration.hpp:142-145 | the total is the argument unchanged |
| TimeDuration.TimePeriod.Parse | include/timeduration/timeduration.hpp:153-169 | the loop over the buckets returns the sum of multiplier times count over the scan with the default table |
| TimeDuration.TimePeriod.ParseFactory | include/timeduration/timeduration.hpp:177-179 | a fresh, valid duration holding the parsed total |
| TimeDuration.TimePeriod.Duration | include/timeduration/timeduration.hpp:190 | the total equals the weighted sum of the four accessors |
| TimeDuration.TimePeriod.Days | include/timeduration/timeduration.hpp:191 | for a non-negative total, the number of complete days in it |
| TimeDuration.TimePeriod.Hours | include/timeduration/timeduration.hpp:192 | strictly between -24 and 24, and non-negative for a non-negative total |
| TimeDuration.TimePeriod.Minutes | include/timeduration/timeduration.hpp:193 | strictly between -60 and 60, and non-negative for a non-negative total |
| TimeDuration.TimePeriod.Seconds | include/timeduration/timeduration.hpp:194 | strictly between -60 and 60, and non-negative for a non-negative total |
| TimeDuration.TimePeriod.AsSqlInterval | include/timeduration/timeduration.hpp:186-188 | the text is `interval `, then the total in decimal, then ` second` |
| TimeDuration.TimePeriod.IsZero | include/timeduration/timeduration.hpp:215-217 | a zero total is exactly a breakdown of four zeros |
| TimeDuration.TimePeriod.ToString | include/timeduration/timeduration.hpp:201-208 | the text built piece by piece is `Render` of the stored breakdown |
| TimeDuration.TimePeriod.Compare | include/timeduration/timeduration.hpp:219 | the memberwise comparison of total and components is the comparison of the totals alone |
| TimeDuration.TimePeriod.Equals | include/timeduration/timeduration.hpp:219 | memberwise equality holds exactly when the totals are equal |
| Scenarios.LexRepeatedUnit | tests/timeduration.cpp:76-82 | `"5m 10m"` yields 5 and 10, both with `m` |
| Scenarios.ScanRepeatedUnit | tests/timeduration.cpp:76-82 | `"5m 10m"` scans to `{60: 15}` |
| Scenarios.LexMixed | tests/timeduration.cpp:99-107 | `"1h 90 30s"` yields 1 with `h`, a bare 90 and 30 with `s` |
| Scenarios.ScanMixed | tests/timeduration.cpp:99-107 | `"1h 90 30s"` scans to `{3600: 1, 60: 90, 1: 30}` |
| Scenarios.LexComplex | tests/timeduration.cpp:37-45 | `"2h 30m 15s"` yields 2 with `h`, 30 with `m` and 15 with `s` |
| Scenarios.ScanComplex | tests/timeduration.cpp:37-45 | `"2h 30m 15s"` scans to `{3600: 2, 60: 30, 1: 15}` |
| Scenarios.ScanDetachedSeconds | tests/timeduration.cpp:47-55 | `"45 seconds"` scans to `{60: 45}` |
| Scenarios.ScanDetachedLongUnits | tests/timeduration.cpp:47-55 | `"1 hours 30 minutes 45 seconds"` scans to `{60: 76}`, not the three buckets the test expects |
| Scenarios.ParseDetachedLongUnits | tests/timeduration.cpp:123-126 | `"1 hours 30 minutes 45 seconds"` parses to 4560 seconds, not the 5445 the test expects |
| Scenarios.ScanBare120 | tests/timeduration.cpp:91-97 | `"120"` scans to `{60: 120}` |
| Scenarios.ScanMilliseconds | examples/advanced_usage.cpp:228 | `"500ms"` scans to the empty map |
| Scenarios.ScanUpperCaseUnit | include/timeduration/timeduration.hpp:62-65 | `"5H"` scans to the empty map: units are case-sensitive |
| Scenarios.ParseComplex | tests/timeduration.cpp:118-121 | `"2h 30m 15s"` parses to 9015 seconds |
| Scenarios.ParseOneUnit | include/timeduration/timeduration.hpp:153-169 | a number glued to a table key parses to the number times the key's multiplier |
| Scenarios.ParseMonth | tests/timeduration.cpp:128-131 | `"1mo"` parses to 2419200 seconds |
| Scenarios.ParseYear | tests/timeduration.cpp:128-131 | `"1y"` parses to 31536000 seconds |
| Scenarios.ParseLargeNumber | tests/timeduration.cpp:138-141 | `"999h"` parses to 3596400 seconds |
| Scenarios.ParseZeroSeconds | tests/timeduration.cpp:133-136 | `"0s"` parses to 0 |
| Scenarios.ParseEmpty | tests/timeduration.cpp:133-136 | the empty text parses to 0 |
| Scenarios.NormalizeComponents | tests/timeduration.cpp:207-219 | the components (3725, 90, 25, 0) normalise to 1 day, 3 hours, 32 minutes and 5 seconds |
| Scenarios.NormalizeLargeComponents | tests/timeduration.cpp:286-293 | 999 days, 23 hours, 59 minutes and 59 seconds keep their components |
| Scenarios.NormalizeAlmostYear | tests/timeduration.cpp:305-310 | the components (59, 59, 23, 365) give exactly 365 days, 23 hours, 59 minutes and 59 seconds, not the more than 365 days the test expects |
| Scenarios.RenderZero | tests/timeduration.cpp:227 | zero is written `"0s"` |
| Scenarios.RenderComplex | tests/timeduration.cpp:224 | 9015 seconds is written `"2h 30m 15s"` |
| Scenarios.RenderDaysHours | tests/timeduration.cpp:225 | one day and five hours is written `"1d 5h "`, not the `"1d 5h 0s"` the test expects |
| Scenarios.RenderMinutes | tests/timeduration.cpp:226 | thirty minutes is written `"30m "`, not the `"30m 0s"` the test expects |
| Scenarios.SqlIntervalExample | tests/timeduration.cpp:230-233 | one hour is `"interval 3600 second"` |

## Left out

- int64 arithmetic: totals, counts and products are unbounded integers. Overflow in the component constructor, in `Parse`'s `Multiplier * Value` and in `std::stoll` is not modelled. Neither is the `std::out_of_range` exception `std::stoll` throws on a huge digit run.
- `std::chrono` types: `seconds`, `minutes`, `hours` and `days` are plain integer counts of seconds.
- Locale-dependent `isdigit`/`isalpha` and non-ASCII characters: both are the ASCII classes.
- The order `Parse` visits buckets in: `std::map` iterates in ascending key order, while the model takes any bucket next. With unbounded integers the sum does not depend on the order (`WeightedSumPick`).
- Default arguments of the component constructor: they are the constructor called with zeros.
- C++ value semantics (copying a `CTimePeriod`, `[[nodiscard]]`, `constexpr`, `noexcept`): not modelled.
- The example programs `examples/basic_usage.cpp` and `examples/advanced_usage.cpp` only print through the public API and sleep: they are not part of this model.
- TimeDuration.TimePeriod.Compare: states that the order is the order of the totals; the six relational operators C++ derives from `<=>` are not written out one by one.
