# Unit converter: the command validator and dispatcher

A model of the core of a small interactive unit converter. The user types
lines such as `1 mi in ft`. Each line is split at whitespace into four tokens
`AMOUNT SOURCE_UNIT in DESTINATION_UNIT`. The validator applies six checks in
a fixed order and reports the first that fails:

1. the token count is four;
2. the amount is a number;
3. the source unit is known;
4. the destination unit is known;
5. the connector is `in`;
6. both units are in the same category.

The dispatcher then does one of three things: it quits on the exact line
`q`, it reports the validator's error, or it converts the amount. To convert,
it divides by the source unit's factor and multiplies by the destination
unit's factor. It echoes the amount token as typed.

Files:

- `tokens.dfy` (module `Tokens`): whitespace splitting of a line, the way
  Python's `str.split()` does it for ASCII whitespace, and joining tokens
  with single spaces.
- `numbers.dfy` (module `Numbers`): the amount check. It is a scanner for
  finite decimal literals, `[+|-] digits [. digits] [e|E [+|-] digits]` with
  at least one mantissa digit, that collects the pieces it reads. The
  number a token denotes is the exact value of those pieces.
- `tables.dfy` (module `Tables`): the static tables.
  - The three unit-to-factor maps, with factors as the exact decimals written
    in the source.
  - Their union, the set of known units and the unit-to-category map.
  - The conversion arithmetic.
- `converter.dfy` (module `Converter`): the validator, the dispatcher and
  the properties that relate them.
- `scenarios.dfy` (module `Scenarios`): particular lines and their outcomes.
- `options.dfy` (module `Options`): the optional value the validator returns.

The category tags are kept exactly as coded. The table named for weights
holds L, mL, floz, cup, pint, qt and gal, and its units are tagged `Weight`.
The table named for volumes holds g, kg, mg, oz and lb, and its units are
tagged `Volume`. The banner of the program describes the groups the other
way round. Only the grouping affects the converter, and the category error
names the tags as coded.

For `1 mi in ft` the tables give 3.280841666667 / 0.000621371 =
5280.0044847… feet, printed as `5280.004485` (`Scenarios.MileInFeet`).

## Model

| member | source | states |
|---|---|---|
| Tokens.LeadingWord | converter.py:61 | the first word of a line is a whitespace-free prefix that stops at whitespace or the end |
| Tokens.Split | converter.py:61 | splitting yields only non-empty tokens without whitespace |
| Tokens.SplitJoin | converter.py:61 | splitting tokens joined by single spaces gives back exactly those tokens |
| Tokens.SplitEmpty | converter.py:61-63 | a line has no tokens exactly when it consists of whitespace only |
| Tokens.SplitDropsLeading | converter.py:61 | leading whitespace does not change the tokens |
| Tokens.SplitDropsTrailing | converter.py:61 | trailing whitespace does not change the tokens |
| Tokens.SplitToken | converter.py:61 | a token followed by whitespace or the end is split off as the first token |
| Numbers.ParseDecimal | converter.py:77-82 | a number read from a token is the value of the well-formed literal the scanner read, whose text is the whole token; `LiteralRoundTrip` gives the converse |
| Numbers.IsFloat | converter.py:77-82 | the amount check; `IsFloatIffLiteral` says it accepts exactly the texts of well-formed literals |
| Numbers.RunReads | converter.py:77-82 | unless the scanner refuses the input, what it has read is exactly the input read, in the shape its state names |
| Numbers.StepReads | converter.py:77-82 | each character the scanner accepts is appended to what it has read, keeping that in its state's shape |
| Numbers.AcceptedIsLiteral | converter.py:77-82 | every accepted amount is the text of a well-formed literal, and its number is that literal's value |
| Numbers.LiteralRoundTrip | converter.py:77-82 | the text of every well-formed literal is accepted, with that literal's value |
| Numbers.IsFloatIffLiteral | converter.py:77-82 | an amount is accepted exactly when it is the text of some well-formed literal |
| Numbers.IntegerToken | converter.py:77-82 | a run of digits is accepted as the integer it denotes |
| Numbers.RejectsForeignChar | converter.py:77-82 | a character other than a digit, sign, point or exponent marker makes the amount invalid |
| Numbers.RejectsNoDigit | converter.py:77-82 | an amount without any digit is invalid |
| Tables.Category | converter.py:30-33 | the three category tags, `Distance`, `Volume` and `Weight` |
| Tables.BaseDistanceMap | converter.py:3-12 | the distance table, metre based, with the factors as written; its properties are `DistanceWeightDisjoint`, `DistanceVolumeDisjoint` and `DistanceEntry` |
| Tables.BaseWeightMap | converter.py:13-21 | the weight-named table, litre based, with the factors as written; see `WeightVolumeDisjoint` and `WeightEntry` |
| Tables.BaseVolumeMap | converter.py:22 | the volume-named table, gram based, with the factors as written; see `VolumeEntry` |
| Tables.BaseMap | converter.py:23 | the merged factor map; `BaseMapCoversUnits` and `FactorIsBaseMapEntry` say it holds every unit with its own table's factor |
| Tables.Units | converter.py:24-27 | the known units; `UnitsAreTableKeys` says they are exactly the keys of the three tables |
| Tables.Categories | converter.py:36-40 | the unit-to-category map; `CategoriesCoverUnits` and `CategoryOfIsCategoriesEntry` give its domain and entries |
| Tables.CategoryOf | converter.py:73 | the category of a known unit is `Distance`, `Volume` or `Weight` exactly when the unit is in the distance, volume-named or weight-named table; `CategoryOfIsCategoriesEntry` ties it to the category map |
| Tables.DistanceWeightDisjoint | converter.py:3-21 | the distance and weight-named tables share no unit |
| Tables.DistanceVolumeDisjoint | converter.py:3-22 | the distance and volume-named tables share no unit |
| Tables.WeightVolumeDisjoint | converter.py:13-22 | the weight-named and volume-named tables share no unit |
| Tables.UnitsAreTableKeys | converter.py:24-27 | the known units are exactly the keys of the three tables |
| Tables.BaseMapCoversUnits | converter.py:23-27 | the merged factor map is defined on exactly the known units |
| Tables.CategoriesCoverUnits | converter.py:36-40 | the category map is defined on exactly the known units |
| Tables.DistanceEntry | converter.py:23-37 | a distance unit keeps its own factor in the merged map and is tagged Distance |
| Tables.WeightEntry | converter.py:23-39 | a unit of the weight-named table keeps its own factor and is tagged Weight |
| Tables.VolumeEntry | converter.py:23-38 | a unit of the volume-named table keeps its own factor and is tagged Volume |
| Tables.FactorsPositive | converter.py:4-22 | every known unit has a strictly positive factor in the merged map |
| Tables.Factor | converter.py:105 | the factor of a known unit is strictly positive, so dividing by it is defined |
| Tables.FactorIsBaseMapEntry | converter.py:23 | the factor used is the unit's entry in the merged factor map |
| Tables.CategoryOfIsCategoriesEntry | converter.py:36-40 | the category used is the unit's entry in the category map |
| Tables.Rescale | converter.py:105 | rescaling preserves the quantity measured against the reference unit |
| Tables.RescaleCompose | converter.py:105 | rescaling in two steps is rescaling in one |
| Tables.ConvertAmount | converter.py:105 | the result, taken back to the reference unit, equals the amount taken to the reference unit |
| Tables.ConvertIdentity | converter.py:105 | converting a unit to itself leaves the amount unchanged |
| Tables.ConvertCompose | converter.py:105 | converting through an intermediate unit is converting directly |
| Tables.ConvertRoundTrip | converter.py:105 | converting there and back returns the original amount |
| Converter.ValidationError | converter.py:62-74 | one error per check, carrying the tokens its message names |
| Converter.Outcome | converter.py:95-107 | quitting, a reported error, or a conversion echoing the amount and units with its result |
| Converter.ValidateTokens | converter.py:62-74 | the checks accept exactly a well-formed request, and otherwise report one failing check with its tokens; `ReportsFirstFailure` says it is the failing check of lowest rank |
| Converter.Validate | converter.py:60-74 | a line is accepted exactly when its tokens form a well-formed request; see `ReportsFirstFailure` and `ValidateAcceptsExactly` |
| Converter.ErrorFor | converter.py:62-74 | the error reported for a failing check is the one of that check |
| Converter.PassesIsAccepted | converter.py:60-74 | no check fails exactly when the tokens are four, the amount is a number, both units are known, the connector is `in` and the categories agree |
| Converter.AcceptsRequest | converter.py:60-74 | a well-formed request passes the validator |
| Converter.RejectsFormat | converter.py:62-63 | a token count other than four gives the format error, the first failure |
| Converter.RejectsAmount | converter.py:65-66 | with four tokens and a non-number amount, the amount error naming it is reported first |
| Converter.RejectsSourceUnit | converter.py:67-68 | with a valid amount and an unknown source, the source-unit error naming it is reported first |
| Converter.RejectsDestinationUnit | converter.py:69-70 | with a known source and an unknown destination, the destination-unit error is reported first |
| Converter.RejectsConnector | converter.py:71-72 | with both units known and a connector other than `in`, the connector error is reported first |
| Converter.RejectsCategories | converter.py:73-74 | when all earlier checks pass and the categories differ, the category error naming both is reported |
| Converter.RejectsMalformed | converter.py:62-74 | a request that is not well formed gets an error, the first failure |
| Converter.ReportsFirstFailure | converter.py:60-74 | the validator accepts exactly when no check fails, and otherwise reports the failing check of lowest rank with its tokens |
| Converter.ValidateAcceptsExactly | converter.py:60-74 | a line is accepted exactly when its tokens form a well-formed request |
| Converter.FormatErrorIffNotFourTokens | converter.py:61-63 | the format error is reported exactly when the line does not have four tokens |
| Converter.BlankLineIsInvalid | converter.py:61-63 | a line of whitespace only is a format error |
| Converter.Convert | converter.py:85-107 | quits exactly on `q`; fails exactly when the validator reports, with its error; otherwise echoes the four tokens and gives a result that preserves the quantity |
| Converter.ConvertResult | converter.py:105 | a conversion's result is the amount's value divided by the source unit's entry in the merged factor map and multiplied by the destination unit's |
| Converter.ConvertSameUnit | converter.py:105 | a conversion between a unit and itself gives back the amount |
| Converter.SameQuotient | converter.py:105 | two quantity-preserving rescalings in opposite directions undo each other |
| Converter.ConvertBack | converter.py:105 | feeding a result back in the opposite direction recovers the amount first read |
| Converter.ValidateIgnoresPadding | converter.py:61 | whitespace around a line does not change the validator's verdict |
| Converter.PaddedQuitIsInvalid | converter.py:95-96 | `q` with whitespace around it is not the quit line but a format error |
| Converter.UnitIsToken | converter.py:24-27 | every known unit is a single token |
| Converter.ConvertsRequest | converter.py:98-107 | a well-formed request written with single spaces is converted with its own amount, units and value |
| Converter.RejectsLine | converter.py:98-101 | a line written from tokens fails with the error the checks report on them |
| Converter.UnknownUnitNeverConverts | converter.py:67-70 | a four-token line with an unknown unit is never converted, and with a number as amount the error is a unit error |
| Converter.CrossCategoryIsReported | converter.py:73-74 | when all earlier checks pass and the categories differ, the line fails with the category error |
| Scenarios.OneIsOne | converter.py:77-82 | the token `1` is the number one |
| Scenarios.MetreAndKilometreFactors | converter.py:4-7 | the metre and kilometre factors are 1 and 0.001 |
| Scenarios.MetreInKilometres | converter.py:92-93 | `1 m in km` converts to 0.001 km, echoing `1` |
| Scenarios.MileAndFootFactors | converter.py:9-11 | the mile and foot factors are 0.000621371 and 3.280841666667 |
| Scenarios.MileRatio | converter.py:9-11 | 3.280841666667 / 0.000621371 lies between 5280.0044847 and 5280.0044848 |
| Scenarios.MileInFeet | converter.py:51 | `1 mi in ft` converts to between 5280.0044847 and 5280.0044848 feet |
| Scenarios.InchesInInches | converter.py:71 | `1 in in in` is a valid request from inches to inches with result 1 |
| Scenarios.EmptyLineIsInvalid | converter.py:62-63 | the empty line is a format error |
| Scenarios.UnknownSourceUnit | converter.py:67-68 | `5 xyz in m` fails with the source-unit error naming `xyz` |
| Scenarios.WrongConnector | converter.py:71-72 | `1 m to km` fails with the connector error naming `to` |
| Scenarios.WordAsAmount | converter.py:65-66 | `abc m in km` fails with the amount error naming `abc` |
| Scenarios.LengthToMass | converter.py:73-74 | `1 m in g` fails with the category error Distance m / Volume g |

## Left out

- The banner, the prompt loop, reading input, printing and the call to
  `quit()` (converter.py:43-57, converter.py:110-122). They are I/O. The
  dispatcher returns what it would print or do as an outcome value instead.
- The text of the error messages, including the rendering of the unit set,
  whose element order is not fixed (converter.py:63-74). An error carries
  only its kind and the offending tokens.
- Floating point. The factors and the result are exact reals, with the
  factors taken as the decimals written in the tables. The six-decimal
  rounding of the printed result is not modelled (converter.py:104-106).
  The result is the exact quotient-and-product.
- Numbers.IsFloat: accepts only finite decimal literals over ASCII digits.
  Python's `float()` also accepts `inf`, `infinity` and `nan` in any case,
  underscores between digits, and non-ASCII digits. The model rejects
  those amounts.
- Tokens.Split: splits at ASCII whitespace only (tab, line feed, vertical
  tab, form feed, carriage return, the characters 28 to 31 and space).
  Python's `str.split()` also splits at the other Unicode white-space
  characters.
