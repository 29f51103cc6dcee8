# Physigola condition logic in Dafny

This project models the pure core of the Physigola athlete-condition app:

- **Status engine** (`lib/logic/computeStatus.ts`): scores one session's
  self-report and classifies it as stable, caution or danger (GREEN, YELLOW,
  RED). The inputs are the rating of perceived exertion, the minutes, fatigue,
  sleep and a movement flag.
- **Review synthesiser** (`lib/logic/buildReview.ts`): writes the hedged
  Japanese advisory text. It combines the status, the team policy, the player's
  injury state and history, and an optional comparison with an earlier window.
- **Profile and input validation** (`lib/utils/validation.ts`).
- **Past-injury normalisation** (`lib/utils/injuries.ts`): the sentinel "なし"
  (none) excludes every other tag.
- **Period windows and date strings** (`lib/logic/periodFilter.ts`):
  "yyyy-MM-dd" formatting and parsing, "M/d" labels, and the list of the last
  `days` calendar days.
- **Comparison windows** (`lib/logic/comparison.ts`): the previous period of the
  same length, or "last year", which is 365 days back.
- **Share-link tokens** (`lib/utils/token.ts`): random bytes as lower-case hex,
  and the `^[a-f0-9]{64}$` format check.

Every module is a set of pure functions over immutable datatypes.

- `Wrappers` holds `Option` and `Result`.
- `Text` holds the JavaScript string behaviour the core relies on: `trim` with
  the ECMAScript white-space set, `join`, `endsWith`, `filter`, template
  rendering of integers, and zero padding.
- `Calendar` is the proleptic Gregorian calendar behind `Date` and date-fns.
  A date is numbered by its day count from 1970-01-01. `AddDays` moves that
  number. `FromDays` is specified as the unique valid date carrying a given
  number; it is a specification, not an executable conversion.

The date-fns `format` call throws "Invalid time value" on an invalid date. It is
modelled as `Result.Failure(InvalidTimeValue)`. The random source of
`generateToken` becomes the parameter `randomBytes`. The value-coercion
`Number(x) || 0` becomes an `Option<int>`, where `None` stands for a missing or
non-numeric value.

The "last year" comparison is exactly 365 days earlier, as the code computes.
It is not the same calendar date: `Comparison.YoyAcrossLeapDay` shows the
one-day drift when a 29 February lies in between.

## Model

| member | source | states |
|---|---|---|
| StatusEngine.ParseFatigue | lib/logic/computeStatus.ts:34 | a stored fatigue literal is read only as the level that prints as it |
| StatusEngine.FatigueLiteralRoundTrip | lib/logic/computeStatus.ts:34 | each of 低/中/高 reads back as its own level |
| StatusEngine.ParseSleep | lib/logic/computeStatus.ts:35 | a stored sleep literal is read only as the quality that prints as it |
| StatusEngine.SleepLiteralRoundTrip | lib/logic/computeStatus.ts:35 | each of 良/普通/悪 reads back as its own quality |
| StatusEngine.StatusOf | lib/logic/computeStatus.ts:13-32 | the STATUS table entry for a key carries that key |
| StatusEngine.StatusTableDistinct | lib/logic/computeStatus.ts:13-32 | two table entries have the same label exactly when they have the same key |
| StatusEngine.LoadPoints | lib/logic/computeStatus.ts:64-66 | 2 points from a load of 700, 1 point from 450 up to 699, none below 450 |
| StatusEngine.FatiguePoints | lib/logic/computeStatus.ts:68-70 | fatigue adds 0, 1 or 2 points following 低 < 中 < 高 |
| StatusEngine.SleepPoints | lib/logic/computeStatus.ts:72-74 | sleep adds 0, 1 or 2 points following 良 < 普通 < 悪 |
| StatusEngine.Score | lib/logic/computeStatus.ts:61-77 | the score is the sum of the load, fatigue, sleep and flag contributions, between 0 and 7 |
| StatusEngine.Classify | lib/logic/computeStatus.ts:79-82 | RED exactly from 5, YELLOW exactly for 3 and 4, GREEN exactly below 3 |
| StatusEngine.ClassifyMonotone | lib/logic/computeStatus.ts:79-82 | a higher score never gives a less severe key |
| StatusEngine.ComputeStatus | lib/logic/computeStatus.ts:60-83 | the result is the table entry of the key that classifies the score |
| StatusEngine.SessionLoad | lib/logic/computeStatus.ts:61 | sRPE is rpe × minutes when both are numbers, and 0 when either is missing or non-numeric |
| StatusEngine.MissingLoadScoresZero | lib/logic/computeStatus.ts:61 | a missing or non-numeric rpe or minutes contributes no load points, as if both were absent |
| StatusEngine.ComputeStatusMonotone | lib/logic/computeStatus.ts:60-83 | more load, more fatigue, worse sleep or a set flag never lowers the severity |
| StatusEngine.TestedScenarios | __tests__/unit/computeStatus.test.ts:5-81 | the six unit-test inputs give RED, GREEN, YELLOW, GREEN, RED, YELLOW |
| StatusEngine.LoadBoundary | lib/logic/computeStatus.ts:64-66 | loads of 449, 699 and 700 fall on the sides of the thresholds the inclusive comparisons give |
| Review.HasPastInjury | lib/logic/buildReview.ts:60-61 | a history counts unless it is empty or exactly ["なし"] |
| Review.HasPastInjuryNormalized | lib/logic/buildReview.ts:60-83 | for a normalised history, hasPastInjury holds exactly when the note would list a tag |
| Review.TonePrefix | lib/logic/buildReview.ts:67-73 | the safe tone exactly for 安全重視, the intensity tone exactly for 強度重視, the balanced tone otherwise |
| Review.NoteParts | lib/logic/buildReview.ts:76-83 | one non-empty sentence ending in 。 per applicable part, in the order playing, current state, history: the playing sentence first when present, the current-state sentence next, the history sentence last |
| Review.ProfileNote | lib/logic/buildReview.ts:76-85 | the note is empty exactly when no part applies; otherwise it ends in 。 |
| Review.ProfileNoteText | lib/logic/buildReview.ts:76-85 | for each of the eight combinations of parts, the note is the applicable sentences in playing / current / history order, one space between neighbours |
| Review.JoinPresent | lib/logic/buildReview.ts:84 | joining the present ones of three parts with a space puts exactly one space between present neighbours and none elsewhere |
| Review.UnnormalizedHistoryNote | lib/logic/buildReview.ts:80-82 | a history of two sentinels counts as a past injury but lists no tag |
| Review.CautionByProfile | lib/logic/buildReview.ts:62-96 | each caution sentence is chosen exactly under its condition in the precedence limited, then return, then pain or history, otherwise none |
| Review.Round | lib/logic/buildReview.ts:108 | Math.round gives the integer within one half below and strictly less than one half above |
| Review.RoundBounds | lib/logic/buildReview.ts:108 | rounding reaches n exactly from n - 1/2 upwards |
| Review.ScaledAtLeast | lib/logic/buildReview.ts:107-111 | comparing the relative change with a threshold equals comparing the multiplied-out difference |
| Review.PercentThreshold | lib/logic/buildReview.ts:107-111 | a rounded change of at least +10% means current ≥ 1.095 × mean, and at most -10% means current < 0.905 × mean |
| Review.DiffPercent | lib/logic/buildReview.ts:107-109 | 0 when the comparison mean is not positive; otherwise the relative change in percent, rounded to the nearest integer with halves up |
| Review.LoadChange | lib/logic/buildReview.ts:105-118 | a load clause exactly when a comparison mean exists and the rounded change is 10% or more in size; it carries that size and the sign's direction |
| Review.LoadChangeThresholds | lib/logic/buildReview.ts:105-118 | no load clause without a positive comparison mean; otherwise increase and decrease exactly beyond the 109.5% and 90.5% thresholds |
| Review.FatigueChange | lib/logic/buildReview.ts:121-131 | a fatigue clause exactly when the comparison level exists and differs; "higher" exactly when the current level ranks above it |
| Review.ComparisonText | lib/logic/buildReview.ts:99-134 | the text is empty exactly when there is no comparison or neither a load nor a fatigue change is reported; a non-empty text ends in 。 |
| Review.ComparisonTextShape | lib/logic/buildReview.ts:99-134 | the text is empty, one clause plus 。, or load clause 。 fatigue clause 。, by which changes are reported |
| Review.LoadSentenceText | lib/logic/buildReview.ts:113-115 | the load clause prints the percentage so that it reads back as the same number, followed by its direction word |
| Review.JoinSentences | lib/logic/buildReview.ts:137-138 | an empty first sentence gives the second unchanged; otherwise the first, then 。 only when it does not already end in one, then a space and the second |
| Review.BaseReview | lib/logic/buildReview.ts:141-148 | the base sentence is exactly the key's opening, then trend, then tone, then the key's advice |
| Review.BaseReviewStartsWithOpening | lib/logic/buildReview.ts:141-148 | the base sentence begins with the first character of its key's opening |
| Review.OpeningsDiffer | lib/logic/buildReview.ts:143-147 | the three openings begin with different characters |
| Review.BaseReviewDeterminesKey | lib/logic/buildReview.ts:141-148 | equal base sentences come from the same status key, whatever the trend and tone |
| Review.AssembleShape | lib/logic/buildReview.ts:137-158 | a note ending in 。 is joined to the body with exactly one space; comparison and caution follow the base after one space each when present |
| Review.BuildReviewWithProfiles | lib/logic/buildReview.ts:50-158 | the review is the body (base, comparison, caution), preceded by the profile note and one space exactly when there is a note |
| Review.BuildReviewEndsSentence | lib/logic/buildReview.ts:141-158 | every review ends in 。, whichever of advice, comparison text or caution comes last |
| Review.PartsEndSentence | lib/logic/buildReview.ts:150-158 | the assembled review ends in 。 when the base and each present comparison and caution do |
| Review.BareReview | lib/logic/buildReview.ts:50-158 | without profiles or comparison the review is the base sentence in the balanced tone |
| Injuries.Dedup | lib/utils/injuries.ts:10-17 | the Set image has no duplicates, the same members, and is no longer than the input |
| Injuries.DedupOrder | lib/utils/injuries.ts:17 | the Set image lists elements in the order of their first occurrence |
| Injuries.DedupDistinct | lib/utils/injuries.ts:10-17 | a list without duplicates is its own Set image |
| Injuries.WithoutKeepsOrder | lib/utils/injuries.ts:13-17 | deleting "なし" keeps the remaining tags in first-occurrence order |
| Injuries.NormalizePastInjuries | lib/utils/injuries.ts:9-21 | the result is non-empty and duplicate-free; it keeps every tag other than なし, adds nothing else, is ["なし"] whenever なし survives, and otherwise keeps first-occurrence order |
| Injuries.NoneOnlyAlone | lib/utils/injuries.ts:13-20 | なし survives exactly when nothing other than なし was chosen |
| Injuries.NormalizeIdempotent | lib/utils/injuries.ts:9-21 | normalising twice is normalising once |
| Injuries.IsValidPastInjuries | lib/utils/injuries.ts:26-28 | a history is valid exactly when it is non-empty |
| Injuries.NormalizedIsValid | lib/utils/injuries.ts:20-27 | every normalised list passes isValidPastInjuries |
| Injuries.NoneWithOtherDropped | __tests__/unit/injuries.test.ts:6-10 | なし chosen with 膝 gives ["膝"] |
| Injuries.NoneAndEmpty | __tests__/unit/injuries.test.ts:11-20 | ["なし"] and [] both give ["なし"] |
| Injuries.DistinctKept | __tests__/unit/injuries.test.ts:21-28 | three distinct tags are kept in order |
| Injuries.DuplicateDropped | __tests__/unit/injuries.test.ts:29-33 | a duplicated 膝 is kept once |
| Validation.AllFilled | lib/utils/validation.ts:19-21 | every field has a non-white-space character exactly when all are filled |
| Validation.AllFilledFive | lib/utils/validation.ts:11-21 | five fields are all filled exactly when each has content |
| Validation.IsTeamProfileComplete | lib/utils/validation.ts:8-27 | complete exactly when a profile is present, its five text fields have content and activeDays is non-empty |
| Validation.IsPlayerProfileComplete | lib/utils/validation.ts:32-51 | complete exactly when a profile is present, its five text fields have content and pastInjuries is non-empty |
| Validation.WhitespaceFieldIsMissing | lib/utils/validation.ts:19-21 | a field of spaces, tabs or ideographic spaces counts as missing |
| Validation.PlayerCompletenessIgnoresHistory | lib/utils/validation.ts:47-48 | the content of a non-empty history does not affect completeness |
| Validation.IsValidRPE | lib/utils/validation.ts:56-58 | valid exactly from 0 to 10 inclusive |
| Validation.IsValidMinutes | lib/utils/validation.ts:63-65 | valid exactly from 0 to 1440 inclusive |
| Validation.ValidInputsBoundLoad | lib/utils/validation.ts:56-65 | inputs passing both checks give a session load from 0 to 14400 |
| Validation.TeamProfileScenarios | __tests__/unit/validation.test.ts:10-49 | the full test profile is complete; empty activeDays or an empty category makes it incomplete |
| Validation.PlayerProfileScenarios | __tests__/unit/validation.test.ts:51-77 | the full test profile with history ["なし"] is complete; an empty history makes it incomplete |
| Validation.RangeScenarios | __tests__/unit/validation.test.ts:79-103 | the range checks at and just beyond their bounds |
| PeriodFilter.PeriodRangesShape | lib/logic/periodFilter.ts:14-20 | five distinct keys of 1, 7, 21, 30 and 365 days, strictly increasing |
| PeriodFilter.YearFieldIsPadding | lib/logic/periodFilter.ts:32-34 | the year field is the year of era zero-padded to four digits |
| PeriodFilter.MakeDay | lib/logic/periodFilter.ts:25-27 | a day field from 1 to 31 is read d - 1 days after the first of the month: as that day when the month has it, rolled over into the next month otherwise |
| PeriodFilter.MakeDayIsAddDays | lib/logic/periodFilter.ts:25-27 | the read date is the first of the month moved forward by d - 1 days |
| PeriodFilter.MakeDayKeepsDay | lib/logic/periodFilter.ts:25-27 | the read date keeps the year, and keeps the day field exactly when the month has that day |
| PeriodFilter.ParseYmd | lib/logic/periodFilter.ts:25-27 | a date is read only from ten characters, digits with dashes at positions 4 and 7; months 1 to 12 and days 1 to 31 are accepted, a day past the end of the month rolling over |
| PeriodFilter.YmdString | lib/logic/periodFilter.ts:32-34 | the year field, a dash, the two-digit month, a dash and the two-digit day; ten characters for years 1 to 9999 |
| PeriodFilter.YmdRoundTrip | lib/logic/periodFilter.ts:25-34 | parsing the formatting of a date of years 1 to 9999 gives the date back |
| PeriodFilter.ParseYmdCanonical | lib/logic/periodFilter.ts:25-34 | an accepted string with a year from 1 on is the formatting of the date it denotes exactly when its day did not roll over |
| PeriodFilter.ParseFields | lib/logic/periodFilter.ts:25-27 | the joined four-, two- and two-digit fields of y, m and d are read as the (possibly rolled-over) date y-m-d exactly when m is 1 to 12 and d is 1 to 31 |
| PeriodFilter.ParsesAsWritten | lib/logic/periodFilter.ts:25-34 | the formatting of a date of years 1 to 9999 is read back as that date |
| PeriodFilter.ParseJoined | lib/logic/periodFilter.ts:25-27 | digit fields of widths 4, 2 and 2 joined by dashes parse, rolling over, exactly when the month is 1 to 12 and the day 1 to 31 |
| PeriodFilter.YmdInjective | lib/logic/periodFilter.ts:32-34 | within years 1 to 9999, two dates format alike exactly when they are equal |
| PeriodFilter.YearZeroPrintsAsOne | lib/logic/periodFilter.ts:32-34 | the year-of-era convention prints 1 BC and AD 1 alike |
| PeriodFilter.FormatMd | lib/logic/periodFilter.ts:39-42 | formatting fails exactly when the string does not parse |
| PeriodFilter.FormatMdOfYmd | lib/logic/periodFilter.ts:39-42 | for a formatted date it prints month/day with no leading zero, each reading back as its value |
| PeriodFilter.FormatMdFields | lib/logic/periodFilter.ts:39-42 | for every accepted string, the printed month/day is the written month and day when the month has that day, and otherwise the next month and the overflow past the month's end |
| PeriodFilter.FormatMdExample | lib/logic/periodFilter.ts:39-42 | "2024-03-05" gives "3/5" |
| PeriodFilter.FormatMdTwoDigits | lib/logic/periodFilter.ts:39-42 | "2024-12-25" gives "12/25" |
| PeriodFilter.FormatMdMonthThirteen | lib/logic/periodFilter.ts:39-42 | a thirteenth month makes formatting throw |
| PeriodFilter.FormatMdCommonYearLeapDay | lib/logic/periodFilter.ts:39-42 | 29 February of a common year rolls over and prints as "3/1" |
| PeriodFilter.FormatMdDayThirtyTwo | lib/logic/periodFilter.ts:39-42 | a thirty-second day makes formatting throw |
| PeriodFilter.DateWindow | lib/logic/periodFilter.ts:47-56 | the window has `days` entries (none for days ≤ 0), entry i being days - 1 - i days before the end |
| PeriodFilter.WindowEnds | lib/logic/periodFilter.ts:49 | a non-empty window starts days - 1 days before the end and finishes on the end |
| PeriodFilter.WindowConsecutive | lib/logic/periodFilter.ts:51-53 | each entry is followed by the next calendar day |
| PeriodFilter.WindowIncreasing | lib/logic/periodFilter.ts:47-56 | entries are strictly increasing in calendar order, so they are pairwise distinct |
| PeriodFilter.WindowElement | lib/logic/periodFilter.ts:49-53 | entry k is addDays(startDate, k) |
| PeriodFilter.WindowShiftDays | lib/logic/periodFilter.ts:49-53 | each entry of the window of an earlier end has a day number smaller by the shift |
| PeriodFilter.WindowShift | lib/logic/periodFilter.ts:49-53 | moving the end back moves every entry back by the same number of days |
| PeriodFilter.GenerateDateRange | lib/logic/periodFilter.ts:47-56 | the loop returns the yyyy-MM-dd strings of the window, oldest first, one per day |
| PeriodFilter.WindowStringsDistinct | lib/logic/periodFilter.ts:47-56 | within years 1 to 9999 the strings of a window are pairwise distinct |
| PeriodFilter.ToScoreFatigue | lib/logic/periodFilter.ts:61-65 | the fatigue chart score lies in 1 to 3 |
| PeriodFilter.ToScoreSleep | lib/logic/periodFilter.ts:71-75 | the sleep chart score lies in 1 to 3 |
| PeriodFilter.ScoresOrderPreserving | lib/logic/periodFilter.ts:61-75 | chart scores follow the tier orders strictly and are one more than the status points |
| Comparison.ComparisonOptionsShape | lib/logic/comparison.ts:14-18 | the options list none, prev and yoy once each, with distinct literals |
| Comparison.GetComparisonShiftDays | lib/logic/comparison.ts:51-58 | prev shifts by the period length, yoy by 365, none by 0 |
| Comparison.GetComparisonDate | lib/logic/comparison.ts:26-46 | no date exactly for none; it fails exactly when a comparison is asked for and the date does not parse |
| Comparison.ShiftedYmd | lib/logic/comparison.ts:37-42 | within years 1 to 9999 the shifted string parses back to the base date moved back by the shift |
| Comparison.ComparisonDateMatchesShift | lib/logic/comparison.ts:26-58 | the comparison date is the base date moved back by the shift days, for both keys |
| Comparison.YoyIgnoresPeriod | lib/logic/comparison.ts:40-43 | the year-on-year date does not depend on the period length |
| Comparison.ComparisonDateParses | lib/logic/comparison.ts:26-46 | within years 1 to 9999 the comparison date parses to exactly the shift's number of days before the base |
| Comparison.YearBackFromMarch | lib/logic/comparison.ts:42 | 365 days before 1 March is 1 March, or 2 March when a 29 February lies between |
| Comparison.YoyAcrossLeapDay | lib/logic/comparison.ts:40-43 | from 1 March after a leap day, "last year" is 2 March of the year before |
| Comparison.YoyFromRolledOverDate | lib/logic/comparison.ts:40-43 | "2023-02-29" is read as 1 March 2023, so its year-on-year date is "2022-03-01" |
| PeriodFilter.LeapDayRollsOver | lib/logic/periodFilter.ts:25-27 | "2023-02-29" is read as 1 March 2023 |
| Comparison.MarchFirstText | lib/logic/periodFilter.ts:32-34 | 1 March 2022 formats as "2022-03-01" |
| Comparison.PrevWindowAdjacent | lib/logic/comparison.ts:35-38 | the previous-period window ends the day before the current one starts |
| Comparison.StepAfterShift | lib/logic/comparison.ts:35-38 | the day after the date `days` days back is the date `days - 1` days back |
| Comparison.ComparisonWindowShift | lib/logic/comparison.ts:26-58 | each comparison-window day is the matching current-window day moved back by the shift |
| Token.HexEncode | lib/utils/token.ts:9 | two lower-case hex characters per byte |
| Token.HexEncodeAt | lib/utils/token.ts:9 | byte i becomes characters 2i (high nibble) and 2i+1 (low nibble) |
| Token.HexDecode | lib/utils/token.ts:9 | a decoding holds half as many bytes as the string has characters |
| Token.HexRoundTrip | lib/utils/token.ts:8-10 | decoding an encoding gives the bytes back |
| Token.HexDecodeEncode | lib/utils/token.ts:8-10 | encoding a decoding gives the string back |
| Token.GenerateToken | lib/utils/token.ts:8-10 | the token has two characters per random byte and decodes back to those bytes |
| Token.IsValidTokenFormat | lib/utils/token.ts:15-18 | accepted exactly when the token is 64 characters of [a-f0-9] |
| Token.GeneratedTokenValid | lib/utils/token.ts:8-18 | a generated token passes the format check exactly when it was drawn from 32 bytes |
| Token.ValidTokenIsGenerated | lib/utils/token.ts:8-18 | every well-formed token is the generation from some 32 bytes |
| Token.AllHexDecodes | lib/utils/token.ts:15-18 | every even-length string over [a-f0-9] decodes |
| Text.Trim | lib/utils/validation.ts:19-21 | trim removes the longest white-space prefix and suffix and leaves a slice that neither starts nor ends with white space |
| Text.TrimBlankIff | lib/utils/validation.ts:19-21 | trimming leaves "" exactly when every character is white space |
| Text.Without | lib/logic/buildReview.ts:82 | filter keeps exactly the elements other than v, keeps distinctness, and is the identity when v is absent |
| Text.WithoutAppend | lib/logic/buildReview.ts:82 | filtering a concatenation filters each half and keeps their order |
| Text.WithoutSingle | lib/logic/buildReview.ts:82 | a one-element list loses its element exactly when it is v |
| Text.Join | lib/logic/buildReview.ts:84 | the join of no parts is empty; otherwise it starts with the first part and is as long as the parts plus one separator between each neighbouring pair |
| Text.JoinAppend | lib/logic/buildReview.ts:84 | joining two non-empty lists one after the other is joining each and putting one separator between the results |
| Text.JoinTwo | lib/logic/buildReview.ts:84 | joining two parts places the separator between them |
| Text.JoinThree | lib/logic/buildReview.ts:84 | joining three parts places the separator between each neighbouring pair |
| Text.EndsWithAppend | lib/logic/buildReview.ts:137-138 | a string still ends with what its appended part ends with |
| Text.JoinEndsWithLast | lib/logic/buildReview.ts:84 | a joined list ends with its last element |
| Text.NatToDecimal | lib/logic/buildReview.ts:113-115 | the template rendering is non-empty decimal digits with no leading zero, one digit exactly below 10 |
| Text.DecimalRoundTrip | lib/logic/buildReview.ts:113-115 | reading the rendering back gives the number |
| Text.PadZeros | lib/logic/periodFilter.ts:33 | padding reaches the requested width or leaves a longer string's length |
| Text.PadZerosShape | lib/logic/periodFilter.ts:33 | padding only prepends zeros |
| Text.PadZerosValue | lib/logic/periodFilter.ts:33 | padding keeps the value of a digit string |
| Text.FixedWidthIsPadding | lib/logic/periodFilter.ts:33 | the two- and four-digit fields are the zero padding of the shortest rendering |
| Text.Digits2Canonical | lib/logic/periodFilter.ts:25-34 | every two-digit string is the two-digit field of its value |
| Text.Digits4Canonical | lib/logic/periodFilter.ts:25-34 | every four-digit string is the four-digit field of its value |
| Calendar.AddDays | lib/logic/comparison.ts:37 | addDays moves the day number by exactly n |
| Calendar.AddZero | lib/logic/periodFilter.ts:49 | adding zero days leaves the date unchanged |
| Calendar.AddDaysAdd | lib/logic/periodFilter.ts:49-52 | two shifts compose into one by adding their lengths |
| Calendar.AddOneIsNextDay | lib/logic/periodFilter.ts:51-52 | adding one day steps to the next calendar day: next day of the month, first of next month, or 1 January |
| Calendar.NextDayNumber | lib/logic/periodFilter.ts:51-52 | the next calendar day has the next day number |
| Calendar.NextOfAddDays | lib/logic/periodFilter.ts:49-52 | the day after the date n days on is the date n + 1 days on |
| Calendar.DaysApart | lib/logic/comparison.ts:37 | a date whose day number is n more than another's is that date moved on by n days |
| Calendar.DaysBack | lib/logic/comparison.ts:37 | a date whose day number is n less than another's is that date moved back by n days |
| Calendar.ToDaysInjective | lib/logic/comparison.ts:33-42 | two dates share a day number exactly when they are equal |
| Calendar.FromToDays | lib/logic/comparison.ts:33-42 | converting a date to its day number and back gives the date |
| Calendar.ToDaysOrder | lib/logic/periodFilter.ts:47-56 | calendar order (year, month, day) agrees with day-number order |

## Left out

- Server actions, Supabase access, authentication, audit logging, the pages and components, and the demo data: they are I/O and UI around the core.
- `crypto.randomBytes`: the random bytes are a parameter of `Token.GenerateToken`. Its error on a bad `length` argument is not modelled.
- JavaScript numbers: rpe, minutes and load are integers. Fractional inputs, `NaN` and IEEE rounding are not modelled. The comparison averages are exact `real`s.
- `Number(x) || 0` is modelled as `Option<int>` defaulting to 0. Which strings `Number` accepts is not modelled.
- Time zones and daylight saving: `parseYmd` builds a local-midnight `Date`, and the model treats dates as calendar days only.
- `PeriodFilter.ParseYmd` models V8's reading of "YYYY-MM-DDT00:00:00" strings: four year digits, months 1 to 12, days 1 to 31 rolling over past the end of the month. Other formats V8 also accepts (extended six-digit years, strings of another length) are read as an invalid date.
- The round-trip lemmas (`PeriodFilter.YmdRoundTrip`, `PeriodFilter.ParseYmdCanonical`, `Comparison.ComparisonDateParses`) are stated for years 1 to 9999: those are the years that four digit characters express. Formatting itself is modelled for every year.
- `pastInjuries` and `activeDays` are always lists in the model. The source treats null and undefined like an empty array. Other non-array values are not modelled: `new Set` in `normalizePastInjuries` would split a string into its characters and throw on a number.
- JavaScript `Date` only covers about 1e8 days either side of 1970 (±8.64e15 ms). Outside that range `format` throws "Invalid time value". `Calendar.AddDays` and `PeriodFilter.YmdString` are unbounded and do not model that failure.
- `Calendar.FromDays` is specified as the unique valid date with a given day number. It is not an executable conversion; the model uses it only through `AddDays`.
- The aggregation that produces `ComparisonData` (window means of sRPE and fatigue) is done by callers outside the core. The model takes its fields as inputs.
- The `label` field of `STATUS`, `PERIOD_RANGES` and `COMPARISON_OPTIONS` is named `caption` in the model. The style classes `tone` and `chip` are kept as plain strings.
