# Phone usage analysis: a Dafny model of `analyze.py`

`analyze.py` reads a phone-usage export: one JSON entry per day, with the
minutes of screen time, the number of pickups and an ISO timestamp. The
script turns every entry into a `Day` record. It keeps the days whose date
mentions "2018", lists their minutes and pickups, and builds histogram bins
of 60 minutes over the minutes.

This project models that pipeline as pure Dafny: datatypes for the records,
one function per stage, and lemmas for what each stage guarantees.

- `Text` models the string operations the script uses: `str.split` with a
  one-character separator, the substring test `pat in s`, and decimal digit
  fields.
- `Calendar` models the proleptic Gregorian ordinal and `weekday()` of
  Python's `datetime`, with Monday as 0.
- `DateFormat` models `strptime` for the one format the script uses,
  `'%Y-%M-%d'`. In that format `%M` is the minute directive, so the middle
  field is read as a minute and the month stays at its default, January.
- `DayRecord` models the JSON entry, the exceptions the script can raise,
  and the construction of a `Day`.
- `Analyze` models the list comprehensions and the bin edges, and `Run`
  composes them in the script's order.

Two consequences of the code as written:

- The weekday flag is the weekday of day DD of January of year YYYY,
  because `%M` is the minute directive (`RealMonthIgnored`).
- The last bin edge is the least multiple of 60 that is at least the
  maximum, so a maximum that is a multiple of 60 is itself the last edge
  (`MaxOnMultipleOf60`).

## Model

| member | source | states |
|---|---|---|
| Text.Split | analyze.py:10 | `str.split` with one separator always returns at least one piece, and no piece contains the separator |
| Text.JoinSplit | analyze.py:10 | joining the pieces of a split with the separator gives back the original string |
| Text.SplitCount | analyze.py:10 | a split has exactly one more piece than the string has separators |
| Text.SplitHead | analyze.py:10 | the first piece is a prefix with no separator; it is followed by the separator unless it is the whole string; it is the whole string exactly when there is no separator |
| Text.SplitCons | analyze.py:10 | a separator-free prefix followed by the separator splits off as the first piece, and the rest splits as before |
| Text.SplitNone | analyze.py:10 | a string without the separator splits into itself alone |
| Text.Contains | analyze.py:24 | `pat in s` never finds a pattern longer than the string, and always finds one the string ends with; ContainsIff characterises it fully |
| Text.ContainsIff | analyze.py:24 | the substring test holds exactly when the pattern occurs at some index, in both directions |
| Text.DigitsValue | analyze.py:11 | a field of n digits reads as a number below 10^n |
| Text.PadDigits | analyze.py:11 | zero-padding gives exactly `width` ASCII digits |
| Text.DigitsRoundTrip | analyze.py:11 | reading back a zero-padded number that fits its width gives the number |
| Calendar.Weekday | analyze.py:11 | `weekday()` is a number from 0 (Monday) to 6 (Sunday) |
| Calendar.YearStep | analyze.py:11 | the closed count of days before year y + 1 is the count before y plus the length of y |
| Calendar.DaysBeforeYearIsTotal | analyze.py:11 | the closed leap-year formula equals summing the year lengths one by one |
| Calendar.MonthTableConsistent | analyze.py:11 | each month starts where the previous one ends, and December ends where the year does |
| Calendar.NextDateOrdinal | analyze.py:11 | the next calendar day is a valid date whose ordinal is one more |
| Calendar.NextDateWeekday | analyze.py:11 | the weekday of the next calendar day is the next weekday, modulo 7 |
| Calendar.FirstDayMonday | analyze.py:11 | 0001-01-01, ordinal 1, is a Monday |
| Calendar.Weekday2018 | analyze.py:11 | a day of 2018 has the weekday of its count of days since 1 January, because 2018 began on a Monday |
| Calendar.KnownWeekdays | analyze.py:11 | 2018-01-01 is a Monday, 2018-01-05 a Friday, 2018-01-06 and 2018-05-05 Saturdays |
| DateFormat.ParseYearMinuteDay | analyze.py:11 | a successful parse is midnight of a valid date in January, with a minute from 0 to 59 |
| DateFormat.SplitThree | analyze.py:11 | three dash-free fields joined by dashes split back into those three fields |
| DateFormat.ParseFormatted | analyze.py:11 | parsing a zero-padded year-minute-day string gives back the fields with the month set to January exactly when the year is not 0, the minute is at most 59 and the day is 1 to 31; otherwise the parse fails |
| DateFormat.ContainsYear | analyze.py:24 | a zero-padded year-minute-day string contains "2018" exactly when its year is 2018 |
| DayRecord.DateOf | analyze.py:10 | the date kept is the prefix before the first 'T'; it contains no 'T'; it is the whole timestamp exactly when there is no 'T' |
| DayRecord.WeekdayFlag | analyze.py:11 | the flag is a ValueError naming the date exactly when the parse fails; otherwise it is true exactly when the weekday of that day of January is below 5 |
| DayRecord.NewDay | analyze.py:7-11 | construction succeeds exactly when the three keys are present, the counts are integers, the date is a string and its date part parses. The counts are copied, the date is the part before 'T' and the flag is that date's weekday flag. Missing keys raise KeyError in lookup order, a non-string date raises AttributeError, and a date strptime rejects raises ValueError |
| DayRecord.WeekendIffSaturdayOrSunday | analyze.py:11 | the flag is false exactly on a Saturday or Sunday of the January date |
| DayRecord.MiddleFieldIgnored | analyze.py:11 | two dates differing only in the middle field get the same flag |
| DayRecord.FlagOfFormattedDate | analyze.py:11 | for a zero-padded date, the flag is that of the given day of January when the middle field is at most 59; otherwise it is a ValueError |
| DayRecord.NewDayOfTimestamp | analyze.py:7-11 | an entry with integer counts and a "YYYY-MM-DDThh:mm..." timestamp builds the day dated "YYYY-MM-DD" with both counts, flagged by the weekday of day DD of January |
| DayRecord.RealMonthIgnored | analyze.py:11 | 2018-05-05 is a Saturday, yet its flag says weekday, because 5 January 2018 was a Friday |
| DayRecord.TruncatesTimestamp | analyze.py:10 | "2018-05-04T10:00:00Z" keeps the date "2018-05-04" |
| DayRecord.JanuaryScenario | analyze.py:11 | 2018-01-01 is flagged as a weekday and 2018-01-06 is not |
| Analyze.FirstBad | analyze.py:22 | when some entry fails, the result is the position of the first failing entry: it fails and every entry before it builds |
| Analyze.MapDays | analyze.py:22 | the map succeeds exactly when every entry builds; it then gives one day per entry, in order, each the day its entry builds; otherwise the error is that of the first failing entry |
| Analyze.In2018 | analyze.py:24 | a day passes the filter only if its date has at least four characters; DayIn2018IffYear says which ISO dates pass |
| Analyze.Keep2018 | analyze.py:24 | the filter never lengthens the list, and a day is kept exactly when it was in the list and its date contains "2018" |
| Analyze.KeptPositionsSelect | analyze.py:24 | the kept days are, in order, the days at the kept positions |
| Analyze.KeptPositionsIncrease | analyze.py:24 | the kept positions strictly increase, so the filter keeps the input order |
| Analyze.KeptPositionsExact | analyze.py:24 | a position is kept exactly when the day there passes the filter |
| Analyze.KeepEmptyIff | analyze.py:24 | the filter keeps nothing exactly when no day passes it |
| Analyze.KeepIdempotent | analyze.py:24 | filtering twice gives the same list as filtering once |
| Analyze.DayIn2018IffYear | analyze.py:7-11 | a day built from an ISO timestamp passes the filter exactly when the timestamp's year is 2018 |
| Analyze.MinuteData | analyze.py:38 | the minute list has one entry per day, each that day's minutes |
| Analyze.PickupData | analyze.py:52 | the pickup list has one entry per day, each that day's pickups |
| Analyze.Max | analyze.py:40 | `max()` of a non-empty list is an element of it and at least every element |
| Analyze.BinEdges | analyze.py:40 | building the edges raises the empty-`max()` error exactly when there are no minutes |
| Analyze.Range | analyze.py:40 | `range(start, stop, step)` is empty exactly when start >= stop, starts at start otherwise, and every value lies in [start, stop); RangeShape gives its length and values for the bins step |
| Analyze.RangeShape | analyze.py:40 | `range(start, stop, 60)` has ceil((stop - start) / 60) values when start < stop, none otherwise, and its k-th value is start + 60k |
| Analyze.BinEdgesShape | analyze.py:40 | for a maximum m >= 0 the edges are 0, 60, 120, ..., ceil(m / 60) + 1 of them; each is below m + 60; consecutive edges differ by 60; the last is at least m and the one before it is below m |
| Analyze.MaxOnMultipleOf60 | analyze.py:40 | a maximum of 120 gives the edges 0, 60, 120 and no edge at 180 |
| Analyze.Run | analyze.py:22-52 | a failing map fails the run with the map's error; once every entry is built the only failure left is `max()` of an empty list; a successful run keeps at least one day, and every kept day is dated 2018. RunKeeps2018Days, RunProjects, AnyBadEntryFailsRun and NothingIn2018FailsRun say the rest |
| Analyze.AnyBadEntryFailsRun | analyze.py:22-24 | one entry that cannot be built fails the run with the first failing entry's error, whatever the dates say, because the map runs before the filter |
| Analyze.RunKeeps2018Days | analyze.py:22-24 | a successful run keeps a built day exactly when its date contains "2018", and keeps nothing that no entry built |
| Analyze.RunProjects | analyze.py:38-52 | a successful run has at least one kept day; its minutes and pickups are those of the kept days, position by position, and its bins are the edges of those minutes |
| Analyze.NothingIn2018FailsRun | analyze.py:24-40 | when every entry builds but no date contains "2018", the run fails at `max()` of an empty list |
| Analyze.FirstOfTwoKept | analyze.py:22-52 | of two buildable entries where only the first is dated 2018, the run keeps the first day alone and bins its minutes |
| Analyze.TwoNewYearEntries | analyze.py:22-52 | entries on 1 January 2018 and on 1 January 2019 give a run that keeps only the 2018 day, with its minutes and pickups |
| Analyze.TwoEntryScenario | analyze.py:22-52 | for 2018-01-01 with 120 minutes and 10 pickups and 2019-01-01 with 60 minutes and 5 pickups, the run keeps the Monday of 2018 flagged as a weekday, with minutes [120], bins [0, 60, 120] and pickups [10] |

Proof helpers without a row, since they state arithmetic or proof steps
rather than behaviour of the script: `Text.Pow10`, `Calendar.StepDiv`,
`Calendar.DivisorChain`, `Calendar.ModSevenStep`,
`DateFormat.DigitsAreDashFree`, `DateFormat.OccurrenceAvoids`,
`Analyze.Shift`, `Analyze.ShiftIncreasing`, `Analyze.ShiftMember`.

## Left out

- Reading `data/moment.json` and taking its first value (analyze.py:17-20) is file I/O. `Run` takes the list of raw entries as its parameter.
- `Day.__repr__` (analyze.py:13-15) and the two `print` calls (analyze.py:53, 55) are output only.
- `np.mean` and `np.std` (analyze.py:39, 54) are floating point.
- The histogram and the plot (analyze.py:41-47) belong to matplotlib. The model stops at the bin edges handed to `plt.hist`.
- NewDay: it raises TypeError for a count that is not a JSON integer. Python copies any value into the record. The input format gives integers, so the model keeps integer counts.
- DateFormat.ParseYearMinuteDay: does not accept a space-padded day (" 5") and reads ASCII digits only, while Python's `\d` also matches other Unicode digits.
- Calendar: the internals of Python's `datetime` module are not part of this model. The ordinal and weekday are rebuilt from the proleptic Gregorian rules it documents, for years 1 to 9999.
- Calendar.NextDateOrdinal and Calendar.NextDateWeekday: they leave out 9999-12-31, which has no next day in `datetime`.
- DayRecord.MiddleFieldIgnored: only covers middle fields that both parse. A middle field above 59 is a ValueError (see DayRecord.FlagOfFormattedDate).
- Integers are unbounded. Python's integers are unbounded too, so no wrap-around is modelled.
