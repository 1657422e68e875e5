/** The `Day` record of analyze.py: one day of phone usage built from one
    raw JSON entry. Its fields are set once, at construction, and never
    change, so the record is a datatype and construction is a function that
    either yields the record or the exception Python would raise. */
module DayRecord {
  import opened Text
  import opened Calendar
  import opened DateFormat

  /** A JSON value as `json.load` produces it; only integers and strings
      matter to the script, everything else is `JOther`. */
  datatype Json = JInt(i: int) | JStr(s: string) | JOther

  /** One raw entry of the input: a JSON object. */
  type Entry = map<string, Json>

  /** The exceptions that end a run. */
  datatype Error =
    | KeyError(key: string)         // a required key is missing from an entry
    | AttributeError(name: string)  // a date that is not a string has no `split`
    | TypeError(key: string)        // a count that is not an integer
    | ValueError(date: string)      // strptime rejected a date
    | EmptyMax                      // max() of an empty list

  datatype Result<T> = Ok(value: T) | Err(error: Error)

  datatype Day = Day(minutes: int, pickups: int, date: string, isWeekday: bool)

  /** The calendar date kept from a raw timestamp: `raw.split('T')[0]`, the
      text before the first `'T'`, or all of `raw` when it has none. */
  function DateOf(raw: string): (date: string)
    ensures date <= raw && 'T' !in date
    ensures |date| < |raw| ==> raw[|date|] == 'T'
    ensures date == raw <==> 'T' !in raw
  {
    SplitHead(raw, 'T');
    Split(raw, 'T')[0]
  }

  /** `datetime.strptime(date, '%Y-%M-%d').weekday() < 5`. The format reads
      the middle field as minutes, so the weekday is that of the given day of
      JANUARY of the given year; a date strptime rejects is a ValueError. */
  function WeekdayFlag(date: string): (r: Result<bool>)
    ensures r.Err? <==> ParseYearMinuteDay(date).None?
    ensures r.Err? ==> r.error == ValueError(date)
    ensures r.Ok? ==> var t := ParseYearMinuteDay(date).value;
      t.month == 1 && (r.value <==> Weekday(t.year, 1, t.day) < 5)
  {
    match ParseYearMinuteDay(date)
    case None => Err(ValueError(date))
    case Some(t) => Ok(Weekday(t.year, t.month, t.day) < 5)
  }

  /** All that `Day(entry)` needs of an entry for construction to succeed. */
  ghost predicate Constructible(entry: Entry)
  {
    && "minuteCount" in entry && entry["minuteCount"].JInt?
    && "pickupCount" in entry && entry["pickupCount"].JInt?
    && "date" in entry && entry["date"].JStr?
    && ParseYearMinuteDay(DateOf(entry["date"].s)).Some?
  }

  /** `Day(entry)`, analyze.py lines 7-11. The three keys are looked up in
      the order the constructor reads them, then the date is truncated and
      parsed; the first failure is the exception raised. */
  function NewDay(entry: Entry): (r: Result<Day>)
    ensures r.Ok? <==> Constructible(entry)
    ensures r.Ok? ==> && r.value.minutes == entry["minuteCount"].i
                      && r.value.pickups == entry["pickupCount"].i
                      && r.value.date == DateOf(entry["date"].s)
                      && WeekdayFlag(r.value.date) == Ok(r.value.isWeekday)
    ensures "minuteCount" !in entry ==> r == Err(KeyError("minuteCount"))
    ensures "minuteCount" in entry && "pickupCount" !in entry ==> r == Err(KeyError("pickupCount"))
    ensures "minuteCount" in entry && "pickupCount" in entry && "date" !in entry ==> r == Err(KeyError("date"))
    ensures "minuteCount" in entry && "pickupCount" in entry && "date" in entry && !entry["date"].JStr? ==>
      r == Err(AttributeError("split"))
    ensures && "minuteCount" in entry && "pickupCount" in entry && "date" in entry && entry["date"].JStr?
            && ParseYearMinuteDay(DateOf(entry["date"].s)).None?
            ==> r == Err(ValueError(DateOf(entry["date"].s)))
  {
    if "minuteCount" !in entry then Err(KeyError("minuteCount"))
    else if "pickupCount" !in entry then Err(KeyError("pickupCount"))
    else if "date" !in entry then Err(KeyError("date"))
    else if !entry["date"].JStr? then Err(AttributeError("split"))
    else
      var date := DateOf(entry["date"].s);
      match WeekdayFlag(date)
      case Err(e) => Err(e)
      case Ok(isWeekday) =>
        if !entry["minuteCount"].JInt? then Err(TypeError("minuteCount"))
        else if !entry["pickupCount"].JInt? then Err(TypeError("pickupCount"))
        else Ok(Day(entry["minuteCount"].i, entry["pickupCount"].i, date, isWeekday))
  }

  /** The flag is false exactly on Saturdays (5) and Sundays (6) of the
      January date the format yields. */
  lemma WeekendIffSaturdayOrSunday(date: string)
    requires WeekdayFlag(date).Ok?
    ensures var t := ParseYearMinuteDay(date).value;
      !WeekdayFlag(date).value <==> Weekday(t.year, 1, t.day) == 5 || Weekday(t.year, 1, t.day) == 6
  {
  }

  /** Two dates that differ only in the middle field get the same flag: the
      field is read as minutes and has no say in the weekday. */
  lemma MiddleFieldIgnored(year: string, middle1: string, middle2: string, day: string)
    requires '-' !in year && '-' !in middle1 && '-' !in middle2 && '-' !in day
    requires WeekdayFlag(year + "-" + middle1 + "-" + day).Ok?
    requires WeekdayFlag(year + "-" + middle2 + "-" + day).Ok?
    ensures WeekdayFlag(year + "-" + middle1 + "-" + day) == WeekdayFlag(year + "-" + middle2 + "-" + day)
  {
    SplitThree(year, middle1, day);
    SplitThree(year, middle2, day);
  }

  /** Whatever the middle field says, the flag is that of day `day` of
      January of `year`; a date with a middle field above 59 is rejected. */
  lemma {:induction false} FlagOfFormattedDate(year: nat, middle: nat, day: nat)
    requires 1 <= year < 10000 && middle < 100 && 1 <= day <= 31
    ensures var r := WeekdayFlag(FormatYearMinuteDay(year, middle, day));
      if middle <= 59 then r == Ok(Weekday(year, 1, day) < 5)
      else r == Err(ValueError(FormatYearMinuteDay(year, middle, day)))
  {
    ParseFormatted(year, middle, day);
  }

  /** An entry with integer counts whose date is an ISO timestamp
      "YYYY-MM-DDThh:mm..." builds the day dated "YYYY-MM-DD" with both counts
      unchanged, flagged by the weekday of day DD of January of YYYY. */
  lemma NewDayOfTimestamp(entry: Entry, year: nat, middle: nat, day: nat, time: string)
    requires 1 <= year < 10000 && middle <= 59 && 1 <= day <= 31
    requires "minuteCount" in entry && entry["minuteCount"].JInt?
    requires "pickupCount" in entry && entry["pickupCount"].JInt?
    requires "date" in entry && entry["date"] == JStr(FormatYearMinuteDay(year, middle, day) + ['T'] + time)
    ensures NewDay(entry) == Ok(Day(entry["minuteCount"].i, entry["pickupCount"].i,
                                    FormatYearMinuteDay(year, middle, day), Weekday(year, 1, day) < 5))
  {
    var date := FormatYearMinuteDay(year, middle, day);
    assert 'T' !in date by {
      assert AllDigits(PadDigits(year, 4)) && AllDigits(PadDigits(middle, 2)) && AllDigits(PadDigits(day, 2));
    }
    SplitCons(date, 'T', time);
    FlagOfFormattedDate(year, middle, day);
  }

  /** 5 May 2018 was a Saturday, yet the record of 2018-05-05 is flagged
      as a weekday: it carries the weekday of 5 January 2018, a Friday. */
  lemma RealMonthIgnored(year: nat, middle: nat, day: nat)
    requires year == 2018 && middle == 5 && day == 5
    ensures Weekday(year, middle, day) == 5
    ensures WeekdayFlag(FormatYearMinuteDay(year, middle, day)) == Ok(true)
  {
    KnownWeekdays();
    FlagOfFormattedDate(year, middle, day);
  }

  /** The timestamp "2018-05-04T10:00:00Z" keeps the date "2018-05-04". */
  lemma TruncatesTimestamp()
    ensures DateOf("2018-05-04T10:00:00Z") == "2018-05-04"
  {
    assert "2018-05-04T10:00:00Z" == "2018-05-04" + ['T'] + "10:00:00Z";
    SplitCons("2018-05-04", 'T', "10:00:00Z");
  }

  /** 2018-01-01, a Monday, is a weekday and 2018-01-06, a Saturday, is
      not. */
  lemma JanuaryScenario(year: nat, day: nat)
    requires year == 2018 && (day == 1 || day == 6)
    ensures WeekdayFlag(FormatYearMinuteDay(year, 1, day)) == Ok(day == 1)
  {
    assert Weekday(year, 1, day) < 5 <==> day == 1 by {
      Weekday2018(year, 1, day);
    }
    FlagOfFormattedDate(year, 1, day);
  }
}
