/** `datetime.strptime` restricted to the one format the
    analysis script uses, `'%Y-%M-%d'`. In that format `%M` is the MINUTE
    directive, not the month (`%m`), so the middle field is read as a minute
    of the hour and the month keeps its default, January. */
module DateFormat {
  import opened Text
  import opened Calendar

  datatype Option<T> = None | Some(value: T)

  /** The fields of the `datetime` that `strptime` builds. Fields the format
      does not mention keep their defaults: month 1, hour 0. */
  datatype DateTime = DateTime(year: int, month: int, day: int, hour: int, minute: int)

  /** `s` is a run of between `lo` and `hi` ASCII digits. */
  predicate IsField(s: string, lo: nat, hi: nat)
  {
    lo <= |s| <= hi && AllDigits(s)
  }

  /** `datetime.strptime(s, '%Y-%M-%d')`: four digits of year, a dash, one
      or two digits of minute (at most 59), a dash, one or two digits of day
      of the month (1 to 31), and nothing else. The result is midnight of
      that day of JANUARY at the parsed minute; year 0 is rejected because
      `datetime` starts at year 1. `None` stands for the `ValueError` that
      `strptime` raises. */
  function ParseYearMinuteDay(s: string): (r: Option<DateTime>)
    ensures r.Some? ==> r.value.month == 1 && r.value.hour == 0
    ensures r.Some? ==> ValidDate(r.value.year, r.value.month, r.value.day)
    ensures r.Some? ==> 0 <= r.value.minute <= 59
  {
    var parts := Split(s, '-');
    if |parts| == 3 && IsField(parts[0], 4, 4) && IsField(parts[1], 1, 2) && IsField(parts[2], 1, 2) then
      var year, minute, day := DigitsValue(parts[0]), DigitsValue(parts[1]), DigitsValue(parts[2]);
      if 1 <= year && minute <= 59 && 1 <= day <= 31 then Some(DateTime(year, 1, day, 0, minute))
      else None
    else None
  }

  /** The "YYYY-MM-DD" layout of the date part of an ISO timestamp, with the
      middle field given as the minute strptime reads it: zero-padded
      four-, two- and two-digit fields. */
  function FormatYearMinuteDay(year: nat, minute: nat, day: nat): string
  {
    PadDigits(year, 4) + "-" + PadDigits(minute, 2) + "-" + PadDigits(day, 2)
  }

  /** Three dash-free pieces joined by dashes split back into those pieces. */
  lemma SplitThree(a: string, b: string, c: string)
    requires '-' !in a && '-' !in b && '-' !in c
    ensures Split(a + "-" + b + "-" + c, '-') == [a, b, c]
  {
    assert a + "-" + b + "-" + c == a + ['-'] + (b + ['-'] + c);
    SplitCons(a, '-', b + ['-'] + c);
    SplitCons(b, '-', c);
    SplitNone(c, '-');
  }

  lemma DigitsAreDashFree(s: string)
    requires AllDigits(s)
    ensures '-' !in s
  {
  }

  /** Parsing a zero-padded "YYYY-MM-DD" date: the fields come back
      exactly, with the month set to January, when the minute is at most 59,
      the day is 1 to 31 and the year is not 0; otherwise the parse fails. */
  lemma {:induction false} ParseFormatted(year: nat, minute: nat, day: nat)
    requires year < 10000 && minute < 100 && day < 100
    ensures ParseYearMinuteDay(FormatYearMinuteDay(year, minute, day)) ==
      if 1 <= year && minute <= 59 && 1 <= day <= 31
      then Some(DateTime(year, 1, day, 0, minute))
      else None
  {
    var a, b, c := PadDigits(year, 4), PadDigits(minute, 2), PadDigits(day, 2);
    DigitsAreDashFree(a);
    DigitsAreDashFree(b);
    DigitsAreDashFree(c);
    SplitThree(a, b, c);
    assert Pow10(2) == 100 && Pow10(4) == 10000;
    DigitsRoundTrip(year, 4);
    DigitsRoundTrip(minute, 2);
    DigitsRoundTrip(day, 2);
  }


  /** A character the pattern lacks does not appear where the pattern
      occurs. */
  lemma OccurrenceAvoids(s: string, pat: string, i: int, c: char)
    requires OccursAt(s, pat, i) && c !in pat
    ensures forall j :: i <= j < i + |pat| ==> s[j] != c
  {
    forall j | i <= j < i + |pat|
      ensures s[j] != c
    {
      assert s[j] == s[i..i + |pat|][j - i];
    }
  }

  /** In a zero-padded "YYYY-MM-DD" date, the only dash-free run of four
      characters is the year, so "2018" occurs in it exactly when the year
      is 2018. */
  lemma {:induction false} ContainsYear(year: nat, minute: nat, day: nat)
    requires year < 10000 && minute < 100 && day < 100
    ensures Contains(FormatYearMinuteDay(year, minute, day), "2018") <==> year == 2018
  {
    var s := FormatYearMinuteDay(year, minute, day);
    var y := PadDigits(year, 4);
    assert s[..4] == y && s[4] == '-' && s[7] == '-';
    assert y == "2018" <==> year == 2018 by {
      assert Pow10(4) == 10000;
      DigitsRoundTrip(year, 4);
      DigitsRoundTrip(2018, 4);
      assert PadDigits(2018, 4) == "2018";
    }
    ContainsIff(s, "2018");
    if year == 2018 {
      assert OccursAt(s, "2018", 0);
    }
    forall i | OccursAt(s, "2018", i)
      ensures year == 2018
    {
      OccurrenceAvoids(s, "2018", i, '-');
      assert i == 0;
      assert s[i..i + 4] == y;
    }
  }
}
