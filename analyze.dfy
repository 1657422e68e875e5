/** The script body of analyze.py: every raw entry becomes a `Day`, the days
    whose date mentions "2018" are kept, their minutes and pickups are
    projected into two lists, and the minutes get histogram bin edges every
    60 minutes. Each module-level rebinding of the script is one function
    here, and `Run` composes them in the script's order. */
module Analyze {
  import opened Text
  import opened Calendar
  import opened DateFormat
  import opened DayRecord

  /** Position of the first entry whose construction raises. */
  function FirstBad(entries: seq<Entry>): (i: nat)
    requires exists i :: 0 <= i < |entries| && NewDay(entries[i]).Err?
    ensures i < |entries| && NewDay(entries[i]).Err?
    ensures forall j :: 0 <= j < i ==> NewDay(entries[j]).Ok?
  {
    if NewDay(entries[0]).Err? then 0
    else
      var tail := entries[1..];
      assert exists k :: 0 <= k < |tail| && NewDay(tail[k]).Err? by {
        var k :| 0 <= k < |entries| && NewDay(entries[k]).Err?;
        assert tail[k - 1] == entries[k];
      }
      var i := FirstBad(tail);
      assert forall j :: 1 <= j < |entries| ==> entries[j] == tail[j - 1];
      1 + i
  }

  /** `[Day(d) for d in day_data]`: one day per entry, in order; the first
      entry whose construction raises ends the run with that exception. */
  function MapDays(entries: seq<Entry>): (r: Result<seq<Day>>)
    ensures r.Ok? <==> forall i :: 0 <= i < |entries| ==> NewDay(entries[i]).Ok?
    ensures r.Ok? ==> |r.value| == |entries|
    ensures r.Ok? ==> forall i :: 0 <= i < |entries| ==> NewDay(entries[i]) == Ok(r.value[i])
    ensures r.Err? ==> NewDay(entries[FirstBad(entries)]) == Err(r.error)
  {
    if entries == [] then Ok([])
    else
      match NewDay(entries[0])
      case Err(e) => Err(e)
      case Ok(day) =>
        match MapDays(entries[1..])
        case Err(e) =>
          assert forall j :: 1 <= j < |entries| ==> entries[1..][j - 1] == entries[j];
          Err(e)
        case Ok(days) => Ok([day] + days)
  }

  /** The filter condition: `'2018' in d.date`, a plain substring test. */
  predicate In2018(d: Day): (r: bool)
    ensures r ==> |d.date| >= 4
  {
    Contains(d.date, "2018")
  }

  /** `[d for d in days if '2018' in d.date]`. */
  function Keep2018(days: seq<Day>): (kept: seq<Day>)
    ensures |kept| <= |days|
    ensures forall d :: d in kept <==> d in days && In2018(d)
  {
    if days == [] then []
    else (if In2018(days[0]) then [days[0]] else []) + Keep2018(days[1..])
  }

  /** The positions of `days` that the filter keeps, in increasing order. */
  function KeptPositions(days: seq<Day>): (ps: seq<nat>)
  {
    if days == [] then []
    else (if In2018(days[0]) then [0] else []) + Shift(KeptPositions(days[1..]))
  }

  /** Every position moved up by one. */
  function Shift(ps: seq<nat>): (qs: seq<nat>)
    ensures |qs| == |ps| && forall k :: 0 <= k < |ps| ==> qs[k] == ps[k] + 1
  {
    seq(|ps|, k requires 0 <= k < |ps| => ps[k] + 1)
  }

  /** The kept days are the days at the kept positions, in that order. */
  lemma {:induction false} KeptPositionsSelect(days: seq<Day>)
    ensures |KeptPositions(days)| == |Keep2018(days)|
    ensures forall k :: 0 <= k < |KeptPositions(days)| ==>
      KeptPositions(days)[k] < |days| && Keep2018(days)[k] == days[KeptPositions(days)[k]]
  {
    if days != [] {
      KeptPositionsSelect(days[1..]);
      var rest, kept := KeptPositions(days[1..]), Keep2018(days[1..]);
      var n: nat := if In2018(days[0]) then 1 else 0;
      var ps, all := KeptPositions(days), Keep2018(days);
      assert ps == (if In2018(days[0]) then [0] else []) + Shift(rest);
      assert all == (if In2018(days[0]) then [days[0]] else []) + kept;
      forall k | n <= k < |ps|
        ensures ps[k] < |days| && all[k] == days[ps[k]]
      {
        calc {
          all[k];
          kept[k - n];
          days[1..][rest[k - n]];
          days[rest[k - n] + 1];
          { assert ps[k] == Shift(rest)[k - n] == rest[k - n] + 1; }
          days[ps[k]];
        }
      }
    }
  }

  /** The kept positions strictly increase, so the filter keeps the input
      order. */
  lemma {:induction false} KeptPositionsIncrease(days: seq<Day>)
    ensures Increasing(KeptPositions(days))
  {
    if days != [] {
      KeptPositionsIncrease(days[1..]);
      var head: seq<nat> := if In2018(days[0]) then [0] else [];
      ShiftIncreasing(head, KeptPositions(days[1..]));
    }
  }

  predicate Increasing(ps: seq<nat>)
  {
    forall k, l :: 0 <= k < l < |ps| ==> ps[k] < ps[l]
  }

  /** Shifting an increasing list up by one, behind an optional leading 0,
      keeps it increasing. */
  lemma ShiftIncreasing(head: seq<nat>, rest: seq<nat>)
    requires head == [] || head == [0]
    requires Increasing(rest)
    ensures Increasing(head + Shift(rest))
  {
    var ps, shifted := head + Shift(rest), Shift(rest);
    var b := |head|;
    forall k, l | 0 <= k < l < |ps|
      ensures ps[k] < ps[l]
    {
      assert ps[l] == shifted[l - b] == rest[l - b] + 1;
      if k < b {
        assert ps[k] == 0;
      } else {
        assert ps[k] == shifted[k - b] == rest[k - b] + 1;
        assert rest[k - b] < rest[l - b];
      }
    }
  }

  /** A position is kept exactly when the day there passes the filter. */
  lemma {:induction false} KeptPositionsExact(days: seq<Day>)
    ensures forall i :: 0 <= i < |days| ==> (i in KeptPositions(days) <==> In2018(days[i]))
  {
    if days != [] {
      KeptPositionsExact(days[1..]);
      var rest := KeptPositions(days[1..]);
      var head: seq<nat> := if In2018(days[0]) then [0] else [];
      var ps := head + Shift(rest);
      assert KeptPositions(days) == ps;
      forall i | 0 < i < |days|
        ensures i in ps <==> In2018(days[i])
      {
        assert days[1..][i - 1] == days[i];
        ShiftMember(head, rest, i);
      }
    }
  }

  /** Shifting moves each position up by one, past an optional leading 0. */
  lemma ShiftMember(head: seq<nat>, rest: seq<nat>, i: nat)
    requires head == [] || head == [0]
    requires i > 0
    ensures i in head + Shift(rest) <==> i - 1 in rest
  {
    var ps := head + Shift(rest);
    var shifted := Shift(rest);
    if i - 1 in rest {
      var k :| 0 <= k < |rest| && rest[k] == i - 1;
      assert shifted[k] == i;
      assert ps[|head| + k] == shifted[k];
    }
    if i in ps {
      var k :| 0 <= k < |ps| && ps[k] == i;
      assert ps[k] == if k < |head| then 0 else shifted[k - |head|];
      assert ps[k] == rest[k - |head|] + 1;
    }
  }

  /** The filter keeps nothing exactly when no day passes it. */
  lemma {:induction false} KeepEmptyIff(days: seq<Day>)
    ensures Keep2018(days) == [] <==> forall k :: 0 <= k < |days| ==> !In2018(days[k])
  {
    if days != [] {
      KeepEmptyIff(days[1..]);
      assert forall k :: 1 <= k < |days| ==> days[k] == days[1..][k - 1];
    }
  }

  /** Filtering twice keeps the same days as filtering once. */
  lemma {:induction false} KeepIdempotent(days: seq<Day>)
    ensures Keep2018(Keep2018(days)) == Keep2018(days)
  {
    if days != [] {
      KeepIdempotent(days[1..]);
      var rest := Keep2018(days[1..]);
      if In2018(days[0]) {
        assert Keep2018(days) == [days[0]] + rest;
        assert ([days[0]] + rest)[1..] == rest;
        assert Keep2018([days[0]] + rest) == [days[0]] + Keep2018(rest);
      } else {
        assert Keep2018(days) == rest;
      }
    }
  }

  /** A day built from an ISO timestamp passes the filter exactly when the
      timestamp's year is 2018: in "YYYY-MM-DD" no other run of four
      characters is free of dashes. */
  lemma DayIn2018IffYear(entry: Entry, year: nat, middle: nat, day: nat, time: string)
    requires 1 <= year < 10000 && middle <= 59 && 1 <= day <= 31
    requires "minuteCount" in entry && entry["minuteCount"].JInt?
    requires "pickupCount" in entry && entry["pickupCount"].JInt?
    requires "date" in entry && entry["date"] == JStr(FormatYearMinuteDay(year, middle, day) + ['T'] + time)
    ensures NewDay(entry).Ok?
    ensures In2018(NewDay(entry).value) <==> year == 2018
  {
    NewDayOfTimestamp(entry, year, middle, day, time);
    ContainsYear(year, middle, day);
  }

  /** `[d.minutes for d in days]`. */
  function MinuteData(days: seq<Day>): (xs: seq<int>)
    ensures |xs| == |days|
    ensures forall i :: 0 <= i < |days| ==> xs[i] == days[i].minutes
  {
    if days == [] then [] else [days[0].minutes] + MinuteData(days[1..])
  }

  /** `[d.pickups for d in days]`. */
  function PickupData(days: seq<Day>): (xs: seq<int>)
    ensures |xs| == |days|
    ensures forall i :: 0 <= i < |days| ==> xs[i] == days[i].pickups
  {
    if days == [] then [] else [days[0].pickups] + PickupData(days[1..])
  }

  /** `max(xs)` of a non-empty list. */
  function Max(xs: seq<int>): (m: int)
    requires |xs| > 0
    ensures m in xs
    ensures forall x :: x in xs ==> x <= m
  {
    if |xs| == 1 then xs[0]
    else
      var rest := Max(xs[1..]);
      assert forall x :: x in xs ==> x == xs[0] || x in xs[1..];
      if xs[0] >= rest then xs[0] else rest
  }

  /** `range(start, stop, step)` for a positive step. */
  function Range(start: int, stop: int, step: int): (r: seq<int>)
    requires step > 0
    ensures r != [] <==> start < stop
    ensures r != [] ==> r[0] == start
    ensures forall x :: x in r ==> start <= x < stop
    decreases stop - start
  {
    if start >= stop then [] else [start] + Range(start + step, stop, step)
  }

  /** The width of one histogram bin, in minutes. */
  const BinWidth := 60

  /** The bin edges of the minutes histogram:
      `range(0, max(minute_data) + 60, 60)`, which raises when there is no
      minute to take the maximum of. */
  function BinEdges(minuteData: seq<int>): (r: Result<seq<int>>)
    ensures r.Err? <==> minuteData == []
    ensures r.Err? ==> r.error == EmptyMax
  {
    if minuteData == [] then Err(EmptyMax)
    else Ok(Range(0, Max(minuteData) + BinWidth, BinWidth))
  }

  /** `range(start, stop, 60)` lists `start`, `start + 60`, ... below `stop`:
      ceil((stop - start) / 60) values when `start < stop`, none otherwise. */
  lemma {:induction false} RangeShape(start: int, stop: int)
    ensures var r := Range(start, stop, BinWidth);
      && |r| == (if start < stop then (stop - start + BinWidth - 1) / BinWidth else 0)
      && forall k :: 0 <= k < |r| ==> r[k] == start + BinWidth * k
    decreases stop - start
  {
    if start < stop {
      RangeShape(start + BinWidth, stop);
      var r := Range(start, stop, BinWidth);
      var rest := Range(start + BinWidth, stop, BinWidth);
      assert r == [start] + rest;
      forall k | 1 <= k < |r|
        ensures r[k] == start + BinWidth * k
      {
        assert r[k] == rest[k - 1];
      }
    }
  }

  /** For a largest minute count `m >= 0` the edges run 0, 60, 120, ... up
      to the least multiple of 60 that is at least `m` (equal to `m` when `m`
      is itself a multiple of 60), ceil(m / 60) + 1 edges in all. */
  lemma BinEdgesShape(minuteData: seq<int>)
    requires minuteData != [] && Max(minuteData) >= 0
    ensures var m, edges := Max(minuteData), BinEdges(minuteData).value;
      && |edges| == (m + BinWidth - 1) / BinWidth + 1
      && edges[0] == 0
      && (forall k :: 0 <= k < |edges| ==> edges[k] == BinWidth * k && edges[k] < m + BinWidth)
      && (forall k :: 0 <= k < |edges| - 1 ==> edges[k + 1] - edges[k] == BinWidth)
      && edges[|edges| - 1] >= m
      && edges[|edges| - 1] - BinWidth < m
  {
    var m := Max(minuteData);
    RangeShape(0, m + BinWidth);
  }

  /** A largest minute count that is a multiple of 60 is itself the last
      edge: 120 minutes give the edges 0, 60, 120 and no edge at 180. */
  lemma MaxOnMultipleOf60()
    ensures BinEdges([120]) == Ok([0, 60, 120])
  {
    assert Max([120]) == 120;
    RangeShape(0, 180);
    var r := Range(0, 180, BinWidth);
    assert |r| == 3 && r[0] == 0 && r[1] == 60 && r[2] == 120;
    assert r == [0, 60, 120];
  }

  /** What the script has computed by the time it plots and prints: the kept
      days, their minutes, the bin edges and their pickups. */
  datatype Report = Report(days: seq<Day>, minuteData: seq<int>, bins: seq<int>, pickups: seq<int>)

  /** The script from the loaded entries to the printed pickups. */
  function Run(entries: seq<Entry>): (r: Result<Report>)
    ensures MapDays(entries).Err? ==> r == Err(MapDays(entries).error)
    ensures MapDays(entries).Ok? && r.Err? ==> r.error == EmptyMax
    ensures r.Ok? ==> r.value.days != [] && forall d :: d in r.value.days ==> In2018(d)
  {
    match MapDays(entries)
    case Err(e) => Err(e)
    case Ok(all) =>
      var days := Keep2018(all);
      var minuteData := MinuteData(days);
      match BinEdges(minuteData)
      case Err(e) => Err(e)
      case Ok(bins) => Ok(Report(days, minuteData, bins, PickupData(days)))
  }

  /** Every entry is turned into a day before any is filtered out, so one
      entry that cannot be constructed, whatever its date says about 2018,
      ends the run with the first such entry's exception. */
  lemma AnyBadEntryFailsRun(entries: seq<Entry>, i: int)
    requires 0 <= i < |entries| && NewDay(entries[i]).Err?
    ensures FirstBad(entries) <= i
    ensures Run(entries) == Err(NewDay(entries[FirstBad(entries)]).error)
  {
  }

  /** A successful run keeps exactly the days of entries whose date
      contains "2018", and nothing else. */
  lemma {:induction false} RunKeeps2018Days(entries: seq<Entry>)
    requires Run(entries).Ok?
    ensures var rep := Run(entries).value;
      && (forall i :: 0 <= i < |entries| ==>
            (NewDay(entries[i]).value in rep.days <==> In2018(NewDay(entries[i]).value)))
      && (forall d :: d in rep.days ==> In2018(d) && exists i :: 0 <= i < |entries| && NewDay(entries[i]) == Ok(d))
  {
    var all := MapDays(entries).value;
    forall d | d in Run(entries).value.days
      ensures exists i :: 0 <= i < |entries| && NewDay(entries[i]) == Ok(d)
    {
      var i :| 0 <= i < |all| && all[i] == d;
      assert NewDay(entries[i]) == Ok(d);
    }
  }

  /** The minutes and pickups a successful run reports are those of the
      kept days, position by position, and the bin edges are those of the
      minutes. */
  lemma RunProjects(entries: seq<Entry>)
    requires Run(entries).Ok?
    ensures var rep := Run(entries).value;
      && |rep.minuteData| == |rep.days| == |rep.pickups| > 0
      && (forall k :: 0 <= k < |rep.days| ==>
            rep.minuteData[k] == rep.days[k].minutes && rep.pickups[k] == rep.days[k].pickups)
      && BinEdges(rep.minuteData) == Ok(rep.bins)
  {
  }

  /** When every entry constructs but no date contains "2018", the run ends
      with `max()` of an empty list. */
  lemma NothingIn2018FailsRun(entries: seq<Entry>)
    requires MapDays(entries).Ok?
    requires forall i :: 0 <= i < |entries| ==> !In2018(NewDay(entries[i]).value)
    ensures Run(entries) == Err(EmptyMax)
  {
    var all := MapDays(entries).value;
    assert forall k :: 0 <= k < |all| ==> !In2018(all[k]) by {
      forall k | 0 <= k < |all|
        ensures !In2018(all[k])
      {
        assert NewDay(entries[k]) == Ok(all[k]);
      }
    }
    KeepEmptyIff(all);
  }

  /** Of two entries that both construct, only the first of which is dated
      in 2018, the run keeps the first day alone and bins its minutes. */
  lemma FirstOfTwoKept(e1: Entry, e2: Entry, d1: Day, d2: Day)
    requires NewDay(e1) == Ok(d1) && NewDay(e2) == Ok(d2)
    requires In2018(d1) && !In2018(d2)
    ensures Run([e1, e2]) ==
      Ok(Report([d1], [d1.minutes], Range(0, Max([d1.minutes]) + BinWidth, BinWidth), [d1.pickups]))
  {
    var es := [e1, e2];
    assert MapDays(es) == Ok([d1, d2]) by {
      assert forall i :: 0 <= i < |es| ==> NewDay(es[i]).Ok?;
      var r := MapDays(es).value;
      assert NewDay(es[0]) == Ok(r[0]) && NewDay(es[1]) == Ok(r[1]);
      assert r == [d1, d2];
    }
    assert Keep2018([d1, d2]) == [d1] by {
      assert [d1, d2][1..] == [d2];
      assert Keep2018([d2]) == [];
    }
    assert MinuteData([d1]) == [d1.minutes] && PickupData([d1]) == [d1.pickups];
  }

  /** Two entries on 1 January of `year` and of the year after, whatever
      their time of day: only the first is kept when `year` is 2018. */
  lemma TwoNewYearEntries(e1: Entry, e2: Entry, year: nat, time: string)
    requires year == 2018
    requires e1 == map["minuteCount" := JInt(120), "pickupCount" := JInt(10),
                       "date" := JStr(FormatYearMinuteDay(year, 1, 1) + ['T'] + time)]
    requires e2 == map["minuteCount" := JInt(60), "pickupCount" := JInt(5),
                       "date" := JStr(FormatYearMinuteDay(year + 1, 1, 1) + ['T'] + time)]
    ensures Run([e1, e2]) ==
      Ok(Report([Day(120, 10, FormatYearMinuteDay(year, 1, 1), Weekday(year, 1, 1) < 5)],
                [120], Range(0, Max([120]) + BinWidth, BinWidth), [10]))
  {
    var d1 := Day(120, 10, FormatYearMinuteDay(year, 1, 1), Weekday(year, 1, 1) < 5);
    var d2 := Day(60, 5, FormatYearMinuteDay(year + 1, 1, 1), Weekday(year + 1, 1, 1) < 5);
    NewDayOfTimestamp(e1, year, 1, 1, time);
    NewDayOfTimestamp(e2, year + 1, 1, 1, time);
    ContainsYear(year, 1, 1);
    ContainsYear(year + 1, 1, 1);
    FirstOfTwoKept(e1, e2, d1, d2);
  }

  /** Two entries on 1 January 2018 (120 minutes, 10 pickups) and on
      1 January 2019 (60 minutes, 5 pickups), whatever their time of day:
      only the 2018 day is kept, flagged as a weekday (a Monday); its minutes
      are [120], whose bin edges are [0, 60, 120], and its pickups are [10]. */
  lemma TwoEntryScenario(e1: Entry, e2: Entry, year: nat, time: string)
    requires year == 2018
    requires e1 == map["minuteCount" := JInt(120), "pickupCount" := JInt(10),
                       "date" := JStr(FormatYearMinuteDay(year, 1, 1) + ['T'] + time)]
    requires e2 == map["minuteCount" := JInt(60), "pickupCount" := JInt(5),
                       "date" := JStr(FormatYearMinuteDay(year + 1, 1, 1) + ['T'] + time)]
    ensures Run([e1, e2]) ==
      Ok(Report([Day(120, 10, FormatYearMinuteDay(year, 1, 1), true)], [120], [0, 60, 120], [10]))
  {
    TwoNewYearEntries(e1, e2, year, time);
    var d1 := Day(120, 10, FormatYearMinuteDay(year, 1, 1), Weekday(year, 1, 1) < 5);
    assert d1.isWeekday by {
      KnownWeekdays();
    }
    assert Range(0, Max([120]) + BinWidth, BinWidth) == [0, 60, 120] by {
      MaxOnMultipleOf60();
    }
  }
}
