/** The preview report of the reports controller: the calendar fill of the
    computed days, the day displays, the weekly summary clipped to the
    requested range and the range totals. */
module Reports {
  import opened Values
  import opened Text
  import opened Calendar
  import opened Weeks
  import opened Overtime

  /** The weekly target of 48 hours and the flat bonus of a worked Sunday (8 hours), in minutes. */
  const WEEK_TARGET := 48 * 60
  const SUNDAY_BONUS := 8 * 60

  const DESCANSO := "DESCANSO"
  const MISSING_RANGE := "Faltan from/to (YYYY-MM-DD)"

  /** `decToHHMM` of the controller: "00:00" for null, undefined and anything
      that is not a number; otherwise the signed "HH:MM" of the value. */
  function DecToHHMM(h: Raw): string
  {
    match h
    case Finite(n) => HHMM(n)
    case _ => "00:00"
  }

  /** What `decToHHMM` shows: for a number, a '-' exactly when it is negative and
      a string that reads back as that number (minute field 0-59); "00:00" for
      anything else. */
  lemma DecToHHMMRoundTrip(h: Raw)
    ensures h.Finite? ==> ParseHHMM(DecToHHMM(h)) == Some(h.n) && (DecToHHMM(h)[0] == '-' <==> h.n < 0)
    ensures !h.Finite? ==> DecToHHMM(h) == "00:00"
  {
    if h.Finite? {
      HHMMRoundTrip(h.n);
    }
  }

  // The calendar fill.

  /** No two records share a date. */
  predicate DistinctDates(days: seq<DayRecord>)
  {
    forall i, j :: 0 <= i < j < |days| ==> days[i].date != days[j].date
  }

  /** No record is dated `d`. */
  predicate NoRecordOn(days: seq<DayRecord>, d: int)
  {
    forall i :: 0 <= i < |days| ==> days[i].date != d
  }

  /** `new Map(days.map(x => [x.date, x]))`: every date of a record keyed to the
      last record with that date. */
  function IndexByDate(days: seq<DayRecord>): (m: map<int, DayRecord>)
    ensures forall d :: d in m ==> m[d] in days && m[d].date == d
    ensures forall d :: d !in m ==> NoRecordOn(days, d)
    ensures DistinctDates(days) ==> forall i :: 0 <= i < |days| ==> days[i].date in m && m[days[i].date] == days[i]
  {
    if days == [] then map[]
    else
      var init, last := days[..|days| - 1], days[|days| - 1];
      assert forall i :: 0 <= i < |init| ==> init[i] == days[i];
      IndexByDate(init)[last.date := last]
  }

  /** `fillMissingDays`: one record per date of [from, to] in ascending order
      (so the sort that follows leaves the list as it is), the existing one when
      there is one and an empty day otherwise, with the range bounds replaced. */
  function FillMissingDays(computed: Calc, from: int, to: int): (r: Calc)
    ensures r.rangeStart == from && r.rangeEnd == to
    ensures r.totalOvertime == computed.totalOvertime && r.baseHoursPerDay == computed.baseHoursPerDay
    ensures |r.days| == (if from <= to then to - from + 1 else 0)
    ensures forall j :: 0 <= j < |r.days| ==> r.days[j].date == from + j
    ensures forall j :: 0 <= j < |r.days| ==>
      r.days[j] in computed.days || (r.days[j] == DayRecord(from + j, 0, 0) && NoRecordOn(computed.days, from + j))
    ensures DistinctDates(computed.days) ==>
      forall i :: 0 <= i < |computed.days| && from <= computed.days[i].date <= to ==> r.days[computed.days[i].date - from] == computed.days[i]
  {
    var allDays := DateRange(from, to);
    var existing := IndexByDate(computed.days);
    var filledDays := seq(|allDays|, j requires 0 <= j < |allDays| =>
      if allDays[j] in existing then existing[allDays[j]] else DayRecord(allDays[j], 0, 0));
    computed.(days := filledDays, rangeStart := from, rangeEnd := to)
  }

  /** Filling a calendar of its own range changes nothing. */
  lemma FillOfCalendar(c: Calc)
    requires |c.days| == (if c.rangeStart <= c.rangeEnd then c.rangeEnd - c.rangeStart + 1 else 0)
    requires forall j :: 0 <= j < |c.days| ==> c.days[j].date == c.rangeStart + j
    ensures FillMissingDays(c, c.rangeStart, c.rangeEnd) == c
  {
    var r := FillMissingDays(c, c.rangeStart, c.rangeEnd);
    forall j | 0 <= j < |c.days| ensures r.days[j] == c.days[j] {
      assert c.days[j].date - c.rangeStart == j;
    }
  }

  /** Filling the result of the aggregation changes nothing: it already holds
      one record per date of the range. */
  lemma FillOfComputed(sessions: seq<Session>, opts: Options, defs: Defaults)
    requires ValidRange(opts)
    ensures var c := ComputeSpec(sessions, opts, defs).value;
            FillMissingDays(c, c.rangeStart, c.rangeEnd) == c
  {
    ComputeDays(sessions, opts, defs);
    FillOfCalendar(ComputeSpec(sessions, opts, defs).value);
  }

  /** Filling twice is filling once. */
  lemma FillIdempotent(computed: Calc, from: int, to: int)
    ensures FillMissingDays(FillMissingDays(computed, from, to), from, to) == FillMissingDays(computed, from, to)
  {
    var once := FillMissingDays(computed, from, to);
    var twice := FillMissingDays(once, from, to);
    forall j | 0 <= j < |once.days| ensures twice.days[j] == once.days[j] {
      assert once.days[j].date - from == j;
    }
  }

  // The day displays.

  /** A day of the preview: the record's fields, the minutes owed against the
      daily base, and the three display strings. */
  datatype DayView = DayView(date: int, worked: int, overtime: int, owed: int,
                             workedDisplay: string, overtimeDisplay: string, owedDisplay: string)

  /** The enrichment of one day: an unworked day shows "DESCANSO" for its worked
      and overtime time; any other shows them as "HH:MM"; the owed minutes are
      the shortfall against the base (Sundays included) and always shown. */
  function Enrich(d: DayRecord, base: int): (r: DayView)
    ensures r.date == d.date && r.worked == d.worked && r.overtime == d.overtime
    ensures r.owed >= 0 && r.owed >= base - d.worked && (r.owed == 0 || r.owed == base - d.worked)
    ensures r.workedDisplay == DESCANSO <==> d.worked == 0
    ensures r.overtimeDisplay == DESCANSO <==> d.worked == 0
    ensures d.worked != 0 ==> r.workedDisplay == DecToHHMM(Finite(d.worked)) && r.overtimeDisplay == DecToHHMM(Finite(d.overtime))
    ensures r.owedDisplay == DecToHHMM(Finite(r.owed))
  {
    assert DESCANSO[0] == 'D';
    var worked, overtime := d.worked, d.overtime;
    var workedDisplay := if worked == 0 then DESCANSO else DecToHHMM(Finite(worked));
    var overtimeDisplay := if worked == 0 then DESCANSO else DecToHHMM(Finite(overtime));
    var owedDay := if worked < base then base - worked else 0;
    DayView(d.date, worked, overtime, owedDay, workedDisplay, overtimeDisplay, DecToHHMM(Finite(owedDay)))
  }

  function EnrichDays(days: seq<DayRecord>, base: int): (r: seq<DayView>)
    ensures |r| == |days|
    ensures forall j :: 0 <= j < |r| ==> r[j].date == days[j].date && r[j].worked == days[j].worked
  {
    seq(|days|, j requires 0 <= j < |days| => Enrich(days[j], base))
  }

  function ViewDate(x: DayView): int
  {
    x.date
  }

  // The weekly summary clipped to the range.

  /** One row of the weekly summary: the clipped window, the minutes worked,
      extra and owed, and their "HH:MM" displays with the net (extra - owed). */
  datatype WeekRecord = WeekRecord(weekStart: int, weekEnd: int, workedDec: int, overtimeDec: int, owedDec: int,
                                   worked: string, overtime: string, owed: string, net: string)

  /** `arr.reduce((acc, x) => acc + x.worked, 0)`. */
  function SumWorked(arr: seq<DayView>): int
  {
    if arr == [] then 0 else SumWorked(arr[..|arr| - 1]) + arr[|arr| - 1].worked
  }

  /** `arr.find(x => x.date === date)`: the first day with that date. */
  function Find(arr: seq<DayView>, date: int): (r: Option<DayView>)
    ensures r.Some? ==> r.value.date == date && exists i :: 0 <= i < |arr| && arr[i] == r.value && forall j :: 0 <= j < i ==> arr[j].date != date
    ensures r.None? ==> forall i :: 0 <= i < |arr| ==> arr[i].date != date
  {
    if arr == [] then None
    else if arr[0].date == date then Some(arr[0])
    else
      var r := Find(arr[1..], date);
      if r.Some? then
        assert exists i :: 0 <= i < |arr[1..]| && arr[1..][i] == r.value && forall j :: 0 <= j < i ==> arr[1..][j].date != date;
        var i :| 0 <= i < |arr[1..]| && arr[1..][i] == r.value && forall j :: 0 <= j < i ==> arr[1..][j].date != date;
        assert arr[i + 1] == r.value && forall j :: 0 <= j < i + 1 ==> arr[j].date != date;
        r
      else r
  }

  /** The minutes worked on `date` by the week's days, 0 when none is dated so. */
  function WorkedOn(arr: seq<DayView>, date: int): int
  {
    match Find(arr, date)
    case Some(x) => x.worked
    case None => 0
  }

  /** What one day of a clipped window adds to the week's extra and to its owed
      minutes: a worked Sunday adds the flat bonus and nothing owed; any other
      day its excess over the base and its shortfall under it. */
  function DayExtra(w: int, dow: int, base: int): int
  {
    if dow == SUNDAY && w > 0 then SUNDAY_BONUS else Max0(w - base)
  }

  function DayOwed(w: int, dow: int, base: int): int
  {
    if dow == SUNDAY && w > 0 then 0 else Max0(base - w)
  }

  /** The extra minutes of the days lo..hi of a clipped window, under the daily rule. */
  function WindowExtra(arr: seq<DayView>, lo: int, hi: int, base: int): int
    decreases hi - lo
  {
    if hi < lo then 0 else WindowExtra(arr, lo, hi - 1, base) + DayExtra(WorkedOn(arr, hi), Dow(hi), base)
  }

  /** The owed minutes of the days lo..hi of a clipped window, under the daily rule. */
  function WindowOwed(arr: seq<DayView>, lo: int, hi: int, base: int): int
    decreases hi - lo
  {
    if hi < lo then 0 else WindowOwed(arr, lo, hi - 1, base) + DayOwed(WorkedOn(arr, hi), Dow(hi), base)
  }

  /** The row pushed for a week: its window, its three figures and their displays. */
  function WeekRow(weekStart: int, weekEnd: int, worked: int, extra: int, owed: int): (r: WeekRecord)
    ensures r.weekStart == weekStart && r.weekEnd == weekEnd
    ensures r.workedDec == worked && r.overtimeDec == extra && r.owedDec == owed
    ensures r.worked == DecToHHMM(Finite(worked)) && r.overtime == DecToHHMM(Finite(extra))
    ensures r.owed == DecToHHMM(Finite(owed)) && r.net == DecToHHMM(Finite(extra - owed))
  {
    WeekRecord(weekStart, weekEnd, worked, extra, owed,
               DecToHHMM(Finite(worked)), DecToHHMM(Finite(extra)),
               DecToHHMM(Finite(owed)), DecToHHMM(Finite(extra - owed)))
  }

  /** The row of the week with Monday `k` and days `arr`: the window is the week
      clipped to [from, to]; a window that is the whole week is held to the 48 h
      target, any other is summed day by day under the daily rule. */
  function ClippedWeek(arr: seq<DayView>, k: int, from: int, to: int, base: int): (r: WeekRecord)
    ensures r.weekStart == MaxDate(k, from) && r.weekEnd == MinDate(k + 6, to)
    ensures r.workedDec == SumWorked(arr)
    ensures r.weekStart == k && r.weekEnd == k + 6 ==>
      r.overtimeDec == Max0(r.workedDec - WEEK_TARGET) && r.owedDec == Max0(WEEK_TARGET - r.workedDec)
    ensures !(r.weekStart == k && r.weekEnd == k + 6) ==>
      r.overtimeDec == WindowExtra(arr, r.weekStart, r.weekEnd, base) && r.owedDec == WindowOwed(arr, r.weekStart, r.weekEnd, base)
  {
    var clipStart, clipEnd := MaxDate(k, from), MinDate(AddDays(k, 6), to);
    var figures := WeekRule(arr, k, clipStart, clipEnd, base);
    WeekRow(clipStart, clipEnd, SumWorked(arr), figures.0, figures.1)
  }

  /** The extra and owed minutes of the window [clipStart, clipEnd] of the week
      with Monday `k`: the 48 h rule on the week's worked minutes when the window
      is the whole week, the daily rule summed over the window otherwise. */
  function WeekRule(arr: seq<DayView>, k: int, clipStart: int, clipEnd: int, base: int): (int, int)
  {
    if clipStart == k && clipEnd == AddDays(k, 6)
    then (Max0(SumWorked(arr) - WEEK_TARGET), Max0(WEEK_TARGET - SumWorked(arr)))
    else (WindowExtra(arr, clipStart, clipEnd, base), WindowOwed(arr, clipStart, clipEnd, base))
  }

  /** The rows of the weeks with Mondays `keys`, in that order. */
  function RowsFor(days: seq<DayView>, keys: seq<int>, from: int, to: int, base: int): seq<WeekRecord>
  {
    seq(|keys|, i requires 0 <= i < |keys| => ClippedWeek(Group(days, ViewDate, keys[i]), keys[i], from, to, base))
  }

  /** The weekly rows: one per Monday of the days, in ascending order. */
  function ClippedWeekly(days: seq<DayView>, from: int, to: int, base: int): seq<WeekRecord>
  {
    RowsFor(days, SortKeys(FirstMondays(days, ViewDate)), from, to, base)
  }

  /** The range totals of the preview and their displays. */
  datatype Totals = Totals(totalOvertimeDec: int, totalOwedDec: int, totalNetDec: int,
                           totalOvertime: string, totalOwed: string, totalNet: string)

  function SumExtra(ws: seq<WeekRecord>): int
  {
    if ws == [] then 0 else SumExtra(ws[..|ws| - 1]) + ws[|ws| - 1].overtimeDec
  }

  function SumOwed(ws: seq<WeekRecord>): int
  {
    if ws == [] then 0 else SumOwed(ws[..|ws| - 1]) + ws[|ws| - 1].owedDec
  }

  /** The sum of the weekly nets. */
  function SumNet(ws: seq<WeekRecord>): int
  {
    if ws == [] then 0 else SumNet(ws[..|ws| - 1]) + (ws[|ws| - 1].overtimeDec - ws[|ws| - 1].owedDec)
  }

  /** The totals object for the summed extra and owed minutes: the net between
      them and the displays of the three. */
  function MakeTotals(extra: int, owed: int): (r: Totals)
    ensures r.totalOvertimeDec == extra && r.totalOwedDec == owed
    ensures r.totalNetDec == r.totalOvertimeDec - r.totalOwedDec
    ensures r.totalOvertime == DecToHHMM(Finite(extra)) && r.totalOwed == DecToHHMM(Finite(owed))
    ensures r.totalNet == DecToHHMM(Finite(r.totalNetDec))
  {
    var totalNetDec := extra - owed;
    Totals(extra, owed, totalNetDec, DecToHHMM(Finite(extra)), DecToHHMM(Finite(owed)), DecToHHMM(Finite(totalNetDec)))
  }

  /** The totals of a list of weekly rows: the sums of their extra and owed minutes. */
  function TotalsOf(ws: seq<WeekRecord>): (r: Totals)
    ensures r.totalOvertimeDec == SumExtra(ws) && r.totalOwedDec == SumOwed(ws)
    ensures r == MakeTotals(r.totalOvertimeDec, r.totalOwedDec)
  {
    MakeTotals(SumExtra(ws), SumOwed(ws))
  }

  /** The total net is the sum of the weekly nets. */
  lemma {:induction false} TotalNetIsSumOfNets(ws: seq<WeekRecord>)
    ensures TotalsOf(ws).totalNetDec == SumNet(ws)
  {
    if ws != [] {
      TotalNetIsSumOfNets(ws[..|ws| - 1]);
    }
  }

  /** The `find` of the day dated `cur` and its minutes worked, 0 when there is none. */
  method WorkedOnDay(arr: seq<DayView>, cur: int) returns (w: int)
    ensures w == WorkedOn(arr, cur)
  {
    var d := Find(arr, cur);
    w := if d.Some? then d.value.worked else 0;
  }

  /** Walking on to the next day adds that day's figures to the window's. */
  lemma WindowStep(arr: seq<DayView>, lo: int, cur: int, base: int)
    requires lo <= cur
    ensures var next := AddDays(cur, 1);
      && WindowExtra(arr, lo, next - 1, base) == WindowExtra(arr, lo, cur - 1, base) + DayExtra(WorkedOn(arr, cur), Dow(cur), base)
      && WindowOwed(arr, lo, next - 1, base) == WindowOwed(arr, lo, cur - 1, base) + DayOwed(WorkedOn(arr, cur), Dow(cur), base)
  {
    assert AddDays(cur, 1) - 1 == cur;
  }

  /** The body of the walk: a worked Sunday adds the flat bonus, any other day
      its excess over the base to the extra and its shortfall to the owed minutes. */
  method AddDay(extra: int, owed: int, w: int, dow: int, base: int) returns (extra': int, owed': int)
    ensures extra' == extra + DayExtra(w, dow, base) && owed' == owed + DayOwed(w, dow, base)
    ensures extra' >= extra && owed' >= owed
  {
    extra', owed' := extra, owed;
    if dow == SUNDAY && w > 0 {
      extra' := extra' + SUNDAY_BONUS;
    } else {
      extra' := extra' + Max0(w - base);
      owed' := owed' + Max0(base - w);
    }
  }

  /** The `while (cur <= clipEnd)` walk of a clipped window under the daily rule. */
  method WalkWindow(arr: seq<DayView>, clipStart: int, clipEnd: int, base: int) returns (extraWeek: int, owedWeek: int)
    ensures extraWeek == WindowExtra(arr, clipStart, clipEnd, base)
    ensures owedWeek == WindowOwed(arr, clipStart, clipEnd, base)
  {
    extraWeek, owedWeek := 0, 0;
    var cur := clipStart;
    while cur <= clipEnd
      invariant clipStart <= cur && (cur <= clipEnd + 1 || cur == clipStart)
      invariant extraWeek == WindowExtra(arr, clipStart, cur - 1, base)
      invariant owedWeek == WindowOwed(arr, clipStart, cur - 1, base)
      decreases clipEnd - cur
    {
      var w := WorkedOnDay(arr, cur);
      var dow := Dow(cur);
      WindowStep(arr, clipStart, cur, base);
      extraWeek, owedWeek := AddDay(extraWeek, owedWeek, w, dow, base);
      cur := AddDays(cur, 1);
    }
  }

  /** The body of the loop over week starts: the clipped window, the worked sum,
      and either the 48 h rule or the walk of the window. */
  method SummarizeWeek(arr: seq<DayView>, weekStart: int, from: int, to: int, base: int) returns (w: WeekRecord)
    ensures w == ClippedWeek(arr, weekStart, from, to, base)
  {
    var canonicalStart := weekStart;
    var canonicalEnd := AddDays(weekStart, 6);
    var clipStart := MaxDate(canonicalStart, from);
    var clipEnd := MinDate(canonicalEnd, to);
    var workedSum := SumWorked(arr);
    var isFullInsideRange := clipStart == canonicalStart && clipEnd == canonicalEnd;
    var extraWeek, owedWeek := 0, 0;
    if isFullInsideRange {
      extraWeek := Max0(workedSum - WEEK_TARGET);
      owedWeek := Max0(WEEK_TARGET - workedSum);
    } else {
      extraWeek, owedWeek := WalkWindow(arr, clipStart, clipEnd, base);
    }
    assert (extraWeek, owedWeek) == WeekRule(arr, weekStart, clipStart, clipEnd, base);
    w := WeekRow(clipStart, clipEnd, workedSum, extraWeek, owedWeek);
  }

  lemma PrefixSnoc<T>(s: seq<T>, i: int)
    requires 0 <= i < |s|
    ensures s[..i + 1] == s[..i] + [s[i]]
  {
  }

  /** Appending a row adds its extra and owed minutes to the sums. */
  lemma SumsSnoc(ws: seq<WeekRecord>, row: WeekRecord)
    ensures SumExtra(ws + [row]) == SumExtra(ws) + row.overtimeDec
    ensures SumOwed(ws + [row]) == SumOwed(ws) + row.owedDec
  {
    assert (ws + [row])[..|ws|] == ws;
  }

  /** The `for (const weekStart of weekStarts)` loop: one row per week start,
      and the running sums of the extra and owed minutes. */
  method SummarizeWeeks(days: seq<DayView>, weeksMap: map<int, seq<DayView>>, weekStarts: seq<int>,
                        from: int, to: int, base: int)
    returns (weekly: seq<WeekRecord>, totalOvertimeDec: int, totalOwedDec: int)
    requires forall k :: k in weekStarts ==> k in weeksMap && weeksMap[k] == Group(days, ViewDate, k)
    ensures weekly == RowsFor(days, weekStarts, from, to, base)
    ensures totalOvertimeDec == SumExtra(weekly) && totalOwedDec == SumOwed(weekly)
  {
    ghost var spec := RowsFor(days, weekStarts, from, to, base);
    weekly := [];
    totalOvertimeDec, totalOwedDec := 0, 0;
    for i := 0 to |weekStarts|
      invariant weekly == spec[..i]
      invariant totalOvertimeDec == SumExtra(weekly) && totalOwedDec == SumOwed(weekly)
    {
      var row := SummarizeKey(days, weeksMap, weekStarts, i, from, to, base);
      PrefixSnoc(spec, i);
      SumsSnoc(weekly, row);
      weekly := weekly + [row];
      totalOvertimeDec := totalOvertimeDec + row.overtimeDec;
      totalOwedDec := totalOwedDec + row.owedDec;
    }
    assert spec[..|weekStarts|] == spec;
  }

  /** The body of that loop: the row of the i-th week start, from its list in `weeksMap`. */
  method SummarizeKey(days: seq<DayView>, weeksMap: map<int, seq<DayView>>, weekStarts: seq<int>, i: int,
                      from: int, to: int, base: int) returns (row: WeekRecord)
    requires 0 <= i < |weekStarts|
    requires forall k :: k in weekStarts ==> k in weeksMap && weeksMap[k] == Group(days, ViewDate, k)
    ensures row == RowsFor(days, weekStarts, from, to, base)[i]
  {
    var weekStart := weekStarts[i];
    assert weekStart in weekStarts;
    var arr := weeksMap[weekStart];
    row := SummarizeWeek(arr, weekStart, from, to, base);
  }

  /** The weekly section of `preview`: the days grouped by Monday, one row per
      week start in ascending order, and the range totals. */
  method WeeklySummary(days: seq<DayView>, from: int, to: int, base: int) returns (weekly: seq<WeekRecord>, totals: Totals)
    ensures weekly == ClippedWeekly(days, from, to, base)
    ensures totals == TotalsOf(weekly)
  {
    var weeksMap, order := GroupByMonday(days, ViewDate);
    var weekStarts := SortKeys(order);
    var totalOvertimeDec, totalOwedDec;
    weekly, totalOvertimeDec, totalOwedDec := SummarizeWeeks(days, weeksMap, weekStarts, from, to, base);
    totals := MakeTotals(totalOvertimeDec, totalOwedDec);
  }

  // The weekly summary of a calendar.

  /** The minutes worked on the days lo..hi of a window, as the walk reads them. */
  function WindowWorked(arr: seq<DayView>, lo: int, hi: int): int
    decreases hi - lo
  {
    if hi < lo then 0 else WindowWorked(arr, lo, hi - 1) + WorkedOn(arr, hi)
  }

  /** Under the daily rule every day adds nothing negative. */
  lemma {:induction false} WindowNonNegative(arr: seq<DayView>, lo: int, hi: int, base: int)
    ensures WindowExtra(arr, lo, hi, base) >= 0 && WindowOwed(arr, lo, hi, base) >= 0
    decreases hi - lo
  {
    if lo <= hi {
      WindowNonNegative(arr, lo, hi - 1, base);
    }
  }

  /** Without a worked Sunday the daily rule nets every day's minutes against the
      base, so a window nets its worked minutes against the base of each day. */
  lemma {:induction false} WindowNet(arr: seq<DayView>, lo: int, hi: int, base: int)
    requires lo <= hi + 1
    requires forall d :: lo <= d <= hi && Dow(d) == SUNDAY ==> WorkedOn(arr, d) <= 0
    ensures WindowExtra(arr, lo, hi, base) - WindowOwed(arr, lo, hi, base) == WindowWorked(arr, lo, hi) - base * (hi - lo + 1)
    decreases hi - lo
  {
    if lo <= hi {
      WindowNet(arr, lo, hi - 1, base);
      assert base * (hi - lo + 1) == base * (hi - 1 - lo + 1) + base;
    }
  }

  /** In a calendar the walk finds, for each date, the day at that offset. */
  lemma CalendarWorkedOn(arr: seq<DayView>, lo: int, hi: int, d: int)
    requires IsCalendar(arr, ViewDate, lo, hi) && lo <= d <= hi
    ensures Find(arr, d) == Some(arr[d - lo])
    ensures WorkedOn(arr, d) == arr[d - lo].worked
  {
    assert ViewDate(arr[d - lo]) == d;
    var r := Find(arr, d);
    if r.Some? {
      var i :| 0 <= i < |arr| && arr[i] == r.value && forall j :: 0 <= j < i ==> arr[j].date != d;
      assert ViewDate(arr[i]) == lo + i;
    }
  }

  lemma SumWorkedPrefix(arr: seq<DayView>, n: int)
    requires 0 < n <= |arr|
    ensures SumWorked(arr[..n]) == SumWorked(arr[..n - 1]) + arr[n - 1].worked
  {
    assert arr[..n][..n - 1] == arr[..n - 1];
  }

  /** In a calendar the walk over the dates lo..m reads the worked minutes of
      the days at offsets 0..m - lo. */
  lemma {:induction false} CalendarWindowWorked(arr: seq<DayView>, lo: int, hi: int, m: int)
    requires IsCalendar(arr, ViewDate, lo, hi) && lo - 1 <= m <= hi
    ensures WindowWorked(arr, lo, m) == SumWorked(arr[..m - lo + 1])
    decreases m - lo
  {
    if lo <= m {
      var n := m - lo + 1;
      var prev, day := WindowWorked(arr, lo, m - 1), WorkedOn(arr, m);
      assert prev == SumWorked(arr[..n - 1]) by {
        CalendarWindowWorked(arr, lo, hi, m - 1);
        assert arr[..(m - 1) - lo + 1] == arr[..n - 1];
      }
      assert day == arr[n - 1].worked by {
        CalendarWorkedOn(arr, lo, hi, m);
      }
      SumWorkedPrefix(arr, n);
      assert WindowWorked(arr, lo, m) == prev + day;
    }
  }

  /** No day dated lo..hi is a Sunday with minutes worked. */
  predicate NoWorkedSunday(days: seq<DayView>, lo: int, hi: int)
  {
    forall i :: 0 <= i < |days| && lo <= days[i].date <= hi && Dow(days[i].date) == SUNDAY ==> days[i].worked <= 0
  }

  /** The figures of any week row: its window lies in its week; extra and owed
      minutes are never negative; a whole week nets its worked minutes against
      the 48 h target and is in extra or in debt but not both. */
  lemma WeekFigures(arr: seq<DayView>, k: int, from: int, to: int, base: int)
    ensures var r := ClippedWeek(arr, k, from, to, base);
      && k <= r.weekStart && r.weekEnd <= k + 6
      && r.overtimeDec >= 0 && r.owedDec >= 0
      && (r.weekEnd - r.weekStart == 6 ==>
            r.overtimeDec - r.owedDec == r.workedDec - WEEK_TARGET && (r.overtimeDec == 0 || r.owedDec == 0))
  {
    var r := ClippedWeek(arr, k, from, to, base);
    WindowNonNegative(arr, r.weekStart, r.weekEnd, base);
  }

  /** A calendar window without a worked Sunday nets its worked minutes against
      the base of each of its days. */
  lemma CalendarWindowNet(arr: seq<DayView>, lo: int, hi: int, base: int)
    requires IsCalendar(arr, ViewDate, lo, hi) && NoWorkedSunday(arr, lo, hi)
    ensures WindowExtra(arr, lo, hi, base) - WindowOwed(arr, lo, hi, base) == SumWorked(arr) - base * (hi - lo + 1)
  {
    forall d | lo <= d <= hi && Dow(d) == SUNDAY ensures WorkedOn(arr, d) <= 0 {
      CalendarWorkedOn(arr, lo, hi, d);
      assert ViewDate(arr[d - lo]) == d;
    }
    WindowNet(arr, lo, hi, base);
    CalendarWindowWorked(arr, lo, hi, hi);
    assert arr[..hi - lo + 1] == arr;
  }

  /** The days dated lo..hi of a calendar without a worked Sunday among them net
      their worked minutes against the base of each day. */
  lemma SliceWindowNet(days: seq<DayView>, from: int, to: int, lo: int, hi: int, base: int, arr: seq<DayView>)
    requires IsCalendar(days, ViewDate, from, to) && from <= lo <= hi <= to
    requires arr == days[lo - from..hi - from + 1] && NoWorkedSunday(days, lo, hi)
    ensures WindowExtra(arr, lo, hi, base) - WindowOwed(arr, lo, hi, base) == SumWorked(arr) - base * (hi - lo + 1)
  {
    CalendarSlice(days, ViewDate, from, to, lo, hi);
    forall i | 0 <= i < |arr| ensures arr[i] == days[lo - from + i] {
    }
    CalendarWindowNet(arr, lo, hi, base);
  }

  /** A clipped week whose daily rule nets its days' minutes against the base
      nets its worked minutes against the base of each day of its window. */
  lemma PartialWeekRowNet(arr: seq<DayView>, k: int, from: int, to: int, base: int)
    requires MinDate(k + 6, to) - MaxDate(k, from) < 6
    requires var lo, hi := MaxDate(k, from), MinDate(k + 6, to);
      WindowExtra(arr, lo, hi, base) - WindowOwed(arr, lo, hi, base) == SumWorked(arr) - base * (hi - lo + 1)
    ensures var lo, hi := MaxDate(k, from), MinDate(k + 6, to);
      var r := ClippedWeek(arr, k, from, to, base);
      r.overtimeDec - r.owedDec == r.workedDec - base * (hi - lo + 1)
  {
  }

  /** The worked minutes of the group of a week key of a calendar are those of
      the days of its window. */
  lemma GroupWorked(days: seq<DayView>, from: int, to: int, k: int)
    requires IsCalendar(days, ViewDate, from, to) && Dow(k) == MONDAY && MondayOf(from) <= k <= to
    ensures 0 <= MaxDate(k, from) - from <= MinDate(k + 6, to) - from + 1 <= |days|
    ensures SumWorked(Group(days, ViewDate, k)) == SumWorked(days[MaxDate(k, from) - from..MinDate(k + 6, to) - from + 1])
  {
    GroupOfCalendar(days, ViewDate, from, to, k);
  }

  /** On a calendar over [from, to] the weeks of the summary are the week keys. */
  lemma CalendarWeeklyKeys(days: seq<DayView>, from: int, to: int, base: int)
    requires IsCalendar(days, ViewDate, from, to)
    ensures ClippedWeekly(days, from, to, base) == RowsFor(days, WeekKeys(from, to), from, to, base)
  {
    CalendarWeekStarts(days, ViewDate, from, to);
  }

  /** The row of a week key of a calendar over [from, to]: its window is that
      week cut to the range, its worked minutes are those of the days of the
      window, its extra and owed minutes are never negative, and a whole week
      nets its worked minutes against the 48 h target. */
  lemma CalendarWeekRow(days: seq<DayView>, from: int, to: int, base: int, k: int)
    requires IsCalendar(days, ViewDate, from, to) && Dow(k) == MONDAY && MondayOf(from) <= k <= to
    ensures var lo, hi := MaxDate(k, from), MinDate(k + 6, to);
      var r := ClippedWeek(Group(days, ViewDate, k), k, from, to, base);
      && r.weekStart == lo && r.weekEnd == hi && from <= lo <= hi <= to
      && r.workedDec == SumWorked(days[lo - from..hi - from + 1])
      && r.overtimeDec >= 0 && r.owedDec >= 0
      && (hi - lo == 6 ==>
            r.overtimeDec - r.owedDec == r.workedDec - WEEK_TARGET && (r.overtimeDec == 0 || r.owedDec == 0))
  {
    GroupWorked(days, from, to, k);
    WeekFigures(Group(days, ViewDate, k), k, from, to, base);
  }

  /** The row of a week key of a calendar over [from, to] whose window is cut
      short and holds no worked Sunday nets its worked minutes against the base
      of each day of the window. */
  lemma CalendarPartialWeekRow(days: seq<DayView>, from: int, to: int, base: int, k: int)
    requires IsCalendar(days, ViewDate, from, to) && Dow(k) == MONDAY && MondayOf(from) <= k <= to
    requires MinDate(k + 6, to) - MaxDate(k, from) < 6 && NoWorkedSunday(days, MaxDate(k, from), MinDate(k + 6, to))
    ensures var lo, hi := MaxDate(k, from), MinDate(k + 6, to);
      var r := ClippedWeek(Group(days, ViewDate, k), k, from, to, base);
      r.overtimeDec - r.owedDec == r.workedDec - base * (hi - lo + 1)
  {
    GroupOfCalendar(days, ViewDate, from, to, k);
    PartialSliceRow(days, from, to, base, k, Group(days, ViewDate, k));
  }

  /** The same for the run of the calendar's days that makes up the week. */
  lemma PartialSliceRow(days: seq<DayView>, from: int, to: int, base: int, k: int, arr: seq<DayView>)
    requires IsCalendar(days, ViewDate, from, to) && MondayOf(from) <= k <= to
    requires var lo, hi := MaxDate(k, from), MinDate(k + 6, to);
      && 0 <= lo - from <= hi - from + 1 <= |days| && arr == days[lo - from..hi - from + 1]
      && hi - lo < 6 && NoWorkedSunday(days, lo, hi)
    ensures var lo, hi := MaxDate(k, from), MinDate(k + 6, to);
      var r := ClippedWeek(arr, k, from, to, base);
      r.overtimeDec - r.owedDec == r.workedDec - base * (hi - lo + 1)
  {
    SliceWindowNet(days, from, to, MaxDate(k, from), MinDate(k + 6, to), base, arr);
    PartialWeekRowNet(arr, k, from, to, base);
  }

  /** `r` has the figures of the week with Monday `k` of a calendar `days` over
      [from, to]: its window is that week cut to the range, its worked minutes
      are those of the days of the window, its extra and owed minutes are never
      negative, a whole week nets its worked minutes against the 48 h target and
      is in extra or in debt but not both, and a clipped week without a worked
      Sunday nets them against the base of each day of its window. */
  predicate RowFigures(days: seq<DayView>, from: int, to: int, base: int, k: int, r: WeekRecord)
  {
    var lo, hi := MaxDate(k, from), MinDate(k + 6, to);
    && r.weekStart == lo && r.weekEnd == hi && from <= lo <= hi <= to && hi - from + 1 <= |days|
    && r.workedDec == SumWorked(days[lo - from..hi - from + 1])
    && r.overtimeDec >= 0 && r.owedDec >= 0
    && (hi - lo == 6 ==>
          r.overtimeDec - r.owedDec == r.workedDec - WEEK_TARGET && (r.overtimeDec == 0 || r.owedDec == 0))
    && (hi - lo < 6 && NoWorkedSunday(days, lo, hi) ==>
          r.overtimeDec - r.owedDec == r.workedDec - base * (hi - lo + 1))
  }

  /** The row of a week key of a calendar has the figures of its week. */
  lemma CalendarWeekFigures(days: seq<DayView>, from: int, to: int, base: int, k: int)
    requires IsCalendar(days, ViewDate, from, to) && Dow(k) == MONDAY && MondayOf(from) <= k <= to
    ensures RowFigures(days, from, to, base, k, ClippedWeek(Group(days, ViewDate, k), k, from, to, base))
  {
    CalendarWeekRow(days, from, to, base, k);
    if MinDate(k + 6, to) - MaxDate(k, from) < 6 && NoWorkedSunday(days, MaxDate(k, from), MinDate(k + 6, to)) {
      CalendarPartialWeekRow(days, from, to, base, k);
    }
  }

  /** The rows of Monday keys of a calendar over [from, to], each with the
      figures of its week. */
  lemma CalendarRows(days: seq<DayView>, keys: seq<int>, from: int, to: int, base: int)
    requires IsCalendar(days, ViewDate, from, to)
    requires forall j :: 0 <= j < |keys| ==> Dow(keys[j]) == MONDAY && MondayOf(from) <= keys[j] <= to
    ensures var w := RowsFor(days, keys, from, to, base);
      |w| == |keys| && forall j :: 0 <= j < |w| ==> RowFigures(days, from, to, base, keys[j], w[j])
  {
    var w := RowsFor(days, keys, from, to, base);
    forall j | 0 <= j < |w| ensures RowFigures(days, from, to, base, keys[j], w[j]) {
      CalendarWeekFigures(days, from, to, base, keys[j]);
    }
  }

  /** On a calendar over [from, to] the weekly summary has one row per week that
      meets the range, each with the figures of its week. */
  lemma CalendarWeekly(days: seq<DayView>, from: int, to: int, base: int)
    requires IsCalendar(days, ViewDate, from, to)
    ensures var w, keys := ClippedWeekly(days, from, to, base), WeekKeys(from, to);
      |w| == |keys| && forall j :: 0 <= j < |w| ==> RowFigures(days, from, to, base, keys[j], w[j])
  {
    CalendarWeeklyKeys(days, from, to, base);
    CalendarRows(days, WeekKeys(from, to), from, to, base);
  }

  /** On a calendar over [from, to] the windows of the weekly rows tile the range:
      the first starts at `from`, every later one on the Monday a whole number
      of weeks after the Monday of `from`; the last ends at `to`, every earlier
      one on the Sunday six days after its Monday. */
  lemma CalendarWeeklyTiles(days: seq<DayView>, from: int, to: int, base: int)
    requires IsCalendar(days, ViewDate, from, to)
    ensures var w := ClippedWeekly(days, from, to, base);
      && |w| > 0 && w[0].weekStart == from && w[|w| - 1].weekEnd == to
      && forall j :: 0 <= j < |w| ==>
           && w[j].weekStart == (if j == 0 then from else MondayOf(from) + 7 * j)
           && w[j].weekEnd == (if j == |w| - 1 then to else MondayOf(from) + 7 * j + 6)
  {
    var keys := WeekKeys(from, to);
    CalendarWeeklyKeys(days, from, to, base);
    WeekKeysTile(from, to);
    var w := RowsFor(days, keys, from, to, base);
    forall j | 0 <= j < |w|
      ensures w[j].weekStart == MaxDate(keys[j], from) && w[j].weekEnd == MinDate(keys[j] + 6, to)
    {
      assert w[j] == ClippedWeek(Group(days, ViewDate, keys[j]), keys[j], from, to, base);
    }
  }

  // The preview of a set of employees.

  /** The fields of the request body the preview reads. */
  datatype Request = Request(from: Option<int>, to: Option<int>, baseHoursPerDay: Raw, lunchMinutesDefault: Raw)

  /** The `computed` of one employee in the preview. */
  datatype Report = Report(days: seq<DayView>, weekly: seq<WeekRecord>, totals: Totals,
                           totalOvertime: int, baseHoursPerDay: int, rangeStart: int, rangeEnd: int)

  function RequestOptions(req: Request, from: int, to: int): Options
  {
    Options(req.baseHoursPerDay, req.lunchMinutesDefault, Some(from), Some(to))
  }

  /** The report built from the filled calculation of one employee over [from, to]. */
  function ReportFor(calcFilled: Calc, from: int, to: int): Report
  {
    var base := calcFilled.baseHoursPerDay;
    var days := EnrichDays(calcFilled.days, base);
    var weekly := ClippedWeekly(days, from, to, base);
    Report(days, weekly, TotalsOf(weekly), calcFilled.totalOvertime, base, from, to)
  }

  /** Over a valid range the days of a report are a calendar of the range. */
  lemma ReportDaysCalendar(computed: Calc, from: int, to: int)
    requires from <= to
    ensures IsCalendar(ReportFor(FillMissingDays(computed, from, to), from, to).days, ViewDate, from, to)
  {
    var filled := FillMissingDays(computed, from, to);
    var days := ReportFor(filled, from, to).days;
    forall j | 0 <= j < |days| ensures ViewDate(days[j]) == from + j {
      assert days[j] == Enrich(filled.days[j], filled.baseHoursPerDay);
    }
  }

  /** Over a valid range the weekly rows of a report are one per week meeting
      the range, tiling it from `from` to `to`, each with the figures of its
      week; the total net is the sum of the weekly nets. */
  lemma ReportWeekly(computed: Calc, from: int, to: int)
    requires from <= to
    ensures var rep := ReportFor(FillMissingDays(computed, from, to), from, to);
      var w, keys := rep.weekly, WeekKeys(from, to);
      && |w| == |keys| > 0 && w[0].weekStart == from && w[|w| - 1].weekEnd == to
      && (forall j :: 0 <= j < |w| ==> RowFigures(rep.days, from, to, rep.baseHoursPerDay, keys[j], w[j]))
      && rep.totals.totalNetDec == SumNet(w)
  {
    var rep := ReportFor(FillMissingDays(computed, from, to), from, to);
    ReportDaysCalendar(computed, from, to);
    CalendarWeekly(rep.days, from, to, rep.baseHoursPerDay);
    CalendarWeeklyTiles(rep.days, from, to, rep.baseHoursPerDay);
    TotalNetIsSumOfNets(rep.weekly);
  }

  /** What one employee contributes: the aggregation's error, or the report
      built from the filled calculation. */
  function EmployeeResult(sessions: seq<Session>, req: Request, defs: Defaults, from: int, to: int): Result<Report>
  {
    match ComputeSpec(sessions, RequestOptions(req, from, to), defs)
    case Err(m) => Err(m)
    case Ok(calcBase) => Ok(ReportFor(FillMissingDays(calcBase, from, to), from, to))
  }

  /** The employees in order, the first error ending the whole list. */
  function ResultsOf(employees: seq<seq<Session>>, req: Request, defs: Defaults, from: int, to: int): Result<seq<Report>>
  {
    if employees == [] then Ok([])
    else
      match ResultsOf(employees[..|employees| - 1], req, defs, from, to)
      case Err(m) => Err(m)
      case Ok(reports) =>
        match EmployeeResult(employees[|employees| - 1], req, defs, from, to)
        case Err(m) => Err(m)
        case Ok(report) => Ok(reports + [report])
  }

  /** What `preview` answers for the sessions of the selected employees: an
      error when a bound is missing, otherwise the reports of the employees in
      order, or the first error one of them raises. */
  function PreviewSpec(employees: seq<seq<Session>>, req: Request, defs: Defaults): Result<seq<Report>>
  {
    if req.from.None? || req.to.None? then Err(MISSING_RANGE)
    else ResultsOf(employees, req, defs, req.from.value, req.to.value)
  }

  /** One more employee: its error ends the results, or its report is appended. */
  lemma ResultsOfStep(employees: seq<seq<Session>>, i: int, req: Request, defs: Defaults, from: int, to: int, out: seq<Report>)
    requires 0 <= i < |employees| && ResultsOf(employees[..i], req, defs, from, to) == Ok(out)
    ensures var one := EmployeeResult(employees[i], req, defs, from, to);
      ResultsOf(employees[..i + 1], req, defs, from, to) == if one.Err? then Err(one.message) else Ok(out + [one.value])
  {
    assert employees[..i + 1][..i] == employees[..i];
  }

  /** Once an error is raised, the rest of the employees change nothing. */
  lemma {:induction false} ResultsOfAfterError(employees: seq<seq<Session>>, n: nat, req: Request, defs: Defaults, from: int, to: int)
    requires n <= |employees| && ResultsOf(employees[..n], req, defs, from, to).Err?
    ensures ResultsOf(employees, req, defs, from, to) == ResultsOf(employees[..n], req, defs, from, to)
    decreases |employees| - n
  {
    if n < |employees| {
      var init := employees[..|employees| - 1];
      assert init[..n] == employees[..n];
      ResultsOfAfterError(init, n, req, defs, from, to);
    } else {
      assert employees[..n] == employees;
    }
  }

  /** The report of one employee over [from, to] when the range is valid. */
  function EmployeeReport(sessions: seq<Session>, req: Request, defs: Defaults, from: int, to: int): Report
    requires from <= to
  {
    ReportFor(FillMissingDays(ComputeSpec(sessions, RequestOptions(req, from, to), defs).value, from, to), from, to)
  }

  /** The reports of all employees over a valid range, in order. */
  function AllReports(employees: seq<seq<Session>>, req: Request, defs: Defaults, from: int, to: int): (r: seq<Report>)
    requires from <= to
    ensures |r| == |employees|
  {
    if employees == [] then []
    else AllReports(employees[..|employees| - 1], req, defs, from, to) + [EmployeeReport(employees[|employees| - 1], req, defs, from, to)]
  }

  /** Over a valid range no employee raises an error: the outcome is the list
      of their reports, in order. */
  lemma {:induction false} ResultsOfValidRange(employees: seq<seq<Session>>, req: Request, defs: Defaults, from: int, to: int)
    requires from <= to
    ensures ResultsOf(employees, req, defs, from, to) == Ok(AllReports(employees, req, defs, from, to))
    decreases |employees|
  {
    if employees != [] {
      var init := employees[..|employees| - 1];
      ResultsOfValidRange(init, req, defs, from, to);
      var last := employees[|employees| - 1];
      assert ValidRange(RequestOptions(req, from, to));
      assert EmployeeResult(last, req, defs, from, to) == Ok(EmployeeReport(last, req, defs, from, to));
    }
  }

  /** Over a reversed range the first employee already raises the range error. */
  lemma ResultsOfReversedRange(employees: seq<seq<Session>>, req: Request, defs: Defaults, from: int, to: int)
    requires to < from && |employees| > 0
    ensures ResultsOf(employees, req, defs, from, to) == Err(RANGE_ERROR)
  {
    assert employees[..1][..0] == [];
    ResultsOfAfterError(employees, 1, req, defs, from, to);
  }

  /** The outcome of `preview`: the missing-bounds error; the range error of the
      aggregation exactly when there is an employee and the range is reversed;
      otherwise one report per employee, in order. */
  lemma PreviewOutcome(employees: seq<seq<Session>>, req: Request, defs: Defaults)
    ensures (req.from.None? || req.to.None?) ==> PreviewSpec(employees, req, defs) == Err(MISSING_RANGE)
    ensures req.from.Some? && req.to.Some? && |employees| > 0 && req.to.value < req.from.value ==>
      PreviewSpec(employees, req, defs) == Err(RANGE_ERROR)
    ensures req.from.Some? && req.to.Some? && req.from.value <= req.to.value ==>
      PreviewSpec(employees, req, defs) == Ok(AllReports(employees, req, defs, req.from.value, req.to.value))
    ensures req.from.Some? && req.to.Some? && |employees| == 0 ==> PreviewSpec(employees, req, defs) == Ok([])
  {
    if req.from.Some? && req.to.Some? {
      if req.from.value <= req.to.value {
        ResultsOfValidRange(employees, req, defs, req.from.value, req.to.value);
      } else if |employees| > 0 {
        ResultsOfReversedRange(employees, req, defs, req.from.value, req.to.value);
      }
    }
  }

  /** One pass of the loop over employees: the aggregation, the calendar fill,
      the day displays and the weekly summary. */
  method EmployeePreview(sessions: seq<Session>, req: Request, defs: Defaults, from: int, to: int) returns (r: Result<Report>)
    ensures r == EmployeeResult(sessions, req, defs, from, to)
  {
    var calcBase := ComputeFromSessions(sessions, RequestOptions(req, from, to), defs);
    if calcBase.Err? {
      return Err(calcBase.message);
    }
    var calcFilled := FillMissingDays(calcBase.value, from, to);
    var base := calcFilled.baseHoursPerDay;
    var days := EnrichDays(calcFilled.days, base);
    var weekly, totals := WeeklySummary(days, from, to, base);
    var report := Report(days, weekly, totals, calcFilled.totalOvertime, base, from, to);
    assert report == ReportFor(calcFilled, from, to);
    return Ok(report);
  }

  /** `preview`: the bounds check, then each selected employee in turn; an error
      thrown for any employee ends the whole request with its message. */
  method Preview(employees: seq<seq<Session>>, req: Request, defs: Defaults) returns (r: Result<seq<Report>>)
    ensures r == PreviewSpec(employees, req, defs)
  {
    if req.from.None? || req.to.None? {
      return Err(MISSING_RANGE);
    }
    var from, to := req.from.value, req.to.value;
    var out: seq<Report> := [];
    for i := 0 to |employees|
      invariant ResultsOf(employees[..i], req, defs, from, to) == Ok(out)
    {
      var one := EmployeePreview(employees[i], req, defs, from, to);
      ResultsOfStep(employees, i, req, defs, from, to, out);
      if one.Err? {
        ResultsOfAfterError(employees, i + 1, req, defs, from, to);
        return Err(one.message);
      }
      out := out + [one.value];
    }
    assert employees[..|employees|] == employees;
    return Ok(out);
  }
}
