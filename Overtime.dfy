/** The daily aggregator of the overtime service (`computeFromSessions`): raw
    clock-in / clock-out rows become one record per date of a requested range,
    with the minutes worked on that date and the minutes beyond the daily base. */
module Overtime {
  import opened Values
  import opened Text
  import opened TimeOfDay
  import opened Calendar

  /** A work session row as it reaches the engine. `workDate` is None when the
      row has no date (or one that does not parse, which the engine skips just
      the same); the times are the raw strings of the row. */
  datatype Session = Session(workDate: Option<int>, startTime: string, endTime: string,
                             hadLunch: bool, lunchMinutes: Raw)

  /** The options object of a call: base minutes per day, default lunch minutes,
      and the two range bounds (None when absent or empty). */
  datatype Options = Options(baseHoursPerDay: Raw, lunchMinutesDefault: Raw,
                             rangeStart: Option<int>, rangeEnd: Option<int>)

  /** The process-wide fallbacks `BASE_HOURS` and `DEFAULT_LUNCH`, in minutes. */
  datatype Defaults = Defaults(baseMinutes: int, lunchMinutes: int)

  /** The fallbacks when the environment sets neither: 8 hours and 60 minutes. */
  const ENV_DEFAULTS := Defaults(8 * 60, 60)

  /** One output record: a date, the minutes worked on it and its overtime. */
  datatype DayRecord = DayRecord(date: int, worked: int, overtime: int)

  /** The result object of `computeFromSessions`. */
  datatype Calc = Calc(days: seq<DayRecord>, totalOvertime: int, baseHoursPerDay: int,
                       rangeStart: int, rangeEnd: int)

  const RANGE_ERROR := "computeFromSessions: rango inválido. Provee { rangeStart, rangeEnd } (YYYY-MM-DD)."

  /** Both bounds are present and the end is not before the start. */
  predicate ValidRange(opts: Options)
  {
    opts.rangeStart.Some? && opts.rangeEnd.Some? && opts.rangeStart.value <= opts.rangeEnd.value
  }

  /** `dt(ymd, hhmm)`: the instant, in minutes since day 0, of a time on a date. */
  function Instant(date: int, clock: string): int
    requires Canonical(clock)
  {
    date * MINUTES_PER_DAY + ClockMinutes(clock)
  }

  /** `diffHours(a, b)`: the minutes from `a` to `b` when positive, else 0. */
  function DiffMinutes(a: int, b: int): (r: int)
    ensures r >= 0 && (r > 0 <==> b > a) && (b > a ==> a + r == b)
  {
    var mins := b - a;
    if mins > 0 then mins else 0
  }

  /** The length of a shift given by its two times of day: an end that is not
      after the start lies on the next day. */
  function ShiftMinutes(st: int, et: int): (r: int)
    requires 0 <= st < MINUTES_PER_DAY && 0 <= et < MINUTES_PER_DAY
    ensures 1 <= r <= MINUTES_PER_DAY
    ensures (st + r) % MINUTES_PER_DAY == et
    ensures r == MINUTES_PER_DAY <==> st == et
    ensures et > st ==> r == et - st
  {
    if et > st then et - st else et + MINUTES_PER_DAY - st
  }

  /** The lunch deducted from a session: nothing unless lunch was taken; then the
      session's own amount, where `null` counts as 0 and a missing or
      non-numeric amount falls back to the default. */
  function Lunch(s: Session, lunchDef: int): (r: int)
    ensures !s.hadLunch ==> r == 0
    ensures s.hadLunch && s.lunchMinutes.Finite? ==> r == s.lunchMinutes.n
    ensures s.hadLunch && s.lunchMinutes.Null? ==> r == 0
    ensures s.hadLunch && (s.lunchMinutes.Undefined? || s.lunchMinutes.NotNumeric?) ==> r == lunchDef
  {
    if s.hadLunch then SafeNum(s.lunchMinutes, lunchDef) else 0
  }

  /** The minutes a row with canonical times `st` and `et` counts once `lunch`
      minutes are deducted; never below zero. */
  function RowMinutes(st: string, et: string, lunch: int): (r: nat)
    requires Canonical(st) && Canonical(et)
    ensures var shift := ShiftMinutes(ClockMinutes(st), ClockMinutes(et));
            (r == 0 || r == shift - lunch) && r >= shift - lunch
    ensures lunch <= 0 ==> r >= 1
    ensures lunch >= 0 ==> r <= MINUTES_PER_DAY
  {
    Max0(ShiftMinutes(ClockMinutes(st), ClockMinutes(et)) - lunch)
  }

  /** A row the loop does not skip: it has a date inside [from, to] and both of
      its times normalise. */
  predicate Usable(s: Session, from: int, to: int)
  {
    s.workDate.Some? && from <= s.workDate.value <= to
    && NormalizeTime(s.startTime).Some? && NormalizeTime(s.endTime).Some?
  }

  /** What one session adds up, as a reference for the loop body: None when the
      row is skipped, otherwise its date and its worked minutes. */
  function Contribution(s: Session, from: int, to: int, lunchDef: int): (r: Option<(int, nat)>)
    ensures r.Some? <==> Usable(s, from, to)
    ensures r.Some? ==> r.value.0 == s.workDate.value
  {
    if Usable(s, from, to) then
      Some((s.workDate.value,
            RowMinutes(NormalizeTime(s.startTime).value, NormalizeTime(s.endTime).value, Lunch(s, lunchDef))))
    else None
  }

  /** The minutes an entry of the loop adds to date `d`. */
  function EntryAdds(e: Option<(int, nat)>, d: int): nat
  {
    match e
    case Some((date, w)) => if date == d then w else 0
    case None => 0
  }

  /** The minutes a list of entries adds to date `d`. */
  function TotalOf(cs: seq<Option<(int, nat)>>, d: int): nat
  {
    if cs == [] then 0 else TotalOf(cs[..|cs| - 1], d) + EntryAdds(cs[|cs| - 1], d)
  }

  /** The entry of every session, in order. */
  function Contribs(ss: seq<Session>, from: int, to: int, lunchDef: int): (r: seq<Option<(int, nat)>>)
    ensures |r| == |ss| && forall i :: 0 <= i < |ss| ==> r[i] == Contribution(ss[i], from, to, lunchDef)
  {
    seq(|ss|, i requires 0 <= i < |ss| => Contribution(ss[i], from, to, lunchDef))
  }

  /** The minutes the sessions `ss` add to date `d`. */
  function DayTotal(ss: seq<Session>, d: int, from: int, to: int, lunchDef: int): nat
  {
    TotalOf(Contribs(ss, from, to, lunchDef), d)
  }

  /** The record of date `d` worked for `worked` minutes against `base`. */
  function MakeDay(d: int, worked: int, base: int): (r: DayRecord)
    ensures r.date == d && r.worked == worked
    ensures r.overtime >= 0 && r.overtime >= worked - base
    ensures r.overtime == 0 || r.overtime == worked - base
  {
    DayRecord(d, worked, Max0(worked - base))
  }

  /** The days of [from, to], each with the minutes the sessions add to it. */
  function DaysFor(ss: seq<Session>, from: int, to: int, lunchDef: int, base: int): (r: seq<DayRecord>)
    requires from <= to
    ensures |r| == to - from + 1
    ensures forall j :: 0 <= j < |r| ==> r[j] == MakeDay(from + j, DayTotal(ss, from + j, from, to, lunchDef), base)
  {
    seq(to - from + 1, j requires 0 <= j < to - from + 1 =>
      MakeDay(from + j, DayTotal(ss, from + j, from, to, lunchDef), base))
  }

  /** `days.reduce((acc, d) => acc + d.overtime, 0)`. */
  function SumOvertime(days: seq<DayRecord>): int
  {
    if days == [] then 0 else SumOvertime(days[..|days| - 1]) + days[|days| - 1].overtime
  }

  /** What `computeFromSessions` returns or throws, stated over whole inputs. */
  function ComputeSpec(sessions: seq<Session>, opts: Options, defs: Defaults): (r: Result<Calc>)
    ensures r.Err? <==> !ValidRange(opts)
    ensures r.Err? ==> r.message == RANGE_ERROR
    ensures r.Ok? ==>
      r.value.rangeStart == opts.rangeStart.value && r.value.rangeEnd == opts.rangeEnd.value
      && r.value.baseHoursPerDay == SafeNum(opts.baseHoursPerDay, defs.baseMinutes)
      && |r.value.days| == r.value.rangeEnd - r.value.rangeStart + 1
      && r.value.totalOvertime == SumOvertime(r.value.days)
  {
    if !ValidRange(opts) then Err(RANGE_ERROR)
    else
      var from, to := opts.rangeStart.value, opts.rangeEnd.value;
      var base := SafeNum(opts.baseHoursPerDay, defs.baseMinutes);
      var lunchDef := SafeNum(opts.lunchMinutesDefault, defs.lunchMinutes);
      var days := DaysFor(sessions, from, to, lunchDef, base);
      Ok(Calc(days, SumOvertime(days), base, from, to))
  }

  /** The minutes between the two instants of a session equal the length of the
      shift given by its times of day. */
  lemma InstantShift(d: int, st: string, et: string)
    requires Canonical(st) && Canonical(et)
    ensures var start, end0 := Instant(d, st), Instant(d, et);
            var end := if !(end0 > start) then end0 + MINUTES_PER_DAY else end0;
            DiffMinutes(start, end) == ShiftMinutes(ClockMinutes(st), ClockMinutes(et))
  {
  }

  /** `byDate` holds, for every date the entries `cs` add minutes to, the
      minutes they add, and no other date. */
  ghost predicate Accumulated(byDate: map<int, int>, cs: seq<Option<(int, nat)>>)
  {
    (forall d :: d in byDate ==> byDate[d] == TotalOf(cs, d))
    && (forall d :: d !in byDate ==> TotalOf(cs, d) == 0)
  }

  lemma TotalOfSnoc(cs: seq<Option<(int, nat)>>, e: Option<(int, nat)>, d: int)
    ensures TotalOf(cs + [e], d) == TotalOf(cs, d) + EntryAdds(e, d)
  {
    assert (cs + [e])[..|cs|] == cs;
  }

  /** A skipped session leaves every day total as it was. */
  lemma SkipStep(byDate: map<int, int>, cs: seq<Option<(int, nat)>>)
    requires Accumulated(byDate, cs)
    ensures Accumulated(byDate, cs + [None])
  {
    forall d ensures TotalOf(cs + [None], d) == TotalOf(cs, d) {
      TotalOfSnoc(cs, None, d);
    }
  }

  /** A usable session adds its minutes to the total of its own date only. */
  lemma AddStep(byDate: map<int, int>, cs: seq<Option<(int, nat)>>, date: int, w: nat)
    requires Accumulated(byDate, cs)
    ensures Accumulated(byDate[date := (if date in byDate then byDate[date] else 0) + w], cs + [Some((date, w))])
  {
    forall d ensures TotalOf(cs + [Some((date, w))], d) == TotalOf(cs, d) + (if d == date then w else 0) {
      TotalOfSnoc(cs, Some((date, w)), d);
    }
  }

  lemma ContribsSnoc(ss: seq<Session>, s: Session, from: int, to: int, lunchDef: int)
    ensures Contribs(ss + [s], from, to, lunchDef) == Contribs(ss, from, to, lunchDef) + [Contribution(s, from, to, lunchDef)]
  {
  }

  /** The minutes of a usable session: the start and end instants on its date,
      the end moved to the next day when it is not after the start, the minutes
      between them, less the lunch, never below zero. */
  method SessionMinutes(s: Session, ymdStr: int, st: string, et: string, lunchDef: int) returns (worked: int)
    requires Canonical(st) && Canonical(et)
    ensures worked == RowMinutes(st, et, Lunch(s, lunchDef))
  {
    var start := Instant(ymdStr, st);
    var end := Instant(ymdStr, et);
    if !(end > start) {
      end := end + MINUTES_PER_DAY;
    }
    worked := DiffMinutes(start, end);
    InstantShift(ymdStr, st, et);
    var lunchMin := if s.hadLunch then SafeNum(s.lunchMinutes, lunchDef) else 0;
    worked := Max0(worked - lunchMin);
  }

  /** The `for (const s of sessions)` loop of `computeFromSessions`: every
      usable session adds its minutes to the entry of its date in `byDate`. */
  method AccumulateByDate(sessions: seq<Session>, rangeStart: int, rangeEnd: int, lunchDef: int)
    returns (byDate: map<int, int>)
    ensures forall d :: d in byDate ==> byDate[d] == DayTotal(sessions, d, rangeStart, rangeEnd, lunchDef)
    ensures forall d :: d !in byDate ==> DayTotal(sessions, d, rangeStart, rangeEnd, lunchDef) == 0
  {
    byDate := map[];
    var i := 0;
    while i < |sessions|
      invariant 0 <= i <= |sessions|
      invariant Accumulated(byDate, Contribs(sessions[..i], rangeStart, rangeEnd, lunchDef))
    {
      var s := sessions[i];
      ghost var cs := Contribs(sessions[..i], rangeStart, rangeEnd, lunchDef);
      assert sessions[..i + 1] == sessions[..i] + [s];
      ContribsSnoc(sessions[..i], s, rangeStart, rangeEnd, lunchDef);
      i := i + 1;
      if s.workDate.None? {
        assert Contribution(s, rangeStart, rangeEnd, lunchDef) == None;
        SkipStep(byDate, cs);
        continue;
      }
      var ymdStr := s.workDate.value;
      if ymdStr < rangeStart || ymdStr > rangeEnd {
        assert Contribution(s, rangeStart, rangeEnd, lunchDef) == None;
        SkipStep(byDate, cs);
        continue;
      }
      var st := NormalizeTime(s.startTime);
      var et := NormalizeTime(s.endTime);
      if st.None? || et.None? {
        assert Contribution(s, rangeStart, rangeEnd, lunchDef) == None;
        SkipStep(byDate, cs);
        continue;
      }
      var worked := SessionMinutes(s, ymdStr, st.value, et.value, lunchDef);
      assert Contribution(s, rangeStart, rangeEnd, lunchDef) == Some((ymdStr, worked));
      AddStep(byDate, cs, ymdStr, worked);
      byDate := byDate[ymdStr := (if ymdStr in byDate then byDate[ymdStr] else 0) + worked];
    }
    assert sessions[..|sessions|] == sessions;
  }

  /** The `while (cursor <= rangeEnd)` loop of `computeFromSessions`: one record
      per date of the range, with the minutes `byDate` holds for it (0 when it
      holds none) and the minutes beyond `base`. */
  method EmitDays(byDate: map<int, int>, rangeStart: int, rangeEnd: int, base: int)
    returns (days: seq<DayRecord>)
    requires rangeStart <= rangeEnd
    ensures |days| == rangeEnd - rangeStart + 1
    ensures forall j :: 0 <= j < |days| ==>
      var d := rangeStart + j;
      days[j] == MakeDay(d, if d in byDate then byDate[d] else 0, base)
  {
    days := [];
    var cursor := rangeStart;
    while cursor <= rangeEnd
      invariant rangeStart <= cursor <= rangeEnd + 1
      invariant |days| == cursor - rangeStart
      invariant forall j :: 0 <= j < |days| ==>
        var d := rangeStart + j;
        days[j] == MakeDay(d, if d in byDate then byDate[d] else 0, base)
    {
      var worked := SafeNum(if cursor in byDate then Finite(byDate[cursor]) else Undefined, 0);
      var overtime := Max0(worked - base);
      days := days + [DayRecord(cursor, worked, overtime)];
      cursor := AddDays(cursor, 1);
    }
  }

  /** `computeFromSessions`: the range check, the accumulation, the records of
      the range and the sum of the daily overtime. */
  method ComputeFromSessions(sessions: seq<Session>, opts: Options, defs: Defaults) returns (r: Result<Calc>)
    ensures r == ComputeSpec(sessions, opts, defs)
  {
    var base := SafeNum(opts.baseHoursPerDay, defs.baseMinutes);
    var lunchDef := SafeNum(opts.lunchMinutesDefault, defs.lunchMinutes);
    if opts.rangeStart.None? || opts.rangeEnd.None? || opts.rangeEnd.value < opts.rangeStart.value {
      return Err(RANGE_ERROR);
    }
    var rangeStart, rangeEnd := opts.rangeStart.value, opts.rangeEnd.value;
    var byDate := AccumulateByDate(sessions, rangeStart, rangeEnd, lunchDef);
    var days := EmitDays(byDate, rangeStart, rangeEnd, base);
    var totalOvertime := SumOvertime(days);
    assert days == DaysFor(sessions, rangeStart, rangeEnd, lunchDef, base);
    r := Ok(Calc(days, totalOvertime, base, rangeStart, rangeEnd));
  }

  // Properties of the daily aggregation.

  /** Totals add up over concatenated lists of entries. */
  lemma {:induction false} TotalOfConcat(cs: seq<Option<(int, nat)>>, ds: seq<Option<(int, nat)>>, d: int)
    ensures TotalOf(cs + ds, d) == TotalOf(cs, d) + TotalOf(ds, d)
    decreases |ds|
  {
    if ds == [] {
      assert cs + ds == cs;
    } else {
      var init, last := ds[..|ds| - 1], ds[|ds| - 1];
      TotalOfConcat(cs, init, d);
      assert (cs + ds)[..|cs + ds| - 1] == cs + init;
    }
  }

  lemma ContribsConcat(ss: seq<Session>, ts: seq<Session>, from: int, to: int, lunchDef: int)
    ensures Contribs(ss + ts, from, to, lunchDef) == Contribs(ss, from, to, lunchDef) + Contribs(ts, from, to, lunchDef)
  {
  }

  /** The minutes of sessions on the same date are summed: the total of two lists
      of sessions is the sum of their totals. */
  lemma DayTotalConcat(ss: seq<Session>, ts: seq<Session>, d: int, from: int, to: int, lunchDef: int)
    ensures DayTotal(ss + ts, d, from, to, lunchDef) == DayTotal(ss, d, from, to, lunchDef) + DayTotal(ts, d, from, to, lunchDef)
  {
    ContribsConcat(ss, ts, from, to, lunchDef);
    TotalOfConcat(Contribs(ss, from, to, lunchDef), Contribs(ts, from, to, lunchDef), d);
  }

  /** A single session adds its minutes to its own date when it is usable, and
      nothing anywhere otherwise. */
  lemma DayTotalSingle(s: Session, d: int, from: int, to: int, lunchDef: int)
    ensures DayTotal([s], d, from, to, lunchDef) ==
      if Usable(s, from, to) && s.workDate.value == d
      then RowMinutes(NormalizeTime(s.startTime).value, NormalizeTime(s.endTime).value, Lunch(s, lunchDef))
      else 0
  {
    var cs := Contribs([s], from, to, lunchDef);
    assert cs == [Contribution(s, from, to, lunchDef)];
    assert cs[..0] == [];
    assert TotalOf(cs, d) == EntryAdds(cs[0], d);
  }

  /** The result depends on the sessions only through their day totals. */
  lemma ComputeSpecByTotals(ss: seq<Session>, ts: seq<Session>, opts: Options, defs: Defaults)
    requires ValidRange(opts) ==>
      forall d :: DayTotal(ss, d, opts.rangeStart.value, opts.rangeEnd.value, SafeNum(opts.lunchMinutesDefault, defs.lunchMinutes))
               == DayTotal(ts, d, opts.rangeStart.value, opts.rangeEnd.value, SafeNum(opts.lunchMinutesDefault, defs.lunchMinutes))
    ensures ComputeSpec(ss, opts, defs) == ComputeSpec(ts, opts, defs)
  {
    if ValidRange(opts) {
      var from, to := opts.rangeStart.value, opts.rangeEnd.value;
      var base := SafeNum(opts.baseHoursPerDay, defs.baseMinutes);
      var lunchDef := SafeNum(opts.lunchMinutesDefault, defs.lunchMinutes);
      assert DaysFor(ss, from, to, lunchDef, base) == DaysFor(ts, from, to, lunchDef, base);
    }
  }

  /** A session with no date, a date outside the range, or a time that does not
      normalise has no effect on the result, wherever it stands in the list. */
  lemma SkippedSessionNoEffect(ss: seq<Session>, s: Session, ts: seq<Session>, opts: Options, defs: Defaults)
    requires ValidRange(opts) && !Usable(s, opts.rangeStart.value, opts.rangeEnd.value)
    ensures ComputeSpec(ss + [s] + ts, opts, defs) == ComputeSpec(ss + ts, opts, defs)
  {
    var from, to := opts.rangeStart.value, opts.rangeEnd.value;
    var lunchDef := SafeNum(opts.lunchMinutesDefault, defs.lunchMinutes);
    forall d ensures DayTotal(ss + [s] + ts, d, from, to, lunchDef) == DayTotal(ss + ts, d, from, to, lunchDef) {
      DayTotalConcat(ss + [s], ts, d, from, to, lunchDef);
      DayTotalConcat(ss, [s], d, from, to, lunchDef);
      DayTotalConcat(ss, ts, d, from, to, lunchDef);
      DayTotalSingle(s, d, from, to, lunchDef);
    }
    ComputeSpecByTotals(ss + [s] + ts, ss + ts, opts, defs);
  }

  /** The order of the sessions does not matter. */
  lemma SessionOrderIrrelevant(ss: seq<Session>, ts: seq<Session>, opts: Options, defs: Defaults)
    ensures ComputeSpec(ss + ts, opts, defs) == ComputeSpec(ts + ss, opts, defs)
  {
    if ValidRange(opts) {
      var from, to := opts.rangeStart.value, opts.rangeEnd.value;
      var lunchDef := SafeNum(opts.lunchMinutesDefault, defs.lunchMinutes);
      forall d ensures DayTotal(ss + ts, d, from, to, lunchDef) == DayTotal(ts + ss, d, from, to, lunchDef) {
        DayTotalConcat(ss, ts, d, from, to, lunchDef);
        DayTotalConcat(ts, ss, d, from, to, lunchDef);
      }
    }
    ComputeSpecByTotals(ss + ts, ts + ss, opts, defs);
  }

  /** The records are the dates of the range in strictly ascending order, each
      with the minutes its sessions add to it and the minutes beyond the base. */
  lemma ComputeDays(sessions: seq<Session>, opts: Options, defs: Defaults)
    requires ValidRange(opts)
    ensures var c := ComputeSpec(sessions, opts, defs).value;
            var lunchDef := SafeNum(opts.lunchMinutesDefault, defs.lunchMinutes);
            (forall i, j :: 0 <= i < j < |c.days| ==> c.days[i].date < c.days[j].date)
            && c.days[0].date == c.rangeStart && c.days[|c.days| - 1].date == c.rangeEnd
            && forall j :: 0 <= j < |c.days| ==>
                 c.days[j].worked == DayTotal(sessions, c.days[j].date, c.rangeStart, c.rangeEnd, lunchDef)
                 && c.days[j].overtime == Max0(c.days[j].worked - c.baseHoursPerDay)
  {
  }

  /** The daily overtime values of records are never negative. */
  predicate NonNegativeOvertime(days: seq<DayRecord>)
  {
    forall j :: 0 <= j < |days| ==> days[j].overtime >= 0
  }

  /** A sum of non-negative overtime values is zero exactly when every value is. */
  lemma {:induction false} SumOvertimeZero(days: seq<DayRecord>)
    requires NonNegativeOvertime(days)
    ensures SumOvertime(days) >= 0
    ensures SumOvertime(days) == 0 <==> forall j :: 0 <= j < |days| ==> days[j].overtime == 0
  {
    if days != [] {
      var init := days[..|days| - 1];
      assert forall j :: 0 <= j < |init| ==> init[j] == days[j];
      SumOvertimeZero(init);
    }
  }

  /** There is no overtime in the range exactly when no day exceeds the base. */
  lemma TotalOvertimeZeroIff(sessions: seq<Session>, opts: Options, defs: Defaults)
    requires ValidRange(opts)
    ensures var c := ComputeSpec(sessions, opts, defs).value;
            c.totalOvertime >= 0
            && (c.totalOvertime == 0 <==> forall j :: 0 <= j < |c.days| ==> c.days[j].worked <= c.baseHoursPerDay)
  {
    var c := ComputeSpec(sessions, opts, defs).value;
    SumOvertimeZero(c.days);
  }

  /** Clock readings of the example times. */
  /** A "DD:DD" string with an hour of at most 23 and a minute of at most 59 is
      canonical, and denotes that minute of the day. */
  lemma FiveCharClock(c: string)
    requires |c| == 5 && c[2] == ':' && IsDigit(c[0]) && IsDigit(c[1]) && IsDigit(c[3]) && IsDigit(c[4])
    requires DigitValue(c[0]) * 10 + DigitValue(c[1]) <= 23 && DigitValue(c[3]) * 10 + DigitValue(c[4]) <= 59
    ensures Canonical(c)
    ensures ClockMinutes(c) == (DigitValue(c[0]) * 10 + DigitValue(c[1])) * 60 + DigitValue(c[3]) * 10 + DigitValue(c[4])
  {
    FiveCharTime(c);
  }

  lemma ClockExamples()
    ensures Canonical("22:00") && ClockMinutes("22:00") == 1320
    ensures Canonical("02:00") && ClockMinutes("02:00") == 120
    ensures Canonical("08:00") && ClockMinutes("08:00") == 480
    ensures Canonical("17:00") && ClockMinutes("17:00") == 1020
  {
    FiveCharClock("22:00");
    FiveCharClock("02:00");
    FiveCharClock("08:00");
    FiveCharClock("17:00");
  }

  /** A shift from 22:00 to 02:00 crosses midnight and lasts four hours. */
  lemma OvernightShift()
    ensures Canonical("22:00") && Canonical("02:00")
    ensures RowMinutes("22:00", "02:00", 0) == 240
  {
    ClockExamples();
  }

  /** 08:00 to 17:00 with the default hour of lunch is eight hours; with a `null`
      lunch amount nothing is deducted and it is nine. */
  lemma LunchExamples(d: int)
    ensures Canonical("08:00") && Canonical("17:00")
    ensures RowMinutes("08:00", "17:00", Lunch(Session(Some(d), "08:00", "17:00", true, Undefined), ENV_DEFAULTS.lunchMinutes)) == 480
    ensures RowMinutes("08:00", "17:00", Lunch(Session(Some(d), "08:00", "17:00", true, Null), ENV_DEFAULTS.lunchMinutes)) == 540
    ensures RowMinutes("08:00", "17:00", Lunch(Session(Some(d), "08:00", "17:00", false, Finite(30)), ENV_DEFAULTS.lunchMinutes)) == 540
  {
    ClockExamples();
  }
}
