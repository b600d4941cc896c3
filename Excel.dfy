/** The workbook builder of the Excel service: one worksheet per employee with
    a safe sheet name, a daily grid, the net total, and a weekly summary under
    a rule of its own for the last partial week. */
module Excel {
  import opened Values
  import opened Text
  import opened Calendar
  import opened Weeks
  import opened Overtime
  import Reports

  const EMPLEADO := "Empleado"
  const DESCANSO := "DESCANSO"
  const MAX_SHEET_NAME := 31

  // Sheet names.

  /** The characters `safeName` replaces: \ / ? * [ ] and the colon. */
  predicate Forbidden(c: char)
  {
    c == '\\' || c == '/' || c == '?' || c == '*' || c == '[' || c == ']' || c == ':'
  }

  /** `.replace(/[\\/?*[\]:]/g, ' ')`: every forbidden character becomes a space. */
  function ReplaceForbidden(s: string): (r: string)
    ensures |r| == |s|
    ensures forall i :: 0 <= i < |s| ==> r[i] == (if Forbidden(s[i]) then ' ' else s[i])
  {
    seq(|s|, i requires 0 <= i < |s| => if Forbidden(s[i]) then ' ' else s[i])
  }

  /** `.slice(0, 31)`. */
  function Take(s: string, n: nat): (r: string)
    ensures |r| == if |s| <= n then |s| else n
    ensures r == s[..|r|]
  {
    if |s| <= n then s else s[..n]
  }

  /** A name Excel accepts for a sheet: one to 31 characters, none forbidden,
      no space at either end. */
  predicate SafeSheetName(s: string)
  {
    0 < |s| <= MAX_SHEET_NAME && Trimmed(s) && forall i :: 0 <= i < |s| ==> !Forbidden(s[i])
  }

  /** No character left after the replacement is forbidden. */
  lemma ReplacedClean(s: string)
    ensures forall c :: c in ReplaceForbidden(s) ==> !Forbidden(c)
  {
    var r := ReplaceForbidden(s);
    forall c | c in r ensures !Forbidden(c) {
      var j :| 0 <= j < |r| && r[j] == c;
    }
  }

  /** Cutting and trimming only drops characters. */
  lemma CutKeeps(u: string)
    ensures forall c :: c in Trim(Take(u, MAX_SHEET_NAME)) ==> c in u
  {
    var v := Take(u, MAX_SHEET_NAME);
    assert forall c :: c in v ==> c in u;
  }

  /** Nothing `safeName` keeps after the replacement is forbidden. */
  lemma CleanAfterReplace(s: string)
    ensures var t := Trim(Take(ReplaceForbidden(s), MAX_SHEET_NAME));
      forall i :: 0 <= i < |t| ==> !Forbidden(t[i])
  {
    var t := Trim(Take(ReplaceForbidden(s), MAX_SHEET_NAME));
    ReplacedClean(s);
    CutKeeps(ReplaceForbidden(s));
    forall i | 0 <= i < |t| ensures !Forbidden(t[i]) {
      assert t[i] in t;
    }
  }

  /** "Empleado" is a safe name. */
  lemma EmpleadoSafe()
    ensures SafeSheetName(EMPLEADO)
  {
    assert EMPLEADO[0] == 'E' && EMPLEADO[7] == 'o';
  }

  /** The name with its forbidden characters replaced by spaces, cut to 31
      characters and trimmed, and "Empleado" if nothing is left. */
  function Sanitize(given: string): (r: string)
    ensures SafeSheetName(r)
  {
    var t := Trim(Take(ReplaceForbidden(given), MAX_SHEET_NAME));
    CleanAfterReplace(given);
    EmpleadoSafe();
    if t == [] then EMPLEADO else t
  }

  /** `safeName`: a missing or empty name is "Empleado"; any other is sanitized. */
  function SafeName(s: Option<string>): (r: string)
    ensures SafeSheetName(r)
  {
    Sanitize(if s.None? || s.value == [] then EMPLEADO else s.value)
  }

  /** Sanitizing a name that is already safe keeps it. */
  lemma SanitizeKeepsSafe(s: string)
    requires SafeSheetName(s)
    ensures Sanitize(s) == s
  {
    assert ReplaceForbidden(s) == s;
    assert Take(s, MAX_SHEET_NAME) == s;
    TrimOfTrimmed(s);
  }

  /** A name that is already safe is kept as it is, so `safeName` is idempotent. */
  lemma SafeNameKeepsSafe(s: string)
    requires SafeSheetName(s)
    ensures SafeName(Some(s)) == s
  {
    SanitizeKeepsSafe(s);
  }

  lemma SafeNameIdempotent(s: Option<string>)
    ensures SafeName(Some(SafeName(s))) == SafeName(s)
  {
    SafeNameKeepsSafe(SafeName(s));
  }

  /** A missing name and an empty one both become "Empleado". */
  lemma SafeNameDefault()
    ensures SafeName(None) == EMPLEADO && SafeName(Some("")) == EMPLEADO
  {
    EmpleadoSafe();
    SanitizeKeepsSafe(EMPLEADO);
  }

  /** Brackets become spaces, which the trim then drops. */
  lemma SafeNameBrackets()
    ensures SafeName(Some("[a]")) == "a"
  {
    var s := "[a]";
    var u := "a";
    assert ReplaceForbidden(s) == [' '] + u + [' '];
    TrimOneSpaceEach(u);
  }

  /** A name of forbidden characters only falls back to "Empleado". */
  lemma SafeNameAllForbidden()
    ensures SafeName(Some("/:?")) == EMPLEADO
  {
    var t := "/:?";
    assert ReplaceForbidden(t) == "   ";
    assert Take("   ", MAX_SHEET_NAME) == "   ";
    assert "   "[1..] == "  " && "  "[1..] == " " && " "[1..] == "";
    assert TrimStart("   ") == "";
  }

  // Hours as text.

  /** The `decToHHMM` of the Excel service: `Number(h) || 0`, so null, undefined
      and anything that is not a number count as 0; then the signed "HH:MM". */
  function DecToHHMM(h: Raw): (r: string)
    ensures ParseHHMM(r) == Some(SafeNum(h, 0))
    ensures r[0] == '-' <==> SafeNum(h, 0) < 0
  {
    HHMMRoundTrip(SafeNum(h, 0));
    HHMM(SafeNum(h, 0))
  }

  /** The text of zero minutes is "00:00". */
  lemma HHMMZero()
    ensures HHMM(0) == "00:00"
  {
    assert NatToString(0) == "0";
    assert Pad2(0) == "00";
  }

  /** The two `decToHHMM` functions of the engine give the same text for every value. */
  lemma DecToHHMMAgree(h: Raw)
    ensures DecToHHMM(h) == Reports.DecToHHMM(h)
  {
    if !h.Finite? {
      HHMMZero();
    }
  }

  // The daily grid.

  /** What a cell of the sheet holds: text, or a duration (`toExcelTime`, shown
      as [h]:mm) given here in minutes, or a date. */
  datatype Cell = Text(s: string) | Hours(minutes: int) | Date(day: int)

  /** The cells of one day of the grid: its column (C = 3), its date (row 5), and
      the worked, overtime and owed cells (rows 6, 7 and 8). */
  datatype DayColumn = DayColumn(col: int, date: Cell, worked: Cell, overtime: Cell, owed: Cell)

  /** The column of a day: "DESCANSO" in the three time rows when nothing was
      worked; otherwise the minutes worked, the overtime, and the shortfall
      against the base when there is one and zero when there is not. */
  function DayColumnOf(d: DayRecord, col: int, base: int): (c: DayColumn)
    ensures c.col == col && c.date == Date(d.date)
    ensures c.worked == Text(DESCANSO) <==> d.worked == 0
    ensures c.overtime == Text(DESCANSO) <==> d.worked == 0
    ensures c.owed == Text(DESCANSO) <==> d.worked == 0
    ensures d.worked != 0 ==>
      c.worked == Hours(d.worked) && c.overtime == Hours(d.overtime) && c.owed == Hours(Max0(base - d.worked))
  {
    var workedCell := if d.worked == 0 then Text(DESCANSO) else Hours(d.worked);
    var overtimeCell := if d.worked == 0 then Text(DESCANSO) else Hours(d.overtime);
    var owedCell := if d.worked == 0 then Text(DESCANSO)
                    else Hours(if d.worked < base then base - d.worked else 0);
    DayColumn(col, Date(d.date), workedCell, overtimeCell, owedCell)
  }

  /** On a worked day the grid shows the owed minutes the preview computes, and
      both show "DESCANSO" on exactly the same days. */
  lemma DayColumnMatchesPreview(d: DayRecord, col: int, base: int)
    ensures var c, v := DayColumnOf(d, col, base), Reports.Enrich(d, base);
      && (c.worked == Text(DESCANSO) <==> v.workedDisplay == Reports.DESCANSO)
      && (d.worked != 0 ==> c.owed == Hours(v.owed))
  {
  }

  /** The `for (const d of calc.days)` loop: one column per day from column C
      on, and the list of the days' date, worked and overtime minutes. */
  method DayGrid(days: seq<DayRecord>, base: int) returns (grid: seq<DayColumn>, daysArr: seq<DayRecord>)
    ensures grid == GridOf(days, base)
    ensures daysArr == days
  {
    var col := 3;
    grid, daysArr := [], [];
    for j := 0 to |days|
      invariant col == 3 + j
      invariant grid == GridOf(days[..j], base)
      invariant daysArr == days[..j]
    {
      var d := days[j];
      assert days[..j + 1][..j] == days[..j];
      grid := grid + [DayColumnOf(d, col, base)];
      daysArr := daysArr + [DayRecord(d.date, d.worked, d.overtime)];
      col := col + 1;
    }
    assert days[..|days|] == days;
  }

  // The weekly summary of the sheet.

  /** The weekly target of the sheet: 48 hours, in minutes. */
  const WEEK_TARGET := 48 * 60

  function RecDate(d: DayRecord): int
  {
    d.date
  }

  /** `arr.reduce((acc, x) => acc + safeNum(x.worked), 0)`. */
  function SumRecWorked(arr: seq<DayRecord>): int
  {
    if arr == [] then 0 else SumRecWorked(arr[..|arr| - 1]) + arr[|arr| - 1].worked
  }

  /** The daily rule of the sheet: every day adds its excess over the base to
      the extra minutes, Sundays included. */
  function DailyExtra(arr: seq<DayRecord>, base: int): int
  {
    if arr == [] then 0 else DailyExtra(arr[..|arr| - 1], base) + Max0(arr[|arr| - 1].worked - base)
  }

  /** The daily rule of the sheet: every day adds its shortfall under the base to
      the owed minutes, Sundays included. */
  function DailyOwed(arr: seq<DayRecord>, base: int): int
  {
    if arr == [] then 0 else DailyOwed(arr[..|arr| - 1], base) + Max0(base - arr[|arr| - 1].worked)
  }

  /** One row of the sheet's weekly summary. */
  datatype SheetWeek = SheetWeek(weekStart: int, weekEnd: int, workedDec: int, overtimeDec: int, owedDec: int)

  /** The row of the week with Monday `k` and days `arr`: the whole week from
      Monday to Sunday, never cut to the range; the last week, when it has fewer
      than seven days, is summed day by day, and every other week, with seven
      days or not, is held to the 48 h target. */
  function SheetWeekOf(arr: seq<DayRecord>, k: int, isLastWeek: bool, base: int): SheetWeek
  {
    var workedSum := SumRecWorked(arr);
    var isFullWeek := |arr| == 7;
    var extraWeek := if isLastWeek && !isFullWeek then DailyExtra(arr, base) else Max0(workedSum - WEEK_TARGET);
    var owedWeek := if isLastWeek && !isFullWeek then DailyOwed(arr, base) else Max0(WEEK_TARGET - workedSum);
    SheetWeek(k, AddDays(k, 6), workedSum, extraWeek, owedWeek)
  }

  /** The rows of the weeks with Mondays `keys`, the last key being the last week. */
  function SheetRowsFor(daysArr: seq<DayRecord>, keys: seq<int>, base: int): seq<SheetWeek>
  {
    seq(|keys|, i requires 0 <= i < |keys| => SheetWeekOf(Group(daysArr, RecDate, keys[i]), keys[i], i == |keys| - 1, base))
  }

  /** The weekly rows of the sheet: one per Monday of the days, in ascending order. */
  function SheetWeekly(daysArr: seq<DayRecord>, base: int): seq<SheetWeek>
  {
    SheetRowsFor(daysArr, SortKeys(FirstMondays(daysArr, RecDate)), base)
  }

  function SumSheetWorked(ws: seq<SheetWeek>): int
  {
    if ws == [] then 0 else SumSheetWorked(ws[..|ws| - 1]) + ws[|ws| - 1].workedDec
  }

  function SumSheetExtra(ws: seq<SheetWeek>): int
  {
    if ws == [] then 0 else SumSheetExtra(ws[..|ws| - 1]) + ws[|ws| - 1].overtimeDec
  }

  function SumSheetOwed(ws: seq<SheetWeek>): int
  {
    if ws == [] then 0 else SumSheetOwed(ws[..|ws| - 1]) + ws[|ws| - 1].owedDec
  }

  /** The sum of the weekly nets. */
  function SumSheetNet(ws: seq<SheetWeek>): int
  {
    if ws == [] then 0 else SumSheetNet(ws[..|ws| - 1]) + (ws[|ws| - 1].overtimeDec - ws[|ws| - 1].owedDec)
  }

  lemma SheetSumsSnoc(ws: seq<SheetWeek>, row: SheetWeek)
    ensures SumSheetWorked(ws + [row]) == SumSheetWorked(ws) + row.workedDec
    ensures SumSheetExtra(ws + [row]) == SumSheetExtra(ws) + row.overtimeDec
    ensures SumSheetOwed(ws + [row]) == SumSheetOwed(ws) + row.owedDec
    ensures SumSheetNet(ws + [row]) == SumSheetNet(ws) + (row.overtimeDec - row.owedDec)
  {
    assert (ws + [row])[..|ws|] == ws;
  }

  /** The net of the sheet, the sum of the weekly nets, is the summed extra
      minus the summed owed minutes. */
  lemma {:induction false} SheetNetIsExtraMinusOwed(ws: seq<SheetWeek>)
    ensures SumSheetNet(ws) == SumSheetExtra(ws) - SumSheetOwed(ws)
  {
    if ws != [] {
      SheetNetIsExtraMinusOwed(ws[..|ws| - 1]);
    }
  }

  /** In a list without repeats, only the last position holds the last value. */
  lemma LastOfDistinct(s: seq<int>, i: int)
    requires Distinct(s) && 0 <= i < |s|
    ensures s[i] == s[|s| - 1] <==> i == |s| - 1
  {
  }

  /** The body of the loop over week starts: the worked sum, and either the
      daily rule for a last week of fewer than seven days or the 48 h rule. */
  method SummarizeSheetWeek(arr: seq<DayRecord>, weekStart: int, isLastWeek: bool, base: int) returns (row: SheetWeek)
    ensures row == SheetWeekOf(arr, weekStart, isLastWeek, base)
  {
    var workedSum := SumRecWorked(arr);
    var isFullWeek := |arr| == 7;
    var extraWeek, owedWeek;
    if isLastWeek && !isFullWeek {
      extraWeek := DailyExtra(arr, base);
      owedWeek := DailyOwed(arr, base);
    } else {
      extraWeek := Max0(workedSum - WEEK_TARGET);
      owedWeek := Max0(WEEK_TARGET - workedSum);
    }
    row := SheetWeek(weekStart, AddDays(weekStart, 6), workedSum, extraWeek, owedWeek);
  }

  /** The `for (const weekStart of weekStarts)` loop: one row per week start,
      the last start marking the last week, with the running sums of the
      worked, extra, owed and net minutes. */
  method SheetWeeks(daysArr: seq<DayRecord>, weeksMap: map<int, seq<DayRecord>>, weekStarts: seq<int>, base: int)
    returns (weekly: seq<SheetWeek>, sumWorked: int, sumExtra: int, sumOwed: int, sumNet: int)
    requires Distinct(weekStarts)
    requires forall k :: k in weekStarts ==> k in weeksMap && weeksMap[k] == Group(daysArr, RecDate, k)
    ensures weekly == SheetRowsFor(daysArr, weekStarts, base)
    ensures sumWorked == SumSheetWorked(weekly) && sumExtra == SumSheetExtra(weekly) && sumOwed == SumSheetOwed(weekly)
    ensures sumNet == SumSheetNet(weekly)
  {
    var lastWeekStart: Option<int> := if |weekStarts| > 0 then Some(weekStarts[|weekStarts| - 1]) else None;
    ghost var spec := SheetRowsFor(daysArr, weekStarts, base);
    weekly := [];
    sumWorked, sumExtra, sumOwed, sumNet := 0, 0, 0, 0;
    for i := 0 to |weekStarts|
      invariant weekly == spec[..i]
      invariant sumWorked == SumSheetWorked(weekly) && sumExtra == SumSheetExtra(weekly)
      invariant sumOwed == SumSheetOwed(weekly) && sumNet == SumSheetNet(weekly)
    {
      var weekStart := weekStarts[i];
      var arr := weeksMap[weekStart];
      LastOfDistinct(weekStarts, i);
      var isLastWeek := lastWeekStart == Some(weekStart);
      var row := SummarizeSheetWeek(arr, weekStart, isLastWeek, base);
      var netW := row.overtimeDec - row.owedDec;
      assert row == spec[i];
      Reports.PrefixSnoc(spec, i);
      SheetSumsSnoc(weekly, row);
      weekly := weekly + [row];
      sumWorked := sumWorked + row.workedDec;
      sumExtra := sumExtra + row.overtimeDec;
      sumOwed := sumOwed + row.owedDec;
      sumNet := sumNet + netW;
    }
    assert spec[..|weekStarts|] == spec;
  }

  /** The weekly section of the sheet: the days grouped by Monday, the sorted
      week starts, and the loop over them. */
  method SheetWeeklySummary(daysArr: seq<DayRecord>, base: int)
    returns (weekly: seq<SheetWeek>, sumWorked: int, sumExtra: int, sumOwed: int, sumNet: int)
    ensures weekly == SheetWeekly(daysArr, base)
    ensures sumWorked == SumSheetWorked(weekly) && sumExtra == SumSheetExtra(weekly) && sumOwed == SumSheetOwed(weekly)
    ensures sumNet == SumSheetNet(weekly) && sumNet == sumExtra - sumOwed
  {
    var weeksMap, order := GroupByMonday(daysArr, RecDate);
    var weekStarts := SortKeys(order);
    weekly, sumWorked, sumExtra, sumOwed, sumNet := SheetWeeks(daysArr, weeksMap, weekStarts, base);
    SheetNetIsExtraMinusOwed(weekly);
  }

  // Cells of the summary and the workbook.

  /** A net cell: a duration when it is not negative, otherwise the signed text
      of `decToHHMM`, which reads back as the net. */
  function NetCell(net: int): (c: Cell)
    ensures net >= 0 ==> c == Hours(net)
    ensures net < 0 ==> c.Text? && |c.s| > 0 && c.s[0] == '-' && ParseHHMM(c.s) == Some(net)
  {
    if net >= 0 then Hours(net) else Text(DecToHHMM(Finite(net)))
  }

  /** A row of the weekly table: "weekStart – weekEnd" and the worked, extra,
      owed and net cells. */
  datatype SummaryRow = SummaryRow(weekStart: int, weekEnd: int, worked: Cell, extra: Cell, owed: Cell, net: Cell)

  function SummaryRowOf(w: SheetWeek): (r: SummaryRow)
    ensures r.weekStart == w.weekStart && r.weekEnd == w.weekEnd
    ensures r.worked == Hours(w.workedDec) && r.extra == Hours(w.overtimeDec) && r.owed == Hours(w.owedDec)
    ensures r.net == NetCell(w.overtimeDec - w.owedDec)
  {
    SummaryRow(w.weekStart, w.weekEnd, Hours(w.workedDec), Hours(w.overtimeDec), Hours(w.owedDec), NetCell(w.overtimeDec - w.owedDec))
  }

  /** The "Totales" row: the summed worked, extra and owed minutes and the net cell. */
  datatype TotalsRow = TotalsRow(worked: Cell, extra: Cell, owed: Cell, net: Cell)

  /** What the builder reads of one employee: the name and the filled calculation. */
  datatype Block = Block(fullName: Option<string>, computed: Calc)

  /** The content of one worksheet: its name, the name shown in C2, the net total
      in C3, the daily grid, the weekly table and its totals row. */
  datatype Sheet = Sheet(name: string, nameCell: string, totalNet: Cell, grid: seq<DayColumn>,
                         weeks: seq<SummaryRow>, totals: TotalsRow)

  /** The name shown in C2: `employee?.fullName || ''`. */
  function NameCell(s: Option<string>): (r: string)
    ensures s.Some? ==> r == s.value
    ensures s.None? ==> r == []
  {
    if s.None? then [] else s.value
  }

  /** The columns of the daily grid, from column C on: the j-th day in column 3 + j. */
  function GridOf(days: seq<DayRecord>, base: int): (g: seq<DayColumn>)
    ensures |g| == |days|
  {
    if days == [] then [] else GridOf(days[..|days| - 1], base) + [DayColumnOf(days[|days| - 1], 3 + |days| - 1, base)]
  }

  /** The j-th column of the grid shows the j-th day. */
  lemma {:induction false} GridOfIndex(days: seq<DayRecord>, base: int, j: int)
    requires 0 <= j < |days|
    ensures GridOf(days, base)[j] == DayColumnOf(days[j], 3 + j, base)
  {
    var n := |days| - 1;
    if j < n {
      GridOfIndex(days[..n], base, j);
    }
  }

  /** `xs.map(f)`. */
  function Map<A, B>(f: A -> B, xs: seq<A>): (r: seq<B>)
    ensures |r| == |xs| && forall i :: 0 <= i < |xs| ==> r[i] == f(xs[i])
  {
    if xs == [] then [] else Map(f, xs[..|xs| - 1]) + [f(xs[|xs| - 1])]
  }

  /** Mapping one more element of a sequence appends its image. */
  lemma MapStep<A, B>(f: A -> B, xs: seq<A>, i: int)
    requires 0 <= i < |xs|
    ensures Map(f, xs[..i + 1]) == Map(f, xs[..i]) + [f(xs[i])]
  {
    assert xs[..i + 1][..i] == xs[..i];
  }

  /** The rows of the weekly table, in the order of the weekly summary. */
  function TableOf(weekly: seq<SheetWeek>): seq<SummaryRow>
  {
    Map(SummaryRowOf, weekly)
  }

  /** The loop over the weekly summary: one table row per week, in order. */
  method SummaryRows(weekly: seq<SheetWeek>) returns (rows: seq<SummaryRow>)
    ensures rows == TableOf(weekly)
  {
    rows := [];
    for i := 0 to |weekly|
      invariant rows == Map(SummaryRowOf, weekly[..i])
    {
      MapStep(SummaryRowOf, weekly, i);
      rows := rows + [SummaryRowOf(weekly[i])];
    }
    assert weekly[..|weekly|] == weekly;
  }

  /** The worksheet of one block. */
  function SheetOf(b: Block): (sh: Sheet)
    ensures SafeSheetName(sh.name)
  {
    var base := b.computed.baseHoursPerDay;
    var weekly := SheetWeekly(b.computed.days, base);
    var net := SumSheetNet(weekly);
    Sheet(SafeName(b.fullName), NameCell(b.fullName), NetCell(net), GridOf(b.computed.days, base), TableOf(weekly),
          TotalsRow(Hours(SumSheetWorked(weekly)), Hours(SumSheetExtra(weekly)), Hours(SumSheetOwed(weekly)), NetCell(net)))
  }

  /** The body of the loop over blocks: the daily grid, the weekly summary, the
      net total in C3, the weekly rows and the totals row. */
  method BuildSheet(b: Block) returns (sheet: Sheet)
    ensures sheet == SheetOf(b)
  {
    var base := b.computed.baseHoursPerDay;
    var grid, daysArr := DayGrid(b.computed.days, base);
    var weekly, sumWorked, sumExtra, sumOwed, sumNet := SheetWeeklySummary(daysArr, base);
    var totalNet := NetCell(sumNet);
    var rows := SummaryRows(weekly);
    var totals := TotalsRow(Hours(sumWorked), Hours(sumExtra), Hours(sumOwed), NetCell(sumNet));
    sheet := Sheet(SafeName(b.fullName), NameCell(b.fullName), totalNet, grid, rows, totals);
  }

  /** The worksheets of the blocks, in order. */
  function Workbook(blocks: seq<Block>): seq<Sheet>
  {
    Map(SheetOf, blocks)
  }

  /** `buildWorkbook`: one worksheet per block, in order. */
  method BuildWorkbook(blocks: seq<Block>) returns (sheets: seq<Sheet>)
    ensures sheets == Workbook(blocks)
  {
    sheets := [];
    for i := 0 to |blocks|
      invariant sheets == Map(SheetOf, blocks[..i])
    {
      var sheet := BuildSheet(blocks[i]);
      MapStep(SheetOf, blocks, i);
      sheets := sheets + [sheet];
    }
    assert blocks[..|blocks|] == blocks;
  }

  // The sheet against the preview.

  /** Enriching a calendar of day records gives a calendar of views. */
  lemma EnrichedCalendar(days: seq<DayRecord>, base: int, from: int, to: int)
    requires IsCalendar(days, RecDate, from, to)
    ensures IsCalendar(Reports.EnrichDays(days, base), Reports.ViewDate, from, to)
  {
    var view := Reports.EnrichDays(days, base);
    forall j | 0 <= j < |view| ensures Reports.ViewDate(view[j]) == from + j {
      assert view[j].date == days[j].date;
    }
  }

  /** Views that follow the days' minutes worked still do so over a run of both. */
  lemma SameWorkedRun(days: seq<DayRecord>, view: seq<Reports.DayView>, s: int, e: int)
    requires |view| == |days| && forall j :: 0 <= j < |view| ==> view[j].worked == days[j].worked
    requires 0 <= s <= e <= |days|
    ensures var a, v := days[s..e], view[s..e];
      |a| == |v| && forall i :: 0 <= i < |a| ==> v[i].worked == a[i].worked
  {
    forall i | 0 <= i < e - s ensures view[s..e][i].worked == days[s..e][i].worked {
      assert view[s..e][i] == view[s + i] && days[s..e][i] == days[s + i];
    }
  }

  /** `v` is a calendar of the views dated lo..hi and has, day by day, the
      minutes worked of `a`. */
  predicate SameRun(a: seq<DayRecord>, v: seq<Reports.DayView>, lo: int, hi: int)
  {
    && |a| == |v| == hi - lo + 1
    && IsCalendar(v, Reports.ViewDate, lo, hi)
    && forall i :: 0 <= i < |a| ==> v[i].worked == a[i].worked
  }

  /** On a calendar over [from, to], the sheet's group of a week key and the
      preview's group of the same key are the days of the week cut to the range,
      with the same dates and the same minutes worked. */
  lemma CalendarGroups(days: seq<DayRecord>, from: int, to: int, base: int, k: int)
    requires IsCalendar(days, RecDate, from, to) && Dow(k) == MONDAY && MondayOf(from) <= k <= to
    ensures var lo, hi := MaxDate(k, from), MinDate(k + 6, to);
      && from <= lo <= hi <= to
      && SameRun(Group(days, RecDate, k), Group(Reports.EnrichDays(days, base), Reports.ViewDate, k), lo, hi)
  {
    EnrichedCalendar(days, base, from, to);
    CalendarGroupsOf(days, Reports.EnrichDays(days, base), from, to, k);
  }

  /** The same for any calendar of views that follows the days' minutes worked. */
  lemma CalendarGroupsOf(days: seq<DayRecord>, view: seq<Reports.DayView>, from: int, to: int, k: int)
    requires IsCalendar(days, RecDate, from, to) && IsCalendar(view, Reports.ViewDate, from, to)
    requires forall j :: 0 <= j < |view| ==> view[j].worked == days[j].worked
    requires Dow(k) == MONDAY && MondayOf(from) <= k <= to
    ensures var lo, hi := MaxDate(k, from), MinDate(k + 6, to);
      from <= lo <= hi <= to && SameRun(Group(days, RecDate, k), Group(view, Reports.ViewDate, k), lo, hi)
  {
    var lo, hi := MaxDate(k, from), MinDate(k + 6, to);
    GroupsOfCalendars(days, view, from, to, k);
    CalendarRuns(days, view, from, to, lo, hi);
  }

  /** Both groups of a week key are the runs dated from max(key, from) to min(key + 6, to). */
  lemma GroupsOfCalendars(days: seq<DayRecord>, view: seq<Reports.DayView>, from: int, to: int, k: int)
    requires IsCalendar(days, RecDate, from, to) && IsCalendar(view, Reports.ViewDate, from, to)
    requires Dow(k) == MONDAY && MondayOf(from) <= k <= to
    ensures var lo, hi := MaxDate(k, from), MinDate(k + 6, to);
      && from <= lo <= hi <= to
      && Group(days, RecDate, k) == days[lo - from..hi - from + 1]
      && Group(view, Reports.ViewDate, k) == view[lo - from..hi - from + 1]
  {
    GroupOfCalendar(days, RecDate, from, to, k);
    GroupOfCalendar(view, Reports.ViewDate, from, to, k);
  }

  /** The days and the views dated lo..hi of two such calendars. */
  lemma CalendarRuns(days: seq<DayRecord>, view: seq<Reports.DayView>, from: int, to: int, lo: int, hi: int)
    requires IsCalendar(days, RecDate, from, to) && IsCalendar(view, Reports.ViewDate, from, to)
    requires forall j :: 0 <= j < |view| ==> view[j].worked == days[j].worked
    requires from <= lo <= hi <= to
    ensures SameRun(days[lo - from..hi - from + 1], view[lo - from..hi - from + 1], lo, hi)
  {
    CalendarSlice(view, Reports.ViewDate, from, to, lo, hi);
    SameWorkedRun(days, view, lo - from, hi - from + 1);
  }

  /** Days with the same minutes worked have the same worked sum. */
  lemma {:induction false} SameWorkedSum(v: seq<Reports.DayView>, a: seq<DayRecord>)
    requires |v| == |a| && forall i :: 0 <= i < |a| ==> v[i].worked == a[i].worked
    ensures Reports.SumWorked(v) == SumRecWorked(a)
  {
    if a != [] {
      SameWorkedSum(v[..|v| - 1], a[..|a| - 1]);
    }
  }

  /** The sheet's daily rule over the first n days of a run. */
  lemma DailyPrefix(a: seq<DayRecord>, n: int, base: int)
    requires 0 < n <= |a|
    ensures DailyExtra(a[..n], base) == DailyExtra(a[..n - 1], base) + Max0(a[n - 1].worked - base)
    ensures DailyOwed(a[..n], base) == DailyOwed(a[..n - 1], base) + Max0(base - a[n - 1].worked)
  {
    assert a[..n][..n - 1] == a[..n - 1];
  }

  /** Over dates lo..hi whose walk reads the minutes of the first days of `a`
      and where no Sunday is worked, the preview's daily rule (Sunday bonus
      included) and the sheet's over those days (no Sunday bonus) agree. */
  lemma {:induction false} DailyRulesAgree(v: seq<Reports.DayView>, a: seq<DayRecord>, lo: int, hi: int, base: int)
    requires lo - 1 <= hi && hi - lo + 1 <= |a|
    requires forall d :: lo <= d <= hi ==> Reports.WorkedOn(v, d) == a[d - lo].worked
    requires forall d :: lo <= d <= hi && Dow(d) == SUNDAY ==> Reports.WorkedOn(v, d) <= 0
    ensures Reports.WindowExtra(v, lo, hi, base) == DailyExtra(a[..hi - lo + 1], base)
    ensures Reports.WindowOwed(v, lo, hi, base) == DailyOwed(a[..hi - lo + 1], base)
    decreases hi - lo
  {
    if lo <= hi {
      DailyRulesAgree(v, a, lo, hi - 1, base);
      DailyPrefix(a, hi - lo + 1, base);
    }
  }

  /** On a calendar window without a worked Sunday, the walk over its dates
      reads the minutes of days with the same minutes worked, and no Sunday of
      it is worked. */
  lemma CalendarWalk(v: seq<Reports.DayView>, a: seq<DayRecord>, lo: int, hi: int)
    requires IsCalendar(v, Reports.ViewDate, lo, hi) && Reports.NoWorkedSunday(v, lo, hi)
    requires |a| == |v| && forall i :: 0 <= i < |a| ==> v[i].worked == a[i].worked
    ensures forall d :: lo <= d <= hi ==> Reports.WorkedOn(v, d) == a[d - lo].worked
    ensures forall d :: lo <= d <= hi && Dow(d) == SUNDAY ==> Reports.WorkedOn(v, d) <= 0
  {
    forall d | lo <= d <= hi
      ensures Reports.WorkedOn(v, d) == a[d - lo].worked && (Dow(d) == SUNDAY ==> Reports.WorkedOn(v, d) <= 0)
    {
      Reports.CalendarWorkedOn(v, lo, hi, d);
      assert v[d - lo].date == d;
    }
  }

  /** Over a calendar window without a worked Sunday, the preview's daily rule
      and the sheet's agree on days with the same minutes worked. */
  lemma CalendarDailyRules(v: seq<Reports.DayView>, a: seq<DayRecord>, lo: int, hi: int, base: int)
    requires IsCalendar(v, Reports.ViewDate, lo, hi) && Reports.NoWorkedSunday(v, lo, hi)
    requires |a| == |v| && forall i :: 0 <= i < |a| ==> v[i].worked == a[i].worked
    ensures Reports.WindowExtra(v, lo, hi, base) == DailyExtra(a, base)
    ensures Reports.WindowOwed(v, lo, hi, base) == DailyOwed(a, base)
  {
    CalendarWalk(v, a, lo, hi);
    DailyRulesAgree(v, a, lo, hi, base);
    assert a[..hi - lo + 1] == a;
  }

  /** No Sunday of a window is worked in a run of the days when none is in all of them. */
  lemma NoWorkedSundayRun(view: seq<Reports.DayView>, s: int, e: int, lo: int, hi: int)
    requires 0 <= s <= e <= |view| && Reports.NoWorkedSunday(view, lo, hi)
    ensures Reports.NoWorkedSunday(view[s..e], lo, hi)
  {
    forall i | 0 <= i < e - s ensures view[s..e][i] == view[s + i] {
    }
  }

  /** The sheet's row and the preview's row of a week key of a calendar share
      their minutes worked; the sheet keeps the whole Monday-to-Sunday week where
      the preview cuts it to the range. */
  lemma SheetWeekWorked(days: seq<DayRecord>, from: int, to: int, base: int, k: int, isLast: bool)
    requires IsCalendar(days, RecDate, from, to) && Dow(k) == MONDAY && MondayOf(from) <= k <= to
    ensures var a, v := Group(days, RecDate, k), Group(Reports.EnrichDays(days, base), Reports.ViewDate, k);
      var s, p := SheetWeekOf(a, k, isLast, base), Reports.ClippedWeek(v, k, from, to, base);
      && s.weekStart == k && s.weekEnd == k + 6 && p.weekStart == MaxDate(k, from) && p.weekEnd == MinDate(k + 6, to)
      && s.workedDec == p.workedDec
      && |a| == |v| == MinDate(k + 6, to) - MaxDate(k, from) + 1
  {
    CalendarGroups(days, from, to, base, k);
    SameWorkedSum(Group(Reports.EnrichDays(days, base), Reports.ViewDate, k), Group(days, RecDate, k));
  }

  /** No Sunday of the window of a week key is worked in its group when none is
      in the whole calendar. */
  lemma GroupNoWorkedSunday(view: seq<Reports.DayView>, from: int, to: int, k: int)
    requires IsCalendar(view, Reports.ViewDate, from, to) && Dow(k) == MONDAY && MondayOf(from) <= k <= to
    requires Reports.NoWorkedSunday(view, MaxDate(k, from), MinDate(k + 6, to))
    ensures Reports.NoWorkedSunday(Group(view, Reports.ViewDate, k), MaxDate(k, from), MinDate(k + 6, to))
  {
    GroupOfCalendar(view, Reports.ViewDate, from, to, k);
    NoWorkedSundayRun(view, MaxDate(k, from) - from, MinDate(k + 6, to) - from + 1, MaxDate(k, from), MinDate(k + 6, to));
  }

  /** A last week cut short by the range, without a worked Sunday, is summed day
      by day by both the sheet and the preview, with the same figures. */
  lemma SheetLastWeek(days: seq<DayRecord>, from: int, to: int, base: int, k: int)
    requires IsCalendar(days, RecDate, from, to) && Dow(k) == MONDAY && MondayOf(from) <= k <= to
    requires MinDate(k + 6, to) - MaxDate(k, from) < 6
    requires Reports.NoWorkedSunday(Reports.EnrichDays(days, base), MaxDate(k, from), MinDate(k + 6, to))
    ensures var a, v := Group(days, RecDate, k), Group(Reports.EnrichDays(days, base), Reports.ViewDate, k);
      var lo, hi := MaxDate(k, from), MinDate(k + 6, to);
      && Reports.WindowExtra(v, lo, hi, base) == DailyExtra(a, base)
      && Reports.WindowOwed(v, lo, hi, base) == DailyOwed(a, base)
  {
    var lo, hi := MaxDate(k, from), MinDate(k + 6, to);
    var view := Reports.EnrichDays(days, base);
    var a, v := Group(days, RecDate, k), Group(view, Reports.ViewDate, k);
    CalendarGroups(days, from, to, base, k);
    EnrichedCalendar(days, base, from, to);
    GroupNoWorkedSunday(view, from, to, k);
    CalendarDailyRules(v, a, lo, hi, base);
  }

  /** The sheet's row for a week key of a calendar against the preview's: both
      sum the same minutes worked; on a week inside the range both hold it to the
      48 h target, and on a last week cut short by the range without a worked
      Sunday both sum it day by day, so they give the same extra and owed minutes. */
  lemma SheetWeekAgainstPreview(days: seq<DayRecord>, from: int, to: int, base: int, k: int, isLast: bool)
    requires IsCalendar(days, RecDate, from, to) && Dow(k) == MONDAY && MondayOf(from) <= k <= to
    ensures var lo, hi := MaxDate(k, from), MinDate(k + 6, to);
      var view := Reports.EnrichDays(days, base);
      var s := SheetWeekOf(Group(days, RecDate, k), k, isLast, base);
      var p := Reports.ClippedWeek(Group(view, Reports.ViewDate, k), k, from, to, base);
      && s.weekStart == k && s.weekEnd == k + 6 && p.weekStart == lo && p.weekEnd == hi
      && s.workedDec == p.workedDec
      && (hi - lo == 6 ==> s.overtimeDec == p.overtimeDec && s.owedDec == p.owedDec)
      && (isLast && hi - lo < 6 && Reports.NoWorkedSunday(view, lo, hi) ==>
            s.overtimeDec == p.overtimeDec && s.owedDec == p.owedDec)
  {
    var lo, hi := MaxDate(k, from), MinDate(k + 6, to);
    SheetWeekWorked(days, from, to, base, k, isLast);
    if isLast && hi - lo < 6 && Reports.NoWorkedSunday(Reports.EnrichDays(days, base), lo, hi) {
      SheetLastWeek(days, from, to, base, k);
    }
  }

  /** A row of the sheet and a row of the preview with the same figures. */
  predicate SameFigures(s: SheetWeek, p: Reports.WeekRecord)
  {
    s.workedDec == p.workedDec && s.overtimeDec == p.overtimeDec && s.owedDec == p.owedDec
  }

  /** When the range starts with the Monday of a week, the sheet's row and the
      preview's row of one of its weeks have the same figures, provided the week
      lies inside the range or is the sheet's last week. */
  lemma SheetRowFromMonday(days: seq<DayRecord>, from: int, to: int, base: int, k: int, isLast: bool)
    requires IsCalendar(days, RecDate, from, to) && Dow(k) == MONDAY && from <= k <= to
    requires isLast || k + 6 <= to
    ensures SameFigures(SheetWeekOf(Group(days, RecDate, k), k, isLast, base),
                        Reports.ClippedWeek(Group(Reports.EnrichDays(days, base), Reports.ViewDate, k), k, from, to, base))
  {
    SheetWeekAgainstPreview(days, from, to, base, k, isLast);
    var hi := MinDate(k + 6, to);
    if hi - k < 6 {
      var view := Reports.EnrichDays(days, base);
      forall i | 0 <= i < |view| && k <= view[i].date <= hi ensures Dow(view[i].date) != SUNDAY {
        DowWithinWeek(k, view[i].date);
      }
      assert Reports.NoWorkedSunday(view, k, hi);
    }
  }

  /** The rows of the sheet and of the preview for week keys that start inside
      the range, every key but the last having its whole week inside it. */
  lemma SheetRowsFromMonday(days: seq<DayRecord>, keys: seq<int>, from: int, to: int, base: int)
    requires IsCalendar(days, RecDate, from, to)
    requires forall j :: 0 <= j < |keys| ==>
      Dow(keys[j]) == MONDAY && from <= keys[j] <= to && (j < |keys| - 1 ==> keys[j] + 6 <= to)
    ensures var s, p := SheetRowsFor(days, keys, base), Reports.RowsFor(Reports.EnrichDays(days, base), keys, from, to, base);
      |s| == |p| == |keys| && forall j :: 0 <= j < |keys| ==> SameFigures(s[j], p[j])
  {
    var s, p := SheetRowsFor(days, keys, base), Reports.RowsFor(Reports.EnrichDays(days, base), keys, from, to, base);
    forall j | 0 <= j < |keys| ensures SameFigures(s[j], p[j]) {
      SheetRowFromMonday(days, from, to, base, keys[j], j == |keys| - 1);
    }
  }

  /** Over a calendar whose range starts on a Monday, the sheet's weekly rows and
      the preview's have, one for one, the same minutes worked, extra and owed. */
  lemma SheetMatchesPreview(days: seq<DayRecord>, from: int, to: int, base: int)
    requires IsCalendar(days, RecDate, from, to) && Dow(from) == MONDAY
    ensures var s, p := SheetWeekly(days, base), Reports.ClippedWeekly(Reports.EnrichDays(days, base), from, to, base);
      |s| == |p| && forall j :: 0 <= j < |s| ==> SameFigures(s[j], p[j])
  {
    var keys := WeekKeys(from, to);
    CalendarWeekStarts(days, RecDate, from, to);
    EnrichedCalendar(days, base, from, to);
    Reports.CalendarWeeklyKeys(Reports.EnrichDays(days, base), from, to, base);
    MondayOfWithinWeek(from, from);
    WeekKeysTile(from, to);
    forall j | 0 <= j < |keys| ensures from <= keys[j] && (j < |keys| - 1 ==> keys[j] + 6 <= to) {
      assert MinDate(keys[j] + 6, to) == (if j == |keys| - 1 then to else keys[j] + 6);
    }
    SheetRowsFromMonday(days, keys, from, to, base);
  }

  /** Rows with the same figures have the same sums. */
  lemma {:induction false} SameSums(s: seq<SheetWeek>, p: seq<Reports.WeekRecord>)
    requires |s| == |p| && forall j :: 0 <= j < |s| ==> SameFigures(s[j], p[j])
    ensures SumSheetExtra(s) == Reports.SumExtra(p) && SumSheetOwed(s) == Reports.SumOwed(p)
    ensures SumSheetNet(s) == Reports.SumNet(p)
  {
    if s != [] {
      SameSums(s[..|s| - 1], p[..|p| - 1]);
    }
  }

  /** The sheet's row `s` and the preview's row `p` of week key `k` of [from, to]:
      the sheet keeps the whole Monday-to-Sunday week where the preview cuts it to
      the range, both sum the same minutes worked, and a week inside the range
      has the same extra and owed minutes in both. */
  predicate RowAgainstPreview(s: SheetWeek, p: Reports.WeekRecord, k: int, from: int, to: int)
  {
    && s.weekStart == k && s.weekEnd == k + 6
    && p.weekStart == MaxDate(k, from) && p.weekEnd == MinDate(k + 6, to)
    && s.workedDec == p.workedDec
    && (MinDate(k + 6, to) - MaxDate(k, from) == 6 ==> s.overtimeDec == p.overtimeDec && s.owedDec == p.owedDec)
  }

  lemma SheetRowsAgainstPreview(days: seq<DayRecord>, keys: seq<int>, from: int, to: int, base: int)
    requires IsCalendar(days, RecDate, from, to)
    requires forall j :: 0 <= j < |keys| ==> Dow(keys[j]) == MONDAY && MondayOf(from) <= keys[j] <= to
    ensures var s, p := SheetRowsFor(days, keys, base), Reports.RowsFor(Reports.EnrichDays(days, base), keys, from, to, base);
      |s| == |p| == |keys| && forall j :: 0 <= j < |keys| ==> RowAgainstPreview(s[j], p[j], keys[j], from, to)
  {
    var s, p := SheetRowsFor(days, keys, base), Reports.RowsFor(Reports.EnrichDays(days, base), keys, from, to, base);
    forall j | 0 <= j < |keys| ensures RowAgainstPreview(s[j], p[j], keys[j], from, to) {
      SheetWeekAgainstPreview(days, from, to, base, keys[j], j == |keys| - 1);
    }
  }

  /** Over any calendar, the sheet and the preview list a row for each week key
      of the range, in the same order, and agree as `RowAgainstPreview` says. */
  lemma SheetWeeklyAgainstPreview(days: seq<DayRecord>, from: int, to: int, base: int)
    requires IsCalendar(days, RecDate, from, to)
    ensures var s, p, keys := SheetWeekly(days, base), Reports.ClippedWeekly(Reports.EnrichDays(days, base), from, to, base), WeekKeys(from, to);
      |s| == |p| == |keys| && forall j :: 0 <= j < |keys| ==> RowAgainstPreview(s[j], p[j], keys[j], from, to)
  {
    CalendarWeekStarts(days, RecDate, from, to);
    EnrichedCalendar(days, base, from, to);
    Reports.CalendarWeeklyKeys(Reports.EnrichDays(days, base), from, to, base);
    SheetRowsAgainstPreview(days, WeekKeys(from, to), from, to, base);
  }

  /** The export of a range that starts on a Monday: the filled calculation the
      export hands to the builder gives a sheet whose extra, owed and net totals
      are the preview's totals for the same range. */
  lemma ExportMatchesPreview(fullName: Option<string>, computed: Calc, from: int, to: int)
    requires from <= to && Dow(from) == MONDAY
    ensures var filled := Reports.FillMissingDays(computed, from, to);
      var rep := Reports.ReportFor(filled, from, to);
      var sheet := SheetOf(Block(fullName, filled));
      && sheet.totals.extra == Hours(rep.totals.totalOvertimeDec)
      && sheet.totals.owed == Hours(rep.totals.totalOwedDec)
      && sheet.totalNet == NetCell(rep.totals.totalNetDec)
      && sheet.totals.net == sheet.totalNet
  {
    var filled := Reports.FillMissingDays(computed, from, to);
    var base := filled.baseHoursPerDay;
    assert IsCalendar(filled.days, RecDate, from, to);
    SheetMatchesPreview(filled.days, from, to, base);
    var s, p := SheetWeekly(filled.days, base), Reports.ClippedWeekly(Reports.EnrichDays(filled.days, base), from, to, base);
    SameSums(s, p);
    Reports.TotalNetIsSumOfNets(p);
  }

  /** The week keys of Saturday 1970-01-10 to Monday 1970-01-12 (day numbers 9
      to 11) are the Mondays 1970-01-05 and 1970-01-12. */
  lemma ExampleKeys()
    ensures WeekKeys(9, 11) == [4, 11]
  {
    assert MondayOf(9) == 4;
    assert MondaysFrom(18, 11) == [];
    assert MondaysFrom(11, 11) == [11];
  }

  /** Nothing worked from day 9 to day 11. */
  function IdleDays(): seq<DayRecord>
  {
    [DayRecord(9, 0, 0), DayRecord(10, 0, 0), DayRecord(11, 0, 0)]
  }

  /** Over a calendar the sheet has one row per week key of its range. */
  lemma SheetWeeklyOfCalendar(days: seq<DayRecord>, from: int, to: int, base: int)
    requires IsCalendar(days, RecDate, from, to)
    ensures SheetWeekly(days, base) == SheetRowsFor(days, WeekKeys(from, to), base)
  {
    CalendarWeekStarts(days, RecDate, from, to);
  }

  /** The first week of a calendar from day 9 to day 11 holds its first two days. */
  lemma IdleFirstGroup(days: seq<DayRecord>)
    requires IsCalendar(days, RecDate, 9, 11)
    ensures Group(days, RecDate, 4) == days[0..2]
  {
    GroupOfCalendar(days, RecDate, 9, 11, 4);
  }

  lemma IdleWeeks(days: seq<DayRecord>)
    requires IsCalendar(days, RecDate, 9, 11)
    ensures var s := SheetWeekly(days, 480);
      |s| == 2 && s[0] == SheetWeekOf(days[0..2], 4, false, 480)
  {
    SheetWeeklyOfCalendar(days, 9, 11, 480);
    ExampleKeys();
    IdleFirstGroup(days);
  }

  lemma IdlePair(a: seq<DayRecord>)
    requires |a| == 2 && a[0].worked == 0 && a[1].worked == 0
    ensures SumRecWorked(a) == 0
  {
    assert SumRecWorked(a[..1]) == 0 by {
      assert a[..1][..0] == [] && a[..1][0] == a[0];
    }
    assert SumRecWorked(a) == SumRecWorked(a[..1]) + a[1].worked;
  }

  /** The sheet holds the first week of a range from day 9 to day 11, which is
      not its last, to the 48 h target: with nothing worked it owes 48 h. */
  lemma IdleSheet(days: seq<DayRecord>)
    requires IsCalendar(days, RecDate, 9, 11) && days[0].worked == 0 && days[1].worked == 0
    ensures var s := SheetWeekly(days, 480);
      |s| == 2 && s[0].weekStart == 4 && s[0].weekEnd == 10 && s[0].owedDec == WEEK_TARGET
  {
    IdleWeeks(days);
    IdlePair(days[0..2]);
  }

  lemma ExampleSheetWeek()
    ensures var s := SheetWeekly(IdleDays(), 480);
      |s| == 2 && s[0].weekStart == 4 && s[0].weekEnd == 10 && s[0].owedDec == WEEK_TARGET
  {
    assert IsCalendar(IdleDays(), RecDate, 9, 11);
    IdleSheet(IdleDays());
  }

  /** An idle Saturday and Sunday, days 9 and 10, owe the base for each under the
      preview's daily rule. */
  lemma IdleWeekend(v: seq<Reports.DayView>)
    requires IsCalendar(v, Reports.ViewDate, 9, 10) && v[0].worked == 0 && v[1].worked == 0
    ensures Reports.WindowOwed(v, 9, 10, 480) == 2 * 480
  {
    Reports.CalendarWorkedOn(v, 9, 10, 9);
    Reports.CalendarWorkedOn(v, 9, 10, 10);
  }

  /** The preview cuts the same week to the Saturday and the Sunday and sums them
      day by day: with nothing worked it owes the 8 h base for each. */
  lemma ExamplePreviewWeek(view: seq<Reports.DayView>)
    requires IsCalendar(view, Reports.ViewDate, 9, 11) && view[0].worked == 0 && view[1].worked == 0
    ensures var p := Reports.ClippedWeekly(view, 9, 11, 480);
      |p| == 2 && p[0].weekStart == 9 && p[0].weekEnd == 10 && p[0].owedDec == 2 * 480
  {
    ExampleKeys();
    Reports.CalendarWeeklyKeys(view, 9, 11, 480);
    GroupOfCalendar(view, Reports.ViewDate, 9, 11, 4);
    var v := view[0..2];
    assert IsCalendar(v, Reports.ViewDate, 9, 10) && v[0].worked == 0 && v[1].worked == 0;
    IdleWeekend(v);
  }

  /** The two weekly rules part on a first week cut short by the range: over
      Saturday 1970-01-10 to Monday 1970-01-12 with nothing worked and an 8 h
      base, the sheet owes 48 h for the week of Monday 1970-01-05, held whole
      to the 48 h target, and the preview 16 h for its Saturday and Sunday. */
  lemma FirstPartialWeekDiverges()
    ensures var s, p := SheetWeekly(IdleDays(), 480), Reports.ClippedWeekly(Reports.EnrichDays(IdleDays(), 480), 9, 11, 480);
      && |s| == |p| == 2
      && s[0].weekStart == 4 && s[0].owedDec == WEEK_TARGET
      && p[0].weekStart == 9 && p[0].owedDec == 2 * 480
  {
    var days := IdleDays();
    assert IsCalendar(days, RecDate, 9, 11);
    EnrichedCalendar(days, 480, 9, 11);
    ExampleSheetWeek();
    ExamplePreviewWeek(Reports.EnrichDays(days, 480));
  }

  /** From Wednesday day 6 to Sunday day 10, only the Sunday is worked, for an hour. */
  function SundayDays(): seq<DayRecord>
  {
    [DayRecord(6, 0, 0), DayRecord(7, 0, 0), DayRecord(8, 0, 0), DayRecord(9, 0, 0), DayRecord(10, 60, 0)]
  }

  /** The range of days 6 to 10 falls in the week of Monday day 4 alone. */
  lemma SundayKeys()
    ensures WeekKeys(6, 10) == [4]
  {
    assert MondayOf(6) == 4;
    assert MondaysFrom(11, 10) == [];
  }

  /** The preview's daily rule over those days: the hour on Sunday earns the flat
      8 h bonus and owes nothing; each idle weekday owes the 8 h base. */
  lemma SundayWindow(v: seq<Reports.DayView>)
    requires IsCalendar(v, Reports.ViewDate, 6, 10)
    requires v[0].worked == 0 && v[1].worked == 0 && v[2].worked == 0 && v[3].worked == 0 && v[4].worked == 60
    ensures Reports.WindowExtra(v, 6, 10, 480) == 480 && Reports.WindowOwed(v, 6, 10, 480) == 4 * 480
  {
    Reports.CalendarWorkedOn(v, 6, 10, 6);
    Reports.CalendarWorkedOn(v, 6, 10, 7);
    Reports.CalendarWorkedOn(v, 6, 10, 8);
    Reports.CalendarWorkedOn(v, 6, 10, 9);
    Reports.CalendarWorkedOn(v, 6, 10, 10);
    assert Dow(10) == SUNDAY && Dow(9) == 6 && Dow(8) == 5 && Dow(7) == 4 && Dow(6) == 3;
  }

  /** The sheet's daily rule over those days has no Sunday bonus: the hour on
      Sunday is 7 h short of the base. */
  lemma SundayDaily(a: seq<DayRecord>)
    requires |a| == 5 && a[0].worked == 0 && a[1].worked == 0 && a[2].worked == 0 && a[3].worked == 0 && a[4].worked == 60
    ensures DailyExtra(a, 480) == 0 && DailyOwed(a, 480) == 4 * 480 + 420
  {
    DailyPrefix(a, 1, 480);
    DailyPrefix(a, 2, 480);
    DailyPrefix(a, 3, 480);
    DailyPrefix(a, 4, 480);
    DailyPrefix(a, 5, 480);
    assert a[..0] == [] && a[..5] == a;
  }

  lemma SundayWeeks(days: seq<DayRecord>)
    requires IsCalendar(days, RecDate, 6, 10)
    ensures var s := SheetWeekly(days, 480);
      |s| == 1 && s[0] == SheetWeekOf(days, 4, true, 480)
  {
    SheetWeeklyOfCalendar(days, 6, 10, 480);
    SundayKeys();
    GroupOfCalendar(days, RecDate, 6, 10, 4);
    assert days[0..5] == days;
  }

  lemma SundaySheet(days: seq<DayRecord>)
    requires IsCalendar(days, RecDate, 6, 10)
    requires days[0].worked == 0 && days[1].worked == 0 && days[2].worked == 0 && days[3].worked == 0 && days[4].worked == 60
    ensures var s := SheetWeekly(days, 480);
      |s| == 1 && s[0].overtimeDec == 0 && s[0].owedDec == 4 * 480 + 420
  {
    SundayWeeks(days);
    SundayDaily(days);
  }

  lemma SundayPreview(view: seq<Reports.DayView>)
    requires IsCalendar(view, Reports.ViewDate, 6, 10)
    requires view[0].worked == 0 && view[1].worked == 0 && view[2].worked == 0 && view[3].worked == 0 && view[4].worked == 60
    ensures var p := Reports.ClippedWeekly(view, 6, 10, 480);
      |p| == 1 && p[0].overtimeDec == 480 && p[0].owedDec == 4 * 480
  {
    SundayPreviewWeeks(view);
    SundayPreviewWeek(view);
  }

  lemma SundayPreviewWeeks(view: seq<Reports.DayView>)
    requires IsCalendar(view, Reports.ViewDate, 6, 10)
    ensures var p := Reports.ClippedWeekly(view, 6, 10, 480);
      |p| == 1 && p[0] == Reports.ClippedWeek(view, 4, 6, 10, 480)
  {
    SundayKeys();
    Reports.CalendarWeeklyKeys(view, 6, 10, 480);
    GroupOfCalendar(view, Reports.ViewDate, 6, 10, 4);
    assert view[0..5] == view;
  }

  lemma SundayPreviewWeek(view: seq<Reports.DayView>)
    requires IsCalendar(view, Reports.ViewDate, 6, 10)
    requires view[0].worked == 0 && view[1].worked == 0 && view[2].worked == 0 && view[3].worked == 0 && view[4].worked == 60
    ensures var r := Reports.ClippedWeek(view, 4, 6, 10, 480);
      r.overtimeDec == 480 && r.owedDec == 4 * 480
  {
    SundayWindow(view);
  }

  /** The two weekly rules part on a worked Sunday of a last week cut short by the
      range: over days 6 to 10 with one hour on the Sunday and an 8 h base, the
      preview counts 8 h extra and 32 h owed, the sheet no extra and 39 h owed. */
  lemma WorkedSundayDiverges()
    ensures var s, p := SheetWeekly(SundayDays(), 480), Reports.ClippedWeekly(Reports.EnrichDays(SundayDays(), 480), 6, 10, 480);
      && |s| == |p| == 1
      && s[0].overtimeDec == 0 && s[0].owedDec == 4 * 480 + 420
      && p[0].overtimeDec == 480 && p[0].owedDec == 4 * 480
  {
    var days := SundayDays();
    assert IsCalendar(days, RecDate, 6, 10);
    EnrichedCalendar(days, 480, 6, 10);
    SundaySheet(days);
    SundayPreview(Reports.EnrichDays(days, 480));
  }
}
