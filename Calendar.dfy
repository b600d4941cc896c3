/** Calendar dates as day numbers. Day 0 is 1970-01-01, a Thursday. The engine
    compares zero-padded "YYYY-MM-DD" strings, whose order is the order of these
    numbers, so `<` on day numbers models its string comparisons. */
module Calendar {

  const SUNDAY := 0
  const MONDAY := 1

  /** The weekday of a date, 0 = Sunday through 6 = Saturday (`Date.getDay`, `dayjs().day()`). */
  function Dow(d: int): (r: int)
    ensures 0 <= r < 7
  {
    (d + 4) % 7
  }

  /** `addDays(d, n)`. */
  function AddDays(d: int, n: int): int
  {
    d + n
  }

  /** Dates seven days apart share their weekday. */
  lemma DowShift(d: int, k: int)
    ensures Dow(d + 7 * k) == Dow(d)
  {
    assert (d + 7 * k + 4) == (d + 4) + 7 * k;
  }

  /** `mondayOf`: the date offset by (dow + 6) mod 7 days back, which is the
      Monday on or before `d`, at most six days before it. */
  function MondayOf(d: int): (r: int)
    ensures Dow(r) == MONDAY && r <= d <= r + 6
  {
    var back := (Dow(d) + 6) % 7;
    assert Dow(d - back) == MONDAY by {
      var q := (d + 4) / 7;
      assert d + 4 == 7 * q + Dow(d);
      if Dow(d) == 0 {
        assert d - back + 4 == 7 * (q - 1) + 1;
      } else {
        assert d - back + 4 == 7 * q + 1;
      }
    }
    AddDays(d, -back)
  }

  /** Two distinct Mondays are at least a week apart. */
  lemma MondaysApart(k: int, m: int)
    requires Dow(k) == MONDAY && Dow(m) == MONDAY && k < m
    ensures m - k >= 7
  {
    var qk, qm := (k + 4) / 7, (m + 4) / 7;
    assert k + 4 == 7 * qk + 1;
    assert m + 4 == 7 * qm + 1;
    assert m - k == 7 * (qm - qk);
  }

  /** A date that lies in the seven days starting at Monday `k` has Monday `k`. */
  lemma MondayOfWithinWeek(k: int, d: int)
    requires Dow(k) == MONDAY && k <= d <= k + 6
    ensures MondayOf(d) == k
  {
    var m := MondayOf(d);
    if m < k { MondaysApart(m, k); }
    if k < m { MondaysApart(k, m); }
  }

  /** The days of the week starting at Monday `k` run Monday, Tuesday, ...,
      Sunday: only its seventh day is a Sunday. */
  lemma DowWithinWeek(k: int, d: int)
    requires Dow(k) == MONDAY && k <= d <= k + 6
    ensures Dow(d) == SUNDAY <==> d == k + 6
  {
    var q := (k + 4) / 7;
    assert k + 4 == 7 * q + 1;
    if d == k + 6 {
      assert d + 4 == 7 * (q + 1);
    } else {
      assert d + 4 == 7 * q + (d - k + 1);
    }
  }

  /** A date has Monday `k` exactly when it lies in [k, k + 6]. */
  lemma MondayOfIff(k: int, d: int)
    requires Dow(k) == MONDAY
    ensures MondayOf(d) == k <==> k <= d <= k + 6
  {
    if k <= d <= k + 6 { MondayOfWithinWeek(k, d); }
  }

  /** Later dates never have an earlier Monday. */
  lemma MondayOfMonotone(a: int, b: int)
    requires a <= b
    ensures MondayOf(a) <= MondayOf(b)
  {
    if MondayOf(b) < MondayOf(a) {
      MondaysApart(MondayOf(b), MondayOf(a));
    }
  }

  /** `minDate`. */
  function MinDate(a: int, b: int): (r: int)
    ensures r <= a && r <= b && (r == a || r == b)
  {
    if a < b then a else b
  }

  /** `maxDate`. */
  function MaxDate(a: int, b: int): (r: int)
    ensures r >= a && r >= b && (r == a || r == b)
  {
    if a > b then a else b
  }

  /** The consecutive dates from `from` to `to` inclusive; none when from > to. */
  function DateRange(from: int, to: int): (r: seq<int>)
    decreases to - from
    ensures |r| == (if from <= to then to - from + 1 else 0)
    ensures forall i :: 0 <= i < |r| ==> r[i] == from + i
  {
    if from > to then [] else [from] + DateRange(from + 1, to)
  }

  /** `eachDateYMD`: walks a cursor from `from` while it is not after `to`,
      pushing every date. */
  method EachDateYMD(from: int, to: int) returns (days: seq<int>)
    ensures |days| == (if from <= to then to - from + 1 else 0)
    ensures forall i :: 0 <= i < |days| ==> days[i] == from + i
    ensures days == DateRange(from, to)
  {
    days := [];
    var d := from;
    while d <= to
      invariant from <= d
      invariant d == from || d <= to + 1
      invariant |days| == d - from
      invariant forall i :: 0 <= i < |days| ==> days[i] == from + i
    {
      days := days + [d];
      d := AddDays(d, 1);
    }
  }

  /** The Mondays `k`, `k + 7`, ... that are not after `to`. */
  function MondaysFrom(k: int, to: int): (r: seq<int>)
    decreases to - k
    ensures forall i :: 0 <= i < |r| ==> r[i] == k + 7 * i && r[i] <= to
    ensures k <= to ==> |r| > 0 && r[|r| - 1] + 7 > to
    ensures k > to ==> r == []
  {
    if k > to then [] else [k] + MondaysFrom(k + 7, to)
  }

  /** The Mondays of the weeks that meet [from, to], in ascending order. */
  function WeekKeys(from: int, to: int): (r: seq<int>)
    ensures forall i :: 0 <= i < |r| ==> Dow(r[i]) == MONDAY && MondayOf(from) <= r[i] <= to
    ensures forall i, j :: 0 <= i < j < |r| ==> r[i] < r[j]
    ensures forall i :: 0 <= i < |r| ==> r[i] == MondayOf(from) + 7 * i
    ensures from <= to ==> |r| > 0 && r[0] == MondayOf(from) && r[|r| - 1] + 7 > to
  {
    var r := MondaysFrom(MondayOf(from), to);
    forall i | 0 <= i < |r| ensures Dow(r[i]) == MONDAY {
      DowShift(MondayOf(from), i);
    }
    r
  }

  /** The Mondays of the weeks that meet [from, to] are exactly the Mondays from
      the Monday of `from` up to `to`. */
  lemma {:induction false} WeekKeysMembers(from: int, to: int, x: int)
    requires Dow(x) == MONDAY
    ensures x in WeekKeys(from, to) <==> MondayOf(from) <= x <= to
  {
    var m := MondayOf(from);
    var r := WeekKeys(from, to);
    if m <= x <= to {
      var q := (x - m) / 7;
      assert x == m + 7 * q by {
        var qx, qm := (x + 4) / 7, (m + 4) / 7;
        assert x + 4 == 7 * qx + 1;
        assert m + 4 == 7 * qm + 1;
        assert x - m == 7 * (qx - qm);
      }
      assert |r| > 0;
      assert r[|r| - 1] == m + 7 * (|r| - 1);
      assert q < |r|;
      assert r[q] == x;
    }
  }

  /** A date in [from, to] has its Monday among the week keys of the range. */
  lemma MondayOfInWeekKeys(from: int, to: int, d: int)
    requires from <= d <= to
    ensures MondayOf(d) in WeekKeys(from, to)
  {
    MondayOfMonotone(from, d);
    WeekKeysMembers(from, to, MondayOf(d));
  }

  /** Cut to [from, to], the weeks of the week keys tile the range: the first
      starts at `from` and every later one at its Monday; the last ends at `to`
      and every earlier one on its Sunday, the day before the next Monday. */
  lemma WeekKeysTile(from: int, to: int)
    requires from <= to
    ensures var r := WeekKeys(from, to);
      forall i :: 0 <= i < |r| ==>
        && MaxDate(r[i], from) == (if i == 0 then from else r[i])
        && MinDate(r[i] + 6, to) == (if i == |r| - 1 then to else r[i] + 6)
        && from <= MaxDate(r[i], from) <= MinDate(r[i] + 6, to) <= to
  {
  }
}
