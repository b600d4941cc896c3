/** Grouping of day records by the Monday of their week, shared by the preview
    report and the workbook builder: both fill a `weeksMap` keyed by `mondayOf`
    and then visit its keys in ascending order. */
module Weeks {
  import opened Calendar

  /** `xs` holds, in order, exactly one item per date of [from, to]. */
  predicate IsCalendar<T>(xs: seq<T>, date: T -> int, from: int, to: int)
  {
    from <= to && |xs| == to - from + 1
    && forall i :: 0 <= i < |xs| ==> date(xs[i]) == from + i
  }

  /** The items of `xs` whose date has Monday `k`, in their order in `xs`. */
  function Group<T>(xs: seq<T>, date: T -> int, k: int): seq<T>
  {
    if xs == [] then []
    else
      var last := xs[|xs| - 1];
      Group(xs[..|xs| - 1], date, k) + (if MondayOf(date(last)) == k then [last] else [])
  }

  /** Some item of `xs` has a date with Monday `k`. */
  predicate Occurs<T>(xs: seq<T>, date: T -> int, k: int)
  {
    Group(xs, date, k) != []
  }

  /** No value occurs twice in `s`. */
  predicate Distinct(s: seq<int>)
  {
    forall i, j :: 0 <= i < j < |s| ==> s[i] != s[j]
  }

  predicate Ascending(s: seq<int>)
  {
    forall i, j :: 0 <= i < j < |s| ==> s[i] <= s[j]
  }

  /** The Mondays of the dates of `xs`, each listed once, in the order of their
      first appearance: the order in which a JavaScript `Map` lists its keys. */
  function FirstMondays<T>(xs: seq<T>, date: T -> int): (r: seq<int>)
    ensures Distinct(r)
    ensures forall k :: k in r <==> Occurs(xs, date, k)
  {
    if xs == [] then []
    else
      var prev := FirstMondays(xs[..|xs| - 1], date);
      var wk := MondayOf(date(xs[|xs| - 1]));
      if wk in prev then prev else prev + [wk]
  }

  /** The `weeksMap` loop: every item is appended to the list under the Monday of
      its date, a list being created the first time its Monday is met; `order`
      lists the keys in the order they were created. */
  method GroupByMonday<T>(xs: seq<T>, date: T -> int) returns (weeksMap: map<int, seq<T>>, order: seq<int>)
    ensures forall k :: k in weeksMap ==> weeksMap[k] == Group(xs, date, k) && weeksMap[k] != []
    ensures forall k :: k !in weeksMap ==> Group(xs, date, k) == []
    ensures order == FirstMondays(xs, date)
  {
    weeksMap := map[];
    order := [];
    var i := 0;
    while i < |xs|
      invariant 0 <= i <= |xs|
      invariant forall k :: k in weeksMap ==> weeksMap[k] == Group(xs[..i], date, k) && weeksMap[k] != []
      invariant forall k :: k !in weeksMap ==> Group(xs[..i], date, k) == []
      invariant order == FirstMondays(xs[..i], date)
    {
      var wk := MondayOf(date(xs[i]));
      GroupStep(xs, date, i);
      if wk !in weeksMap {
        weeksMap := weeksMap[wk := []];
        order := order + [wk];
      }
      weeksMap := weeksMap[wk := weeksMap[wk] + [xs[i]]];
      i := i + 1;
    }
    assert xs[..|xs|] == xs;
  }

  /** One more item joins the group of its own Monday and no other, and adds its
      Monday to the first-seen order when it is new. */
  lemma GroupStep<T>(xs: seq<T>, date: T -> int, i: int)
    requires 0 <= i < |xs|
    ensures var wk := MondayOf(date(xs[i]));
      && (forall k :: Group(xs[..i + 1], date, k) == Group(xs[..i], date, k) + (if k == wk then [xs[i]] else []))
      && FirstMondays(xs[..i + 1], date) == (if wk in FirstMondays(xs[..i], date) then FirstMondays(xs[..i], date) else FirstMondays(xs[..i], date) + [wk])
  {
    assert xs[..i + 1][..i] == xs[..i];
  }

  /** Only Mondays key a group. */
  lemma {:induction false} GroupNonMonday<T>(xs: seq<T>, date: T -> int, k: int)
    requires Dow(k) != MONDAY
    ensures Group(xs, date, k) == []
  {
    if xs != [] {
      GroupNonMonday(xs[..|xs| - 1], date, k);
    }
  }

  function Clamp(a: int, n: int): int
  {
    if a < 0 then 0 else if a > n then n else a
  }

  /** Extending the window [a, a + 7) cut to [0, n - 1) by item n - 1 gives the
      window cut to [0, n). */
  lemma ClampStep<T>(xs: seq<T>, a: int, n: int, g: seq<T>, inside: bool)
    requires 0 < n <= |xs| && Clamp(a, n - 1) <= Clamp(a + 7, n - 1)
    requires g == xs[Clamp(a, n - 1)..Clamp(a + 7, n - 1)]
    requires inside <==> a <= n - 1 <= a + 6
    ensures Clamp(a, n) <= Clamp(a + 7, n)
    ensures g + (if inside then [xs[n - 1]] else []) == xs[Clamp(a, n)..Clamp(a + 7, n)]
  {
    if inside {
      assert g + [xs[n - 1]] == xs[Clamp(a, n)..n];
    } else if n - 1 < a {
      assert Clamp(a, n) == Clamp(a + 7, n) == n;
    } else {
      assert Clamp(a, n - 1) == Clamp(a, n) && Clamp(a + 7, n - 1) == Clamp(a + 7, n);
    }
  }

  /** Over the first `n` items of a calendar, the group of Monday `k` is the run of
      items whose offsets from `from` lie in [k - from, k - from + 7), cut to [0, n). */
  lemma {:induction false} GroupOfCalendarPrefix<T>(xs: seq<T>, date: T -> int, from: int, to: int, k: int, n: int)
    requires IsCalendar(xs, date, from, to) && Dow(k) == MONDAY && 0 <= n <= |xs|
    ensures Clamp(k - from, n) <= Clamp(k - from + 7, n)
    ensures Group(xs[..n], date, k) == xs[Clamp(k - from, n)..Clamp(k - from + 7, n)]
  {
    if n > 0 {
      GroupOfCalendarPrefix(xs, date, from, to, k, n - 1);
      var g, last := Group(xs[..n - 1], date, k), xs[n - 1];
      assert Group(xs[..n], date, k) == g + (if MondayOf(date(last)) == k then [last] else []) by {
        assert xs[..n][..n - 1] == xs[..n - 1];
        assert xs[..n][n - 1] == last;
      }
      assert MondayOf(date(last)) == k <==> k - from <= n - 1 <= k - from + 6 by {
        assert date(last) == from + n - 1;
        MondayOfIff(k, from + n - 1);
      }
      ClampStep(xs, k - from, n, g, MondayOf(date(last)) == k);
    }
  }

  /** In a calendar over [from, to], the group of a week key is the run of items
      dated from max(key, from) to min(key + 6, to). */
  lemma GroupOfCalendar<T>(xs: seq<T>, date: T -> int, from: int, to: int, k: int)
    requires IsCalendar(xs, date, from, to) && Dow(k) == MONDAY && MondayOf(from) <= k <= to
    ensures 0 <= MaxDate(k, from) - from <= MinDate(k + 6, to) - from + 1 <= |xs|
    ensures Group(xs, date, k) == xs[MaxDate(k, from) - from..MinDate(k + 6, to) - from + 1]
  {
    var n := |xs|;
    GroupOfCalendarPrefix(xs, date, from, to, k, n);
    assert xs[..n] == xs;
    assert Clamp(k - from, n) == MaxDate(k, from) - from;
    assert Clamp(k - from + 7, n) == MinDate(k + 6, to) - from + 1;
  }

  /** In a calendar over [from, to], the keys with a non-empty group are the week keys. */
  lemma CalendarGroupKeys<T>(xs: seq<T>, date: T -> int, from: int, to: int, k: int)
    requires IsCalendar(xs, date, from, to)
    ensures Occurs(xs, date, k) <==> k in WeekKeys(from, to)
  {
    if Dow(k) != MONDAY {
      GroupNonMonday(xs, date, k);
    } else {
      WeekKeysMembers(from, to, k);
      GroupOfCalendarPrefix(xs, date, from, to, k, |xs|);
      assert xs[..|xs|] == xs;
      if k < MondayOf(from) {
        MondaysApart(k, MondayOf(from));
      }
    }
  }

  /** A run of a calendar is the calendar of its own dates. */
  lemma CalendarSlice<T>(xs: seq<T>, date: T -> int, from: int, to: int, lo: int, hi: int)
    requires IsCalendar(xs, date, from, to) && from <= lo <= hi <= to
    ensures IsCalendar(xs[lo - from..hi - from + 1], date, lo, hi)
  {
    var ys := xs[lo - from..hi - from + 1];
    forall i | 0 <= i < |ys| ensures date(ys[i]) == lo + i {
      assert ys[i] == xs[lo - from + i];
    }
  }

  /** `s` lists the elements of `keys` in strictly ascending order. */
  ghost predicate SortedListing(s: seq<int>, keys: set<int>)
  {
    (forall i, j :: 0 <= i < j < |s| ==> s[i] < s[j]) && (forall x :: x in s <==> x in keys)
  }

  /** Only the empty list lists the empty set. */
  lemma ListingOfNothing(s: seq<int>, keys: set<int>)
    requires SortedListing(s, keys)
    ensures s == [] <==> keys == {}
  {
    if s != [] {
      assert s[0] in s;
    } else {
      assert forall x :: x !in keys;
    }
  }

  /** The head of an ascending listing is the least of its keys. */
  lemma ListingHead(s: seq<int>, keys: set<int>)
    requires SortedListing(s, keys) && s != []
    ensures s[0] in keys && forall x :: x in keys ==> s[0] <= x
  {
    assert s[0] in s;
    forall x | x in keys ensures s[0] <= x {
      var k :| 0 <= k < |s| && s[k] == x;
    }
  }

  /** The tail of an ascending listing lists the keys without its head. */
  lemma ListingTail(s: seq<int>, keys: set<int>)
    requires SortedListing(s, keys) && s != []
    ensures SortedListing(s[1..], keys - {s[0]})
  {
    forall x ensures x in s[1..] <==> x in s && x != s[0] {
      if x in s[1..] {
        var k :| 0 <= k < |s[1..]| && s[1..][k] == x;
        assert s[k + 1] == x;
      }
      if x in s && x != s[0] {
        var k :| 0 <= k < |s| && s[k] == x;
        assert s[1..][k - 1] == x;
      }
    }
  }

  /** There is only one ascending listing of a set. */
  lemma {:induction false} SortedListingUnique(s: seq<int>, t: seq<int>, keys: set<int>)
    requires SortedListing(s, keys) && SortedListing(t, keys)
    ensures s == t
    decreases |s|
  {
    ListingOfNothing(s, keys);
    ListingOfNothing(t, keys);
    if s != [] {
      ListingHead(s, keys);
      ListingHead(t, keys);
      ListingTail(s, keys);
      ListingTail(t, keys);
      SortedListingUnique(s[1..], t[1..], keys - {s[0]});
      assert s == [s[0]] + s[1..] && t == [t[0]] + t[1..];
    }
  }

  /** Inserting `x` into an ascending list, before the first larger element. */
  function Insert(x: int, s: seq<int>): (r: seq<int>)
    requires Ascending(s)
    ensures Ascending(r) && |r| == |s| + 1
    ensures forall y :: y in r <==> y == x || y in s
    ensures Distinct(s) && x !in s ==> Distinct(r)
    ensures multiset(r) == multiset(s) + multiset{x}
  {
    if s == [] then [x]
    else if x <= s[0] then [x] + s
    else
      var rest := Insert(x, s[1..]);
      InsertedBehindHead(x, s, rest);
      [s[0]] + rest
  }

  /** Putting the head of an ascending list back in front of the insertion into
      its tail gives an insertion into the list. */
  lemma InsertedBehindHead(x: int, s: seq<int>, rest: seq<int>)
    requires Ascending(s) && s != [] && s[0] < x
    requires Ascending(rest) && |rest| == |s|
    requires forall y :: y in rest <==> y == x || y in s[1..]
    requires Distinct(s[1..]) && x !in s[1..] ==> Distinct(rest)
    requires multiset(rest) == multiset(s[1..]) + multiset{x}
    ensures var r := [s[0]] + rest;
      Ascending(r) && |r| == |s| + 1 && (forall y :: y in r <==> y == x || y in s)
      && (Distinct(s) && x !in s ==> Distinct(r))
      && multiset(r) == multiset(s) + multiset{x}
  {
    assert s == [s[0]] + s[1..];
    assert forall y :: y in s <==> y == s[0] || y in s[1..];
    BelowInserted(x, s, rest);
  }

  /** The head of an ascending list stays below everything the insertion into its
      tail produces, and differs from it when nothing repeats. */
  lemma BelowInserted(x: int, s: seq<int>, rest: seq<int>)
    requires Ascending(s) && s != [] && s[0] < x
    requires forall y :: y in rest <==> y == x || y in s[1..]
    ensures forall j :: 0 <= j < |rest| ==> s[0] <= rest[j]
    ensures Distinct(s) && x !in s ==> forall j :: 0 <= j < |rest| ==> s[0] != rest[j]
  {
    forall j | 0 <= j < |rest|
      ensures s[0] <= rest[j] && (Distinct(s) && x !in s ==> s[0] != rest[j])
    {
      assert rest[j] in rest;
      if rest[j] != x {
        var k :| 0 <= k < |s[1..]| && s[1..][k] == rest[j];
        assert s[k + 1] == rest[j];
      }
    }
  }

  /** `.sort()` of a list of keys: the same keys in ascending order (the keys are
      "YYYY-MM-DD" strings, whose default string order is date order). */
  function SortKeys(s: seq<int>): (r: seq<int>)
    ensures Ascending(r) && |r| == |s|
    ensures forall y :: y in r <==> y in s
    ensures Distinct(s) ==> Distinct(r)
    ensures multiset(r) == multiset(s)
  {
    if s == [] then []
    else
      assert s == [s[0]] + s[1..];
      assert forall y :: y in s <==> y == s[0] || y in s[1..];
      Insert(s[0], SortKeys(s[1..]))
  }

  /** Sorting the distinct keys of a map lists them in strictly ascending order. */
  lemma SortKeysListing(order: seq<int>, keys: set<int>)
    requires Distinct(order) && forall k :: k in order <==> k in keys
    ensures SortedListing(SortKeys(order), keys)
  {
    var r := SortKeys(order);
    forall i, j | 0 <= i < j < |r| ensures r[i] < r[j] {
      assert r[i] <= r[j] && r[i] != r[j];
    }
  }

  /** For a calendar over [from, to], the sorted keys of the grouping are the week
      keys of the range. */
  lemma CalendarWeekStarts<T>(xs: seq<T>, date: T -> int, from: int, to: int)
    requires IsCalendar(xs, date, from, to)
    ensures SortKeys(FirstMondays(xs, date)) == WeekKeys(from, to)
  {
    var order := FirstMondays(xs, date);
    var keys := set k | k in order;
    SortKeysListing(order, keys);
    forall x ensures x in WeekKeys(from, to) <==> x in keys {
      CalendarGroupKeys(xs, date, from, to, x);
    }
    SortedListingUnique(SortKeys(order), WeekKeys(from, to), keys);
  }
}
