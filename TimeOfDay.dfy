/** The time normaliser of the overtime service: validating "H:MM" / "HH:M"
    strings and turning them into canonical zero-padded "HH:MM" times of day. */
module TimeOfDay {
  import opened Values
  import opened Text

  const MINUTES_PER_DAY := 1440

  /** `s` is what /^(\d{1,2}):(\d{1,2})$/ accepts, with its colon at index `i`:
      one or two digits, a colon, one or two digits, and nothing else. */
  predicate SplitsAt(s: string, i: int)
  {
    (i == 1 || i == 2) && i + 2 <= |s| <= i + 3 && s[i] == ':'
    && AllDigits(s[..i]) && AllDigits(s[i + 1..])
  }

  /** The whole of `s` matches /^(\d{1,2}):(\d{1,2})$/. */
  predicate TimePattern(s: string)
  {
    SplitsAt(s, 1) || SplitsAt(s, 2)
  }

  /** The two groups the pattern captures, when it matches. */
  function MatchTime(s: string): (r: Option<(string, string)>)
    ensures r.Some? <==> TimePattern(s)
    ensures SplitsAt(s, 1) ==> r == Some((s[..1], s[2..]))
    ensures SplitsAt(s, 2) ==> r == Some((s[..2], s[3..]))
  {
    if SplitsAt(s, 1) then Some((s[..1], s[2..]))
    else if SplitsAt(s, 2) then Some((s[..2], s[3..]))
    else None
  }

  /** A canonical time of day: "HH:MM", hour 00-23, minute 00-59. */
  predicate Canonical(c: string)
  {
    |c| == 5 && c[2] == ':' && AllDigits(c[..2]) && AllDigits(c[3..])
    && DigitsValue(c[..2]) <= 23 && DigitsValue(c[3..]) <= 59
  }

  /** The value of a numeral of one or two digits. */
  lemma ShortDigitsValue(a: string)
    requires 1 <= |a| <= 2 && AllDigits(a)
    ensures |a| == 1 ==> DigitsValue(a) == DigitValue(a[0])
    ensures |a| == 2 ==> DigitsValue(a) == DigitValue(a[0]) * 10 + DigitValue(a[1])
    ensures DigitsValue(a) < 100
  {
    assert a[..|a| - 1][..0] == [];
    if |a| == 2 {
      assert a[..1] == [a[0]];
    }
  }

  /** Two two-digit numerals with the same value are the same numeral. */
  lemma TwoDigitsUnique(a: string, b: string)
    requires |a| == 2 && |b| == 2 && AllDigits(a) && AllDigits(b)
    requires DigitsValue(a) == DigitsValue(b)
    ensures a == b
  {
    ShortDigitsValue(a);
    ShortDigitsValue(b);
  }

  /** Padding a group of one or two digits gives the two-digit numeral of its value. */
  lemma PaddedGroup(g: string)
    requires 1 <= |g| <= 2 && AllDigits(g)
    ensures PadStart2(g) == Pad2(DigitsValue(g))
  {
    ShortDigitsValue(g);
    TwoDigitsUnique(PadStart2(g), Pad2(DigitsValue(g)));
  }

  /** The spelling of a valid hour and minute is canonical and spells them. */
  lemma ClockCanonical(h: nat, m: nat)
    requires h <= 23 && m <= 59
    ensures Canonical(Clock(h, m))
    ensures Clock(h, m)[..2] == Pad2(h) && Clock(h, m)[3..] == Pad2(m)
  {
    var c := Clock(h, m);
    assert c[..2] == Pad2(h);
    assert c[3..] == Pad2(m);
  }

  /** `normalizeTime`: None for the empty string, for a string whose trimmed form
      does not match /^(\d{1,2}):(\d{1,2})$/ and for an hour above 23 or a minute
      above 59; otherwise the canonical "HH:MM" of the two fields. */
  function NormalizeTime(t: string): (r: Option<string>)
    ensures r.Some? ==> Canonical(r.value)
  {
    if t == [] then None
    else
      match MatchTime(Trim(t))
      case None => None
      case Some((h, mi)) =>
        var hh, mm := PadStart2(h), PadStart2(mi);
        var hour, minute := DigitsValue(hh), DigitsValue(mm);
        if hour > 23 || minute > 59 then None
        else
          PaddedGroup(h);
          PaddedGroup(mi);
          ClockCanonical(hour, minute);
          Some(hh + ":" + mm)
  }

  /** What `normalizeTime` accepts and what it returns: None unless the trimmed
      input is one or two digits, a colon and one or two digits, with an hour of
      at most 23 and a minute of at most 59; then the zero-padded "HH:MM". */
  lemma NormalizeTimeSpec(t: string)
    ensures !TimePattern(Trim(t)) ==> NormalizeTime(t) == None
    ensures TimePattern(Trim(t)) ==>
      var u := Trim(t);
      var i := if SplitsAt(u, 1) then 1 else 2;
      var H, M := DigitsValue(u[..i]), DigitsValue(u[i + 1..]);
      NormalizeTime(t) == if H <= 23 && M <= 59 then Some(Clock(H, M)) else None
  {
    var u := Trim(t);
    if t != [] && TimePattern(u) {
      var i := if SplitsAt(u, 1) then 1 else 2;
      PaddedGroup(u[..i]);
      PaddedGroup(u[i + 1..]);
    }
  }

  /** The minute of the day a canonical time denotes (`dayjs('…T' + hhmm)`). */
  function ClockMinutes(c: string): (r: nat)
    requires Canonical(c)
    ensures r < MINUTES_PER_DAY
  {
    DigitsValue(c[..2]) * 60 + DigitsValue(c[3..])
  }

  /** A five-character "DD:DD" string splits at its colon into two two-digit groups. */
  lemma FiveCharTime(s: string)
    requires |s| == 5 && s[2] == ':' && IsDigit(s[0]) && IsDigit(s[1]) && IsDigit(s[3]) && IsDigit(s[4])
    ensures MatchTime(s) == Some((s[..2], s[3..]))
    ensures AllDigits(s[..2]) && DigitsValue(s[..2]) == DigitValue(s[0]) * 10 + DigitValue(s[1])
    ensures AllDigits(s[3..]) && DigitsValue(s[3..]) == DigitValue(s[3]) * 10 + DigitValue(s[4])
  {
    var h, m := s[..2], s[3..];
    assert h == [s[0], s[1]] && m == [s[3], s[4]];
    assert AllDigits(h) && AllDigits(m);
    assert SplitsAt(s, 2);
    ShortDigitsValue(h);
    ShortDigitsValue(m);
  }

  /** A string with a colon at index 2 is its first two characters, the colon
      and the rest. */
  lemma ColonSplit(c: string)
    requires |c| >= 3 && c[2] == ':'
    ensures c == c[..2] + ":" + c[3..]
  {
  }

  /** A string that starts and ends with a digit is its own trimmed form. */
  lemma DigitEndsTrimmed(s: string)
    requires |s| > 0 && IsDigit(s[0]) && IsDigit(s[|s| - 1])
    ensures Trim(s) == s
  {
    TrimOfTrimmed(s);
  }

  /** A canonical time is its own normal form, so normalising is idempotent. */
  lemma NormalizeCanonical(c: string)
    requires Canonical(c)
    ensures NormalizeTime(c) == Some(c)
  {
    assert IsDigit(c[0]) && IsDigit(c[1]) && IsDigit(c[3]) && IsDigit(c[4]) by {
      assert c[0] == c[..2][0] && c[1] == c[..2][1] && c[3] == c[3..][0] && c[4] == c[3..][1];
    }
    DigitEndsTrimmed(c);
    FiveCharTime(c);
    ColonSplit(c);
    var h, m := c[..2], c[3..];
    assert MatchTime(Trim(c)) == Some((h, m));
    assert PadStart2(h) == h && PadStart2(m) == m;
    assert DigitsValue(h) <= 23 && DigitsValue(m) <= 59;
    assert h + ":" + m == c;
  }

  lemma NormalizeTimeIdempotent(t: string)
    requires NormalizeTime(t).Some?
    ensures NormalizeTime(NormalizeTime(t).value) == NormalizeTime(t)
  {
    NormalizeCanonical(NormalizeTime(t).value);
  }

  /** Every valid hour and minute is accepted, and read back as the same minute of day. */
  lemma ClockRoundTrip(h: nat, m: nat)
    requires h <= 23 && m <= 59
    ensures NormalizeTime(Clock(h, m)) == Some(Clock(h, m))
    ensures ClockMinutes(Clock(h, m)) == h * 60 + m
  {
    ClockCanonical(h, m);
    NormalizeCanonical(Clock(h, m));
  }

  /** A one-digit number is padded with a single '0'. */
  lemma Pad2OneDigit(n: nat)
    requires n < 10
    ensures Pad2(n) == ['0', DigitChar(n)]
  {
  }

  /** A "D:D" string splits at its colon into two one-digit groups. */
  lemma ThreeCharTime(s: string)
    requires |s| == 3 && s[1] == ':' && IsDigit(s[0]) && IsDigit(s[2])
    ensures SplitsAt(s, 1)
    ensures DigitsValue(s[..1]) == DigitValue(s[0]) && DigitsValue(s[2..]) == DigitValue(s[2])
  {
    var h, m := s[..1], s[2..];
    assert h == [s[0]] && m == [s[2]];
    assert AllDigits(h) && AllDigits(m);
    ShortDigitsValue(h);
    ShortDigitsValue(m);
  }

  /** A "D:DD" string splits at its colon into a one-digit and a two-digit group. */
  lemma FourCharTime(s: string)
    requires |s| == 4 && s[1] == ':' && IsDigit(s[0]) && IsDigit(s[2]) && IsDigit(s[3])
    ensures SplitsAt(s, 1)
    ensures DigitsValue(s[..1]) == DigitValue(s[0]) && DigitsValue(s[2..]) == DigitValue(s[2]) * 10 + DigitValue(s[3])
  {
    var h, m := s[..1], s[2..];
    assert h == [s[0]] && m == [s[2], s[3]];
    assert AllDigits(h) && AllDigits(m);
    ShortDigitsValue(h);
    ShortDigitsValue(m);
  }

  /** A one-digit hour is at most 9. */
  lemma DigitValueBound(c: char)
    requires IsDigit(c)
    ensures DigitValue(c) <= 9
  {
  }

  /** A "D:D" string reads as that hour and minute. */
  lemma OneDigitFields(s: string)
    requires |s| == 3 && s[1] == ':' && IsDigit(s[0]) && IsDigit(s[2])
    ensures NormalizeTime(s) == Some(Clock(DigitValue(s[0]), DigitValue(s[2])))
  {
    var h, m := s[..1], s[2..];
    assert MatchTime(Trim(s)) == Some((h, m)) by {
      DigitEndsTrimmed(s);
      ThreeCharTime(s);
    }
    ThreeCharTime(s);
    DigitValueBound(s[0]);
    DigitValueBound(s[2]);
    PaddedGroup(h);
    PaddedGroup(m);
  }

  /** A "D:DD" string reads as that hour and minute when the minute is below 60. */
  lemma OneDigitHour(s: string)
    requires |s| == 4 && s[1] == ':' && IsDigit(s[0]) && IsDigit(s[2]) && IsDigit(s[3])
    ensures var M := DigitValue(s[2]) * 10 + DigitValue(s[3]);
      NormalizeTime(s) == if M <= 59 then Some(Clock(DigitValue(s[0]), M)) else None
  {
    var h, m := s[..1], s[2..];
    assert MatchTime(Trim(s)) == Some((h, m)) by {
      DigitEndsTrimmed(s);
      FourCharTime(s);
    }
    FourCharTime(s);
    DigitValueBound(s[0]);
    PaddedGroup(h);
    PaddedGroup(m);
  }

  lemma ClockSevenFive()
    ensures Clock(7, 5) == "07:05"
  {
    Pad2OneDigit(7);
    Pad2OneDigit(5);
  }

  lemma ClockNineThirty()
    ensures Clock(9, 30) == "09:30"
  {
    Pad2OneDigit(9);
    assert NatToString(3) == "3";
    assert NatToString(30) == "3" + "0";
  }

  /** Short fields are zero-padded. */
  lemma NormalizeTimePads()
    ensures NormalizeTime("7:5") == Some("07:05")
  {
    OneDigitFields("7:5");
    ClockSevenFive();
  }

  /** Spaces around a time are ignored: normalising a string and normalising its
      trimmed form give the same answer. */
  lemma NormalizeTimeTrims(t: string)
    ensures NormalizeTime(t) == NormalizeTime(Trim(t))
  {
    TrimOfTrimmed(Trim(t));
  }

  /** "9:30" reads as 09:30. */
  lemma NormalizeNineThirty()
    ensures NormalizeTime("9:30") == Some("09:30")
  {
    OneDigitHour("9:30");
    ClockNineThirty();
  }

  /** " 9:30 " reads as 09:30 too. */
  lemma NormalizeSpacedNineThirty()
    ensures NormalizeTime([' '] + "9:30" + [' ']) == Some("09:30")
  {
    var s := "9:30";
    assert Trim([' '] + s + [' ']) == s by {
      assert !IsSpace(s[0]) && !IsSpace(s[3]);
      TrimOneSpaceEach(s);
    }
    NormalizeTimeTrims([' '] + s + [' ']);
    NormalizeNineThirty();
  }

  /** Hour 24 is out of range. */
  lemma NormalizeTimeRejectsHour24()
    ensures NormalizeTime("24:00") == None
  {
    DigitEndsTrimmed("24:00");
    FiveCharTime("24:00");
  }

  /** Minute 60 is out of range. */
  lemma NormalizeTimeRejectsMinute60()
    ensures NormalizeTime("12:60") == None
  {
    DigitEndsTrimmed("12:60");
    FiveCharTime("12:60");
  }

  /** A string without a colon is never a time: trimming adds no character, and
      the pattern needs one colon. */
  lemma NormalizeTimeNeedsColon(t: string)
    requires ':' !in t
    ensures NormalizeTime(t) == None
  {
    assert ':' !in Trim(t);
  }

  lemma NormalizeTimeRejectsNoColon()
    ensures NormalizeTime("930") == None
  {
    NormalizeTimeNeedsColon("930");
  }
}
