/** String helpers the engine borrows from JavaScript: `String.prototype.trim`,
    decimal digits, `String(n)` for a whole number and `padStart(2, '0')`, plus a
    reader for the "[-]HH:MM" strings the formatters produce. */
module Text {
  import opened Values

  /** The code points `trim` removes: ECMAScript WhiteSpace and LineTerminator. */
  predicate IsSpace(c: char)
  {
    c == '\t' || c == '\n' || c == '\U{000B}' || c == '\U{000C}' || c == '\r' || c == ' '
    || c == '\U{00A0}' || c == '\U{1680}' || ('\U{2000}' <= c <= '\U{200A}')
    || c == '\U{2028}' || c == '\U{2029}' || c == '\U{202F}' || c == '\U{205F}'
    || c == '\U{3000}' || c == '\U{FEFF}'
  }

  /** Neither starts nor ends with a space. */
  predicate Trimmed(s: string)
  {
    s == [] || (!IsSpace(s[0]) && !IsSpace(s[|s| - 1]))
  }

  /** `s` with its leading spaces removed: a suffix of `s`, and all it dropped is space. */
  function TrimStart(s: string): (r: string)
    ensures |r| <= |s| && r == s[|s| - |r|..]
    ensures r == [] || !IsSpace(r[0])
    ensures forall i :: 0 <= i < |s| - |r| ==> IsSpace(s[i])
  {
    if s != [] && IsSpace(s[0]) then TrimStart(s[1..]) else s
  }

  /** `s` with its trailing spaces removed: a prefix of `s`, and all it dropped is space. */
  function TrimEnd(s: string): (r: string)
    ensures |r| <= |s| && r == s[..|r|]
    ensures r == [] || !IsSpace(r[|r| - 1])
    ensures forall i :: |r| <= i < |s| ==> IsSpace(s[i])
  {
    if s != [] && IsSpace(s[|s| - 1]) then TrimEnd(s[..|s| - 1]) else s
  }

  /** `r` is `s` less `i` characters of space in front and the rest of its
      trailing characters, all space, behind. */
  predicate StripsTo(s: string, i: int, r: string)
  {
    && 0 <= i && i + |r| <= |s| && r == s[i..i + |r|]
    && (forall k :: 0 <= k < i ==> IsSpace(s[k]))
    && (forall k :: i + |r| <= k < |s| ==> IsSpace(s[k]))
  }

  /** `String.prototype.trim`. */
  function Trim(s: string): (r: string)
    ensures Trimmed(r)
    ensures |r| <= |s|
    ensures forall c :: c in r ==> c in s
  {
    var t := TrimStart(s);
    var r := TrimEnd(t);
    assert r == [] || r[0] == t[0];
    r
  }

  /** What `trim` removes: the result is the input less the space at its front
      and the space at its back, and nothing else. */
  lemma TrimStrips(s: string)
    ensures exists i :: StripsTo(s, i, Trim(s))
  {
    var t := TrimStart(s);
    var r := TrimEnd(t);
    var i := |s| - |t|;
    assert r == s[i..][..|r|];
    assert r == s[i..i + |r|];
    assert forall k :: 0 <= k < i ==> IsSpace(s[k]);
    forall k | i + |r| <= k < |s| ensures IsSpace(s[k]) {
      assert s[k] == t[k - i];
    }
    assert Trim(s) == r;
    assert StripsTo(s, i, Trim(s));
  }

  /** Trimming a string that has no space at either end changes nothing. */
  lemma TrimOfTrimmed(s: string)
    requires Trimmed(s)
    ensures Trim(s) == s
  {
  }

  /** One leading space before a string that does not start with one is trimmed away. */
  lemma TrimStartOneSpace(t: string)
    requires |t| > 0 && !IsSpace(t[0])
    ensures TrimStart([' '] + t) == t
  {
    assert ([' '] + t)[1..] == t;
  }

  /** One trailing space after a string that does not end with one is trimmed away. */
  lemma TrimEndOneSpace(u: string)
    requires |u| > 0 && !IsSpace(u[|u| - 1])
    ensures TrimEnd(u + [' ']) == u
  {
    assert (u + [' '])[..|u|] == u;
  }

  /** One space at each end of a string that has none at either end is trimmed away. */
  lemma TrimOneSpaceEach(u: string)
    requires |u| > 0 && !IsSpace(u[0]) && !IsSpace(u[|u| - 1])
    ensures Trim([' '] + u + [' ']) == u
  {
    var t := u + [' '];
    assert [' '] + u + [' '] == [' '] + t;
    TrimStartOneSpace(t);
    TrimEndOneSpace(u);
  }

  predicate IsDigit(c: char)
  {
    '0' <= c <= '9'
  }

  predicate AllDigits(s: string)
  {
    forall i :: 0 <= i < |s| ==> IsDigit(s[i])
  }

  function DigitValue(c: char): nat
    requires IsDigit(c)
  {
    (c as int) - ('0' as int)
  }

  function DigitChar(d: nat): (c: char)
    requires d < 10
    ensures IsDigit(c) && DigitValue(c) == d
  {
    (('0' as int) + d) as char
  }

  /** The number a string of decimal digits denotes (`Number("07")` is 7). */
  function DigitsValue(s: string): nat
    requires AllDigits(s)
  {
    if s == [] then 0 else DigitsValue(s[..|s| - 1]) * 10 + DigitValue(s[|s| - 1])
  }

  /** Appending a digit multiplies by ten and adds it. */
  lemma DigitsValueSnoc(s: string, c: char)
    requires AllDigits(s) && IsDigit(c)
    ensures AllDigits(s + [c]) && DigitsValue(s + [c]) == DigitsValue(s) * 10 + DigitValue(c)
  {
    assert (s + [c])[..|s|] == s;
  }

  /** A leading zero does not change the value. */
  lemma {:induction false} DigitsValueLeadingZero(s: string)
    requires AllDigits(s)
    ensures AllDigits("0" + s) && DigitsValue("0" + s) == DigitsValue(s)
  {
    if s != [] {
      var p := s[..|s| - 1];
      DigitsValueLeadingZero(p);
      assert ("0" + s)[..|s|] == "0" + p;
    }
  }

  /** `String(n)` for a whole number: its shortest decimal numeral, read back as
      `n`, which starts with '0' only when it is "0". */
  function NatToString(n: nat): (r: string)
    ensures |r| >= 1 && AllDigits(r) && DigitsValue(r) == n
    ensures |r| == 1 <==> n < 10
    ensures r[0] == '0' <==> n == 0
    decreases n
  {
    if n < 10 then [DigitChar(n)]
    else
      var p := NatToString(n / 10);
      DigitsValueSnoc(p, DigitChar(n % 10));
      p + [DigitChar(n % 10)]
  }

  /** `padStart(2, '0')`: strings shorter than two get '0's in front. */
  function PadStart2(s: string): (r: string)
    ensures |r| == if |s| >= 2 then |s| else 2
    ensures AllDigits(s) ==> AllDigits(r) && DigitsValue(r) == DigitsValue(s)
  {
    if |s| >= 2 then s
    else if |s| == 1 then
      (if AllDigits(s) then DigitsValueLeadingZero(s); "0" + s else "0" + s)
    else "00"
  }

  /** A whole number in at least two digits, as `String(n).padStart(2, '0')`. */
  function Pad2(n: nat): (r: string)
    ensures |r| >= 2 && AllDigits(r) && DigitsValue(r) == n
    ensures n < 100 ==> |r| == 2
    ensures |r| > 2 ==> r[0] != '0'
  {
    PadStart2(NatToString(n))
  }

  /** The reading of an unsigned "H..H:MM" string (at least two hour digits,
      exactly two minute digits, minutes below 60) as a number of minutes. */
  function ParseUnsignedHHMM(s: string): (r: Option<nat>)
  {
    if |s| >= 5 && s[|s| - 3] == ':' && AllDigits(s[..|s| - 3]) && AllDigits(s[|s| - 2..])
       && DigitsValue(s[|s| - 2..]) < 60
    then Some(DigitsValue(s[..|s| - 3]) * 60 + DigitsValue(s[|s| - 2..]))
    else None
  }

  /** The reading of a "[-]HH:MM" string as a signed number of minutes; None when
      the string is not of that shape. */
  function ParseHHMM(s: string): (r: Option<int>)
  {
    if |s| > 0 && s[0] == '-' then
      match ParseUnsignedHHMM(s[1..])
      case Some(v) => var neg: int := -(v as int); Some(neg)
      case None => None
    else
      match ParseUnsignedHHMM(s)
      case Some(v) => Some(v)
      case None => None
  }

  /** "HH:MM" of a number of hours and a number of minutes. */
  function Clock(hh: nat, mm: nat): string
  {
    Pad2(hh) + ":" + Pad2(mm)
  }

  /** Hours and minutes of a magnitude, read back from "HH:MM". */
  lemma FieldsRoundTrip(hh: nat, mm: nat)
    requires mm < 60
    ensures ParseUnsignedHHMM(Clock(hh, mm)) == Some(hh * 60 + mm)
    ensures |Clock(hh, mm)| >= 5 && IsDigit(Clock(hh, mm)[0])
  {
    var h, m := Pad2(hh), Pad2(mm);
    var s := h + ":" + m;
    assert s[..|s| - 3] == h;
    assert s[|s| - 2..] == m;
    assert s[|s| - 3] == ':';
    assert s[0] == h[0] && IsDigit(h[0]);
  }

  /** A magnitude in minutes, read back from "HH:MM" of its whole hours and its
      remaining minutes. */
  lemma MagnitudeRoundTrip(abs: nat)
    ensures ParseUnsignedHHMM(Clock(abs / 60, abs % 60)) == Some(abs)
  {
    FieldsRoundTrip(abs / 60, abs % 60);
    assert abs / 60 * 60 + abs % 60 == abs;
  }

  /** A whole number of minutes as "[-]HH:MM": a '-' exactly when the number is
      negative, then the whole hours of its magnitude in at least two digits and
      the remaining minutes in two. Minutes are the remainder of a division by
      60, so a minute field of 60 cannot arise and the reset to 0 never fires. */
  function HHMM(n: int): (r: string)
    ensures |r| >= 5 && (r[0] == '-' <==> n < 0)
    ensures n >= 0 ==> IsDigit(r[0])
  {
    var abs: nat := if n < 0 then -n else n;
    var hh, mm := abs / 60, abs % 60;
    var minutes := if mm == 60 then 0 else mm;
    var body := Pad2(hh) + ":" + Pad2(minutes);
    assert body[0] == Pad2(hh)[0];
    if n < 0 then "-" + body else body
  }

  /** A '-' before an unsigned reading negates it. */
  lemma ParseSigned(body: string, v: nat)
    requires ParseUnsignedHHMM(body) == Some(v) && |body| > 0 && body[0] != '-'
    ensures ParseHHMM(body) == Some(v)
    ensures ParseHHMM("-" + body) == Some(-(v as int))
  {
    assert ("-" + body)[1..] == body;
  }

  /** "[-]HH:MM" reads back as the number it was made from, so its minute field
      is always below 60. */
  lemma HHMMRoundTrip(n: int)
    ensures ParseHHMM(HHMM(n)) == Some(n)
  {
    var abs: nat := if n < 0 then -n else n;
    var body := Clock(abs / 60, abs % 60);
    MagnitudeRoundTrip(abs);
    FieldsRoundTrip(abs / 60, abs % 60);
    ParseSigned(body, abs);
    assert HHMM(n) == if n < 0 then "-" + body else body;
  }
}
