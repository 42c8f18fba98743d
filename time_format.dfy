/** The clock display: whole elapsed seconds shown as zero-padded
    hours:minutes:seconds, with an inverse that reads such a display back. */
module TimeFormat {
  import opened Wrappers

  predicate IsDigit(c: char) {
    '0' <= c <= '9'
  }

  predicate AllDigits(s: string) {
    forall i :: 0 <= i < |s| ==> IsDigit(s[i])
  }

  function DigitChar(d: nat): (c: char)
    requires d < 10
    ensures IsDigit(c) && c as int - '0' as int == d
  {
    ('0' as int + d) as char
  }

  function DigitValue(c: char): nat
    requires IsDigit(c)
  {
    c as int - '0' as int
  }

  /** The decimal text of `n` with no leading zero, as a non-negative integer
      prints itself. */
  function Show(n: nat): (r: string)
    ensures |r| >= 1 && AllDigits(r)
    ensures (|r| == 1) == (n < 10)
    ensures (|r| <= 2) == (n < 100)
    ensures r[0] == '0' ==> n == 0
    decreases n
  {
    if n < 10 then [DigitChar(n)] else Show(n / 10) + [DigitChar(n % 10)]
  }

  /** The number a string of decimal digits denotes (leading zeros allowed). */
  function Value(s: string): nat
    requires AllDigits(s)
    decreases |s|
  {
    if s == [] then 0 else Value(s[..|s| - 1]) * 10 + DigitValue(s[|s| - 1])
  }

  /** Reading back the decimal text of `n` gives `n`. */
  lemma {:induction false} ValueOfShow(n: nat)
    ensures Value(Show(n)) == n
  {
    if n >= 10 {
      var r := Show(n);
      assert r[..|r| - 1] == Show(n / 10);
      ValueOfShow(n / 10);
    }
  }

  /** A leading zero does not change the value of a digit string. */
  lemma {:induction false} ValueLeadingZero(s: string)
    requires AllDigits(s)
    ensures AllDigits("0" + s) && Value("0" + s) == Value(s)
  {
    if s != [] {
      var t := "0" + s;
      assert t[..|t| - 1] == "0" + s[..|s| - 1];
      ValueLeadingZero(s[..|s| - 1]);
    }
  }

  /** Left-padding with "0" to at least two characters, as `padStart(2, "0")`. */
  function Pad2(s: string): (r: string)
    ensures |r| == if |s| < 2 then 2 else |s|
    ensures r[|r| - |s|..] == s
    ensures forall i :: 0 <= i < |r| - |s| ==> r[i] == '0'
  {
    if |s| == 0 then "00" else if |s| == 1 then "0" + s else s
  }

  /** Padding a number's digits keeps them digits and keeps their value. */
  lemma ValueOfPad2(s: string)
    requires AllDigits(s)
    ensures AllDigits(Pad2(s)) && Value(Pad2(s)) == Value(s)
  {
    if |s| == 1 {
      assert Pad2(s) == "0" + s;
      ValueLeadingZero(s);
    } else if |s| == 0 {
      assert Pad2(s) == "0" + "0";
      ValueLeadingZero("0");
      ValueLeadingZero("");
    }
  }

  /** Division by 60 is determined by quotient and remainder. */
  lemma DivMod60(q: nat, r: nat)
    requires r < 60
    ensures (q * 60 + r) / 60 == q && (q * 60 + r) % 60 == r
  {
  }

  /** Division by 3600 is determined by quotient and remainder. */
  lemma DivMod3600(q: nat, r: nat)
    requires r < 3600
    ensures (q * 3600 + r) / 3600 == q && (q * 3600 + r) % 3600 == r
  {
  }

  /** The hours, minutes and seconds of `seconds`: whole hours, then the
      whole minutes of what is left, then the seconds within the minute. */
  function Fields(seconds: nat): (f: (nat, nat, nat))
    ensures f.1 < 60 && f.2 < 60
    ensures f.0 * 3600 + f.1 * 60 + f.2 == seconds
  {
    var h := seconds / 3600;
    var rest := seconds % 3600;
    FieldsArith(seconds);
    (h, rest / 60, seconds % 60)
  }

  lemma FieldsArith(seconds: nat)
    ensures (seconds % 3600) % 60 == seconds % 60
    ensures (seconds / 3600) * 3600 + ((seconds % 3600) / 60) * 60 + seconds % 60 == seconds
  {
    var h, rest := seconds / 3600, seconds % 3600;
    var m, s := rest / 60, rest % 60;
    assert seconds == (h * 60 + m) * 60 + s;
    DivMod60(h * 60 + m, s);
  }

  /** The decomposition is the only one with minutes and seconds below 60. */
  lemma FieldsUnique(h: nat, m: nat, s: nat)
    requires m < 60 && s < 60
    ensures Fields(h * 3600 + m * 60 + s) == (h, m, s)
  {
    var f := Fields(h * 3600 + m * 60 + s);
    DivMod3600(h, m * 60 + s);
    DivMod60(m, s);
    assert f.0 == h;
  }

  /** One field of the display: the decimal text of `n`, padded to two
      digits. */
  function Field(n: nat): (r: string)
    ensures AllDigits(r)
    ensures |r| >= 2 && (|r| == 2) == (n < 100)
  {
    Pad2(Show(n))
  }

  /** A field still denotes its number. */
  lemma ValueOfField(n: nat)
    ensures Value(Field(n)) == n
  {
    ValueOfShow(n);
    ValueOfPad2(Show(n));
  }

  /** Two fields joined by a ':'. */
  function Join(a: string, b: string): (r: string)
    requires |b| == 2
    ensures |r| == |a| + 3 && r[|r| - 3] == ':'
    ensures r[..|r| - 3] == a && r[|r| - 2..] == b
  {
    a + ":" + b
  }

  /** Three fields joined by ':'; where the fields and both separators sit. */
  function Join3(a: string, b: string, c: string): (t: string)
    requires |b| == 2 && |c| == 2
    ensures |t| == |a| + 6 && t[|t| - 3] == ':' && t[|t| - 6] == ':'
    ensures t[..|t| - 6] == a && t[|t| - 5..|t| - 3] == b && t[|t| - 2..] == c
  {
    var ab := Join(a, b);
    var t := Join(ab, c);
    assert t[..|t| - 3] == ab;
    assert t[..|t| - 6] == ab[..|ab| - 3];
    assert t[|t| - 5..|t| - 3] == ab[|ab| - 2..];
    t
  }

  /** The display of hours `h`, minutes `m` and seconds `s`: each field's
      decimal text padded to two digits, joined with ':'. */
  function Display(h: nat, m: nat, s: nat): (t: string)
    requires m < 60 && s < 60
    ensures |t| >= 8 && t[|t| - 3] == ':' && t[|t| - 6] == ':'
    ensures (|t| == 8) == (h < 100)
  {
    Join3(Field(h), Field(m), Field(s))
  }

  /** The clock display of `seconds`. Hours beyond 99 are shown in full, so
      the display is eight characters long exactly below 100 hours. */
  function FormatTime(seconds: nat): (t: string)
    ensures |t| >= 8 && t[|t| - 3] == ':' && t[|t| - 6] == ':'
    ensures (|t| == 8) == (seconds < 360000)
  {
    var f := Fields(seconds);
    DisplayShape(seconds, f.0, f.1, f.2);
    Display(f.0, f.1, f.2)
  }

  /** The shape of the display of a split of `seconds`. */
  lemma DisplayShape(seconds: nat, h: nat, m: nat, s: nat)
    requires m < 60 && s < 60 && h * 3600 + m * 60 + s == seconds
    ensures var t := Display(h, m, s);
      |t| >= 8 && t[|t| - 3] == ':' && t[|t| - 6] == ':' &&
      (|t| == 8) == (seconds < 360000)
  {
  }

  /** The display of `seconds` joins, with ':', the padded fields of its one
      split into hours, minutes below 60 and seconds below 60; `Join3` says
      where each field then sits. */
  lemma FormatTimeOfSplit(seconds: nat, h: nat, m: nat, s: nat)
    requires m < 60 && s < 60 && h * 3600 + m * 60 + s == seconds
    ensures FormatTime(seconds) == Join3(Field(h), Field(m), Field(s))
  {
    assert Fields(seconds) == (h, m, s) by {
      FieldsUnique(h, m, s);
    }
    assert FormatTime(seconds) == Display(h, m, s);
  }

  /** Reads a display of the form hours ':' mm ':' ss back into seconds; the
      hours part may be longer than two digits. */
  function ParseTime(t: string): Option<nat> {
    if |t| < 8 || t[|t| - 3] != ':' || t[|t| - 6] != ':' then None
    else ParseFields(t[..|t| - 6], t[|t| - 5..|t| - 3], t[|t| - 2..])
  }

  /** The seconds that hours `hh`, minutes `mm` and seconds `ss` stand for,
      when all three are digits and minutes and seconds are below 60. */
  function ParseFields(hh: string, mm: string, ss: string): Option<nat> {
    if AllDigits(hh) && AllDigits(mm) && AllDigits(ss) && Value(mm) < 60 && Value(ss) < 60
    then Some(Value(hh) * 3600 + Value(mm) * 60 + Value(ss))
    else None
  }

  /** Reading back three joined digit fields gives the seconds they stand for. */
  lemma ParseJoined(hh: string, mm: string, ss: string, h: nat, m: nat, s: nat)
    requires |hh| >= 2 && |mm| == 2 && |ss| == 2
    requires AllDigits(hh) && AllDigits(mm) && AllDigits(ss)
    requires Value(hh) == h && Value(mm) == m && Value(ss) == s
    requires m < 60 && s < 60
    ensures ParseTime(Join3(hh, mm, ss)) == Some(h * 3600 + m * 60 + s)
  {
    assert ParseTime(Join3(hh, mm, ss)) == ParseFields(hh, mm, ss);
  }

  /** Reading a display back gives the number of seconds its fields stand for. */
  lemma ParseDisplay(h: nat, m: nat, s: nat)
    requires m < 60 && s < 60
    ensures ParseTime(Display(h, m, s)) == Some(h * 3600 + m * 60 + s)
  {
    ValueOfField(h);
    ValueOfField(m);
    ValueOfField(s);
    ParseJoined(Field(h), Field(m), Field(s), h, m, s);
  }

  /** The display loses nothing: reading it back gives the elapsed seconds. */
  lemma ParseFormatRoundTrip(seconds: nat)
    ensures ParseTime(FormatTime(seconds)) == Some(seconds)
  {
    var f := Fields(seconds);
    var h, m, s := f.0, f.1, f.2;
    assert m < 60 && s < 60 && h * 3600 + m * 60 + s == seconds;
    assert ParseTime(Display(h, m, s)) == Some(h * 3600 + m * 60 + s) by {
      ParseDisplay(h, m, s);
    }
  }

  /** Different elapsed times never share a display. */
  lemma FormatTimeInjective(a: nat, b: nat)
    requires FormatTime(a) == FormatTime(b)
    ensures a == b
  {
    ParseFormatRoundTrip(a);
    ParseFormatRoundTrip(b);
  }

  /** Minutes or seconds of 60 or more are not a display. */
  lemma ParseTimeRejectsOutOfRange()
    ensures ParseTime("00:00:99") == None
    ensures ParseTime("00:60:00") == None
  {
    var a, b := "00:00:99", "00:60:00";
    assert a[|a| - 2..] == "99" && Value("99") == 99;
    assert b[|b| - 5..|b| - 3] == "60" && Value("60") == 60;
  }

  /** The display the scorer shows before the clock has run. */
  lemma FormatTimeZero()
    ensures FormatTime(0) == "00:00:00"
  {
    FieldsUnique(0, 0, 0);
    assert Field(0) == "00";
  }

  /** One hour, one minute and one second. */
  lemma FormatTimeOneOfEach()
    ensures FormatTime(3661) == "01:01:01"
  {
    FieldsUnique(1, 1, 1);
    assert Field(1) == "01";
  }

  /** A hundredth hour is shown in full rather than cut to two digits. */
  lemma FormatTimeHundredHours()
    ensures FormatTime(360000) == "100:00:00"
  {
    FieldsUnique(100, 0, 0);
    assert Show(10) == "10";
    assert Show(100) == "100";
    assert Field(100) == "100";
    assert Field(0) == "00";
    assert Display(100, 0, 0) == "100:00:00";
  }
}
