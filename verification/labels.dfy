/** Elapsed-time strings (support/labels.py): splitting the text of a Python
    `timedelta` into days, hours, minutes and seconds, and rewriting it as
    `HH:MM:SS` with the days folded into the hours. */
module Labels {
  import opened Results
  import opened Text
  import opened Numbers

  /** `round(float(s))` for a seconds field. */
  function Seconds(s: string): Result<int> {
    match ToFloat(s)
    case Some(x) => Ok(RoundHalfEven(x))
    case None => Err(RuntimeValueError)
  }

  /** `h, m, s = hms.split(':')` followed by `int(h), int(m), round(float(s))`:
      the seconds are rounded half to even on their own, so `59.6` becomes
      `60` with nothing carried into the minutes. */
  function ParseHms(hms: string): (r: Result<(int, int, int)>)
    ensures var f := Split(hms, ':');
      (r.Ok? <==> |f| == 3 && IsIntToken(f[0]) && IsIntToken(f[1]) && IsFloatToken(f[2])) &&
      (r.Err? ==> r.error == RuntimeValueError) &&
      (r.Ok? ==> r.value == (ToInt(f[0]).value, ToInt(f[1]).value, RoundHalfEven(ToFloat(f[2]).value)))
  {
    var f := Split(hms, ':');
    if |f| != 3 then Err(RuntimeValueError)
    else
      var h :- ParseInt(f[0]);
      var m :- ParseInt(f[1]);
      var s :- Seconds(f[2]);
      Ok((h, m, s))
  }

  /** The day count as `split_dhms` reads it: `int(d[0])`, the first
      character only (an empty field raises `IndexError`). */
  function DaysAsWritten(d: string): (r: Result<int>)
    ensures |d| == 0 ==> r == Err(IndexError)
    ensures |d| > 0 && IsDigit(d[0]) ==> r == Ok(DigitValue(d[0]))
    ensures |d| > 0 && !IsDigit(d[0]) ==> r == Err(RuntimeValueError)
  {
    if |d| == 0 then Err(IndexError)
    else
      SingleDigit(d[0]);
      ParseInt([d[0]])
  }

  /** A one-character token reads as its digit, or fails. */
  lemma SingleDigit(c: char)
    ensures IsDigit(c) ==> ToInt([c]) == Some(DigitValue(c))
    ensures ToInt([c]).Some? ==> IsDigit(c)
  {
    assert [c][..0] == [];
    if IsDigit(c) {
      assert AllDigits([c]);
      DigitsHaveNoSpace([c]);
      assert DigitsValue([c]) == DigitValue(c);
    } else {
      assert LStrip([c]) == [] || LStrip([c]) == [c];
    }
  }

  /** The day count as intended: the integer before the first blank,
      `int(d.split(' ')[0])`. */
  function Days(d: string): Result<int> {
    ParseInt(Split(d, ' ')[0])
  }

  /** `split_dhms(time)` with the day field read by `days`. A string holding
      `"day"` must have exactly one comma and three colon fields after it,
      and gives the day count and the clock after the comma. Any other
      string must be a clock on its own, and the day count is 0. Unpacking
      errors come before conversion errors. */
  function SplitDhmsWith(time: string, days: string -> Result<int>): (r: Result<(int, int, int, int)>)
    ensures Contains(time, "day") ==>
      var parts := Split(time, ',');
      (r.Ok? <==> |parts| == 2 && |Split(parts[1], ':')| == 3 && days(parts[0]).Ok? && ParseHms(parts[1]).Ok?) &&
      ((|parts| != 2 || |Split(parts[1], ':')| != 3) ==> r == Err(RuntimeValueError)) &&
      (r.Ok? ==> Count(time, ',') == 1) &&
      (r.Ok? ==> r.value.0 == days(parts[0]).value) &&
      (r.Ok? ==> (r.value.1, r.value.2, r.value.3) == ParseHms(parts[1]).value)
    ensures !Contains(time, "day") ==>
      (r.Ok? <==> ParseHms(time).Ok?) &&
      (r.Err? ==> r.error == RuntimeValueError) &&
      (r.Ok? ==> r.value.0 == 0 && (r.value.1, r.value.2, r.value.3) == ParseHms(time).value)
  {
    if Contains(time, "day") then
      var parts := Split(time, ',');
      SplitCount(time, ',');
      if |parts| != 2 then Err(RuntimeValueError)
      else if |Split(parts[1], ':')| != 3 then Err(RuntimeValueError)
      else
        var d :- days(parts[0]);
        var hms :- ParseHms(parts[1]);
        Ok((d, hms.0, hms.1, hms.2))
    else
      var hms :- ParseHms(time);
      Ok((0, hms.0, hms.1, hms.2))
  }

  /** `split_dhms(time)` as written. */
  function SplitDhmsAsWritten(time: string): (r: Result<(int, int, int, int)>)
    ensures Contains(time, "day") && r.Ok? ==> 0 <= r.value.0 <= 9
  {
    var r := SplitDhmsWith(time, DaysAsWritten);
    if Contains(time, "day") && r.Ok? then
      var parts := Split(time, ',');
      assert DaysAsWritten(parts[0]).Ok?;
      SingleDigit(parts[0][0]);
      r
    else r
  }

  /** `split_dhms(time)` with the day count read in full. */
  function SplitDhms(time: string): Result<(int, int, int, int)> {
    SplitDhmsWith(time, Days)
  }

  /** `format_elapsed_time(time)` as written: `HH:MM:SS` from `split_dhms`
      as written, with `24 * days` added to the hours, each field
      zero-padded to at least two characters. */
  function FormatElapsedTime(time: string): (r: Result<string>)
    ensures r.Ok? <==> SplitDhmsAsWritten(time).Ok?
  {
    var dhms :- SplitDhmsAsWritten(time);
    Ok(ElapsedText(dhms.0, dhms.1, dhms.2, dhms.3))
  }

  /** `format_elapsed_time(time)` over the corrected day count. */
  function FormatElapsedTimeCorrected(time: string): (r: Result<string>)
    ensures r.Ok? <==> SplitDhms(time).Ok?
  {
    var dhms :- SplitDhms(time);
    Ok(ElapsedText(dhms.0, dhms.1, dhms.2, dhms.3))
  }

  /** The `HH:MM:SS` text of a day/hour/minute/second count. */
  function ElapsedText(d: int, h: int, m: int, s: int): string {
    Pad2(h + 24 * d) + ":" + Pad2(m) + ":" + Pad2(s)
  }

  // ---------------------------------------------------------------------
  // The text of a timedelta

  /** `str(timedelta)` for a non-negative whole number of seconds:
      `H:MM:SS`, preceded by `"<d> day, "` or `"<d> days, "` when there are
      whole days. */
  function HmsText(h: nat, m: nat, s: nat): string
    requires h < 24 && m < 60 && s < 60
  {
    NatToString(h) + ":" + Pad2(m) + ":" + Pad2(s)
  }

  function DayWord(d: nat): string {
    if d == 1 then " day" else " days"
  }

  function DeltaText(d: nat, h: nat, m: nat, s: nat): string
    requires h < 24 && m < 60 && s < 60
  {
    if d == 0 then HmsText(h, m, s)
    else NatToString(d) + DayWord(d) + ", " + HmsText(h, m, s)
  }

  lemma ContainsAt(s: string, sub: string, k: nat)
    requires k + |sub| <= |s| && s[k..k + |sub|] == sub
    ensures Contains(s, sub)
    decreases k
  {
    if k > 0 {
      assert s[1..][k - 1..k - 1 + |sub|] == sub;
      ContainsAt(s[1..], sub, k - 1);
    }
  }

  /** The characters a clock text is made of. */
  predicate ClockChars(t: string) {
    forall i :: 0 <= i < |t| ==> IsDigit(t[i]) || t[i] == ':' || t[i] == ' '
  }

  /** Clock text holds no comma and does not contain `"day"`. */
  lemma {:induction false} NoDayInClock(t: string)
    requires ClockChars(t)
    ensures !Contains(t, "day") && ',' !in t
  {
    if |t| > 0 {
      NoDayInClock(t[1..]);
      assert !StartsWith(t, "day") by {
        if |t| >= 3 { assert t[..3][0] == t[0]; }
      }
    }
  }

  /** `" " + digits` and `digits` both read as the same integer. */
  lemma LeadingBlank(lead: string, t: string)
    requires lead == "" || lead == " "
    requires AllDigits(t)
    ensures Strip(lead + t) == t && ':' !in lead + t
  {
    DigitsHaveNoSpace(t);
    if lead == " " {
      assert (lead + t)[1..] == t;
      assert LStrip(lead + t) == LStrip(t);
    } else {
      assert lead + t == t;
    }
    NotInConcat(lead, t, ':');
  }

  /** Three colon-free fields that read as `h`, `m` and `s` parse as such. */
  lemma ParseHmsOf(x: string, y: string, z: string, h: int, m: int, sec: real)
    requires ':' !in x && ':' !in y && ':' !in z
    requires ToInt(x) == Some(h) && ToInt(y) == Some(m) && ToFloat(z) == Some(sec)
    ensures ParseHms(x + [':'] + y + [':'] + z) == Ok((h, m, RoundHalfEven(sec)))
  {
    Split3(x, y, z, ':');
  }

  /** A whole number of seconds is kept by `round`. */
  lemma RoundWhole(n: int)
    ensures RoundHalfEven(n as real) == n
  {
    assert (n as real).Floor == n;
  }

  /** Fields of clock characters, joined by colons, are clock text. */
  lemma ClockJoin(x: string, y: string, z: string)
    requires ClockChars(x) && AllDigits(y) && AllDigits(z)
    ensures ClockChars(x + [':'] + y + [':'] + z)
  {
  }

  /** The clock part of a timedelta text, with or without the blank left
      after the comma, splits into its three fields and parses back. */
  lemma HmsRoundTrip(lead: string, h: nat, m: nat, s: nat)
    requires lead == "" || lead == " "
    requires h < 24 && m < 60 && s < 60
    ensures ParseHms(lead + HmsText(h, m, s)) == Ok((h, m, s))
    ensures ClockChars(lead + HmsText(h, m, s))
  {
    HmsFieldsParse(lead, h, m, s);
    HmsClockChars(lead, h, m, s);
  }

  /** The three fields of a clock text read back as its hours, minutes and
      seconds. */
  lemma HmsFieldsParse(lead: string, h: nat, m: nat, s: nat)
    requires lead == "" || lead == " "
    requires h < 24 && m < 60 && s < 60
    ensures ParseHms(lead + HmsText(h, m, s)) == Ok((h, m, s))
  {
    var hh, y, z := NatToString(h), Pad2(m), Pad2(s);
    ColonJoin(lead, hh, y, z);
    assert ToInt(lead + hh) == Some(h) by {
      LeadingBlank(lead, hh);
      IntToStringRoundTrip(h);
    }
    Pad2TwoDigits(m);
    Pad2TwoDigits(s);
    DigitsHaveNoSpace(y);
    DigitsHaveNoSpace(z);
    ParseHmsOf(lead + hh, y, z, h, m, s as real);
    RoundWhole(s);
  }

  /** A clock text after a lead, regrouped around its colons. */
  lemma ColonJoin(lead: string, x: string, y: string, z: string)
    ensures lead + (x + ":" + y + ":" + z) == (lead + x) + [':'] + y + [':'] + z
  {
  }

  /** A clock text, with or without a leading blank, is made of clock
      characters. */
  lemma HmsClockChars(lead: string, h: nat, m: nat, s: nat)
    requires lead == "" || lead == " "
    requires h < 24 && m < 60 && s < 60
    ensures ClockChars(lead + HmsText(h, m, s))
  {
    var x, y, z := lead + NatToString(h), Pad2(m), Pad2(s);
    ColonJoin(lead, NatToString(h), y, z);
    Pad2TwoDigits(m);
    Pad2TwoDigits(s);
    ClockLead(lead, NatToString(h));
    ClockJoin(x, y, z);
  }

  /** Digits after an optional blank are clock text. */
  lemma ClockLead(lead: string, t: string)
    requires lead == "" || lead == " "
    requires AllDigits(t)
    ensures ClockChars(lead + t)
  {
  }

  /** The day part of a timedelta text and what each reading makes of it. */
  lemma DayFieldRead(d: nat)
    requires d >= 1
    ensures ',' !in NatToString(d) + DayWord(d)
    ensures Days(NatToString(d) + DayWord(d)) == Ok(d)
    ensures DaysAsWritten(NatToString(d) + DayWord(d)) == Ok(DigitValue(NatToString(d)[0]))
  {
    var n := NatToString(d);
    IntToStringRoundTrip(d);
    assert ',' !in DayWord(d) && DayWord(d)[0] == ' ';
    DigitsBeforeWord(n, DayWord(d));
  }

  /** Digits followed by a blank-led word without commas: the digits are
      the first blank-separated field, and there is no comma. */
  lemma DigitsBeforeWord(n: string, word: string)
    requires |n| > 0 && AllDigits(n) && |word| > 0 && word[0] == ' ' && ',' !in word
    ensures ',' !in n + word
    ensures Split(n + word, ' ')[0] == n
  {
    assert forall i :: 0 <= i < |n| ==> n[i] != ' ' && n[i] != ',';
    assert n + word == n + [' '] + word[1..];
    SplitPrefix(n, word[1..], ' ');
    NotInConcat(n, word, ',');
  }

  /** A text with a day word after its leading field contains `"day"`. */
  lemma DayWordFound(n: string, w: string, hms: string)
    requires |w| >= 4 && w[1..4] == "day"
    ensures Contains(n + w + ", " + hms, "day")
  {
    var text := n + w + ", " + hms;
    var k := |n| + 1;
    assert text[k..k + 3] == w[1..4];
    ContainsAt(text, "day", k);
  }

  /** A day field and a clock, joined by `", "`, split at the comma. */
  lemma DaysSplitOf(field: string, hms: string)
    requires ',' !in field && ClockChars(" " + hms)
    ensures Split(field + ", " + hms, ',') == [field, " " + hms]
  {
    NoDayInClock(" " + hms);
    assert field + ", " + hms == field + [','] + (" " + hms);
    Split2(field, " " + hms, ',');
  }

  /** The comma split of a timedelta text with days. */
  lemma DaysSplit(d: nat, h: nat, m: nat, s: nat)
    requires d >= 1 && h < 24 && m < 60 && s < 60
    ensures Contains(DeltaText(d, h, m, s), "day")
    ensures Split(DeltaText(d, h, m, s), ',') == [NatToString(d) + DayWord(d), " " + HmsText(h, m, s)]
  {
    DaysSplitComma(d, h, m, s);
    DeltaHasDay(d, h, m, s);
  }

  /** A timedelta text with whole days names them. */
  lemma DeltaHasDay(d: nat, h: nat, m: nat, s: nat)
    requires d >= 1 && h < 24 && m < 60 && s < 60
    ensures Contains(DeltaText(d, h, m, s), "day")
  {
    DayWordNamesDays(d);
    DayWordFound(NatToString(d), DayWord(d), HmsText(h, m, s));
  }

  /** `" day"` and `" days"` both hold `"day"` after the blank. */
  lemma DayWordNamesDays(d: nat)
    ensures |DayWord(d)| >= 4 && DayWord(d)[1..4] == "day"
  {
  }

  lemma DaysSplitComma(d: nat, h: nat, m: nat, s: nat)
    requires d >= 1 && h < 24 && m < 60 && s < 60
    ensures Split(DeltaText(d, h, m, s), ',') == [NatToString(d) + DayWord(d), " " + HmsText(h, m, s)]
  {
    DayFieldRead(d);
    HmsRoundTrip(" ", h, m, s);
    DaysSplitOf(NatToString(d) + DayWord(d), HmsText(h, m, s));
  }

  /** Reading the text of a timedelta with the day count in full gives back
      the days, hours, minutes and seconds. */
  lemma SplitDhmsRoundTrip(d: nat, h: nat, m: nat, s: nat)
    requires h < 24 && m < 60 && s < 60
    ensures SplitDhms(DeltaText(d, h, m, s)) == Ok((d, h, m, s))
  {
    if d == 0 {
      ClockRoundTrip(h, m, s);
    } else {
      DaysRoundTrip(d, h, m, s);
    }
  }

  /** A timedelta text without days splits back into its clock, under
      either reading of the day count. */
  lemma ClockRoundTrip(h: nat, m: nat, s: nat)
    requires h < 24 && m < 60 && s < 60
    ensures SplitDhms(HmsText(h, m, s)) == Ok((0, h, m, s))
    ensures SplitDhmsAsWritten(HmsText(h, m, s)) == Ok((0, h, m, s))
  {
    HmsRoundTrip("", h, m, s);
    assert "" + HmsText(h, m, s) == HmsText(h, m, s);
    NoDayInClock(HmsText(h, m, s));
  }

  /** A timedelta text with days splits back into its days and clock. */
  lemma DaysRoundTrip(d: nat, h: nat, m: nat, s: nat)
    requires d >= 1 && h < 24 && m < 60 && s < 60
    ensures SplitDhms(DeltaText(d, h, m, s)) == Ok((d, h, m, s))
  {
    DaysSplit(d, h, m, s);
    DayFieldRead(d);
    HmsRoundTrip(" ", h, m, s);
  }

  /** The day count `split_dhms` as written reports for a timedelta of `d`
      whole days: the first digit of `str(d)`. It is `d` itself only below
      ten. */
  function DaysRead(d: nat): (r: nat)
    ensures r <= 9
    ensures d < 10 ==> r == d
    ensures d >= 10 ==> r < d
  {
    if d == 0 then 0 else DigitValue(NatToString(d)[0])
  }

  /** As written, the day count of a timedelta text is its first digit. */
  lemma SplitDhmsAsWrittenReadsFirstDigit(d: nat, h: nat, m: nat, s: nat)
    requires h < 24 && m < 60 && s < 60
    ensures SplitDhmsAsWritten(DeltaText(d, h, m, s)) == Ok((DaysRead(d), h, m, s))
  {
    if d == 0 {
      ClockRoundTrip(h, m, s);
    } else {
      DaysSplit(d, h, m, s);
      DayFieldRead(d);
      HmsRoundTrip(" ", h, m, s);
    }
  }

  /** Ten days of elapsed time are read as one day by `split_dhms` as
      written, but as ten days by the corrected reading. */
  lemma TenDaysMisread()
    ensures SplitDhmsAsWritten(DeltaText(10, 1, 0, 0)) == Ok((1, 1, 0, 0))
    ensures SplitDhms(DeltaText(10, 1, 0, 0)) == Ok((10, 1, 0, 0))
  {
    assert NatToString(1) == "1";
    assert NatToString(10) == NatToString(1) + "0";
    SplitDhmsAsWrittenReadsFirstDigit(10, 1, 0, 0);
    SplitDhmsRoundTrip(10, 1, 0, 0);
  }

  /** Every elapsed time of 10 to 19 days is formatted as written with a
      single day's 24 hours, where the corrected text counts them all: the
      two texts differ. */
  lemma TeenDaysMisformatted(d: nat, h: nat, m: nat, s: nat)
    requires 10 <= d < 20 && h < 24 && m < 60 && s < 60
    ensures FormatElapsedTime(DeltaText(d, h, m, s)) == Ok(ElapsedText(1, h, m, s))
    ensures FormatElapsedTimeCorrected(DeltaText(d, h, m, s)) == Ok(ElapsedText(d, h, m, s))
    ensures ElapsedText(1, h, m, s) != ElapsedText(d, h, m, s)
  {
    TeenDaysRead(d);
    FormatElapsedTimeAsWritten(d, h, m, s);
    FormatElapsedTimeCorrectedRoundTrip(d, h, m, s);
    ElapsedTextFields(1, h, m, s);
  }

  /** `str(d)` of 10 to 19 starts with `1`. */
  lemma TeenDaysRead(d: nat)
    requires 10 <= d < 20
    ensures DaysRead(d) == 1
  {
    assert NatToString(d) == NatToString(d / 10) + [DigitChar(d % 10)];
    assert NatToString(d / 10) == [DigitChar(1)];
  }

  /** The `HH:MM:SS` text has three colon fields of at least two
      characters that read back as the hours plus 24 per day, the minutes
      and the seconds. */
  lemma ElapsedTextFields(d: int, h: int, m: int, s: int)
    ensures var f := Split(ElapsedText(d, h, m, s), ':');
      |f| == 3 && ToInt(f[0]) == Some(h + 24 * d) && ToInt(f[1]) == Some(m) &&
      ToInt(f[2]) == Some(s) && |f[0]| >= 2 && |f[1]| >= 2 && |f[2]| >= 2
  {
    var hh := Pad2(h + 24 * d);
    var mm := Pad2(m);
    var ss := Pad2(s);
    Pad2RoundTrip(h + 24 * d);
    Pad2RoundTrip(m);
    Pad2RoundTrip(s);
    assert ElapsedText(d, h, m, s) == hh + [':'] + mm + [':'] + ss;
    Split3(hh, mm, ss, ':');
  }

  /** `format_elapsed_time` as written, for the text of any timedelta:
      the hours field is the hours plus 24 per day as `split_dhms` reads
      the days, so the elapsed time is kept exactly below ten days. */
  lemma FormatElapsedTimeAsWritten(d: nat, h: nat, m: nat, s: nat)
    requires h < 24 && m < 60 && s < 60
    ensures FormatElapsedTime(DeltaText(d, h, m, s)) == Ok(ElapsedText(DaysRead(d), h, m, s))
    ensures d < 10 ==> FormatElapsedTime(DeltaText(d, h, m, s)) == Ok(ElapsedText(d, h, m, s))
  {
    SplitDhmsAsWrittenReadsFirstDigit(d, h, m, s);
  }

  /** The corrected `format_elapsed_time` of a timedelta text names the
      same elapsed time, with the whole days counted as 24 hours each. */
  lemma FormatElapsedTimeCorrectedRoundTrip(d: nat, h: nat, m: nat, s: nat)
    requires h < 24 && m < 60 && s < 60
    ensures FormatElapsedTimeCorrected(DeltaText(d, h, m, s)) == Ok(ElapsedText(d, h, m, s))
    ensures var f := Split(ElapsedText(d, h, m, s), ':');
      |f| == 3 && ToInt(f[0]) == Some(24 * d + h) && ToInt(f[1]) == Some(m) && ToInt(f[2]) == Some(s)
  {
    SplitDhmsRoundTrip(d, h, m, s);
    ElapsedTextFields(d, h, m, s);
  }

  /** `str(timedelta)` with microseconds: the clock, a point and the
      fraction's digits. */
  function FractionalHmsText(h: nat, m: nat, s: nat, frac: string): string
    requires h < 24 && m < 60 && s < 60
  {
    HmsText(h, m, s) + "." + frac
  }

  /** The seconds a fractional clock text stands for. */
  function SecondsValue(s: nat, frac: string): real
    requires AllDigits(frac)
  {
    s as real + DigitsValue(frac) as real / Pow10(|frac|) as real
  }

  /** A clock text with a fractional seconds field splits, under either
      reading, into zero days, its hours and minutes and its seconds
      rounded half to even; the rounding is done on the seconds alone. */
  lemma FractionalClockRoundTrip(h: nat, m: nat, s: nat, frac: string)
    requires h < 24 && m < 60 && s < 60 && |frac| > 0 && AllDigits(frac)
    ensures SplitDhmsAsWritten(FractionalHmsText(h, m, s, frac)) == Ok((0, h, m, RoundHalfEven(SecondsValue(s, frac))))
    ensures SplitDhms(FractionalHmsText(h, m, s, frac)) == Ok((0, h, m, RoundHalfEven(SecondsValue(s, frac))))
  {
    FractionalClockParse(h, m, s, frac);
  }

  /** The three fields of a fractional clock text, and its lack of days. */
  lemma FractionalClockParse(h: nat, m: nat, s: nat, frac: string)
    requires h < 24 && m < 60 && s < 60 && |frac| > 0 && AllDigits(frac)
    ensures ParseHms(FractionalHmsText(h, m, s, frac)) == Ok((h, m, RoundHalfEven(SecondsValue(s, frac))))
    ensures !Contains(FractionalHmsText(h, m, s, frac), "day")
  {
    FractionalClockFields(h, m, s, frac);
    FractionalClockNoDay(h, m, s, frac);
  }

  lemma FractionalClockFields(h: nat, m: nat, s: nat, frac: string)
    requires h < 24 && m < 60 && s < 60 && |frac| > 0 && AllDigits(frac)
    ensures ParseHms(FractionalHmsText(h, m, s, frac)) == Ok((h, m, RoundHalfEven(SecondsValue(s, frac))))
  {
    var hh, mm, z := NatToString(h), Pad2(m), Pad2(s) + "." + frac;
    Pad2TwoDigits(m);
    SecondsToken(s, frac);
    IntToStringRoundTrip(h);
    assert FractionalHmsText(h, m, s, frac) == hh + [':'] + mm + [':'] + z;
    ParseHmsOf(hh, mm, z, h, m, SecondsValue(s, frac));
  }

  lemma FractionalClockNoDay(h: nat, m: nat, s: nat, frac: string)
    requires h < 24 && m < 60 && s < 60 && |frac| > 0 && AllDigits(frac)
    ensures !Contains(FractionalHmsText(h, m, s, frac), "day")
  {
    var hh, mm, ss := NatToString(h), Pad2(m), Pad2(s);
    Pad2TwoDigits(m);
    Pad2TwoDigits(s);
    assert FractionalHmsText(h, m, s, frac) == hh + [':'] + mm + [':'] + (ss + "." + frac);
    FractionalHasNoD(hh, mm, ss, frac);
    NoDayWithoutD(hh + [':'] + mm + [':'] + (ss + "." + frac));
  }

  /** The seconds field `<ss>.<frac>` reads as its seconds value and holds
      no colon. */
  lemma SecondsToken(s: nat, frac: string)
    requires s < 60 && |frac| > 0 && AllDigits(frac)
    ensures ToFloat(Pad2(s) + "." + frac) == Some(SecondsValue(s, frac))
    ensures ':' !in Pad2(s) + "." + frac && AllDigits(Pad2(s))
  {
    var ss := Pad2(s);
    Pad2TwoDigits(s);
    DigitsHaveNoSpace(ss);
    DigitsHaveNoSpace(frac);
    DecimalToken(ss, frac);
    assert DigitsValue(ss) == s;
    NotInConcat(ss, ".", ':');
    NotInConcat(ss + ".", frac, ':');
  }

  /** Digits, colons and a point hold no `d`. */
  lemma FractionalHasNoD(hh: string, mm: string, ss: string, frac: string)
    requires AllDigits(hh) && AllDigits(mm) && AllDigits(ss) && AllDigits(frac)
    ensures 'd' !in hh + [':'] + mm + [':'] + (ss + "." + frac)
  {
    var t := hh + [':'] + mm + [':'] + (ss + "." + frac);
    forall i | 0 <= i < |t| ensures t[i] != 'd' {
      if i < |hh| { assert t[i] == hh[i]; }
      else if i == |hh| { }
      else if i < |hh| + 1 + |mm| { assert t[i] == mm[i - |hh| - 1]; }
      else if i == |hh| + 1 + |mm| { }
      else if i < |hh| + 2 + |mm| + |ss| { assert t[i] == ss[i - |hh| - 2 - |mm|]; }
      else if i == |hh| + 2 + |mm| + |ss| { }
      else { assert t[i] == frac[i - |hh| - 3 - |mm| - |ss|]; }
    }
  }

  /** A fraction of more than half a second rounds the seconds up, even
      from 59 to 60: nothing is carried into the minutes. */
  lemma FractionRoundsUpWithoutCarry(h: nat, m: nat, s: nat, frac: string)
    requires h < 24 && m < 60 && s < 60 && |frac| > 0 && AllDigits(frac)
    requires DigitsValue(frac) as real / Pow10(|frac|) as real > 1.0 / 2.0
    ensures SplitDhmsAsWritten(FractionalHmsText(h, m, s, frac)) == Ok((0, h, m, s + 1))
  {
    var f := DigitsValue(frac) as real / Pow10(|frac|) as real;
    FractionBelowOne(frac);
    RoundsUp(s, f);
    assert RoundHalfEven(SecondsValue(s, frac)) == s + 1;
    FractionalClockRoundTrip(h, m, s, frac);
  }

  /** Exactly half a second rounds to the even neighbour. */
  lemma HalfSecondRoundsToEven(h: nat, m: nat, s: nat, frac: string)
    requires h < 24 && m < 60 && s < 60 && |frac| > 0 && AllDigits(frac)
    requires DigitsValue(frac) as real / Pow10(|frac|) as real == 1.0 / 2.0
    ensures SplitDhmsAsWritten(FractionalHmsText(h, m, s, frac)) == Ok((0, h, m, if s % 2 == 0 then s else s + 1))
  {
    RoundsHalf(s);
    assert RoundHalfEven(SecondsValue(s, frac)) == if s % 2 == 0 then s else s + 1;
    FractionalClockRoundTrip(h, m, s, frac);
  }

  /** `round(s + f)` for a fraction `f` strictly between one half and one. */
  lemma RoundsUp(s: nat, f: real)
    requires 1.0 / 2.0 < f < 1.0
    ensures RoundHalfEven(s as real + f) == s + 1
  {
    assert (s as real + f).Floor == s;
  }

  /** `round(s + 0.5)` goes to the even neighbour. */
  lemma RoundsHalf(s: nat)
    ensures RoundHalfEven(s as real + 1.0 / 2.0) == if s % 2 == 0 then s else s + 1
  {
    assert (s as real + 1.0 / 2.0).Floor == s;
  }

  /** Digits after the point stand for less than one. */
  lemma FractionBelowOne(frac: string)
    requires AllDigits(frac)
    ensures DigitsValue(frac) as real / Pow10(|frac|) as real < 1.0
  {
    DigitsBelowPow10(frac);
    QuotientBelowOne(DigitsValue(frac) as real, Pow10(|frac|) as real);
  }

  lemma QuotientBelowOne(a: real, b: real)
    requires 0.0 <= a < b
    ensures a / b < 1.0
  {
  }

  /** A digit string's value is below the next power of ten. */
  lemma {:induction false} DigitsBelowPow10(t: string)
    requires AllDigits(t)
    ensures DigitsValue(t) < Pow10(|t|)
  {
    if |t| > 0 {
      DigitsBelowPow10(t[..|t| - 1]);
    }
  }

  /** A text without the letter `d` does not contain `"day"`. */
  lemma {:induction false} NoDayWithoutD(t: string)
    requires 'd' !in t
    ensures !Contains(t, "day")
  {
    if |t| > 0 {
      NoDayWithoutD(t[1..]);
      assert !StartsWith(t, "day") by {
        if |t| >= 3 { assert t[..3][0] == t[0]; }
      }
    }
  }
}
