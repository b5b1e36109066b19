/**
 * The formatting helpers of `utils/util.ts` and its hand-written twin
 * `utils/util-complete.js`: `formatTime`, `formatRelativeTime` and
 * `maskPhone`. The calendar fields of a date and the elapsed milliseconds
 * are inputs; the `Date` arithmetic that produces them is not modelled.
 */
module TimeFormat {
  import opened Text
  import opened JsValue

  /** The fields `formatTime` reads from a `Date`; `month` is `getMonth() + 1`. */
  datatype Moment = Moment(year: nat, month: nat, day: nat, hour: nat, minute: nat, second: nat)

  // ---------------------------------------------------------------------
  // Two-digit padding, both ways the two files write it.

  /** `s.padStart(2, '0')` (util.ts). */
  function PadStart2(s: string): (r: string)
    ensures |r| >= 2 && (|s| >= 2 ==> r == s)
  {
    if |s| >= 2 then s else if |s| == 1 then "0" + s else "00"
  }

  /** `if (s.length === 1) s = '0' + s` (util-complete.js). */
  function ZeroIfSingle(s: string): (r: string)
    ensures |s| != 1 ==> r == s
  {
    if |s| == 1 then "0" + s else s
  }

  /** On the decimal form of a number the two paddings agree, and give two or more digits. */
  lemma PaddingsAgree(n: nat)
    ensures PadStart2(NatToString(n)) == ZeroIfSingle(NatToString(n)) == Pad2(n)
  {
  }

  // ---------------------------------------------------------------------
  // formatTime.

  /** The six replacements, each of the first occurrence only, in the fixed order. */
  function ApplyTokens(format: string, y: string, mo: string, d: string, h: string, mi: string, s: string): string {
    ReplaceFirst(ReplaceFirst(ReplaceFirst(ReplaceFirst(ReplaceFirst(ReplaceFirst(
      format, "YYYY", y), "MM", mo), "DD", d), "HH", h), "mm", mi), "ss", s)
  }

  /** `formatTime` of util.ts. */
  function FormatTime(m: Moment, format: string): string {
    ApplyTokens(format, NatToString(m.year), PadStart2(NatToString(m.month)), PadStart2(NatToString(m.day)),
                PadStart2(NatToString(m.hour)), PadStart2(NatToString(m.minute)), PadStart2(NatToString(m.second)))
  }

  /** `formatTime` of util-complete.js. */
  function FormatTimeComplete(m: Moment, format: string): string {
    ApplyTokens(format, NatToString(m.year), ZeroIfSingle(NatToString(m.month)), ZeroIfSingle(NatToString(m.day)),
                ZeroIfSingle(NatToString(m.hour)), ZeroIfSingle(NatToString(m.minute)), ZeroIfSingle(NatToString(m.second)))
  }

  /** The two `formatTime`s give the same text for every date and format. */
  lemma FormatTimesAgree(m: Moment, format: string)
    ensures FormatTime(m, format) == FormatTimeComplete(m, format)
  {
    PaddingsAgree(m.month);
    PaddingsAgree(m.day);
    PaddingsAgree(m.hour);
    PaddingsAgree(m.minute);
    PaddingsAgree(m.second);
  }

  /** Text made of digits and the separators the formats use; no token can start inside it. */
  predicate Numeric(s: string) {
    forall i :: 0 <= i < |s| ==> IsDigit(s[i]) || s[i] == '-' || s[i] == ' ' || s[i] == ':'
  }

  /** No format token starts inside numeric text. */
  lemma NumericAvoids(a: string, c: char)
    requires Numeric(a) && (c == 'Y' || c == 'M' || c == 'D' || c == 'H' || c == 'm' || c == 's')
    ensures forall i :: 0 <= i < |a| ==> a[i] != c
  {
  }

  /** Replacing a token that follows numeric text. */
  lemma Step(a: string, token: string, rest: string, rep: string)
    requires Numeric(a) && |token| > 0
    requires token[0] == 'Y' || token[0] == 'M' || token[0] == 'D' || token[0] == 'H' || token[0] == 'm' || token[0] == 's'
    ensures ReplaceFirst(a + (token + rest), token, rep) == a + rep + rest
  {
    NumericAvoids(a, token[0]);
    ReplaceFirstSkip(a, token + rest, token, rep);
    ReplaceFirstHead(rest, token, rep);
  }

  /** Padded numbers are numeric text. */
  lemma PaddedNumeric(n: nat)
    ensures Numeric(NatToString(n)) && Numeric(Pad2(n))
  {
  }

  /** Numeric text stays numeric when more is appended. */
  lemma NumericConcat(a: string, b: string)
    requires Numeric(a) && Numeric(b)
    ensures Numeric(a + b)
  {
    forall i | 0 <= i < |a + b|
      ensures IsDigit((a + b)[i]) || (a + b)[i] == '-' || (a + b)[i] == ' ' || (a + b)[i] == ':'
    {
      if i < |a| {
        assert (a + b)[i] == a[i];
      } else {
        assert (a + b)[i] == b[i - |a|];
      }
    }
  }

  /** Replacing the token that follows numeric text and a separator. */
  lemma StepAfter(a: string, sep: string, token: string, rest: string, rep: string)
    requires Numeric(a) && Numeric(sep) && |token| > 0
    requires token[0] == 'Y' || token[0] == 'M' || token[0] == 'D' || token[0] == 'H' || token[0] == 'm' || token[0] == 's'
    ensures ReplaceFirst(a + sep + token + rest, token, rep) == a + sep + rep + rest
  {
    NumericConcat(a, sep);
    assert a + sep + token + rest == (a + sep) + (token + rest);
    Step(a + sep, token, rest, rep);
  }

  /** A replacement finds nothing in text that never holds the token's first character. */
  lemma ReplaceAbsent(a: string, token: string, rep: string)
    requires |token| > 0 && forall i :: 0 <= i < |a| ==> a[i] != token[0]
    ensures ReplaceFirst(a, token, rep) == a
  {
    ReplaceFirstSkip(a, "", token, rep);
    assert a + "" == a;
  }

  /** The date part `YYYY-MM-DD` is filled in whatever follows it. */
  lemma DateSteps(y: string, mo: string, d: string, tail: string)
    requires Numeric(y) && Numeric(mo)
    ensures ReplaceFirst(ReplaceFirst(ReplaceFirst("YYYY-MM-DD" + tail, "YYYY", y), "MM", mo), "DD", d)
      == y + "-" + mo + "-" + d + tail
  {
    assert "YYYY-MM-DD" + tail == "YYYY" + ("-MM-DD" + tail);
    ReplaceFirstHead("-MM-DD" + tail, "YYYY", y);
    assert y + ("-MM-DD" + tail) == y + "-" + "MM" + ("-DD" + tail);
    StepAfter(y, "-", "MM", "-DD" + tail, mo);
    NumericConcat(y, "-");
    NumericConcat(y + "-", mo);
    assert y + "-" + mo + ("-DD" + tail) == (y + "-" + mo) + "-" + "DD" + tail;
    StepAfter(y + "-" + mo, "-", "DD", tail, d);
  }

  /** The `HH` after a space is filled in. */
  lemma HourStep(a: string, h: string, tail: string)
    requires Numeric(a)
    ensures ReplaceFirst(a + " HH" + tail, "HH", h) == a + " " + h + tail
  {
    assert a + " HH" + tail == a + " " + "HH" + tail;
    StepAfter(a, " ", "HH", tail, h);
  }

  /** The `mm` after a colon is filled in. */
  lemma MinuteStep(a: string, mi: string, tail: string)
    requires Numeric(a)
    ensures ReplaceFirst(a + ":mm" + tail, "mm", mi) == a + ":" + mi + tail
  {
    assert a + ":mm" + tail == a + ":" + "mm" + tail;
    StepAfter(a, ":", "mm", tail, mi);
  }

  /** Appending a separator and a padded number keeps text numeric. */
  lemma NumericField(a: string, sep: string, n: nat)
    requires Numeric(a) && Numeric(sep)
    ensures Numeric(a + sep + Pad2(n))
  {
    PaddedNumeric(n);
    NumericConcat(a, sep);
    NumericConcat(a + sep, Pad2(n));
  }

  /** The date part of a moment, `YYYY-MM-DD` filled in. */
  function DateText(m: Moment): string {
    NatToString(m.year) + "-" + Pad2(m.month) + "-" + Pad2(m.day)
  }

  /** The full format with numeric field texts. */
  lemma FullTokens(y: string, mo: string, d: string, h: string, mi: string, s: string)
    requires Numeric(y) && Numeric(mo) && Numeric(d) && Numeric(h) && Numeric(mi)
    ensures ApplyTokens("YYYY-MM-DD HH:mm:ss", y, mo, d, h, mi, s) == y + "-" + mo + "-" + d + " " + h + ":" + mi + ":" + s
  {
    assert "YYYY-MM-DD HH:mm:ss" == "YYYY-MM-DD" + " HH:mm:ss";
    DateSteps(y, mo, d, " HH:mm:ss");
    NumericDate(y, mo, d);
    FullTime(y + "-" + mo + "-" + d, h, mi, s);
  }

  /** The time part of the full format filled in after numeric date text. */
  lemma FullTime(a4: string, h: string, mi: string, s: string)
    requires Numeric(a4) && Numeric(h) && Numeric(mi)
    ensures ReplaceFirst(ReplaceFirst(ReplaceFirst(a4 + " HH:mm:ss", "HH", h), "mm", mi), "ss", s) == a4 + " " + h + ":" + mi + ":" + s
  {
    var a5 := a4 + " " + h;
    var a6 := a5 + ":" + mi;
    assert a4 + " HH:mm:ss" == a4 + " HH" + ":mm:ss";
    HourStep(a4, h, ":mm:ss");
    NumericConcat(a4, " "); NumericConcat(a4 + " ", h);
    assert a5 + ":mm:ss" == a5 + ":mm" + ":ss";
    MinuteStep(a5, mi, ":ss");
    NumericConcat(a5, ":"); NumericConcat(a5 + ":", mi);
    SecondStep(a6, s);
  }

  /** The `ss` after a colon is filled in. */
  lemma SecondStep(a: string, s: string)
    requires Numeric(a)
    ensures ReplaceFirst(a + ":ss", "ss", s) == a + ":" + s
  {
    assert a + ":ss" == a + ":" + "ss" + "";
    StepAfter(a, ":", "ss", "", s);
    assert a + ":" + s + "" == a + ":" + s;
  }

  /** The default format with numeric field texts. */
  lemma DefaultTokens(y: string, mo: string, d: string, h: string, mi: string, s: string)
    requires Numeric(y) && Numeric(mo) && Numeric(d) && Numeric(h) && Numeric(mi)
    ensures ApplyTokens("YYYY-MM-DD HH:mm", y, mo, d, h, mi, s) == y + "-" + mo + "-" + d + " " + h + ":" + mi
  {
    assert "YYYY-MM-DD HH:mm" == "YYYY-MM-DD" + " HH:mm";
    DateSteps(y, mo, d, " HH:mm");
    NumericDate(y, mo, d);
    DefaultTime(y + "-" + mo + "-" + d, h, mi, s);
  }

  /** The time part of the default format filled in after numeric date text. */
  lemma DefaultTime(a4: string, h: string, mi: string, s: string)
    requires Numeric(a4) && Numeric(h) && Numeric(mi)
    ensures ReplaceFirst(ReplaceFirst(ReplaceFirst(a4 + " HH:mm", "HH", h), "mm", mi), "ss", s) == a4 + " " + h + ":" + mi
  {
    var a5 := a4 + " " + h;
    var a6 := a5 + ":" + mi;
    assert a4 + " HH:mm" == a4 + " HH" + ":mm";
    HourStep(a4, h, ":mm");
    NumericConcat(a4, " "); NumericConcat(a4 + " ", h);
    assert a5 + ":mm" == a5 + ":mm" + "";
    MinuteStep(a5, mi, "");
    assert a5 + ":" + mi + "" == a6;
    NumericConcat(a5, ":"); NumericConcat(a5 + ":", mi);
    NumericAvoids(a6, 's');
    ReplaceAbsent(a6, "ss", s);
  }

  /** The picker's format, `hh` for the hour, with numeric field texts: the `hh` stays. */
  lemma PickerTokens(y: string, mo: string, d: string, h: string, mi: string, s: string)
    requires Numeric(y) && Numeric(mo) && Numeric(d) && Numeric(h) && Numeric(mi)
    ensures ApplyTokens("YYYY-MM-DD hh:mm", y, mo, d, h, mi, s) == y + "-" + mo + "-" + d + " hh:" + mi
  {
    var a4 := y + "-" + mo + "-" + d;
    assert "YYYY-MM-DD hh:mm" == "YYYY-MM-DD" + " hh:mm";
    DateSteps(y, mo, d, " hh:mm");
    NumericDate(y, mo, d);
    PickerHourKept(a4, h);
    PickerMinute(a4, mi);
    PickerSecondsKept(a4, mi, s);
  }

  /** The date part of numeric field texts is numeric. */
  lemma NumericDate(y: string, mo: string, d: string)
    requires Numeric(y) && Numeric(mo) && Numeric(d)
    ensures Numeric(y + "-" + mo + "-" + d)
  {
    NumericConcat(y, "-"); NumericConcat(y + "-", mo); NumericConcat(y + "-" + mo, "-"); NumericConcat(y + "-" + mo + "-", d);
  }

  /** The picker's text has no `HH` to fill. */
  lemma PickerHourKept(a4: string, h: string)
    requires Numeric(a4)
    ensures ReplaceFirst(a4 + " hh:mm", "HH", h) == a4 + " hh:mm"
  {
    var t := a4 + " hh:mm";
    NumericAvoids(a4, 'H');
    forall i | 0 <= i < |t| ensures t[i] != 'H' {
      if i >= |a4| { assert t[i] == " hh:mm"[i - |a4|]; }
    }
    ReplaceAbsent(t, "HH", h);
  }

  /** The picker's `mm` is filled with the minutes. */
  lemma PickerMinute(a4: string, mi: string)
    requires Numeric(a4)
    ensures ReplaceFirst(a4 + " hh:mm", "mm", mi) == a4 + " hh:" + mi
  {
    var b := a4 + " hh";
    NumericAvoids(a4, 'm');
    forall i | 0 <= i < |b| ensures b[i] != 'm' {
      if i >= |a4| { assert b[i] == " hh"[i - |a4|]; }
    }
    assert a4 + " hh:mm" == b + (":" + "mm");
    ReplaceFirstSkip(b, ":" + "mm", "mm", mi);
    ReplaceFirstSkip(":", "mm", "mm", mi);
    ReplaceFirstHead("", "mm", mi);
    assert mi + "" == mi;
  }

  /** The picker's text has no `ss` to fill. */
  lemma PickerSecondsKept(a4: string, mi: string, s: string)
    requires Numeric(a4) && Numeric(mi)
    ensures ReplaceFirst(a4 + " hh:" + mi, "ss", s) == a4 + " hh:" + mi
  {
    var t := a4 + " hh:" + mi;
    NumericAvoids(a4, 's');
    NumericAvoids(mi, 's');
    forall i | 0 <= i < |t| ensures t[i] != 's' {
      if |a4| <= i < |a4| + 4 { assert t[i] == " hh:"[i - |a4|]; }
      else if i >= |a4| + 4 { assert t[i] == mi[i - |a4| - 4]; }
    }
    ReplaceAbsent(t, "ss", s);
  }

  /** Field texts as both `formatTime`s produce them. */
  lemma FieldsNumeric(m: Moment)
    ensures Numeric(NatToString(m.year)) && Numeric(Pad2(m.month)) && Numeric(Pad2(m.day))
    ensures Numeric(Pad2(m.hour)) && Numeric(Pad2(m.minute))
  {
    PaddedNumeric(m.year); PaddedNumeric(m.month); PaddedNumeric(m.day); PaddedNumeric(m.hour); PaddedNumeric(m.minute);
  }

  /** The full format spells out every field, each after the year padded to two digits. */
  lemma FullFormat(m: Moment)
    ensures FormatTime(m, "YYYY-MM-DD HH:mm:ss")
      == DateText(m) + " " + Pad2(m.hour) + ":" + Pad2(m.minute) + ":" + Pad2(m.second)
  {
    PaddingsAgree(m.month); PaddingsAgree(m.day); PaddingsAgree(m.hour); PaddingsAgree(m.minute); PaddingsAgree(m.second);
    FieldsNumeric(m);
    FullTokens(NatToString(m.year), Pad2(m.month), Pad2(m.day), Pad2(m.hour), Pad2(m.minute), Pad2(m.second));
  }

  /** The default format `YYYY-MM-DD HH:mm` gives the date and the padded hour and minute. */
  lemma DefaultFormat(m: Moment)
    ensures FormatTimeComplete(m, "YYYY-MM-DD HH:mm") == DateText(m) + " " + Pad2(m.hour) + ":" + Pad2(m.minute)
  {
    PaddingsAgree(m.month); PaddingsAgree(m.day); PaddingsAgree(m.hour); PaddingsAgree(m.minute); PaddingsAgree(m.second);
    FieldsNumeric(m);
    DefaultTokens(NatToString(m.year), Pad2(m.month), Pad2(m.day), Pad2(m.hour), Pad2(m.minute), Pad2(m.second));
  }

  /** The chart format `MM-DD` gives the padded month and day. */
  lemma MonthDayFormat(m: Moment)
    ensures FormatTimeComplete(m, "MM-DD") == Pad2(m.month) + "-" + Pad2(m.day)
  {
    PaddingsAgree(m.month); PaddingsAgree(m.day);
    PaddedNumeric(m.month); PaddedNumeric(m.day);
    MonthDayTokens(NatToString(m.year), Pad2(m.month), Pad2(m.day), Pad2(m.hour), Pad2(m.minute), Pad2(m.second));
  }

  /** The format `MM-DD` with numeric field texts. */
  lemma MonthDayTokens(y: string, mo: string, d: string, h: string, mi: string, s: string)
    requires Numeric(mo) && Numeric(d)
    ensures ApplyTokens("MM-DD", y, mo, d, h, mi, s) == mo + "-" + d
  {
    ReplaceAbsent("MM-DD", "YYYY", y);
    MonthDaySteps(mo, d);
    var a := mo + "-" + d;
    NumericConcat(mo, "-");
    NumericConcat(mo + "-", d);
    NoTimeTokens(a, h, mi, s);
  }

  /** `MM` and then `DD` filled in. */
  lemma MonthDaySteps(mo: string, d: string)
    requires Numeric(mo)
    ensures ReplaceFirst(ReplaceFirst("MM-DD", "MM", mo), "DD", d) == mo + "-" + d
  {
    assert "MM-DD" == "MM" + "-DD";
    ReplaceFirstHead("-DD", "MM", mo);
    assert mo + "-DD" == mo + "-" + "DD" + "";
    StepAfter(mo, "-", "DD", "", d);
    assert mo + "-" + d + "" == mo + "-" + d;
  }

  /** Numeric text has no time token to fill. */
  lemma NoTimeTokens(a: string, h: string, mi: string, s: string)
    requires Numeric(a)
    ensures ReplaceFirst(ReplaceFirst(ReplaceFirst(a, "HH", h), "mm", mi), "ss", s) == a
  {
    NumericAvoids(a, 'H'); NumericAvoids(a, 'm'); NumericAvoids(a, 's');
    ReplaceAbsent(a, "HH", h);
    ReplaceAbsent(a, "mm", mi);
    ReplaceAbsent(a, "ss", s);
  }

  // ---------------------------------------------------------------------
  // The notification page's date-time picker text.

  /** The picker text as written: its format spells the hour `hh`, a token `formatTime` does not know. */
  function PickerTextAsWritten(m: Moment): string {
    FormatTimeComplete(m, "YYYY-MM-DD hh:mm")
  }

  /** The picker text shows the letters `hh` where the hour should be. */
  lemma PickerShowsHh(m: Moment)
    ensures PickerTextAsWritten(m) == DateText(m) + " hh:" + Pad2(m.minute)
  {
    PaddingsAgree(m.month); PaddingsAgree(m.day); PaddingsAgree(m.hour); PaddingsAgree(m.minute); PaddingsAgree(m.second);
    FieldsNumeric(m);
    PickerTokens(NatToString(m.year), Pad2(m.month), Pad2(m.day), Pad2(m.hour), Pad2(m.minute), Pad2(m.second));
  }

  /** The evidently intended picker text uses the `HH` token. */
  function PickerText(m: Moment): string {
    FormatTimeComplete(m, "YYYY-MM-DD HH:mm")
  }

  /** With `HH` the picker shows the padded hour. */
  lemma PickerShowsHour(m: Moment)
    ensures PickerText(m) == DateText(m) + " " + Pad2(m.hour) + ":" + Pad2(m.minute)
  {
    DefaultFormat(m);
  }

  // ---------------------------------------------------------------------
  // formatRelativeTime.

  const Minute: nat := 60 * 1000
  const Hour: nat := 60 * Minute
  const Day: nat := 24 * Hour
  const Week: nat := 7 * Day
  const Month: nat := 30 * Day

  /** Floor division of `x` by a unit it reaches but `k` units exceed. */
  lemma FloorIn(x: int, u: nat, k: nat)
    requires 0 < u <= x < k * u
    ensures 1 <= x / u < k
    ensures (x / u) * u <= x < (x / u + 1) * u
  {
    var q := x / u;
    var r := x % u;
    assert x == q * u + r && 0 <= r < u;
    assert (q + 1) * u == q * u + u;
  }

  /** Which phrase a time difference (in milliseconds) gets, and the count it shows. */
  datatype Tier = JustNow | Minutes(n: nat) | Hours(n: nat) | Days(n: nat) | Weeks(n: nat) | Calendar

  /** The tiers of util.ts: floor division by the tier's unit, and the date itself from 30 days on. */
  function TierOf(diff: int): (t: Tier)
    ensures t == JustNow <==> diff < Minute
    ensures t.Minutes? ==> Minute <= diff < Hour && t.n * Minute <= diff < (t.n + 1) * Minute && 1 <= t.n < 60
    ensures t.Hours? ==> Hour <= diff < Day && t.n * Hour <= diff < (t.n + 1) * Hour && 1 <= t.n < 24
    ensures t.Days? ==> Day <= diff < Week && t.n * Day <= diff < (t.n + 1) * Day && 1 <= t.n < 7
    ensures t.Weeks? ==> Week <= diff < Month && t.n * Week <= diff < (t.n + 1) * Week && 1 <= t.n <= 4
    ensures t == Calendar <==> Month <= diff
  {
    if diff < Minute then JustNow
    else if diff < Hour then FloorIn(diff, Minute, 60); Minutes(diff / Minute)
    else if diff < Day then FloorIn(diff, Hour, 24); Hours(diff / Hour)
    else if diff < Week then FloorIn(diff, Day, 7); Days(diff / Day)
    else if diff < Month then FloorIn(diff, Week, 5); Weeks(diff / Week)
    else Calendar
  }

  /** The stored language picks Chinese only when it is exactly `'zh-CN'` (a missing one counts as that). */
  predicate Chinese(stored: Value) {
    Or(stored, Str("zh-CN")) == Str("zh-CN")
  }

  /** The phrase for a tier in util.ts. */
  function Phrase(t: Tier, zh: bool, target: Moment): string {
    match t
    case JustNow => if zh then "刚刚" else "Just now"
    case Minutes(n) => if zh then NatToString(n) + "分钟前" else NatToString(n) + " minutes ago"
    case Hours(n) => if zh then NatToString(n) + "小时前" else NatToString(n) + " hours ago"
    case Days(n) => if zh then NatToString(n) + "天前" else NatToString(n) + " days ago"
    case Weeks(n) => if zh then NatToString(n) + "周前" else NatToString(n) + " weeks ago"
    case Calendar => FormatTime(target, "MM-DD")
  }

  /** `formatRelativeTime` of util.ts, for the difference `now - target` in milliseconds. */
  function RelativeTime(diff: int, stored: Value, target: Moment): string {
    Phrase(TierOf(diff), Chinese(stored), target)
  }

  /** Any stored language other than `'zh-CN'`, supported or not, gets the English phrases. */
  lemma EnglishUnlessChinese(stored: Value)
    ensures Chinese(stored) <==> !Truthy(stored) || stored == Str("zh-CN")
    ensures !Chinese(stored) ==> RelativeTime(0, stored, Moment(0, 1, 1, 0, 0, 0)) == "Just now"
  {
  }

  /** A negative difference (a date in the future) reads as just now. */
  lemma FutureIsJustNow(diff: int, stored: Value, target: Moment)
    requires diff < 0
    ensures RelativeTime(diff, stored, target) == (if Chinese(stored) then "刚刚" else "Just now")
  {
  }

  /** The tiers of util-complete.js: no weeks and no date; days count on without limit. */
  function TierOfComplete(diff: int): (t: Tier)
    ensures t.JustNow? || t.Minutes? || t.Hours? || t.Days?
    ensures t == JustNow <==> diff < Minute
    ensures t.Days? <==> Day <= diff
    ensures t.Days? ==> t.n * Day <= diff < (t.n + 1) * Day
  {
    if diff < Minute then JustNow
    else if diff < Hour then Minutes(diff / Minute)
    else if diff < Day then Hours(diff / Hour)
    else FloorIn(diff, Day, diff / Day + 1); Days(diff / Day)
  }

  /** `formatRelativeTime` of util-complete.js: always Chinese, whatever language is stored. */
  function RelativeTimeComplete(diff: int): string {
    Phrase(TierOfComplete(diff), true, Moment(0, 1, 1, 0, 0, 0))
  }

  /** Below a week the two versions agree for a Chinese user; from a week on they part ways. */
  lemma RelativeTimesAgreeBelowWeek(diff: int, target: Moment)
    requires diff < Week
    ensures TierOfComplete(diff) == TierOf(diff)
    ensures RelativeTimeComplete(diff) == RelativeTime(diff, Str("zh-CN"), target)
  {
  }

  /** From a week on, util-complete.js still counts days where util.ts counts weeks or shows the date. */
  lemma RelativeTimesDifferFromWeek(diff: int)
    requires Week <= diff
    ensures TierOfComplete(diff).Days? && !TierOf(diff).Days?
  {
  }

  // ---------------------------------------------------------------------
  // maskPhone.

  /** Eleven decimal digits: the only strings the pattern `(\d{3})\d{4}(\d{4})` matches at length 11. */
  predicate ElevenDigits(s: string) {
    |s| == 11 && forall i :: 0 <= i < |s| ==> IsDigit(s[i])
  }

  /** `maskPhone`: the middle four of eleven digits become `****`; anything else comes back as it is. */
  function MaskPhone(phone: string): (r: string)
    ensures |r| == |phone|
    ensures !ElevenDigits(phone) ==> r == phone
    ensures ElevenDigits(phone) ==> r[..3] == phone[..3] && r[3..7] == "****" && r[7..] == phone[7..]
  {
    if phone == "" || |phone| != 11 then phone
    else if ElevenDigits(phone) then phone[..3] + "****" + phone[7..]
    else phone
  }

  /** Masking twice is masking once: a masked number holds `*`, so the pattern no longer matches. */
  lemma MaskIdempotent(phone: string)
    ensures MaskPhone(MaskPhone(phone)) == MaskPhone(phone)
  {
    var r := MaskPhone(phone);
    if ElevenDigits(phone) {
      assert r[3] == '*';
      assert !IsDigit(r[3]);
    }
  }
}
