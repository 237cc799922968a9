/** The log-capture command's pure parts, from `src/extension/commands/logging.ts`:
    the generated log file name and the list of categories to capture.

    The clock is a parameter: `LocalTime` holds the values the source reads from
    `new Date()`, exactly as it reads them. */
module LogFiles {
  import opened Results
  import PathStrings

  /** The `Date` getters the file name uses. `month` is `getMonth()`, which
      counts from 0; `dayOfWeek` is `getDay()`, the day of the week (0 is
      Sunday), not the day of the month. */
  datatype LocalTime = LocalTime(
    fullYear: nat,
    month: nat,
    dayOfWeek: nat,
    hours: nat,
    minutes: nat,
    seconds: nat)

  predicate IsDigit(c: char) {
    '0' <= c <= '9'
  }

  predicate IsDigits(s: string) {
    forall i :: 0 <= i < |s| ==> IsDigit(s[i])
  }

  function DigitChar(d: nat): (c: char)
    requires d < 10
    ensures IsDigit(c) && DigitValue(c) == d
  {
    ('0' as int + d) as char
  }

  function DigitValue(c: char): (d: nat)
    requires IsDigit(c)
    ensures d < 10
  {
    c as int - '0' as int
  }

  /** `n.toString()` for a non-negative integer: its decimal digits, no
      leading zeros. */
  function DecimalString(n: nat): (s: string)
    ensures |s| >= 1 && IsDigits(s)
    ensures s[|s| - 1] == DigitChar(n % 10)
    ensures s[0] == '0' <==> n == 0
    decreases n
  {
    if n < 10 then [DigitChar(n)] else DecimalString(n / 10) + [DigitChar(n % 10)]
  }

  /** The number a string of decimal digits denotes. */
  function DigitsValue(s: string): nat
    requires IsDigits(s)
    decreases |s|
  {
    if s == [] then 0 else DigitsValue(s[..|s| - 1]) * 10 + DigitValue(s[|s| - 1])
  }

  /** Reading back the decimal digits gives the number. */
  lemma {:induction false} DecimalStringRoundTrip(n: nat)
    ensures DigitsValue(DecimalString(n)) == n
    decreases n
  {
    if n >= 10 {
      DecimalStringRoundTrip(n / 10);
      var s := DecimalString(n);
      assert s[..|s| - 1] == DecimalString(n / 10);
    }
  }

  /** `pad(s)`: the last two characters of `"0" + s`, or all of it when that is
      shorter (JavaScript's `slice(-2)`). */
  function Pad(s: string): (r: string)
    ensures |s| == 0 ==> r == "0"
    ensures |s| == 1 ==> r == "0" + s
    ensures |s| >= 2 ==> r == s[|s| - 2..]
    ensures |s| >= 1 ==> |r| == 2
  {
    var t := "0" + s;
    if |t| >= 2 then t[|t| - 2..] else t
  }

  /** `pad(n)` for a number: the last two decimal digits of `n`, so values of
      100 and more lose their leading digits. */
  function PadNumber(n: nat): (r: string)
    ensures r == [DigitChar(n / 10 % 10), DigitChar(n % 10)]
  {
    PadKeepsLastTwoDigits(n);
    Pad(DecimalString(n))
  }

  lemma PadKeepsLastTwoDigits(n: nat)
    ensures Pad(DecimalString(n)) == [DigitChar(n / 10 % 10), DigitChar(n % 10)]
  {
    if n < 10 {
      PadOneDigit(n);
    } else {
      PadSeveralDigits(n);
    }
  }

  lemma PadOneDigit(n: nat)
    requires n < 10
    ensures Pad(DecimalString(n)) == [DigitChar(n / 10 % 10), DigitChar(n % 10)]
  {
    var s := DecimalString(n);
    assert s == [DigitChar(n)];
    assert n / 10 % 10 == 0 && n % 10 == n;
    assert DigitChar(0) == '0';
    assert Pad(s) == "0" + s;
  }

  lemma PadSeveralDigits(n: nat)
    requires n >= 10
    ensures Pad(DecimalString(n)) == [DigitChar(n / 10 % 10), DigitChar(n % 10)]
  {
    var s := DecimalString(n);
    var m := n / 10;
    var h := DecimalString(m);
    var last := [DigitChar(n % 10)];
    assert s == h + last;
    LastOfConcat(h, last);
    assert s[|s| - 2] == DigitChar(m % 10);
    assert |s| >= 2;
    assert Pad(s) == s[|s| - 2..];
    LastTwo(s);
  }

  lemma LastTwo(s: string)
    requires |s| >= 2
    ensures s[|s| - 2..] == [s[|s| - 2], s[|s| - 1]]
  {
  }

  lemma LastOfConcat(h: string, last: string)
    requires |h| >= 1 && |last| == 1
    ensures (h + last)[|h + last| - 2] == h[|h| - 1]
    ensures (h + last)[|h + last| - 1] == last[0]
  {
  }

  const LogFilePrefix := "Dart-Code-Log-"
  const LogFileSuffix := ".txt"

  /** The part of the date after the year: `-MM-DD HH-mm-ss`. */
  function TimePart(t: LocalTime): (d: string)
    ensures |d| == 15
  {
    TimeFields(PadNumber(t.month), PadNumber(t.dayOfWeek), PadNumber(t.hours), PadNumber(t.minutes), PadNumber(t.seconds))
  }

  /** Five two-character fields laid out as `-MM-DD HH-mm-ss`. */
  function TimeFields(mo: string, dw: string, h: string, mi: string, s: string): (d: string)
    requires |mo| == |dw| == |h| == |mi| == |s| == 2
    ensures |d| == 15
    ensures d[0] == '-' && d[3] == '-' && d[6] == ' ' && d[9] == '-' && d[12] == '-'
    ensures d[1..3] == mo && d[4..6] == dw && d[7..9] == h && d[10..12] == mi && d[13..15] == s
  {
    var d := "-" + mo + "-" + dw + " " + h + "-" + mi + "-" + s;
    assert d == ['-', mo[0], mo[1], '-', dw[0], dw[1], ' ', h[0], h[1], '-', mi[0], mi[1], '-', s[0], s[1]];
    d
  }

  /** The date part: `year-MM-DD HH-mm-ss`, the year unpadded and exactly one
      space between date and time. */
  function FormattedDate(t: LocalTime): (d: string)
    ensures |d| == |DecimalString(t.fullYear)| + 15
    ensures d[..|DecimalString(t.fullYear)|] == DecimalString(t.fullYear)
    ensures d[|DecimalString(t.fullYear)|..] == TimePart(t)
  {
    DecimalString(t.fullYear) + TimePart(t)
  }

  /** `generateFilename()` */
  function GenerateFilename(t: LocalTime): (name: string)
    ensures LogFilePrefix <= name
    ensures name[|name| - |LogFileSuffix|..] == LogFileSuffix
    ensures |name| == |LogFilePrefix| + |DecimalString(t.fullYear)| + 15 + |LogFileSuffix|
  {
    var name := LogFilePrefix + FormattedDate(t) + LogFileSuffix;
    assert name[|name| - |LogFileSuffix|..] == LogFileSuffix;
    name
  }

  /** Reads two decimal digits. */
  function ParseTwoDigits(s: string): Option<nat>
  {
    if |s| == 2 && IsDigit(s[0]) && IsDigit(s[1]) then Some(DigitValue(s[0]) * 10 + DigitValue(s[1]))
    else None
  }

  /** Reads `-MM-DD HH-mm-ss` back into month, day, hours, minutes and seconds. */
  function ParseTimePart(time: string): Option<seq<nat>>
  {
    if |time| != 15 || time[0] != '-' || time[3] != '-' || time[6] != ' ' || time[9] != '-' || time[12] != '-'
    then None
    else
      match (ParseTwoDigits(time[1..3]), ParseTwoDigits(time[4..6]), ParseTwoDigits(time[7..9]),
             ParseTwoDigits(time[10..12]), ParseTwoDigits(time[13..15]))
      case (Some(mo), Some(dw), Some(h), Some(mi), Some(s)) => Some([mo, dw, h, mi, s])
      case _ => None
  }

  /** Reads a name of the shape `generateFilename` produces back into its fields. */
  function ParseFilename(name: string): Option<LocalTime>
  {
    var p := |LogFilePrefix|;
    var q := |LogFileSuffix|;
    if |name| < p + 16 + q || name[..p] != LogFilePrefix || name[|name| - q..] != LogFileSuffix then None
    else
      var body := name[p..|name| - q];
      var year := body[..|body| - 15];
      match ParseTimePart(body[|body| - 15..])
      case None => None
      case Some(f) =>
        if !IsDigits(year) then None
        else Some(LocalTime(DigitsValue(year), f[0], f[1], f[2], f[3], f[4]))
  }

  lemma ParsePadNumber(n: nat)
    ensures ParseTwoDigits(PadNumber(n)) == Some(n % 100)
  {
    var a, b := n / 10 % 10, n % 10;
    LastTwoDigits(n);
    var p := PadNumber(n);
    assert p == [DigitChar(a), DigitChar(b)];
    assert DigitValue(p[0]) == a && DigitValue(p[1]) == b;
    assert ParseTwoDigits(p) == Some(a * 10 + b);
  }

  /** The tens and units digits of `n` make up `n % 100`. */
  lemma LastTwoDigits(n: nat)
    ensures n / 10 % 10 < 10 && n / 10 % 10 * 10 + n % 10 == n % 100
    ensures (n % 100) / 10 == n / 10 % 10 && (n % 100) % 10 == n % 10
    ensures (n % 100) / 10 % 10 == n / 10 % 10
  {
    var q, m := n / 100, n % 100;
    assert n == 100 * q + m;
    assert n / 10 == 10 * q + m / 10;
  }

  lemma ParseTimePartRoundTrip(t: LocalTime)
    ensures ParseTimePart(TimePart(t))
         == Some([t.month % 100, t.dayOfWeek % 100, t.hours % 100, t.minutes % 100, t.seconds % 100])
  {
    ParsePadNumber(t.month);
    ParsePadNumber(t.dayOfWeek);
    ParsePadNumber(t.hours);
    ParsePadNumber(t.minutes);
    ParsePadNumber(t.seconds);
  }

  /** Parsing a name assembled from a year and a time part reads each back. */
  lemma ParseFilenameOfParts(name: string, year: string, time: string, f: seq<nat>)
    requires |year| >= 1 && IsDigits(year) && |time| == 15
    requires name == LogFilePrefix + (year + time) + LogFileSuffix
    requires ParseTimePart(time) == Some(f)
    ensures ParseFilename(name) == Some(LocalTime(DigitsValue(year), f[0], f[1], f[2], f[3], f[4]))
  {
    Unwrap(LogFilePrefix, year + time, LogFileSuffix);
    Unwrap([], year, time);
    var body := name[|LogFilePrefix|..|name| - |LogFileSuffix|];
    assert body == year + time;
  }

  /** The three parts of `pre + mid + suf` are found at their positions. */
  lemma Unwrap(pre: string, mid: string, suf: string)
    ensures var w := pre + mid + suf;
      w[..|pre|] == pre && w[|w| - |suf|..] == suf && w[|pre|..|w| - |suf|] == mid
  {
  }

  /** The file name keeps the full year and the last two digits of every
      other field, each readable back from its fixed position. */
  lemma GenerateFilenameRoundTrip(t: LocalTime)
    ensures ParseFilename(GenerateFilename(t))
         == Some(LocalTime(t.fullYear, t.month % 100, t.dayOfWeek % 100, t.hours % 100, t.minutes % 100, t.seconds % 100))
  {
    var y := DecimalString(t.fullYear);
    var time := TimePart(t);
    var name := GenerateFilename(t);
    ParseTimePartRoundTrip(t);
    var f := [t.month % 100, t.dayOfWeek % 100, t.hours % 100, t.minutes % 100, t.seconds % 100];
    ParseFilenameOfParts(name, y, time, f);
    DecimalStringRoundTrip(t.fullYear);
  }

  /** Fields in their calendar ranges come back unchanged. */
  lemma GenerateFilenameRoundTripInRange(t: LocalTime)
    requires t.month < 12 && t.dayOfWeek < 7 && t.hours < 24 && t.minutes < 60 && t.seconds < 60
    ensures ParseFilename(GenerateFilename(t)) == Some(t)
  {
    GenerateFilenameRoundTrip(t);
    KeptDigitsInRange(t);
  }

  lemma KeptDigitsInRange(t: LocalTime)
    requires t.month < 12 && t.dayOfWeek < 7 && t.hours < 24 && t.minutes < 60 && t.seconds < 60
    ensures LocalTime(t.fullYear, t.month % 100, t.dayOfWeek % 100, t.hours % 100, t.minutes % 100, t.seconds % 100) == t
  {
  }

  /** `[LogCategory.General].concat(selected)` behind the early return for an
      undefined or empty selection: `None` means no logger is created. */
  function LoggedCategories<C>(general: C, selected: Option<seq<C>>): (r: Option<seq<C>>)
    ensures r.None? <==> selected.None? || |selected.value| == 0
    ensures r.Some? ==> |r.value| == |selected.value| + 1
    ensures r.Some? ==> r.value[0] == general && r.value[1..] == selected.value
  {
    if selected.None? || |selected.value| == 0 then None
    else Some([general] + selected.value)
  }

  /** The log file and categories `startLogging` captures with. */
  datatype LogSession<C> = LogSession(file: PathStrings.Path, categories: seq<C>)

  /** `startLogging()` up to creating the logger: the file is the generated
      name joined onto the extension's log folder, whose drive letter is
      normalised first. */
  function StartLogging<C>(
    isWin: bool, isAbsolute: PathStrings.Path -> bool, extensionLogPath: PathStrings.Path,
    now: LocalTime, general: C, selected: Option<seq<C>>)
    : (r: Option<LogSession<C>>)
    ensures r.None? <==> selected.None? || |selected.value| == 0
    ensures r.Some? ==> r.value.categories == [general] + selected.value
    ensures r.Some? ==>
              var folder := PathStrings.ForceWindowsDriveLetterToUppercase(extensionLogPath, isWin, isAbsolute);
              && |r.value.file| == |folder| + 1 + |GenerateFilename(now)|
              && r.value.file[..|folder|] == folder
              && r.value.file[|folder| + 1..] == GenerateFilename(now)
  {
    var logFilename := PathStrings.Join(
      PathStrings.ForceWindowsDriveLetterToUppercase(extensionLogPath, isWin, isAbsolute),
      GenerateFilename(now));
    match LoggedCategories(general, selected)
    case None => None
    case Some(categories) => Some(LogSession(logFilename, categories))
  }
}

/** A concrete file name, computed from the definitions above. */
module LogFileExamples {
  import opened LogFiles

  /** As written, the month counts from 0 and the day field is the weekday:
      Wednesday 5 February 2020, 09:07:03 is logged with month `01` and day
      `03`. */
  lemma GenerateFilenameExample()
    ensures GenerateFilename(LocalTime(2020, 1, 3, 9, 7, 3))
         == LogFilePrefix + "2020-01-03 09-07-03" + LogFileSuffix
  {
    FormattedDateExample();
  }

  lemma FormattedDateExample()
    ensures FormattedDate(LocalTime(2020, 1, 3, 9, 7, 3)) == "2020-01-03 09-07-03"
  {
    FormattedDateParts();
    JoinedLiterals();
  }

  lemma FormattedDateParts()
    ensures FormattedDate(LocalTime(2020, 1, 3, 9, 7, 3)) == "2020" + "-01-03 09-07-03"
  {
    PaddedFieldsExample();
    TimeFieldsExample();
    YearDigitsExample();
  }

  lemma JoinedLiterals()
    ensures "2020" + "-01-03 09-07-03" == "2020-01-03 09-07-03"
  {
  }

  lemma YearDigitsExample()
    ensures DecimalString(2020) == "2020"
  {
    assert DecimalString(202) == "202";
  }

  lemma PaddedFieldsExample()
    ensures PadNumber(1) == "01" && PadNumber(3) == "03" && PadNumber(9) == "09" && PadNumber(7) == "07"
  {
    PadSingleDigit(1);
    PadSingleDigit(3);
    PadSingleDigit(9);
    PadSingleDigit(7);
    assert DigitChar(1) == '1' && DigitChar(3) == '3' && DigitChar(9) == '9' && DigitChar(7) == '7';
  }

  /** A single digit gets a leading zero. */
  lemma PadSingleDigit(n: nat)
    requires n < 10
    ensures PadNumber(n) == ['0', DigitChar(n)]
  {
  }

  /** `pad` keeps only the last two digits: 2024 is padded like 24. */
  lemma PadDropsHundreds(n: nat)
    ensures PadNumber(n) == PadNumber(n % 100)
  {
    var m := n % 100;
    LastTwoDigits(n);
    assert m / 10 % 10 == n / 10 % 10 && m % 10 == n % 10;
    assert PadNumber(m) == [DigitChar(m / 10 % 10), DigitChar(m % 10)];
  }

  lemma TimeFieldsExample()
    ensures TimeFields("01", "03", "09", "07", "03") == "-01-03 09-07-03"
  {
  }
}
