/**
  Storage keys: workspaces/{workspaceId}/{purpose}/{yyyy}/{mm}/{dd}/{opaqueObjectId}, with the
  calendar arithmetic of ECMAScript dates behind the date partition.
 */
module ObjectKey {
  import opened Common

  // ---------------------------------------------------------------------------
  // Calendar
  // ---------------------------------------------------------------------------

  const MS_PER_DAY := 86_400_000

  predicate IsLeap(y: int) {
    y % 4 == 0 && (y % 100 != 0 || y % 400 == 0)
  }

  function DaysInMonth(y: int, m: int): int {
    if m == 2 then (if IsLeap(y) then 29 else 28)
    else if m == 4 || m == 6 || m == 9 || m == 11 then 30
    else 31
  }

  predicate IsRealDate(y: int, m: int, d: int) {
    1 <= m <= 12 && 1 <= d <= DaysInMonth(y, m)
  }

  function DaysInYear(y: int): int {
    if IsLeap(y) then 366 else 365
  }

  /** The number of the first day of a year, counted from 1970-01-01. */
  function DayFromYear(y: int): int
    decreases if y >= 1970 then y - 1970 else 1970 - y
  {
    if y == 1970 then 0
    else if y > 1970 then DayFromYear(y - 1) + DaysInYear(y - 1)
    else DayFromYear(y + 1) - DaysInYear(y)
  }

  lemma YearLength(y: int)
    ensures DayFromYear(y + 1) - DayFromYear(y) == DaysInYear(y)
  {
  }

  lemma FourthYears(y: int)
    ensures (y - 1968) / 4 - (y - 1969) / 4 == if y % 4 == 0 then 1 else 0
  {
  }

  lemma CenturyYears(y: int)
    ensures (y - 1900) / 100 - (y - 1901) / 100 == if y % 100 == 0 then 1 else 0
    ensures y % 100 == 0 ==> y % 4 == 0
  {
  }

  lemma FourthCenturyYears(y: int)
    ensures (y - 1600) / 400 - (y - 1601) / 400 == if y % 400 == 0 then 1 else 0
    ensures y % 400 == 0 ==> y % 100 == 0
  {
  }

  /** The closed form in which the ECMAScript specification defines it. */
  lemma {:induction false} DayFromYearIs(y: int)
    ensures DayFromYear(y) == 365 * (y - 1970) + (y - 1969) / 4 - (y - 1901) / 100 + (y - 1601) / 400
    decreases if y >= 1970 then y - 1970 else 1970 - y
  {
    if y > 1970 {
      DayFromYearIs(y - 1);
      FourthYears(y - 1);
      CenturyYears(y - 1);
      FourthCenturyYears(y - 1);
    } else if y < 1970 {
      DayFromYearIs(y + 1);
      FourthYears(y);
      CenturyYears(y);
      FourthCenturyYears(y);
    }
  }

  /** The first day of month `m` (from 1) within its year, counted from 0; m == 13 is the next year. */
  function MonthStart(y: int, m: int): int
    requires 1 <= m <= 13
    decreases m
  {
    if m == 1 then 0 else MonthStart(y, m - 1) + DaysInMonth(y, m - 1)
  }

  lemma MonthsFillYear(y: int)
    ensures MonthStart(y, 13) == DaysInYear(y)
  {
    assert MonthStart(y, 3) == 31 + DaysInMonth(y, 2);
    assert MonthStart(y, 5) == MonthStart(y, 3) + 61;
    assert MonthStart(y, 7) == MonthStart(y, 5) + 61;
    assert MonthStart(y, 9) == MonthStart(y, 7) + 62;
    assert MonthStart(y, 11) == MonthStart(y, 9) + 61;
    assert MonthStart(y, 13) == MonthStart(y, 11) + 61;
  }

  /** YearFromTime: the year whose first day is the last one not after `day`; `y` is a guess. */
  function YearOf(day: int, y: int): (r: int)
    ensures DayFromYear(r) <= day < DayFromYear(r + 1)
    decreases if day < DayFromYear(y) then DayFromYear(y) - day else day - DayFromYear(y)
  {
    YearLength(y);
    YearLength(y - 1);
    if day < DayFromYear(y) then
      if DayFromYear(y - 1) <= day then y - 1 else YearOf(day, y - 1)
    else if day < DayFromYear(y + 1) then y
    else YearOf(day, y + 1)
  }

  function MonthOf(y: int, dayInYear: int, m: int): (r: int)
    requires 1 <= m <= 12 && MonthStart(y, m) <= dayInYear < MonthStart(y, 13)
    ensures m <= r <= 12 && MonthStart(y, r) <= dayInYear < MonthStart(y, r + 1)
    decreases 12 - m
  {
    if dayInYear < MonthStart(y, m + 1) then m else MonthOf(y, dayInYear, m + 1)
  }

  datatype Day = Day(year: int, month: int, day: int)

  /** getUTCFullYear, getUTCMonth + 1 and getUTCDate of a day number. */
  function Fields(day: int): (r: Day)
    ensures IsRealDate(r.year, r.month, r.day)
    ensures DayFromYear(r.year) <= day < DayFromYear(r.year + 1)
    ensures MonthStart(r.year, r.month) <= day - DayFromYear(r.year) < MonthStart(r.year, r.month + 1)
    ensures r.day == day - DayFromYear(r.year) - MonthStart(r.year, r.month) + 1
  {
    var y := YearOf(day, 1970);
    YearLength(y);
    MonthsFillYear(y);
    var inYear := day - DayFromYear(y);
    var m := MonthOf(y, inYear, 1);
    Day(y, m, inYear - MonthStart(y, m) + 1)
  }

  function DayNumber(y: int, m: int, d: int): int
    requires 1 <= m <= 12
  {
    DayFromYear(y) + MonthStart(y, m) + d - 1
  }

  /** Date.UTC(y, m - 1, d): years 0 to 99 are moved to the 1900s, months carry into years. */
  function DateUtc(y: int, m: int, d: int): int {
    var full := if 0 <= y <= 99 then 1900 + y else y;
    DayNumber(full + (m - 1) / 12, (m - 1) % 12 + 1, d)
  }

  lemma {:induction false} YearsIncrease(y: int, z: int)
    requires y <= z
    ensures DayFromYear(y) + 365 * (z - y) <= DayFromYear(z)
    decreases z - y
  {
    if y < z {
      YearLength(z - 1);
      YearsIncrease(y, z - 1);
    }
  }

  lemma YearIsUnique(day: int, y: int, z: int)
    requires DayFromYear(y) <= day < DayFromYear(y + 1) && DayFromYear(z) <= day < DayFromYear(z + 1)
    ensures y == z
  {
    hide DayFromYear;
    if y < z {
      YearsIncrease(y + 1, z);
    } else if z < y {
      YearsIncrease(z + 1, y);
    }
  }

  lemma {:induction false} MonthsIncrease(y: int, m: int, n: int)
    requires 1 <= m <= n <= 13
    ensures MonthStart(y, m) + 28 * (n - m) <= MonthStart(y, n)
    decreases n - m
  {
    if m < n {
      MonthsIncrease(y, m, n - 1);
    }
  }

  lemma MonthIsUnique(y: int, inYear: int, m: int, n: int)
    requires 1 <= m <= 12 && MonthStart(y, m) <= inYear < MonthStart(y, m + 1)
    requires 1 <= n <= 12 && MonthStart(y, n) <= inYear < MonthStart(y, n + 1)
    ensures m == n
  {
    hide MonthStart;
    if m < n {
      MonthsIncrease(y, m + 1, n);
    } else if n < m {
      MonthsIncrease(y, n + 1, m);
    }
  }

  lemma DateLiesInYear(y: int, m: int, d: int)
    requires IsRealDate(y, m, d)
    ensures DayFromYear(y) <= DayNumber(y, m, d) < DayFromYear(y + 1)
  {
    hide DayFromYear;
    YearLength(y);
    MonthsFillYear(y);
    MonthsIncrease(y, 1, m);
    MonthsIncrease(y, m + 1, 13);
  }

  /** The fields of a real date's day number are that date. */
  lemma FieldsOfRealDate(y: int, m: int, d: int)
    requires IsRealDate(y, m, d)
    ensures Fields(DayNumber(y, m, d)) == Day(y, m, d)
  {
    var f := Fields(DayNumber(y, m, d));
    DateLiesInYear(y, m, d);
    hide DayFromYear, Fields;
    YearIsUnique(DayNumber(y, m, d), y, f.year);
    MonthIsUnique(y, DayNumber(y, m, d) - DayFromYear(y), m, f.month);
  }

  lemma YearAtLeast(day: int, y: int)
    requires DayFromYear(y) <= day
    ensures Fields(day).year >= y
  {
    hide DayFromYear, Fields;
    var f := Fields(day);
    if f.year < y {
      YearsIncrease(f.year + 1, y);
    }
  }

  /** Years 0 to 99 come out of Date.UTC as years after 1897. */
  lemma EarlyYearsMove(y: int, m: int, d: int)
    requires 0 <= y <= 99 && 0 <= m && 0 <= d
    ensures Fields(DateUtc(y, m, d)).year >= 1898
  {
    var first, month := 1900 + y + (m - 1) / 12, (m - 1) % 12 + 1;
    hide DayFromYear, Fields;
    YearsIncrease(1898, 1899);
    YearsIncrease(1899, first);
    MonthsIncrease(first, 1, month);
    YearAtLeast(DateUtc(y, m, d), 1898);
  }

  lemma UtcOfRealDate(y: int, m: int, d: int)
    requires y >= 100 && 1 <= m <= 12
    ensures DateUtc(y, m, d) == DayNumber(y, m, d)
  {
    hide DayFromYear, MonthStart;
  }

  /** The check the parser makes, for two-digit months and days, holds exactly on real dates. */
  lemma UtcCheckIsCalendar(y: int, m: int, d: int)
    requires 0 <= y && 0 <= m <= 99 && 0 <= d <= 99
    ensures Fields(DateUtc(y, m, d)) == Day(y, m, d) <==> y >= 100 && IsRealDate(y, m, d)
  {
    hide Fields, DayFromYear, MonthStart, DateUtc, DayNumber;
    var f := Fields(DateUtc(y, m, d));
    if y <= 99 {
      EarlyYearsMove(y, m, d);
    } else if IsRealDate(y, m, d) {
      FieldsOfRealDate(y, m, d);
      UtcOfRealDate(y, m, d);
    }
  }

  // ---------------------------------------------------------------------------
  // Decimal numerals
  // ---------------------------------------------------------------------------

  predicate IsDigit(c: char) {
    '0' <= c <= '9'
  }

  predicate AllDigits(s: string) {
    forall c <- s :: IsDigit(c)
  }

  function DigitChar(n: int): (c: char)
    requires 0 <= n < 10
    ensures IsDigit(c) && c as int - '0' as int == n
  {
    (n + '0' as int) as char
  }

  function Decimal(n: nat): (s: string)
    ensures s != []
  {
    if n < 10 then [DigitChar(n)] else Decimal(n / 10) + [DigitChar(n % 10)]
  }

  /** String(n) */
  function Text(n: int): string {
    if n < 0 then "-" + Decimal(-n) else Decimal(n)
  }

  function PadStart(s: string, n: nat): (r: string)
    ensures |r| == if |s| < n then n else |s|
    ensures forall c <- s :: c in r
    ensures forall c <- r :: c in s || c == '0'
    decreases n - |s|
  {
    if |s| >= n then s else PadStart(['0'] + s, n)
  }

  /** Number(s), on digits. */
  function Value(s: string): nat
    requires AllDigits(s)
  {
    if s == [] then 0
    else
      assert forall c <- s[..|s| - 1] :: c in s;
      assert s[|s| - 1] in s;
      10 * Value(s[..|s| - 1]) + (s[|s| - 1] as int - '0' as int)
  }

  lemma {:induction false} DecimalIsDigits(n: nat)
    ensures AllDigits(Decimal(n)) && Value(Decimal(n)) == n
  {
    if n >= 10 {
      DecimalIsDigits(n / 10);
      var init := Decimal(n / 10);
      assert Decimal(n) == init + [DigitChar(n % 10)];
      assert Decimal(n)[..|Decimal(n)| - 1] == init;
    }
  }

  function Pow10(k: nat): nat {
    if k == 0 then 1 else 10 * Pow10(k - 1)
  }

  lemma {:induction false} DecimalLength(n: nat, k: nat)
    requires k >= 1
    ensures |Decimal(n)| <= k <==> n < Pow10(k)
  {
    if n >= 10 {
      if k == 1 {
        assert Pow10(1) == 10;
      } else {
        DecimalLength(n / 10, k - 1);
      }
    } else {
      PowAtLeastTen(k);
    }
  }

  lemma {:induction false} PowAtLeastTen(k: nat)
    requires k >= 1
    ensures Pow10(k) >= 10
  {
    if k > 1 {
      PowAtLeastTen(k - 1);
    }
  }

  lemma {:induction false} PadSnoc(s: string, c: char, k: nat)
    ensures PadStart(s + [c], k + 1) == PadStart(s, k) + [c]
    decreases k - |s|
  {
    if |s| < k {
      PadSnoc(['0'] + s, c, k);
      assert (['0'] + s) + [c] == ['0'] + (s + [c]);
    }
  }

  lemma {:induction false} LeadingZero(s: string)
    requires AllDigits(s)
    ensures AllDigits(['0'] + s) && Value(['0'] + s) == Value(s)
  {
    var t := ['0'] + s;
    if s == [] {
      assert t[..0] == [];
    } else {
      var init := s[..|s| - 1];
      assert forall x <- init :: x in s;
      LeadingZero(init);
      assert t[..|t| - 1] == ['0'] + init;
    }
  }

  lemma {:induction false} PadKeepsValue(s: string, k: nat)
    requires AllDigits(s)
    ensures AllDigits(PadStart(s, k)) && Value(PadStart(s, k)) == Value(s)
    decreases k - |s|
  {
    if |s| < k {
      LeadingZero(s);
      PadKeepsValue(['0'] + s, k);
    }
  }

  /** A padded numeral is determined by its length and value. */
  lemma {:induction false} PaddedIsDetermined(s: string)
    requires s != [] && AllDigits(s)
    ensures PadStart(Decimal(Value(s)), |s|) == s
  {
    var init, c := s[..|s| - 1], s[|s| - 1];
    assert s == init + [c] && c in s && forall x <- init :: x in s;
    var n := Value(s);
    assert DigitChar(n % 10) == c && n / 10 == Value(init);
    if init != [] {
      PaddedIsDetermined(init);
      if n >= 10 {
        PadSnoc(Decimal(n / 10), c, |init|);
      } else {
        PadSnoc(['0'], c, |init|);
        assert ['0'] + [c] == ['0', c] && PadStart([c], |s|) == PadStart(['0'] + [c], |s|);
      }
    }
  }

  lemma PaddedLength(n: nat, k: nat)
    requires k >= 1
    ensures |PadStart(Decimal(n), k)| == k <==> n < Pow10(k)
  {
    DecimalLength(n, k);
  }

  // ---------------------------------------------------------------------------
  // Segments
  // ---------------------------------------------------------------------------

  function Join(segments: seq<string>): string {
    if segments == [] then ""
    else if |segments| == 1 then segments[0]
    else segments[0] + ['/'] + Join(segments[1..])
  }

  function Split(s: string): (r: seq<string>)
    ensures r != []
  {
    if s == [] then [[]]
    else
      var rest := Split(s[1..]);
      if s[0] == '/' then [[]] + rest else [[s[0]] + rest[0]] + rest[1..]
  }

  lemma JoinOf(segment: string, rest: seq<string>)
    ensures Join([segment] + rest) == if rest == [] then segment else segment + ['/'] + Join(rest)
  {
    assert ([segment] + rest)[1..] == rest;
  }

  lemma JoinExtends(c: char, segments: seq<string>)
    requires segments != []
    ensures Join([[c] + segments[0]] + segments[1..]) == [c] + Join(segments)
    ensures Join([[]] + segments) == ['/'] + Join(segments)
  {
    hide Join;
    var segment, rest := segments[0], segments[1..];
    assert segments == [segment] + rest;
    JoinOf([c] + segment, rest);
    JoinOf(segment, rest);
    JoinOf([], segments);
    Regroup(c, segment, Join(rest));
    Regroup(c, [], Join(segments));
  }

  lemma Regroup(c: char, a: string, b: string)
    ensures ([c] + a) + ['/'] + b == [c] + (a + ['/'] + b) && [] + ['/'] + b == ['/'] + b
  {
  }

  lemma {:induction false} JoinSplit(s: string)
    ensures Join(Split(s)) == s
  {
    hide Join;
    if s == [] {
      JoinOfOne([]);
    } else {
      JoinSplit(s[1..]);
      JoinExtends(s[0], Split(s[1..]));
      assert s == [s[0]] + s[1..];
    }
  }

  lemma JoinOfOne(segment: string)
    ensures Join([segment]) == segment
  {
  }

  lemma {:induction false} SplitSegment(segment: string, rest: string)
    requires '/' !in segment
    ensures Split(segment + ['/'] + rest) == [segment] + Split(rest)
    ensures Split(segment) == [segment]
  {
    var s := segment + ['/'] + rest;
    if segment == [] {
      assert s[1..] == rest;
    } else {
      SplitSegment(segment[1..], rest);
      assert s[1..] == segment[1..] + ['/'] + rest;
      assert segment == [segment[0]] + segment[1..];
    }
  }

  lemma {:induction false} SplitJoin(segments: seq<string>)
    requires segments != [] && forall x <- segments :: '/' !in x
    ensures Split(Join(segments)) == segments
  {
    SplitSegment(segments[0], Join(segments[1..]));
    if |segments| > 1 {
      SplitJoin(segments[1..]);
      assert segments == [segments[0]] + segments[1..];
    } else {
      assert segments == [segments[0]];
    }
  }

  // ---------------------------------------------------------------------------
  // Keys
  // ---------------------------------------------------------------------------

  datatype Purpose =
    | MESSAGE_INBOUND | MESSAGE_OUTBOUND | KNOWLEDGE_SOURCE | BULK_IMPORT | REPORT_EXPORT | AVATAR
    | AUTOMATION_ARTIFACT

  function PurposeSegment(p: Purpose): string {
    match p
    case MESSAGE_INBOUND => "message-inbound"
    case MESSAGE_OUTBOUND => "message-outbound"
    case KNOWLEDGE_SOURCE => "knowledge-source"
    case BULK_IMPORT => "bulk-import"
    case REPORT_EXPORT => "report-export"
    case AVATAR => "avatar"
    case AUTOMATION_ARTIFACT => "automation-artifact"
  }

  function PurposeOf(segment: string): Option<Purpose> {
    if segment == "message-inbound" then Some(MESSAGE_INBOUND)
    else if segment == "message-outbound" then Some(MESSAGE_OUTBOUND)
    else if segment == "knowledge-source" then Some(KNOWLEDGE_SOURCE)
    else if segment == "bulk-import" then Some(BULK_IMPORT)
    else if segment == "report-export" then Some(REPORT_EXPORT)
    else if segment == "avatar" then Some(AVATAR)
    else if segment == "automation-artifact" then Some(AUTOMATION_ARTIFACT)
    else None
  }

  lemma PurposesAreDistinct(p: Purpose, segment: string)
    ensures PurposeOf(segment) == Some(p) <==> segment == PurposeSegment(p)
    ensures '/' !in PurposeSegment(p)
  {
    var inbound, outbound := "message-inbound", "message-outbound";
    assert |inbound| != |outbound|;
  }

  predicate IsSegment(s: string) {
    s != [] && forall c <- s :: 'A' <= c <= 'Z' || 'a' <= c <= 'z' || IsDigit(c) || c == '_' || c == '-'
  }

  /** Opaque segments are digits, letters, underscores and dashes, by their codes, and not empty. */
  lemma SegmentExactlyWhen(s: string)
    ensures IsSegment(s) <==>
            && |s| > 0
            && forall c <- s ::
                 c as int in {45, 95} || 48 <= c as int < 58 || 65 <= c as int < 91 || 97 <= c as int < 123
  {
    assert forall c: char ::
      ('A' <= c <= 'Z' || 'a' <= c <= 'z' || IsDigit(c) || c == '_' || c == '-') <==>
      (c as int in {45, 95} || 48 <= c as int < 58 || 65 <= c as int < 91 || 97 <= c as int < 123);
  }

  datatype KeyError = NotOpaque(name: string) | InvalidCreatedAt | NotConvention | UnknownPurpose | InvalidPartition

  /** `createdAt` is in milliseconds, None an invalid date. */
  datatype Input = Input(workspaceId: string, purpose: Purpose, createdAt: Option<int>, opaqueObjectId: string)

  datatype Parsed = Parsed(workspaceId: string, purpose: Purpose, day: Day, opaqueObjectId: string)

  function SegmentsOf(workspaceId: string, p: Purpose, day: Day, opaqueObjectId: string): seq<string> {
    ["workspaces", workspaceId, PurposeSegment(p), PadStart(Text(day.year), 4),
     PadStart(Text(day.month), 2), PadStart(Text(day.day), 2), opaqueObjectId]
  }

  function BuildObjectKey(x: Input): Result<string, KeyError> {
    if !IsSegment(x.workspaceId) then Err(NotOpaque("workspaceId"))
    else if !IsSegment(x.opaqueObjectId) then Err(NotOpaque("opaqueObjectId"))
    else if x.createdAt.None? then Err(InvalidCreatedAt)
    else Ok(Join(SegmentsOf(x.workspaceId, x.purpose, Fields(x.createdAt.value / MS_PER_DAY), x.opaqueObjectId)))
  }

  predicate Matches(s: string, n: nat) {
    |s| == n && AllDigits(s)
  }

  function ParseDay(y: string, m: string, d: string): Option<Day> {
    if Matches(y, 4) && Matches(m, 2) && Matches(d, 2)
       && Fields(DateUtc(Value(y), Value(m), Value(d))) == Day(Value(y), Value(m), Value(d))
    then Some(Day(Value(y), Value(m), Value(d))) else None
  }

  function ParseObjectKey(key: string): Result<Parsed, KeyError> {
    var segments := Split(key);
    if |segments| != 7 || segments[0] != "workspaces" then Err(NotConvention)
    else if !IsSegment(segments[1]) then Err(NotOpaque("workspaceId"))
    else if !IsSegment(segments[6]) then Err(NotOpaque("opaqueObjectId"))
    else if PurposeOf(segments[2]).None? then Err(UnknownPurpose)
    else if ParseDay(segments[3], segments[4], segments[5]).None? then Err(InvalidPartition)
    else Ok(Parsed(segments[1], PurposeOf(segments[2]).value,
                   ParseDay(segments[3], segments[4], segments[5]).value, segments[6]))
  }

  // ---------------------------------------------------------------------------
  // Round trips
  // ---------------------------------------------------------------------------

  lemma TwoDigits(n: nat)
    requires n <= 99
    ensures Matches(PadStart(Text(n), 2), 2) && Value(PadStart(Text(n), 2)) == n
  {
    assert Pow10(2) == 100;
    DecimalIsDigits(n);
    PadKeepsValue(Decimal(n), 2);
    PaddedLength(n, 2);
  }

  lemma YearSegment(y: int)
    ensures Matches(PadStart(Text(y), 4), 4) <==> 0 <= y <= 9999
    ensures 0 <= y <= 9999 ==> Value(PadStart(Text(y), 4)) == y
    ensures '/' !in PadStart(Text(y), 4)
  {
    assert Pow10(4) == 10_000 by {
      assert Pow10(2) == 100;
    }
    var n: nat := if y < 0 then -y else y;
    DecimalIsDigits(n);
    if y < 0 {
      assert Text(y)[0] == '-' && '-' in PadStart(Text(y), 4);
    } else {
      PadKeepsValue(Decimal(n), 4);
      PaddedLength(n, 4);
    }
  }

  lemma DateSegments(day: Day)
    requires IsRealDate(day.year, day.month, day.day)
    ensures ParseDay(PadStart(Text(day.year), 4), PadStart(Text(day.month), 2), PadStart(Text(day.day), 2))
            == if 100 <= day.year <= 9999 then Some(day) else None
  {
    YearSegment(day.year);
    TwoDigits(day.month);
    TwoDigits(day.day);
    if 0 <= day.year <= 9999 {
      UtcCheckIsCalendar(day.year, day.month, day.day);
    }
  }

  lemma SegmentsHaveNoSlash(workspaceId: string, p: Purpose, day: Day, opaqueObjectId: string)
    requires IsSegment(workspaceId) && IsSegment(opaqueObjectId) && IsRealDate(day.year, day.month, day.day)
    ensures forall s <- SegmentsOf(workspaceId, p, day, opaqueObjectId) :: '/' !in s
  {
    YearSegment(day.year);
    TwoDigits(day.month);
    TwoDigits(day.day);
    PurposesAreDistinct(p, "");
  }

  /** What the builder rejects, and for which part. */
  lemma RejectedExactlyWhen(x: Input)
    ensures BuildObjectKey(x).Ok? <==> IsSegment(x.workspaceId) && IsSegment(x.opaqueObjectId) && x.createdAt.Some?
    ensures !IsSegment(x.workspaceId) ==> BuildObjectKey(x) == Err(NotOpaque("workspaceId"))
    ensures IsSegment(x.workspaceId) && !IsSegment(x.opaqueObjectId) ==>
              BuildObjectKey(x) == Err(NotOpaque("opaqueObjectId"))
  {
  }

  /**
    A built key parses back to its workspace, purpose, UTC date and id exactly when the year has
    three or four digits; otherwise it is rejected for its date.
   */
  lemma BuiltKeysRoundTripExactlyWhen(x: Input)
    requires BuildObjectKey(x).Ok?
    ensures var day := Fields(x.createdAt.value / 86_400_000);
            ParseObjectKey(BuildObjectKey(x).value) ==
            if 100 <= day.year <= 9999 then Ok(Parsed(x.workspaceId, x.purpose, day, x.opaqueObjectId))
            else Err(InvalidPartition)
  {
    var day := Fields(x.createdAt.value / MS_PER_DAY);
    var segments := SegmentsOf(x.workspaceId, x.purpose, day, x.opaqueObjectId);
    SegmentsHaveNoSlash(x.workspaceId, x.purpose, day, x.opaqueObjectId);
    SplitJoin(segments);
    DateSegments(day);
    PurposesAreDistinct(x.purpose, PurposeSegment(x.purpose));
  }

  lemma ParsedDay(y: string, m: string, d: string)
    requires ParseDay(y, m, d).Some?
    ensures var day := ParseDay(y, m, d).value;
            && 100 <= day.year <= 9999 && IsRealDate(day.year, day.month, day.day)
            && PadStart(Text(day.year), 4) == y && PadStart(Text(day.month), 2) == m
            && PadStart(Text(day.day), 2) == d
  {
    PaddedIsDetermined(y);
    PaddedIsDetermined(m);
    PaddedIsDetermined(d);
    YearSegment(Value(y));
    TwoDigitValue(m);
    TwoDigitValue(d);
    UtcCheckIsCalendar(Value(y), Value(m), Value(d));
  }

  lemma TwoDigitValue(s: string)
    requires Matches(s, 2)
    ensures Value(s) <= 99
  {
    assert s[0] in s && s[1] in s && s[..1] == [s[0]];
    assert Value(s) == 10 * Value(s[..1]) + (s[1] as int - '0' as int);
    assert Value([s[0]]) == 10 * Value([]) + (s[0] as int - '0' as int);
  }

  /**
    Every accepted key has a real calendar date of the years 100 to 9999, and is exactly the key
    built from the parsed parts, at any time of that day.
   */
  lemma AcceptedKeysAreCanonical(key: string, ms: int)
    requires ParseObjectKey(key).Ok? && 0 <= ms < 86_400_000
    ensures var p := ParseObjectKey(key).value;
            && 100 <= p.day.year <= 9999 && IsRealDate(p.day.year, p.day.month, p.day.day)
            && BuildObjectKey(Input(p.workspaceId, p.purpose,
                 Some(DayNumber(p.day.year, p.day.month, p.day.day) * 86_400_000 + ms), p.opaqueObjectId)) == Ok(key)
  {
    hide Fields, DateUtc, Split, Join, Value, PadStart, Text, IsSegment, ParseDay, DayNumber, PurposeOf;
    hide PurposeSegment, IsRealDate;
    var p, segments := ParseObjectKey(key).value, Split(key);
    ParsedDay(segments[3], segments[4], segments[5]);
    PurposesAreDistinct(p.purpose, segments[2]);
    var number := DayNumber(p.day.year, p.day.month, p.day.day);
    assert (number * MS_PER_DAY + ms) / MS_PER_DAY == number;
    FieldsOfRealDate(p.day.year, p.day.month, p.day.day);
    assert segments == SegmentsOf(p.workspaceId, p.purpose, p.day, p.opaqueObjectId);
    JoinSplit(key);
  }

  ghost predicate BuiltInRange(x: Input, key: string) {
    BuildObjectKey(x) == Ok(key) && 100 <= Fields(x.createdAt.value / MS_PER_DAY).year <= 9999
  }

  /** The parser accepts exactly what the builder makes for the years 100 to 9999. */
  lemma AcceptedExactlyWhenBuilt(key: string)
    ensures ParseObjectKey(key).Ok? <==> exists x: Input :: BuiltInRange(x, key)
  {
    hide ParseObjectKey, Fields, DayFromYear, MonthStart, SegmentsOf, Join, IsSegment;
    if ParseObjectKey(key).Ok? {
      AcceptedKeysAreCanonical(key, 0);
      var p := ParseObjectKey(key).value;
      var number := DayNumber(p.day.year, p.day.month, p.day.day);
      var x := Input(p.workspaceId, p.purpose, Some(number * MS_PER_DAY + 0), p.opaqueObjectId);
      assert x.createdAt.value / MS_PER_DAY == number;
      FieldsOfRealDate(p.day.year, p.day.month, p.day.day);
      assert BuiltInRange(x, key);
    }
    forall x: Input | BuiltInRange(x, key)
      ensures ParseObjectKey(key).Ok?
    {
      BuiltKeysRoundTripExactlyWhen(x);
    }
  }
}
