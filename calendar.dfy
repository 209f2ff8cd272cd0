/** The Graph calendar-event payload built by `createCalendarEvent`. */
module Calendar {
  import opened Types

  datatype DateTimeTimeZone = DateTimeTimeZone(dateTime: string, timeZone: string)
  datatype ItemBody = ItemBody(contentType: string, content: string)
  datatype Event = Event(subject: string, start: DateTimeTimeZone, end: DateTimeTimeZone, body: ItemBody, showAs: string)

  /** One POST to the Graph API: the resource path and the event it carries. */
  datatype EventPost = EventPost(path: string, event: Event)

  /** The fields a reader of the calendar can recover from a leave event. */
  datatype LeaveNotice = LeaveNotice(leaveType: string, start: string, end: string, notes: string)

  const LeaveSuffix: string := " Leave"
  const EventsPath: string := "/me/events"

  predicate IsLeapYear(y: int) {
    y % 4 == 0 && (y % 100 != 0 || y % 400 == 0)
  }

  /** Days from March 1 of year `y` to March 1 of year `y + 1`. */
  function MarchYearLength(y: int): int {
    if IsLeapYear(y + 1) then 366 else 365
  }

  /** Walks the March-based years of a 400-year era from year `yoe` on, until `doe` days fit in one:
      that year's offset in the era and the day within it. */
  function YearOfEra(era: int, doe: nat, yoe: nat): (r: (nat, nat))
    ensures r.0 >= yoe && r.1 < MarchYearLength(era * 400 + r.0)
    decreases doe
  {
    var length := MarchYearLength(era * 400 + yoe);
    if doe < length then (yoe, doe) else YearOfEra(era, doe - length, yoe + 1)
  }

  /** Days in month `m` (1..12), February counting 29 in a leap year. */
  function MonthLength(m: int, leap: bool): int
    requires 1 <= m <= 12
  {
    if m == 2 then (if leap then 29 else 28)
    else if m == 4 || m == 6 || m == 9 || m == 11 then 30
    else 31
  }

  /** A real calendar date: the month exists and the day exists in that month of that year. */
  predicate ValidDate(y: int, m: int, d: int) {
    1 <= m <= 12 && 1 <= d <= MonthLength(m, IsLeapYear(y))
  }

  /** Position of month `m` in a year that starts in March (March is 0, February is 11). */
  function MarchMonthIndex(m: int): int {
    if m > 2 then m - 3 else m + 9
  }

  /** Day within the March-based year on which March-based month `mp` starts. */
  function MonthStart(mp: int): int {
    (153 * mp + 2) / 5
  }

  /** Month and day of a day within a March-based year (day 0 is March 1). */
  function MonthDay(doy: nat): (md: (int, int))
    requires doy <= 365
    ensures 1 <= md.0 <= 12 && 1 <= md.1 <= MonthLength(md.0, doy == 365)
    ensures MonthStart(MarchMonthIndex(md.0)) + md.1 - 1 == doy
  {
    var mp := (5 * doy + 2) / 153;
    assert 0 <= mp <= 11;
    assert 153 * mp <= 5 * doy + 2 < 153 * mp + 153;
    var day := doy - MonthStart(mp) + 1;
    (if mp < 10 then mp + 3 else mp - 9, day)
  }

  /** The calendar date of day `doy` of March-based year `yoe` in era `era`: January and February
      belong to the next calendar year. */
  function MarchDate(era: int, yoe: nat, doy: nat): (ymd: (int, int, int))
    requires doy < MarchYearLength(era * 400 + yoe)
    ensures ValidDate(ymd.0, ymd.1, ymd.2)
    ensures ymd.0 == era * 400 + yoe + (if ymd.1 <= 2 then 1 else 0)
    ensures MonthStart(MarchMonthIndex(ymd.1)) + ymd.2 - 1 == doy
  {
    var (month, day) := MonthDay(doy);
    var year := era * 400 + yoe;
    (if month <= 2 then year + 1 else year, month, day)
  }

  /** Proleptic Gregorian (year, month, day) of a day number; eras of 400 years start on March 1 of year 0. */
  function CivilFromDays(z: Date): (ymd: (int, int, int))
    ensures ValidDate(ymd.0, ymd.1, ymd.2)
  {
    var shifted := z + 719468;
    var era := shifted / 146097;
    var walked := YearOfEra(era, shifted % 146097, 0);
    MarchDate(era, walked.0, walked.1)
  }

  /** Days before March-based year `yoe` of an era: 365 a year plus a leap day every fourth year but every hundredth. */
  function DaysBeforeYear(yoe: int): int {
    yoe * 365 + yoe / 4 - yoe / 100
  }

  /** Day number (days since 1970-01-01) of a date, in closed form. */
  function DaysFromCivil(y: int, m: int, d: int): int {
    var marchYear := if m <= 2 then y - 1 else y;
    var era := marchYear / 400;
    var yoe := marchYear - era * 400;
    var doe := DaysBeforeYear(yoe) + MonthStart(MarchMonthIndex(m)) + d - 1;
    era * 146097 + doe - 719468
  }

  /** Whole eras are multiples of 4, 100 and 400 years. */
  lemma EraRemainders(era: int, n: int)
    ensures (400 * era + n) % 4 == n % 4
    ensures (400 * era + n) % 100 == n % 100
    ensures (400 * era + n) % 400 == n % 400
  {
    var y := 400 * era + n;
    assert y == 4 * (100 * era) + n;
    assert y == 100 * (4 * era) + n;
  }

  /** Whole 400-year eras do not move the leap-year rule. */
  lemma LeapInEra(era: int, n: int)
    ensures IsLeapYear(era * 400 + n) == IsLeapYear(n)
  {
    EraRemainders(era, n);
  }

  /** Counting multiples of 4 and of 100 up to `n + 1` rather than `n`. */
  lemma MultiplesStep(n: nat)
    ensures (n + 1) / 4 == n / 4 + (if (n + 1) % 4 == 0 then 1 else 0)
    ensures (n + 1) / 100 == n / 100 + (if (n + 1) % 100 == 0 then 1 else 0)
  {
  }

  /** Within an era, March-based year `yoe` has the length the leap rule gives year `yoe + 1`. */
  lemma YearStep(yoe: nat)
    requires yoe < 399
    ensures DaysBeforeYear(yoe + 1) == DaysBeforeYear(yoe) + (if IsLeapYear(yoe + 1) then 366 else 365)
  {
    MultiplesStep(yoe);
    assert (yoe + 1) % 400 == yoe + 1;
  }

  /** The year walk only moves days into whole years: years before plus day within stay constant. */
  lemma {:induction false} YearOfEraSpends(era: int, doe: nat, yoe: nat)
    requires yoe <= 399 && DaysBeforeYear(yoe) + doe < 146097
    ensures YearOfEra(era, doe, yoe).0 <= 399
    ensures DaysBeforeYear(YearOfEra(era, doe, yoe).0) + YearOfEra(era, doe, yoe).1 == DaysBeforeYear(yoe) + doe
    decreases doe
  {
    var length := MarchYearLength(era * 400 + yoe);
    LeapInEra(era, yoe + 1);
    if doe >= length {
      YearStep(yoe);
      YearOfEraSpends(era, doe - length, yoe + 1);
    }
  }

  /** The closed form of a date given by its era, its March-based year and day within that year. */
  lemma DaysFromMarchDate(era: int, yoe: nat, doy: nat)
    requires yoe < 400 && doy < MarchYearLength(era * 400 + yoe)
    ensures var ymd := MarchDate(era, yoe, doy);
      DaysFromCivil(ymd.0, ymd.1, ymd.2) == era * 146097 + DaysBeforeYear(yoe) + doy - 719468
  {
    var marchYear := era * 400 + yoe;
    assert marchYear / 400 == era;
  }

  /** The closed form recovers every day number from the date the year walk gives it. */
  lemma CivilRoundTrip(z: Date)
    ensures DaysFromCivil(CivilFromDays(z).0, CivilFromDays(z).1, CivilFromDays(z).2) == z
  {
    var shifted := z + 719468;
    var era := shifted / 146097;
    var doe := shifted % 146097;
    YearOfEraSpends(era, doe, 0);
    var walked := YearOfEra(era, doe, 0);
    DaysFromMarchDate(era, walked.0, walked.1);
    assert CivilFromDays(z) == MarchDate(era, walked.0, walked.1);
  }

  function Digit(n: nat): char
    requires n < 10
  {
    "0123456789"[n]
  }

  /** Decimal digits of `n`, no leading zeros. */
  function Decimal(n: nat): (s: string)
    ensures 1 <= |s|
    ensures n < 10 ==> |s| == 1
    ensures 10 <= n < 100 ==> |s| == 2
    ensures 100 <= n < 1000 ==> |s| == 3
    ensures 1000 <= n < 10000 ==> |s| == 4
  {
    if n < 10 then [Digit(n)] else Decimal(n / 10) + [Digit(n % 10)]
  }

  /** Decimal digits of `n`, left-padded with zeros to `width`. */
  function Padded(n: nat, width: nat): (s: string)
    ensures |s| >= width
    ensures |Decimal(n)| <= width ==> |s| == width
  {
    var digits := Decimal(n);
    if |digits| >= width then digits else seq(width - |digits|, _ => '0') + digits
  }

  /** The year as `toISOString` writes it: four digits, or a sign and six digits outside 0..9999. */
  function IsoYear(y: int): string {
    if 0 <= y <= 9999 then Padded(y, 4)
    else if y < 0 then "-" + Padded(-y, 6)
    else "+" + Padded(y, 6)
  }

  /** `toISOString` of a date at UTC midnight. */
  function ToIsoString(d: Date): (s: string)
    ensures 0 <= CivilFromDays(d).0 <= 9999 ==> |s| == 24 && s[10] == 'T' && s[4] == '-' && s[7] == '-'
  {
    var (y, m, day) := CivilFromDays(d);
    IsoYear(y) + "-" + Padded(m, 2) + "-" + Padded(day, 2) + "T00:00:00.000Z"
  }

  /** The event object: subject, UTC start and end, plain-text body and out-of-office. */
  function LeaveEvent(startDate: Date, endDate: Date, leaveType: string, notes: string): Event {
    Event(
      leaveType + LeaveSuffix,
      DateTimeTimeZone(ToIsoString(startDate), "UTC"),
      DateTimeTimeZone(ToIsoString(endDate), "UTC"),
      ItemBody("text", notes),
      "oof")
  }

  /** Reads a leave event back: `None` unless it has the shape `LeaveEvent` gives. */
  function ReadLeaveEvent(e: Event): Option<LeaveNotice> {
    var n := |e.subject|;
    if n >= |LeaveSuffix| && e.subject[n - |LeaveSuffix|..] == LeaveSuffix
       && e.start.timeZone == "UTC" && e.end.timeZone == "UTC"
       && e.body.contentType == "text" && e.showAs == "oof"
    then Some(LeaveNotice(e.subject[..n - |LeaveSuffix|], e.start.dateTime, e.end.dateTime, e.body.content))
    else None
  }

  /** `createCalendarEvent`: nothing without a token, otherwise one POST of the leave event to `/me/events`. */
  function CreateCalendarEvent(startDate: Date, endDate: Date, leaveType: string, notes: string, accessToken: string)
    : (post: Option<EventPost>)
    ensures post.None? <==> accessToken == ""
    ensures post.Some? ==> post.value.path == EventsPath
    ensures post.Some? ==>
      ReadLeaveEvent(post.value.event) == Some(LeaveNotice(leaveType, ToIsoString(startDate), ToIsoString(endDate), notes))
  {
    if accessToken == "" then None
    else
      var event := LeaveEvent(startDate, endDate, leaveType, notes);
      assert event.subject[..|leaveType|] == leaveType;
      Some(EventPost(EventsPath, event))
  }
}
