/** The publish-time window of the search route (app/api/search/route.ts,
    getDateRangeForFilter and isVideoInTimeRange).

    Instants are integer milliseconds since the Unix epoch. Local wall-clock
    time is the instant shifted by a fixed `utcOffset`; a local calendar day
    is a whole multiple of 24 hours of that shifted time. */
module DateRange {
  import opened Wrappers
  import opened TikTok

  const MsPerDay: int := 86400000

  /** The clock reading the route takes (`new Date()`) and the offset of
      the server's local time zone. */
  datatype Clock = Clock(now: int, utcOffset: int)

  datatype Window = Window(start: int, end: int)

  /** The index of the local calendar day that contains instant `t`. */
  function LocalDay(clock: Clock, t: int): int {
    (t + clock.utcOffset) / MsPerDay
  }

  function Today(clock: Clock): int {
    LocalDay(clock, clock.now)
  }

  /** `t` is 00:00:00.000 local time of day `day`. */
  predicate IsStartOfDay(clock: Clock, t: int, day: int) {
    LocalDay(clock, t) == day && LocalDay(clock, t - 1) == day - 1
  }

  /** Local midnight at the start of day `day`: what `setHours(0, 0, 0, 0)`
      yields on any instant of that day. */
  function StartOfDay(clock: Clock, day: int): (t: int)
    ensures IsStartOfDay(clock, t, day)
  {
    day * MsPerDay - clock.utcOffset
  }

  /** How many calendar days before today each bounded filter starts;
      `None` for the filters whose window starts at the epoch. */
  function LookbackDays(p: PublishTime): Option<nat> {
    match p
    case Yesterday => Some(1)
    case ThisWeek => Some(7)
    case ThisMonth => Some(30)
    case LastThreeMonths => Some(90)
    case LastSixMonths => Some(180)
    case _ => None
  }

  /** getDateRangeForFilter: the end is the last millisecond of today for
      every filter; the start is local midnight `LookbackDays(p)` days ago,
      or the epoch for `all-time` and unrecognised values. */
  function WindowFor(p: PublishTime, clock: Clock): (w: Window)
    ensures LocalDay(clock, w.end) == Today(clock) && LocalDay(clock, w.end + 1) == Today(clock) + 1
    ensures LookbackDays(p).Some? ==> IsStartOfDay(clock, w.start, Today(clock) - LookbackDays(p).value)
    ensures LookbackDays(p).None? ==> w.start == 0
  {
    var today := Today(clock);
    var end := StartOfDay(clock, today + 1) - 1;
    var start :=
      match p
      case Yesterday => StartOfDay(clock, today - 1)
      case ThisWeek => StartOfDay(clock, today - 7)
      case ThisMonth => StartOfDay(clock, today - 30)
      case LastThreeMonths => StartOfDay(clock, today - 90)
      case LastSixMonths => StartOfDay(clock, today - 180)
      case _ => 0;
    Window(start, end)
  }

  /** isVideoInTimeRange: `all-time` accepts without computing a window;
      otherwise the instant must exist and lie in the window, both ends
      included. An invalid date compares false with everything. */
  function InRange(p: PublishTime, clock: Clock, created: Option<int>): (b: bool)
    ensures p == AllTime ==> b
    ensures p != AllTime ==>
      (b <==> created.Some? && WindowFor(p, clock).start <= created.value <= WindowFor(p, clock).end)
  {
    if p == AllTime then true
    else
      var w := WindowFor(p, clock);
      match created
      case None => false
      case Some(t) => w.start <= t && t <= w.end
  }

  lemma DayIsMonotone(clock: Clock, t: int, u: int)
    requires t <= u
    ensures LocalDay(clock, t) <= LocalDay(clock, u)
  {
  }

  /** A bounded filter accepts an instant exactly when its local calendar
      day is today or one of the `LookbackDays(p)` days before it. */
  lemma InRangeByCalendarDay(p: PublishTime, clock: Clock, t: int)
    requires LookbackDays(p).Some?
    ensures InRange(p, clock, Some(t)) <==>
      Today(clock) - LookbackDays(p).value <= LocalDay(clock, t) <= Today(clock)
  {
    var w := WindowFor(p, clock);
    if t < w.start {
      DayIsMonotone(clock, t, w.start - 1);
    } else {
      DayIsMonotone(clock, w.start, t);
    }
    if t <= w.end {
      DayIsMonotone(clock, t, w.end);
    } else {
      DayIsMonotone(clock, w.end + 1, t);
    }
  }

  /** An unrecognised filter value is not `all-time`: it gets the window
      from the epoch to the end of today. */
  lemma InRangeUnrecognized(raw: string, clock: Clock, t: int)
    ensures InRange(Unrecognized(raw), clock, Some(t)) <==> 0 <= t && LocalDay(clock, t) <= Today(clock)
  {
    var w := WindowFor(Unrecognized(raw), clock);
    if t <= w.end {
      DayIsMonotone(clock, t, w.end);
    } else {
      DayIsMonotone(clock, w.end + 1, t);
    }
  }

  /** The window of a bounded filter covers exactly today and the
      `LookbackDays(p)` days before it; for `yesterday` that is 48 hours. */
  lemma WindowLength(p: PublishTime, clock: Clock)
    requires LookbackDays(p).Some?
    ensures WindowFor(p, clock).end - WindowFor(p, clock).start + 1 == (LookbackDays(p).value + 1) * MsPerDay
  {
    var w := WindowFor(p, clock);
    var k := LookbackDays(p).value;
    assert w.start == StartOfDay(clock, Today(clock) - k);
  }

  /** Every window except the epoch-based ones on a clock before 1970
      contains the present instant. */
  lemma WindowContainsNow(p: PublishTime, clock: Clock)
    requires LookbackDays(p).Some? || clock.now >= 0
    ensures InRange(p, clock, Some(clock.now))
  {
    if LookbackDays(p).Some? {
      InRangeByCalendarDay(p, clock, clock.now);
    } else if p != AllTime {
      InRangeUnrecognized(p.raw, clock, clock.now);
    }
  }

  /** A longer look-back accepts everything a shorter one accepts:
      yesterday within this-week within this-month within three months
      within six months. */
  lemma WindowsNest(p: PublishTime, q: PublishTime, clock: Clock, created: Option<int>)
    requires LookbackDays(p).Some? && LookbackDays(q).Some?
    requires LookbackDays(p).value <= LookbackDays(q).value
    requires InRange(p, clock, created)
    ensures InRange(q, clock, created)
  {
    InRangeByCalendarDay(p, clock, created.value);
    InRangeByCalendarDay(q, clock, created.value);
  }

  /** Both ends of every window are accepted and the instants just
      outside are not, so an item created exactly at the start of
      `this-week` is kept. Only an epoch-based window on a clock before
      1970 is empty and excluded here. */
  lemma BoundsAreInclusive(p: PublishTime, clock: Clock)
    requires p != AllTime
    requires LookbackDays(p).Some? || clock.now >= 0
    ensures InRange(p, clock, Some(WindowFor(p, clock).start))
    ensures InRange(p, clock, Some(WindowFor(p, clock).end))
    ensures !InRange(p, clock, Some(WindowFor(p, clock).start - 1))
    ensures !InRange(p, clock, Some(WindowFor(p, clock).end + 1))
  {
    WindowContainsNow(p, clock);
  }
}
