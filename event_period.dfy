/**
 * The event-period classifier of the HomeShift coordinator
 * (`detect_event_period`): the start and end of the active calendar event
 * put it in the morning, in the afternoon or over the whole day.
 *
 * `datetime.strptime(s, "%Y-%m-%d %H:%M:%S")` is abstracted to the hour and
 * minute it reads, `None` standing for a value that is missing or does not
 * parse.
 */
module EventPeriods {
  import opened Wrappers

  /** Hour that separates a morning half-day from an afternoon half-day. */
  const MIDDAY_HOUR := 13

  datatype Period = AllDay | Morning | Afternoon

  /** The time of day of a parsed timestamp. */
  datatype Clock = Clock(hour: int, minute: int)

  predicate ValidClock(c: Clock) {
    0 <= c.hour < 24 && 0 <= c.minute < 60
  }

  /** Minutes since midnight. */
  function MinuteOfDay(c: Clock): int {
    c.hour * 60 + c.minute
  }

  predicate AtMidnight(c: Clock) {
    c.hour == 0 && c.minute == 0
  }

  /** Both ends parsed and both at 00:00: a (possibly multi-day) all-day event. */
  predicate MidnightToMidnight(start: Option<Clock>, end: Option<Clock>) {
    start.Some? && end.Some? && AtMidnight(start.value) && AtMidnight(end.value)
  }

  /**
   * `detect_event_period`. An unparseable end gives `AllDay`; an all-day
   * event is recognised first; a half-day event lies on one side of midday.
   */
  function DetectEventPeriod(start: Option<Clock>, end: Option<Clock>): (r: Period)
    ensures start.None? || end.None? ==> r == AllDay
    ensures MidnightToMidnight(start, end) ==> r == AllDay
    ensures r == Morning ==>
              start.Some? && end.Some? && !MidnightToMidnight(start, end)
              && (ValidClock(end.value) ==> MinuteOfDay(end.value) <= MIDDAY_HOUR * 60)
    ensures r == Afternoon ==>
              start.Some? && end.Some? && !MidnightToMidnight(start, end)
              && (ValidClock(start.value) ==> MinuteOfDay(start.value) >= MIDDAY_HOUR * 60)
  {
    if start.None? || end.None? then AllDay
    else if AtMidnight(start.value) && AtMidnight(end.value) then AllDay
    else if end.value.hour <= MIDDAY_HOUR && end.value.minute == 0 then Morning
    else if start.value.hour >= MIDDAY_HOUR then Afternoon
    else AllDay
  }

  /**
   * A timed event is `AllDay` only when it starts before midday and does not
   * end on a whole hour up to 13:00, i.e. it reaches past the boundary on
   * both sides.
   */
  lemma TimedAllDaySpansMidday(start: Clock, end: Clock)
    requires ValidClock(start) && ValidClock(end)
    requires !MidnightToMidnight(Some(start), Some(end))
    ensures DetectEventPeriod(Some(start), Some(end)) == AllDay
            <==> MinuteOfDay(start) < MIDDAY_HOUR * 60 && !(end.minute == 0 && end.hour <= MIDDAY_HOUR)
  {
  }

  /** An event that ends on a whole hour not after 13:00 is a morning unless both ends are at midnight. */
  lemma MorningWhenEndingByMidday(start: Clock, end: Clock)
    requires end.minute == 0 && end.hour <= MIDDAY_HOUR
    ensures DetectEventPeriod(Some(start), Some(end)) == if AtMidnight(start) && AtMidnight(end) then AllDay else Morning
  {
  }

  /** The fixed boundary cases the classifier is meant to get right. */
  lemma BoundaryCases()
    ensures DetectEventPeriod(Some(Clock(0, 0)), Some(Clock(0, 0))) == AllDay
    ensures DetectEventPeriod(Some(Clock(8, 0)), Some(Clock(12, 0))) == Morning
    ensures DetectEventPeriod(Some(Clock(8, 0)), Some(Clock(13, 0))) == Morning
    ensures DetectEventPeriod(Some(Clock(13, 0)), Some(Clock(18, 0))) == Afternoon
    ensures DetectEventPeriod(Some(Clock(14, 0)), Some(Clock(18, 0))) == Afternoon
    ensures DetectEventPeriod(Some(Clock(8, 0)), Some(Clock(18, 0))) == AllDay
    ensures DetectEventPeriod(None, None) == AllDay
  {
  }

  /**
   * A morning event that ends off the hour, 08:00 to 12:30, falls through the
   * morning test (`end.minute == 0`) and the afternoon test, and is `AllDay`.
   */
  lemma MorningEndingOffTheHourIsAllDay()
    ensures DetectEventPeriod(Some(Clock(8, 0)), Some(Clock(12, 30))) == AllDay
  {
  }
}
