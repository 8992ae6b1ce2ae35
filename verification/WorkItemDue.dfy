/** Due values as the calendar sees them: wall times, offsets and zones, and their stored form. */
module WorkItemDue {
  import opened Text
  import M = WorkItemModel

  /** Microseconds; the supported calendar range is the same for wall times and UTC instants. */
  type Micros = int

  const MIN_TIME := -62_135_596_800_000_000
  const MAX_TIME := 253_402_300_799_999_999

  predicate InRange(t: Micros) {
    MIN_TIME <= t <= MAX_TIME
  }

  /** A time zone: the offset in force at each UTC instant. */
  type Zones = (string, Micros) -> Micros

  datatype Due = NoDue | DateDue(date: int, zone: string) | TimedDue(wall: Micros, offset: Micros, zone: string)

  /** What is stored: the date, or the UTC instant, with the confirmed zone. */
  datatype StoredDue = StoredNone | StoredDate(date: int, zone: string) | StoredInstant(at: Micros, zone: string)

  /** `valid_wall_time`: read the instant in its zone and compare wall time and offset; None is a validation error. */
  function ValidWallTime(tz: Zones, wall: Micros, offset: Micros, zone: string): Option<Due> {
    var instant := wall - offset;
    if !InRange(instant) || !InRange(instant + tz(zone, instant)) then None else
      var localWall, localOffset := instant + tz(zone, instant), tz(zone, instant);
      if localWall != wall || localOffset != offset then None else Some(TimedDue(wall, offset, zone))
  }

  /** A due value its own validators accept. */
  predicate ValidDue(tz: Zones, d: Due) {
    match d
    case NoDue => true
    case DateDue(_, zone) => M.ZoneName(zone)
    case TimedDue(wall, offset, zone) => M.ZoneName(zone) && ValidWallTime(tz, wall, offset, zone) == Some(d)
  }

  /** `due_json`. */
  function DueJson(d: Due): StoredDue {
    match d
    case NoDue => StoredNone
    case DateDue(date, zone) => StoredDate(date, zone)
    case TimedDue(wall, offset, zone) => StoredInstant(wall - offset, zone)
  }

  /** `stored_due`: the instant is read in its confirmed zone and validated again. */
  function FromStored(tz: Zones, s: StoredDue): Option<Due> {
    match s
    case StoredNone => Some(NoDue)
    case StoredDate(date, zone) => if M.ZoneName(zone) then Some(DateDue(date, zone)) else None
    case StoredInstant(at, zone) =>
      if !M.ZoneName(zone) || !InRange(at) || !InRange(at + tz(zone, at)) then None
      else ValidWallTime(tz, at + tz(zone, at), tz(zone, at), zone)
  }

  /** Storing and reading back gives the very same due value, in every zone and on both sides of a clock change. */
  lemma StoredDueRoundTrips(tz: Zones, d: Due)
    requires ValidDue(tz, d)
    ensures FromStored(tz, DueJson(d)) == Some(d)
  {
  }

  /** Conversely every stored instant in range reads back as a valid due value of that same instant. */
  lemma EveryInstantIsRepresentable(tz: Zones, at: Micros, zone: string)
    requires M.ZoneName(zone) && InRange(at) && InRange(at + tz(zone, at))
    ensures var d := FromStored(tz, StoredInstant(at, zone));
      d.Some? && ValidDue(tz, d.value) && DueJson(d.value) == StoredInstant(at, zone)
  {
  }

  /** So reading is exactly the inverse of storing: it yields the valid due value stored as that, and fails when there is none. */
  lemma ReadingInvertsStoring(tz: Zones, stored: StoredDue, d: Due)
    ensures FromStored(tz, stored) == Some(d) <==> ValidDue(tz, d) && DueJson(d) == stored
  {
  }

  const DAY: Micros := 86_400 * 1_000_000

  /** The days of the first years of the Gregorian calendar. */
  function DaysOf(years: nat): nat {
    years * 365 + years / 4 - years / 100 + years / 400
  }

  /** The range is that of the years 1 to 9999, counted from the start of 1970. */
  lemma RangeOfTheCalendar(t: Micros)
    ensures InRange(t) <==> 0 <= t + DaysOf(1969) * DAY < DaysOf(9999) * DAY
  {
  }

  /** A wall time with an offset is accepted exactly when some instant has that wall time and that offset in the zone. */
  lemma AcceptedWallTimes(tz: Zones, wall: Micros, offset: Micros, zone: string)
    ensures ValidWallTime(tz, wall, offset, zone).Some? <==>
      exists at :: InRange(at) && InRange(wall) && ShownAs(tz, zone, at, wall, offset)
  {
  }

  predicate ShownAs(tz: Zones, zone: string, at: Micros, wall: Micros, offset: Micros) {
    at + tz(zone, at) == wall && tz(zone, at) == offset
  }

  /** A wall time that the zone skips is never accepted, whatever offset is claimed. */
  lemma SkippedWallTimesAreRefused(tz: Zones, wall: Micros, offset: Micros, zone: string)
    requires forall at :: at + tz(zone, at) != wall
    ensures ValidWallTime(tz, wall, offset, zone).None?
  {
  }

  /** A repeated wall time is accepted once per offset, and the two due values differ in their stored instant. */
  lemma RepeatedWallTimesStayApart(tz: Zones, wall: Micros, summer: Micros, winter: Micros, zone: string)
    requires summer != winter && InRange(wall) && InRange(wall - summer) && InRange(wall - winter)
    requires tz(zone, wall - summer) == summer && tz(zone, wall - winter) == winter
    ensures ValidWallTime(tz, wall, summer, zone) == Some(TimedDue(wall, summer, zone))
    ensures ValidWallTime(tz, wall, winter, zone) == Some(TimedDue(wall, winter, zone))
    ensures DueJson(TimedDue(wall, summer, zone)) != DueJson(TimedDue(wall, winter, zone))
  {
  }

  /** The work item's own view of a due value: the instant and the zone. */
  function ToModel(d: Due): M.Due {
    match d
    case NoDue => M.NoDue
    case DateDue(date, zone) => M.DateDue(date, zone)
    case TimedDue(wall, offset, zone) => M.TimedDue(wall - offset, zone)
  }

  /** Nothing is lost in that view: valid due values are equal exactly when their instants and zones are. */
  lemma ModelDueIsFaithful(tz: Zones, d: Due, e: Due)
    requires ValidDue(tz, d) && ValidDue(tz, e)
    ensures ToModel(d) == ToModel(e) <==> d == e
    ensures M.DueOk(ToModel(d))
  {
  }
}
