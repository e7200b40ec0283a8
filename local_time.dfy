/**
 * The host's local time zone. A JavaScript Date reads its calendar fields
 * through LocalTime(t) and builds a time from local fields through UTC(t)
 * (section 21.4.1 of ECMA-262); both depend on the host's zone rules, so a
 * zone is given here by the two conversions the trackers use.
 */
module LocalTime {
  import opened Calendar

  /**
   * `localDate(ts)` is the local (getFullYear, getMonth, getDate) of
   * timestamp ts; `localNoon(d)` is `new Date(d.year, d.month, d.day, 12, 0, 0).getTime()`.
   */
  datatype Zone = Zone(localDate: int -> CalDate, localNoon: CalDate -> int)

  /** Every timestamp reads back as a real calendar date. */
  ghost predicate DatesValid(z: Zone)
  {
    forall ts :: ValidDate(z.localDate(ts))
  }

  /**
   * The zone's two conversions agree at noon: the timestamp made for local
   * noon of a date is read back on that same date.
   */
  ghost predicate NoonStable(z: Zone)
  {
    forall d :: ValidDate(d) ==> z.localDate(z.localNoon(d)) == d
  }

  /**
   * A zone at a fixed offset (in milliseconds) from UTC, by the formulas of
   * ECMA-262: the local date is the date of Day(t + offset), and local noon
   * is MakeDate(MakeDay(y, m, d), 12 hours) - offset.
   */
  function FixedZone(offset: int): Zone
  {
    Zone(ts => DateOfDay((ts + offset) / MsPerDay),
         d => DayNumber(d) * MsPerDay + 12 * MsPerHour - offset)
  }

  /** A fixed-offset zone meets both conditions, whatever its offset. */
  lemma FixedZoneStable(offset: int)
    ensures DatesValid(FixedZone(offset))
    ensures NoonStable(FixedZone(offset))
  {
    var z := FixedZone(offset);
    forall ts
      ensures ValidDate(z.localDate(ts))
    {
      assert z.localDate(ts) == DateOfDay((ts + offset) / MsPerDay);
    }
    forall d | ValidDate(d)
      ensures z.localDate(z.localNoon(d)) == d
    {
      NoonOfDate(offset, d);
    }
  }

  lemma NoonOfDate(offset: int, d: CalDate)
    requires ValidDate(d)
    ensures FixedZone(offset).localDate(FixedZone(offset).localNoon(d)) == d
  {
    var n := DayNumber(d);
    NoonInDay(n);
    DateOfDayNumber(d);
  }

  /** Local noon of day n lies in day n. */
  lemma NoonInDay(n: int)
    ensures (n * MsPerDay + 12 * MsPerHour) / MsPerDay == n
  {
  }
}
