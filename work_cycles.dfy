/**
 * The GNOME long tracker (`CycleButton`): a three-hour cycle that logs
 * itself when it ends, with no confirmation step.
 */
module WorkCycles {
  import opened Wrappers
  import opened Calendar
  import opened LocalTime
  import opened History
  import opened Progress
  import opened MonthView
  import opened Store

  /** What one progress update did: hid the bar, finished the cycle, or drew `elapsed` of `duration`. */
  datatype Directive = Hidden | Finished | Bar(elapsed: int, duration: int)

  class CycleButton {
    const zone: Zone
    var data: Record

    /** `_init`: load the stored record and drop a cycle left running; the history is kept. */
    constructor(zone: Zone, stored: Option<Record>)
      ensures this.zone == zone
      ensures !IsActive()
      ensures data.history == Load(stored).history
    {
      this.zone := zone;
      data := Load(stored);
      new;
      if IsActive() {
        data := data.(startTime := None);
      }
    }

    /** `_isActive`: a cycle is running. */
    predicate IsActive()
      reads this
    {
      data.startTime.Some?
    }

    function Entries(): seq<int>
      reads this
    {
      data.Entries()
    }

    /** `_getCyclesForDate`: the entries on the date, 0 when the record has no log. */
    method GetCyclesForDate(date: CalDate) returns (count: nat)
      ensures count == CountOnDate(Entries(), zone, date)
      ensures data.history.None? ==> count == 0
    {
      if data.history.None? {
        return 0;
      }
      count := CountCycles(data.history.value, zone, date);
    }

    /**
     * `_toggleDayCycle`: clear a full day, or add one entry at local noon.
     * With no log the push fails and nothing changes.
     */
    method ToggleDayCycle(date: CalDate)
      modifies this
      ensures old(data.history).Some? ==>
                data == old(data).(history := Some(ToggleDay(old(Entries()), zone, date)))
      ensures old(data.history).None? ==> data == old(data)
    {
      var currentCount := GetCyclesForDate(date);
      if currentCount >= FullDay {
        data := data.(history := Some(DropDate(data.history.value, zone, date)));
      } else if data.history.Some? {
        data := data.(history := Some(data.history.value + [zone.localNoon(date)]));
      }
    }

    /** `_startCycle`: there is no guard; a running cycle is restarted. */
    method StartCycle(now: int)
      modifies this
      ensures data == old(data).(startTime := Some(now))
    {
      data := data.(startTime := Some(now));
    }

    /**
     * `_updateProgress`: nothing when idle; once three hours have passed
     * the cycle is finished and logged; otherwise the bar shows the
     * elapsed share of the cycle.
     */
    method UpdateProgress(now: int) returns (d: Directive)
      modifies this
      ensures !old(IsActive()) ==> d == Hidden && data == old(data)
      ensures old(IsActive()) && Complete(WorkConfig, now - old(data.startTime.value)) ==>
                d == Finished && data == Record(None, Some(old(Entries()) + [now]))
      ensures old(IsActive()) && !Complete(WorkConfig, now - old(data.startTime.value)) ==>
                d == Bar(now - old(data.startTime.value), WorkConfig.duration) && data == old(data)
    {
      if !IsActive() {
        return Hidden;
      }
      var elapsed := now - data.startTime.value;
      if elapsed >= WorkConfig.duration {
        FinishCycle(now);
        return Finished;
      }
      d := Bar(elapsed, WorkConfig.duration);
    }

    /** `_finishCycle`: log one entry at `now` (creating the log if missing) and stop. */
    method FinishCycle(now: int)
      modifies this
      ensures data == Record(None, Some(old(Entries()) + [now]))
      ensures !IsActive() && |Entries()| == |old(Entries())| + 1
    {
      var history := if data.history.None? then [] else data.history.value;
      data := Record(None, Some(history + [now]));
    }

    /**
     * `_updateView` for month m of year y: the start button shows exactly
     * when no cycle runs; the month grid and the skyline, with today taken
     * from `now`.
     */
    method UpdateView(y: int, m: int, now: int) returns (v: View)
      requires 0 <= m < 12
      ensures v.startVisible <==> !IsActive()
      ensures !v.confirmVisible && !v.routineVisible && v.roundLabel.None?
      ensures IsMonthGrid(v.grid, Entries(), zone, y, m, zone.localDate(now))
      ensures |v.skyline| == 7 && |v.week| == 7
      ensures forall i :: 0 <= i < 7 ==>
                && ValidDate(v.week[i])
                && DayNumber(v.week[i]) == WeekStart(AnchorDay(y, m, zone.localDate(now))) + i
                && v.skyline[i] == CountOnDate(Entries(), zone, v.week[i])
    {
      var today := zone.localDate(now);
      var grid := BuildGrid(Entries(), zone, y, m, today);
      var skyline, week := Skyline(Entries(), zone, AnchorDay(y, m, today));
      v := View(!IsActive(), false, false, None, grid, skyline, week);
    }
  }

  /**
   * A cycle started at t0 and checked at t1 >= t0 + 3 h logs exactly one
   * entry and leaves the tracker idle; a further check does nothing.
   */
  method CycleRun(zone: Zone, stored: Option<Record>, t0: int, t1: int, t2: int)
    returns (before: seq<int>, after: seq<int>, later: Directive)
    requires t1 - t0 >= WorkConfig.duration
    ensures after == before + [t1]
    ensures later == Hidden
  {
    var b := new CycleButton(zone, stored);
    before := b.Entries();
    b.StartCycle(t0);
    var d := b.UpdateProgress(t1);
    after := b.Entries();
    later := b.UpdateProgress(t2);
  }
}
