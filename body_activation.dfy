/**
 * The GNOME short tracker (`MartialBodyButton`): a ten-minute cycle shown
 * in five rounds, which asks to be confirmed or discarded when it ends.
 */
module BodyActivation {
  import opened Wrappers
  import opened Calendar
  import opened LocalTime
  import opened History
  import opened Progress
  import opened MonthView
  import opened Store

  /** What one progress update did: hid the bar, ended the cycle, or drew the segments. */
  datatype Directive = Hidden | Ended(round: int) | Segments(round: int, fills: seq<Fill>)

  class MartialBodyButton {
    const zone: Zone
    var data: Record
    var waitingConfirmation: bool

    /**
     * `_init`: load the stored record, then drop a cycle that was left
     * running when the shell stopped. The history is kept.
     */
    constructor(zone: Zone, stored: Option<Record>)
      ensures this.zone == zone
      ensures !IsActive() && !waitingConfirmation
      ensures data.history == Load(stored).history
    {
      this.zone := zone;
      data := Load(stored);
      waitingConfirmation := false;
      new;
      if IsActive() {
        data := data.(startTime := None);
      }
    }

    /** `_isActive`: a cycle is running. */
    predicate IsActive()
      reads this
    {
      data.startTime.Some?
    }

    function Entries(): seq<int>
      reads this
    {
      data.Entries()
    }

    /** `_getCyclesForDate`: the entries on the date, 0 when the record has no log. */
    method GetCyclesForDate(date: CalDate) returns (count: nat)
      ensures count == CountOnDate(Entries(), zone, date)
      ensures data.history.None? ==> count == 0
    {
      if data.history.None? {
        return 0;
      }
      count := CountCycles(data.history.value, zone, date);
    }

    /**
     * `_toggleDayCycle`: clear a full day, or add one entry at local noon.
     * With no log the push fails and nothing changes.
     */
    method ToggleDayCycle(date: CalDate)
      modifies this
      ensures old(data.history).Some? ==>
                data == old(data).(history := Some(ToggleDay(old(Entries()), zone, date)))
      ensures old(data.history).None? ==> data == old(data)
      ensures waitingConfirmation == old(waitingConfirmation)
    {
      var currentCount := GetCyclesForDate(date);
      if currentCount >= FullDay {
        data := data.(history := Some(DropDate(data.history.value, zone, date)));
      } else if data.history.Some? {
        data := data.(history := Some(data.history.value + [zone.localNoon(date)]));
      }
    }

    /** `_startCycle`: there is no guard; a running cycle is restarted. */
    method StartCycle(now: int)
      modifies this
      ensures data == old(data).(startTime := Some(now))
      ensures waitingConfirmation == old(waitingConfirmation)
    {
      data := data.(startTime := Some(now));
    }

    /** The text `_updateRoutineLabels` writes, when it writes one. */
    function RoundLabel(now: int): (r: Option<int>)
      reads this
      ensures r.Some? <==> IsActive()
      ensures IsActive() && now >= data.startTime.value ==> 1 <= r.value <= BodyConfig.rounds
    {
      if IsActive() then
        ConfigsValid();
        var elapsed := now - data.startTime.value;
        assert elapsed >= 0 ==> 1 <= RoundNumber(BodyConfig, elapsed) by {
          if elapsed >= 0 {
            RoundBounds(BodyConfig, elapsed);
          }
        }
        Some(RoundNumber(BodyConfig, elapsed))
      else None
    }

    /**
     * `_updateProgress`: nothing when idle; at the end of the cycle the
     * timer-end handler runs; otherwise the five segments are drawn.
     */
    method UpdateProgress(now: int) returns (d: Directive)
      modifies this
      ensures !old(IsActive()) ==> d == Hidden && data == old(data) && waitingConfirmation == old(waitingConfirmation)
      ensures old(IsActive()) && Complete(BodyConfig, now - old(data.startTime.value)) ==>
                && d == Ended(BodyConfig.rounds)
                && data == old(data).(startTime := None)
                && waitingConfirmation
      ensures old(IsActive()) && !Complete(BodyConfig, now - old(data.startTime.value)) ==>
                var elapsed := now - old(data.startTime.value);
                && data == old(data) && waitingConfirmation == old(waitingConfirmation)
                && d.Segments? && d.round == RoundNumber(BodyConfig, elapsed)
                && |d.fills| == BodyConfig.rounds
                && (forall i :: 0 <= i < |d.fills| ==> (d.fills[i] == Full <==> i < CurrentSegment(BodyConfig, elapsed)))
                && (forall i :: 0 <= i < |d.fills| ==> (d.fills[i].Partial? <==> i == CurrentSegment(BodyConfig, elapsed)))
                && (0 <= elapsed ==> FilledTime(d.fills, SegmentLength(BodyConfig)) == elapsed)
    {
      if !IsActive() {
        return Hidden;
      }
      ConfigsValid();
      var elapsed := now - data.startTime.value;
      var round := RoundLabel(now).value;
      if elapsed >= BodyConfig.duration {
        RoundAtStartAndEnd(BodyConfig, elapsed);
        OnCycleTimerEnd();
        return Ended(round);
      }
      var fills := SegmentFills(BodyConfig, elapsed);
      d := Segments(round, fills);
    }

    /** `_onCycleTimerEnd`: the cycle stops and the tracker waits for an answer. */
    method OnCycleTimerEnd()
      modifies this
      ensures data == old(data).(startTime := None)
      ensures waitingConfirmation && !IsActive()
    {
      waitingConfirmation := true;
      data := data.(startTime := None);
    }

    /**
     * `_confirmCompletion`: Complete logs one entry at `now` (creating the
     * log if missing); Discard logs nothing. Both end the wait.
     */
    method ConfirmCompletion(isCompleted: bool, now: int)
      modifies this
      ensures isCompleted ==> data == old(data).(history := Some(old(Entries()) + [now]))
      ensures !isCompleted ==> data == old(data)
      ensures !waitingConfirmation
    {
      if isCompleted {
        var history := if data.history.None? then [] else data.history.value;
        data := data.(history := Some(history + [now]));
      }
      waitingConfirmation := false;
    }

    /**
     * `_updateView` for month m of year y: which of the start button, the
     * confirm box and the round box show, the round label, the month grid
     * and the skyline, with today taken from `now`.
     */
    method UpdateView(y: int, m: int, now: int) returns (v: View)
      requires 0 <= m < 12
      ensures v.confirmVisible <==> waitingConfirmation
      ensures v.routineVisible <==> !waitingConfirmation && IsActive()
      ensures v.startVisible <==> !waitingConfirmation && !IsActive()
      ensures v.roundLabel == if v.routineVisible then RoundLabel(now) else None
      ensures IsMonthGrid(v.grid, Entries(), zone, y, m, zone.localDate(now))
      ensures |v.skyline| == 7 && |v.week| == 7
      ensures forall i :: 0 <= i < 7 ==>
                && ValidDate(v.week[i])
                && DayNumber(v.week[i]) == WeekStart(AnchorDay(y, m, zone.localDate(now))) + i
                && v.skyline[i] == CountOnDate(Entries(), zone, v.week[i])
    {
      var start, confirm, routine, roundText;
      if waitingConfirmation {
        start, confirm, routine, roundText := false, true, false, None;
      } else if IsActive() {
        start, confirm, routine, roundText := false, false, true, RoundLabel(now);
      } else {
        start, confirm, routine, roundText := true, false, false, None;
      }
      var today := zone.localDate(now);
      var grid := BuildGrid(Entries(), zone, y, m, today);
      var skyline, week := Skyline(Entries(), zone, AnchorDay(y, m, today));
      v := View(start, confirm, routine, roundText, grid, skyline, week);
    }
  }

  /**
   * From a freshly built tracker, starting and running a cycle to its end
   * leaves it waiting and idle; confirming logs exactly one entry.
   */
  method CycleRun(zone: Zone, stored: Option<Record>, t0: int, t1: int) returns (before: seq<int>, after: seq<int>)
    requires t1 - t0 >= BodyConfig.duration
    ensures after == before + [t1]
  {
    var b := new MartialBodyButton(zone, stored);
    before := b.Entries();
    b.StartCycle(t0);
    var d := b.UpdateProgress(t1);
    assert d == Ended(5);
    assert b.waitingConfirmation && !b.IsActive();
    b.ConfirmCompletion(true, t1);
    after := b.Entries();
  }
}
