/**
 * The Windows tray menu (`windows/src/menu.js`): one renderer that holds
 * both trackers, shows the one selected as `currentType`, and checks both
 * every second.
 */
module TrayMenu {
  import opened Wrappers
  import opened Calendar
  import opened LocalTime
  import opened History
  import opened Progress
  import opened MonthView

  datatype Kind = Body | Work

  /** `data[type]`: the start time of the running cycle (null when idle) and the log. */
  datatype Tracker = Tracker(startTime: Option<int>, history: seq<int>)

  /** `CONFIG[type]`: duration and round count. */
  function ConfigOf(k: Kind): (c: Config)
    ensures ValidConfig(c)
  {
    ConfigsValid();
    match k
    case Body => BodyConfig
    case Work => WorkConfig
  }

  /** `if (d.startTime)`: JavaScript truthiness, under which a start time of 0 counts as unset. */
  predicate Truthy(startTime: Option<int>)
  {
    startTime.Some? && startTime.value != 0
  }

  /** The only tracker drawn in rounds is the body tracker; the work tracker never shows a round. */
  lemma OnlyBodyHasRounds(k: Kind)
    ensures ConfigOf(k).rounds > 1 <==> k == Body
  {
  }

  class Menu {
    const zone: Zone
    var currentType: Kind
    var body: Tracker
    var work: Tracker
    // What the page shows: the start button, the round box, the confirm
    // box, and the text of the round label (None before any is written).
    var startShown: bool
    var routineShown: bool
    var confirmShown: bool
    var roundLabel: Option<int>

    /** `init`: both records come from the store as saved; a running cycle is kept running. */
    constructor(zone: Zone, body: Tracker, work: Tracker)
      ensures this.zone == zone && this.body == body && this.work == work
      ensures currentType == Body
      ensures startShown <==> body.startTime.None?
      ensures routineShown <==> body.startTime.Some?
      ensures !confirmShown && roundLabel.None?
    {
      this.zone := zone;
      this.body := body;
      this.work := work;
      currentType := Body;
      roundLabel := None;
      startShown, routineShown, confirmShown := false, false, false;
      new;
      UpdateView();
    }

    function Data(k: Kind): Tracker
      reads this
    {
      match k
      case Body => body
      case Work => work
    }

    /** `updateView` without the calendar: which of the three boxes show. */
    method UpdateView()
      modifies this
      ensures currentType == old(currentType) && body == old(body) && work == old(work)
      ensures roundLabel == old(roundLabel)
      ensures startShown <==> Data(currentType).startTime.None?
      ensures routineShown <==> Data(currentType).startTime.Some? && ConfigOf(currentType).rounds > 1
      ensures !confirmShown
    {
      var isRunning := Data(currentType).startTime.Some?;
      startShown := !isRunning;
      routineShown := isRunning && ConfigOf(currentType).rounds > 1;
      confirmShown := false;
    }

    /** The `set-type` message: show the other tracker. */
    method SetType(k: Kind)
      modifies this
      ensures currentType == k && body == old(body) && work == old(work)
      ensures roundLabel == old(roundLabel)
      ensures startShown <==> Data(k).startTime.None?
      ensures routineShown <==> Data(k).startTime.Some? && k == Body
      ensures !confirmShown
    {
      currentType := k;
      UpdateView();
    }

    /** `getCycles`: the length of the filter of `data[type].history` on the date. */
    function GetCycles(k: Kind, date: CalDate): (r: nat)
      reads this
      ensures r == CountOnDate(Data(k).history, zone, date)
    {
      CountIsFilterLength(Data(k).history, zone, date);
      |KeepDate(Data(k).history, zone, date)|
    }

    /** `toggleCycle`: the day toggle on one tracker's log; the other tracker is untouched. */
    method ToggleCycle(k: Kind, date: CalDate)
      modifies this
      ensures Data(k) == old(Data(k)).(history := ToggleDay(old(Data(k).history), zone, date))
      ensures k == Body ==> work == old(work)
      ensures k == Work ==> body == old(body)
      ensures currentType == old(currentType) && roundLabel == old(roundLabel)
      ensures startShown <==> Data(currentType).startTime.None?
      ensures routineShown <==> Data(currentType).startTime.Some? && ConfigOf(currentType).rounds > 1
      ensures !confirmShown
    {
      var t := Data(k);
      var current := GetCycles(k, date);
      if current >= FullDay {
        t := t.(history := DropDate(t.history, zone, date));
      } else {
        t := t.(history := t.history + [zone.localNoon(date)]);
      }
      if k == Body {
        body := t;
      } else {
        work := t;
      }
      UpdateView();
    }

    /**
     * `updateRoutineLabels`: for the shown tracker, when its cycle runs
     * and it has more than one round, the label becomes the capped round
     * number; otherwise the label keeps its text.
     */
    method UpdateRoutineLabels(now: int)
      modifies this
      ensures currentType == old(currentType) && body == old(body) && work == old(work)
      ensures startShown == old(startShown) && routineShown == old(routineShown) && confirmShown == old(confirmShown)
      ensures var t := Data(currentType);
              var c := ConfigOf(currentType);
              roundLabel == if Truthy(t.startTime) && c.rounds > 1
                            then Some(RoundNumber(c, now - t.startTime.value))
                            else old(roundLabel)
      ensures roundLabel != old(roundLabel) ==> currentType == Body
    {
      var d := Data(currentType);
      var config := ConfigOf(currentType);
      if !Truthy(d.startTime) || config.rounds <= 1 {
        return;
      }
      var elapsed := now - d.startTime.value;
      var round := elapsed / (config.duration / config.rounds) + 1;
      roundLabel := Some(if round < config.rounds then round else config.rounds);
    }

    /**
     * `onCycleEnd`: the work tracker logs one entry and stops; the body
     * tracker changes no data (its start time stays until Yes or No) and,
     * when shown, swaps the round box for the confirm box.
     */
    method OnCycleEnd(k: Kind, now: int)
      modifies this
      ensures currentType == old(currentType) && roundLabel == old(roundLabel)
      ensures body == old(body)
      ensures k == Work ==> work == Tracker(None, old(work.history) + [now])
      ensures k == Body ==> work == old(work)
      ensures k == Body && currentType == Body ==>
                !routineShown && confirmShown && startShown == old(startShown)
      ensures k == Work && currentType == Work ==> startShown && !routineShown && !confirmShown
      ensures k != currentType ==>
                startShown == old(startShown) && routineShown == old(routineShown) && confirmShown == old(confirmShown)
    {
      if k == Work {
        work := Tracker(None, work.history + [now]);
        if currentType == Work {
          UpdateView();
        }
      } else {
        if currentType == Body {
          routineShown := false;
          confirmShown := true;
        }
      }
    }

    /** The start button: only the shown tracker starts, with no guard against a running cycle. */
    method Start(now: int)
      modifies this
      ensures Data(currentType) == old(Data(currentType)).(startTime := Some(now))
      ensures currentType == Body ==> work == old(work)
      ensures currentType == Work ==> body == old(body)
      ensures currentType == old(currentType) && roundLabel == old(roundLabel)
      ensures !startShown && !confirmShown && (routineShown <==> currentType == Body)
    {
      if currentType == Body {
        body := body.(startTime := Some(now));
      } else {
        work := work.(startTime := Some(now));
      }
      UpdateView();
    }

    /** The Yes button: log one body entry at `now` and stop the body cycle. */
    method Yes(now: int)
      modifies this
      ensures body == Tracker(None, old(body.history) + [now])
      ensures work == old(work) && currentType == old(currentType) && roundLabel == old(roundLabel)
      ensures startShown <==> Data(currentType).startTime.None?
      ensures routineShown <==> Data(currentType).startTime.Some? && ConfigOf(currentType).rounds > 1
      ensures !confirmShown
    {
      body := Tracker(None, body.history + [now]);
      UpdateView();
    }

    /** The No button: stop the body cycle without logging. */
    method No()
      modifies this
      ensures body == old(body).(startTime := None)
      ensures work == old(work) && currentType == old(currentType) && roundLabel == old(roundLabel)
      ensures startShown <==> Data(currentType).startTime.None?
      ensures routineShown <==> Data(currentType).startTime.Some? && ConfigOf(currentType).rounds > 1
      ensures !confirmShown
    {
      body := body.(startTime := None);
      UpdateView();
    }

    /** Whether the periodic check ends the cycle of tracker k at `now`. */
    predicate Due(k: Kind, now: int)
      reads this
    {
      Truthy(Data(k).startTime) && Complete(ConfigOf(k), now - Data(k).startTime.value)
    }

    /** One tracker's turn in the periodic check. */
    method CheckTracker(k: Kind, now: int) returns (fired: bool)
      modifies this
      ensures fired == old(Due(k, now))
      ensures currentType == old(currentType) && body == old(body)
      ensures work == if fired && k == Work then Tracker(None, old(work.history) + [now]) else old(work)
      ensures roundLabel == if k == currentType && Truthy(old(Data(k).startTime)) && ConfigOf(k).rounds > 1
                            then Some(RoundNumber(ConfigOf(k), now - old(Data(k).startTime.value)))
                            else old(roundLabel)
      ensures fired && k == Body && currentType == Body ==>
                !routineShown && confirmShown && startShown == old(startShown)
      ensures fired && k == Work && currentType == Work ==> startShown && !routineShown && !confirmShown
      ensures !fired || k != currentType ==>
                startShown == old(startShown) && routineShown == old(routineShown) && confirmShown == old(confirmShown)
    {
      var d := Data(k);
      fired := false;
      if Truthy(d.startTime) {
        var elapsed := now - d.startTime.value;
        if k == currentType {
          UpdateRoutineLabels(now);
        }
        if elapsed >= ConfigOf(k).duration {
          OnCycleEnd(k, now);
          fired := true;
        }
      }
    }

    /**
     * The one-second check of `init`: each tracker is checked on its own
     * and ends exactly when it is due. A due body cycle keeps its start
     * time, so it is due again on the next check until Yes or No.
     */
    method Tick(now: int) returns (fired: seq<Kind>)
      modifies this
      ensures Body in fired <==> old(Due(Body, now))
      ensures Work in fired <==> old(Due(Work, now))
      ensures body == old(body)
      ensures work == if old(Due(Work, now)) then Tracker(None, old(work.history) + [now]) else old(work)
      ensures currentType == old(currentType)
      ensures var t := old(Data(currentType));
              var c := ConfigOf(currentType);
              roundLabel == if Truthy(t.startTime) && c.rounds > 1
                            then Some(RoundNumber(c, now - t.startTime.value))
                            else old(roundLabel)
      ensures currentType == Body && old(Due(Body, now)) ==>
                confirmShown && !routineShown && startShown == old(startShown)
      ensures currentType == Work && old(Due(Work, now)) ==> startShown && !routineShown && !confirmShown
      ensures !old(Due(currentType, now)) ==>
                startShown == old(startShown) && routineShown == old(routineShown) && confirmShown == old(confirmShown)
    {
      fired := [];
      var bodyDue := CheckTracker(Body, now);
      if bodyDue {
        fired := fired + [Body];
      }
      var workDue := CheckTracker(Work, now);
      if workDue {
        fired := fired + [Work];
      }
    }

    /** `renderMonthGrid` and `renderSkyline` for month m of year y, today taken from `now`. */
    method RenderCalendar(y: int, m: int, now: int) returns (grid: seq<Option<Cell>>, skyline: seq<nat>, week: seq<CalDate>)
      requires 0 <= m < 12
      ensures IsMonthGrid(grid, Data(currentType).history, zone, y, m, zone.localDate(now))
      ensures |skyline| == 7 && |week| == 7
      ensures forall i :: 0 <= i < 7 ==>
                && ValidDate(week[i])
                && DayNumber(week[i]) == WeekStart(AnchorDay(y, m, zone.localDate(now))) + i
                && skyline[i] == CountOnDate(Data(currentType).history, zone, week[i])
    {
      var today := zone.localDate(now);
      var h := Data(currentType).history;
      grid := BuildGrid(h, zone, y, m, today);
      skyline, week := Skyline(h, zone, AnchorDay(y, m, today));
    }
  }
}
