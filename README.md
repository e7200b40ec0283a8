# Habit-cycle trackers, modelled in Dafny

The repository ships one habit-cycle tracker three times:

- a GNOME Shell extension for a ten-minute "body activation" cycle shown in five rounds (`MartialBodyButton`);
- a GNOME Shell extension for a three-hour work cycle (`CycleButton`);
- the tray menu of a Windows Electron app that holds both trackers at once.

Each tracker has a running cycle, given by its `startTime`, and a history log of completion timestamps in epoch milliseconds. From the log it draws a Monday-first month grid and a seven-day "skyline" of per-day counts. A day in either view can be toggled by hand:

- a day with four entries or more is cleared;
- any other day gains one entry at local noon.

This project models that core and proves what it promises.

Files and modules:

- `calendar.dfy` (`Calendar`) is the proleptic Gregorian arithmetic of section 21.4.1 of ECMA-262 on day numbers. It covers DaysInYear, DayFromYear, YearFromTime, MonthFromTime, DateFromTime, MakeDay and WeekDay, with their round trips proved.
- `local_time.dfy` (`LocalTime`) gives the host time zone as a value `Zone` with two conversions:
  - `localDate(ts)` reads the local date of a timestamp;
  - `localNoon(d)` is the timestamp of `new Date(y, m, d, 12, 0, 0)`.

  `NoonStable(z)` says that noon of a date reads back as that date. Lemmas that need it take it as a hypothesis. `FixedZoneStable` proves it for every fixed-offset zone.
- `history.dfy` (`History`) holds the log operations:
  - the per-date count, both as the counting loop and as the length of a filter;
  - clearing a day;
  - the day toggle, and its properties.
- `progress.dfy` (`Progress`) holds the cycle constants, the capped round label and the full/partial/empty segment rule of the progress bar.
- `month_view.dfy` (`MonthView`) builds the month grid and the skyline with the source's loops, proved against the predicate `IsMonthGrid` and against `CountOnDate`.
- `store.dfy` (`Store`) is the persisted GNOME record. Its log may be missing. Loading falls back to `{startTime: null, history: []}`.
- `body_activation.dfy` (`BodyActivation`) is the GNOME short tracker as a class. When a cycle ends, it clears `startTime` and waits for Complete or Discard.
- `work_cycles.dfy` (`WorkCycles`) is the GNOME long tracker as a class. When a cycle ends, it logs the entry itself.
- `menu.dfy` (`TrayMenu`) is the Windows menu as a class that holds both trackers.
  - Its one-second check is `Tick`.
  - A body cycle keeps its `startTime` when it ends, so it stays due until Yes or No.
  - The one-second check and the round label test `startTime` by JavaScript truthiness, so a start time of 0 counts as unset there. The box visibility tests `startTime !== null`, under which 0 counts as running.

Host inputs become parameters:

- `Date.now()` becomes `now`;
- the viewed month becomes `y` and `m`;
- the stored record becomes `stored`.

## Model

| member | source | states |
|---|---|---|
| Calendar.MakeDay | gnome/body-activation/extension.js:273-274 | `new Date(y, m, d)` as a day number: the month carries into the year and the date adds days, as MakeDayInYear and LastDayOfMonth prove |
| Calendar.WeekDay | gnome/body-activation/extension.js:275 | `getDay()` of a day number lies in 0..6, 0 being Sunday and day 0 a Thursday |
| Calendar.DayFromYearStep | gnome/body-activation/extension.js:273 | consecutive years start DaysInYear(y) days apart |
| Calendar.YearFromDay | gnome/body-activation/extension.js:370-371 | the year found for day n is the one whose first day is at or before n and whose successor starts after n |
| Calendar.YearFromDayUnique | gnome/body-activation/extension.js:370-371 | that year is the only year containing day n |
| Calendar.DateInYear | gnome/body-activation/extension.js:370-371 | day dwy of year y is a valid date of year y whose month start plus day gives back dwy |
| Calendar.DateOfDay | gnome/body-activation/extension.js:370-371 | the local getters of day n give a valid date whose day number is n |
| Calendar.DateOfDayNumber | gnome/body-activation/extension.js:359 | every valid date is the date of its own day number |
| Calendar.DayNumberInjective | gnome/body-activation/extension.js:371 | two valid dates have equal day numbers exactly when they are equal, so comparing the three fields compares days |
| Calendar.LastDayOfMonth | gnome/body-activation/extension.js:273 | day 0 of month m+1 is the last day of month m, so its date field is the month's length, December included |
| Calendar.SetDateShifts | gnome/body-activation/extension.js:329-330 | moving the date field of day n by k lands on day n + k, across month and year ends |
| LocalTime.FixedZoneStable | gnome/body-activation/extension.js:359-360 | a fixed-offset zone reads every timestamp as a valid date and reads local noon of a date back as that date |
| LocalTime.NoonOfDate | gnome/body-activation/extension.js:359 | the local-noon timestamp of a valid date falls on that date in a fixed-offset zone |
| History.CountOnDate | gnome/body-activation/extension.js:366-376 | the count of entries on a date never exceeds the log length |
| History.CountCycles | gnome/body-activation/extension.js:368-375 | the counting loop returns the number of entries whose local date is the date |
| History.KeepDate | windows/src/menu.js:127-132 | the filter keeps only entries on the date |
| History.DropDate | gnome/body-activation/extension.js:354-357 | the clearing filter keeps no entry on the date and removes exactly that date's count of entries |
| History.ToggleDay | gnome/body-activation/extension.js:351-361 | at a count of 4 or more the day's entries are all removed and nothing else; below that exactly one entry, local noon of the date, is appended after the unchanged log |
| History.CountAppend | gnome/body-activation/extension.js:360 | pushing an entry raises the count of its own date by one and no other count |
| History.CountIsFilterLength | windows/src/menu.js:127-132 | the Windows filter length equals the GNOME counting loop's result |
| History.DropDateExact | gnome/body-activation/extension.js:353-357 | clearing a day removes every occurrence of each entry on that date and keeps every occurrence of the others |
| History.DropDateCounts | gnome/body-activation/extension.js:353-357 | after clearing, that date counts 0 and every other date keeps its count |
| History.ToggleFullDayClears | gnome/body-activation/extension.js:351-357 | toggling a date with count >= 4 leaves it at 0 and other dates unchanged |
| History.ToggleOpenDayAppends | gnome/body-activation/extension.js:358-361 | toggling a date with count < 4 keeps all earlier entries, adds exactly one, raises that date by one and leaves other dates unchanged |
| History.ToggleCycle | gnome/body-activation/extension.js:351-364 | from an empty day, toggles 1..4 give counts 1..4 and the fifth clears the day |
| Progress.ConfigsValid | windows/src/menu.js:10-13 | both configurations split into whole rounds: 120000 ms rounds for body, one round for work |
| Progress.SegmentLength | gnome/body-activation/extension.js:411 | a round is positive and rounds times it is the duration |
| Progress.RoundNumber | gnome/body-activation/extension.js:427-428 | the capped round never exceeds the round count |
| Progress.RoundBounds | gnome/body-activation/extension.js:427-428 | for elapsed >= 0 the label is between 1 and the round count |
| Progress.RoundMonotone | gnome/body-activation/extension.js:427-428 | the label never decreases as elapsed grows |
| Progress.RoundAtStartAndEnd | gnome/body-activation/extension.js:401-402 | the label reads 1 at elapsed 0 and the last round once the cycle is complete |
| Progress.RunningSegment | gnome/body-activation/extension.js:411-413 | while the cycle runs, the current segment is in 0..rounds-1 and the label is that segment plus one |
| Progress.RemainderSplit | gnome/body-activation/extension.js:413 | for elapsed >= 0 the JavaScript remainder is what floor division leaves, and it is below the round length |
| Progress.FilledPrefix | gnome/body-activation/extension.js:415-420 | in a full/partial/empty row, the first k segments show k rounds, or the current segment's start plus the remainder |
| Progress.SegmentFills | gnome/body-activation/extension.js:411-420 | segments before the current one are full, the current one is partial, later ones are empty, and a running cycle's bar shows exactly the elapsed time |
| Store.Load | gnome/body-activation/extension.js:454-468 | a stored record is taken as is, and no record yields an idle tracker with an empty log |
| MonthView.LeadingPadding | gnome/body-activation/extension.js:274-276 | the grid's leading blanks are 0..6, and stepping back that many days from day 1 reaches a Monday |
| MonthView.DaysSinceMonday | gnome/body-activation/extension.js:322-323 | `(getDay()+6)%7` lies in 0..6 and counts the days back to that week's Monday |
| MonthView.BuildGrid | gnome/body-activation/extension.js:272-296 | the cells are a multiple of 7 with less than a week of trailing blanks, Monday-first leading blanks, and days 1..daysInMonth in order, each with its count and today flag |
| MonthView.PaddingStep | gnome/body-activation/extension.js:296 | the trailing-padding loop adds fewer than 7 blanks |
| MonthView.MonthShape | gnome/body-activation/extension.js:273-276 | the grid's start column is the leading padding and the last day's date field is the month's length |
| MonthView.GridRows | gnome/body-activation/extension.js:298-301 | the grid splits into rows of 7 cells, row r column c being cell 7r+c |
| MonthView.GridWeeks | gnome/body-activation/extension.js:272-296 | a month grid spans 4 to 6 weeks |
| MonthView.WeekStart | gnome/body-activation/extension.js:321-325 | the week start is a Monday within six days before the anchor |
| MonthView.AnchorDay | gnome/body-activation/extension.js:321 | the skyline anchor: today's day number in today's month, otherwise day 0 of the next month |
| MonthView.AnchorOfNow | gnome/body-activation/extension.js:280-281 | with today read from the clock in a zone whose dates are valid, the anchor is a day of the viewed month |
| MonthView.AnchorInViewedMonth | gnome/body-activation/extension.js:321 | the anchor is today in today's month and the month's last day otherwise, always within the viewed month |
| MonthView.Skyline | gnome/body-activation/extension.js:320-333 | the skyline has 7 columns for the seven consecutive days from the anchor week's Monday, each holding that day's count |
| MonthView.SetDate | gnome/body-activation/extension.js:329-330 | `setDate(getDate() + k)` reaches day n + k, and the getters read that day's date |
| MonthView.ColumnBlocks | gnome/body-activation/extension.js:335-348 | a column has min(count, 4) blocks, and only the top one is marked active |
| BodyActivation.MartialBodyButton.constructor | gnome/body-activation/extension.js:205-213 | after loading, a running cycle is dropped, the log is kept and no confirmation is pending |
| BodyActivation.MartialBodyButton.IsActive | gnome/body-activation/extension.js:378 | a cycle runs exactly when startTime is set |
| BodyActivation.MartialBodyButton.GetCyclesForDate | gnome/body-activation/extension.js:366-376 | the count of log entries on the date, 0 when the record has no log |
| BodyActivation.MartialBodyButton.ToggleDayCycle | gnome/body-activation/extension.js:351-364 | the log becomes the day toggle of the old log, nothing else changes, and with no log nothing changes |
| BodyActivation.MartialBodyButton.StartCycle | gnome/body-activation/extension.js:380-386 | startTime becomes now whatever the previous state, and the log and the wait flag are kept |
| BodyActivation.MartialBodyButton.RoundLabel | gnome/body-activation/extension.js:424-430 | a label is written exactly when a cycle runs, and it is in 1..5 once time has not gone back |
| BodyActivation.MartialBodyButton.UpdateProgress | gnome/body-activation/extension.js:394-422 | idle changes nothing; a complete cycle ends at round 5, with startTime cleared, the log unchanged and the tracker waiting; a running cycle draws its round and five segments covering the elapsed time |
| BodyActivation.MartialBodyButton.OnCycleTimerEnd | gnome/body-activation/extension.js:432-439 | startTime is cleared, the log is unchanged and the tracker waits, so waiting implies not active |
| BodyActivation.MartialBodyButton.ConfirmCompletion | gnome/body-activation/extension.js:441-452 | Complete appends exactly now, creating the log if missing; Discard changes no data; both end the wait |
| BodyActivation.MartialBodyButton.UpdateView | gnome/body-activation/extension.js:251-349 | exactly one of confirm, round and start boxes shows, by waiting and active; the label shows the round; the grid and the 7-day skyline of the log |
| BodyActivation.CycleRun | gnome/body-activation/extension.js:380-452 | a fresh tracker started at t0, checked after ten minutes and confirmed logs exactly one entry |
| WorkCycles.CycleButton.constructor | gnome/work-cycles/extension.js:115-123 | after loading, a running cycle is dropped and the log is kept |
| WorkCycles.CycleButton.IsActive | gnome/work-cycles/extension.js:262 | a cycle runs exactly when startTime is set |
| WorkCycles.CycleButton.GetCyclesForDate | gnome/work-cycles/extension.js:250-260 | the count of log entries on the date, 0 when the record has no log |
| WorkCycles.CycleButton.ToggleDayCycle | gnome/work-cycles/extension.js:235-248 | the log becomes the day toggle of the old log, and with no log nothing changes |
| WorkCycles.CycleButton.StartCycle | gnome/work-cycles/extension.js:264-269 | startTime becomes now with no guard, and the log is kept |
| WorkCycles.CycleButton.UpdateProgress | gnome/work-cycles/extension.js:277-297 | idle changes nothing; after three hours the cycle finishes and logs now; before that the bar shows elapsed of the duration and nothing changes |
| WorkCycles.CycleButton.FinishCycle | gnome/work-cycles/extension.js:299-307 | exactly one entry, now, is appended, creating the log if missing, and startTime is cleared |
| WorkCycles.CycleButton.UpdateView | gnome/work-cycles/extension.js:133-214 | the start button shows exactly when idle, with no confirm or round box, plus the grid and the 7-day skyline of the log |
| WorkCycles.CycleRun | gnome/work-cycles/extension.js:264-307 | a cycle checked after three hours logs exactly one entry and a later check does nothing |
| TrayMenu.ConfigOf | windows/src/menu.js:10-13 | each tracker's configuration splits into whole rounds |
| TrayMenu.Truthy | windows/src/menu.js:24 | `if (d.startTime)`: set and not 0 |
| TrayMenu.OnlyBodyHasRounds | windows/src/menu.js:10-13 | only the body tracker has more than one round |
| TrayMenu.Menu.constructor | windows/src/menu.js:15-18 | both records are taken as stored, a running cycle keeps running, and the body view is shown |
| TrayMenu.Menu.UpdateView | windows/src/menu.js:42-63 | the start button shows exactly when the shown tracker is not running; the round box shows when it runs with more than one round; the confirm box is hidden |
| TrayMenu.Menu.SetType | windows/src/menu.js:37-40 | the shown tracker becomes k and the boxes follow its state |
| TrayMenu.Menu.GetCycles | windows/src/menu.js:127-132 | the filter length is that tracker's count of entries on the date |
| TrayMenu.Menu.ToggleCycle | windows/src/menu.js:134-146 | the tracker's log becomes its day toggle, the other tracker is untouched, and the boxes follow the shown tracker with the confirm box hidden |
| TrayMenu.Menu.UpdateRoutineLabels | windows/src/menu.js:148-155 | the label becomes the capped round only when the shown tracker runs with more than one round, so it only changes for the body tracker |
| TrayMenu.Menu.OnCycleEnd | windows/src/menu.js:157-170 | work appends exactly now and clears startTime; body changes no data and swaps the round box for the confirm box when shown |
| TrayMenu.Menu.Start | windows/src/menu.js:172-176 | only the shown tracker's startTime becomes now |
| TrayMenu.Menu.Yes | windows/src/menu.js:178-183 | the body log gains exactly now and startTime is cleared; work is untouched; the boxes follow the shown tracker with the confirm box hidden |
| TrayMenu.Menu.No | windows/src/menu.js:185-189 | the body startTime is cleared and its log is untouched; the boxes follow the shown tracker with the confirm box hidden |
| TrayMenu.Menu.Due | windows/src/menu.js:24-29 | a tracker is due when its startTime is truthy and elapsed reaches its duration |
| TrayMenu.Menu.CheckTracker | windows/src/menu.js:22-32 | a tracker's end fires exactly when it is due; the shown tracker's round label is written when it runs with more than one round; a due shown body swaps the round box for the confirm box, a due shown work tracker shows the start button, and otherwise the boxes stay |
| TrayMenu.Menu.Tick | windows/src/menu.js:21-34 | each tracker fires independently exactly when due; a due body keeps its data, and a due work tracker logs now and stops; the round label follows the shown tracker; a due shown body shows the confirm box, a due shown work tracker the start button, and boxes stay when the shown tracker is not due |
| TrayMenu.Menu.RenderCalendar | windows/src/menu.js:65-114 | the grid of the shown tracker's log and the 7-day skyline of its counts from the anchor week's Monday |

## Left out

- Widgets, CSS and geometry are left out: St/Clutter widgets, DOM elements, CSS level classes, menu open/close and monitor or panel geometry.
  - A segment's pixel width is a floating-point fraction. `Fill.Partial(done, length)` keeps its numerator and denominator instead.
  - The work bar keeps `Bar(elapsed, duration)` in the same way.
- Timers are left out: the GLib timeouts, `setInterval` and their teardown.
  - The caller drives `UpdateProgress(now)` and `Tick(now)`.
  - `_startCycle` in the GNOME trackers refreshes the view and runs one progress update at once. In the model these are separate calls: `StartCycle`, then `UpdateProgress` and `UpdateView`.
  - The same holds for the view refresh that follows a toggle, a confirmation or a finished cycle.
- Persistence is left out: `_saveData`, the file and JSON handling of `_loadData`, and the Electron IPC.
  - A load becomes `Store.Load` of an optional parsed record.
  - A file that parses to something other than a record object is not modelled.
- `windows/src/main.js` is not part of this model. Its records are taken as given by `TrayMenu.Menu.constructor`.
- Dev-mode helpers (`_devFillData`, `_devSkip`, `_devResetData`) are left out. `DEV_MODE` is false.
- Month navigation (`_navMonth` and the prev/next buttons) is left out. The viewed month is the parameter pair `y`, `m`.
- The local time zone is abstract. `Zone` is a parameter, and no daylight-saving rule is modelled concretely.
  - Results that need local noon to read back on its own date take `NoonStable(z)` as a hypothesis.
  - The grid and skyline arithmetic uses day numbers of local dates.
- Calendar.MakeDay: `new Date(y, m, d)` reads a year 0..99 as 1900 + y. The model takes the viewed year as written, so viewed years are taken to be 100 or later.
- JavaScript numbers are modelled as unbounded integers. Timestamps are far below 2^53, and the TimeClip range check is not modelled.
- The month label text and the `round/rounds` string are modelled by the numbers they print.
- TrayMenu.Tracker: a Windows record without a `history` array, on which `getCycles` would throw, is not modelled. Nor is a record without a `startTime` field: `updateView` would show it as running (`undefined !== null`) while the check never fires it, and the model reads it as idle.
- MonthView.Cell: Windows grid cells hold only day, isToday and count. The model gives them the month and year of the viewed month as well.
- TrayMenu.Menu.UpdateView: it covers the three boxes only. The calendar part of `updateView` is `TrayMenu.Menu.RenderCalendar`, and the button text and label color are left out.
- BodyActivation.MartialBodyButton.IsActive: `startTime !== null` in JavaScript also counts a record whose `startTime` field is absent as active. The model's `Option` reads both null and absent as not running.
- The Windows `onCycleEnd` also sends `update-progress` to the main process. That message is not modelled.
