/**
 * The calendar views built from a history log: the Monday-first month grid
 * and the seven-day skyline. Both work on local day numbers; counts come
 * from the log's per-date count.
 */
module MonthView {
  import opened Wrappers
  import opened Calendar
  import opened LocalTime
  import opened History

  /** A day cell of the month grid (`{count, isToday, isValid, day, month, year}`). */
  datatype Cell = Cell(day: int, month: int, year: int, count: nat, isToday: bool)

  /** What a tracker's popup shows after a view update. */
  datatype View = View(
    startVisible: bool,
    confirmVisible: bool,
    routineVisible: bool,
    roundLabel: Option<int>,
    grid: seq<Option<Cell>>,
    skyline: seq<nat>,
    week: seq<CalDate>)

  /**
   * `(new Date(y, m, 1).getDay() + 6) % 7`: the empty cells before day 1,
   * which is the number of days from the Monday of that week to day 1.
   */
  function LeadingPadding(y: int, m: int): (r: int)
    requires 0 <= m < 12
    ensures 0 <= r < 7
    ensures WeekDay(MakeDay(y, m, 1) - r) == 1
  {
    DaysSinceMonday(MakeDay(y, m, 1))
  }

  /** `(getDay() + 6) % 7`: how many days day n lies after the Monday of its week. */
  function DaysSinceMonday(n: int): (r: int)
    ensures 0 <= r < 7
    ensures WeekDay(n - r) == 1
  {
    var w := WeekDay(n);
    var q := (n + 4) / 7;
    assert n + 4 == 7 * q + w;
    if w == 0 then
      assert n - 6 + 4 == 7 * (q - 1) + 1;
      6
    else
      assert n - (w - 1) + 4 == 7 * q + 1;
      w - 1
  }

  predicate IsToday(y: int, m: int, d: int, today: CalDate)
  {
    today.month == m && today.year == y && d == today.day
  }

  /** The cell the grid holds for day d of month m. */
  function DayCell(h: seq<int>, z: Zone, y: int, m: int, d: int, today: CalDate): Cell
  {
    Cell(d, m, y, CountOnDate(h, z, CalDate(y, m, d)), IsToday(y, m, d, today))
  }

  /**
   * The month grid: Monday-first leading padding, then one cell per day of
   * the month in order, then padding up to a whole number of weeks.
   */
  ghost predicate IsMonthGrid(cells: seq<Option<Cell>>, h: seq<int>, z: Zone, y: int, m: int, today: CalDate)
    requires 0 <= m < 12
  {
    var lead := LeadingPadding(y, m);
    var days := DaysInMonth(y, m);
    && |cells| % 7 == 0
    && lead + days <= |cells| < lead + days + 7
    && (forall i :: 0 <= i < |cells| ==> (cells[i].Some? <==> lead <= i < lead + days))
    && (forall i :: lead <= i < lead + days ==> cells[i] == Some(DayCell(h, z, y, m, i - lead + 1, today)))
  }

  /** The grid-building loops of the view update (`gridCells`). */
  method BuildGrid(h: seq<int>, z: Zone, y: int, m: int, today: CalDate) returns (cells: seq<Option<Cell>>)
    requires 0 <= m < 12
    ensures IsMonthGrid(cells, h, z, y, m, today)
  {
    var gridStartCol, daysInMonth := MonthShape(y, m);
    cells := [];
    for i := 0 to gridStartCol
      invariant |cells| == i
      invariant forall j :: 0 <= j < i ==> cells[j] == None
    {
      cells := cells + [None];
    }
    var isCurrentMonth := today.month == m && today.year == y;
    for d := 1 to daysInMonth + 1
      invariant |cells| == gridStartCol + d - 1
      invariant forall j :: 0 <= j < gridStartCol ==> cells[j] == None
      invariant forall j :: gridStartCol <= j < |cells| ==>
                  cells[j] == Some(DayCell(h, z, y, m, j - gridStartCol + 1, today))
    {
      var count := CountCycles(h, z, CalDate(y, m, d));
      cells := cells + [Some(Cell(d, m, y, count, isCurrentMonth && d == today.day))];
    }
    var filled := gridStartCol + daysInMonth;
    while |cells| % 7 != 0
      invariant filled <= |cells| <= filled + Padding(filled)
      invariant forall j :: 0 <= j < gridStartCol ==> cells[j] == None
      invariant forall j :: gridStartCol <= j < filled ==>
                  cells[j] == Some(DayCell(h, z, y, m, j - gridStartCol + 1, today))
      invariant forall j :: filled <= j < |cells| ==> cells[j] == None
      decreases filled + Padding(filled) - |cells|
    {
      PaddingStep(filled, |cells|);
      cells := cells + [None];
    }
  }

  /** The empty cells that complete the last week after `filled` cells. */
  function Padding(filled: int): (r: int)
  {
    (7 - filled % 7) % 7
  }

  /** Short of a whole week, the padded grid still has room for one more empty cell. */
  lemma PaddingStep(filled: int, n: int)
    requires filled <= n <= filled + Padding(filled)
    requires n % 7 != 0
    ensures n < filled + Padding(filled)
  {
    var q := filled / 7;
    var k := filled % 7;
    assert filled == 7 * q + k;
    assert k != 0;
    assert filled + Padding(filled) == 7 * (q + 1);
  }

  /**
   * The two calendar facts the grid needs: the weekday column of day 1 and
   * the month length, read as `new Date(y, m + 1, 0).getDate()`.
   */
  method MonthShape(y: int, m: int) returns (lead: int, days: int)
    requires 0 <= m < 12
    ensures lead == LeadingPadding(y, m)
    ensures days == DaysInMonth(y, m)
  {
    LastDayOfMonth(y, m);
    var lastDate := DateOfDay(MakeDay(y, m + 1, 0));
    days := lastDate.day;
    lead := DaysSinceMonday(MakeDay(y, m, 1));
  }

  /** The rows of the grid, seven cells each (the `i += 7` loop). */
  method GridRows(cells: seq<Option<Cell>>) returns (rows: seq<seq<Option<Cell>>>)
    requires |cells| % 7 == 0
    ensures |rows| * 7 == |cells|
    ensures forall r :: 0 <= r < |rows| ==> |rows[r]| == 7
    ensures forall r, c :: 0 <= r < |rows| && 0 <= c < 7 ==> rows[r][c] == cells[7 * r + c]
  {
    rows := [];
    var i := 0;
    while i < |cells|
      invariant 0 <= i <= |cells| && i % 7 == 0
      invariant |rows| * 7 == i
      invariant forall r :: 0 <= r < |rows| ==> |rows[r]| == 7
      invariant forall r, c :: 0 <= r < |rows| && 0 <= c < 7 ==> rows[r][c] == cells[7 * r + c]
    {
      rows := rows + [cells[i..i + 7]];
      i := i + 7;
    }
  }

  /** A month grid always spans four to six weeks. */
  lemma GridWeeks(cells: seq<Option<Cell>>, h: seq<int>, z: Zone, y: int, m: int, today: CalDate)
    requires 0 <= m < 12
    requires IsMonthGrid(cells, h, z, y, m, today)
    ensures 28 <= |cells| <= 42
  {
  }

  // ---------------------------------------------------------------------
  // Skyline

  /** The Monday of the week that holds the anchor day. */
  function WeekStart(anchorDay: int): (r: int)
    ensures WeekDay(r) == 1
    ensures r <= anchorDay < r + 7
  {
    anchorDay - DaysSinceMonday(anchorDay)
  }

  /** The skyline's anchor: today when the viewed month is today's month, else the month's last day. */
  function AnchorDay(y: int, m: int, today: CalDate): int
    requires 0 <= m < 12
  {
    if today.month == m && today.year == y then DayNumber(today) else MakeDay(y, m + 1, 0)
  }

  /** The anchor always lies in the viewed month; away from today's month it is its last day. */
  lemma AnchorInViewedMonth(y: int, m: int, today: CalDate)
    requires 0 <= m < 12
    requires ValidDate(today)
    ensures DateOfDay(AnchorDay(y, m, today)).year == y
    ensures DateOfDay(AnchorDay(y, m, today)).month == m
    ensures !(today.month == m && today.year == y) ==>
              DateOfDay(AnchorDay(y, m, today)).day == DaysInMonth(y, m)
    ensures today.month == m && today.year == y ==> DateOfDay(AnchorDay(y, m, today)) == today
  {
    if today.month == m && today.year == y {
      assert AnchorDay(y, m, today) == DayNumber(today);
      DateOfDayNumber(today);
    } else {
      assert AnchorDay(y, m, today) == MakeDay(y, m + 1, 0);
      LastDayOfMonth(y, m);
    }
  }

  /** With today read from the clock, the anchor is a day of the viewed month. */
  lemma AnchorOfNow(z: Zone, now: int, y: int, m: int)
    requires DatesValid(z)
    requires 0 <= m < 12
    ensures DateOfDay(AnchorDay(y, m, z.localDate(now))).year == y
    ensures DateOfDay(AnchorDay(y, m, z.localDate(now))).month == m
  {
    AnchorInViewedMonth(y, m, z.localDate(now));
  }

  /**
   * The skyline loop: the seven days from the Monday of the anchor's
   * week, each reached through `setDate` on the Monday, and their counts.
   */
  method Skyline(h: seq<int>, z: Zone, anchorDay: int) returns (counts: seq<nat>, days: seq<CalDate>)
    ensures |counts| == 7 && |days| == 7
    ensures forall i :: 0 <= i < 7 ==> ValidDate(days[i]) && DayNumber(days[i]) == WeekStart(anchorDay) + i
    ensures forall i :: 0 <= i < 7 ==> counts[i] == CountOnDate(h, z, days[i])
  {
    var distToMon := DaysSinceMonday(anchorDay);
    var monday, mondayDate := SetDate(anchorDay, -distToMon);
    counts, days := [], [];
    for i := 0 to 7
      invariant |counts| == i && |days| == i
      invariant forall j :: 0 <= j < i ==> ValidDate(days[j]) && DayNumber(days[j]) == monday + j
      invariant forall j :: 0 <= j < i ==> counts[j] == CountOnDate(h, z, days[j])
    {
      var day, d := SetDate(monday, i);
      var c := CountCycles(h, z, d);
      counts, days := counts + [c], days + [d];
    }
  }

  /**
   * `d.setDate(d.getDate() + k)` on the date of day n: the day k days
   * later, and the local date the getters then read.
   */
  method SetDate(n: int, k: int) returns (r: int, date: CalDate)
    ensures r == n + k
    ensures ValidDate(date) && DayNumber(date) == r
  {
    var d := DateOfDay(n);
    SetDateShifts(n, k);
    r := MakeDay(d.year, d.month, d.day + k);
    date := DateOfDay(r);
  }

  /**
   * The blocks of one skyline column: one per entry, at most four, and
   * only the top block is marked active.
   */
  method ColumnBlocks(count: nat) returns (blocks: seq<bool>)
    ensures |blocks| <= FullDay
    ensures |blocks| == count || (count >= FullDay && |blocks| == FullDay)
    ensures forall k :: 0 <= k < |blocks| ==> (blocks[k] <==> k == |blocks| - 1)
  {
    blocks := [];
    var k := 0;
    while k < count
      invariant 0 <= k <= count && k <= FullDay
      invariant |blocks| == k
      invariant forall j :: 0 <= j < k ==> (blocks[j] <==> j == 3 || j == count - 1)
    {
      if k >= 4 {
        break;
      }
      blocks := blocks + [k == 3 || k == count - 1];
      k := k + 1;
    }
  }
}
