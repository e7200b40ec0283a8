/**
 * The history log shared by all trackers: a flat list of completion
 * timestamps (epoch milliseconds), counted per local calendar date and
 * edited by the manual day toggle.
 */
module History {
  import opened Calendar
  import opened LocalTime

  /** At this count a day is fully filled and the next toggle clears it. */
  const FullDay: nat := 4

  predicate OnDate(z: Zone, ts: int, date: CalDate)
  {
    z.localDate(ts) == date
  }

  /** Number of entries of h whose local date is `date`. */
  function CountOnDate(h: seq<int>, z: Zone, date: CalDate): (r: nat)
    ensures r <= |h|
  {
    if h == [] then 0
    else CountOnDate(h[..|h| - 1], z, date) + (if OnDate(z, h[|h| - 1], date) then 1 else 0)
  }

  /** The entries on `date`, in order (the filter of the windows count). */
  function KeepDate(h: seq<int>, z: Zone, date: CalDate): (r: seq<int>)
    ensures forall i :: 0 <= i < |r| ==> OnDate(z, r[i], date)
  {
    if h == [] then []
    else KeepDate(h[..|h| - 1], z, date) + (if OnDate(z, h[|h| - 1], date) then [h[|h| - 1]] else [])
  }

  /** The entries not on `date`, in order (the filter that clears a day). */
  function DropDate(h: seq<int>, z: Zone, date: CalDate): (r: seq<int>)
    ensures forall i :: 0 <= i < |r| ==> !OnDate(z, r[i], date)
    ensures |r| == |h| - CountOnDate(h, z, date)
  {
    if h == [] then []
    else DropDate(h[..|h| - 1], z, date) + (if OnDate(z, h[|h| - 1], date) then [] else [h[|h| - 1]])
  }

  /**
   * The manual day toggle: a day with FullDay entries or more is cleared,
   * any other day gets one more entry at local noon.
   */
  function ToggleDay(h: seq<int>, z: Zone, date: CalDate): (r: seq<int>)
    ensures CountOnDate(h, z, date) >= FullDay ==>
              |r| == |h| - CountOnDate(h, z, date) && forall i :: 0 <= i < |r| ==> !OnDate(z, r[i], date)
    ensures CountOnDate(h, z, date) < FullDay ==>
              |r| == |h| + 1 && r[..|h|] == h && r[|h|] == z.localNoon(date)
  {
    if CountOnDate(h, z, date) >= FullDay then DropDate(h, z, date)
    else h + [z.localNoon(date)]
  }

  /** The counting loop (`forEach` incrementing `count`). */
  method CountCycles(h: seq<int>, z: Zone, date: CalDate) returns (count: nat)
    ensures count == CountOnDate(h, z, date)
  {
    count := 0;
    for i := 0 to |h|
      invariant count == CountOnDate(h[..i], z, date)
    {
      assert h[..i + 1][..i] == h[..i];
      if z.localDate(h[i]) == date {
        count := count + 1;
      }
    }
    assert h[..|h|] == h;
  }

  // ---------------------------------------------------------------------
  // Properties of the log operations

  lemma {:induction false} CountAppend(h: seq<int>, z: Zone, date: CalDate, ts: int)
    ensures CountOnDate(h + [ts], z, date) == CountOnDate(h, z, date) + (if OnDate(z, ts, date) then 1 else 0)
  {
    assert (h + [ts])[..|h|] == h;
  }

  /** The windows count (length of the filter) equals the counting loop's result. */
  lemma {:induction false} CountIsFilterLength(h: seq<int>, z: Zone, date: CalDate)
    ensures |KeepDate(h, z, date)| == CountOnDate(h, z, date)
  {
    if h != [] {
      CountIsFilterLength(h[..|h| - 1], z, date);
    }
  }

  /** Clearing a day removes every entry on that day and no other entry. */
  lemma {:induction false} DropDateExact(h: seq<int>, z: Zone, date: CalDate, ts: int)
    ensures multiset(DropDate(h, z, date))[ts] == if OnDate(z, ts, date) then 0 else multiset(h)[ts]
  {
    if h != [] {
      var init, last := h[..|h| - 1], h[|h| - 1];
      DropDateExact(init, z, date, ts);
      var rest := DropDate(init, z, date);
      var kept := if OnDate(z, last, date) then [] else [last];
      assert DropDate(h, z, date) == rest + kept;
      MultisetLast(h, ts);
      MultisetAppend(rest, kept, ts);
    }
  }

  lemma MultisetAppend(a: seq<int>, b: seq<int>, x: int)
    ensures multiset(a + b)[x] == multiset(a)[x] + multiset(b)[x]
  {
    assert multiset(a + b) == multiset(a) + multiset(b);
  }

  lemma MultisetLast(h: seq<int>, x: int)
    requires h != []
    ensures multiset(h)[x] == multiset(h[..|h| - 1])[x] + (if h[|h| - 1] == x then 1 else 0)
  {
    assert h == h[..|h| - 1] + [h[|h| - 1]];
    MultisetAppend(h[..|h| - 1], [h[|h| - 1]], x);
  }

  /** After clearing a day, that day counts 0 and every other day keeps its count. */
  lemma {:induction false} DropDateCounts(h: seq<int>, z: Zone, date: CalDate, other: CalDate)
    ensures CountOnDate(DropDate(h, z, date), z, other) == if other == date then 0 else CountOnDate(h, z, other)
  {
    if h != [] {
      var init, last := h[..|h| - 1], h[|h| - 1];
      DropDateCounts(init, z, date, other);
      var rest := DropDate(init, z, date);
      if OnDate(z, last, date) {
        assert DropDate(h, z, date) == rest;
      } else {
        assert DropDate(h, z, date) == rest + [last];
        CountAppend(rest, z, other, last);
      }
    }
  }

  /** Toggling a full day (count >= 4) clears it and changes no other day. */
  lemma ToggleFullDayClears(h: seq<int>, z: Zone, date: CalDate, other: CalDate)
    requires CountOnDate(h, z, date) >= FullDay
    ensures CountOnDate(ToggleDay(h, z, date), z, date) == 0
    ensures other != date ==> CountOnDate(ToggleDay(h, z, date), z, other) == CountOnDate(h, z, other)
  {
    DropDateCounts(h, z, date, date);
    DropDateCounts(h, z, date, other);
  }

  /**
   * Toggling a day below the cap keeps every earlier entry, raises that
   * day's count by exactly one and leaves every other day's count alone.
   */
  lemma ToggleOpenDayAppends(h: seq<int>, z: Zone, date: CalDate, other: CalDate)
    requires NoonStable(z) && ValidDate(date)
    requires CountOnDate(h, z, date) < FullDay
    ensures |ToggleDay(h, z, date)| == |h| + 1 && ToggleDay(h, z, date)[..|h|] == h
    ensures CountOnDate(ToggleDay(h, z, date), z, date) == CountOnDate(h, z, date) + 1
    ensures other != date ==> CountOnDate(ToggleDay(h, z, date), z, other) == CountOnDate(h, z, other)
  {
    CountAppend(h, z, date, z.localNoon(date));
    CountAppend(h, z, other, z.localNoon(date));
    assert (h + [z.localNoon(date)])[..|h|] == h;
  }

  /** The toggle applied k times in a row to one date. */
  function ToggleTimes(h: seq<int>, z: Zone, date: CalDate, k: nat): seq<int>
  {
    if k == 0 then h else ToggleDay(ToggleTimes(h, z, date, k - 1), z, date)
  }

  /**
   * Starting from an empty day, k toggles (k <= 4) give k entries, and the
   * fifth toggle clears the day again.
   */
  lemma {:induction false} ToggleCycle(h: seq<int>, z: Zone, date: CalDate, k: nat)
    requires NoonStable(z) && ValidDate(date)
    requires CountOnDate(h, z, date) == 0
    requires k <= FullDay + 1
    ensures CountOnDate(ToggleTimes(h, z, date, k), z, date) == if k <= FullDay then k else 0
  {
    if k > 0 {
      ToggleCycle(h, z, date, k - 1);
      var prev := ToggleTimes(h, z, date, k - 1);
      assert ToggleTimes(h, z, date, k) == ToggleDay(prev, z, date);
      if k <= FullDay {
        ToggleOpenDayAppends(prev, z, date, date);
      } else {
        ToggleFullDayClears(prev, z, date, date);
      }
    }
  }
}
