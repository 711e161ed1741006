/**
 Free-slot search: `find_available_slots` in backend/app/services/calendar_service.py.

 Instants are integers. A slot is packed when the window of the requested
 length starting at the cursor ends no later than the next busy start, or, after the last
 busy interval, no later than the end of the business day.
*/
module CalendarSlots {
  import Sets

  datatype Interval = Interval(start: int, end: int)

  /** The window [s, s + d) meets the busy interval b. */
  predicate Conflicts(b: Interval, s: int, d: int) {
    s < b.end && b.start < s + d
  }

  ghost predicate Open(busy: seq<Interval>, s: int, d: int) {
    forall b :: b in busy ==> !Conflicts(b, s, d)
  }

  /** A window may be offered: it meets no busy interval and ends by the horizon. */
  ghost predicate Fits(busy: seq<Interval>, s: int, d: int, horizon: int) {
    Open(busy, s, d) && s + d <= horizon
  }

  /** The latest of the day's end and every busy start. The loop over busy intervals packs up to
      each busy start without looking at the day's end, so this is how far the search reaches. */
  function Horizon(busy: seq<Interval>, dayEnd: int): (h: int)
    ensures dayEnd <= h
    ensures forall b :: b in busy ==> b.start <= h
    ensures h == dayEnd || exists b :: b in busy && h == b.start
  {
    if busy == [] then dayEnd
    else
      var rest := Horizon(busy[1..], dayEnd);
      assert busy[0] in busy && forall b :: b in busy <==> b == busy[0] || b in busy[1..];
      if rest < busy[0].start then busy[0].start else rest
  }

  // ---------------------------------------------------------------------------------------------
  // Specification: repeatedly take the least start at or after the last end that fits
  // ---------------------------------------------------------------------------------------------

  ghost predicate IsLeastFit(s: int, busy: seq<Interval>, d: int, from: int, horizon: int) {
    && from <= s
    && Fits(busy, s, d, horizon)
    && forall e :: from <= e < s ==> !Fits(busy, e, d, horizon)
  }

  ghost predicate EarliestFit(slots: seq<Interval>, busy: seq<Interval>, d: int, from: int, horizon: int)
    decreases |slots|
  {
    if slots == [] then
      forall s :: from <= s ==> !Fits(busy, s, d, horizon)
    else
      && IsLeastFit(slots[0].start, busy, d, from, horizon)
      && slots[0].end == slots[0].start + d
      && EarliestFit(slots[1..], busy, d, slots[0].end, horizon)
  }

  /** What a caller relies on, said of the list as a whole. */
  ghost predicate Sound(slots: seq<Interval>, busy: seq<Interval>, d: int, from: int, horizon: int) {
    && (forall i :: 0 <= i < |slots| ==> slots[i].end == slots[i].start + d)
    && (forall i :: 0 <= i < |slots| ==> from <= slots[i].start && slots[i].end <= horizon)
    && (forall i, j :: 0 <= i < j < |slots| ==> slots[i].end <= slots[j].start)
    && (forall i :: 0 <= i < |slots| ==> Open(busy, slots[i].start, d))
  }

  /** Slots have the exact length, lie between the day's start and the horizon, come in order
      without overlap and meet no busy interval. */
  lemma {:induction false} EarliestFitIsSound(slots: seq<Interval>, busy: seq<Interval>, d: int, from: int, horizon: int)
    requires d > 0
    requires EarliestFit(slots, busy, d, from, horizon)
    ensures Sound(slots, busy, d, from, horizon)
    decreases |slots|
  {
    if slots != [] {
      var rest := slots[1..];
      EarliestFitIsSound(rest, busy, d, slots[0].end, horizon);
      forall i | 1 <= i < |slots|
        ensures slots[i] == rest[i - 1]
      {
      }
    }
  }

  /** The specification has one answer: the list depends only on which windows fit. */
  lemma {:induction false} EarliestFitIsUnique(
    a: seq<Interval>, busyA: seq<Interval>, b: seq<Interval>, busyB: seq<Interval>, d: int, from: int, horizon: int)
    requires forall s :: Fits(busyA, s, d, horizon) <==> Fits(busyB, s, d, horizon)
    requires EarliestFit(a, busyA, d, from, horizon)
    requires EarliestFit(b, busyB, d, from, horizon)
    ensures a == b
    decreases |a|
  {
    if a == [] || b == [] {
    } else {
      assert Fits(busyB, a[0].start, d, horizon);
      assert Fits(busyA, b[0].start, d, horizon);
      assert a[0].start == b[0].start;
      EarliestFitIsUnique(a[1..], busyA, b[1..], busyB, d, a[0].end, horizon);
      assert a == [a[0]] + a[1..];
      assert b == [b[0]] + b[1..];
    }
  }

  // ---------------------------------------------------------------------------------------------
  // Optimality
  // ---------------------------------------------------------------------------------------------

  /** Starts of windows of length d that could all be booked together. */
  ghost predicate Bookable(starts: set<int>, busy: seq<Interval>, d: int, from: int, horizon: int) {
    && (forall s :: s in starts ==> from <= s && Fits(busy, s, d, horizon))
    && (forall s, t :: s in starts && t in starts && s < t ==> s + d <= t)
  }

  lemma {:induction false} LeastElement(starts: set<int>) returns (m: int)
    requires starts != {}
    ensures m in starts && forall s :: s in starts ==> m <= s
    decreases |starts|
  {
    var x := Sets.Member(starts);
    var rest := starts - {x};
    assert starts == rest + {x};
    if rest == {} {
      m := x;
    } else {
      var r := LeastElement(rest);
      m := if r < x then r else x;
      assert forall s :: s in starts ==> s == x || s in rest;
    }
  }

  /** No choice of pairwise disjoint, busy-free windows of the requested length
      between the start and the horizon has more members than the earliest-fit list. */
  lemma {:induction false} EarliestFitIsOptimal(
    slots: seq<Interval>, starts: set<int>, busy: seq<Interval>, d: int, from: int, horizon: int)
    requires d > 0
    requires EarliestFit(slots, busy, d, from, horizon)
    requires Bookable(starts, busy, d, from, horizon)
    ensures |starts| <= |slots|
    decreases |slots|
  {
    if starts != {} {
      var m := LeastElement(starts);
      var rest := starts - {m};
      assert Fits(busy, m, d, horizon);
      assert slots != [] && slots[0].start <= m;
      assert forall s :: s in rest ==> slots[0].end <= s;
      EarliestFitIsOptimal(slots[1..], rest, busy, d, slots[0].end, horizon);
      assert starts == rest + {m};
    }
  }

  // ---------------------------------------------------------------------------------------------
  // Only the union of busy time matters
  // ---------------------------------------------------------------------------------------------

  ghost predicate BusyAt(busy: seq<Interval>, t: int) {
    exists b :: b in busy && b.start <= t < b.end
  }

  /** For intervals of positive length a window is open exactly when no instant in it is busy. */
  lemma OpenMeansNoBusyInstant(busy: seq<Interval>, s: int, d: int)
    requires d > 0
    requires forall b :: b in busy ==> b.start < b.end
    ensures Open(busy, s, d) <==> forall t :: s <= t < s + d ==> !BusyAt(busy, t)
  {
    if !Open(busy, s, d) {
      var b :| b in busy && Conflicts(b, s, d);
      var t := if s < b.start then b.start else s;
      assert b.start <= t < b.end;
      assert BusyAt(busy, t);
    }
    if t :| s <= t < s + d && BusyAt(busy, t) {
      var b :| b in busy && b.start <= t < b.end;
      assert Conflicts(b, s, d);
    }
  }

  /** Two busy lists inside the queried day that cover the same instants give the same slots,
      whatever their order, nesting or splitting. */
  lemma SlotsDependOnBusyUnion(
    a: seq<Interval>, busyA: seq<Interval>, b: seq<Interval>, busyB: seq<Interval>, d: int, dayStart: int, dayEnd: int)
    requires d > 0
    requires forall i :: i in busyA + busyB ==> i.start < i.end && i.start <= dayEnd
    requires forall t :: BusyAt(busyA, t) <==> BusyAt(busyB, t)
    requires EarliestFit(a, busyA, d, dayStart, Horizon(busyA, dayEnd))
    requires EarliestFit(b, busyB, d, dayStart, Horizon(busyB, dayEnd))
    ensures a == b
  {
    assert forall i :: i in busyA ==> i in busyA + busyB;
    assert forall i :: i in busyB ==> i in busyA + busyB;
    assert Horizon(busyA, dayEnd) == dayEnd && Horizon(busyB, dayEnd) == dayEnd;
    forall s
      ensures Fits(busyA, s, d, dayEnd) <==> Fits(busyB, s, d, dayEnd)
    {
      OpenMeansNoBusyInstant(busyA, s, d);
      OpenMeansNoBusyInstant(busyB, s, d);
    }
    EarliestFitIsUnique(a, busyA, b, busyB, d, dayStart, dayEnd);
  }

  // ---------------------------------------------------------------------------------------------
  // The end of the business day
  // ---------------------------------------------------------------------------------------------

  /** Reaching past the day's end only ever adds slots at the back, and all of those end after the day. */
  lemma {:induction false} InDaySlotsComeFirst(
    inDay: seq<Interval>, slots: seq<Interval>, busy: seq<Interval>, d: int, from: int, dayEnd: int, horizon: int)
    requires d > 0 && dayEnd <= horizon
    requires EarliestFit(inDay, busy, d, from, dayEnd)
    requires EarliestFit(slots, busy, d, from, horizon)
    ensures |inDay| <= |slots| && slots[..|inDay|] == inDay
    ensures forall i :: |inDay| <= i < |slots| ==> dayEnd < slots[i].end
    decreases |inDay|
  {
    if inDay == [] {
      EarliestFitIsSound(slots, busy, d, from, horizon);
      if slots != [] {
        assert !Fits(busy, slots[0].start, d, dayEnd);
      }
    } else {
      assert Fits(busy, inDay[0].start, d, horizon);
      assert slots != [] && slots[0].start <= inDay[0].start;
      assert Fits(busy, slots[0].start, d, dayEnd);
      assert slots[0] == inDay[0];
      InDaySlotsComeFirst(inDay[1..], slots[1..], busy, d, inDay[0].end, dayEnd, horizon);
      assert inDay == [inDay[0]] + inDay[1..];
      assert slots == [slots[0]] + slots[1..];
    }
  }

  /** The free/busy query is bounded by the day's end; then every slot lies in the business day. */
  lemma SlotsStayInDay(slots: seq<Interval>, busy: seq<Interval>, d: int, dayStart: int, dayEnd: int)
    requires d > 0
    requires forall b :: b in busy ==> b.start <= dayEnd
    requires EarliestFit(slots, busy, d, dayStart, Horizon(busy, dayEnd))
    ensures Sound(slots, busy, d, dayStart, dayEnd)
  {
    EarliestFitIsSound(slots, busy, d, dayStart, Horizon(busy, dayEnd));
  }

  function EndOf(slots: seq<Interval>, from: int): int {
    if slots == [] then from else slots[|slots| - 1].end
  }

  /** For every busy list the slots stay in the day if and only if no free window that ends after the day, but by the
      horizon, starts at or after the end of the in-day slots. */
  lemma {:induction false} SlotsStayInDayIff(
    inDay: seq<Interval>, slots: seq<Interval>, busy: seq<Interval>, d: int, from: int, dayEnd: int, horizon: int)
    requires d > 0 && dayEnd <= horizon
    requires EarliestFit(inDay, busy, d, from, dayEnd)
    requires EarliestFit(slots, busy, d, from, horizon)
    ensures
      (forall i :: 0 <= i < |slots| ==> slots[i].end <= dayEnd)
      <==> forall s :: EndOf(inDay, from) <= s && dayEnd < s + d ==> !Fits(busy, s, d, horizon)
    decreases |inDay|
  {
    InDaySlotsComeFirst(inDay, slots, busy, d, from, dayEnd, horizon);
    if inDay == [] {
      if slots != [] {
        assert slots[0].end > dayEnd;
        assert Fits(busy, slots[0].start, d, horizon);
      }
    } else {
      assert slots[0] == inDay[0] && slots[0].end <= dayEnd;
      assert EndOf(inDay, from) == EndOf(inDay[1..], inDay[0].end);
      SlotsStayInDayIff(inDay[1..], slots[1..], busy, d, inDay[0].end, dayEnd, horizon);
      assert forall i :: 0 <= i < |slots[1..]| ==> slots[1..][i] == slots[i + 1];
      assert forall i :: 1 <= i < |slots| ==> slots[i] == slots[1..][i - 1];
    }
  }

  /** Without that bound the day's end is not respected: one interval starting later is enough. */
  lemma LateBusyOvershootsDay(slots: seq<Interval>)
    requires EarliestFit(slots, [Interval(100, 110)], 30, 0, Horizon([Interval(100, 110)], 40))
    ensures |slots| == 3 && slots[1] == Interval(30, 60)
  {
    var busy := [Interval(100, 110)];
    assert busy[0] in busy;
    assert Horizon(busy, 40) == 100;
    assert Fits(busy, 0, 30, 100) && Fits(busy, 30, 30, 100) && Fits(busy, 60, 30, 100);
    assert EarliestFit([Interval(0, 30), Interval(30, 60), Interval(60, 90)], busy, 30, 0, 100) by {
      assert EarliestFit([], busy, 30, 90, 100);
      assert EarliestFit([Interval(60, 90)], busy, 30, 60, 100) by {
        assert [Interval(60, 90)][1..] == [];
      }
      assert EarliestFit([Interval(30, 60), Interval(60, 90)], busy, 30, 30, 100) by {
        assert [Interval(30, 60), Interval(60, 90)][1..] == [Interval(60, 90)];
      }
      assert [Interval(0, 30), Interval(30, 60), Interval(60, 90)][1..] == [Interval(30, 60), Interval(60, 90)];
    }
    EarliestFitIsUnique(slots, busy, [Interval(0, 30), Interval(30, 60), Interval(60, 90)], busy, 30, 0, 100);
  }

  // ---------------------------------------------------------------------------------------------
  // The search itself
  // ---------------------------------------------------------------------------------------------

  ghost predicate SortedByStart(busy: seq<Interval>) {
    forall i, j :: 0 <= i < j < |busy| ==> busy[i].start <= busy[j].start
  }

  function InsertByStart(b: Interval, sorted: seq<Interval>): (r: seq<Interval>)
    requires SortedByStart(sorted)
    ensures SortedByStart(r) && |r| == |sorted| + 1
    ensures forall x :: x in r <==> x == b || x in sorted
  {
    if sorted == [] || b.start <= sorted[0].start then [b] + sorted
    else
      var rest := InsertByStart(b, sorted[1..]);
      assert sorted == [sorted[0]] + sorted[1..];
      assert forall x :: x in rest ==> sorted[0].start <= x.start;
      [sorted[0]] + rest
  }

  /** The stable in-place sort by interval start. */
  function SortByStart(busy: seq<Interval>): (r: seq<Interval>)
    ensures SortedByStart(r) && |r| == |busy|
    ensures forall x :: x in r <==> x in busy
  {
    if busy == [] then []
    else
      assert busy == [busy[0]] + busy[1..];
      InsertByStart(busy[0], SortByStart(busy[1..]))
  }

  lemma {:induction false} InsertAddsOne(b: Interval, sorted: seq<Interval>)
    requires SortedByStart(sorted)
    ensures multiset(InsertByStart(b, sorted)) == multiset(sorted) + multiset{b}
    decreases |sorted|
  {
    if sorted != [] && sorted[0].start < b.start {
      InsertAddsOne(b, sorted[1..]);
      assert sorted == [sorted[0]] + sorted[1..];
    }
  }

  lemma {:induction false} SortIsPermutation(busy: seq<Interval>)
    ensures multiset(SortByStart(busy)) == multiset(busy)
    decreases |busy|
  {
    if busy != [] {
      SortIsPermutation(busy[1..]);
      InsertAddsOne(busy[0], SortByStart(busy[1..]));
      assert busy == [busy[0]] + busy[1..];
    }
  }

  /** `done` is an initial part of the earliest-fit list and the rest of it starts from `cursor`. */
  ghost predicate Continues(
    done: seq<Interval>, cursor: int, busy: seq<Interval>, d: int, from: int, horizon: int)
  {
    forall rest :: EarliestFit(rest, busy, d, cursor, horizon) ==> EarliestFit(done + rest, busy, d, from, horizon)
  }

  lemma ContinuesFromStart(busy: seq<Interval>, d: int, from: int, horizon: int)
    ensures Continues([], from, busy, d, from, horizon)
  {
    forall rest | EarliestFit(rest, busy, d, from, horizon)
      ensures EarliestFit([] + rest, busy, d, from, horizon)
    {
      assert [] + rest == rest;
    }
  }

  lemma PrependFit(
    done: seq<Interval>, rest: seq<Interval>, cursor: int, busy: seq<Interval>, d: int, from: int, horizon: int)
    requires Continues(done, cursor, busy, d, from, horizon)
    requires Fits(busy, cursor, d, horizon)
    requires EarliestFit(rest, busy, d, cursor + d, horizon)
    ensures EarliestFit(done + [Interval(cursor, cursor + d)] + rest, busy, d, from, horizon)
  {
    var tail := [Interval(cursor, cursor + d)] + rest;
    assert tail[1..] == rest;
    assert EarliestFit(tail, busy, d, cursor, horizon);
    assert done + tail == done + [Interval(cursor, cursor + d)] + rest;
  }

  /** Packing the window at the cursor keeps `Continues`. */
  lemma ContinuesAfterPack(done: seq<Interval>, cursor: int, busy: seq<Interval>, d: int, from: int, horizon: int)
    requires Continues(done, cursor, busy, d, from, horizon)
    requires Fits(busy, cursor, d, horizon)
    ensures Continues(done + [Interval(cursor, cursor + d)], cursor + d, busy, d, from, horizon)
  {
    var next := cursor + d;
    forall rest | EarliestFit(rest, busy, d, next, horizon)
      ensures EarliestFit(done + [Interval(cursor, cursor + d)] + rest, busy, d, from, horizon)
    {
      PrependFit(done, rest, cursor, busy, d, from, horizon);
    }
  }

  /** Moving the cursor past a busy interval that starts before the window ends keeps `Continues`. */
  lemma ContinuesAfterSkip(
    done: seq<Interval>, cursor: int, b: Interval, busy: seq<Interval>, d: int, from: int, horizon: int)
    requires Continues(done, cursor, busy, d, from, horizon)
    requires b in busy && cursor < b.end && b.start < cursor + d
    ensures Continues(done, b.end, busy, d, from, horizon)
  {
    assert forall s :: cursor <= s < b.end ==> Conflicts(b, s, d);
    forall rest | EarliestFit(rest, busy, d, b.end, horizon)
      ensures EarliestFit(done + rest, busy, d, from, horizon)
    {
      assert EarliestFit(rest, busy, d, cursor, horizon);
    }
  }

  /** The first i busy intervals have ended by the cursor and leave no room in front of it. */
  ghost predicate Passed(ordered: seq<Interval>, i: nat, cursor: int, d: int)
    requires i <= |ordered|
  {
    forall j :: 0 <= j < i ==> ordered[j].end <= cursor && ordered[j].start < cursor + d
  }

  /** The window at the cursor is open when every busy interval before position `i` has ended
      and every other one starts after the window. */
  lemma OpenBeforeNextBusy(ordered: seq<Interval>, i: nat, cursor: int, d: int)
    requires SortedByStart(ordered) && i <= |ordered|
    requires Passed(ordered, i, cursor, d)
    requires i < |ordered| ==> cursor + d <= ordered[i].start
    ensures Open(ordered, cursor, d)
  {
    forall b | b in ordered
      ensures !Conflicts(b, cursor, d)
    {
      var j :| 0 <= j < |ordered| && ordered[j] == b;
      assert j < i || ordered[i].start <= ordered[j].start;
    }
  }

  /** What the sweep knows when it stands at `cursor` with i busy intervals behind it. */
  ghost predicate Sweeping(
    done: seq<Interval>, cursor: int, i: nat, ordered: seq<Interval>, d: int, from: int, horizon: int)
    requires i <= |ordered|
  {
    SortedByStart(ordered) && Passed(ordered, i, cursor, d) && Continues(done, cursor, ordered, d, from, horizon)
  }

  lemma PackKeepsSweeping(
    done: seq<Interval>, cursor: int, i: nat, ordered: seq<Interval>, d: int, from: int, horizon: int)
    requires d > 0 && i <= |ordered| && Sweeping(done, cursor, i, ordered, d, from, horizon)
    requires i < |ordered| ==> cursor + d <= ordered[i].start
    requires cursor + d <= horizon
    ensures Sweeping(done + [Interval(cursor, cursor + d)], cursor + d, i, ordered, d, from, horizon)
  {
    OpenBeforeNextBusy(ordered, i, cursor, d);
    ContinuesAfterPack(done, cursor, ordered, d, from, horizon);
  }

  lemma SkipKeepsSweeping(
    done: seq<Interval>, cursor: int, i: nat, ordered: seq<Interval>, d: int, from: int, horizon: int)
    requires d > 0 && i < |ordered| && Sweeping(done, cursor, i, ordered, d, from, horizon)
    requires ordered[i].start < cursor + d
    ensures
      var next := if cursor < ordered[i].end then ordered[i].end else cursor;
      Sweeping(done, next, i + 1, ordered, d, from, horizon)
  {
    if cursor < ordered[i].end {
      ContinuesAfterSkip(done, cursor, ordered[i], ordered, d, from, horizon);
    }
  }

  /** Once every busy interval has ended by the cursor and the day has no room left, the list is complete. */
  lemma CompleteAfterDay(
    slots: seq<Interval>, ordered: seq<Interval>, cursor: int, d: int, dayStart: int, dayEnd: int, horizon: int)
    requires d > 0 && horizon == Horizon(ordered, dayEnd)
    requires Sweeping(slots, cursor, |ordered|, ordered, d, dayStart, horizon)
    requires dayEnd < cursor + d
    ensures EarliestFit(slots, ordered, d, dayStart, horizon)
  {
    assert EarliestFit([], ordered, d, cursor, horizon);
    assert slots + [] == slots;
  }

  lemma SameMembersFitAlike(busy: seq<Interval>, ordered: seq<Interval>, d: int, dayEnd: int)
    requires forall x :: x in ordered <==> x in busy
    ensures Horizon(busy, dayEnd) == Horizon(ordered, dayEnd)
    ensures forall s, h :: Fits(busy, s, d, h) <==> Fits(ordered, s, d, h)
  {
  }

  lemma {:induction false} EarliestFitTransfers(
    slots: seq<Interval>, busy: seq<Interval>, ordered: seq<Interval>, d: int, from: int, horizon: int)
    requires forall s :: Fits(busy, s, d, horizon) <==> Fits(ordered, s, d, horizon)
    requires EarliestFit(slots, ordered, d, from, horizon)
    ensures EarliestFit(slots, busy, d, from, horizon)
    decreases |slots|
  {
    if slots != [] {
      EarliestFitTransfers(slots[1..], busy, ordered, d, slots[0].end, horizon);
    }
  }

  /** The cursor sweep. It equals the earliest-fit specification for every busy list:
      unsorted, nested, overlapping, before the day or past its end. */
  method FindAvailableSlots(busy: seq<Interval>, dayStart: int, dayEnd: int, d: int) returns (slots: seq<Interval>)
    requires d > 0
    ensures EarliestFit(slots, busy, d, dayStart, Horizon(busy, dayEnd))
  {
    ghost var horizon := Horizon(busy, dayEnd);
    var ordered := SortByStart(busy);
    SameMembersFitAlike(busy, ordered, d, dayEnd);
    slots := [];
    var cursor := dayStart;
    ContinuesFromStart(ordered, d, dayStart, horizon);
    var i := 0;
    while i < |ordered|
      invariant 0 <= i <= |ordered|
      invariant Sweeping(slots, cursor, i, ordered, d, dayStart, horizon)
    {
      var b := ordered[i];
      assert b in ordered;
      while cursor + d <= b.start
        invariant Sweeping(slots, cursor, i, ordered, d, dayStart, horizon)
        decreases b.start - cursor
      {
        PackKeepsSweeping(slots, cursor, i, ordered, d, dayStart, horizon);
        slots := slots + [Interval(cursor, cursor + d)];
        cursor := cursor + d;
      }
      SkipKeepsSweeping(slots, cursor, i, ordered, d, dayStart, horizon);
      if cursor < b.end {
        cursor := b.end;
      }
      i := i + 1;
    }
    while cursor + d <= dayEnd
      invariant Sweeping(slots, cursor, |ordered|, ordered, d, dayStart, horizon)
      decreases dayEnd - cursor
    {
      PackKeepsSweeping(slots, cursor, |ordered|, ordered, d, dayStart, horizon);
      slots := slots + [Interval(cursor, cursor + d)];
      cursor := cursor + d;
    }
    CompleteAfterDay(slots, ordered, cursor, d, dayStart, dayEnd, horizon);
    EarliestFitTransfers(slots, busy, ordered, d, dayStart, horizon);
  }
}
