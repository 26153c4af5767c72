/**
  Weekly schedules evaluated minute by minute (manager/schedules.py).

  An instant is an integer number of UTC minutes since 1970-01-01T00:00Z. A time zone is any
  function from instants to local weekday and minute of day, so a skipped or repeated wall time
  is just a function that jumps or repeats.
*/
module Schedules {
  import opened Prelude
  import Bits

  const DAY := 1440
  const WEEK := 7 * DAY
  const HORIZON := 8 * DAY

  type Weekday = d: int | 0 <= d < 7
  type MinuteOfDay = m: int | 0 <= m < 1440

  datatype Local = Local(day: Weekday, minute: MinuteOfDay)
  type Zone = int -> Local

  datatype Window = Window(start: MinuteOfDay, end: MinuteOfDay)

  /** The stored weekday text: EveryDay is the exact text "0,1,2,3,4,5,6", Chosen any other spelling. */
  datatype Days = EveryDay | Chosen(picked: set<Weekday>)
  {
    predicate Has(d: Weekday) {
      EveryDay? || d in picked
    }
  }

  datatype Timetable = Timetable(windows: seq<Window>, days: Days, zone: Zone)

  // ---------------------------------------------------------------- active

  /** Does window w cover local time l? The three branches of the loop body of `active`. */
  predicate Covers(w: Window, days: Days, l: Local) {
    if w.start == w.end then days.Has(l.day)
    else if w.start < w.end then days.Has(l.day) && w.start <= l.minute < w.end
    else (l.minute >= w.start && days.Has(l.day)) || (l.minute < w.end && days.Has((l.day - 1) % 7))
  }

  predicate ActiveAt(t: Timetable, u: int) {
    exists i :: 0 <= i < |t.windows| && Covers(t.windows[i], t.days, t.zone(u))
  }

  method Active(t: Timetable, u: int) returns (b: bool)
    ensures b <==> ActiveAt(t, u)
  {
    var local := t.zone(u);
    for i := 0 to |t.windows|
      invariant forall j :: 0 <= j < i ==> !Covers(t.windows[j], t.days, local)
    {
      var w := t.windows[i];
      if w.start == w.end && t.days.Has(local.day) {
        return true;
      }
      if w.start < w.end && t.days.Has(local.day) && w.start <= local.minute < w.end {
        return true;
      }
      if w.start > w.end
         && ((local.minute >= w.start && t.days.Has(local.day))
             || (local.minute < w.end && t.days.Has((local.day - 1) % 7))) {
        return true;
      }
    }
    return false;
  }

  // ----------------------------------------------------------- next_change

  /** `active` keeps the value it has at `from` through every minute up to `to`. */
  ghost predicate ConstantOn(t: Timetable, from: int, to: int) {
    forall u :: from <= u <= to ==> ActiveAt(t, u) == ActiveAt(t, from)
  }

  /** c is the least minute after `from` at which `active` differs from its value at `from`. */
  ghost predicate IsNextFlip(t: Timetable, from: int, c: int) {
    from < c && ActiveAt(t, c) != ActiveAt(t, from) && ConstantOn(t, from, c - 1)
  }

  /** What a search over the eight days after `from` must answer, in any time zone. */
  ghost predicate NextChangeSpec(t: Timetable, from: int, r: Option<int>) {
    match r
    case None => ConstantOn(t, from, from + HORIZON)
    case Some(c) => c <= from + HORIZON && IsNextFlip(t, from, c)
  }

  method SearchNextChange(t: Timetable, minute: int) returns (r: Option<int>)
    ensures NextChangeSpec(t, minute, r)
    ensures r.None? <==> forall u :: minute < u <= minute + 8 * 24 * 60 ==> ActiveAt(t, u) == ActiveAt(t, minute)
  {
    var before := Active(t, minute);
    if t.days.EveryDay? && exists i :: 0 <= i < |t.windows| && t.windows[i].start == t.windows[i].end {
      AlwaysActive(t);
      return None;
    }
    for offset := 1 to HORIZON + 1
      invariant ConstantOn(t, minute, minute + offset - 1)
    {
      var candidate := minute + offset;
      var now := Active(t, candidate);
      if now != before {
        return Some(candidate);
      }
    }
    return None;
  }

  /** The all-days shortcut is sound in every time zone. */
  lemma AlwaysActive(t: Timetable)
    requires t.days.EveryDay?
    requires exists i :: 0 <= i < |t.windows| && t.windows[i].start == t.windows[i].end
    ensures forall u :: ActiveAt(t, u)
  {
  }

  /** The answer is determined: no two different results satisfy the specification. */
  lemma NextChangeIsUnique(t: Timetable, from: int, r: Option<int>, s: Option<int>)
    requires NextChangeSpec(t, from, r) && NextChangeSpec(t, from, s)
    ensures r == s
  {
  }

  lemma NextFlipIsUnique(t: Timetable, from: int, a: int, b: int)
    requires IsNextFlip(t, from, a) && IsNextFlip(t, from, b)
    ensures a == b
  {
  }

  // ------------------------------------------------ fixed-offset time zones

  /** Local weekday and minute of the x-th minute of local time; 1970-01-01 was a Thursday. */
  function LocalAt(x: int): Local {
    Local((x / 1440 + 3) % 7, x % 1440)
  }

  function FixedZone(offset: int): Zone {
    (u: int) => LocalAt(u + offset)
  }

  ghost predicate IsFixed(z: Zone, offset: int) {
    forall u: int :: z(u) == LocalAt(u + offset)
  }

  /** Weekday 0 is Monday: Monday 2024-01-01 is 19723 days after the epoch, and weekdays follow each other. */
  lemma Calendar(x: int, m: MinuteOfDay)
    ensures LocalAt(19723 * 1440 + m) == Local(0, m)
    ensures LocalAt(x + 1440) == Local((LocalAt(x).day + 1) % 7, LocalAt(x).minute)
  {
    assert (x + 1440) / 1440 == x / 1440 + 1;
  }

  lemma LocalRepeatsWeekly(x: int, weeks: int)
    ensures LocalAt(x + WEEK * weeks) == LocalAt(x)
  {
    assert x + WEEK * weeks == x + 1440 * (7 * weeks);
    assert (x + 1440 * (7 * weeks)) / 1440 == x / 1440 + 7 * weeks;
  }

  /** The minute of the week starting at `anchor` that looks like u. */
  function Wrap(anchor: int, u: int): (v: int)
    ensures anchor <= v < anchor + WEEK
    ensures exists k: int {:trigger WEEK * k} :: u == v + WEEK * k
  {
    var v := anchor + (u - anchor) % WEEK;
    assert u == v + WEEK * ((u - anchor) / WEEK);
    v
  }

  lemma ActiveWraps(t: Timetable, offset: int, anchor: int, u: int)
    requires IsFixed(t.zone, offset)
    ensures ActiveAt(t, u) == ActiveAt(t, Wrap(anchor, u))
  {
    var v := Wrap(anchor, u);
    var k: int :| u == v + WEEK * k;
    LocalRepeatsWeekly(v + offset, k);
    assert u + offset == (v + offset) + WEEK * k;
    assert t.zone(u) == t.zone(v);
  }

  /**
    With a fixed offset the eight-day search decides a question about all of time: it answers None
    exactly when the schedule never changes, and otherwise the least later change there is.
  */
  lemma FixedOffsetNextChange(t: Timetable, offset: int, from: int, r: Option<int>)
    requires IsFixed(t.zone, offset)
    requires NextChangeSpec(t, from, r)
    ensures r.None? <==> forall u, v :: ActiveAt(t, u) == ActiveAt(t, v)
    ensures r.Some? <==> exists c :: IsNextFlip(t, from, c)
    ensures forall c :: IsNextFlip(t, from, c) ==> r == Some(c)
  {
    if r.None? {
      forall u ensures ActiveAt(t, u) == ActiveAt(t, from) {
        ActiveWraps(t, offset, from, u);
      }
    } else {
      assert ActiveAt(t, r.value) != ActiveAt(t, from);
    }
    forall c | IsNextFlip(t, from, c) ensures r == Some(c) {
      if r.Some? { NextFlipIsUnique(t, from, r.value, c); }
    }
  }

  // ------------------------------------------------------------ occurrences

  /** The occurrence of w that belongs to the local day numbered d covers local minute x. */
  predicate OccurrenceCovers(w: Window, d: int, x: int) {
    var first := d * 1440 + (if w.start == w.end then 0 else w.start);
    var last := d * 1440 + (if w.start == w.end then 1440 else if w.start < w.end then w.end else w.end + 1440);
    first <= x < last
  }

  function WeekdayOf(d: int): Weekday {
    (d + 3) % 7
  }

  /** Some occurrence of w that starts on a selected weekday, perhaps yesterday, covers x. */
  ghost predicate InOccurrence(w: Window, days: Days, x: int) {
    exists d: int :: days.Has(WeekdayOf(d)) && OccurrenceCovers(w, d, x)
  }

  lemma CoversIffOccurrence(w: Window, days: Days, x: int)
    ensures Covers(w, days, LocalAt(x)) <==> InOccurrence(w, days, x)
  {
    var today := x / 1440;
    assert x == today * 1440 + x % 1440;
    assert LocalAt(x).day == WeekdayOf(today);
    assert (LocalAt(x).day - 1) % 7 == WeekdayOf(today - 1);
    forall d: int | OccurrenceCovers(w, d, x) ensures d == today || d == today - 1 {
    }
    if Covers(w, days, LocalAt(x)) {
      if OccurrenceCovers(w, today, x) && days.Has(WeekdayOf(today)) {
      } else {
        assert OccurrenceCovers(w, today - 1, x) && days.Has(WeekdayOf(today - 1));
      }
    }
  }

  /** `active` is membership in occurrences that start on a selected weekday and may run past midnight. */
  lemma ActiveIffOccurrence(t: Timetable, offset: int, u: int)
    requires IsFixed(t.zone, offset)
    ensures ActiveAt(t, u)
       <==> exists i :: 0 <= i < |t.windows| && InOccurrence(t.windows[i], t.days, u + offset)
  {
    forall i | 0 <= i < |t.windows|
      ensures Covers(t.windows[i], t.days, t.zone(u)) <==> InOccurrence(t.windows[i], t.days, u + offset)
    {
      CoversIffOccurrence(t.windows[i], t.days, u + offset);
    }
  }

  // ------------------------------------------------------- overlap by masks

  method WeekMask(t: Timetable, anchor: int) returns (mask: nat)
    ensures forall k: nat :: Bits.Bit(mask, k) <==> k < HORIZON && ActiveAt(t, anchor + k)
  {
    mask := 0;
    forall k: nat ensures !Bits.Bit(0, k) { Bits.ZeroHasNoBits(k); }
    for minute := 0 to HORIZON
      invariant forall k: nat :: Bits.Bit(mask, k) <==> k < minute && ActiveAt(t, anchor + k)
    {
      var now := Active(t, anchor + minute);
      if now {
        ghost var was := mask;
        mask := Bits.Or(mask, Bits.Pow2(minute));
        forall k: nat ensures Bits.Bit(mask, k) <==> Bits.Bit(was, k) || k == minute {
          Bits.OrBit(was, Bits.Pow2(minute), k);
          Bits.PowerBit(minute, k);
        }
      }
    }
  }

  ghost predicate MeetWithin(left: Timetable, right: Timetable, anchor: int) {
    exists u :: anchor <= u < anchor + HORIZON && ActiveAt(left, u) && ActiveAt(right, u)
  }

  method OverlapMasks(left: Timetable, right: Timetable, anchor: int) returns (b: bool)
    ensures b <==> MeetWithin(left, right, anchor)
  {
    var l := WeekMask(left, anchor);
    var r := WeekMask(right, anchor);
    b := Bits.And(l, r) != 0;
    SharedBitIffMeet(left, right, anchor, l, r);
  }

  lemma SharedBitIffMeet(left: Timetable, right: Timetable, anchor: int, l: nat, r: nat)
    requires forall k: nat :: Bits.Bit(l, k) <==> k < HORIZON && ActiveAt(left, anchor + k)
    requires forall k: nat :: Bits.Bit(r, k) <==> k < HORIZON && ActiveAt(right, anchor + k)
    ensures Bits.And(l, r) != 0 <==> MeetWithin(left, right, anchor)
  {
    if Bits.And(l, r) != 0 {
      var k := Bits.NonzeroHasBit(Bits.And(l, r));
      Bits.AndBit(l, r, k);
      var u := anchor + k;
      assert ActiveAt(left, u) && ActiveAt(right, u);
    }
    if u :| anchor <= u < anchor + HORIZON && ActiveAt(left, u) && ActiveAt(right, u) {
      var k: nat := u - anchor;
      assert anchor + k == u;
      Bits.SharedBitMakesAndNonzero(l, r, k);
    }
  }

  /** For fixed offsets, equal or not, and any anchor, the masks meet iff the schedules ever do. */
  lemma FixedOffsetOverlap(left: Timetable, right: Timetable, a: int, b: int, anchor: int)
    requires IsFixed(left.zone, a) && IsFixed(right.zone, b)
    ensures MeetWithin(left, right, anchor) <==> exists u :: ActiveAt(left, u) && ActiveAt(right, u)
  {
    if u :| ActiveAt(left, u) && ActiveAt(right, u) {
      ActiveWraps(left, a, anchor, u);
      ActiveWraps(right, b, anchor, u);
    }
  }

  // ------------------------------------------------------------ rule flips

  /** Minutes of the day at which a window can switch on or off; midnight for a whole-day window. */
  function Boundaries(w: Window): seq<MinuteOfDay> {
    if w.start == w.end then [0] else [w.start, w.end]
  }

  /** `active` changes between u - 1 and u. */
  predicate FlipsAt(t: Timetable, u: int) {
    ActiveAt(t, u) != ActiveAt(t, u - 1)
  }

  lemma CoverChangesAtBoundary(w: Window, days: Days, x: int)
    requires Covers(w, days, LocalAt(x)) != Covers(w, days, LocalAt(x - 1))
    ensures x % 1440 in Boundaries(w)
  {
    if x % 1440 == 0 {
      assert (x - 1) / 1440 == x / 1440 - 1 && (x - 1) % 1440 == 1439;
    } else {
      assert (x - 1) / 1440 == x / 1440 && (x - 1) % 1440 == x % 1440 - 1;
    }
    assert Boundaries(w) == [w.start, w.end] ==> Boundaries(w)[0] == w.start && Boundaries(w)[1] == w.end;
    assert Boundaries(w) == [0] ==> Boundaries(w)[0] == 0;
  }

  lemma FlipIsAtBoundary(t: Timetable, offset: int, u: int) returns (i: nat)
    requires IsFixed(t.zone, offset) && FlipsAt(t, u)
    ensures i < |t.windows| && (u + offset) % 1440 in Boundaries(t.windows[i])
  {
    assert t.zone(u) == LocalAt(u + offset) && t.zone(u - 1) == LocalAt(u + offset - 1);
    i :| 0 <= i < |t.windows|
      && Covers(t.windows[i], t.days, t.zone(u)) != Covers(t.windows[i], t.days, t.zone(u - 1));
    CoverChangesAtBoundary(t.windows[i], t.days, u + offset);
  }

  // ----------------------------------------- when eight days are enough

  /** No schedule that is constant through the horizon ever changes after it. */
  ghost predicate SearchIsFinal(z: Zone, from: int) {
    forall t: Timetable :: t.zone == z && ConstantOn(t, from, from + HORIZON) ==>
      forall u :: from <= u ==> ActiveAt(t, u) == ActiveAt(t, from)
  }

  /** Every local time the zone shows after the horizon it also shows within it. */
  ghost predicate HorizonShowsAll(z: Zone, from: int) {
    forall u :: from + HORIZON < u ==> exists v :: from <= v <= from + HORIZON && z(v) == z(u)
  }

  /** The window that covers one minute of one weekday. */
  function OneMinute(l: Local, z: Zone): Timetable {
    Timetable([Window(l.minute, (l.minute + 1) % 1440)], Chosen({l.day}), z)
  }

  lemma OneMinuteCoversIt(l: Local, z: Zone, u: int)
    ensures ActiveAt(OneMinute(l, z), u) <==> z(u) == l
  {
    var t := OneMinute(l, z);
    assert ActiveAt(t, u) <==> Covers(t.windows[0], t.days, z(u));
  }

  /**
    The eight days from `from` decide everything after them, for every schedule, exactly when the zone
    shows no local time later that it did not show in them.
  */
  lemma SearchIsFinalIff(z: Zone, from: int)
    ensures SearchIsFinal(z, from) <==> HorizonShowsAll(z, from)
  {
    if HorizonShowsAll(z, from) {
      forall t: Timetable, u | t.zone == z && ConstantOn(t, from, from + HORIZON) && from <= u
        ensures ActiveAt(t, u) == ActiveAt(t, from)
      {
        if u > from + HORIZON {
          var v :| from <= v <= from + HORIZON && z(v) == z(u);
          assert ActiveAt(t, v) == ActiveAt(t, from);
        }
      }
    }
    if SearchIsFinal(z, from) {
      forall u | from + HORIZON < u ensures exists v :: from <= v <= from + HORIZON && z(v) == z(u) {
        var t := OneMinute(z(u), z);
        forall v ensures ActiveAt(t, v) <==> z(v) == z(u) { OneMinuteCoversIt(z(u), z, v); }
        if forall v :: from <= v <= from + HORIZON ==> z(v) != z(u) {
          assert ConstantOn(t, from, from + HORIZON);
          assert ActiveAt(t, u) == ActiveAt(t, from);
        }
      }
    }
  }

  /**
    Clocks an hour ahead from Sunday 02:00 on: the wall times 02:00 to 02:59 of that Sunday are
    skipped. Minute 0 is a Thursday, so local Sunday 02:00 is minute 3 * 1440 + 120.
  */
  function SpringForward(): Zone {
    (u: int) => if u < 3 * 1440 + 120 then LocalAt(u) else LocalAt(u + 60)
  }

  /**
    With a gap in local time the horizon is too short: a window that is open on Sundays from 02:15
    to 02:45 misses the skipped Sunday, so the search says None although the schedule opens a week
    later.
  */
  lemma SkippedWallTimeHidesChange(r: Option<int>)
    requires NextChangeSpec(Timetable([Window(135, 165)], Chosen({6}), SpringForward()), 0, r)
    ensures r == None
    ensures ActiveAt(Timetable([Window(135, 165)], Chosen({6}), SpringForward()), 10 * 1440 + 135 - 60)
    ensures !SearchIsFinal(SpringForward(), 0)
  {
    var t := Timetable([Window(135, 165)], Chosen({6}), SpringForward());
    forall u | 0 <= u <= HORIZON ensures !ActiveAt(t, u) {
      assert t.zone(u) == if u < 3 * 1440 + 120 then LocalAt(u) else LocalAt(u + 60);
      assert !Covers(t.windows[0], t.days, t.zone(u));
    }
    var u := 10 * 1440 + 135 - 60;
    assert t.zone(u) == LocalAt(u + 60) == Local(6, 135);
    assert Covers(t.windows[0], t.days, t.zone(u));
    assert t.zone == SpringForward() && ConstantOn(t, 0, 0 + HORIZON) && ActiveAt(t, u) != ActiveAt(t, 0);
  }
}
