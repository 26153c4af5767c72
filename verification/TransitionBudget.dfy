/** When the 2048-round cap of the transition search can and cannot hide a change. */
module TransitionBudget {
  import opened Prelude
  import opened Schedules
  import opened Counting
  import opened PolicyEngine

  /** Sixteen flips per window: two boundary minutes a day for eight days. */
  function Budget(rules: seq<Rule>): nat {
    if rules == [] then 0
    else Budget(rules[..|rules| - 1]) + RuleBudget(rules[|rules| - 1])
  }

  function RuleBudget(r: Rule): nat {
    if r.enabled && r.timetable.Some? then 16 * |r.timetable.value.windows| else 0
  }

  ghost predicate FixedZones(rules: seq<Rule>) {
    forall i :: 0 <= i < |rules| && rules[i].enabled && rules[i].timetable.Some?
      ==> exists offset :: IsFixed(rules[i].timetable.value.zone, offset)
  }

  /** A given minute of the day comes up at most eight times in eight days. */
  lemma MinuteComesUpEightTimes(offset: int, b: int, lo: int)
    requires 0 <= b < 1440
    ensures |TimesOf(offset, b, lo)| <= 8
  {
    var f := lo + 1 + (b - lo - 1 - offset) % 1440;
    var times := {f, f + 1440, f + 2880, f + 4320, f + 5760, f + 7200, f + 8640, f + 10080};
    var hits := TimesOf(offset, b, lo);
    forall u | u in hits ensures u in times {
      assert (u - f) % 1440 == 0;
    }
    SubsetSize(hits, times);
  }

  ghost predicate NearBoundary(windows: seq<Window>, offset: int, u: int) {
    exists i :: 0 <= i < |windows| && (u + offset) % 1440 in Boundaries(windows[i])
  }

  lemma LastWindowOrEarlier(windows: seq<Window>, offset: int, u: int)
    requires windows != [] && NearBoundary(windows, offset, u)
    ensures NearBoundary(windows[..|windows| - 1], offset, u)
            || (u + offset) % 1440 in Boundaries(windows[|windows| - 1])
  {
  }

  /** The minutes of eight days, from lo on, at which some window's boundary comes up. */
  ghost function NearMinutes(windows: seq<Window>, offset: int, lo: int): set<int> {
    Marked(u => NearBoundary(windows, offset, u), lo, lo + HORIZON)
  }

  ghost function TimesOf(offset: int, b: int, lo: int): set<int> {
    Marked(u => (u + offset) % 1440 == b, lo, lo + HORIZON)
  }

  lemma LastWindowAddsTwoTimes(windows: seq<Window>, offset: int, lo: int)
    requires windows != []
    ensures var b := Boundaries(windows[|windows| - 1]);
            NearMinutes(windows, offset, lo)
            <= NearMinutes(windows[..|windows| - 1], offset, lo) + TimesOf(offset, b[0], lo) + TimesOf(offset, b[|b| - 1], lo)
  {
    hide NearBoundary;
    var b := Boundaries(windows[|windows| - 1]);
    forall u | u in NearMinutes(windows, offset, lo)
      ensures u in NearMinutes(windows[..|windows| - 1], offset, lo) + TimesOf(offset, b[0], lo) + TimesOf(offset, b[|b| - 1], lo)
    {
      LastWindowOrEarlier(windows, offset, u);
      assert (u + offset) % 1440 in b ==> (u + offset) % 1440 == b[0] || (u + offset) % 1440 == b[|b| - 1];
    }
  }

  lemma OneMoreWindow(windows: seq<Window>, offset: int, lo: int)
    requires windows != []
    ensures |NearMinutes(windows, offset, lo)| <= |NearMinutes(windows[..|windows| - 1], offset, lo)| + 16
  {
    var b := Boundaries(windows[|windows| - 1]);
    var p, q := b[0], b[|b| - 1];
    hide NearMinutes, TimesOf, Boundaries;
    var early, atP, atQ := NearMinutes(windows[..|windows| - 1], offset, lo), TimesOf(offset, p, lo), TimesOf(offset, q, lo);
    MinuteComesUpEightTimes(offset, p, lo);
    MinuteComesUpEightTimes(offset, q, lo);
    LastWindowAddsTwoTimes(windows, offset, lo);
    SubsetSize(NearMinutes(windows, offset, lo), early + atP + atQ);
    UnionSize(early + atP, atQ);
    UnionSize(early, atP);
  }

  lemma {:induction false} BoundariesComeUp(windows: seq<Window>, offset: int, lo: int)
    ensures |NearMinutes(windows, offset, lo)| <= 16 * |windows|
  {
    if windows == [] {
      assert NearMinutes(windows, offset, lo) == {};
    } else {
      hide NearMinutes;
      BoundariesComeUp(windows[..|windows| - 1], offset, lo);
      OneMoreWindow(windows, offset, lo);
    }
  }

  lemma RuleFlipsWithinBudget(r: Rule, lo: int)
    requires FixedZones([r])
    ensures |Marked(u => RuleFlips(r, u), lo, lo + HORIZON)| <= RuleBudget(r)
  {
    var mine := Marked(u => RuleFlips(r, u), lo, lo + HORIZON);
    if r.enabled && r.timetable.Some? {
      var t := r.timetable.value;
      assert [r][0] == r;
      var offset :| IsFixed(t.zone, offset);
      var near := NearMinutes(t.windows, offset, lo);
      forall u | u in mine ensures u in near {
        var i := FlipIsAtBoundary(t, offset, u);
      }
      SubsetSize(mine, near);
      BoundariesComeUp(t.windows, offset, lo);
    } else {
      assert mine == {};
    }
  }

  /** Fixed offsets, equal or not: eight days hold at most Budget(rules) flip minutes. */
  lemma {:induction false} FlipsWithinBudget(rules: seq<Rule>, when: int)
    requires FixedZones(rules)
    ensures |FlipMinutes(rules, when, when + HORIZON)| <= Budget(rules)
  {
    var all := FlipMinutes(rules, when, when + HORIZON);
    if rules == [] {
      assert all == {};
    } else {
      var n := |rules| - 1;
      var init, r := rules[..n], rules[n];
      assert FixedZones([r]);
      FlipsWithinBudget(init, when);
      RuleFlipsWithinBudget(r, when);
      var early := FlipMinutes(init, when, when + HORIZON);
      var own := Marked(u => RuleFlips(r, u), when, when + HORIZON);
      forall u | u in all ensures u in early + own {
        assert rules[..n + 1] == rules;
        FlipsExtend(rules, n, u);
      }
      SubsetSize(all, early + own);
      UnionSize(early, own);
    }
  }

  /** With at most 128 windows in all, no transition is ever hidden by the cap. */
  lemma CapHidesNothing(profiles: seq<Profile>, rules: seq<Rule>, when: int, c: int)
    requires FixedZones(rules) && Budget(rules) <= ROUNDS
    requires FirstChange(profiles, rules, when, c)
    ensures |FlipMinutes(rules, when, c)| <= ROUNDS
  {
    FlipsWithinBudget(rules, when);
    SubsetSize(FlipMinutes(rules, when, c), FlipMinutes(rules, when, when + HORIZON));
  }

  function EnabledCount(rules: seq<Rule>): nat {
    if rules == [] then 0
    else EnabledCount(rules[..|rules| - 1]) + (if rules[|rules| - 1].enabled then 1 else 0)
  }

  lemma {:induction false} SixteenWindowsEach(rules: seq<Rule>)
    requires forall i :: 0 <= i < |rules| && rules[i].timetable.Some? ==> |rules[i].timetable.value.windows| <= 16
    ensures Budget(rules) <= 256 * EnabledCount(rules)
  {
    if rules != [] {
      SixteenWindowsEach(rules[..|rules| - 1]);
    }
  }

  /** Stored schedules hold at most sixteen windows, so eight enabled rules stay within the cap. */
  lemma EightRulesHideNothing(profiles: seq<Profile>, rules: seq<Rule>, when: int, c: int)
    requires forall i :: 0 <= i < |rules| && rules[i].timetable.Some? ==> |rules[i].timetable.value.windows| <= 16
    requires FixedZones(rules) && EnabledCount(rules) <= 8
    requires FirstChange(profiles, rules, when, c)
    ensures |FlipMinutes(rules, when, c)| <= ROUNDS
  {
    SixteenWindowsEach(rules);
    CapHidesNothing(profiles, rules, when, c);
  }

  // ------------------------------------------------ a transition too far

  /** Twelve allow rules that switch at every minute from 00:01 to 06:23 between them. */
  function Flicker(k: nat): Rule
    requires k < 12
  {
    Rule(RuleKey(false, k), Allow, 0, true,
         Some(Timetable(seq(16, j requires 0 <= j < 16 => Window(32 * k + 2 * j, 32 * k + 2 * j + 1)),
                        EveryDay, FixedZone(0))))
  }

  /** A whole-day block on every weekday but Wednesday. */
  function MostDays(): Rule {
    Rule(RuleKey(false, 12), Block, 0, true,
         Some(Timetable([Window(0, 0)], Chosen({0, 1, 3, 4, 5, 6}), FixedZone(0))))
  }

  function Restless(): seq<Rule> {
    seq(12, k requires 0 <= k < 12 => Flicker(k)) + [MostDays()]
  }

  lemma FlickerActive(k: nat, u: int)
    requires k < 12
    ensures ActiveAt(Flicker(k).timetable.value, u)
       <==> 32 * k <= u % 1440 < 32 * k + 32 && u % 1440 % 2 == 0
  {
    var t := Flicker(k).timetable.value;
    var m := u % 1440;
    assert t.zone(u) == LocalAt(u);
    forall j | 0 <= j < 16 ensures Covers(t.windows[j], t.days, t.zone(u)) <==> m == 32 * k + 2 * j {
      assert t.windows[j] == Window(32 * k + 2 * j, 32 * k + 2 * j + 1);
    }
    if 32 * k <= m < 32 * k + 32 && m % 2 == 0 {
      var j := (m - 32 * k) / 2;
      assert Covers(t.windows[j], t.days, t.zone(u));
    }
  }

  lemma FlickerFlips(u: int)
    requires 1 <= u % 1440 <= 383
    ensures SomeRuleFlips(Restless(), u)
  {
    var m := u % 1440;
    var k := m / 32;
    assert (u - 1) % 1440 == m - 1;
    FlickerActive(k, u);
    FlickerActive(k, u - 1);
    assert Restless()[k] == Flicker(k);
    assert RuleFlips(Restless()[k], u);
  }

  lemma FlickersInADay(day: int)
    ensures forall u :: 1440 * day < u <= 1440 * day + 383 ==> FlipTest(Restless())(u)
  {
    hide Restless, RuleFlips, SomeRuleFlips;
    forall u | 1440 * day < u <= 1440 * day + 383 ensures FlipTest(Restless())(u) {
      FlickerFlips(u);
    }
  }

  lemma {:induction false} FlickersPerDays(days: nat)
    ensures |FlipMinutes(Restless(), 0, 1440 * days)| >= 383 * days
  {
    hide Restless, FlipTest, Marked;
    var test := FlipTest(Restless());
    if days > 0 {
      var lo := 1440 * (days - 1);
      FlickersPerDays(days - 1);
      FlickersInADay(days - 1);
      MarkedAll(test, lo, 383);
      MarkedSplits(test, 0, lo, lo + 1440);
      MarkedSplits(test, lo, lo + 383, lo + 1440);
    }
  }

  lemma BlockedUntilWednesday(u: int)
    requires 0 <= u < 6 * 1440
    ensures !Allowed([], Restless(), u)
  {
    var t := MostDays().timetable.value;
    assert t.zone(u) == LocalAt(u);
    assert Covers(t.windows[0], t.days, t.zone(u));
    assert Restless()[12] == MostDays();
  }

  lemma AllowedOnWednesday()
    ensures Allowed([], Restless(), 6 * 1440)
  {
    var t := MostDays().timetable.value;
    assert t.zone(6 * 1440) == LocalAt(6 * 1440);
    assert !Covers(t.windows[0], t.days, t.zone(6 * 1440));
    forall i | 0 <= i < |Restless()| && Restless()[i].action == Block ensures Restless()[i] == MostDays() {
      assert i < 12 ==> Restless()[i] == Flicker(i);
    }
  }

  /**
    Thirteen enabled rules can defeat the cap: access opens after six days, and the search, which has
    seen more than 2048 flips by then, does not report it.
  */
  lemma CapCanHideTransition()
    ensures FirstChange([], Restless(), 0, 6 * 1440)
    ensures |FlipMinutes(Restless(), 0, 6 * 1440)| > ROUNDS
  {
    FlickersPerDays(6);
    AllowedOnWednesday();
    forall u | 0 <= u < 6 * 1440 ensures !Allowed([], Restless(), u) {
      BlockedUntilWednesday(u);
    }
  }
}
