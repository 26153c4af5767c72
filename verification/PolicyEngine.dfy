/** Effective policy and its next transition (manager/policy_engine.py). */
module PolicyEngine {
  import opened Prelude
  import opened Schedules
  import opened Ordering
  import opened Counting

  /** Rounds the transition search may use. */
  const ROUNDS := 2048

  datatype Action = Block | Allow | OtherAction
  datatype Mode = Blocked | Controlled | Unrestricted
  datatype RuleKey = RuleKey(group: bool, id: nat)

  /** A stored rule; timetable is None when its text, weekdays or zone name do not validate. */
  datatype Rule = Rule(key: RuleKey, action: Action, priority: int, enabled: bool, timetable: Option<Timetable>)

  datatype Profile = Profile(name: string, mode: Mode)

  datatype Reason =
    | ProfileBlocks(name: string)
    | RuleBlocks(key: RuleKey)
    | ControlledAllows(name: string, key: RuleKey)
    | ControlledDenies(name: string)
    | RuleAllows(key: RuleKey)
    | DefaultAllows

  datatype Conflict =
    | BlockOverAllow(block: RuleKey, allow: RuleKey)
    | NeedsReview(keys: seq<RuleKey>)

  datatype Decision = Decision(allowed: bool, reason: Reason, enabled: seq<Rule>,
                               conflicts: seq<Conflict>, invalid: seq<RuleKey>)

  // -------------------------------------------------------------- decision

  /** Sort key (-priority, is group rule, id). */
  predicate ComesBefore(a: Rule, b: Rule) {
    a.priority > b.priority
    || (a.priority == b.priority && !a.key.group && b.key.group)
    || (a.priority == b.priority && a.key.group == b.key.group && a.key.id < b.key.id)
  }

  predicate Runs(r: Rule, when: int) {
    r.enabled && r.timetable.Some? && ActiveAt(r.timetable.value, when)
  }

  predicate NeedsRepair(r: Rule) {
    r.enabled && r.timetable.None?
  }

  function Running(rules: seq<Rule>, when: int): seq<Rule> {
    if rules == [] then []
    else Running(rules[..|rules| - 1], when) + (if Runs(rules[|rules| - 1], when) then [rules[|rules| - 1]] else [])
  }

  function InvalidKeys(rules: seq<Rule>): seq<RuleKey> {
    if rules == [] then []
    else InvalidKeys(rules[..|rules| - 1]) + (if NeedsRepair(rules[|rules| - 1]) then [rules[|rules| - 1].key] else [])
  }

  function FirstProfile(profiles: seq<Profile>, mode: Mode): Option<Profile> {
    if profiles == [] then None
    else if profiles[0].mode == mode then Some(profiles[0])
    else FirstProfile(profiles[1..], mode)
  }

  function FirstRule(rules: seq<Rule>, action: Action): Option<Rule> {
    if rules == [] then None
    else if rules[0].action == action then Some(rules[0])
    else FirstRule(rules[1..], action)
  }

  function Conclude(profiles: seq<Profile>, enabled: seq<Rule>, invalid: seq<RuleKey>): Decision {
    var blocked := FirstProfile(profiles, Blocked);
    var controlled := FirstProfile(profiles, Controlled);
    var block := FirstRule(enabled, Block);
    var allow := FirstRule(enabled, Allow);
    var conflicts :=
      (if block.Some? && allow.Some? then [BlockOverAllow(block.value.key, allow.value.key)] else [])
      + (if invalid != [] then [NeedsReview(invalid)] else []);
    var reason :=
      if blocked.Some? then ProfileBlocks(blocked.value.name)
      else if block.Some? then RuleBlocks(block.value.key)
      else if controlled.Some? then
        if allow.Some? then ControlledAllows(controlled.value.name, allow.value.key)
        else ControlledDenies(controlled.value.name)
      else if allow.Some? then RuleAllows(allow.value.key)
      else DefaultAllows;
    var allowed :=
      if blocked.Some? || block.Some? then false
      else controlled.Some? ==> allow.Some?;
    Decision(allowed, reason, enabled, conflicts, invalid)
  }

  function Decide(profiles: seq<Profile>, rules: seq<Rule>, when: int): Decision {
    Conclude(profiles, Sort(ComesBefore, Running(rules, when)), InvalidKeys(rules))
  }

  method DecisionAt(profiles: seq<Profile>, rules: seq<Rule>, when: int) returns (d: Decision)
    ensures d == Decide(profiles, rules, when)
    ensures d.allowed <==> Allowed(profiles, rules, when)
  {
    var enabled: seq<Rule> := [];
    var invalid: seq<RuleKey> := [];
    for i := 0 to |rules|
      invariant enabled == Running(rules[..i], when)
      invariant invalid == InvalidKeys(rules[..i])
    {
      assert rules[..i + 1][..i] == rules[..i];
      var rule := rules[i];
      if !rule.enabled {
        continue;
      }
      match rule.timetable
      case Some(timetable) =>
        var now := Active(timetable, when);
        if now {
          enabled := enabled + [rule];
        }
      case None =>
        invalid := invalid + [rule.key];
    }
    assert rules[..|rules|] == rules;
    enabled := Sort(ComesBefore, enabled);
    d := Conclude(profiles, enabled, invalid);
    DecideMeansAllowed(profiles, rules, when);
  }

  // ------------------------------------------------- what a decision means

  predicate HasMode(profiles: seq<Profile>, mode: Mode) {
    exists i :: 0 <= i < |profiles| && profiles[i].mode == mode
  }

  predicate AnyRuns(rules: seq<Rule>, action: Action, when: int) {
    exists i :: 0 <= i < |rules| && Runs(rules[i], when) && rules[i].action == action
  }

  /** Nothing that blocks applies, and a controlled profile has an allow rule that runs. */
  predicate Allowed(profiles: seq<Profile>, rules: seq<Rule>, when: int) {
    !HasMode(profiles, Blocked)
    && !AnyRuns(rules, Block, when)
    && (HasMode(profiles, Controlled) ==> AnyRuns(rules, Allow, when))
  }

  lemma {:induction false} RunningMembers(rules: seq<Rule>, when: int)
    ensures forall r :: r in Running(rules, when) <==> r in rules && Runs(r, when)
  {
    if rules != [] {
      var init := rules[..|rules| - 1];
      assert rules == init + [rules[|rules| - 1]];
      RunningMembers(init, when);
    }
  }

  lemma {:induction false} FirstProfileFound(profiles: seq<Profile>, mode: Mode)
    ensures FirstProfile(profiles, mode).Some? <==> HasMode(profiles, mode)
  {
    if profiles != [] && profiles[0].mode != mode {
      FirstProfileFound(profiles[1..], mode);
      if HasMode(profiles, mode) {
        var i :| 0 <= i < |profiles| && profiles[i].mode == mode;
        assert profiles[1..][i - 1].mode == mode;
      }
    }
  }

  lemma {:induction false} FirstRuleFound(rules: seq<Rule>, action: Action)
    ensures FirstRule(rules, action).Some? <==> exists r :: r in rules && r.action == action
    ensures FirstRule(rules, action).Some?
      ==> FirstRule(rules, action).value in rules && FirstRule(rules, action).value.action == action
  {
    if rules != [] && rules[0].action != action {
      assert rules == [rules[0]] + rules[1..];
      FirstRuleFound(rules[1..], action);
    }
  }

  lemma FirstSortedRule(rules: seq<Rule>, action: Action, when: int)
    ensures FirstRule(Sort(ComesBefore, Running(rules, when)), action).Some? <==> AnyRuns(rules, action, when)
  {
    var running := Running(rules, when);
    SortKeeps(ComesBefore, running);
    RunningMembers(rules, when);
    FirstRuleFound(Sort(ComesBefore, running), action);
    if AnyRuns(rules, action, when) {
      var i :| 0 <= i < |rules| && Runs(rules[i], when) && rules[i].action == action;
      assert rules[i] in running;
    }
  }

  lemma DecideMeansAllowed(profiles: seq<Profile>, rules: seq<Rule>, when: int)
    ensures Decide(profiles, rules, when).allowed <==> Allowed(profiles, rules, when)
  {
    FirstProfileFound(profiles, Blocked);
    FirstProfileFound(profiles, Controlled);
    FirstSortedRule(rules, Block, when);
    FirstSortedRule(rules, Allow, when);
  }

  // --------------------------------------------------- order and priority

  ghost predicate DistinctKeys(rules: seq<Rule>) {
    forall i, j :: 0 <= i < j < |rules| ==> rules[i].key != rules[j].key
  }

  lemma ComesBeforeIsStrict()
    ensures StrictOrder(ComesBefore)
  {
  }

  lemma {:induction false} RunningComparable(rules: seq<Rule>, when: int)
    requires DistinctKeys(rules)
    ensures Comparable(ComesBefore, Running(rules, when))
  {
    if rules != [] {
      var init, last := rules[..|rules| - 1], rules[|rules| - 1];
      RunningComparable(init, when);
      RunningMembers(init, when);
      var kept := Running(init, when);
      forall i | 0 <= i < |kept| ensures kept[i].key != last.key {
        assert kept[i] in init;
      }
    }
  }

  lemma {:induction false} InvalidKeysMembers(rules: seq<Rule>)
    ensures forall k :: k in InvalidKeys(rules) <==> exists r :: r in rules && NeedsRepair(r) && r.key == k
  {
    if rules != [] {
      var init, last := rules[..|rules| - 1], rules[|rules| - 1];
      assert rules == init + [last];
      InvalidKeysMembers(init);
      forall k ensures k in InvalidKeys(rules) <==> exists r :: r in rules && NeedsRepair(r) && r.key == k {
        if r :| r in rules && NeedsRepair(r) && r.key == k {
          assert r in init || r == last;
        }
      }
    }
  }

  /**
    The decision does not depend on the order in which rules are read: verdict, reason, running
    rules and block-over-allow conflict are the same, and the same rules need review.
  */
  lemma DecisionForgetsRuleOrder(profiles: seq<Profile>, a: seq<Rule>, b: seq<Rule>, when: int)
    requires DistinctKeys(a) && DistinctKeys(b)
    requires forall r :: r in a <==> r in b
    ensures Decide(profiles, a, when).allowed == Decide(profiles, b, when).allowed
    ensures Decide(profiles, a, when).reason == Decide(profiles, b, when).reason
    ensures Decide(profiles, a, when).enabled == Decide(profiles, b, when).enabled
    ensures forall block, allow :: BlockOverAllow(block, allow) in Decide(profiles, a, when).conflicts
                                   <==> BlockOverAllow(block, allow) in Decide(profiles, b, when).conflicts
    ensures forall k :: k in Decide(profiles, a, when).invalid <==> k in Decide(profiles, b, when).invalid
  {
    ComesBeforeIsStrict();
    RunningComparable(a, when);
    RunningComparable(b, when);
    RunningMembers(a, when);
    RunningMembers(b, when);
    SortForgetsOrder(ComesBefore, Running(a, when), Running(b, when));
    InvalidKeysMembers(a);
    InvalidKeysMembers(b);
  }

  /** The higher priority wins; then a rule of the device over one of a group; then the older rule. */
  predicate Beats(r: Rule, s: Rule) {
    if r.priority != s.priority then r.priority > s.priority
    else if r.key.group != s.key.group then s.key.group
    else r.key.id < s.key.id
  }

  /** r is the running rule with this action that beats every other one. */
  ghost predicate IsWinner(rules: seq<Rule>, action: Action, when: int, r: Rule) {
    && r in rules && Runs(r, when) && r.action == action
    && forall s :: s in rules && Runs(s, when) && s.action == action && s != r ==> Beats(r, s)
  }

  lemma {:induction false} FirstOfIncreasing(s: seq<Rule>, action: Action)
    requires Increasing(ComesBefore, s) && FirstRule(s, action).Some?
    ensures forall x :: x in s && x.action == action && x != FirstRule(s, action).value
              ==> ComesBefore(FirstRule(s, action).value, x)
  {
    if s[0].action == action {
      forall x | x in s && x != s[0] ensures ComesBefore(s[0], x) {
        var i :| 0 <= i < |s| && s[i] == x;
        assert i > 0;
      }
    } else {
      FirstOfIncreasing(s[1..], action);
      assert s == [s[0]] + s[1..];
    }
  }

  /** Each action has one winner whenever it runs at all, and the decision names that rule. */
  lemma UniqueWinner(profiles: seq<Profile>, rules: seq<Rule>, action: Action, when: int)
    requires DistinctKeys(rules)
    ensures var first := FirstRule(Decide(profiles, rules, when).enabled, action);
      && (first.Some? <==> AnyRuns(rules, action, when))
      && (forall r :: IsWinner(rules, action, when, r) <==> first == Some(r))
  {
    ComesBeforeIsStrict();
    assert forall r, s :: Beats(r, s) <==> ComesBefore(r, s);
    var running := Running(rules, when);
    var sorted := Sort(ComesBefore, running);
    RunningComparable(rules, when);
    SortIncreasing(ComesBefore, running);
    SortKeeps(ComesBefore, running);
    RunningMembers(rules, when);
    FirstSortedRule(rules, action, when);
    FirstRuleFound(sorted, action);
    var first := FirstRule(sorted, action);
    if first.Some? {
      FirstOfIncreasing(sorted, action);
      assert IsWinner(rules, action, when, first.value);
    }
    forall r | IsWinner(rules, action, when, r) ensures first == Some(r) {
      assert r in sorted;
      assert ComesBefore(r, first.value) || first.value == r;
      assert ComesBefore(first.value, r) || first.value == r;
    }
  }

  /** The first profile with the mode has the name. */
  ghost predicate Names(profiles: seq<Profile>, mode: Mode, name: string) {
    exists i :: 0 <= i < |profiles| && profiles[i].mode == mode && profiles[i].name == name
                && forall j :: 0 <= j < i ==> profiles[j].mode != mode
  }

  lemma {:induction false} FirstProfileNames(profiles: seq<Profile>, mode: Mode)
    ensures FirstProfile(profiles, mode).Some? ==> Names(profiles, mode, FirstProfile(profiles, mode).value.name)
  {
    if profiles != [] && profiles[0].mode != mode && FirstProfile(profiles, mode).Some? {
      FirstProfileNames(profiles[1..], mode);
      var rest := profiles[1..];
      var i :| 0 <= i < |rest| && rest[i].mode == mode && rest[i].name == FirstProfile(rest, mode).value.name
               && forall j :: 0 <= j < i ==> rest[j].mode != mode;
      assert profiles[i + 1] == rest[i];
      forall j | 0 <= j < i + 1 ensures profiles[j].mode != mode {
        if j > 0 { assert rest[j - 1] == profiles[j]; }
      }
    }
  }

  /** The reason is what decided: the blocking profile, else the winning block rule, and so on down. */
  ghost predicate Explains(reason: Reason, profiles: seq<Profile>, rules: seq<Rule>, when: int) {
    if HasMode(profiles, Blocked) then reason.ProfileBlocks? && Names(profiles, Blocked, reason.name)
    else if AnyRuns(rules, Block, when) then
      reason.RuleBlocks? && exists r :: IsWinner(rules, Block, when, r) && reason.key == r.key
    else if HasMode(profiles, Controlled) && AnyRuns(rules, Allow, when) then
      reason.ControlledAllows? && Names(profiles, Controlled, reason.name)
      && exists r :: IsWinner(rules, Allow, when, r) && reason.key == r.key
    else if HasMode(profiles, Controlled) then reason.ControlledDenies? && Names(profiles, Controlled, reason.name)
    else if AnyRuns(rules, Allow, when) then
      reason.RuleAllows? && exists r :: IsWinner(rules, Allow, when, r) && reason.key == r.key
    else reason.DefaultAllows?
  }

  /** The decision states its true reason. */
  lemma ReasonIsTrue(profiles: seq<Profile>, rules: seq<Rule>, when: int)
    requires DistinctKeys(rules)
    ensures Explains(Decide(profiles, rules, when).reason, profiles, rules, when)
  {
    FirstProfileFound(profiles, Blocked);
    FirstProfileFound(profiles, Controlled);
    FirstProfileNames(profiles, Blocked);
    FirstProfileNames(profiles, Controlled);
    UniqueWinner(profiles, rules, Block, when);
    UniqueWinner(profiles, rules, Allow, when);
    hide IsWinner, Names, HasMode, AnyRuns, FirstRule, FirstProfile, Running, InvalidKeys;
  }

  /**
    The conflicts of a decision: the winning block rule over the winning allow rule when both actions
    run, and the rules that need review when there are any.
  */
  lemma ConflictsAreTrue(profiles: seq<Profile>, rules: seq<Rule>, when: int)
    requires DistinctKeys(rules)
    ensures var d := Decide(profiles, rules, when);
            && (forall block, allow :: BlockOverAllow(block, allow) in d.conflicts <==>
                  exists b, a :: IsWinner(rules, Block, when, b) && IsWinner(rules, Allow, when, a) && b.key == block && a.key == allow)
            && (forall keys :: NeedsReview(keys) in d.conflicts <==> keys == d.invalid && keys != [])
            && (forall k :: k in d.invalid <==> exists r :: r in rules && r.enabled && r.timetable.None? && r.key == k)
  {
    InvalidKeysMembers(rules);
    UniqueWinner(profiles, rules, Block, when);
    UniqueWinner(profiles, rules, Allow, when);
    hide IsWinner, AnyRuns, FirstRule, FirstProfile, Running, InvalidKeys;
  }

  /** Priorities choose the winner within an action; they never change allowed versus denied. */
  lemma PriorityNeverChangesVerdict(profiles: seq<Profile>, a: seq<Rule>, b: seq<Rule>, when: int)
    requires |a| == |b|
    requires forall i :: 0 <= i < |a| ==> b[i] == a[i].(priority := b[i].priority)
    ensures Decide(profiles, a, when).allowed == Decide(profiles, b, when).allowed
  {
    DecideMeansAllowed(profiles, a, when);
    DecideMeansAllowed(profiles, b, when);
    forall i | 0 <= i < |a| ensures Runs(a[i], when) == Runs(b[i], when) && a[i].action == b[i].action {
      assert b[i] == a[i].(priority := b[i].priority);
    }
    forall action ensures AnyRuns(a, action, when) == AnyRuns(b, action, when) {
      if AnyRuns(a, action, when) {
        var i :| 0 <= i < |a| && Runs(a[i], when) && a[i].action == action;
        assert Runs(b[i], when);
      }
      if AnyRuns(b, action, when) {
        var i :| 0 <= i < |b| && Runs(b[i], when) && b[i].action == action;
        assert Runs(a[i], when);
      }
    }
  }

  /** Adding a running block rule, anywhere and with any priority, denies. */
  lemma BlockAlwaysDenies(profiles: seq<Profile>, rules: seq<Rule>, at: nat, block: Rule, when: int)
    requires at <= |rules| && block.action == Block && Runs(block, when)
    ensures !Decide(profiles, rules[..at] + [block] + rules[at..], when).allowed
  {
    var more := rules[..at] + [block] + rules[at..];
    assert more[at] == block;
    DecideMeansAllowed(profiles, more, when);
  }

  // ------------------------------------------------------ transition search

  /** Some rule that takes part in decisions switches on or off at u. */
  predicate SomeRuleFlips(rules: seq<Rule>, u: int) {
    exists i :: 0 <= i < |rules| && RuleFlips(rules[i], u)
  }

  predicate RuleFlips(r: Rule, u: int) {
    r.enabled && r.timetable.Some? && FlipsAt(r.timetable.value, u)
  }

  ghost function FlipTest(rules: seq<Rule>): int -> bool {
    (u: int) => SomeRuleFlips(rules, u)
  }

  /** The minutes in (lo, hi] at which some rule flips. */
  ghost function FlipMinutes(rules: seq<Rule>, lo: int, hi: int): set<int> {
    Marked(FlipTest(rules), lo, hi)
  }

  ghost predicate NoFlips(rules: seq<Rule>, lo: int, hi: int) {
    forall u :: lo < u <= hi ==> !SomeRuleFlips(rules, u)
  }

  lemma {:induction false} NoFlipsKeepsRules(rules: seq<Rule>, lo: int, hi: int, i: nat)
    requires lo <= hi && NoFlips(rules, lo, hi) && i < |rules|
    ensures Runs(rules[i], hi) == Runs(rules[i], lo)
    decreases hi - lo
  {
    if lo < hi {
      assert !SomeRuleFlips(rules, hi);
      assert !RuleFlips(rules[i], hi);
      NoFlipsKeepsRules(rules, lo, hi - 1, i);
    }
  }

  lemma NoFlipsKeepsVerdict(profiles: seq<Profile>, rules: seq<Rule>, lo: int, hi: int)
    requires lo <= hi && NoFlips(rules, lo, hi)
    ensures Allowed(profiles, rules, hi) == Allowed(profiles, rules, lo)
  {
    forall i: nat | i < |rules| ensures Runs(rules[i], hi) == Runs(rules[i], lo) {
      NoFlipsKeepsRules(rules, lo, hi, i);
    }
    forall action ensures AnyRuns(rules, action, hi) == AnyRuns(rules, action, lo) {
      if AnyRuns(rules, action, hi) {
        var i: nat :| i < |rules| && Runs(rules[i], hi) && rules[i].action == action;
        assert Runs(rules[i], lo);
      }
      if AnyRuns(rules, action, lo) {
        var i: nat :| i < |rules| && Runs(rules[i], lo) && rules[i].action == action;
        assert Runs(rules[i], hi);
      }
    }
  }

  method RuleNextChange(rule: Rule, when: int) returns (r: Result<Option<int>, ()>)
    ensures !rule.enabled ==> r == Ok(None)
    ensures rule.enabled ==> (r.Err? <==> rule.timetable.None?)
    ensures rule.enabled && r.Ok? ==> NextChangeSpec(rule.timetable.value, when, r.value)
  {
    if !rule.enabled {
      return Ok(None);
    }
    match rule.timetable
    case None => return Err(());
    case Some(timetable) =>
      var change := SearchNextChange(timetable, when);
      return Ok(change);
  }

  /** r is the earliest flip of any rule in (cursor, limit], if there is one. */
  ghost predicate Earliest(rules: seq<Rule>, cursor: int, limit: int, r: Option<int>) {
    match r
    case None => NoFlips(rules, cursor, limit)
    case Some(c) => cursor < c <= limit && SomeRuleFlips(rules, c) && NoFlips(rules, cursor, c - 1)
  }

  /** The same for one rule. */
  ghost predicate OwnEarliest(rule: Rule, cursor: int, limit: int, r: Option<int>) {
    match r
    case None => forall u :: cursor < u <= limit ==> !RuleFlips(rule, u)
    case Some(c) => cursor < c <= limit && RuleFlips(rule, c) && forall u :: cursor < u < c ==> !RuleFlips(rule, u)
  }

  /** One round: the minimum of the candidates the rules offer. */
  method EarliestChange(rules: seq<Rule>, cursor: int, limit: int) returns (r: Option<int>)
    requires cursor <= limit <= cursor + HORIZON
    ensures Earliest(rules, cursor, limit, r)
  {
    r := None;
    for i := 0 to |rules|
      invariant Earliest(rules[..i], cursor, limit, r)
    {
      var change := RuleNextChange(rules[i], cursor);
      var own: Option<int> := None;
      if change.Ok? && change.value.Some? && change.value.value <= limit {
        own := change.value;
      }
      if rules[i].enabled && change.Ok? {
        CandidateIsEarliest(rules[i], cursor, limit, change.value);
      }
      CombineEarliest(rules, i, cursor, limit, r, own);
      if own.Some? && (r.None? || own.value < r.value) {
        r := own;
      }
    }
    assert rules[..|rules|] == rules;
  }

  lemma CandidateIsEarliest(rule: Rule, cursor: int, limit: int, change: Option<int>)
    requires cursor <= limit <= cursor + HORIZON
    requires rule.timetable.Some? && rule.enabled
    requires NextChangeSpec(rule.timetable.value, cursor, change)
    ensures OwnEarliest(rule, cursor, limit, if change.Some? && change.value <= limit then change else None)
  {
  }

  lemma CombineEarliest(rules: seq<Rule>, i: nat, cursor: int, limit: int, before: Option<int>, own: Option<int>)
    requires i < |rules|
    requires Earliest(rules[..i], cursor, limit, before)
    requires OwnEarliest(rules[i], cursor, limit, own)
    ensures Earliest(rules[..i + 1], cursor, limit,
                     if own.Some? && (before.None? || own.value < before.value) then own else before)
  {
    var after := if own.Some? && (before.None? || own.value < before.value) then own else before;
    var to := if after.Some? then after.value - 1 else limit;
    var longer := rules[..i + 1];
    forall u | cursor < u <= to ensures !SomeRuleFlips(longer, u) {
      assert !SomeRuleFlips(rules[..i], u) && !RuleFlips(rules[i], u);
      FlipsExtend(rules, i, u);
    }
    if after.Some? {
      FlipsExtend(rules, i, after.value);
    }
  }

  lemma FlipsExtend(rules: seq<Rule>, i: nat, u: int)
    requires i < |rules|
    ensures SomeRuleFlips(rules[..i + 1], u) <==> SomeRuleFlips(rules[..i], u) || RuleFlips(rules[i], u)
  {
  }

  /** The verdict keeps the value it has at `when` through every minute up to `to`. */
  ghost predicate VerdictSteady(profiles: seq<Profile>, rules: seq<Rule>, when: int, to: int) {
    forall u :: when <= u <= to ==> Allowed(profiles, rules, u) == Allowed(profiles, rules, when)
  }

  /** c is the earliest minute of the next eight days whose verdict differs from the one at `when`. */
  ghost predicate FirstChange(profiles: seq<Profile>, rules: seq<Rule>, when: int, c: int) {
    && when < c <= when + HORIZON
    && Allowed(profiles, rules, c) != Allowed(profiles, rules, when)
    && VerdictSteady(profiles, rules, when, c - 1)
  }

  /**
    The jump search of `_evaluate`. It returns exactly the first change of the verdict, in any time
    zones and for any mix of valid, invalid and disabled rules, unless more than 2048 rule flips lie
    on the way.
  */
  method NextTransition(profiles: seq<Profile>, rules: seq<Rule>, when: int) returns (transition: Option<int>)
    ensures forall c :: transition == Some(c) <==>
              FirstChange(profiles, rules, when, c) && |FlipMinutes(rules, when, c)| <= ROUNDS
  {
    BlockedProfileIsFinal(profiles, rules, when);
    hide Allowed, Decide, SomeRuleFlips, HasMode;
    if exists i :: 0 <= i < |profiles| && profiles[i].mode == Blocked {
      return None;
    }
    var start := DecisionAt(profiles, rules, when);
    var allowed := start.allowed;
    var cursor, limit := when, when + HORIZON;
    MarkedNone(FlipTest(rules), when);
    for round := 0 to ROUNDS
      invariant when <= cursor <= limit
      invariant |FlipMinutes(rules, when, cursor)| == round
      invariant VerdictSteady(profiles, rules, when, cursor)
    {
      var change := EarliestChange(rules, cursor, limit);
      if change.None? {
        Quiet(profiles, rules, when, cursor, limit);
        return None;
      }
      Quiet(profiles, rules, when, cursor, change.value - 1);
      MarkedStep(FlipTest(rules), when, cursor, change.value);
      cursor := change.value;
      var there := DecisionAt(profiles, rules, cursor);
      if there.allowed != allowed {
        FirstChangeIsUnique(profiles, rules, when, cursor);
        return Some(cursor);
      }
    }
    forall c | FirstChange(profiles, rules, when, c) ensures |FlipMinutes(rules, when, c)| > ROUNDS {
      LaterChangeNeedsAnotherFlip(profiles, rules, when, cursor, c);
    }
    return None;
  }

  /** A blocked profile denies at every minute. */
  lemma BlockedProfileIsFinal(profiles: seq<Profile>, rules: seq<Rule>, when: int)
    ensures (exists i :: 0 <= i < |profiles| && profiles[i].mode == Blocked)
            ==> forall c :: !FirstChange(profiles, rules, when, c)
  {
  }

  lemma FirstChangeIsUnique(profiles: seq<Profile>, rules: seq<Rule>, when: int, cursor: int)
    requires FirstChange(profiles, rules, when, cursor)
    ensures forall c :: FirstChange(profiles, rules, when, c) ==> c == cursor
  {
  }

  lemma Quiet(profiles: seq<Profile>, rules: seq<Rule>, when: int, cursor: int, to: int)
    requires when <= cursor <= to && NoFlips(rules, cursor, to)
    requires VerdictSteady(profiles, rules, when, cursor)
    ensures VerdictSteady(profiles, rules, when, to)
  {
    forall u | when <= u <= to ensures Allowed(profiles, rules, u) == Allowed(profiles, rules, when) {
      if cursor < u {
        NoFlipsKeepsVerdict(profiles, rules, cursor, u);
      }
    }
  }

  lemma LaterChangeNeedsAnotherFlip(profiles: seq<Profile>, rules: seq<Rule>, when: int, cursor: int, c: int)
    requires when <= cursor && VerdictSteady(profiles, rules, when, cursor)
    requires FirstChange(profiles, rules, when, c)
    ensures |FlipMinutes(rules, when, c)| > |FlipMinutes(rules, when, cursor)|
  {
    assert cursor < c;
    ChangeIsFlip(profiles, rules, when, c);
    MarkedGrows(FlipTest(rules), when, cursor, c);
  }

  lemma ChangeIsFlip(profiles: seq<Profile>, rules: seq<Rule>, when: int, c: int)
    requires FirstChange(profiles, rules, when, c)
    ensures SomeRuleFlips(rules, c)
  {
    assert Allowed(profiles, rules, c - 1) == Allowed(profiles, rules, when);
    if !SomeRuleFlips(rules, c) {
      NoFlipsKeepsVerdict(profiles, rules, c - 1, c);
    }
  }
}
