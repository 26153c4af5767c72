/** What an armed timer and a hint are sure to bring about, and that stop waits out no interval (network/live_presence.py). */
module LivePresenceTimers {
  import opened Prelude
  import opened LivePresence
  import opened LivePresenceInvariant
  import opened LivePresenceStop
  import opened LivePresenceEvents

  // --------------------------------------------------------------- frames

  /** The timer is where it was; it may have been cancelled meanwhile. */
  predicate SameTimer(tasks: Tasks, after: Tasks, t: Tid)
    requires t in tasks && tasks[t].Timer?
  {
    && t in after && after[t].Timer? && after[t].kind == tasks[t].kind && after[t].pc == tasks[t].pc
    && (tasks[t].cancelled ==> after[t].cancelled)
  }

  lemma CancelKeepsTimer(s: State, timer: Option<Tid>, t: Tid)
    requires IsTimer(s, t)
    ensures SameTimer(s.tasks, Cancel(s, timer).tasks, t)
    ensures Cancel(s, timer).tasks[t].cancelled <==> s.tasks[t].cancelled || timer == Some(t)
  {
  }

  lemma ScheduleKeepsTimer(s: State, n: Tid, t: Tid)
    requires IsTimer(s, t) && n !in s.tasks
    ensures t in ScheduleSafety(s, n).tasks && ScheduleSafety(s, n).tasks[t] == s.tasks[t]
  {
  }

  lemma ControllerKeepsTimer(s: State, ok: bool, n: Tid, t: Tid)
    requires IsTimer(s, t) && n !in s.tasks && (Stopping(s.control) ==> s.stopped)
    ensures SameTimer(s.tasks, DoController(s, ok, n).tasks, t)
    ensures !s.stopped ==> DoController(s, ok, n).tasks[t].cancelled == s.tasks[t].cancelled
  {
    CancelKeepsTimer(s, SavedEvent(s.control), t);
    CancelKeepsTimer(s, SavedSafety(s.control), t);
    ScheduleKeepsTimer(s, n, t);
    hide Cancel, ScheduleSafety, SameTimer;
    SameTimerAsBefore(s.tasks, s.tasks, t);
    if s.control.StartSchedule? {
      SameTimerAsBefore(s.tasks, ScheduleSafety(s, n).tasks, t);
    } else if s.control.StopCancelEvent? || s.control.StopCancelSafety? {
    } else {
      PlainSectionKeepsTasks(s, ok, n);
      hide DoController;
    }
  }

  lemma PlainSectionKeepsTasks(s: State, ok: bool, n: Tid)
    requires !s.control.StartSchedule? && !s.control.StopCancelEvent? && !s.control.StopCancelSafety?
    ensures DoController(s, ok, n).tasks == s.tasks
  {
  }

  lemma SameTimerAsBefore(tasks: Tasks, after: Tasks, t: Tid)
    requires t in tasks && tasks[t].Timer? && t in after && after[t] == tasks[t]
    ensures SameTimer(tasks, after, t)
  {
  }

  lemma TaskKeepsTimer(s: State, a: Action, t: Tid)
    requires Enabled(s, a) && a.StepTask? && a.t != t && IsTimer(s, t)
    ensures t in Do(s, a).tasks && Do(s, a).tasks[t] == s.tasks[t]
  {
    RequestAside(s, a.spawned);
    if s.tasks[a.t].Timer? { TimerMoves(s, a.t, a.ok, a.spawned); }
    hide RequestReconcile, DoTimer;
  }

  lemma ReaderKeepsTimer(s: State, ok: bool, n: Tid, t: Tid)
    requires n !in s.tasks && IsTimer(s, t)
    ensures t in DoReader(s, ok, n).tasks && DoReader(s, ok, n).tasks[t] == s.tasks[t]
  {
    RequestAside(s, n);
    hide RequestReconcile;
    match s.reader
    case Hinting =>
    case _ =>
  }

  /** Only a timer's own steps move it, and only a stop cancels it. */
  lemma TimerFrame(s: State, a: Action, t: Tid)
    requires Inv(s) && Enabled(s, a) && IsTimer(s, t) && !(a.StepTask? && a.t == t)
    ensures SameTimer(s.tasks, Do(s, a).tasks, t)
    ensures !s.stopped ==> Do(s, a).tasks[t].cancelled == s.tasks[t].cancelled
  {
    Parts(s);
    hide Inv, SameTimer, DoController, DoReader, ReconcileLocked, NobodyInBody, OnePending, SafetyPathKept, ReaderOwned;
    if a.StepController? {
      ControllerKeepsTimer(s, a.ok, a.spawned, t);
    } else {
      if a.StepReader? { ReaderKeepsTimer(s, a.ok, a.spawned, t); }
      if a.StepTask? { TaskKeepsTimer(s, a, t); hide Do; }
      SameTimerAsBefore(s.tasks, Do(s, a).tasks, t);
    }
  }

  /** Others neither move the controller nor touch the stopped flag. */
  lemma OthersKeepStopped(s: State, a: Action)
    requires Enabled(s, a) && !a.StepController?
    ensures Do(s, a).stopped == s.stopped
    ensures if a.CallStart? then s.control.Idle? && Do(s, a).control == StartFlag(s.control.quiet)
            else if a.CallStop? then s.control.Idle? && Do(s, a).control.StopFlag? else Do(s, a).control == s.control
  {
    if a.StepTask? {
      TaskKeepsPlace(s, a);
      hide Do;
    } else if a.StepReader? {
      ReaderKeepsPlace(s, a.ok, a.spawned);
      hide DoReader;
    }
  }

  lemma ReaderKeepsPlace(s: State, ok: bool, n: Tid)
    ensures DoReader(s, ok, n).control == s.control && DoReader(s, ok, n).stopped == s.stopped
  {
    HintsKeepPlace(s, n);
    hide RequestReconcile;
    match s.reader
    case Hinting =>
    case _ =>
  }

  lemma TaskKeepsPlace(s: State, a: Action)
    requires Enabled(s, a) && a.StepTask?
    ensures SamePlace(s, Do(s, a))
  {
    HintsKeepPlace(s, a.spawned);
    if s.tasks[a.t].Timer? { TimerKeepsPlace(s, a.t, a.ok, a.spawned); }
    hide RequestReconcile, DoTimer;
  }

  // -------------------------------------------------------- an armed timer

  function StepsLeft(pc: TimerPc): nat {
    match pc
    case Waiting => 10
    case Fired => 9
    case Queued => 8
    case Checking => 7
    case Probing => 6
    case Scanning => 5
    case Judging => 4
    case Notifying => 3
    case Rescheduling => 2
    case Releasing => 1
    case Ended => 0
  }

  function StepsOf(actions: seq<Action>, t: Tid, i: nat, j: nat): nat
    requires i <= j <= |actions|
  {
    if i == j then 0
    else StepsOf(actions, t, i, j - 1) + if actions[j - 1].StepTask? && actions[j - 1].t == t then 1 else 0
  }

  ghost predicate At(s: State, t: Tid, pc: TimerPc) {
    IsTimer(s, t) && s.tasks[t].pc == pc
  }

  /** The timer was there in some state from i up to j. */
  ghost predicate WasAt(states: seq<State>, t: Tid, pc: TimerPc, i: nat, j: nat)
    requires j < |states|
  {
    exists q :: i <= q <= j && At(states[q], t, pc)
  }

  /** In step m the timer leaves this point. */
  ghost predicate Leaves(states: seq<State>, actions: seq<Action>, t: Tid, pc: TimerPc, m: nat)
    requires m < |actions| < |states|
  {
    At(states[m], t, pc) && actions[m].StepTask? && actions[m].t == t
  }

  /** The timer's scan ended with this outcome: it returned, or raised. */
  ghost predicate ScanEnded(states: seq<State>, actions: seq<Action>, t: Tid, i: nat, j: nat, ok: bool)
    requires j <= |actions| < |states|
  {
    exists m :: i <= m < j && Leaves(states, actions, t, Scanning, m) && actions[m].ok == ok
  }

  /** The section after the scan ran, with a callback registered or not. */
  ghost predicate Judged(states: seq<State>, actions: seq<Action>, t: Tid, i: nat, j: nat, callback: bool)
    requires j <= |actions| < |states|
  {
    exists m :: i <= m < j && Leaves(states, actions, t, Judging, m) && actions[m].ok == callback
  }

  /** The timer ran its one scan, and notified exactly if that returned and there is a callback. */
  ghost predicate Scanned(states: seq<State>, actions: seq<Action>, t: Tid, i: nat, j: nat)
    requires i <= j <= |actions| < |states|
  {
    var notified := WasAt(states, t, Notifying, i, j);
    || (ScanEnded(states, actions, t, i, j, false) && !notified)
    || (ScanEnded(states, actions, t, i, j, true) && Judged(states, actions, t, i, j, notified))
  }

  ghost predicate SafetyArmed(states: seq<State>, i: nat, j: nat)
    requires j < |states|
  {
    exists m :: i < m <= j && states[m].safetyTimer.Some? && Armed(states[m].tasks, states[m].safetyTimer.value, Safety)
  }

  /** How far the timer armed in state i has come in state j. */
  ghost predicate TimerProgress(states: seq<State>, actions: seq<Action>, t: Tid, i: nat, j: nat)
    requires i <= j <= |actions| < |states|
  {
    && IsTimer(states[j], t)
    && (var pc := states[j].tasks[t].pc;
        && StepsOf(actions, t, i, j) + StepsLeft(pc) <= 10
        && (pc.Waiting? ==> !states[j].tasks[t].cancelled)
        && (!pc.Notifying? && !pc.Rescheduling? && !pc.Releasing? && !pc.Ended? ==> !WasAt(states, t, Notifying, i, j))
        && (pc.Judging? || pc.Notifying? ==> ScanEnded(states, actions, t, i, j, true))
        && (pc.Notifying? ==> Judged(states, actions, t, i, j, true) && WasAt(states, t, Notifying, i, j))
        && (pc.Rescheduling? || pc.Releasing? || pc.Ended? ==> Scanned(states, actions, t, i, j))
        && (pc.Releasing? || pc.Ended? ==> SafetyArmed(states, i, j)))
  }

  lemma EndedExtends(states: seq<State>, actions: seq<Action>, t: Tid, i: nat, j: nat, ok: bool)
    requires i <= j < |actions| < |states|
    ensures ScanEnded(states, actions, t, i, j + 1, ok) <==>
              ScanEnded(states, actions, t, i, j, ok) || (Leaves(states, actions, t, Scanning, j) && actions[j].ok == ok)
    ensures Judged(states, actions, t, i, j + 1, ok) <==>
              Judged(states, actions, t, i, j, ok) || (Leaves(states, actions, t, Judging, j) && actions[j].ok == ok)
  {
    if ScanEnded(states, actions, t, i, j, ok) {
      var m :| i <= m < j && Leaves(states, actions, t, Scanning, m) && actions[m].ok == ok;
      assert i <= m < j + 1;
    }
    if Judged(states, actions, t, i, j, ok) {
      var m :| i <= m < j && Leaves(states, actions, t, Judging, m) && actions[m].ok == ok;
      assert i <= m < j + 1;
    }
  }

  lemma HistoryExtends(states: seq<State>, actions: seq<Action>, t: Tid, i: nat, j: nat)
    requires i <= j < |actions| < |states|
    ensures WasAt(states, t, Notifying, i, j + 1) <==> WasAt(states, t, Notifying, i, j) || At(states[j + 1], t, Notifying)
    ensures forall ok :: ScanEnded(states, actions, t, i, j + 1, ok) <==>
              ScanEnded(states, actions, t, i, j, ok) || (Leaves(states, actions, t, Scanning, j) && actions[j].ok == ok)
    ensures forall ok :: Judged(states, actions, t, i, j + 1, ok) <==>
              Judged(states, actions, t, i, j, ok) || (Leaves(states, actions, t, Judging, j) && actions[j].ok == ok)
    ensures SafetyArmed(states, i, j) ==> SafetyArmed(states, i, j + 1)
  {
    hide ScanEnded, Judged, Leaves;
    forall ok { EndedExtends(states, actions, t, i, j, ok); }
  }

  lemma TimerProgressWaits(states: seq<State>, actions: seq<Action>, t: Tid, i: nat, j: nat)
    requires i <= j < |actions| < |states| && TimerProgress(states, actions, t, i, j)
    requires !(actions[j].StepTask? && actions[j].t == t)
    requires SameTimer(states[j].tasks, states[j + 1].tasks, t)
    requires states[j + 1].tasks[t].cancelled == states[j].tasks[t].cancelled
    ensures TimerProgress(states, actions, t, i, j + 1)
  {
    HistoryExtends(states, actions, t, i, j);
    hide WasAt, ScanEnded, Judged, SafetyArmed;
    assert !Leaves(states, actions, t, Scanning, j) && !Leaves(states, actions, t, Judging, j);
    if At(states[j + 1], t, Notifying) { assert WasAt(states, t, Notifying, i, j); }
  }

  /** One step of a timer that is not cancelled, while the service is not stopped. */
  lemma ArmedTimerStep(s: State, t: Tid, ok: bool, n: Tid)
    requires IsTimer(s, t) && n !in s.tasks && !s.stopped && !s.tasks[t].pc.Ended?
    requires s.tasks[t].pc.Waiting? ==> !s.tasks[t].cancelled
    requires s.tasks[t].pc.Probing? ==> !s.scanRunning
    ensures var s' := DoTimer(s, t, ok, n);
            && IsTimer(s', t) && Follows(s.tasks[t].pc, ok, s'.tasks[t].pc)
            && (s.tasks[t].pc.Rescheduling? ==> s'.safetyTimer.Some?)
  {
    hide ScheduleSafety;
    if StepsLeft(s.tasks[t].pc) >= 6 { EarlyStep(s, t, ok, n); } else { LateStep(s, t, ok, n); }
    hide DoTimer;
  }

  lemma EarlyStep(s: State, t: Tid, ok: bool, n: Tid)
    requires IsTimer(s, t) && !s.stopped && StepsLeft(s.tasks[t].pc) >= 6
    requires s.tasks[t].pc.Waiting? ==> !s.tasks[t].cancelled
    requires s.tasks[t].pc.Probing? ==> !s.scanRunning
    ensures var s' := DoTimer(s, t, ok, n); IsTimer(s', t) && Follows(s.tasks[t].pc, ok, s'.tasks[t].pc)
  {
    hide ScheduleSafety;
  }

  lemma LateStep(s: State, t: Tid, ok: bool, n: Tid)
    requires IsTimer(s, t) && n !in s.tasks && !s.stopped && 1 <= StepsLeft(s.tasks[t].pc) < 6
    ensures var s' := DoTimer(s, t, ok, n);
            && IsTimer(s', t) && Follows(s.tasks[t].pc, ok, s'.tasks[t].pc)
            && (s.tasks[t].pc.Rescheduling? ==> s'.safetyTimer.Some?)
  {
    hide ScheduleSafety;
    if s.tasks[t].pc.Rescheduling? {
      ReschedulingStep(s, t, ok, n);
      hide DoTimer;
    } else {
      match s.tasks[t].pc
      case Scanning =>
      case Judging =>
      case Notifying =>
      case Releasing =>
    }
  }

  lemma ReschedulingStep(s: State, t: Tid, ok: bool, n: Tid)
    requires IsTimer(s, t) && n !in s.tasks && !s.stopped && s.tasks[t].pc.Rescheduling?
    ensures var s' := DoTimer(s, t, ok, n); IsTimer(s', t) && s'.tasks[t].pc.Releasing? && s'.safetyTimer.Some?
  {
    ScheduleAside(s, t, n);
    assert ScheduleSafety(s, n).safetyTimer.Some?;
    PcMoves(ScheduleSafety(s, n), t, Releasing);
    hide ScheduleSafety, SetPc;
  }

  lemma TimerProgressMoves(states: seq<State>, actions: seq<Action>, t: Tid, i: nat, j: nat)
    requires i <= j < |actions| < |states| && TimerProgress(states, actions, t, i, j)
    requires Inv(states[j]) && Inv(states[j + 1]) && !states[j].stopped
    requires Enabled(states[j], actions[j]) && states[j + 1] == Do(states[j], actions[j])
    requires actions[j].StepTask? && actions[j].t == t
    ensures TimerProgress(states, actions, t, i, j + 1)
  {
    hide DoTimer, Inv, ScanEnded, Judged, SafetyArmed, WasAt, Scanned;
    var s, a := states[j], actions[j];
    if s.tasks[t].pc.Probing? { ProbingFindsNoScan(s, t); }
    ArmedTimerStep(s, t, a.ok, a.spawned);
    if s.tasks[t].pc.Rescheduling? { SafetyIsArmed(states, i, j + 1); }
    NextProgress(states, actions, t, i, j);
  }

  lemma SafetyIsArmed(states: seq<State>, i: nat, j: nat)
    requires i < j < |states| && Inv(states[j]) && states[j].safetyTimer.Some?
    ensures SafetyArmed(states, i, j)
  {
    Parts(states[j]);
  }

  /** Where a step of its own takes the timer. */
  predicate Follows(pc: TimerPc, ok: bool, next: TimerPc) {
    match pc
    case Waiting => next.Fired?
    case Fired => next.Queued?
    case Queued => next.Checking?
    case Checking => next.Probing?
    case Probing => next.Scanning?
    case Scanning => next == if ok then Judging else Rescheduling
    case Judging => next == if ok then Notifying else Rescheduling
    case Notifying => next.Rescheduling?
    case Rescheduling => next.Releasing?
    case Releasing => next.Ended?
    case Ended => false
  }

  lemma NextProgress(states: seq<State>, actions: seq<Action>, t: Tid, i: nat, j: nat)
    requires i <= j < |actions| < |states| && TimerProgress(states, actions, t, i, j)
    requires actions[j].StepTask? && actions[j].t == t && IsTimer(states[j + 1], t)
    requires Follows(states[j].tasks[t].pc, actions[j].ok, states[j + 1].tasks[t].pc)
    requires states[j].tasks[t].pc.Rescheduling? ==> SafetyArmed(states, i, j + 1)
    ensures TimerProgress(states, actions, t, i, j + 1)
  {
    HistoryExtends(states, actions, t, i, j);
    hide ScanEnded, Judged, SafetyArmed, WasAt;
  }

  lemma ProbingFindsNoScan(s: State, t: Tid)
    requires Inv(s) && IsTimer(s, t) && s.tasks[t].pc.Probing?
    ensures !s.scanRunning
  {
    Parts(s);
  }

  lemma TimerProgressStep(states: seq<State>, actions: seq<Action>, t: Tid, i: nat, j: nat)
    requires i <= j < |actions| < |states| && TimerProgress(states, actions, t, i, j)
    requires Inv(states[j]) && Inv(states[j + 1]) && !states[j].stopped
    requires Enabled(states[j], actions[j]) && states[j + 1] == Do(states[j], actions[j])
    ensures TimerProgress(states, actions, t, i, j + 1)
  {
    hide Inv, Do, TimerProgress, Enabled;
    ProgressIsTimer(states, actions, t, i, j);
    if actions[j].StepTask? && actions[j].t == t {
      TimerProgressMoves(states, actions, t, i, j);
    } else {
      TimerFrame(states[j], actions[j], t);
      TimerProgressWaits(states, actions, t, i, j);
    }
  }

  lemma {:induction false} TimerProgresses(states: seq<State>, actions: seq<Action>, t: Tid, i: nat, j: nat)
    requires Run(states, actions) && i <= j <= |actions|
    requires At(states[i], t, Waiting) && !states[i].tasks[t].cancelled
    requires forall m :: i <= m <= j ==> !states[m].stopped
    ensures TimerProgress(states, actions, t, i, j)
  {
    hide Inv, Do, TimerProgress, Enabled;
    RunKeepsInv(states, actions);
    if i == j {
      ProgressBegins(states, actions, t, i);
    } else {
      TimerProgresses(states, actions, t, i, j - 1);
      TimerProgressStep(states, actions, t, i, j - 1);
    }
  }

  lemma ProgressIsTimer(states: seq<State>, actions: seq<Action>, t: Tid, i: nat, j: nat)
    requires i <= j <= |actions| < |states| && TimerProgress(states, actions, t, i, j)
    ensures IsTimer(states[j], t)
  {
  }

  lemma ProgressBegins(states: seq<State>, actions: seq<Action>, t: Tid, i: nat)
    requires i <= |actions| < |states| && At(states[i], t, Waiting) && !states[i].tasks[t].cancelled
    ensures TimerProgress(states, actions, t, i, i)
  {
  }

  /**
    An armed timer, of either kind, runs a scan unless the service is stopped first: when it has ended,
    it has run one, it has notified exactly if that scan returned and a callback is registered, and a
    safety timer was armed again. That takes at most ten steps of its own.
  */
  lemma ArmedTimerScans(states: seq<State>, actions: seq<Action>, t: Tid, kind: Kind, i: nat, j: nat)
    requires Run(states, actions) && i <= j <= |actions| && Armed(states[i].tasks, t, kind) && At(states[i], t, Waiting)
    requires forall m :: i <= m <= j ==> !states[m].stopped
    ensures IsTimer(states[j], t) && StepsOf(actions, t, i, j) <= 10
    ensures if states[j].tasks[t].pc.Ended? then Scanned(states, actions, t, i, j) && SafetyArmed(states, i, j)
            else StepsOf(actions, t, i, j) < 10
  {
    hide Scanned, SafetyArmed, TimerProgress;
    TimerProgresses(states, actions, t, i, j);
    ProgressSoFar(states, actions, t, i, j);
  }

  lemma ProgressSoFar(states: seq<State>, actions: seq<Action>, t: Tid, i: nat, j: nat)
    requires i <= j <= |actions| < |states| && TimerProgress(states, actions, t, i, j)
    ensures IsTimer(states[j], t) && StepsOf(actions, t, i, j) <= 10
    ensures if states[j].tasks[t].pc.Ended? then Scanned(states, actions, t, i, j) && SafetyArmed(states, i, j)
            else StepsOf(actions, t, i, j) < 10
  {
    hide Scanned, SafetyArmed;
  }

  // ------------------------------------------------------------------ hints

  /** A request for a reconcile leaves an event timer armed, unless the service is stopped. */
  lemma HintArmsTimer(states: seq<State>, actions: seq<Action>, i: nat)
    requires Run(states, actions) && i < |actions| && !states[i].stopped
    requires actions[i].StepTask? && states[i].tasks[actions[i].t].Hint?
    ensures var s := states[i + 1]; s.eventTimer.Some? && Armed(s.tasks, s.eventTimer.value, Event)
  {
    RunKeepsInv(states, actions);
    assert states[i + 1].eventTimer.Some?;
    Parts(states[i + 1]);
  }

  // ---------------------------------------------------------- cancellation

  /** A timer that stop is joining, or is about to, has been cancelled. */
  ghost predicate JoinsCancelled(s: State) {
    && (s.control.StopJoinEvent? && s.control.event.Some? ==>
          IsTimer(s, s.control.event.value) && s.tasks[s.control.event.value].cancelled)
    && (s.control.StopJoinSafety? && s.control.safety.Some? ==>
          IsTimer(s, s.control.safety.value) && s.tasks[s.control.safety.value].cancelled)
  }

  lemma StepJoinsCancelled(s: State, a: Action)
    requires Inv(s) && Enabled(s, a) && JoinsCancelled(s)
    ensures JoinsCancelled(Do(s, a))
  {
    if a.StepController? {
      SavedAreTimers(s);
      ControllerJoinsCancelled(s, a.ok, a.spawned);
      hide DoController, Inv;
    } else {
      OthersKeepStopped(s, a);
      forall t | IsTimer(s, t) && s.tasks[t].cancelled ensures IsTimer(Do(s, a), t) && Do(s, a).tasks[t].cancelled {
        if a.StepTask? && a.t == t { OwnStepKeepsCancelled(s, a); } else { TimerFrame(s, a, t); }
      }
      hide Do, Inv;
    }
  }

  lemma ControllerJoinsCancelled(s: State, ok: bool, n: Tid)
    requires SavedEvent(s.control).Some? ==> IsTimer(s, SavedEvent(s.control).value)
    requires SavedSafety(s.control).Some? ==> IsTimer(s, SavedSafety(s.control).value)
    ensures JoinsCancelled(DoController(s, ok, n))
  {
    hide ScheduleSafety, Cancel;
    if s.control.StopCancelEvent? {
      CancelFrame(s, s.control.event);
      if s.control.event.Some? { CancelKeepsTimer(s, s.control.event, s.control.event.value); }
    } else if s.control.StopCancelSafety? {
      CancelFrame(s, s.control.safety);
      if s.control.safety.Some? { CancelKeepsTimer(s, s.control.safety, s.control.safety.value); }
    } else {
      NoJoinNext(s, ok, n);
      hide DoController;
    }
  }

  lemma NoJoinNext(s: State, ok: bool, n: Tid)
    requires !s.control.StopCancelEvent? && !s.control.StopCancelSafety?
    ensures !DoController(s, ok, n).control.StopJoinEvent? && !DoController(s, ok, n).control.StopJoinSafety?
  {
    HintsKeepPlace(s, n);
    hide ScheduleSafety, Cancel;
    if InStop(s.control) {
      match s.control
      case StopFlag =>
      case StopCancelScan(_, _) =>
      case StopJoinEvent(_, _) =>
      case _ =>
    } else {
      match s.control
      case StartSchedule =>
      case _ =>
    }
  }

  lemma OwnStepKeepsCancelled(s: State, a: Action)
    requires Enabled(s, a) && a.StepTask? && IsTimer(s, a.t) && s.tasks[a.t].cancelled
    ensures IsTimer(Do(s, a), a.t) && Do(s, a).tasks[a.t].cancelled
    ensures s.tasks[a.t].pc.Waiting? ==> Do(s, a).tasks[a.t].pc.Ended?
    ensures !s.tasks[a.t].pc.Ended?
  {
    TimerMoves(s, a.t, a.ok, a.spawned);
    assert s.tasks[a.t].pc.Waiting? ==> DoTimer(s, a.t, a.ok, a.spawned).tasks[a.t].pc.Ended?;
    hide DoTimer;
  }

  lemma {:induction false} RunJoinsCancelled(states: seq<State>, actions: seq<Action>, n: nat)
    requires Run(states, actions) && n <= |actions|
    ensures JoinsCancelled(states[n])
  {
    RunKeepsInv(states, actions);
    hide Inv, Do;
    if n == 0 {
    } else {
      RunJoinsCancelled(states, actions, n - 1);
      StepJoinsCancelled(states[n - 1], actions[n - 1]);
    }
  }

  /** The timers that stop joins. */
  predicate Joins(c: ControlPc, t: Tid) {
    (c.StopJoinEvent? && c.event == Some(t)) || (c.StopJoinSafety? && c.safety == Some(t))
  }

  /** stop waits out no interval: a timer it joins whose interval is not over never fires. */
  lemma {:induction false} JoinedTimerNeverFires(states: seq<State>, actions: seq<Action>, i: nat, j: nat, t: Tid)
    requires Run(states, actions) && i <= j <= |actions|
    requires Joins(states[i].control, t) && At(states[i], t, Waiting)
    ensures IsTimer(states[j], t) && states[j].tasks[t].cancelled
    ensures At(states[j], t, Waiting) || At(states[j], t, Ended)
  {
    hide Inv, Do, Enabled;
    RunKeepsInv(states, actions);
    RunJoinsCancelled(states, actions, i);
    if j > i {
      JoinedTimerNeverFires(states, actions, i, j - 1, t);
      var s, a := states[j - 1], actions[j - 1];
      if a.StepTask? && a.t == t { OwnStepKeepsCancelled(s, a); } else { TimerFrame(s, a, t); }
    }
  }
}
