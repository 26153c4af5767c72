/** What a call of start is sure to bring about, and that nobody is ever stuck (network/live_presence.py). */
module LivePresenceStart {
  import opened Prelude
  import opened LivePresence
  import opened LivePresenceInvariant
  import opened LivePresenceStop
  import opened LivePresenceEvents
  import opened LivePresenceTimers

  // ------------------------------------------------------------------ start

  /** The thread of a new reader was started in step m. */
  ghost predicate ReaderStarts(states: seq<State>, actions: seq<Action>, m: nat, ok: bool)
    requires m < |actions| < |states|
  {
    && states[m].control.StartMonitor? && actions[m].StepController? && actions[m].ok == ok
    && (ok ==> states[m + 1].reader.Starting?)
  }

  ghost predicate ReaderStarted(states: seq<State>, actions: seq<Action>, i: nat, j: nat, ok: bool)
    requires j <= |actions| < |states|
  {
    exists m :: i < m < j && ReaderStarts(states, actions, m, ok)
  }

  /** How far a start has come that found the service stopped. */
  ghost predicate StartProgress(states: seq<State>, actions: seq<Action>, i: nat, j: nat)
    requires i < j <= |actions| < |states|
  {
    var s := states[j];
    match s.control
    case StartFlag(_) => s.stopped
    case StartMonitor => !s.stopped
    case StartUndo => !s.stopped && ReaderStarted(states, actions, i, j, false)
    case StartSchedule => !s.stopped && ReaderStarted(states, actions, i, j, true)
    case Idle(quiet) =>
      && !quiet
      && if s.stopped then ReaderStarted(states, actions, i, j, false)
         else ReaderStarted(states, actions, i, j, true) && SafetyArmed(states, i, j)
    case _ => false
  }

  lemma StartStep(s: State, ok: bool, n: Tid)
    requires Inv(s) && n !in s.tasks && (s.control.StartFlag? ==> s.stopped)
    requires s.control.StartFlag? || Launching(s.control)
    ensures var s' := DoController(s, ok, n);
            match s.control
            case StartFlag(_) => s'.control.StartMonitor? && !s'.stopped
            case StartMonitor => !s'.stopped && if ok then s'.control.StartSchedule? && s'.reader.Starting? else s'.control.StartUndo?
            case StartUndo => s'.control == Idle(false) && s'.stopped
            case _ => s'.control == Idle(false) && !s'.stopped && s'.safetyTimer.Some?
  {
    Parts(s);
    assert s.control.StartSchedule? ==> ScheduleSafety(s, n).safetyTimer.Some?;
    HintsKeepPlace(s, n);
    hide Inv, ReconcileLocked, NobodyInBody, OnePending, SafetyPathKept, ScheduleSafety, Cancel;
    match s.control
    case StartFlag(_) =>
    case StartMonitor =>
    case StartUndo =>
    case StartSchedule =>
  }

  lemma StartedExtends(states: seq<State>, actions: seq<Action>, i: nat, j: nat)
    requires i < j < |actions| < |states|
    ensures forall ok :: ReaderStarted(states, actions, i, j, ok) || ReaderStarts(states, actions, j, ok)
                         ==> ReaderStarted(states, actions, i, j + 1, ok)
    ensures SafetyArmed(states, i, j) ==> SafetyArmed(states, i, j + 1)
  {
  }

  lemma {:induction false} StartProgresses(states: seq<State>, actions: seq<Action>, i: nat, j: nat)
    requires Run(states, actions) && i < j <= |actions| && actions[i].CallStart? && states[i].stopped
    requires forall k :: i < k < j ==> !states[k].control.Idle?
    ensures StartProgress(states, actions, i, j)
  {
    hide Do, Enabled, Inv, StartProgress;
    RunKeepsInv(states, actions);
    if j == i + 1 {
      StartProgressBegins(states, actions, i);
    } else {
      StartProgresses(states, actions, i, j - 1);
      StartProgressStep(states, actions, i, j - 1);
    }
  }

  lemma StartProgressBegins(states: seq<State>, actions: seq<Action>, i: nat)
    requires i < |actions| < |states| && Enabled(states[i], actions[i]) && states[i + 1] == Do(states[i], actions[i])
    requires actions[i].CallStart? && states[i].stopped
    ensures StartProgress(states, actions, i, i + 1)
  {
  }

  lemma StartProgressStep(states: seq<State>, actions: seq<Action>, i: nat, j: nat)
    requires i < j < |actions| < |states| && Enabled(states[j], actions[j]) && states[j + 1] == Do(states[j], actions[j])
    requires Inv(states[j]) && Inv(states[j + 1]) && StartProgress(states, actions, i, j) && !states[j].control.Idle?
    ensures StartProgress(states, actions, i, j + 1)
  {
    StartedExtends(states, actions, i, j);
    hide DoController, Inv, ReaderStarted, SafetyArmed;
    var s, a := states[j], actions[j];
    if a.StepController? {
      StartStep(s, a.ok, a.spawned);
      if s.control.StartSchedule? { SafetyIsArmed(states, i, j + 1); }
      assert s.control.StartMonitor? ==> ReaderStarts(states, actions, j, a.ok);
    } else {
      OthersKeepStopped(s, a);
      hide Do;
    }
  }

  /**
    A start of a stopped service ends with the service running, a reader thread started and a safety timer
    armed; or, exactly when that thread could not be started, with the service stopped as before.
  */
  lemma StartTakesEffectIff(states: seq<State>, actions: seq<Action>, i: nat, j: nat)
    requires Run(states, actions) && i < j <= |actions| && actions[i].CallStart? && states[i].stopped
    requires states[j].control.Idle? && forall k :: i < k < j ==> !states[k].control.Idle?
    ensures if states[j].stopped then ReaderStarted(states, actions, i, j, false)
            else ReaderStarted(states, actions, i, j, true) && SafetyArmed(states, i, j)
  {
    StartProgresses(states, actions, i, j);
    hide ReaderStarted, SafetyArmed;
  }

  predicate StartFoundRunning(s: State) {
    !s.stopped && (s.control.StartFlag? || s.control == Idle(false))
  }

  lemma SecondStartStep(s: State, a: Action)
    requires Enabled(s, a) && StartFoundRunning(s) && !s.control.Idle?
    ensures StartFoundRunning(Do(s, a))
  {
    if !a.StepController? {
      OthersKeepStopped(s, a);
      hide Do;
    }
  }

  lemma SecondStartBegins(s: State)
    requires Enabled(s, CallStart) && !s.stopped
    ensures StartFoundRunning(Do(s, CallStart))
  {
  }

  /** A start of a running service changes nothing. */
  lemma {:induction false} SecondStartIsIdle(states: seq<State>, actions: seq<Action>, i: nat, j: nat)
    requires Run(states, actions) && i < j <= |actions| && actions[i].CallStart? && !states[i].stopped
    requires forall k :: i < k < j ==> !states[k].control.Idle?
    ensures StartFoundRunning(states[j])
  {
    hide Do, Enabled, StartFoundRunning;
    if j == i + 1 {
      SecondStartBegins(states[i]);
    } else {
      SecondStartIsIdle(states, actions, i, j - 1);
      SecondStartStep(states[j - 1], actions[j - 1]);
    }
  }

  // -------------------------------------------------------- nobody is stuck

  /** A step of the thread other than the arrival of a line. */
  ghost predicate HasStep(s: State, who: Who) {
    exists a :: Mover(a) == Some(who) && Enabled(s, a) && !LineArrives(s, a)
  }

  /** The thread has work left that it does not get from outside. */
  predicate AtWork(s: State, who: Who) {
    match who
    case Controller => s.control.StartFlag? || Launching(s.control) || InStop(s.control)
    case Reader => ReaderAlive(s) && (s.reader.Reading? ==> !s.childAlive)
    case Thread(t) => t in s.tasks && (if s.tasks[t].Timer? then !s.tasks[t].pc.Ended? else !s.tasks[t].done)
  }

  lemma UnblockedHasStep(s: State, who: Who)
    requires AtWork(s, who) && Blocker(s, who).None? && (NeedsLock(s, who) && s.lock.Some? ==> s.lock == Some(who))
    ensures HasStep(s, who)
  {
    if NeedsLock(s, who) && s.lock.None? {
      assert Enabled(s, TakeLock(who)) && Mover(TakeLock(who)) == Some(who);
    } else {
      var n := NewTid(s.tasks);
      var a := match who
        case Controller => StepController(true, n)
        case Reader => StepReader(false, n)
        case Thread(t) => StepTask(t, true, n);
      assert Enabled(s, a) && Mover(a) == Some(who);
    }
  }

  lemma HolderIsAtWork(s: State)
    requires Inv(s)
    ensures s.lock.Some? ==> NeedsLock(s, s.lock.value) && AtWork(s, s.lock.value) && Blocker(s, s.lock.value).None?
    ensures s.reconcileLock.Some? ==> AtWork(s, s.reconcileLock.value)
    ensures s.reconcileLock.Some? ==> NeedsLock(s, s.reconcileLock.value) || Blocker(s, s.reconcileLock.value).None?
  {
    Parts(s);
    hide NobodyInBody, OnePending, SafetyPathKept, ReaderOwned, FlagsAgree;
  }

  /** Wherever a run has led, the chain of waits from any thread at work ends, after at most two waits, at one with a step. */
  lemma NobodyIsStuck(states: seq<State>, actions: seq<Action>, i: nat, who: Who)
    requires Run(states, actions) && i < |states| && AtWork(states[i], who) && (who.Controller? ==> !InStop(states[i].control))
    ensures Blocker(states[i], Front(states[i], who, 2)).None? && HasStep(states[i], Front(states[i], who, 2))
  {
    RunKeepsInv(states, actions);
    var s := states[i];
    HolderIsAtWork(s);
    hide Inv, AtWork;
    if Blocker(s, who).None? {
      UnblockedHasStep(s, who);
    } else {
      var second := Blocker(s, who).value;
      if Blocker(s, second).None? { UnblockedHasStep(s, second); } else { UnblockedHasStep(s, Blocker(s, second).value); }
    }
  }
}
