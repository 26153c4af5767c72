/** When a call of stop returns, and what it may leave behind when it raises (network/live_presence.py). */
module LivePresenceReturn {
  import opened Prelude
  import opened LivePresence
  import opened LivePresenceInvariant
  import opened LivePresenceStop

  // ------------------------------------------------------ exact condition

  /** Inside a stop that began at `called`; `quiet` is what it will end as. */
  predicate Tracks(called: State, s: State) {
    && InStop(s.control)
    && (if s.control.StopMonitorClear? || s.control.StopWantReconcile? || s.control.StopHaveReconcile?
        then !called.reader.Unstarted?
        else s.reader.Unstarted? == called.reader.Unstarted?)
  }

  lemma HintsKeepReader(s: State, n: Tid)
    ensures RequestReconcile(s, n).control == s.control && RequestReconcile(s, n).reader == s.reader
    ensures ScheduleSafety(s, n).control == s.control && ScheduleSafety(s, n).reader == s.reader
  {
  }

  lemma ReaderKeepsControl(s: State, ok: bool, n: Tid)
    requires ReaderAlive(s)
    ensures DoReader(s, ok, n).control == s.control && !DoReader(s, ok, n).reader.Unstarted?
  {
    HintsKeepReader(s, n);
    hide RequestReconcile;
  }

  /** Only the controller changes its own place, or has a reader that never started. */
  lemma OthersKeepUnstarted(s: State, a: Action)
    requires Enabled(s, a) && !a.StepController? && !a.CallStart? && !a.CallStop?
    ensures Do(s, a).control == s.control && (Do(s, a).reader.Unstarted? <==> s.reader.Unstarted?)
  {
    match a
    case StepReader(ok, n) => ReaderKeepsControl(s, ok, n);
    case StepTask(t, ok, n) =>
      HintsKeepReader(s, n);
      if s.tasks[t].Timer? { TimerMoves(s, t, ok, n); }
      hide RequestReconcile, DoTimer;
    case _ =>
  }

  lemma MonitorTracks(called: State, s: State, ok: bool, n: Tid)
    requires Tracks(called, s) && !s.control.StopFlag? && !StoppingTimers(s.control)
    ensures var s' := DoController(s, ok, n);
            Tracks(called, s') || (s'.control.Idle? && (s'.control.quiet <==> !called.reader.Unstarted?))
  {
    hide ScheduleSafety;
    match s.control
    case StopMonitorFlag =>
    case StopMonitorKill =>
    case StopMonitorJoin =>
    case StopMonitorClear =>
    case StopWantReconcile =>
    case StopHaveReconcile =>
  }

  lemma StopFlagStep(s: State, ok: bool, n: Tid)
    requires s.control.StopFlag?
    ensures DoController(s, ok, n).reader == s.reader && DoController(s, ok, n).control.StopCancelScan?
  {
  }

  lemma StoppingTimersStep(s: State, ok: bool, n: Tid)
    requires StoppingTimers(s.control)
    ensures var s' := DoController(s, ok, n);
            s'.reader == s.reader && (StoppingTimers(s'.control) || s'.control.StopMonitorFlag?)
  {
    hide Cancel, ScheduleSafety;
    match s.control
    case StopCancelScan(_, _) =>
    case StopCancelEvent(e, _) => CancelKeepsReader(s, e);
    case StopJoinEvent(_, _) =>
    case StopCancelSafety(f) => CancelKeepsReader(s, f);
    case StopJoinSafety(_) =>
  }

  lemma TimersTrack(called: State, s: State, ok: bool, n: Tid)
    requires Tracks(called, s) && (s.control.StopFlag? || StoppingTimers(s.control))
    ensures Tracks(called, DoController(s, ok, n))
  {
    if s.control.StopFlag? { StopFlagStep(s, ok, n); } else { StoppingTimersStep(s, ok, n); }
    hide DoController;
  }

  lemma CancelKeepsReader(s: State, timer: Option<Tid>)
    ensures Cancel(s, timer).control == s.control && Cancel(s, timer).reader == s.reader
  {
  }

  lemma {:induction false} StopTracks(states: seq<State>, actions: seq<Action>, i: nat, j: nat)
    requires Run(states, actions) && i < j < |states| && actions[i].CallStop?
    requires forall k :: i < k < j ==> !states[k].control.Idle?
    ensures Tracks(states[i], states[j])
            || (states[j].control.Idle? && (states[j].control.quiet <==> !states[i].reader.Unstarted?))
    decreases j
  {
    hide Do, Enabled, Tracks;
    if j == i + 1 {
      CallTracks(states[i]);
    } else {
      StopTracks(states, actions, i, j - 1);
      StepTracks(states[i], states[j - 1], actions[j - 1]);
    }
  }

  lemma CallTracks(s: State)
    requires Enabled(s, CallStop)
    ensures Tracks(s, Do(s, CallStop))
  {
  }

  lemma StepTracks(called: State, s: State, a: Action)
    requires Enabled(s, a) && Tracks(called, s)
    ensures Tracks(called, Do(s, a)) || (Do(s, a).control.Idle? && (Do(s, a).control.quiet <==> !called.reader.Unstarted?))
  {
    if a.StepController? {
      hide DoController;
      if s.control.StopFlag? || StoppingTimers(s.control) {
        TimersTrack(called, s, a.ok, a.spawned);
      } else {
        MonitorTracks(called, s, a.ok, a.spawned);
      }
    } else {
      OthersKeepUnstarted(s, a);
      hide Do;
    }
  }

  /**
    A call of stop raises, rather than returns, exactly when the last attempt to start the reader thread
    raised. Only a stop that returns has waited for the reconciliation under way.
  */
  lemma StopReturnsIff(states: seq<State>, actions: seq<Action>, i: nat, j: nat)
    requires Run(states, actions) && i < j < |states| && actions[i].CallStop?
    requires states[j].control.Idle? && forall k :: i < k < j ==> !states[k].control.Idle?
    ensures states[j].control.quiet <==> !states[i].reader.Unstarted?
  {
    StopTracks(states, actions, i, j);
  }

  // -------------------------------------------------- a stop that raises

  /** The run takes its first k steps and is then at s. */
  ghost predicate RunTo(k: nat, s: State) {
    k <= |RUN| && exists states :: Run(states, RUN[..k]) && states[k] == s
  }

  /** The undone start leaves behind a timer in its scan, and a reader thread that a stop cannot join. */
  const RUN: seq<Action> := [
    // start has left the stopped state when a hint arms an event timer
    CallStart, TakeLock(Controller), StepController(true, 0), NewHint(0), TakeLock(Thread(0)), StepTask(0, true, 1),
    // the timer gets as far as the scan
    StepTask(1, true, 2), TakeLock(Thread(1)), StepTask(1, true, 2), StepTask(1, true, 2), TakeLock(Thread(1)),
    StepTask(1, true, 2), StepTask(1, true, 2),
    // the reader thread cannot be started, and start undoes itself
    StepController(false, 2), TakeLock(Controller), StepController(true, 2),
    // stop gets as far as joining that thread
    CallStop, TakeLock(Controller), StepController(true, 2), StepController(true, 2), StepController(true, 2),
    StepController(true, 2), StepController(true, 2), StepController(true, 2), StepController(true, 2),
    StepController(true, 2), StepController(true, 2)
  ]

  lemma Next(k: nat, s: State, t: State)
    requires RunTo(k, s) && k < |RUN| && Enabled(s, RUN[k]) && Do(s, RUN[k]) == t
    ensures RunTo(k + 1, t)
  {
    var states :| Run(states, RUN[..k]) && states[k] == s;
    var longer, actions := states + [t], RUN[..k + 1];
    hide Do, Enabled;
    assert Run(longer, actions) by {
      forall i | 0 <= i < |actions|
        ensures Enabled(longer[i], actions[i]) && longer[i + 1] == Do(longer[i], actions[i])
      {
        if i < k { assert longer[i] == states[i] && longer[i + 1] == states[i + 1] && RUN[..k][i] == actions[i]; }
      }
    }
  }

  lemma LockNext(k: nat, s: State, who: Who)
    requires RunTo(k, s) && s.lock.None? && NeedsLock(s, who) && k < |RUN| && RUN[k] == TakeLock(who)
    ensures RunTo(k + 1, s.(lock := Some(who)))
  {
    hide RunTo;
    Next(k, s, s.(lock := Some(who)));
  }

  /** start is at its monitor, and the event timer is at pc. */
  function Armed(pc: TimerPc): State {
    State(None, if pc.Waiting? || pc.Fired? || pc.Queued? then None else Some(Thread(1)), false,
          if pc.Waiting? || pc.Fired? then Some(1) else None, None, map[0 := Hint(true), 1 := Timer(Event, pc, false)],
          StartMonitor, NoReader, false, false, false, pc.Scanning?)
  }

  function Undone(c: ControlPc): State {
    Armed(Scanning).(stopped := true, reader := Unstarted, control := c)
  }

  lemma InitReached()
    ensures RunTo(0, Init())
  {
    assert Run([Init()], RUN[..0]);
  }

  /** A thread is about to hint that there is something to reconcile, while start is at its monitor. */
  function Hinted(): State {
    Init().(stopped := false, control := StartMonitor, tasks := map[0 := Hint(false)])
  }

  lemma StartBegins()
    ensures RunTo(4, Hinted())
  {
    var flag := Init().(control := StartFlag(true));
    InitReached();
    hide RunTo;
    assert RunTo(1, flag) by { Next(0, Init(), flag); }
    LockNext(1, flag, Controller);
    assert RunTo(3, Init().(stopped := false, control := StartMonitor)) by {
      Next(2, flag.(lock := Some(Controller)), Init().(stopped := false, control := StartMonitor));
    }
    Next(3, Init().(stopped := false, control := StartMonitor), Hinted());
  }

  lemma HintStep()
    ensures var s := Hinted().(lock := Some(Thread(0)));
            Enabled(s, StepTask(0, true, 1)) && Do(s, StepTask(0, true, 1)) == Armed(Waiting)
  {
    var s := Hinted().(lock := Some(Thread(0)));
    assert !TimerAlive(s, s.eventTimer);
    assert Do(s, StepTask(0, true, 1)).tasks == Armed(Waiting).tasks;
  }

  lemma HintArms()
    ensures RunTo(6, Armed(Waiting))
  {
    StartBegins();
    HintStep();
    hide RunTo, Do, Enabled;
    LockNext(4, Hinted(), Thread(0));
    hide Hinted, Armed;
    Next(5, Hinted().(lock := Some(Thread(0))), Armed(Waiting));
  }

  function Follow(pc: TimerPc): TimerPc {
    match pc
    case Waiting => Fired
    case Fired => Queued
    case Queued => Checking
    case Checking => Probing
    case _ => Scanning
  }

  lemma TimerStep(pc: TimerPc)
    requires pc.Waiting? || pc.Fired? || pc.Queued? || pc.Checking? || pc.Probing?
    ensures var s := if pc.Fired? || pc.Checking? then Armed(pc).(lock := Some(Thread(1))) else Armed(pc);
            Enabled(s, StepTask(1, true, 2)) && Do(s, StepTask(1, true, 2)) == Armed(Follow(pc))
    ensures pc.Fired? || pc.Checking? ==> Enabled(Armed(pc), TakeLock(Thread(1)))
  {
    var s := if pc.Fired? || pc.Checking? then Armed(pc).(lock := Some(Thread(1))) else Armed(pc);
    assert DoTimer(s, 1, true, 2).tasks == Armed(Follow(pc)).tasks;
  }

  lemma TimerNext(k: nat, pc: TimerPc)
    requires RunTo(k, Armed(pc)) && (pc.Waiting? || pc.Queued? || pc.Probing?)
    requires k < |RUN| && RUN[k] == StepTask(1, true, 2)
    ensures RunTo(k + 1, Armed(Follow(pc)))
  {
    TimerStep(pc);
    hide RunTo, Armed, Do, Enabled;
    Next(k, Armed(pc), Armed(Follow(pc)));
  }

  lemma LockedTimerNext(k: nat, pc: TimerPc)
    requires RunTo(k, Armed(pc)) && (pc.Fired? || pc.Checking?)
    requires k + 1 < |RUN| && RUN[k] == TakeLock(Thread(1)) && RUN[k + 1] == StepTask(1, true, 2)
    ensures RunTo(k + 2, Armed(Follow(pc)))
  {
    TimerStep(pc);
    LockNext(k, Armed(pc), Thread(1));
    hide RunTo, Armed, Do, Enabled;
    Next(k + 1, Armed(pc).(lock := Some(Thread(1))), Armed(Follow(pc)));
  }

  lemma TimerScans()
    requires RunTo(6, Armed(Waiting))
    ensures RunTo(13, Armed(Scanning))
  {
    hide RunTo, Armed;
    TimerNext(6, Waiting);
    LockedTimerNext(7, Fired);
    TimerNext(9, Queued);
    LockedTimerNext(10, Checking);
    TimerNext(12, Probing);
  }

  lemma StartUndone()
    requires RunTo(13, Armed(Scanning))
    ensures RunTo(16, Undone(Idle(false)))
  {
    hide RunTo;
    var undoing := Armed(Scanning).(reader := Unstarted, control := StartUndo);
    Next(13, Armed(Scanning), undoing);
    LockNext(14, undoing, Controller);
    Next(15, undoing.(lock := Some(Controller)), Undone(Idle(false)));
  }

  lemma StopBegins()
    requires RunTo(16, Undone(Idle(false)))
    ensures RunTo(19, Undone(StopCancelScan(None, None)))
  {
    hide RunTo;
    Next(16, Undone(Idle(false)), Undone(StopFlag));
    LockNext(17, Undone(StopFlag), Controller);
    Next(18, Undone(StopFlag).(lock := Some(Controller)), Undone(StopCancelScan(None, None)));
  }

  lemma StopStopsTimers()
    requires RunTo(19, Undone(StopCancelScan(None, None)))
    ensures RunTo(23, Undone(StopJoinSafety(None)))
  {
    hide RunTo;
    Next(19, Undone(StopCancelScan(None, None)), Undone(StopCancelEvent(None, None)));
    Next(20, Undone(StopCancelEvent(None, None)), Undone(StopJoinEvent(None, None)));
    Next(21, Undone(StopJoinEvent(None, None)), Undone(StopCancelSafety(None)));
    Next(22, Undone(StopCancelSafety(None)), Undone(StopJoinSafety(None)));
  }

  lemma StopRaises()
    requires RunTo(23, Undone(StopJoinSafety(None)))
    ensures RunTo(27, Undone(Idle(false)).(monitorStop := true))
  {
    hide RunTo;
    Next(23, Undone(StopJoinSafety(None)), Undone(StopMonitorFlag));
    Next(24, Undone(StopMonitorFlag), Undone(StopMonitorKill).(monitorStop := true));
    Next(25, Undone(StopMonitorKill).(monitorStop := true), Undone(StopMonitorJoin).(monitorStop := true));
    Next(26, Undone(StopMonitorJoin).(monitorStop := true), Undone(Idle(false)).(monitorStop := true));
  }

  /**
    A stop that raises has waited for nobody: at the end of this run stop is over, while the timer that
    the undone start had left behind is inside its scan and holds the reconcile lock.
  */
  lemma StopCanLeaveScanRunning()
    ensures |RUN| == 27 && RUN[16].CallStop?
    ensures exists states: seq<State> ::
              && Run(states, RUN)
              && states[27].stopped && states[27].control == Idle(false) && states[27].reader.Unstarted?
              && states[27].reconcileLock == Some(Thread(1))
              && IsTimer(states[27], 1) && states[27].tasks[1].pc.Scanning?
  {
    HintArms();
    TimerScans();
    StartUndone();
    StopBegins();
    StopStopsTimers();
    StopRaises();
    assert RUN[..27] == RUN;
  }
}
