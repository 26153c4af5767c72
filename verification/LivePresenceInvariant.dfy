/** The inductive invariant of the live presence protocol. */
module LivePresenceInvariant {
  import opened Prelude
  import opened LivePresence

  // ------------------------------------------------------------ invariant

  /** Past the `_stopped` test of _reconcile. */
  predicate InBody(pc: TimerPc) {
    pc.Probing? || pc.Scanning? || pc.Judging? || pc.Notifying? || pc.Rescheduling?
  }

  predicate HoldsReconcile(pc: TimerPc) {
    pc.Checking? || InBody(pc) || pc.Releasing?
  }

  /** Not yet past the section that forgets the timer. */
  predicate Pending(pc: TimerPc) {
    pc.Waiting? || pc.Fired?
  }

  /** Will reach _schedule_periodic_safety_scan, or find the service stopped. */
  predicate OnSafetyPath(pc: TimerPc) {
    pc.Queued? || pc.Checking? || InBody(pc)
  }

  predicate Launching(c: ControlPc) {
    c.StartMonitor? || c.StartUndo? || c.StartSchedule?
  }

  predicate Stopping(c: ControlPc) {
    !c.Idle? && !c.StartFlag? && !c.StopFlag? && !Launching(c)
  }

  /** A stop has returned and no start has taken effect since. */
  predicate Quiet(c: ControlPc) {
    (c.Idle? || c.StartFlag?) && c.quiet
  }

  function SavedEvent(c: ControlPc): Option<Tid> {
    if c.StopCancelScan? || c.StopCancelEvent? || c.StopJoinEvent? then c.event else None
  }

  function SavedSafety(c: ControlPc): Option<Tid> {
    if c.StopCancelScan? || c.StopCancelEvent? || c.StopJoinEvent? || c.StopCancelSafety? || c.StopJoinSafety?
    then c.safety else None
  }

  type Tasks = map<Tid, Task>

  /** Exactly the holder of the reconcile lock is between its two ends, and scans happen there. */
  ghost predicate ReconcileLocked(holder: Option<Who>, controllerHolds: bool, tasks: Tasks, scanRunning: bool) {
    && (holder == Some(Controller) <==> controllerHolds)
    && holder != Some(Reader)
    && (forall t :: holder == Some(Thread(t)) ==> t in tasks && tasks[t].Timer?)
    && (forall t :: t in tasks && tasks[t].Timer? ==>
          (HoldsReconcile(tasks[t].pc) <==> holder == Some(Thread(t)))
          && (tasks[t].pc.Scanning? ==> scanRunning))
    && (scanRunning ==> holder.Some? && holder.value.Thread? && tasks[holder.value.t].pc.Scanning?)
  }

  ghost predicate FlagsAgree(c: ControlPc, stopped: bool) {
    && (Launching(c) ==> !stopped)
    && (Stopping(c) || Quiet(c) ==> stopped)
  }

  ghost predicate NobodyInBody(tasks: Tasks) {
    forall t :: t in tasks && tasks[t].Timer? ==> !InBody(tasks[t].pc)
  }

  predicate Serving(r: ReaderPc) {
    r.Rechecking? || r.Reading? || r.Dispatching? || r.Gate? || r.Writing? || r.Hinting?
  }

  predicate Alive(r: ReaderPc) {
    !r.NoReader? && !r.Unstarted? && !r.Done?
  }

  ghost predicate ReaderOwned(c: ControlPc, r: ReaderPc, stopped: bool, monitorStop: bool,
                              published: bool, childAlive: bool) {
    && (Alive(r) ==> (!stopped || Stopping(c)) && !c.StartMonitor? && !c.StartUndo?)
    && (c.StopMonitorClear? || c.StopWantReconcile? || c.StopHaveReconcile? ==> !Alive(r))
    && (Serving(r) ==> published)
    && (published ==> Serving(r) || r.Finishing?)
    && (c.StopMonitorKill? || c.StopMonitorJoin? ==> monitorStop)
    && (c.StopMonitorJoin? && childAlive && published ==> r.Rechecking? || r.Finishing?)
  }

  predicate Armed(tasks: Tasks, t: Tid, kind: Kind) {
    t in tasks && tasks[t].Timer? && tasks[t].kind == kind && Pending(tasks[t].pc) && !tasks[t].cancelled
  }

  /** `field` is the pending timer of this kind; `saved` is the one a stop has taken and will join. */
  ghost predicate OnePending(tasks: Tasks, kind: Kind, field: Option<Tid>, saved: Option<Tid>) {
    && (field.Some? ==> Armed(tasks, field.value, kind))
    && (saved.Some? ==> field.None? && saved.value in tasks && tasks[saved.value].Timer?
                        && tasks[saved.value].kind == kind)
    && (forall t :: t in tasks && tasks[t].Timer? && tasks[t].kind == kind && Pending(tasks[t].pc) ==>
          field == Some(t) || saved == Some(t))
  }

  ghost predicate SafetyPathKept(stopped: bool, launching: bool, safety: Option<Tid>, tasks: Tasks) {
    stopped || launching || safety.Some?
    || exists t :: t in tasks && tasks[t].Timer? && OnSafetyPath(tasks[t].pc)
  }

  ghost predicate Inv(s: State) {
    && (s.lock.Some? ==> NeedsLock(s, s.lock.value))
    && ReconcileLocked(s.reconcileLock, s.control.StopHaveReconcile?, s.tasks, s.scanRunning)
    && FlagsAgree(s.control, s.stopped)
    && (Quiet(s.control) || s.control.StopHaveReconcile? ==> NobodyInBody(s.tasks))
    && ReaderOwned(s.control, s.reader, s.stopped, s.monitorStop, s.published, s.childAlive)
    && OnePending(s.tasks, Event, s.eventTimer, SavedEvent(s.control))
    && OnePending(s.tasks, Safety, s.safetyTimer, SavedSafety(s.control))
    && SafetyPathKept(s.stopped, Launching(s.control), s.safetyTimer, s.tasks)
  }

  lemma Parts(s: State)
    requires Inv(s)
    ensures s.lock.Some? ==> NeedsLock(s, s.lock.value)
    ensures ReconcileLocked(s.reconcileLock, s.control.StopHaveReconcile?, s.tasks, s.scanRunning)
    ensures FlagsAgree(s.control, s.stopped)
    ensures Quiet(s.control) || s.control.StopHaveReconcile? ==> NobodyInBody(s.tasks)
    ensures ReaderOwned(s.control, s.reader, s.stopped, s.monitorStop, s.published, s.childAlive)
    ensures OnePending(s.tasks, Event, s.eventTimer, SavedEvent(s.control))
    ensures OnePending(s.tasks, Safety, s.safetyTimer, SavedSafety(s.control))
    ensures SafetyPathKept(s.stopped, Launching(s.control), s.safetyTimer, s.tasks)
  {
    hide ReconcileLocked, NobodyInBody, OnePending, SafetyPathKept, ReaderOwned, NeedsLock, FlagsAgree, Launching, Quiet, SavedEvent, SavedSafety;
  }

  lemma Whole(s: State)
    requires s.lock.Some? ==> NeedsLock(s, s.lock.value)
    requires ReconcileLocked(s.reconcileLock, s.control.StopHaveReconcile?, s.tasks, s.scanRunning)
    requires FlagsAgree(s.control, s.stopped)
    requires Quiet(s.control) || s.control.StopHaveReconcile? ==> NobodyInBody(s.tasks)
    requires ReaderOwned(s.control, s.reader, s.stopped, s.monitorStop, s.published, s.childAlive)
    requires OnePending(s.tasks, Event, s.eventTimer, SavedEvent(s.control))
    requires OnePending(s.tasks, Safety, s.safetyTimer, SavedSafety(s.control))
    requires SafetyPathKept(s.stopped, Launching(s.control), s.safetyTimer, s.tasks)
    ensures Inv(s)
  {
    hide ReconcileLocked, NobodyInBody, OnePending, SafetyPathKept, ReaderOwned, NeedsLock, FlagsAgree, Launching, Quiet, SavedEvent, SavedSafety;
  }

  // ---------------------------------------- how updates of tasks act on it

  lemma AddTimer(holder: Option<Who>, ch: bool, tasks: Tasks, sr: bool, t: Tid, kind: Kind)
    requires ReconcileLocked(holder, ch, tasks, sr) && t !in tasks
    ensures ReconcileLocked(holder, ch, tasks[t := Timer(kind, Waiting, false)], sr)
    ensures NobodyInBody(tasks) ==> NobodyInBody(tasks[t := Timer(kind, Waiting, false)])
  {
  }

  lemma AddOnePending(tasks: Tasks, t: Tid, kind: Kind, other: Kind, field: Option<Tid>, saved: Option<Tid>)
    requires t !in tasks && other != kind
    ensures OnePending(tasks, kind, None, None)
            ==> OnePending(tasks[t := Timer(kind, Waiting, false)], kind, Some(t), None)
    ensures OnePending(tasks, other, field, saved)
            ==> OnePending(tasks[t := Timer(kind, Waiting, false)], other, field, saved)
  {
  }

  lemma AddSafetyPath(stopped: bool, launching: bool, safety: Option<Tid>, tasks: Tasks, t: Tid, task: Task)
    requires t !in tasks || tasks[t].Hint?
    requires SafetyPathKept(stopped, launching, safety, tasks)
    ensures SafetyPathKept(stopped, launching, safety, tasks[t := task])
  {
    if u :| u in tasks && tasks[u].Timer? && OnSafetyPath(tasks[u].pc) {
      assert tasks[t := task][u] == tasks[u];
    }
  }

  lemma HintChanges(holder: Option<Who>, ch: bool, tasks: Tasks, sr: bool, t: Tid, done: bool,
                    kind: Kind, field: Option<Tid>, saved: Option<Tid>)
    requires t !in tasks || tasks[t].Hint?
    requires ReconcileLocked(holder, ch, tasks, sr) && OnePending(tasks, kind, field, saved)
    ensures ReconcileLocked(holder, ch, tasks[t := Hint(done)], sr)
    ensures NobodyInBody(tasks) ==> NobodyInBody(tasks[t := Hint(done)])
    ensures OnePending(tasks[t := Hint(done)], kind, field, saved)
  {
  }

  function AtPc(tasks: Tasks, t: Tid, pc: TimerPc): Tasks
    requires t in tasks && tasks[t].Timer?
  {
    tasks[t := tasks[t].(pc := pc)]
  }

  lemma MoveLocked(holder: Option<Who>, ch: bool, tasks: Tasks, sr: bool, t: Tid, pc: TimerPc)
    requires t in tasks && tasks[t].Timer? && ReconcileLocked(holder, ch, tasks, sr)
    requires HoldsReconcile(pc) == HoldsReconcile(tasks[t].pc)
    ensures !pc.Scanning? && !tasks[t].pc.Scanning? ==> ReconcileLocked(holder, ch, AtPc(tasks, t, pc), sr)
    ensures !pc.Scanning? && tasks[t].pc.Scanning? ==> ReconcileLocked(holder, ch, AtPc(tasks, t, pc), false)
    ensures pc.Scanning? && HoldsReconcile(tasks[t].pc) ==> ReconcileLocked(holder, ch, AtPc(tasks, t, pc), true)
    ensures !InBody(pc) && NobodyInBody(tasks) ==> NobodyInBody(AtPc(tasks, t, pc))
  {
  }

  lemma AcquireLocked(tasks: Tasks, sr: bool, t: Tid)
    requires t in tasks && tasks[t].Timer? && !tasks[t].pc.Scanning? && ReconcileLocked(None, false, tasks, sr)
    ensures ReconcileLocked(Some(Thread(t)), false, AtPc(tasks, t, Checking), sr)
    ensures NobodyInBody(tasks) ==> NobodyInBody(AtPc(tasks, t, Checking))
  {
  }

  lemma ReleaseLocked(holder: Option<Who>, ch: bool, tasks: Tasks, sr: bool, t: Tid)
    requires t in tasks && tasks[t].Timer? && tasks[t].pc.Releasing? && ReconcileLocked(holder, ch, tasks, sr)
    ensures ReconcileLocked(None, ch, AtPc(tasks, t, Ended), sr)
    ensures NobodyInBody(tasks) ==> NobodyInBody(AtPc(tasks, t, Ended))
  {
  }

  lemma StayPending(tasks: Tasks, t: Tid, pc: TimerPc, kind: Kind, field: Option<Tid>, saved: Option<Tid>)
    requires t in tasks && tasks[t].Timer? && OnePending(tasks, kind, field, saved)
    requires Pending(pc) ==> Pending(tasks[t].pc)
    requires field == Some(t) ==> Pending(pc)
    ensures OnePending(AtPc(tasks, t, pc), kind, field, saved)
  {
  }

  lemma ForgetPending(tasks: Tasks, t: Tid, pc: TimerPc, field: Option<Tid>, saved: Option<Tid>)
    requires t in tasks && tasks[t].Timer? && Pending(tasks[t].pc) && !Pending(pc)
    requires OnePending(tasks, tasks[t].kind, field, saved)
    ensures OnePending(AtPc(tasks, t, pc), tasks[t].kind, None, saved)
  {
  }

  lemma MoveSafetyPath(stopped: bool, launching: bool, safety: Option<Tid>, after: Option<Tid>,
                       tasks: Tasks, t: Tid, pc: TimerPc)
    requires t in tasks && tasks[t].Timer? && SafetyPathKept(stopped, launching, safety, tasks)
    requires stopped || after.Some? || OnSafetyPath(pc) || (after == safety && !OnSafetyPath(tasks[t].pc))
    ensures SafetyPathKept(stopped, launching, after, AtPc(tasks, t, pc))
  {
    if OnSafetyPath(pc) {
      assert AtPc(tasks, t, pc)[t].pc == pc;
    } else if u :| u in tasks && tasks[u].Timer? && OnSafetyPath(tasks[u].pc) {
      assert u != t ==> AtPc(tasks, t, pc)[u] == tasks[u];
    }
  }

  function Cancelled(tasks: Tasks, t: Tid): Tasks
    requires t in tasks && tasks[t].Timer?
  {
    tasks[t := tasks[t].(cancelled := true)]
  }

  lemma CancelKeeps(holder: Option<Who>, ch: bool, tasks: Tasks, sr: bool, t: Tid,
                    event: Option<Tid>, savedEvent: Option<Tid>, safety: Option<Tid>, savedSafety: Option<Tid>)
    requires t in tasks && tasks[t].Timer? && event != Some(t) && safety != Some(t)
    requires ReconcileLocked(holder, ch, tasks, sr)
    requires OnePending(tasks, Event, event, savedEvent) && OnePending(tasks, Safety, safety, savedSafety)
    ensures ReconcileLocked(holder, ch, Cancelled(tasks, t), sr)
    ensures NobodyInBody(tasks) ==> NobodyInBody(Cancelled(tasks, t))
    ensures OnePending(Cancelled(tasks, t), Event, event, savedEvent)
    ensures OnePending(Cancelled(tasks, t), Safety, safety, savedSafety)
  {
  }

  /** A stop takes the field over, and lets go of it once the timer has ended. */
  lemma TakeAndJoin(tasks: Tasks, kind: Kind, field: Option<Tid>, saved: Option<Tid>)
    ensures OnePending(tasks, kind, field, None) ==> OnePending(tasks, kind, None, field)
    ensures OnePending(tasks, kind, field, saved) && (saved.Some? ==> tasks[saved.value].pc.Ended?)
            ==> OnePending(tasks, kind, field, None)
  {
  }

  lemma FieldIsArmed(tasks: Tasks, kind: Kind, field: Option<Tid>, saved: Option<Tid>)
    requires OnePending(tasks, kind, field, saved)
    ensures field.Some? ==> Armed(tasks, field.value, kind)
    ensures saved.Some? ==> field.None? && saved.value in tasks && tasks[saved.value].Timer?
                            && tasks[saved.value].kind == kind
  {
  }

  /** While the controller holds the reconcile lock, or it is free, no scan section is running. */
  lemma NoTimerHolds(holder: Option<Who>, ch: bool, tasks: Tasks, sr: bool)
    requires ReconcileLocked(holder, ch, tasks, sr)
    ensures holder == Some(Controller) <==> ch
    ensures holder.None? || ch ==> NobodyInBody(tasks)
    ensures holder.None? ==> ReconcileLocked(Some(Controller), true, tasks, sr)
    ensures ch ==> ReconcileLocked(None, false, tasks, sr)
  {
  }

  lemma LockHolder(s: State, t: Tid)
    requires t in s.tasks && s.tasks[t].Timer?
    requires ReconcileLocked(s.reconcileLock, s.control.StopHaveReconcile?, s.tasks, s.scanRunning)
    ensures HoldsReconcile(s.tasks[t].pc) ==> s.reconcileLock == Some(Thread(t))
    ensures s.tasks[t].pc.Scanning? ==> s.scanRunning
    ensures HoldsReconcile(s.tasks[t].pc) && !s.tasks[t].pc.Scanning? ==> !s.scanRunning
  {
  }

  // ----------------------------------------------------- it is inductive

  /** A holder of `_lock` other than the thread that moves still needs it. */
  lemma OtherHolder(s: State, s': State, who: Who)
    requires s.lock.Some? ==> NeedsLock(s, s.lock.value)
    requires s'.lock.None? || (s'.lock == s.lock && s.lock != Some(who))
    requires who != Controller ==> s'.control == s.control
    requires who != Reader ==> s'.reader == s.reader
    requires forall t :: t in s.tasks && who != Thread(t) ==> t in s'.tasks && (InSection(s.tasks[t]) ==> InSection(s'.tasks[t]))
    ensures s'.lock.Some? ==> NeedsLock(s', s'.lock.value)
  {
  }

  lemma OutsideSection(s: State, t: Tid)
    requires s.lock.Some? ==> NeedsLock(s, s.lock.value)
    requires t in s.tasks && !InSection(s.tasks[t])
    ensures s.lock != Some(Thread(t))
  {
  }

  lemma RequestKeepsInv(s: State, spawned: Tid)
    requires Inv(s) && spawned !in s.tasks
    ensures Inv(RequestReconcile(s, spawned).(lock := None))
  {
    hide ReconcileLocked, NobodyInBody, SafetyPathKept, OnePending, ReaderOwned;
    FieldIsArmed(s.tasks, Event, s.eventTimer, SavedEvent(s.control));
    if !s.stopped && !TimerAlive(s, s.eventTimer) {
      AddTimer(s.reconcileLock, s.control.StopHaveReconcile?, s.tasks, s.scanRunning, spawned, Event);
      AddOnePending(s.tasks, spawned, Event, Safety, s.safetyTimer, SavedSafety(s.control));
      AddSafetyPath(s.stopped, Launching(s.control), s.safetyTimer, s.tasks, spawned, Timer(Event, Waiting, false));
    }
  }

  lemma ScheduleKeepsInv(s: State, spawned: Tid)
    requires Inv(s) && spawned !in s.tasks
    ensures Inv(ScheduleSafety(s, spawned).(lock := None))
    ensures s.stopped || ScheduleSafety(s, spawned).safetyTimer.Some?
  {
    hide ReconcileLocked, NobodyInBody, OnePending, ReaderOwned;
    FieldIsArmed(s.tasks, Safety, s.safetyTimer, SavedSafety(s.control));
    if !s.stopped && !TimerAlive(s, s.safetyTimer) {
      AddTimer(s.reconcileLock, s.control.StopHaveReconcile?, s.tasks, s.scanRunning, spawned, Safety);
      AddOnePending(s.tasks, spawned, Safety, Event, s.eventTimer, SavedEvent(s.control));
    }
  }

  lemma HintKeepsInv(s: State, t: Tid, done: bool)
    requires Inv(s.(lock := None)) && (t !in s.tasks || s.tasks[t].Hint?)
    ensures Inv(s.(lock := None, tasks := s.tasks[t := Hint(done)]))
  {
    hide ReconcileLocked, NobodyInBody, SafetyPathKept, OnePending, ReaderOwned;
    HintChanges(s.reconcileLock, s.control.StopHaveReconcile?, s.tasks, s.scanRunning, t, done,
                Event, s.eventTimer, SavedEvent(s.control));
    HintChanges(s.reconcileLock, s.control.StopHaveReconcile?, s.tasks, s.scanRunning, t, done,
                Safety, s.safetyTimer, SavedSafety(s.control));
    AddSafetyPath(s.stopped, Launching(s.control), s.safetyTimer, s.tasks, t, Hint(done));
  }

  ghost predicate Owned(s: State) {
    ReaderOwned(s.control, s.reader, s.stopped, s.monitorStop, s.published, s.childAlive)
  }

  lemma StartKeepsReader(s: State, ok: bool, spawned: Tid)
    requires Owned(s) && FlagsAgree(s.control, s.stopped)
    requires Enabled(s, StepController(ok, spawned)) && (s.control.StartFlag? || Launching(s.control))
    ensures Owned(DoController(s, ok, spawned))
  {
  }

  lemma StopKeepsReader(s: State, ok: bool, spawned: Tid)
    requires Owned(s) && FlagsAgree(s.control, s.stopped)
    requires Enabled(s, StepController(ok, spawned)) && StoppingMonitor(s.control)
    ensures Owned(DoController(s, ok, spawned))
    ensures s.control.StopMonitorClear? ==> !Alive(s.reader)
  {
  }

  predicate StoppingMonitor(c: ControlPc) {
    c.StopMonitorFlag? || c.StopMonitorKill? || c.StopMonitorJoin? || c.StopMonitorClear?
    || c.StopWantReconcile? || c.StopHaveReconcile?
  }

  lemma ServingKeepsReader(s: State, ok: bool, spawned: Tid)
    requires Owned(s) && Enabled(s, StepReader(ok, spawned)) && Serving(s.reader)
    ensures Owned(DoReader(s, ok, spawned))
  {
  }

  lemma OtherwiseKeepsReader(s: State, ok: bool, spawned: Tid)
    requires Owned(s) && Enabled(s, StepReader(ok, spawned)) && !Serving(s.reader)
    ensures Owned(DoReader(s, ok, spawned))
  {
  }

  lemma TimersKeepReader(s: State, c: ControlPc)
    requires Owned(s) && StoppingTimers(s.control) && (StoppingTimers(c) || c.StopMonitorFlag?)
    ensures Owned(s.(control := c))
  {
  }

  predicate StoppingTimers(c: ControlPc) {
    c.StopCancelScan? || c.StopCancelEvent? || c.StopJoinEvent? || c.StopCancelSafety? || c.StopJoinSafety?
  }

  lemma StartKeepsInv(s: State, ok: bool, spawned: Tid)
    requires Inv(s) && Enabled(s, StepController(ok, spawned))
    requires s.control.StartFlag? || s.control.StartUndo?
    ensures Inv(DoController(s, ok, spawned))
  {
    hide ReconcileLocked, NobodyInBody, OnePending, ReaderOwned, ScheduleSafety, Cancel, OnSafetyPath, InSection;
    StartKeepsReader(s, ok, spawned);
    match s.control
    case StartFlag(_) =>
    case StartUndo =>
  }

  lemma StartMonitorKeepsInv(s: State, ok: bool, spawned: Tid)
    requires Inv(s) && Enabled(s, StepController(ok, spawned)) && s.control.StartMonitor?
    ensures Inv(DoController(s, ok, spawned))
  {
    hide ReconcileLocked, NobodyInBody, OnePending, ReaderOwned, ScheduleSafety, Cancel, OnSafetyPath, InSection;
    StartKeepsReader(s, ok, spawned);
  }

  lemma StartScheduleKeepsInv(s: State, ok: bool, spawned: Tid)
    requires Inv(s) && Enabled(s, StepController(ok, spawned)) && s.control.StartSchedule?
    ensures Inv(DoController(s, ok, spawned))
  {
    hide ReconcileLocked, NobodyInBody, OnePending, ReaderOwned;
    StartKeepsReader(s, ok, spawned);
    ScheduleKeepsInv(s, spawned);
  }

  lemma StopFlagKeepsInv(s: State, ok: bool, spawned: Tid)
    requires Inv(s) && Enabled(s, StepController(ok, spawned)) && s.control.StopFlag?
    ensures Inv(DoController(s, ok, spawned))
  {
    hide ReconcileLocked, NobodyInBody, OnePending;
    FieldIsArmed(s.tasks, Event, s.eventTimer, None);
    TakeAndJoin(s.tasks, Event, s.eventTimer, None);
    TakeAndJoin(s.tasks, Safety, s.safetyTimer, None);
  }

  lemma JoinStep(s: State, next: ControlPc)
    requires Inv(s) && s.lock != Some(Controller)
    requires StoppingTimers(s.control) && (StoppingTimers(next) || next.StopMonitorFlag?)
    requires SavedEvent(next) == SavedEvent(s.control)
             || (SavedEvent(next).None? && !TimerAlive(s, SavedEvent(s.control)))
    requires SavedSafety(next) == SavedSafety(s.control)
             || (SavedSafety(next).None? && !TimerAlive(s, SavedSafety(s.control)))
    ensures Inv(s.(control := next))
  {
    hide ReconcileLocked, NobodyInBody, OnePending, ReaderOwned;
    var e, f := SavedEvent(s.control), SavedSafety(s.control);
    FieldIsArmed(s.tasks, Event, s.eventTimer, e);
    FieldIsArmed(s.tasks, Safety, s.safetyTimer, f);
    TimersKeepReader(s, next);
    TakeAndJoin(s.tasks, Event, s.eventTimer, e);
    TakeAndJoin(s.tasks, Safety, s.safetyTimer, f);
  }

  lemma CancelStep(s: State, timer: Tid, next: ControlPc)
    requires Inv(s) && s.lock != Some(Controller)
    requires StoppingTimers(s.control) && StoppingTimers(next)
    requires SavedEvent(next) == SavedEvent(s.control) && SavedSafety(next) == SavedSafety(s.control)
    requires Some(timer) == SavedEvent(s.control) || Some(timer) == SavedSafety(s.control)
    requires timer in s.tasks && s.tasks[timer].Timer?
    ensures Inv(s.(tasks := Cancelled(s.tasks, timer), control := next))
  {
    hide ReconcileLocked, NobodyInBody, OnePending, ReaderOwned, SafetyPathKept, NeedsLock;
    var e, f := SavedEvent(s.control), SavedSafety(s.control);
    FieldIsArmed(s.tasks, Event, s.eventTimer, e);
    FieldIsArmed(s.tasks, Safety, s.safetyTimer, f);
    TimersKeepReader(s, next);
    CancelKeeps(s.reconcileLock, false, s.tasks, s.scanRunning, timer, s.eventTimer, e, s.safetyTimer, f);
    StoppedKeepsPath(false, s.safetyTimer, Cancelled(s.tasks, timer));
    OtherHolder(s, s.(tasks := Cancelled(s.tasks, timer), control := next), Controller);
  }

  lemma StoppedKeepsPath(launching: bool, safety: Option<Tid>, tasks: Tasks)
    ensures SafetyPathKept(true, launching, safety, tasks)
  {
  }

  lemma SavedTimersExist(s: State)
    requires Inv(s)
    ensures SavedEvent(s.control).Some? ==> IsTimer(s, SavedEvent(s.control).value)
    ensures SavedSafety(s.control).Some? ==> IsTimer(s, SavedSafety(s.control).value)
    ensures StoppingTimers(s.control) ==> s.lock != Some(Controller)
  {
  }

  lemma StopEventTimerKeepsInv(s: State, ok: bool, spawned: Tid)
    requires Inv(s) && Enabled(s, StepController(ok, spawned))
    requires s.control.StopCancelScan? || s.control.StopCancelEvent? || s.control.StopJoinEvent?
    ensures Inv(DoController(s, ok, spawned))
  {
    hide Inv;
    SavedTimersExist(s);
    match s.control
    case StopCancelScan(e, f) => JoinStep(s, StopCancelEvent(e, f));
    case StopCancelEvent(e, f) =>
      if e.Some? {
        CancelStep(s, e.value, StopJoinEvent(e, f));
      } else {
        JoinStep(s, StopJoinEvent(e, f));
      }
    case StopJoinEvent(_, f) => JoinStep(s, StopCancelSafety(f));
  }

  lemma StopSafetyTimerKeepsInv(s: State, ok: bool, spawned: Tid)
    requires Inv(s) && Enabled(s, StepController(ok, spawned))
    requires s.control.StopCancelSafety? || s.control.StopJoinSafety?
    ensures Inv(DoController(s, ok, spawned))
  {
    hide Inv;
    SavedTimersExist(s);
    match s.control
    case StopCancelSafety(f) =>
      if f.Some? {
        CancelStep(s, f.value, StopJoinSafety(f));
      } else {
        JoinStep(s, StopJoinSafety(f));
      }
    case StopJoinSafety(_) => JoinStep(s, StopMonitorFlag);
  }

  predicate StoppingReader(c: ControlPc) {
    c.StopMonitorFlag? || c.StopMonitorKill? || c.StopMonitorJoin? || c.StopMonitorClear?
  }

  lemma StopReaderKeepsInv(s: State, ok: bool, spawned: Tid)
    requires Inv(s) && Enabled(s, StepController(ok, spawned)) && StoppingReader(s.control)
    ensures Inv(DoController(s, ok, spawned))
  {
    hide ReconcileLocked, NobodyInBody, OnePending, ReaderOwned, SafetyPathKept;
    StopKeepsReader(s, ok, spawned);
  }

  lemma StopLockKeepsInv(s: State, ok: bool, spawned: Tid)
    requires Inv(s) && Enabled(s, StepController(ok, spawned))
    requires s.control.StopWantReconcile? || s.control.StopHaveReconcile?
    ensures Inv(DoController(s, ok, spawned))
  {
    hide ReconcileLocked, NobodyInBody, OnePending, ReaderOwned, SafetyPathKept;
    StopKeepsReader(s, ok, spawned);
    NoTimerHolds(s.reconcileLock, s.control.StopHaveReconcile?, s.tasks, s.scanRunning);
  }

  predicate SameOutsideReader(s: State, s': State) {
    && s'.reconcileLock == s.reconcileLock && s'.stopped == s.stopped && s'.control == s.control
    && s'.eventTimer == s.eventTimer && s'.safetyTimer == s.safetyTimer
    && s'.tasks == s.tasks && s'.monitorStop == s.monitorStop && s'.scanRunning == s.scanRunning
  }

  /** Steps of the reader outside request_reconcile touch four fields. */
  lemma ServingFrame(s: State, ok: bool, spawned: Tid)
    requires Serving(s.reader) && !s.reader.Hinting?
    ensures SameOutsideReader(s, DoReader(s, ok, spawned))
    ensures DoReader(s, ok, spawned).lock == if s.reader.Gate? then None else s.lock
  {
  }

  lemma OtherwiseFrame(s: State, ok: bool, spawned: Tid)
    requires !Serving(s.reader)
    ensures SameOutsideReader(s, DoReader(s, ok, spawned))
    ensures DoReader(s, ok, spawned).lock == s.lock
  {
    hide RequestReconcile;
    match s.reader
    case NoReader | Unstarted | Starting | Spawning =>
    case _ =>
  }

  lemma HintingStep(s: State, ok: bool, spawned: Tid)
    requires s.reader.Hinting?
    ensures DoReader(s, ok, spawned) == RequestReconcile(s, spawned).(lock := None, reader := Reading)
  {
  }

  lemma ReaderKeepsInv(s: State, ok: bool, spawned: Tid)
    requires Inv(s) && Enabled(s, StepReader(ok, spawned))
    ensures Inv(DoReader(s, ok, spawned))
  {
    hide ReconcileLocked, NobodyInBody, OnePending, SafetyPathKept, ReaderOwned, DoReader;
    if s.reader.Hinting? {
      ServingKeepsReader(s, ok, spawned);
      RequestKeepsInv(s, spawned);
      HintingStep(s, ok, spawned);
    } else {
      if Serving(s.reader) {
        ServingKeepsReader(s, ok, spawned);
        ServingFrame(s, ok, spawned);
      } else {
        OtherwiseKeepsReader(s, ok, spawned);
        OtherwiseFrame(s, ok, spawned);
      }
      OtherHolder(s, DoReader(s, ok, spawned), Reader);
    }
  }

  /** What a step of one timer must show about the parts of the invariant that it can touch. */
  lemma MovedWhole(s: State, next: State, t: Tid)
    requires Inv(s) && IsTimer(s, t) && IsTimer(next, t)
    requires next.tasks == AtPc(s.tasks, t, next.tasks[t].pc)
    requires next == s.(tasks := next.tasks, lock := next.lock, scanRunning := next.scanRunning,
                        reconcileLock := next.reconcileLock, eventTimer := next.eventTimer, safetyTimer := next.safetyTimer)
    requires next.lock.None? || (next.lock == s.lock && s.lock != Some(Thread(t)))
    requires ReconcileLocked(next.reconcileLock, s.control.StopHaveReconcile?, next.tasks, next.scanRunning)
    requires Quiet(s.control) || s.control.StopHaveReconcile? ==> NobodyInBody(next.tasks)
    requires OnePending(next.tasks, Event, next.eventTimer, SavedEvent(s.control))
    requires OnePending(next.tasks, Safety, next.safetyTimer, SavedSafety(s.control))
    requires SafetyPathKept(s.stopped, Launching(s.control), next.safetyTimer, next.tasks)
    ensures Inv(next)
  {
    hide Inv, ReconcileLocked, NobodyInBody, OnePending, SafetyPathKept, ReaderOwned, NeedsLock, FlagsAgree,
         Launching, Quiet, SavedEvent, SavedSafety;
    Parts(s);
    OtherHolder(s, next, Thread(t));
    Whole(next);
  }

  /** A move that neither fires a pending timer nor takes or frees the reconcile lock. */
  lemma MoveKeepsInv(s: State, t: Tid, pc: TimerPc)
    requires Inv(s) && t in s.tasks && s.tasks[t].Timer?
    requires HoldsReconcile(pc) == HoldsReconcile(s.tasks[t].pc)
    requires Pending(pc) ==> Pending(s.tasks[t].pc)
    requires s.eventTimer == Some(t) || s.safetyTimer == Some(t) ==> Pending(pc)
    requires InBody(pc) ==> InBody(s.tasks[t].pc) || !s.stopped
    requires pc.Scanning? ==> !s.scanRunning && HoldsReconcile(s.tasks[t].pc)
    requires s.stopped || s.safetyTimer.Some? || OnSafetyPath(pc) || !OnSafetyPath(s.tasks[t].pc)
    ensures Inv(SetPc(s, t, pc).(lock := if s.lock == Some(Thread(t)) then None else s.lock,
                                 scanRunning := pc.Scanning? || (s.scanRunning && !s.tasks[t].pc.Scanning?)))
  {
    Parts(s);
    hide Inv, ReconcileLocked, NobodyInBody, OnePending, SafetyPathKept, ReaderOwned, NeedsLock, FlagsAgree,
         HoldsReconcile, InBody, Pending, OnSafetyPath, Launching, Quiet, SavedEvent, SavedSafety, AtPc, InSection;
    MoveLockedTo(s, t, pc);
    StayPending(s.tasks, t, pc, Event, s.eventTimer, SavedEvent(s.control));
    StayPending(s.tasks, t, pc, Safety, s.safetyTimer, SavedSafety(s.control));
    MoveSafetyPath(s.stopped, Launching(s.control), s.safetyTimer, s.safetyTimer, s.tasks, t, pc);
    SetPcIsAtPc(s, t, pc);
    MovedWhole(s, SetPc(s, t, pc).(lock := if s.lock == Some(Thread(t)) then None else s.lock,
                                   scanRunning := pc.Scanning? || (s.scanRunning && !s.tasks[t].pc.Scanning?)), t);
  }

  lemma SetPcIsAtPc(s: State, t: Tid, pc: TimerPc)
    requires IsTimer(s, t)
    ensures SetPc(s, t, pc) == s.(tasks := AtPc(s.tasks, t, pc))
  {
  }

  lemma MoveLockedTo(s: State, t: Tid, pc: TimerPc)
    requires IsTimer(s, t)
    requires ReconcileLocked(s.reconcileLock, s.control.StopHaveReconcile?, s.tasks, s.scanRunning)
    requires FlagsAgree(s.control, s.stopped)
    requires Quiet(s.control) || s.control.StopHaveReconcile? ==> NobodyInBody(s.tasks)
    requires HoldsReconcile(pc) == HoldsReconcile(s.tasks[t].pc)
    requires InBody(pc) ==> InBody(s.tasks[t].pc) || !s.stopped
    requires pc.Scanning? ==> !s.scanRunning && HoldsReconcile(s.tasks[t].pc)
    ensures ReconcileLocked(s.reconcileLock, s.control.StopHaveReconcile?, AtPc(s.tasks, t, pc),
                            pc.Scanning? || (s.scanRunning && !s.tasks[t].pc.Scanning?))
    ensures Quiet(s.control) || s.control.StopHaveReconcile? ==> NobodyInBody(AtPc(s.tasks, t, pc))
  {
    hide ReconcileLocked, NobodyInBody, FlagsAgree, HoldsReconcile, InBody, Quiet, AtPc;
    LockHolder(s, t);
    BodyMeansBusy(s.tasks, t);
    FlagsForBody(s);
    MoveLocked(s.reconcileLock, s.control.StopHaveReconcile?, s.tasks, s.scanRunning, t, pc);
  }

  lemma FlagsForBody(s: State)
    requires FlagsAgree(s.control, s.stopped)
    ensures Quiet(s.control) || s.control.StopHaveReconcile? ==> s.stopped
  {
  }

  lemma BodyMeansBusy(tasks: Tasks, t: Tid)
    requires t in tasks && tasks[t].Timer?
    ensures InBody(tasks[t].pc) ==> !NobodyInBody(tasks)
  {
  }

  /** The parts that read the tasks, when a fired timer forgets itself and moves on to pc. */
  lemma FiredParts(s: State, t: Tid, pc: TimerPc)
    requires Inv(s) && IsTimer(s, t) && s.tasks[t].pc.Fired? && (pc.Queued? || (pc.Ended? && s.stopped))
    ensures var event, moved := s.tasks[t].kind.Event?, AtPc(s.tasks, t, pc);
            && ReconcileLocked(s.reconcileLock, s.control.StopHaveReconcile?, moved, s.scanRunning)
            && (Quiet(s.control) || s.control.StopHaveReconcile? ==> NobodyInBody(moved))
            && OnePending(moved, Event, if event then None else s.eventTimer, SavedEvent(s.control))
            && OnePending(moved, Safety, if event then s.safetyTimer else None, SavedSafety(s.control))
            && SafetyPathKept(s.stopped, Launching(s.control), if event then s.safetyTimer else None, moved)
  {
    Parts(s);
    hide ReconcileLocked, NobodyInBody, OnePending, SafetyPathKept, ReaderOwned, NeedsLock, FlagsAgree,
         Launching, Quiet, SavedEvent, SavedSafety, AtPc;
    MoveLocked(s.reconcileLock, s.control.StopHaveReconcile?, s.tasks, s.scanRunning, t, pc);
    if s.tasks[t].kind.Event? {
      FieldIsArmed(s.tasks, Safety, s.safetyTimer, SavedSafety(s.control));
      ForgetPending(s.tasks, t, pc, s.eventTimer, SavedEvent(s.control));
      StayPending(s.tasks, t, pc, Safety, s.safetyTimer, SavedSafety(s.control));
      MoveSafetyPath(s.stopped, Launching(s.control), s.safetyTimer, s.safetyTimer, s.tasks, t, pc);
    } else {
      FieldIsArmed(s.tasks, Event, s.eventTimer, SavedEvent(s.control));
      ForgetPending(s.tasks, t, pc, s.safetyTimer, SavedSafety(s.control));
      StayPending(s.tasks, t, pc, Event, s.eventTimer, SavedEvent(s.control));
      MoveSafetyPath(s.stopped, Launching(s.control), s.safetyTimer, None, s.tasks, t, pc);
    }
  }

  lemma EventFiredKeepsInv(s: State, t: Tid)
    requires IsTimer(s, t) && Inv(s)
    requires s.tasks[t].pc.Fired? && s.tasks[t].kind.Event?
    ensures Inv(SetPc(s, t, Queued).(lock := None, eventTimer := None))
  {
    hide Inv, ReconcileLocked, NobodyInBody, OnePending, SafetyPathKept;
    FiredParts(s, t, Queued);
    MovedWhole(s, SetPc(s, t, Queued).(lock := None, eventTimer := None), t);
  }

  lemma SafetyFiredKeepsInv(s: State, t: Tid)
    requires IsTimer(s, t) && Inv(s)
    requires s.tasks[t].pc.Fired? && s.tasks[t].kind.Safety?
    ensures Inv(SetPc(s, t, if s.stopped then Ended else Queued).(lock := None, safetyTimer := None))
  {
    hide Inv, ReconcileLocked, NobodyInBody, OnePending, SafetyPathKept;
    var pc := if s.stopped then Ended else Queued;
    FiredParts(s, t, pc);
    MovedWhole(s, SetPc(s, t, pc).(lock := None, safetyTimer := None), t);
  }

  lemma AcquireKeepsInv(s: State, t: Tid)
    requires Inv(s) && IsTimer(s, t) && s.tasks[t].pc.Queued?
    requires s.reconcileLock.None?
    ensures Inv(s.(tasks := AtPc(s.tasks, t, Checking), reconcileLock := Some(Thread(t))))
  {
    Parts(s);
    hide Inv, ReconcileLocked, NobodyInBody, OnePending, SafetyPathKept, ReaderOwned, NeedsLock, FlagsAgree,
         Launching, Quiet, SavedEvent, SavedSafety;
    FieldIsArmed(s.tasks, Event, s.eventTimer, SavedEvent(s.control));
    FieldIsArmed(s.tasks, Safety, s.safetyTimer, SavedSafety(s.control));
    NoTimerHolds(s.reconcileLock, s.control.StopHaveReconcile?, s.tasks, s.scanRunning);
    LockHolder(s, t);
    AcquireLocked(s.tasks, s.scanRunning, t);
    StayPending(s.tasks, t, Checking, Event, s.eventTimer, SavedEvent(s.control));
    StayPending(s.tasks, t, Checking, Safety, s.safetyTimer, SavedSafety(s.control));
    MoveSafetyPath(s.stopped, Launching(s.control), s.safetyTimer, s.safetyTimer, s.tasks, t, Checking);
    OutsideSection(s, t);
    MovedWhole(s, s.(tasks := AtPc(s.tasks, t, Checking), reconcileLock := Some(Thread(t))), t);
  }

  lemma ReleaseKeepsInv(s: State, t: Tid)
    requires Inv(s) && IsTimer(s, t) && s.tasks[t].pc.Releasing?
    ensures Inv(s.(tasks := AtPc(s.tasks, t, Ended), reconcileLock := None))
  {
    Parts(s);
    hide Inv, ReconcileLocked, NobodyInBody, OnePending, SafetyPathKept, ReaderOwned, NeedsLock, FlagsAgree,
         Launching, Quiet, SavedEvent, SavedSafety;
    FieldIsArmed(s.tasks, Event, s.eventTimer, SavedEvent(s.control));
    FieldIsArmed(s.tasks, Safety, s.safetyTimer, SavedSafety(s.control));
    ReleaseLocked(s.reconcileLock, s.control.StopHaveReconcile?, s.tasks, s.scanRunning, t);
    StayPending(s.tasks, t, Ended, Event, s.eventTimer, SavedEvent(s.control));
    StayPending(s.tasks, t, Ended, Safety, s.safetyTimer, SavedSafety(s.control));
    MoveSafetyPath(s.stopped, Launching(s.control), s.safetyTimer, s.safetyTimer, s.tasks, t, Ended);
    OutsideSection(s, t);
    MovedWhole(s, s.(tasks := AtPc(s.tasks, t, Ended), reconcileLock := None), t);
  }

  lemma TimerFacts(s: State, t: Tid)
    requires Inv(s) && IsTimer(s, t)
    ensures HoldsReconcile(s.tasks[t].pc) && !s.tasks[t].pc.Scanning? ==> !s.scanRunning
    ensures s.eventTimer == Some(t) || s.safetyTimer == Some(t) ==> Pending(s.tasks[t].pc) && !s.tasks[t].cancelled
    ensures !InSection(s.tasks[t]) ==> s.lock != Some(Thread(t))
    ensures s.tasks[t].pc.Scanning? ==> s.scanRunning
  {
  }

  lemma RescheduleKeepsInv(s: State, t: Tid, spawned: Tid)
    requires IsTimer(s, t) && Inv(s) && spawned !in s.tasks && s.tasks[t].pc.Rescheduling?
    ensures Inv(SetPc(ScheduleSafety(s, spawned), t, Releasing).(lock := None))
  {
    hide Inv;
    TimerFacts(s, t);
    ScheduleKeepsInv(s, spawned);
    var scheduled := ScheduleSafety(s, spawned).(lock := None);
    TimerFacts(scheduled, t);
    MoveKeepsInv(scheduled, t, Releasing);
  }

  /** The steps of a timer that only move its program counter and the scan flag. */
  lemma PlainStepKeepsInv(s: State, t: Tid, ok: bool, spawned: Tid)
    requires IsTimer(s, t) && Inv(s) && Enabled(s, StepTask(t, ok, spawned))
    requires var pc := s.tasks[t].pc; !pc.Fired? && !pc.Queued? && !pc.Releasing? && !pc.Rescheduling?
    ensures Inv(DoTimer(s, t, ok, spawned))
  {
    hide Inv, ScheduleSafety;
    TimerFacts(s, t);
    match s.tasks[t].pc
    case Waiting => MoveKeepsInv(s, t, if s.tasks[t].cancelled then Ended else Fired);
    case Checking => MoveKeepsInv(s, t, if s.stopped then Releasing else Probing);
    case Probing => MoveKeepsInv(s, t, if s.scanRunning then Rescheduling else Scanning);
    case Scanning => MoveKeepsInv(s, t, if ok then Judging else Rescheduling);
    case Judging => MoveKeepsInv(s, t, if !s.stopped && ok then Notifying else Rescheduling);
    case Notifying => MoveKeepsInv(s, t, Rescheduling);
  }

  lemma TimerKeepsInv(s: State, t: Tid, ok: bool, spawned: Tid)
    requires t in s.tasks && s.tasks[t].Timer? && Inv(s) && Enabled(s, StepTask(t, ok, spawned))
    ensures Inv(DoTimer(s, t, ok, spawned))
  {
    hide Inv, ScheduleSafety;
    match s.tasks[t].pc
    case Fired =>
      if s.tasks[t].kind.Event? {
        EventFiredKeepsInv(s, t);
      } else {
        SafetyFiredKeepsInv(s, t);
      }
    case Queued => AcquireKeepsInv(s, t);
    case Releasing => ReleaseKeepsInv(s, t);
    case Rescheduling => RescheduleKeepsInv(s, t, spawned);
    case _ => PlainStepKeepsInv(s, t, ok, spawned);
  }

  lemma ControllerKeepsInv(s: State, ok: bool, spawned: Tid)
    requires Inv(s) && Enabled(s, StepController(ok, spawned))
    ensures Inv(DoController(s, ok, spawned))
  {
    hide Inv, DoController;
    if s.control.StopCancelSafety? || s.control.StopJoinSafety? {
      StopSafetyTimerKeepsInv(s, ok, spawned);
    } else if StoppingTimers(s.control) {
      StopEventTimerKeepsInv(s, ok, spawned);
    } else if StoppingReader(s.control) {
      StopReaderKeepsInv(s, ok, spawned);
    } else if StoppingMonitor(s.control) {
      StopLockKeepsInv(s, ok, spawned);
    } else if s.control.StopFlag? {
      StopFlagKeepsInv(s, ok, spawned);
    } else if s.control.StartSchedule? {
      StartScheduleKeepsInv(s, ok, spawned);
    } else if s.control.StartMonitor? {
      StartMonitorKeepsInv(s, ok, spawned);
    } else {
      StartKeepsInv(s, ok, spawned);
    }
  }

  lemma OtherKeepsInv(s: State, a: Action)
    requires Inv(s) && Enabled(s, a)
    requires a.CallStart? || a.CallStop? || a.TakeLock? || a.ChildDies?
    ensures Inv(Do(s, a))
  {
    hide ReconcileLocked, NobodyInBody, OnePending, SafetyPathKept;
  }

  /** Every step of every thread keeps the invariant. */
  lemma StepKeepsInv(s: State, a: Action)
    requires Inv(s) && Enabled(s, a)
    ensures Inv(Do(s, a))
  {
    match a
    case StepController(ok, spawned) => ControllerKeepsInv(s, ok, spawned);
    case StepReader(ok, spawned) => ReaderKeepsInv(s, ok, spawned);
    case StepTask(t, ok, spawned) =>
      if s.tasks[t].Timer? {
        TimerKeepsInv(s, t, ok, spawned);
      } else {
        RequestKeepsInv(s, spawned);
        HintKeepsInv(RequestReconcile(s, spawned).(lock := None), t, true);
      }
    case NewHint(t) => NewHintKeepsInv(s, t);
    case _ => OtherKeepsInv(s, a);
  }

  lemma NewHintKeepsInv(s: State, t: Tid)
    requires Inv(s) && t !in s.tasks
    ensures Inv(s.(tasks := s.tasks[t := Hint(false)]))
  {
    hide ReconcileLocked, NobodyInBody, OnePending, SafetyPathKept, ReaderOwned;
    HintKeepsInv(s.(lock := None), t, false);
  }

  lemma {:induction false} RunKeepsInv(states: seq<State>, actions: seq<Action>)
    requires Run(states, actions)
    ensures forall i :: 0 <= i < |states| ==> Inv(states[i])
  {
    hide Inv, Do, Enabled;
    InitHasInv();
    for i := 0 to |actions|
      invariant forall j :: 0 <= j <= i ==> Inv(states[j])
    {
      StepKeepsInv(states[i], actions[i]);
    }
  }

  lemma InitHasInv()
    ensures Inv(Init())
  {
  }
}
