/**
  Live presence as a step relation (network/live_presence.py, network/presence.py).

  Threads: one controller that calls start and stop (never overlapping), any number of timer threads,
  any number of threads that call request_reconcile, and the reader thread of the neighbour monitor.
  `_lock` is taken in a step of its own; the section it guards and the release are the next step.
  `_reconcile_lock` is held across many steps.
*/
module LivePresence {
  import opened Prelude

  type Tid = nat

  datatype Who = Controller | Reader | Thread(t: Tid)

  datatype Kind = Event | Safety

  /** Program counter of a threading.Timer and of the reconcile function it runs. */
  datatype TimerPc =
    | Waiting        // interval not over
    | Fired          // past the `finished` test; first section of _event_/_safety_reconcile is next
    | Queued         // at `with self._reconcile_lock`
    | Checking       // holds the reconcile lock; tests _stopped next
    | Probing        // tests discovery.running next
    | Scanning       // inside discovery.scan
    | Judging        // scan returned; decides whether to notify
    | Notifying      // inside the on_reconciled callback
    | Rescheduling   // in `finally`
    | Releasing
    | Ended

  datatype Task =
    | Timer(kind: Kind, pc: TimerPc, cancelled: bool)
    | Hint(done: bool)

  datatype ReaderPc =
    | NoReader
    | Unstarted      // created, but Thread.start raised
    | Starting       // tests _stop next
    | Spawning       // Popen next
    | Publishing     // self._process = process next
    | Rechecking     // tests _stop again
    | Reading        // blocked on the pipe
    | Dispatching    // has a line; tests _stop next, then parses it
    | Gate           // in _on_presence_event, before the _stopped test
    | Writing        // inside update_presence
    | Hinting        // before the section of request_reconcile
    | Finishing      // in `finally`
    | Done

  datatype ControlPc =
    | Idle(quiet: bool)          // quiet: the last call was a stop that returned
    | StartFlag(quiet: bool)
    | StartMonitor
    | StartUndo
    | StartSchedule
    | StopFlag
    | StopCancelScan(event: Option<Tid>, safety: Option<Tid>)
    | StopCancelEvent(event: Option<Tid>, safety: Option<Tid>)
    | StopJoinEvent(event: Option<Tid>, safety: Option<Tid>)
    | StopCancelSafety(safety: Option<Tid>)
    | StopJoinSafety(safety: Option<Tid>)
    | StopMonitorFlag
    | StopMonitorKill
    | StopMonitorJoin
    | StopMonitorClear
    | StopWantReconcile
    | StopHaveReconcile

  datatype State = State(
    lock: Option<Who>,
    reconcileLock: Option<Who>,
    stopped: bool,
    eventTimer: Option<Tid>,
    safetyTimer: Option<Tid>,
    tasks: map<Tid, Task>,
    control: ControlPc,
    reader: ReaderPc,
    monitorStop: bool,       // PresenceMonitor._stop
    published: bool,         // PresenceMonitor._process is the reader's child
    childAlive: bool,        // the child `ip monitor neigh` runs
    scanRunning: bool)       // DiscoveryService.running

  function Init(): State {
    State(None, None, true, None, None, map[], Idle(true), NoReader, false, false, false, false)
  }

  // ---------------------------------------------------------------- steps

  /** `ok` and `spawned` resolve what the code leaves open: a raise, a line, a new thread's identity. */
  datatype Action =
    | CallStart
    | CallStop
    | TakeLock(who: Who)
    | StepController(ok: bool, spawned: Tid)
    | StepReader(ok: bool, spawned: Tid)
    | StepTask(t: Tid, ok: bool, spawned: Tid)
    | NewHint(t: Tid)
    | ChildDies

  predicate IsTimer(s: State, t: Tid) {
    t in s.tasks && s.tasks[t].Timer?
  }

  predicate ReaderAlive(s: State) {
    !s.reader.NoReader? && !s.reader.Unstarted? && !s.reader.Done?
  }

  predicate TimerAlive(s: State, timer: Option<Tid>) {
    timer.Some? && IsTimer(s, timer.value) && !s.tasks[timer.value].pc.Ended?
  }

  predicate InSection(task: Task) {
    match task
    case Timer(_, pc, _) => pc.Fired? || pc.Checking? || pc.Judging? || pc.Rescheduling?
    case Hint(done) => !done
  }

  /** The next step of `who` is a section under `_lock`. */
  predicate NeedsLock(s: State, who: Who) {
    match who
    case Controller => s.control.StartFlag? || s.control.StartUndo? || s.control.StartSchedule? || s.control.StopFlag?
    case Reader => s.reader.Gate? || s.reader.Hinting?
    case Thread(t) => t in s.tasks && InSection(s.tasks[t])
  }

  predicate Enabled(s: State, a: Action) {
    match a
    case CallStart => s.control.Idle?
    case CallStop => s.control.Idle?
    case TakeLock(who) => s.lock.None? && NeedsLock(s, who)
    case StepController(_, spawned) =>
      && !s.control.Idle?
      && spawned !in s.tasks
      && (NeedsLock(s, Controller) ==> s.lock == Some(Controller))
      && (s.control.StopJoinEvent? ==> !TimerAlive(s, s.control.event))
      && (s.control.StopJoinSafety? ==> !TimerAlive(s, s.control.safety))
      && (s.control.StopMonitorJoin? ==> !ReaderAlive(s))
      && (s.control.StopWantReconcile? ==> s.reconcileLock.None?)
    case StepReader(ok, spawned) =>
      && ReaderAlive(s)
      && spawned !in s.tasks
      && (NeedsLock(s, Reader) ==> s.lock == Some(Reader))
      && (s.reader.Reading? && !ok ==> !s.childAlive)
    case StepTask(t, _, spawned) =>
      && t in s.tasks
      && spawned !in s.tasks
      && (s.tasks[t].Timer? ==> !s.tasks[t].pc.Ended?)
      && (s.tasks[t].Hint? ==> !s.tasks[t].done)
      && (NeedsLock(s, Thread(t)) ==> s.lock == Some(Thread(t)))
      && (s.tasks[t].Timer? && s.tasks[t].pc.Queued? ==> s.reconcileLock.None?)
    case NewHint(t) => t !in s.tasks
    case ChildDies => s.childAlive
  }

  /** Section of request_reconcile. */
  function RequestReconcile(s: State, spawned: Tid): State {
    if s.stopped || TimerAlive(s, s.eventTimer) then s
    else s.(eventTimer := Some(spawned), tasks := s.tasks[spawned := Timer(Event, Waiting, false)])
  }

  /** Section of _schedule_periodic_safety_scan. */
  function ScheduleSafety(s: State, spawned: Tid): State {
    if s.stopped || TimerAlive(s, s.safetyTimer) then s
    else s.(safetyTimer := Some(spawned), tasks := s.tasks[spawned := Timer(Safety, Waiting, false)])
  }

  function Cancel(s: State, timer: Option<Tid>): State {
    if timer.Some? && IsTimer(s, timer.value)
    then s.(tasks := s.tasks[timer.value := s.tasks[timer.value].(cancelled := true)])
    else s
  }

  function DoController(s: State, ok: bool, spawned: Tid): State {
    match s.control
    case Idle(_) => s
    case StartFlag(_) =>
      if !s.stopped then s.(lock := None, control := Idle(false))
      else s.(lock := None, stopped := false, control := StartMonitor)
    case StartMonitor =>
      if ReaderAlive(s) then s.(control := StartSchedule)
      else if ok then s.(monitorStop := false, reader := Starting, published := false, childAlive := false,
                         control := StartSchedule)
      else s.(monitorStop := false, reader := Unstarted, control := StartUndo)
    case StartUndo => s.(lock := None, stopped := true, control := Idle(false))
    case StartSchedule => ScheduleSafety(s, spawned).(lock := None, control := Idle(false))
    case StopFlag =>
      if s.stopped then s.(lock := None, control := StopCancelScan(None, None))
      else s.(lock := None, stopped := true, eventTimer := None, safetyTimer := None,
              control := StopCancelScan(s.eventTimer, s.safetyTimer))
    case StopCancelScan(e, f) => s.(control := StopCancelEvent(e, f))
    case StopCancelEvent(e, f) => Cancel(s, e).(control := StopJoinEvent(e, f))
    case StopJoinEvent(_, f) => s.(control := StopCancelSafety(f))
    case StopCancelSafety(f) => Cancel(s, f).(control := StopJoinSafety(f))
    case StopJoinSafety(_) => s.(control := StopMonitorFlag)
    case StopMonitorFlag => s.(monitorStop := true, control := StopMonitorKill)
    case StopMonitorKill =>
      s.(childAlive := if s.published then false else s.childAlive, control := StopMonitorJoin)
    case StopMonitorJoin =>
      // A thread that was never started cannot be joined: stop raises here.
      s.(control := if s.reader.Unstarted? then Idle(false) else StopMonitorClear)
    case StopMonitorClear => s.(reader := NoReader, published := false, control := StopWantReconcile)
    case StopWantReconcile => s.(reconcileLock := Some(Controller), control := StopHaveReconcile)
    case StopHaveReconcile => s.(reconcileLock := None, control := Idle(true))
  }

  /** ok: Popen succeeds, a line arrives, the line is an event, or the event is a confirmed one to be written. */
  function DoReader(s: State, ok: bool, spawned: Tid): State {
    match s.reader
    case NoReader => s
    case Unstarted => s
    case Starting => s.(reader := if s.monitorStop then Done else Spawning)
    case Spawning => if ok then s.(childAlive := true, reader := Publishing) else s.(reader := Done)
    case Publishing => s.(published := true, reader := Rechecking)
    case Rechecking => s.(childAlive := if s.monitorStop then false else s.childAlive, reader := Reading)
    case Reading => s.(reader := if ok then Dispatching else Finishing)
    case Dispatching => s.(reader := if s.monitorStop then Finishing else if ok then Gate else Reading)
    case Gate => s.(lock := None, reader := if s.stopped then Reading else if ok then Writing else Hinting)
    case Writing => s.(reader := Hinting)
    case Hinting => RequestReconcile(s, spawned).(lock := None, reader := Reading)
    case Finishing => s.(childAlive := false, published := false, reader := Done)
    case Done => s
  }

  function SetPc(s: State, t: Tid, pc: TimerPc): State
    requires IsTimer(s, t)
  {
    s.(tasks := s.tasks[t := s.tasks[t].(pc := pc)])
  }

  /** ok: the scan returns rather than raises, or there is a callback to notify. */
  function DoTimer(s: State, t: Tid, ok: bool, spawned: Tid): State
    requires IsTimer(s, t)
  {
    match s.tasks[t].pc
    case Waiting => SetPc(s, t, if s.tasks[t].cancelled then Ended else Fired)
    case Fired =>
      if s.tasks[t].kind.Event? then SetPc(s, t, Queued).(lock := None, eventTimer := None)
      else SetPc(s, t, if s.stopped then Ended else Queued).(lock := None, safetyTimer := None)
    case Queued => SetPc(s, t, Checking).(reconcileLock := Some(Thread(t)))
    case Checking => SetPc(s, t, if s.stopped then Releasing else Probing).(lock := None)
    case Probing =>
      if s.scanRunning then SetPc(s, t, Rescheduling)
      else SetPc(s, t, Scanning).(scanRunning := true)
    case Scanning => SetPc(s, t, if ok then Judging else Rescheduling).(scanRunning := false)
    case Judging => SetPc(s, t, if !s.stopped && ok then Notifying else Rescheduling).(lock := None)
    case Notifying => SetPc(s, t, Rescheduling)
    case Rescheduling => SetPc(ScheduleSafety(s, spawned), t, Releasing).(lock := None)
    case Releasing => SetPc(s, t, Ended).(reconcileLock := None)
    case Ended => s
  }

  function Do(s: State, a: Action): State
    requires Enabled(s, a)
  {
    match a
    case CallStart => s.(control := StartFlag(s.control.quiet))
    case CallStop => s.(control := StopFlag)
    case TakeLock(who) => s.(lock := Some(who))
    case StepController(ok, spawned) => DoController(s, ok, spawned)
    case StepReader(ok, spawned) => DoReader(s, ok, spawned)
    case StepTask(t, ok, spawned) =>
      if s.tasks[t].Timer? then DoTimer(s, t, ok, spawned)
      else RequestReconcile(s, spawned).(lock := None, tasks := RequestReconcile(s, spawned).tasks[t := Hint(true)])
    case NewHint(t) => s.(tasks := s.tasks[t := Hint(false)])
    case ChildDies => s.(childAlive := false)
  }

  /** States the service can reach in any interleaving. */
  ghost predicate Run(states: seq<State>, actions: seq<Action>) {
    && |states| == |actions| + 1
    && states[0] == Init()
    && forall i :: 0 <= i < |actions| ==> Enabled(states[i], actions[i]) && states[i + 1] == Do(states[i], actions[i])
  }
}
