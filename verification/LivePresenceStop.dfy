/** How a call of stop comes to its end (network/live_presence.py, network/presence.py). */
module LivePresenceStop {
  import opened Prelude
  import opened LivePresence
  import opened LivePresenceInvariant

  /** Inside a call of stop. */
  predicate InStop(c: ControlPc) {
    c.StopFlag? || Stopping(c)
  }

  // ------------------------------------------------------- the wait chain

  /** The thread that takes a step; new calls and the death of the child belong to none. */
  function Mover(a: Action): Option<Who> {
    match a
    case TakeLock(who) => Some(who)
    case StepController(_, _) => Some(Controller)
    case StepReader(_, _) => Some(Reader)
    case StepTask(t, _, _) => Some(Thread(t))
    case _ => None
  }

  /** The reader gets a line: that needs a neighbour event, which may never come. */
  predicate LineArrives(s: State, a: Action) {
    a.StepReader? && a.ok && s.reader.Reading?
  }

  /** The thread that `who` has to wait for: the holder of a lock it needs, or a thread it joins. */
  function Blocker(s: State, who: Who): Option<Who> {
    if NeedsLock(s, who) then if s.lock == Some(who) then None else s.lock
    else match who
      case Controller =>
        if s.control.StopJoinEvent? && TimerAlive(s, s.control.event) then Some(Thread(s.control.event.value))
        else if s.control.StopJoinSafety? && TimerAlive(s, s.control.safety) then Some(Thread(s.control.safety.value))
        else if s.control.StopMonitorJoin? && ReaderAlive(s) then Some(Reader)
        else if s.control.StopWantReconcile? then s.reconcileLock
        else None
      case Reader => None
      case Thread(t) => if IsTimer(s, t) && s.tasks[t].pc.Queued? then s.reconcileLock else None
  }

  /** Where at most n waits from `who` lead. */
  function Front(s: State, who: Who, n: nat): Who
    decreases n
  {
    var blocker := Blocker(s, who);
    if blocker.None? || n == 0 then who else Front(s, blocker.value, n - 1)
  }

  // -------------------------------------------------------------- the rank

  function Phase(c: ControlPc): nat {
    match c
    case StopFlag => 12
    case StopCancelScan(_, _) => 11
    case StopCancelEvent(_, _) => 10
    case StopJoinEvent(_, _) => 9
    case StopCancelSafety(_) => 8
    case StopJoinSafety(_) => 7
    case StopMonitorFlag => 6
    case StopMonitorKill => 5
    case StopMonitorJoin => 4
    case StopMonitorClear => 3
    case StopWantReconcile => 2
    case StopHaveReconcile => 1
    case _ => 0
  }

  /** Two for each step a timer still has, so that taking `_lock` before a step counts as progress. */
  function TimerWork(pc: TimerPc): nat {
    match pc
    case Waiting => 20
    case Fired => 18
    case Queued => 16
    case Checking => 14
    case Probing => 12
    case Scanning => 10
    case Judging => 8
    case Notifying => 6
    case Rescheduling => 4
    case Releasing => 2
    case Ended => 0
  }

  function WorkOf(s: State, timer: Option<Tid>): nat {
    if timer.Some? && IsTimer(s, timer.value) then TimerWork(s.tasks[timer.value].pc) else 0
  }

  /** The timer in a reconcile that stop does not join. */
  function Outsider(s: State): Option<Tid> {
    if s.reconcileLock.Some? && s.reconcileLock.value.Thread?
       && Some(s.reconcileLock.value.t) != SavedEvent(s.control) && Some(s.reconcileLock.value.t) != SavedSafety(s.control)
    then Some(s.reconcileLock.value.t) else None
  }

  function ReaderWork(r: ReaderPc): nat {
    match r
    case Starting => 20
    case Spawning => 18
    case Publishing => 16
    case Rechecking => 14
    case Writing => 12
    case Hinting => 10
    case Gate => 10
    case Dispatching => 8
    case Reading => 6
    case Finishing => 2
    case _ => 0
  }

  /** The threads whose remaining work the rank counts. */
  predicate Counted(s: State, who: Who) {
    match who
    case Controller => true
    case Reader => s.control.StopMonitorJoin?
    case Thread(t) => Some(t) == SavedEvent(s.control) || Some(t) == SavedSafety(s.control) || Some(t) == Outsider(s)
  }

  function LockWork(s: State): nat {
    if s.lock.None? then 1 else if Counted(s, s.lock.value) then 0 else 2
  }

  /** An upper bound on the steps that stop still takes if every thread it waits for is let go ahead. */
  function Rank(s: State): nat {
    100 * Phase(s.control) + WorkOf(s, SavedEvent(s.control)) + WorkOf(s, SavedSafety(s.control)) + WorkOf(s, Outsider(s))
    + (if s.control.StopMonitorJoin? then ReaderWork(s.reader) else 0) + LockWork(s)
  }

  lemma RankBounds(s: State)
    ensures 100 * Phase(s.control) <= Rank(s) < 100 * Phase(s.control) + 100
  {
  }

  /** A step of the thread that brings stop closer to its end and waits for no neighbour event. */
  predicate Advances(s: State, who: Who, a: Action) {
    && Mover(a) == Some(who) && Enabled(s, a) && !LineArrives(s, a)
    && Rank(Do(s, a)) < Rank(s)
    && (InStop(Do(s, a).control) || Do(s, a).control.Idle?)
  }

  ghost predicate CanStep(s: State, who: Who) {
    exists a :: Advances(s, who, a)
  }

  lemma NewTid(tasks: Tasks) returns (t: Tid)
    ensures t !in tasks
  {
    t := 0;
    var seen: set<Tid> := {};
    while t in tasks
      invariant seen <= tasks.Keys && forall u: Tid :: u in seen <==> u < t
      decreases tasks.Keys - seen
    {
      seen := seen + {t};
      t := t + 1;
    }
  }

  lemma TakingLockAdvances(s: State, who: Who)
    requires InStop(s.control) && s.lock.None? && NeedsLock(s, who) && Counted(s, who)
    ensures Advances(s, who, TakeLock(who))
  {
  }

  lemma PhaseDrops(s: State, n: Tid)
    requires InStop(s.control) && Enabled(s, StepController(true, n))
    ensures var c := DoController(s, true, n).control; Phase(c) < Phase(s.control) && (InStop(c) || c.Idle?)
  {
    CancelFrame(s, SavedEvent(s.control));
    CancelFrame(s, SavedSafety(s.control));
    hide Cancel, ScheduleSafety;
    if StoppingTimers(s.control) || s.control.StopFlag? {
      match s.control
      case StopFlag =>
      case StopCancelScan(_, _) =>
      case StopCancelEvent(_, _) =>
      case StopJoinEvent(_, _) =>
      case StopCancelSafety(_) =>
      case StopJoinSafety(_) =>
    } else {
      match s.control
      case StopMonitorFlag =>
      case StopMonitorKill =>
      case StopMonitorJoin =>
      case StopMonitorClear =>
      case StopWantReconcile =>
      case StopHaveReconcile =>
    }
  }

  lemma CancelFrame(s: State, timer: Option<Tid>)
    ensures Cancel(s, timer).control == s.control
  {
  }

  lemma ControllerAdvances(s: State, n: Tid)
    requires InStop(s.control) && Enabled(s, StepController(true, n))
    ensures Advances(s, Controller, StepController(true, n))
  {
    RankBounds(s);
    RankBounds(DoController(s, true, n));
    PhaseDrops(s, n);
    hide Rank, DoController, Phase, InStop;
  }

  /** Every timer that stop saved exists, and threads in a section are the ones that hold `_lock`. */
  lemma SavedAreTimers(s: State)
    requires Inv(s)
    ensures SavedEvent(s.control).Some? ==> IsTimer(s, SavedEvent(s.control).value)
    ensures SavedSafety(s.control).Some? ==> IsTimer(s, SavedSafety(s.control).value)
    ensures Outsider(s).Some? ==> IsTimer(s, Outsider(s).value) && HoldsReconcile(s.tasks[Outsider(s).value].pc)
    ensures s.lock.Some? ==> NeedsLock(s, s.lock.value)
  {
  }

  /** Other tasks are as they were, apart from new ones. */
  ghost predicate OthersKept(tasks: Tasks, after: Tasks, t: Tid) {
    forall u :: u in tasks && u != t ==> u in after && after[u] == tasks[u]
  }

  /** What a step of task t leaves alone while stop waits. */
  ghost predicate Aside(s: State, s': State, t: Tid) {
    s'.control == s.control && s'.reader == s.reader && OthersKept(s.tasks, s'.tasks, t)
  }

  /** A counted timer moves on, with or without `_lock`, and at most takes or frees the reconcile lock. */
  lemma CountedTimerRank(s: State, s': State, t: Tid)
    requires Inv(s) && IsTimer(s, t) && IsTimer(s', t) && Aside(s, s', t) && Counted(s, Thread(t))
    requires TimerWork(s'.tasks[t].pc) + 2 <= TimerWork(s.tasks[t].pc)
    requires s'.lock.None? || (s'.lock == s.lock && s.lock != Some(Thread(t)))
    requires s'.lock.None? ==> s.lock.None? || s.lock == Some(Thread(t))
    requires s'.reconcileLock == s.reconcileLock
             || (s.reconcileLock.None? && s'.reconcileLock == Some(Thread(t)) && s.tasks[t].pc.Queued?)
             || (s'.reconcileLock.None? && s.reconcileLock == Some(Thread(t)))
    ensures Rank(s') < Rank(s)
  {
    SavedAreTimers(s);
    hide Inv, TimerWork, ReaderWork, Phase, NeedsLock;
  }

  /** How one step of a timer looks from outside. */
  ghost predicate Moves(s: State, s': State, t: Tid) {
    && IsTimer(s, t) && IsTimer(s', t) && Aside(s, s', t) && TimerWork(s'.tasks[t].pc) + 2 <= TimerWork(s.tasks[t].pc)
    && s'.tasks[t].kind == s.tasks[t].kind && s'.tasks[t].cancelled == s.tasks[t].cancelled
    && s'.lock == (if InSection(s.tasks[t]) then None else s.lock)
    && (s'.reconcileLock == s.reconcileLock
        || (s.reconcileLock.None? && s'.reconcileLock == Some(Thread(t)) && s.tasks[t].pc.Queued?)
        || (s'.reconcileLock.None? && s.tasks[t].pc.Releasing?))
  }

  lemma PcMoves(s: State, t: Tid, pc: TimerPc)
    requires IsTimer(s, t) && TimerWork(pc) + 2 <= TimerWork(s.tasks[t].pc)
    ensures var s' := SetPc(s, t, pc);
            && IsTimer(s', t) && s'.tasks[t] == s.tasks[t].(pc := pc) && Aside(s, s', t)
            && s' == s.(tasks := s'.tasks)
  {
    hide TimerWork;
  }

  lemma ScheduleAside(s: State, t: Tid, n: Tid)
    requires IsTimer(s, t) && n !in s.tasks
    ensures var s' := ScheduleSafety(s, n);
            && IsTimer(s', t) && s'.tasks[t] == s.tasks[t] && Aside(s, s', t)
            && s'.lock == s.lock && s'.reconcileLock == s.reconcileLock
  {
  }

  lemma WaitingMoves(s: State, t: Tid, ok: bool, n: Tid)
    requires IsTimer(s, t) && n !in s.tasks && s.tasks[t].pc.Waiting?
    ensures Moves(s, DoTimer(s, t, ok, n), t)
  {
    PcMoves(s, t, DoTimer(s, t, ok, n).tasks[t].pc);
    hide ScheduleSafety, OthersKept;
  }

  lemma FiredMoves(s: State, t: Tid, ok: bool, n: Tid)
    requires IsTimer(s, t) && n !in s.tasks && s.tasks[t].pc.Fired?
    ensures Moves(s, DoTimer(s, t, ok, n), t)
  {
    hide ScheduleSafety, OthersKept;
    var pc := if s.tasks[t].kind.Safety? && s.stopped then Ended else Queued;
    PcMoves(s, t, pc);
    var s' := SetPc(s, t, pc);
    hide SetPc;
    if s.tasks[t].kind.Event? {
      assert DoTimer(s, t, ok, n) == s'.(lock := None, eventTimer := None);
    } else {
      assert DoTimer(s, t, ok, n) == s'.(lock := None, safetyTimer := None);
    }
  }

  lemma EnteringMoves(s: State, t: Tid, ok: bool, n: Tid)
    requires IsTimer(s, t) && n !in s.tasks && (s.tasks[t].pc.Queued? || s.tasks[t].pc.Checking? || s.tasks[t].pc.Probing?)
    requires s.tasks[t].pc.Queued? ==> s.reconcileLock.None?
    ensures Moves(s, DoTimer(s, t, ok, n), t)
  {
    PcMoves(s, t, DoTimer(s, t, ok, n).tasks[t].pc);
    hide ScheduleSafety, OthersKept;
    match s.tasks[t].pc
    case Queued =>
    case Checking =>
    case Probing =>
  }

  lemma LateTimerMoves(s: State, t: Tid, ok: bool, n: Tid)
    requires IsTimer(s, t) && n !in s.tasks
    requires var pc := s.tasks[t].pc; pc.Scanning? || pc.Judging? || pc.Notifying? || pc.Releasing?
    ensures Moves(s, DoTimer(s, t, ok, n), t)
  {
    PcMoves(s, t, DoTimer(s, t, ok, n).tasks[t].pc);
    hide ScheduleSafety, OthersKept;
    match s.tasks[t].pc
    case Scanning =>
    case Judging =>
    case Notifying =>
    case Releasing =>
  }

  lemma ReschedulingMoves(s: State, t: Tid, ok: bool, n: Tid)
    requires IsTimer(s, t) && n !in s.tasks && s.tasks[t].pc.Rescheduling?
    ensures Moves(s, DoTimer(s, t, ok, n), t)
  {
    ScheduleAside(s, t, n);
    PcMoves(ScheduleSafety(s, n), t, Releasing);
    hide ScheduleSafety;
  }

  lemma TimerMoves(s: State, t: Tid, ok: bool, n: Tid)
    requires IsTimer(s, t) && Enabled(s, StepTask(t, ok, n))
    ensures Moves(s, DoTimer(s, t, ok, n), t)
  {
    hide DoTimer, Moves;
    match s.tasks[t].pc
    case Rescheduling => ReschedulingMoves(s, t, ok, n);
    case Waiting => WaitingMoves(s, t, ok, n);
    case Fired => FiredMoves(s, t, ok, n);
    case Queued | Checking | Probing => EnteringMoves(s, t, ok, n);
    case _ => LateTimerMoves(s, t, ok, n);
  }

  lemma TimerAdvances(s: State, t: Tid, n: Tid)
    requires Inv(s) && InStop(s.control) && IsTimer(s, t) && Enabled(s, StepTask(t, true, n)) && Counted(s, Thread(t))
    ensures Advances(s, Thread(t), StepTask(t, true, n))
  {
    TimerMoves(s, t, true, n);
    TimerLocks(s, t);
    CountedTimerRank(s, DoTimer(s, t, true, n), t);
    hide Inv, DoTimer, Rank, Counted, TimerWork;
  }

  lemma TimerLocks(s: State, t: Tid)
    requires Inv(s) && IsTimer(s, t)
    ensures s.tasks[t].pc.Releasing? ==> s.reconcileLock == Some(Thread(t))
    ensures s.lock == Some(Thread(t)) ==> InSection(s.tasks[t])
  {
  }

  // ------------------------------------------- whoever else holds `_lock`

  lemma RequestAside(s: State, n: Tid)
    requires n !in s.tasks
    ensures var s' := RequestReconcile(s, n);
            && s'.control == s.control && s'.reader == s.reader && s'.lock == s.lock && s'.reconcileLock == s.reconcileLock
            && (forall u :: u in s.tasks ==> u in s'.tasks && s'.tasks[u] == s.tasks[u])
            && (s.stopped ==> s' == s)
  {
  }

  /** A thread stop does not otherwise wait for gives `_lock` back. */
  lemma ReleasedLockRank(s: State, s': State, who: Who)
    requires Inv(s) && s.lock == Some(who) && !Counted(s, who) && s'.lock.None?
    requires s'.control == s.control && s'.reconcileLock == s.reconcileLock
    requires s.control.StopMonitorJoin? ==> s'.reader == s.reader
    requires forall u :: u in s.tasks && who != Thread(u) ==> u in s'.tasks && s'.tasks[u] == s.tasks[u]
    ensures Rank(s') < Rank(s)
  {
    SavedAreTimers(s);
    assert Outsider(s') == Outsider(s);
    hide Inv, TimerWork, ReaderWork, Phase, NeedsLock;
  }

  lemma HintAdvances(s: State, t: Tid, n: Tid)
    requires Inv(s) && InStop(s.control) && s.lock == Some(Thread(t)) && Enabled(s, StepTask(t, true, n)) && s.tasks[t].Hint?
    ensures Advances(s, Thread(t), StepTask(t, true, n))
  {
    RequestAside(s, n);
    SavedAreTimers(s);
    ReleasedLockRank(s, Do(s, StepTask(t, true, n)), Thread(t));
    hide Inv, RequestReconcile, Rank, Counted;
  }

  lemma OtherTimerAdvances(s: State, t: Tid, n: Tid)
    requires Inv(s) && InStop(s.control) && s.lock == Some(Thread(t)) && Enabled(s, StepTask(t, true, n)) && IsTimer(s, t)
    requires !Counted(s, Thread(t))
    ensures Advances(s, Thread(t), StepTask(t, true, n))
  {
    TimerMoves(s, t, true, n);
    TimerLocks(s, t);
    ReleasedLockRank(s, DoTimer(s, t, true, n), Thread(t));
    hide Inv, DoTimer, Rank, Counted, TimerWork;
  }

  lemma OtherReaderAdvances(s: State, n: Tid)
    requires Inv(s) && InStop(s.control) && s.lock == Some(Reader) && Enabled(s, StepReader(false, n))
    requires !s.control.StopMonitorJoin?
    ensures Advances(s, Reader, StepReader(false, n))
  {
    RequestAside(s, n);
    SavedAreTimers(s);
    ReleasedLockRank(s, DoReader(s, false, n), Reader);
    hide Inv, RequestReconcile, Rank, Counted;
  }

  /** What the reader is up to when stop joins it. */
  lemma JoinedReader(s: State)
    requires Inv(s) && s.control.StopMonitorJoin?
    ensures s.stopped && s.monitorStop
    ensures s.reader.Reading? ==> !s.childAlive
    ensures s.lock == Some(Reader) ==> NeedsLock(s, Reader)
  {
    hide ReconcileLocked, NobodyInBody, OnePending, SafetyPathKept;
  }

  /** The reader on its way out: everything but the reader, `_lock` and the child stays as it is. */
  lemma JoinedReaderMoves(s: State, n: Tid)
    requires s.stopped && s.monitorStop && ReaderAlive(s) && n !in s.tasks
    ensures var s' := DoReader(s, false, n);
            && s'.control == s.control && s'.reconcileLock == s.reconcileLock && s'.tasks == s.tasks
            && s'.lock == (if NeedsLock(s, Reader) then None else s.lock)
            && ReaderWork(s'.reader) + 2 <= ReaderWork(s.reader)
  {
    RequestAside(s, n);
    hide RequestReconcile;
    if Serving(s.reader) {
      match s.reader
      case Rechecking =>
      case Reading =>
      case Dispatching =>
      case Gate =>
      case Writing =>
      case Hinting =>
    } else {
      match s.reader
      case Starting =>
      case Spawning =>
      case Publishing =>
      case Finishing =>
    }
  }

  lemma JoinedReaderRank(s: State, s': State)
    requires s.control.StopMonitorJoin? && s'.control == s.control && s'.reconcileLock == s.reconcileLock && s'.tasks == s.tasks
    requires s'.lock == s.lock || (s.lock == Some(Reader) && s'.lock.None?)
    requires ReaderWork(s'.reader) + 2 <= ReaderWork(s.reader)
    ensures Rank(s') < Rank(s)
  {
    hide TimerWork, ReaderWork, Phase;
  }

  lemma JoinedReaderAdvances(s: State, n: Tid)
    requires Inv(s) && s.control.StopMonitorJoin? && ReaderAlive(s) && Enabled(s, StepReader(false, n))
    ensures Advances(s, Reader, StepReader(false, n))
  {
    JoinedReader(s);
    JoinedReaderMoves(s, n);
    hide Inv, DoReader, Rank, ReaderWork;
    JoinedReaderRank(s, DoReader(s, false, n));
  }

  // ------------------------------------------------------------- theorems

  lemma LockHolderCanStep(s: State, who: Who)
    requires Inv(s) && InStop(s.control) && s.lock == Some(who)
    ensures Blocker(s, who).None? && CanStep(s, who)
  {
    SavedAreTimers(s);
    hide Inv, Advances, Do, Rank, Counted;
    var n := NewTid(s.tasks);
    match who
    case Controller =>
      ControllerAdvances(s, n);
    case Reader =>
      if s.control.StopMonitorJoin? { JoinedReaderAdvances(s, n); } else { OtherReaderAdvances(s, n); }
    case Thread(t) =>
      if s.tasks[t].Hint? {
        HintAdvances(s, t, n);
      } else if Counted(s, who) {
        TimerAdvances(s, t, n);
      } else {
        OtherTimerAdvances(s, t, n);
      }
  }

  /** A thread that stop waits for, and that itself waits for nobody, has a step of its own. */
  lemma UnblockedCanStep(s: State, who: Who)
    requires Inv(s) && InStop(s.control) && Blocker(s, who).None? && Counted(s, who)
    requires who.Reader? ==> ReaderAlive(s)
    requires who.Thread? ==> IsTimer(s, who.t) && !s.tasks[who.t].pc.Ended?
    ensures CanStep(s, who)
  {
    if NeedsLock(s, who) && s.lock.None? {
      TakingLockAdvances(s, who);
    } else {
      var n := NewTid(s.tasks);
      if who.Reader? { JoinedReader(s); }
      hide Inv, Advances, Do, Rank, Counted;
      match who
      case Controller => ControllerAdvances(s, n);
      case Reader => JoinedReaderAdvances(s, n);
      case Thread(t) => TimerAdvances(s, t, n);
    }
  }

  /** Whoever holds the reconcile lock, but for the controller, waits for `_lock` at most. */
  lemma ReconcilerIsTimer(s: State)
    requires Inv(s) && s.reconcileLock.Some? && !s.control.StopHaveReconcile?
    ensures s.reconcileLock.value.Thread? && Counted(s, s.reconcileLock.value)
    ensures var t := s.reconcileLock.value.t; IsTimer(s, t) && !s.tasks[t].pc.Ended? && !s.tasks[t].pc.Queued?
  {
  }

  ghost predicate FrontMoves(s: State, who: Who, n: nat) {
    Blocker(s, Front(s, who, n)).None? && CanStep(s, Front(s, who, n))
  }

  lemma TimerFrontMoves(s: State, t: Tid, n: nat)
    requires Inv(s) && InStop(s.control) && !s.control.StopHaveReconcile?
    requires IsTimer(s, t) && !s.tasks[t].pc.Ended? && Counted(s, Thread(t))
    requires n >= if s.tasks[t].pc.Queued? then 2 else 1
    ensures FrontMoves(s, Thread(t), n)
    decreases n
  {
    hide Inv, CanStep, Counted;
    var blocker := Blocker(s, Thread(t));
    if blocker.None? {
      UnblockedCanStep(s, Thread(t));
    } else if NeedsLock(s, Thread(t)) {
      LockHolderCanStep(s, blocker.value);
      assert Front(s, blocker.value, n - 1) == blocker.value;
    } else {
      ReconcilerIsTimer(s);
      TimerFrontMoves(s, blocker.value.t, n - 1);
    }
  }

  lemma InvFrontMoves(s: State)
    requires Inv(s) && InStop(s.control)
    ensures FrontMoves(s, Controller, 3)
  {
    SavedAreTimers(s);
    hide Inv, CanStep;
    var blocker := Blocker(s, Controller);
    if blocker.None? {
      UnblockedCanStep(s, Controller);
    } else if s.control.StopFlag? {
      LockHolderCanStep(s, blocker.value);
    } else if s.control.StopJoinEvent? || s.control.StopJoinSafety? {
      TimerFrontMoves(s, blocker.value.t, 2);
    } else if s.control.StopWantReconcile? {
      ReconcilerIsTimer(s);
      TimerFrontMoves(s, blocker.value.t, 2);
    } else if Blocker(s, Reader).None? {
      UnblockedCanStep(s, Reader);
    } else {
      LockHolderCanStep(s, Blocker(s, Reader).value);
    }
  }

  /**
    stop never deadlocks: as long as it has not ended, the chain of waits that starts at it ends, after
    at most three waits, at a thread that waits for nobody and has a step of its own, which brings stop
    closer to its end by Rank. That step is never the arrival of a line: a reader that stop joins is
    not left blocked on the pipe of a living child, even when the child appeared after stop had looked
    for it.
  */
  lemma StopNeverDeadlocks(states: seq<State>, actions: seq<Action>, i: nat)
    requires Run(states, actions) && i < |states| && InStop(states[i].control)
    ensures FrontMoves(states[i], Controller, 3)
  {
    RunKeepsInv(states, actions);
    InvFrontMoves(states[i]);
  }

  /** From s to t by these steps, all inside the same call of stop and none the arrival of a line. */
  ghost predicate Ends(s: State, actions: seq<Action>, t: State)
    decreases |actions|
  {
    if actions == [] then s == t && !InStop(s.control)
    else InStop(s.control) && Enabled(s, actions[0]) && Mover(actions[0]).Some? && !LineArrives(s, actions[0])
         && Ends(Do(s, actions[0]), actions[1..], t)
  }

  lemma {:induction false} InvStopCanEnd(s: State) returns (actions: seq<Action>, t: State)
    requires Inv(s) && (InStop(s.control) || s.control.Idle?)
    ensures Ends(s, actions, t) && t.control.Idle? && |actions| <= Rank(s)
    decreases Rank(s)
  {
    if s.control.Idle? {
      actions, t := [], s;
    } else {
      InvFrontMoves(s);
      var a :| Advances(s, Front(s, Controller, 3), a);
      StepKeepsInv(s, a);
      hide Inv, Rank, Front, Do;
      var rest;
      rest, t := InvStopCanEnd(Do(s, a));
      actions := [a] + rest;
      assert actions[1..] == rest;
    }
  }

  /** Wherever a run has led inside stop, at most 1300 more steps of existing threads can end it. */
  lemma StopCanEnd(states: seq<State>, actions: seq<Action>, i: nat)
    requires Run(states, actions) && i < |states| && InStop(states[i].control)
    ensures exists more, t :: Ends(states[i], more, t) && t.control.Idle? && |more| < 1300
  {
    RunKeepsInv(states, actions);
    RankBounds(states[i]);
    hide Inv, Rank;
    var more, t := InvStopCanEnd(states[i]);
  }
}
