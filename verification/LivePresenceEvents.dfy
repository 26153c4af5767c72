/** What a neighbour event and the reader thread are sure to bring about (network/live_presence.py, network/presence.py). */
module LivePresenceEvents {
  import opened Prelude
  import opened LivePresence
  import opened LivePresenceInvariant
  import opened LivePresenceStop

  // --------------------------------------------------------------- frames

  lemma HintsKeepPlace(s: State, n: Tid)
    ensures var a, b := RequestReconcile(s, n), ScheduleSafety(s, n);
            && a.control == s.control && a.reader == s.reader && a.stopped == s.stopped && a.monitorStop == s.monitorStop
            && b.control == s.control && b.reader == s.reader && b.stopped == s.stopped && b.monitorStop == s.monitorStop
            && a.childAlive == s.childAlive && b.childAlive == s.childAlive
  {
  }

  lemma CancelKeepsPlace(s: State, timer: Option<Tid>)
    ensures var a := Cancel(s, timer);
            a.reader == s.reader && a.stopped == s.stopped && a.monitorStop == s.monitorStop && a.childAlive == s.childAlive
  {
  }

  /** While the reader lives and the service is not stopped, only the reader moves the reader. */
  lemma ReaderFrame(s: State, a: Action)
    requires Inv(s) && Enabled(s, a) && !s.stopped && Alive(s.reader) && !a.StepReader?
    ensures Do(s, a).reader == s.reader
    ensures a.ChildDies? || Do(s, a).childAlive == s.childAlive
  {
    match a
    case StepTask(t, ok, n) =>
      HintsKeepPlace(s, n);
      if s.tasks[t].Timer? { TimerKeepsPlace(s, t, ok, n); }
      hide RequestReconcile, DoTimer, Inv;
    case StepController(ok, n) =>
      ControllerKeepsReader(s, ok, n);
      hide DoController, Inv;
    case _ =>
  }

  predicate SamePlace(s: State, s': State) {
    && s'.control == s.control && s'.reader == s.reader && s'.stopped == s.stopped
    && s'.monitorStop == s.monitorStop && s'.childAlive == s.childAlive
  }

  lemma TimerKeepsPlace(s: State, t: Tid, ok: bool, n: Tid)
    requires IsTimer(s, t)
    ensures SamePlace(s, DoTimer(s, t, ok, n))
  {
    HintsKeepPlace(s, n);
    hide ScheduleSafety;
    var pc := s.tasks[t].pc;
    if pc.Waiting? || pc.Fired? || pc.Queued? || pc.Checking? {
      match pc
      case Waiting =>
      case Fired =>
      case Queued =>
      case Checking =>
    } else {
      LateTimerKeepsPlace(s, t, ok, n);
      hide DoTimer;
    }
  }

  lemma LateTimerKeepsPlace(s: State, t: Tid, ok: bool, n: Tid)
    requires IsTimer(s, t)
    requires var pc := s.tasks[t].pc; !pc.Waiting? && !pc.Fired? && !pc.Queued? && !pc.Checking?
    ensures SamePlace(s, DoTimer(s, t, ok, n))
  {
    HintsKeepPlace(s, n);
    hide ScheduleSafety;
    match s.tasks[t].pc
    case Probing =>
    case Scanning =>
    case Judging =>
    case Notifying =>
    case Rescheduling =>
    case Releasing =>
    case Ended =>
  }

  lemma ControllerKeepsReader(s: State, ok: bool, n: Tid)
    requires Inv(s) && !s.stopped && Alive(s.reader)
    ensures DoController(s, ok, n).reader == s.reader && DoController(s, ok, n).childAlive == s.childAlive
  {
    Parts(s);
    hide Inv, ReconcileLocked, NobodyInBody, OnePending, SafetyPathKept;
    HintsKeepPlace(s, n);
    hide ScheduleSafety, Cancel;
    match s.control
    case StartFlag(_) =>
    case StartSchedule =>
    case StopFlag =>
    case _ =>
  }

  /** A reader that runs while the service is not stopped is not asked to stop either. */
  predicate Unasked(s: State) {
    Alive(s.reader) && !s.stopped ==> !s.monitorStop
  }

  lemma StartKeepsUnasked(s: State, ok: bool, n: Tid)
    requires Inv(s) && Unasked(s) && (s.control.StartFlag? || Launching(s.control))
    ensures Unasked(DoController(s, ok, n))
  {
    Parts(s);
    HintsKeepPlace(s, n);
    hide Inv, ReconcileLocked, NobodyInBody, OnePending, SafetyPathKept, ScheduleSafety, Cancel;
    match s.control
    case StartFlag(_) =>
    case StartMonitor =>
    case StartUndo =>
    case StartSchedule =>
  }

  lemma StopKeepsUnasked(s: State, ok: bool, n: Tid)
    requires Inv(s) && Unasked(s) && InStop(s.control)
    ensures Unasked(DoController(s, ok, n))
  {
    Parts(s);
    CancelKeepsPlace(s, SavedEvent(s.control));
    CancelKeepsPlace(s, SavedSafety(s.control));
    hide Inv, ReconcileLocked, NobodyInBody, OnePending, SafetyPathKept, ScheduleSafety, Cancel;
    if s.control.StopFlag? {
    } else {
      assert s.stopped;
      assert DoController(s, ok, n).stopped;
      hide DoController;
    }
  }

  lemma ReaderKeepsUnasked(s: State, ok: bool, n: Tid)
    requires Unasked(s) && ReaderAlive(s)
    ensures Unasked(DoReader(s, ok, n))
  {
    HintsKeepPlace(s, n);
    hide RequestReconcile;
  }

  lemma StepKeepsUnasked(s: State, a: Action)
    requires Inv(s) && Enabled(s, a) && Unasked(s)
    ensures Unasked(Do(s, a))
  {
    match a
    case StepTask(t, ok, n) =>
      HintsKeepPlace(s, n);
      if s.tasks[t].Timer? { TimerKeepsPlace(s, t, ok, n); }
      hide RequestReconcile, DoTimer, Inv;
    case StepController(ok, n) =>
      if InStop(s.control) { StopKeepsUnasked(s, ok, n); } else { StartKeepsUnasked(s, ok, n); }
    case StepReader(ok, n) => ReaderKeepsUnasked(s, ok, n);
    case _ =>
  }

  lemma {:induction false} RunKeepsUnasked(states: seq<State>, actions: seq<Action>, n: nat)
    requires Run(states, actions) && n <= |actions|
    ensures Unasked(states[n]) && Inv(states[n])
  {
    RunKeepsInv(states, actions);
    if n > 0 {
      RunKeepsUnasked(states, actions, n - 1);
      StepKeepsUnasked(states[n - 1], actions[n - 1]);
    }
  }

  // --------------------------------------------------- one neighbour event

  /** The reader has a line that it is not done with. */
  predicate Handling(r: ReaderPc) {
    r.Dispatching? || r.Gate? || r.Writing? || r.Hinting?
  }

  function TurnsLeft(r: ReaderPc): nat {
    match r
    case Starting => 4
    case Spawning => 3
    case Publishing => 2
    case Rechecking => 1
    case Dispatching => 4
    case Gate => 3
    case Writing => 2
    case Hinting => 1
    case _ => 0
  }

  /** Steps of the reader from step i up to step j. */
  function Turns(actions: seq<Action>, i: nat, j: nat): nat
    requires i <= j <= |actions|
  {
    if i == j then 0 else Turns(actions, i, j - 1) + if actions[j - 1].StepReader? then 1 else 0
  }

  /** The reader's section that decides what to do with the event; its `ok` says that the event is confirmed. */
  ghost predicate Decides(states: seq<State>, actions: seq<Action>, g: nat)
    requires g < |actions| < |states|
  {
    states[g].reader.Gate? && actions[g].StepReader?
  }

  /** Between steps i and j the line was parsed, and is a neighbour event or is none. */
  ghost predicate Parsed(states: seq<State>, actions: seq<Action>, i: nat, j: nat, event: bool)
    requires i <= j <= |actions| < |states|
  {
    exists d :: i < d < j && Parses(states, actions, d) && actions[d].ok == event
  }

  ghost predicate Parses(states: seq<State>, actions: seq<Action>, d: nat)
    requires d < |actions| < |states|
  {
    states[d].reader.Dispatching? && actions[d].StepReader?
  }

  /** The reader is inside update_presence in some state after step i, up to state j. */
  ghost predicate Wrote(states: seq<State>, i: nat, j: nat)
    requires j < |states|
  {
    exists w :: i < w <= j && states[w].reader.Writing?
  }

  /** Between steps i and j the event was decided on, and written exactly if it is confirmed. */
  ghost predicate Decided(states: seq<State>, actions: seq<Action>, i: nat, j: nat)
    requires i <= j <= |actions| < |states|
  {
    exists g :: i < g < j && Decides(states, actions, g) && (actions[g].ok <==> Wrote(states, i, j))
  }

  /** An event timer is armed in some state after step i, up to state j. */
  ghost predicate EventArmed(states: seq<State>, i: nat, j: nat)
    requires j < |states|
  {
    exists m :: i < m <= j && states[m].eventTimer.Some? && Armed(states[m].tasks, states[m].eventTimer.value, Event)
  }

  /** How far the handling of the line that arrived in step i has come in state j. */
  ghost predicate Progress(states: seq<State>, actions: seq<Action>, i: nat, j: nat)
    requires i < j <= |actions| < |states|
  {
    && Turns(actions, i + 1, j) + TurnsLeft(states[j].reader) <= 4
    && (if states[j].reader.Dispatching? then !Parsed(states, actions, i, j, true) && !Parsed(states, actions, i, j, false)
        else if states[j].reader.Reading? then Parsed(states, actions, i, j, true) != Parsed(states, actions, i, j, false)
        else Parsed(states, actions, i, j, true) && !Parsed(states, actions, i, j, false))
    && (match states[j].reader
        case Dispatching => !Wrote(states, i, j)
        case Gate => !Wrote(states, i, j)
        case Writing => exists g :: i < g < j && Decides(states, actions, g) && actions[g].ok
        case Hinting => Decided(states, actions, i, j)
        case Reading =>
          if Parsed(states, actions, i, j, true) then Decided(states, actions, i, j) && EventArmed(states, i, j)
          else !Wrote(states, i, j)
        case _ => false)
  }

  lemma ProgressWaits(states: seq<State>, actions: seq<Action>, i: nat, j: nat)
    requires i < j < |actions| < |states| && Progress(states, actions, i, j)
    requires states[j + 1].reader == states[j].reader && !actions[j].StepReader?
    ensures Progress(states, actions, i, j + 1)
  {
    hide Decides;
    WroteExtends(states, i, j);
    ParsedExtends(states, actions, i, j, true);
    ParsedExtends(states, actions, i, j, false);
    hide Wrote, Parsed;
    if states[j].reader.Reading? && Parsed(states, actions, i, j, true) {
      var m :| i < m <= j && states[m].eventTimer.Some? && Armed(states[m].tasks, states[m].eventTimer.value, Event);
      assert i < m <= j + 1;
    }
  }

  lemma ParsedExtends(states: seq<State>, actions: seq<Action>, i: nat, j: nat, event: bool)
    requires i < j < |actions| < |states|
    ensures Parsed(states, actions, i, j + 1, event)
            <==> Parsed(states, actions, i, j, event) || (Parses(states, actions, j) && actions[j].ok == event)
  {
  }

  lemma WroteExtends(states: seq<State>, i: nat, j: nat)
    requires i <= j && j + 1 < |states|
    ensures Wrote(states, i, j + 1) <==> Wrote(states, i, j) || states[j + 1].reader.Writing?
  {
  }

  /** What one step of the reader does to a line it is handling. */
  lemma HandlingStep(s: State, ok: bool, n: Tid)
    requires Handling(s.reader) && !s.stopped && !s.monitorStop
    ensures var r := DoReader(s, ok, n).reader;
            match s.reader
            case Dispatching => if ok then r.Gate? else r.Reading?
            case Gate => if ok then r.Writing? else r.Hinting?
            case Writing => r.Hinting?
            case _ => r.Reading? && DoReader(s, ok, n).eventTimer.Some?
  {
  }

  lemma ProgressMoves(states: seq<State>, actions: seq<Action>, i: nat, j: nat)
    requires i < j < |actions| < |states| && Progress(states, actions, i, j) && !states[j].reader.Reading?
    requires Enabled(states[j], actions[j]) && states[j + 1] == Do(states[j], actions[j]) && actions[j].StepReader?
    requires !states[j].stopped && !states[j].monitorStop && Inv(states[j + 1])
    ensures Progress(states, actions, i, j + 1)
  {
    var s, a := states[j], actions[j];
    HandlingStep(s, a.ok, a.spawned);
    if s.reader.Hinting? {
      Parts(states[j + 1]);
      assert EventArmed(states, i, j + 1);
    }
    WroteExtends(states, i, j);
    ParsedExtends(states, actions, i, j, true);
    ParsedExtends(states, actions, i, j, false);
    assert s.reader.Writing? ==> Wrote(states, i, j);
    hide DoReader, Inv, Wrote, EventArmed, Parsed;
    if s.reader.Gate? { assert Decides(states, actions, j); }
  }

  lemma {:induction false} EventProgress(states: seq<State>, actions: seq<Action>, i: nat, j: nat)
    requires Run(states, actions) && i < j <= |actions|
    requires states[i].reader.Reading? && actions[i].StepReader? && actions[i].ok
    requires forall m :: i <= m <= j ==> !states[m].stopped
    requires forall m :: i < m < j ==> !states[m].reader.Reading?
    ensures Progress(states, actions, i, j)
  {
    hide Inv, Do, Progress;
    RunKeepsUnasked(states, actions, j);
    if j == i + 1 {
      FirstProgress(states, actions, i);
    } else {
      EventProgress(states, actions, i, j - 1);
      RunKeepsUnasked(states, actions, j - 1);
      ProgressIsAlive(states, actions, i, j - 1);
      if actions[j - 1].StepReader? {
        ProgressMoves(states, actions, i, j - 1);
      } else {
        ReaderFrame(states[j - 1], actions[j - 1]);
        ProgressWaits(states, actions, i, j - 1);
      }
    }
  }

  lemma FirstProgress(states: seq<State>, actions: seq<Action>, i: nat)
    requires i < |actions| < |states| && Enabled(states[i], actions[i]) && states[i + 1] == Do(states[i], actions[i])
    requires states[i].reader.Reading? && actions[i].StepReader? && actions[i].ok
    ensures Progress(states, actions, i, i + 1)
  {
  }

  lemma ProgressIsAlive(states: seq<State>, actions: seq<Action>, i: nat, j: nat)
    requires i < j <= |actions| < |states| && Progress(states, actions, i, j)
    ensures Alive(states[j].reader)
  {
  }

  /**
    Take a line that arrives in step i, and any later state j up to the reader's return to the pipe,
    with the service not stopped meanwhile. The reader is still at it, or it has returned. By then a line
    that is no neighbour event has been ignored; an event has been written if it is confirmed, and has
    armed an event timer in any case. It takes at most four steps of the reader.
  */
  lemma EventIsHandled(states: seq<State>, actions: seq<Action>, i: nat, j: nat)
    requires Run(states, actions) && i < j <= |actions|
    requires states[i].reader.Reading? && actions[i].StepReader? && actions[i].ok
    requires forall m :: i <= m <= j ==> !states[m].stopped
    requires forall m :: i < m < j ==> !states[m].reader.Reading?
    ensures Turns(actions, i + 1, j) <= 4
    ensures if !states[j].reader.Reading? then Handling(states[j].reader) && Turns(actions, i + 1, j) < 4
            else if Parsed(states, actions, i, j, true) then Decided(states, actions, i, j) && EventArmed(states, i, j)
            else Parsed(states, actions, i, j, false) && !Wrote(states, i, j)
  {
    EventProgress(states, actions, i, j);
  }

  // ------------------------------------------------------ the reader's life

  /** The child could be started whenever the reader tried. */
  ghost predicate ChildStarts(states: seq<State>, actions: seq<Action>, i: nat, j: nat)
    requires i <= j <= |actions| < |states|
  {
    forall m :: i <= m < j && states[m].reader.Spawning? && actions[m].StepReader? ==> actions[m].ok
  }

  ghost predicate ChildLives(actions: seq<Action>, i: nat, j: nat)
    requires i <= j <= |actions|
  {
    forall m :: i <= m < j ==> !actions[m].ChildDies?
  }

  predicate ComingUp(s: State) {
    s.reader.Starting? || s.reader.Spawning? || ((s.reader.Publishing? || s.reader.Rechecking? || s.reader.Reading?) && s.childAlive)
  }

  lemma ComingUpStep(s: State, ok: bool, n: Tid)
    requires ComingUp(s) && !s.reader.Reading? && !s.monitorStop && (s.reader.Spawning? ==> ok)
    ensures ComingUp(DoReader(s, ok, n)) && TurnsLeft(DoReader(s, ok, n).reader) + 1 == TurnsLeft(s.reader)
  {
  }

  lemma TurnsExtend(actions: seq<Action>, i: nat, j: nat)
    requires i <= j < |actions|
    ensures Turns(actions, i, j + 1) == Turns(actions, i, j) + if actions[j].StepReader? then 1 else 0
  {
  }

  /**
    A started reader whose child starts and lives is on the pipe after four steps, unless the service is
    stopped before.
  */
  lemma {:induction false} ReaderComesUp(states: seq<State>, actions: seq<Action>, i: nat, j: nat)
    requires Run(states, actions) && i <= j <= |actions| && states[i].reader.Starting?
    requires forall m :: i <= m <= j ==> !states[m].stopped
    requires forall m :: i <= m < j ==> !states[m].reader.Reading?
    requires ChildStarts(states, actions, i, j) && ChildLives(actions, i, j)
    ensures ComingUp(states[j]) && Turns(actions, i, j) + TurnsLeft(states[j].reader) == 4
  {
    hide Inv, Do;
    if j > i {
      ReaderComesUp(states, actions, i, j - 1);
      RunKeepsUnasked(states, actions, j - 1);
      var s, a := states[j - 1], actions[j - 1];
      TurnsExtend(actions, i, j - 1);
      if a.StepReader? {
        ComingUpStep(s, a.ok, a.spawned);
        DoReaderIsDo(s, a);
      } else {
        ReaderFrame(s, a);
      }
    }
  }

  lemma DoReaderIsDo(s: State, a: Action)
    requires Enabled(s, a) && a.StepReader?
    ensures Do(s, a) == DoReader(s, a.ok, a.spawned)
  {
  }

  /** The reader is on the pipe or handling a line, and the child it reads from runs. */
  predicate InService(s: State) {
    (s.reader.Reading? || Handling(s.reader)) && s.childAlive
  }

  lemma ServiceStep(s: State, a: Action)
    requires InService(s) && !s.monitorStop && Enabled(s, a) && a.StepReader?
    ensures InService(Do(s, a))
  {
    HintsKeepPlace(s, a.spawned);
    hide RequestReconcile;
  }

  /** A reader in service stays in service until its child dies or the service is stopped. */
  lemma {:induction false} ReaderStaysInService(states: seq<State>, actions: seq<Action>, i: nat, j: nat)
    requires Run(states, actions) && i <= j <= |actions| && InService(states[i])
    requires forall m :: i <= m <= j ==> !states[m].stopped
    requires ChildLives(actions, i, j)
    ensures InService(states[j])
  {
    hide Inv, Do;
    if j > i {
      ReaderStaysInService(states, actions, i, j - 1);
      RunKeepsUnasked(states, actions, j - 1);
      var s, a := states[j - 1], actions[j - 1];
      if a.StepReader? { ServiceStep(s, a); } else { ReaderFrame(s, a); }
    }
  }

  // ------------------------------------------------------------ the child

  /** A child runs only under a reader that has it. */
  predicate ChildHasReader(s: State) {
    s.childAlive ==> s.reader.Publishing? || Serving(s.reader) || s.reader.Finishing?
  }

  lemma ControllerKeepsChild(s: State, ok: bool, n: Tid)
    requires Inv(s) && ChildHasReader(s)
    ensures ChildHasReader(DoController(s, ok, n))
  {
    Parts(s);
    HintsKeepPlace(s, n);
    CancelKeepsPlace(s, SavedEvent(s.control));
    CancelKeepsPlace(s, SavedSafety(s.control));
    hide Inv, ReconcileLocked, NobodyInBody, OnePending, SafetyPathKept, ScheduleSafety, Cancel, FlagsAgree;
    if s.control.StartMonitor? || s.control.StopMonitorKill? || s.control.StopMonitorClear? {
    } else {
      SectionKeepsChild(s, ok, n);
      hide DoController;
    }
  }

  lemma SectionKeepsChild(s: State, ok: bool, n: Tid)
    requires !s.control.StartMonitor? && !s.control.StopMonitorKill? && !s.control.StopMonitorClear?
    ensures DoController(s, ok, n).reader == s.reader && DoController(s, ok, n).childAlive == s.childAlive
  {
    HintsKeepPlace(s, n);
    CancelKeepsPlace(s, SavedEvent(s.control));
    CancelKeepsPlace(s, SavedSafety(s.control));
    hide ScheduleSafety, Cancel;
    match s.control
    case StartSchedule =>
    case StopCancelEvent(_, _) =>
    case StopCancelSafety(_) =>
    case _ =>
  }

  lemma ReaderKeepsChild(s: State, ok: bool, n: Tid)
    requires ChildHasReader(s) && ReaderAlive(s) && (s.reader.Reading? && !ok ==> !s.childAlive)
    ensures ChildHasReader(DoReader(s, ok, n))
  {
    HintsKeepPlace(s, n);
    hide RequestReconcile;
  }

  lemma StepKeepsChild(s: State, a: Action)
    requires Inv(s) && Enabled(s, a) && ChildHasReader(s)
    ensures ChildHasReader(Do(s, a))
  {
    match a
    case StepTask(t, ok, n) =>
      HintsKeepPlace(s, n);
      if s.tasks[t].Timer? { TimerKeepsPlace(s, t, ok, n); }
      hide RequestReconcile, DoTimer, Inv;
    case StepController(ok, n) =>
      ControllerKeepsChild(s, ok, n);
      hide DoController, Inv;
    case StepReader(ok, n) =>
      ReaderKeepsChild(s, ok, n);
      hide DoReader, Inv;
    case _ => hide Inv;
  }

  /** No child outlives the reader that started it; in particular none is left when stop has returned. */
  lemma {:induction false} NoChildOutlivesReader(states: seq<State>, actions: seq<Action>, n: nat)
    requires Run(states, actions) && n <= |actions|
    ensures ChildHasReader(states[n])
    ensures Quiet(states[n].control) ==> !states[n].childAlive
  {
    hide Do, Enabled;
    RunKeepsInv(states, actions);
    if n > 0 {
      NoChildOutlivesReader(states, actions, n - 1);
      StepKeepsChild(states[n - 1], actions[n - 1]);
    }
    Parts(states[n]);
    hide Inv;
  }

  /** A reader that is asked to stop before it has started its child does not start one. */
  lemma {:induction false} AskedReaderStartsNoChild(states: seq<State>, actions: seq<Action>, i: nat, j: nat)
    requires Run(states, actions) && i <= j <= |actions| && states[i].reader.Starting?
    requires forall m :: i <= m <= j ==> states[m].monitorStop
    ensures !Alive(states[j].reader) || states[j].reader.Starting?
  {
    hide Do, Enabled;
    if j > i {
      AskedReaderStartsNoChild(states, actions, i, j - 1);
      AskedStep(states[j - 1], actions[j - 1]);
    }
  }

  lemma AskedStep(s: State, a: Action)
    requires Enabled(s, a) && s.monitorStop && (!Alive(s.reader) || s.reader.Starting?)
    ensures Do(s, a).monitorStop ==> !Alive(Do(s, a).reader) || Do(s, a).reader.Starting?
  {
    match a
    case StepTask(t, ok, n) =>
      HintsKeepPlace(s, n);
      if s.tasks[t].Timer? { TimerKeepsPlace(s, t, ok, n); }
      hide RequestReconcile, DoTimer;
    case StepController(ok, n) =>
      if s.control.StartMonitor? || s.control.StopMonitorKill? || s.control.StopMonitorClear? {
      } else {
        SectionKeepsChild(s, ok, n);
        hide DoController;
      }
    case _ =>
  }
}
