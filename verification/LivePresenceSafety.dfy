/** What the live presence protocol guarantees in every interleaving. */
module LivePresenceSafety {
  import opened Prelude
  import opened LivePresence
  import opened LivePresenceInvariant

  // ------------------------------------------------------------- theorems

  /** The step scans, delivers a snapshot to the callback, or writes presence to the database. */
  predicate Works(s: State, a: Action) {
    match a
    case StepTask(t, _, _) => t in s.tasks && s.tasks[t].Timer? && InBody(s.tasks[t].pc)
    case StepReader(_, _) => Alive(s.reader)
    case _ => false
  }

  /**
    Once stop has returned, and until a start takes effect, no thread is inside a scan, a callback or
    the neighbour reader, and no enabled step begins or continues such work.
  */
  lemma NothingRunsAfterStop(states: seq<State>, actions: seq<Action>, i: nat, a: Action)
    requires Run(states, actions) && i < |states| && Quiet(states[i].control)
    ensures states[i].stopped && !Alive(states[i].reader)
    ensures forall t :: t in states[i].tasks && states[i].tasks[t].Timer? ==> !InBody(states[i].tasks[t].pc)
    ensures Enabled(states[i], a) ==> !Works(states[i], a)
  {
    RunKeepsInv(states, actions);
  }

  /** At most one thread is between the `_stopped` test and the release, so at most one scan runs. */
  lemma OneScanAtATime(states: seq<State>, actions: seq<Action>, i: nat, t: Tid, u: Tid)
    requires Run(states, actions) && i < |states|
    requires t in states[i].tasks && states[i].tasks[t].Timer? && InBody(states[i].tasks[t].pc)
    requires u in states[i].tasks && states[i].tasks[u].Timer? && InBody(states[i].tasks[u].pc)
    ensures t == u
    ensures states[i].tasks[t].pc.Probing? ==> !states[i].scanRunning
  {
    RunKeepsInv(states, actions);
  }

  /**
    While the service is not stopped, a safety timer is pending or some thread is on its way to
    schedule one, whatever scans raise.
  */
  lemma SafetyPathIsNeverLost(states: seq<State>, actions: seq<Action>, i: nat)
    requires Run(states, actions) && i < |states| && !states[i].stopped
    ensures Launching(states[i].control)
         || (states[i].safetyTimer.Some? && Armed(states[i].tasks, states[i].safetyTimer.value, Safety))
         || exists t :: t in states[i].tasks && states[i].tasks[t].Timer? && OnSafetyPath(states[i].tasks[t].pc)
  {
    RunKeepsInv(states, actions);
  }

  /** At most one event timer and one safety timer are pending. */
  lemma OnePendingTimerPerKind(states: seq<State>, actions: seq<Action>, i: nat, t: Tid, u: Tid)
    requires Run(states, actions) && i < |states|
    requires t in states[i].tasks && states[i].tasks[t].Timer? && Pending(states[i].tasks[t].pc)
    requires u in states[i].tasks && states[i].tasks[u].Timer? && Pending(states[i].tasks[u].pc)
    requires states[i].tasks[t].kind == states[i].tasks[u].kind
    ensures t == u
  {
    RunKeepsInv(states, actions);
  }
}
