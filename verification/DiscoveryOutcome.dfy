/** How a scan ends, told from what happened to it (network/discovery_service.py). */
module DiscoveryOutcome {
  import opened Prelude
  import opened DiscoveryService

  // ------------------------------------------------- what happened to a scan

  /** What the scanner reported to the scan in the first n steps. */
  function ReportBy(actions: seq<Action>, n: nat, id: ScanId): Option<Report>
    requires n <= |actions|
  {
    if n == 0 then None
    else if actions[n - 1].Observe? && actions[n - 1].id == id then Some(actions[n - 1].report)
    else ReportBy(actions, n - 1, id)
  }

  /** Whether the scan's own token was cancelled when it came to the boundary. */
  ghost function CaughtBy(states: seq<State>, actions: seq<Action>, n: nat, id: ScanId): Option<bool>
    requires n <= |actions| < |states|
  {
    if n == 0 then None
    else if actions[n - 1] == Cross(id) then
      Some(id in states[n - 1].scans && states[n - 1].scans[id].token in states[n - 1].cancelled)
    else CaughtBy(states, actions, n - 1, id)
  }

  function WriteBy(actions: seq<Action>, n: nat, id: ScanId): Option<bool>
    requires n <= |actions|
  {
    if n == 0 then None
    else if actions[n - 1].Write? && actions[n - 1].id == id then Some(actions[n - 1].ok)
    else WriteBy(actions, n - 1, id)
  }

  function ResolveBy(actions: seq<Action>, n: nat, id: ScanId): Option<bool>
    requires n <= |actions|
  {
    if n == 0 then None
    else if actions[n - 1].Resolve? && actions[n - 1].id == id then Some(actions[n - 1].ok)
    else ResolveBy(actions, n - 1, id)
  }

  /** Between the section that sets `running` and the one that clears it. */
  predicate UnderWay(s: State, id: ScanId) {
    id in s.scans && Active(s.scans[id].pc)
  }

  ghost predicate Busy(s: State) {
    exists id :: UnderWay(s, id)
  }

  /** Whether another scan was under way when this one began. */
  ghost function BusyBy(states: seq<State>, actions: seq<Action>, n: nat, id: ScanId): Option<bool>
    requires n <= |actions| < |states|
  {
    if n == 0 then None
    else if actions[n - 1] == Begin(id) then
      Some(Busy(states[n - 1]))
    else BusyBy(states, actions, n - 1, id)
  }

  /** The snapshot a scan must end with; None while that is open. */
  function Outcome(report: Option<Report>, caught: Option<bool>, wrote: Option<bool>, resolved: Option<bool>): Option<Snapshot> {
    match report
    case None => None
    case Some(Noticed) => Some(Snapshot(false, true, false))
    case Some(Failed) => Some(Snapshot(false, false, true))
    case Some(Hosts(complete)) =>
      if caught == Some(true) then Some(Snapshot(false, true, false))
      else if wrote == Some(false) || resolved == Some(false) then Some(Snapshot(false, false, true))
      else if caught == Some(false) && wrote == Some(true) && resolved == Some(true) then Some(Snapshot(complete, false, false))
      else None
  }

  // ------------------------------------------------------------- tracking

  predicate Told(scan: Scan, wrote: bool, r: Option<Report>, c: Option<bool>, w: Option<bool>, v: Option<bool>) {
    && (match scan.pc
        case Entering => r.None? && c.None? && w.None? && v.None?
        case Rejected => r.None? && c.None? && w.None? && v.None?
        case Observing => r.None? && c.None? && w.None? && v.None?
        case AtBoundary(complete) => r == Some(Hosts(complete)) && c.None? && w.None? && v.None?
        case Writing(complete) => r == Some(Hosts(complete)) && c == Some(false) && w.None? && v.None?
        case Resolving(complete) => r == Some(Hosts(complete)) && c == Some(false) && w == Some(true) && v.None?
        case Storing(x) => Outcome(r, c, w, v) == Some(x)
        case Recording(x) => Outcome(r, c, w, v) == Some(x)
        case Closing(x) => Outcome(r, c, w, v) == Some(x)
        case Returned(x) => Outcome(r, c, w, v) == Some(x))
    && (scan.crossed <==> c == Some(false))
    && (wrote <==> w == Some(true))
  }

  ghost predicate Tracked(states: seq<State>, actions: seq<Action>, n: nat, id: ScanId)
    requires n <= |actions| < |states|
  {
    var r, c := ReportBy(actions, n, id), CaughtBy(states, actions, n, id);
    var w, v, busy := WriteBy(actions, n, id), ResolveBy(actions, n, id), BusyBy(states, actions, n, id);
    if id !in states[n].scans then r.None? && c.None? && w.None? && v.None? && busy.None?
    else
      && Told(states[n].scans[id], id in states[n].writes, r, c, w, v)
      && (states[n].scans[id].pc.Entering? <==> busy.None?)
      && (states[n].scans[id].pc.Rejected? <==> busy == Some(true))
  }

  /** A step of another scan, or of none, tells nothing new about this one. */
  lemma OtherStep(s: State, a: Action, id: ScanId)
    requires Inv(s) && Enabled(s, a) && id in s.scans
    requires a.Cancel? || a.CancelToken? || (!a.Call? && a.id != id) || (a.Call? && a.id != id)
    ensures id in Do(s, a).scans && Do(s, a).scans[id] == s.scans[id]
    ensures id in Do(s, a).writes <==> id in s.writes
  {
  }

  /** A step of the scan itself. */
  lemma OwnStep(s: State, a: Action, r: Option<Report>, c: Option<bool>, w: Option<bool>, v: Option<bool>)
    requires Enabled(s, a) && !a.Call? && !a.Cancel? && !a.CancelToken? && a.id in s.scans
    requires Told(s.scans[a.id], a.id in s.writes, r, c, w, v)
    requires Active(s.scans[a.id].pc) ==> s.token == Some(s.scans[a.id].token)
    ensures a.id in Do(s, a).scans
    ensures Told(Do(s, a).scans[a.id], a.id in Do(s, a).writes,
                 if a.Observe? then Some(a.report) else r,
                 if a.Cross? then Some(s.scans[a.id].token in s.cancelled) else c,
                 if a.Write? then Some(a.ok) else w,
                 if a.Resolve? then Some(a.ok) else v)
    ensures var pc, next := s.scans[a.id].pc, Do(s, a).scans[a.id].pc;
            && !next.Entering? && (a.Begin? <==> pc.Entering?)
            && (if a.Begin? then next.Rejected? <==> s.running else (next.Rejected? <==> pc.Rejected?))
  {
  }

  lemma StepTracked(states: seq<State>, actions: seq<Action>, n: nat, id: ScanId)
    requires n < |actions| < |states| && Inv(states[n]) && Tracked(states, actions, n, id)
    requires Enabled(states[n], actions[n]) && states[n + 1] == Do(states[n], actions[n])
    ensures Tracked(states, actions, n + 1, id)
  {
    var s, a := states[n], actions[n];
    if id !in s.scans {
      assert id !in s.writes;
    } else if a.Cancel? || a.CancelToken? || a.id != id {
      OtherStep(s, a, id);
      hide Do, Inv, Told;
    } else {
      if Active(s.scans[id].pc) { ActiveIsOwner(s, id); }
      assert s.running <==> Busy(s) by {
        if s.running { assert UnderWay(s, s.owner.value); }
      }
      hide Inv;
      if !a.Call? {
        OwnStep(s, a, ReportBy(actions, n, id), CaughtBy(states, actions, n, id), WriteBy(actions, n, id),
                ResolveBy(actions, n, id));
      }
      hide Do, Told;
    }
  }

  lemma {:induction false} RunTracked(states: seq<State>, actions: seq<Action>, n: nat, id: ScanId)
    requires Run(states, actions) && n <= |actions|
    ensures Tracked(states, actions, n, id)
  {
    RunKeepsInv(states, actions);
    if n > 0 {
      RunTracked(states, actions, n - 1, id);
      StepTracked(states, actions, n - 1, id);
    }
  }

  // ------------------------------------------------------------- theorems

  /**
    What becomes of a scan, in every interleaving. It crosses the boundary exactly when its token is not
    cancelled there, its transaction is committed exactly when the write succeeded, and it has a snapshot
    exactly when its outcome is settled, namely that one.
  */
  lemma ScanOutcome(states: seq<State>, actions: seq<Action>, n: nat, id: ScanId)
    requires Run(states, actions) && n <= |actions| && id in states[n].scans
    ensures var scan := states[n].scans[id];
            var outcome := Outcome(ReportBy(actions, n, id), CaughtBy(states, actions, n, id),
                                   WriteBy(actions, n, id), ResolveBy(actions, n, id));
            && (scan.crossed <==> CaughtBy(states, actions, n, id) == Some(false))
            && (id in states[n].writes <==> WriteBy(actions, n, id) == Some(true))
            && (HasSnapshot(scan.pc) <==> outcome.Some?)
            && (HasSnapshot(scan.pc) ==> outcome == Some(scan.pc.snapshot))
  {
    RunTracked(states, actions, n, id);
  }

  /** A scan is turned away exactly when another one was under way as it began. */
  lemma RejectedIffBusy(states: seq<State>, actions: seq<Action>, n: nat, id: ScanId)
    requires Run(states, actions) && n <= |actions| && id in states[n].scans
    ensures states[n].scans[id].pc.Rejected? <==> BusyBy(states, actions, n, id) == Some(true)
    ensures states[n].scans[id].pc.Entering? <==> BusyBy(states, actions, n, id).None?
  {
    RunTracked(states, actions, n, id);
  }

  function LastStored(actions: seq<Action>, n: nat): Option<ScanId>
    requires n <= |actions|
  {
    if n == 0 then None
    else if actions[n - 1].Store? then Some(actions[n - 1].id)
    else LastStored(actions, n - 1)
  }

  ghost predicate Keeps(s: State, last: Option<ScanId>) {
    match last
    case None => s.snapshot.None?
    case Some(id) =>
      && id in s.scans && HasSnapshot(s.scans[id].pc) && !s.scans[id].pc.Storing?
      && s.snapshot == Some(s.scans[id].pc.snapshot)
  }

  lemma StepKeeps(s: State, a: Action, last: Option<ScanId>)
    requires Enabled(s, a) && Keeps(s, last)
    ensures Keeps(Do(s, a), if a.Store? then Some(a.id) else last)
  {
    if last.Some? && !a.Cancel? && !a.CancelToken? && a.id != last.value {
      assert last.value in Do(s, a).scans && Do(s, a).scans[last.value] == s.scans[last.value];
    }
  }

  /** The service shows the snapshot of the scan that last stored one. */
  lemma {:induction false} LastSnapshotIsShown(states: seq<State>, actions: seq<Action>, n: nat)
    requires Run(states, actions) && n <= |actions|
    ensures Keeps(states[n], LastStored(actions, n))
  {
    if n > 0 {
      LastSnapshotIsShown(states, actions, n - 1);
      StepKeeps(states[n - 1], actions[n - 1], LastStored(actions, n - 1));
      hide Keeps, Do, Enabled;
    }
  }

  /** The token was cancelled by its caller, or by a cancel of the service that returned True. */
  ghost predicate CancelledBy(states: seq<State>, actions: seq<Action>, n: nat, token: TokenId)
    requires n <= |actions| < |states|
  {
    exists k :: 0 <= k < n && (actions[k] == CancelToken(token)
                               || (actions[k].Cancel? && CancelReturns(states[k]) && states[k].token == Some(token)))
  }

  lemma {:induction false} TokenIsCancelledIff(states: seq<State>, actions: seq<Action>, n: nat, token: TokenId)
    requires Run(states, actions) && n <= |actions|
    ensures token in states[n].cancelled <==> CancelledBy(states, actions, n, token)
  {
    if n > 0 {
      TokenIsCancelledIff(states, actions, n - 1, token);
      var s, a := states[n - 1], actions[n - 1];
      assert token in Do(s, a).cancelled <==>
             token in s.cancelled || a == CancelToken(token) || (a.Cancel? && CancelReturns(s) && s.token == Some(token));
      hide Do, Enabled, CancelReturns;
    }
  }

  /** The scan was under way when a cancel of the service returned True. */
  ghost predicate CancelMet(states: seq<State>, actions: seq<Action>, n: nat, id: ScanId)
    requires n <= |actions| < |states|
  {
    exists k :: 0 <= k < n && actions[k].Cancel? && CancelReturns(states[k]) && UnderWay(states[k], id)
  }

  lemma StepAccepts(s: State, a: Action, id: ScanId)
    requires Inv(s) && Enabled(s, a)
    ensures id in Do(s, a).accepted <==> id in s.accepted || (a.Cancel? && CancelReturns(s) && UnderWay(s, id))
  {
  }

  lemma {:induction false} AcceptedIff(states: seq<State>, actions: seq<Action>, n: nat, id: ScanId)
    requires Run(states, actions) && n <= |actions|
    ensures id in states[n].accepted <==> CancelMet(states, actions, n, id)
  {
    RunKeepsInv(states, actions);
    if n > 0 {
      AcceptedIff(states, actions, n - 1, id);
      var s, a := states[n - 1], actions[n - 1];
      StepAccepts(s, a, id);
      hide Do, Enabled, CancelReturns, Inv, UnderWay;
    }
  }

  // ------------------------------------------------------------ it ends

  /** A step of the call of scan itself. */
  predicate Own(a: Action, id: ScanId) {
    !a.Call? && !a.Cancel? && !a.CancelToken? && a.id == id
  }

  function OwnSteps(actions: seq<Action>, n: nat, id: ScanId): nat
    requires n <= |actions|
  {
    if n == 0 then 0 else OwnSteps(actions, n - 1, id) + if Own(actions[n - 1], id) then 1 else 0
  }

  function StepsLeft(pc: Pc): nat {
    match pc
    case Entering => 8
    case Observing => 7
    case AtBoundary(_) => 6
    case Writing(_) => 5
    case Resolving(_) => 4
    case Storing(_) => 3
    case Recording(_) => 2
    case Closing(_) => 1
    case Returned(_) => 0
    case Rejected => 0
  }

  lemma OwnStepAdvances(s: State, a: Action, id: ScanId)
    requires Enabled(s, a) && Own(a, id) && id in s.scans
    ensures id in Do(s, a).scans && StepsLeft(Do(s, a).scans[id].pc) < StepsLeft(s.scans[id].pc)
  {
  }

  lemma HasStep(s: State, id: ScanId)
    requires id in s.scans && StepsLeft(s.scans[id].pc) > 0
    ensures exists a :: Own(a, id) && Enabled(s, a)
  {
    var a := match s.scans[id].pc
      case Entering => Begin(id)
      case Observing => Observe(id, Failed)
      case AtBoundary(_) => Cross(id)
      case Writing(_) => Write(id, true)
      case Resolving(_) => Resolve(id, true)
      case Storing(_) => Store(id)
      case Recording(_) => Record(id)
      case _ => Close(id);
    assert Own(a, id) && Enabled(s, a);
  }

  /** A call of scan takes at most eight steps, is never stuck before its last one, and waits for nobody. */
  lemma {:induction false} EveryScanEnds(states: seq<State>, actions: seq<Action>, n: nat, id: ScanId)
    requires Run(states, actions) && n <= |actions|
    ensures if id !in states[n].scans then OwnSteps(actions, n, id) == 0
            else OwnSteps(actions, n, id) + StepsLeft(states[n].scans[id].pc) <= 8
    ensures id in states[n].scans && StepsLeft(states[n].scans[id].pc) > 0 ==> exists a :: Own(a, id) && Enabled(states[n], a)
  {
    RunKeepsInv(states, actions);
    if id in states[n].scans && StepsLeft(states[n].scans[id].pc) > 0 { HasStep(states[n], id); }
    if n > 0 {
      EveryScanEnds(states, actions, n - 1, id);
      var s, a := states[n - 1], actions[n - 1];
      if Own(a, id) {
        OwnStepAdvances(s, a, id);
      } else if id in s.scans {
        OtherStep(s, a, id);
      }
      hide Inv, StepsLeft;
    }
  }

  predicate IdleIsClean(s: State) {
    !s.running ==> s.token.None? && !s.committing
  }

  /** Between scans the service holds no token and no commit is under way. */
  lemma {:induction false} IdleServiceIsClean(states: seq<State>, actions: seq<Action>, n: nat)
    requires Run(states, actions) && n <= |actions|
    ensures IdleIsClean(states[n])
  {
    hide Do, Enabled;
    if n > 0 {
      IdleServiceIsClean(states, actions, n - 1);
      RunKeepsInv(states, actions);
      CleanStep(states[n - 1], actions[n - 1]);
    }
  }

  lemma CleanStep(s: State, a: Action)
    requires Inv(s) && Enabled(s, a) && IdleIsClean(s)
    ensures IdleIsClean(Do(s, a))
  {
    if a.Cross? { ActiveIsOwner(s, a.id); }
    hide ScanOk;
  }
}
