/**
  Single-flight, cancellable discovery as a step relation (network/discovery_service.py).

  Any number of threads call scan, cancel, or cancel a token they passed in. Every section under the
  service lock is one step.
*/
module DiscoveryService {
  import opened Prelude

  type ScanId = nat
  type TokenId = nat

  datatype Snapshot = Snapshot(complete: bool, cancelled: bool, failed: bool)

  datatype Pc =
    | Entering
    | Rejected                      // raised: another scan is running
    | Observing                     // inside scan_network_report
    | AtBoundary(complete: bool)    // report in hand; token check and commit flag next
    | Writing(complete: bool)       // reconcile_discovery, one transaction
    | Resolving(complete: bool)     // identities and the snapshot value
    | Storing(snapshot: Snapshot)   // `finally`: self._snapshot = snapshot
    | Recording(snapshot: Snapshot)
    | Closing(snapshot: Snapshot)
    | Returned(snapshot: Snapshot)

  /** `crossed`: this scan has passed the commit boundary. */
  datatype Scan = Scan(pc: Pc, token: TokenId, crossed: bool)

  datatype State = State(
    running: bool,
    committing: bool,
    token: Option<TokenId>,
    cancelled: set<TokenId>,
    snapshot: Option<Snapshot>,
    scans: map<ScanId, Scan>,
    owner: Option<ScanId>,       // history: the scan that set `running`
    accepted: set<ScanId>,       // history: scans during which cancel() returned True
    writes: seq<ScanId>)         // history: committed device transactions, by scan

  function Init(): State {
    State(false, false, None, {}, None, map[], None, {}, [])
  }

  /** What scan_network_report does: return a report, notice the token, or raise something else. */
  datatype Report = Hosts(complete: bool) | Noticed | Failed

  datatype Action =
    | Call(id: ScanId, token: TokenId)
    | Begin(id: ScanId)
    | Observe(id: ScanId, report: Report)
    | Cross(id: ScanId)
    | Write(id: ScanId, ok: bool)
    | Resolve(id: ScanId, ok: bool)
    | Store(id: ScanId)
    | Record(id: ScanId)
    | Close(id: ScanId)
    | Cancel
    | CancelToken(token: TokenId)

  const CANCELLED := Snapshot(false, true, false)
  const FAILED := Snapshot(false, false, true)

  predicate Enabled(s: State, a: Action) {
    match a
    case Call(id, _) => id !in s.scans
    case Begin(id) => id in s.scans && s.scans[id].pc.Entering?
    case Observe(id, report) =>
      && id in s.scans && s.scans[id].pc.Observing?
      && (report.Noticed? ==> s.scans[id].token in s.cancelled)
    case Cross(id) => id in s.scans && s.scans[id].pc.AtBoundary?
    case Write(id, _) => id in s.scans && s.scans[id].pc.Writing?
    case Resolve(id, _) => id in s.scans && s.scans[id].pc.Resolving?
    case Store(id) => id in s.scans && s.scans[id].pc.Storing?
    case Record(id) => id in s.scans && s.scans[id].pc.Recording?
    case Close(id) => id in s.scans && s.scans[id].pc.Closing?
    case Cancel => true
    case CancelToken(_) => true
  }

  function At(s: State, id: ScanId, pc: Pc): State
    requires id in s.scans
  {
    s.(scans := s.scans[id := s.scans[id].(pc := pc)])
  }

  /** The value cancel() returns in state s. */
  predicate CancelReturns(s: State) {
    s.running && !s.committing && s.token.Some?
  }

  function Do(s: State, a: Action): State
    requires Enabled(s, a)
  {
    match a
    case Call(id, token) => s.(scans := s.scans[id := Scan(Entering, token, false)])
    case Begin(id) =>
      if s.running then At(s, id, Rejected)
      else At(s, id, Observing).(running := true, committing := false,
                                 token := Some(s.scans[id].token), owner := Some(id))
    case Observe(id, report) =>
      (match report
       case Hosts(complete) => At(s, id, AtBoundary(complete))
       case Noticed => At(s, id, Storing(CANCELLED))
       case Failed => At(s, id, Storing(FAILED)))
    case Cross(id) =>
      if s.token.Some? && s.token.value in s.cancelled then At(s, id, Storing(CANCELLED))
      else s.(committing := true,
              scans := s.scans[id := Scan(Writing(s.scans[id].pc.complete), s.scans[id].token, true)])
    case Write(id, ok) =>
      if ok then At(s, id, Resolving(s.scans[id].pc.complete)).(writes := s.writes + [id])
      else At(s, id, Storing(FAILED))
    case Resolve(id, ok) =>
      At(s, id, Storing(if ok then Snapshot(s.scans[id].pc.complete, false, false) else FAILED))
    case Store(id) => At(s, id, Recording(s.scans[id].pc.snapshot)).(snapshot := Some(s.scans[id].pc.snapshot))
    case Record(id) => At(s, id, Closing(s.scans[id].pc.snapshot))
    case Close(id) =>
      At(s, id, Returned(s.scans[id].pc.snapshot)).(running := false, token := None, committing := false, owner := None)
    case Cancel =>
      if !CancelReturns(s) then s
      else s.(cancelled := s.cancelled + {s.token.value},
              accepted := if s.owner.Some? then s.accepted + {s.owner.value} else s.accepted)
    case CancelToken(token) => s.(cancelled := s.cancelled + {token})
  }

  ghost predicate Run(states: seq<State>, actions: seq<Action>) {
    && |states| == |actions| + 1
    && states[0] == Init()
    && forall i :: 0 <= i < |actions| ==> Enabled(states[i], actions[i]) && states[i + 1] == Do(states[i], actions[i])
  }

  // ------------------------------------------------------------ invariant

  /** Between the section that sets `running` and the one that clears it. */
  predicate Active(pc: Pc) {
    !pc.Entering? && !pc.Rejected? && !pc.Returned?
  }

  predicate HasSnapshot(pc: Pc) {
    pc.Storing? || pc.Recording? || pc.Closing? || pc.Returned?
  }

  predicate ScanOk(scan: Scan, wrote: bool, accepted: bool, cancelled: set<TokenId>) {
    && (scan.pc.Entering? || scan.pc.Rejected? || scan.pc.Observing? || scan.pc.AtBoundary? ==> !scan.crossed)
    && (scan.pc.Entering? || scan.pc.Rejected? ==> !accepted)
    && (scan.pc.Writing? || scan.pc.Resolving? ==> scan.crossed)
    && (wrote ==> scan.crossed && !scan.pc.Writing?)
    && (scan.pc.Resolving? ==> wrote)
    && (accepted ==> !scan.crossed && scan.token in cancelled)
    && (HasSnapshot(scan.pc) && scan.crossed ==> !scan.pc.snapshot.cancelled)
    && (HasSnapshot(scan.pc) && scan.pc.snapshot.complete ==> wrote)
    && (HasSnapshot(scan.pc) && scan.crossed && !scan.pc.snapshot.failed ==> wrote)
  }

  ghost predicate Inv(s: State) {
    && (s.running <==> s.owner.Some?)
    && (s.owner.Some? ==> s.owner.value in s.scans
                          && s.token == Some(s.scans[s.owner.value].token)
                          && s.committing == s.scans[s.owner.value].crossed)
    && (forall id :: id in s.scans ==> (Active(s.scans[id].pc) <==> s.owner == Some(id)))
    && (forall id :: id in s.scans ==> ScanOk(s.scans[id], id in s.writes, id in s.accepted, s.cancelled))
    && (forall id :: id in s.accepted || id in s.writes ==> id in s.scans)
    && (forall i, j :: 0 <= i < j < |s.writes| ==> s.writes[i] != s.writes[j])
  }

  lemma BeginKeepsInv(s: State, id: ScanId)
    requires Inv(s) && Enabled(s, Begin(id))
    ensures Inv(Do(s, Begin(id)))
  {
  }

  /** A scan moves on between the two sections that take and free the running flag. */
  lemma MoveKeepsInv(s: State, id: ScanId, scan: Scan, commits: bool)
    requires Inv(s) && id in s.scans && s.owner == Some(id)
    requires Active(scan.pc) && scan.token == s.scans[id].token
    requires commits ==> id !in s.writes
    requires ScanOk(scan, id in s.writes || commits, id in s.accepted, s.cancelled)
    ensures Inv(s.(scans := s.scans[id := scan], committing := scan.crossed,
                   writes := if commits then s.writes + [id] else s.writes))
  {
  }

  lemma StoredKeepsInv(s: State, snapshot: Option<Snapshot>)
    requires Inv(s)
    ensures Inv(s.(snapshot := snapshot))
  {
  }

  /** The owner is the only active scan. */
  lemma ActiveIsOwner(s: State, id: ScanId)
    requires Inv(s) && id in s.scans && Active(s.scans[id].pc)
    ensures s.owner == Some(id) && s.token == Some(s.scans[id].token) && s.committing == s.scans[id].crossed
    ensures ScanOk(s.scans[id], id in s.writes, id in s.accepted, s.cancelled)
  {
  }

  /** Steps of one scan that neither take nor free the running flag. */
  lemma ScanStepKeepsInv(s: State, a: Action)
    requires Inv(s) && Enabled(s, a)
    requires a.Observe? || a.Store? || a.Record? || a.Cross?
    ensures Inv(Do(s, a))
  {
    hide Inv;
    ActiveIsOwner(s, a.id);
    var next := Do(s, a);
    MoveKeepsInv(s, a.id, next.scans[a.id], false);
    StoredKeepsInv(s.(scans := next.scans, committing := next.committing), next.snapshot);
  }

  lemma CommitStepKeepsInv(s: State, a: Action)
    requires Inv(s) && Enabled(s, a)
    requires a.Write? || a.Resolve?
    ensures Inv(Do(s, a))
  {
    hide Inv;
    ActiveIsOwner(s, a.id);
    var next := Do(s, a);
    MoveKeepsInv(s, a.id, next.scans[a.id], a.Write? && a.ok);
  }

  lemma CloseKeepsInv(s: State, id: ScanId)
    requires Inv(s) && Enabled(s, Close(id))
    ensures Inv(Do(s, Close(id)))
  {
  }

  /** Calls, and cancels through the service or through a caller's token. */
  lemma CallKeepsInv(s: State, a: Action)
    requires Inv(s) && Enabled(s, a)
    requires a.Call? || a.Cancel? || a.CancelToken?
    ensures Inv(Do(s, a))
  {
  }

  lemma StepKeepsInv(s: State, a: Action)
    requires Inv(s) && Enabled(s, a)
    ensures Inv(Do(s, a))
  {
    hide Inv, Do, Enabled;
    match a
    case Begin(id) => BeginKeepsInv(s, id);
    case Close(id) => CloseKeepsInv(s, id);
    case Observe(_, _) | Store(_) | Record(_) | Cross(_) => ScanStepKeepsInv(s, a);
    case Write(_, _) | Resolve(_, _) => CommitStepKeepsInv(s, a);
    case _ => CallKeepsInv(s, a);
  }

  lemma {:induction false} RunKeepsInv(states: seq<State>, actions: seq<Action>)
    requires Run(states, actions)
    ensures forall i :: 0 <= i < |states| ==> Inv(states[i])
  {
    for i := 0 to |actions|
      invariant forall j :: 0 <= j <= i ==> Inv(states[j])
    {
      StepKeepsInv(states[i], actions[i]);
    }
  }

  // ------------------------------------------------------------- theorems

  /** At most one scan is between setting and clearing the running flag. */
  lemma SingleFlight(states: seq<State>, actions: seq<Action>, i: nat, a: ScanId, b: ScanId)
    requires Run(states, actions) && i < |states|
    requires a in states[i].scans && Active(states[i].scans[a].pc)
    requires b in states[i].scans && Active(states[i].scans[b].pc)
    ensures a == b && states[i].running
  {
    RunKeepsInv(states, actions);
  }

  /** If cancel returned True during a scan, that scan writes no device and its snapshot is not complete. */
  lemma AcceptedCancelPreventsWrite(states: seq<State>, actions: seq<Action>, i: nat, id: ScanId)
    requires Run(states, actions) && i < |states| && id in states[i].accepted
    ensures id in states[i].scans && id !in states[i].writes
    ensures HasSnapshot(states[i].scans[id].pc) ==> !states[i].scans[id].pc.snapshot.complete
  {
    RunKeepsInv(states, actions);
  }

  /**
    A cancel after the boundary returns False and changes nothing, and the commit runs whole: unless it
    fails, the scan ends with its one device transaction committed.
  */
  lemma CommitIsNeverInterrupted(states: seq<State>, actions: seq<Action>, i: nat, id: ScanId)
    requires Run(states, actions) && i < |states|
    requires id in states[i].scans && states[i].scans[id].crossed
    ensures Active(states[i].scans[id].pc) ==> !CancelReturns(states[i]) && Do(states[i], Cancel) == states[i]
    ensures HasSnapshot(states[i].scans[id].pc) ==> !states[i].scans[id].pc.snapshot.cancelled
    ensures HasSnapshot(states[i].scans[id].pc) && !states[i].scans[id].pc.snapshot.failed ==> id in states[i].writes
    ensures id !in states[i].accepted
    ensures multiset(states[i].writes)[id] <= 1
  {
    RunKeepsInv(states, actions);
    OccursOnce(states[i].writes, id);
  }

  lemma {:induction false} OccursOnce(s: seq<ScanId>, id: ScanId)
    requires forall i, j :: 0 <= i < j < |s| ==> s[i] != s[j]
    ensures multiset(s)[id] <= 1
  {
    if s != [] {
      assert s == s[..|s| - 1] + [s[|s| - 1]];
      OccursOnce(s[..|s| - 1], id);
      assert id in s[..|s| - 1] || multiset(s[..|s| - 1])[id] == 0;
    }
  }

  /** cancel returns True exactly while a scan is active and has not crossed; afterwards it cannot cross. */
  lemma CancelReturnsTrueBeforeBoundary(states: seq<State>, actions: seq<Action>, i: nat)
    requires Run(states, actions) && i < |states|
    ensures CancelReturns(states[i]) <==>
            exists id :: id in states[i].scans && Active(states[i].scans[id].pc) && !states[i].scans[id].crossed
    ensures CancelReturns(states[i]) ==> states[i].owner.Some? && states[i].owner.value in Do(states[i], Cancel).accepted
  {
    RunKeepsInv(states, actions);
  }
}
