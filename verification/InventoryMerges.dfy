/** Which merges a leave can be trusted after. */
module InventoryMerges {
  import opened Prelude
  import opened Addresses
  import opened InventoryModel
  import opened InventoryIdentity
  import opened InventoryLeaves

  // -------------------------------------------- the merge that breaks it

  /** A later scan that drops the device although it was sighted inside the grace window. */
  ghost predicate EarlyLeave(db: Db, s: set<Sighting>, id: Id, scan: Op, clock: int) {
    && scan.ReconcileScan? && clock <= scan.now && Leaves(db, scan, id)
    && exists t :: (id, t) in s && Limit(scan.now, scan.grace) < t
  }

  lemma MergeKeepsRow(db: Db, op: Op)
    requires MergesNow(db, op)
    ensures op.retained in db.devices && op.candidate in db.devices && op.retained in Apply(db, op).devices
    ensures Apply(db, op).devices[op.retained] == db.devices[op.retained]
  {
    MergeAllowed(db, op.retained, op.candidate, op.macs, op.confirmed, op.reasoned, op.blockers);
    hide MergeRefusal, MovePaths, RedirectAliases;
  }

  lemma CoveredHasNoEarlyLeave(db: Db, s: set<Sighting>, id: Id, scan: Op, clock: int)
    requires Valid(db) && id in db.devices && forall t :: (id, t) in s ==> SeenSince(db.devices[id], t)
    ensures !EarlyLeave(db, s, id, scan, clock)
  {
    hide Valid, Apply;
    if EarlyLeave(db, s, id, scan, clock) {
      LeavesIsOverdue(db, scan, id);
      TimedFreshens(db, scan);
    }
  }

  lemma EmptyScanLeaves(db: Db, id: Id, order: Host -> int, grace: int, now: int)
    requires Valid(db) && id in db.devices && Overdue(db.devices[id], {}, Limit(now, grace))
    ensures Leaves(db, ReconcileScan([], true, order, grace, true, now), id)
  {
    hide Clashes, Expire;
    RowsBelowNext(db);
    ExpireMeaning(db, db.nextId, {}, Limit(now, grace));
    assert Keys([]) == {};
  }

  /** An offline device, or one never seen, is not taken offline. */
  lemma NoLeaveWithoutTime(db: Db, id: Id, scan: Op)
    requires Valid(db) && id in db.devices && (!db.devices[id].online || db.devices[id].lastSeen.None?)
    ensures !Leaves(db, scan, id)
  {
    hide Valid, Apply;
    if Leaves(db, scan, id) {
      LeavesIsOverdue(db, scan, id);
      TimedFreshens(db, scan);
    }
  }

  lemma StaleMergeAllowsEarlyLeave(db: Db, s: set<Sighting>, op: Op, clock: int, t: int)
    requires Valid(db) && Past(db, s, clock) && MergesNow(db, op) && op.retained in db.devices
    requires var r := db.devices[op.retained]; r.online && r.lastSeen.Some? && r.lastSeen.value < t
    requires (op.candidate, t) in s
    ensures var scan := ReconcileScan([], true, h => 0, clock - db.devices[op.retained].lastSeen.value, true, clock);
            EarlyLeave(Apply(db, op), Redirected(s, op.retained, op.candidate), op.retained, scan, clock)
  {
    ApplyKeepsValid(db, op);
    MergeKeepsRow(db, op);
    hide Valid, Apply, MergesNow, Leaves;
    assert (op.retained, t) in Redirected(s, op.retained, op.candidate);
    EmptyScanLeaves(Apply(db, op), op.retained, h => 0, clock - db.devices[op.retained].lastSeen.value, clock);
  }

  /**
    A merge keeps the retained device's last_seen. So after it a scan can write a leave inside the
    grace window of a sighting exactly when an online retained device absorbed a later sighting.
  */
  lemma MergeAllowsEarlyLeaveIff(db: Db, s: set<Sighting>, op: Op, clock: int)
    requires Valid(db) && Covered(db, s) && Past(db, s, clock) && MergesNow(db, op)
    ensures op.retained in db.devices
    ensures (exists scan :: EarlyLeave(Apply(db, op), Redirected(s, op.retained, op.candidate), op.retained, scan, clock))
            <==> var r := db.devices[op.retained];
                 r.online && r.lastSeen.Some? && exists t :: (op.candidate, t) in s && r.lastSeen.value < t
  {
    MergeKeepsRow(db, op);
    ApplyKeepsValid(db, op);
    var after, moved, r := Apply(db, op), Redirected(s, op.retained, op.candidate), db.devices[op.retained];
    var retained := op.retained;
    if t :| (op.candidate, t) in s && r.online && r.lastSeen.Some? && r.lastSeen.value < t {
      StaleMergeAllowsEarlyLeave(db, s, op, clock, t);
    } else {
      hide Valid, Apply, MergesNow, Leaves;
      forall scan ensures !EarlyLeave(after, moved, retained, scan, clock) {
        if r.online && r.lastSeen.Some? {
          CoveredHasNoEarlyLeave(after, moved, retained, scan, clock);
        } else {
          NoLeaveWithoutTime(after, retained, scan);
        }
      }
    }
  }

  // ------------------------------------- runs without explicit offline calls

  /** Every online device was seen no earlier than it and than any device that is offline. */
  ghost predicate Outlived(db: Db, s: set<Sighting>) {
    && (forall r :: r in db.devices && db.devices[r].online ==> db.devices[r].lastSeen.Some?)
    && (forall x, r :: x in s && x.0 in db.devices && r in db.devices && db.devices[r].online ==>
          x.0 == r || !db.devices[x.0].online ==> SeenSince(db.devices[r], x.1))
  }

  ghost predicate NobodyLeaves(a: Db, b: Db) {
    forall id :: id in a.devices && id in b.devices && a.devices[id].online ==> b.devices[id].online
  }

  lemma QuietStepOutlived(a: Db, b: Db, s: set<Sighting>, more: set<Sighting>, clock: int, now: int)
    requires Outlived(a, s) && Past(a, s, clock) && clock <= now && Freshened(a, b, now) && NobodyLeaves(a, b)
    requires forall x :: x in more ==> x.1 == now && SeenNow(b, x.0, now)
    ensures Outlived(b, s + more)
  {
  }

  /** An online device that a scan leaves online was seen by it, or after its limit. */
  lemma SurvivorIsRecent(db: Db, op: Op, r: Id)
    requires Valid(db) && op.ReconcileScan? && op.missing
    requires r in Apply(db, op).devices && Apply(db, op).devices[r].online
    ensures var d := Apply(db, op).devices[r];
            d.lastSeen.Some? ==> d.lastSeen.value > Limit(op.now, op.grace)
  {
    hide Find, Valid, Identities, SameIdentities, ApplyGroups, GroupHosts, Clashes, Expire, AllClaims, NamesOf;
    var groups := GroupHosts(db, op.hosts);
    var applied := ApplyGroups(db, groups, op.auto, op.order, op.now);
    GroupsCover(db, op.hosts);
    ApplyGroupsKeep(db, groups, op.auto, op.order, op.now);
    ApplyGroupsFreshen(db, groups, op.auto, op.order, op.now);
    RowsBelowNext(applied);
    ExpireMeaning(applied, applied.nextId, Keys(groups), Limit(op.now, op.grace));
    if applied.devices[r].mac in Keys(groups) {
      OwnMacFinds(applied, r);
    }
  }

  lemma OwnMacFinds(db: Db, id: Id)
    requires Valid(db) && id in db.devices
    ensures Find(db, db.devices[id].mac) == Some(id)
  {
    FindIffResolves(db, db.devices[id].mac, id);
  }

  lemma ScanOutlived(db: Db, op: Op, s: set<Sighting>, clock: int)
    requires Valid(db) && op.ReconcileScan? && Outlived(db, s) && Past(db, s, clock) && clock <= op.now
    ensures Outlived(Apply(db, op), s + NewSightings(Apply(db, op), op))
  {
    hide Valid, Apply, NewSightings;
    var after := Apply(db, op);
    TimedFreshens(db, op);
    forall x, r | x in s && x.0 in after.devices && r in after.devices && after.devices[r].online
                  && (x.0 == r || !after.devices[x.0].online)
      ensures SeenSince(after.devices[r], x.1)
    {
      if x.0 != r && x.0 in db.devices && db.devices[x.0].online {
        LeavesIsOverdue(db, op, x.0);
        SurvivorIsRecent(db, op, r);
      }
    }
  }

  lemma MergeOutlived(db: Db, op: Op, s: set<Sighting>)
    requires Outlived(db, s) && MergesNow(db, op)
    requires op.candidate in db.devices ==> !db.devices[op.candidate].online
    ensures Outlived(Apply(db, op), Redirected(s, op.retained, op.candidate))
  {
    MergeAllowed(db, op.retained, op.candidate, op.macs, op.confirmed, op.reasoned, op.blockers);
    hide MergeRefusal, MovePaths, RedirectAliases;
  }

  lemma {:induction false} SyncNobodyLeaves(db: Db, hosts: seq<Host>, now: int)
    requires Identities(db)
    ensures NobodyLeaves(db, Sync(db, hosts, now)) && Sync(db, hosts, now).devices.Keys == db.devices.Keys
  {
    hide Find, Identities, SameIdentities;
    if hosts != [] {
      var init, h := hosts[..|hosts| - 1], hosts[|hosts| - 1];
      SyncNobodyLeaves(db, init, now);
      SyncKeeps(db, init, now);
      SameIdentitiesKeepValid(db, Sync(db, init, now));
      if h.mac.Some? && Find(Sync(db, init, now), h.mac.value).Some? {
        FoundIsRow(Sync(db, init, now), h.mac.value);
      }
    }
  }

  lemma SplitNobodyLeaves(db: Db, r: Id, mac: Option<Mac>, name: string, confirmed: bool)
    requires Valid(db) && Split(db, r, mac, name, confirmed).Ok?
    ensures NobodyLeaves(db, Split(db, r, mac, name, confirmed).value)
  {
    SplitAllowed(db, r, mac, name, confirmed);
    hide SplitRefusal, SplitPaths;
  }

  lemma RegistrationLetsNobodyLeave(db: Db, op: Op)
    requires Valid(db) && (op.AddDevice? || op.UpdateDevice? || op.DeleteDevice? || op.ResolveConflict?)
    ensures NobodyLeaves(db, Apply(db, op))
  {
    RowsBelowNext(db);
    hide Find, Valid, NameRefusal, MacRefusal, SetPresence, Sync, Reconcile, Merge, Split;
  }

  lemma PresenceLetsNobodyLeave(db: Db, mac: Option<Mac>, ip: Option<IpText>, now: int)
    requires Identities(db)
    ensures NobodyLeaves(db, SetPresence(db, mac, true, ip, now))
  {
    if mac.Some? && Find(db, mac.value).Some? { FoundIsRow(db, mac.value); }
    hide Find, Clashes;
  }

  /** Only scans, explicit offline calls and merges can take anything offline. */
  lemma OtherOpsLetNobodyLeave(db: Db, op: Op)
    requires Valid(db) && !op.ReconcileScan? && !op.MergeDevices? && (op.UpdatePresence? ==> op.online)
    ensures NobodyLeaves(db, Apply(db, op))
  {
    hide Valid, Identities, Add, Update, Delete, Resolve, Split, Sync, SetPresence;
    ValidIsIdentities(db);
    match op
    case SyncHosts(hosts, now) => SyncNobodyLeaves(db, hosts, now);
    case SplitAlias(r, mac, name, confirmed) =>
      if Split(db, r, mac, name, confirmed).Ok? { SplitNobodyLeaves(db, r, mac, name, confirmed); }
    case UpdatePresence(mac, _, ip, now) => PresenceLetsNobodyLeave(db, mac, ip, now);
    case _ => RegistrationLetsNobodyLeave(db, op);
  }

  /** No explicit offline call, and no committed merge that drops an online candidate. */
  ghost predicate Live(db: Db, op: Op) {
    && (op.UpdatePresence? ==> op.online)
    && (MergesNow(db, op) && op.candidate in db.devices ==> !db.devices[op.candidate].online)
  }

  lemma StepOutlived(db: Db, op: Op, s: set<Sighting>, clock: int)
    requires Valid(db) && Outlived(db, s) && Past(db, s, clock) && (Timed(op) ==> clock <= op.now) && Live(db, op)
    ensures Outlived(Apply(db, op), (if MergesNow(db, op) then Redirected(s, op.retained, op.candidate) else s)
                                    + NewSightings(Apply(db, op), op))
  {
    hide Valid, Apply, Merge, Redirected, Outlived, Past, Freshened, NobodyLeaves;
    if op.ReconcileScan? {
      ScanOutlived(db, op, s, clock);
    } else if MergesNow(db, op) {
      MergeOutlived(db, op, s);
      var moved := Redirected(s, op.retained, op.candidate);
      assert moved + NewSightings(Apply(db, op), op) == moved;
    } else if op.MergeDevices? {
      RefusedMerge(db, op);
      assert s + NewSightings(db, op) == s;
    } else {
      OtherOpsLetNobodyLeave(db, op);
      if Timed(op) {
        TimedFreshens(db, op);
        QuietStepOutlived(db, Apply(db, op), s, NewSightings(Apply(db, op), op), clock, op.now);
      } else {
        UntimedFreshens(db, op, clock);
        assert NewSightings(Apply(db, op), op) == {};
        QuietStepOutlived(db, Apply(db, op), s, {}, clock, clock);
      }
    }
  }

  lemma OutlivedIsFresh(db: Db, s: set<Sighting>, op: Op)
    requires Outlived(db, s) && Live(db, op)
    ensures Covered(db, s) && FreshMerge(db, s, op)
  {
    if MergesNow(db, op) { MergeKeepsRow(db, op); }
  }

  lemma NothingToOutlive()
    ensures Outlived(EMPTY, {})
  {
  }

  lemma {:induction false} LiveRunOutlived(start: int, ops: seq<Op>)
    requires Ordered(start, ops) && AtEveryCall(EMPTY, ops, Live)
    ensures Outlived(Run(EMPTY, ops), Sightings(EMPTY, ops)) && FreshMerges(EMPTY, ops)
  {
    hide Valid, Covered, Past, Outlived, Apply, MergesNow, FreshMerge, Live, Ordered, FreshMerges, AtEveryCall;
    if ops == [] {
      NothingToOutlive();
      NothingToMerge();
    } else {
      var init, last := ops[..|ops| - 1], ops[|ops| - 1];
      CallsExtend(EMPTY, ops, Live);
      OrderedExtends(start, ops);
      FreshMergesExtend(EMPTY, ops);
      LiveRunOutlived(start, init);
      RunCovers(start, init);
      OutlivedIsFresh(Run(EMPTY, init), Sightings(EMPTY, init), last);
      StepOutlived(Run(EMPTY, init), last, Sightings(EMPTY, init), Clock(start, init));
    }
  }

  lemma NothingToMerge()
    ensures FreshMerges(EMPTY, [])
  {
  }

  /**
    In the runs the application makes, where presence is only ever updated to online, no assumption on
    times is needed, as long as no merge drops an online candidate.
  */
  lemma LiveLeaveMeansUnseen(start: int, ops: seq<Op>, id: Id)
    requires ops != [] && Ordered(start, ops) && AtEveryCall(EMPTY, ops, Live)
    requires Leaves(Run(EMPTY, ops[..|ops| - 1]), ops[|ops| - 1], id)
    ensures var op := ops[|ops| - 1];
            forall t :: (id, t) in Sightings(EMPTY, ops) ==> t <= Limit(op.now, op.grace)
  {
    LiveRunOutlived(start, ops);
    LeaveMeansUnseen(start, ops, id);
  }
}
