/** A leave written by a scan means no confirmed observation of the device inside the grace window. */
module InventoryLeaves {
  import opened Prelude
  import opened Addresses
  import opened InventoryModel
  import opened InventoryIdentity
  import AutoName

  /** A confirmed observation, attributed to a device through its own address or an alias. */
  type Sighting = (Id, int)

  // ------------------------------------------------------- what is recorded

  /** last_seen is set, and no earlier than t. */
  predicate SeenSince(d: Device, t: int) {
    d.lastSeen.Some? && t <= d.lastSeen.value
  }

  /** While a device is online, its last_seen is at least as late as every sighting of it. */
  ghost predicate Covered(db: Db, s: set<Sighting>) {
    forall x :: x in s && x.0 in db.devices && db.devices[x.0].online ==> SeenSince(db.devices[x.0], x.1)
  }

  ghost predicate Past(db: Db, s: set<Sighting>, clock: int) {
    forall x :: x in s ==> x.0 < db.nextId && x.1 <= clock
  }

  /** A device that is online has last_seen now, or was online before with the same last_seen. */
  ghost predicate Freshened(a: Db, b: Db, now: int) {
    && a.nextId <= b.nextId
    && forall id :: id in b.devices ==>
         if id in a.devices
         then b.devices[id].lastSeen == Some(now)
              || (b.devices[id].lastSeen == a.devices[id].lastSeen && (b.devices[id].online ==> a.devices[id].online))
         else id >= a.nextId && (b.devices[id].online ==> b.devices[id].lastSeen == Some(now))
  }

  ghost predicate SeenNow(db: Db, id: Id, now: int) {
    id in db.devices && db.devices[id].online && db.devices[id].lastSeen == Some(now)
  }

  lemma FreshenedIsTransitive(a: Db, b: Db, c: Db, now: int)
    requires Identities(a) && Freshened(a, b, now) && Freshened(b, c, now)
    ensures Freshened(a, c, now)
  {
  }

  lemma FreshenedKeepsCovered(a: Db, b: Db, s: set<Sighting>, clock: int, now: int)
    requires Covered(a, s) && Past(a, s, clock) && clock <= now && Freshened(a, b, now)
    ensures Covered(b, s) && Past(b, s, now)
  {
  }

  // ------------------------------------------------------- single steps

  lemma MarkFreshens(db: Db, id: Id, d: Device, now: int)
    requires id in db.devices
    requires d.lastSeen == Some(now) || (d.lastSeen == db.devices[id].lastSeen && (d.online ==> db.devices[id].online))
    ensures Freshened(db, Mark(db, id, d), now)
    ensures d.online && d.lastSeen == Some(now) ==> forall o :: SeenNow(db, o, now) ==> SeenNow(Mark(db, id, d), o, now)
  {
  }

  /** Nothing but leaves of devices not seen now. */
  lemma SameTimes(a: Db, b: Db, now: int)
    requires a.devices.Keys == b.devices.Keys && a.nextId == b.nextId
    requires forall id :: id in a.devices ==>
               && b.devices[id].lastSeen == a.devices[id].lastSeen && (b.devices[id].online ==> a.devices[id].online)
               && (SeenNow(a, id, now) ==> b.devices[id].online)
    ensures Freshened(a, b, now) && forall o :: SeenNow(a, o, now) ==> SeenNow(b, o, now)
  {
  }

  lemma NothingHappens(db: Db, now: int)
    ensures Freshened(db, db, now)
  {
  }

  lemma {:induction false} ExpireMeaning(db: Db, n: nat, seen: set<Mac>, limit: int)
    ensures var e := Expire(db, n, seen, limit);
            && e.devices.Keys == db.devices.Keys && e.nextId == db.nextId
            && forall id :: id in db.devices ==>
                 e.devices[id] == if id < n && Overdue(db.devices[id], seen, limit) then db.devices[id].(online := false)
                                  else db.devices[id]
  {
    if n > 0 {
      ExpireMeaning(db, n - 1, seen, limit);
    }
  }

  lemma SyncOneFreshens(db: Db, h: Host, seen: set<Mac>, now: int)
    requires Identities(db)
    ensures var r := SyncOne(db, h, seen, now);
            && Freshened(db, r, now) && (forall o :: SeenNow(db, o, now) ==> SeenNow(r, o, now))
            && (Usable(h) && h.mac.value !in seen && Find(db, h.mac.value).Some? ==> SeenNow(r, Find(db, h.mac.value).value, now))
  {
    hide Find;
    if Usable(h) && h.mac.value !in seen && Find(db, h.mac.value).Some? {
      FoundIsRow(db, h.mac.value);
      var id := Find(db, h.mac.value).value;
      MarkFreshens(db, id, Visible(db.devices[id], h.ip, now), now);
    } else {
      NothingHappens(db, now);
    }
  }

  ghost predicate AllSeenNow(db: Db, hosts: seq<Host>, now: int) {
    forall i :: 0 <= i < |hosts| && Usable(hosts[i]) && Find(db, hosts[i].mac.value).Some?
                ==> SeenNow(db, Find(db, hosts[i].mac.value).value, now)
  }

  lemma {:induction false} SyncFreshens(db: Db, hosts: seq<Host>, now: int)
    requires Identities(db)
    ensures Freshened(db, Sync(db, hosts, now), now) && AllSeenNow(Sync(db, hosts, now), hosts, now)
  {
    hide Find, Identities, SameIdentities, Freshened, SeenNow, SyncOne;
    if hosts == [] {
      NothingHappens(db, now);
    } else {
      var init, h := hosts[..|hosts| - 1], hosts[|hosts| - 1];
      var before, after := Sync(db, init, now), Sync(db, hosts, now);
      SyncFreshens(db, init, now);
      SyncKeeps(db, init, now);
      SameIdentitiesKeepValid(db, before);
      SyncOneFreshens(before, h, SeenMacs(init), now);
      FreshenedIsTransitive(db, before, after, now);
      SyncOneKeeps(before, h, SeenMacs(init), now);
      SameIdentitiesKeepValid(before, after);
      forall i | 0 <= i < |hosts| && Usable(hosts[i]) && Find(after, hosts[i].mac.value).Some?
        ensures SeenNow(after, Find(after, hosts[i].mac.value).value, now)
      {
        if i < |init| {
          assert init[i] == hosts[i];
        } else if h.mac.value in SeenMacs(init) {
          var j :| 0 <= j < |init| && Usable(init[j]) && init[j].mac.value == h.mac.value;
        }
      }
    }
  }

  // ----------------------------------------------------------- the groups

  lemma {:induction false} AddToKeys(groups: seq<Group>, key: Mac, h: Host)
    ensures Keys(AddTo(groups, key, h)) == Keys(groups) + {key}
    ensures (forall i :: 0 <= i < |groups| ==> groups[i].hosts != [])
            ==> forall i :: 0 <= i < |AddTo(groups, key, h)| ==> AddTo(groups, key, h)[i].hosts != []
  {
    var r := AddTo(groups, key, h);
    if groups != [] && groups[0].key != key {
      AddToKeys(groups[1..], key, h);
      KeysSplit(groups);
      KeysSplit(r);
    } else if groups != [] {
      KeysSplit(groups);
      KeysSplit(r);
      assert r[1..] == groups[1..];
    } else {
      KeysSplit(r);
      assert r[1..] == [] && Keys([]) == {};
    }
  }

  lemma KeysSplit(groups: seq<Group>)
    requires groups != []
    ensures Keys(groups) == {groups[0].key} + Keys(groups[1..])
  {
  }

  /** Every usable observation lands in a group of its own key, and no group is empty. */
  lemma {:induction false} GroupsCover(db: Db, hosts: seq<Host>)
    ensures forall i :: 0 <= i < |hosts| && Usable(hosts[i]) ==> KeyFor(db, hosts[i].mac.value) in Keys(GroupHosts(db, hosts))
    ensures forall i :: 0 <= i < |GroupHosts(db, hosts)| ==> GroupHosts(db, hosts)[i].hosts != []
    ensures forall k :: k in Keys(GroupHosts(db, hosts)) ==>
              exists i :: 0 <= i < |hosts| && Usable(hosts[i]) && k == KeyFor(db, hosts[i].mac.value)
  {
    hide KeyFor;
    if hosts != [] {
      var init, h := hosts[..|hosts| - 1], hosts[|hosts| - 1];
      GroupsCover(db, init);
      if Usable(h) {
        AddToKeys(GroupHosts(db, init), KeyFor(db, h.mac.value), h);
      }
      forall i | 0 <= i < |hosts| && Usable(hosts[i]) ensures KeyFor(db, hosts[i].mac.value) in Keys(GroupHosts(db, hosts)) {
        assert i < |init| ==> init[i] == hosts[i];
      }
      forall k | k in Keys(GroupHosts(db, hosts))
        ensures exists i :: 0 <= i < |hosts| && Usable(hosts[i]) && k == KeyFor(db, hosts[i].mac.value)
      {
        if k in Keys(GroupHosts(db, init)) {
          var i :| 0 <= i < |init| && Usable(init[i]) && k == KeyFor(db, init[i].mac.value);
          assert hosts[i] == init[i];
        }
      }
    }
  }

  lemma ApplyGroupFreshens(db: Db, g: Group, auto: bool, order: Host -> int, now: int)
    requires Valid(db)
    ensures var r := ApplyGroup(db, g, auto, order, now);
            && Freshened(db, r, now) && (forall o :: SeenNow(db, o, now) ==> SeenNow(r, o, now))
            && (g.hosts != [] && Find(r, g.key).Some? ==> SeenNow(r, Find(r, g.key).value, now))
  {
    hide Find, RecordPaths, Pick, NamesOf, AutoName.Chosen;
    var r := ApplyGroup(db, g, auto, order, now);
    var found := Find(db, g.key);
    NothingHappens(db, now);
    ApplyGroupKeeps(db, g, auto, order, now);
    if g.hosts != [] && found.Some? {
      FoundIsRow(db, g.key);
      var d := Visible(db.devices[found.value], Pick(g.hosts, db.devices[found.value].ip, order).ip, now);
      MarkFreshens(db, found.value, d, now);
      RecordPathsKeeps(Mark(db, found.value, d), found.value, g.hosts, now);
    } else if g.hosts != [] && auto {
      var h := Pick(g.hosts, None, order);
      RegisterKeeps(db, g, h, now);
      RegisteredRow(db, g, h, now);
    }
  }

  lemma RegisteredRow(db: Db, g: Group, h: Host, now: int)
    ensures var r := Register(db, g, h, now);
            && r.nextId == db.nextId + 1
            && r.devices == db.devices[db.nextId := Device(AutoName.Chosen(h.title, h.macText, NamesOf(db)), g.key, h.ip, true, false, Some(now))]
  {
    hide RecordPaths, NamesOf, AutoName.Chosen;
    var d := Device(AutoName.Chosen(h.title, h.macText, NamesOf(db)), g.key, h.ip, true, false, Some(now));
    RecordPathsKeeps(Insert(db, d).(log := db.log + [Discovered(g.key)]), db.nextId, g.hosts, now);
  }

  lemma {:induction false} ApplyGroupsFreshen(db: Db, groups: seq<Group>, auto: bool, order: Host -> int, now: int)
    requires Valid(db) && forall i :: 0 <= i < |groups| ==> groups[i].hosts != []
    ensures var r := ApplyGroups(db, groups, auto, order, now);
            && Freshened(db, r, now)
            && forall k :: k in Keys(groups) && Find(r, k).Some? ==> SeenNow(r, Find(r, k).value, now)
  {
    hide Find, Valid, Identities, Freshened, SeenNow, ApplyGroup, NamesOf;
    ValidIsIdentities(db);
    if groups == [] {
      NothingHappens(db, now);
    } else {
      var init, g := groups[..|groups| - 1], groups[|groups| - 1];
      var before, after := ApplyGroups(db, init, auto, order, now), ApplyGroups(db, groups, auto, order, now);
      ApplyGroupsFreshen(db, init, auto, order, now);
      ApplyGroupsKeep(db, init, auto, order, now);
      ApplyGroupKeeps(before, g, auto, order, now);
      ApplyGroupFreshens(before, g, auto, order, now);
      FreshenedIsTransitive(db, before, after, now);
      forall k | k in Keys(groups) && Find(after, k).Some? ensures SeenNow(after, Find(after, k).value, now) {
        var i :| 0 <= i < |groups| && groups[i].key == k;
        if k != g.key { assert init[i].key == k && k in Keys(init); }
      }
    }
  }

  /** After the groups are applied, an observation's text and its group's key name one device. */
  lemma KeyNamesSameDevice(db: Db, after: Db, mac: Mac)
    requires Identities(db) && Identities(after) && Find(after, mac).Some?
    requires forall m :: Find(db, m).Some? ==> Find(after, m) == Find(db, m)
    ensures Find(after, KeyFor(db, mac)) == Find(after, mac)
  {
    if Find(db, mac).Some? {
      var id := Find(db, mac).value;
      FindIffResolves(db, mac, id);
      FindIffResolves(db, db.devices[id].mac, id);
    }
  }

  lemma GroupsSeeHosts(db: Db, hosts: seq<Host>, auto: bool, order: Host -> int, now: int)
    requires Valid(db)
    ensures var r := ApplyGroups(db, GroupHosts(db, hosts), auto, order, now);
            Valid(r) && Freshened(db, r, now) && AllSeenNow(r, hosts, now)
  {
    hide Find, Valid, Identities, Freshened, SeenNow, ApplyGroups, GroupHosts, KeyFor, NamesOf;
    var groups := GroupHosts(db, hosts);
    var r := ApplyGroups(db, groups, auto, order, now);
    GroupsCover(db, hosts);
    ApplyGroupsKeep(db, groups, auto, order, now);
    ApplyGroupsFreshen(db, groups, auto, order, now);
    ValidIsIdentities(db);
    ValidIsIdentities(r);
    forall i | 0 <= i < |hosts| && Usable(hosts[i]) && Find(r, hosts[i].mac.value).Some?
      ensures SeenNow(r, Find(r, hosts[i].mac.value).value, now)
    {
      KeyNamesSameDevice(db, r, hosts[i].mac.value);
    }
  }

  // -------------------------------------------------- sightings over a run

  /** The observations one call attributes to devices, looked up in the state it leaves. */
  ghost function NewSightings(after: Db, op: Op): set<Sighting> {
    match op
    case UpdatePresence(mac, online, _, now) =>
      if online && mac.Some? && Find(after, mac.value).Some? then {(Find(after, mac.value).value, now)} else {}
    case SyncHosts(hosts, now) => HostSightings(after, hosts, now)
    case ReconcileScan(hosts, _, _, _, _, now) => HostSightings(after, hosts, now)
    case _ => {}
  }

  ghost function HostSightings(after: Db, hosts: seq<Host>, now: int): set<Sighting> {
    set i | 0 <= i < |hosts| && Usable(hosts[i]) && Find(after, hosts[i].mac.value).Some? ::
      (Find(after, hosts[i].mac.value).value, now)
  }

  ghost predicate MergesNow(db: Db, op: Op) {
    op.MergeDevices? && Merge(db, op.retained, op.candidate, op.macs, op.confirmed, op.reasoned, op.blockers).Ok?
  }

  /** A committed merge makes the candidate's sightings the retained device's. */
  ghost function Redirected(s: set<Sighting>, r: Id, c: Id): set<Sighting> {
    set x | x in s :: (if x.0 == c then r else x.0, x.1)
  }

  ghost function Sightings(db: Db, ops: seq<Op>): set<Sighting> {
    if ops == [] then {}
    else
      var init, op := ops[..|ops| - 1], ops[|ops| - 1];
      var s := Sightings(db, init);
      (if MergesNow(Run(db, init), op) then Redirected(s, op.retained, op.candidate) else s) + NewSightings(Run(db, ops), op)
  }

  predicate Timed(op: Op) {
    op.UpdatePresence? || op.SyncHosts? || op.ReconcileScan?
  }

  ghost function Clock(start: int, ops: seq<Op>): int {
    if ops == [] then start
    else if Timed(ops[|ops| - 1]) then ops[|ops| - 1].now
    else Clock(start, ops[..|ops| - 1])
  }

  /** The clock does not run backwards. */
  ghost predicate Ordered(start: int, ops: seq<Op>) {
    forall n :: 0 <= n < |ops| && Timed(ops[n]) ==> Clock(start, ops[..n]) <= ops[n].now
  }

  /**
    The merge a leave can be trusted after: if the retained device is online, no sighting of the
    candidate is later than its last_seen.
  */
  ghost predicate FreshMerge(db: Db, s: set<Sighting>, op: Op) {
    MergesNow(db, op) && op.retained in db.devices && db.devices[op.retained].online ==>
      forall t :: (op.candidate, t) in s ==> SeenSince(db.devices[op.retained], t)
  }

  ghost predicate FreshMerges(db: Db, ops: seq<Op>) {
    forall n :: 0 <= n < |ops| ==> FreshMerge(Run(db, ops[..n]), Sightings(db, ops[..n]), ops[n])
  }

  lemma OrderedExtends(start: int, ops: seq<Op>)
    requires ops != []
    ensures var init, last := ops[..|ops| - 1], ops[|ops| - 1];
            Ordered(start, ops) <==> Ordered(start, init) && (Timed(last) ==> Clock(start, init) <= last.now)
  {
    hide Clock;
    var init := ops[..|ops| - 1];
    forall n | 0 <= n < |init| ensures ops[..n] == init[..n] && ops[n] == init[n] {
    }
  }

  lemma FreshMergesExtend(db: Db, ops: seq<Op>)
    requires ops != []
    ensures var init, last := ops[..|ops| - 1], ops[|ops| - 1];
            FreshMerges(db, ops) <==> FreshMerges(db, init) && FreshMerge(Run(db, init), Sightings(db, init), last)
  {
    hide Run, Sightings, FreshMerge;
    var init := ops[..|ops| - 1];
    forall n | 0 <= n < |init| ensures ops[..n] == init[..n] && ops[n] == init[n] {
    }
  }

  lemma SetPresenceFreshens(db: Db, mac: Option<Mac>, online: bool, ip: Option<IpText>, now: int)
    requires Identities(db)
    ensures var r := SetPresence(db, mac, online, ip, now);
            && Freshened(db, r, now)
            && (online && mac.Some? && Find(r, mac.value).Some? ==> SeenNow(r, Find(r, mac.value).value, now))
  {
    hide Find, Clashes, Identities, SameIdentities;
    var r := SetPresence(db, mac, online, ip, now);
    SetPresenceKeeps(db, mac, online, ip, now);
    SameIdentitiesKeepValid(db, r);
    if mac.None? || Find(db, mac.value).None? {
      NothingHappens(db, now);
    } else {
      FoundIsRow(db, mac.value);
      var id := Find(db, mac.value).value;
      var d := if online then Visible(db.devices[id], ip, now) else db.devices[id].(online := false);
      MarkFreshens(db, id, d, now);
      MarkedIsSeen(db, id, d, now);
      hide Mark;
      if online {
        SameTimes(Mark(db, id, d), r, now);
        FreshenedIsTransitive(db, Mark(db, id, d), r, now);
      }
    }
  }

  lemma MarkedIsSeen(db: Db, id: Id, d: Device, now: int)
    requires id in db.devices
    ensures d.online && d.lastSeen == Some(now) ==> SeenNow(Mark(db, id, d), id, now)
  {
  }

  /** Neither expiry nor the address check touches last_seen or a device seen now. */
  lemma ReconcileTimes(db: Db, hosts: seq<Host>, auto: bool, order: Host -> int, grace: int, missing: bool, now: int)
    requires Valid(db)
    ensures var r := Reconcile(db, hosts, auto, order, grace, missing, now);
            Freshened(db, r, now) && AllSeenNow(r, hosts, now)
  {
    hide Find, Valid, Identities, SameIdentities, Freshened, ApplyGroups, GroupHosts, Clashes, Expire, AllClaims;
    ValidIsIdentities(db);
    var groups := GroupHosts(db, hosts);
    var applied := ApplyGroups(db, groups, auto, order, now);
    var r := Reconcile(db, hosts, auto, order, grace, missing, now);
    GroupsSeeHosts(db, hosts, auto, order, now);
    ExpireMeaning(applied, applied.nextId, Keys(groups), Limit(now, grace));
    SameTimes(applied, r, now);
    FreshenedIsTransitive(db, applied, r, now);
    ReconcileKeeps(db, hosts, auto, order, grace, missing, now);
    ValidIsIdentities(applied);
    SameIdentitiesKeepValid(applied, r);
  }

  lemma MergeCovers(db: Db, s: set<Sighting>, r: Id, c: Id, macs: (Option<Mac>, Option<Mac>), confirmed: bool, reasoned: bool, blockers: bool)
    requires Covered(db, s) && Merge(db, r, c, macs, confirmed, reasoned, blockers).Ok?
    requires r in db.devices && db.devices[r].online ==> forall t :: (c, t) in s ==> SeenSince(db.devices[r], t)
    ensures Covered(Merge(db, r, c, macs, confirmed, reasoned, blockers).value, Redirected(s, r, c))
  {
    hide MergeRefusal, MovePaths, RedirectAliases;
    MergeAllowed(db, r, c, macs, confirmed, reasoned, blockers);
  }

  lemma SplitFreshens(db: Db, r: Id, mac: Option<Mac>, name: string, confirmed: bool, now: int)
    requires Valid(db) && Split(db, r, mac, name, confirmed).Ok?
    ensures Freshened(db, Split(db, r, mac, name, confirmed).value, now)
  {
    SplitAllowed(db, r, mac, name, confirmed);
    hide SplitRefusal, SplitPaths, Identities, PathsOwned;
  }

  /** Steps that leave last_seen and the ids of the surviving rows alone. */
  lemma UntimedFreshens(db: Db, op: Op, now: int)
    requires Valid(db) && !Timed(op) && !op.MergeDevices?
    ensures Freshened(db, Apply(db, op), now)
  {
    hide Find, Valid, Split, Merge, SetPresence, Sync, Reconcile;
    NothingHappens(db, now);
    RowsBelowNext(db);
    match op
    case SplitAlias(r, mac, name, confirmed) =>
      if Split(db, r, mac, name, confirmed).Ok? { SplitFreshens(db, r, mac, name, confirmed, now); }
    case AddDevice(_, _, _) =>
    case UpdateDevice(_, _, _, _) =>
    case DeleteDevice(_, _) =>
    case ResolveConflict(_, _, _, _) =>
  }

  lemma TimedFreshens(db: Db, op: Op)
    requires Valid(db) && Timed(op)
    ensures Freshened(db, Apply(db, op), op.now)
    ensures forall x :: x in NewSightings(Apply(db, op), op) ==> x.1 == op.now && SeenNow(Apply(db, op), x.0, op.now)
  {
    hide Find, Valid, Identities, Freshened, SeenNow, SetPresence, Sync, Reconcile;
    ValidIsIdentities(db);
    match op
    case UpdatePresence(mac, online, ip, now) => SetPresenceFreshens(db, mac, online, ip, now);
    case SyncHosts(hosts, now) => SyncFreshens(db, hosts, now);
    case ReconcileScan(hosts, auto, order, grace, missing, now) => ReconcileTimes(db, hosts, auto, order, grace, missing, now);
  }

  lemma MergePast(db: Db, s: set<Sighting>, op: Op, clock: int)
    requires Valid(db) && Past(db, s, clock) && MergesNow(db, op)
    ensures Past(Apply(db, op), Redirected(s, op.retained, op.candidate), clock)
  {
    hide MergeRefusal, MovePaths, RedirectAliases;
    MergeAllowed(db, op.retained, op.candidate, op.macs, op.confirmed, op.reasoned, op.blockers);
  }

  lemma StepCovers(db: Db, s: set<Sighting>, op: Op, clock: int)
    requires Valid(db) && Covered(db, s) && Past(db, s, clock)
    requires Timed(op) ==> clock <= op.now
    requires FreshMerge(db, s, op)
    ensures var s' := (if MergesNow(db, op) then Redirected(s, op.retained, op.candidate) else s) + NewSightings(Apply(db, op), op);
            Covered(Apply(db, op), s') && Past(Apply(db, op), s', if Timed(op) then op.now else clock)
  {
    hide Find, Valid, Identities, Freshened, Apply, Redirected, Merge;
    var after := Apply(db, op);
    if Timed(op) {
      TimedFreshens(db, op);
      FreshenedKeepsCovered(db, after, s, clock, op.now);
      ApplyKeepsValid(db, op);
      RowsBelowNext(after);
    } else if MergesNow(db, op) {
      CommittedMerge(db, op);
      MergeCovers(db, s, op.retained, op.candidate, op.macs, op.confirmed, op.reasoned, op.blockers);
      MergePast(db, s, op, clock);
    } else if op.MergeDevices? {
      RefusedMerge(db, op);
    } else {
      UntimedFreshens(db, op, clock);
      FreshenedKeepsCovered(db, after, s, clock, clock);
    }
  }

  lemma RowsBelowNext(db: Db)
    requires Valid(db)
    ensures forall id :: id in db.devices ==> id < db.nextId
  {
  }

  lemma CommittedMerge(db: Db, op: Op)
    requires MergesNow(db, op)
    ensures Apply(db, op) == Merge(db, op.retained, op.candidate, op.macs, op.confirmed, op.reasoned, op.blockers).value
  {
    hide Merge;
  }

  lemma RefusedMerge(db: Db, op: Op)
    requires op.MergeDevices? && !MergesNow(db, op)
    ensures Apply(db, op) == db
  {
    hide Merge;
  }

  lemma {:induction false} RunCovers(start: int, ops: seq<Op>)
    requires Ordered(start, ops) && FreshMerges(EMPTY, ops)
    ensures var db := Run(EMPTY, ops);
            Valid(db) && Covered(db, Sightings(EMPTY, ops)) && Past(db, Sightings(EMPTY, ops), Clock(start, ops))
  {
    hide Valid, Covered, Past, Apply, MergesNow, FreshMerge, Ordered, FreshMerges;
    if ops == [] {
      NothingToCover(start);
    } else {
      var init := ops[..|ops| - 1];
      OrderedExtends(start, ops);
      FreshMergesExtend(EMPTY, ops);
      RunCovers(start, init);
      StepCovers(Run(EMPTY, init), Sightings(EMPTY, init), ops[|ops| - 1], Clock(start, init));
      ApplyKeepsValid(Run(EMPTY, init), ops[|ops| - 1]);
    }
  }

  lemma NothingToCover(start: int)
    ensures Valid(EMPTY) && Covered(EMPTY, {}) && Past(EMPTY, {}, start)
  {
  }

  // ------------------------------------------------------------ the leaves

  /** The scan takes the device from online to offline. */
  ghost predicate Leaves(db: Db, op: Op, id: Id) {
    op.ReconcileScan? && id in db.devices && db.devices[id].online
    && id in Apply(db, op).devices && !Apply(db, op).devices[id].online
  }

  /** Only a device that is still overdue after this scan's observations is taken offline. */
  lemma LeavesIsOverdue(db: Db, op: Op, id: Id)
    requires Valid(db) && Leaves(db, op, id)
    ensures op.missing
    ensures var d := Apply(db, op).devices[id]; d.lastSeen.Some? && d.lastSeen.value <= Limit(op.now, op.grace)
  {
    hide Find, Valid, Identities, SameIdentities, ApplyGroups, GroupHosts, Clashes, Expire, AllClaims, NamesOf;
    var groups := GroupHosts(db, op.hosts);
    var applied := ApplyGroups(db, groups, op.auto, op.order, op.now);
    GroupsKeepOnline(db, groups, op.auto, op.order, op.now, id);
    ExpireMeaning(applied, applied.nextId, Keys(groups), Limit(op.now, op.grace));
  }

  lemma {:induction false} GroupsKeepOnline(db: Db, groups: seq<Group>, auto: bool, order: Host -> int, now: int, id: Id)
    requires Valid(db) && id in db.devices && db.devices[id].online
    ensures id in ApplyGroups(db, groups, auto, order, now).devices
    ensures ApplyGroups(db, groups, auto, order, now).devices[id].online
  {
    hide Find, RecordPaths, Pick, NamesOf, AutoName.Chosen, Valid;
    if groups != [] {
      var init, g := groups[..|groups| - 1], groups[|groups| - 1];
      var before := ApplyGroups(db, init, auto, order, now);
      GroupsKeepOnline(db, init, auto, order, now, id);
      ApplyGroupsKeep(db, init, auto, order, now);
      var found := Find(before, g.key);
      if g.hosts != [] && found.Some? {
        ValidIsIdentities(before);
        FoundIsRow(before, g.key);
        var d := Visible(before.devices[found.value], Pick(g.hosts, before.devices[found.value].ip, order).ip, now);
        RecordPathsKeeps(Mark(before, found.value, d), found.value, g.hosts, now);
      } else if g.hosts != [] && auto {
        RegisteredRow(before, g, Pick(g.hosts, None, order), now);
        RowsBelowNext(before);
      }
    }
  }

  /**
    Under a clock that does not run backwards, a leave written by a scan means that every confirmed
    observation of that device, through aliases too, is at least max(1, grace) old.
  */
  lemma LeaveMeansUnseen(start: int, ops: seq<Op>, id: Id)
    requires ops != [] && Ordered(start, ops) && FreshMerges(EMPTY, ops)
    requires Leaves(Run(EMPTY, ops[..|ops| - 1]), ops[|ops| - 1], id)
    ensures var op := ops[|ops| - 1];
            forall t :: (id, t) in Sightings(EMPTY, ops) ==> t <= Limit(op.now, op.grace)
  {
    hide Valid, Apply, MergesNow, FreshMerge, NewSightings, Ordered, FreshMerges;
    var init, op := ops[..|ops| - 1], ops[|ops| - 1];
    OrderedExtends(start, ops);
    FreshMergesExtend(EMPTY, ops);
    RunCovers(start, init);
    LeaveOfCovered(Run(EMPTY, init), Sightings(EMPTY, init), op, id);
    ScansDoNotMerge(Run(EMPTY, init), op);
  }

  lemma ScansDoNotMerge(db: Db, op: Op)
    requires Timed(op)
    ensures !MergesNow(db, op)
  {
  }

  lemma LeaveOfCovered(db: Db, s: set<Sighting>, op: Op, id: Id)
    requires Valid(db) && Covered(db, s) && Leaves(db, op, id)
    ensures forall t :: (id, t) in s + NewSightings(Apply(db, op), op) ==> t <= Limit(op.now, op.grace)
  {
    hide Valid, Apply, NewSightings;
    LeavesIsOverdue(db, op, id);
    TimedFreshens(db, op);
  }
}
