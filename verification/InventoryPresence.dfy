/** The presence log explains the online flags. */
module InventoryPresence {
  import opened Prelude
  import opened Addresses
  import opened InventoryModel
  import opened InventoryIdentity
  import AutoName

  // ---------------------------------------------------- replaying the log

  ghost predicate OnlineMac(db: Db, mac: Mac) {
    exists id :: id in db.devices && db.devices[id].mac == mac && db.devices[id].online
  }

  /** Plays one device's events; None when a join meets an online device or a leave an offline one. */
  function Playback(on: bool, log: seq<Event>, mac: Mac): Option<bool> {
    if log == [] then Some(on)
    else
      var before, e := Playback(on, log[..|log| - 1], mac), log[|log| - 1];
      if before.None? || e.mac != mac then before
      else if e.Left? == before.value then Some(!e.Left?)
      else None
  }

  /** What b logged after a leads from a's online flags to b's, with joins and leaves alternating. */
  ghost predicate Explains(a: Db, b: Db) {
    && |a.log| <= |b.log| && b.log[..|a.log|] == a.log
    && forall mac :: Playback(OnlineMac(a, mac), b.log[|a.log|..], mac) == Some(OnlineMac(b, mac))
  }

  lemma {:induction false} PlaybackAppend(on: bool, a: seq<Event>, b: seq<Event>, mac: Mac)
    ensures Playback(on, a + b, mac)
            == if Playback(on, a, mac).Some? then Playback(Playback(on, a, mac).value, b, mac) else None
  {
    if b == [] {
      assert a + b == a;
    } else {
      assert (a + b)[..|a + b| - 1] == a + b[..|b| - 1];
      PlaybackAppend(on, a, b[..|b| - 1], mac);
    }
  }

  lemma ExplainsIsTransitive(a: Db, b: Db, c: Db)
    requires Explains(a, b) && Explains(b, c)
    ensures Explains(a, c)
  {
    hide OnlineMac, Playback;
    assert c.log[..|a.log|] == c.log[..|b.log|][..|a.log|];
    forall mac ensures Playback(OnlineMac(a, mac), c.log[|a.log|..], mac) == Some(OnlineMac(c, mac)) {
      assert c.log[|a.log|..] == b.log[|a.log|..] + c.log[|b.log|..];
      PlaybackAppend(OnlineMac(a, mac), b.log[|a.log|..], c.log[|b.log|..], mac);
    }
  }

  /** Nothing logged, and every hardware address as online as before. */
  lemma SilentStep(a: Db, b: Db)
    requires b.log == a.log && forall mac :: OnlineMac(a, mac) == OnlineMac(b, mac)
    ensures Explains(a, b)
  {
    assert b.log[|a.log|..] == [];
  }

  /** One event, about the one hardware address whose online state changed. */
  lemma LoggedStep(a: Db, b: Db, e: Event)
    requires b.log == a.log + [e]
    requires OnlineMac(a, e.mac) == e.Left? && OnlineMac(b, e.mac) == !e.Left?
    requires forall mac :: mac != e.mac ==> OnlineMac(a, mac) == OnlineMac(b, mac)
    ensures Explains(a, b)
  {
    hide OnlineMac;
    assert b.log[|a.log|..] == [e];
    forall mac ensures Playback(OnlineMac(a, mac), [e], mac) == Some(OnlineMac(b, mac)) {
      assert [e][..0] == [];
    }
  }

  ghost predicate SameFlags(a: Db, b: Db) {
    && a.log == b.log && a.devices.Keys == b.devices.Keys
    && forall id :: id in a.devices ==> a.devices[id].mac == b.devices[id].mac && a.devices[id].online == b.devices[id].online
  }

  lemma SameFlagsExplain(a: Db, b: Db)
    requires SameFlags(a, b)
    ensures Explains(a, b)
  {
    hide Playback, Explains;
    forall mac ensures OnlineMac(a, mac) == OnlineMac(b, mac) {
      if OnlineMac(a, mac) { var id :| id in a.devices && a.devices[id].mac == mac && a.devices[id].online; assert id in b.devices; }
      if OnlineMac(b, mac) { var id :| id in b.devices && b.devices[id].mac == mac && b.devices[id].online; assert id in a.devices; }
    }
    SilentStep(a, b);
  }

  lemma MarkExplained(db: Db, id: Id, d: Device)
    requires Identities(db) && id in db.devices && d.mac == db.devices[id].mac
    ensures Explains(db, Mark(db, id, d))
  {
    hide Playback, Explains;
    var after := Mark(db, id, d);
    forall mac ensures OnlineMac(after, mac) == if mac == d.mac then d.online else OnlineMac(db, mac) {
      if OnlineMac(db, mac) { var o :| o in db.devices && db.devices[o].mac == mac && db.devices[o].online; assert o in after.devices; }
      assert mac == d.mac && d.online ==> after.devices[id].online;
    }
    assert OnlineMac(db, d.mac) == db.devices[id].online;
    if db.devices[id].online == d.online {
      SilentStep(db, after);
    } else {
      LoggedStep(db, after, if d.online then Joined(d.mac) else Left(d.mac));
    }
  }

  /** A new row; it is logged as discovered when it starts out online. */
  lemma InsertExplained(db: Db, d: Device)
    requires Identities(db) && forall id :: id in db.devices ==> db.devices[id].mac != d.mac
    ensures Explains(db, Insert(db, d).(log := db.log + if d.online then [Discovered(d.mac)] else []))
  {
    hide Playback, Explains;
    var after := Insert(db, d).(log := db.log + if d.online then [Discovered(d.mac)] else []);
    assert after.devices[db.nextId] == d;
    forall mac ensures OnlineMac(after, mac) == if mac == d.mac then d.online else OnlineMac(db, mac) {
      if OnlineMac(db, mac) { var o :| o in db.devices && db.devices[o].mac == mac && db.devices[o].online; assert o in after.devices; }
      assert mac == d.mac && d.online ==> after.devices[db.nextId].online;
    }
    if d.online {
      LoggedStep(db, after, Discovered(d.mac));
    } else {
      SilentStep(db, after);
    }
  }

  lemma ReflexiveExplains(db: Db)
    ensures Explains(db, db)
  {
    SilentStep(db, db);
  }

  lemma RecordPathExplained(db: Db, id: Id, h: Host, now: int)
    ensures Explains(db, RecordPath(db, id, h, now))
  {
    hide Explains;
    SameFlagsExplain(db, RecordPath(db, id, h, now));
  }

  lemma FlagConflictsExplained(db: Db, extra: seq<Claim>)
    ensures Explains(db, FlagConflicts(db, extra))
  {
    hide Explains, Clashes;
    SameFlagsExplain(db, FlagConflicts(db, extra));
  }

  lemma SetPresenceExplained(db: Db, mac: Option<Mac>, online: bool, ip: Option<IpText>, now: int)
    requires Identities(db)
    ensures Explains(db, SetPresence(db, mac, online, ip, now))
  {
    hide Find, FlagConflicts, Identities, Explains, Mark;
    if mac.None? || Find(db, mac.value).None? {
      ReflexiveExplains(db);
    } else {
      FoundIsRow(db, mac.value);
      var id := Find(db, mac.value).value;
      var d := db.devices[id];
      MarkExplained(db, id, d.(online := false));
      MarkExplained(db, id, Visible(d, ip, now));
      FlagConflictsExplained(Mark(db, id, Visible(d, ip, now)), []);
      ExplainsIsTransitive(db, Mark(db, id, Visible(d, ip, now)), FlagConflicts(Mark(db, id, Visible(d, ip, now)), []));
    }
  }

  lemma {:induction false} SyncExplained(db: Db, hosts: seq<Host>, now: int)
    requires Identities(db)
    ensures Explains(db, Sync(db, hosts, now))
  {
    hide Find, Identities, SameIdentities, Explains, Mark, RecordPath;
    if hosts == [] {
      ReflexiveExplains(db);
    } else {
      var init, h := hosts[..|hosts| - 1], hosts[|hosts| - 1];
      var before := Sync(db, init, now);
      SyncExplained(db, init, now);
      SyncKeeps(db, init, now);
      SameIdentitiesKeepValid(db, before);
      if Usable(h) && h.mac.value !in SeenMacs(init) && Find(before, h.mac.value).Some? {
        var id := Find(before, h.mac.value).value;
        FoundIsRow(before, h.mac.value);
        var marked := Mark(before, id, Visible(before.devices[id], h.ip, now));
        MarkExplained(before, id, Visible(before.devices[id], h.ip, now));
        RecordPathExplained(marked, id, h, now);
        ExplainsIsTransitive(before, marked, RecordPath(marked, id, h, now));
        ExplainsIsTransitive(db, before, RecordPath(marked, id, h, now));
      }
    }
  }

  lemma ApplyGroupExplained(db: Db, g: Group, auto: bool, order: Host -> int, now: int)
    requires Valid(db)
    ensures Explains(db, ApplyGroup(db, g, auto, order, now))
  {
    hide Find, Valid, Identities, Explains, Mark, RecordPaths, Pick, AutoName.Chosen, NamesOf, Playback, OnlineMac;
    ValidIsIdentities(db);
    var found := Find(db, g.key);
    if g.hosts != [] && found.Some? {
      FoundIsRow(db, g.key);
      var id := found.value;
      var d := Visible(db.devices[id], Pick(g.hosts, db.devices[id].ip, order).ip, now);
      MarkExplained(db, id, d);
      PathsExplained(db, Mark(db, id, d), id, g.hosts, now);
    } else if g.hosts != [] && auto {
      NotFoundIsUnused(db, g.key);
      var h := Pick(g.hosts, None, order);
      var d := Device(AutoName.Chosen(h.title, h.macText, NamesOf(db)), g.key, h.ip, true, false, Some(now));
      InsertExplained(db, d);
      PathsExplained(db, Insert(db, d).(log := db.log + [Discovered(d.mac)]), db.nextId, g.hosts, now);
    } else {
      ReflexiveExplains(db);
    }
  }

  lemma {:induction false} PathsExplained(a: Db, b: Db, id: Id, hosts: seq<Host>, now: int)
    requires Explains(a, b)
    ensures Explains(a, RecordPaths(b, id, hosts, now))
  {
    hide Explains, RecordPath;
    if hosts != [] {
      var init := hosts[..|hosts| - 1];
      PathsExplained(a, b, id, init, now);
      RecordPathExplained(RecordPaths(b, id, init, now), id, hosts[|hosts| - 1], now);
      ExplainsIsTransitive(a, RecordPaths(b, id, init, now), RecordPaths(b, id, hosts, now));
    }
  }

  lemma {:induction false} ApplyGroupsExplained(db: Db, groups: seq<Group>, auto: bool, order: Host -> int, now: int)
    requires Valid(db)
    ensures Explains(db, ApplyGroups(db, groups, auto, order, now))
  {
    hide Explains, ApplyGroup, Valid;
    if groups == [] {
      ReflexiveExplains(db);
    } else {
      var init, g := groups[..|groups| - 1], groups[|groups| - 1];
      var before := ApplyGroups(db, init, auto, order, now);
      ApplyGroupsExplained(db, init, auto, order, now);
      ApplyGroupsKeep(db, init, auto, order, now);
      ApplyGroupExplained(before, g, auto, order, now);
      ExplainsIsTransitive(db, before, ApplyGroup(before, g, auto, order, now));
    }
  }

  lemma {:induction false} ExpireExplained(db: Db, n: nat, seen: set<Mac>, limit: int)
    requires Identities(db)
    ensures Explains(db, Expire(db, n, seen, limit))
  {
    hide Explains, Identities, SameIdentities, Mark;
    if n == 0 {
      ReflexiveExplains(db);
    } else {
      var below := Expire(db, n - 1, seen, limit);
      ExpireExplained(db, n - 1, seen, limit);
      ExpireKeeps(db, n - 1, seen, limit);
      SameIdentitiesKeepValid(db, below);
      if n - 1 in below.devices {
        MarkExplained(below, n - 1, below.devices[n - 1].(online := false));
        ExplainsIsTransitive(db, below, Mark(below, n - 1, below.devices[n - 1].(online := false)));
      }
    }
  }

  lemma ReconcileExplained(db: Db, hosts: seq<Host>, auto: bool, order: Host -> int, grace: int, missing: bool, now: int)
    requires Valid(db)
    ensures Explains(db, Reconcile(db, hosts, auto, order, grace, missing, now))
  {
    hide Explains, Valid, Identities, SameIdentities, ApplyGroups, GroupHosts, Expire, FlagConflicts, AllClaims;
    var groups := GroupHosts(db, hosts);
    var applied := ApplyGroups(db, groups, auto, order, now);
    var observed := Observed(db, hosts, auto, order, grace, missing, now);
    ApplyGroupsKeep(db, groups, auto, order, now);
    ValidIsIdentities(applied);
    ApplyGroupsExplained(db, groups, auto, order, now);
    if missing {
      ExpireExplained(applied, applied.nextId, Keys(groups), Limit(now, grace));
      ExplainsIsTransitive(db, applied, observed);
    }
    FlagConflictsExplained(observed, AllClaims(groups));
    ExplainsIsTransitive(db, observed, Reconcile(db, hosts, auto, order, grace, missing, now));
  }

  // ------------------------------------------------------- registration

  lemma SplitExplained(db: Db, r: Id, mac: Option<Mac>, name: string, confirmed: bool)
    requires Valid(db) && Split(db, r, mac, name, confirmed).Ok?
    ensures Explains(db, Split(db, r, mac, name, confirmed).value)
  {
    SplitAllowed(db, r, mac, name, confirmed);
    hide Explains, SplitRefusal, SplitPaths, Identities, PathsOwned;
    var d := Device(name, mac.value, None, false, false, None);
    var grown := Insert(db, d);
    ValidIsIdentities(db);
    InsertExplained(db, d);
    assert grown.(log := db.log + []) == grown;
    SplitSameFlags(db, r, mac, name, confirmed);
    SameFlagsExplain(grown, Split(db, r, mac, name, confirmed).value);
    ExplainsIsTransitive(db, grown, Split(db, r, mac, name, confirmed).value);
  }

  lemma SplitSameFlags(db: Db, r: Id, mac: Option<Mac>, name: string, confirmed: bool)
    requires Split(db, r, mac, name, confirmed).Ok? && r in db.devices && mac.Some? && r != db.nextId
    ensures SameFlags(Insert(db, Device(name, mac.value, None, false, false, None)), Split(db, r, mac, name, confirmed).value)
  {
    hide SplitRefusal, SplitPaths;
  }

  lemma AddExplained(db: Db, name: string, mac: Option<Mac>, ip: Option<IpText>)
    requires Valid(db) && Add(db, name, mac, ip).Ok?
    ensures Explains(db, Add(db, name, mac, ip).value)
  {
    hide Explains, Find;
    var d := Device(name, mac.value, ip, false, false, None);
    NotFoundIsUnused(db, mac.value);
    InsertExplained(db, d);
    assert Insert(db, d).(log := db.log + []) == Insert(db, d);
  }

  lemma ResolveExplained(db: Db, id: Id, ip: Option<IpText>, mac: Option<Mac>, reasoned: bool)
    requires Resolve(db, id, ip, mac, reasoned).Ok?
    ensures Explains(db, Resolve(db, id, ip, mac, reasoned).value)
  {
    hide Explains;
    SameFlagsExplain(db, Resolve(db, id, ip, mac, reasoned).value);
  }

  // ------------------------------------------ what the log does not show

  /** Some hardware address goes on or off without an event. */
  ghost predicate Unlogged(a: Db, b: Db) {
    b.log == a.log && exists mac :: OnlineMac(a, mac) != OnlineMac(b, mac)
  }

  /** Nothing later in the log makes up for it. */
  lemma UnloggedIsUnexplained(start: Db, a: Db, b: Db)
    requires Explains(start, a) && Unlogged(a, b)
    ensures !Explains(start, b)
  {
    var mac :| OnlineMac(a, mac) != OnlineMac(b, mac);
    hide OnlineMac;
    assert Playback(OnlineMac(start, mac), a.log[|start.log|..], mac) == Some(OnlineMac(a, mac));
  }

  /** Dropping a row shows exactly when it was online. */
  lemma DroppedRow(db: Db, after: Db, id: Id)
    requires Identities(db) && id in db.devices && after.devices == db.devices - {id} && after.log == db.log
    ensures if db.devices[id].online then Unlogged(db, after) else Explains(db, after)
  {
    hide Explains;
    var mac := db.devices[id].mac;
    assert !OnlineMac(after, mac);
    if db.devices[id].online {
      assert OnlineMac(db, mac);
    } else {
      forall m ensures OnlineMac(db, m) == OnlineMac(after, m) {
        if OnlineMac(db, m) { var o :| o in db.devices && db.devices[o].mac == m && db.devices[o].online; assert o in after.devices; }
      }
      SilentStep(db, after);
    }
  }

  /** A new hardware address for a row shows exactly when the row is online. */
  lemma ReaddressedRow(db: Db, after: Db, id: Id, d: Device)
    requires Identities(db) && id in db.devices && after.devices == db.devices[id := d] && after.log == db.log
    requires d.online == db.devices[id].online
    ensures if d.online && d.mac != db.devices[id].mac then Unlogged(db, after) else Explains(db, after)
  {
    hide Explains;
    var mac := db.devices[id].mac;
    if d.online && d.mac != mac {
      assert OnlineMac(db, mac) && !OnlineMac(after, mac);
    } else {
      forall m ensures OnlineMac(db, m) == OnlineMac(after, m) {
        if OnlineMac(db, m) { var o :| o in db.devices && db.devices[o].mac == m && db.devices[o].online; assert o in after.devices; }
        if OnlineMac(after, m) { var o :| o in after.devices && after.devices[o].mac == m && after.devices[o].online; assert o in db.devices; }
      }
      SilentStep(db, after);
    }
  }

  lemma MergeShows(db: Db, r: Id, c: Id, macs: (Option<Mac>, Option<Mac>), confirmed: bool, reasoned: bool, blockers: bool)
    requires Valid(db) && Merge(db, r, c, macs, confirmed, reasoned, blockers).Ok?
    ensures c in db.devices
    ensures var after := Merge(db, r, c, macs, confirmed, reasoned, blockers).value;
            if db.devices[c].online then Unlogged(db, after) else Explains(db, after)
  {
    MergeAllowed(db, r, c, macs, confirmed, reasoned, blockers);
    hide MergeRefusal, MovePaths, RedirectAliases, Unlogged, Explains;
    DroppedRow(db, Merge(db, r, c, macs, confirmed, reasoned, blockers).value, c);
  }

  lemma DeleteShows(db: Db, name: string, expected: Option<Id>)
    requires Valid(db) && Delete(db, name, expected).Ok?
    ensures var id := FindByName(db, name).value;
            id in db.devices
            && if db.devices[id].online then Unlogged(db, Delete(db, name, expected).value)
               else Explains(db, Delete(db, name, expected).value)
  {
    hide Unlogged, Explains;
    DroppedRow(db, Delete(db, name, expected).value, FindByName(db, name).value);
  }

  ghost predicate Rehomes(db: Db, name: string, mac: Option<Option<Mac>>) {
    FindByName(db, name).Some? &&
      var d := db.devices[FindByName(db, name).value];
      d.online && Readdressed(d, mac).mac != d.mac
  }

  lemma UpdateShows(db: Db, name: string, newName: Option<string>, mac: Option<Option<Mac>>, ip: Option<Option<IpText>>)
    requires Valid(db) && Update(db, name, newName, mac, ip).Ok?
    ensures var after := Update(db, name, newName, mac, ip).value;
            if Rehomes(db, name, mac) then Unlogged(db, after) else Explains(db, after)
  {
    hide Unlogged, Explains, NameRefusal, MacRefusal;
    var id := FindByName(db, name).value;
    var d := Readdressed(Renamed(db.devices[id], newName), mac);
    ReaddressedRow(db, Update(db, name, newName, mac, ip).value, id, if ip.Some? then d.(ip := ip.value) else d);
  }

  /** The calls the log shows in full: all but those that drop or readdress an online device. */
  ghost predicate KeepsHistory(db: Db, op: Op) {
    match op
    case DeleteDevice(name, expected) =>
      Delete(db, name, expected).Ok? ==> !db.devices[FindByName(db, name).value].online
    case MergeDevices(r, c, macs, confirmed, reasoned, blockers) =>
      Merge(db, r, c, macs, confirmed, reasoned, blockers).Ok? && c in db.devices ==> !db.devices[c].online
    case UpdateDevice(name, newName, mac, ip) =>
      Update(db, name, newName, mac, ip).Ok? ==> !Rehomes(db, name, mac)
    case _ => true
  }

  lemma ApplyShows(db: Db, op: Op)
    requires Valid(db)
    ensures if KeepsHistory(db, op) then Explains(db, Apply(db, op)) else Unlogged(db, Apply(db, op))
  {
    hide Explains, Unlogged, Rehomes, Valid, Identities, Add, Update, Delete, Merge, Split, Resolve, Sync, SetPresence, Reconcile;
    ValidIsIdentities(db);
    ReflexiveExplains(db);
    match op
    case UpdatePresence(mac, online, ip, now) => SetPresenceExplained(db, mac, online, ip, now);
    case SyncHosts(hosts, now) => SyncExplained(db, hosts, now);
    case ReconcileScan(hosts, auto, order, grace, missing, now) => ReconcileExplained(db, hosts, auto, order, grace, missing, now);
    case SplitAlias(r, mac, name, confirmed) =>
      if Split(db, r, mac, name, confirmed).Ok? { SplitExplained(db, r, mac, name, confirmed); }
    case AddDevice(name, mac, ip) =>
      if Add(db, name, mac, ip).Ok? { AddExplained(db, name, mac, ip); }
    case ResolveConflict(id, ip, mac, reasoned) =>
      if Resolve(db, id, ip, mac, reasoned).Ok? { ResolveExplained(db, id, ip, mac, reasoned); }
    case DeleteDevice(name, expected) =>
      if Delete(db, name, expected).Ok? { DeleteShows(db, name, expected); }
    case UpdateDevice(name, newName, mac, ip) =>
      if Update(db, name, newName, mac, ip).Ok? { UpdateShows(db, name, newName, mac, ip); }
    case MergeDevices(r, c, macs, confirmed, reasoned, blockers) =>
      if Merge(db, r, c, macs, confirmed, reasoned, blockers).Ok? { MergeShows(db, r, c, macs, confirmed, reasoned, blockers); }
  }

  /**
    Replaying what a run logged gives back every online flag at every point of the run, each device's
    joins and leaves alternating, exactly when no call drops or readdresses an online device.
  */
  lemma {:induction false} LogExplainsPresence(db: Db, ops: seq<Op>)
    requires Valid(db)
    ensures Valid(Run(db, ops))
    ensures AtEveryPoint(db, ops, x => Explains(db, x)) <==> AtEveryCall(db, ops, KeepsHistory)
  {
    hide Explains, Unlogged, Valid, Apply, KeepsHistory;
    var explained := x => Explains(db, x);
    if ops == [] {
      ReflexiveExplains(db);
    } else {
      var init, last := ops[..|ops| - 1], ops[|ops| - 1];
      LogExplainsPresence(db, init);
      hide AtEveryPoint, AtEveryCall;
      PointsExtend(db, ops, explained);
      CallsExtend(db, ops, KeepsHistory);
      ApplyKeepsValid(Run(db, init), last);
      ApplyShows(Run(db, init), last);
      if Explains(db, Run(db, init)) && KeepsHistory(Run(db, init), last) {
        ExplainsIsTransitive(db, Run(db, init), Run(db, ops));
      } else if Explains(db, Run(db, init)) {
        UnloggedIsUnexplained(db, Run(db, init), Run(db, ops));
      }
    }
  }

  /** A merge writes no leave, so it breaks the replay exactly when it drops an online candidate. */
  lemma MergeExplainedIff(db: Db, r: Id, c: Id, macs: (Option<Mac>, Option<Mac>), confirmed: bool, reasoned: bool, blockers: bool)
    requires Valid(db) && Merge(db, r, c, macs, confirmed, reasoned, blockers).Ok?
    ensures c in db.devices
    ensures Explains(db, Merge(db, r, c, macs, confirmed, reasoned, blockers).value) <==> !db.devices[c].online
  {
    hide Explains, Unlogged, Merge;
    MergeShows(db, r, c, macs, confirmed, reasoned, blockers);
    ReflexiveExplains(db);
    if db.devices[c].online {
      UnloggedIsUnexplained(db, db, Merge(db, r, c, macs, confirmed, reasoned, blockers).value);
    }
  }
}
