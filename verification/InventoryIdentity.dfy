/** Every hardware address belongs to at most one device, through every run of the inventory. */
module InventoryIdentity {
  import opened Prelude
  import opened InventoryModel
  import Addresses
  import AutoName

  ghost predicate Identities(db: Db) {
    && (forall id :: id in db.devices ==> id < db.nextId)
    && (forall a, b :: a in db.devices && b in db.devices && a != b
                       ==> db.devices[a].mac != db.devices[b].mac && db.devices[a].name != db.devices[b].name)
    && (forall m :: m in db.aliases ==> db.aliases[m] in db.devices)
    && (forall m, id :: m in db.aliases && id in db.devices && db.devices[id].mac == m ==> db.aliases[m] == id)
  }

  ghost predicate PathsOwned(db: Db) {
    forall k :: k in db.paths ==> k.device in db.devices
  }

  ghost predicate Valid(db: Db) {
    Identities(db) && PathsOwned(db)
  }

  /** A row or an alias gives the hardware address to the device. */
  ghost predicate Resolves(db: Db, mac: Mac, id: Id) {
    id in db.devices && (db.devices[id].mac == mac || (mac in db.aliases && db.aliases[mac] == id))
  }

  lemma FindIffResolves(db: Db, mac: Mac, id: Id)
    requires Identities(db)
    ensures Find(db, mac) == Some(id) <==> Resolves(db, mac, id)
  {
  }

  lemma NotFoundIsUnused(db: Db, mac: Mac)
    requires Identities(db) && Find(db, mac).None?
    ensures mac !in db.aliases && forall id :: id in db.devices ==> db.devices[id].mac != mac
  {
  }

  // ------------------------------------- writes that leave identities alone

  ghost predicate SameIdentities(a: Db, b: Db) {
    && a.nextId == b.nextId && a.aliases == b.aliases && a.devices.Keys == b.devices.Keys
    && (forall id :: id in a.devices ==> a.devices[id].mac == b.devices[id].mac && a.devices[id].name == b.devices[id].name)
    && (PathsOwned(a) ==> PathsOwned(b))
  }

  lemma SameIdentitiesKeepValid(a: Db, b: Db)
    requires SameIdentities(a, b) && Identities(a)
    ensures Identities(b) && (Valid(a) ==> Valid(b)) && NamesOf(a) == NamesOf(b)
    ensures forall m :: Find(a, m) == Find(b, m)
  {
    hide Find, Holder;
    forall m ensures Find(a, m) == Find(b, m) {
      if Find(a, m).Some? { FindIffResolves(a, m, Find(a, m).value); FindIffResolves(b, m, Find(a, m).value); }
      if Find(b, m).Some? { FindIffResolves(a, m, Find(b, m).value); FindIffResolves(b, m, Find(b, m).value); }
    }
    assert NamesOf(a) == NamesOf(b) by {
      forall s ensures s in NamesOf(a) <==> s in NamesOf(b) {
        if s in NamesOf(a) { var id :| id in a.devices && a.devices[id].name == s; assert b.devices[id].name == s; }
        if s in NamesOf(b) { var id :| id in b.devices && b.devices[id].name == s; assert a.devices[id].name == s; }
      }
    }
  }

  lemma MarkKeeps(db: Db, id: Id, d: Device)
    requires id in db.devices && d.mac == db.devices[id].mac && d.name == db.devices[id].name
    ensures SameIdentities(db, Mark(db, id, d))
  {
  }

  lemma SameIsTransitive(a: Db, b: Db, c: Db)
    requires SameIdentities(a, b) && SameIdentities(b, c)
    ensures SameIdentities(a, c)
  {
  }

  lemma RecordPathKeeps(db: Db, id: Id, h: Host, now: int)
    requires id in db.devices
    ensures SameIdentities(db, RecordPath(db, id, h, now))
  {
  }

  lemma {:induction false} RecordPathsKeeps(db: Db, id: Id, hosts: seq<Host>, now: int)
    requires id in db.devices
    ensures SameIdentities(db, RecordPaths(db, id, hosts, now))
    ensures RecordPaths(db, id, hosts, now).devices == db.devices && RecordPaths(db, id, hosts, now).log == db.log
  {
    if hosts != [] {
      RecordPathsKeeps(db, id, hosts[..|hosts| - 1], now);
    }
  }

  lemma FlagConflictsKeeps(db: Db, extra: seq<Claim>)
    ensures SameIdentities(db, FlagConflicts(db, extra))
  {
  }

  lemma {:induction false} ExpireKeeps(db: Db, n: nat, seen: set<Mac>, limit: int)
    ensures SameIdentities(db, Expire(db, n, seen, limit))
  {
    if n > 0 {
      ExpireKeeps(db, n - 1, seen, limit);
    }
  }

  lemma FoundIsRow(db: Db, mac: Mac)
    requires Identities(db) && Find(db, mac).Some?
    ensures Find(db, mac).value in db.devices
  {
  }

  lemma SyncOneKeeps(db: Db, h: Host, seen: set<Mac>, now: int)
    requires Identities(db)
    ensures SameIdentities(db, SyncOne(db, h, seen, now))
  {
    hide Find, SameIdentities, Identities, RecordPath;
    if Usable(h) && h.mac.value !in seen && Find(db, h.mac.value).Some? {
      var id := Find(db, h.mac.value).value;
      FoundIsRow(db, h.mac.value);
      var marked := Mark(db, id, Visible(db.devices[id], h.ip, now));
      MarkKeeps(db, id, Visible(db.devices[id], h.ip, now));
      RecordPathKeeps(marked, id, h, now);
      SameIsTransitive(db, marked, RecordPath(marked, id, h, now));
    } else {
      SameIsReflexive(db);
    }
  }

  lemma SameIsReflexive(db: Db)
    ensures SameIdentities(db, db)
  {
  }

  lemma {:induction false} SyncKeeps(db: Db, hosts: seq<Host>, now: int)
    requires Identities(db)
    ensures SameIdentities(db, Sync(db, hosts, now))
  {
    hide SyncOne, SameIdentities, Identities;
    if hosts == [] {
      SameIsReflexive(db);
    } else {
      var init, h := hosts[..|hosts| - 1], hosts[|hosts| - 1];
      var before := Sync(db, init, now);
      SyncKeeps(db, init, now);
      SameIdentitiesKeepValid(db, before);
      SyncOneKeeps(before, h, SeenMacs(init), now);
      SameIsTransitive(db, before, SyncOne(before, h, SeenMacs(init), now));
    }
  }

  lemma SetPresenceKeeps(db: Db, mac: Option<Mac>, online: bool, ip: Option<Addresses.IpText>, now: int)
    requires Identities(db)
    ensures SameIdentities(db, SetPresence(db, mac, online, ip, now))
  {
    hide Find, FlagConflicts, SameIdentities, Identities;
    if mac.None? || Find(db, mac.value).None? {
      SameIsReflexive(db);
    } else {
      FoundIsRow(db, mac.value);
      var id := Find(db, mac.value).value;
      var d := db.devices[id];
      MarkKeeps(db, id, d.(online := false));
      MarkKeeps(db, id, Visible(d, ip, now));
      var marked := Mark(db, id, Visible(d, ip, now));
      FlagConflictsKeeps(marked, []);
      SameIsTransitive(db, marked, FlagConflicts(marked, []));
    }
  }

  // ----------------------------------------------------------- growing rows

  lemma NameIsUnused(db: Db, name: string)
    requires name !in NamesOf(db)
    ensures forall id :: id in db.devices ==> db.devices[id].name != name
  {
  }

  lemma InsertKeepsIdentities(db: Db, d: Device)
    requires Identities(db) && d.mac !in db.aliases
    requires forall id :: id in db.devices ==> db.devices[id].mac != d.mac && db.devices[id].name != d.name
    ensures Identities(Insert(db, d))
  {
  }

  lemma InsertKeeps(db: Db, d: Device)
    requires Valid(db) && Find(db, d.mac).None? && d.name !in NamesOf(db)
    ensures Valid(Insert(db, d))
    ensures NamesOf(Insert(db, d)) == NamesOf(db) + {d.name}
    ensures forall m :: Find(Insert(db, d), m) == if m == d.mac then Some(db.nextId) else Find(db, m)
  {
    var grown := Insert(db, d);
    NotFoundIsUnused(db, d.mac);
    NameIsUnused(db, d.name);
    InsertKeepsIdentities(db, d);
    assert PathsOwned(grown);
    hide Find, Holder, Identities, PathsOwned;
    forall m ensures Find(grown, m) == if m == d.mac then Some(db.nextId) else Find(db, m) {
      if m == d.mac { FindIffResolves(grown, m, db.nextId); }
      else {
        if Find(db, m).Some? { FindIffResolves(db, m, Find(db, m).value); FindIffResolves(grown, m, Find(db, m).value); }
        if Find(grown, m).Some? { FindIffResolves(db, m, Find(grown, m).value); FindIffResolves(grown, m, Find(grown, m).value); }
      }
    }
    assert NamesOf(grown) == NamesOf(db) + {d.name} by {
      assert grown.devices[db.nextId].name == d.name;
      forall s | s in NamesOf(db) ensures s in NamesOf(grown) {
        var id :| id in db.devices && db.devices[id].name == s;
        assert grown.devices[id].name == s;
      }
    }
  }

  lemma RegisterKeeps(db: Db, g: Group, h: Host, now: int)
    requires Valid(db) && Find(db, g.key).None?
    ensures Valid(Register(db, g, h, now))
    ensures NamesOf(Register(db, g, h, now)) == NamesOf(db) + {AutoName.Chosen(h.title, h.macText, NamesOf(db))}
    ensures forall m :: Find(Register(db, g, h, now), m) == if m == g.key then Some(db.nextId) else Find(db, m)
  {
    hide Find, Valid, Identities, SameIdentities, NamesOf, RecordPaths, AutoName.Chosen;
    var name := AutoName.Chosen(h.title, h.macText, NamesOf(db));
    var d := Device(name, g.key, h.ip, true, false, Some(now));
    InsertKeeps(db, d);
    var logged := Insert(db, d).(log := db.log + [Discovered(g.key)]);
    SameButLog(Insert(db, d), logged);
    RecordPathsKeeps(logged, db.nextId, g.hosts, now);
    ValidIsIdentities(Insert(db, d));
    SameIdentitiesKeepValid(Insert(db, d), logged);
    ValidIsIdentities(logged);
    SameIdentitiesKeepValid(logged, Register(db, g, h, now));
  }

  lemma SameButLog(a: Db, b: Db)
    requires b == a.(log := b.log)
    ensures SameIdentities(a, b)
  {
  }

  lemma ValidIsIdentities(db: Db)
    requires Valid(db)
    ensures Identities(db)
  {
  }

  lemma RefreshKeeps(db: Db, id: Id, g: Group, h: Host, now: int)
    requires id in db.devices
    ensures SameIdentities(db, Refresh(db, id, g, h, now))
  {
    hide SameIdentities, RecordPaths;
    var d := Visible(db.devices[id], h.ip, now);
    MarkKeeps(db, id, d);
    RecordPathsKeeps(Mark(db, id, d), id, g.hosts, now);
    SameIsTransitive(db, Mark(db, id, d), Refresh(db, id, g, h, now));
  }

  /** A group leaves every lookup as it was, except that it may register its own key. */
  lemma ApplyGroupKeeps(db: Db, g: Group, auto: bool, order: Host -> int, now: int)
    requires Valid(db)
    ensures var r := ApplyGroup(db, g, auto, order, now);
            && Valid(r) && NamesOf(db) <= NamesOf(r)
            && forall m :: m != g.key || Find(db, m).Some? ==> Find(r, m) == Find(db, m)
  {
    hide Find, Valid, Identities, SameIdentities, NamesOf, Register, Refresh, Pick;
    ValidIsIdentities(db);
    var found := Find(db, g.key);
    if g.hosts != [] && found.Some? {
      FoundIsRow(db, g.key);
      var h := Pick(g.hosts, db.devices[found.value].ip, order);
      RefreshKeeps(db, found.value, g, h, now);
      SameIdentitiesKeepValid(db, Refresh(db, found.value, g, h, now));
    } else if g.hosts != [] && auto {
      RegisterKeeps(db, g, Pick(g.hosts, None, order), now);
    }
  }

  lemma {:induction false} ApplyGroupsKeep(db: Db, groups: seq<Group>, auto: bool, order: Host -> int, now: int)
    requires Valid(db)
    ensures var r := ApplyGroups(db, groups, auto, order, now);
            && Valid(r) && NamesOf(db) <= NamesOf(r)
            && forall m :: m !in Keys(groups) || Find(db, m).Some? ==> Find(r, m) == Find(db, m)
  {
    hide Find, Valid, NamesOf, ApplyGroup;
    if groups != [] {
      var init, g := groups[..|groups| - 1], groups[|groups| - 1];
      ApplyGroupsKeep(db, init, auto, order, now);
      ApplyGroupKeeps(ApplyGroups(db, init, auto, order, now), g, auto, order, now);
      assert g.key in Keys(groups);
      forall k | k in Keys(init) ensures k in Keys(groups) {
        var i :| 0 <= i < |init| && init[i].key == k;
        assert groups[i].key == k;
      }
    }
  }

  lemma ReconcileKeeps(db: Db, hosts: seq<Host>, auto: bool, order: Host -> int, grace: int, missing: bool, now: int)
    requires Valid(db)
    ensures Valid(Reconcile(db, hosts, auto, order, grace, missing, now))
    ensures SameIdentities(ApplyGroups(db, GroupHosts(db, hosts), auto, order, now),
                           Reconcile(db, hosts, auto, order, grace, missing, now))
  {
    hide Find, Valid, Identities, SameIdentities, ApplyGroups, GroupHosts, Expire, FlagConflicts, AllClaims;
    var groups := GroupHosts(db, hosts);
    var applied := ApplyGroups(db, groups, auto, order, now);
    ApplyGroupsKeep(db, groups, auto, order, now);
    SameIsReflexive(applied);
    ExpireKeeps(applied, applied.nextId, Keys(groups), Limit(now, grace));
    var observed := Observed(db, hosts, auto, order, grace, missing, now);
    FlagConflictsKeeps(observed, AllClaims(groups));
    SameIsTransitive(applied, observed, Reconcile(db, hosts, auto, order, grace, missing, now));
    ValidIsIdentities(applied);
    SameIdentitiesKeepValid(applied, Reconcile(db, hosts, auto, order, grace, missing, now));
  }

  // ------------------------------------------------ registration and review

  lemma NameNotFound(db: Db, name: string)
    requires Identities(db) && FindByName(db, name).None?
    ensures name !in NamesOf(db)
  {
  }

  lemma AddKeeps(db: Db, name: string, mac: Option<Mac>, ip: Option<Addresses.IpText>)
    requires Valid(db) && Add(db, name, mac, ip).Ok?
    ensures Valid(Add(db, name, mac, ip).value)
  {
    NameNotFound(db, name);
    hide Find, FindByName, Valid;
    InsertKeeps(db, Device(name, mac.value, ip, false, false, None));
  }

  ghost predicate FreeFor(db: Db, id: Id, d: Device) {
    && (forall o :: o in db.devices && o != id ==> db.devices[o].mac != d.mac && db.devices[o].name != d.name)
    && (d.mac in db.aliases ==> db.aliases[d.mac] == id)
  }

  lemma RewriteKeepsValid(db: Db, id: Id, d: Device)
    requires Valid(db) && id in db.devices && FreeFor(db, id, d)
    ensures Valid(db.(devices := db.devices[id := d]))
  {
  }

  lemma EditedIsFree(db: Db, id: Id, newName: Option<string>, mac: Option<Option<Mac>>)
    requires Identities(db) && id in db.devices
    requires NameRefusal(db, id, newName).None? && MacRefusal(db, id, mac).None?
    ensures FreeFor(db, id, Readdressed(Renamed(db.devices[id], newName), mac))
  {
    if mac.Some? {
      if Find(db, mac.value.value).None? { NotFoundIsUnused(db, mac.value.value); }
      else { FindIffResolves(db, mac.value.value, id); }
    }
    hide Find;
  }

  lemma UpdateKeeps(db: Db, name: string, newName: Option<string>, mac: Option<Option<Mac>>, ip: Option<Option<Addresses.IpText>>)
    requires Valid(db) && Update(db, name, newName, mac, ip).Ok?
    ensures Valid(Update(db, name, newName, mac, ip).value)
  {
    var id := FindByName(db, name).value;
    EditedIsFree(db, id, newName, mac);
    hide Valid, Identities, NameRefusal, MacRefusal, Renamed, Readdressed;
    var d := Readdressed(Renamed(db.devices[id], newName), mac);
    RewriteKeepsValid(db, id, if ip.Some? then d.(ip := ip.value) else d);
  }

  lemma DeleteKeeps(db: Db, name: string, expected: Option<Id>)
    requires Valid(db) && Delete(db, name, expected).Ok?
    ensures Valid(Delete(db, name, expected).value)
    ensures forall m, id: Id :: Resolves(Delete(db, name, expected).value, m, id)
                            <==> Resolves(db, m, id) && Some(id) != FindByName(db, name)
  {
  }

  lemma MergeAllowed(db: Db, r: Id, c: Id, macs: (Option<Mac>, Option<Mac>), confirmed: bool, reasoned: bool, blockers: bool)
    requires MergeRefusal(db, r, c, macs, confirmed, reasoned, blockers).None?
    ensures r in db.devices && c in db.devices && r != c && db.devices[c].mac !in db.aliases
    ensures !(db.devices[r].online && db.devices[c].online) && !db.devices[r].conflict && !db.devices[c].conflict
  {
  }

  /** The rows after dropping c and handing its hardware addresses to r. */
  ghost predicate HandedOver(db: Db, after: Db, r: Id, c: Id) {
    && r in db.devices && c in db.devices && r != c && db.devices[c].mac !in db.aliases
    && after.nextId == db.nextId && after.devices == db.devices - {c}
    && (forall m :: m in after.aliases <==> m in db.aliases || m == db.devices[c].mac)
    && (forall m :: m in after.aliases ==>
          after.aliases[m] == if m == db.devices[c].mac || db.aliases[m] == c then r else db.aliases[m])
  }

  lemma HandOverKeepsIdentities(db: Db, after: Db, r: Id, c: Id)
    requires Identities(db) && HandedOver(db, after, r, c)
    ensures Identities(after)
  {
  }

  lemma HandOverResolves(db: Db, after: Db, r: Id, c: Id, m: Mac, id: Id)
    requires Identities(db) && HandedOver(db, after, r, c)
    ensures Resolves(after, m, id)
            <==> if id == r then Resolves(db, m, r) || Resolves(db, m, c) else id != c && Resolves(db, m, id)
  {
    assert m in after.aliases <==> m in db.aliases || m == db.devices[c].mac;
  }

  lemma MergeHandsOver(db: Db, r: Id, c: Id, macs: (Option<Mac>, Option<Mac>), confirmed: bool, reasoned: bool, blockers: bool)
    requires Merge(db, r, c, macs, confirmed, reasoned, blockers).Ok?
    ensures HandedOver(db, Merge(db, r, c, macs, confirmed, reasoned, blockers).value, r, c)
  {
  }

  /** A committed merge hands over exactly the candidate's hardware addresses. */
  lemma MergeRedirectsCandidate(db: Db, r: Id, c: Id, macs: (Option<Mac>, Option<Mac>), confirmed: bool, reasoned: bool, blockers: bool)
    requires Valid(db) && Merge(db, r, c, macs, confirmed, reasoned, blockers).Ok?
    ensures var after := Merge(db, r, c, macs, confirmed, reasoned, blockers).value;
            && Valid(after)
            && forall m, id: Id :: Resolves(after, m, id)
                 <==> if id == r then Resolves(db, m, r) || Resolves(db, m, c) else id != c && Resolves(db, m, id)
  {
    var after := Merge(db, r, c, macs, confirmed, reasoned, blockers).value;
    MergeAllowed(db, r, c, macs, confirmed, reasoned, blockers);
    MergeHandsOver(db, r, c, macs, confirmed, reasoned, blockers);
    MovedPathsOwned(db, r, c);
    hide MergeRefusal, MovePaths, RedirectAliases, HandedOver, Identities, Resolves;
    HandOverKeepsIdentities(db, after, r, c);
    forall m, id: Id
      ensures Resolves(after, m, id)
              <==> if id == r then Resolves(db, m, r) || Resolves(db, m, c) else id != c && Resolves(db, m, id)
    {
      HandOverResolves(db, after, r, c, m, id);
    }
  }

  lemma MovedPathsOwned(db: Db, r: Id, c: Id)
    requires r != c && r in db.devices && PathsOwned(db)
    ensures forall k :: k in MovePaths(db.paths, r, c) ==> k.device in db.devices && k.device != c
  {
  }

  lemma SplitAllowed(db: Db, r: Id, mac: Option<Mac>, name: string, confirmed: bool)
    requires Valid(db) && SplitRefusal(db, r, mac, name, confirmed).None?
    ensures mac.Some? && mac.value in db.aliases && db.aliases[mac.value] == r && r in db.devices
    ensures forall id :: id in db.devices ==> db.devices[id].mac != mac.value && db.devices[id].name != name
  {
  }

  lemma SplitPathsOwned(db: Db, r: Id, mac: Mac)
    requires r in db.devices && PathsOwned(db)
    ensures forall k :: k in SplitPaths(db, r, mac) ==> k.device in db.devices || k.device == db.nextId
  {
  }

  /** The rows after giving alias m of r to a new offline device. */
  ghost predicate SplitOff(db: Db, after: Db, r: Id, m: Mac, name: string) {
    && m in db.aliases && db.aliases[m] == r && r in db.devices
    && after.nextId == db.nextId + 1 && after.aliases == db.aliases - {m}
    && after.devices == db.devices[db.nextId := Device(name, m, None, false, false, None)][r := db.devices[r].(conflict := true)]
  }

  lemma FreedAliasKeepsIdentities(db: Db, m: Mac)
    requires Identities(db)
    ensures Identities(db.(aliases := db.aliases - {m}))
  {
  }

  /** Rewriting a row without touching its name and address, and any paths. */
  lemma RowKeepsIdentities(db: Db, id: Id, d: Device, paths: map<PathKey, Path>)
    requires Identities(db) && id in db.devices && d.mac == db.devices[id].mac && d.name == db.devices[id].name
    ensures Identities(db.(devices := db.devices[id := d], paths := paths))
  {
  }

  lemma SplitOffKeepsIdentities(db: Db, after: Db, r: Id, m: Mac, name: string)
    requires Identities(db) && SplitOff(db, after, r, m, name) && r < db.nextId
    requires forall id :: id in db.devices ==> db.devices[id].mac != m && db.devices[id].name != name
    ensures Identities(after)
  {
    hide Identities;
    var freed := db.(aliases := db.aliases - {m});
    var d := Device(name, m, None, false, false, None);
    FreedAliasKeepsIdentities(db, m);
    InsertKeepsIdentities(freed, d);
    RowKeepsIdentities(Insert(freed, d), r, db.devices[r].(conflict := true), after.paths);
    IdentitiesIgnoreLog(db.(devices := after.devices, aliases := after.aliases, paths := after.paths, nextId := after.nextId), after);
  }

  lemma IdentitiesIgnoreLog(a: Db, b: Db)
    requires Identities(a) && b == a.(log := b.log)
    ensures Identities(b)
  {
  }

  lemma SplitOffResolves(db: Db, after: Db, r: Id, m: Mac, name: string, any: Mac, id: Id)
    requires Identities(db) && SplitOff(db, after, r, m, name)
    requires forall id :: id in db.devices ==> db.devices[id].mac != m
    ensures Resolves(after, any, id) <==> if any == m then id == db.nextId else Resolves(db, any, id)
  {
  }

  /** A committed split hands over exactly the one alias. */
  lemma SplitMovesOneAlias(db: Db, r: Id, mac: Option<Mac>, name: string, confirmed: bool)
    requires Valid(db) && Split(db, r, mac, name, confirmed).Ok?
    ensures var after := Split(db, r, mac, name, confirmed).value;
            && Valid(after)
            && Resolves(db, mac.value, r)
            && forall m, id: Id :: Resolves(after, m, id)
                 <==> if m == mac.value then id == db.nextId else Resolves(db, m, id)
  {
    var after := Split(db, r, mac, name, confirmed).value;
    SplitAllowed(db, r, mac, name, confirmed);
    SplitPathsOwned(db, r, mac.value);
    assert Resolves(db, mac.value, r);
    assert r < db.nextId;
    hide SplitRefusal, SplitPaths, Identities, Resolves;
    assert SplitOff(db, after, r, mac.value, name);
    SplitOffKeepsIdentities(db, after, r, mac.value, name);
    forall m, id: Id
      ensures Resolves(after, m, id) <==> if m == mac.value then id == db.nextId else Resolves(db, m, id)
    {
      SplitOffResolves(db, after, r, mac.value, name, m, id);
    }
  }

  lemma ApplyKeepsValid(db: Db, op: Op)
    requires Valid(db)
    ensures Valid(Apply(db, op))
  {
    hide Valid, Identities, SameIdentities, Add, Update, Delete, Merge, Split, Sync, SetPresence, Reconcile;
    ValidIsIdentities(db);
    match op
    case AddDevice(name, mac, ip) =>
      if Add(db, name, mac, ip).Ok? { AddKeeps(db, name, mac, ip); }
    case UpdateDevice(name, newName, newMac, newIp) =>
      if Update(db, name, newName, newMac, newIp).Ok? { UpdateKeeps(db, name, newName, newMac, newIp); }
    case DeleteDevice(name, expected) =>
      if Delete(db, name, expected).Ok? { DeleteKeeps(db, name, expected); }
    case UpdatePresence(mac, online, ip, now) =>
      SetPresenceKeeps(db, mac, online, ip, now);
      SameIdentitiesKeepValid(db, SetPresence(db, mac, online, ip, now));
    case SyncHosts(hosts, now) =>
      SyncKeeps(db, hosts, now);
      SameIdentitiesKeepValid(db, Sync(db, hosts, now));
    case ReconcileScan(hosts, auto, order, grace, missing, now) =>
      ReconcileKeeps(db, hosts, auto, order, grace, missing, now);
    case MergeDevices(r, c, macs, confirmed, reasoned, blockers) =>
      if Merge(db, r, c, macs, confirmed, reasoned, blockers).Ok? {
        MergeRedirectsCandidate(db, r, c, macs, confirmed, reasoned, blockers);
      }
    case SplitAlias(r, mac, name, confirmed) =>
      if Split(db, r, mac, name, confirmed).Ok? { SplitMovesOneAlias(db, r, mac, name, confirmed); }
    case ResolveConflict(id, ip, mac, reasoned) =>
      if Resolve(db, id, ip, mac, reasoned).Ok? {
        ResolveKeeps(db, id, ip, mac, reasoned);
        SameIdentitiesKeepValid(db, Resolve(db, id, ip, mac, reasoned).value);
      }
  }

  lemma ResolveKeeps(db: Db, id: Id, ip: Option<Addresses.IpText>, mac: Option<Mac>, reasoned: bool)
    requires Resolve(db, id, ip, mac, reasoned).Ok?
    ensures SameIdentities(db, Resolve(db, id, ip, mac, reasoned).value)
  {
  }

  /** After any run from the empty inventory, names are unique and a hardware address has at most one device. */
  lemma {:induction false} IdentitiesStayUnique(ops: seq<Op>)
    ensures var db := Run(EMPTY, ops);
            && Valid(db)
            && (forall m, a, b :: Resolves(db, m, a) && Resolves(db, m, b) ==> a == b)
            && (forall m, id: Id :: Find(db, m) == Some(id) <==> Resolves(db, m, id))
            && (forall a, b :: a in db.devices && b in db.devices && db.devices[a].name == db.devices[b].name ==> a == b)
  {
    hide Find;
    if ops != [] {
      IdentitiesStayUnique(ops[..|ops| - 1]);
      ApplyKeepsValid(Run(EMPTY, ops[..|ops| - 1]), ops[|ops| - 1]);
    }
    var db := Run(EMPTY, ops);
    forall m, id: Id ensures Find(db, m) == Some(id) <==> Resolves(db, m, id) {
      FindIffResolves(db, m, id);
    }
  }
}
