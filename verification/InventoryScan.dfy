/** What a reconciled scan leaves on record for every device it observed. */
module InventoryScan {
  import opened Prelude
  import opened InventoryModel
  import opened InventoryIdentity
  import opened InventoryLeaves
  import AutoName

  // ----------------------------------------------------------- the groups

  ghost predicate DistinctKeys(groups: seq<Group>) {
    forall i, j :: 0 <= i < j < |groups| ==> groups[i].key != groups[j].key
  }

  ghost predicate InGroup(groups: seq<Group>, key: Mac, h: Host) {
    exists j :: 0 <= j < |groups| && groups[j].key == key && h in groups[j].hosts
  }

  lemma {:induction false} AddToMembers(groups: seq<Group>, key: Mac, h: Host)
    requires DistinctKeys(groups)
    ensures DistinctKeys(AddTo(groups, key, h))
    ensures forall k, x :: InGroup(AddTo(groups, key, h), k, x) <==> InGroup(groups, k, x) || (k == key && x == h)
  {
    var r := AddTo(groups, key, h);
    if groups == [] {
      assert r[0].hosts == [h];
    } else {
      var rest := groups[1..];
      forall k, x ensures InGroup(groups, k, x) <==> (groups[0].key == k && x in groups[0].hosts) || InGroup(rest, k, x) {
        GroupHeadOrTail(groups, k, x);
      }
      if groups[0].key == key {
        assert r[1..] == rest;
      } else {
        AddToMembers(rest, key, h);
        AddToKeys(rest, key, h);
        assert r[1..] == AddTo(rest, key, h);
        assert groups[0].key !in Keys(rest);
        forall j | 1 <= j < |r| ensures r[j].key != groups[0].key {
          assert r[1..][j - 1].key in Keys(r[1..]);
        }
        assert DistinctKeys(r) by {
          forall i, j | 0 <= i < j < |r| ensures r[i].key != r[j].key {
            assert i > 0 ==> r[1..][i - 1] == r[i] && r[1..][j - 1] == r[j];
          }
        }
      }
      forall k, x ensures InGroup(r, k, x) <==> InGroup(groups, k, x) || (k == key && x == h) {
        GroupHeadOrTail(r, k, x);
      }
    }
  }

  lemma GroupHeadOrTail(groups: seq<Group>, k: Mac, x: Host)
    requires groups != []
    ensures InGroup(groups, k, x) <==> (groups[0].key == k && x in groups[0].hosts) || InGroup(groups[1..], k, x)
  {
    if j :| 0 <= j < |groups| && groups[j].key == k && x in groups[j].hosts {
      assert j > 0 ==> groups[1..][j - 1] == groups[j];
    }
    if j :| 0 <= j < |groups[1..]| && groups[1..][j].key == k && x in groups[1..][j].hosts {
      assert groups[j + 1] == groups[1..][j];
    }
  }

  /** The grouping is a partition of the usable observations by the address of their device. */
  lemma {:induction false} GroupingIsPartition(db: Db, hosts: seq<Host>)
    ensures DistinctKeys(GroupHosts(db, hosts))
    ensures forall k, x :: InGroup(GroupHosts(db, hosts), k, x) <==> x in hosts && Usable(x) && k == KeyFor(db, x.mac.value)
  {
    hide KeyFor, InGroup, DistinctKeys, AddTo;
    if hosts == [] {
      NoGroups();
    } else {
      var init, h := hosts[..|hosts| - 1], hosts[|hosts| - 1];
      assert hosts == init + [h];
      GroupingIsPartition(db, init);
      if Usable(h) {
        AddToMembers(GroupHosts(db, init), KeyFor(db, h.mac.value), h);
      }
    }
  }

  lemma NoGroups()
    ensures DistinctKeys([]) && forall k, x :: !InGroup([], k, x)
  {
  }

  // --------------------------------------------------- one group's traces

  /** The evidence of one observation: refreshed, or new as of now. */
  ghost predicate PathSeen(was: Db, db: Db, id: Id, h: Host, now: int) {
    h.ip.Some? ==>
      var key := PathKey(id, h.ip.value, h.iface);
      key in db.paths && db.paths[key].last == now
      && db.paths[key].first == if key in was.paths then was.paths[key].first else now
  }

  /** Evidence only grows, keeps its first time, and is touched at this time only. */
  ghost predicate PathsGrow(was: Db, db: Db, now: int) {
    forall k :: k in was.paths ==> k in db.paths && db.paths[k].first == was.paths[k].first
                                   && (db.paths[k] == was.paths[k] || db.paths[k].last == now)
  }

  ghost predicate NewPathsAreNow(was: Db, db: Db, now: int) {
    forall k :: k in db.paths && k !in was.paths ==> db.paths[k].first == now && db.paths[k].last == now
  }

  lemma {:induction false} RecordPathsTraces(db: Db, id: Id, hosts: seq<Host>, now: int)
    ensures var r := RecordPaths(db, id, hosts, now);
            && PathsGrow(db, r, now) && NewPathsAreNow(db, r, now)
            && forall h :: h in hosts && Usable(h) ==> PathSeen(db, r, id, h, now)
  {
    if hosts != [] {
      var init, h := hosts[..|hosts| - 1], hosts[|hosts| - 1];
      assert hosts == init + [h];
      RecordPathsTraces(db, id, init, now);
    }
  }

  /** Before this scan: the path keys of one device, whether or not it exists yet. */
  ghost predicate Traced(was: Db, db: Db, g: Group, now: int) {
    Find(db, g.key).Some? ==>
      var id := Find(db, g.key).value;
      && id in db.devices && db.devices[id].mac == g.key && db.devices[id].online && SeenNow(db, id, now)
      && forall h :: h in g.hosts && Usable(h) ==> PathSeen(was, db, id, h, now)
  }

  /** The address shown for the device is the best observed one, if any was observed. */
  ghost predicate Placed(was: Db, db: Db, g: Group, order: Host -> int) {
    Find(db, g.key).Some? && g.hosts != [] ==>
      var id := Find(db, g.key).value;
      var shown := if id in was.devices then was.devices[id].ip else None;
      var best := Pick(g.hosts, shown, order).ip;
      id in db.devices && db.devices[id].ip == if best.Some? then best else shown
  }

  /** The group's key, when found, is the device's own address. */
  ghost predicate OwnKey(db: Db, key: Mac) {
    Find(db, key).Some? ==> Find(db, key).value in db.devices && db.devices[Find(db, key).value].mac == key
  }

  ghost predicate Grown(was: Db, db: Db, now: int) {
    PathsGrow(was, db, now) && NewPathsAreNow(was, db, now)
  }

  lemma GrownIsTransitive(a: Db, b: Db, c: Db, now: int)
    requires Grown(a, b, now) && Grown(b, c, now)
    ensures Grown(a, c, now)
  {
  }

  lemma SeenPathStays(was: Db, a: Db, b: Db, id: Id, h: Host, now: int)
    requires PathSeen(was, a, id, h, now) && PathsGrow(a, b, now)
    ensures PathSeen(was, b, id, h, now)
  {
  }

  lemma SeenPathFromStart(was: Db, a: Db, b: Db, id: Id, h: Host, now: int)
    requires PathSeen(a, b, id, h, now) && Grown(was, a, now)
    ensures PathSeen(was, b, id, h, now)
  {
  }

  /** The rows after one group: at most the row of its key is written. */
  lemma ApplyGroupRows(db: Db, g: Group, auto: bool, order: Host -> int, now: int)
    requires Valid(db) && g.hosts != [] && OwnKey(db, g.key)
    ensures var r := ApplyGroup(db, g, auto, order, now);
            && Grown(db, r, now)
            && (forall id :: id in db.devices && Find(r, g.key) != Some(id) ==> id in r.devices && r.devices[id] == db.devices[id])
            && Traced(db, r, g, now) && Placed(db, r, g, order)
  {
    hide Find, RecordPaths, Pick, NamesOf, AutoName.Chosen, PathsGrow, NewPathsAreNow, PathSeen, Valid;
    ValidIsIdentities(db);
    RowsBelowNext(db);
    ApplyGroupKeeps(db, g, auto, order, now);
    var found := Find(db, g.key);
    if found.Some? {
      FoundIsRow(db, g.key);
      var d := Visible(db.devices[found.value], Pick(g.hosts, db.devices[found.value].ip, order).ip, now);
      var marked := Mark(db, found.value, d);
      RecordPathsKeeps(marked, found.value, g.hosts, now);
      RecordPathsTraces(marked, found.value, g.hosts, now);
      SamePaths(db, marked, RecordPaths(marked, found.value, g.hosts, now), found.value, g.hosts, now);
    } else if auto {
      var h := Pick(g.hosts, None, order);
      var d := Device(AutoName.Chosen(h.title, h.macText, NamesOf(db)), g.key, h.ip, true, false, Some(now));
      var logged := Insert(db, d).(log := db.log + [Discovered(g.key)]);
      RegisterKeeps(db, g, h, now);
      RegisteredRow(db, g, h, now);
      RecordPathsTraces(logged, db.nextId, g.hosts, now);
      SamePaths(db, logged, Register(db, g, h, now), db.nextId, g.hosts, now);
    } else {
      NothingGrows(db, now);
    }
  }

  lemma NothingGrows(db: Db, now: int)
    ensures Grown(db, db, now)
  {
  }

  lemma SamePaths(a: Db, b: Db, r: Db, id: Id, hosts: seq<Host>, now: int)
    requires a.paths == b.paths && PathsGrow(b, r, now) && NewPathsAreNow(b, r, now)
    requires forall h :: h in hosts && Usable(h) ==> PathSeen(b, r, id, h, now)
    ensures Grown(a, r, now) && forall h :: h in hosts && Usable(h) ==> PathSeen(a, r, id, h, now)
  {
  }

  /** A later group of another key leaves an earlier group's traces alone. */
  lemma OtherGroupKeepsTraces(was: Db, a: Db, b: Db, g: Group, order: Host -> int, now: int, key: Mac)
    requires Traced(was, a, g, now) && Placed(was, a, g, order) && PathsGrow(a, b, now)
    requires Find(b, g.key) == Find(a, g.key) && OwnKey(b, key) && key != g.key
    requires forall id :: id in a.devices && Find(b, key) != Some(id) ==> id in b.devices && b.devices[id] == a.devices[id]
    requires SameOwner(a, b)
    ensures Traced(was, b, g, now) && Placed(was, b, g, order)
  {
    hide Find, Pick, PathsGrow, PathSeen;
    if Find(b, g.key).Some? {
      var id := Find(b, g.key).value;
      assert Find(b, key) != Some(id);
      forall h | h in g.hosts && Usable(h) ensures PathSeen(was, b, id, h, now) {
        SeenPathStays(was, a, b, id, h, now);
      }
    }
  }

  /** Surviving rows keep their address. */
  ghost predicate SameOwner(a: Db, b: Db) {
    forall id :: id in a.devices ==> id in b.devices && b.devices[id].mac == a.devices[id].mac
  }

  /** Devices whose address is not among the keys are as they were. */
  ghost predicate Untouched(was: Db, db: Db, keys: set<Mac>) {
    forall id :: id in was.devices && was.devices[id].mac !in keys ==> id in db.devices && db.devices[id] == was.devices[id]
  }

  ghost predicate GroupsDone(was: Db, db: Db, groups: seq<Group>, order: Host -> int, now: int) {
    && Grown(was, db, now) && SameOwner(was, db) && Untouched(was, db, Keys(groups))
    && (forall i :: 0 <= i < |groups| ==> Traced(was, db, groups[i], now) && Placed(was, db, groups[i], order))
  }

  /** Traces of the last group against the state before the scan. */
  lemma LastGroupFromStart(was: Db, before: Db, r: Db, g: Group, order: Host -> int, now: int, keys: set<Mac>)
    requires Identities(was) && Identities(before) && Traced(before, r, g, now) && Placed(before, r, g, order)
    requires Grown(was, before, now) && SameOwner(was, before) && Untouched(was, before, keys) && g.key !in keys
    requires OwnKey(was, g.key) && Find(before, g.key) == Find(was, g.key)
    requires Find(before, g.key).Some? ==> Find(r, g.key) == Find(before, g.key)
    requires Find(before, g.key).None? && Find(r, g.key).Some? ==> Find(r, g.key).value !in before.devices
    ensures Traced(was, r, g, now) && Placed(was, r, g, order)
  {
    hide Find, Pick, PathSeen, Identities, Grown;
    if Find(r, g.key).Some? {
      var id := Find(r, g.key).value;
      forall h | h in g.hosts && Usable(h) ensures PathSeen(was, r, id, h, now) {
        SeenPathFromStart(was, before, r, id, h, now);
      }
    }
  }

  /** The group writes at most the row that its key names, and a new row is new. */
  lemma ApplyGroupOwner(db: Db, g: Group, auto: bool, order: Host -> int, now: int)
    requires Valid(db) && OwnKey(db, g.key)
    ensures var r := ApplyGroup(db, g, auto, order, now);
            && SameOwner(db, r)
            && (Find(db, g.key).None? && Find(r, g.key).Some? ==> Find(r, g.key).value !in db.devices)
  {
    hide Find, RecordPaths, Pick, NamesOf, AutoName.Chosen;
    RowsBelowNext(db);
    var found := Find(db, g.key);
    if g.hosts != [] && found.Some? {
      var d := Visible(db.devices[found.value], Pick(g.hosts, db.devices[found.value].ip, order).ip, now);
      RecordPathsKeeps(Mark(db, found.value, d), found.value, g.hosts, now);
    } else if g.hosts != [] && auto {
      RegisterKeeps(db, g, Pick(g.hosts, None, order), now);
      RegisteredRow(db, g, Pick(g.hosts, None, order), now);
    }
  }

  lemma OwnKeyStays(was: Db, db: Db, key: Mac)
    requires OwnKey(was, key) && SameOwner(was, db) && Find(db, key) == Find(was, key)
    ensures OwnKey(db, key)
  {
  }

  lemma SameOwnerIsTransitive(a: Db, b: Db, c: Db)
    requires SameOwner(a, b) && SameOwner(b, c)
    ensures SameOwner(a, c)
  {
  }

  lemma UntouchedExtends(was: Db, before: Db, r: Db, keys: set<Mac>, key: Mac)
    requires SameOwner(was, before) && Untouched(was, before, keys) && OwnKey(before, key)
    requires forall id :: id in before.devices && Find(r, key) != Some(id) ==> id in r.devices && r.devices[id] == before.devices[id]
    requires Find(before, key).Some? ==> Find(r, key) == Find(before, key)
    requires Find(before, key).None? && Find(r, key).Some? ==> Find(r, key).value !in before.devices
    ensures Untouched(was, r, keys + {key})
  {
    hide Find;
  }

  lemma {:induction false} GroupsLeaveTraces(db: Db, groups: seq<Group>, auto: bool, order: Host -> int, now: int)
    requires Valid(db) && DistinctKeys(groups)
    requires forall i :: 0 <= i < |groups| ==> groups[i].hosts != [] && OwnKey(db, groups[i].key)
    ensures GroupsDone(db, ApplyGroups(db, groups, auto, order, now), groups, order, now)
  {
    hide Find, Valid, Identities, Grown, SameOwner, Untouched, Traced, Placed, OwnKey, ApplyGroup, NamesOf;
    if groups == [] {
      NothingDone(db, now);
    } else {
      var init, g := groups[..|groups| - 1], groups[|groups| - 1];
      var before, r := ApplyGroups(db, init, auto, order, now), ApplyGroups(db, groups, auto, order, now);
      GroupsLeaveTraces(db, init, auto, order, now);
      ApplyGroupsKeep(db, init, auto, order, now);
      LastKeyIsNew(groups);
      ValidIsIdentities(db);
      ValidIsIdentities(before);
      OwnKeyStays(db, before, g.key);
      ApplyGroupRows(before, g, auto, order, now);
      ApplyGroupKeeps(before, g, auto, order, now);
      ApplyGroupOwner(before, g, auto, order, now);
      FoundStaysFound(before, r, g.key, auto, g, order, now);
      GrownIsTransitive(db, before, r, now);
      SameOwnerIsTransitive(db, before, r);
      UntouchedExtends(db, before, r, Keys(init), g.key);
      LastGroupFromStart(db, before, r, g, order, now, Keys(init));
      forall i | 0 <= i < |init| ensures Traced(db, r, groups[i], now) && Placed(db, r, groups[i], order) {
        assert init[i] == groups[i];
        EarlierGroupKeepsTraces(db, before, r, groups[i], g, order, now);
      }
    }
  }

  lemma FoundStaysFound(db: Db, r: Db, key: Mac, auto: bool, g: Group, order: Host -> int, now: int)
    requires Valid(db) && g.key == key && r == ApplyGroup(db, g, auto, order, now)
    ensures Find(db, key).Some? ==> Find(r, key) == Find(db, key)
  {
    ApplyGroupKeeps(db, g, auto, order, now);
  }

  lemma EarlierGroupKeepsTraces(was: Db, a: Db, b: Db, early: Group, g: Group, order: Host -> int, now: int)
    requires Traced(was, a, early, now) && Placed(was, a, early, order) && Grown(a, b, now)
    requires early.key != g.key && Find(b, early.key) == Find(a, early.key)
    requires Traced(a, b, g, now) && SameOwner(a, b)
    requires forall id :: id in a.devices && Find(b, g.key) != Some(id) ==> id in b.devices && b.devices[id] == a.devices[id]
    ensures Traced(was, b, early, now) && Placed(was, b, early, order)
  {
    OtherGroupKeepsTraces(was, a, b, early, order, now, g.key);
  }

  lemma LastKeyIsNew(groups: seq<Group>)
    requires groups != [] && DistinctKeys(groups)
    ensures var init, g := groups[..|groups| - 1], groups[|groups| - 1];
            DistinctKeys(init) && g.key !in Keys(init) && Keys(groups) == Keys(init) + {g.key}
            && forall i :: 0 <= i < |init| ==> init[i] == groups[i] && init[i].key != g.key
  {
    var init, g := groups[..|groups| - 1], groups[|groups| - 1];
    forall k ensures k in Keys(groups) <==> k in Keys(init) || k == g.key {
      if k in Keys(groups) {
        var i :| 0 <= i < |groups| && groups[i].key == k;
        assert i < |init| ==> init[i] == groups[i];
      }
      if k in Keys(init) {
        var i :| 0 <= i < |init| && init[i].key == k;
        assert groups[i].key == k;
      }
    }
  }

  lemma NothingDone(db: Db, now: int)
    ensures GroupsDone(db, db, [], (h: Host) => 0, now)
    ensures forall order :: GroupsDone(db, db, [], order, now)
  {
  }

  // ------------------------------------------------------------ the scan

  lemma KeysAreOwn(db: Db, mac: Mac)
    requires Identities(db)
    ensures OwnKey(db, KeyFor(db, mac))
  {
    if Find(db, mac).Some? {
      FindIffResolves(db, mac, Find(db, mac).value);
      FindIffResolves(db, KeyFor(db, mac), Find(db, mac).value);
    }
  }

  /** Every usable observation, of a device that is known afterwards, leaves its full trace. */
  ghost predicate Recorded(was: Db, db: Db, h: Host, now: int)
    requires Usable(h)
  {
    Find(db, h.mac.value).Some? ==>
      var id := Find(db, h.mac.value).value;
      id in db.devices && db.devices[id].online && SeenNow(db, id, now) && PathSeen(was, db, id, h, now)
  }

  /** The whole application of a scan, and what the steps after it leave alone. */
  lemma ScanGroupsDone(db: Db, hosts: seq<Host>, auto: bool, order: Host -> int, grace: int, missing: bool, now: int)
    requires Valid(db)
    ensures var groups := GroupHosts(db, hosts);
            var applied := ApplyGroups(db, groups, auto, order, now);
            && Identities(db) && Identities(applied) && GroupsDone(db, applied, groups, order, now)
            && (forall m :: Find(db, m).Some? ==> Find(applied, m) == Find(db, m))
            && (forall m :: Find(Reconcile(db, hosts, auto, order, grace, missing, now), m) == Find(applied, m))
  {
    hide Find, Valid, Identities, SameIdentities, ApplyGroups, GroupHosts, KeyFor, GroupsDone, Reconcile, OwnKey, NamesOf;
    var groups := GroupHosts(db, hosts);
    var applied := ApplyGroups(db, groups, auto, order, now);
    ValidIsIdentities(db);
    GroupsCover(db, hosts);
    GroupingIsPartition(db, hosts);
    forall i | 0 <= i < |groups| ensures OwnKey(db, groups[i].key) {
      assert groups[i].key in Keys(groups);
      var j :| 0 <= j < |hosts| && Usable(hosts[j]) && groups[i].key == KeyFor(db, hosts[j].mac.value);
      KeysAreOwn(db, hosts[j].mac.value);
    }
    GroupsLeaveTraces(db, groups, auto, order, now);
    ApplyGroupsKeep(db, groups, auto, order, now);
    ValidIsIdentities(applied);
    ReconcileKeeps(db, hosts, auto, order, grace, missing, now);
    SameIdentitiesKeepValid(applied, Reconcile(db, hosts, auto, order, grace, missing, now));
  }

  /**
    After a reconcile every usable observation whose device is known is on record: the device is
    online and seen now, and the path is recorded under it, as first seen when it first was.
  */
  lemma ScanIsRecorded(db: Db, hosts: seq<Host>, auto: bool, order: Host -> int, grace: int, missing: bool, now: int)
    requires Valid(db)
    ensures var r := Reconcile(db, hosts, auto, order, grace, missing, now);
            && (forall h :: h in hosts && Usable(h) ==> Recorded(db, r, h, now))
            && Grown(db, r, now)
  {
    hide Find, Valid, Identities, ApplyGroups, GroupHosts, KeyFor, Reconcile, Grown, PathSeen, Traced, Placed;
    var groups := GroupHosts(db, hosts);
    var applied := ApplyGroups(db, groups, auto, order, now);
    var r := Reconcile(db, hosts, auto, order, grace, missing, now);
    GroupingIsPartition(db, hosts);
    ScanGroupsDone(db, hosts, auto, order, grace, missing, now);
    ReconciledRows(db, hosts, auto, order, grace, missing, now);
    GrownByPaths(db, applied, r, now);
    forall h | h in hosts && Usable(h) ensures Recorded(db, r, h, now) {
      assert InGroup(groups, KeyFor(db, h.mac.value), h);
      var j :| 0 <= j < |groups| && groups[j].key == KeyFor(db, h.mac.value) && h in groups[j].hosts;
      if Find(r, h.mac.value).Some? {
        KeyNamesSameDevice(db, applied, h.mac.value);
        TraceIsRecorded(db, applied, r, groups[j], h, now, Limit(now, grace));
      }
    }
  }

  lemma GrownByPaths(was: Db, a: Db, b: Db, now: int)
    requires Grown(was, a, now) && a.paths == b.paths
    ensures Grown(was, b, now)
  {
  }

  /** Expiry and the address check leave paths alone, and every row that is not overdue online as it was. */
  lemma ReconciledRows(db: Db, hosts: seq<Host>, auto: bool, order: Host -> int, grace: int, missing: bool, now: int)
    ensures var applied := ApplyGroups(db, GroupHosts(db, hosts), auto, order, now);
            var r := Reconcile(db, hosts, auto, order, grace, missing, now);
            && r.paths == applied.paths && r.devices.Keys == applied.devices.Keys
            && forall id :: id in applied.devices ==>
                 && r.devices[id].lastSeen == applied.devices[id].lastSeen && r.devices[id].ip == applied.devices[id].ip
                 && (r.devices[id].online || !applied.devices[id].online
                     || (applied.devices[id].lastSeen.Some? && applied.devices[id].lastSeen.value <= Limit(now, grace)))
  {
    hide ApplyGroups, GroupHosts, Clashes, Expire, AllClaims;
    var groups := GroupHosts(db, hosts);
    var applied := ApplyGroups(db, groups, auto, order, now);
    ExpireMeaning(applied, applied.nextId, Keys(groups), Limit(now, grace));
    ExpireKeepsPaths(applied, applied.nextId, Keys(groups), Limit(now, grace));
  }

  lemma {:induction false} ExpireKeepsPaths(db: Db, n: nat, seen: set<Mac>, limit: int)
    ensures Expire(db, n, seen, limit).paths == db.paths
  {
    if n > 0 { ExpireKeepsPaths(db, n - 1, seen, limit); }
  }

  lemma TraceIsRecorded(was: Db, applied: Db, r: Db, g: Group, h: Host, now: int, limit: int)
    requires Traced(was, applied, g, now) && h in g.hosts && Usable(h) && limit < now
    requires Find(applied, g.key) == Find(applied, h.mac.value) == Find(r, h.mac.value)
    requires r.paths == applied.paths && r.devices.Keys == applied.devices.Keys
    requires forall id :: id in applied.devices ==>
               && r.devices[id].lastSeen == applied.devices[id].lastSeen
               && (r.devices[id].online || !applied.devices[id].online
                   || (applied.devices[id].lastSeen.Some? && applied.devices[id].lastSeen.value <= limit))
    ensures Recorded(was, r, h, now)
  {
    hide Find;
  }

  /** The address shown for a device after a scan is the best one observed for it, or the one before. */
  lemma ScanShowsBestAddress(db: Db, hosts: seq<Host>, auto: bool, order: Host -> int, grace: int, missing: bool, now: int)
    requires Valid(db)
    ensures var groups, r := GroupHosts(db, hosts), Reconcile(db, hosts, auto, order, grace, missing, now);
            forall i :: 0 <= i < |groups| ==> Placed(db, r, groups[i], order)
  {
    hide Find, Valid, Identities, ApplyGroups, GroupHosts, Reconcile, Pick, Grown, Traced;
    var groups := GroupHosts(db, hosts);
    ScanGroupsDone(db, hosts, auto, order, grace, missing, now);
    ReconciledRows(db, hosts, auto, order, grace, missing, now);
    assert forall i :: 0 <= i < |groups| ==> Placed(db, ApplyGroups(db, groups, auto, order, now), groups[i], order);
  }
}
