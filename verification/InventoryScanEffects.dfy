/** What a scan or a sync records, flags and takes offline, told from what was observed (manager/device_manager.py). */
module InventoryScanEffects {
  import opened Prelude
  import opened Addresses
  import opened InventoryModel
  import opened InventoryIdentity
  import opened InventoryLeaves
  import opened InventoryScan
  import opened InventoryConflicts
  import AutoName

  // ---------------------------------------------------------------- scans

  predicate ShowsV4(h: Host) {
    h.ip.Some? && !h.ip.value.Malformed? && !h.ip.value.addr.v6
  }

  predicate ShowsRoutedV6(h: Host) {
    h.ip.Some? && !h.ip.value.Malformed? && h.ip.value.addr.v6 && !LinkLocal6(h.ip.value.addr)
  }

  predicate ShowsLinkLocal(h: Host) {
    h.ip.Some? && !h.ip.value.Malformed? && h.ip.value.addr.v6 && LinkLocal6(h.ip.value.addr)
  }

  /** No other observation is of a kind that this one's comes after. */
  ghost predicate KindPreferred(hosts: seq<Host>, p: Host) {
    && ((exists h :: h in hosts && ShowsV4(h)) ==> ShowsV4(p))
    && ((exists h :: h in hosts && ShowsRoutedV6(h)) ==> ShowsV4(p) || ShowsRoutedV6(p))
    && ((exists h :: h in hosts && ShowsLinkLocal(h)) ==> ShowsV4(p) || ShowsRoutedV6(p) || ShowsLinkLocal(p))
  }

  predicate SameKind(a: Host, b: Host) {
    ShowsV4(a) == ShowsV4(b) && ShowsRoutedV6(a) == ShowsRoutedV6(b) && ShowsLinkLocal(a) == ShowsLinkLocal(b)
  }

  /**
    The observation that represents a group shows an IPv4 address if any does, else a routed IPv6
    address, else a link-local one; within the kind, the present address if it was observed again.
  */
  lemma PickPrefersIPv4(hosts: seq<Host>, current: Option<IpText>, order: Host -> int)
    requires hosts != []
    ensures var p := Pick(hosts, current, order);
            && p in hosts && KindPreferred(hosts, p)
            && (forall h :: h in hosts && current.Some? && h.ip == current && SameKind(h, p) ==> p.ip == current)
            && (forall h :: h in hosts && SameKind(h, p) && (h.ip == current <==> p.ip == current) ==> order(p) <= order(h))
  {
    PickIsFirstBest(hosts, current, order);
    hide Pick;
    var i: nat :| FirstBest(hosts, i, current, order) && Pick(hosts, current, order) == hosts[i];
    forall h | h in hosts ensures !Better(h, hosts[i], current, order) {
    }
    hide FirstBest, LinkLocal6, Better, ShowsV4, ShowsRoutedV6, ShowsLinkLocal;
    forall h | h in hosts { NotBetterMeans(h, hosts[i], current, order); }
  }

  lemma NotBetterMeans(h: Host, p: Host, current: Option<IpText>, order: Host -> int)
    requires !Better(h, p, current, order)
    ensures ShowsV4(h) ==> ShowsV4(p)
    ensures ShowsRoutedV6(h) ==> ShowsV4(p) || ShowsRoutedV6(p)
    ensures ShowsLinkLocal(h) ==> ShowsV4(p) || ShowsRoutedV6(p) || ShowsLinkLocal(p)
    ensures current.Some? && h.ip == current && SameKind(h, p) ==> p.ip == current
    ensures SameKind(h, p) && (h.ip == current <==> p.ip == current) ==> order(p) <= order(h)
  {
    hide LinkLocal6;
  }

  /** Nothing in this scan was observed of the device. */
  ghost predicate Unobserved(db: Db, hosts: seq<Host>, id: Id) {
    forall h :: h in hosts && Usable(h) ==> !Resolves(db, h.mac.value, id)
  }

  /**
    A scan takes an online device offline exactly when it is complete, observed nothing of the device,
    and the device was last seen at least the grace period, and at least one second, ago.
  */
  lemma ScanTakesOfflineIff(db: Db, hosts: seq<Host>, auto: bool, order: Host -> int, grace: int, missing: bool, now: int, id: Id)
    requires Valid(db) && id in db.devices && db.devices[id].online
    ensures var after := Reconcile(db, hosts, auto, order, grace, missing, now);
            && id in after.devices
            && (!after.devices[id].online <==>
                  && missing && Unobserved(db, hosts, id) && db.devices[id].lastSeen.Some?
                  && db.devices[id].lastSeen.value + 1 <= now && db.devices[id].lastSeen.value + grace <= now)
  {
    hide Find, Valid, Identities, ApplyGroups, GroupHosts, Clashes, Expire, AllClaims, Grown, Traced, Placed;
    var groups := GroupHosts(db, hosts);
    var applied := ApplyGroups(db, groups, auto, order, now);
    ScanGroupsDone(db, hosts, auto, order, grace, missing, now);
    GroupsKeepOnline(db, groups, auto, order, now, id);
    ExpireMeaning(applied, applied.nextId, Keys(groups), Limit(now, grace));
    KeyIffObserved(db, hosts, id);
    ApplyGroupsKeep(db, groups, auto, order, now);
    RowsBelowNext(applied);
  }

  lemma KeyIffObserved(db: Db, hosts: seq<Host>, id: Id)
    requires Identities(db) && id in db.devices
    ensures db.devices[id].mac in Keys(GroupHosts(db, hosts)) <==> !Unobserved(db, hosts, id)
  {
    GroupsCover(db, hosts);
    forall h | h in hosts && Usable(h) ensures KeyFor(db, h.mac.value) == db.devices[id].mac <==> Resolves(db, h.mac.value, id) {
      KeyIsOwnMac(db, h.mac.value, id);
    }
    hide Find, KeyFor, Resolves, GroupHosts, Identities;
  }

  lemma KeyIsOwnMac(db: Db, mac: Mac, id: Id)
    requires Identities(db) && id in db.devices
    ensures KeyFor(db, mac) == db.devices[id].mac <==> Resolves(db, mac, id)
  {
    FindIffResolves(db, mac, id);
    if Find(db, mac).Some? { FindIffResolves(db, mac, Find(db, mac).value); } else { NotFoundIsUnused(db, mac); }
    hide Find;
  }

  /** A scan registers every usable observation it does not know, if it may, and nobody else. */
  lemma ScanRegistersIff(db: Db, hosts: seq<Host>, auto: bool, order: Host -> int, grace: int, missing: bool, now: int, h: Host)
    requires Valid(db) && h in hosts && Usable(h)
    ensures var after := Reconcile(db, hosts, auto, order, grace, missing, now);
            Find(after, h.mac.value).Some? <==> auto || Find(db, h.mac.value).Some?
    ensures !auto ==> Reconcile(db, hosts, auto, order, grace, missing, now).devices.Keys == db.devices.Keys
  {
    hide Find, Valid, Identities, ApplyGroups, GroupHosts, Reconcile, KeyFor, GroupsDone;
    var groups := GroupHosts(db, hosts);
    ScanGroupsDone(db, hosts, auto, order, grace, missing, now);
    ReconciledRows(db, hosts, auto, order, grace, missing, now);
    GroupingIsPartition(db, hosts);
    GroupsCover(db, hosts);
    GroupsRegister(db, groups, auto, order, now);
    assert InGroup(groups, KeyFor(db, h.mac.value), h);
    KeyFoundIff(db, h.mac.value);
  }

  lemma KeyFoundIff(db: Db, mac: Mac)
    requires Identities(db)
    ensures Find(db, KeyFor(db, mac)).Some? <==> Find(db, mac).Some?
    ensures Find(db, mac).None? ==> KeyFor(db, mac) == mac
  {
    if Find(db, mac).Some? {
      FindIffResolves(db, mac, Find(db, mac).value);
      FindIffResolves(db, db.devices[Find(db, mac).value].mac, Find(db, mac).value);
    }
  }

  lemma {:induction false} GroupsRegister(db: Db, groups: seq<Group>, auto: bool, order: Host -> int, now: int)
    requires Valid(db) && forall i :: 0 <= i < |groups| ==> groups[i].hosts != []
    ensures var r := ApplyGroups(db, groups, auto, order, now);
            && (auto ==> forall k :: k in Keys(groups) ==> Find(r, k).Some?)
            && (!auto ==> r.devices.Keys == db.devices.Keys && forall k :: Find(r, k) == Find(db, k))
  {
    hide Find, Valid, NamesOf, ApplyGroup;
    if groups != [] {
      var init, g := groups[..|groups| - 1], groups[|groups| - 1];
      var before := ApplyGroups(db, init, auto, order, now);
      GroupsRegister(db, init, auto, order, now);
      ApplyGroupsKeep(db, init, auto, order, now);
      ApplyGroupKeeps(before, g, auto, order, now);
      GroupRegisters(before, g, auto, order, now);
      forall k | k in Keys(groups) && auto ensures Find(ApplyGroups(db, groups, auto, order, now), k).Some? {
        var i :| 0 <= i < |groups| && groups[i].key == k;
        if k != g.key { assert init[i].key == k && k in Keys(init); }
      }
    }
  }

  lemma GroupRegisters(db: Db, g: Group, auto: bool, order: Host -> int, now: int)
    requires Valid(db) && g.hosts != []
    ensures var r := ApplyGroup(db, g, auto, order, now);
            && (auto ==> Find(r, g.key).Some?)
            && (!auto ==> r.devices.Keys == db.devices.Keys && forall k :: Find(r, k) == Find(db, k))
  {
    hide Find, RecordPaths, Pick, NamesOf, AutoName.Chosen, Valid, Identities, SameIdentities;
    ValidIsIdentities(db);
    var found := Find(db, g.key);
    if found.Some? {
      FoundIsRow(db, g.key);
      var h := Pick(g.hosts, db.devices[found.value].ip, order);
      RefreshKeeps(db, found.value, g, h, now);
      SameIdentitiesKeepValid(db, ApplyGroup(db, g, auto, order, now));
      RecordPathsKeeps(Mark(db, found.value, Visible(db.devices[found.value], h.ip, now)), found.value, g.hosts, now);
    } else if auto {
      RegisterKeeps(db, g, Pick(g.hosts, None, order), now);
    }
  }

  // ------------------------------------------------ evidence, and its flags

  /** The path is as this observation shows it. */
  predicate Witnessed(h: Host, k: PathKey, p: Path) {
    Usable(h) && h.ip == Some(k.ip) && h.iface == k.iface && p.observedMac == h.mac.value
  }

  /** Paths of the device that changed, or are new, are as one of the observations shows them. */
  ghost predicate PathsFrom(db: Db, r: Db, id: Id, hosts: seq<Host>) {
    forall k :: k in r.paths ==> (k in db.paths && r.paths[k] == db.paths[k])
                                 || (k.device == id && exists h :: h in hosts && Witnessed(h, k, r.paths[k]))
  }

  lemma {:induction false} RecordPathsFrom(db: Db, id: Id, hosts: seq<Host>, now: int)
    ensures PathsFrom(db, RecordPaths(db, id, hosts, now), id, hosts)
  {
    if hosts != [] {
      var init, h := hosts[..|hosts| - 1], hosts[|hosts| - 1];
      var before, r := RecordPaths(db, id, init, now), RecordPaths(db, id, hosts, now);
      assert hosts == init + [h];
      RecordPathsFrom(db, id, init, now);
      forall k | k in r.paths && !(k in db.paths && r.paths[k] == db.paths[k])
        ensures k.device == id && exists x :: x in hosts && Witnessed(x, k, r.paths[k])
      {
        if k in before.paths && r.paths[k] == before.paths[k] {
          var x :| x in init && Witnessed(x, k, before.paths[k]);
          assert x in hosts;
        } else {
          assert Witnessed(h, k, r.paths[k]);
        }
      }
    }
  }

  ghost predicate GroupPathsFrom(db: Db, r: Db, groups: seq<Group>) {
    forall k :: k in r.paths && !(k in db.paths && r.paths[k] == db.paths[k]) ==>
      exists key, h :: InGroup(groups, key, h) && Find(r, key) == Some(k.device) && Witnessed(h, k, r.paths[k])
  }

  lemma GroupWitnesses(db: Db, g: Group, auto: bool, order: Host -> int, now: int)
    requires Valid(db)
    ensures GroupPathsFrom(db, ApplyGroup(db, g, auto, order, now), [g])
  {
    hide Find, Pick, NamesOf, AutoName.Chosen, Valid, RecordPaths, Identities, SameIdentities;
    var r := ApplyGroup(db, g, auto, order, now);
    ValidIsIdentities(db);
    var found := Find(db, g.key);
    if g.hosts != [] && (found.Some? || auto) {
      var id := if found.Some? then found.value else db.nextId;
      if found.Some? {
        FoundIsRow(db, g.key);
        var h := Pick(g.hosts, db.devices[id].ip, order);
        ApplyGroupKeeps(db, g, auto, order, now);
        RecordPathsFrom(Mark(db, id, Visible(db.devices[id], h.ip, now)), id, g.hosts, now);
      } else {
        var h := Pick(g.hosts, None, order);
        RegisterKeeps(db, g, h, now);
        var d := Device(AutoName.Chosen(h.title, h.macText, NamesOf(db)), g.key, h.ip, true, false, Some(now));
        RecordPathsFrom(Insert(db, d).(log := db.log + [Discovered(g.key)]), id, g.hosts, now);
      }
      assert Find(r, g.key) == Some(id) && PathsFrom(db, r, id, g.hosts);
      hide ApplyGroup, Witnessed;
      forall k | k in r.paths && !(k in db.paths && r.paths[k] == db.paths[k])
        ensures exists key, h :: InGroup([g], key, h) && Find(r, key) == Some(k.device) && Witnessed(h, k, r.paths[k])
      {
        var h :| h in g.hosts && Witnessed(h, k, r.paths[k]);
        assert [g][0] == g && InGroup([g], g.key, h);
      }
    }
  }

  lemma {:induction false} GroupsWitness(db: Db, groups: seq<Group>, auto: bool, order: Host -> int, now: int)
    requires Valid(db)
    ensures GroupPathsFrom(db, ApplyGroups(db, groups, auto, order, now), groups)
  {
    hide Find, Valid, NamesOf, ApplyGroup, Witnessed;
    if groups != [] {
      var init, g := groups[..|groups| - 1], groups[|groups| - 1];
      var before, r := ApplyGroups(db, init, auto, order, now), ApplyGroups(db, groups, auto, order, now);
      GroupsWitness(db, init, auto, order, now);
      ApplyGroupsKeep(db, init, auto, order, now);
      GroupWitnesses(before, g, auto, order, now);
      ApplyGroupKeeps(before, g, auto, order, now);
      forall k | k in r.paths && !(k in db.paths && r.paths[k] == db.paths[k])
        ensures exists key, h :: InGroup(groups, key, h) && Find(r, key) == Some(k.device) && Witnessed(h, k, r.paths[k])
      {
        if k in before.paths && r.paths[k] == before.paths[k] {
          var key, h :| InGroup(init, key, h) && Find(before, key) == Some(k.device) && Witnessed(h, k, before.paths[k]);
          var j :| 0 <= j < |init| && init[j].key == key && h in init[j].hosts;
          assert groups[j] == init[j] && InGroup(groups, key, h) && Find(r, key) == Find(before, key);
        } else {
          var key, h :| InGroup([g], key, h) && Find(r, key) == Some(k.device) && Witnessed(h, k, r.paths[k]);
          assert groups[|init|] == g && InGroup(groups, key, h);
        }
      }
    }
  }

  /** No evidence comes from nowhere: a path that is new or touched was observed, of that device, in this scan. */
  lemma ScanEvidenceIsObserved(db: Db, hosts: seq<Host>, auto: bool, order: Host -> int, grace: int, missing: bool, now: int, k: PathKey)
    requires Valid(db)
    requires var r := Reconcile(db, hosts, auto, order, grace, missing, now);
             k in r.paths && !(k in db.paths && r.paths[k] == db.paths[k])
    ensures var r := Reconcile(db, hosts, auto, order, grace, missing, now);
            exists h :: h in hosts && Witnessed(h, k, r.paths[k]) && Find(r, h.mac.value) == Some(k.device)
  {
    hide Find, Valid, Identities, ApplyGroups, GroupHosts, KeyFor, Reconcile, GroupsDone;
    var groups := GroupHosts(db, hosts);
    var applied := ApplyGroups(db, groups, auto, order, now);
    var r := Reconcile(db, hosts, auto, order, grace, missing, now);
    ScanGroupsDone(db, hosts, auto, order, grace, missing, now);
    ReconciledRows(db, hosts, auto, order, grace, missing, now);
    GroupsWitness(db, groups, auto, order, now);
    GroupingIsPartition(db, hosts);
    var key, h :| InGroup(groups, key, h) && Find(applied, key) == Some(k.device) && Witnessed(h, k, applied.paths[k]);
    SameDeviceByKey(db, applied, h.mac.value);
    assert h in hosts && Witnessed(h, k, r.paths[k]) && Find(r, h.mac.value) == Some(k.device);
  }

  lemma SameDeviceByKey(db: Db, after: Db, mac: Mac)
    requires Identities(db) && Identities(after)
    requires forall m :: Find(db, m).Some? ==> Find(after, m) == Find(db, m)
    ensures Find(after, KeyFor(db, mac)) == Find(after, mac)
  {
    KeyFoundIff(db, mac);
    if Find(after, mac).Some? { KeyNamesSameDevice(db, after, mac); }
    hide Find;
  }

  // ---------------------------------------------------- flags after a scan

  lemma {:induction false} ClaimsAreGrouped(groups: seq<Group>)
    ensures forall c :: c in AllClaims(groups) <==> exists h :: InGroup(groups, c.1, h) && c.0 == h.ip
  {
    if groups == [] {
      NoGroups();
    } else {
      var init, g := groups[..|groups| - 1], groups[|groups| - 1];
      assert groups == init + [g];
      ClaimsAreGrouped(init);
      forall c ensures c in AllClaims(groups) <==> exists h :: InGroup(groups, c.1, h) && c.0 == h.ip {
        if c in AllClaims(init) {
          var h :| InGroup(init, c.1, h) && c.0 == h.ip;
          GroupsExtend(init, g, c.1, h);
        } else if c in GroupClaims(g) {
          var i :| 0 <= i < |g.hosts| && (g.hosts[i].ip, g.key) == c;
          GroupsExtend(init, g, c.1, g.hosts[i]);
        }
        if h :| InGroup(groups, c.1, h) && c.0 == h.ip {
          GroupsExtend(init, g, c.1, h);
          if !InGroup(init, c.1, h) {
            var i :| 0 <= i < |g.hosts| && g.hosts[i] == h;
            assert GroupClaims(g)[i] == c;
          }
        }
      }
    }
  }

  lemma GroupsExtend(init: seq<Group>, g: Group, key: Mac, h: Host)
    ensures InGroup(init + [g], key, h) <==> InGroup(init, key, h) || (key == g.key && h in g.hosts)
  {
    var more := init + [g];
    if j :| 0 <= j < |init| && init[j].key == key && h in init[j].hosts { assert more[j] == init[j]; }
    if key == g.key && h in g.hosts { assert more[|init|] == g; }
  }

  /** After the scan the device is online under the address, or was observed with it. */
  ghost predicate Shown(after: Db, hosts: seq<Host>, id: Id, ip: Option<IpText>) {
    || (id in after.devices && after.devices[id].online && ip.Some? && after.devices[id].ip == ip)
    || exists h :: h in hosts && Usable(h) && h.ip == ip && Find(after, h.mac.value) == Some(id)
  }

  lemma {:induction false} GroupsKeepFlags(db: Db, groups: seq<Group>, auto: bool, order: Host -> int, now: int)
    requires Valid(db)
    ensures var r := ApplyGroups(db, groups, auto, order, now);
            && db.nextId <= r.nextId
            && forall id :: id in r.devices ==> (r.devices[id].conflict <==> id in db.devices && db.devices[id].conflict)
  {
    hide Find, Pick, NamesOf, AutoName.Chosen, Valid, RecordPaths;
    RowsBelowNext(db);
    if groups != [] {
      var init, g := groups[..|groups| - 1], groups[|groups| - 1];
      var before := ApplyGroups(db, init, auto, order, now);
      GroupsKeepFlags(db, init, auto, order, now);
      ApplyGroupsKeep(db, init, auto, order, now);
      var found := Find(before, g.key);
      if g.hosts != [] && found.Some? {
        ValidIsIdentities(before);
        FoundIsRow(before, g.key);
        var d := Visible(before.devices[found.value], Pick(g.hosts, before.devices[found.value].ip, order).ip, now);
        RecordPathsKeeps(Mark(before, found.value, d), found.value, g.hosts, now);
      } else if g.hosts != [] && auto {
        RegisteredRow(before, g, Pick(g.hosts, None, order), now);
      }
    }
  }

  /**
    A scan flags exactly the devices that share an address with another one, where a device has the
    address it is online under and those it was observed with.
  */
  lemma ScanFlagsIff(db: Db, hosts: seq<Host>, auto: bool, order: Host -> int, grace: int, missing: bool, now: int, id: Id)
    requires Valid(db) && id in Reconcile(db, hosts, auto, order, grace, missing, now).devices
    ensures var after := Reconcile(db, hosts, auto, order, grace, missing, now);
            after.devices[id].conflict <==>
              (id in db.devices && db.devices[id].conflict)
              || exists ip, other :: other != id && Shown(after, hosts, id, ip) && Shown(after, hosts, other, ip)
  {
    hide Find, Valid, Identities, ApplyGroups, GroupHosts, Expire, AllClaims, Claims, Shown, GroupsDone, Overdue;
    var groups := GroupHosts(db, hosts);
    var applied := ApplyGroups(db, groups, auto, order, now);
    var observed := Observed(db, hosts, auto, order, grace, missing, now);
    var after := Reconcile(db, hosts, auto, order, grace, missing, now);
    GroupsKeepFlags(db, groups, auto, order, now);
    ExpireMeaning(applied, applied.nextId, Keys(groups), Limit(now, grace));
    forall o, ip ensures Claims(observed, AllClaims(groups), ip, o) <==> Shown(after, hosts, o, ip) {
      ClaimedIffShown(db, hosts, auto, order, grace, missing, now, o, ip);
    }
    hide Observed;
    assert Clashes(observed, AllClaims(groups), id) <==>
           exists ip, other :: other != id && Shown(after, hosts, id, ip) && Shown(after, hosts, other, ip);
  }

  lemma ClaimedIffShown(db: Db, hosts: seq<Host>, auto: bool, order: Host -> int, grace: int, missing: bool, now: int, o: Id, ip: Option<IpText>)
    requires Valid(db)
    ensures var observed := Observed(db, hosts, auto, order, grace, missing, now);
            Claims(observed, AllClaims(GroupHosts(db, hosts)), ip, o)
            <==> Shown(Reconcile(db, hosts, auto, order, grace, missing, now), hosts, o, ip)
  {
    hide Find, Valid, Identities, SameIdentities, ApplyGroups, GroupHosts, KeyFor, Expire, AllClaims, GroupsDone, Clashes;
    var groups := GroupHosts(db, hosts);
    var applied := ApplyGroups(db, groups, auto, order, now);
    var observed := Observed(db, hosts, auto, order, grace, missing, now);
    var after := Reconcile(db, hosts, auto, order, grace, missing, now);
    ScanGroupsDone(db, hosts, auto, order, grace, missing, now);
    GroupingIsPartition(db, hosts);
    ClaimsAreGrouped(groups);
    ExpireKeeps(applied, applied.nextId, Keys(groups), Limit(now, grace));
    SameIdentitiesKeepValid(applied, Expire(applied, applied.nextId, Keys(groups), Limit(now, grace)));
    assert forall m :: Find(observed, m) == Find(applied, m) == Find(after, m);
    forall h | h in hosts && Usable(h) ensures Find(after, KeyFor(db, h.mac.value)) == Find(after, h.mac.value) {
      SameDeviceByKey(db, applied, h.mac.value);
    }
    hide Observed, InGroup;
    assert Claimed(observed, AllClaims(groups), ip, o) <==> exists h :: h in hosts && Usable(h) && h.ip == ip && Find(after, h.mac.value) == Some(o) by {
      if h :| h in hosts && Usable(h) && h.ip == ip && Find(after, h.mac.value) == Some(o) {
        assert InGroup(groups, KeyFor(db, h.mac.value), h);
        assert (ip, KeyFor(db, h.mac.value)) in AllClaims(groups);
      }
    }
  }

  /** One of the observations claims the address for the device. */
  ghost predicate Claimed(db: Db, extra: seq<Claim>, ip: Option<IpText>, id: Id) {
    exists i :: 0 <= i < |extra| && extra[i].0 == ip && Find(db, extra[i].1) == Some(id)
  }

  // ------------------------------------------------------ evidence of a sync

  /** What a sync recorded before host n: the evidence of each host that refreshed a device, and nothing else. */
  ghost predicate SyncRecorded(db: Db, r: Db, hosts: seq<Host>, n: nat, now: int)
    requires n <= |hosts|
  {
    && Grown(db, r, now)
    && (forall i: nat, id :: i < n && Refreshes(db, hosts, i, id) ==> PathSeen(db, r, id, hosts[i], now))
    && (forall k :: k in r.paths && !(k in db.paths && r.paths[k] == db.paths[k]) ==>
          exists i: nat :: i < n && Refreshes(db, hosts, i, k.device) && Witnessed(hosts[i], k, r.paths[k]))
  }

  lemma OneHostRecords(db: Db, h: Host, seen: set<Mac>, now: int)
    requires Identities(db)
    ensures var r := SyncOne(db, h, seen, now);
            if Usable(h) && h.mac.value !in seen && Find(db, h.mac.value).Some?
            then var id := Find(db, h.mac.value).value; Grown(db, r, now) && PathSeen(db, r, id, h, now) && PathsFrom(db, r, id, [h])
            else r == db
  {
    hide Find, Identities, PathsFrom, Grown, PathSeen;
    if Usable(h) && h.mac.value !in seen && Find(db, h.mac.value).Some? {
      FoundIsRow(db, h.mac.value);
      var id := Find(db, h.mac.value).value;
      var marked := Mark(db, id, Visible(db.devices[id], h.ip, now));
      RecordPathsTraces(marked, id, [h], now);
      RecordPathsFrom(marked, id, [h], now);
      OneIsAll(marked, id, h, now);
      SameTraces(db, marked, SyncOne(db, h, seen, now), id, h, now);
    }
  }

  lemma OneIsAll(db: Db, id: Id, h: Host, now: int)
    ensures RecordPaths(db, id, [h], now) == RecordPath(db, id, h, now)
  {
    assert [h][..0] == [] && RecordPaths(db, id, [], now) == db;
  }

  lemma SameTraces(a: Db, b: Db, r: Db, id: Id, h: Host, now: int)
    requires a.paths == b.paths && PathsGrow(b, r, now) && NewPathsAreNow(b, r, now) && PathSeen(b, r, id, h, now)
    requires PathsFrom(b, r, id, [h])
    ensures Grown(a, r, now) && PathSeen(a, r, id, h, now) && PathsFrom(a, r, id, [h])
  {
  }

  /** One more host: it refreshed this device, or nothing was recorded. */
  lemma SyncStepRecords(db: Db, before: Db, r: Db, hosts: seq<Host>, n: nat, found: Option<Id>, now: int)
    requires n < |hosts| && SyncRecorded(db, before, hosts, n, now)
    requires forall id: Id :: Refreshes(db, hosts, n, id) <==> found == Some(id)
    requires if found.Some? then Grown(before, r, now) && PathSeen(before, r, found.value, hosts[n], now)
                                 && PathsFrom(before, r, found.value, [hosts[n]])
             else r == before
    ensures SyncRecorded(db, r, hosts, n + 1, now)
  {
    hide Refreshes, PathSeen, Witnessed;
    if found.Some? {
      GrownIsTransitive(db, before, r, now);
      SeenPathFromStart(db, before, r, found.value, hosts[n], now);
      forall i: nat, id | i < n && Refreshes(db, hosts, i, id) ensures PathSeen(db, r, id, hosts[i], now) {
        SeenPathStays(db, before, r, id, hosts[i], now);
      }
      hide Grown;
      forall k | k in r.paths && !(k in db.paths && r.paths[k] == db.paths[k])
        ensures exists i: nat :: i < n + 1 && Refreshes(db, hosts, i, k.device) && Witnessed(hosts[i], k, r.paths[k])
      {
        if k in before.paths && r.paths[k] == before.paths[k] {
          var i: nat :| i < n && Refreshes(db, hosts, i, k.device) && Witnessed(hosts[i], k, before.paths[k]);
        } else {
          assert Refreshes(db, hosts, n, k.device) && Witnessed(hosts[n], k, r.paths[k]);
        }
      }
    }
  }

  /** A sync records the path of each host that refreshes a device, and no others. */
  lemma {:induction false} SyncIsRecorded(db: Db, hosts: seq<Host>, n: nat, now: int)
    requires Identities(db) && n <= |hosts|
    ensures SyncRecorded(db, Sync(db, hosts[..n], now), hosts, n, now)
  {
    hide Find, SeenMacs, Identities, SameIdentities, SyncOne, PathSeen, Grown, Witnessed, PathsFrom;
    if n == 0 {
      NothingSyncedYet(db, hosts, now);
    } else {
      var init, h := hosts[..n - 1], hosts[n - 1];
      var before := Sync(db, init, now);
      assert hosts[..n][..n - 1] == init;
      SyncIsRecorded(db, hosts, n - 1, now);
      SyncKeeps(db, init, now);
      SameIdentitiesKeepValid(db, before);
      OneHostRecords(before, h, SeenMacs(init), now);
      var found := if Usable(h) && h.mac.value !in SeenMacs(init) then Find(db, h.mac.value) else None;
      hide SyncRecorded;
      SyncStepRecords(db, before, SyncOne(before, h, SeenMacs(init), now), hosts, n - 1, found, now);
    }
  }

  lemma NothingSyncedYet(db: Db, hosts: seq<Host>, now: int)
    ensures SyncRecorded(db, db, hosts, 0, now)
  {
  }
}
