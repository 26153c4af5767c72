/**
  The device and identity managers as they run: sessions that update stored rows step by step. Every
  session is proved to leave exactly the state its specification in InventoryModel names.
*/
module Inventory {
  import opened Prelude
  import opened Addresses
  import opened InventoryModel
  import opened InventoryIdentity
  import InventoryEvidence
  import InventoryLeaves
  import AutoName
  import Counting

  /** A session's outcome: committed as specified, or raised with the state as it was. */
  predicate Outcome(before: Db, after: Db, spec: Result<Db, Error>, raised: Option<Error>) {
    if spec.Ok? then raised.None? && after == spec.value else raised == Some(spec.error) && after == before
  }

  function Claimants(claims: map<Option<IpText>, set<Id>>, ip: Option<IpText>): set<Id> {
    if ip in claims then claims[ip] else {}
  }

  /** `claims.setdefault(ip, {})[id] = device`. */
  function AddClaim(claims: map<Option<IpText>, set<Id>>, ip: Option<IpText>, id: Id): (r: map<Option<IpText>, set<Id>>)
    ensures forall p, d: Id :: d in Claimants(r, p) <==> d in Claimants(claims, p) || (p == ip && d == id)
  {
    claims[ip := Claimants(claims, ip) + {id}]
  }

  /** `min` with the sort key of the scan's paths. */
  method Preferred(hosts: seq<Host>, current: Option<IpText>, order: Host -> int) returns (best: Host)
    requires hosts != []
    ensures best == Pick(hosts, current, order)
  {
    best := hosts[0];
    assert hosts[..1] == [hosts[0]];
    for i := 1 to |hosts|
      invariant best == Pick(hosts[..i], current, order)
    {
      assert hosts[..i + 1][..i] == hosts[..i];
      if Better(hosts[i], best, current, order) { best := hosts[i]; }
    }
    assert hosts[..|hosts|] == hosts;
  }

  lemma TwoMembers(s: set<Id>)
    ensures |s| >= 2 <==> exists a, b :: a in s && b in s && a != b
  {
    if |s| >= 2 {
      var a :| a in s;
      assert |s - {a}| >= 1;
      var b :| b in s - {a};
      assert a in s && b in s && a != b;
    }
    if a, b :| a in s && b in s && a != b {
      assert {a, b} <= s;
      Counting.SubsetSize({a, b}, s);
    }
  }

  class Inventory {
    var devices: map<Id, Device>
    var aliases: map<Mac, Id>
    var paths: map<PathKey, Path>
    var log: seq<Event>
    var nextId: Id

    function Contents(): Db reads this {
      Db(devices, aliases, paths, log, nextId)
    }

    constructor ()
      ensures Contents() == EMPTY
    {
      devices, aliases, paths, log, nextId := map[], map[], map[], [], 0;
    }

    method Rollback(before: Db)
      modifies this
      ensures Contents() == before
    {
      devices, aliases, paths, log, nextId := before.devices, before.aliases, before.paths, before.log, before.nextId;
    }

    // ------------------------------------------------- address conflicts

    static predicate OnlineClaim(db: Db, n: nat, ip: Option<IpText>, id: Id) {
      id < n && id in db.devices && db.devices[id].online && ip.Some? && db.devices[id].ip == ip
    }

    /** Who claims which address: online rows, then the given claims looked up by hardware address. */
    method CollectClaims(extra: seq<Claim>) returns (claims: map<Option<IpText>, set<Id>>)
      requires Identities(Contents())
      ensures forall ip, id: Id :: id in Claimants(claims, ip) <==> Claims(Contents(), extra, ip, id)
    {
      claims := map[];
      assert forall ip, id: Id :: id !in Claimants(claims, ip);
      hide Claimants;
      for n := 0 to nextId
        invariant forall ip, id: Id :: id in Claimants(claims, ip) <==> OnlineClaim(Contents(), n, ip, id)
      {
        if n in devices && devices[n].online && devices[n].ip.Some? {
          claims := AddClaim(claims, devices[n].ip, n);
        }
      }
      assert forall ip, id: Id :: id in Claimants(claims, ip) <==> Claims(Contents(), [], ip, id);
      for i := 0 to |extra|
        invariant forall ip, id: Id :: id in Claimants(claims, ip) <==> Claims(Contents(), extra[..i], ip, id)
      {
        ClaimsGrow(Contents(), extra, i);
        var found := Find(Contents(), extra[i].1);
        if found.Some? {
          claims := AddClaim(claims, extra[i].0, found.value);
        }
      }
      assert extra[..|extra|] == extra;
    }

    static lemma ClaimsGrow(db: Db, extra: seq<Claim>, i: nat)
      requires i < |extra|
      ensures forall ip, id: Id :: Claims(db, extra[..i + 1], ip, id)
                <==> Claims(db, extra[..i], ip, id) || (ip == extra[i].0 && Find(db, extra[i].1) == Some(id))
    {
      hide Find;
      var more, less := extra[..i + 1], extra[..i];
      forall ip, id: Id
        ensures Claims(db, more, ip, id) <==> Claims(db, less, ip, id) || (ip == extra[i].0 && Find(db, extra[i].1) == Some(id))
      {
        if j :| 0 <= j < |less| && less[j].0 == ip && Find(db, less[j].1) == Some(id) {
          assert more[j] == less[j];
        }
        if j :| 0 <= j < |more| && more[j].0 == ip && Find(db, more[j].1) == Some(id) {
          assert j < i ==> less[j] == more[j];
        }
        assert more[i] == extra[i];
      }
    }

    method FlagMembers(members: set<Id>)
      requires members <= devices.Keys
      modifies this`devices
      ensures devices.Keys == old(devices.Keys)
      ensures forall id :: id in devices ==>
                devices[id] == if id in members then old(devices[id]).(conflict := true) else old(devices[id])
    {
      var left := members;
      while left != {}
        invariant left <= members && devices.Keys == old(devices.Keys)
        invariant forall id :: id in devices ==>
                    devices[id] == if id in members - left then old(devices[id]).(conflict := true) else old(devices[id])
      {
        var id :| id in left;
        devices := devices[id := devices[id].(conflict := true)];
        left := left - {id};
      }
    }

    ghost predicate Crowded(claims: map<Option<IpText>, set<Id>>, among: set<Option<IpText>>, id: Id) {
      exists ip :: ip in among && ip in claims && |claims[ip]| >= 2 && id in claims[ip]
    }

    method CheckAddressConflicts(extra: seq<Claim>)
      requires Identities(Contents())
      modifies this`devices
      ensures Contents() == FlagConflicts(old(Contents()), extra)
    {
      var claims := CollectClaims(extra);
      ghost var was := Contents();
      var left := claims.Keys;
      forall ip | ip in claims ensures claims[ip] <= devices.Keys {
        forall id | id in claims[ip] ensures id in devices {
          assert id in Claimants(claims, ip);
          ClaimantsAreRows(was, extra, ip, id);
        }
      }
      while left != {}
        invariant left <= claims.Keys && devices.Keys == was.devices.Keys
        invariant forall id :: id in devices ==>
                    devices[id] == if Crowded(claims, claims.Keys - left, id) then was.devices[id].(conflict := true) else was.devices[id]
      {
        var ip :| ip in left;
        CrowdedGrows(claims, left, ip);
        if |claims[ip]| >= 2 {
          FlagMembers(claims[ip]);
        }
        left := left - {ip};
      }
      forall id | id in devices ensures Crowded(claims, claims.Keys, id) == Clashes(was, extra, id) {
        CrowdedIffClashes(was, extra, claims, id);
      }
      assert devices == FlagConflicts(was, extra).devices;
    }

    static lemma ClaimantsAreRows(db: Db, extra: seq<Claim>, ip: Option<IpText>, id: Id)
      requires Identities(db) && Claims(db, extra, ip, id)
      ensures id in db.devices
    {
    }

    lemma CrowdedGrows(claims: map<Option<IpText>, set<Id>>, left: set<Option<IpText>>, ip: Option<IpText>)
      requires left <= claims.Keys && ip in left
      ensures forall id :: Crowded(claims, claims.Keys - (left - {ip}), id)
                <==> Crowded(claims, claims.Keys - left, id) || (|claims[ip]| >= 2 && id in claims[ip])
    {
    }

    lemma CrowdedIffClashes(db: Db, extra: seq<Claim>, claims: map<Option<IpText>, set<Id>>, id: Id)
      requires forall ip, id: Id :: id in Claimants(claims, ip) <==> Claims(db, extra, ip, id)
      ensures Crowded(claims, claims.Keys, id) <==> Clashes(db, extra, id)
    {
      hide Claims;
      if Crowded(claims, claims.Keys, id) {
        var ip :| ip in claims && |claims[ip]| >= 2 && id in claims[ip];
        TwoMembers(claims[ip]);
        var a, b :| a in claims[ip] && b in claims[ip] && a != b;
        var other := if a == id then b else a;
        assert id in Claimants(claims, ip) && other in Claimants(claims, ip);
      }
      if Clashes(db, extra, id) {
        var ip, other :| other != id && Claims(db, extra, ip, id) && Claims(db, extra, ip, other);
        assert id in Claimants(claims, ip) && other in Claimants(claims, ip);
        TwoMembers(claims[ip]);
      }
    }

    // ---------------------------------------------------- presence updates

    /** Stores a row and logs a change of its online flag. */
    method Store(id: Id, d: Device)
      requires id in devices
      modifies this`devices, this`log
      ensures Contents() == Mark(old(Contents()), id, d)
    {
      var was := devices[id].online;
      devices := devices[id := d];
      if !was && d.online { log := log + [Joined(d.mac)]; }
      if was && !d.online { log := log + [Left(d.mac)]; }
    }

    method RecordObservation(id: Id, h: Host, now: int)
      modifies this`paths
      ensures Contents() == RecordPath(old(Contents()), id, h, now)
    {
      if h.ip.Some? && h.confirmed && h.mac.Some? {
        var key := PathKey(id, h.ip.value, h.iface);
        if key !in paths {
          paths := paths[key := Path(h.mac.value, now, now)];
        } else {
          paths := paths[key := paths[key].(last := now, observedMac := h.mac.value)];
        }
      }
    }

    method UpdatePresence(mac: Option<Mac>, online: bool, ip: Option<IpText>, now: int) returns (known: bool)
      requires Valid(Contents())
      modifies this
      ensures Contents() == SetPresence(old(Contents()), mac, online, ip, now)
      ensures known <==> mac.Some? && Find(old(Contents()), mac.value).Some?
    {
      hide Clashes;
      if mac.None? { return false; }
      var found := Find(Contents(), mac.value);
      if found.None? { return false; }
      FoundIsRow(Contents(), mac.value);
      var id := found.value;
      var d := devices[id];
      if online {
        d := d.(online := true, lastSeen := Some(now));
        if ip.Some? && d.ip != ip { d := d.(ip := ip); }
        ghost var before := Contents();
        assert d == Visible(devices[id], ip, now);
        Store(id, d);
        MarkKeeps(before, id, d);
        SameIdentitiesKeepValid(before, Contents());
        CheckAddressConflicts([]);
      } else if d.online {
        Store(id, d.(online := false));
      } else {
        assert devices[id := d] == devices;
      }
      return true;
    }

    method SyncDiscoveredHosts(hosts: seq<Host>, now: int)
      requires Valid(Contents())
      modifies this
      ensures Contents() == Sync(old(Contents()), hosts, now)
    {
      hide Find, SameIdentities, Identities, Mark, RecordPath;
      var seen := {};
      for i := 0 to |hosts|
        invariant Contents() == Sync(old(Contents()), hosts[..i], now)
        invariant seen == SeenMacs(hosts[..i])
      {
        var h := hosts[i];
        assert hosts[..i + 1][..i] == hosts[..i];
        SeenMacsGrow(hosts, i);
        SyncKeeps(old(Contents()), hosts[..i], now);
        SameIdentitiesKeepValid(old(Contents()), Contents());
        if h.mac.Some? && h.confirmed && h.mac.value !in seen {
          seen := seen + {h.mac.value};
          var found := Find(Contents(), h.mac.value);
          if found.Some? {
            FoundIsRow(Contents(), h.mac.value);
            var d := devices[found.value].(lastSeen := Some(now), online := true);
            if h.ip.Some? { d := d.(ip := h.ip); }
            assert d == Visible(devices[found.value], h.ip, now);
            Store(found.value, d);
            RecordObservation(found.value, h, now);
          }
        }
      }
      assert hosts[..|hosts|] == hosts;
    }

    static lemma SeenMacsGrow(hosts: seq<Host>, i: nat)
      requires i < |hosts|
      ensures SeenMacs(hosts[..i + 1]) == SeenMacs(hosts[..i]) + if Usable(hosts[i]) then {hosts[i].mac.value} else {}
    {
    }

    // --------------------------------------------------- reconcile a scan

    method RecordAll(id: Id, hosts: seq<Host>, now: int)
      modifies this`paths
      ensures Contents() == RecordPaths(old(Contents()), id, hosts, now)
    {
      for i := 0 to |hosts|
        invariant Contents() == RecordPaths(old(Contents()), id, hosts[..i], now)
      {
        assert hosts[..i + 1][..i] == hosts[..i];
        RecordObservation(id, hosts[i], now);
      }
      assert hosts[..|hosts|] == hosts;
    }

    method CollectGroups(hosts: seq<Host>) returns (groups: seq<Group>)
      requires Identities(Contents())
      ensures groups == GroupHosts(Contents(), hosts)
    {
      groups := [];
      for i := 0 to |hosts|
        invariant groups == GroupHosts(Contents(), hosts[..i])
      {
        var h := hosts[i];
        assert hosts[..i + 1][..i] == hosts[..i];
        if h.mac.Some? && h.confirmed {
          var known := Find(Contents(), h.mac.value);
          groups := AddTo(groups, if known.Some? then devices[known.value].mac else h.mac.value, h);
        }
      }
      assert hosts[..|hosts|] == hosts;
    }

    /** Applies one group; `names` grows with every registered device. */
    method ApplyOne(g: Group, auto: bool, order: Host -> int, now: int, names: set<string>) returns (grown: set<string>)
      requires Valid(Contents()) && g.hosts != [] && names == NamesOf(Contents())
      modifies this
      ensures Contents() == ApplyGroup(old(Contents()), g, auto, order, now)
      ensures Valid(Contents()) && grown == NamesOf(Contents())
    {
      ghost var before := Contents();
      hide Find, Pick, NamesOf, AutoName.Chosen, Valid, Identities, SameIdentities, RecordPaths;
      ApplyGroupKeeps(before, g, auto, order, now);
      grown := names;
      var found := Find(Contents(), g.key);
      if found.None? {
        if auto {
          var host := Preferred(g.hosts, None, order);
          RegisterKeeps(before, g, host, now);
          var name;
          name, grown := AutoName.AutoName(host.title, host.macText, names);
          var id := nextId;
          devices := devices[id := Device(name, g.key, host.ip, true, false, Some(now))];
          nextId := nextId + 1;
          log := log + [Discovered(g.key)];
          RecordAll(id, g.hosts, now);
        }
      } else {
        ValidIsIdentities(before);
        FoundIsRow(before, g.key);
        var d := devices[found.value];
        var host := Preferred(g.hosts, d.ip, order);
        RefreshKeeps(before, found.value, g, host, now);
        SameIdentitiesKeepValid(before, ApplyGroup(before, g, auto, order, now));
        d := d.(ip := if host.ip.Some? then host.ip else d.ip, lastSeen := Some(now), online := true);
        assert d == Visible(devices[found.value], host.ip, now);
        Store(found.value, d);
        RecordAll(found.value, g.hosts, now);
      }
    }

    method ExpireMissing(seen: set<Mac>, limit: int)
      modifies this
      ensures Contents() == Expire(old(Contents()), old(nextId), seen, limit)
    {
      for n := 0 to nextId
        invariant Contents() == Expire(old(Contents()), n, seen, limit) && nextId == old(nextId)
      {
        if n in devices && devices[n].online {
          var d := devices[n];
          if d.mac !in seen && d.lastSeen.Some? && d.lastSeen.value <= limit {
            Store(n, d.(online := false));
          }
        }
      }
    }

    method ReconcileDiscovery(hosts: seq<Host>, auto: bool, order: Host -> int, grace: int, missing: bool, now: int)
      requires Valid(Contents())
      modifies this
      ensures Contents() == Reconcile(old(Contents()), hosts, auto, order, grace, missing, now)
    {
      hide Find, NamesOf, Valid, Identities, SameIdentities, ApplyGroup, GroupHosts, FlagConflicts, Expire;
      ghost var before := Contents();
      ValidIsIdentities(before);
      var names := NamesOf(Contents());
      var groups := CollectGroups(hosts);
      var seen, claims := {}, [];
      InventoryLeaves.GroupsCover(before, hosts);
      for i := 0 to |groups|
        invariant Contents() == ApplyGroups(before, groups[..i], auto, order, now)
        invariant Valid(Contents()) && names == NamesOf(Contents())
        invariant seen == Keys(groups[..i]) && claims == AllClaims(groups[..i])
      {
        assert groups[..i + 1][..i] == groups[..i];
        KeysGrow(groups, i);
        seen := seen + {groups[i].key};
        claims := claims + GroupClaims(groups[i]);
        names := ApplyOne(groups[i], auto, order, now, names);
      }
      assert groups[..|groups|] == groups;
      ghost var applied := Contents();
      ValidIsIdentities(applied);
      if missing {
        ExpireMissing(seen, Limit(now, grace));
        ExpireKeeps(applied, applied.nextId, seen, Limit(now, grace));
        SameIdentitiesKeepValid(applied, Contents());
      }
      CheckAddressConflicts(claims);
    }

    static lemma KeysGrow(groups: seq<Group>, i: nat)
      requires i < |groups|
      ensures Keys(groups[..i + 1]) == Keys(groups[..i]) + {groups[i].key}
    {
    }

    // ------------------------------------------------- registration, review

    method AddDevice(name: string, mac: Option<Mac>, ip: Option<IpText>) returns (raised: Option<Error>)
      modifies this
      ensures Outcome(old(Contents()), Contents(), Add(old(Contents()), name, mac, ip), raised)
    {
      if mac.None? { return Some(Invalid); }
      if FindByName(Contents(), name).Some? { return Some(Duplicate); }
      if Find(Contents(), mac.value).Some? { return Some(Duplicate); }
      if name == "" { return Some(Invalid); }
      devices := devices[nextId := Device(name, mac.value, ip, false, false, None)];
      nextId := nextId + 1;
      return None;
    }

    method WriteName(id: Id, newName: Option<string>) returns (raised: Option<Error>)
      requires id in devices
      modifies this`devices
      ensures raised == NameRefusal(old(Contents()), id, newName)
      ensures devices == if raised.None? then old(devices)[id := Renamed(old(devices[id]), newName)] else old(devices)
    {
      hide FindByName;
      if newName.Some? {
        if newName.value == "" { return Some(Invalid); }
        var existing := FindByName(Contents(), newName.value);
        if existing.Some? && existing.value != id { return Some(Duplicate); }
        devices := devices[id := devices[id].(name := newName.value)];
      }
      return None;
    }

    method WriteMac(id: Id, mac: Option<Option<Mac>>) returns (raised: Option<Error>)
      requires id in devices
      modifies this`devices
      ensures raised == MacRefusal(old(Contents()), id, mac)
      ensures devices == if raised.None? then old(devices)[id := Readdressed(old(devices[id]), mac)] else old(devices)
    {
      hide Find;
      if mac.Some? {
        if mac.value.None? { return Some(Invalid); }
        var existing := Find(Contents(), mac.value.value);
        if existing.Some? && existing.value != id { return Some(Duplicate); }
        devices := devices[id := devices[id].(mac := mac.value.value)];
      }
      return None;
    }

    /** Fields are written as they are checked; a later failure rolls all of them back. */
    method UpdateDevice(name: string, newName: Option<string>, mac: Option<Option<Mac>>, ip: Option<Option<IpText>>)
      returns (raised: Option<Error>)
      requires Valid(Contents())
      modifies this
      ensures Outcome(old(Contents()), Contents(), Update(old(Contents()), name, newName, mac, ip), raised)
    {
      hide FindByName, Find, Valid, NameRefusal, MacRefusal, Renamed, Readdressed;
      var before := Contents();
      var found := FindByName(before, name);
      if found.None? { return Some(NotFound); }
      var id := found.value;
      NamedIsRow(before, name);
      raised := WriteName(id, newName);
      if raised.Some? { return; }
      RenameKeepsMacs(before, Contents(), id, newName, mac);
      raised := WriteMac(id, mac);
      if raised.Some? {
        Rollback(before);
        return;
      }
      if ip.Some? {
        devices := devices[id := devices[id].(ip := ip.value)];
      }
    }

    static lemma NamedIsRow(db: Db, name: string)
      requires FindByName(db, name).Some?
      ensures FindByName(db, name).value in db.devices
    {
    }

    static lemma RenameKeepsMacs(a: Db, b: Db, id: Id, newName: Option<string>, mac: Option<Option<Mac>>)
      requires Valid(a) && id in a.devices && b == a.(devices := a.devices[id := Renamed(a.devices[id], newName)])
      ensures MacRefusal(b, id, mac) == MacRefusal(a, id, mac)
    {
      if mac.Some? && mac.value.Some? {
        SameHolder(a.devices, b.devices, a.nextId, mac.value.value);
      }
    }

    static lemma {:induction false} SameHolder(a: map<Id, Device>, b: map<Id, Device>, n: nat, mac: Mac)
      requires a.Keys == b.Keys && forall o :: o in a ==> b[o].mac == a[o].mac
      ensures Holder(a, n, ByMac, mac) == Holder(b, n, ByMac, mac)
    {
      if n > 0 { SameHolder(a, b, n - 1, mac); }
    }

    method DeleteDevice(name: string, expected: Option<Id>) returns (raised: Option<Error>)
      modifies this
      ensures Outcome(old(Contents()), Contents(), Delete(old(Contents()), name, expected), raised)
    {
      var found := FindByName(Contents(), name);
      if found.None? { return Some(NotFound); }
      var id := found.value;
      if expected.Some? && id != expected.value { return Some(Invalid); }
      devices := devices - {id};
      aliases := map m | m in aliases && aliases[m] != id :: aliases[m];
      paths := map k | k in paths && k.device != id :: paths[k];
      return None;
    }

    /** Moves the candidate's address evidence one row at a time. */
    method MoveEvidence(r: Id, c: Id)
      requires r != c
      modifies this`paths
      ensures paths == MovePaths(old(paths), r, c)
    {
      var left := set k | k in paths && k.device == c;
      while left != {}
        invariant left == set k | k in paths && k.device == c
        invariant MovePaths(paths, r, c) == MovePaths(old(paths), r, c)
        decreases |left|
      {
        var k :| k in left;
        var existing := Twin(k, r);
        InventoryEvidence.MoveOneKeepsRest(paths, r, c, k);
        if existing in paths {
          paths := paths[existing := Path(paths[existing].observedMac, Earlier(paths[existing].first, paths[k].first),
                                          Later(paths[existing].last, paths[k].last))] - {k};
        } else {
          paths := paths[existing := paths[k]] - {k};
        }
        left := left - {k};
      }
      assert forall k :: k in paths && k.device == c ==> k in left;
      InventoryEvidence.NothingToMove(paths, r, c);
    }

    method Merge(r: Id, c: Id, expected: (Option<Mac>, Option<Mac>), confirmed: bool, reasoned: bool, blockers: bool)
      returns (raised: Option<Error>)
      modifies this
      ensures Outcome(old(Contents()), Contents(),
                      InventoryModel.Merge(old(Contents()), r, c, expected, confirmed, reasoned, blockers), raised)
    {
      hide MovePaths;
      if !confirmed || r == c || !reasoned { return Some(Invalid); }
      if r !in devices || c !in devices || (Some(devices[r].mac), Some(devices[c].mac)) != expected { return Some(Invalid); }
      var retained, candidate := devices[r], devices[c];
      if retained.online && candidate.online { return Some(Invalid); }
      if retained.conflict || candidate.conflict { return Some(Invalid); }
      if blockers { return Some(Invalid); }
      var before := Contents();
      aliases := map m | m in aliases :: if aliases[m] == c then r else aliases[m];
      MoveEvidence(r, c);
      if candidate.mac in aliases {
        Rollback(before);
        return Some(Storage);
      }
      aliases := aliases[candidate.mac := r];
      devices := devices - {c};
      return None;
    }

    method Split(r: Id, mac: Option<Mac>, name: string, confirmed: bool) returns (raised: Option<Error>)
      modifies this
      ensures Outcome(old(Contents()), Contents(), InventoryModel.Split(old(Contents()), r, mac, name, confirmed), raised)
    {
      hide SplitPaths;
      if !confirmed || name == "" || mac.None? { return Some(Invalid); }
      if mac.value !in aliases || aliases[mac.value] != r || r !in devices { return Some(Invalid); }
      if FindByName(Contents(), name).Some? { return Some(Invalid); }
      if Holder(devices, nextId, ByMac, mac.value).Some? { return Some(Storage); }
      var before := Contents();
      devices := devices[nextId := Device(name, mac.value, None, false, false, None)];
      paths := SplitPaths(before, r, mac.value);
      nextId := nextId + 1;
      aliases := aliases - {mac.value};
      devices := devices[r := before.devices[r].(conflict := true)];
      return None;
    }

    method ResolveConflict(id: Id, expectedIp: Option<IpText>, expectedMac: Option<Mac>, reasoned: bool)
      returns (raised: Option<Error>)
      modifies this
      ensures Outcome(old(Contents()), Contents(), Resolve(old(Contents()), id, expectedIp, expectedMac, reasoned), raised)
    {
      if id !in devices || devices[id].ip != expectedIp || Some(devices[id].mac) != expectedMac || !reasoned {
        return Some(Invalid);
      }
      if devices[id].ip.Some?
         && exists o :: o in devices && o != id && devices[o].ip == devices[id].ip && devices[o].online
      {
        return Some(Invalid);
      }
      devices := devices[id := devices[id].(conflict := false)];
      return None;
    }
  }
}
