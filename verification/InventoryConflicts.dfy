/** Online devices that share an address are flagged as conflicting. */
module InventoryConflicts {
  import opened Prelude
  import opened Addresses
  import opened InventoryModel
  import opened InventoryIdentity

  predicate Sharing(a: Device, b: Device) {
    a.online && b.online && a.ip.Some? && a.ip == b.ip
  }

  ghost predicate SharersFlagged(db: Db) {
    forall a, b :: a in db.devices && b in db.devices && a != b && Sharing(db.devices[a], db.devices[b])
                   ==> db.devices[a].conflict && db.devices[b].conflict
  }

  /** The check needs nothing from the state it starts in. */
  lemma FlagConflictsSuffices(db: Db, extra: seq<Claim>)
    ensures SharersFlagged(FlagConflicts(db, extra))
  {
    var after := FlagConflicts(db, extra);
    hide Find;
    forall a, b | a in db.devices && b in db.devices && a != b && Sharing(after.devices[a], after.devices[b])
      ensures after.devices[a].conflict && after.devices[b].conflict
    {
      var ip := db.devices[a].ip;
      assert Claims(db, extra, ip, a) && Claims(db, extra, ip, b);
      assert Clashes(db, extra, a) && Clashes(db, extra, b);
    }
  }

  /** After rewriting one row, the flags are right exactly when no unflagged sharer of that row remains. */
  lemma RowStaysFlaggedIff(db: Db, id: Id, d: Device)
    requires SharersFlagged(db) && id in db.devices
    ensures SharersFlagged(db.(devices := db.devices[id := d]))
            <==> forall o :: o in db.devices && o != id && Sharing(d, db.devices[o]) ==> d.conflict && db.devices[o].conflict
  {
    var after := db.(devices := db.devices[id := d]);
    if SharersFlagged(after) {
      forall o | o in db.devices && o != id && Sharing(d, db.devices[o])
        ensures d.conflict && db.devices[o].conflict
      {
        assert after.devices[o] == db.devices[o] && Sharing(after.devices[id], after.devices[o]);
      }
    }
  }

  // ----------------------------------------------- a sync without the check

  /** The i-th host is the one that refreshes the device: usable, and the first with its address. */
  ghost predicate Refreshes(db: Db, hosts: seq<Host>, i: nat, id: Id) {
    && i < |hosts| && Usable(hosts[i]) && hosts[i].mac.value !in SeenMacs(hosts[..i])
    && Find(db, hosts[i].mac.value) == Some(id)
  }

  ghost predicate Synced(db: Db, hosts: seq<Host>, id: Id) {
    exists i :: Refreshes(db, hosts, i, id)
  }

  /** The address the device ends with: that of the last host refreshing it that has one. */
  ghost function SyncedIp(db: Db, hosts: seq<Host>, id: Id): Option<IpText>
    requires id in db.devices
  {
    if hosts == [] then db.devices[id].ip
    else
      var n := |hosts| - 1;
      if Refreshes(db, hosts, n, id) && hosts[n].ip.Some? then hosts[n].ip else SyncedIp(db, hosts[..n], id)
  }

  lemma SyncedExtends(db: Db, hosts: seq<Host>, id: Id)
    requires hosts != []
    ensures Synced(db, hosts, id) <==> Synced(db, hosts[..|hosts| - 1], id) || Refreshes(db, hosts, |hosts| - 1, id)
  {
    hide Find, SeenMacs;
    var init := hosts[..|hosts| - 1];
    forall i: nat | i < |init| ensures Refreshes(db, hosts, i, id) <==> Refreshes(db, init, i, id) {
      assert hosts[..i] == init[..i];
    }
  }

  /** The row a device ends with. */
  ghost function SyncedRow(db: Db, hosts: seq<Host>, id: Id, now: int): Device
    requires id in db.devices
  {
    if Synced(db, hosts, id)
    then db.devices[id].(ip := SyncedIp(db, hosts, id), online := true, lastSeen := Some(now)) else db.devices[id]
  }

  lemma SyncOneRows(db: Db, h: Host, seen: set<Mac>, now: int)
    requires Identities(db)
    ensures SyncOne(db, h, seen, now).devices
            == if Usable(h) && h.mac.value !in seen && Find(db, h.mac.value).Some? && Find(db, h.mac.value).value in db.devices
               then var id := Find(db, h.mac.value).value; db.devices[id := Visible(db.devices[id], h.ip, now)]
               else db.devices
  {
    if Usable(h) && Find(db, h.mac.value).Some? { FoundIsRow(db, h.mac.value); }
    hide Find;
  }

  lemma SyncedRowExtends(db: Db, hosts: seq<Host>, id: Id, now: int)
    requires hosts != [] && id in db.devices
    requires !Synced(db, hosts[..|hosts| - 1], id) ==> SyncedIp(db, hosts[..|hosts| - 1], id) == db.devices[id].ip
    ensures var h := hosts[|hosts| - 1];
            SyncedRow(db, hosts, id, now)
            == if Refreshes(db, hosts, |hosts| - 1, id) then Visible(SyncedRow(db, hosts[..|hosts| - 1], id, now), h.ip, now)
               else SyncedRow(db, hosts[..|hosts| - 1], id, now)
    ensures !Synced(db, hosts, id) ==> SyncedIp(db, hosts, id) == db.devices[id].ip
  {
    hide Refreshes, Synced;
    SyncedExtends(db, hosts, id);
  }

  /** What a whole sync does to each row, read off its inputs. */
  lemma {:induction false} SyncRows(db: Db, hosts: seq<Host>, now: int)
    requires Identities(db)
    ensures Sync(db, hosts, now).devices.Keys == db.devices.Keys
    ensures forall id :: id in db.devices ==> Sync(db, hosts, now).devices[id] == SyncedRow(db, hosts, id, now)
    ensures forall id :: id in db.devices && !Synced(db, hosts, id) ==> SyncedIp(db, hosts, id) == db.devices[id].ip
  {
    hide Find, SeenMacs, Identities, SameIdentities, SyncOne, SyncedRow, Synced, SyncedIp;
    if hosts == [] {
      NothingSynced(db, now);
    } else {
      var init, h := hosts[..|hosts| - 1], hosts[|hosts| - 1];
      SyncRows(db, init, now);
      SyncKeeps(db, init, now);
      SameIdentitiesKeepValid(db, Sync(db, init, now));
      SyncOneRows(Sync(db, init, now), h, SeenMacs(init), now);
      if Usable(h) && Find(db, h.mac.value).Some? { FoundIsRow(db, h.mac.value); }
      forall id | id in db.devices
        ensures Sync(db, hosts, now).devices[id] == SyncedRow(db, hosts, id, now)
        ensures !Synced(db, hosts, id) ==> SyncedIp(db, hosts, id) == db.devices[id].ip
      {
        SyncedRowExtends(db, hosts, id, now);
      }
    }
  }

  lemma NothingSynced(db: Db, now: int)
    ensures forall id :: id in db.devices ==>
              !Synced(db, [], id) && SyncedRow(db, [], id, now) == db.devices[id] && SyncedIp(db, [], id) == db.devices[id].ip
  {
  }

  /** Nobody else who is, or comes, online ends with the address of a synchronised device unflagged. */
  ghost predicate SyncKeepsSharers(db: Db, hosts: seq<Host>) {
    forall a, b :: a in db.devices && b in db.devices && a != b
                   && Synced(db, hosts, a) && (Synced(db, hosts, b) || db.devices[b].online)
                   && SyncedIp(db, hosts, a).Some? && SyncedIp(db, hosts, a) == SyncedIp(db, hosts, b)
                   ==> (db.devices[a].conflict && db.devices[b].conflict)
  }

  /** The condition, on its inputs, under which a whole sync leaves all online sharers flagged. */
  lemma SyncStaysFlaggedIff(db: Db, hosts: seq<Host>, now: int)
    requires Identities(db) && SharersFlagged(db)
    ensures SharersFlagged(Sync(db, hosts, now)) <==> SyncKeepsSharers(db, hosts)
  {
    SyncRows(db, hosts, now);
    hide Identities, Synced, SyncedIp, Sync;
    var after := Sync(db, hosts, now);
    if SharersFlagged(after) {
      forall a, b | a in db.devices && b in db.devices && a != b
                    && Synced(db, hosts, a) && (Synced(db, hosts, b) || db.devices[b].online)
                    && SyncedIp(db, hosts, a).Some? && SyncedIp(db, hosts, a) == SyncedIp(db, hosts, b)
        ensures db.devices[a].conflict && db.devices[b].conflict
      {
        assert Sharing(after.devices[a], after.devices[b]);
      }
    }
    if SyncKeepsSharers(db, hosts) {
      forall a, b | a in db.devices && b in db.devices && a != b && Sharing(after.devices[a], after.devices[b])
        ensures after.devices[a].conflict && after.devices[b].conflict
      {
        assert Sharing(after.devices[b], after.devices[a]);
        if !Synced(db, hosts, a) && !Synced(db, hosts, b) {
          assert Sharing(db.devices[a], db.devices[b]);
        }
      }
    }
  }

  // ------------------------------------------------------ an edited address

  /** No unflagged online device holds the address an edited online device ends with. */
  ghost predicate EditKeepsSharers(db: Db, name: string, ip: Option<Option<IpText>>) {
    FindByName(db, name).Some? ==>
      var id := FindByName(db, name).value;
      var d := db.devices[id];
      var shown := if ip.Some? then ip.value else d.ip;
      d.online && shown.Some? ==>
        forall o :: o in db.devices && o != id && db.devices[o].online && db.devices[o].ip == shown
                    ==> d.conflict && db.devices[o].conflict
  }

  lemma UpdateStaysFlaggedIff(db: Db, name: string, newName: Option<string>, mac: Option<Option<Mac>>, ip: Option<Option<IpText>>)
    requires SharersFlagged(db) && Update(db, name, newName, mac, ip).Ok?
    ensures SharersFlagged(Update(db, name, newName, mac, ip).value) <==> EditKeepsSharers(db, name, ip)
  {
    var id := FindByName(db, name).value;
    var d := Readdressed(Renamed(db.devices[id], newName), mac);
    hide NameRefusal, MacRefusal;
    RowStaysFlaggedIff(db, id, if ip.Some? then d.(ip := ip.value) else d);
  }

  // --------------------------------------------------------------- all runs

  /** The calls that keep sharers flagged: all but a sync or an edit that meets an unflagged holder. */
  ghost predicate KeepsFlags(db: Db, op: Op) {
    && (op.SyncHosts? ==> SyncKeepsSharers(db, op.hosts))
    && (op.UpdateDevice? && Update(db, op.name, op.newName, op.newMac, op.newIp).Ok? ==> EditKeepsSharers(db, op.name, op.newIp))
  }

  lemma MergeKeepsFlags(db: Db, r: Id, c: Id, macs: (Option<Mac>, Option<Mac>), confirmed: bool, reasoned: bool, blockers: bool)
    requires SharersFlagged(db) && Merge(db, r, c, macs, confirmed, reasoned, blockers).Ok?
    ensures SharersFlagged(Merge(db, r, c, macs, confirmed, reasoned, blockers).value)
  {
  }

  lemma SplitKeepsFlags(db: Db, r: Id, mac: Option<Mac>, name: string, confirmed: bool)
    requires SharersFlagged(db) && Identities(db) && Split(db, r, mac, name, confirmed).Ok?
    ensures SharersFlagged(Split(db, r, mac, name, confirmed).value)
  {
    hide SplitPaths;
  }

  /** A flag is only ever cleared where nobody online shares the address. */
  lemma ResolveKeepsFlags(db: Db, id: Id, ip: Option<IpText>, mac: Option<Mac>, reasoned: bool)
    requires SharersFlagged(db) && Resolve(db, id, ip, mac, reasoned).Ok?
    ensures SharersFlagged(Resolve(db, id, ip, mac, reasoned).value)
  {
    RowStaysFlaggedIff(db, id, db.devices[id].(conflict := false));
  }

  lemma RegistrationKeepsFlags(db: Db, op: Op)
    requires Valid(db) && SharersFlagged(db) && (op.AddDevice? || op.DeleteDevice?)
    ensures SharersFlagged(Apply(db, op))
  {
    hide Find;
  }

  lemma SetPresenceKeepsFlags(db: Db, mac: Option<Mac>, online: bool, ip: Option<IpText>, now: int)
    requires Valid(db) && SharersFlagged(db)
    ensures SharersFlagged(SetPresence(db, mac, online, ip, now))
  {
    hide FlagConflicts, Find;
    if mac.Some? && Find(db, mac.value).Some? {
      FoundIsRow(db, mac.value);
      var id := Find(db, mac.value).value;
      if online {
        FlagConflictsSuffices(Mark(db, id, Visible(db.devices[id], ip, now)), []);
      }
    }
  }

  lemma ApplyKeepsFlagsIff(db: Db, op: Op)
    requires Valid(db) && SharersFlagged(db)
    ensures SharersFlagged(Apply(db, op)) <==> KeepsFlags(db, op)
  {
    hide Valid, SharersFlagged, Merge, Split, Update, Resolve, Sync, SetPresence, Observed, FlagConflicts, EditKeepsSharers, SyncKeepsSharers;
    ValidIsIdentities(db);
    match op
    case UpdatePresence(mac, online, ip, now) => SetPresenceKeepsFlags(db, mac, online, ip, now);
    case SyncHosts(hosts, now) => SyncStaysFlaggedIff(db, hosts, now);
    case ReconcileScan(hosts, auto, order, grace, missing, now) =>
      FlagConflictsSuffices(Observed(db, hosts, auto, order, grace, missing, now), AllClaims(GroupHosts(db, hosts)));
    case MergeDevices(r, c, macs, confirmed, reasoned, blockers) =>
      if Merge(db, r, c, macs, confirmed, reasoned, blockers).Ok? { MergeKeepsFlags(db, r, c, macs, confirmed, reasoned, blockers); }
    case SplitAlias(r, mac, name, confirmed) =>
      if Split(db, r, mac, name, confirmed).Ok? { SplitKeepsFlags(db, r, mac, name, confirmed); }
    case UpdateDevice(name, newName, mac, ip) =>
      if Update(db, name, newName, mac, ip).Ok? { UpdateStaysFlaggedIff(db, name, newName, mac, ip); }
    case ResolveConflict(id, ip, mac, reasoned) =>
      if Resolve(db, id, ip, mac, reasoned).Ok? { ResolveKeepsFlags(db, id, ip, mac, reasoned); }
    case AddDevice(_, _, _) => RegistrationKeepsFlags(db, op);
    case DeleteDevice(_, _) => RegistrationKeepsFlags(db, op);
  }

  /**
    Two online devices with one address are both flagged in every state of a run exactly when every
    call of the run meets its condition; most calls have none.
  */
  lemma {:induction false} SharersStayFlaggedIff(db: Db, ops: seq<Op>)
    requires Valid(db) && SharersFlagged(db)
    ensures Valid(Run(db, ops))
    ensures AtEveryPoint(db, ops, SharersFlagged) <==> AtEveryCall(db, ops, KeepsFlags)
  {
    hide Valid, SharersFlagged, Apply, KeepsFlags;
    if ops != [] {
      var init := ops[..|ops| - 1];
      SharersStayFlaggedIff(db, init);
      hide AtEveryPoint, AtEveryCall;
      PointsExtend(db, ops, SharersFlagged);
      CallsExtend(db, ops, KeepsFlags);
      ApplyKeepsValid(Run(db, init), ops[|ops| - 1]);
      if SharersFlagged(Run(db, init)) {
        ApplyKeepsFlagsIff(Run(db, init), ops[|ops| - 1]);
      }
    }
  }

  /** A device with its flag cleared. */
  function Cleared(db: Db, id: Id): Db
    requires id in db.devices
  {
    db.(devices := db.devices[id := db.devices[id].(conflict := false)])
  }

  /**
    The review clears exactly one flag. For an online device it does so precisely when the cleared
    state still has every online sharer flagged; for an offline one the cleared state always has.
  */
  lemma ResolveClearsIff(db: Db, id: Id)
    requires SharersFlagged(db) && id in db.devices
    ensures var r := Resolve(db, id, db.devices[id].ip, Some(db.devices[id].mac), true);
            && (r.Ok? ==> r.value == Cleared(db, id) && SharersFlagged(r.value))
            && (db.devices[id].online ==> (r.Ok? <==> SharersFlagged(Cleared(db, id))))
            && (!db.devices[id].online ==> SharersFlagged(Cleared(db, id)))
  {
    RowStaysFlaggedIff(db, id, db.devices[id].(conflict := false));
  }
}
