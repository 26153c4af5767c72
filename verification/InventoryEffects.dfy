/** What each session does to the stored rows, told row by row (manager/device_manager.py, manager/identity_manager.py). */
module InventoryEffects {
  import opened Prelude
  import opened Addresses
  import opened InventoryModel
  import opened InventoryIdentity

  /** All rows but one are as they were. */
  ghost predicate OthersKept(db: Db, after: Db, id: Id) {
    forall o :: o in db.devices && o != id ==> o in after.devices && after.devices[o] == db.devices[o]
  }

  /** The row is as it was, apart from its conflict flag. */
  predicate SameButFlag(d: Device, e: Device) {
    e.name == d.name && e.mac == d.mac && e.ip == d.ip && e.online == d.online && e.lastSeen == d.lastSeen
  }

  lemma NamedIff(db: Db, name: string, id: Id)
    requires Identities(db)
    ensures FindByName(db, name) == Some(id) <==> id in db.devices && db.devices[id].name == name
  {
  }

  /** Two different rows are online under one address. */
  predicate Shares(db: Db, a: Id, b: Id) {
    && a in db.devices && b in db.devices && a != b && db.devices[a].online && db.devices[b].online
    && db.devices[a].ip.Some? && db.devices[a].ip == db.devices[b].ip
  }

  lemma ClashesIffShares(db: Db, id: Id)
    requires id in db.devices
    ensures Clashes(db, [], id) <==> exists o :: Shares(db, id, o)
  {
    hide Find;
    if o :| Shares(db, id, o) {
      assert Claims(db, [], db.devices[id].ip, id) && Claims(db, [], db.devices[id].ip, o);
    }
    if Clashes(db, [], id) {
      var ip, other :| other != id && Claims(db, [], ip, id) && Claims(db, [], ip, other);
      assert Shares(db, id, other);
    }
  }

  // ------------------------------------------------------------- presence

  /**
    An online update stores the address it was given, or keeps the old one, and sets the online flag and
    the time. An offline update changes the online flag only. No other row changes apart from its flag.
  */
  lemma PresenceUpdateEffect(db: Db, mac: Mac, online: bool, ip: Option<IpText>, now: int, id: Id)
    requires Identities(db) && Resolves(db, mac, id)
    ensures var after := SetPresence(db, Some(mac), online, ip, now);
            && after.devices.Keys == db.devices.Keys && after.aliases == db.aliases && after.paths == db.paths
            && (var d, e := db.devices[id], after.devices[id];
                && e.name == d.name && e.mac == d.mac && e.online == online
                && e.ip == (if online && ip.Some? then ip else d.ip)
                && e.lastSeen == if online then Some(now) else d.lastSeen)
            && forall o :: o in db.devices && o != id ==> SameButFlag(db.devices[o], after.devices[o])
  {
    FindIffResolves(db, mac, id);
    hide Find, FlagConflicts, Identities, Resolves, Shares, Mark;
    if online {
      var d := Visible(db.devices[id], ip, now);
      ChecksFlagSharers(Mark(db, id, d));
      MarkWritesRow(db, id, d);
    } else {
      MarkWritesRow(db, id, db.devices[id].(online := false));
    }
  }

  lemma MarkWritesRow(db: Db, id: Id, d: Device)
    requires id in db.devices
    ensures var marked := Mark(db, id, d);
            && marked.devices.Keys == db.devices.Keys && marked.aliases == db.aliases && marked.paths == db.paths
            && marked.devices[id] == d && forall o :: o in db.devices && o != id ==> marked.devices[o] == db.devices[o]
  {
  }

  /** It flags exactly the devices that share an address online afterwards; an offline update flags nobody. */
  lemma PresenceUpdateFlags(db: Db, mac: Mac, online: bool, ip: Option<IpText>, now: int, id: Id, o: Id)
    requires Identities(db) && Resolves(db, mac, id) && o in db.devices
    ensures var after := SetPresence(db, Some(mac), online, ip, now);
            && o in after.devices
            && (after.devices[o].conflict <==> db.devices[o].conflict || (online && exists p :: Shares(after, o, p)))
  {
    FindIffResolves(db, mac, id);
    hide Find, FlagConflicts, Identities, Shares, Resolves;
    if online {
      ChecksFlagSharers(Mark(db, id, Visible(db.devices[id], ip, now)));
    }
  }

  /** The check without observations flags exactly the devices that share an address online. */
  lemma ChecksFlagSharers(db: Db)
    ensures var after := FlagConflicts(db, []);
            && after == db.(devices := after.devices) && after.devices.Keys == db.devices.Keys
            && forall o :: o in db.devices ==>
                 && SameButFlag(db.devices[o], after.devices[o])
                 && (after.devices[o].conflict <==> db.devices[o].conflict || exists p :: Shares(after, o, p))
  {
    hide Find, Clashes, Shares;
    var after := FlagConflicts(db, []);
    forall o | o in db.devices
      ensures after.devices[o].conflict <==> db.devices[o].conflict || exists p :: Shares(after, o, p)
    {
      ClashesIffShares(db, o);
      forall p ensures Shares(db, o, p) <==> Shares(after, o, p) {
        SameShares(db, after, o, p);
      }
    }
  }

  lemma SameShares(a: Db, b: Db, o: Id, p: Id)
    requires a.devices.Keys == b.devices.Keys && forall i :: i in a.devices ==> SameButFlag(a.devices[i], b.devices[i])
    ensures Shares(a, o, p) <==> Shares(b, o, p)
  {
  }

  /** An update of a hardware address that belongs to nobody, or does not normalise, changes nothing. */
  lemma UnknownPresenceIsIgnored(db: Db, mac: Option<Mac>, online: bool, ip: Option<IpText>, now: int)
    requires Identities(db) && (mac.Some? ==> forall id: Id :: !Resolves(db, mac.value, id))
    ensures SetPresence(db, mac, online, ip, now) == db
  {
    if mac.Some? && Find(db, mac.value).Some? {
      FindIffResolves(db, mac.value, Find(db, mac.value).value);
    }
  }

  // --------------------------------------------------------- registration

  /** A new device needs a name and an address that nobody has; it starts offline, unflagged and unseen. */
  lemma AddEffect(db: Db, name: string, mac: Option<Mac>, ip: Option<IpText>)
    requires Identities(db)
    ensures var r := Add(db, name, mac, ip);
            && (r.Ok? <==> mac.Some? && name != "" && (forall id :: id in db.devices ==> db.devices[id].name != name)
                           && forall id: Id :: !Resolves(db, mac.value, id))
            && (r == Err(Duplicate) <==> mac.Some? && ((exists id :: id in db.devices && db.devices[id].name == name)
                                                       || exists id: Id :: Resolves(db, mac.value, id)))
            && (r.Ok? ==>
                  var after := r.value;
                  && after.devices.Keys == db.devices.Keys + {db.nextId} && db.nextId !in db.devices
                  && OthersKept(db, after, db.nextId)
                  && (var e := after.devices[db.nextId];
                      e.name == name && Some(e.mac) == mac && e.ip == ip && !e.online && !e.conflict && e.lastSeen.None?)
                  && after.aliases == db.aliases && after.paths == db.paths && after.log == db.log)
  {
    if FindByName(db, name).Some? { NamedIff(db, name, FindByName(db, name).value); }
    forall id ensures FindByName(db, name) == Some(id) <==> id in db.devices && db.devices[id].name == name {
      NamedIff(db, name, id);
    }
    if mac.Some? {
      if Find(db, mac.value).Some? { FindIffResolves(db, mac.value, Find(db, mac.value).value); }
      forall id: Id ensures Find(db, mac.value) == Some(id) <==> Resolves(db, mac.value, id) {
        FindIffResolves(db, mac.value, id);
      }
    }
    hide Find, Resolves, FindByName;
  }

  /** An edit goes through exactly when the name and the address it gives are free or the device's own. */
  lemma UpdateSucceedsIff(db: Db, name: string, newName: Option<string>, mac: Option<Option<Mac>>, ip: Option<Option<IpText>>, id: Id)
    requires Identities(db) && id in db.devices && db.devices[id].name == name
    ensures Update(db, name, newName, mac, ip).Ok? <==>
            && (newName.Some? ==> newName.value != "" && forall o :: o in db.devices && o != id ==> db.devices[o].name != newName.value)
            && (mac.Some? ==> mac.value.Some? && forall o: Id :: Resolves(db, mac.value.value, o) ==> o == id)
  {
    NamedIff(db, name, id);
    NameFreeIff(db, id, newName);
    MacFreeIff(db, id, mac);
    hide NameRefusal, MacRefusal, FindByName, Resolves, Identities, Renamed, Readdressed;
  }

  /** The named device ends with exactly the fields that were given. */
  lemma UpdateEffect(db: Db, name: string, newName: Option<string>, mac: Option<Option<Mac>>, ip: Option<Option<IpText>>, id: Id)
    requires Identities(db) && id in db.devices && db.devices[id].name == name && Update(db, name, newName, mac, ip).Ok?
    ensures var after := Update(db, name, newName, mac, ip).value;
            && after.devices.Keys == db.devices.Keys && OthersKept(db, after, id)
            && (var d, e := db.devices[id], after.devices[id];
                && e.name == (if newName.Some? then newName.value else d.name)
                && e.mac == (if mac.Some? && mac.value.Some? then mac.value.value else d.mac)
                && e.ip == (if ip.Some? then ip.value else d.ip)
                && e.online == d.online && e.conflict == d.conflict && e.lastSeen == d.lastSeen)
            && after.aliases == db.aliases && after.paths == db.paths && after.log == db.log
  {
    NamedIff(db, name, id);
    hide NameRefusal, MacRefusal, FindByName, Identities;
  }

  lemma NameFreeIff(db: Db, id: Id, newName: Option<string>)
    requires Identities(db) && id in db.devices
    ensures NameRefusal(db, id, newName).None? <==>
            (newName.Some? ==> newName.value != "" && forall o :: o in db.devices && o != id ==> db.devices[o].name != newName.value)
  {
    if newName.Some? {
      forall o ensures FindByName(db, newName.value) == Some(o) <==> o in db.devices && db.devices[o].name == newName.value {
        NamedIff(db, newName.value, o);
      }
      hide FindByName;
    }
  }

  lemma MacFreeIff(db: Db, id: Id, mac: Option<Option<Mac>>)
    requires Identities(db) && id in db.devices
    ensures MacRefusal(db, id, mac).None? <==>
            (mac.Some? ==> mac.value.Some? && forall o: Id :: Resolves(db, mac.value.value, o) ==> o == id)
  {
    if mac.Some? && mac.value.Some? {
      forall o: Id ensures Find(db, mac.value.value) == Some(o) <==> Resolves(db, mac.value.value, o) {
        FindIffResolves(db, mac.value.value, o);
      }
      hide Find;
    }
  }

  /** Deleting needs the name, and the id if one is expected, and drops that row alone with its paths. */
  lemma DeleteEffect(db: Db, name: string, expected: Option<Id>, id: Id)
    requires Identities(db) && id in db.devices && db.devices[id].name == name
    ensures var r := Delete(db, name, expected);
            && (r.Ok? <==> expected.None? || expected == Some(id))
            && (r.Ok? ==>
                  && r.value.devices.Keys == db.devices.Keys - {id} && OthersKept(db, r.value, id)
                  && (forall k :: k in r.value.paths <==> k in db.paths && k.device != id)
                  && (forall k :: k in r.value.paths ==> r.value.paths[k] == db.paths[k])
                  && r.value.log == db.log)
  {
    NamedIff(db, name, id);
    hide FindByName;
  }

  /** Calls that name nobody raise. */
  lemma UnknownNameIsNotFound(db: Db, name: string, newName: Option<string>, mac: Option<Option<Mac>>, ip: Option<Option<IpText>>,
                              expected: Option<Id>)
    requires Identities(db) && forall id :: id in db.devices ==> db.devices[id].name != name
    ensures Update(db, name, newName, mac, ip) == Err(NotFound) && Delete(db, name, expected) == Err(NotFound)
  {
    if FindByName(db, name).Some? { NamedIff(db, name, FindByName(db, name).value); }
  }

  // ------------------------------------------------------ identity review

  /** A merge drops the candidate's row, leaves every other row as it was, and refuses anything ambiguous. */
  lemma MergeEffect(db: Db, r: Id, c: Id, macs: (Option<Mac>, Option<Mac>), confirmed: bool, reasoned: bool, blockers: bool)
    ensures var m := Merge(db, r, c, macs, confirmed, reasoned, blockers);
            && (m.Ok? <==>
                  && confirmed && reasoned && !blockers && r != c && r in db.devices && c in db.devices
                  && macs == (Some(db.devices[r].mac), Some(db.devices[c].mac))
                  && !(db.devices[r].online && db.devices[c].online)
                  && !db.devices[r].conflict && !db.devices[c].conflict
                  && db.devices[c].mac !in db.aliases)
            && (m.Ok? ==> m.value.devices.Keys == db.devices.Keys - {c} && OthersKept(db, m.value, c)
                          && m.value.log == db.log && m.value.nextId == db.nextId)
  {
    hide MovePaths, RedirectAliases;
  }

  /** A split needs an alias of the retained device, and a name and address that no row has. */
  lemma SplitSucceedsIff(db: Db, r: Id, mac: Option<Mac>, name: string, confirmed: bool)
    requires Identities(db)
    ensures Split(db, r, mac, name, confirmed).Ok? <==>
            && confirmed && name != "" && mac.Some? && r in db.devices
            && mac.value in db.aliases && db.aliases[mac.value] == r
            && (forall id :: id in db.devices ==> db.devices[id].name != name && db.devices[id].mac != mac.value)
  {
    hide SplitPaths;
    if FindByName(db, name).Some? { NamedIff(db, name, FindByName(db, name).value); }
    forall id ensures FindByName(db, name) == Some(id) <==> id in db.devices && db.devices[id].name == name {
      NamedIff(db, name, id);
    }
    if mac.Some? { MacHeldIff(db, mac.value); }
    hide FindByName, Holder, Identities;
  }

  /** A split makes a new offline device of the alias and flags the retained one for review. */
  lemma SplitEffect(db: Db, r: Id, mac: Option<Mac>, name: string, confirmed: bool)
    requires Identities(db) && Split(db, r, mac, name, confirmed).Ok?
    ensures mac.Some? && r in db.devices
    ensures var after := Split(db, r, mac, name, confirmed).value;
            && db.nextId !in db.devices && after.devices.Keys == db.devices.Keys + {db.nextId}
            && (forall o :: o in db.devices && o != r ==> after.devices[o] == db.devices[o])
            && SameButFlag(db.devices[r], after.devices[r]) && after.devices[r].conflict
            && (var e := after.devices[db.nextId];
                e.name == name && e.mac == mac.value && e.ip.None? && !e.online && !e.conflict && e.lastSeen.None?)
            && after.log == db.log
  {
    hide SplitPaths, FindByName, Holder;
  }

  /**
    A review needs a reason, the present address and hardware address of the device, and nobody else online
    with that address; it clears that one flag.
  */
  lemma ResolveEffect(db: Db, id: Id, ip: Option<IpText>, mac: Option<Mac>, reasoned: bool)
    ensures var r := Resolve(db, id, ip, mac, reasoned);
            && (r.Ok? <==> reasoned && id in db.devices && db.devices[id].ip == ip && Some(db.devices[id].mac) == mac
                           && forall o :: o in db.devices && o != id && db.devices[o].online && ip.Some? ==> db.devices[o].ip != ip)
            && (r.Ok? ==>
                  && r.value == db.(devices := r.value.devices) && r.value.devices.Keys == db.devices.Keys
                  && OthersKept(db, r.value, id)
                  && SameButFlag(db.devices[id], r.value.devices[id]) && !r.value.devices[id].conflict)
  {
  }

  lemma MacHeldIff(db: Db, mac: Mac)
    requires Identities(db)
    ensures Holder(db.devices, db.nextId, ByMac, mac).Some? <==> exists id :: id in db.devices && db.devices[id].mac == mac
  {
  }
}
