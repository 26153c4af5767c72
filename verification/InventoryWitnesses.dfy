/** Runs from the empty inventory in which a leave, a merge, a sync or an edit goes wrong. */
module InventoryWitnesses {
  import opened Prelude
  import opened Addresses
  import opened InventoryModel
  import opened InventoryIdentity
  import opened InventoryLeaves
  import opened InventoryMerges
  import opened InventoryConflicts
  import InventoryPresence

  /** What a run from the empty inventory has led to. */
  ghost predicate At(ops: seq<Op>, devices: map<Id, Device>, aliases: map<Mac, Id>, nextId: Id, s: set<Sighting>) {
    var db := Run(EMPTY, ops);
    && Valid(db) && db.devices == devices && db.aliases == aliases && db.nextId == nextId
    && Sightings(EMPTY, ops) == s
  }

  lemma NothingYet()
    ensures At([], map[], map[], 0, {})
  {
  }

  lemma OneMore(ops: seq<Op>, op: Op)
    requires Valid(Run(EMPTY, ops))
    ensures var db := Run(EMPTY, ops);
            && Run(EMPTY, ops + [op]) == Apply(db, op) && Valid(Apply(db, op))
            && Sightings(EMPTY, ops + [op])
               == (if MergesNow(db, op) then Redirected(Sightings(EMPTY, ops), op.retained, op.candidate)
                   else Sightings(EMPTY, ops)) + NewSightings(Apply(db, op), op)
  {
    hide Valid, Apply, MergesNow, NewSightings, Redirected;
    ApplyKeepsValid(Run(EMPTY, ops), op);
    var more := ops + [op];
    assert more != [] && more[..|more| - 1] == ops && more[|more| - 1] == op;
    assert Run(EMPTY, more) == Apply(Run(EMPTY, ops), op);
  }

  lemma AddAt(ops: seq<Op>, devices: map<Id, Device>, aliases: map<Mac, Id>, nextId: Id, s: set<Sighting>,
              name: string, mac: Mac, ip: Option<IpText>)
    requires At(ops, devices, aliases, nextId, s) && name != "" && mac !in aliases
    requires forall id :: id in devices ==> devices[id].name != name && devices[id].mac != mac
    ensures At(ops + [AddDevice(name, Some(mac), ip)],
               devices[nextId := Device(name, mac, ip, false, false, None)], aliases, nextId + 1, s)
  {
    OneMore(ops, AddDevice(name, Some(mac), ip));
    hide Valid, Run, Sightings;
  }

  function Marked(d: Device, online: bool, now: int): Device {
    if online then d.(online := true, lastSeen := Some(now)) else d.(online := false)
  }

  predicate NobodyShares(devices: map<Id, Device>) {
    forall a, b :: a in devices && b in devices && a != b ==> !Sharing(devices[a], devices[b])
  }

  lemma PresenceAt(ops: seq<Op>, devices: map<Id, Device>, aliases: map<Mac, Id>, nextId: Id, s: set<Sighting>,
                   id: Id, online: bool, now: int)
    requires At(ops, devices, aliases, nextId, s) && id in devices
    requires NobodyShares(devices[id := Marked(devices[id], online, now)])
    ensures At(ops + [UpdatePresence(Some(devices[id].mac), online, None, now)],
               devices[id := Marked(devices[id], online, now)], aliases, nextId, s + if online then {(id, now)} else {})
  {
    var db, op := Run(EMPTY, ops), UpdatePresence(Some(devices[id].mac), online, None, now);
    OneMore(ops, op);
    PresenceRow(db, id, online, now);
    hide Valid, Run, Sightings, SetPresence, NewSightings;
  }

  lemma PresenceRow(db: Db, id: Id, online: bool, now: int)
    requires Valid(db) && id in db.devices && NobodyShares(db.devices[id := Marked(db.devices[id], online, now)])
    ensures var op := UpdatePresence(Some(db.devices[id].mac), online, None, now);
            && Apply(db, op) == Mark(db, id, Marked(db.devices[id], online, now))
            && NewSightings(Apply(db, op), op) == if online then {(id, now)} else {}
  {
    var mac := db.devices[id].mac;
    OwnMacFinds(db, id);
    ValidIsIdentities(db);
    SetPresenceKeeps(db, Some(mac), online, None, now);
    SameIdentitiesKeepValid(db, SetPresence(db, Some(mac), online, None, now));
    hide Find, Valid, Identities, SameIdentities;
    if online { NobodyClashes(Mark(db, id, Visible(db.devices[id], None, now))); }
  }

  lemma NobodyClashes(db: Db)
    requires NobodyShares(db.devices)
    ensures FlagConflicts(db, []) == db
  {
    hide Find;
    assert FlagConflicts(db, []).devices == db.devices;
  }

  function Merging(r: Id, c: Id, a: Mac, b: Mac): Op {
    MergeDevices(r, c, (Some(a), Some(b)), true, true, false)
  }

  lemma MergeAt(ops: seq<Op>, devices: map<Id, Device>, aliases: map<Mac, Id>, nextId: Id, s: set<Sighting>, r: Id, c: Id)
    requires At(ops, devices, aliases, nextId, s) && r != c && r in devices && c in devices
    requires !(devices[r].online && devices[c].online) && devices[c].mac !in aliases
    requires !devices[r].conflict && !devices[c].conflict
    ensures var op := Merging(r, c, devices[r].mac, devices[c].mac);
            && MergesNow(Run(EMPTY, ops), op)
            && At(ops + [op], devices - {c}, RedirectAliases(aliases, r, c)[devices[c].mac := r], nextId, Redirected(s, r, c))
  {
    var op := Merging(r, c, devices[r].mac, devices[c].mac);
    OneMore(ops, op);
    hide Valid, Run, Sightings, MovePaths, RedirectAliases, Redirected;
    assert Redirected(s, r, c) + {} == Redirected(s, r, c);
  }

  /** A leave inside the grace window, written by a scan that comes after this run. */
  ghost predicate LeavesEarlyAfter(ops: seq<Op>, id: Id, t: int, scan: Op) {
    && scan.ReconcileScan? && Ordered(0, ops + [scan])
    && Leaves(Run(EMPTY, ops), scan, id)
    && (id, t) in Sightings(EMPTY, ops + [scan]) && Limit(scan.now, scan.grace) < t
  }

  const SEEN_A: set<Sighting> := {(0, 0)}
  const SEEN_BOTH: set<Sighting> := {(0, 0), (1, 10)}

  const FINAL_SCAN := ReconcileScan([], true, h => 0, 5, true, 12)

  lemma ScanAt(ops: seq<Op>, devices: map<Id, Device>, aliases: map<Mac, Id>, nextId: Id, s: set<Sighting>, id: Id, t: int)
    requires At(ops, devices, aliases, nextId, s) && id in devices && (id, t) in s && 7 < t
    requires devices[id].online && devices[id].lastSeen.Some? && devices[id].lastSeen.value <= 7
    requires Ordered(0, ops + [FINAL_SCAN])
    ensures LeavesEarlyAfter(ops, id, t, FINAL_SCAN)
  {
    OneMore(ops, FINAL_SCAN);
    hide Valid, Run, Sightings, Leaves;
    EmptyScanLeaves(Run(EMPTY, ops), id, h => 0, 5, 12);
  }

  /** b is seen after a, set offline by an explicit call, and merged into a, which is online. */
  function OfflineThenMerged(): seq<Op> {
    [AddDevice("a", Some("A"), None), AddDevice("b", Some("B"), None),
     UpdatePresence(Some("A"), true, None, 0), UpdatePresence(Some("B"), true, None, 10),
     UpdatePresence(Some("B"), false, None, 11), Merging(0, 1, "A", "B")]
  }

  lemma OfflineThenMergedLeavesEarly()
    ensures LeavesEarlyAfter(OfflineThenMerged(), 0, 10, FINAL_SCAN)
  {
    var ops := OfflineThenMerged();
    var d0, d1 := Device("a", "A", None, false, false, None), Device("b", "B", None, false, false, None);
    var on0, on1 := Marked(d0, true, 0), Marked(d1, true, 10);
    var off1 := Marked(on1, false, 11);
    hide At, LeavesEarlyAfter;
    NothingYet();
    AddAt(ops[..0], map[], map[], 0, {}, "a", "A", None);
    assert ops[..0] + [ops[0]] == ops[..1];
    AddAt(ops[..1], map[0 := d0], map[], 1, {}, "b", "B", None);
    assert ops[..1] + [ops[1]] == ops[..2] && map[0 := d0][1 := d1] == map[0 := d0, 1 := d1];
    PresenceAt(ops[..2], map[0 := d0, 1 := d1], map[], 2, {}, 0, true, 0);
    assert ops[..2] + [ops[2]] == ops[..3] && map[0 := d0, 1 := d1][0 := on0] == map[0 := on0, 1 := d1];
    assert {} + {(0, 0)} == SEEN_A;
    PresenceAt(ops[..3], map[0 := on0, 1 := d1], map[], 2, SEEN_A, 1, true, 10);
    assert ops[..3] + [ops[3]] == ops[..4] && map[0 := on0, 1 := d1][1 := on1] == map[0 := on0, 1 := on1];
    assert SEEN_A + {(1, 10)} == SEEN_BOTH;
    PresenceAt(ops[..4], map[0 := on0, 1 := on1], map[], 2, SEEN_BOTH, 1, false, 11);
    assert ops[..4] + [ops[4]] == ops[..5] && map[0 := on0, 1 := on1][1 := off1] == map[0 := on0, 1 := off1];
    assert SEEN_BOTH + {} == SEEN_BOTH;
    MergeAt(ops[..5], map[0 := on0, 1 := off1], map[], 2, SEEN_BOTH, 0, 1);
    assert ops[..5] + [ops[5]] == ops;
    OfflineThenMergedIsOrdered();
    assert (1, 10) in SEEN_BOTH;
    ScanAt(ops, map[0 := on0, 1 := off1] - {1}, RedirectAliases(map[], 0, 1)["B" := 0], 2,
           Redirected(SEEN_BOTH, 0, 1), 0, 10);
  }

  /**
    No explicit offline call: b is seen after a and dropped, online, into d, which is offline; then d is
    merged into a.
  */
  function MergedTwice(): seq<Op> {
    OnlinePair() + [Merging(2, 1, "D", "B"), Merging(0, 2, "A", "D")]
  }

  function OnlinePair(): seq<Op> {
    [AddDevice("a", Some("A"), None), AddDevice("b", Some("B"), None), AddDevice("d", Some("D"), None),
     UpdatePresence(Some("A"), true, None, 0), UpdatePresence(Some("B"), true, None, 10)]
  }

  lemma OnlinePairAt()
    ensures At(OnlinePair(), map[0 := Device("a", "A", None, true, false, Some(0)),
                                 1 := Device("b", "B", None, true, false, Some(10)),
                                 2 := Device("d", "D", None, false, false, None)], map[], 3, SEEN_BOTH)
  {
    var ops := OnlinePair();
    var d0, d1, d2 := Device("a", "A", None, false, false, None), Device("b", "B", None, false, false, None),
                      Device("d", "D", None, false, false, None);
    var on0, on1 := Marked(d0, true, 0), Marked(d1, true, 10);
    hide At;
    NothingYet();
    AddAt(ops[..0], map[], map[], 0, {}, "a", "A", None);
    assert ops[..0] + [ops[0]] == ops[..1];
    AddAt(ops[..1], map[0 := d0], map[], 1, {}, "b", "B", None);
    assert ops[..1] + [ops[1]] == ops[..2] && map[0 := d0][1 := d1] == map[0 := d0, 1 := d1];
    AddAt(ops[..2], map[0 := d0, 1 := d1], map[], 2, {}, "d", "D", None);
    assert ops[..2] + [ops[2]] == ops[..3] && map[0 := d0, 1 := d1][2 := d2] == map[0 := d0, 1 := d1, 2 := d2];
    PresenceAt(ops[..3], map[0 := d0, 1 := d1, 2 := d2], map[], 3, {}, 0, true, 0);
    assert ops[..3] + [ops[3]] == ops[..4] && map[0 := d0, 1 := d1, 2 := d2][0 := on0] == map[0 := on0, 1 := d1, 2 := d2];
    assert {} + {(0, 0)} == SEEN_A;
    PresenceAt(ops[..4], map[0 := on0, 1 := d1, 2 := d2], map[], 3, SEEN_A, 1, true, 10);
    assert ops[..4] + [ops[4]] == ops && map[0 := on0, 1 := d1, 2 := d2][1 := on1] == map[0 := on0, 1 := on1, 2 := d2];
    assert SEEN_A + {(1, 10)} == SEEN_BOTH;
  }

  lemma MergedTwiceLeavesEarly()
    ensures LeavesEarlyAfter(MergedTwice(), 0, 10, FINAL_SCAN)
  {
    var pair := OnlinePair();
    var on0, on1, d2 := Device("a", "A", None, true, false, Some(0)), Device("b", "B", None, true, false, Some(10)),
                        Device("d", "D", None, false, false, None);
    OnlinePairAt();
    hide At, LeavesEarlyAfter;
    var first := pair + [Merging(2, 1, "D", "B")];
    MergeAt(pair, map[0 := on0, 1 := on1, 2 := d2], map[], 3, SEEN_BOTH, 2, 1);
    var rows, seen := map[0 := on0, 1 := on1, 2 := d2] - {1}, Redirected(SEEN_BOTH, 2, 1);
    assert (1, 10) in SEEN_BOTH && (2, 10) in seen;
    var aliases := RedirectAliases(map[], 2, 1)["B" := 2];
    MergeAt(first, rows, aliases, 3, seen, 0, 2);
    assert first + [Merging(0, 2, "A", "D")] == MergedTwice();
    assert (0, 10) in Redirected(seen, 0, 2);
    MergedTwiceIsOrdered();
    ScanAt(MergedTwice(), rows - {2}, RedirectAliases(aliases, 0, 2)["D" := 0], 3, Redirected(seen, 0, 2), 0, 10);
  }

  /** The first of these merges is committed and writes no leave for the online device it drops. */
  lemma MergeCanLoseLeave()
    ensures var db, op := Run(EMPTY, OnlinePair()), Merging(2, 1, "D", "B");
            MergesNow(db, op) && !InventoryPresence.Explains(db, Apply(db, op))
  {
    OnlinePairAt();
    var db, op := Run(EMPTY, OnlinePair()), Merging(2, 1, "D", "B");
    hide Run, Valid, Sightings;
    MergeAt(OnlinePair(), db.devices, map[], 3, SEEN_BOTH, 2, 1);
    CommittedMerge(db, op);
    InventoryPresence.MergeExplainedIff(db, 2, 1, op.macs, true, true, false);
  }

  const SHARED: Option<IpText> := Some(Canonical(Addr(false, 0xC0A8_0002)))

  const HOLDER_ONLINE: map<Id, Device> := map[0 := Device("a", "A", SHARED, true, false, Some(0)),
                                              1 := Device("b", "B", None, false, false, None)]

  /** a is online with the address; b has no address yet. */
  function HolderOnline(): seq<Op> {
    [AddDevice("a", Some("A"), SHARED), AddDevice("b", Some("B"), None), UpdatePresence(Some("A"), true, None, 0)]
  }

  lemma HolderOnlineAt()
    ensures At(HolderOnline(), HOLDER_ONLINE, map[], 2, SEEN_A)
  {
    var ops := HolderOnline();
    var d0, d1 := Device("a", "A", SHARED, false, false, None), Device("b", "B", None, false, false, None);
    hide At;
    NothingYet();
    AddAt(ops[..0], map[], map[], 0, {}, "a", "A", SHARED);
    assert ops[..0] + [ops[0]] == ops[..1];
    AddAt(ops[..1], map[0 := d0], map[], 1, {}, "b", "B", None);
    assert ops[..1] + [ops[1]] == ops[..2] && map[0 := d0][1 := d1] == map[0 := d0, 1 := d1];
    PresenceAt(ops[..2], map[0 := d0, 1 := d1], map[], 2, {}, 0, true, 0);
    assert ops[..2] + [ops[2]] == ops && map[0 := d0, 1 := d1][0 := Marked(d0, true, 0)] == HOLDER_ONLINE;
    assert {} + {(0, 0)} == SEEN_A;
  }

  /** b comes back with the address, in a sync, which runs no address check. */
  function Returning(): Op {
    SyncHosts([Host(SHARED, "", Some("B"), "b", true, "")], 1)
  }

  lemma ReturningSharesUnflagged(db: Db)
    requires Valid(db) && db.devices == HOLDER_ONLINE
    ensures SharersFlagged(db) && !SyncKeepsSharers(db, Returning().hosts)
  {
    var hosts := Returning().hosts;
    OwnMacFinds(db, 1);
    hide Find, Valid;
    assert hosts[..0] == [] && Refreshes(db, hosts, 0, 1);
    assert SyncedIp(db, hosts, 1) == SHARED && SyncedIp(db, hosts, 0) == SHARED;
  }

  /** The run has both devices online with one address, and no flag set, after the sync. */
  lemma SyncCanMissConflict()
    ensures SharersFlagged(Run(EMPTY, HolderOnline())) && !SharersFlagged(Run(EMPTY, HolderOnline() + [Returning()]))
  {
    HolderOnlineAt();
    var db := Run(EMPTY, HolderOnline());
    OneMore(HolderOnline(), Returning());
    ReturningSharesUnflagged(db);
    ValidIsIdentities(db);
    hide Valid, Sync, Run, Sightings, SharersFlagged, SyncKeepsSharers;
    SyncStaysFlaggedIff(db, Returning().hosts, 1);
  }

  /** Both are online when b is given the address by an edit. */
  function Readdressing(): Op {
    UpdateDevice("b", None, None, Some(SHARED))
  }

  function BothOnline(): seq<Op> {
    HolderOnline() + [UpdatePresence(Some("B"), true, None, 1)]
  }

  lemma EditSharesUnflagged(db: Db)
    requires Valid(db) && db.devices == HOLDER_ONLINE[1 := Marked(HOLDER_ONLINE[1], true, 1)]
    ensures SharersFlagged(db) && Update(db, "b", None, None, Some(SHARED)).Ok? && !EditKeepsSharers(db, "b", Some(SHARED))
  {
    assert 1 in db.devices && Cell(db.devices[1], ByName) == "b";
    assert FindByName(db, "b") == Some(1);
    assert 0 in db.devices && db.devices[0].online && db.devices[0].ip == SHARED && db.devices[1].online;
  }

  lemma EditCanMissConflict()
    ensures SharersFlagged(Run(EMPTY, BothOnline())) && !SharersFlagged(Run(EMPTY, BothOnline() + [Readdressing()]))
  {
    HolderOnlineAt();
    PresenceAt(HolderOnline(), HOLDER_ONLINE, map[], 2, SEEN_A, 1, true, 1);
    var db := Run(EMPTY, BothOnline());
    OneMore(BothOnline(), Readdressing());
    EditSharesUnflagged(db);
    hide Valid, Run, Sightings, SharersFlagged, EditKeepsSharers, Update;
    UpdateStaysFlaggedIff(db, "b", None, None, Some(SHARED));
  }

  lemma MergedTwiceIsOrdered()
    ensures Ordered(0, MergedTwice() + [FINAL_SCAN])
  {
    var ops := MergedTwice() + [FINAL_SCAN];
    OrderedStep(0, ops, 0);
    OrderedStep(0, ops, 1);
    OrderedStep(0, ops, 2);
    OrderedStep(0, ops, 3);
    OrderedStep(0, ops, 4);
    OrderedStep(0, ops, 5);
    OrderedStep(0, ops, 6);
  }

  lemma OfflineThenMergedIsOrdered()
    ensures Ordered(0, OfflineThenMerged() + [FINAL_SCAN])
  {
    var ops := OfflineThenMerged() + [FINAL_SCAN];
    OrderedStep(0, ops, 0);
    OrderedStep(0, ops, 1);
    OrderedStep(0, ops, 2);
    OrderedStep(0, ops, 3);
    OrderedStep(0, ops, 4);
    OrderedStep(0, ops, 5);
  }

  lemma OrderedStep(start: int, ops: seq<Op>, k: nat)
    requires k < |ops|
    ensures Clock(start, ops[..k + 1]) == if Timed(ops[k]) then ops[k].now else Clock(start, ops[..k])
  {
    assert ops[..k + 1][..k] == ops[..k];
  }
}
