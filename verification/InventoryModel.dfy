/**
  The stored inventory and what one committed session does to it (manager/device_manager.py,
  manager/identity_manager.py). A call that raises leaves the inventory as it was.
*/
module InventoryModel {
  import opened Prelude
  import opened Addresses
  import AutoName

  /** A normalised hardware address; text that does not normalise is None where it can occur. */
  type Mac = string
  type Id = nat

  datatype Device = Device(name: string, mac: Mac, ip: Option<IpText>, online: bool, conflict: bool,
                           lastSeen: Option<int>)

  /** Address evidence is unique per device, address and interface. */
  datatype PathKey = PathKey(device: Id, ip: IpText, iface: string)
  datatype Path = Path(observedMac: Mac, first: int, last: int)

  /** The presence part of the audit log. */
  datatype Event = Discovered(mac: Mac) | Joined(mac: Mac) | Left(mac: Mac)

  datatype Db = Db(devices: map<Id, Device>, aliases: map<Mac, Id>, paths: map<PathKey, Path>,
                   log: seq<Event>, nextId: Id)

  datatype Error = NotFound | Duplicate | Invalid | Storage

  /** One observation. Empty address text is None; macText is the text `mac` was normalised from. */
  datatype Host = Host(ip: Option<IpText>, iface: string, mac: Option<Mac>, macText: string,
                       confirmed: bool, title: string)

  /** The observations of one scan that concern one hardware address of the inventory. */
  datatype Group = Group(key: Mac, hosts: seq<Host>)

  type Claim = (Option<IpText>, Mac)

  // ------------------------------------------------------------ lookups

  datatype Column = ByName | ByMac

  function Cell(d: Device, col: Column): string {
    if col == ByName then d.name else d.mac
  }

  /** The first of the ids below n whose row holds the text. */
  function Holder(devices: map<Id, Device>, n: nat, col: Column, text: string): (r: Option<Id>)
    ensures r.Some? ==> r.value < n && r.value in devices && Cell(devices[r.value], col) == text
    ensures r.None? ==> forall id :: id in devices && id < n ==> Cell(devices[id], col) != text
  {
    if n == 0 then None
    else
      var below := Holder(devices, n - 1, col, text);
      if below.Some? then below
      else if n - 1 in devices && Cell(devices[n - 1], col) == text then Some(n - 1)
      else None
  }

  function FindByName(db: Db, name: string): Option<Id> {
    Holder(db.devices, db.nextId, ByName, name)
  }

  /** A row's own address first, then an alias. */
  function Find(db: Db, mac: Mac): Option<Id> {
    var own := Holder(db.devices, db.nextId, ByMac, mac);
    if own.Some? then own
    else if mac in db.aliases && db.aliases[mac] in db.devices then Some(db.aliases[mac])
    else None
  }

  // ------------------------------------------------------- single writes

  function Insert(db: Db, d: Device): Db {
    db.(devices := db.devices[db.nextId := d], nextId := db.nextId + 1)
  }

  /** Overwrites one row and logs the change of its online flag, if it changed. */
  function Mark(db: Db, id: Id, d: Device): Db
    requires id in db.devices
  {
    var was := db.devices[id].online;
    db.(devices := db.devices[id := d],
        log := db.log + (if !was && d.online then [Joined(d.mac)] else if was && !d.online then [Left(d.mac)] else []))
  }

  function Visible(d: Device, ip: Option<IpText>, now: int): Device {
    d.(ip := if ip.Some? then ip else d.ip, online := true, lastSeen := Some(now))
  }

  function RecordPath(db: Db, id: Id, h: Host, now: int): Db {
    if h.ip.None? || !h.confirmed || h.mac.None? then db
    else
      var key := PathKey(id, h.ip.value, h.iface);
      db.(paths := db.paths[key := if key in db.paths then Path(h.mac.value, db.paths[key].first, now)
                                   else Path(h.mac.value, now, now)])
  }

  // --------------------------------------------------- address conflicts

  ghost predicate Claims(db: Db, extra: seq<Claim>, ip: Option<IpText>, id: Id) {
    || (id in db.devices && db.devices[id].online && ip.Some? && db.devices[id].ip == ip)
    || exists i :: 0 <= i < |extra| && extra[i].0 == ip && Find(db, extra[i].1) == Some(id)
  }

  /** The device shares some claimed address with another one. */
  ghost predicate Clashes(db: Db, extra: seq<Claim>, id: Id) {
    exists ip, other :: other != id && Claims(db, extra, ip, id) && Claims(db, extra, ip, other)
  }

  ghost function FlagConflicts(db: Db, extra: seq<Claim>): Db {
    db.(devices := map id | id in db.devices ::
          if Clashes(db, extra, id) then db.devices[id].(conflict := true) else db.devices[id])
  }

  // ---------------------------------------------------- presence updates

  ghost function SetPresence(db: Db, mac: Option<Mac>, online: bool, ip: Option<IpText>, now: int): Db {
    if mac.None? || Find(db, mac.value).None? then db
    else
      var id := Find(db, mac.value).value;
      if online then FlagConflicts(Mark(db, id, Visible(db.devices[id], ip, now)), [])
      else Mark(db, id, db.devices[id].(online := false))
  }

  predicate Usable(h: Host) {
    h.mac.Some? && h.confirmed
  }

  /** Refreshes registered devices only; a hardware address counts once per call. */
  function SyncOne(db: Db, h: Host, seen: set<Mac>, now: int): Db {
    if !Usable(h) || h.mac.value in seen || Find(db, h.mac.value).None? then db
    else
      var id := Find(db, h.mac.value).value;
      RecordPath(Mark(db, id, Visible(db.devices[id], h.ip, now)), id, h, now)
  }

  function SeenMacs(hosts: seq<Host>): set<Mac> {
    set i | 0 <= i < |hosts| && Usable(hosts[i]) :: hosts[i].mac.value
  }

  function Sync(db: Db, hosts: seq<Host>, now: int): Db {
    if hosts == [] then db
    else
      var init := hosts[..|hosts| - 1];
      SyncOne(Sync(db, init, now), hosts[|hosts| - 1], SeenMacs(init), now)
  }

  // --------------------------------------------------- reconcile a scan

  /** The address of the device the text belongs to, or the text itself. */
  function KeyFor(db: Db, mac: Mac): Mac {
    var id := Find(db, mac);
    if id.Some? then db.devices[id.value].mac else mac
  }

  /** `groups.setdefault(key, []).append(host)`. */
  function AddTo(groups: seq<Group>, key: Mac, h: Host): seq<Group> {
    if groups == [] then [Group(key, [h])]
    else if groups[0].key == key then [Group(key, groups[0].hosts + [h])] + groups[1..]
    else [groups[0]] + AddTo(groups[1..], key, h)
  }

  function GroupHosts(db: Db, hosts: seq<Host>): seq<Group> {
    if hosts == [] then []
    else
      var h := hosts[|hosts| - 1];
      var groups := GroupHosts(db, hosts[..|hosts| - 1]);
      if Usable(h) then AddTo(groups, KeyFor(db, h.mac.value), h) else groups
  }

  /** IPv4 first, then routed IPv6, then link-local, then text that is no address. */
  function AddressClass(ip: Option<IpText>): nat {
    if ip.None? || ip.value.Malformed? then 3
    else if !ip.value.addr.v6 then 0
    else if LinkLocal6(ip.value.addr) then 2
    else 1
  }

  /** `order` stands for the comparison of address and interface text. */
  predicate Better(a: Host, b: Host, current: Option<IpText>, order: Host -> int) {
    var p, q := AddressClass(a.ip), AddressClass(b.ip);
    var kept, other := a.ip.Some? && a.ip == current, b.ip.Some? && b.ip == current;
    p < q || (p == q && ((kept && !other) || (kept == other && order(a) < order(b))))
  }

  /** `min` by key: the first of the best. */
  function Pick(hosts: seq<Host>, current: Option<IpText>, order: Host -> int): Host
    requires hosts != []
  {
    if |hosts| == 1 then hosts[0]
    else
      var best := Pick(hosts[..|hosts| - 1], current, order);
      var last := hosts[|hosts| - 1];
      if Better(last, best, current, order) then last else best
  }

  lemma BetterIsWeakOrder(a: Host, b: Host, c: Host, current: Option<IpText>, order: Host -> int)
    ensures Better(a, b, current, order) ==> !Better(b, a, current, order)
    ensures Better(a, b, current, order) ==> Better(a, c, current, order) || Better(c, b, current, order)
  {
  }

  /** At i stands the first of the best. */
  ghost predicate FirstBest(hosts: seq<Host>, i: nat, current: Option<IpText>, order: Host -> int) {
    && i < |hosts|
    && (forall j :: 0 <= j < |hosts| ==> !Better(hosts[j], hosts[i], current, order))
    && (forall j :: 0 <= j < i ==> Better(hosts[i], hosts[j], current, order))
  }

  lemma FirstBestExtends(init: seq<Host>, last: Host, i: nat, current: Option<IpText>, order: Host -> int)
    requires FirstBest(init, i, current, order)
    ensures FirstBest(init + [last], if Better(last, init[i], current, order) then |init| else i, current, order)
  {
    hide Better;
    BetterIsWeakOrder(last, last, last, current, order);
    forall j | 0 <= j < |init|
      ensures Better(last, init[i], current, order) ==> Better(last, init[j], current, order) && !Better(init[j], last, current, order)
    {
      BetterIsWeakOrder(last, init[i], init[j], current, order);
      BetterIsWeakOrder(last, init[j], last, current, order);
    }
  }

  lemma {:induction false} PickIsFirstBest(hosts: seq<Host>, current: Option<IpText>, order: Host -> int)
    requires hosts != []
    ensures exists i: nat :: FirstBest(hosts, i, current, order) && Pick(hosts, current, order) == hosts[i]
  {
    hide Better;
    var init, last := hosts[..|hosts| - 1], hosts[|hosts| - 1];
    if init == [] {
      BetterIsWeakOrder(last, last, last, current, order);
      assert FirstBest(hosts, 0, current, order);
    } else {
      PickIsFirstBest(init, current, order);
      hide FirstBest;
      var i: nat :| FirstBest(init, i, current, order) && Pick(init, current, order) == init[i];
      FirstBestExtends(init, last, i, current, order);
      assert hosts == init + [last];
      var at := if Better(last, init[i], current, order) then |init| else i;
      assert FirstBest(hosts, at, current, order) && Pick(hosts, current, order) == hosts[at];
    }
  }

  function NamesOf(db: Db): set<string> {
    set id | id in db.devices :: db.devices[id].name
  }

  function RecordPaths(db: Db, id: Id, hosts: seq<Host>, now: int): Db {
    if hosts == [] then db
    else RecordPath(RecordPaths(db, id, hosts[..|hosts| - 1], now), id, hosts[|hosts| - 1], now)
  }

  function Register(db: Db, g: Group, h: Host, now: int): Db {
    var name := AutoName.Chosen(h.title, h.macText, NamesOf(db));
    var grown := Insert(db, Device(name, g.key, h.ip, true, false, Some(now)));
    RecordPaths(grown.(log := grown.log + [Discovered(g.key)]), db.nextId, g.hosts, now)
  }

  function Refresh(db: Db, id: Id, g: Group, h: Host, now: int): Db
    requires id in db.devices
  {
    RecordPaths(Mark(db, id, Visible(db.devices[id], h.ip, now)), id, g.hosts, now)
  }

  function ApplyGroup(db: Db, g: Group, auto: bool, order: Host -> int, now: int): Db {
    var found := Find(db, g.key);
    if g.hosts == [] then db
    else if found.Some? then
      Refresh(db, found.value, g, Pick(g.hosts, db.devices[found.value].ip, order), now)
    else if auto then Register(db, g, Pick(g.hosts, None, order), now)
    else db
  }

  function ApplyGroups(db: Db, groups: seq<Group>, auto: bool, order: Host -> int, now: int): Db {
    if groups == [] then db
    else ApplyGroup(ApplyGroups(db, groups[..|groups| - 1], auto, order, now), groups[|groups| - 1], auto, order, now)
  }

  function Keys(groups: seq<Group>): set<Mac> {
    set i | 0 <= i < |groups| :: groups[i].key
  }

  predicate Overdue(d: Device, seen: set<Mac>, limit: int) {
    d.online && d.mac !in seen && d.lastSeen.Some? && d.lastSeen.value <= limit
  }

  /** Writes a leave for every overdue device among the ids below n. */
  function Expire(db: Db, n: nat, seen: set<Mac>, limit: int): Db {
    if n == 0 then db
    else
      var below := Expire(db, n - 1, seen, limit);
      if n - 1 in below.devices && Overdue(below.devices[n - 1], seen, limit)
      then Mark(below, n - 1, below.devices[n - 1].(online := false))
      else below
  }

  function Limit(now: int, grace: int): int {
    now - if grace > 1 then grace else 1
  }

  function GroupClaims(g: Group): seq<Claim> {
    seq(|g.hosts|, i requires 0 <= i < |g.hosts| => (g.hosts[i].ip, g.key))
  }

  function AllClaims(groups: seq<Group>): seq<Claim> {
    if groups == [] then [] else AllClaims(groups[..|groups| - 1]) + GroupClaims(groups[|groups| - 1])
  }

  /** Everything before the address check: the groups applied, then the missing devices expired. */
  function Observed(db: Db, hosts: seq<Host>, auto: bool, order: Host -> int, grace: int, missing: bool, now: int): Db {
    var groups := GroupHosts(db, hosts);
    var applied := ApplyGroups(db, groups, auto, order, now);
    if missing then Expire(applied, applied.nextId, Keys(groups), Limit(now, grace)) else applied
  }

  ghost function Reconcile(db: Db, hosts: seq<Host>, auto: bool, order: Host -> int, grace: int, missing: bool, now: int): Db {
    FlagConflicts(Observed(db, hosts, auto, order, grace, missing, now), AllClaims(GroupHosts(db, hosts)))
  }

  // ------------------------------------------------------ registration

  function Add(db: Db, name: string, mac: Option<Mac>, ip: Option<IpText>): Result<Db, Error> {
    if mac.None? then Err(Invalid)
    else if FindByName(db, name).Some? || Find(db, mac.value).Some? then Err(Duplicate)
    else if name == "" then Err(Invalid)
    else Ok(Insert(db, Device(name, mac.value, ip, false, false, None)))
  }

  function NameRefusal(db: Db, id: Id, newName: Option<string>): Option<Error> {
    if newName == Some("") then Some(Invalid)
    else if newName.Some? && FindByName(db, newName.value) !in {None, Some(id)} then Some(Duplicate)
    else None
  }

  function MacRefusal(db: Db, id: Id, mac: Option<Option<Mac>>): Option<Error> {
    if mac == Some(None) then Some(Invalid)
    else if mac.Some? && Find(db, mac.value.value) !in {None, Some(id)} then Some(Duplicate)
    else None
  }

  function Renamed(d: Device, newName: Option<string>): Device {
    if newName.Some? then d.(name := newName.value) else d
  }

  function Readdressed(d: Device, mac: Option<Option<Mac>>): Device {
    if mac.Some? && mac.value.Some? then d.(mac := mac.value.value) else d
  }

  /** An edit of name, then hardware address, then address; None leaves a field alone. */
  function Update(db: Db, name: string, newName: Option<string>, mac: Option<Option<Mac>>,
                  ip: Option<Option<IpText>>): Result<Db, Error>
  {
    var found := FindByName(db, name);
    if found.None? then Err(NotFound)
    else if NameRefusal(db, found.value, newName).Some? then Err(NameRefusal(db, found.value, newName).value)
    else if MacRefusal(db, found.value, mac).Some? then Err(MacRefusal(db, found.value, mac).value)
    else
      var d := Readdressed(Renamed(db.devices[found.value], newName), mac);
      Ok(db.(devices := db.devices[found.value := if ip.Some? then d.(ip := ip.value) else d]))
  }

  function Delete(db: Db, name: string, expected: Option<Id>): Result<Db, Error> {
    var found := FindByName(db, name);
    if found.None? then Err(NotFound)
    else if expected.Some? && expected != found then Err(Invalid)
    else Ok(Erase(db, found.value))
  }

  /** Deletes a row with everything that belongs to it. */
  function Erase(db: Db, id: Id): Db {
    db.(devices := db.devices - {id},
        aliases := map m | m in db.aliases && db.aliases[m] != id :: db.aliases[m],
        paths := map k | k in db.paths && k.device != id :: db.paths[k])
  }

  // --------------------------------------------------- identity review

  /** `blockers` says whether profiles, assignments or rules still name the candidate. */
  function MergeRefusal(db: Db, r: Id, c: Id, expected: (Option<Mac>, Option<Mac>), confirmed: bool,
                        reasoned: bool, blockers: bool): Option<Error>
  {
    if !confirmed || r == c || !reasoned then Some(Invalid)
    else if r !in db.devices || c !in db.devices then Some(Invalid)
    else if (Some(db.devices[r].mac), Some(db.devices[c].mac)) != expected then Some(Invalid)
    else if db.devices[r].online && db.devices[c].online then Some(Invalid)
    else if db.devices[r].conflict || db.devices[c].conflict then Some(Invalid)
    else if blockers then Some(Invalid)
    else if db.devices[c].mac in db.aliases then Some(Storage)
    else None
  }

  function Earlier(a: int, b: int): int { if a <= b then a else b }

  function Later(a: int, b: int): int { if a >= b then a else b }

  /** The candidate's key for what is a key of the retained device. */
  function Twin(k: PathKey, c: Id): PathKey { k.(device := c) }

  /** One key after the move: the retained device's own evidence, widened by the candidate's. */
  function MovedPath(paths: map<PathKey, Path>, r: Id, c: Id, k: PathKey): Option<Path> {
    if k.device == c then None
    else if k.device == r && Twin(k, c) in paths then
      var theirs := paths[Twin(k, c)];
      if k in paths
      then Some(Path(paths[k].observedMac, Earlier(paths[k].first, theirs.first), Later(paths[k].last, theirs.last)))
      else Some(theirs)
    else if k in paths then Some(paths[k])
    else None
  }

  function MovePaths(paths: map<PathKey, Path>, r: Id, c: Id): map<PathKey, Path> {
    map k | k in paths.Keys + (set p | p in paths && p.device == c :: Twin(p, r)) && MovedPath(paths, r, c, k).Some? ::
      MovedPath(paths, r, c, k).value
  }

  function RedirectAliases(aliases: map<Mac, Id>, r: Id, c: Id): map<Mac, Id> {
    map m | m in aliases :: if aliases[m] == c then r else aliases[m]
  }

  function Merge(db: Db, r: Id, c: Id, expected: (Option<Mac>, Option<Mac>), confirmed: bool,
                 reasoned: bool, blockers: bool): Result<Db, Error>
  {
    var refusal := MergeRefusal(db, r, c, expected, confirmed, reasoned, blockers);
    if refusal.Some? then Err(refusal.value)
    else Ok(db.(devices := db.devices - {c},
                aliases := RedirectAliases(db.aliases, r, c)[db.devices[c].mac := r],
                paths := MovePaths(db.paths, r, c)))
  }

  function SplitRefusal(db: Db, r: Id, mac: Option<Mac>, name: string, confirmed: bool): Option<Error> {
    if !confirmed || name == "" || mac.None? then Some(Invalid)
    else if mac.value !in db.aliases || db.aliases[mac.value] != r || r !in db.devices then Some(Invalid)
    else if FindByName(db, name).Some? then Some(Invalid)
    else if Holder(db.devices, db.nextId, ByMac, mac.value).Some? then Some(Storage)
    else None
  }

  predicate SplitKeeps(db: Db, r: Id, mac: Mac, k: PathKey) {
    k in db.paths && !(k.device == r && db.paths[k].observedMac == mac)
  }

  predicate SplitMoves(db: Db, r: Id, mac: Mac, k: PathKey) {
    k.device == db.nextId && k.(device := r) in db.paths && db.paths[k.(device := r)].observedMac == mac
  }

  /** Paths observed under the alias go to the new device. */
  function SplitPaths(db: Db, r: Id, mac: Mac): map<PathKey, Path> {
    map k | k in db.paths.Keys + (set p | p in db.paths :: p.(device := db.nextId))
            && (SplitKeeps(db, r, mac, k) || SplitMoves(db, r, mac, k)) ::
      if SplitMoves(db, r, mac, k) then db.paths[k.(device := r)] else db.paths[k]
  }

  function Split(db: Db, r: Id, mac: Option<Mac>, name: string, confirmed: bool): Result<Db, Error> {
    var refusal := SplitRefusal(db, r, mac, name, confirmed);
    if refusal.Some? then Err(refusal.value)
    else
      var grown := Insert(db, Device(name, mac.value, None, false, false, None));
      Ok(grown.(devices := grown.devices[r := db.devices[r].(conflict := true)],
                aliases := db.aliases - {mac.value},
                paths := SplitPaths(db, r, mac.value)))
  }

  function Resolve(db: Db, id: Id, expectedIp: Option<IpText>, expectedMac: Option<Mac>, reasoned: bool): Result<Db, Error> {
    if id !in db.devices || db.devices[id].ip != expectedIp || Some(db.devices[id].mac) != expectedMac || !reasoned
    then Err(Invalid)
    else if db.devices[id].ip.Some?
            && exists o :: o in db.devices && o != id && db.devices[o].ip == db.devices[id].ip && db.devices[o].online
    then Err(Invalid)
    else Ok(db.(devices := db.devices[id := db.devices[id].(conflict := false)]))
  }

  // --------------------------------------------------------------- runs

  datatype Op =
    | AddDevice(name: string, mac: Option<Mac>, ip: Option<IpText>)
    | UpdateDevice(name: string, newName: Option<string>, newMac: Option<Option<Mac>>, newIp: Option<Option<IpText>>)
    | DeleteDevice(name: string, expected: Option<Id>)
    | UpdatePresence(mac: Option<Mac>, online: bool, ip: Option<IpText>, now: int)
    | SyncHosts(hosts: seq<Host>, now: int)
    | ReconcileScan(hosts: seq<Host>, auto: bool, order: Host -> int, grace: int, missing: bool, now: int)
    | MergeDevices(retained: Id, candidate: Id, macs: (Option<Mac>, Option<Mac>), confirmed: bool, reasoned: bool, blockers: bool)
    | SplitAlias(retained: Id, mac: Option<Mac>, name: string, confirmed: bool)
    | ResolveConflict(id: Id, ip: Option<IpText>, mac: Option<Mac>, reasoned: bool)

  /** What a call leaves committed. */
  function Committed(db: Db, r: Result<Db, Error>): Db {
    if r.Ok? then r.value else db
  }

  ghost function Apply(db: Db, op: Op): Db {
    match op
    case AddDevice(name, mac, ip) => Committed(db, Add(db, name, mac, ip))
    case UpdateDevice(name, newName, newMac, newIp) => Committed(db, Update(db, name, newName, newMac, newIp))
    case DeleteDevice(name, expected) => Committed(db, Delete(db, name, expected))
    case UpdatePresence(mac, online, ip, now) => SetPresence(db, mac, online, ip, now)
    case SyncHosts(hosts, now) => Sync(db, hosts, now)
    case ReconcileScan(hosts, auto, order, grace, missing, now) => Reconcile(db, hosts, auto, order, grace, missing, now)
    case MergeDevices(r, c, macs, confirmed, reasoned, blockers) => Committed(db, Merge(db, r, c, macs, confirmed, reasoned, blockers))
    case SplitAlias(r, mac, name, confirmed) => Committed(db, Split(db, r, mac, name, confirmed))
    case ResolveConflict(id, ip, mac, reasoned) => Committed(db, Resolve(db, id, ip, mac, reasoned))
  }

  ghost function Run(db: Db, ops: seq<Op>): Db {
    if ops == [] then db else Apply(Run(db, ops[..|ops| - 1]), ops[|ops| - 1])
  }

  /** Holds before the first call of the run and after each of its calls. */
  ghost predicate AtEveryPoint(db: Db, ops: seq<Op>, p: Db -> bool) {
    forall n :: 0 <= n <= |ops| ==> p(Run(db, ops[..n]))
  }

  /** Holds of every call of the run, in the state it meets. */
  ghost predicate AtEveryCall(db: Db, ops: seq<Op>, q: (Db, Op) -> bool) {
    forall n :: 0 <= n < |ops| ==> q(Run(db, ops[..n]), ops[n])
  }

  lemma PointsExtend(db: Db, ops: seq<Op>, p: Db -> bool)
    requires ops != []
    ensures var init := ops[..|ops| - 1];
            && (AtEveryPoint(db, ops, p) <==> AtEveryPoint(db, init, p) && p(Run(db, ops)))
            && (AtEveryPoint(db, init, p) ==> p(Run(db, init)))
  {
    hide Run;
    var init := ops[..|ops| - 1];
    assert ops[..|ops|] == ops && init[..|init|] == init;
    forall n | 0 <= n <= |init| ensures ops[..n] == init[..n] {
    }
  }

  lemma CallsExtend(db: Db, ops: seq<Op>, q: (Db, Op) -> bool)
    requires ops != []
    ensures var init := ops[..|ops| - 1];
            AtEveryCall(db, ops, q) <==> AtEveryCall(db, init, q) && q(Run(db, init), ops[|ops| - 1])
  {
    hide Run;
    var init := ops[..|ops| - 1];
    forall n | 0 <= n < |init| ensures ops[..n] == init[..n] && ops[n] == init[n] {
    }
  }

  const EMPTY := Db(map[], map[], map[], [], 0)
}
