/** Merging observations of one discovery cycle (network/discovery.py). */
module DiscoveryMerge {
  import opened Prelude
  import opened Ordering
  import Text = ScheduleText

  /**
    One observation. "" stands for an absent interface, and `tags` is the source text split on "+".
  */
  datatype Obs = Obs(ip: string, iface: string, mac: Option<string>, state: Option<string>,
                     vendor: Option<string>, hostname: Option<string>, deviceType: Option<string>,
                     osHint: Option<string>, tags: set<string>, tcp: seq<int>, udp: seq<int>,
                     services: seq<string>, method_: Option<string>, latency: Option<real>)

  // ---------------------------------------------------------- MAC and state

  function Lower(c: char): char {
    if 'A' <= c <= 'Z' then (c as int + 32) as char else c
  }

  function Upper(s: string): string {
    seq(|s|, i requires 0 <= i < |s| => if 'a' <= s[i] <= 'z' then (s[i] as int - 32) as char else s[i])
  }

  function Strip(s: string): string {
    StripEnd(Text.SkipSpaces(s))
  }

  function StripEnd(s: string): string {
    if s != "" && Text.IsSpace(s[|s| - 1]) then StripEnd(s[..|s| - 1]) else s
  }

  predicate IsHex(c: char) {
    '0' <= c <= '9' || 'a' <= c <= 'f'
  }

  /** _valid_mac_or_none */
  function ValidMac(value: Option<string>): Option<string> {
    if value.None? then None
    else
      var t := Strip(value.value);
      var c := seq(|t|, i requires 0 <= i < |t| => if t[i] == '-' then ':' else Lower(t[i]));
      if |c| == 17
         && (forall i :: 0 <= i < 17 ==> if i % 3 == 2 then c[i] == ':' else IsHex(c[i]))
         && c != "00:00:00:00:00:00"
      then Some(c) else None
  }

  predicate Confirmed(state: Option<string>) {
    state.None? || Upper(state.value) == "REACHABLE"
  }

  // ------------------------------------------------------- the merge itself

  predicate Mergeable(a: Obs, b: Obs) {
    a.ip == b.ip && ValidMac(a.mac) == ValidMac(b.mac) && (a.iface == b.iface || a.iface == "" || b.iface == "")
  }

  predicate Given(value: Option<string>) {
    value.Some? && value.value != ""
  }

  /** The host's value wins when there is none yet, or when a confirmed active or deep reply gives one. */
  function Pick(current: Option<string>, value: Option<string>, strong: bool): Option<string> {
    if Given(value) && (!Given(current) || strong) then value else current
  }

  function Ports(a: seq<int>, b: seq<int>): seq<int> {
    Sort((x: int, y: int) => x < y, Dedup(a + b))
  }

  /** A confirmed observation from an active or deep scan. */
  predicate Strong(h: Obs) {
    Confirmed(h.state) && (h.tags == {"active"} || h.tags == {"deep"})
  }

  function Combine(c: Obs, h: Obs): Obs {
    var strong := Strong(h);
    Obs(c.ip,
        if c.iface != "" then c.iface else h.iface,
        Pick(c.mac, h.mac, strong),
        if Confirmed(h.state) && !Confirmed(c.state) then h.state else c.state,
        Pick(c.vendor, h.vendor, strong),
        Pick(c.hostname, h.hostname, strong),
        Pick(c.deviceType, h.deviceType, strong),
        Pick(c.osHint, h.osHint, strong),
        c.tags + h.tags,
        Ports(c.tcp, h.tcp),
        Ports(c.udp, h.udp),
        Dedup(c.services + h.services),
        if Given(h.method_) then h.method_ else c.method_,
        if h.latency.Some? then h.latency else c.latency)
  }

  /** Index of the first entry h merges with; |acc| when there is none. */
  function FirstMatch(acc: seq<Obs>, h: Obs): (i: nat)
    ensures i <= |acc|
    ensures i < |acc| ==> Mergeable(acc[i], h)
    ensures forall j :: 0 <= j < i ==> !Mergeable(acc[j], h)
  {
    if acc == [] then 0
    else if Mergeable(acc[0], h) then 0
    else
      var i := 1 + FirstMatch(acc[1..], h);
      assert forall j :: 1 <= j < i ==> acc[j] == acc[1..][j - 1];
      i
  }

  function Absorb(acc: seq<Obs>, h: Obs): seq<Obs> {
    var i := FirstMatch(acc, h);
    if i < |acc| then acc[i := Combine(acc[i], h)] else acc + [h]
  }

  function Merged(hosts: seq<Obs>): seq<Obs> {
    if hosts == [] then [] else Absorb(Merged(hosts[..|hosts| - 1]), hosts[|hosts| - 1])
  }

  class DiscoveredHost {
    var ip: string
    var iface: string
    var mac: Option<string>
    var state: Option<string>
    var vendor: Option<string>
    var hostname: Option<string>
    var deviceType: Option<string>
    var osHint: Option<string>
    var tags: set<string>
    var tcp: seq<int>
    var udp: seq<int>
    var services: seq<string>
    var method_: Option<string>
    var latency: Option<real>

    constructor (o: Obs)
      ensures Value() == o
    {
      ip, iface, mac, state := o.ip, o.iface, o.mac, o.state;
      vendor, hostname, deviceType, osHint := o.vendor, o.hostname, o.deviceType, o.osHint;
      tags, tcp, udp, services, method_, latency := o.tags, o.tcp, o.udp, o.services, o.method_, o.latency;
    }

    function Value(): Obs
      reads this
    {
      Obs(ip, iface, mac, state, vendor, hostname, deviceType, osHint, tags, tcp, udp, services, method_, latency)
    }

    method TakeIdentity(host: DiscoveredHost)
      requires host != this
      modifies this
      ensures var o, h := old(Value()), host.Value();
        Value() == o.(state := if Confirmed(h.state) && !Confirmed(o.state) then h.state else o.state,
                      iface := if o.iface != "" then o.iface else h.iface,
                      mac := Pick(o.mac, h.mac, Strong(h)))
    {
      hide Pick, Confirmed, Strong;
      if Confirmed(host.state) && !Confirmed(state) {
        state := host.state;
      }
      iface := if iface != "" then iface else host.iface;
      mac := Pick(mac, host.mac, Strong(host.Value()));
    }

    method TakeText(host: DiscoveredHost)
      requires host != this
      modifies this
      ensures var o, h := old(Value()), host.Value();
        Value() == o.(vendor := Pick(o.vendor, h.vendor, Strong(h)),
                      hostname := Pick(o.hostname, h.hostname, Strong(h)),
                      deviceType := Pick(o.deviceType, h.deviceType, Strong(h)),
                      osHint := Pick(o.osHint, h.osHint, Strong(h)))
    {
      hide Pick, Strong;
      var strong := Strong(host.Value());
      vendor := Pick(vendor, host.vendor, strong);
      hostname := Pick(hostname, host.hostname, strong);
      deviceType := Pick(deviceType, host.deviceType, strong);
      osHint := Pick(osHint, host.osHint, strong);
    }

    method TakeEvidence(host: DiscoveredHost)
      requires host != this
      modifies this
      ensures var o, h := old(Value()), host.Value();
        Value() == o.(tcp := Ports(o.tcp, h.tcp), udp := Ports(o.udp, h.udp), services := Dedup(o.services + h.services))
    {
      hide Ports, Dedup;
      tcp := Ports(tcp, host.tcp);
      udp := Ports(udp, host.udp);
      services := Dedup(services + host.services);
    }

    method TakeOrigin(host: DiscoveredHost)
      requires host != this
      modifies this
      ensures var o, h := old(Value()), host.Value();
        Value() == o.(latency := if h.latency.Some? then h.latency else o.latency,
                      method_ := if Given(h.method_) then h.method_ else o.method_,
                      tags := o.tags + h.tags)
    {
      hide Given;
      latency := if host.latency.Some? then host.latency else latency;
      method_ := if Given(host.method_) then host.method_ else method_;
      tags := tags + host.tags;
    }

    /** The assignments of the loop body, in their order. */
    method Take(host: DiscoveredHost)
      requires host != this
      modifies this
      ensures Value() == Combine(old(Value()), host.Value())
    {
      hide Ports, Dedup, Pick, Given, Confirmed, Strong;
      TakeIdentity(host);
      TakeText(host);
      TakeEvidence(host);
      TakeOrigin(host);
    }
  }

  function Values(hosts: seq<DiscoveredHost>): (v: seq<Obs>)
    reads hosts
    ensures |v| == |hosts| && forall i :: 0 <= i < |hosts| ==> v[i] == hosts[i].Value()
  {
    if hosts == [] then [] else Values(hosts[..|hosts| - 1]) + [hosts[|hosts| - 1].Value()]
  }

  ghost predicate Distinct(hosts: seq<DiscoveredHost>) {
    forall i, j :: 0 <= i < j < |hosts| ==> hosts[i] != hosts[j]
  }

  ghost function Members(hosts: seq<DiscoveredHost>): set<DiscoveredHost> {
    set h | h in hosts
  }

  /** One round: the first kept host that merges takes the new one in, or the new one is kept. */
  method Place(kept: seq<DiscoveredHost>, host: DiscoveredHost) returns (result: seq<DiscoveredHost>)
    requires Distinct(kept) && host !in Members(kept)
    modifies Members(kept)
    ensures Values(result) == Absorb(old(Values(kept)), old(host.Value()))
    ensures Distinct(result) && Members(result) <= Members(kept) + {host}
  {
    hide Combine, Mergeable;
    ghost var before := Values(kept);
    var i := 0;
    while i < |kept| && !Mergeable(kept[i].Value(), host.Value())
      invariant i <= |kept|
      invariant forall j :: 0 <= j < i ==> !Mergeable(before[j], host.Value())
    {
      i := i + 1;
    }
    MatchIsFirst(before, host.Value(), i);
    if i == |kept| {
      result := kept + [host];
      assert result[..|kept|] == kept;
    } else {
      result := kept;
      assert result[i] in Members(kept);
      result[i].Take(host);
      assert Values(result) == before[i := Combine(before[i], host.Value())];
    }
  }

  /**
    _merge_discovery overwrites host objects it has already kept. On distinct objects the values it
    leaves in the result are those of the fold over the values it was given.
  */
  method MergeDiscovery(hosts: seq<DiscoveredHost>) returns (result: seq<DiscoveredHost>)
    requires Distinct(hosts)
    modifies Members(hosts)
    ensures Values(result) == Merged(old(Values(hosts)))
    ensures Distinct(result) && Members(result) <= Members(hosts)
  {
    result := [];
    ghost var given := Values(hosts);
    NoMembers(hosts);
    hide Absorb, Merged, Members, Distinct, Values;
    for n := 0 to |hosts|
      invariant Distinct(result) && Members(result) <= Members(hosts[..n])
      invariant forall i :: n <= i < |hosts| ==> hosts[i].Value() == given[i]
      invariant Values(result) == Merged(given[..n])
    {
      MergedStep(given, n);
      PrefixMembers(hosts, n);
      result := Place(result, hosts[n]);
    }
    assert given[..|hosts|] == given && hosts[..|hosts|] == hosts;
  }

  lemma MergedStep(given: seq<Obs>, n: nat)
    requires n < |given|
    ensures Merged(given[..n + 1]) == Absorb(Merged(given[..n]), given[n])
  {
    hide Absorb;
    assert given[..n + 1][..n] == given[..n];
  }

  lemma NoMembers(hosts: seq<DiscoveredHost>)
    ensures hosts[..0] == [] && Members([]) == {} && Distinct([]) && Values([]) == [] && Merged([]) == []
  {
  }

  lemma PrefixMembers(hosts: seq<DiscoveredHost>, n: nat)
    requires Distinct(hosts) && n < |hosts|
    ensures Members(hosts[..n]) <= Members(hosts)
    ensures Members(hosts[..n + 1]) == Members(hosts[..n]) + {hosts[n]}
    ensures forall i :: n <= i < |hosts| ==> hosts[i] !in Members(hosts[..n])
  {
  }

  lemma MatchIsFirst(acc: seq<Obs>, h: Obs, i: nat)
    requires i <= |acc| && (i < |acc| ==> Mergeable(acc[i], h))
    requires forall j :: 0 <= j < i ==> !Mergeable(acc[j], h)
    ensures FirstMatch(acc, h) == i
  {
  }

  // ---------------------------------------------------------- what it keeps

  ghost predicate Apart(entries: seq<Obs>) {
    forall i, j :: 0 <= i < j < |entries| ==> !Mergeable(entries[i], entries[j])
  }

  lemma CombineKeepsKey(c: Obs, h: Obs)
    requires Mergeable(c, h)
    ensures Combine(c, h).ip == c.ip && ValidMac(Combine(c, h).mac) == ValidMac(c.mac) == ValidMac(h.mac)
    ensures Combine(c, h).iface == if c.iface != "" then c.iface else h.iface
  {
  }

  lemma AbsorbKeepsApart(acc: seq<Obs>, h: Obs)
    requires Apart(acc)
    ensures Apart(Absorb(acc, h))
  {
    var i := FirstMatch(acc, h);
    if i < |acc| {
      hide Combine, ValidMac;
      var c := Combine(acc[i], h);
      CombineKeepsKey(acc[i], h);
      forall j | 0 <= j < |acc| && j != i ensures !Mergeable(c, acc[j]) && !Mergeable(acc[j], c) {
        assert !Mergeable(acc[i], acc[j]) && !Mergeable(acc[j], acc[i]);
      }
    }
  }

  /** No two entries of the result could still be merged. */
  lemma {:induction false} ResultIsApart(hosts: seq<Obs>)
    ensures Apart(Merged(hosts))
  {
    if hosts != [] {
      ResultIsApart(hosts[..|hosts| - 1]);
      AbsorbKeepsApart(Merged(hosts[..|hosts| - 1]), hosts[|hosts| - 1]);
    }
  }

  lemma {:induction false} ApartIsFixed(entries: seq<Obs>)
    requires Apart(entries)
    ensures Merged(entries) == entries
  {
    hide Mergeable, Combine;
    if entries != [] {
      var init, last := entries[..|entries| - 1], entries[|entries| - 1];
      ApartIsFixed(init);
      MatchIsFirst(init, last, |init|);
      assert entries == init + [last];
    }
  }

  /** Merging the result again changes nothing. */
  lemma MergeIsIdempotent(hosts: seq<Obs>)
    ensures Merged(Merged(hosts)) == Merged(hosts)
  {
    ResultIsApart(hosts);
    ApartIsFixed(Merged(hosts));
  }

  /** What is known about one address and MAC. */
  datatype Evidence = Evidence(tcp: set<int>, udp: set<int>, services: set<string>, tags: set<string>, confirmed: bool)

  const NOTHING := Evidence({}, {}, {}, {}, false)

  function EvidenceOf(o: Obs): Evidence {
    Evidence((set p | p in o.tcp), (set p | p in o.udp), (set s | s in o.services), o.tags, Confirmed(o.state))
  }

  function Both(a: Evidence, b: Evidence): Evidence {
    Evidence(a.tcp + b.tcp, a.udp + b.udp, a.services + b.services, a.tags + b.tags, a.confirmed || b.confirmed)
  }

  function Share(o: Obs, ip: string, mac: Option<string>): Evidence {
    if o.ip == ip && ValidMac(o.mac) == mac then EvidenceOf(o) else NOTHING
  }

  /** Everything a list of observations says about this address and MAC. */
  function Gathered(s: seq<Obs>, ip: string, mac: Option<string>): Evidence {
    if s == [] then NOTHING
    else Both(Gathered(s[..|s| - 1], ip, mac), Share(s[|s| - 1], ip, mac))
  }

  lemma CombineJoinsEvidence(c: Obs, h: Obs)
    ensures EvidenceOf(Combine(c, h)) == Both(EvidenceOf(c), EvidenceOf(h))
  {
    PortsMembers(c.tcp, h.tcp);
    PortsMembers(c.udp, h.udp);
    ServicesMembers(c.services, h.services);
    hide Ports, Dedup, Pick, Upper, Strong;
    assert Confirmed(Combine(c, h).state) <==> Confirmed(c.state) || Confirmed(h.state);
  }

  lemma PortsMembers(a: seq<int>, b: seq<int>)
    ensures (set p | p in Ports(a, b)) == (set p | p in a) + (set p | p in b)
  {
    DedupBasics(a + b);
    SortKeeps((x: int, y: int) => x < y, Dedup(a + b));
    forall p: int ensures p in Ports(a, b) <==> p in a || p in b {
      assert p in Ports(a, b) <==> p in Dedup(a + b);
    }
  }

  lemma ServicesMembers(a: seq<string>, b: seq<string>)
    ensures (set s | s in Dedup(a + b)) == (set s | s in a) + (set s | s in b)
  {
    DedupBasics(a + b);
  }

  lemma BothIsUnion(a: Evidence, b: Evidence, c: Evidence)
    ensures Both(Both(a, b), c) == Both(Both(a, c), b)
    ensures Both(a, Both(b, c)) == Both(Both(a, b), c)
    ensures Both(a, NOTHING) == a
  {
  }

  lemma {:induction false} GatheredReplaces(s: seq<Obs>, i: nat, h: Obs, ip: string, mac: Option<string>)
    requires i < |s| && Mergeable(s[i], h)
    ensures Gathered(s[i := Combine(s[i], h)], ip, mac) == Both(Gathered(s, ip, mac), Share(h, ip, mac))
  {
    hide Combine, ValidMac, Both, EvidenceOf;
    var n := |s| - 1;
    var c := Combine(s[i], h);
    CombineKeepsKey(s[i], h);
    CombineJoinsEvidence(s[i], h);
    var rest, last := Gathered(s[..n], ip, mac), Share(s[n], ip, mac);
    if i == n {
      assert s[i := c][..n] == s[..n];
      assert Share(c, ip, mac) == Both(last, Share(h, ip, mac)) by { BothIsUnion(last, NOTHING, NOTHING); }
      BothIsUnion(rest, last, Share(h, ip, mac));
    } else {
      assert s[i := c][..n] == s[..n][i := c];
      GatheredReplaces(s[..n], i, h, ip, mac);
      BothIsUnion(rest, Share(h, ip, mac), last);
    }
  }

  /**
    Evidence is conserved: for every address and valid-or-absent MAC, the ports, services and source
    tags, and whether any observation is confirmed, are the same before and after.
  */
  lemma {:induction false} EvidenceIsConserved(hosts: seq<Obs>, ip: string, mac: Option<string>)
    ensures Gathered(Merged(hosts), ip, mac) == Gathered(hosts, ip, mac)
  {
    if hosts != [] {
      var init, h := hosts[..|hosts| - 1], hosts[|hosts| - 1];
      EvidenceIsConserved(init, ip, mac);
      var acc := Merged(init);
      var i := FirstMatch(acc, h);
      if i < |acc| {
        GatheredReplaces(acc, i, h, ip, mac);
      } else {
        assert (acc + [h])[..|acc|] == acc;
      }
    }
  }

  /** Every entry stands for observations of one address and one valid MAC, or none with a valid MAC. */
  predicate Covers(entry: Obs, o: Obs) {
    entry.ip == o.ip && ValidMac(entry.mac) == ValidMac(o.mac) && (o.iface == "" || entry.iface == o.iface)
  }

  lemma {:induction false} EveryObservationIsCovered(hosts: seq<Obs>, o: Obs)
    requires o in hosts
    ensures exists e :: e in Merged(hosts) && Covers(e, o)
  {
    hide ValidMac;
    var n := |hosts| - 1;
    var init, h := hosts[..n], hosts[n];
    assert hosts == init + [h];
    var acc := Merged(init);
    var i := FirstMatch(acc, h);
    if i < |acc| {
      CombineKeepsKey(acc[i], h);
      assert Absorb(acc, h)[i] == Combine(acc[i], h);
    } else {
      assert Absorb(acc, h)[|acc|] == h;
    }
    if o in init {
      EveryObservationIsCovered(init, o);
      var e :| e in acc && Covers(e, o);
      var j :| 0 <= j < |acc| && acc[j] == e;
      assert Covers(Absorb(acc, h)[j], o);
    } else {
      assert Covers(Absorb(acc, h)[i], o);
    }
  }
}
