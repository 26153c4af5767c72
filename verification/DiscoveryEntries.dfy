/** What each entry of a merged discovery says, told from the observations (network/discovery.py). */
module DiscoveryEntries {
  import opened Prelude
  import opened Ordering
  import opened DiscoveryMerge

  predicate SamePath(a: Obs, b: Obs) {
    a.ip == b.ip && ValidMac(a.mac) == ValidMac(b.mac)
  }

  /** The observation may refresh presence: its state is absent, or "REACHABLE" in any case. */
  predicate IsConfirmed(state: Option<string>) {
    state.None? || (|state.value| == 9 && forall i :: 0 <= i < 9 ==> state.value[i] in [REACHABLE[i], SmallOf(REACHABLE[i])])
  }

  const REACHABLE := "REACHABLE"

  function SmallOf(c: char): char
    requires 'A' <= c <= 'Z'
  {
    (c as int + 32) as char
  }

  /** There is a value and it is not empty. */
  predicate Says(value: Option<string>) {
    value.Some? && |value.value| > 0
  }

  /** The value given is present and not empty, and comes from an active or deep reply. */
  predicate StrongGiven(o: Obs, value: Option<string>) {
    Says(value) && IsConfirmed(o.state) && (o.tags == {"active"} || o.tags == {"deep"})
  }

  lemma ConfirmedIff(state: Option<string>)
    ensures Confirmed(state) <==> IsConfirmed(state)
  {
    if state.Some? {
      assert |Upper(state.value)| == |state.value|;
      if Confirmed(state) {
        forall i | 0 <= i < 9 ensures state.value[i] in [REACHABLE[i], SmallOf(REACHABLE[i])] {
          assert Upper(state.value)[i] == REACHABLE[i];
        }
      }
      if IsConfirmed(state) {
        assert Upper(state.value) == REACHABLE;
      }
    }
  }

  // ------------------------------------------------ the text of an entry

  /** The last strong value, if there is one; else the first value given; else what the first one has. */
  ghost predicate Held(part: seq<Obs>, field: Obs -> Option<string>, value: Option<string>)
    requires part != []
  {
    && (Says(value) <==> exists k :: 0 <= k < |part| && Says(field(part[k])))
    && (forall k :: (0 <= k < |part| && StrongGiven(part[k], field(part[k]))
                     && forall j :: k < j < |part| ==> !StrongGiven(part[j], field(part[j]))) ==> value == field(part[k]))
    && ((forall j :: 0 <= j < |part| ==> !StrongGiven(part[j], field(part[j]))) ==>
          forall k :: 0 <= k < |part| && Says(field(part[k])) && (forall j :: 0 <= j < k ==> !Says(field(part[j])))
                      ==> value == field(part[k]))
    && ((forall j :: 0 <= j < |part| ==> !Says(field(part[j]))) ==> value == field(part[0]))
  }

  lemma HeldStarts(o: Obs, field: Obs -> Option<string>)
    ensures Held([o], field, field(o))
  {
    assert [o][0] == o;
  }

  /** A further observation with a strong value. */
  lemma StrongTakesOver(part: seq<Obs>, h: Obs, field: Obs -> Option<string>)
    requires StrongGiven(h, field(h))
    ensures Held(part + [h], field, field(h))
  {
    var more := part + [h];
    hide IsConfirmed, Says;
    assert more[|part|] == h && Says(field(more[|part|]));
  }

  /** A further observation without one. */
  lemma WeakFillsIn(part: seq<Obs>, h: Obs, field: Obs -> Option<string>, value: Option<string>)
    requires part != [] && Held(part, field, value) && !StrongGiven(h, field(h))
    ensures Held(part + [h], field, if Says(field(h)) && !Says(value) then field(h) else value)
  {
    var more, n := part + [h], |part|;
    assert more[n] == h && forall k :: 0 <= k < n ==> more[k] == part[k];
    hide StrongGiven, Says;
    assert (exists k :: 0 <= k < |more| && Says(field(more[k]))) <==> Says(value) || Says(field(h)) by {
      if k :| 0 <= k < n && Says(field(part[k])) { assert Says(field(more[k])); }
      if Says(field(h)) { assert Says(field(more[n])); }
    }
    forall k | 0 <= k < |more| && StrongGiven(more[k], field(more[k])) && forall j :: k < j < |more| ==> !StrongGiven(more[j], field(more[j]))
      ensures value == field(more[k]) && Says(value)
    {
      forall j | k < j < n ensures !StrongGiven(part[j], field(part[j])) { assert more[j] == part[j]; }
      StrongIsGiven(more[k], field(more[k]));
    }
    if forall j :: 0 <= j < |more| ==> !StrongGiven(more[j], field(more[j])) {
      forall j | 0 <= j < n ensures !StrongGiven(part[j], field(part[j])) { assert more[j] == part[j]; }
    }
    if forall j :: 0 <= j < |more| ==> !Says(field(more[j])) {
      forall j | 0 <= j < n ensures !Says(field(part[j])) { assert more[j] == part[j]; }
      assert !Says(field(more[n]));
    }
    forall k | 0 <= k < |more| && Says(field(more[k])) && forall j :: 0 <= j < k ==> !Says(field(more[j]))
      ensures k < n || !Says(value)
    {
      if k == n {
        forall j | 0 <= j < n ensures !Says(field(part[j])) { assert more[j] == part[j]; }
      }
    }
  }

  lemma StrongIsGiven(o: Obs, value: Option<string>)
    ensures StrongGiven(o, value) ==> Says(value)
  {
  }

  lemma HeldGrows(part: seq<Obs>, h: Obs, field: Obs -> Option<string>, value: Option<string>)
    requires part != [] && Held(part, field, value)
    ensures Held(part + [h], field, Pick(value, field(h), Strong(h)))
  {
    ConfirmedIff(h.state);
    assert StrongGiven(h, field(h)) <==> Says(field(h)) && Strong(h);
    assert Given(value) == Says(value) && Given(field(h)) == Says(field(h));
    hide Held, StrongGiven, Strong, Says, Given;
    if StrongGiven(h, field(h)) {
      StrongTakesOver(part, h, field);
    } else {
      WeakFillsIn(part, h, field, value);
    }
  }

  /** The last value there is, else what the first one has. */
  ghost predicate Latest<T>(part: seq<Obs>, field: Obs -> T, there: T -> bool, value: T)
    requires part != []
  {
    && (forall k :: 0 <= k < |part| && there(field(part[k])) && (forall j :: k < j < |part| ==> !there(field(part[j])))
                    ==> value == field(part[k]))
    && ((forall j :: 0 <= j < |part| ==> !there(field(part[j]))) ==> value == field(part[0]))
  }

  lemma LatestGrows<T>(part: seq<Obs>, h: Obs, field: Obs -> T, there: T -> bool, value: T)
    requires part != [] && Latest(part, field, there, value)
    ensures Latest(part + [h], field, there, if there(field(h)) then field(h) else value)
  {
    var more, n := part + [h], |part|;
    assert more[n] == h;
    forall k | 0 <= k < |more| && there(field(more[k])) && forall j :: k < j < |more| ==> !there(field(more[j]))
      ensures (if there(field(h)) then field(h) else value) == field(more[k])
    {
      if k < n {
        forall j | k < j < n ensures !there(field(part[j])) { assert more[j] == part[j]; }
      }
    }
    if forall j :: 0 <= j < |more| ==> !there(field(more[j])) {
      forall j | 0 <= j < n ensures !there(field(part[j])) { assert more[j] == part[j]; }
    }
  }

  /** The state of the first confirmed observation, else that of the first one. */
  ghost predicate StateHeld(part: seq<Obs>, state: Option<string>)
    requires part != []
  {
    && (forall k :: 0 <= k < |part| && IsConfirmed(part[k].state) && (forall j :: 0 <= j < k ==> !IsConfirmed(part[j].state))
                    ==> state == part[k].state)
    && ((forall j :: 0 <= j < |part| ==> !IsConfirmed(part[j].state)) ==> state == part[0].state)
    && (IsConfirmed(state) <==> exists k :: 0 <= k < |part| && IsConfirmed(part[k].state))
  }

  lemma StateGrows(part: seq<Obs>, h: Obs, state: Option<string>)
    requires part != [] && StateHeld(part, state)
    ensures StateHeld(part + [h], if Confirmed(h.state) && !Confirmed(state) then h.state else state)
  {
    ConfirmedIff(h.state);
    ConfirmedIff(state);
    hide IsConfirmed, Confirmed;
    var more, n := part + [h], |part|;
    assert more[n] == h && forall k :: 0 <= k < n ==> more[k] == part[k];
  }

  // ----------------------------------------------------- a whole entry

  predicate HasPort(part: seq<Obs>, field: Obs -> seq<int>, p: int) {
    exists k :: 0 <= k < |part| && p in field(part[k])
  }

  /** The ports of all of them, each once and in increasing order. */
  ghost predicate ListsUp(s: seq<int>, part: seq<Obs>, field: Obs -> seq<int>) {
    (forall i, j :: 0 <= i < j < |s| ==> s[i] < s[j]) && forall p: int :: p in s <==> HasPort(part, field, p)
  }

  function Flat(part: seq<Obs>): seq<string> {
    if part == [] then [] else Flat(part[..|part| - 1]) + part[|part| - 1].services
  }

  ghost predicate PathHeld(e: Obs, part: seq<Obs>) {
    && (forall k :: 0 <= k < |part| ==> SamePath(e, part[k]) && (part[k].iface == "" || part[k].iface == e.iface))
    && (e.iface != "" ==> exists k :: 0 <= k < |part| && part[k].iface == e.iface)
  }

  ghost predicate TextHeld(e: Obs, part: seq<Obs>)
    requires part != []
  {
    && Held(part, (o: Obs) => o.mac, e.mac)
    && Held(part, (o: Obs) => o.vendor, e.vendor)
    && Held(part, (o: Obs) => o.hostname, e.hostname)
    && Held(part, (o: Obs) => o.deviceType, e.deviceType)
    && Held(part, (o: Obs) => o.osHint, e.osHint)
    && StateHeld(part, e.state)
    && Latest(part, (o: Obs) => o.latency, (l: Option<real>) => l.Some?, e.latency)
    && Latest(part, (o: Obs) => o.method_, Says, e.method_)
  }

  ghost predicate MembersHeld(e: Obs, part: seq<Obs>)
    requires part != []
  {
    && (forall tag :: tag in e.tags <==> exists k :: 0 <= k < |part| && tag in part[k].tags)
    && (if |part| == 1 then e.tcp == part[0].tcp && e.udp == part[0].udp && e.services == part[0].services
        else ListsUp(e.tcp, part, (o: Obs) => o.tcp) && ListsUp(e.udp, part, (o: Obs) => o.udp)
             && e.services == Dedup(Flat(part)))
  }

  /** One entry against the observations it was made of, in their order. */
  ghost predicate Summarises(e: Obs, part: seq<Obs>) {
    part != [] && PathHeld(e, part) && TextHeld(e, part) && MembersHeld(e, part)
  }

  lemma OneSummarises(o: Obs)
    ensures Summarises(o, [o])
  {
    HeldStarts(o, (x: Obs) => x.mac);
    HeldStarts(o, (x: Obs) => x.vendor);
    HeldStarts(o, (x: Obs) => x.hostname);
    HeldStarts(o, (x: Obs) => x.deviceType);
    HeldStarts(o, (x: Obs) => x.osHint);
    hide Held, IsConfirmed, ValidMac;
    assert [o][0] == o;
  }

  lemma PortsGrow(part: seq<Obs>, h: Obs, field: Obs -> seq<int>, ports: seq<int>)
    requires part != [] && (forall p: int :: p in ports <==> HasPort(part, field, p))
    ensures ListsUp(Ports(ports, field(h)), part + [h], field)
  {
    var less, more := (x: int, y: int) => x < y, part + [h];
    var both := Dedup(ports + field(h));
    DedupBasics(ports + field(h));
    SortIncreasing(less, both);
    SortKeeps(less, both);
    assert more[|part|] == h;
    forall p: int ensures p in Ports(ports, field(h)) <==> HasPort(more, field, p) {
      assert p in Ports(ports, field(h)) <==> p in both;
      if k :| 0 <= k < |part| && p in field(part[k]) { assert more[k] == part[k]; }
      if k :| 0 <= k < |more| && p in field(more[k]) { assert k < |part| ==> more[k] == part[k]; }
    }
  }

  lemma {:induction false} DedupAgain(a: seq<string>, b: seq<string>)
    ensures Dedup(Dedup(a) + b) == Dedup(a + b)
  {
    DedupBasics(a);
    if b == [] {
      assert Dedup(a) + b == Dedup(a) && a + b == a;
      DedupDistinct(Dedup(a));
    } else {
      var init, last := b[..|b| - 1], b[|b| - 1];
      DedupAgain(a, init);
      DedupAppend(Dedup(a) + init, last);
      DedupAppend(a + init, last);
      hide Dedup;
      assert Dedup(a) + b == Dedup(a) + init + [last] && a + b == a + init + [last];
      assert last in Dedup(a) + init <==> last in a + init;
    }
  }

  lemma ServicesGrow(part: seq<Obs>, h: Obs, services: seq<string>)
    requires part != [] && (services == Dedup(Flat(part)) || services == Flat(part))
    ensures Dedup(services + h.services) == Dedup(Flat(part + [h]))
  {
    assert (part + [h])[..|part|] == part;
    DedupAgain(Flat(part), h.services);
  }

  lemma SummaryGrows(e: Obs, part: seq<Obs>, h: Obs)
    requires Summarises(e, part) && SamePath(e, h) && (e.iface == h.iface || e.iface == "" || h.iface == "")
    ensures Summarises(Combine(e, h), part + [h])
  {
    hide PathHeld, TextHeld, MembersHeld, Combine, ValidMac;
    TextGrows(e, part, h);
    MembersGrow(e, part, h);
    CombineKeepsKey(e, h);
    PathGrows(e, Combine(e, h), part, h);
  }

  lemma TextGrows(e: Obs, part: seq<Obs>, h: Obs)
    requires part != [] && TextHeld(e, part)
    ensures TextHeld(Combine(e, h), part + [h])
  {
    HeldGrows(part, h, (o: Obs) => o.mac, e.mac);
    HeldGrows(part, h, (o: Obs) => o.vendor, e.vendor);
    HeldGrows(part, h, (o: Obs) => o.hostname, e.hostname);
    HeldGrows(part, h, (o: Obs) => o.deviceType, e.deviceType);
    HeldGrows(part, h, (o: Obs) => o.osHint, e.osHint);
    StateGrows(part, h, e.state);
    LatestGrows(part, h, (o: Obs) => o.latency, (l: Option<real>) => l.Some?, e.latency);
    LatestGrows(part, h, (o: Obs) => o.method_, Says, e.method_);
    assert Given(h.method_) == Says(h.method_);
    hide Held, StateHeld, Latest, Dedup, Ports, Pick, Confirmed, Strong, Given, Says;
  }

  lemma MembersGrow(e: Obs, part: seq<Obs>, h: Obs)
    requires part != [] && MembersHeld(e, part)
    ensures MembersHeld(Combine(e, h), part + [h])
  {
    TagsGrow(e, part, h);
    if |part| == 1 { assert Flat(part) == part[0].services by { assert part[..0] == []; } }
    PortsGrow(part, h, (o: Obs) => o.tcp, e.tcp);
    PortsGrow(part, h, (o: Obs) => o.udp, e.udp);
    ServicesGrow(part, h, e.services);
    hide Pick, Confirmed, Strong, ListsUp, Flat, Dedup, Ports;
  }

  lemma TagsGrow(e: Obs, part: seq<Obs>, h: Obs)
    requires forall tag :: tag in e.tags <==> exists k :: 0 <= k < |part| && tag in part[k].tags
    ensures forall tag :: tag in e.tags + h.tags <==> exists k :: 0 <= k < |part + [h]| && tag in (part + [h])[k].tags
  {
    var more := part + [h];
    assert more[|part|] == h;
    forall tag ensures tag in e.tags + h.tags <==> exists k :: 0 <= k < |more| && tag in more[k].tags {
      if k :| 0 <= k < |part| && tag in part[k].tags { assert more[k] == part[k]; }
      if tag in h.tags { assert tag in more[|part|].tags; }
    }
  }

  lemma PathGrows(e: Obs, c: Obs, part: seq<Obs>, h: Obs)
    requires SamePath(e, h) && (e.iface == h.iface || e.iface == "" || h.iface == "")
    requires PathHeld(e, part) && SamePath(c, e) && c.iface == if e.iface != "" then e.iface else h.iface
    ensures PathHeld(c, part + [h])
  {
    hide ValidMac;
    var more := part + [h];
    assert more[|part|] == h;
    if e.iface != "" {
      var k :| 0 <= k < |part| && part[k].iface == e.iface;
      assert more[k].iface == c.iface;
    }
  }

  // ------------------------------------------------------ the whole merge

  /** Those of the observations that went to entry i, in their order. */
  function Part(hosts: seq<Obs>, owner: seq<nat>, i: nat): seq<Obs>
    requires |owner| == |hosts|
  {
    if hosts == [] then []
    else
      var n := |hosts| - 1;
      Part(hosts[..n], owner[..n], i) + (if owner[n] == i then [hosts[n]] else [])
  }

  /** Every observation went to one entry, and each entry summarises those that did. */
  ghost predicate Explained(entries: seq<Obs>, hosts: seq<Obs>, owner: seq<nat>) {
    && |owner| == |hosts|
    && (forall k :: 0 <= k < |hosts| ==> owner[k] < |entries|)
    && forall i :: 0 <= i < |entries| ==> Summarises(entries[i], Part(hosts, owner, i))
  }

  lemma {:induction false} NobodyElse(hosts: seq<Obs>, owner: seq<nat>, i: nat)
    requires |owner| == |hosts| && forall k :: 0 <= k < |hosts| ==> owner[k] != i
    ensures Part(hosts, owner, i) == []
  {
    if hosts != [] { NobodyElse(hosts[..|hosts| - 1], owner[..|hosts| - 1], i); }
  }

  lemma ExplainedGrows(entries: seq<Obs>, hosts: seq<Obs>, owner: seq<nat>, h: Obs)
    requires Explained(entries, hosts, owner)
    ensures Explained(Absorb(entries, h), hosts + [h], owner + [FirstMatch(entries, h)])
  {
    var i := FirstMatch(entries, h);
    var after, all, owners := Absorb(entries, h), hosts + [h], owner + [i];
    hide Combine, Summarises, ValidMac;
    forall j: nat | j < |after| ensures Summarises(after[j], Part(all, owners, j)) {
      PartGrows(hosts, owner, h, i, j);
      hide Part;
      if j != i {
        assert after[j] == entries[j];
      } else if i < |entries| {
        SummaryGrows(entries[i], Part(hosts, owner, i), h);
      } else {
        NobodyElse(hosts, owner, i);
        OneSummarises(h);
        assert [] + [h] == [h];
      }
    }
  }

  lemma PartGrows(hosts: seq<Obs>, owner: seq<nat>, h: Obs, i: nat, j: nat)
    requires |owner| == |hosts|
    ensures Part(hosts + [h], owner + [i], j) == if i == j then Part(hosts, owner, j) + [h] else Part(hosts, owner, j)
  {
    assert (hosts + [h])[..|hosts|] == hosts && (owner + [i])[..|hosts|] == owner;
  }

  /**
    Each observation belongs to one entry of the result, and each entry says exactly what the
    observations that belong to it say, with the precedence of strong, first and latest values.
  */
  lemma {:induction false} EntriesSummarise(hosts: seq<Obs>) returns (owner: seq<nat>)
    ensures Explained(Merged(hosts), hosts, owner)
  {
    hide Explained, Absorb, FirstMatch;
    if hosts == [] {
      owner := [];
      NothingToExplain();
    } else {
      var n := |hosts| - 1;
      var init := EntriesSummarise(hosts[..n]);
      ExplainedGrows(Merged(hosts[..n]), hosts[..n], init, hosts[n]);
      owner := init + [FirstMatch(Merged(hosts[..n]), hosts[n])];
      assert hosts[..n] + [hosts[n]] == hosts;
    }
  }

  lemma NothingToExplain()
    ensures Explained([], [], [])
  {
  }

  /** Two entries for one address and hardware address differ in the interface they name. */
  lemma EntriesDiffer(hosts: seq<Obs>, i: nat, j: nat)
    requires i < j < |Merged(hosts)| && SamePath(Merged(hosts)[i], Merged(hosts)[j])
    ensures Merged(hosts)[i].iface != Merged(hosts)[j].iface
    ensures Merged(hosts)[i].iface != "" && Merged(hosts)[j].iface != ""
  {
    ResultIsApart(hosts);
    hide ValidMac, Merged;
  }

  predicate On(o: Obs, ip: string, mac: Option<string>, iface: string) {
    o.ip == ip && ValidMac(o.mac) == mac && o.iface == iface
  }

  /** The result has exactly one entry for each path observed with an interface, however often it was. */
  lemma NamedPaths(hosts: seq<Obs>, ip: string, mac: Option<string>, iface: string)
    requires iface != ""
    ensures (exists o :: o in hosts && On(o, ip, mac, iface)) <==> exists e :: e in Merged(hosts) && On(e, ip, mac, iface)
    ensures forall i, j :: 0 <= i < j < |Merged(hosts)| && On(Merged(hosts)[i], ip, mac, iface) ==> !On(Merged(hosts)[j], ip, mac, iface)
  {
    hide ValidMac, Merged;
    if o :| o in hosts && On(o, ip, mac, iface) {
      EveryObservationIsCovered(hosts, o);
      var e :| e in Merged(hosts) && Covers(e, o);
      assert On(e, ip, mac, iface);
    }
    if e :| e in Merged(hosts) && On(e, ip, mac, iface) {
      var i :| 0 <= i < |Merged(hosts)| && Merged(hosts)[i] == e;
      var o := EntryIsObserved(hosts, i);
    }
    forall i, j | 0 <= i < j < |Merged(hosts)| && On(Merged(hosts)[i], ip, mac, iface) ensures !On(Merged(hosts)[j], ip, mac, iface) {
      if On(Merged(hosts)[j], ip, mac, iface) { EntriesDiffer(hosts, i, j); }
    }
  }

  /** Some observation has the path and the interface of the entry. */
  lemma EntryIsObserved(hosts: seq<Obs>, i: nat) returns (o: Obs)
    requires i < |Merged(hosts)|
    ensures var e := Merged(hosts)[i]; o in hosts && SamePath(e, o) && o.iface == e.iface
  {
    var owner := EntriesSummarise(hosts);
    var part := Part(hosts, owner, i);
    PartIsObserved(hosts, owner, i);
    hide Merged, Part;
    o := PathIsObserved(Merged(hosts)[i], part);
  }

  lemma PathIsObserved(e: Obs, part: seq<Obs>) returns (o: Obs)
    requires Summarises(e, part)
    ensures o in part && SamePath(e, o) && o.iface == e.iface
  {
    hide TextHeld, MembersHeld, ValidMac;
    if e.iface != "" {
      var k :| 0 <= k < |part| && part[k].iface == e.iface;
      o := part[k];
    } else {
      o := part[0];
    }
  }

  lemma {:induction false} PartIsObserved(hosts: seq<Obs>, owner: seq<nat>, i: nat)
    requires |owner| == |hosts|
    ensures forall o :: o in Part(hosts, owner, i) ==> o in hosts
  {
    if hosts != [] { PartIsObserved(hosts[..|hosts| - 1], owner[..|hosts| - 1], i); }
  }

  /** An entry without an interface is there exactly when no observation of its path names one. */
  lemma UnnamedPaths(hosts: seq<Obs>, ip: string, mac: Option<string>)
    ensures (exists e :: e in Merged(hosts) && On(e, ip, mac, ""))
            <==> (exists o :: o in hosts && On(o, ip, mac, ""))
                 && forall o :: o in hosts && o.ip == ip && ValidMac(o.mac) == mac ==> o.iface == ""
  {
    hide ValidMac, Merged;
    if e :| e in Merged(hosts) && On(e, ip, mac, "") {
      var i :| 0 <= i < |Merged(hosts)| && Merged(hosts)[i] == e;
      var seen := EntryIsObserved(hosts, i);
      forall o | o in hosts && o.ip == ip && ValidMac(o.mac) == mac ensures o.iface == "" {
        EveryObservationIsCovered(hosts, o);
        var f :| f in Merged(hosts) && Covers(f, o);
        var j :| 0 <= j < |Merged(hosts)| && Merged(hosts)[j] == f;
        if i < j { EntriesDiffer(hosts, i, j); } else if j < i { EntriesDiffer(hosts, j, i); }
      }
    }
    if o :| o in hosts && On(o, ip, mac, "") && forall x :: x in hosts && x.ip == ip && ValidMac(x.mac) == mac ==> x.iface == "" {
      EveryObservationIsCovered(hosts, o);
      var e :| e in Merged(hosts) && Covers(e, o);
      var i :| 0 <= i < |Merged(hosts)| && Merged(hosts)[i] == e;
      var seen := EntryIsObserved(hosts, i);
      assert On(e, ip, mac, "");
    }
  }

  /** Observations that name different interfaces stay apart. */
  lemma InterfacesStayApart(hosts: seq<Obs>, a: Obs, b: Obs)
    requires a in hosts && b in hosts && SamePath(a, b) && a.iface != "" && b.iface != "" && a.iface != b.iface
    ensures exists e, f :: e in Merged(hosts) && f in Merged(hosts) && e != f && Covers(e, a) && Covers(f, b)
  {
    hide ValidMac, Merged;
    EveryObservationIsCovered(hosts, a);
    EveryObservationIsCovered(hosts, b);
    var e :| e in Merged(hosts) && Covers(e, a);
    var f :| f in Merged(hosts) && Covers(f, b);
    assert e.iface != f.iface;
  }
}
