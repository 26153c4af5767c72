/** Per-device evaluation and the list of addresses to block (manager/policy_engine.py). */
module EffectivePolicy {
  import opened Prelude
  import opened Addresses
  import opened Ordering
  import opened PolicyEngine

  /** A registered device with the profiles and rules that apply to it in one read snapshot. */
  datatype DeviceRow = DeviceRow(id: nat, ip: Option<IpText>, conflict: bool,
                                 profiles: seq<Profile>, rules: seq<Rule>)

  datatype DevicePolicy = DevicePolicy(id: nat, ip: Option<IpText>, allowed: bool, eligible: bool,
                                       transition: Option<int>)

  ghost predicate UniqueIds(rows: seq<DeviceRow>) {
    forall i, j :: 0 <= i < j < |rows| ==> rows[i].id != rows[j].id
  }

  /** Another row stores the same text; other spellings of the address do not count. */
  predicate Duplicate(rows: seq<DeviceRow>, row: DeviceRow) {
    row.ip.Some? && exists i :: 0 <= i < |rows| && rows[i].id != row.id && rows[i].ip == row.ip
  }

  /** The stored text is no address, or a link-local IPv6 address the backend cannot qualify. */
  predicate Unenforceable(ip: IpText) {
    ip.Malformed? || LinkLocal6(ip.addr)
  }

  method Evaluate(rows: seq<DeviceRow>, row: DeviceRow, when: int) returns (p: DevicePolicy)
    ensures p.id == row.id && p.ip == row.ip
    ensures p.allowed <==> Allowed(row.profiles, row.rules, when)
    ensures p.eligible <==> !row.conflict
                            && !Duplicate(rows, row)
                            && (forall i :: 0 <= i < |row.rules| ==> !NeedsRepair(row.rules[i]))
                            && (row.ip.Some? ==> !Unenforceable(row.ip.value))
    ensures forall c :: p.transition == Some(c) <==>
              FirstChange(row.profiles, row.rules, when, c) && |FlipMinutes(row.rules, when, c)| <= ROUNDS
  {
    var d := DecisionAt(row.profiles, row.rules, when);
    InvalidIffNeedsRepair(row.rules);
    var duplicate := Duplicate(rows, row);
    var invalidAddress := row.ip.Some? && row.ip.value.Malformed?;
    var scoped := row.ip.Some? && !row.ip.value.Malformed? && LinkLocal6(row.ip.value.addr);
    var transition := NextTransition(row.profiles, row.rules, when);
    p := DevicePolicy(row.id, row.ip, d.allowed,
                      !row.conflict && d.invalid == [] && !duplicate && !scoped && !invalidAddress, transition);
  }

  lemma InvalidIffNeedsRepair(rules: seq<Rule>)
    ensures InvalidKeys(rules) == [] <==> forall i :: 0 <= i < |rules| ==> !NeedsRepair(rules[i])
  {
  }

  /** row is registered, denied, trusted, and the only device whose stored text is ip. */
  ghost predicate SoleDeniedHolder(rows: seq<DeviceRow>, row: DeviceRow, ip: IpText, when: int) {
    && row in rows
    && row.ip == Some(ip)
    && (forall other :: other in rows && other.ip == Some(ip) ==> other == row)
    && !Allowed(row.profiles, row.rules, when)
    && !row.conflict
    && (forall r :: r in row.rules ==> !NeedsRepair(r))
    && !Unenforceable(ip)
  }

  ghost predicate ShouldBlock(rows: seq<DeviceRow>, ip: IpText, when: int) {
    exists row :: SoleDeniedHolder(rows, row, ip, when)
  }

  lemma EligibleIffSoleHolder(rows: seq<DeviceRow>, k: nat, ip: IpText, when: int)
    requires UniqueIds(rows) && k < |rows| && rows[k].ip == Some(ip)
    ensures SoleDeniedHolder(rows, rows[k], ip, when) <==>
            !Allowed(rows[k].profiles, rows[k].rules, when)
            && !rows[k].conflict && !Duplicate(rows, rows[k]) && !Unenforceable(ip)
            && (forall i :: 0 <= i < |rows[k].rules| ==> !NeedsRepair(rows[k].rules[i]))
  {
  }

  /**
    The texts to block are exactly those stored for a single registered, denied, eligible device, each
    listed once and in text order.
  */
  method BlockedIps(rows: seq<DeviceRow>, before: (IpText, IpText) -> bool, when: int) returns (r: seq<IpText>)
    requires UniqueIds(rows)
    requires StrictOrder(before) && forall a, b :: a != b ==> before(a, b) || before(b, a)
    ensures forall ip :: ip in r <==> ShouldBlock(rows, ip, when)
    ensures Increasing(before, r)
  {
    var found: seq<IpText> := [];
    for k := 0 to |rows|
      invariant forall i, j :: 0 <= i < j < |found| ==> found[i] != found[j]
      invariant forall ip :: ip in found <==> exists i :: 0 <= i < k && SoleDeniedHolder(rows, rows[i], ip, when)
    {
      var policy := Evaluate(rows, rows[k], when);
      if policy.ip.Some? {
        EligibleIffSoleHolder(rows, k, policy.ip.value, when);
      }
      if !policy.allowed && policy.ip.Some? && policy.eligible && policy.ip.value !in found {
        found := found + [policy.ip.value];
      }
    }
    forall ip ensures ip in found <==> ShouldBlock(rows, ip, when) {
      if row :| SoleDeniedHolder(rows, row, ip, when) {
        var i :| 0 <= i < |rows| && rows[i] == row;
        assert SoleDeniedHolder(rows, rows[i], ip, when);
      }
    }
    SortIncreasing(before, found);
    SortKeeps(before, found);
    r := Sort(before, found);
  }

  // --------------------------------------------- texts and addresses

  /** Two texts denote one address. */
  predicate SameAddress(a: IpText, b: IpText) {
    !a.Malformed? && !b.Malformed? && a.addr == b.addr
  }

  /** As an address, every blocked one belongs to one device. */
  ghost predicate BlockedHeldAlone(rows: seq<DeviceRow>, when: int) {
    forall ip, i, j :: ShouldBlock(rows, ip, when) && 0 <= i < |rows| && 0 <= j < |rows|
                       && HoldsAddress(rows[i], ip) && HoldsAddress(rows[j], ip)
                       ==> (i == j)
  }

  predicate HoldsAddress(row: DeviceRow, ip: IpText) {
    row.ip.Some? && SameAddress(row.ip.value, ip)
  }

  /** No row stores a blocked address in another spelling. */
  ghost predicate NoRespelling(rows: seq<DeviceRow>, when: int) {
    forall ip, i :: ShouldBlock(rows, ip, when) && 0 <= i < |rows| && HoldsAddress(rows[i], ip) ==> rows[i].ip == Some(ip)
  }

  /** The check for other holders compares texts, so it is enough exactly when nobody respells. */
  lemma BlockedHeldAloneIff(rows: seq<DeviceRow>, when: int)
    requires UniqueIds(rows)
    ensures BlockedHeldAlone(rows, when) <==> NoRespelling(rows, when)
  {
    if BlockedHeldAlone(rows, when) {
      forall ip, i | ShouldBlock(rows, ip, when) && 0 <= i < |rows| && HoldsAddress(rows[i], ip)
        ensures rows[i].ip == Some(ip)
      {
        var row :| SoleDeniedHolder(rows, row, ip, when);
        var j :| 0 <= j < |rows| && rows[j] == row;
        assert HoldsAddress(rows[j], ip);
      }
    }
    if NoRespelling(rows, when) {
      forall ip, i, j | ShouldBlock(rows, ip, when) && 0 <= i < |rows| && 0 <= j < |rows|
                        && HoldsAddress(rows[i], ip) && HoldsAddress(rows[j], ip)
        ensures i == j
      {
        var row :| SoleDeniedHolder(rows, row, ip, when);
        assert rows[i] in rows && rows[j] in rows;
        assert rows[i].id == rows[j].id;
      }
    }
  }

  const OWN: Addr := Addr(true, 0xFD00_0000_0000_0000_0000_0000_0000_0001)

  /** A denied device with an edited spelling of fd00::1, and an allowed one seen under the canonical one. */
  const RESPELLED: seq<DeviceRow> := [
    DeviceRow(1, Some(Local(OWN, 1)), false, [Profile("denied", Blocked)], []),
    DeviceRow(2, Some(Canonical(OWN)), false, [], [])]

  lemma AllowedDeviceIsBlockedToo(when: int)
    ensures UniqueIds(RESPELLED) && ShouldBlock(RESPELLED, Local(OWN, 1), when)
    ensures Allowed(RESPELLED[1].profiles, RESPELLED[1].rules, when) && HoldsAddress(RESPELLED[1], Local(OWN, 1))
    ensures !BlockedHeldAlone(RESPELLED, when)
  {
    assert RESPELLED[0].profiles[0].mode == Blocked;
    assert SoleDeniedHolder(RESPELLED, RESPELLED[0], Local(OWN, 1), when);
    assert HoldsAddress(RESPELLED[0], Local(OWN, 1)) && HoldsAddress(RESPELLED[1], Local(OWN, 1));
    BlockedHeldAloneIff(RESPELLED, when);
    hide ShouldBlock;
  }
}
