/** What one synchronisation of the evaluated policy leaves in the kernel (firewall/engine.py). */
module Enforcement {
  import opened Prelude
  import opened Addresses
  import opened Ordering
  import opened EffectivePolicy
  import opened FirewallBase
  import opened FirewallBackends
  import Engine = FirewallEngine

  /** The kernel blocks the address. */
  ghost predicate Drops(k: Kernel, a: Addr) {
    exists x :: x in Blocking(k) && x.Local? && x.addr == a
  }

  /** Policy wants the address blocked, under some text that is not protected. */
  ghost predicate Wanted(rows: seq<DeviceRow>, when: int, protected: set<IpText>, a: Addr) {
    exists ip :: ShouldBlock(rows, ip, when) && ip !in protected && ip.Local? && ip.addr == a
  }

  /** Evaluating every device, then writing and verifying. */
  method SyncPolicy(engine: Engine.FirewallEngine, rows: seq<DeviceRow>, before: (IpText, IpText) -> bool,
                    when: int, apply: Option<bool>, protected: set<IpText>, forwarding: bool)
    returns (r: Result<FirewallResult, Engine.SyncError>)
    requires UniqueIds(rows)
    requires StrictOrder(before) && forall a, b :: a != b ==> before(a, b) || before(b, a)
    modifies engine, engine.backend.nft
    ensures r.Ok? && r.value.applied ==> forall a :: Drops(engine.backend.nft.kernel, a) <==> Wanted(rows, when, protected, a)
    ensures r.Ok? && r.value.applied ==> Readable(engine.backend.nft.kernel)
  {
    var requested := BlockedIps(rows, before, when);
    r := engine.Sync(apply, requested, protected, forwarding);
    if r.Ok? && r.value.applied {
      forall a ensures Drops(engine.backend.nft.kernel, a) <==> Wanted(rows, when, protected, a) {
        UnprotectedDenotes(requested, protected, r.value.blocked, a);
      }
    }
  }

  lemma UnprotectedDenotes(requested: seq<IpText>, protected: set<IpText>, v: seq<Addr>, a: Addr)
    requires Normalize(Engine.Unprotected(requested, protected)) == Some(v)
    ensures a in v <==> exists ip :: ip in requested && ip !in protected && ip.Local? && ip.addr == a
  {
    var blocked := Engine.Unprotected(requested, protected);
    NormalFormMeaning(blocked);
    Engine.UnprotectedMembers(requested, protected);
    if Denoted(blocked, a) {
      var i :| 0 <= i < |blocked| && blocked[i].Local? && blocked[i].addr == a;
      assert blocked[i] in blocked;
    }
    if ip :| ip in requested && ip !in protected && ip.Local? && ip.addr == a {
      assert ip in blocked;
      var i :| 0 <= i < |blocked| && blocked[i] == ip;
    }
  }
}
