/** Policy synchronisation with read-back and recovery (firewall/engine.py). */
module FirewallEngine {
  import opened Prelude
  import opened Addresses
  import opened FirewallBase
  import opened FirewallBackends
  import Ordering

  datatype Topology = Unverified | Host | Gateway | Inline
  datatype Config = Config(enforce: bool, rollbackOnError: bool, topology: Topology)

  datatype Event =
    | ErrorRecorded
    | RecoveryErrorRecorded(previous: Option<seq<Addr>>)
    | SyncRecorded(blocked: seq<Addr>, requested: seq<IpText>, applied: bool)
    | DriftRecorded(readFailed: bool)

  datatype SyncError = ConfigError | BackendError

  /** [ip for ip in requested if ip not in protected]: a comparison of texts. */
  function Unprotected(requested: seq<IpText>, protected: set<IpText>): seq<IpText> {
    if requested == [] then []
    else
      var init, last := Unprotected(requested[..|requested| - 1], protected), requested[|requested| - 1];
      if last in protected then init else init + [last]
  }

  predicate TopologyAllows(topology: Topology, forwarding: bool) {
    topology == Inline || (topology == Gateway && forwarding)
  }

  class FirewallEngine {
    const config: Config
    /** The configured backend is "none" rather than nftables. */
    const disabled: bool
    const backend: NftablesBackend
    var events: seq<Event>
    /** What the backend has been asked to write, in order. */
    ghost var writes: seq<seq<IpText>>
    /** Failed commands before the last recovery began. */
    ghost var failuresBeforeRecovery: nat
    /** Failed commands before the last write, that is, up to and including the snapshot. */
    ghost var failuresBeforeWrite: nat

    constructor (config: Config, disabled: bool, backend: NftablesBackend)
      ensures this.config == config && this.disabled == disabled && this.backend == backend
      ensures events == [] && writes == []
    {
      this.config, this.disabled, this.backend := config, disabled, backend;
      events, writes, failuresBeforeRecovery, failuresBeforeWrite := [], [], 0, 0;
    }

    method BackendApply(texts: seq<IpText>, apply: bool) returns (r: Result<FirewallResult, Failure>)
      modifies this`writes, backend.nft
      ensures writes == if apply then old(writes) + [texts] else old(writes)
      ensures disabled || !apply ==> backend.nft.kernel == old(backend.nft.kernel)
      ensures disabled || !apply ==> (r.Ok? <==> Normalize(texts).Some?) && (r.Ok? ==> !r.value.applied)
      ensures !disabled && apply
              ==> ApplyOutcome(old(backend.nft.kernel), texts, backend.nft.kernel, backend.nft.reliable, r)
      ensures r.Ok? ==> Normalize(texts) == Some(r.value.blocked)
      ensures Readable(old(backend.nft.kernel)) ==> Readable(backend.nft.kernel)
      ensures backend.nft.failures >= old(backend.nft.failures)
      ensures !disabled && apply && backend.nft.failures == old(backend.nft.failures) && Normalize(texts).Some?
              ==> r.Ok? && backend.nft.kernel == Some(Exactly(r.value.blocked))
    {
      if apply {
        writes := writes + [texts];
      }
      if disabled {
        var v := NormalizeLocalIps(texts);
        r := if v.None? then Err(Raised) else Ok(FirewallResult(false, v.value, Disabled));
      } else {
        r := backend.Apply(texts, apply);
      }
    }

    /** Both backends inherit the method; without a table name it can only raise. */
    method BackendRead() returns (r: Result<seq<Addr>, Failure>)
      modifies backend.nft`failures
      ensures r.Ok? ==> !disabled && ReadsAs(backend.nft.kernel, r.value)
      ensures backend.nft.failures >= old(backend.nft.failures)
      ensures !disabled && backend.nft.failures == old(backend.nft.failures) && Readable(backend.nft.kernel) ==> r.Ok?
    {
      if disabled {
        return Err(Raised);
      }
      r := backend.ReadBlockedIps();
    }

    function Enforces(apply: Option<bool>): bool
      reads this
    {
      if apply.None? then config.enforce else apply.value
    }

    method Sync(apply: Option<bool>, requested: seq<IpText>, protected: set<IpText>, forwarding: bool)
      returns (r: Result<FirewallResult, SyncError>)
      modifies this, backend.nft
      // A topology that does not route the traffic is refused before anything happens.
      ensures r == Err(ConfigError) <==>
                (if apply.None? then config.enforce else apply.value)
                && (config.topology.Unverified? || config.topology.Host? || (config.topology.Gateway? && !forwarding))
      ensures r == Err(ConfigError) ==> unchanged(this) && unchanged(backend.nft)
      // A dry run, or a disabled backend, leaves the kernel alone.
      ensures disabled || !Enforces(apply) ==> backend.nft.kernel == old(backend.nft.kernel)
      ensures r.Ok? ==> Normalize(Unprotected(requested, protected)) == Some(r.value.blocked)
                        && events == old(events) + [SyncRecorded(r.value.blocked, requested, r.value.applied)]
      ensures r.Ok? ==> (r.value.applied <==> !disabled && Enforces(apply))
      // Success: the kernel has been read back and is exactly the normalised policy.
      ensures r.Ok? && r.value.applied ==> ReadsAs(backend.nft.kernel, r.value.blocked)
      // And it does succeed, when all texts are local and no command of the write or the read-back fails.
      ensures r != Err(ConfigError) ==> old(backend.nft.failures) <= failuresBeforeWrite <= backend.nft.failures
      ensures r != Err(ConfigError) && Normalize(Unprotected(requested, protected)).Some?
              && (disabled || !Enforces(apply) || backend.nft.failures == failuresBeforeWrite)
              ==> r.Ok?
      // Failure: an error is on record, and with recovery see FailureHandled.
      ensures r == Err(BackendError) ==>
                FailureHandled(Enforces(apply), old(events), events, old(backend.nft.kernel), backend.nft.kernel,
                               old(backend.nft.failures), failuresBeforeRecovery, backend.nft.failures)
      // Recovery only ever writes the snapshot.
      ensures OnlySnapshotRewritten(old(backend.nft.kernel), old(writes), Unprotected(requested, protected), writes)
      // Nothing partial: the old state, the policy, or the snapshot.
      ensures !disabled && backend.nft.reliable
              ==> WholeState(old(backend.nft.kernel), Unprotected(requested, protected), backend.nft.kernel)
    {
      if Enforces(apply) && !TopologyAllows(config.topology, forwarding) {
        return Err(ConfigError);
      }
      var blocked := FilterProtected(requested, protected);
      hide ReadsAs, Blocking, WholeState, Unprotected, Normalize, FailureHandled, OnlySnapshotRewritten;
      var outcome := WriteGuarded(blocked, Enforces(apply));
      if outcome.Err? {
        return Err(BackendError);
      }
      events := events + [SyncRecorded(outcome.value.blocked, requested, outcome.value.applied)];
      return Ok(outcome.value);
    }

    /**
      What a failed sync leaves on record. With recovery the snapshot is back in place, or a recovery
      error is recorded; the latter needs a command that failed, during recovery if there was a
      snapshot, and otherwise at all, unless the backend is disabled or the table was unreadable.
    */
    ghost predicate FailureHandled(should: bool, was: seq<Event>, now: seq<Event>, before: Kernel, after: Kernel,
                                   failures: nat, atRecovery: nat, failuresAfter: nat)
    {
      if !should || !config.rollbackOnError then now == was + [ErrorRecorded]
      else
        || (now == was + [ErrorRecorded] && Restored(before, after))
        || exists previous ::
             && now == was + [ErrorRecorded, RecoveryErrorRecorded(previous)]
             && if previous.Some? then failuresAfter > atRecovery >= failures
                else disabled || !Readable(before) || failuresAfter > failures
    }

    /** Snapshot, write, verify, and on failure recover. */
    method WriteGuarded(blocked: seq<IpText>, should: bool) returns (r: Result<FirewallResult, Failure>)
      modifies this, backend.nft
      ensures disabled || !should ==> backend.nft.kernel == old(backend.nft.kernel)
      ensures r.Ok? ==> Normalize(blocked) == Some(r.value.blocked) && events == old(events)
      ensures r.Ok? ==> (r.value.applied <==> !disabled && should)
      ensures r.Ok? && r.value.applied ==> ReadsAs(backend.nft.kernel, r.value.blocked)
      ensures old(backend.nft.failures) <= failuresBeforeWrite <= backend.nft.failures
      ensures Normalize(blocked).Some? && (disabled || !should || backend.nft.failures == failuresBeforeWrite) ==> r.Ok?
      ensures r.Err? ==>
                FailureHandled(should, old(events), events, old(backend.nft.kernel), backend.nft.kernel,
                               old(backend.nft.failures), failuresBeforeRecovery, backend.nft.failures)
      ensures OnlySnapshotRewritten(old(backend.nft.kernel), old(writes), blocked, writes)
      ensures !disabled && backend.nft.reliable ==> WholeState(old(backend.nft.kernel), blocked, backend.nft.kernel)
    {
      var previous: Option<seq<Addr>> := None;
      if should && config.rollbackOnError {
        var snapshot := BackendRead();
        if snapshot.Ok? {
          previous := Some(snapshot.value);
          ReadIsReadable(backend.nft.kernel, snapshot.value);
        }
      }
      failuresBeforeWrite := backend.nft.failures;
      r := ApplyAndVerify(blocked, should);
      if r.Err? {
        events := events + [ErrorRecorded];
        if should && config.rollbackOnError {
          failuresBeforeRecovery := backend.nft.failures;
          var recovered := Recover(previous, old(backend.nft.kernel), blocked);
          if !recovered {
            events := events + [RecoveryErrorRecorded(previous)];
            assert events == old(events) + [ErrorRecorded, RecoveryErrorRecorded(previous)];
          }
        }
      }
    }

    method FilterProtected(requested: seq<IpText>, protected: set<IpText>) returns (blocked: seq<IpText>)
      ensures blocked == Unprotected(requested, protected)
    {
      blocked := [];
      for i := 0 to |requested|
        invariant blocked == Unprotected(requested[..i], protected)
      {
        assert requested[..i + 1][..i] == requested[..i];
        if requested[i] !in protected {
          blocked := blocked + [requested[i]];
        }
      }
      assert requested[..|requested|] == requested;
    }

    /** The body of the try block: write, then read back and compare. */
    method ApplyAndVerify(blocked: seq<IpText>, should: bool) returns (r: Result<FirewallResult, Failure>)
      modifies this`writes, backend.nft
      ensures writes == if should then old(writes) + [blocked] else old(writes)
      ensures disabled || !should ==> backend.nft.kernel == old(backend.nft.kernel)
      ensures r.Ok? ==> Normalize(blocked) == Some(r.value.blocked) && (r.value.applied <==> !disabled && should)
      ensures Normalize(blocked).Some? && (disabled || !should || backend.nft.failures == old(backend.nft.failures)) ==> r.Ok?
      ensures r.Ok? && r.value.applied ==> ReadsAs(backend.nft.kernel, r.value.blocked)
      ensures !disabled && backend.nft.reliable
              ==> WholeState(old(backend.nft.kernel), blocked, backend.nft.kernel)
      ensures Readable(old(backend.nft.kernel)) ==> Readable(backend.nft.kernel)
      ensures backend.nft.failures >= old(backend.nft.failures)
    {
      var result := BackendApply(blocked, should);
      if result.Err? {
        return result;
      }
      if should && result.value.applied {
        var expected := NormalizeLocalIps(blocked);
        ExactlyReadsAs(blocked);
        ghost var written := backend.nft.kernel;
        var actual := BackendRead();
        if actual.Ok? && written == Some(Exactly(result.value.blocked)) {
          ReadsAsIsUnique(written, actual.value, result.value.blocked);
        }
        if actual.Err? || expected != Some(actual.value) {
          return Err(Raised);
        }
      }
      return result;
    }

    /**
      The recovery branch; true when it raises nothing and has no error to report. With a snapshot, that
      is the case unless a command fails meanwhile, and then the snapshot is back.
    */
    method Recover(previous: Option<seq<Addr>>, ghost start: Kernel, ghost blocked: seq<IpText>) returns (ok: bool)
      requires previous.Some? ==> !disabled && ReadsAs(start, previous.value)
      requires previous.Some? ==> Readable(backend.nft.kernel)
      requires !disabled && backend.nft.reliable ==> WholeState(start, blocked, backend.nft.kernel)
      modifies this`writes, backend.nft
      ensures previous.Some? && backend.nft.failures == old(backend.nft.failures) ==> ok
      ensures backend.nft.failures >= old(backend.nft.failures)
      ensures ok ==> previous.Some? && ReadsAs(backend.nft.kernel, previous.value)
      ensures writes == old(writes)
              || (previous.Some? && writes == old(writes) + [Texts(previous.value)])
      ensures disabled ==> backend.nft.kernel == old(backend.nft.kernel)
      ensures !disabled && backend.nft.reliable ==> WholeState(start, blocked, backend.nft.kernel)
    {
      if previous.None? {
        return false;
      }
      var current := BackendRead();
      if current.Err? {
        return false;
      }
      if current.value != previous.value {
        ghost var kept := backend.nft.kernel;
        SnapshotIsNormal(start, previous.value);
        var rewritten := BackendApply(Texts(previous.value), true);
        if backend.nft.reliable {
          RewriteKeepsWhole(start, blocked, previous.value, kept, backend.nft.kernel, rewritten);
        }
        if rewritten.Err? {
          return false;
        }
        ExactlyReadsAs(Texts(previous.value));
        ghost var written := backend.nft.kernel;
        var restored := BackendRead();
        if restored.Ok? && written == Some(Exactly(previous.value)) {
          ReadsAsIsUnique(written, restored.value, previous.value);
        }
        if restored.Err? || restored.value != previous.value {
          return false;
        }
      }
      return true;
    }

    /** Observation only; an event says whether the read failed or the state differs. */
    method DetectDrift(requested: seq<IpText>, protected: set<IpText>) returns (r: Result<bool, ()>)
      modifies this`events, backend.nft`failures
      ensures r.Err? <==> Normalize(Unprotected(requested, protected)).None?
      ensures r.Err? || r == Ok(false) ==> events == old(events)
      ensures r == Ok(false) ==> ReadsAs(backend.nft.kernel, Normalize(Unprotected(requested, protected)).value)
      ensures r == Ok(true) ==> |events| == |old(events)| + 1 && events[..|old(events)|] == old(events)
                                && events[|old(events)|].DriftRecorded?
      ensures r == Ok(true) && events[|old(events)|].readFailed
              ==> disabled || !Readable(backend.nft.kernel) || backend.nft.failures > old(backend.nft.failures)
      ensures r == Ok(true) && !events[|old(events)|].readFailed
              ==> !ReadsAs(backend.nft.kernel, Normalize(Unprotected(requested, protected)).value)
    {
      var blocked := FilterProtected(requested, protected);
      var expected := NormalizeLocalIps(blocked);
      if expected.None? {
        return Err(());
      }
      var actual := BackendRead();
      if actual.Err? || actual.value != expected.value {
        if actual.Ok? {
          DifferentReadsDiffer(backend.nft.kernel, actual.value, expected.value);
        }
        events := events + [DriftRecorded(actual.Err?)];
        return Ok(true);
      }
      return Ok(false);
    }
  }

  /** Some snapshot describes both states. */
  ghost predicate Restored(before: Kernel, after: Kernel) {
    exists v :: ReadsAs(before, v) && ReadsAs(after, v)
  }

  ghost predicate OnlySnapshotRewritten(before: Kernel, writesBefore: seq<seq<IpText>>, blocked: seq<IpText>,
                                        writes: seq<seq<IpText>>) {
    writes == writesBefore
    || writes == writesBefore + [blocked]
    || exists v :: ReadsAs(before, v) && writes == writesBefore + [blocked] + [Texts(v)]
  }

  ghost predicate WholeState(before: Kernel, blocked: seq<IpText>, after: Kernel) {
    Blocking(after) == Blocking(before)
    || (Normalize(blocked).Some? && Blocking(after) == Blocking(Some(Exactly(Normalize(blocked).value))))
    || exists v :: ReadsAs(before, v) && Blocking(after) == Blocking(Some(Exactly(v)))
  }

  /** A write of the snapshot, however it ends, keeps the state whole. */
  lemma RewriteKeepsWhole(start: Kernel, blocked: seq<IpText>, v: seq<Addr>, before: Kernel, after: Kernel,
                          r: Result<FirewallResult, Failure>)
    requires ReadsAs(start, v) && WholeState(start, blocked, before)
    requires ApplyOutcome(before, Texts(v), after, true, r)
    ensures WholeState(start, blocked, after)
  {
    hide ReadsAs, Blocking;
    SnapshotIsNormal(start, v);
  }

  lemma ReadIsReadable(k: Kernel, v: seq<Addr>)
    requires ReadsAs(k, v)
    ensures Readable(k)
  {
  }

  lemma DifferentReadsDiffer(k: Kernel, actual: seq<Addr>, expected: seq<Addr>)
    requires ReadsAs(k, actual) && actual != expected
    ensures !ReadsAs(k, expected)
  {
    if ReadsAs(k, expected) { ReadsAsIsUnique(k, actual, expected); }
  }

  /** A snapshot is already in normal form, so writing it back writes exactly it. */
  lemma SnapshotIsNormal(k: Kernel, v: seq<Addr>)
    requires ReadsAs(k, v)
    ensures Normalize(Texts(v)) == Some(v)
  {
    NormalFormMeaning(Texts(v));
    AddrBeforeIsStrict();
    var w := Normalize(Texts(v)).value;
    forall a ensures a in w <==> a in v {
      if a in v {
        var i :| 0 <= i < |v| && v[i] == a;
        assert Texts(v)[i].addr == a;
      }
    }
    Ordering.IncreasingIsUnique(AddrBefore, v, w);
  }

  // ------------------------------------------------------------ protection

  lemma {:induction false} UnprotectedMembers(requested: seq<IpText>, protected: set<IpText>)
    ensures forall x :: x in Unprotected(requested, protected) <==> x in requested && x !in protected
  {
    if requested != [] {
      var init := requested[..|requested| - 1];
      assert requested == init + [requested[|requested| - 1]];
      UnprotectedMembers(init, protected);
    }
  }

  /**
    Protected texts are dropped by comparing texts, not addresses. A synchronised kernel therefore
    blocks no protected address if and only if policy never spells one of them differently.
  */
  lemma ProtectionIsTextual(requested: seq<IpText>, protected: set<IpText>)
    requires Normalize(Unprotected(requested, protected)).Some?
    ensures (forall p :: p in protected && p.Local? ==> p.addr !in Normalize(Unprotected(requested, protected)).value)
       <==> (forall p, x :: p in protected && p.Local? && x in requested && x.Local? && x.addr == p.addr ==> x in protected)
  {
    var blocked := Unprotected(requested, protected);
    NormalFormMeaning(blocked);
    UnprotectedMembers(requested, protected);
    var v := Normalize(blocked).value;
    if p, x :| p in protected && p.Local? && x in requested && x.Local? && x.addr == p.addr && x !in protected {
      assert x in blocked;
      var i :| 0 <= i < |blocked| && blocked[i] == x;
      assert Denoted(blocked, p.addr);
    }
    if p :| p in protected && p.Local? && p.addr in v {
      var i :| 0 <= i < |blocked| && blocked[i].Local? && blocked[i].addr == p.addr;
      assert blocked[i] in blocked;
    }
  }

  /** One of the host's own addresses, stored in another spelling, is protected and blocked all the same. */
  lemma RespelledAddressIsBlocked()
    ensures var own := Addr(true, 0xFD00_0000_0000_0000_0000_0000_0000_0001);
      Normalize(Unprotected([Local(own, 1)], {Local(own, 0)})) == Some([own])
  {
    var own := Addr(true, 0xFD00_0000_0000_0000_0000_0000_0000_0001);
    var requested := [Local(own, 1)];
    assert requested[..0] == [];
    assert Unprotected(requested, {Local(own, 0)}) == requested;
    NormalFormMeaning(requested);
    var v := Normalize(requested).value;
    assert requested[0].Local?;
    forall a ensures a in v <==> a in [own] {
    }
    AddrBeforeIsStrict();
    Ordering.IncreasingIsUnique(AddrBefore, v, [own]);
  }
}
