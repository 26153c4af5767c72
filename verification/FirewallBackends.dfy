/** The nftables backend against a kernel whose commands can fail at any step (firewall/backends.py). */
module FirewallBackends {
  import opened Prelude
  import opened Addresses
  import opened FirewallBase
  import Ordering

  /** NetFather's table; tables of older versions have no set for IPv6. */
  datatype Table = Table(blocked4: set<IpText>, blocked6: Option<set<IpText>>)

  type Kernel = Option<Table>

  /** Everything the kernel drops. */
  function Blocking(k: Kernel): set<IpText> {
    match k
    case None => {}
    case Some(t) => t.blocked4 + (if t.blocked6.Some? then t.blocked6.value else {})
  }

  datatype Script =
    | Install(four: set<IpText>, six: set<IpText>)   // the whole table, as a file
    | AddSix                                         // the IPv6 upgrade
    | Replace(four: set<IpText>, six: set<IpText>)   // flush both sets, then add elements

  /**
    What one transaction does, or None when the kernel must refuse it. A table block given for a table
    that exists adds to it.
  */
  function Effect(script: Script, k: Kernel): Option<Table> {
    match script
    case Install(four, six) =>
      if k.None? then Some(Table(four, Some(six)))
      else Some(Table(k.value.blocked4 + four,
                      Some((if k.value.blocked6.Some? then k.value.blocked6.value else {}) + six)))
    case AddSix =>
      if k.None? then None
      else Some(Table(k.value.blocked4, Some(if k.value.blocked6.Some? then k.value.blocked6.value else {})))
    case Replace(four, six) =>
      if k.None? || k.value.blocked6.None? then None else Some(Table(four, Some(six)))
  }

  /** Done and Refused are exit codes; Lost is a timeout, after which the script may have run or not. */
  datatype Outcome = Done | Refused | Lost

  datatype Listing = Found(table: Table) | Missing | ListingLost

  datatype Detail = DryRun | Disabled | Created | Updated | Cleared
  datatype FirewallResult = FirewallResult(applied: bool, blocked: seq<Addr>, detail: Detail)

  datatype Failure = Raised | TimedOut

  function Family(v: seq<Addr>, six: bool): set<IpText> {
    set i | 0 <= i < |v| && v[i].v6 == six :: Canonical(v[i])
  }

  /** The table that holds exactly the addresses of v, split by family. */
  function Exactly(v: seq<Addr>): Table {
    Table(Family(v, false), Some(Family(v, true)))
  }

  /** The IPv4 set holds the canonical texts of the IPv4 addresses of v and the other one those of IPv6. */
  ghost predicate SplitByFamily(k: Kernel, v: seq<Addr>) {
    && k.Some? && k.value.blocked6.Some?
    && (forall x :: x in k.value.blocked4 <==> exists a :: a in v && !a.v6 && x == Canonical(a))
    && (forall x :: x in k.value.blocked6.value <==> exists a :: a in v && a.v6 && x == Canonical(a))
  }

  lemma ExactlyIsSplit(v: seq<Addr>)
    ensures SplitByFamily(Some(Exactly(v)), v)
  {
    forall six, x ensures x in Family(v, six) <==> exists a :: a in v && a.v6 == six && x == Canonical(a) {
      if a :| a in v && a.v6 == six && x == Canonical(a) {
        var i :| 0 <= i < |v| && v[i] == a;
      }
    }
  }

  /** The nft command and the kernel behind it. */
  class Nft {
    var kernel: Kernel
    /** Commands so far that were missing, refused, lost, or wrongly reported a missing table. */
    ghost var failures: nat
    /** `list table` reports a missing table only when there is none. */
    const reliable: bool

    constructor (kernel: Kernel, reliable: bool)
      ensures this.kernel == kernel && this.reliable == reliable && failures == 0
    {
      this.kernel := kernel;
      this.reliable := reliable;
      failures := 0;
    }

    ghost method Count(failed: bool)
      modifies this`failures
      ensures failures == old(failures) + if failed then 1 else 0
    {
      failures := failures + if failed then 1 else 0;
    }

    method Installed() returns (found: bool)
      modifies this`failures
      ensures failures == old(failures) + if found then 0 else 1
    {
      found := *;
      Count(!found);
    }

    /** nft -c: no effect; it may reject or time out for any reason. */
    method Check(script: Script) returns (o: Outcome)
      modifies this`failures
      ensures failures == old(failures) + if o.Done? then 0 else 1
    {
      o := *;
      Count(!o.Done?);
    }

    /** nft -f: atomic. */
    method Run(script: Script) returns (o: Outcome)
      modifies this
      ensures o.Done? ==> Effect(script, old(kernel)).Some? && kernel == Effect(script, old(kernel))
      ensures o.Refused? ==> kernel == old(kernel)
      ensures o.Lost? && kernel != old(kernel)
              ==> Effect(script, old(kernel)).Some? && kernel == Effect(script, old(kernel))
      ensures failures == old(failures) + if o.Done? then 0 else 1
    {
      o := *;
      var ran: bool := *;
      var after := Effect(script, kernel);
      if after.None? {
        if o.Done? { o := Refused; }
      } else if o.Done? || (o.Lost? && ran) {
        kernel := after;
      }
      Count(!o.Done?);
    }

    method ListTable() returns (l: Listing)
      modifies this`failures
      ensures l.Found? ==> kernel == Some(l.table)
      ensures l.Missing? && reliable ==> kernel.None?
      ensures failures == old(failures) + if l.Found? || (l.Missing? && kernel.None?) then 0 else 1
    {
      var mishap: bool := *;
      var lost: bool := *;
      if lost {
        l := ListingLost;
      } else if kernel.None? || (mishap && !reliable) {
        l := Missing;
      } else {
        l := Found(kernel.value);
      }
      Count(!l.Found? && !(l.Missing? && kernel.None?));
    }

    /** nft -j list set: the elements of one set, in any order. */
    method ListSet(six: bool) returns (r: Option<seq<IpText>>)
      modifies this`failures
      ensures failures == old(failures) + if r.Some? then 0 else 1
      ensures r.Some? ==> kernel.Some? && (six ==> kernel.value.blocked6.Some?)
      ensures r.Some? ==> forall x :: x in r.value <==>
                x in if six then kernel.value.blocked6.value else kernel.value.blocked4
    {
      var fails: bool := *;
      if fails || kernel.None? || (six && kernel.value.blocked6.None?) {
        Count(true);
        return None;
      }
      var left := if six then kernel.value.blocked6.value else kernel.value.blocked4;
      ghost var all := left;
      var elements: seq<IpText> := [];
      while left != {}
        invariant forall x :: x in all <==> x in left || x in elements
        decreases left
      {
        var x :| x in left;
        left := left - {x};
        elements := elements + [x];
      }
      return Some(elements);
    }
  }

  // -------------------------------------------------------------- backend

  /** v is what reading kernel state k back must give. */
  ghost predicate ReadsAs(k: Kernel, v: seq<Addr>) {
    && k.Some? && k.value.blocked6.Some?
    && (forall x :: x in Blocking(k) ==> x.Local?)
    && Ordering.Increasing(AddrBefore, v)
    && forall a :: a in v <==> exists x :: x in Blocking(k) && x.Local? && x.addr == a
  }

  /** Both sets are there and hold local addresses only, so that a read finds nothing to refuse. */
  ghost predicate Readable(k: Kernel) {
    k.Some? && k.value.blocked6.Some? && forall x :: x in Blocking(k) ==> x.Local?
  }

  /** The target replaces what was there, or, when an existing table was taken for missing, joins it. */
  ghost predicate InPlace(before: Kernel, target: seq<Addr>, after: Kernel) {
    after == Some(Exactly(target))
    || (before.Some? && after == Effect(Install(Family(target, false), Family(target, true)), before))
  }

  /** Blocking state is untouched, or the target is in place: never anything between. */
  ghost predicate ApplyOutcome(before: Kernel, texts: seq<IpText>, after: Kernel, reliable: bool,
                               r: Result<FirewallResult, Failure>) {
    match r
    case Ok(result) =>
      && Normalize(texts).Some?
      && result.blocked == Normalize(texts).value
      && result.applied
      && (result.detail == Created || result.detail == Updated)
      && InPlace(before, result.blocked, after)
      && (reliable || before.None? || result.detail == Updated ==> after == Some(Exactly(result.blocked)))
    case Err(Raised) => Blocking(after) == Blocking(before)
    case Err(TimedOut) =>
      Blocking(after) == Blocking(before)
      || (Normalize(texts).Some? && InPlace(before, Normalize(texts).value, after)
          && (reliable ==> after == Some(Exactly(Normalize(texts).value))))
  }

  class NftablesBackend {
    const nft: Nft

    constructor (nft: Nft)
      ensures this.nft == nft
    {
      this.nft := nft;
    }

    method Apply(texts: seq<IpText>, apply: bool) returns (r: Result<FirewallResult, Failure>)
      modifies nft
      ensures !apply ==> nft.kernel == old(nft.kernel)
      ensures !apply ==> r == if Normalize(texts).None? then Err(Raised)
                              else Ok(FirewallResult(false, Normalize(texts).value, DryRun))
      ensures apply ==> ApplyOutcome(old(nft.kernel), texts, nft.kernel, nft.reliable, r)
      // A success leaves exactly the addresses, each in the set of its family, unless an existing table
      // was taken for missing.
      ensures apply && r.Ok? && (nft.reliable || old(nft.kernel).None? || r.value.detail == Updated)
              ==> SplitByFamily(nft.kernel, r.value.blocked)
      // A readable table stays readable; and when no command fails, the write goes through exactly.
      ensures Readable(old(nft.kernel)) ==> Readable(nft.kernel)
      ensures nft.failures >= old(nft.failures)
      ensures apply && nft.failures == old(nft.failures) && Normalize(texts).Some?
              ==> r.Ok? && nft.kernel == Some(Exactly(r.value.blocked))
    {
      var ips := NormalizeLocalIps(texts);
      if ips.None? {
        return Err(Raised);
      }
      var v := ips.value;
      ExactlyIsSplit(v);
      hide SplitByFamily;
      if !apply {
        return Ok(FirewallResult(false, v, DryRun));
      }
      var found := nft.Installed();
      if !found {
        return Err(Raised);
      }
      var install := Install(Family(v, false), Family(v, true));
      if Readable(nft.kernel) { EffectStaysReadable(nft.kernel, v); }
      var checked := nft.Check(install);
      if !checked.Done? {
        return Err(Failed(checked));
      }
      var existing := nft.ListTable();
      if existing.ListingLost? {
        return Err(TimedOut);
      }
      if existing.Missing? {
        var result := nft.Run(install);
        if !result.Done? {
          return Err(Failed(result));
        }
        return Ok(FirewallResult(true, v, Created));
      }
      if existing.table.blocked6.None? {
        var checkedUpgrade := nft.Check(AddSix);
        if !checkedUpgrade.Done? {
          return Err(Failed(checkedUpgrade));
        }
        var upgraded := nft.Run(AddSix);
        if !upgraded.Done? {
          return Err(Failed(upgraded));
        }
      }
      var replace := Replace(Family(v, false), Family(v, true));
      var checkedUpdate := nft.Check(replace);
      if !checkedUpdate.Done? {
        return Err(Failed(checkedUpdate));
      }
      var updated := nft.Run(replace);
      if !updated.Done? {
        return Err(Failed(updated));
      }
      return Ok(FirewallResult(true, v, Updated));
    }

    method Rollback(apply: bool) returns (r: Result<FirewallResult, Failure>)
      modifies nft
      ensures !apply ==> nft.kernel == old(nft.kernel) && r == Ok(FirewallResult(false, [], DryRun))
      ensures apply && r.Ok? ==> nft.kernel == Some(Table({}, Some({}))) && r.value == FirewallResult(true, [], Cleared)
      ensures r == Err(Raised) ==> nft.kernel == old(nft.kernel)
      ensures r == Err(TimedOut) ==> nft.kernel == old(nft.kernel) || nft.kernel == Some(Table({}, Some({})))
      // It goes through unless a command fails.
      ensures nft.failures >= old(nft.failures)
      ensures nft.failures == old(nft.failures) ==> r.Ok?
    {
      if !apply {
        return Ok(FirewallResult(false, [], DryRun));
      }
      var found := nft.Installed();
      if !found {
        return Err(Raised);
      }
      var checked := nft.Check(Replace({}, {}));
      if !checked.Done? {
        return Err(Failed(checked));
      }
      var result := nft.Run(Replace({}, {}));
      if !result.Done? {
        return Err(Failed(result));
      }
      return Ok(FirewallResult(true, [], Cleared));
    }

    method ReadBlockedIps() returns (r: Result<seq<Addr>, Failure>)
      modifies nft`failures
      ensures r.Ok? ==> ReadsAs(nft.kernel, r.value)
      ensures nft.failures >= old(nft.failures)
      ensures nft.failures == old(nft.failures) && Readable(nft.kernel) ==> r.Ok?
    {
      var found := nft.Installed();
      if !found {
        return Err(Raised);
      }
      var four := nft.ListSet(false);
      if four.None? {
        return Err(Raised);
      }
      var six := nft.ListSet(true);
      if six.None? {
        return Err(Raised);
      }
      var values := four.value + six.value;
      NormalFormMeaning(values);
      assert forall i :: 0 <= i < |values| ==> values[i] in four.value || values[i] in six.value;
      var v := NormalizeLocalIps(values);
      if v.None? {
        return Err(Raised);
      }
      ListedReadsAs(nft.kernel, four.value, six.value);
      return Ok(v.value);
    }
  }

  /** Scripts of the backend put in canonical local texts only. */
  lemma EffectStaysReadable(k: Kernel, v: seq<Addr>)
    requires Readable(k)
    ensures Readable(Effect(Install(Family(v, false), Family(v, true)), k))
    ensures Readable(Effect(Replace(Family(v, false), Family(v, true)), k))
  {
  }

  function Failed(o: Outcome): Failure {
    if o.Lost? then TimedOut else Raised
  }

  lemma ListedReadsAs(k: Kernel, four: seq<IpText>, six: seq<IpText>)
    requires k.Some? && k.value.blocked6.Some? && Normalize(four + six).Some?
    requires forall x :: x in four <==> x in k.value.blocked4
    requires forall x :: x in six <==> x in k.value.blocked6.value
    ensures ReadsAs(k, Normalize(four + six).value)
  {
    var values := four + six;
    NormalFormMeaning(values);
    forall x ensures x in Blocking(k) <==> x in values {
    }
    forall a ensures Denoted(values, a) <==> exists x :: x in Blocking(k) && x.Local? && x.addr == a {
      if Denoted(values, a) {
        var i :| 0 <= i < |values| && values[i].Local? && values[i].addr == a;
        assert values[i] in Blocking(k);
      }
      if x :| x in Blocking(k) && x.Local? && x.addr == a {
        var i :| 0 <= i < |values| && values[i] == x;
      }
    }
  }

  /** A kernel state reads back in one way. */
  lemma ReadsAsIsUnique(k: Kernel, v: seq<Addr>, w: seq<Addr>)
    requires ReadsAs(k, v) && ReadsAs(k, w)
    ensures v == w
  {
    AddrBeforeIsStrict();
    Ordering.IncreasingIsUnique(AddrBefore, v, w);
  }

  lemma FamiliesCover(v: seq<Addr>)
    ensures Blocking(Some(Exactly(v))) == set i | 0 <= i < |v| :: Canonical(v[i])
  {
  }

  /** A successful write reads back as exactly the normalised input. */
  lemma ExactlyReadsAs(texts: seq<IpText>)
    requires Normalize(texts).Some?
    ensures ReadsAs(Some(Exactly(Normalize(texts).value)), Normalize(texts).value)
  {
    var v := Normalize(texts).value;
    var k: Kernel := Some(Exactly(v));
    NormalFormMeaning(texts);
    FamiliesCover(v);
    forall a ensures a in v <==> exists x :: x in Blocking(k) && x.Local? && x.addr == a {
      if a in v {
        var i :| 0 <= i < |v| && v[i] == a;
        assert Canonical(v[i]) in Blocking(k);
      }
    }
  }

  /**
    With an unreliable listing an existing table can be taken for missing. The write then leaves
    exactly the input if and only if everything blocked before is in the input.
  */
  lemma MisreadInstallIsExactIff(before: Kernel, texts: seq<IpText>)
    requires before.Some? && Normalize(texts).Some?
    ensures var v := Normalize(texts).value;
      var after := Effect(Install(Family(v, false), Family(v, true)), before);
      Blocking(after) == Blocking(Some(Exactly(v))) <==> Blocking(before) <= Blocking(Some(Exactly(v)))
  {
  }
}
