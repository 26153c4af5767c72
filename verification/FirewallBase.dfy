/** The normal form every firewall comparison uses (firewall/base.py). */
module FirewallBase {
  import opened Prelude
  import opened Addresses
  import opened Ordering

  /** Sort key (version, integer value). */
  predicate AddrBefore(a: Addr, b: Addr) {
    (!a.v6 && b.v6) || (a.v6 == b.v6 && a.value < b.value)
  }

  /** Addresses of the texts, or None when some text is malformed or not local. */
  function AddrsOf(values: seq<IpText>): Option<seq<Addr>> {
    if values == [] then Some([])
    else
      var init, last := AddrsOf(values[..|values| - 1]), values[|values| - 1];
      if init.None? || !last.Local? then None else Some(init.value + [last.addr])
  }

  function Normalize(values: seq<IpText>): Option<seq<Addr>> {
    var addrs := AddrsOf(values);
    if addrs.None? then None else Some(Sort(AddrBefore, Dedup(addrs.value)))
  }

  method NormalizeLocalIps(values: seq<IpText>) returns (r: Option<seq<Addr>>)
    ensures r == Normalize(values)
  {
    var out: seq<Addr> := [];
    ghost var all: seq<Addr> := [];
    for i := 0 to |values|
      invariant AddrsOf(values[..i]) == Some(all) && out == Dedup(all)
    {
      assert values[..i + 1][..i] == values[..i];
      if !values[i].Local? {
        OneForeignSpoilsAll(values, i);
        return None;
      }
      DedupAppend(all, values[i].addr);
      all := all + [values[i].addr];
      if values[i].addr !in out {
        out := out + [values[i].addr];
      }
    }
    assert values[..|values|] == values;
    return Some(Sort(AddrBefore, out));
  }

  lemma {:induction false} OneForeignSpoilsAll(values: seq<IpText>, i: nat)
    requires i < |values| && !values[i].Local?
    ensures AddrsOf(values).None?
  {
    if i < |values| - 1 { OneForeignSpoilsAll(values[..|values| - 1], i); }
  }

  /** Some text among values denotes the local address a. */
  predicate Denoted(values: seq<IpText>, a: Addr) {
    exists i :: 0 <= i < |values| && values[i].Local? && values[i].addr == a
  }

  lemma {:induction false} AddrsOfMembers(values: seq<IpText>)
    ensures AddrsOf(values).Some? <==> forall i :: 0 <= i < |values| ==> values[i].Local?
    ensures AddrsOf(values).Some? ==> forall a :: a in AddrsOf(values).value <==> Denoted(values, a)
  {
    if values != [] {
      var n := |values| - 1;
      var init := values[..n];
      AddrsOfMembers(init);
      if !values[n].Local? || AddrsOf(init).None? {
      } else {
        forall a ensures a in AddrsOf(values).value <==> Denoted(values, a) {
          if Denoted(values, a) {
            var i :| 0 <= i < |values| && values[i].Local? && values[i].addr == a;
            assert i < n ==> init[i] == values[i];
          }
          if Denoted(init, a) {
            var i :| 0 <= i < |init| && init[i].Local? && init[i].addr == a;
            assert values[i] == init[i];
          }
        }
      }
    }
  }

  lemma AddrBeforeIsStrict()
    ensures StrictOrder(AddrBefore)
  {
  }

  /** v lists exactly the addresses satisfying `in_`, in increasing order. */
  ghost predicate IsNormalForm(v: seq<Addr>, values: seq<IpText>) {
    Increasing(AddrBefore, v) && forall a :: a in v <==> Denoted(values, a)
  }

  /** The normal form exists iff all texts are local; it is the increasing list of what they denote. */
  lemma NormalFormMeaning(values: seq<IpText>)
    ensures Normalize(values).Some? <==> forall i :: 0 <= i < |values| ==> values[i].Local?
    ensures forall v :: Normalize(values) == Some(v) ==> IsNormalForm(v, values)
  {
    AddrsOfMembers(values);
    if AddrsOf(values).Some? {
      var distinct := Dedup(AddrsOf(values).value);
      AddrBeforeIsStrict();
      DedupBasics(AddrsOf(values).value);
      SortIncreasing(AddrBefore, distinct);
      SortKeeps(AddrBefore, distinct);
    }
  }

  /** IPv4 comes first, and within a family the lower address. */
  lemma NormalFormOrder(values: seq<IpText>, i: nat, j: nat)
    requires Normalize(values).Some? && i < j < |Normalize(values).value|
    ensures var a, b := Normalize(values).value[i], Normalize(values).value[j];
            if a.v6 == b.v6 then a.value < b.value else !a.v6
  {
    NormalFormMeaning(values);
  }

  /** The normal form depends on the set of addresses alone, not on order, repetition or spelling. */
  lemma NormalFormIsCanonical(a: seq<IpText>, b: seq<IpText>)
    requires Normalize(a).Some? && Normalize(b).Some?
    ensures Normalize(a) == Normalize(b) <==> forall x :: Denoted(a, x) <==> Denoted(b, x)
  {
    NormalFormMeaning(a);
    NormalFormMeaning(b);
    AddrBeforeIsStrict();
    if forall x :: Denoted(a, x) <==> Denoted(b, x) {
      IncreasingIsUnique(AddrBefore, Normalize(a).value, Normalize(b).value);
    } else {
      var x :| Denoted(a, x) != Denoted(b, x);
      assert x in Normalize(a).value <==> Denoted(a, x);
    }
  }

  function Texts(v: seq<Addr>): seq<IpText> {
    seq(|v|, i requires 0 <= i < |v| => Canonical(v[i]))
  }

  /** Normalising a normal form changes nothing. */
  lemma NormalizeIsIdempotent(values: seq<IpText>)
    requires Normalize(values).Some?
    ensures Normalize(Texts(Normalize(values).value)) == Normalize(values)
  {
    var v := Normalize(values).value;
    NormalFormMeaning(values);
    NormalFormMeaning(Texts(v));
    forall x ensures Denoted(Texts(v), x) <==> x in v {
      if x in v {
        var i :| 0 <= i < |v| && v[i] == x;
        assert Texts(v)[i].addr == x;
      }
    }
    NormalFormIsCanonical(values, Texts(v));
  }
}
