/** Stored address text and the address it denotes. */
module Addresses {
  datatype Addr = Addr(v6: bool, value: nat)

  /**
    Stored text. Two texts can denote one address; `form` tells spellings apart and form 0 is the
    canonical `str(ip_address(...))`. Local text denotes a private or link-local address, Foreign
    text any other address, and Malformed text none at all.
  */
  datatype IpText =
    | Local(addr: Addr, form: nat)
    | Foreign(addr: Addr, form: nat)
    | Malformed(form: nat)

  function Canonical(a: Addr): IpText {
    Local(a, 0)
  }

  /** fe80::/10 */
  predicate LinkLocal6(a: Addr) {
    a.v6 && 0xFE80_0000_0000_0000_0000_0000_0000_0000 <= a.value < 0xFEC0_0000_0000_0000_0000_0000_0000_0000
  }

  /** The first ten of the 128 bits are 1111111010. */
  lemma LinkLocalPrefix(a: Addr)
    ensures LinkLocal6(a) <==> a.v6 && a.value / 0x40_0000_0000_0000_0000_0000_0000_0000 == 0x3FA
  {
  }
}
