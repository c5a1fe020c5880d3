// IP addresses and prefixes, as far as net/netip lets the rest of the program see them.
// Zones are not modelled.

module NetAddr {

  type u32 = n: int | 0 <= n < 0x1_0000_0000
  type u128 = n: int | 0 <= n < 0x1_0000_0000_0000_0000_0000_0000_0000_0000

  datatype Addr = Invalid | V4(v4: u32) | V6(v6: u128)

  // The start of ::ffff:0:0/96, the IPv4-mapped addresses of section 2.5.5.2 of RFC 4291.
  const MAPPED: int := 0xffff_0000_0000

  predicate IsMapped(a: Addr) {
    a.V6? && MAPPED <= a.v6 < MAPPED + 0x1_0000_0000
  }

  function Unmap(a: Addr): Addr {
    if IsMapped(a) then V4(a.v6 - MAPPED) else a
  }

  // ::ffff:a.b.c.d is a.b.c.d, and nothing else changes.
  lemma UnmapIs(n: u32, a: Addr)
    ensures Unmap(V6(0xffff_0000_0000 + n)) == V4(n)
    ensures !(a.V6? && 0xffff_0000_0000 <= a.v6 <= 0xffff_ffff_ffff) ==> Unmap(a) == a
  {
  }

  predicate Canonical(a: Addr) {
    !a.Invalid? && !IsMapped(a)
  }

  // netip's order: shorter families first, then by value.
  predicate Less(a: Addr, b: Addr) {
    match (a, b)
    case (V4(x), V4(y)) => x < y
    case (V6(x), V6(y)) => x < y
    case (Invalid, V4(_)) => true
    case (Invalid, V6(_)) => true
    case (V4(_), V6(_)) => true
    case _ => false
  }

  // An address's place in that order.
  function Rank(a: Addr): int {
    match a
    case Invalid => -1
    case V4(n) => n
    case V6(n) => 0x1_0000_0000 + n
  }

  lemma LessIs(a: Addr, b: Addr)
    ensures Less(a, b) <==> Rank(a) < Rank(b)
  {
  }

  type pos = n: int | 0 < n witness 1

  // A prefix as a base address and the number of addresses it spans: 10.0.0.0/8 spans 2^24.
  datatype Prefix = Net4(base4: u32, span4: pos) | Net6(base6: u128, span6: pos)

  // A prefix never matches across families.
  predicate Contains(p: Prefix, a: Addr) {
    match (p, a)
    case (Net4(base, span), V4(n)) => n / span == base / span
    case (Net6(base, span), V6(n)) => n / span == base / span
    case _ => false
  }
}
