// Exactly when a rendering that hears only some of a policy's interface classes, and reads its
// addresses as they are listed, means the same as one that hears all and canonicalises.

module Agreement {
  import opened Basics
  import opened NetAddr
  import opened Posture
  import Wfp = WfpRules

  // pf and nft know loopback by its interface, the Windows rules by its addresses.
  predicate OffLoopback(pkt: Packet) {
    !pkt.dst.Invalid? && !pkt.iface.loopback && pkt.dst !in Wfp.LOOPBACK
  }

  ghost predicate Alike(p: Policy, heard: seq<string>) {
    forall pkt: Packet | OffLoopback(pkt) :: Passes(p.(groups := heard), pkt) <==> Passes(Canonized(p), pkt)
  }

  predicate NoMapped(addrs: seq<Addr>) {
    forall a <- addrs :: !IsMapped(a)
  }

  predicate AllHeard(p: Policy, heard: seq<string>) {
    forall g <- p.groups :: g in heard
  }

  // A destination that only a tunnel, a port or a window would let through.
  predicate Unserved(p: Policy, a: Addr) {
    !a.Invalid? && a !in Wfp.LOOPBACK && a !in p.endpoints && !(p.localNetwork && IsLocal(a))
  }

  ghost predicate Agreeable(p: Policy, heard: seq<string>) {
    match p.mode
    case FullBlock =>
      && NoMapped(p.endpoints)
      && ((p.tunnels == [] && heard == []) || NoMapped(p.providers))
      && (AllHeard(p, heard) || !exists a <- Canon(p.providers) :: Unserved(p, a))
    case Guard =>
      NoMapped(p.endpoints) && (AllHeard(p, heard) || !exists a: Addr :: Unserved(p, a))
    case SwitchWindow =>
      Unrestricted(p) ||
      (NoMapped(p.endpoints) && (AllHeard(p, heard) || !exists a: Addr :: Unserved(p, a)))
  }

  // ---- witnesses ----

  function Longer(names: seq<string>): (s: string)
    ensures forall n <- names :: |n| < |s|
  {
    if |names| == 0 then "x" else names[0] + Longer(names[1..])
  }

  // An interface no policy names, of the classes given.
  function Fresh(p: Policy, classes: set<string>): (i: Iface)
    ensures i.name !in p.tunnels && !i.loopback && i.classes == classes
  {
    Iface(Longer(p.tunnels), classes, false)
  }

  function Above(ports: seq<int>): (n: int)
    ensures n > 53 && forall x <- ports :: x < n
  {
    if |ports| == 0 then 54
    else
      var n := Above(ports[1..]);
      assert ports == [ports[0]] + ports[1..];
      if ports[0] < n then n else ports[0] + 1
  }

  // A packet that no port, protocol or loopback rule takes.
  function Plain(p: Policy, i: Iface, dst: Addr): Packet {
    Packet(i, dst, OtherProto, Above(p.ports))
  }

  lemma PlainIsPlain(p: Policy, i: Iface, dst: Addr)
    ensures var pkt := Plain(p, i, dst); !IsDNS(pkt) && !InWindow(p, pkt)
  {
  }

  lemma MappedIsElsewhere(a: Addr, addrs: seq<Addr>)
    requires IsMapped(a)
    ensures !IsLocal(a) && a !in Canon(addrs) && a !in Wfp.LOOPBACK
  {
    LocalNetworkIs(0, a.v6);
    CanonMembers(addrs, a);
  }

  lemma UnmappedMembers(addrs: seq<Addr>, a: Addr)
    requires NoMapped(addrs) && !a.Invalid?
    ensures a in Canon(addrs) <==> a in addrs
  {
    CanonMembers(addrs, a);
  }

  // ---- the condition is enough ----

  lemma AgreeableIsAlike(p: Policy, heard: seq<string>)
    requires forall g <- heard :: g in p.groups
    requires Agreeable(p, heard)
    ensures Alike(p, heard)
  {
    forall pkt: Packet | OffLoopback(pkt)
      ensures Passes(p.(groups := heard), pkt) <==> Passes(Canonized(p), pkt)
    {
      AgreeOn(p, heard, pkt);
    }
  }

  lemma AgreeOn(p: Policy, heard: seq<string>, pkt: Packet)
    requires forall g <- heard :: g in p.groups
    requires Agreeable(p, heard) && OffLoopback(pkt)
    ensures Passes(p.(groups := heard), pkt) <==> Passes(Canonized(p), pkt)
  {
    hide IsLocal, Canon;
    if NoMapped(p.endpoints) { UnmappedMembers(p.endpoints, pkt.dst); }
    if NoMapped(p.providers) { UnmappedMembers(p.providers, pkt.dst); }
    assert OnClass(p.(groups := heard), pkt.iface) ==> OnClass(p, pkt.iface);
    assert AllHeard(p, heard) ==> (OnClass(p, pkt.iface) <==> OnClass(p.(groups := heard), pkt.iface));
    assert Unserved(p, pkt.dst) || pkt.dst in p.endpoints || (p.localNetwork && IsLocal(pkt.dst));
  }

  // ---- and no more than enough ----

  lemma MappedEndpointTells(p: Policy, heard: seq<string>, e: Addr)
    requires e in p.endpoints && IsMapped(e)
    requires p.mode != SwitchWindow || !Unrestricted(p)
    ensures !Alike(p, heard)
  {
    var pkt := Plain(p, Fresh(p, {}), e);
    PlainIsPlain(p, pkt.iface, e);
    MappedIsElsewhere(e, p.endpoints);
    assert OffLoopback(pkt) && Passes(p.(groups := heard), pkt) && !Passes(Canonized(p), pkt);
  }

  lemma MappedProviderTells(p: Policy, heard: seq<string>, e: Addr)
    requires p.mode == FullBlock && NoMapped(p.endpoints)
    requires e in p.providers && IsMapped(e)
    requires p.tunnels != [] || heard != []
    ensures !Alike(p, heard)
  {
    var i := if p.tunnels != [] then Iface(p.tunnels[0], {}, false) else Fresh(p, {heard[0]});
    var pkt := Plain(p, i, e);
    PlainIsPlain(p, i, e);
    MappedIsElsewhere(e, p.endpoints);
    MappedIsElsewhere(e, p.providers);
    assert OffLoopback(pkt) && Passes(p.(groups := heard), pkt) && !Passes(Canonized(p), pkt);
  }

  lemma UnheardTells(p: Policy, heard: seq<string>, g: string, a: Addr) returns (pkt: Packet)
    requires g in p.groups && g !in heard && Unserved(p, a)
    requires NoMapped(p.endpoints)
    requires p.mode == FullBlock ==> a in Canon(p.providers)
    requires p.mode != SwitchWindow || !Unrestricted(p)
    ensures pkt == Plain(p, Fresh(p, {g}), a) && OffLoopback(pkt) && pkt.dst == a
    ensures !Passes(p.(groups := heard), pkt) && Passes(Canonized(p), pkt)
  {
    pkt := Plain(p, Fresh(p, {g}), a);
    PlainIsPlain(p, pkt.iface, a);
    UnmappedMembers(p.endpoints, a);
    hide IsLocal, Canon;
    assert OnClass(p, pkt.iface) && !OnClass(p.(groups := heard), pkt.iface);
  }

  // For every policy and every part of its classes heard, the two mean the same if and only if
  // the policy is agreeable.
  lemma AlikeIff(p: Policy, heard: seq<string>)
    requires forall g <- heard :: g in p.groups
    ensures Alike(p, heard) <==> Agreeable(p, heard)
  {
    hide Passes, Unserved, Canon;
    if Agreeable(p, heard) {
      AgreeableIsAlike(p, heard);
    } else if !NoMapped(p.endpoints) {
      var e :| e in p.endpoints && IsMapped(e);
      MappedEndpointTells(p, heard, e);
    } else if p.mode == FullBlock && !NoMapped(p.providers) && (p.tunnels != [] || heard != []) {
      var e :| e in p.providers && IsMapped(e);
      MappedProviderTells(p, heard, e);
    } else {
      var g :| g in p.groups && g !in heard;
      if p.mode == FullBlock {
        var a :| a in Canon(p.providers) && Unserved(p, a);
        var _ := UnheardTells(p, heard, g, a);
      } else {
        var a: Addr :| Unserved(p, a);
        var _ := UnheardTells(p, heard, g, a);
      }
    }
  }

  // ---- there is always somewhere else to go ----

  // More addresses than any list holds, all of them public.
  const MANY: nat := 0x10_0000_0000_0000_0000_0000_0000

  function Nth(n: nat): Addr
    requires n < MANY
  {
    V6(0x2000_0000_0000_0000_0000_0000_0000_0000 + n)
  }

  lemma {:induction false} FirstNs(n: nat) returns (s: set<Addr>)
    requires n <= MANY
    ensures |s| == n && forall a :: a in s <==> exists k :: 0 <= k < n && a == Nth(k)
  {
    if n == 0 {
      s := {};
    } else {
      s := FirstNs(n - 1);
      assert Nth(n - 1) !in s;
      s := s + {Nth(n - 1)};
    }
  }

  lemma {:induction false} ListSize(addrs: seq<Addr>)
    ensures |set a | a in addrs| <= |addrs|
  {
    if |addrs| > 0 {
      ListSize(addrs[1..]);
      assert addrs == [addrs[0]] + addrs[1..];
      assert (set a | a in addrs) == (set a | a in addrs[1..]) + {addrs[0]};
    }
  }

  lemma NthIsPublic(k: nat)
    requires k < MANY
    ensures !Nth(k).Invalid? && Nth(k) !in Wfp.LOOPBACK && !IsLocal(Nth(k))
  {
    LocalNetworkIs(0, Nth(k).v6);
  }

  lemma SomewhereElse(p: Policy) returns (a: Addr)
    requires |p.endpoints| < MANY
    ensures Unserved(p, a)
  {
    var listed := set a | a in p.endpoints;
    ListSize(p.endpoints);
    var s := FirstNs(|p.endpoints| + 1);
    if s <= listed { SubsetSize(s, listed); }
    a :| a in s && a !in listed;
    var k :| 0 <= k < |p.endpoints| + 1 && a == Nth(k);
    NthIsPublic(k);
  }

  // ---- policies built from inputs ----

  // Their addresses are canonical, so only an unheard class can tell, and only where it
  // decides a packet: always under guard and in a restricted window, never in an unrestricted
  // one, and under full block if some provider is reachable no other way.
  predicate Telling(m: Mode, i: PolicyInput) {
    var p := PolicyFor(m, i);
    match p.mode
    case FullBlock => exists a <- p.providers :: Unserved(p, a)
    case Guard => true
    case SwitchWindow => !Unrestricted(p)
  }

  lemma CanonicalIsUnmapped(m: Mode, i: PolicyInput)
    ensures NoMapped(PolicyFor(m, i).endpoints) && NoMapped(PolicyFor(m, i).providers)
    ensures Canon(PolicyFor(m, i).providers) == PolicyFor(m, i).providers
  {
    CanonIsCanonical(i.endpoints);
    CanonIsCanonical(i.providers);
    CanonTwice(i.providers);
  }

  lemma {:induction false} CanonShrinks(addrs: seq<Addr>)
    ensures |Canon(addrs)| <= |addrs|
  {
    if |addrs| > 0 { CanonShrinks(addrs[..|addrs| - 1]); }
  }

  lemma InputAlikeIff(m: Mode, i: PolicyInput, heard: seq<string>)
    requires forall g <- heard :: g in i.groups
    requires |i.endpoints| < MANY
    ensures Alike(PolicyFor(m, i), heard) <==> (forall g <- i.groups :: g in heard) || !Telling(m, i)
  {
    var p := PolicyFor(m, i);
    AlikeIff(p, heard);
    CanonicalIsUnmapped(m, i);
    CanonShrinks(i.endpoints);
    var a := SomewhereElse(p);
    hide Alike, Canon, Unserved;
  }
}
