// The nftables rendering of a policy: accept rules appended to an output chain whose
// policy is drop.

module NftRules {
  import opened NetAddr
  import opened Posture

  datatype Oif = AnyInterface | Lo | NameSet(names: seq<string>) | Wildcard(class_: string)

  // nft's address matchers are per family.
  datatype Daddr =
    | Anywhere
    | Ip(v4: seq<Addr>)
    | Ip6(v6: seq<Addr>)
    | IpNets(nets4: seq<Prefix>)
    | Ip6Nets(nets6: seq<Prefix>)

  datatype L4 = AnyProto | Dport(proto: Proto, port: int)

  datatype Rule = Accept(oif: Oif, daddr: Daddr, l4: L4)

  predicate OifMatches(o: Oif, i: Iface) {
    match o
    case AnyInterface => true
    case Lo => i.loopback
    case NameSet(ns) => i.name in ns
    case Wildcard(c) => c in i.classes
  }

  predicate DaddrMatches(d: Daddr, dst: Addr) {
    match d
    case Anywhere => true
    case Ip(s) => dst.V4? && dst in s
    case Ip6(s) => dst.V6? && dst in s
    case IpNets(ns) => dst.V4? && exists n <- ns :: Contains(n, dst)
    case Ip6Nets(ns) => dst.V6? && exists n <- ns :: Contains(n, dst)
  }

  predicate Matches(r: Rule, pkt: Packet) {
    && OifMatches(r.oif, pkt.iface)
    && DaddrMatches(r.daddr, pkt.dst)
    && (r.l4.Dport? ==> pkt.proto == r.l4.proto && pkt.port == r.l4.port)
  }

  // The chain: the first accept that matches ends it; past the last rule, drop.
  predicate Accepts(rules: seq<Rule>, pkt: Packet) {
    |rules| > 0 && (Accepts(rules[..|rules| - 1], pkt) || Matches(rules[|rules| - 1], pkt))
  }

  predicate AnyOif(oifs: seq<Oif>, i: Iface) {
    |oifs| > 0 && (AnyOif(oifs[..|oifs| - 1], i) || OifMatches(oifs[|oifs| - 1], i))
  }

  // Packets on the wire carry a destination.
  predicate OnTheWire(pkt: Packet) {
    !pkt.dst.Invalid?
  }

  method SplitAddrFamilies(addrs: seq<Addr>) returns (v4: seq<Addr>, v6: seq<Addr>)
    ensures forall a :: a in v4 <==> a.V4? && a in Canon(addrs)
    ensures forall a :: a in v6 <==> a.V6? && a in Canon(addrs)
  {
    v4, v6 := [], [];
    for i := 0 to |addrs|
      invariant forall a :: a in v4 <==> a.V4? && a in Canon(addrs[..i])
      invariant forall a :: a in v6 <==> a.V6? && a in Canon(addrs[..i])
    {
      assert addrs[..i + 1][..i] == addrs[..i];
      var a := Unmap(addrs[i]);
      if a.V4? {
        v4 := v4 + [a];
      } else if a.V6? {
        v6 := v6 + [a];
      }
    }
    assert addrs[..|addrs|] == addrs;
  }

  class Chain {
    var rules: seq<Rule>

    constructor ()
      ensures rules == []
    {
      rules := [];
    }

    method Add(oif: Oif, daddr: Daddr, l4: L4)
      modifies this
      ensures rules == old(rules) + [Accept(oif, daddr, l4)]
      ensures forall pkt: Packet ::
                Accepts(rules, pkt) <==> Accepts(old(rules), pkt) || Matches(Accept(oif, daddr, l4), pkt)
    {
      rules := rules + [Accept(oif, daddr, l4)];
      assert rules[..|rules| - 1] == old(rules);
    }

    method EmitTunnels(p: Policy)
      modifies this
      ensures forall pkt: Packet ::
                Accepts(rules, pkt) <==> Accepts(old(rules), pkt) || OnTunnel(p, pkt.iface)
    {
      if |p.tunnels| > 0 {
        Add(NameSet(p.tunnels), Anywhere, AnyProto);
      }
      for i := 0 to |p.groups|
        invariant forall pkt: Packet :: Accepts(rules, pkt) <==>
                    || Accepts(old(rules), pkt)
                    || OnNamed(p, pkt.iface)
                    || (exists g <- p.groups[..i] :: g in pkt.iface.classes)
      {
        Add(Wildcard(p.groups[i]), Anywhere, AnyProto);
        assert p.groups[..i + 1] == p.groups[..i] + [p.groups[i]];
      }
      assert p.groups[..|p.groups|] == p.groups;
    }

    method EmitDaddrAccepts(addrs: seq<Addr>)
      modifies this
      ensures forall pkt: Packet :: OnTheWire(pkt) ==>
                (Accepts(rules, pkt) <==> Accepts(old(rules), pkt) || pkt.dst in Canon(addrs))
    {
      var v4, v6 := SplitAddrFamilies(addrs);
      if |v4| > 0 {
        Add(AnyInterface, Ip(v4), AnyProto);
      }
      if |v6| > 0 {
        Add(AnyInterface, Ip6(v6), AnyProto);
      }
    }

    method EmitDNS()
      modifies this
      ensures forall pkt: Packet ::
                Accepts(rules, pkt) <==> Accepts(old(rules), pkt) || IsDNS(pkt)
    {
      Add(AnyInterface, Anywhere, Dport(Udp, 53));
      Add(AnyInterface, Anywhere, Dport(Tcp, 53));
    }

    method EmitLocalNetwork(p: Policy)
      modifies this
      ensures forall pkt: Packet :: OnTheWire(pkt) ==>
                (Accepts(rules, pkt) <==> Accepts(old(rules), pkt) || (p.localNetwork && IsLocal(pkt.dst)))
    {
      if !p.localNetwork {
        return;
      }
      var v4 := LocalNetworkPrefixesFor(false);
      var v6 := LocalNetworkPrefixesFor(true);
      if |v4| > 0 {
        Add(AnyInterface, IpNets(v4), AnyProto);
      }
      if |v6| > 0 {
        Add(AnyInterface, Ip6Nets(v6), AnyProto);
      }
    }

    // Every tunnel matcher gets the pass, named interfaces as one set and each class alone.
    method EmitTunnelProviders(p: Policy)
      modifies this
      ensures forall pkt: Packet :: OnTheWire(pkt) ==>
                (Accepts(rules, pkt) <==>
                   Accepts(old(rules), pkt) || (OnTunnel(p, pkt.iface) && pkt.dst in Canon(p.providers)))
    {
      if |p.providers| == 0 {
        return;
      }
      var oifs: seq<Oif> := [];
      if |p.tunnels| > 0 {
        oifs := [NameSet(p.tunnels)];
      }
      for i := 0 to |p.groups|
        invariant forall f: Iface :: AnyOif(oifs, f) <==>
                    OnNamed(p, f) || exists g <- p.groups[..i] :: g in f.classes
      {
        ghost var before := oifs;
        oifs := oifs + [Wildcard(p.groups[i])];
        assert oifs[..|oifs| - 1] == before;
        assert p.groups[..i + 1] == p.groups[..i] + [p.groups[i]];
      }
      assert p.groups[..|p.groups|] == p.groups;
      if |oifs| == 0 {
        return;
      }
      var v4, v6 := SplitAddrFamilies(p.providers);
      for i := 0 to |oifs|
        invariant forall pkt: Packet :: OnTheWire(pkt) ==>
                    (Accepts(rules, pkt) <==>
                       || Accepts(old(rules), pkt)
                       || (pkt.dst in Canon(p.providers) && AnyOif(oifs[..i], pkt.iface)))
      {
        assert oifs[..i + 1][..i] == oifs[..i];
        if |v4| > 0 {
          Add(oifs[i], Ip(v4), AnyProto);
        }
        if |v6| > 0 {
          Add(oifs[i], Ip6(v6), AnyProto);
        }
      }
      assert oifs[..|oifs|] == oifs;
    }

    method EmitWindowPortAccepts(p: Policy)
      modifies this
      ensures forall pkt: Packet ::
                Accepts(rules, pkt) <==> Accepts(old(rules), pkt) || InWindow(p, pkt)
    {
      var protos := p.protos;
      if |protos| == 0 {
        protos := [Udp, Tcp];
      }
      for i := 0 to |protos|
        invariant forall pkt: Packet :: Accepts(rules, pkt) <==>
                    Accepts(old(rules), pkt) || (pkt.proto in protos[..i] && pkt.port in p.ports)
      {
        ghost var outer := rules;
        for j := 0 to |p.ports|
          invariant forall pkt: Packet :: Accepts(rules, pkt) <==>
                      Accepts(outer, pkt) || (pkt.proto == protos[i] && pkt.port in p.ports[..j])
        {
          Add(AnyInterface, Anywhere, Dport(protos[i], p.ports[j]));
          assert p.ports[..j + 1] == p.ports[..j] + [p.ports[j]];
        }
        assert p.ports[..|p.ports|] == p.ports;
        assert protos[..i + 1] == protos[..i] + [protos[i]];
      }
      assert protos[..|protos|] == protos;
    }
  }

  // The promise of `p`, its addresses canonical, on top of loopback.
  ghost predicate Renders(rules: seq<Rule>, p: Policy) {
    forall pkt: Packet :: OnTheWire(pkt) ==>
      (Accepts(rules, pkt) <==> pkt.iface.loopback || Passes(Canonized(p), pkt))
  }

  lemma CanonizedKeepsTheRest(p: Policy)
    ensures forall i: Iface :: OnTunnel(p, i) <==> OnTunnel(Canonized(p), i)
    ensures forall pkt: Packet :: InWindow(p, pkt) <==> InWindow(Canonized(p), pkt)
  {
  }

  // The chain accepts loopback, and off it exactly what the policy promises once its
  // addresses are canonical, whether or not they came that way.
  method RenderNftRuleset(p: Policy) returns (rules: seq<Rule>)
    ensures Renders(rules, p)
  {
    var c := new Chain();
    c.Add(Lo, Anywhere, AnyProto);
    assert forall pkt: Packet :: Accepts(c.rules, pkt) <==> pkt.iface.loopback;
    CanonizedKeepsTheRest(p);
    hide Accepts, Canon, IsLocal, InWindow, OnTunnel, IsDNS;
    match p.mode {
      case SwitchWindow =>
        if |p.protos| == 0 && |p.ports| == 0 {
          c.Add(AnyInterface, Anywhere, AnyProto);
          assert Renders(c.rules, p);
        } else {
          c.EmitTunnels(p);
          c.EmitDaddrAccepts(p.endpoints);
          c.EmitDNS();
          c.EmitLocalNetwork(p);
          c.EmitWindowPortAccepts(p);
          assert Renders(c.rules, p);
        }
      case Guard =>
        c.EmitTunnels(p);
        c.EmitDaddrAccepts(p.endpoints);
        if p.physicalDNS {
          c.EmitDNS();
        }
        c.EmitLocalNetwork(p);
        assert Renders(c.rules, p);
      case FullBlock =>
        c.EmitDaddrAccepts(p.endpoints);
        c.EmitTunnelProviders(p);
        if p.physicalDNS {
          c.EmitDNS();
        }
        c.EmitLocalNetwork(p);
        assert Renders(c.rules, p);
    }
    rules := c.rules;
  }
}
