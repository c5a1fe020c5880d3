// The Windows Filtering Platform rendering of a policy: allow rules over the profile's
// default outbound action.

module WfpRules {
  import opened NetAddr
  import opened Posture

  datatype Alias = AnyAlias | Aliases(names: seq<string>)

  datatype Remote = AnyRemote | Addresses(addrs: seq<Addr>) | Cidrs(nets: seq<Prefix>)

  datatype L4 = AnyProto | RemotePort(proto: Proto, port: int)

  datatype Rule = Allow(alias: Alias, remote: Remote, l4: L4)

  datatype Action = AllowAll | BlockAll

  predicate Matches(r: Rule, pkt: Packet) {
    && (r.alias.Aliases? ==> pkt.iface.name in r.alias.names)
    && (match r.remote
        case AnyRemote => true
        case Addresses(s) => pkt.dst in s
        case Cidrs(ns) => exists n <- ns :: Contains(n, pkt.dst))
    && (r.l4.RemotePort? ==> pkt.proto == r.l4.proto && pkt.port == r.l4.port)
  }

  predicate AnyAllow(rules: seq<Rule>, pkt: Packet) {
    |rules| > 0 && (AnyAllow(rules[..|rules| - 1], pkt) || Matches(rules[|rules| - 1], pkt))
  }

  // Some allow rule, or else the default.
  predicate Allows(rules: seq<Rule>, default_: Action, pkt: Packet) {
    AnyAllow(rules, pkt) || default_ == AllowAll
  }

  const LOOPBACK: seq<Addr> := [V4(0x7f00_0001), V6(1)]

  function ExpectedOutboundAction(p: Policy): Action {
    if p.mode == SwitchWindow && |p.protos| == 0 && |p.ports| == 0 then AllowAll else BlockAll
  }

  // Only exact aliases can be named here, so groups have no meaning.
  function NamedOnly(p: Policy): Policy {
    p.(groups := [])
  }

  predicate OnTheWire(pkt: Packet) {
    !pkt.dst.Invalid?
  }

  // Addresses as the script lists them: unmapped, one by one.
  method ListAddrs(addrs: seq<Addr>) returns (list: seq<Addr>)
    ensures |list| == |addrs|
    ensures forall a: Addr :: !a.Invalid? ==> (a in list <==> a in Canon(addrs))
  {
    list := [];
    for i := 0 to |addrs|
      invariant |list| == i
      invariant forall a: Addr :: !a.Invalid? ==> (a in list <==> a in Canon(addrs[..i]))
    {
      assert addrs[..i + 1][..i] == addrs[..i];
      list := list + [Unmap(addrs[i])];
    }
    assert addrs[..|addrs|] == addrs;
  }

  class Script {
    var rules: seq<Rule>

    constructor ()
      ensures rules == []
    {
      rules := [];
    }

    method Add(alias: Alias, remote: Remote, l4: L4)
      modifies this
      ensures forall pkt: Packet ::
                AnyAllow(rules, pkt) <==> AnyAllow(old(rules), pkt) || Matches(Allow(alias, remote, l4), pkt)
    {
      rules := rules + [Allow(alias, remote, l4)];
      assert rules[..|rules| - 1] == old(rules);
    }

    method EmitTunnels(p: Policy)
      modifies this
      ensures forall pkt: Packet ::
                AnyAllow(rules, pkt) <==> AnyAllow(old(rules), pkt) || OnNamed(p, pkt.iface)
    {
      if |p.tunnels| > 0 {
        Add(Aliases(p.tunnels), AnyRemote, AnyProto);
      }
    }

    method EmitEndpoints(p: Policy)
      modifies this
      ensures forall pkt: Packet :: OnTheWire(pkt) ==>
                (AnyAllow(rules, pkt) <==> AnyAllow(old(rules), pkt) || pkt.dst in Canon(p.endpoints))
    {
      var list := ListAddrs(p.endpoints);
      if |list| > 0 {
        Add(AnyAlias, Addresses(list), AnyProto);
      }
    }

    method EmitDNS()
      modifies this
      ensures forall pkt: Packet :: AnyAllow(rules, pkt) <==> AnyAllow(old(rules), pkt) || IsDNS(pkt)
    {
      Add(AnyAlias, AnyRemote, RemotePort(Udp, 53));
      Add(AnyAlias, AnyRemote, RemotePort(Tcp, 53));
    }

    method EmitLocalNetworkRules(p: Policy)
      modifies this
      ensures forall pkt: Packet ::
                AnyAllow(rules, pkt) <==> AnyAllow(old(rules), pkt) || (p.localNetwork && IsLocal(pkt.dst))
    {
      if p.localNetwork {
        Add(AnyAlias, Cidrs(LOCAL_NETWORK), AnyProto);
      }
    }

    method EmitTunnelProviderRules(p: Policy)
      modifies this
      ensures forall pkt: Packet :: OnTheWire(pkt) ==>
                (AnyAllow(rules, pkt) <==>
                   AnyAllow(old(rules), pkt) || (OnNamed(p, pkt.iface) && pkt.dst in Canon(p.providers)))
    {
      if |p.providers| == 0 || |p.tunnels| == 0 {
        return;
      }
      var list := ListAddrs(p.providers);
      Add(Aliases(p.tunnels), Addresses(list), AnyProto);
    }

    method EmitWindowPortRules(p: Policy)
      modifies this
      ensures forall pkt: Packet :: AnyAllow(rules, pkt) <==> AnyAllow(old(rules), pkt) || InWindow(p, pkt)
    {
      var protos := p.protos;
      if |protos| == 0 {
        protos := [Udp, Tcp];
      }
      for i := 0 to |protos|
        invariant forall pkt: Packet :: AnyAllow(rules, pkt) <==>
                    AnyAllow(old(rules), pkt) || (pkt.proto in protos[..i] && pkt.port in p.ports)
      {
        ghost var outer := rules;
        for j := 0 to |p.ports|
          invariant forall pkt: Packet :: AnyAllow(rules, pkt) <==>
                      AnyAllow(outer, pkt) || (pkt.proto == protos[i] && pkt.port in p.ports[..j])
        {
          Add(AnyAlias, AnyRemote, RemotePort(protos[i], p.ports[j]));
          assert p.ports[..j + 1] == p.ports[..j] + [p.ports[j]];
        }
        assert p.ports[..|p.ports|] == p.ports;
        assert protos[..i + 1] == protos[..i] + [protos[i]];
      }
      assert protos[..|protos|] == protos;
    }
  }

  // The promise of `p`, groups aside and its addresses canonical, on top of loopback.
  ghost predicate Renders(rules: seq<Rule>, default_: Action, p: Policy) {
    forall pkt: Packet :: OnTheWire(pkt) ==>
      (Allows(rules, default_, pkt) <==> pkt.dst in LOOPBACK || Passes(NamedOnly(Canonized(p)), pkt))
  }

  lemma CanonizedKeepsTheRest(p: Policy)
    ensures forall i: Iface :: OnNamed(p, i) <==> OnTunnel(NamedOnly(Canonized(p)), i)
    ensures forall pkt: Packet :: InWindow(p, pkt) <==> InWindow(NamedOnly(Canonized(p)), pkt)
  {
  }

  method RenderBlockScript(p: Policy) returns (rules: seq<Rule>, default_: Action)
    ensures default_ == AllowAll <==> p.mode == SwitchWindow && Unrestricted(p)
    ensures Renders(rules, default_, p)
  {
    var c := new Script();
    c.Add(AnyAlias, Addresses(LOOPBACK), AnyProto);
    default_ := ExpectedOutboundAction(p);
    assert forall pkt: Packet :: AnyAllow(c.rules, pkt) <==> pkt.dst in LOOPBACK;
    CanonizedKeepsTheRest(p);
    hide AnyAllow, Canon, IsLocal, InWindow, OnTunnel, OnNamed, IsDNS;
    match p.mode {
      case SwitchWindow =>
        if |p.protos| == 0 && |p.ports| == 0 {
          assert Renders(c.rules, default_, p);
        } else {
          c.EmitTunnels(p);
          c.EmitEndpoints(p);
          c.EmitDNS();
          c.EmitLocalNetworkRules(p);
          c.EmitWindowPortRules(p);
          assert Renders(c.rules, default_, p);
        }
      case Guard =>
        c.EmitTunnels(p);
        c.EmitEndpoints(p);
        if p.physicalDNS {
          c.EmitDNS();
        }
        c.EmitLocalNetworkRules(p);
        assert Renders(c.rules, default_, p);
      case FullBlock =>
        c.EmitEndpoints(p);
        c.EmitTunnelProviderRules(p);
        if p.physicalDNS {
          c.EmitDNS();
        }
        c.EmitLocalNetworkRules(p);
        assert Renders(c.rules, default_, p);
    }
    rules := c.rules;
  }
}
