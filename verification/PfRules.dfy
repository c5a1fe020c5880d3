// The pf rendering of a policy: a first-match list of quick passes over a default block.

module PfRules {
  import opened NetAddr
  import opened Posture
  import opened Text

  datatype On = AnyInterface | LoopbackOnly | Names(names: seq<string>) | Groups(groups: seq<string>)
    | NamesAndGroups(names: seq<string>, groups: seq<string>)

  datatype To = Anywhere | Hosts(hosts: seq<Addr>) | Nets(nets: seq<Prefix>)

  // Empty `protos` and `ports` match anything.
  datatype Rule =
    | Pass(quick: bool, on: On, to: To, protos: seq<Proto>, ports: seq<int>)
    | Block

  predicate InGroups(gs: seq<string>, i: Iface) {
    exists g <- gs :: g in i.classes
  }

  predicate OnMatches(on: On, i: Iface) {
    match on
    case AnyInterface => true
    case LoopbackOnly => i.loopback
    case Names(ns) => i.name in ns
    case Groups(gs) => InGroups(gs, i)
    case NamesAndGroups(ns, gs) => i.name in ns || InGroups(gs, i)
  }

  // pf reads each address's family off the address itself, so ::ffff:1.2.3.4 is an inet6
  // destination and no IPv4 packet matches it.
  predicate ToMatches(to: To, dst: Addr) {
    match to
    case Anywhere => true
    case Hosts(hs) => dst in hs
    case Nets(ns) => exists n <- ns :: Contains(n, dst)
  }

  predicate Matches(r: Rule, pkt: Packet) {
    match r
    case Block => true
    case Pass(_, on, to, protos, ports) =>
      && OnMatches(on, pkt.iface)
      && ToMatches(to, pkt.dst)
      && (protos == [] || pkt.proto in protos)
      && (ports == [] || pkt.port in ports)
  }

  // pf's own rule: the last match decides, unless a matching rule is quick; with no match
  // the packet passes.
  predicate Verdict(rules: seq<Rule>, pkt: Packet) {
    Scan(rules, pkt, true)
  }

  predicate Scan(rules: seq<Rule>, pkt: Packet, sofar: bool) {
    if |rules| == 0 then sofar
    else if !Matches(rules[0], pkt) then Scan(rules[1..], pkt, sofar)
    else if rules[0].Pass? && rules[0].quick then true
    else Scan(rules[1..], pkt, rules[0].Pass?)
  }

  // Some pass in the list takes the packet.
  predicate Taken(rules: seq<Rule>, pkt: Packet) {
    exists r <- rules :: Matches(r, pkt)
  }

  predicate QuickPasses(rules: seq<Rule>) {
    forall r <- rules :: r.Pass? && r.quick
  }

  // Quick passes over a default block pass what some quick pass takes.
  lemma {:induction false} VerdictOverBlock(rules: seq<Rule>, pkt: Packet, sofar: bool)
    requires QuickPasses(rules)
    ensures Scan(rules + [Block], pkt, sofar) <==> Taken(rules, pkt)
  {
    var all := rules + [Block];
    if |rules| == 0 {
      assert all == [Block] && all[1..] == [];
    } else {
      assert all[0] == rules[0] && all[1..] == rules[1..] + [Block];
      VerdictOverBlock(rules[1..], pkt, sofar);
      assert rules == [rules[0]] + rules[1..];
    }
  }

  // ---- text ----

  // The names left when a space-joined list is read back: blanks vanish.
  function Words(names: seq<string>): seq<string> {
    if |names| == 0 then []
    else (if names[0] == "" then [] else [names[0]]) + Words(names[1..])
  }

  lemma JoinedIsBlank(names: seq<string>)
    ensures Join(names, " ") == "" ==> Words(names) == []
  {
    if |names| == 1 { assert names[1..] == []; }
  }

  lemma {:induction false} WordsAreNames(names: seq<string>)
    ensures forall n :: n in Words(names) <==> n in names && n != ""
  {
    if |names| > 0 {
      WordsAreNames(names[1..]);
      assert names == [names[0]] + names[1..];
    }
  }

  // What pf can see of a policy's groups.
  function Worded(p: Policy): Policy {
    p.(groups := Words(p.groups))
  }

  // ---- the renderer ----

  function PassQuick(on: On, to: To, protos: seq<Proto>, ports: seq<int>): Rule {
    Pass(true, on, to, protos, ports)
  }

  function WindowProtoSet(protos: seq<Proto>): seq<Proto> {
    if protos == [] then [Udp, Tcp] else protos
  }

  // Adding one pass adds what it matches.
  lemma TakenMore(rules: seq<Rule>, r: Rule)
    ensures forall pkt: Packet :: Taken(rules + [r], pkt) <==> Taken(rules, pkt) || Matches(r, pkt)
  {
  }

  // One more quick pass written to the ruleset.
  method Emit(before: seq<Rule>, on: On, to: To, protos: seq<Proto>, ports: seq<int>) returns (rules: seq<Rule>)
    requires QuickPasses(before)
    ensures QuickPasses(rules)
    ensures forall pkt: Packet ::
              Taken(rules, pkt) <==> Taken(before, pkt) || Matches(PassQuick(on, to, protos, ports), pkt)
  {
    TakenMore(before, PassQuick(on, to, protos, ports));
    rules := before + [PassQuick(on, to, protos, ports)];
  }

  method EmitTunnels(before: seq<Rule>, p: Policy) returns (rules: seq<Rule>)
    requires QuickPasses(before)
    ensures QuickPasses(rules)
    ensures forall pkt: Packet :: Taken(rules, pkt) <==> Taken(before, pkt) || OnTunnel(Worded(p), pkt.iface)
  {
    rules := before;
    if |p.tunnels| > 0 {
      rules := Emit(rules, Names(p.tunnels), Anywhere, [], []);
    }
    JoinedIsBlank(p.groups);
    if Join(p.groups, " ") != "" {
      rules := Emit(rules, Groups(Words(p.groups)), Anywhere, [], []);
    }
  }

  method EmitEndpoints(before: seq<Rule>, p: Policy) returns (rules: seq<Rule>)
    requires QuickPasses(before)
    ensures QuickPasses(rules)
    ensures forall pkt: Packet :: Taken(rules, pkt) <==> Taken(before, pkt) || pkt.dst in p.endpoints
  {
    rules := before;
    if |p.endpoints| > 0 {
      rules := Emit(rules, AnyInterface, Hosts(p.endpoints), [], []);
    }
  }

  method EmitDNS(before: seq<Rule>) returns (rules: seq<Rule>)
    requires QuickPasses(before)
    ensures QuickPasses(rules)
    ensures forall pkt: Packet :: Taken(rules, pkt) <==> Taken(before, pkt) || IsDNS(pkt)
  {
    rules := Emit(before, AnyInterface, Anywhere, [Udp, Tcp], [53]);
  }

  method EmitLocalNetwork(before: seq<Rule>, p: Policy) returns (rules: seq<Rule>)
    requires QuickPasses(before)
    ensures QuickPasses(rules)
    ensures forall pkt: Packet :: Taken(rules, pkt) <==> Taken(before, pkt) || (p.localNetwork && IsLocal(pkt.dst))
  {
    rules := before;
    if p.localNetwork {
      rules := Emit(before, AnyInterface, Nets(LOCAL_NETWORK), [], []);
    }
  }

  method EmitTunnelProviders(before: seq<Rule>, p: Policy) returns (rules: seq<Rule>)
    requires QuickPasses(before)
    ensures QuickPasses(rules)
    ensures forall pkt: Packet :: Taken(rules, pkt) <==>
              Taken(before, pkt) || (OnTunnel(Worded(p), pkt.iface) && pkt.dst in p.providers)
  {
    rules := before;
    WordsAreNames(p.groups);
    if |p.tunnels| + |p.groups| != 0 && |p.providers| != 0 {
      rules := Emit(before, NamesAndGroups(p.tunnels, Words(p.groups)), Hosts(p.providers), [], []);
    }
  }

  // The ruleset passes off-loopback exactly what the policy promises, as far as pf can read
  // its groups, and passes loopback always.
  method RenderRuleset(p: Policy) returns (rules: seq<Rule>)
    ensures forall pkt: Packet :: !pkt.iface.loopback ==> (Verdict(rules, pkt) <==> Passes(Worded(p), pkt))
    ensures forall pkt: Packet :: pkt.iface.loopback ==> Verdict(rules, pkt)
  {
    var b: seq<Rule> := [];
    b := Emit(b, LoopbackOnly, Anywhere, [], []);
    match p.mode {
      case SwitchWindow =>
        if |p.protos| == 0 && |p.ports| == 0 {
          b := Emit(b, AnyInterface, Anywhere, [], []);
        } else {
          b := EmitTunnels(b, p);
          b := EmitEndpoints(b, p);
          b := EmitDNS(b);
          b := EmitLocalNetwork(b, p);
          if |p.ports| > 0 {
            b := Emit(b, AnyInterface, Anywhere, WindowProtoSet(p.protos), p.ports);
          }
        }
      case Guard =>
        b := EmitTunnels(b, p);
        b := EmitEndpoints(b, p);
        if p.physicalDNS {
          b := EmitDNS(b);
        }
        b := EmitLocalNetwork(b, p);
      case FullBlock =>
        b := EmitEndpoints(b, p);
        b := EmitTunnelProviders(b, p);
        if p.physicalDNS {
          b := EmitDNS(b);
        }
        b := EmitLocalNetwork(b, p);
    }
    forall pkt: Packet
      ensures Scan(b + [Block], pkt, true) <==> Taken(b, pkt)
    {
      VerdictOverBlock(b, pkt, true);
    }
    rules := b + [Block];
  }
}
