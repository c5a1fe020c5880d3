// One policy, three rule languages, one meaning.

module Backends {
  import opened NetAddr
  import opened Posture
  import opened Agreement
  import Pf = PfRules
  import Nft = NftRules
  import Wfp = WfpRules

  datatype Rulesets = Rulesets(pf: seq<Pf.Rule>, nft: seq<Nft.Rule>, wfp: seq<Wfp.Rule>, wfpDefault: Wfp.Action) {
    predicate PfPasses(pkt: Packet) { Pf.Verdict(pf, pkt) }
    predicate NftPasses(pkt: Packet) { Nft.Accepts(nft, pkt) }
    predicate WfpPasses(pkt: Packet) { Wfp.Allows(wfp, wfpDefault, pkt) }
    predicate AnyPasses(pkt: Packet) { PfPasses(pkt) || NftPasses(pkt) || WfpPasses(pkt) }
  }

  predicate NoBlank(names: seq<string>) {
    forall n <- names :: n != ""
  }

  lemma {:induction false} WordsKeepNonBlank(names: seq<string>)
    requires NoBlank(names)
    ensures Pf.Words(names) == names
  {
    if |names| > 0 {
      assert names[0] in names && forall n <- names[1..] :: n in names;
      WordsKeepNonBlank(names[1..]);
      assert names == [names[0]] + names[1..];
    }
  }

  // What each backend's rules for `p` pass: the meaning of `p`, or of what that backend can
  // see of it.
  ghost predicate Means(r: Rulesets, p: Policy) {
    forall pkt: Packet | OffLoopback(pkt) ::
      && (r.PfPasses(pkt) <==> Passes(Pf.Worded(p), pkt))
      && (r.NftPasses(pkt) <==> Passes(Canonized(p), pkt))
      && (r.WfpPasses(pkt) <==> Passes(Wfp.NamedOnly(Canonized(p)), pkt))
  }

  // Each backend's rules for any policy at all, canonical or not, and what each makes of it.
  method Render(p: Policy) returns (r: Rulesets)
    ensures Means(r, p)
  {
    hide Passes;
    var pf := Pf.RenderRuleset(p);
    var nft := Nft.RenderNftRuleset(p);
    var wfp, default_ := Wfp.RenderBlockScript(p);
    r := Rulesets(pf, nft, wfp, default_);
  }

  ghost predicate PfLikeNft(r: Rulesets) {
    forall pkt: Packet | OffLoopback(pkt) :: r.PfPasses(pkt) <==> r.NftPasses(pkt)
  }

  ghost predicate WfpLikeNft(r: Rulesets) {
    forall pkt: Packet | OffLoopback(pkt) :: r.WfpPasses(pkt) <==> r.NftPasses(pkt)
  }

  lemma LikeIsAlike(r: Rulesets, p: Policy)
    requires Means(r, p)
    ensures PfLikeNft(r) <==> Alike(p, Pf.Words(p.groups))
    ensures WfpLikeNft(r) <==> Alike(Canonized(p), [])
  {
    hide Passes, Canon;
    CanonTwice(p.endpoints);
    CanonTwice(p.providers);
    assert Canonized(Canonized(p)) == Canonized(p);
    if PfLikeNft(r) {
      forall pkt: Packet | OffLoopback(pkt)
        ensures Passes(Pf.Worded(p), pkt) <==> Passes(Canonized(p), pkt)
      {
        assert r.PfPasses(pkt) <==> r.NftPasses(pkt);
      }
    }
    if WfpLikeNft(r) {
      forall pkt: Packet | OffLoopback(pkt)
        ensures Passes(Wfp.NamedOnly(Canonized(p)), pkt) <==> Passes(Canonized(p), pkt)
      {
        assert r.WfpPasses(pkt) <==> r.NftPasses(pkt);
      }
    }
  }

  // Exactly when the backends agree on every off-loopback packet, for any policy at all: the
  // addresses must not be mapped where they are read, and no class may be lost that decides
  // a packet. pf loses blank names, Windows every class.
  method RenderAgreement(p: Policy) returns (r: Rulesets)
    ensures PfLikeNft(r) <==> Agreeable(p, Pf.Words(p.groups))
    ensures WfpLikeNft(r) <==> Agreeable(Canonized(p), [])
    ensures p.mode != FullBlock && |p.endpoints| < MANY ==>
              (PfLikeNft(r) <==>
                 (p.mode == SwitchWindow && Unrestricted(p)) || (NoMapped(p.endpoints) && NoBlank(p.groups)))
  {
    hide PfLikeNft, WfpLikeNft, Means, Alike, Passes, Unserved;
    r := Render(p);
    LikeIsAlike(r, p);
    ClassesHeard(p.groups);
    if |p.endpoints| < MANY {
      var a := SomewhereElse(p);
    }
    AlikeIff(p, Pf.Words(p.groups));
    AlikeIff(Canonized(p), []);
  }

  // What a posture lets out, told of the inputs alone: which interfaces are tunnels, which
  // destinations are endpoints or providers, and what the flags and the window add.
  predicate ViaTunnel(i: PolicyInput, pkt: Packet) {
    pkt.iface.name in i.tunnels || exists g <- i.groups :: g in pkt.iface.classes
  }

  predicate BoundFor(addrs: seq<Addr>, pkt: Packet) {
    exists a <- addrs :: !a.Invalid? && Unmap(a) == pkt.dst
  }

  predicate DNSQuery(pkt: Packet) {
    (pkt.proto == Udp || pkt.proto == Tcp) && pkt.port == 53
  }

  // A window that lists neither protocols nor ports is open to everything; one that lists
  // ports alone means udp and tcp.
  predicate LetByWindow(i: PolicyInput, pkt: Packet) {
    || (|i.protos| == 0 && |i.ports| == 0)
    || (pkt.port in i.ports && (pkt.proto in i.protos || (|i.protos| == 0 && (pkt.proto == Udp || pkt.proto == Tcp))))
  }

  predicate LetsOut(m: Mode, i: PolicyInput, pkt: Packet) {
    || BoundFor(i.endpoints, pkt)
    || (i.localNetwork && IsLocal(pkt.dst))
    || match m
       case FullBlock => (i.physicalDNS && DNSQuery(pkt)) || (ViaTunnel(i, pkt) && BoundFor(i.providers, pkt))
       case Guard => (i.physicalDNS && DNSQuery(pkt)) || ViaTunnel(i, pkt)
       case SwitchWindow => DNSQuery(pkt) || ViaTunnel(i, pkt) || LetByWindow(i, pkt)
  }

  // The policies say just that, of whichever groups are heard.
  lemma PolicyLetsOut(m: Mode, i: PolicyInput, heard: seq<string>, pkt: Packet)
    requires i.groups == [] ==> heard == []
    ensures Passes(PolicyFor(m, i).(groups := heard), pkt) <==> LetsOut(m, i.(groups := heard), pkt)
  {
    CanonMembers(i.endpoints, pkt.dst);
    CanonMembers(i.providers, pkt.dst);
    hide IsLocal, Canon;
  }

  // Each backend, for the groups it can see.
  ghost predicate LetOutBy(m: Mode, i: PolicyInput, r: Rulesets) {
    forall pkt: Packet | OffLoopback(pkt) ::
      && (r.NftPasses(pkt) <==> LetsOut(m, i, pkt))
      && (r.PfPasses(pkt) <==> LetsOut(m, i.(groups := Pf.Words(i.groups)), pkt))
      && (r.WfpPasses(pkt) <==> LetsOut(m, i.(groups := []), pkt))
  }

  // For every input and posture: pf and nft pass the same off-loopback packets exactly when no
  // group name is blank or no class decides anything, and Windows and nft exactly when there
  // are no groups or no class decides anything. Whatever the groups, neither pf nor Windows
  // passes more than nft, which passes what the posture promises.
  method Compile(m: Mode, i: PolicyInput) returns (r: Rulesets)
    ensures |i.endpoints| < MANY ==> (PfLikeNft(r) <==> NoBlank(i.groups) || !Telling(m, i))
    ensures |i.endpoints| < MANY ==> (WfpLikeNft(r) <==> i.groups == [] || !Telling(m, i))
    ensures NoBlank(i.groups) ==> PfLikeNft(r)
    ensures forall pkt: Packet :: OffLoopback(pkt) && r.WfpPasses(pkt) ==> r.NftPasses(pkt)
    ensures forall pkt: Packet :: OffLoopback(pkt) && !OnClass(PolicyFor(m, i), pkt.iface) ==>
              (r.WfpPasses(pkt) <==> r.NftPasses(pkt))
    ensures forall pkt: Packet :: OffLoopback(pkt) ==> (r.NftPasses(pkt) <==> Passes(PolicyFor(m, i), pkt))
    ensures forall pkt: Packet :: OffLoopback(pkt) && r.PfPasses(pkt) ==> Passes(PolicyFor(m, i), pkt)
    ensures LetOutBy(m, i, r)
  {
    hide Passes, LetsOut, Telling, Alike, PfLikeNft, WfpLikeNft, Canon, Unserved;
    var p := PolicyFor(m, i);
    PoliciesAreCanonical(m, i);
    r := Render(p);
    LikeIsAlike(r, p);
    if NoBlank(i.groups) {
      AlikeAsWorded(m, i);
    }
    if |i.endpoints| < MANY {
      ClassesHeard(i.groups);
      InputAlikeIff(m, i, Pf.Words(i.groups));
      InputAlikeIff(m, i, []);
    }
    forall pkt: Packet
      ensures Passes(Wfp.NamedOnly(p), pkt) ==> Passes(p, pkt)
      ensures !OnClass(p, pkt.iface) ==> (Passes(Wfp.NamedOnly(p), pkt) <==> Passes(p, pkt))
      ensures Passes(Pf.Worded(p), pkt) ==> Passes(p, pkt)
    {
      FewerGroups(p, pkt);
    }
    MeansLetsOut(m, i, r);
  }

  lemma MeansLetsOut(m: Mode, i: PolicyInput, r: Rulesets)
    requires Means(r, PolicyFor(m, i))
    ensures LetOutBy(m, i, r)
  {
    hide Passes, LetsOut;
    var p := PolicyFor(m, i);
    PoliciesAreCanonical(m, i);
    assert p.(groups := i.groups) == p && i.(groups := i.groups) == i;
    forall pkt: Packet | OffLoopback(pkt)
      ensures r.NftPasses(pkt) <==> LetsOut(m, i, pkt)
      ensures r.PfPasses(pkt) <==> LetsOut(m, i.(groups := Pf.Words(i.groups)), pkt)
      ensures r.WfpPasses(pkt) <==> LetsOut(m, i.(groups := []), pkt)
    {
      PolicyLetsOut(m, i, i.groups, pkt);
      PolicyLetsOut(m, i, Pf.Words(i.groups), pkt);
      PolicyLetsOut(m, i, [], pkt);
    }
  }

  lemma ClassesHeard(groups: seq<string>)
    ensures forall g <- Pf.Words(groups) :: g in groups
    ensures (forall g <- groups :: g in Pf.Words(groups)) <==> NoBlank(groups)
    ensures (forall g <- groups :: g in []) <==> groups == []
  {
    Pf.WordsAreNames(groups);
    if groups != [] { assert groups[0] in groups; }
  }

  lemma AlikeAsWorded(m: Mode, i: PolicyInput)
    requires NoBlank(i.groups)
    ensures Alike(PolicyFor(m, i), Pf.Words(PolicyFor(m, i).groups))
  {
    hide Passes, Canon;
    WordsKeepNonBlank(i.groups);
    PoliciesAreCanonical(m, i);
    assert PolicyFor(m, i).(groups := Pf.Words(PolicyFor(m, i).groups)) == PolicyFor(m, i);
  }

  // Losing classes loses packets, and only packets on a class.
  lemma FewerGroups(p: Policy, pkt: Packet)
    ensures Passes(Wfp.NamedOnly(p), pkt) ==> Passes(p, pkt)
    ensures !OnClass(p, pkt.iface) ==> (Passes(Wfp.NamedOnly(p), pkt) <==> Passes(p, pkt))
    ensures Passes(Pf.Worded(p), pkt) ==> Passes(p, pkt)
  {
    Pf.WordsAreNames(p.groups);
    assert !OnClass(Wfp.NamedOnly(p), pkt.iface);
    assert OnClass(Pf.Worded(p), pkt.iface) ==> OnClass(p, pkt.iface);
    hide IsLocal, OnClass;
  }

  // What no posture short of a window lets out, on any backend: under guard a packet is on a
  // tunnel, or bound for an endpoint, or allowed by a flag; under full block the tunnel
  // serves the geo providers only.
  method CompileEnforcing(i: PolicyInput) returns (full: Rulesets, guard: Rulesets)
    ensures forall pkt: Packet | OffLoopback(pkt) && guard.AnyPasses(pkt) ::
              || OnTunnel(GuardPolicy(i), pkt.iface)
              || (exists e <- i.endpoints :: Unmap(e) == pkt.dst)
              || (i.physicalDNS && IsDNS(pkt)) || (i.localNetwork && IsLocal(pkt.dst))
    ensures forall pkt: Packet | OffLoopback(pkt) && full.AnyPasses(pkt) ::
              || (OnTunnel(FullBlockPolicy(i), pkt.iface) && exists e <- i.providers :: Unmap(e) == pkt.dst)
              || (exists e <- i.endpoints :: Unmap(e) == pkt.dst)
              || (i.physicalDNS && IsDNS(pkt)) || (i.localNetwork && IsLocal(pkt.dst))
    ensures i == PolicyInput([], [], [], false, false, [], [], []) ==>
              forall pkt: Packet :: OffLoopback(pkt) ==> !full.AnyPasses(pkt) && !guard.AnyPasses(pkt)
  {
    full := Compile(FullBlock, i);
    guard := Compile(Guard, i);
    forall pkt: Packet | OffLoopback(pkt)
      ensures pkt.dst in Canon(i.endpoints) ==> exists e <- i.endpoints :: Unmap(e) == pkt.dst
      ensures pkt.dst in Canon(i.providers) ==> exists e <- i.providers :: Unmap(e) == pkt.dst
    {
      CanonMembers(i.endpoints, pkt.dst);
      CanonMembers(i.providers, pkt.dst);
    }
  }

  // On every backend, whatever `r` passes `r'` passes too.
  ghost predicate Relaxes(r: Rulesets, r': Rulesets) {
    forall pkt: Packet | OffLoopback(pkt) ::
      && (r.PfPasses(pkt) ==> r'.PfPasses(pkt))
      && (r.NftPasses(pkt) ==> r'.NftPasses(pkt))
      && (r.WfpPasses(pkt) ==> r'.WfpPasses(pkt))
  }

  // Every backend only relaxes from full block to guard to a window.
  method CompileLadder(i: PolicyInput) returns (full: Rulesets, guard: Rulesets, window: Rulesets)
    ensures Relaxes(full, guard) && Relaxes(guard, window)
  {
    hide Passes, FullBlockPolicy, GuardPolicy, SwitchWindowPolicy, Relaxes, Rung;
    full := Render(FullBlockPolicy(i));
    guard := Render(GuardPolicy(i));
    window := Render(SwitchWindowPolicy(i));
    PoliciesAreCanonical(FullBlock, i);
    PoliciesAreCanonical(Guard, i);
    PoliciesAreCanonical(SwitchWindow, i);
    forall pkt: Packet { LadderRungs(i, pkt); }
    RungsRelax(FullBlockPolicy(i), GuardPolicy(i), full, guard);
    RungsRelax(GuardPolicy(i), SwitchWindowPolicy(i), guard, window);
  }

  predicate Rung(low: Policy, high: Policy, pkt: Packet) {
    && (Passes(low, pkt) ==> Passes(high, pkt))
    && (Passes(Pf.Worded(low), pkt) ==> Passes(Pf.Worded(high), pkt))
    && (Passes(Wfp.NamedOnly(low), pkt) ==> Passes(Wfp.NamedOnly(high), pkt))
  }

  lemma RungsRelax(low: Policy, high: Policy, r: Rulesets, r': Rulesets)
    requires Canonized(low) == low && Canonized(high) == high
    requires Means(r, low) && Means(r', high)
    requires forall pkt: Packet :: Rung(low, high, pkt)
    ensures Relaxes(r, r')
  {
    hide Passes;
    forall pkt: Packet | OffLoopback(pkt)
      ensures r.PfPasses(pkt) ==> r'.PfPasses(pkt)
      ensures r.NftPasses(pkt) ==> r'.NftPasses(pkt)
      ensures r.WfpPasses(pkt) ==> r'.WfpPasses(pkt)
    {
      assert Rung(low, high, pkt);
    }
  }

  lemma LadderRungs(i: PolicyInput, pkt: Packet)
    ensures Rung(FullBlockPolicy(i), GuardPolicy(i), pkt)
    ensures Rung(GuardPolicy(i), SwitchWindowPolicy(i), pkt)
  {
    hide IsLocal, Canon;
  }

  // Why addresses are canonicalised before any backend sees them: a policy that still lists
  // an endpoint in its mapped form cuts that endpoint off under pf and keeps it under nft,
  // for every mapped address, in every posture but an unrestricted window.
  method RenderMapped(p: Policy, a: Addr, pkt: Packet) returns (r: Rulesets)
    requires IsMapped(a) && a in p.endpoints && Unmap(a) !in p.endpoints
    requires p.mode == SwitchWindow ==> !Unrestricted(p) && !InWindow(p, pkt)
    requires pkt.dst == Unmap(a) && OffLoopback(pkt) && !OnTunnel(p, pkt.iface)
    requires !IsDNS(pkt) && !IsLocal(pkt.dst)
    ensures !r.PfPasses(pkt) && r.NftPasses(pkt)
  {
    r := Render(p);
    CanonMembers(p.endpoints, pkt.dst);
    FewerGroups(p, pkt);
  }

  // A group whose name is blank is read as nothing by pf and as every interface by nft: in
  // every posture but an unrestricted window this is a packet that tells, for any destination
  // not served otherwise (under full block, a provider).
  method RenderBlankGroup(p: Policy, dst: Addr) returns (r: Rulesets, pkt: Packet)
    requires "" in p.groups && NoMapped(p.endpoints) && Unserved(p, dst)
    requires p.mode == FullBlock ==> dst in Canon(p.providers)
    requires p.mode == SwitchWindow ==> !Unrestricted(p)
    ensures OffLoopback(pkt) && pkt.dst == dst && !r.PfPasses(pkt) && r.NftPasses(pkt)
  {
    hide Passes, Unserved, Canon;
    r := Render(p);
    Pf.WordsAreNames(p.groups);
    pkt := Plain(p, Fresh(p, {""}), dst);
    ghost var _ := UnheardTells(p, Pf.Words(p.groups), "", dst);
  }
}
