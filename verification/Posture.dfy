// What a posture is, and what it promises about a packet, whatever firewall enforces it.

module Posture {
  import opened NetAddr

  datatype Mode = FullBlock | Guard | SwitchWindow

  datatype Proto = Udp | Tcp | OtherProto

  datatype Policy = Policy(
    mode: Mode,
    tunnels: seq<string>,
    groups: seq<string>,
    endpoints: seq<Addr>,
    physicalDNS: bool,
    localNetwork: bool,
    providers: seq<Addr>,
    protos: seq<Proto>,
    ports: seq<int>)

  datatype PolicyInput = PolicyInput(
    tunnels: seq<string>,
    groups: seq<string>,
    endpoints: seq<Addr>,
    physicalDNS: bool,
    localNetwork: bool,
    providers: seq<Addr>,
    protos: seq<Proto>,
    ports: seq<int>)

  // An interface has a name, and belongs to classes ("utun"): pf's interface groups, nft's
  // name wildcards.
  datatype Iface = Iface(name: string, classes: set<string>, loopback: bool)

  datatype Packet = Packet(iface: Iface, dst: Addr, proto: Proto, port: int)

  // ---- addresses ----

  // What canonAddrs keeps: valid addresses, unmapped, in order.
  function Canon(addrs: seq<Addr>): seq<Addr> {
    if |addrs| == 0 then []
    else
      var kept := Canon(addrs[..|addrs| - 1]);
      var a := addrs[|addrs| - 1];
      if a.Invalid? then kept else kept + [Unmap(a)]
  }

  method CanonAddrs(addrs: seq<Addr>) returns (out: seq<Addr>)
    ensures out == Canon(addrs)
  {
    out := [];
    for i := 0 to |addrs|
      invariant out == Canon(addrs[..i])
    {
      assert addrs[..i + 1][..i] == addrs[..i];
      if !addrs[i].Invalid? {
        out := out + [Unmap(addrs[i])];
      }
    }
    assert addrs[..|addrs|] == addrs;
  }

  lemma {:induction false} CanonIsCanonical(addrs: seq<Addr>)
    ensures forall a <- Canon(addrs) :: Canonical(a)
  {
    if |addrs| > 0 { CanonIsCanonical(addrs[..|addrs| - 1]); }
  }

  lemma {:induction false} CanonKeepsCanonical(addrs: seq<Addr>)
    requires forall a <- addrs :: Canonical(a)
    ensures Canon(addrs) == addrs
  {
    if |addrs| > 0 {
      CanonKeepsCanonical(addrs[..|addrs| - 1]);
      assert addrs[|addrs| - 1] in addrs;
    }
  }

  lemma CanonTwice(addrs: seq<Addr>)
    ensures Canon(Canon(addrs)) == Canon(addrs)
  {
    CanonIsCanonical(addrs);
    CanonKeepsCanonical(Canon(addrs));
  }

  lemma {:induction false} CanonMembers(addrs: seq<Addr>, a: Addr)
    ensures a in Canon(addrs) <==> exists x <- addrs :: !x.Invalid? && Unmap(x) == a
  {
    if |addrs| > 0 {
      var front, x := addrs[..|addrs| - 1], addrs[|addrs| - 1];
      CanonMembers(front, a);
      assert addrs == front + [x];
    }
  }

  // How many addresses canonAddrs drops.
  method CountInvalid(addrs: seq<Addr>) returns (n: nat)
    ensures n == |addrs| - |Canon(addrs)|
  {
    n := 0;
    for i := 0 to |addrs|
      invariant n == i - |Canon(addrs[..i])|
    {
      assert addrs[..i + 1][..i] == addrs[..i];
      if addrs[i].Invalid? {
        n := n + 1;
      }
    }
    assert addrs[..|addrs|] == addrs;
  }

  // ---- the local network ----

  const LOCAL_NETWORK: seq<Prefix> := [
    Net4(0x0a00_0000, 0x100_0000),  // 10.0.0.0/8
    Net4(0xac10_0000, 0x10_0000),  // 172.16.0.0/12
    Net4(0xc0a8_0000, 0x1_0000),  // 192.168.0.0/16
    Net4(0x6440_0000, 0x40_0000),  // 100.64.0.0/10
    Net4(0xa9fe_0000, 0x1_0000),  // 169.254.0.0/16
    Net4(0xe000_0000, 0x100),   // 224.0.0.0/24
    Net4(0xef00_0000, 0x100_0000),  // 239.0.0.0/8
    Net6(0xfc00_0000_0000_0000_0000_0000_0000_0000, 0x200_0000_0000_0000_0000_0000_0000_0000),  // fc00::/7
    Net6(0xfe80_0000_0000_0000_0000_0000_0000_0000, 0x40_0000_0000_0000_0000_0000_0000_0000),  // fe80::/10
    Net6(0xff02_0000_0000_0000_0000_0000_0000_0000, 0x1_0000_0000_0000_0000_0000_0000_0000),  // ff02::/16
    Net6(0xff05_0000_0000_0000_0000_0000_0000_0000, 0x1_0000_0000_0000_0000_0000_0000_0000)   // ff05::/16
  ]

  predicate IsLocal(a: Addr) {
    exists p <- LOCAL_NETWORK :: Contains(p, a)
  }

  // Which destinations those are: no public address among them.
  lemma LocalNetworkIs(n: u32, m: u128)
    ensures IsLocal(V4(n)) <==>
              || 0x0a00_0000 <= n <= 0x0aff_ffff
              || 0xac10_0000 <= n <= 0xac1f_ffff
              || 0xc0a8_0000 <= n <= 0xc0a8_ffff
              || 0x6440_0000 <= n <= 0x647f_ffff
              || 0xa9fe_0000 <= n <= 0xa9fe_ffff
              || 0xe000_0000 <= n <= 0xe000_00ff
              || 0xef00_0000 <= n <= 0xefff_ffff
    ensures IsLocal(V6(m)) <==>
              || 0xfc00_0000_0000_0000_0000_0000_0000_0000 <= m <= 0xfdff_ffff_ffff_ffff_ffff_ffff_ffff_ffff
              || 0xfe80_0000_0000_0000_0000_0000_0000_0000 <= m <= 0xfebf_ffff_ffff_ffff_ffff_ffff_ffff_ffff
              || 0xff02_0000_0000_0000_0000_0000_0000_0000 <= m <= 0xff02_ffff_ffff_ffff_ffff_ffff_ffff_ffff
              || 0xff05_0000_0000_0000_0000_0000_0000_0000 <= m <= 0xff05_ffff_ffff_ffff_ffff_ffff_ffff_ffff
  {
    LocalOneByOne(V4(n));
    LocalOneByOne(V6(m));
  }

  lemma LocalOneByOne(a: Addr)
    ensures var l := LOCAL_NETWORK;
            IsLocal(a) <==>
              || Contains(l[0], a) || Contains(l[1], a) || Contains(l[2], a) || Contains(l[3], a)
              || Contains(l[4], a) || Contains(l[5], a) || Contains(l[6], a) || Contains(l[7], a)
              || Contains(l[8], a) || Contains(l[9], a) || Contains(l[10], a)
  {
    var l := LOCAL_NETWORK;
    hide Contains;
    assert |l| == 11;
    if IsLocal(a) {
      var p :| p in l && Contains(p, a);
    }
  }

  method LocalNetworkPrefixesFor(v6: bool) returns (out: seq<Prefix>)
    ensures forall p :: p in out <==> p in LOCAL_NETWORK && p.Net6? == v6
  {
    out := [];
    for i := 0 to |LOCAL_NETWORK|
      invariant forall p :: p in out <==> p in LOCAL_NETWORK[..i] && p.Net6? == v6
    {
      assert LOCAL_NETWORK[..i + 1] == LOCAL_NETWORK[..i] + [LOCAL_NETWORK[i]];
      if LOCAL_NETWORK[i].Net6? == v6 {
        out := out + [LOCAL_NETWORK[i]];
      }
    }
    assert LOCAL_NETWORK[..|LOCAL_NETWORK|] == LOCAL_NETWORK;
  }

  // ---- the three postures ----

  function FullBlockPolicy(i: PolicyInput): Policy {
    Policy(FullBlock, i.tunnels, i.groups, Canon(i.endpoints), i.physicalDNS, i.localNetwork,
      Canon(i.providers), [], [])
  }

  function GuardPolicy(i: PolicyInput): Policy {
    if i.tunnels == [] && i.groups == [] then FullBlockPolicy(i)
    else Policy(Guard, i.tunnels, i.groups, Canon(i.endpoints), i.physicalDNS, i.localNetwork, [], [], [])
  }

  function SwitchWindowPolicy(i: PolicyInput): Policy {
    Policy(SwitchWindow, i.tunnels, i.groups, Canon(i.endpoints), false, i.localNetwork, [], i.protos, i.ports)
  }

  function PolicyFor(m: Mode, i: PolicyInput): Policy {
    match m
    case FullBlock => FullBlockPolicy(i)
    case Guard => GuardPolicy(i)
    case SwitchWindow => SwitchWindowPolicy(i)
  }

  // Apply refuses a guard that would pass no tunnel at all.
  predicate Appliable(p: Policy) {
    p.mode == Guard ==> p.tunnels != [] || p.groups != []
  }

  // ---- what a policy promises ----

  predicate OnNamed(p: Policy, i: Iface) {
    i.name in p.tunnels
  }

  predicate OnClass(p: Policy, i: Iface) {
    exists g <- p.groups :: g in i.classes
  }

  predicate OnTunnel(p: Policy, i: Iface) {
    OnNamed(p, i) || OnClass(p, i)
  }

  predicate IsDNS(pkt: Packet) {
    pkt.proto != OtherProto && pkt.port == 53
  }

  predicate Unrestricted(p: Policy) {
    p.protos == [] && p.ports == []
  }

  predicate InWindow(p: Policy, pkt: Packet) {
    && (if p.protos == [] then pkt.proto != OtherProto else pkt.proto in p.protos)
    && pkt.port in p.ports
  }

  // Which packets leave the machine under `p`, loopback aside.
  predicate Passes(p: Policy, pkt: Packet) {
    match p.mode
    case FullBlock =>
      || pkt.dst in p.endpoints
      || (OnTunnel(p, pkt.iface) && pkt.dst in p.providers)
      || (p.physicalDNS && IsDNS(pkt))
      || (p.localNetwork && IsLocal(pkt.dst))
    case Guard =>
      || OnTunnel(p, pkt.iface)
      || pkt.dst in p.endpoints
      || (p.physicalDNS && IsDNS(pkt))
      || (p.localNetwork && IsLocal(pkt.dst))
    case SwitchWindow =>
      || Unrestricted(p)
      || OnTunnel(p, pkt.iface)
      || pkt.dst in p.endpoints
      || IsDNS(pkt)
      || (p.localNetwork && IsLocal(pkt.dst))
      || InWindow(p, pkt)
  }

  // The same policy with its addresses canonical.
  function Canonized(p: Policy): Policy {
    p.(endpoints := Canon(p.endpoints), providers := Canon(p.providers))
  }

  lemma PoliciesAreCanonical(m: Mode, i: PolicyInput)
    ensures Canonized(PolicyFor(m, i)) == PolicyFor(m, i)
  {
    CanonTwice(i.endpoints);
    CanonTwice(i.providers);
  }

  // No constructor yields a policy a backend would refuse, or that passes nothing a tunnel
  // could recover through.
  lemma PoliciesAreAppliable(m: Mode, i: PolicyInput)
    ensures Appliable(PolicyFor(m, i))
    ensures forall pkt: Packet :: pkt.dst in Canon(i.endpoints) ==> Passes(PolicyFor(m, i), pkt)
  {
  }
}
