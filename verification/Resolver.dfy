// The set of server addresses kept reachable on the physical interface.

module Resolver {
  import opened Basics
  import opened NetAddr

  // Where an address came from, in order of trust.
  datatype Source = Literal | DNS(host: string) | Learned | Discovered

  datatype Offer = Offer(addr: Addr, source: Source)

  datatype TunnelNet = TunnelNet(iface: string, subnet: Prefix)

  datatype EndpointRoute = EndpointRoute(endpoint: Addr, iface: string, subnet: Prefix)

  datatype EndpointSet = EndpointSet(addrs: seq<Addr>, sources: map<Addr, Source>)

  // What one resolution sees. A lookup, the discovery or the list of tunnel subnets may fail,
  // which is None; so is a hook that is not there.
  datatype Inputs = Inputs(
    literals: seq<Addr>,
    hostnames: seq<string>,
    lookup: string -> Option<seq<Addr>>,
    learned: Option<seq<Addr>>,
    discovered: Option<seq<Addr>>,
    tunnels: seq<string>,
    subnets: Option<seq<TunnelNet>>)

  // ---- what is offered, in order of trust ----

  function From(addrs: seq<Addr>, source: Source): (r: seq<Offer>)
    ensures |r| == |addrs| && forall i :: 0 <= i < |addrs| ==> r[i] == Offer(addrs[i], source)
  {
    seq(|addrs|, i requires 0 <= i < |addrs| => Offer(addrs[i], source))
  }

  function Or(addrs: Option<seq<Addr>>): seq<Addr> {
    if addrs.Some? then addrs.value else []
  }

  function FromHosts(hosts: seq<string>, lookup: string -> Option<seq<Addr>>): seq<Offer> {
    if |hosts| == 0 then []
    else
      var h := hosts[|hosts| - 1];
      FromHosts(hosts[..|hosts| - 1], lookup) + From(Or(lookup(h)), DNS(h))
  }

  function Offers(i: Inputs): seq<Offer> {
    From(i.literals, Literal) + FromHosts(i.hostnames, i.lookup) + From(Or(i.learned), Learned) +
    From(Or(i.discovered), Discovered)
  }

  // The source of the first offer of an address, in either of its forms.
  function FirstSource(offers: seq<Offer>, a: Addr): (r: Option<Source>)
    ensures r.Some? ==> Canonical(a)
  {
    if |offers| == 0 then None
    else
      var before := FirstSource(offers[..|offers| - 1], a);
      var o := offers[|offers| - 1];
      if before.Some? || a.Invalid? || Unmap(o.addr) != a then before else Some(o.source)
  }

  // ---- collecting ----

  predicate Distinct(addrs: seq<Addr>) {
    forall i, j :: 0 <= i < j < |addrs| ==> addrs[i] != addrs[j]
  }

  // The set holds what was offered, each address once, under its first source.
  ghost predicate Collects(s: EndpointSet, offers: seq<Offer>) {
    && Distinct(s.addrs)
    && (forall a :: a in s.addrs <==> a in s.sources)
    && (forall a :: (if a in s.sources then Some(s.sources[a]) else None) == FirstSource(offers, a))
  }

  method Add(s: EndpointSet, a: Addr, source: Source, ghost offers: seq<Offer>) returns (s': EndpointSet)
    requires Collects(s, offers)
    ensures Collects(s', offers + [Offer(a, source)])
  {
    assert (offers + [Offer(a, source)])[..|offers|] == offers;
    var u := Unmap(a);
    if u.Invalid? {
      return s;
    }
    if u in s.sources {
      return s;
    }
    s' := EndpointSet(s.addrs + [u], s.sources[u := source]);
  }

  method AddAll(s: EndpointSet, addrs: seq<Addr>, source: Source, ghost offers: seq<Offer>) returns (s': EndpointSet)
    requires Collects(s, offers)
    ensures Collects(s', offers + From(addrs, source))
  {
    hide Collects;
    s' := s;
    ghost var all := From(addrs, source);
    assert offers + all[..0] == offers;
    for i := 0 to |addrs|
      invariant Collects(s', offers + all[..i])
    {
      s' := Add(s', addrs[i], source, offers + all[..i]);
      assert offers + all[..i] + [Offer(addrs[i], source)] == offers + all[..i + 1];
    }
    assert all[..|addrs|] == all;
  }

  // ---- addresses inside a tunnel ----

  predicate Inside(nets: seq<TunnelNet>, a: Addr) {
    exists n <- nets :: Contains(n.subnet, a)
  }

  // The subnets a resolution filters by: none without tunnels, and none if they cannot be read.
  function Filter(i: Inputs): seq<TunnelNet> {
    if |i.tunnels| > 0 && i.subnets.Some? then i.subnets.value else []
  }

  method CheckEndpointRouting(endpoints: seq<Addr>, nets: seq<TunnelNet>) returns (bad: seq<EndpointRoute>)
    ensures forall a :: (exists b <- bad :: b.endpoint == a) <==> a in endpoints && Inside(nets, a)
    ensures forall b <- bad :: TunnelNet(b.iface, b.subnet) in nets && Contains(b.subnet, b.endpoint)
  {
    bad := [];
    for i := 0 to |endpoints|
      invariant forall a :: (exists b <- bad :: b.endpoint == a) <==> a in endpoints[..i] && Inside(nets, a)
      invariant forall b <- bad :: TunnelNet(b.iface, b.subnet) in nets && Contains(b.subnet, b.endpoint)
    {
      var ep := endpoints[i];
      assert endpoints[..i + 1] == endpoints[..i] + [ep];
      ghost var before := bad;
      for k := 0 to |nets|
        invariant bad == before && forall n <- nets[..k] :: !Contains(n.subnet, ep)
      {
        if Contains(nets[k].subnet, ep) {
          assert nets[k] in nets;
          bad := bad + [EndpointRoute(ep, nets[k].iface, nets[k].subnet)];
          break;
        }
        assert nets[..k + 1] == nets[..k] + [nets[k]];
      }
      assert nets[..|nets|] == nets;
      OneMoreRoute(before, bad, ep, endpoints[..i], nets);
    }
    assert endpoints[..|endpoints|] == endpoints;
  }

  lemma OneMoreRoute(before: seq<EndpointRoute>, bad: seq<EndpointRoute>, ep: Addr,
      seen: seq<Addr>, nets: seq<TunnelNet>)
    requires forall a :: (exists b <- before :: b.endpoint == a) <==> a in seen && Inside(nets, a)
    requires if Inside(nets, ep) then |bad| == |before| + 1 && bad[..|before|] == before && bad[|before|].endpoint == ep
             else bad == before
    ensures forall a :: (exists b <- bad :: b.endpoint == a) <==> a in seen + [ep] && Inside(nets, a)
  {
    hide Inside;
    if Inside(nets, ep) {
      assert bad == before + [bad[|before|]];
      assert bad[|before|] in bad;
    }
  }

  // ---- sorting ----

  predicate Ascending(addrs: seq<Addr>) {
    forall i, j :: 0 <= i < j < |addrs| ==> Less(addrs[i], addrs[j])
  }

  function Inserted(addrs: seq<Addr>, a: Addr): seq<Addr> {
    if |addrs| == 0 || Less(addrs[|addrs| - 1], a) then addrs + [a]
    else Inserted(addrs[..|addrs| - 1], a) + [addrs[|addrs| - 1]]
  }

  function Sorted(addrs: seq<Addr>): seq<Addr> {
    if |addrs| == 0 then [] else Inserted(Sorted(addrs[..|addrs| - 1]), addrs[|addrs| - 1])
  }

  lemma {:induction false} InsertedAscends(addrs: seq<Addr>, a: Addr)
    requires Ascending(addrs) && a !in addrs
    ensures Ascending(Inserted(addrs, a))
    ensures forall x :: x in Inserted(addrs, a) <==> x in addrs || x == a
  {
    if |addrs| > 0 && !Less(addrs[|addrs| - 1], a) {
      var front, last := addrs[..|addrs| - 1], addrs[|addrs| - 1];
      assert addrs == front + [last];
      InsertedAscends(front, a);
      var r := Inserted(front, a);
      forall i | 0 <= i < |r| ensures Less(r[i], last) {
        assert r[i] in r;
      }
    }
  }

  lemma {:induction false} SortedAscends(addrs: seq<Addr>)
    requires Distinct(addrs)
    ensures Ascending(Sorted(addrs))
    ensures forall x :: x in Sorted(addrs) <==> x in addrs
  {
    if |addrs| > 0 {
      var front, last := addrs[..|addrs| - 1], addrs[|addrs| - 1];
      assert addrs == front + [last];
      SortedAscends(front);
      InsertedAscends(Sorted(front), last);
    }
  }

  // ---- whose address it is ----

  predicate Supplies(addrs: seq<Addr>, a: Addr) {
    exists x <- addrs :: !x.Invalid? && Unmap(x) == a
  }

  predicate HostSupplies(i: Inputs, h: string, a: Addr) {
    i.lookup(h).Some? && Supplies(i.lookup(h).value, a)
  }

  predicate AnyHostSupplies(i: Inputs, a: Addr) {
    exists h <- i.hostnames :: HostSupplies(i, h, a)
  }

  // The tier an address is labelled with supplied it, and none before it did.
  predicate LabelledBy(i: Inputs, a: Addr, source: Source) {
    match source
    case Literal => Supplies(i.literals, a)
    case DNS(host) =>
      && !Supplies(i.literals, a)
      && exists k :: 0 <= k < |i.hostnames| && i.hostnames[k] == host && HostSupplies(i, host, a) &&
                     forall j :: 0 <= j < k ==> !HostSupplies(i, i.hostnames[j], a)
    case Learned =>
      && !Supplies(i.literals, a) && !AnyHostSupplies(i, a)
      && i.learned.Some? && Supplies(i.learned.value, a)
    case Discovered =>
      && !Supplies(i.literals, a) && !AnyHostSupplies(i, a)
      && (i.learned.Some? ==> !Supplies(i.learned.value, a))
      && i.discovered.Some? && Supplies(i.discovered.value, a)
  }

  predicate Supplied(i: Inputs, a: Addr) {
    || Supplies(i.literals, a) || AnyHostSupplies(i, a)
    || (i.learned.Some? && Supplies(i.learned.value, a))
    || (i.discovered.Some? && Supplies(i.discovered.value, a))
  }

  lemma {:induction false} FirstOfTwo(x: seq<Offer>, y: seq<Offer>, a: Addr)
    ensures FirstSource(x + y, a) == if FirstSource(x, a).Some? then FirstSource(x, a) else FirstSource(y, a)
  {
    if |y| == 0 {
      assert x + y == x;
    } else {
      DropLastOfConcat(x, y);
      FirstOfTwo(x, y[..|y| - 1], a);
    }
  }

  lemma {:induction false} FirstOfTier(addrs: seq<Addr>, source: Source, a: Addr)
    ensures FirstSource(From(addrs, source), a) == if Supplies(addrs, a) then Some(source) else None
  {
    if |addrs| > 0 {
      var front, last := addrs[..|addrs| - 1], addrs[|addrs| - 1];
      FirstOfTier(front, source, a);
      assert From(addrs, source)[..|addrs| - 1] == From(front, source);
      assert addrs == front + [last];
    }
  }

  lemma {:induction false} FirstOfHosts(i: Inputs, n: nat, a: Addr)
    requires n <= |i.hostnames|
    ensures FirstHost(i, n, a, FirstSource(FromHosts(i.hostnames[..n], i.lookup), a))
  {
    hide FirstHost, FirstSource, Supplies, HostSupplies, FromHosts, From, Or;
    if n == 0 {
      NoHosts(i, a);
    } else {
      FirstOfHosts(i, n - 1, a);
      HostsSnoc(i, n - 1);
      var h, before := i.hostnames[n - 1], FromHosts(i.hostnames[..n - 1], i.lookup);
      FirstOfTier(Or(i.lookup(h)), DNS(h), a);
      FirstOfTwo(before, From(Or(i.lookup(h)), DNS(h)), a);
      HostCounts(i, h, a);
      FirstHostNext(i, n - 1, a, FirstSource(before, a));
    }
  }

  // What `r` says of the first `n` hostnames: the first of them to supply `a`, or that none does.
  predicate FirstHost(i: Inputs, n: nat, a: Addr, r: Option<Source>)
    requires n <= |i.hostnames|
  {
    match r
    case None => forall k :: 0 <= k < n ==> !HostSupplies(i, i.hostnames[k], a)
    case Some(s) =>
      exists k :: 0 <= k < n && s == DNS(i.hostnames[k]) && HostSupplies(i, i.hostnames[k], a) &&
                  forall j :: 0 <= j < k ==> !HostSupplies(i, i.hostnames[j], a)
  }

  lemma NoHosts(i: Inputs, a: Addr)
    ensures FirstHost(i, 0, a, FirstSource(FromHosts(i.hostnames[..0], i.lookup), a))
  {
    assert i.hostnames[..0] == [];
  }

  lemma FirstHostNext(i: Inputs, n: nat, a: Addr, r: Option<Source>)
    requires n < |i.hostnames| && FirstHost(i, n, a, r)
    ensures var h := i.hostnames[n];
            FirstHost(i, n + 1, a, if r.Some? then r else if HostSupplies(i, h, a) then Some(DNS(h)) else None)
  {
    hide HostSupplies;
  }

  lemma HostsSnoc(i: Inputs, n: nat)
    requires n < |i.hostnames|
    ensures FromHosts(i.hostnames[..n + 1], i.lookup) ==
              FromHosts(i.hostnames[..n], i.lookup) + From(Or(i.lookup(i.hostnames[n])), DNS(i.hostnames[n]))
  {
    assert i.hostnames[..n + 1][..n] == i.hostnames[..n];
  }

  lemma HostCounts(i: Inputs, h: string, a: Addr)
    ensures HostSupplies(i, h, a) <==> Supplies(Or(i.lookup(h)), a)
  {
  }

  lemma FirstSourceIs(i: Inputs, a: Addr)
    ensures match FirstSource(Offers(i), a)
            case None => !Supplied(i, a)
            case Some(s) => Supplied(i, a) && LabelledBy(i, a, s)
  {
    var lit, dns := From(i.literals, Literal), FromHosts(i.hostnames, i.lookup);
    var lea, dis := From(Or(i.learned), Learned), From(Or(i.discovered), Discovered);
    FirstOfTwo(lit + dns + lea, dis, a);
    FirstOfTwo(lit + dns, lea, a);
    FirstOfTwo(lit, dns, a);
    FirstOfTier(i.literals, Literal, a);
    FirstOfTier(Or(i.learned), Learned, a);
    FirstOfTier(Or(i.discovered), Discovered, a);
    assert i.hostnames[..|i.hostnames|] == i.hostnames;
    FirstOfHosts(i, |i.hostnames|, a);
    hide FirstSource, FromHosts, Supplies, HostSupplies;
  }

  // ---- one resolution ----

  // Strictly ascending and so without duplicates; exactly the addresses offered, unmapped,
  // that no tunnel's subnet contains; and each labelled by the first tier that supplied it.
  method ResolveWith(i: Inputs) returns (r: EndpointSet)
    ensures Ascending(r.addrs)
    ensures forall a :: a in r.addrs <==> FirstSource(Offers(i), a).Some? && !Inside(Filter(i), a)
    ensures forall a :: a in r.sources <==> a in r.addrs
    ensures forall a <- r.addrs :: Canonical(a) && Some(r.sources[a]) == FirstSource(Offers(i), a)
    ensures forall a :: a in r.addrs <==>
              Supplied(i, a) && !(i.tunnels != [] && i.subnets.Some? && Inside(i.subnets.value, a))
    ensures forall a <- r.addrs :: LabelledBy(i, a, r.sources[a])
  {
    forall a { FirstSourceIs(i, a); }
    hide LabelledBy, Supplied, FirstSource, Offers;
    var s := Collect(i);
    var addrs, sources := s.addrs, s.sources;
    if |i.tunnels| > 0 && |addrs| > 0 && i.subnets.Some? {
      var bad := CheckEndpointRouting(addrs, i.subnets.value);
      if |bad| > 0 {
        addrs, sources := Drop(addrs, sources, bad);
      }
    }
    SortedAscends(addrs);
    r := EndpointSet(Sorted(addrs), sources);
  }

  method Collect(i: Inputs) returns (s: EndpointSet)
    ensures Collects(s, Offers(i))
  {
    s := EndpointSet([], map[]);
    NothingYet();
    hide Collects;
    s := AddAll(s, i.literals, Literal, []);
    ghost var offers := From(i.literals, Literal);
    assert [] + offers == offers;
    assert offers + FromHosts(i.hostnames[..0], i.lookup) == offers;
    for k := 0 to |i.hostnames|
      invariant Collects(s, offers + FromHosts(i.hostnames[..k], i.lookup))
    {
      assert i.hostnames[..k + 1][..k] == i.hostnames[..k];
      var h := i.hostnames[k];
      ghost var before := offers + FromHosts(i.hostnames[..k], i.lookup);
      assert before + From(Or(i.lookup(h)), DNS(h)) == offers + FromHosts(i.hostnames[..k + 1], i.lookup);
      var ips := i.lookup(h);
      if ips.None? {
        assert before + [] == before;
        continue;
      }
      s := AddAll(s, ips.value, DNS(h), before);
    }
    assert i.hostnames[..|i.hostnames|] == i.hostnames;
    offers := offers + FromHosts(i.hostnames, i.lookup);
    assert offers + [] == offers;
    if i.learned.Some? {
      s := AddAll(s, i.learned.value, Learned, offers);
    }
    offers := offers + From(Or(i.learned), Learned);
    assert offers + [] == offers;
    if i.discovered.Some? {
      s := AddAll(s, i.discovered.value, Discovered, offers);
    }
  }

  lemma NothingYet()
    ensures Collects(EndpointSet([], map[]), [])
  {
  }

  method Drop(addrs: seq<Addr>, sources: map<Addr, Source>, bad: seq<EndpointRoute>)
    returns (kept: seq<Addr>, left: map<Addr, Source>)
    requires Distinct(addrs)
    ensures Distinct(kept)
    ensures forall a :: a in kept <==> a in addrs && !(exists b <- bad :: b.endpoint == a)
    ensures forall a :: a in left <==> a in sources && !(a in addrs && exists b <- bad :: b.endpoint == a)
    ensures forall a <- left :: left[a] == sources[a]
  {
    var drop := set b | b in bad :: b.endpoint;
    kept, left := [], sources;
    for i := 0 to |addrs|
      invariant Distinct(kept)
      invariant forall a :: a in kept <==> a in addrs[..i] && a !in drop
      invariant forall a :: a in left <==> a in sources && !(a in addrs[..i] && a in drop)
      invariant forall a <- left :: left[a] == sources[a]
    {
      assert addrs[..i + 1] == addrs[..i] + [addrs[i]];
      if addrs[i] in drop {
        left := left - {addrs[i]};
        continue;
      }
      kept := kept + [addrs[i]];
    }
    assert addrs[..|addrs|] == addrs;
  }

  // ---- comparing two sets ----

  // Ascending sequences of one set are one sequence.
  lemma {:induction false} AscendingIsCanonical(a: seq<Addr>, b: seq<Addr>)
    requires Ascending(a) && Ascending(b)
    requires forall x :: x in a <==> x in b
    ensures a == b
  {
    if |a| > 0 { assert a[|a| - 1] in b; }
    if |b| > 0 { assert b[|b| - 1] in a; }
    if |a| > 0 && |b| > 0 {
      var p, q := |a| - 1, |b| - 1;
      assert a[p] == b[q];
      forall x ensures x in a[..p] <==> x in b[..q] {
        assert x in a[..p] <==> x in a && x != a[p] by { assert a == a[..p] + [a[p]]; }
        assert x in b[..q] <==> x in b && x != b[q] by { assert b == b[..q] + [b[q]]; }
      }
      AscendingIsCanonical(a[..p], b[..q]);
      assert a == a[..p] + [a[p]] && b == b[..q] + [b[q]];
    }
  }

  // Comparing element by element compares the sets.
  method SameAddrs(s: EndpointSet, other: EndpointSet) returns (same: bool)
    requires Ascending(s.addrs) && Ascending(other.addrs)
    ensures same <==> forall x :: x in s.addrs <==> x in other.addrs
  {
    same := true;
    if |s.addrs| != |other.addrs| {
      same := false;
    } else {
      for i := 0 to |s.addrs|
        invariant s.addrs[..i] == other.addrs[..i]
      {
        if s.addrs[i] != other.addrs[i] {
          same := false;
          break;
        }
      }
    }
    assert same <==> s.addrs == other.addrs;
    if !same && forall x :: x in s.addrs <==> x in other.addrs {
      AscendingIsCanonical(s.addrs, other.addrs);
    }
  }
}
