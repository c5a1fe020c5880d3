// The store of server addresses learned at run time.

module Learned {
  import opened Basics
  import opened Text

  datatype Endpoint = Endpoint(addr: string, port: int, firstSeen: int, lastSeen: int)

  datatype Entry = Entry(name: string, endpoints: seq<Endpoint>, iface: string, source: string, learnedAt: int)

  const UNATTRIBUTED := "_unattributed"

  // ---- endpoints ----

  function Addrs(eps: seq<Endpoint>): set<string> {
    if |eps| == 0 then {} else Addrs(eps[..|eps| - 1]) + {eps[|eps| - 1].addr}
  }

  predicate UniqueAddrs(eps: seq<Endpoint>) {
    |eps| == 0 || (UniqueAddrs(eps[..|eps| - 1]) && eps[|eps| - 1].addr !in Addrs(eps[..|eps| - 1]))
  }

  lemma AddrsSnoc(eps: seq<Endpoint>, x: Endpoint)
    ensures Addrs(eps + [x]) == Addrs(eps) + {x.addr}
    ensures UniqueAddrs(eps + [x]) <==> UniqueAddrs(eps) && x.addr !in Addrs(eps)
  {
    assert (eps + [x])[..|eps|] == eps;
  }

  lemma {:induction false} AddrsAre(eps: seq<Endpoint>, addr: string)
    ensures addr in Addrs(eps) <==> exists e <- eps :: e.addr == addr
  {
    if |eps| > 0 {
      AddrsAre(eps[..|eps| - 1], addr);
      assert eps == eps[..|eps| - 1] + [eps[|eps| - 1]];
    }
  }

  // Where the address first stands, or -1.
  function FindEndpoint(eps: seq<Endpoint>, addr: string): (k: int)
    ensures -1 <= k < |eps|
    ensures k == -1 <==> addr !in Addrs(eps)
    ensures k >= 0 ==> eps[k].addr == addr
  {
    if |eps| == 0 then -1
    else
      var k := FindEndpoint(eps[..|eps| - 1], addr);
      if k >= 0 then k else if eps[|eps| - 1].addr == addr then |eps| - 1 else -1
  }

  // One address seen now. None is an address that is not valid.
  function Touched(eps: seq<Endpoint>, a: Option<string>, now: int): seq<Endpoint> {
    match a
    case None => eps
    case Some(addr) =>
      var k := FindEndpoint(eps, addr);
      if k >= 0 then eps[k := eps[k].(lastSeen := now)] else eps + [Endpoint(addr, 0, now, now)]
  }

  function AllTouched(eps: seq<Endpoint>, addrs: seq<Option<string>>, now: int): seq<Endpoint> {
    if |addrs| == 0 then eps
    else Touched(AllTouched(eps, addrs[..|addrs| - 1], now), addrs[|addrs| - 1], now)
  }

  function Valid(addrs: seq<Option<string>>): set<string> {
    set a | a in addrs && a.Some? :: a.value
  }

  // ---- the cap ----

  function Inserted(eps: seq<Endpoint>, x: Endpoint): (r: seq<Endpoint>)
    ensures |r| == |eps| + 1
  {
    if |eps| == 0 || eps[|eps| - 1].lastSeen >= x.lastSeen then eps + [x]
    else Inserted(eps[..|eps| - 1], x) + [eps[|eps| - 1]]
  }

  // The stable sort by recency, latest first.
  function ByRecency(eps: seq<Endpoint>): (r: seq<Endpoint>)
    ensures |r| == |eps|
  {
    if |eps| == 0 then [] else Inserted(ByRecency(eps[..|eps| - 1]), eps[|eps| - 1])
  }

  function Capped(eps: seq<Endpoint>, max: int): seq<Endpoint> {
    if max <= 0 || |eps| <= max then eps else ByRecency(eps)[..max]
  }

  predicate Descending(eps: seq<Endpoint>) {
    |eps| <= 1 ||
    var n := |eps| - 1;
    Descending(eps[..n]) && eps[n - 1].lastSeen >= eps[n].lastSeen
  }

  // The endpoints last seen at one instant, in order.
  function At(eps: seq<Endpoint>, t: int): seq<Endpoint> {
    if |eps| == 0 then []
    else if eps[|eps| - 1].lastSeen == t then At(eps[..|eps| - 1], t) + [eps[|eps| - 1]]
    else At(eps[..|eps| - 1], t)
  }

  // One step of the insertion.
  lemma InsertedStep(eps: seq<Endpoint>, x: Endpoint)
    ensures Inserted([], x) == [x]
    ensures forall last: Endpoint :: Inserted(eps + [last], x) ==
              if last.lastSeen >= x.lastSeen then eps + [last] + [x] else Inserted(eps, x) + [last]
  {
    forall last: Endpoint
      ensures Inserted(eps + [last], x) ==
                if last.lastSeen >= x.lastSeen then eps + [last] + [x] else Inserted(eps, x) + [last]
    {
      assert (eps + [last])[..|eps|] == eps;
    }
  }

  lemma {:induction false} InsertedDescends(eps: seq<Endpoint>, x: Endpoint)
    requires Descending(eps)
    ensures Descending(Inserted(eps, x))
    ensures var last := Inserted(eps, x)[|eps|]; last == x || (|eps| > 0 && last == eps[|eps| - 1])
  {
    hide Descending, Inserted;
    if |eps| == 0 {
      InsertedStep([], x);
      OneDescends(x);
      assert eps == [];
    } else {
      var front, last := eps[..|eps| - 1], eps[|eps| - 1];
      assert eps == front + [last];
      InsertedStep(front, x);
      DescendsSnoc(front, last);
      if last.lastSeen >= x.lastSeen {
        DescendsSnoc(eps, x);
      } else {
        InsertedDescends(front, x);
        DescendsSnoc(Inserted(front, x), last);
      }
    }
  }

  lemma OneDescends(x: Endpoint)
    ensures Descending([x])
  {
  }

  lemma DescendsSnoc(eps: seq<Endpoint>, x: Endpoint)
    ensures Descending(eps + [x]) <==> Descending(eps) && (|eps| > 0 ==> eps[|eps| - 1].lastSeen >= x.lastSeen)
  {
    assert (eps + [x])[..|eps|] == eps;
  }

  lemma {:induction false} InsertedAddrs(eps: seq<Endpoint>, x: Endpoint)
    ensures Addrs(Inserted(eps, x)) == Addrs(eps) + {x.addr}
    ensures UniqueAddrs(Inserted(eps, x)) <==> UniqueAddrs(eps) && x.addr !in Addrs(eps)
  {
    hide Addrs, UniqueAddrs, Inserted;
    AddrsSnoc(eps, x);
    if |eps| == 0 {
      InsertedStep([], x);
      assert eps == [] && [] + [x] == [x];
    } else {
      var front, last := eps[..|eps| - 1], eps[|eps| - 1];
      assert eps == front + [last];
      InsertedStep(front, x);
      InsertedAddrs(front, x);
      AddrsSnoc(front, last);
      AddrsSnoc(Inserted(front, x), last);
    }
  }

  lemma AtSnoc(eps: seq<Endpoint>, x: Endpoint, t: int)
    ensures At(eps + [x], t) == if x.lastSeen == t then At(eps, t) + [x] else At(eps, t)
  {
    assert (eps + [x])[..|eps|] == eps;
  }

  lemma {:induction false} InsertedAt(eps: seq<Endpoint>, x: Endpoint, t: int)
    ensures At(Inserted(eps, x), t) == if x.lastSeen == t then At(eps, t) + [x] else At(eps, t)
  {
    hide At, Inserted;
    AtSnoc(eps, x, t);
    if |eps| == 0 {
      InsertedStep([], x);
      assert eps == [] && [] + [x] == [x];
    } else {
      var front, last := eps[..|eps| - 1], eps[|eps| - 1];
      assert eps == front + [last];
      InsertedStep(front, x);
      InsertedAt(front, x, t);
      AtSnoc(front, last, t);
      AtSnoc(Inserted(front, x), last, t);
    }
  }

  lemma {:induction false} InsertedMembers(eps: seq<Endpoint>, x: Endpoint, e: Endpoint)
    ensures e in Inserted(eps, x) <==> e in eps || e == x
  {
    var n := |eps| - 1;
    if |eps| > 0 {
      assert eps == eps[..n] + [eps[n]];
      if eps[n].lastSeen < x.lastSeen { InsertedMembers(eps[..n], x, e); }
    }
  }

  lemma NoneDescends(t: int)
    ensures Descending([]) && At([], t) == []
  {
  }

  // The sort is the stable sort: latest first, and within one instant in the order given.
  lemma {:induction false} RecencyIsStable(eps: seq<Endpoint>, t: int)
    ensures Descending(ByRecency(eps)) && At(ByRecency(eps), t) == At(eps, t)
  {
    hide Inserted, Descending, At;
    if |eps| == 0 {
      NoneDescends(t);
    } else {
      var n := |eps| - 1;
      RecencyIsStable(eps[..n], t);
      InsertedDescends(ByRecency(eps[..n]), eps[n]);
      InsertedAt(ByRecency(eps[..n]), eps[n], t);
      AtSnoc(eps[..n], eps[n], t);
      assert eps == eps[..n] + [eps[n]];
    }
  }

  lemma {:induction false} RecencyKeepsAddrs(eps: seq<Endpoint>)
    ensures Addrs(ByRecency(eps)) == Addrs(eps) && UniqueAddrs(ByRecency(eps)) == UniqueAddrs(eps)
  {
    if |eps| > 0 {
      var n := |eps| - 1;
      RecencyKeepsAddrs(eps[..n]);
      InsertedAddrs(ByRecency(eps[..n]), eps[n]);
    }
  }

  lemma {:induction false} RecencyKeepsMembers(eps: seq<Endpoint>, e: Endpoint)
    ensures e in ByRecency(eps) <==> e in eps
  {
    if |eps| > 0 {
      var n := |eps| - 1;
      RecencyKeepsMembers(eps[..n], e);
      InsertedMembers(ByRecency(eps[..n]), eps[n], e);
      assert eps == eps[..n] + [eps[n]];
    }
  }

  // ---- what the cap evicts ----

  lemma {:induction false} EarlierIsLater(eps: seq<Endpoint>, i: nat, j: nat)
    requires Descending(eps) && i < j < |eps|
    ensures eps[i].lastSeen >= eps[j].lastSeen
  {
    if j < |eps| - 1 {
      EarlierIsLater(eps[..|eps| - 1], i, j);
    } else if i < j - 1 {
      EarlierIsLater(eps[..|eps| - 1], i, j - 1);
    }
  }

  lemma {:induction false} PrefixIsUnique(eps: seq<Endpoint>, n: nat)
    requires UniqueAddrs(eps) && n <= |eps|
    ensures UniqueAddrs(eps[..n])
  {
    if n < |eps| {
      assert eps[..|eps| - 1][..n] == eps[..n];
      PrefixIsUnique(eps[..|eps| - 1], n);
    } else {
      assert eps[..n] == eps;
    }
  }

  // The cap holds, keeps only what was there, and evicts nothing more recent than anything
  // it keeps.
  lemma CapEvictsOldest(eps: seq<Endpoint>, max: int)
    ensures var kept := Capped(eps, max);
            && |kept| == (if max <= 0 then |eps| else Min(max, |eps|))
            && (UniqueAddrs(eps) ==> UniqueAddrs(kept))
            && (forall e <- kept :: e in eps)
            && (forall e <- eps, k <- kept :: e !in kept ==> k.lastSeen >= e.lastSeen)
  {
    hide ByRecency, UniqueAddrs, Descending, At, Addrs;
    if 0 < max < |eps| {
      var all := ByRecency(eps);
      RecencyKeepsAddrs(eps);
      RecencyIsStable(eps, 0);
      if UniqueAddrs(eps) { PrefixIsUnique(all, max); }
      forall e ensures e in all <==> e in eps { RecencyKeepsMembers(eps, e); }
      CutIsRecent(all, max);
    }
  }

  lemma CutIsRecent(all: seq<Endpoint>, max: nat)
    requires Descending(all) && max <= |all|
    ensures forall e <- all[..max] :: e in all
    ensures forall e <- all, k <- all[..max] :: e !in all[..max] ==> k.lastSeen >= e.lastSeen
  {
    var kept := all[..max];
    forall i | 0 <= i < max ensures all[i] in kept { assert kept[i] == all[i]; }
    forall e <- all, k <- kept | e !in kept
      ensures k.lastSeen >= e.lastSeen
    {
      var j :| 0 <= j < |all| && all[j] == e;
      var i :| 0 <= i < |kept| && kept[i] == k;
      EarlierIsLater(all, i, j);
    }
  }

  // ---- what recording does to one entry's endpoints ----

  lemma TouchedOne(eps: seq<Endpoint>, a: Option<string>, now: int)
    requires UniqueAddrs(eps)
    ensures var r := Touched(eps, a, now);
            && UniqueAddrs(r)
            && Addrs(r) == Addrs(eps) + if a.Some? then {a.value} else {}
  {
    if a.Some? {
      var k := FindEndpoint(eps, a.value);
      if k >= 0 {
        SameAddrs(eps, eps[k := eps[k].(lastSeen := now)]);
      } else {
        AddrsSnoc(eps, Endpoint(a.value, 0, now, now));
      }
    }
  }

  lemma {:induction false} SameAddrs(eps: seq<Endpoint>, eps': seq<Endpoint>)
    requires |eps| == |eps'| && forall i :: 0 <= i < |eps| ==> eps[i].addr == eps'[i].addr
    ensures Addrs(eps) == Addrs(eps') && UniqueAddrs(eps) == UniqueAddrs(eps')
  {
    if |eps| > 0 { SameAddrs(eps[..|eps| - 1], eps'[..|eps| - 1]); }
  }

  // An address seen now: as it was but for the time, or new.
  function Stamped(eps: seq<Endpoint>, addr: string, now: int): Endpoint {
    var k := FindEndpoint(eps, addr);
    if k >= 0 then eps[k].(lastSeen := now) else Endpoint(addr, 0, now, now)
  }

  // Where `r` stands to `eps` once `recorded` have been seen: each of those is there and stamped
  // now, everything else is as it was, and no address is there twice.
  predicate Stamps(eps: seq<Endpoint>, r: seq<Endpoint>, recorded: set<string>, now: int) {
    && UniqueAddrs(r) && Addrs(r) == Addrs(eps) + recorded
    && (forall e <- r :: if e.addr in recorded then e == Stamped(eps, e.addr, now) else e in eps)
  }

  lemma StampsOneMore(eps: seq<Endpoint>, mid: seq<Endpoint>, recorded: set<string>, a: Option<string>, now: int)
    requires Stamps(eps, mid, recorded, now) && UniqueAddrs(eps)
    ensures Stamps(eps, Touched(mid, a, now), recorded + if a.Some? then {a.value} else {}, now)
  {
    hide Touched, UniqueAddrs, Addrs;
    TouchedOne(mid, a, now);
    if a.Some? {
      StampedOne(mid, a.value, now);
      StampedAgain(eps, mid, recorded, a.value, now);
      hide Stamped;
    } else {
      assert recorded + {} == recorded;
      TouchedNone(mid, now);
    }
  }

  lemma TouchedNone(eps: seq<Endpoint>, now: int)
    ensures Touched(eps, None, now) == eps
  {
  }

  lemma ValidSnoc(addrs: seq<Option<string>>, a: Option<string>)
    ensures Valid(addrs + [a]) == Valid(addrs) + if a.Some? then {a.value} else {}
  {
  }

  // Everything recorded is there and stamped now; everything else is as it was.
  lemma {:induction false} AllTouchedAre(eps: seq<Endpoint>, addrs: seq<Option<string>>, now: int)
    requires UniqueAddrs(eps)
    ensures Stamps(eps, AllTouched(eps, addrs, now), Valid(addrs), now)
  {
    hide Touched, UniqueAddrs, Addrs;
    if |addrs| > 0 {
      hide Stamps, Valid;
      var front, a := addrs[..|addrs| - 1], addrs[|addrs| - 1];
      assert addrs == front + [a];
      ValidSnoc(front, a);
      AllTouchedAre(eps, front, now);
      StampsOneMore(eps, AllTouched(eps, front, now), Valid(front), a, now);
      assert Stamps(eps, AllTouched(eps, addrs, now), Valid(addrs), now);
    }
  }

  lemma StampedOne(eps: seq<Endpoint>, addr: string, now: int)
    requires UniqueAddrs(eps)
    ensures forall e <- Touched(eps, Some(addr), now) ::
              if e.addr == addr then e == Stamped(eps, addr, now) else e in eps
  {
    var r, k := Touched(eps, Some(addr), now), FindEndpoint(eps, addr);
    forall i | 0 <= i < |r|
      ensures if r[i].addr == addr then r[i] == Stamped(eps, addr, now) else r[i] in eps
    {
      if i < |eps| && i != k {
        AddrsAre(eps, addr);
        if k >= 0 { Apart(eps, if i < k then i else k, if i < k then k else i); }
      }
    }
  }

  // Seen once more, an address keeps what it had at first.
  lemma StampedAgain(eps: seq<Endpoint>, mid: seq<Endpoint>, recorded: set<string>, addr: string, now: int)
    requires Stamps(eps, mid, recorded, now) && UniqueAddrs(eps)
    ensures Stamped(mid, addr, now) == Stamped(eps, addr, now)
  {
    hide UniqueAddrs, Addrs;
    var k := FindEndpoint(mid, addr);
    if k >= 0 {
      assert mid[k] in mid;
      var j := FindEndpoint(eps, addr);
      if addr !in recorded { OneOf(eps, mid[k], eps[j]); }
    }
  }

  lemma {:induction false} Apart(eps: seq<Endpoint>, i: nat, j: nat)
    requires UniqueAddrs(eps) && i < j < |eps|
    ensures eps[i].addr != eps[j].addr
  {
    if j < |eps| - 1 {
      Apart(eps[..|eps| - 1], i, j);
    } else {
      AddrsAre(eps[..j], eps[i].addr);
      assert eps[..j][i] == eps[i];
    }
  }

  lemma {:induction false} AddrCount(eps: seq<Endpoint>)
    requires UniqueAddrs(eps)
    ensures |Addrs(eps)| == |eps|
  {
    if |eps| > 0 { AddrCount(eps[..|eps| - 1]); }
  }

  // Where nothing stored is as recent, the addresses just recorded all survive the cap exactly
  // when they fit it.
  lemma JustRecordedSurvive(eps: seq<Endpoint>, addrs: seq<Option<string>>, max: int, now: int)
    requires UniqueAddrs(eps) && forall e <- eps :: e.lastSeen < now
    ensures Valid(addrs) <= Addrs(Capped(AllTouched(eps, addrs, now), max)) <==> max <= 0 || |Valid(addrs)| <= max
  {
    var all := AllTouched(eps, addrs, now);
    var kept := Capped(all, max);
    AllTouchedAre(eps, addrs, now);
    CapEvictsOldest(all, max);
    AddrCount(kept);
    if Valid(addrs) <= Addrs(kept) { SubsetSize(Valid(addrs), Addrs(kept)); }
    forall a <- Valid(addrs) | max <= 0 || |Valid(addrs)| <= max
      ensures a in Addrs(kept)
    {
      AddrsAre(all, a);
      var e :| e in all && e.addr == a;
      AddrsAre(kept, a);
      if e !in kept {
        Crowded(eps, all, kept, e, Valid(addrs), now);
      }
    }
  }

  // An endpoint stamped now is evicted only in favour of as many others stamped now.
  lemma Crowded(eps: seq<Endpoint>, all: seq<Endpoint>, kept: seq<Endpoint>, e: Endpoint, recorded: set<string>,
      now: int)
    requires UniqueAddrs(all) && UniqueAddrs(kept) && e in all && e !in kept && e.lastSeen == now && e.addr in recorded
    requires forall k <- kept :: k in all && k.lastSeen >= e.lastSeen
    requires forall k <- all :: if k.addr in recorded then k.lastSeen == now else k in eps
    requires forall k <- eps :: k.lastSeen < now
    ensures |kept| < |recorded|
  {
    forall a <- Addrs(kept)
      ensures a in recorded - {e.addr}
    {
      AddrsAre(kept, a);
      var k :| k in kept && k.addr == a;
      if a == e.addr { OneOf(all, k, e); }
    }
    AddrCount(kept);
    SubsetSize(Addrs(kept), recorded - {e.addr});
  }

  lemma OneOf(eps: seq<Endpoint>, a: Endpoint, b: Endpoint)
    requires UniqueAddrs(eps) && a in eps && b in eps && a.addr == b.addr
    ensures a == b
  {
    var i :| 0 <= i < |eps| && eps[i] == a;
    var j :| 0 <= j < |eps| && eps[j] == b;
    if i < j { Apart(eps, i, j); } else if j < i { Apart(eps, j, i); }
  }

  // ---- the store ----

  predicate UniqueNames(es: seq<Entry>) {
    forall i, j :: 0 <= i < j < |es| ==> !EqualFold(es[i].name, es[j].name)
  }

  // No two entries by one name, whatever its case, and no address twice in an entry.
  predicate Sound(es: seq<Entry>) {
    UniqueNames(es) && forall e <- es :: UniqueAddrs(e.endpoints)
  }

  predicate Fits(es: seq<Entry>, max: int) {
    forall e <- es :: |e.endpoints| <= max
  }

  function Total(es: seq<Entry>): nat {
    if |es| == 0 then 0 else Total(es[..|es| - 1]) + |es[|es| - 1].endpoints|
  }

  function FindEntry(es: seq<Entry>, name: string): (k: int)
    ensures -1 <= k < |es|
    ensures k == -1 ==> forall i :: 0 <= i < |es| ==> !EqualFold(es[i].name, name)
    ensures k >= 0 ==> EqualFold(es[k].name, name) && forall i :: 0 <= i < k ==> !EqualFold(es[i].name, name)
  {
    if |es| == 0 then -1
    else
      var k := FindEntry(es[..|es| - 1], name);
      if k >= 0 then k else if EqualFold(es[|es| - 1].name, name) then |es| - 1 else -1
  }

  function NameOf(name: string): string {
    if name == "" then UNATTRIBUTED else name
  }

  function Renewed(e: Entry, iface: string, source: string, addrs: seq<Option<string>>, max: int, now: int): Entry {
    e.(iface := iface, source := source, endpoints := Capped(AllTouched(e.endpoints, addrs, now), max))
  }

  function Recorded(es: seq<Entry>, name: string, iface: string, source: string, addrs: seq<Option<string>>,
      max: int, now: int): seq<Entry>
  {
    var k := FindEntry(es, NameOf(name));
    if k >= 0 then es[k := Renewed(es[k], iface, source, addrs, max, now)]
    else es + [Renewed(Entry(NameOf(name), [], "", "", now), iface, source, addrs, max, now)]
  }

  function Fresh(eps: seq<Endpoint>, ttl: int, now: int): seq<Endpoint> {
    if |eps| == 0 then []
    else
      var e := eps[|eps| - 1];
      if ttl > 0 && now - e.lastSeen > ttl then Fresh(eps[..|eps| - 1], ttl, now)
      else Fresh(eps[..|eps| - 1], ttl, now) + [e]
  }

  function Pruned(es: seq<Entry>, ttl: int, max: int, now: int): seq<Entry> {
    if |es| == 0 then []
    else
      var e := es[|es| - 1];
      var left := Capped(Fresh(e.endpoints, ttl, now), max);
      var before := Pruned(es[..|es| - 1], ttl, max, now);
      if left == [] then before else before + [e.(endpoints := left)]
  }

  function Forgotten(es: seq<Entry>, name: string): seq<Entry> {
    var k := FindEntry(es, name);
    if k >= 0 then es[..k] + es[k + 1..] else es
  }

  class Store {
    var entries: seq<Entry>

    constructor ()
      ensures entries == []
    {
      entries := [];
    }

    method Record(name: string, iface: string, source: string, addrs: seq<Option<string>>, maxPerEntry: int, now: int)
      modifies this
      ensures entries == Recorded(old(entries), name, iface, source, addrs, maxPerEntry, now)
      ensures Sound(old(entries)) ==>
                Wrote(old(entries), entries, if name == "" then "_unattributed" else name,
                  iface, source, addrs, maxPerEntry, now)
    {
      hide Capped, AllTouched, UniqueAddrs, Wrote;
      ghost var was := entries;
      var n := if name == "" then UNATTRIBUTED else name;
      var at := FindEntry(entries, n);
      if at < 0 {
        entries := entries + [Entry(n, [], "", "", now)];
        at := |entries| - 1;
      }
      var e := entries[at];
      var eps := TouchEach(e.endpoints, addrs, now);
      var evicted;
      eps, evicted := CapEndpoints(eps, maxPerEntry);
      entries := entries[at := e.(iface := iface, source := source, endpoints := eps)];
      if Sound(was) { RecordedIsWritten(was, name, iface, source, addrs, maxPerEntry, now); }
    }

    // Both the entries and each entry's endpoints are compacted where they lie: what is read
    // at `i` has not been written yet, since no more is kept than was read.
    method Prune(ttl: int, maxPerEntry: int, now: int) returns (dropped: nat)
      modifies this
      ensures entries == Pruned(old(entries), ttl, maxPerEntry, now)
      ensures dropped == Total(old(entries)) - Total(entries)
    {
      hide Capped, Fresh, Pruned, Compacting, Total;
      dropped := 0;
      var kept := 0;
      CompactStart(entries, ttl, maxPerEntry, now);
      ghost var was := entries;
      var es := entries;
      for i := 0 to |es|
        invariant Compacting(was, es, i, kept, dropped, ttl, maxPerEntry, now) && entries == was
      {
        CompactStep(was, es, i, kept, dropped, ttl, maxPerEntry, now);
        var eps, stale := DropStale(es[i].endpoints, ttl, now);
        var evicted;
        eps, evicted := CapEndpoints(eps, maxPerEntry);
        dropped := dropped + stale + evicted;
        if |eps| > 0 {
          es := es[kept := es[i].(endpoints := eps)];
          kept := kept + 1;
        }
      }
      assert was[..|was|] == was;
      entries := es[..kept];
    }

    method Forget(name: string) returns (existed: bool)
      modifies this
      ensures entries == Forgotten(old(entries), name) && existed == (|entries| < |old(entries)|)
    {
      for i := 0 to |entries|
        invariant entries == old(entries)
        invariant forall j :: 0 <= j < i ==> !EqualFold(entries[j].name, name)
      {
        if EqualFold(entries[i].name, name) {
          assert FindEntry(entries, name) == i;
          entries := entries[..i] + entries[i + 1..];
          return true;
        }
      }
      existed := false;
    }
  }

  // Half way through a compaction: the first `kept` places hold what the first `i` entries
  // leave, the rest is as it was, and what is missing has been counted.
  predicate Compacting(was: seq<Entry>, es: seq<Entry>, i: nat, kept: nat, dropped: int, ttl: int, max: int, now: int)
  {
    && kept <= i <= |es| == |was|
    && es[i..] == was[i..]
    && es[..kept] == Pruned(was[..i], ttl, max, now)
    && dropped + Total(es[..kept]) == Total(was[..i])
  }

  lemma CompactStart(was: seq<Entry>, ttl: int, max: int, now: int)
    ensures Compacting(was, was, 0, 0, 0, ttl, max, now)
    ensures forall es, kept: nat, dropped :: Compacting(was, es, |was|, kept, dropped, ttl, max, now) ==>
              kept <= |es| && es[..kept] == Pruned(was, ttl, max, now) && dropped == Total(was) - Total(es[..kept])
  {
    assert was[..|was|] == was;
  }

  lemma CompactStep(was: seq<Entry>, es: seq<Entry>, i: nat, kept: nat, dropped: int, ttl: int, max: int, now: int)
    requires Compacting(was, es, i, kept, dropped, ttl, max, now) && i < |was|
    ensures var left := Capped(Fresh(es[i].endpoints, ttl, now), max);
            var dropped' := dropped + |es[i].endpoints| - |left|;
            && kept <= i < |es|
            && (if left == [] then Compacting(was, es, i + 1, kept, dropped', ttl, max, now)
                else Compacting(was, es[kept := es[i].(endpoints := left)], i + 1, kept + 1, dropped', ttl, max, now))
  {
    hide Capped, Fresh, Pruned, Total;
    SameTail(es, was, i);
    PrunedNext(was, i, ttl, max, now);
    var left := Capped(Fresh(was[i].endpoints, ttl, now), max);
    if left != [] {
      PutAt(es, kept, was[i].(endpoints := left), i);
    }
  }

  lemma SameTail(a: seq<Entry>, b: seq<Entry>, i: nat)
    requires i < |a| == |b| && a[i..] == b[i..]
    ensures a[i] == b[i] && a[i + 1..] == b[i + 1..]
  {
    assert a[i..][0] == b[i..][0] && a[i..][1..] == b[i..][1..];
  }

  lemma PrunedNext(was: seq<Entry>, i: nat, ttl: int, max: int, now: int)
    requires i < |was|
    ensures var left := Capped(Fresh(was[i].endpoints, ttl, now), max);
            var before := Pruned(was[..i], ttl, max, now);
            Pruned(was[..i + 1], ttl, max, now) == if left == [] then before else before + [was[i].(endpoints := left)]
    ensures Total(was[..i + 1]) == Total(was[..i]) + |was[i].endpoints|
  {
    hide Capped, Fresh;
    assert was[..i + 1][..i] == was[..i];
  }

  lemma PutAt(es: seq<Entry>, kept: nat, e: Entry, i: nat)
    requires kept <= i < |es|
    ensures es[kept := e][..kept + 1] == es[..kept] + [e] && es[kept := e][i + 1..] == es[i + 1..]
    ensures Total(es[..kept] + [e]) == Total(es[..kept]) + |e.endpoints|
  {
    Overwritten(es, kept, e, i);
  }

  method TouchEach(eps: seq<Endpoint>, addrs: seq<Option<string>>, now: int) returns (out: seq<Endpoint>)
    ensures out == AllTouched(eps, addrs, now)
  {
    out := eps;
    for i := 0 to |addrs|
      invariant out == AllTouched(eps, addrs[..i], now)
    {
      assert addrs[..i + 1][..i] == addrs[..i];
      if addrs[i].None? {
        continue;
      }
      var k := FindEndpoint(out, addrs[i].value);
      if k >= 0 {
        out := out[k := out[k].(lastSeen := now)];
      } else {
        out := out + [Endpoint(addrs[i].value, 0, now, now)];
      }
    }
    assert addrs[..|addrs|] == addrs;
  }

  method CapEndpoints(eps: seq<Endpoint>, max: int) returns (left: seq<Endpoint>, evicted: nat)
    ensures left == Capped(eps, max) && evicted == |eps| - |left|
  {
    if max <= 0 || |eps| <= max {
      return eps, 0;
    }
    left := ByRecency(eps)[..max];
    evicted := |eps| - max;
  }

  // Half way through dropping what is stale: the first `kept` places hold what the first `i`
  // endpoints leave, and the rest is as it was.
  predicate Dropping(eps: seq<Endpoint>, out: seq<Endpoint>, i: nat, kept: nat, ttl: int, now: int) {
    && kept <= i <= |out| == |eps|
    && out[i..] == eps[i..]
    && out[..kept] == Fresh(eps[..i], ttl, now)
  }

  lemma DropStart(eps: seq<Endpoint>, ttl: int, now: int)
    ensures Dropping(eps, eps, 0, 0, ttl, now)
    ensures forall out, kept: nat :: Dropping(eps, out, |eps|, kept, ttl, now) ==>
              kept <= |out| == |eps| && out[..kept] == Fresh(eps, ttl, now)
  {
    assert eps[..|eps|] == eps;
  }

  lemma DropStep(eps: seq<Endpoint>, out: seq<Endpoint>, i: nat, kept: nat, ttl: int, now: int)
    requires Dropping(eps, out, i, kept, ttl, now) && i < |eps|
    ensures kept <= i < |out|
    ensures var e := out[i];
            if ttl > 0 && now - e.lastSeen > ttl then Dropping(eps, out, i + 1, kept, ttl, now)
            else Dropping(eps, out[kept := e], i + 1, kept + 1, ttl, now)
  {
    FreshNext(eps, i, ttl, now);
    hide Fresh;
    assert out[i] == out[i..][0] == eps[i];
    assert eps[i + 1..] == eps[i..][1..];
    Overwritten(out, kept, out[i], i);
  }

  lemma FreshNext(eps: seq<Endpoint>, i: nat, ttl: int, now: int)
    requires i < |eps|
    ensures var e, before := eps[i], Fresh(eps[..i], ttl, now);
            Fresh(eps[..i + 1], ttl, now) == if ttl > 0 && now - e.lastSeen > ttl then before else before + [e]
  {
    assert eps[..i + 1][..i] == eps[..i];
  }

  method DropStale(eps: seq<Endpoint>, ttl: int, now: int) returns (fresh_: seq<Endpoint>, dropped: nat)
    ensures fresh_ == Fresh(eps, ttl, now) && dropped == |eps| - |fresh_|
  {
    hide Dropping, Fresh;
    DropStart(eps, ttl, now);
    fresh_, dropped := eps, 0;
    var kept := 0;
    for i := 0 to |eps|
      invariant Dropping(eps, fresh_, i, kept, ttl, now) && dropped == i - kept
    {
      DropStep(eps, fresh_, i, kept, ttl, now);
      var e := fresh_[i];
      if ttl > 0 && now - e.lastSeen > ttl {
        dropped := dropped + 1;
        continue;
      }
      fresh_ := fresh_[kept := e];
      kept := kept + 1;
    }
    fresh_ := fresh_[..kept];
  }

  // ---- what every operation keeps ----

  lemma RenewedIs(e: Entry, iface: string, source: string, addrs: seq<Option<string>>, max: int, now: int)
    requires UniqueAddrs(e.endpoints)
    ensures var r := Renewed(e, iface, source, addrs, max, now);
            r.name == e.name && UniqueAddrs(r.endpoints) && (max > 0 ==> |r.endpoints| <= max)
  {
    AllTouchedAre(e.endpoints, addrs, now);
    CapEvictsOldest(AllTouched(e.endpoints, addrs, now), max);
  }

  lemma RecordKeepsSound(es: seq<Entry>, name: string, iface: string, source: string, addrs: seq<Option<string>>,
      max: int, now: int)
    requires Sound(es)
    ensures var r := Recorded(es, name, iface, source, addrs, max, now);
            && Sound(r) && (max > 0 && Fits(es, max) ==> Fits(r, max))
  {
    hide Renewed, EqualFold, UniqueAddrs;
    var k := FindEntry(es, NameOf(name));
    if k >= 0 {
      assert es[k] in es;
      RenewedIs(es[k], iface, source, addrs, max, now);
    } else {
      EmptyIsUnique();
      RenewedIs(Entry(NameOf(name), [], "", "", now), iface, source, addrs, max, now);
      FoldIsSymmetric();
    }
  }

  lemma EmptyIsUnique()
    ensures UniqueAddrs([])
  {
  }

  lemma FoldIsSymmetric()
    ensures forall a, b :: EqualFold(a, b) <==> EqualFold(b, a)
  {
  }

  // Recording touches the one entry by that name and no other, and what it recorded is there
  // exactly when it fits.
  lemma RecordReaches(es: seq<Entry>, name: string, iface: string, source: string, addrs: seq<Option<string>>,
      max: int, now: int)
    requires Sound(es) && forall e <- es, ep <- e.endpoints :: ep.lastSeen < now
    ensures forall e <- Recorded(es, name, iface, source, addrs, max, now) ::
              if !EqualFold(e.name, NameOf(name)) then e in es
              else Valid(addrs) <= Addrs(e.endpoints) <==> max <= 0 || |Valid(addrs)| <= max
  {
    var r := Recorded(es, name, iface, source, addrs, max, now);
    var k := FindEntry(es, NameOf(name));
    RecordKeepsSound(es, name, iface, source, addrs, max, now);
    var at := if k >= 0 then k else |es|;
    var was := if k >= 0 then es[k] else Entry(NameOf(name), [], "", "", now);
    EmptyIsUnique();
    assert k >= 0 ==> es[k] in es;
    JustRecordedSurvive(was.endpoints, addrs, max, now);
    hide UniqueAddrs, AllTouched, Capped, FindEntry, Addrs, Valid;
    forall e <- r
      ensures if !EqualFold(e.name, NameOf(name)) then e in es
              else Valid(addrs) <= Addrs(e.endpoints) <==> max <= 0 || |Valid(addrs)| <= max
    {
      var i :| 0 <= i < |r| && r[i] == e;
      if i != at {
        assert r[i] == es[i] && !EqualFold(r[i].name, r[at].name);
      }
    }
  }

  // ---- what one recording writes ----

  // An entry's endpoints before and after `addrs` were seen: no address twice; of the addresses
  // seen those kept are stamped now, and keep the rest of what was known of them, or are new;
  // the others are as they were; as many are kept as fit, and none is left out in favour of one
  // less recent.
  ghost predicate Seen(was: seq<Endpoint>, eps: seq<Endpoint>, addrs: seq<Option<string>>, max: int, now: int) {
    && (forall i, j :: 0 <= i < j < |eps| ==> eps[i].addr != eps[j].addr)
    && (forall e <- eps | Some(e.addr) in addrs ::
          if exists w <- was :: w.addr == e.addr then exists w <- was :: w.addr == e.addr && e == w.(lastSeen := now)
          else e == Endpoint(e.addr, 0, now, now))
    && (forall e <- eps | Some(e.addr) !in addrs :: e in was)
    && (var all := |(set w | w in was :: w.addr) + (set a | a in addrs && a.Some? :: a.value)|;
        |eps| == if max <= 0 then all else Min(max, all))
    && (forall a <- addrs, k <- eps | a.Some? :: (exists e <- eps :: e.addr == a.value) || k.lastSeen >= now)
    && (forall w <- was, k <- eps | Some(w.addr) !in addrs :: w in eps || k.lastSeen >= w.lastSeen)
  }

  lemma {:induction false} AddrSet(eps: seq<Endpoint>)
    ensures Addrs(eps) == set e | e in eps :: e.addr
  {
    if |eps| > 0 {
      AddrSet(eps[..|eps| - 1]);
      assert eps == eps[..|eps| - 1] + [eps[|eps| - 1]];
    }
  }

  lemma TouchedIsSeen(was: seq<Endpoint>, addrs: seq<Option<string>>, max: int, now: int)
    requires UniqueAddrs(was)
    ensures Seen(was, Capped(AllTouched(was, addrs, now), max), addrs, max, now)
  {
    hide Touched, AllTouched, Capped, UniqueAddrs, Addrs;
    var all := AllTouched(was, addrs, now);
    var eps := Capped(all, max);
    AllTouchedAre(was, addrs, now);
    CapEvictsOldest(all, max);
    AddrCount(all);
    AddrSet(was);
    forall i, j | 0 <= i < j < |eps| ensures eps[i].addr != eps[j].addr { Apart(eps, i, j); }
    forall e <- eps | Some(e.addr) in addrs
      ensures if exists w <- was :: w.addr == e.addr
              then exists w <- was :: w.addr == e.addr && e == w.(lastSeen := now)
              else e == Endpoint(e.addr, 0, now, now)
    {
      assert e.addr in Valid(addrs);
      AddrsAre(was, e.addr);
    }
    forall e <- eps | Some(e.addr) !in addrs ensures e in was {
      assert e.addr !in Valid(addrs);
    }
    forall a <- addrs, k <- eps | a.Some?
      ensures (exists e <- eps :: e.addr == a.value) || k.lastSeen >= now
    {
      assert a.value in Valid(addrs);
      AddrsAre(all, a.value);
      var e :| e in all && e.addr == a.value;
    }
    forall w <- was, k <- eps | Some(w.addr) !in addrs
      ensures w in eps || k.lastSeen >= w.lastSeen
    {
      assert w.addr !in Valid(addrs);
      AddrsAre(was, w.addr);
      AddrsAre(all, w.addr);
      var e :| e in all && e.addr == w.addr;
      OneOf(was, w, e);
    }
  }

  // The store before and after a recording under the name `n`: one entry by that name, whatever its
  // case, holding what was seen; learned now if the name is new; and all the others untouched.
  ghost predicate Wrote(es: seq<Entry>, r: seq<Entry>, n: string, iface: string, source: string,
      addrs: seq<Option<string>>, max: int, now: int)
  {
    exists k: nat :: k < |r| && WroteAt(es, r, k, n, iface, source, addrs, max, now)
  }

  ghost predicate WroteAt(es: seq<Entry>, r: seq<Entry>, k: nat, n: string, iface: string, source: string,
      addrs: seq<Option<string>>, max: int, now: int)
    requires k < |r|
  {
    && EqualFold(r[k].name, n)
    && (forall j :: 0 <= j < |r| && j != k ==> !EqualFold(r[j].name, n))
    && r[k].iface == iface && r[k].source == source
    && if exists e <- es :: EqualFold(e.name, n) then
         && k < |es| == |r| && r == es[k := r[k]]
         && r[k].name == es[k].name && r[k].learnedAt == es[k].learnedAt
         && Seen(es[k].endpoints, r[k].endpoints, addrs, max, now)
       else
         && r == es + [r[k]]
         && r[k].name == n && r[k].learnedAt == now
         && Seen([], r[k].endpoints, addrs, max, now)
  }

  lemma RecordedIsWritten(es: seq<Entry>, name: string, iface: string, source: string, addrs: seq<Option<string>>,
      max: int, now: int)
    requires Sound(es)
    ensures Wrote(es, Recorded(es, name, iface, source, addrs, max, now),
              if name == "" then "_unattributed" else name, iface, source, addrs, max, now)
  {
    hide Seen, UniqueAddrs, EqualFold, Capped, AllTouched;
    var n := if name == "" then "_unattributed" else name;
    assert n == NameOf(name);
    var r, k := Recorded(es, name, iface, source, addrs, max, now), FindEntry(es, n);
    RecordKeepsSound(es, name, iface, source, addrs, max, now);
    EmptyIsUnique();
    FoldIsSymmetric();
    FoldIsTransitive();
    var at: nat := if k >= 0 then k else |es|;
    if k >= 0 {
      assert es[k] in es;
      TouchedIsSeen(es[k].endpoints, addrs, max, now);
    } else {
      FoldsToItself(n);
      TouchedIsSeen([], addrs, max, now);
    }
    assert at < |r| && WroteAt(es, r, at, n, iface, source, addrs, max, now);
  }

  lemma FoldIsTransitive()
    ensures forall a, b, c :: EqualFold(a, b) && EqualFold(c, b) ==> EqualFold(a, c)
  {
  }

  lemma FoldsToItself(n: string)
    ensures EqualFold(n, n)
  {
  }

  lemma {:induction false} FreshMembers(eps: seq<Endpoint>, ttl: int, now: int)
    ensures forall e :: e in Fresh(eps, ttl, now) <==> e in eps && !(ttl > 0 && now - e.lastSeen > ttl)
  {
    if |eps| > 0 {
      var front, last := eps[..|eps| - 1], eps[|eps| - 1];
      FreshMembers(front, ttl, now);
      assert eps == front + [last];
    }
  }

  lemma {:induction false} FreshAddrs(eps: seq<Endpoint>, ttl: int, now: int)
    ensures Addrs(Fresh(eps, ttl, now)) <= Addrs(eps)
    ensures UniqueAddrs(eps) ==> UniqueAddrs(Fresh(eps, ttl, now))
  {
    if |eps| > 0 {
      hide Addrs, UniqueAddrs;
      var front, last := eps[..|eps| - 1], eps[|eps| - 1];
      assert eps == front + [last];
      FreshAddrs(front, ttl, now);
      AddrsSnoc(front, last);
      AddrsSnoc(Fresh(front, ttl, now), last);
    }
  }

  lemma {:induction false} PruneKeepsSound(es: seq<Entry>, ttl: int, max: int, now: int)
    requires Sound(es)
    ensures Sound(Pruned(es, ttl, max, now)) && (max > 0 ==> Fits(Pruned(es, ttl, max, now), max))
  {
    hide Fresh, Capped, KeptOf, UniqueAddrs, EqualFold;
    if |es| > 0 {
      var front, last := es[..|es| - 1], es[|es| - 1];
      assert last in es && forall e <- front :: e in es;
      PruneKeepsSound(front, ttl, max, now);
      EntryKeeps(last, ttl, max, now);
      PrunedNames(front, ttl, max, now);
      forall e <- Pruned(front, ttl, max, now) ensures !EqualFold(e.name, last.name) {
        var was :| was in front && was.name == e.name;
      }
    }
  }

  // Each entry of `r` is what pruning leaves of an entry of `es`, something; and each entry of
  // `es` with anything fresh has one in `r`.
  ghost predicate PrunedFrom(es: seq<Entry>, r: seq<Entry>, ttl: int, max: int, now: int) {
    && (forall e <- r :: |e.endpoints| > 0 && exists was <- es :: KeptOf(e, was, ttl, max, now))
    && (forall was <- es :: Fresh(was.endpoints, ttl, now) != [] ==> exists e <- r :: KeptOf(e, was, ttl, max, now))
  }

  // Pruning keeps of each entry the endpoints that are not stale, as many as fit, the most
  // recent ones; and drops the entries left with none.
  lemma {:induction false} PruneKeeps(es: seq<Entry>, ttl: int, max: int, now: int)
    requires forall e <- es :: UniqueAddrs(e.endpoints)
    ensures PrunedFrom(es, Pruned(es, ttl, max, now), ttl, max, now)
  {
    hide Fresh, Capped, KeptOf, UniqueAddrs, PrunedFrom;
    if |es| == 0 {
      NothingPruned(ttl, max, now);
    } else {
      var front, last := es[..|es| - 1], es[|es| - 1];
      assert last in es && forall e <- front :: e in es;
      PruneKeeps(front, ttl, max, now);
      EntryKeeps(last, ttl, max, now);
      var left := Capped(Fresh(last.endpoints, ttl, now), max);
      PruneAdds(front, last, Pruned(front, ttl, max, now), last.(endpoints := left), ttl, max, now);
      assert es == front + [last];
    }
  }

  lemma NothingPruned(ttl: int, max: int, now: int)
    ensures PrunedFrom([], [], ttl, max, now)
  {
  }

  lemma PruneAdds(front: seq<Entry>, last: Entry, r: seq<Entry>, e: Entry, ttl: int, max: int, now: int)
    requires PrunedFrom(front, r, ttl, max, now)
    requires KeptOf(e, last, ttl, max, now) && (e.endpoints == [] <==> Fresh(last.endpoints, ttl, now) == [])
    ensures PrunedFrom(front + [last], if e.endpoints == [] then r else r + [e], ttl, max, now)
  {
    hide KeptOf, Fresh;
    var r' := if e.endpoints == [] then r else r + [e];
    forall x <- r' ensures |x.endpoints| > 0 && exists was <- front + [last] :: KeptOf(x, was, ttl, max, now) {
      if x in r {
        var was :| was in front && KeptOf(x, was, ttl, max, now);
        assert was in front + [last];
      } else {
        assert last in front + [last];
      }
    }
    forall was <- front + [last] | Fresh(was.endpoints, ttl, now) != []
      ensures exists x <- r' :: KeptOf(x, was, ttl, max, now)
    {
      if was in front {
        var x :| x in r && KeptOf(x, was, ttl, max, now);
        assert x in r';
      } else {
        assert e in r';
      }
    }
  }

  // An entry as a pruning leaves it: the same but for its endpoints, all of them fresh, as
  // many as fit, and none left out in favour of an older one.
  predicate KeptOf(e: Entry, was: Entry, ttl: int, max: int, now: int) {
    && e == was.(endpoints := e.endpoints)
    && var fresh_ := Fresh(was.endpoints, ttl, now);
    && |e.endpoints| == (if max <= 0 then |fresh_| else Min(max, |fresh_|))
    && (forall ep <- e.endpoints :: ep in fresh_)
    && (forall ep <- fresh_, k <- e.endpoints :: ep !in e.endpoints ==> k.lastSeen >= ep.lastSeen)
  }

  lemma EntryKeeps(was: Entry, ttl: int, max: int, now: int)
    requires UniqueAddrs(was.endpoints)
    ensures var left := Capped(Fresh(was.endpoints, ttl, now), max);
            && UniqueAddrs(left) && (max > 0 ==> |left| <= max)
            && KeptOf(was.(endpoints := left), was, ttl, max, now)
            && (left == [] <==> Fresh(was.endpoints, ttl, now) == [])
  {
    FreshMembers(was.endpoints, ttl, now);
    FreshAddrs(was.endpoints, ttl, now);
    CapEvictsOldest(Fresh(was.endpoints, ttl, now), max);
    hide Fresh, Capped;
  }

  lemma {:induction false} PrunedNames(es: seq<Entry>, ttl: int, max: int, now: int)
    ensures forall e <- Pruned(es, ttl, max, now) :: exists was <- es :: was.name == e.name
  {
    hide Fresh, Capped;
    if |es| > 0 {
      PrunedNames(es[..|es| - 1], ttl, max, now);
      assert es == es[..|es| - 1] + [es[|es| - 1]];
    }
  }

  // Forgetting a name leaves no entry by it in any case, and every other entry as it was.
  lemma ForgetRemoves(es: seq<Entry>, name: string)
    requires Sound(es)
    ensures Sound(Forgotten(es, name))
    ensures forall e :: e in Forgotten(es, name) <==> e in es && !EqualFold(e.name, name)
  {
    var k := FindEntry(es, name);
    if k >= 0 {
      var r := Forgotten(es, name);
      forall i | 0 <= i < |es| && i != k ensures !EqualFold(es[i].name, name) {
        assert !EqualFold(es[if i < k then i else k].name, es[if i < k then k else i].name);
      }
      forall i | 0 <= i < |es| && i != k ensures es[i] in r {
        assert es[i] == r[if i < k then i else i - 1];
      }
    }
  }

  // ---- runs ----

  datatype Op =
    | Recording(name: string, iface: string, source: string, addrs: seq<Option<string>>, now: int)
    | Pruning(ttl: int, at: int)
    | Forgetting(gone: string)

  function After(ops: seq<Op>, max: int): seq<Entry> {
    if |ops| == 0 then []
    else
      var es := After(ops[..|ops| - 1], max);
      match ops[|ops| - 1]
      case Recording(name, iface, source, addrs, now) => Recorded(es, name, iface, source, addrs, max, now)
      case Pruning(ttl, now) => Pruned(es, ttl, max, now)
      case Forgetting(name) => Forgotten(es, name)
  }

  // Over every run of operations, names stay unique whatever their case, addresses stay
  // unique in their entry, and under a positive cap no entry is over it.
  lemma {:induction false} RunStaysSound(ops: seq<Op>, max: int)
    ensures Sound(After(ops, max)) && (max > 0 ==> Fits(After(ops, max), max))
  {
    hide Recorded, Pruned, Forgotten, UniqueNames;
    if |ops| > 0 {
      RunStaysSound(ops[..|ops| - 1], max);
      var es := After(ops[..|ops| - 1], max);
      match ops[|ops| - 1]
      case Recording(name, iface, source, addrs, now) =>
        RecordKeepsSound(es, name, iface, source, addrs, max, now);
      case Pruning(ttl, now) =>
        PruneKeepsSound(es, ttl, max, now);
      case Forgetting(name) =>
        ForgetRemoves(es, name);
    } else {
      NoNames();
    }
  }

  lemma NoNames()
    ensures UniqueNames([])
  {
  }
}
