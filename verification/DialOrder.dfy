/** The order in which a spoke dials hubs (hub/cache.go): each list sorted, the lists in turn, and
    every hub once. The library's stable sort is insertion sort here; `StableSortUnique` shows that
    its contract leaves no choice. */
module DialOrder {
  import opened Octets
  import opened HubCache

  // ----- The comparison -----

  /** The `less` of `DialOrder`, for lists that are sorted by round trip and for the others. */
  predicate Less(byRtt: bool, a: CachedHub, b: CachedHub) {
    if byRtt && a.lastRtt != b.lastRtt then
      if a.lastRtt == 0 then false
      else if b.lastRtt == 0 then true
      else a.lastRtt < b.lastRtt
    else a.lastSeen > b.lastSeen
  }

  /** What the comparison ranks by: known round trips before unknown ones, then the round trip, then
      the hub seen last. */
  function Rank(byRtt: bool, h: CachedHub): (nat, int, int) {
    if byRtt then (if h.lastRtt == 0 then 1 else 0, h.lastRtt, -h.lastSeen) else (0, 0, -h.lastSeen)
  }

  predicate Lower(r: (nat, int, int), s: (nat, int, int)) {
    r.0 < s.0 || (r.0 == s.0 && (r.1 < s.1 || (r.1 == s.1 && r.2 < s.2)))
  }

  /** The comparison is that of the ranks, hence a strict weak order. */
  lemma LessIsRank(byRtt: bool, a: CachedHub, b: CachedHub)
    ensures Less(byRtt, a, b) <==> Lower(Rank(byRtt, a), Rank(byRtt, b))
    ensures !Less(byRtt, a, b) && !Less(byRtt, b, a) <==> Rank(byRtt, a) == Rank(byRtt, b)
  {
  }

  lemma StrictWeakOrder(byRtt: bool, a: CachedHub, b: CachedHub, c: CachedHub)
    ensures !Less(byRtt, a, a)
    ensures Less(byRtt, a, b) ==> !Less(byRtt, b, a)
    ensures Less(byRtt, a, b) && Less(byRtt, b, c) ==> Less(byRtt, a, c)
    ensures !Less(byRtt, a, b) && !Less(byRtt, b, c) ==> !Less(byRtt, a, c)
  {
    hide Rank, Less;
    LessIsRank(byRtt, a, a);
    LessIsRank(byRtt, a, b);
    LessIsRank(byRtt, b, a);
    LessIsRank(byRtt, b, c);
    LessIsRank(byRtt, a, c);
  }

  // ----- Stable sorting -----

  predicate Tied(byRtt: bool, a: CachedHub, b: CachedHub) { !Less(byRtt, a, b) && !Less(byRtt, b, a) }

  /** The hubs of a list that are tied with h, in order. */
  function TiedWith(byRtt: bool, h: CachedHub, s: seq<CachedHub>): seq<CachedHub> {
    if s == [] then [] else (if Tied(byRtt, h, s[0]) then [s[0]] else []) + TiedWith(byRtt, h, s[1..])
  }

  ghost predicate Ordered(byRtt: bool, s: seq<CachedHub>) {
    forall i, j :: 0 <= i < j < |s| ==> !Less(byRtt, s[j], s[i])
  }

  /** t is s stably sorted: in order, and tied hubs, as many and in the order they had. */
  ghost predicate StableSort(byRtt: bool, s: seq<CachedHub>, t: seq<CachedHub>) {
    Ordered(byRtt, t) && forall h :: TiedWith(byRtt, h, t) == TiedWith(byRtt, h, s)
  }

  function Insert(byRtt: bool, x: CachedHub, s: seq<CachedHub>): (t: seq<CachedHub>)
    ensures |t| == |s| + 1
  {
    if s == [] then [x]
    else if Less(byRtt, s[0], x) then [s[0]] + Insert(byRtt, x, s[1..])
    else [x] + s
  }

  function Sorted(byRtt: bool, s: seq<CachedHub>): (t: seq<CachedHub>)
    ensures |t| == |s|
  {
    if s == [] then [] else Insert(byRtt, s[0], Sorted(byRtt, s[1..]))
  }

  lemma {:induction false} InsertIn(byRtt: bool, x: CachedHub, s: seq<CachedHub>)
    ensures multiset(Insert(byRtt, x, s)) == multiset(s) + multiset{x}
  {
    hide Less;
    if s != [] {
      assert s == [s[0]] + s[1..];
      InsertIn(byRtt, x, s[1..]);
    }
  }

  lemma {:induction false} SortedIn(byRtt: bool, s: seq<CachedHub>)
    ensures multiset(Sorted(byRtt, s)) == multiset(s)
  {
    if s != [] {
      assert s == [s[0]] + s[1..];
      SortedIn(byRtt, s[1..]);
      InsertIn(byRtt, s[0], Sorted(byRtt, s[1..]));
    }
  }

  lemma {:induction false} InsertOrdered(byRtt: bool, x: CachedHub, s: seq<CachedHub>)
    requires Ordered(byRtt, s)
    ensures Ordered(byRtt, Insert(byRtt, x, s))
  {
    hide Less;
    if s != [] {
      if Less(byRtt, s[0], x) {
        InsertOrdered(byRtt, x, s[1..]);
        InsertIn(byRtt, x, s[1..]);
        StrictWeakOrder(byRtt, s[0], x, x);
        ConsOrdered(byRtt, s[0], Insert(byRtt, x, s[1..]), s[1..], x);
      } else {
        forall j | 0 <= j < |s| ensures !Less(byRtt, s[j], x) {
          StrictWeakOrder(byRtt, s[j], s[0], x);
          StrictWeakOrder(byRtt, s[0], s[0], s[0]);
        }
      }
    }
  }

  lemma ConsOrdered(byRtt: bool, h: CachedHub, t: seq<CachedHub>, s: seq<CachedHub>, x: CachedHub)
    requires Ordered(byRtt, t) && Ordered(byRtt, [h] + s) && multiset(t) == multiset(s) + multiset{x} && !Less(byRtt, x, h)
    ensures Ordered(byRtt, [h] + t)
  {
    hide Less;
    forall j | 0 <= j < |t| ensures !Less(byRtt, t[j], h) {
      assert t[j] in multiset(t);
      if t[j] != x {
        assert t[j] in multiset(s);
        var i :| 0 <= i < |s| && s[i] == t[j];
        var u := [h] + s;
        assert u[0] == h && u[i + 1] == t[j];
        assert !Less(byRtt, u[i + 1], u[0]);
      }
    }
  }

  lemma {:induction false} InsertTied(byRtt: bool, h: CachedHub, x: CachedHub, s: seq<CachedHub>)
    ensures TiedWith(byRtt, h, Insert(byRtt, x, s)) == TiedWith(byRtt, h, [x] + s)
  {
    hide Less;
    assert ([x] + s)[1..] == s;
    if s != [] && Less(byRtt, s[0], x) {
      var t := Insert(byRtt, x, s[1..]);
      assert ([s[0]] + t)[1..] == t;
      assert ([x] + s[1..])[1..] == s[1..];
      InsertTied(byRtt, h, x, s[1..]);
      StrictWeakOrder(byRtt, s[0], h, x);
      StrictWeakOrder(byRtt, s[0], x, h);
      NotBothTied(byRtt, h, s[0], x);
    }
  }

  lemma NotBothTied(byRtt: bool, h: CachedHub, a: CachedHub, b: CachedHub)
    requires Less(byRtt, a, b)
    ensures !Tied(byRtt, h, a) || !Tied(byRtt, h, b)
  {
    hide Less;
    StrictWeakOrder(byRtt, a, h, b);
  }

  /** Insertion sort is a stable sort. */
  lemma {:induction false} SortedIsStableSort(byRtt: bool, s: seq<CachedHub>)
    ensures StableSort(byRtt, s, Sorted(byRtt, s))
  {
    hide Less, Tied, Insert;
    if s != [] {
      var t := Sorted(byRtt, s[1..]);
      SortedIsStableSort(byRtt, s[1..]);
      InsertOrdered(byRtt, s[0], t);
      forall h ensures TiedWith(byRtt, h, Sorted(byRtt, s)) == TiedWith(byRtt, h, s) {
        InsertTied(byRtt, h, s[0], t);
        assert ([s[0]] + t)[1..] == t;
      }
    }
  }

  lemma {:induction false} TiedWithMembers(byRtt: bool, h: CachedHub, s: seq<CachedHub>)
    ensures forall x :: x in TiedWith(byRtt, h, s) <==> x in s && Tied(byRtt, h, x)
  {
    hide Tied;
    if s != [] {
      TiedWithMembers(byRtt, h, s[1..]);
      assert s == [s[0]] + s[1..];
    }
  }

  /** The first hub of an ordered list is tied with the first of any other with the same ties. */
  lemma FirstsTied(byRtt: bool, s: seq<CachedHub>, t: seq<CachedHub>)
    requires Ordered(byRtt, s) && Ordered(byRtt, t) && s != []
    requires forall h :: TiedWith(byRtt, h, s) == TiedWith(byRtt, h, t)
    ensures t != [] && s[0] == t[0]
  {
    hide Less, TiedWith;
    StrictWeakOrder(byRtt, s[0], s[0], s[0]);
    TiedWithMembers(byRtt, s[0], s);
    TiedWithMembers(byRtt, s[0], t);
    assert s[0] in TiedWith(byRtt, s[0], t);
    var i :| 0 <= i < |t| && t[i] == s[0];
    StrictWeakOrder(byRtt, t[0], t[0], t[0]);
    TiedWithMembers(byRtt, t[0], s);
    TiedWithMembers(byRtt, t[0], t);
    assert t[0] in TiedWith(byRtt, t[0], s);
    var j :| 0 <= j < |s| && s[j] == t[0];
    assert Tied(byRtt, s[0], t[0]);
    TiedFirst(byRtt, s[0], s);
    TiedFirst(byRtt, s[0], t);
    assert TiedWith(byRtt, s[0], s)[0] == s[0] && TiedWith(byRtt, s[0], t)[0] == t[0];
  }

  lemma TiedFirst(byRtt: bool, h: CachedHub, s: seq<CachedHub>)
    requires s != [] && Tied(byRtt, h, s[0])
    ensures TiedWith(byRtt, h, s) == [s[0]] + TiedWith(byRtt, h, s[1..])
  {
    hide Tied;
  }

  /** A list has only one stable sort. */
  lemma {:induction false} StableSortUnique(byRtt: bool, s: seq<CachedHub>, t: seq<CachedHub>)
    requires Ordered(byRtt, s) && Ordered(byRtt, t)
    requires forall h :: TiedWith(byRtt, h, s) == TiedWith(byRtt, h, t)
    ensures s == t
    decreases |s|
  {
    hide Less, Tied;
    if s == [] {
      if t != [] {
        FirstsTied(byRtt, t, s);
      }
    } else {
      FirstsTied(byRtt, s, t);
      forall h ensures TiedWith(byRtt, h, s[1..]) == TiedWith(byRtt, h, t[1..]) {
        var head := if Tied(byRtt, h, s[0]) then [s[0]] else [];
        assert TiedWith(byRtt, h, s) == head + TiedWith(byRtt, h, s[1..]);
        assert TiedWith(byRtt, h, t) == head + TiedWith(byRtt, h, t[1..]);
        SameTails(head, TiedWith(byRtt, h, s[1..]), TiedWith(byRtt, h, t[1..]));
      }
      StableSortUnique(byRtt, s[1..], t[1..]);
    }
  }

  lemma SameTails<A>(head: seq<A>, s: seq<A>, t: seq<A>)
    requires head + s == head + t
    ensures s == t
  {
    assert s == (head + s)[|head|..];
    assert t == (head + t)[|head|..];
  }

  // ----- Every hub once -----

  const BAR: Octet := 0x7c

  /** What makes two entries the same hub. */
  function HubKey(h: CachedHub): seq<Octet> { h.ed25519 + [BAR] + h.ipv6 + [BAR] + h.ipv4 }

  /** No bar in the texts of its addresses. */
  predicate PlainAddresses(h: CachedHub) { 0x7c !in h.ipv6 && 0x7c !in h.ipv4 }

  lemma LastBar(x: seq<Octet>, y: seq<Octet>, u: seq<Octet>, v: seq<Octet>)
    requires x + [BAR] + y == u + [BAR] + v && BAR !in y && BAR !in v
    ensures x == u && y == v
  {
    var s := x + [BAR] + y;
    assert s[|x|] == BAR && s[|u|] == BAR;
    assert y == s[|x| + 1..] && v == s[|u| + 1..];
    assert x == s[..|x|] && u == s[..|u|];
  }

  /** Two entries are taken for the same hub exactly if key and both addresses are equal. */
  lemma SameHubIff(a: CachedHub, b: CachedHub)
    requires PlainAddresses(a) && PlainAddresses(b)
    ensures HubKey(a) == HubKey(b) <==> a.ed25519 == b.ed25519 && a.ipv6 == b.ipv6 && a.ipv4 == b.ipv4
  {
    if HubKey(a) == HubKey(b) {
      LastBar(a.ed25519 + [BAR] + a.ipv6, a.ipv4, b.ed25519 + [BAR] + b.ipv6, b.ipv4);
      LastBar(a.ed25519, a.ipv6, b.ed25519, b.ipv6);
    }
  }

  function Labelled(h: CachedHub, source: Source): CachedHub {
    if h.source == Unset then h.(source := source) else h
  }

  function KeysOf(s: seq<CachedHub>): set<seq<Octet>> {
    if s == [] then {} else {HubKey(s[0])} + KeysOf(s[1..])
  }

  /** The first hub of each key that has not been seen. */
  function Keep(seen: set<seq<Octet>>, s: seq<CachedHub>, source: Source): seq<CachedHub>
    decreases |s|
  {
    if s == [] then []
    else if HubKey(s[0]) in seen then Keep(seen, s[1..], source)
    else [Labelled(s[0], source)] + Keep(seen + {HubKey(s[0])}, s[1..], source)
  }

  datatype Tier = Tier(hubs: seq<CachedHub>, source: Source)

  predicate ByRtt(t: Tier) { t.source == Open || t.source == Cached }

  function SortedTier(t: Tier): seq<CachedHub> { Sorted(ByRtt(t), t.hubs) }

  function Merge(seen: set<seq<Octet>>, tiers: seq<Tier>): seq<CachedHub>
    decreases |tiers|
  {
    if tiers == [] then []
    else Keep(seen, SortedTier(tiers[0]), tiers[0].source) + Merge(seen + KeysOf(tiers[0].hubs), tiers[1..])
  }

  /** The hubs of a list that are cloud seeds, or that are not. */
  function Pick(s: seq<CachedHub>, seed: bool): seq<CachedHub>
    decreases |s|
  {
    if s == [] then []
    else Pick(s[..|s| - 1], seed) + if s[|s| - 1].cloudSeed == seed then [s[|s| - 1]] else []
  }

  function Tiers(open: seq<CachedHub>, cached: seq<CachedHub>, community: seq<CachedHub>, scanned: seq<CachedHub>,
                 seeds: seq<CachedHub>): seq<Tier> {
    [Tier(open, Open), Tier(Pick(cached, false), Cached), Tier(community, Community), Tier(scanned, Scanned),
     Tier(seeds, Cloud), Tier(Pick(cached, true), Cloud)]
  }

  /** What `DialOrder` returns. */
  function DialList(open: seq<CachedHub>, cached: seq<CachedHub>, community: seq<CachedHub>, scanned: seq<CachedHub>,
                    seeds: seq<CachedHub>): seq<CachedHub> {
    Merge({}, Tiers(open, cached, community, scanned, seeds))
  }

  /** The closure `add`, on the variables that it captures. */
  method Add(seenSoFar: set<seq<Octet>>, outSoFar: seq<CachedHub>, list: seq<CachedHub>, source: Source)
    returns (seen: set<seq<Octet>>, out: seq<CachedHub>)
    ensures seen == seenSoFar + KeysOf(list)
    ensures out == outSoFar + Keep(seenSoFar, SortedTier(Tier(list, source)), source)
  {
    hide Sorted, HubKey;
    seen, out := seenSoFar, outSoFar;
    var cp := Sorted(source == Open || source == Cached, list);
    assert cp[0..] == cp;
    for i := 0 to |cp|
      invariant seen + KeysOf(cp[i..]) == seenSoFar + KeysOf(cp)
      invariant out + Keep(seen, cp[i..], source) == outSoFar + Keep(seenSoFar, cp, source)
    {
      assert cp[i..][1..] == cp[i + 1..];
      var h := cp[i];
      var k := HubKey(h);
      if k !in seen {
        if h.source == Unset {
          h := h.(source := source);
        }
        seen := seen + {k};
        out := out + [h];
      }
    }
    SortedKeys(source == Open || source == Cached, list);
  }

  method Dial(open: seq<CachedHub>, cached: seq<CachedHub>, community: seq<CachedHub>, scanned: seq<CachedHub>,
              seeds: seq<CachedHub>) returns (out: seq<CachedHub>)
    ensures out == DialList(open, cached, community, scanned, seeds)
  {
    hide KeysOf, Keep, SortedTier, Tiers, Pick, Merge;
    ghost var ts := Tiers(open, cached, community, scanned, seeds);
    TheTiers(open, cached, community, scanned, seeds);
    var seen;
    Pass([], {}, ts, 0);
    seen, out := Add({}, [], open, Open);
    var cacheNoSeed: seq<CachedHub>, cacheSeed: seq<CachedHub> := Split(cached);
    Pass(out, seen, ts, 1);
    seen, out := Add(seen, out, cacheNoSeed, Cached);
    Pass(out, seen, ts, 2);
    seen, out := Add(seen, out, community, Community);
    Pass(out, seen, ts, 3);
    seen, out := Add(seen, out, scanned, Scanned);
    Pass(out, seen, ts, 4);
    seen, out := Add(seen, out, seeds, Cloud);
    Pass(out, seen, ts, 5);
    seen, out := Add(seen, out, cacheSeed, Cloud);
    AllPassed(out, seen, ts);
  }

  lemma AllPassed(out: seq<CachedHub>, seen: set<seq<Octet>>, ts: seq<Tier>)
    ensures out + Merge(seen, ts[|ts|..]) == out && [] + Merge({}, ts[0..]) == Merge({}, ts)
  {
    assert ts[0..] == ts;
  }

  method Split(cached: seq<CachedHub>) returns (cacheNoSeed: seq<CachedHub>, cacheSeed: seq<CachedHub>)
    ensures cacheNoSeed == Pick(cached, false) && cacheSeed == Pick(cached, true)
  {
    cacheNoSeed, cacheSeed := [], [];
    for i := 0 to |cached|
      invariant cacheNoSeed == Pick(cached[..i], false) && cacheSeed == Pick(cached[..i], true)
    {
      assert cached[..i + 1][..i] == cached[..i];
      if cached[i].cloudSeed {
        cacheSeed := cacheSeed + [cached[i]];
      } else {
        cacheNoSeed := cacheNoSeed + [cached[i]];
      }
    }
    assert cached[..|cached|] == cached;
  }

  lemma TheTiers(open: seq<CachedHub>, cached: seq<CachedHub>, community: seq<CachedHub>, scanned: seq<CachedHub>,
                 seeds: seq<CachedHub>)
    ensures var ts := Tiers(open, cached, community, scanned, seeds);
      && |ts| == 6 && ts[0] == Tier(open, Open) && ts[1] == Tier(Pick(cached, false), Cached)
      && ts[2] == Tier(community, Community) && ts[3] == Tier(scanned, Scanned) && ts[4] == Tier(seeds, Cloud)
      && ts[5] == Tier(Pick(cached, true), Cloud)
  {
  }

  /** One pass of `add`, ahead of those still to come. */
  lemma Pass(out: seq<CachedHub>, seen: set<seq<Octet>>, ts: seq<Tier>, i: nat)
    requires i < |ts|
    ensures out + Merge(seen, ts[i..])
      == out + Keep(seen, SortedTier(ts[i]), ts[i].source) + Merge(seen + KeysOf(ts[i].hubs), ts[i + 1..])
  {
    hide KeysOf, Keep, SortedTier;
    assert ts[i..][1..] == ts[i + 1..];
  }

  // ----- What the list is -----

  lemma {:induction false} KeysAre(s: seq<CachedHub>)
    ensures forall k :: k in KeysOf(s) <==> exists h :: h in s && HubKey(h) == k
  {
    hide HubKey;
    if s != [] {
      KeysAre(s[1..]);
      assert s == [s[0]] + s[1..];
    }
  }

  lemma SortedKeys(byRtt: bool, s: seq<CachedHub>)
    ensures KeysOf(Sorted(byRtt, s)) == KeysOf(s)
  {
    hide HubKey, KeysOf, Sorted;
    SortedMembers(byRtt, s);
    KeysAre(s);
    KeysAre(Sorted(byRtt, s));
  }

  lemma LabelledKey(h: CachedHub, source: Source)
    ensures HubKey(Labelled(h, source)) == HubKey(h)
  {
  }

  lemma LabelledRank(byRtt: bool, g: CachedHub, h: CachedHub, source: Source)
    ensures Less(byRtt, Labelled(g, source), h) == Less(byRtt, g, h)
    ensures Less(byRtt, h, Labelled(g, source)) == Less(byRtt, h, g)
  {
  }

  ghost predicate NoneTwice(s: seq<CachedHub>) {
    forall i, j :: 0 <= i < j < |s| ==> HubKey(s[i]) != HubKey(s[j])
  }

  lemma {:induction false} KeepKeys(seen: set<seq<Octet>>, s: seq<CachedHub>, source: Source)
    ensures KeysOf(Keep(seen, s, source)) == KeysOf(s) - seen
    ensures NoneTwice(Keep(seen, s, source))
    decreases |s|
  {
    hide HubKey, Labelled;
    if s != [] && HubKey(s[0]) in seen {
      KeepKeys(seen, s[1..], source);
    } else if s != [] {
      var rest := Keep(seen + {HubKey(s[0])}, s[1..], source);
      KeepKeys(seen + {HubKey(s[0])}, s[1..], source);
      LabelledKey(s[0], source);
      assert ([Labelled(s[0], source)] + rest)[1..] == rest;
      KeysAre(rest);
    }
  }

  /** What is kept comes from the list. */
  lemma {:induction false} KeepFrom(seen: set<seq<Octet>>, s: seq<CachedHub>, source: Source)
    ensures forall g :: g in Keep(seen, s, source) ==> exists h :: h in s && g == Labelled(h, source)
    decreases |s|
  {
    hide HubKey, Labelled;
    if s != [] {
      KeepFrom(if HubKey(s[0]) in seen then seen else seen + {HubKey(s[0])}, s[1..], source);
      assert s == [s[0]] + s[1..];
    }
  }

  /** Nothing in what is kept of an ordered list is ranked before its first hub. */
  lemma KeepAfterFirst(byRtt: bool, seen: set<seq<Octet>>, s: seq<CachedHub>, source: Source)
    requires s != [] && Ordered(byRtt, s)
    ensures forall g :: g in Keep(seen, s[1..], source) ==> !Less(byRtt, g, Labelled(s[0], source))
  {
    hide HubKey, Labelled, Less, Keep;
    KeepFrom(seen, s[1..], source);
    forall g | g in Keep(seen, s[1..], source) ensures !Less(byRtt, g, Labelled(s[0], source)) {
      var h :| h in s[1..] && g == Labelled(h, source);
      var i :| 0 <= i < |s[1..]| && s[1..][i] == h;
      assert s[i + 1] == h && !Less(byRtt, s[i + 1], s[0]);
      LabelledRank(byRtt, h, s[0], source);
      LabelledRank(byRtt, s[0], g, source);
    }
  }

  /** The order stays. */
  lemma {:induction false} KeepOrdered(byRtt: bool, seen: set<seq<Octet>>, s: seq<CachedHub>, source: Source)
    requires Ordered(byRtt, s)
    ensures Ordered(byRtt, Keep(seen, s, source))
    decreases |s|
  {
    hide HubKey, Labelled, Less;
    if s != [] {
      var with := if HubKey(s[0]) in seen then seen else seen + {HubKey(s[0])};
      KeepOrdered(byRtt, with, s[1..], source);
      KeepAfterFirst(byRtt, with, s, source);
    }
  }

  /** Of each key the hub that is kept is the first of the list. */
  lemma {:induction false} KeepBest(byRtt: bool, seen: set<seq<Octet>>, s: seq<CachedHub>, source: Source, g: CachedHub, h: CachedHub)
    requires Ordered(byRtt, s) && g in Keep(seen, s, source) && h in s && HubKey(g) == HubKey(h)
    ensures !Less(byRtt, h, g)
    decreases |s|
  {
    hide HubKey, Labelled, Less;
    var k := HubKey(s[0]);
    if k !in seen && g == Labelled(s[0], source) {
      var i :| 0 <= i < |s| && s[i] == h;
      StrictWeakOrder(byRtt, s[0], s[0], s[0]);
      assert i > 0 ==> !Less(byRtt, s[i], s[0]);
      LabelledRank(byRtt, s[0], h, source);
    } else {
      var with := if k in seen then seen else seen + {k};
      KeepKeys(with, s[1..], source);
      KeysAre(Keep(with, s[1..], source));
      assert HubKey(g) in KeysOf(Keep(with, s[1..], source));
      assert h in s[1..];
      KeepBest(byRtt, with, s[1..], source, g, h);
    }
  }

  /** The first list that has the key, or the number of lists. */
  function FirstTier(tiers: seq<Tier>, k: seq<Octet>): (t: nat)
    ensures t <= |tiers|
  {
    if tiers == [] || k in KeysOf(tiers[0].hubs) then 0 else 1 + FirstTier(tiers[1..], k)
  }

  /** What `FirstTier` finds. */
  lemma {:induction false} FirstTierIs(tiers: seq<Tier>, k: seq<Octet>)
    ensures var t := FirstTier(tiers, k);
      && (t < |tiers| ==> k in KeysOf(tiers[t].hubs))
      && forall i :: 0 <= i < t ==> k !in KeysOf(tiers[i].hubs)
  {
    hide KeysOf;
    if tiers != [] && k !in KeysOf(tiers[0].hubs) {
      FirstTierIs(tiers[1..], k);
    }
  }

  lemma NoneTwiceSum(s: seq<CachedHub>, t: seq<CachedHub>)
    requires NoneTwice(s) && NoneTwice(t) && KeysOf(s) !! KeysOf(t)
    ensures NoneTwice(s + t)
  {
    hide HubKey, KeysOf;
    KeysAre(s);
    KeysAre(t);
    forall i, j | 0 <= i < |s| && 0 <= j < |t| ensures HubKey(s[i]) != HubKey(t[j]) {
      assert HubKey(s[i]) in KeysOf(s) && HubKey(t[j]) in KeysOf(t);
    }
  }

  /** No hub comes twice, and exactly the hubs of the lists come that were not there before. */
  lemma {:induction false} MergeKeys(seen: set<seq<Octet>>, tiers: seq<Tier>)
    ensures NoneTwice(Merge(seen, tiers))
    ensures forall k :: k in KeysOf(Merge(seen, tiers)) <==> k !in seen && FirstTier(tiers, k) < |tiers|
    decreases |tiers|
  {
    hide HubKey, Keep, SortedTier, KeysOf;
    if tiers == [] {
      KeysAre([]);
    } else {
      var now := Keep(seen, SortedTier(tiers[0]), tiers[0].source);
      var later := seen + KeysOf(tiers[0].hubs);
      var rest := Merge(later, tiers[1..]);
      MergeKeys(later, tiers[1..]);
      TierKeys(seen, tiers[0]);
      KeysOfSum(now, rest);
      NoneTwiceSum(now, rest);
    }
  }

  /** The hubs of the first list, and those of the others. */
  lemma MergeSplit(seen: set<seq<Octet>>, tiers: seq<Tier>)
    requires tiers != []
    ensures var now := Keep(seen, SortedTier(tiers[0]), tiers[0].source);
      var rest := Merge(seen + KeysOf(tiers[0].hubs), tiers[1..]);
      && Merge(seen, tiers) == now + rest
      && (forall g :: g in now ==> FirstTier(tiers, HubKey(g)) == 0)
      && forall g :: g in rest ==> FirstTier(tiers, HubKey(g)) == 1 + FirstTier(tiers[1..], HubKey(g))
  {
    hide HubKey, Keep, SortedTier, KeysOf;
    var now := Keep(seen, SortedTier(tiers[0]), tiers[0].source);
    var later := seen + KeysOf(tiers[0].hubs);
    var rest := Merge(later, tiers[1..]);
    TierKeys(seen, tiers[0]);
    MergeKeys(later, tiers[1..]);
    KeysAre(now);
    KeysAre(rest);
    forall g | g in now ensures FirstTier(tiers, HubKey(g)) == 0 {
      assert HubKey(g) in KeysOf(now);
    }
    forall g | g in rest ensures FirstTier(tiers, HubKey(g)) == 1 + FirstTier(tiers[1..], HubKey(g)) {
      assert HubKey(g) in KeysOf(rest);
    }
  }

  lemma TierKeys(seen: set<seq<Octet>>, t: Tier)
    ensures var now := Keep(seen, SortedTier(t), t.source);
      KeysOf(now) == KeysOf(t.hubs) - seen && NoneTwice(now)
  {
    hide Keep, KeysOf, NoneTwice, Sorted;
    KeepKeys(seen, SortedTier(t), t.source);
    SortedKeys(ByRtt(t), t.hubs);
  }

  lemma KeysOfSum(s: seq<CachedHub>, t: seq<CachedHub>)
    ensures KeysOf(s + t) == KeysOf(s) + KeysOf(t)
  {
    hide HubKey, KeysOf;
    KeysAre(s);
    KeysAre(t);
    KeysAre(s + t);
  }

  /** Every hub in the merge is from the first list that has its key, but for the label of its
      source, and no hub of that key is better placed in that list. */
  lemma {:induction false} MergeBest(seen: set<seq<Octet>>, tiers: seq<Tier>, g: CachedHub)
    requires g in Merge(seen, tiers)
    ensures var t := FirstTier(tiers, HubKey(g));
      && t < |tiers|
      && (exists h :: h in tiers[t].hubs && g == Labelled(h, tiers[t].source))
      && forall h :: h in tiers[t].hubs && HubKey(h) == HubKey(g) ==> !Less(ByRtt(tiers[t]), h, g)
    decreases |tiers|
  {
    hide HubKey, Keep, KeysOf, Less, Sorted, FirstTier, Labelled;
    var now := Keep(seen, SortedTier(tiers[0]), tiers[0].source);
    var later := seen + KeysOf(tiers[0].hubs);
    MergeSplit(seen, tiers);
    if g in now {
      TierBest(seen, tiers[0], g);
    } else {
      MergeBest(later, tiers[1..], g);
    }
  }

  lemma TierBest(seen: set<seq<Octet>>, t: Tier, g: CachedHub)
    requires g in Keep(seen, SortedTier(t), t.source)
    ensures exists h :: h in t.hubs && g == Labelled(h, t.source)
    ensures forall h :: h in t.hubs && HubKey(h) == HubKey(g) ==> !Less(ByRtt(t), h, g)
  {
    hide HubKey, Keep, Less, Labelled, Sorted, TiedWith;
    SortedIsStableSort(ByRtt(t), t.hubs);
    KeepFrom(seen, SortedTier(t), t.source);
    SortedMembers(ByRtt(t), t.hubs);
    forall h | h in t.hubs && HubKey(h) == HubKey(g) ensures !Less(ByRtt(t), h, g) {
      KeepBest(ByRtt(t), seen, SortedTier(t), t.source, g, h);
    }
  }

  lemma SortedMembers(byRtt: bool, s: seq<CachedHub>)
    ensures forall h :: h in s <==> h in Sorted(byRtt, s)
  {
    hide Sorted;
    SortedIn(byRtt, s);
    forall h ensures h in s <==> h in Sorted(byRtt, s) {
      assert h in s <==> h in multiset(s);
      assert h in Sorted(byRtt, s) <==> h in multiset(Sorted(byRtt, s));
    }
  }

  /** The lists come one after another, each in its order. */
  lemma {:induction false} MergeOrder(seen: set<seq<Octet>>, tiers: seq<Tier>, i: nat, j: nat)
    requires i < j < |Merge(seen, tiers)|
    ensures var g, h := Merge(seen, tiers)[i], Merge(seen, tiers)[j];
      var t := FirstTier(tiers, HubKey(g));
      && t <= FirstTier(tiers, HubKey(h))
      && (t == FirstTier(tiers, HubKey(h)) ==> t < |tiers| && !Less(ByRtt(tiers[t]), h, g))
    decreases |tiers|
  {
    hide HubKey, Keep, KeysOf, Less, Sorted, FirstTier, SortedTier, TiedWith;
    var now := Keep(seen, SortedTier(tiers[0]), tiers[0].source);
    var later := seen + KeysOf(tiers[0].hubs);
    var rest := Merge(later, tiers[1..]);
    MergeSplit(seen, tiers);
    if i < |now| {
      assert now[i] in now;
      if j < |now| {
        assert now[j] in now;
        TierOrdered(seen, tiers[0]);
      } else {
        assert rest[j - |now|] in rest;
      }
    } else {
      assert rest[i - |now|] in rest && rest[j - |now|] in rest;
      MergeOrder(later, tiers[1..], i - |now|, j - |now|);
    }
  }

  lemma TierOrdered(seen: set<seq<Octet>>, t: Tier)
    ensures Ordered(ByRtt(t), Keep(seen, SortedTier(t), t.source))
  {
    hide Keep, Less, Sorted, TiedWith;
    SortedIsStableSort(ByRtt(t), t.hubs);
    KeepOrdered(ByRtt(t), seen, SortedTier(t), t.source);
  }

  // ----- The theorems -----

  lemma {:induction false} PickKeys(s: seq<CachedHub>)
    ensures forall h :: h in s <==> h in Pick(s, true) || h in Pick(s, false)
    ensures forall h :: h in Pick(s, true) ==> h.cloudSeed
    ensures forall h :: h in Pick(s, false) ==> !h.cloudSeed
    decreases |s|
  {
    if s != [] {
      PickKeys(s[..|s| - 1]);
      assert s == s[..|s| - 1] + [s[|s| - 1]];
    }
  }

  /** No hub is dialled twice, and the hubs dialled are those of the five lists. */
  lemma DialsEachOnce(open: seq<CachedHub>, cached: seq<CachedHub>, community: seq<CachedHub>, scanned: seq<CachedHub>,
                      seeds: seq<CachedHub>)
    ensures var out := DialList(open, cached, community, scanned, seeds);
      && NoneTwice(out)
      && KeysOf(out) == KeysOf(open) + KeysOf(cached) + KeysOf(community) + KeysOf(scanned) + KeysOf(seeds)
  {
    hide HubKey, KeysOf, Merge, Tiers, Pick, FirstTier;
    var ts := Tiers(open, cached, community, scanned, seeds);
    TheTiers(open, cached, community, scanned, seeds);
    MergeKeys({}, ts);
    PickedKeys(cached);
    forall k ensures FirstTier(ts, k) < 6 <==> exists t :: 0 <= t < 6 && k in KeysOf(ts[t].hubs) {
      FirstTierIs(ts, k);
    }
    var out := DialList(open, cached, community, scanned, seeds);
    forall k ensures k in KeysOf(out)
        <==> k in KeysOf(open) + KeysOf(cached) + KeysOf(community) + KeysOf(scanned) + KeysOf(seeds)
    {
      assert k in KeysOf(out) <==>
        (k in KeysOf(ts[0].hubs) || k in KeysOf(ts[1].hubs) || k in KeysOf(ts[2].hubs) || k in KeysOf(ts[3].hubs)
         || k in KeysOf(ts[4].hubs) || k in KeysOf(ts[5].hubs));
    }
  }

  lemma PickedKeys(cached: seq<CachedHub>)
    ensures KeysOf(Pick(cached, false)) + KeysOf(Pick(cached, true)) == KeysOf(cached)
  {
    hide HubKey, KeysOf, Pick;
    PickKeys(cached);
    KeysAre(cached);
    KeysAre(Pick(cached, false));
    KeysAre(Pick(cached, true));
  }

  /** For each hub of the five lists exactly one entry has its key and its addresses. */
  lemma DialsEachHubOnce(open: seq<CachedHub>, cached: seq<CachedHub>, community: seq<CachedHub>, scanned: seq<CachedHub>,
                         seeds: seq<CachedHub>, h: CachedHub) returns (i: nat)
    requires h in open + cached + community + scanned + seeds
    requires forall x :: x in open + cached + community + scanned + seeds ==> PlainAddresses(x)
    ensures var out := DialList(open, cached, community, scanned, seeds);
      && i < |out| && out[i].ed25519 == h.ed25519 && out[i].ipv6 == h.ipv6 && out[i].ipv4 == h.ipv4
      && forall j :: 0 <= j < |out| && out[j].ed25519 == h.ed25519 && out[j].ipv6 == h.ipv6 && out[j].ipv4 == h.ipv4 ==> j == i
  {
    hide HubKey, KeysOf, Merge, Tiers, PlainAddresses, DialList;
    var out := DialList(open, cached, community, scanned, seeds);
    DialsEachOnce(open, cached, community, scanned, seeds);
    KeysAre(open);
    KeysAre(cached);
    KeysAre(community);
    KeysAre(scanned);
    KeysAre(seeds);
    KeysAre(out);
    assert HubKey(h) in KeysOf(out);
    var g :| g in out && HubKey(g) == HubKey(h);
    i :| 0 <= i < |out| && out[i] == g;
    forall j | 0 <= j < |out|
      ensures HubKey(out[j]) == HubKey(h) <==> out[j].ed25519 == h.ed25519 && out[j].ipv6 == h.ipv6 && out[j].ipv4 == h.ipv4
    {
      PlainOut(open, cached, community, scanned, seeds, j);
      SameHubIff(out[j], h);
    }
  }

  lemma PlainOut(open: seq<CachedHub>, cached: seq<CachedHub>, community: seq<CachedHub>, scanned: seq<CachedHub>,
                 seeds: seq<CachedHub>, j: nat)
    requires j < |DialList(open, cached, community, scanned, seeds)|
    requires forall x :: x in open + cached + community + scanned + seeds ==> PlainAddresses(x)
    ensures PlainAddresses(DialList(open, cached, community, scanned, seeds)[j])
  {
    hide HubKey, PlainAddresses;
    var x := DialledFrom(open, cached, community, scanned, seeds, j);
    LabelledPlain(x, DialList(open, cached, community, scanned, seeds)[j]);
  }

  lemma LabelledPlain(x: CachedHub, g: CachedHub)
    requires g == x.(source := g.source) && PlainAddresses(x)
    ensures PlainAddresses(g)
  {
  }

  /** An entry of the list is an entry of one of the five, but for a source that was not set. */
  lemma DialledFrom(open: seq<CachedHub>, cached: seq<CachedHub>, community: seq<CachedHub>, scanned: seq<CachedHub>,
                    seeds: seq<CachedHub>, j: nat) returns (x: CachedHub)
    requires j < |DialList(open, cached, community, scanned, seeds)|
    ensures var g := DialList(open, cached, community, scanned, seeds)[j];
      && x in open + cached + community + scanned + seeds
      && g == x.(source := g.source) && (x.source != Unset ==> g.source == x.source)
      && (x.source == Unset ==>
           || (g.source == Open && x in open) || (g.source == Cached && x in cached && !x.cloudSeed)
           || (g.source == Community && x in community) || (g.source == Scanned && x in scanned)
           || (g.source == Cloud && (x in seeds || (x in cached && x.cloudSeed))))
  {
    hide HubKey, KeysOf, Merge, Tiers, FirstTier, Less, Pick;
    var ts := Tiers(open, cached, community, scanned, seeds);
    TheTiers(open, cached, community, scanned, seeds);
    PickKeys(cached);
    var out := DialList(open, cached, community, scanned, seeds);
    var g := out[j];
    assert g in out;
    MergeBest({}, ts, g);
    var t := FirstTier(ts, HubKey(g));
    x :| x in ts[t].hubs && g == Labelled(x, ts[t].source);
  }

  /** List s is the first that has an entry for this hub. */
  ghost predicate FirstIn(lists: seq<seq<CachedHub>>, s: nat, h: CachedHub) {
    && s < |lists|
    && (exists x :: x in lists[s] && HubKey(x) == HubKey(h))
    && forall r, x :: 0 <= r < s && x in lists[r] ==> HubKey(x) != HubKey(h)
  }

  lemma FirstTierFirst(tiers: seq<Tier>, lists: seq<seq<CachedHub>>, h: CachedHub)
    requires |lists| == |tiers| && (forall i :: 0 <= i < |tiers| ==> lists[i] == tiers[i].hubs)
    requires FirstTier(tiers, HubKey(h)) < |tiers|
    ensures FirstIn(lists, FirstTier(tiers, HubKey(h)), h)
  {
    hide HubKey, KeysOf, FirstTier;
    FirstTierIs(tiers, HubKey(h));
    forall i | 0 <= i < |tiers|
      ensures HubKey(h) in KeysOf(tiers[i].hubs) <==> exists x :: x in lists[i] && HubKey(x) == HubKey(h)
    {
      KeysAre(tiers[i].hubs);
    }
  }

  /** Earlier in the list means first found in an earlier list, and of two that are first found in the
      same one: for the open and cached hubs the lower round trip, unknown ones last, and otherwise the
      hub seen later. */
  lemma DialsInOrder(open: seq<CachedHub>, cached: seq<CachedHub>, community: seq<CachedHub>, scanned: seq<CachedHub>,
                     seeds: seq<CachedHub>, i: nat, j: nat) returns (s: nat, t: nat)
    requires i < j < |DialList(open, cached, community, scanned, seeds)|
    ensures var lists := [open, Pick(cached, false), community, scanned, seeds, Pick(cached, true)];
      var out := DialList(open, cached, community, scanned, seeds);
      var g, h := out[i], out[j];
      && FirstIn(lists, s, g) && FirstIn(lists, t, h) && s <= t
      && (s == t < 2 && g.lastRtt != h.lastRtt ==> h.lastRtt == 0 || (g.lastRtt != 0 && g.lastRtt < h.lastRtt))
      && (s == t && (s >= 2 || g.lastRtt == h.lastRtt) ==> g.lastSeen >= h.lastSeen)
  {
    hide HubKey, KeysOf, Merge, Tiers, FirstTier, FirstIn;
    var ts := Tiers(open, cached, community, scanned, seeds);
    TheTiers(open, cached, community, scanned, seeds);
    var lists := [open, Pick(cached, false), community, scanned, seeds, Pick(cached, true)];
    var out := DialList(open, cached, community, scanned, seeds);
    MergeOrder({}, ts, i, j);
    MergeKeys({}, ts);
    KeysAre(out);
    assert out[i] in out && out[j] in out;
    s, t := FirstTier(ts, HubKey(out[i])), FirstTier(ts, HubKey(out[j]));
    FirstTierFirst(ts, lists, out[i]);
    FirstTierFirst(ts, lists, out[j]);
    assert s < 6 && ByRtt(ts[s]) == (s < 2);
  }
}
