/** The hubs that a spoke tries, in order (hub/spoke.go): what it learns from its invites, the dial
    order, and the hubs that failed lately put last. The clock is read once in a call. */
module Spokes {
  import opened Wrappers
  import opened Octets
  import opened Strings
  import opened Invites
  import opened InviteTheorems
  import opened InviteText
  import opened ShortCodes
  import opened HubCache
  import opened DialOrder

  /** What the spoke takes from its libraries. */
  datatype Libraries = Libraries(hash: Hash, dec: Decoder, show: Printer, parse: Parser)

  /** A hub set by hand: address, port and key. */
  datatype Manual = Manual(ipv6: seq<Octet>, port: bv16, key: seq<Octet>)

  /** The hub of the open session: its name and key. */
  datatype HelloOK = HelloOK(name: seq<Octet>, ed25519: seq<Octet>)

  const FAIL_WINDOW := 30_000_000_000 // nanoseconds

  function Decimal(n: nat): seq<Octet> {
    (if n < 10 then [] else Decimal(n / 10)) + [OctetOf(48 + n % 10)]
  }

  /** `hubFailKey`. */
  function FailKey(h: CachedHub): seq<Octet> { HubKey(h) + [BAR] + Decimal(PortValue(h.port)) }

  function RecentFail(failed: map<seq<Octet>, int>, h: CachedHub, now: int): bool {
    FailKey(h) in failed && now - failed[FailKey(h)] < FAIL_WINDOW
  }

  // ----- The invites -----

  /** What the invites have given so far: the cache, the hubs to try, and the cloud seeds. */
  datatype Scan = Scan(hubs: seq<CachedHub>, scanned: seq<CachedHub>, seeds: seq<CachedHub>)

  function ScanOne(lib: Libraries, community: seq<CachedHub>, now: int, s: Scan, text: string): Scan {
    match GoDecode(lib.dec, ListResolver(lib.hash, KnownInvites(lib.parse, s.hubs, community)), text)
    case Err(_) => s
    case Ok(inv) =>
      var h := FromInvite(lib.show, lib.hash, inv, Scanned);
      var hubs := Remembered(s.hubs, h, now);
      if inv.cloudSeed then Scan(hubs, s.scanned, s.seeds + [h]) else Scan(hubs, s.scanned + [h], s.seeds)
  }

  function ScanAll(lib: Libraries, community: seq<CachedHub>, now: int, hubs: seq<CachedHub>, texts: seq<string>): Scan
    decreases |texts|
  {
    if texts == [] then Scan(hubs, [], [])
    else ScanOne(lib, community, now, ScanAll(lib, community, now, hubs, texts[..|texts| - 1]), texts[|texts| - 1])
  }

  /** What text k is decoded to, against the cache as it is after the texts before it. */
  function DecodedAt(lib: Libraries, community: seq<CachedHub>, now: int, hubs: seq<CachedHub>, texts: seq<string>, k: nat)
    : Result<Invite, Error>
    requires k < |texts|
  {
    var cached := ScanAll(lib, community, now, hubs, texts[..k]).hubs;
    GoDecode(lib.dec, ListResolver(lib.hash, KnownInvites(lib.parse, cached, community)), texts[k])
  }

  /** What one more text is decoded to after these. */
  function DecodedNext(lib: Libraries, community: seq<CachedHub>, now: int, hubs: seq<CachedHub>, texts: seq<string>, text: string)
    : Result<Invite, Error>
  {
    DecodedAt(lib, community, now, hubs, texts + [text], |texts|)
  }

  function WithOk(invites: seq<Invite>, r: Result<Invite, Error>): seq<Invite> {
    match r case Ok(inv) => invites + [inv] case Err(_) => invites
  }

  /** The invites read from the texts, in order; texts that are not decoded are passed over. */
  function Read(lib: Libraries, community: seq<CachedHub>, now: int, hubs: seq<CachedHub>, texts: seq<string>): seq<Invite>
    decreases |texts|
  {
    if texts == [] then []
    else
      var n := |texts| - 1;
      WithOk(Read(lib, community, now, hubs, texts[..n]), DecodedAt(lib, community, now, hubs, texts, n))
  }

  /** The hubs of the invites that are cloud seeds, or that are not, in order. */
  function HubsOf(lib: Libraries, invites: seq<Invite>, seed: bool): seq<CachedHub>
    decreases |invites|
  {
    if invites == [] then []
    else
      var inv := invites[|invites| - 1];
      HubsOf(lib, invites[..|invites| - 1], seed)
      + if inv.cloudSeed == seed then [FromInvite(lib.show, lib.hash, inv, Scanned)] else []
  }

  function ManualHub(m: Manual): (h: CachedHub)
    ensures h.ed25519 == m.key && h.ipv6 == m.ipv6 && h.ipv4 == [] && h.source == Scanned && h.port == if m.port == 0 then 4433 else m.port
  {
    CachedHub([], m.key, [], m.ipv6, [], if m.port == 0 then DEFAULT_PORT else m.port, 0, 0, Scanned, false, "")
  }

  function OpenHub(ok: HelloOK): (h: CachedHub)
    ensures h.ed25519 == ok.ed25519 && h.name == ok.name && h.source == Open && h.ipv6 == [] && h.ipv4 == []
  {
    CachedHub(ok.name, ok.ed25519, [], [], [], 0, 0, 0, Open, false, "")
  }

  // ----- The partition -----

  function Where(p: CachedHub -> bool, s: seq<CachedHub>): seq<CachedHub>
    decreases |s|
  {
    if s == [] then [] else Where(p, s[..|s| - 1]) + if p(s[|s| - 1]) then [s[|s| - 1]] else []
  }

  function Not(p: CachedHub -> bool): CachedHub -> bool { x => !p(x) }

  /** The good ones first, and then the others. */
  function Partition(good: CachedHub -> bool, s: seq<CachedHub>): seq<CachedHub> { Where(good, s) + Where(Not(good), s) }

  class Spoke {
    const lib: Libraries
    const cache: Cache
    const community: seq<CachedHub>
    const seeds: seq<CachedHub>
    const manual: Manual
    var invites: seq<string>
    var session: Option<HelloOK>
    var failed: map<seq<Octet>, int>

    constructor (lib: Libraries, cache: Cache, community: seq<CachedHub>, seeds: seq<CachedHub>, manual: Manual)
      ensures this.lib == lib && this.cache == cache && this.community == community && this.seeds == seeds
      ensures this.manual == manual && invites == [] && session == None && failed == map[]
    {
      this.lib, this.cache, this.community, this.seeds, this.manual := lib, cache, community, seeds, manual;
      invites, session, failed := [], None, map[];
    }

    method NoteFail(h: CachedHub, now: int)
      modifies this`failed
      ensures failed == old(failed)[FailKey(h) := now]
    {
      failed := failed[FailKey(h) := now];
    }

    method ClearFail(h: CachedHub)
      modifies this`failed
      ensures failed == old(failed) - {FailKey(h)}
    {
      failed := failed - {FailKey(h)};
    }

    method AddInvite(text: string)
      modifies this`invites
      ensures invites == old(invites) + [text]
    {
      invites := invites + [text];
    }

    function OpenHubs(): seq<CachedHub>
      reads this
    {
      if session == None then [] else [OpenHub(session.value)]
    }

    /** The dial order that the candidates are taken from, and the cache that the call leaves. */
    function Ordered(now: int): seq<CachedHub>
      reads this, cache
    {
      var scan := ScanAll(lib, community, now, cache.hubs, invites);
      DialList(OpenHubs(), cache.hubs, community,
               scan.scanned + (if manual.ipv6 == [] then [] else [ManualHub(manual)]), scan.seeds + seeds)
    }

    function StillGood(now: int): CachedHub -> bool
      reads this
    {
      var f := failed;
      (h: CachedHub) => !RecentFail(f, h, now)
    }

    /** The hubs to try next. */
    method Candidates(now: int) returns (out: seq<CachedHub>)
      modifies cache
      ensures out == Partition(old(StillGood(now)), old(Ordered(now)))
      ensures cache.hubs == ScanAll(lib, community, now, old(cache.hubs), invites).hubs
      ensures var read := Read(lib, community, now, old(cache.hubs), invites);
        var lists := [
          if session == None then [] else [OpenHub(session.value)],
          Pick(old(cache.hubs), false),
          community,
          HubsOf(lib, read, false) + (if manual.ipv6 == [] then [] else [ManualHub(manual)]),
          HubsOf(lib, read, true) + seeds,
          Pick(old(cache.hubs), true)];
        Ranked(lists, failed, now, out) && Gathers(lists, out)
    {
      hide ScanAll, DialList, RecentFail, ManualHub, OpenHub;
      var open: seq<CachedHub> := [];
      if session.Some? {
        open := open + [OpenHub(session.value)];
      }
      assert open == OpenHubs();
      var cached := cache.hubs;
      var scanned: seq<CachedHub>, fromInvites: seq<CachedHub> := ScanInvites(now);
      assert scanned + [] == scanned;
      if manual.ipv6 != [] {
        scanned := scanned + [ManualHub(manual)];
      }
      var ordered := Dial(open, cached, community, scanned, fromInvites + seeds);
      assert ordered == old(Ordered(now));
      var good: seq<CachedHub>, bad: seq<CachedHub> := [], [];
      ghost var still := StillGood(now);
      for i := 0 to |ordered|
        invariant good == Where(still, ordered[..i]) && bad == Where(Not(still), ordered[..i])
      {
        assert ordered[..i + 1][..i] == ordered[..i];
        if RecentFail(failed, ordered[i], now) {
          bad := bad + [ordered[i]];
        } else {
          good := good + [ordered[i]];
        }
      }
      assert ordered[..|ordered|] == ordered;
      ScanSplits(lib, community, now, cached, invites);
      CandidatesRanked(failed, now, open, cached, community, scanned, fromInvites + seeds);
      CandidatesGather(still, open, cached, community, scanned, fromInvites + seeds);
      return good + bad;
    }

    /** The loop over the invites, which remembers every hub that it reads. */
    method ScanInvites(now: int) returns (scanned: seq<CachedHub>, fromInvites: seq<CachedHub>)
      modifies cache
      ensures var scan := ScanAll(lib, community, now, old(cache.hubs), invites);
              scanned == scan.scanned && fromInvites == scan.seeds && cache.hubs == scan.hubs
    {
      hide GoDecode, Remembered, FromInvite, KnownInvites, ListResolver, TableResolver, IsTableOf;
      scanned, fromInvites := [], [];
      for i := 0 to |invites|
        invariant Scan(cache.hubs, scanned, fromInvites) == ScanAll(lib, community, now, old(cache.hubs), invites[..i])
      {
        assert invites[..i + 1][..i] == invites[..i];
        var m := LookupTable(lib.hash, KnownInvites(lib.parse, cache.hubs, community));
        TableAnswers(lib.hash, lib.dec, KnownInvites(lib.parse, cache.hubs, community), m, invites[i]);
        var decoded := GoDecode(lib.dec, TableResolver(m), invites[i]);
        if decoded.Ok? {
          var inv := decoded.value;
          var h := FromInvite(lib.show, lib.hash, inv, Scanned);
          cache.Remember(h, now);
          if inv.cloudSeed {
            fromInvites := fromInvites + [h];
          } else {
            scanned := scanned + [h];
          }
        }
      }
      assert invites[..|invites|] == invites;
    }
  }

  // ----- What the scan leaves -----

  /** The hubs to try are those of the invites read, in order, cloud seeds apart from the others. */
  lemma {:induction false} ScanSplits(lib: Libraries, community: seq<CachedHub>, now: int, hubs: seq<CachedHub>, texts: seq<string>)
    ensures var s := ScanAll(lib, community, now, hubs, texts);
      var read := Read(lib, community, now, hubs, texts);
      s.scanned == HubsOf(lib, read, false) && s.seeds == HubsOf(lib, read, true)
    decreases |texts|
  {
    hide GoDecode, FromInvite, Remembered, KnownInvites, ListResolver;
    if texts != [] {
      var n := |texts| - 1;
      ScanSplits(lib, community, now, hubs, texts[..n]);
      if DecodedAt(lib, community, now, hubs, texts, n).Ok? {
        HubsOfSnoc(lib, Read(lib, community, now, hubs, texts[..n]), DecodedAt(lib, community, now, hubs, texts, n).value);
      }
    }
  }

  lemma HubsOfSnoc(lib: Libraries, invites: seq<Invite>, inv: Invite)
    ensures var h := FromInvite(lib.show, lib.hash, inv, Scanned);
      && HubsOf(lib, invites + [inv], inv.cloudSeed) == HubsOf(lib, invites, inv.cloudSeed) + [h]
      && HubsOf(lib, invites + [inv], !inv.cloudSeed) == HubsOf(lib, invites, !inv.cloudSeed)
  {
    hide FromInvite;
    assert (invites + [inv])[..|invites|] == invites;
  }

  /** The k-th invite read is the last of its key. */
  ghost predicate LastOfKey(read: seq<Invite>, k: nat)
    requires k < |read|
  {
    forall l :: k < l < |read| ==> read[l].pubKey != read[k].pubKey
  }

  /** The cache afterwards: still one entry for each key; the old entries in their places, unchanged
      unless an invite of their key was read; and of every key that was read, all that the last
      invite of it says. */
  ghost predicate ScanKept(lib: Libraries, now: int, hubs: seq<CachedHub>, read: seq<Invite>, after: seq<CachedHub>) {
    && KeysDistinct(after)
    && |after| >= |hubs|
    && (forall i :: 0 <= i < |hubs| ==> after[i].ed25519 == hubs[i].ed25519)
    && (forall i :: 0 <= i < |hubs| && (forall l :: 0 <= l < |read| ==> read[l].pubKey != hubs[i].ed25519) ==> after[i] == hubs[i])
    && (forall k :: 0 <= k < |read| && LastOfKey(read, k) ==> InCache(after, FromInvite(lib.show, lib.hash, read[k], Scanned), now))
  }

  lemma ScanKeptStep(lib: Libraries, now: int, hubs: seq<CachedHub>, read: seq<Invite>, mid: seq<CachedHub>, inv: Invite)
    requires ScanKept(lib, now, hubs, read, mid)
    ensures ScanKept(lib, now, hubs, read + [inv], Remembered(mid, FromInvite(lib.show, lib.hash, inv, Scanned), now))
  {
    hide Remembered, ShortDisplay, Kept;
    var h := FromInvite(lib.show, lib.hash, inv, Scanned);
    var after := Remembered(mid, h, now);
    var all := read + [inv];
    RememberKeeps(mid, h, now);
    forall i | 0 <= i < |hubs| && (forall l :: 0 <= l < |all| ==> all[l].pubKey != hubs[i].ed25519) ensures after[i] == hubs[i] {
      assert all[|read|].pubKey != hubs[i].ed25519;
      assert forall l :: 0 <= l < |read| ==> read[l] == all[l];
    }
    forall k | 0 <= k < |all| && LastOfKey(all, k) ensures InCache(after, FromInvite(lib.show, lib.hash, all[k], Scanned), now) {
      if k < |read| {
        assert all[|read|].pubKey != all[k].pubKey;
        assert forall l :: k < l < |read| ==> read[l] == all[l];
        assert LastOfKey(read, k);
        OthersStay(lib, now, mid, after, read[k], inv);
      }
    }
  }

  lemma OthersStay(lib: Libraries, now: int, mid: seq<CachedHub>, after: seq<CachedHub>, earlier: Invite, inv: Invite)
    requires |mid| <= |after| && InCache(mid, FromInvite(lib.show, lib.hash, earlier, Scanned), now) && earlier.pubKey != inv.pubKey
    requires forall i :: 0 <= i < |mid| && mid[i].ed25519 != inv.pubKey ==> after[i] == mid[i]
    ensures InCache(after, FromInvite(lib.show, lib.hash, earlier, Scanned), now)
  {
    hide ShortDisplay;
    var h := FromInvite(lib.show, lib.hash, earlier, Scanned);
    var i :| 0 <= i < |mid| && Kept(mid[i], h, now);
    assert Kept(after[i], h, now);
  }

  lemma {:induction false} ScanKeepsCache(lib: Libraries, community: seq<CachedHub>, now: int, hubs: seq<CachedHub>, texts: seq<string>)
    requires KeysDistinct(hubs)
    ensures ScanKept(lib, now, hubs, Read(lib, community, now, hubs, texts), ScanAll(lib, community, now, hubs, texts).hubs)
    decreases |texts|
  {
    hide GoDecode, FromInvite, Remembered, KnownInvites, ListResolver;
    if texts != [] {
      var n := |texts| - 1;
      var read := Read(lib, community, now, hubs, texts[..n]);
      var mid := ScanAll(lib, community, now, hubs, texts[..n]).hubs;
      ScanKeepsCache(lib, community, now, hubs, texts[..n]);
      var r := DecodedAt(lib, community, now, hubs, texts, n);
      if r.Ok? {
        ScanKeptStep(lib, now, hubs, read, mid, r.value);
      }
    }
  }

  lemma {:induction false} LastRead(read: seq<Invite>, k: nat) returns (l: nat)
    requires k < |read|
    ensures k <= l < |read| && read[l].pubKey == read[k].pubKey && LastOfKey(read, l)
    decreases |read| - k
  {
    l := k;
    if !LastOfKey(read, k) {
      var j :| k < j < |read| && read[j].pubKey == read[k].pubKey;
      l := LastRead(read, j);
    }
  }

  lemma {:induction false} HubsOfFrom(lib: Libraries, read: seq<Invite>, seed: bool, h: CachedHub) returns (k: nat)
    requires h in HubsOf(lib, read, seed)
    ensures k < |read| && h == FromInvite(lib.show, lib.hash, read[k], Scanned)
    decreases |read|
  {
    hide FromInvite;
    var n := |read| - 1;
    if h in HubsOf(lib, read[..n], seed) {
      k := HubsOfFrom(lib, read[..n], seed, h);
    } else {
      k := n;
    }
  }

  /** Every hub that an invite has given is in the cache afterwards, stamped with this call. */
  lemma ScannedAreCached(lib: Libraries, community: seq<CachedHub>, now: int, hubs: seq<CachedHub>, texts: seq<string>, h: CachedHub)
    requires KeysDistinct(hubs)
    requires var s := ScanAll(lib, community, now, hubs, texts); h in s.scanned + s.seeds
    ensures var after := ScanAll(lib, community, now, hubs, texts).hubs;
      exists i :: 0 <= i < |after| && after[i].ed25519 == h.ed25519 && after[i].lastSeen == now
  {
    hide ScanAll, Read, HubsOf, ShortDisplay;
    var read := Read(lib, community, now, hubs, texts);
    var s := ScanAll(lib, community, now, hubs, texts);
    ScanSplits(lib, community, now, hubs, texts);
    ScanKeepsCache(lib, community, now, hubs, texts);
    var k := HubsOfFrom(lib, read, h in HubsOf(lib, read, true), h);
    var l := LastRead(read, k);
    var g := FromInvite(lib.show, lib.hash, read[l], Scanned);
    var i :| 0 <= i < |s.hubs| && Kept(s.hubs[i], g, now);
  }

  /** A short code that comes after the full blob of its hub: looked up in the cache that the blob
      has gone into, it finds the hub exactly when the blob had no expiry (or the hash collides),
      absent a collision with another hub. Nothing but the last invite of the key matters. */
  lemma CodeAfterBlob(lib: Libraries, community: seq<CachedHub>, now: int, hubs: seq<CachedHub>, texts: seq<string>, k: nat,
                      before: string, r: string, after: string)
    requires ParsesBack(lib.show, lib.parse) && KeysDistinct(hubs)
    requires var read := Read(lib, community, now, hubs, texts);
      && k < |read| && LastOfKey(read, k)
      && Sane(read[k].ipv6) && Sane(read[k].ipv4) && Marshal(read[k], false).Ok?
      && NoCollision(lib.hash, lib.parse, ScanAll(lib, community, now, hubs, texts).hubs, community, read[k].pubKey,
                     ShortCode(lib.hash, read[k]))
      && WritesCode(r, ShortCode(lib.hash, read[k])) && AllSpace(before) && AllSpace(after)
    ensures var inv := Read(lib, community, now, hubs, texts)[k];
      DecodedNext(lib, community, now, hubs, texts, before + r + after)
      == if ExpiryField(inv.expiry) == 0 || Collides(lib.hash, inv) then Ok(ThroughCache(inv)) else Err(ErrShort)
  {
    hide ScanAll, Read, ShortCode, WritesCode, AllSpace, GoDecode, Body, ThroughCache, ListResolver, KnownInvites, ExpiryField,
      Collides, Holds, NoCollision, KeysDistinct, FromInvite, InCache, ParsesBack;
    var inv := Read(lib, community, now, hubs, texts)[k];
    var cached := ScanAll(lib, community, now, hubs, texts).hubs;
    ScanKeepsCache(lib, community, now, hubs, texts);
    KeptHolds(lib.show, lib.parse, lib.hash, cached, inv, Scanned, now);
    var all := texts + [before + r + after];
    assert all[..|texts|] == texts && all[|texts|] == before + r + after;
    CodeThroughCache(lib.parse, lib.hash, lib.dec, cached, community, inv, before, r, after);
  }

  // ----- The blob of an invite and then its code -----

  /** None of the texts after text t is read as an invite of this key. */
  ghost predicate NoneLater(lib: Libraries, community: seq<CachedHub>, now: int, hubs: seq<CachedHub>, texts: seq<string>, t: nat,
                            key: seq<Octet>)
    requires t < |texts|
  {
    var read := Read(lib, community, now, hubs, texts);
    forall l :: |Read(lib, community, now, hubs, texts[..t + 1])| <= l < |read| ==> read[l].pubKey != key
  }

  lemma {:induction false} ReadPrefix(lib: Libraries, community: seq<CachedHub>, now: int, hubs: seq<CachedHub>, texts: seq<string>, n: nat)
    requires n <= |texts|
    ensures Read(lib, community, now, hubs, texts[..n]) <= Read(lib, community, now, hubs, texts)
    decreases |texts|
  {
    hide DecodedAt;
    if n == |texts| {
      assert texts[..n] == texts;
    } else {
      ReadPrefix(lib, community, now, hubs, texts[..|texts| - 1], n);
      assert texts[..|texts| - 1][..n] == texts[..n];
    }
  }

  lemma PrefixDecodes(lib: Libraries, community: seq<CachedHub>, now: int, hubs: seq<CachedHub>, texts: seq<string>, n: nat, j: nat)
    requires j < n <= |texts|
    ensures DecodedAt(lib, community, now, hubs, texts[..n], j) == DecodedAt(lib, community, now, hubs, texts, j)
  {
    hide ScanAll, GoDecode, ListResolver, KnownInvites;
    assert texts[..n][..j] == texts[..j];
    assert texts[..n][j] == texts[j];
  }

  /** The invite that a text is decoded to is the last of its key among all that are read. */
  lemma ReadFrom(lib: Libraries, community: seq<CachedHub>, now: int, hubs: seq<CachedHub>, texts: seq<string>, t: nat, inv: Invite)
    returns (k: nat)
    requires t < |texts| && DecodedAt(lib, community, now, hubs, texts, t) == Ok(inv)
    requires NoneLater(lib, community, now, hubs, texts, t, inv.pubKey)
    ensures var read := Read(lib, community, now, hubs, texts); k < |read| && read[k] == inv && LastOfKey(read, k)
  {
    hide DecodedAt;
    var upTo := texts[..t + 1];
    assert upTo[..t] == texts[..t];
    k := |Read(lib, community, now, hubs, texts[..t])|;
    PrefixDecodes(lib, community, now, hubs, texts, t + 1, t);
    assert Read(lib, community, now, hubs, upTo) == Read(lib, community, now, hubs, texts[..t]) + [inv];
    ReadPrefix(lib, community, now, hubs, texts, t + 1);
    assert Read(lib, community, now, hubs, texts)[k] == Read(lib, community, now, hubs, upTo)[k];
  }

  /** Writing and reading an invite changes neither its code nor what the cache makes of its bytes. */
  lemma CanonicalCode(hash: Hash, inv: Invite)
    requires Marshal(inv, false).Ok? && !Unspecified(inv)
    ensures Marshal(Canonical(inv), false).Ok? && ShortCode(hash, Canonical(inv)) == ShortCode(hash, inv)
    ensures ExpiryField(Canonical(inv).expiry) == ExpiryField(inv.expiry)
    ensures Collides(hash, Canonical(inv)) == Collides(hash, inv)
  {
    hide Body, Canonical, ThroughCache, Unspecified, ShortFrom, ExpiryField;
    CanonicalRefusal(inv);
    CanonicalBody(inv);
    CanonicalExpiry(inv);
    CacheRefusal(inv);
    CacheRefusal(Canonical(inv));
    CachedCanonical(inv);
  }

  lemma CanonicalExpiry(inv: Invite)
    ensures ExpiryField(Canonical(inv).expiry) == ExpiryField(inv.expiry)
  {
    hide ExpiryField, ExpiryOf, To4, To16, IPv6Of;
    FieldOfExpiry(ExpiryField(inv.expiry));
  }

  lemma CachedCanonical(inv: Invite)
    ensures Body(ThroughCache(Canonical(inv))) == Body(ThroughCache(inv))
  {
    hide FlagsOf, ExpiryField, ExpiryOf, Fixed, To4, To16, NameField, IPv6Of;
    CanonicalAddresses(inv);
    CacheFields(inv);
    CacheFields(Canonical(inv));
  }

  lemma CanonicalSane(inv: Invite)
    ensures Sane(Canonical(inv).ipv6) && Sane(Canonical(inv).ipv4) && Canonical(inv).pubKey == inv.pubKey
  {
    hide ExpiryField, ExpiryOf, To4, To16;
    To4Length(inv.ipv4);
  }

  lemma BlobDecoded(lib: Libraries, community: seq<CachedHub>, now: int, hubs: seq<CachedHub>, texts: seq<string>, t: nat, inv: Invite)
    requires Lawful(lib.dec) && t < |texts| && GoEncode(inv) == Ok(texts[t]) && !Unspecified(inv)
    ensures DecodedAt(lib, community, now, hubs, texts, t) == Ok(Canonical(inv))
  {
    hide GoDecode, GoEncode, Canonical, Unspecified, ScanAll, ListResolver, KnownInvites;
    var cached := ScanAll(lib, community, now, hubs, texts[..t]).hubs;
    GoTextRoundTrip(lib.dec, ListResolver(lib.hash, KnownInvites(lib.parse, cached, community)), inv);
  }

  /** From text to text: the blob of any invite is among the texts, no later text is read as an invite
      of its key, and the short code is typed after them, in any writing. Absent a collision with
      another hub it is found exactly when the invite has no expiry, or the hash collides on its bytes. */
  lemma BlobThenCode(lib: Libraries, community: seq<CachedHub>, now: int, hubs: seq<CachedHub>, texts: seq<string>, t: nat, inv: Invite,
                     before: string, r: string, after: string)
    requires Lawful(lib.dec) && ParsesBack(lib.show, lib.parse) && KeysDistinct(hubs)
    requires t < |texts| && GoEncode(inv) == Ok(texts[t]) && !Unspecified(inv)
    requires NoneLater(lib, community, now, hubs, texts, t, inv.pubKey)
    requires NoCollision(lib.hash, lib.parse, ScanAll(lib, community, now, hubs, texts).hubs, community, inv.pubKey, ShortCode(lib.hash, inv))
    requires WritesCode(r, ShortCode(lib.hash, inv)) && AllSpace(before) && AllSpace(after)
    ensures Marshal(inv, false).Ok?
    ensures DecodedNext(lib, community, now, hubs, texts, before + r + after)
      == if ExpiryField(inv.expiry) == 0 || Collides(lib.hash, inv) then Ok(ThroughCache(Canonical(inv))) else Err(ErrShort)
  {
    hide ScanAll, Read, ShortCode, WritesCode, AllSpace, DecodedAt, Body, ThroughCache, Canonical, ExpiryField, Collides, NoCollision,
      KeysDistinct, ParsesBack, Unspecified, Lawful, NoneLater, Sane, LastOfKey, DecodedNext;
    BlobDecoded(lib, community, now, hubs, texts, t, inv);
    CanonicalCode(lib.hash, inv);
    CanonicalSane(inv);
    var k := ReadFrom(lib, community, now, hubs, texts, t, Canonical(inv));
    CodeAfterBlob(lib, community, now, hubs, texts, k, before, r, after);
  }

  /** So until 2106 the code of an invite that a hub gives out is not found after its blob, unless the
      hash collides. */
  lemma GivenOutBlobThenCode(lib: Libraries, community: seq<CachedHub>, now: int, hubs: seq<CachedHub>, texts: seq<string>, t: nat,
                             c: HubConfig, made: Time, before: string, r: string, after: string)
    requires Lawful(lib.dec) && ParsesBack(lib.show, lib.parse) && KeysDistinct(hubs)
    requires 0 <= made.sec && made.sec + WEEK < TWO32
    requires t < |texts| && GoEncode(BuildInvite(c, made)) == Ok(texts[t]) && !Unspecified(BuildInvite(c, made))
    requires Marshal(BuildInvite(c, made), false).Ok? && !Collides(lib.hash, BuildInvite(c, made))
    requires NoneLater(lib, community, now, hubs, texts, t, c.key)
    requires var code := ShortCode(lib.hash, BuildInvite(c, made));
      && NoCollision(lib.hash, lib.parse, ScanAll(lib, community, now, hubs, texts).hubs, community, c.key, code)
      && WritesCode(r, code) && AllSpace(before) && AllSpace(after)
    ensures DecodedNext(lib, community, now, hubs, texts, before + r + after) == Err(ErrShort)
  {
    hide ScanAll, ShortCode, WritesCode, AllSpace, DecodedNext, Body, ThroughCache, Canonical, Collides, NoCollision, KeysDistinct,
      ParsesBack, Unspecified, Lawful, NoneLater, Marshal;
    WordsInjectiveZero(made.sec + WEEK);
    BlobThenCode(lib, community, now, hubs, texts, t, BuildInvite(c, made), before, r, after);
  }

  // ----- What the order is -----

  lemma {:induction false} WhereMembers(p: CachedHub -> bool, s: seq<CachedHub>)
    ensures forall x :: x in Where(p, s) <==> x in s && p(x)
    decreases |s|
  {
    if s != [] {
      WhereMembers(p, s[..|s| - 1]);
      assert s == s[..|s| - 1] + [s[|s| - 1]];
    }
  }

  /** The order stays. */
  lemma {:induction false} WhereOrder(p: CachedHub -> bool, s: seq<CachedHub>, i: nat, j: nat) returns (k: nat, l: nat)
    requires i < j < |Where(p, s)|
    ensures k < l < |s| && s[k] == Where(p, s)[i] && s[l] == Where(p, s)[j]
    decreases |s|
  {
    var n := |s| - 1;
    if j < |Where(p, s[..n])| {
      k, l := WhereOrder(p, s[..n], i, j);
    } else {
      l := n;
      WhereMembers(p, s[..n]);
      var x := Where(p, s[..n])[i];
      assert x in Where(p, s[..n]);
      assert x in s[..n];
      k :| 0 <= k < n && s[..n][k] == x;
    }
  }

  lemma {:induction false} PartitionIn(good: CachedHub -> bool, s: seq<CachedHub>)
    ensures multiset(Partition(good, s)) == multiset(s)
    decreases |s|
  {
    if s != [] {
      PartitionIn(good, s[..|s| - 1]);
      assert s == s[..|s| - 1] + [s[|s| - 1]];
    }
  }

  /** Of any two, the good one comes first; and two that are both good, or both not, are in the
      order they had. */
  lemma PartitionOrder(good: CachedHub -> bool, s: seq<CachedHub>, i: nat, j: nat)
    requires i < j < |Partition(good, s)|
    ensures var x, y := Partition(good, s)[i], Partition(good, s)[j];
      || (good(x) && !good(y))
      || (good(x) == good(y) && exists k, l :: 0 <= k < l < |s| && s[k] == x && s[l] == y)
  {
    hide Where;
    var bad := Not(good);
    var n := |Where(good, s)|;
    WhereMembers(good, s);
    WhereMembers(bad, s);
    var r := Partition(good, s);
    assert forall m :: 0 <= m < n ==> r[m] in Where(good, s);
    assert forall m :: n <= m < |r| ==> r[m] == Where(bad, s)[m - n];
    assert forall m :: n <= m < |r| ==> r[m] in Where(bad, s);
    if j < n {
      var k, l := WhereOrder(good, s, i, j);
    } else if i >= n {
      var k, l := WhereOrder(bad, s, i - n, j - n);
    }
  }

  /** Noted as failed less than thirty seconds ago. */
  predicate Failing(failed: map<seq<Octet>, int>, h: CachedHub, now: int) {
    FailKey(h) in failed && now - failed[FailKey(h)] < 30_000_000_000
  }

  /** Hub g may come before h: it is first found in an earlier list; or in the same one, and there, for
      the open and cached hubs, with the lower round trip, unknown ones last, or else seen later. */
  ghost predicate InTurn(lists: seq<seq<CachedHub>>, g: CachedHub, h: CachedHub) {
    exists s: nat, t: nat ::
      && FirstIn(lists, s, g) && FirstIn(lists, t, h) && s <= t
      && (s == t < 2 && g.lastRtt != h.lastRtt ==> h.lastRtt == 0 || (g.lastRtt != 0 && g.lastRtt < h.lastRtt))
      && (s == t && (s >= 2 || g.lastRtt == h.lastRtt) ==> g.lastSeen >= h.lastSeen)
  }

  /** Hubs that failed lately come after all others, and within each half hubs come in turn. */
  ghost predicate Ranked(lists: seq<seq<CachedHub>>, failed: map<seq<Octet>, int>, now: int, out: seq<CachedHub>) {
    forall i, j :: 0 <= i < j < |out| ==>
      && (Failing(failed, out[i], now) ==> Failing(failed, out[j], now))
      && (Failing(failed, out[i], now) == Failing(failed, out[j], now) ==> InTurn(lists, out[i], out[j]))
  }

  /** No hub twice, and exactly those of the lists. */
  ghost predicate Gathers(lists: seq<seq<CachedHub>>, out: seq<CachedHub>) {
    && NoneTwice(out)
    && forall k :: k in KeysOf(out) <==> exists l :: 0 <= l < |lists| && k in KeysOf(lists[l])
  }

  /** The partition of the dial list by recent failure. */
  lemma CandidatesRanked(failed: map<seq<Octet>, int>, now: int, open: seq<CachedHub>, cached: seq<CachedHub>,
                         community: seq<CachedHub>, scanned: seq<CachedHub>, seeds: seq<CachedHub>)
    ensures var lists := [open, Pick(cached, false), community, scanned, seeds, Pick(cached, true)];
      Ranked(lists, failed, now, Partition(h => !RecentFail(failed, h, now), DialList(open, cached, community, scanned, seeds)))
  {
    hide DialList, Partition, FirstIn, FailKey, RecentFail;
    var good := h => !RecentFail(failed, h, now);
    var lists := [open, Pick(cached, false), community, scanned, seeds, Pick(cached, true)];
    var ordered := DialList(open, cached, community, scanned, seeds);
    var out := Partition(good, ordered);
    forall i, j | 0 <= i < j < |out|
      ensures good(out[j]) ==> good(out[i])
      ensures good(out[i]) == good(out[j]) ==> InTurn(lists, out[i], out[j])
    {
      PartitionOrder(good, ordered, i, j);
      if good(out[i]) == good(out[j]) {
        var k, l :| 0 <= k < l < |ordered| && ordered[k] == out[i] && ordered[l] == out[j];
        var s, t := DialsInOrder(open, cached, community, scanned, seeds, k, l);
      }
    }
    forall h ensures good(h) == !Failing(failed, h, now) {
      GoodOrFailing(failed, h, now);
    }
  }

  lemma GoodOrFailing(failed: map<seq<Octet>, int>, h: CachedHub, now: int)
    ensures RecentFail(failed, h, now) == Failing(failed, h, now)
  {
  }

  lemma CandidatesGather(good: CachedHub -> bool, open: seq<CachedHub>, cached: seq<CachedHub>, community: seq<CachedHub>,
                         scanned: seq<CachedHub>, seeds: seq<CachedHub>)
    ensures var lists := [open, Pick(cached, false), community, scanned, seeds, Pick(cached, true)];
      Gathers(lists, Partition(good, DialList(open, cached, community, scanned, seeds)))
  {
    hide DialList, Partition, HubKey, KeysOf, Pick;
    var ordered := DialList(open, cached, community, scanned, seeds);
    var out := Partition(good, ordered);
    DialsEachOnce(open, cached, community, scanned, seeds);
    PickedKeys(cached);
    PartitionIn(good, ordered);
    SameKeys(ordered, out);
    var lists := [open, Pick(cached, false), community, scanned, seeds, Pick(cached, true)];
    forall k ensures k in KeysOf(out) <==> exists l :: 0 <= l < |lists| && k in KeysOf(lists[l]) {
      assert (exists l :: 0 <= l < |lists| && k in KeysOf(lists[l])) <==>
        k in KeysOf(lists[0]) || k in KeysOf(lists[1]) || k in KeysOf(lists[2]) || k in KeysOf(lists[3]) || k in KeysOf(lists[4])
        || k in KeysOf(lists[5]);
    }
  }

  /** A permutation has the same keys, and none twice if the other has none twice. */
  lemma SameKeys(s: seq<CachedHub>, t: seq<CachedHub>)
    requires multiset(s) == multiset(t) && NoneTwice(s)
    ensures NoneTwice(t) && KeysOf(t) == KeysOf(s)
  {
    hide HubKey, KeysOf;
    KeysAre(s);
    KeysAre(t);
    forall h ensures h in s <==> h in t {
      assert h in s <==> h in multiset(s);
      assert h in t <==> h in multiset(t);
    }
    forall i, j | 0 <= i < j < |t| ensures HubKey(t[i]) != HubKey(t[j]) {
      TwoOf(t, i, j);
      assert t[i] in t && t[j] in t;
      var a :| 0 <= a < |s| && s[a] == t[i];
      var b :| 0 <= b < |s| && s[b] == t[j];
      OnlyOnce(s, a);
      assert a != b;
    }
  }

  lemma TwoOf(t: seq<CachedHub>, i: nat, j: nat)
    requires i < j < |t|
    ensures t[i] == t[j] ==> multiset(t)[t[i]] >= 2
  {
    assert t == t[..i] + [t[i]] + t[i + 1..j] + [t[j]] + t[j + 1..];
  }

  lemma OnlyOnce(s: seq<CachedHub>, a: nat)
    requires NoneTwice(s) && a < |s|
    ensures multiset(s)[s[a]] == 1
  {
    hide HubKey;
    assert s == s[..a] + [s[a]] + s[a + 1..];
    assert forall i :: 0 <= i < |s| && i != a ==> HubKey(s[i]) != HubKey(s[a]);
    assert s[a] !in s[..a] && s[a] !in s[a + 1..];
  }

  lemma {:induction false} DecimalDigits(n: nat)
    ensures |Decimal(n)| >= 1 && (n >= 10 ==> |Decimal(n)| >= 2)
    ensures BAR !in Decimal(n)
  {
    hide OctetOf, Value;
    ValueOfOctet(48 + n % 10);
    ValueOfBar();
    if n >= 10 {
      DecimalDigits(n / 10);
    }
  }

  lemma ValueOfBar()
    ensures Value(BAR) == 124
  {
  }

  lemma {:induction false} DecimalInjective(m: nat, n: nat)
    requires Decimal(m) == Decimal(n)
    ensures m == n
  {
    hide OctetOf, Value;
    var d, e := Decimal(m), Decimal(n);
    DecimalDigits(m);
    DecimalDigits(n);
    assert d[|d| - 1] == OctetOf(48 + m % 10) && e[|e| - 1] == OctetOf(48 + n % 10);
    ValueOfOctet(48 + m % 10);
    ValueOfOctet(48 + n % 10);
    if m >= 10 && n >= 10 {
      assert d[..|d| - 1] == Decimal(m / 10) && e[..|e| - 1] == Decimal(n / 10);
      DecimalInjective(m / 10, n / 10);
    } else {
      assert m < 10 && |d| == 1 <==> n < 10 && |e| == 1;
    }
  }

  /** Two entries share their failures exactly if key, both addresses and the port are equal. */
  lemma SameFailuresIff(a: CachedHub, b: CachedHub)
    requires PlainAddresses(a) && PlainAddresses(b)
    ensures FailKey(a) == FailKey(b) <==> a.ed25519 == b.ed25519 && a.ipv6 == b.ipv6 && a.ipv4 == b.ipv4 && a.port == b.port
  {
    hide Decimal, HubKey, PlainAddresses, PortValue;
    SameHubIff(a, b);
    DecimalDigits(PortValue(a.port));
    DecimalDigits(PortValue(b.port));
    if FailKey(a) == FailKey(b) {
      LastBar(HubKey(a), Decimal(PortValue(a.port)), HubKey(b), Decimal(PortValue(b.port)));
      DecimalInjective(PortValue(a.port), PortValue(b.port));
      PortsInjective(a.port, b.port);
    }
  }

  /** A failure puts a hub last for thirty seconds, or until it is cleared, and no other hub that
      does not have the same addresses, key and port. */
  lemma FailureWindow(failed: map<seq<Octet>, int>, h: CachedHub, g: CachedHub, then0: int, now: int)
    ensures var noted := failed[FailKey(h) := then0];
      && (RecentFail(noted, h, now) <==> now < then0 + 30_000_000_000)
      && (FailKey(g) != FailKey(h) ==> RecentFail(noted, g, now) == RecentFail(failed, g, now))
      && (PlainAddresses(g) && PlainAddresses(h)
          && (g.ed25519 != h.ed25519 || g.ipv6 != h.ipv6 || g.ipv4 != h.ipv4 || g.port != h.port)
          ==> RecentFail(noted, g, now) == RecentFail(failed, g, now))
      && !RecentFail(noted - {FailKey(h)}, h, now)
  {
    hide FailKey, PlainAddresses;
    if PlainAddresses(g) && PlainAddresses(h) {
      SameFailuresIff(g, h);
    }
  }
}
