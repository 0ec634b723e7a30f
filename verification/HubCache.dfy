/** The cache of hubs of a spoke (hub/cache.go): what `Remember` keeps, what survives of an invite
    that goes through it, and whether its short code still finds the hub. Printing and parsing an
    address are parameters, and address texts are byte strings. */
module HubCache {
  import opened Wrappers
  import opened Octets
  import opened Strings
  import opened Invites
  import opened InviteTheorems
  import opened InviteFormat
  import opened InviteText
  import opened ShortCodes

  datatype Source = Unset | Open | Cached | Community | Scanned | Cloud

  /** A last-good locator. Moments are numbers that grow with time. */
  datatype CachedHub = CachedHub(
    name: seq<Octet>,
    ed25519: seq<Octet>,
    x25519: seq<Octet>,
    ipv6: seq<Octet>,
    ipv4: seq<Octet>,
    port: bv16,
    lastRtt: int,
    lastSeen: int,
    source: Source,
    cloudSeed: bool,
    short: string)

  type Printer = IP -> seq<Octet>
  type Parser = seq<Octet> -> IP

  /** A printed address is not empty and parses as the same address in 16 bytes. */
  ghost predicate ParsesBack(show: Printer, parse: Parser) {
    forall ip: IP :: |ip| in {4, 16} ==> show(ip) != [] && parse(show(ip)) == To16(ip)
  }

  // ----- Remember -----

  /** The first cached hub with this key, or the length of the list. */
  function IndexOfKey(hubs: seq<CachedHub>, key: seq<Octet>): (i: nat)
    ensures i <= |hubs| && (i < |hubs| ==> hubs[i].ed25519 == key)
    ensures forall j :: 0 <= j < i ==> hubs[j].ed25519 != key
  {
    if hubs == [] || hubs[0].ed25519 == key then 0
    else
      assert forall j :: 0 < j < |hubs| ==> hubs[j] == hubs[1..][j - 1];
      1 + IndexOfKey(hubs[1..], key)
  }

  /** h as it is stored: stamped, with a port, and with what it does not know taken from the entry
      that it replaces. */
  function Stored(h: CachedHub, now: int, replaced: Option<CachedHub>): CachedHub {
    var stamped := h.(port := if h.port == 0 then DEFAULT_PORT else h.port, lastSeen := now);
    match replaced
    case None => stamped
    case Some(x) =>
      stamped.(lastRtt := if h.lastRtt == 0 then x.lastRtt else h.lastRtt,
               source := if h.source == Unset then x.source else h.source)
  }

  function Remembered(hubs: seq<CachedHub>, h: CachedHub, now: int): seq<CachedHub> {
    var i := IndexOfKey(hubs, h.ed25519);
    if i < |hubs| then hubs[i := Stored(h, now, Some(hubs[i]))] else hubs + [Stored(h, now, None)]
  }

  class Cache {
    var hubs: seq<CachedHub>

    constructor ()
      ensures hubs == []
    {
      hubs := [];
    }

    method Remember(hub: CachedHub, now: int)
      modifies this
      ensures hubs == Remembered(old(hubs), hub, now)
    {
      var h := hub;
      if h.port == 0 {
        h := h.(port := DEFAULT_PORT);
      }
      h := h.(lastSeen := now);
      var key := h.ed25519;
      for i := 0 to |hubs|
        invariant hubs == old(hubs)
        invariant forall j :: 0 <= j < i ==> hubs[j].ed25519 != key
      {
        var x := hubs[i];
        if x.ed25519 == key {
          if h.lastRtt == 0 {
            h := h.(lastRtt := x.lastRtt);
          }
          if h.source == Unset {
            h := h.(source := x.source);
          }
          hubs := hubs[i := h];
          assert IndexOfKey(old(hubs), key) == i;
          return;
        }
      }
      assert IndexOfKey(old(hubs), key) == |old(hubs)|;
      hubs := hubs + [h];
    }

    /** The resolver over what is cached. */
    method Resolver(hash: Hash, parse: Parser) returns (m: map<string, Invite>)
      ensures IsTableOf(m, hash, InvitesOf(parse, hubs))
    {
      var invs: seq<Option<Invite>> := [];
      for i := 0 to |hubs|
        invariant invs == InvitesOf(parse, hubs[..i])
      {
        assert hubs[..i + 1][..i] == hubs[..i];
        if InviteOf(parse, hubs[i]).Some? {
          invs := invs + [InviteOf(parse, hubs[i])];
        }
      }
      assert hubs[..|hubs|] == hubs;
      m := LookupTable(hash, invs);
    }
  }

  ghost predicate KeysDistinct(hubs: seq<CachedHub>) {
    forall i, j :: 0 <= i < j < |hubs| ==> hubs[i].ed25519 != hubs[j].ed25519
  }

  /** The entry e has all that h says, stamped with this moment. */
  predicate Kept(e: CachedHub, h: CachedHub, now: int) {
    && e.ed25519 == h.ed25519 && e.x25519 == h.x25519 && e.name == h.name && e.short == h.short
    && e.ipv6 == h.ipv6 && e.ipv4 == h.ipv4 && e.cloudSeed == h.cloudSeed
    && e.port == (if h.port == 0 then DEFAULT_PORT else h.port)
    && e.lastSeen == now
    && (h.lastRtt != 0 ==> e.lastRtt == h.lastRtt)
    && (h.source != Unset ==> e.source == h.source)
  }

  ghost predicate InCache(hubs: seq<CachedHub>, h: CachedHub, now: int) {
    exists i :: 0 <= i < |hubs| && Kept(hubs[i], h, now)
  }

  /** The cache never holds two entries of one key, the hub just remembered is in it with all that
      is said of it, what is not said is taken from the entry of its key, and the other entries
      keep their places. */
  lemma RememberKeeps(hubs: seq<CachedHub>, h: CachedHub, now: int)
    requires KeysDistinct(hubs)
    ensures var after := Remembered(hubs, h, now);
            && KeysDistinct(after)
            && |hubs| <= |after| <= |hubs| + 1
            && InCache(after, h, now)
            && (forall i :: 0 <= i < |hubs| ==> after[i].ed25519 == hubs[i].ed25519)
            && (forall i :: 0 <= i < |hubs| && hubs[i].ed25519 == h.ed25519 ==>
                 && (h.lastRtt == 0 ==> after[i].lastRtt == hubs[i].lastRtt)
                 && (h.source == Unset ==> after[i].source == hubs[i].source))
            && forall i :: 0 <= i < |hubs| && hubs[i].ed25519 != h.ed25519 ==> after[i] == hubs[i]
  {
    var i := IndexOfKey(hubs, h.ed25519);
    assert Kept(Remembered(hubs, h, now)[i], h, now);
  }

  /** Remembering again changes nothing but the time. */
  lemma RememberTwice(hubs: seq<CachedHub>, h: CachedHub, now: int, later: int)
    ensures Remembered(Remembered(hubs, h, now), h, later) == Remembered(hubs, h, later)
  {
    var once := Remembered(hubs, h, now);
    var i := IndexOfKey(hubs, h.ed25519);
    assert once[i].ed25519 == h.ed25519;
    assert forall j :: 0 <= j < i ==> once[j] == hubs[j];
    var k := IndexOfKey(once, h.ed25519);
    assert k == i;
    assert Remembered(once, h, later) == Remembered(hubs, h, later);
  }

  // ----- From invites to cached hubs and back -----

  /** `cachedFromInvite`. */
  function FromInvite(show: Printer, hash: Hash, inv: Invite, source: Source): CachedHub {
    CachedHub(inv.name, inv.pubKey, [], if inv.ipv6 == [] then [] else show(inv.ipv6),
              if inv.ipv4 == [] then [] else show(inv.ipv4), inv.port, 0, 0, source, inv.cloudSeed,
              ShortDisplay(hash, inv))
  }

  /** `CachedHub.Invite`. */
  function InviteOf(parse: Parser, h: CachedHub): Option<Invite> {
    if |h.ed25519| != 32 then None
    else
      var ipv6 := if h.ipv6 == [] then [] else parse(h.ipv6);
      var ipv4 := if h.ipv4 == [] then [] else parse(h.ipv4);
      if ipv6 == [] && !h.cloudSeed then None
      else Some(Invite(VERSION, h.ed25519, ipv6, ipv4, h.port, NEVER, h.name, h.cloudSeed))
  }

  /** The invites of the hubs that have one. */
  function InvitesOf(parse: Parser, hubs: seq<CachedHub>): seq<Option<Invite>>
    decreases |hubs|
  {
    if hubs == [] then []
    else
      var inv := InviteOf(parse, hubs[|hubs| - 1]);
      InvitesOf(parse, hubs[..|hubs| - 1]) + if inv.Some? then [inv] else []
  }

  /** An address that is missing, or has a length that addresses have. */
  predicate Sane(ip: IP) { |ip| in {0, 4, 16} }

  /** An invite as it comes out of the cache. */
  function ThroughCache(inv: Invite): Invite {
    Invite(VERSION, inv.pubKey, To16(inv.ipv6), To16(inv.ipv4), PortOf(inv), NEVER, inv.name, inv.cloudSeed)
  }

  lemma CacheKeepsInvite(show: Printer, parse: Parser, hash: Hash, inv: Invite, source: Source, now: int, replaced: Option<CachedHub>)
    requires ParsesBack(show, parse) && Sane(inv.ipv6) && Sane(inv.ipv4) && Refusal(inv) == None
    ensures InviteOf(parse, Stored(FromInvite(show, hash, inv, source), now, replaced)) == Some(ThroughCache(inv))
  {
    hide ShortDisplay, MAPPED, ZEROS, To4;
  }

  /** Exactly these entries have an invite, with this key and port and no expiry: those with a key of 32
      bytes that have an IPv6 address that parses, or are cloud seeds. */
  lemma InviteOfIff(parse: Parser, h: CachedHub)
    ensures InviteOf(parse, h).Some? <==>
      |h.ed25519| == 32 && (h.cloudSeed || (h.ipv6 != [] && parse(h.ipv6) != []))
    ensures InviteOf(parse, h).Some? ==>
      var inv := InviteOf(parse, h).value;
      && inv.pubKey == h.ed25519 && inv.port == h.port && inv.name == h.name && inv.cloudSeed == h.cloudSeed && inv.expiry == NEVER
      && (h.ipv4 == [] ==> inv.ipv4 == []) && (h.ipv4 != [] ==> inv.ipv4 == parse(h.ipv4))
  {
  }

  /** An entry made from an invite shows the code of the invite with a hyphen in the middle. */
  lemma EntryShowsCode(show: Printer, hash: Hash, inv: Invite, source: Source)
    requires Marshal(inv, false).Ok?
    ensures var h := FromInvite(show, hash, inv, source);
      && h.source == source && |h.short| == 11 && h.short[5] == '-' && h.short[..5] + h.short[6..] == ShortCode(hash, inv)
  {
    hide Marshal, ShortCode, ShortDisplay;
    DisplayWritesCode(hash, inv);
  }

  lemma CacheRefusal(inv: Invite)
    requires Refusal(inv) == None
    ensures Refusal(ThroughCache(inv)) == None
  {
    hide MAPPED, ZEROS, To4, To16;
    To16Twice(inv.ipv6);
    To4Of16(inv.ipv6);
  }

  lemma To4Of16(ip: IP)
    ensures To16(ip) == [] ==> To4(ip) == []
    ensures To4(To16(ip)) == To4(ip)
  {
    To16Twice(ip);
  }

  lemma CacheFields(inv: Invite)
    ensures var t := ThroughCache(inv);
            && IPv6Of(t) == IPv6Of(inv) && To4(t.ipv4) == To4(inv.ipv4) && PortOf(t) == PortOf(inv)
            && CutName(t.name) == CutName(inv.name) && ExpiryField(t.expiry) == 0
  {
    hide MAPPED, ZEROS, To4, To16;
    To16Twice(inv.ipv6);
    To4Of16(inv.ipv4);
  }

  lemma CacheBody(inv: Invite)
    ensures Body(ThroughCache(inv)) == Body(inv) <==> ExpiryField(inv.expiry) == 0
  {
    hide FlagsOf, ExpiryField, Fixed, NameField, To4, To16, IPv6Of, PortOf, CutName, ExpiryIn, KeyIn, IPv6In, PortIn, ZEROS;
    CacheFields(inv);
    var t := ThroughCache(inv);
    var v4, name := To4(inv.ipv4), CutName(inv.name);
    var flags := FlagsOf(v4 != [], inv.cloudSeed, name != []);
    FixedRead(VERSION, flags, inv.pubKey, IPv6Of(inv), PortOf(inv), ExpiryField(inv.expiry), v4 + NameField(name));
    FixedRead(VERSION, flags, inv.pubKey, IPv6Of(inv), PortOf(inv), 0, v4 + NameField(name));
  }

  /** The bytes that the fingerprint is taken of survive the cache exactly when the invite has no
      expiry, as the 32-bit field has it. */
  lemma CacheKeepsBytesIff(inv: Invite)
    requires Marshal(inv, false).Ok?
    ensures Marshal(ThroughCache(inv), false).Ok?
    ensures Marshal(ThroughCache(inv), false) == Marshal(inv, false) <==> ExpiryField(inv.expiry) == 0
  {
    hide Body, ThroughCache, ExpiryField;
    CacheRefusal(inv);
    CacheBody(inv);
  }

  /** The bytes that the codes of an invite, and of the same invite out of the cache, are made of. */
  function OwnBytes(inv: Invite): seq<Octet>
    requires Marshal(inv, false).Ok?
  {
    Marshal(inv, false).value
  }

  function CachedBytes(inv: Invite): seq<Octet>
    requires Marshal(inv, false).Ok?
  {
    CacheKeepsBytesIff(inv);
    Marshal(ThroughCache(inv), false).value
  }

  /** The hash gives these two different byte strings the same ten letters. */
  predicate Collides(hash: Hash, inv: Invite)
    requires Marshal(inv, false).Ok?
  {
    OwnBytes(inv) != CachedBytes(inv) && ShortFrom(hash, OwnBytes(inv)) == ShortFrom(hash, CachedBytes(inv))
  }

  /** The short code survives the cache exactly when the invite has no expiry, or the hash happens
      to collide on the bytes with the expiry and those without. */
  lemma CodeSurvivesCacheIff(hash: Hash, inv: Invite)
    requires Marshal(inv, false).Ok?
    ensures ShortCode(hash, ThroughCache(inv)) == ShortCode(hash, inv)
      <==> ExpiryField(inv.expiry) == 0 || Collides(hash, inv)
  {
    hide Marshal, ThroughCache, ExpiryField, ShortFrom;
    CacheKeepsBytesIff(inv);
  }

  const WEEK := 604_800 // seconds
  const LOOPBACK: IP := [0, 0, 0, 0, 0, 0, 0, 0, 0, 0, 0, 0, 0, 0, 0, 1]

  /** What a hub knows of itself. */
  datatype HubConfig = HubConfig(
    key: Key,
    port: bv16,
    name: seq<Octet>,
    cloudSeed: bool,
    publicV6: IP,
    publicV4: IP,
    claimIPv4: bool,
    dev: bool)

  /** `buildInvite`: the invite that a hub gives out, good for a week. */
  function BuildInvite(c: HubConfig, now: Time): Invite {
    Invite(VERSION, c.key, if c.publicV6 != [] then c.publicV6 else if c.dev then LOOPBACK else [],
           if c.claimIPv4 then c.publicV4 else [], c.port, Time(now.sec + WEEK, now.nsec), c.name, c.cloudSeed)
  }

  /** Until 2106 no invite that a hub gives out keeps its fingerprint in the cache of a spoke. */
  lemma GivenOutLosesBytes(c: HubConfig, now: Time)
    requires 0 <= now.sec && now.sec + WEEK < TWO32 && Marshal(BuildInvite(c, now), false).Ok?
    ensures Marshal(ThroughCache(BuildInvite(c, now)), false) != Marshal(BuildInvite(c, now), false)
  {
    hide Marshal, ThroughCache, MAPPED, ZEROS;
    WordsInjectiveZero(now.sec + WEEK);
    CacheKeepsBytesIff(BuildInvite(c, now));
  }

  /** Whether a hub can give out an invite: with a key, and for a cloud seed in any case, else with an
      IPv6 address of its own, or none in development. */
  lemma GivenOutIff(c: HubConfig, now: Time)
    ensures GoEncode(BuildInvite(c, now)).Ok? <==>
      && !AllZero(c.key)
      && (c.cloudSeed || (c.publicV6 == [] && c.dev) || (|c.publicV6| == 16 && !MapsFour(c.publicV6)))
  {
    hide Marshal, AllZero;
    MarshalIff(BuildInvite(c, now), true);
    assert LOOPBACK[10] == 0;
  }

  /** What a reader of the blob learns of the hub: its key, port, flag and name, an expiry 604800 seconds
      later, its IPv6 address, or the loopback address in development, and its IPv4 address only if it
      claims one. */
  lemma GivenOutReads(dec: Decoder, resolve: Resolver, c: HubConfig, now: Time)
    requires Lawful(dec) && GoEncode(BuildInvite(c, now)).Ok? && !Unspecified(BuildInvite(c, now))
    requires 0 <= now.sec && now.sec + 604800 < 0x1_0000_0000
    ensures var r := GoDecode(dec, resolve, GoEncode(BuildInvite(c, now)).value);
      && r.Ok? && r.value.pubKey == c.key && r.value.cloudSeed == c.cloudSeed
      && r.value.port == (if c.port == 0 then 4433 else c.port)
      && r.value.name == c.name[..if |c.name| > 32 then 32 else |c.name|]
      && r.value.expiry == Time(now.sec + 604800, 0)
      && (|c.publicV6| == 16 && !AllZero(c.publicV6) ==> r.value.ipv6 == c.publicV6)
      && (c.publicV6 == [] && c.dev ==> r.value.ipv6 == [0, 0, 0, 0, 0, 0, 0, 0, 0, 0, 0, 0, 0, 0, 0, 1])
      && (r.value.ipv4 != [] <==> c.claimIPv4 && To4(c.publicV4) != [])
      && (r.value.ipv4 != [] ==> To4(r.value.ipv4) == To4(c.publicV4))
  {
    hide GoDecode, GoEncode, Unspecified, ExpiryField, ExpiryOf, To4, AllZero, Lawful;
    var inv := BuildInvite(c, now);
    GoTextRoundTrip(dec, resolve, inv);
    ExpiryKept(inv.expiry);
    CanonicalAddresses(inv);
    CutNothing(c.name);
    if |c.publicV6| == 16 {
      AddressOfZeros(c.publicV6);
    }
    assert LOOPBACK[15] != UNSPECIFIED[15];
    NoAddress();
  }

  lemma NoAddress()
    ensures To4([]) == []
  {
  }

  lemma WordsInjectiveZero(n: nat)
    requires 0 < n < TWO32
    ensures n as bv32 != 0
  {
    if n as bv32 == 0 {
      WordsInjective(n, 0);
    }
  }

  // ----- The resolver -----

  /** The invites of cached hubs and then those of community hubs, as a spoke looks codes up. */
  function KnownInvites(parse: Parser, hubs: seq<CachedHub>, community: seq<CachedHub>): seq<Option<Invite>> {
    InvitesOf(parse, hubs) + InvitesOf(parse, community)
  }

  lemma {:induction false} InvitesAt(parse: Parser, hubs: seq<CachedHub>, i: nat) returns (k: nat)
    requires i < |hubs| && InviteOf(parse, hubs[i]).Some?
    ensures k < |InvitesOf(parse, hubs)| && InvitesOf(parse, hubs)[k] == InviteOf(parse, hubs[i])
    ensures forall l :: k < l < |InvitesOf(parse, hubs)| ==>
      (exists j :: i < j < |hubs| && InviteOf(parse, hubs[j]) == InvitesOf(parse, hubs)[l])
    decreases |hubs|
  {
    hide InviteOf;
    var n := |hubs| - 1;
    if i == n {
      k := |InvitesOf(parse, hubs)| - 1;
    } else {
      k := InvitesAt(parse, hubs[..n], i);
      forall l | k < l < |InvitesOf(parse, hubs)|
        ensures exists j :: i < j < |hubs| && InviteOf(parse, hubs[j]) == InvitesOf(parse, hubs)[l]
      {
        if l < |InvitesOf(parse, hubs[..n])| {
          assert InvitesOf(parse, hubs)[l] == InvitesOf(parse, hubs[..n])[l];
          var j :| i < j < |hubs[..n]| && InviteOf(parse, hubs[..n][j]) == InvitesOf(parse, hubs[..n])[l];
          assert hubs[..n][j] == hubs[j];
        } else {
          assert InviteOf(parse, hubs[n]) == InvitesOf(parse, hubs)[l];
        }
      }
    }
  }

  /** Every listed invite is that of a hub. */
  lemma {:induction false} InviteFrom(parse: Parser, hubs: seq<CachedHub>, l: nat) returns (j: nat)
    requires l < |InvitesOf(parse, hubs)|
    ensures j < |hubs| && InviteOf(parse, hubs[j]) == InvitesOf(parse, hubs)[l]
    decreases |hubs|
  {
    hide InviteOf;
    var n := |hubs| - 1;
    if l < |InvitesOf(parse, hubs[..n])| {
      j := InviteFrom(parse, hubs[..n], l);
    } else {
      j := n;
    }
  }

  /** None of these hubs, but for one of this key, has an invite with this code. */
  ghost predicate CodeUnused(hash: Hash, parse: Parser, hubs: seq<CachedHub>, key: seq<Octet>, code: string) {
    forall j :: 0 <= j < |hubs| && hubs[j].ed25519 != key && InviteOf(parse, hubs[j]).Some?
      ==> ShortCode(hash, InviteOf(parse, hubs[j]).value) != code
  }

  /** None of these hubs has an invite with this code. */
  ghost predicate CodeAbsent(hash: Hash, parse: Parser, hubs: seq<CachedHub>, code: string) {
    forall j :: 0 <= j < |hubs| && InviteOf(parse, hubs[j]).Some? ==> ShortCode(hash, InviteOf(parse, hubs[j]).value) != code
  }

  /** No community hub has this code, and no cached one but that of this key. */
  ghost predicate NoCollision(hash: Hash, parse: Parser, hubs: seq<CachedHub>, community: seq<CachedHub>, key: seq<Octet>,
                              code: string) {
    CodeUnused(hash, parse, hubs, key, code) && CodeAbsent(hash, parse, community, code)
  }

  /** The cached hub of the key of this invite is what the cache makes of it. */
  ghost predicate Holds(parse: Parser, hubs: seq<CachedHub>, inv: Invite) {
    exists i :: 0 <= i < |hubs| && hubs[i].ed25519 == inv.pubKey && InviteOf(parse, hubs[i]) == Some(ThroughCache(inv))
  }

  /** No listed invite from this one on has this code. */
  ghost predicate NotListed(hash: Hash, list: seq<Option<Invite>>, first: nat, code: string) {
    forall l :: first <= l < |list| && list[l].Some? ==> ShortCode(hash, list[l].value) != code
  }

  lemma NotListedInBoth(hash: Hash, a: seq<Option<Invite>>, b: seq<Option<Invite>>, first: nat, code: string)
    requires first <= |a| && NotListed(hash, a, first, code) && NotListed(hash, b, 0, code)
    ensures NotListed(hash, a + b, first, code)
  {
    hide ShortCode;
    var list := a + b;
    forall l | first <= l < |list| && list[l].Some? ensures ShortCode(hash, list[l].value) != code {
      if l < |a| {
        assert list[l] == a[l];
      } else {
        assert list[l] == b[l - |a|];
      }
    }
  }

  lemma CommunityNotListed(hash: Hash, parse: Parser, community: seq<CachedHub>, code: string)
    requires CodeAbsent(hash, parse, community, code)
    ensures NotListed(hash, InvitesOf(parse, community), 0, code)
  {
    hide InviteOf, ShortCode;
    var list := InvitesOf(parse, community);
    forall l | 0 <= l < |list| && list[l].Some? ensures ShortCode(hash, list[l].value) != code {
      var j := InviteFrom(parse, community, l);
      assert InviteOf(parse, community[j]) == list[l];
    }
  }

  /** The invites listed after that of a cached hub are those of hubs with other keys. */
  lemma LaterNotListed(hash: Hash, parse: Parser, hubs: seq<CachedHub>, i: nat, code: string) returns (k: nat)
    requires i < |hubs| && InviteOf(parse, hubs[i]).Some? && KeysDistinct(hubs)
    requires CodeUnused(hash, parse, hubs, hubs[i].ed25519, code)
    ensures k < |InvitesOf(parse, hubs)| && InvitesOf(parse, hubs)[k] == InviteOf(parse, hubs[i])
    ensures NotListed(hash, InvitesOf(parse, hubs), k + 1, code)
  {
    hide InviteOf, ShortCode;
    k := InvitesAt(parse, hubs, i);
    var list := InvitesOf(parse, hubs);
    forall l | k + 1 <= l < |list| && list[l].Some? ensures ShortCode(hash, list[l].value) != code {
      var j :| i < j < |hubs| && InviteOf(parse, hubs[j]) == list[l];
      assert hubs[j].ed25519 != hubs[i].ed25519;
    }
  }

  /** If the cached invite of the key has another code, none of the cached ones has this code. */
  lemma CachedNotListed(hash: Hash, parse: Parser, hubs: seq<CachedHub>, i: nat, code: string)
    requires i < |hubs| && InviteOf(parse, hubs[i]).Some? && KeysDistinct(hubs)
    requires CodeUnused(hash, parse, hubs, hubs[i].ed25519, code) && ShortCode(hash, InviteOf(parse, hubs[i]).value) != code
    ensures NotListed(hash, InvitesOf(parse, hubs), 0, code)
  {
    hide InviteOf, ShortCode;
    var list := InvitesOf(parse, hubs);
    forall l | 0 <= l < |list| && list[l].Some? ensures ShortCode(hash, list[l].value) != code {
      var j := InviteFrom(parse, hubs, l);
      assert InviteOf(parse, hubs[j]) == list[l];
      if hubs[j].ed25519 == hubs[i].ed25519 {
        assert j == i;
      }
    }
  }

  /** The code of a hub in the cache is looked up: found if the code has survived the cache. */
  lemma SurvivingCodeFound(parse: Parser, hash: Hash, dec: Decoder, hubs: seq<CachedHub>, community: seq<CachedHub>, inv: Invite,
                           before: string, r: string, after: string)
    requires KeysDistinct(hubs) && Holds(parse, hubs, inv) && Marshal(inv, false).Ok?
    requires ShortCode(hash, ThroughCache(inv)) == ShortCode(hash, inv)
    requires NoCollision(hash, parse, hubs, community, inv.pubKey, ShortCode(hash, inv))
    requires WritesCode(r, ShortCode(hash, inv)) && AllSpace(before) && AllSpace(after)
    ensures GoDecode(dec, ListResolver(hash, KnownInvites(parse, hubs, community)), before + r + after) == Ok(ThroughCache(inv))
  {
    hide ShortCode, WritesCode, AllSpace, GoDecode, Marshal, ThroughCache, InvitesOf, InviteOf, ListResolver, KeysDistinct;
    var code := ShortCode(hash, inv);
    var i :| 0 <= i < |hubs| && hubs[i].ed25519 == inv.pubKey && InviteOf(parse, hubs[i]) == Some(ThroughCache(inv));
    var k := LaterNotListed(hash, parse, hubs, i, code);
    CommunityNotListed(hash, parse, community, code);
    NotListedInBoth(hash, InvitesOf(parse, hubs), InvitesOf(parse, community), k + 1, code);
    CacheKeepsBytesIff(inv);
    CodeFindsInvite(hash, dec, KnownInvites(parse, hubs, community), k, before, r, after);
  }

  /** And not found if it has not. */
  lemma LostCodeNotFound(parse: Parser, hash: Hash, dec: Decoder, hubs: seq<CachedHub>, community: seq<CachedHub>, inv: Invite,
                         before: string, r: string, after: string)
    requires KeysDistinct(hubs) && Holds(parse, hubs, inv) && Marshal(inv, false).Ok?
    requires ShortCode(hash, ThroughCache(inv)) != ShortCode(hash, inv)
    requires NoCollision(hash, parse, hubs, community, inv.pubKey, ShortCode(hash, inv))
    requires WritesCode(r, ShortCode(hash, inv)) && AllSpace(before) && AllSpace(after)
    ensures GoDecode(dec, ListResolver(hash, KnownInvites(parse, hubs, community)), before + r + after) == Err(ErrShort)
  {
    hide ShortCode, WritesCode, AllSpace, GoDecode, Marshal, ThroughCache, InvitesOf, InviteOf, ListResolver, KeysDistinct;
    var code := ShortCode(hash, inv);
    var i :| 0 <= i < |hubs| && hubs[i].ed25519 == inv.pubKey && InviteOf(parse, hubs[i]) == Some(ThroughCache(inv));
    CachedNotListed(hash, parse, hubs, i, code);
    CommunityNotListed(hash, parse, community, code);
    NotListedInBoth(hash, InvitesOf(parse, hubs), InvitesOf(parse, community), 0, code);
    CodeShape(hash, inv);
    UnknownCode(hash, dec, KnownInvites(parse, hubs, community), code, before, r, after);
  }

  /** With a hub in the cache, its original short code, however it is typed, is looked up among the
      cached and the community hubs. Absent a collision with another hub it finds the hub exactly
      when the invite had no expiry, or the hash collides on its bytes with and without. */
  lemma CodeThroughCache(parse: Parser, hash: Hash, dec: Decoder, hubs: seq<CachedHub>, community: seq<CachedHub>, inv: Invite,
                         before: string, r: string, after: string)
    requires KeysDistinct(hubs) && Holds(parse, hubs, inv) && Marshal(inv, false).Ok?
    requires NoCollision(hash, parse, hubs, community, inv.pubKey, ShortCode(hash, inv))
    requires WritesCode(r, ShortCode(hash, inv)) && AllSpace(before) && AllSpace(after)
    ensures GoDecode(dec, ListResolver(hash, KnownInvites(parse, hubs, community)), before + r + after)
      == if ExpiryField(inv.expiry) == 0 || Collides(hash, inv) then Ok(ThroughCache(inv)) else Err(ErrShort)
  {
    hide ShortCode, WritesCode, AllSpace, GoDecode, Marshal, ThroughCache, ListResolver, KnownInvites, ExpiryField, Collides, Holds,
      NoCollision, KeysDistinct;
    CodeSurvivesCacheIff(hash, inv);
    if ShortCode(hash, ThroughCache(inv)) == ShortCode(hash, inv) {
      SurvivingCodeFound(parse, hash, dec, hubs, community, inv, before, r, after);
    } else {
      LostCodeNotFound(parse, hash, dec, hubs, community, inv, before, r, after);
    }
  }

  /** What is kept of an invite in an entry. */
  lemma KeptHolds(show: Printer, parse: Parser, hash: Hash, hubs: seq<CachedHub>, inv: Invite, source: Source, now: int)
    requires ParsesBack(show, parse) && Sane(inv.ipv6) && Sane(inv.ipv4) && Refusal(inv) == None
    requires InCache(hubs, FromInvite(show, hash, inv, source), now)
    ensures Holds(parse, hubs, inv)
  {
    hide ShortDisplay, MAPPED, ZEROS, To4;
    var h := FromInvite(show, hash, inv, source);
    var i :| 0 <= i < |hubs| && Kept(hubs[i], h, now);
    assert InviteOf(parse, hubs[i]) == Some(ThroughCache(inv));
  }

  /** The cache that has just remembered an invite. */
  lemma RememberHolds(show: Printer, parse: Parser, hash: Hash, hubs: seq<CachedHub>, inv: Invite, source: Source, now: int)
    requires ParsesBack(show, parse) && Sane(inv.ipv6) && Sane(inv.ipv4) && Refusal(inv) == None && KeysDistinct(hubs)
    ensures var cached := Remembered(hubs, FromInvite(show, hash, inv, source), now);
      KeysDistinct(cached) && Holds(parse, cached, inv)
  {
    hide InviteOf, ThroughCache, FromInvite, KeysDistinct;
    RememberKeeps(hubs, FromInvite(show, hash, inv, source), now);
    KeptHolds(show, parse, hash, Remembered(hubs, FromInvite(show, hash, inv, source), now), inv, source, now);
  }

  /** A community hub outranks the cache: if no later community hub has its code, the code decodes to
      the invite of that hub, whatever is cached. */
  lemma CommunityWins(parse: Parser, hash: Hash, dec: Decoder, hubs: seq<CachedHub>, community: seq<CachedHub>, j: nat,
                      before: string, r: string, after: string)
    requires j < |community| && InviteOf(parse, community[j]).Some? && Marshal(InviteOf(parse, community[j]).value, false).Ok?
    requires var code := ShortCode(hash, InviteOf(parse, community[j]).value);
      && (forall i :: j < i < |community| && InviteOf(parse, community[i]).Some?
           ==> ShortCode(hash, InviteOf(parse, community[i]).value) != code)
      && WritesCode(r, code) && AllSpace(before) && AllSpace(after)
    ensures GoDecode(dec, ListResolver(hash, KnownInvites(parse, hubs, community)), before + r + after)
      == Ok(InviteOf(parse, community[j]).value)
  {
    hide ShortCode, WritesCode, AllSpace, GoDecode, Marshal, InvitesOf, InviteOf, ListResolver;
    var k := InvitesAt(parse, community, j);
    var cached, listed := InvitesOf(parse, hubs), InvitesOf(parse, community);
    var code := ShortCode(hash, InviteOf(parse, community[j]).value);
    var all := cached + listed;
    assert all[|cached| + k] == listed[k];
    forall l | |cached| + k < l < |all| && all[l].Some? ensures ShortCode(hash, all[l].value) != code {
      assert all[l] == listed[l - |cached|];
      var i :| j < i < |community| && InviteOf(parse, community[i]) == listed[l - |cached|];
    }
    CodeFindsInvite(hash, dec, all, |cached| + k, before, r, after);
  }
}
