/** The binary invite of invite/codec.go: what `marshal` writes, what `unmarshal` accepts, and how
    the two fit together. */
module Invites {
  import opened Wrappers
  import opened Octets
  import opened Crc32

  const VERSION: Octet := 1
  const DEFAULT_PORT: bv16 := 4433
  const MAX_NAME_BYTES := 32
  const FLAG_IPV4: Octet := 1
  const FLAG_SEED: Octet := 2
  const FLAG_NAME: Octet := 4
  const FIXED := 56

  const ZEROS: seq<Octet> := [0, 0, 0, 0, 0, 0, 0, 0, 0, 0, 0, 0, 0, 0, 0, 0]

  type Key = k: seq<Octet> | |k| == 32 witness ZEROS + ZEROS

  const NO_KEY: Key := ZEROS + ZEROS

  /** An address of 4 or 16 bytes; the empty sequence is Go's nil. */
  type IP = seq<Octet>

  const UNSPECIFIED: IP := ZEROS
  const MAPPED: seq<Octet> := [0, 0, 0, 0, 0, 0, 0, 0, 0, 0, 0xff, 0xff]

  /** A moment, in seconds and nanoseconds since 1970. */
  datatype Time = Time(sec: int, nsec: nat)

  /** Go's zero time, the start of the year 1. */
  const NEVER := Time(-62135596800, 0)

  datatype Invite = Invite(
    version: Octet,
    pubKey: Key,
    ipv6: IP,
    ipv4: IP,
    port: bv16,
    expiry: Time,
    name: seq<Octet>,
    cloudSeed: bool)

  datatype Error =
    | ErrEmpty
    | ErrVersion
    | ErrChecksum
    | ErrTruncated
    | ErrNoIPv6
    | ErrShort
    | ErrBadKey
    | ErrText

  // ----- Addresses and times -----

  function To16(ip: IP): IP {
    if |ip| == 4 then MAPPED + ip else if |ip| == 16 then ip else []
  }

  function To4(ip: IP): IP {
    if |ip| == 4 then ip else if |ip| == 16 && ip[..12] == MAPPED then ip[12..] else []
  }

  /** The expiry field: seconds cut to 32 bits, 0 for no expiry. */
  function ExpiryField(t: Time): bv32 {
    if t == NEVER then 0 else LowWord(t.sec)
  }

  function ExpiryOf(e: bv32): Time {
    if e == 0 then NEVER else Time(WordValue(e), 0)
  }

  lemma ExpiryCases(e: bv32)
    ensures ExpiryOf(e) == if e == 0 then NEVER else Time(WordValue(e), 0)
  {
  }

  lemma FieldOfExpiry(e: bv32)
    ensures ExpiryField(ExpiryOf(e)) == e
  {
    hide LowWord, WordValue;
    LowWordOfValue(e);
  }

  // ----- The layout -----

  function FlagsOf(v4: bool, seed: bool, name: bool): Octet {
    (if v4 then FLAG_IPV4 else 0) | (if seed then FLAG_SEED else 0) | (if name then FLAG_NAME else 0)
  }

  predicate HasIPv4(flags: Octet) { flags & FLAG_IPV4 != 0 }

  predicate HasSeed(flags: Octet) { flags & FLAG_SEED != 0 }

  predicate HasName(flags: Octet) { flags & FLAG_NAME != 0 }

  lemma FlagsRead(v4: bool, seed: bool, name: bool)
    ensures var f := FlagsOf(v4, seed, name);
            HasIPv4(f) == v4 && HasSeed(f) == seed && HasName(f) == name && f < 8
  {
  }

  lemma FlagsWritten(f: Octet)
    requires f < 8
    ensures FlagsOf(HasIPv4(f), HasSeed(f), HasName(f)) == f
  {
  }

  /** The 56 bytes that every body starts with. */
  function Fixed(version: Octet, flags: Octet, key: Key, v6: seq<Octet>, port: bv16, exp: bv32): (s: seq<Octet>)
    requires |v6| == 16
    ensures |s| == FIXED
  {
    [version, flags] + key + v6 + BE16(port) + BE32(exp)
  }

  function NameField(name: seq<Octet>): seq<Octet>
    requires |name| <= MAX_NAME_BYTES
  {
    if name == [] then [] else [OctetOf(|name|)] + name
  }

  function KeyIn(body: seq<Octet>): Key requires |body| >= FIXED { body[2..34] }

  function IPv6In(body: seq<Octet>): (v6: seq<Octet>)
    requires |body| >= FIXED
    ensures |v6| == 16
  {
    body[34..50]
  }

  function PortIn(body: seq<Octet>): bv16 requires |body| >= FIXED { U16(body[50], body[51]) }

  function ExpiryIn(body: seq<Octet>): bv32 requires |body| >= FIXED { U32(body[52..56]) }

  lemma FixedRead(version: Octet, flags: Octet, key: Key, v6: seq<Octet>, port: bv16, exp: bv32, tail: seq<Octet>)
    requires |v6| == 16
    ensures var b := Fixed(version, flags, key, v6, port, exp) + tail;
            && b[0] == version && b[1] == flags && KeyIn(b) == key && IPv6In(b) == v6
            && PortIn(b) == port && ExpiryIn(b) == exp && b[FIXED..] == tail
  {
    hide BE16, BE32, U16, U32;
    var b := Fixed(version, flags, key, v6, port, exp) + tail;
    assert b[2..34] == key;
    assert b[34..50] == v6;
    assert b[50] == BE16(port)[0] && b[51] == BE16(port)[1];
    U16OfBE16(port);
    assert b[52..56] == BE32(exp);
    U32OfBE32(exp);
    assert b[FIXED..] == tail;
  }

  lemma FixedWritten(b: seq<Octet>)
    requires |b| >= FIXED
    ensures b == Fixed(b[0], b[1], KeyIn(b), IPv6In(b), PortIn(b), ExpiryIn(b)) + b[FIXED..]
  {
    hide BE16, BE32, U16, U32;
    BE16OfU16(b[50], b[51]);
    BE32OfU32(b[52..56]);
    assert b[..50] == [b[0], b[1]] + b[2..34] + b[34..50];
    assert b[50..52] == [b[50], b[51]];
    assert b[..FIXED] == b[..50] + b[50..52] + b[52..FIXED];
    assert b == b[..FIXED] + b[FIXED..];
  }

  /** The optional fields of a body. */
  datatype Tail = Tail(v4: seq<Octet>, name: seq<Octet>)

  /** The optional fields after the fixed ones: the IPv4 address if any, and the name. What follows
      them is ignored. */
  function TailIn(flags: Octet, tail: seq<Octet>): Option<Tail> {
    var at := if HasIPv4(flags) then 4 else 0;
    if |tail| < at then None
    else if !HasName(flags) then Some(Tail(tail[..at], []))
    else if |tail| == at || |tail| - at - 1 < Value(tail[at]) then None
    else Some(Tail(tail[..at], tail[at + 1..at + 1 + Value(tail[at])]))
  }

  lemma TailRead(v4: seq<Octet>, seed: bool, name: seq<Octet>)
    requires |v4| in {0, 4} && |name| <= MAX_NAME_BYTES
    ensures TailIn(FlagsOf(v4 != [], seed, name != []), v4 + NameField(name)) == Some(Tail(v4, name))
  {
    hide FlagsOf, HasIPv4, HasName, HasSeed, Value, OctetOf;
    FlagsRead(v4 != [], seed, name != []);
    var tail := v4 + NameField(name);
    assert tail[..|v4|] == v4;
    if name != [] {
      ValueOfOctet(|name|);
      assert tail[|v4|] == OctetOf(|name|);
      assert tail[|v4| + 1..] == name;
      assert tail[|v4| + 1..|v4| + 1 + |name|] == name;
    }
  }

  /** Nothing in the tail that writing it again would lose: the name not empty and not too long,
      and no bytes after it. */
  predicate TightTail(flags: Octet, tail: seq<Octet>) {
    var at := if HasIPv4(flags) then 4 else 0;
    if HasName(flags) then
      && |tail| > at
      && 1 <= Value(tail[at]) <= MAX_NAME_BYTES
      && |tail| == at + 1 + Value(tail[at])
    else |tail| == at
  }

  lemma TailWritten(flags: Octet, tail: seq<Octet>)
    requires TightTail(flags, tail)
    ensures TailIn(flags, tail).Some?
    ensures var t := TailIn(flags, tail).value;
            && (t.v4 != []) == HasIPv4(flags) && (t.name != []) == HasName(flags)
            && |t.name| <= MAX_NAME_BYTES && t.v4 + NameField(t.name) == tail
  {
    hide FlagsOf, HasIPv4, HasName, HasSeed, Value, OctetOf;
    var at := if HasIPv4(flags) then 4 else 0;
    if HasName(flags) {
      OctetOfValue(tail[at]);
      assert tail[at + 1..at + 1 + Value(tail[at])] == tail[at + 1..];
      assert tail == tail[..at] + ([tail[at]] + tail[at + 1..]);
    } else {
      assert tail[..at] + [] == tail;
    }
  }

  // ----- marshal -----

  function PortOf(inv: Invite): bv16 { if inv.port == 0 then DEFAULT_PORT else inv.port }

  /** The first 32 bytes of a name. */
  function CutName(name: seq<Octet>): (cut: seq<Octet>)
    ensures |cut| <= MAX_NAME_BYTES && cut <= name
  {
    if |name| > MAX_NAME_BYTES then name[..MAX_NAME_BYTES] else name
  }

  function IPv6Of(inv: Invite): (v6: seq<Octet>)
    ensures |v6| == 16
  {
    if To16(inv.ipv6) == [] then UNSPECIFIED else To16(inv.ipv6)
  }

  /** What `marshal` writes ahead of the checksum. */
  function Body(inv: Invite): seq<Octet> {
    var v4 := To4(inv.ipv4);
    Fixed(VERSION, FlagsOf(v4 != [], inv.cloudSeed, CutName(inv.name) != []),
          inv.pubKey, IPv6Of(inv), PortOf(inv), ExpiryField(inv.expiry))
    + (v4 + NameField(CutName(inv.name)))
  }

  /** Why `marshal` refuses an invite, if it does. */
  function Refusal(inv: Invite): Option<Error> {
    if inv.version != 0 && inv.version != VERSION then Some(ErrVersion)
    else if inv.pubKey == NO_KEY then Some(ErrBadKey)
    else if !inv.cloudSeed && (To16(inv.ipv6) == [] || To4(inv.ipv6) != []) then Some(ErrNoIPv6)
    else None
  }

  function Marshal(inv: Invite, withCrc: bool): Result<seq<Octet>, Error> {
    match Refusal(inv)
    case Some(e) => Err(e)
    case None => Ok(if withCrc then Body(inv) + BE32(Crc(Body(inv))) else Body(inv))
  }

  /** The flag byte, bit by bit. */
  method SetFlags(v4: bool, seed: bool, name: bool) returns (flags: Octet)
    ensures flags == FlagsOf(v4, seed, name)
  {
    flags := 0;
    if v4 {
      flags := flags | FLAG_IPV4;
    }
    if seed {
      flags := flags | FLAG_SEED;
    }
    if name {
      flags := flags | FLAG_NAME;
    }
  }

  lemma FixedSteps(version: Octet, flags: Octet, key: Key, v6: seq<Octet>, port: bv16, exp: bv32)
    requires |v6| == 16
    ensures [version] + [flags] + key + v6 + BE16(port) + BE32(exp) == Fixed(version, flags, key, v6, port, exp)
  {
    hide BE16, BE32;
    assert [version] + [flags] == [version, flags];
  }

  lemma TailSteps(fixed: seq<Octet>, v4: seq<Octet>, name: seq<Octet>)
    requires |name| <= MAX_NAME_BYTES
    ensures var with := if v4 != [] then fixed + v4 else fixed;
            (if name != [] then with + [OctetOf(|name|)] + name else with) == fixed + (v4 + NameField(name))
  {
    hide OctetOf;
    var with := if v4 != [] then fixed + v4 else fixed;
    assert with == fixed + v4;
    assert with + [OctetOf(|name|)] + name == fixed + (v4 + ([OctetOf(|name|)] + name));
    assert with + [] == fixed + (v4 + []);
  }

  /** The buffer that `marshal` fills, in the order of the source. */
  method WriteBody(inv: Invite) returns (buf: seq<Octet>)
    ensures buf == Body(inv)
  {
    hide FlagsOf, HasIPv4, HasName, HasSeed, ExpiryField, BE16, BE32, OctetOf, To4, To16, ZEROS, Fixed, NameField;
    var ipv6 := To16(inv.ipv6);
    if ipv6 == [] {
      ipv6 := UNSPECIFIED;
    }
    assert ipv6 == IPv6Of(inv);
    var name := inv.name;
    if |name| > MAX_NAME_BYTES {
      name := name[..MAX_NAME_BYTES];
    }
    var flags := SetFlags(To4(inv.ipv4) != [], inv.cloudSeed, |name| > 0);
    FlagsRead(To4(inv.ipv4) != [], inv.cloudSeed, |name| > 0);
    var port := inv.port;
    if port == 0 {
      port := DEFAULT_PORT;
    }
    buf := [VERSION];
    buf := buf + [flags];
    buf := buf + inv.pubKey;
    buf := buf + ipv6;
    buf := buf + BE16(port);
    buf := buf + BE32(ExpiryField(inv.expiry));
    ghost var fixed := buf;
    FixedSteps(VERSION, flags, inv.pubKey, ipv6, port, ExpiryField(inv.expiry));
    TailSteps(fixed, To4(inv.ipv4), name);
    if HasIPv4(flags) {
      buf := buf + To4(inv.ipv4);
    }
    if HasName(flags) {
      buf := buf + [OctetOf(|name|)];
      buf := buf + name;
    }
  }

  /** `marshal`, in the order of the source. */
  method MarshalInvite(table: array<bv32>, invite: Invite, withCrc: bool) returns (r: Result<seq<Octet>, Error>)
    requires table.Length == 256 && IsTable(table[..])
    ensures r == Marshal(invite, withCrc)
  {
    hide Body, BE32, Crc, IsTable, To4, To16;
    var inv := invite;
    if inv.version == 0 {
      inv := inv.(version := VERSION);
    }
    if inv.version != VERSION {
      return Err(ErrVersion);
    }
    if inv.pubKey == NO_KEY {
      return Err(ErrBadKey);
    }
    if To16(inv.ipv6) == [] && !inv.cloudSeed {
      return Err(ErrNoIPv6);
    }
    if To4(inv.ipv6) != [] && !inv.cloudSeed {
      return Err(ErrNoIPv6);
    }
    var raw := WriteBody(inv);
    VersionNotWritten(invite, inv.version);
    if withCrc {
      var sum := Crc32IEEE(table, raw);
      raw := raw + BE32(sum);
    }
    return Ok(raw);
  }

  lemma VersionNotWritten(inv: Invite, version: Octet)
    ensures Body(inv.(version := version)) == Body(inv)
  {
    hide FlagsOf, ExpiryField, To4, To16, NameField, Fixed;
  }

  // ----- unmarshal -----

  /** The invite that a body spells out, if its optional fields are all there. */
  function Fields(body: seq<Octet>): Option<Invite>
    requires |body| >= FIXED
  {
    match TailIn(body[1], body[FIXED..])
    case None => None
    case Some(tail) =>
      Some(Invite(
        body[0], KeyIn(body), if IPv6In(body) == UNSPECIFIED then [] else IPv6In(body),
        if tail.v4 == [] then [] else MAPPED + tail.v4, PortIn(body), ExpiryOf(ExpiryIn(body)), tail.name,
        HasSeed(body[1])))
  }

  /** A hub that is no cloud seed must have an IPv6 address that is not an IPv4 one in disguise. */
  predicate Reachable(inv: Invite) { inv.cloudSeed || (inv.ipv6 != [] && To4(inv.ipv6) == []) }

  function Unmarshal(raw: seq<Octet>): Result<Invite, Error> {
    if |raw| < FIXED + 4 then Err(ErrTruncated)
    else
      var body := raw[..|raw| - 4];
      if Crc(body) != U32(raw[|raw| - 4..]) then Err(ErrChecksum)
      else if body[0] != VERSION then Err(ErrVersion)
      else match Fields(body)
        case None => Err(ErrTruncated)
        case Some(inv) => if Reachable(inv) then Ok(inv) else Err(ErrNoIPv6)
  }

  lemma FixedSlices(body: seq<Octet>)
    requires |body| >= FIXED
    ensures body[2..34] == KeyIn(body) && body[34..50] == IPv6In(body)
    ensures U16(body[50], body[51]) == PortIn(body) && U32(body[52..56]) == ExpiryIn(body)
  {
    hide U16, U32;
  }

  lemma SliceOfRest(s: seq<Octet>, k: nat, i: nat, j: nat)
    requires i <= j && k + j <= |s|
    ensures s[k..][i..j] == s[k + i..k + j]
  {
  }

  /** The fields of a body, read at an offset that moves on. */
  method ReadFields(body: seq<Octet>) returns (r: Option<Invite>)
    requires |body| >= FIXED
    ensures r == Fields(body)
  {
    hide U32, U16, HasIPv4, HasSeed, HasName, ExpiryOf, Value, ZEROS, MAPPED, KeyIn, IPv6In, PortIn, ExpiryIn;
    FixedSlices(body);
    var flags := body[1];
    var off := 2;
    var pubKey := body[off..off + 32];
    off := off + 32;
    var ipv6 := body[off..off + 16];
    off := off + 16;
    var port := U16(body[off], body[off + 1]);
    off := off + 2;
    var exp := U32(body[off..off + 4]);
    off := off + 4;
    var expiry := NEVER;
    if exp != 0 {
      expiry := Time(WordValue(exp), 0);
    }
    ExpiryCases(exp);
    var ipv4: IP := [];
    if HasIPv4(flags) {
      if off + 4 > |body| {
        return None;
      }
      ipv4 := MAPPED + body[off..off + 4];
      SliceOfRest(body, FIXED, 0, 4);
      off := off + 4;
    }
    ghost var tail := body[FIXED..];
    ghost var at := if HasIPv4(flags) then 4 else 0;
    var name: seq<Octet> := [];
    if HasName(flags) {
      if off >= |body| {
        return None;
      }
      var n := Value(body[off]);
      assert tail[at] == body[off];
      off := off + 1;
      if off + n > |body| {
        return None;
      }
      name := body[off..off + n];
      SliceOfRest(body, FIXED, at + 1, at + 1 + n);
    }
    if ipv6 == UNSPECIFIED {
      ipv6 := [];
    }
    return Some(Invite(body[0], pubKey, ipv6, ipv4, port, expiry, name, HasSeed(flags)));
  }

  /** `unmarshal`, in the order of the source. */
  method UnmarshalInvite(table: array<bv32>, raw: seq<Octet>) returns (r: Result<Invite, Error>)
    requires table.Length == 256 && IsTable(table[..])
    ensures r == Unmarshal(raw)
  {
    hide Crc, IsTable, U32, Fields, To4;
    if |raw| < 2 + 32 + 16 + 2 + 4 + 4 {
      return Err(ErrTruncated);
    }
    var body, crcBytes := raw[..|raw| - 4], raw[|raw| - 4..];
    var sum := Crc32IEEE(table, body);
    if sum != U32(crcBytes) {
      return Err(ErrChecksum);
    }
    if body[0] != VERSION {
      return Err(ErrVersion);
    }
    var read := ReadFields(body);
    if read == None {
      return Err(ErrTruncated);
    }
    var inv := read.value;
    if !inv.cloudSeed && (inv.ipv6 == [] || To4(inv.ipv6) != []) {
      return Err(ErrNoIPv6);
    }
    return Ok(inv);
  }
}
