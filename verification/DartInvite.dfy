/** The Dart twin of the invite codec (invite/dart/lib/invite.dart). A Dart string is kept as its
    UTF-8 bytes, and a moment as milliseconds since 1970. */
module DartInvites {
  import opened Wrappers
  import opened Octets
  import opened Crc32
  import opened Folds
  import opened Invites
  import Utf8

  datatype DartInvite = DartInvite(
    version: int,
    pubKey: seq<Octet>,
    ipv6: Option<seq<Octet>>,
    ipv4: Option<seq<Octet>>,
    port: int,
    expiry: Option<int>,
    name: seq<Octet>,
    cloudSeed: bool)

  datatype DartError =
    | BadKey
    | NoIPv6
    | BadIPv6
    | TooShort
    | BadChecksum
    | BadVersion
    | OutOfRange
    | BadName

  // ----- crc32IEEE on 64-bit integers -----

  function Wide(w: bv32): bv64 { w as bv64 }

  function Narrow(w: bv64): bv32 { (w & 0xffff_ffff) as bv32 }

  /** The entry of a table of 64-bit integers at a byte. */
  function WideEntry(t: seq<bv64>, b: Octet): bv64
    requires |t| == 256
  {
    t[b as nat]
  }

  /** The table of 64-bit integers that `_makeCrc` makes. */
  ghost predicate IsWideTable(t: seq<bv64>) {
    |t| == 256 && forall b: Octet :: WideEntry(t, b) == Wide(Iter(Shift, b as bv32, 8))
  }

  function LowByte(c: bv64, b: Octet): Octet { ((c ^ (b as bv64)) & 0xff) as Octet }

  function MixHigh(entry: bv64, c: bv64): bv64 { entry ^ (c >> 8) }

  lemma NarrowWide(w: bv32)
    ensures Narrow(Wide(w)) == w
  {
  }

  lemma WideByte(c: bv32, b: Octet)
    ensures LowByte(Wide(c), b) == Low(c) ^ b
  {
  }

  lemma WideMix(e: bv32, c: bv32)
    ensures MixHigh(Wide(e), Wide(c)) == Wide(Xor(e, c >> 8))
  {
  }

  /** One pass of the loop stays within 32 bits, and is the step of the CRC. */
  lemma WideStep(t: seq<bv64>, c: bv32, b: Octet)
    requires IsWideTable(t)
    ensures MixHigh(WideEntry(t, LowByte(Wide(c), b)), Wide(c)) == Wide(ByteStep(c, b))
  {
    hide Wide, LowByte, MixHigh, Low, ByteStep, Shift, WideEntry;
    WideByte(c, b);
    WideMix(Iter(Shift, (Low(c) ^ b) as bv32, 8), c);
    ByteStepSplit(c, b, Low(c) ^ b);
  }

  lemma WideOnes(x: bv32)
    ensures Wide(ONES) == 0xffff_ffff && (Wide(x) ^ 0xffff_ffff) & 0xffff_ffff == Wide(Xor(x, ONES))
  {
  }

  /** One step of the register in a 64-bit integer. */
  function WideShift(c: bv64): bv64 {
    if c & 1 != 0 then 0xEDB8_8320 ^ (c >> 1) else c >> 1
  }

  lemma WideShiftOdd(c: bv32)
    requires c & 1 != 0
    ensures WideShift(c as bv64) == (POLY ^ (c >> 1)) as bv64
  {
  }

  lemma WideShiftEven(c: bv32)
    requires c & 1 == 0
    ensures WideShift(c as bv64) == (c >> 1) as bv64
  {
  }

  lemma WideShiftIsShift(c: bv32)
    ensures WideShift(Wide(c)) == Wide(Shift(c))
  {
    hide WideShift;
    if c & 1 != 0 {
      WideShiftOdd(c);
    } else {
      WideShiftEven(c);
    }
  }

  method WideTableEntry(i: nat) returns (crc: bv64)
    requires i < 256
    ensures crc == Wide(TableValue(i))
  {
    hide Wide, Shift;
    crc := Wide(i as bv32);
    for j := 0 to 8
      invariant crc == Wide(Iter(Shift, i as bv32, j))
    {
      WideShiftIsShift(Iter(Shift, i as bv32, j));
      if crc & 1 != 0 {
        crc := 0xEDB8_8320 ^ (crc >> 1);
      } else {
        crc := crc >> 1;
      }
    }
  }

  method MakeDartTable() returns (t: array<bv64>)
    ensures t.Length == 256 && IsWideTable(t[..])
  {
    hide Wide, TableValue, WideEntry, IsWideTable;
    t := new bv64[256];
    for i := 0 to 256
      invariant forall k :: 0 <= k < i ==> t[k] == Wide(TableValue(k))
    {
      t[i] := WideTableEntry(i);
    }
    WideTableDone(t[..]);
  }

  lemma WideTableDone(t: seq<bv64>)
    requires |t| == 256 && forall k :: 0 <= k < 256 ==> t[k] == Wide(TableValue(k))
    ensures IsWideTable(t)
  {
    hide Wide;
    forall b: Octet ensures WideEntry(t, b) == Wide(Iter(Shift, b as bv32, 8)) {
      NatOctet(b);
    }
  }

  method DartCrc32(table: array<bv64>, p: seq<Octet>) returns (sum: bv64)
    requires table.Length == 256 && IsWideTable(table[..])
    ensures sum == Wide(Crc(p))
  {
    hide Wide, ByteStep, WideEntry, IsWideTable, Xor, LowByte, MixHigh;
    var crc: bv64 := 0xffff_ffff;
    WideOnes(0);
    for i := 0 to |p|
      invariant crc == Wide(Fold(ByteStep, ONES, p[..i]))
    {
      assert p[..i + 1][..i] == p[..i];
      WideStep(table[..], Fold(ByteStep, ONES, p[..i]), p[i]);
      crc := MixHigh(WideEntry(table[..], LowByte(crc, p[i])), crc);
    }
    assert p[..|p|] == p;
    WideOnes(Fold(ByteStep, ONES, p));
    return (crc ^ 0xffff_ffff) & 0xffff_ffff;
  }

  // ----- _marshal -----

  /** The lowest byte of an integer, as `addByte` keeps it. */
  function LowOctet(n: int): Octet { OctetOf(n % 256) }

  /** The lowest 16 bits, as `setUint16` keeps them. */
  function LowWord16(n: int): bv16 { (n % 0x1_0000) as bv16 }

  /** Dart's `~/`, which rounds towards zero. */
  function TruncatingDivision(x: int, k: int): int
    requires k > 0
  {
    if x >= 0 then x / k else -(-x / k)
  }

  function ExpiryWord(e: Option<int>): bv32 {
    match e
    case None => 0
    case Some(ms) => LowWord(TruncatingDivision(ms, 1000))
  }

  function PortWord(d: DartInvite): bv16 { LowWord16(if d.port == 0 then 4433 else d.port) }

  function IPv4Bytes(d: DartInvite): (v4: seq<Octet>)
    ensures |v4| in {0, 4}
  {
    if d.ipv4.Some? && |d.ipv4.value| == 4 then d.ipv4.value else []
  }

  function IPv6Bytes(d: DartInvite): (v6: seq<Octet>)
    ensures d.ipv6 == None ==> |v6| == 16
  {
    match d.ipv6 case None => UNSPECIFIED case Some(v6) => v6
  }

  /** Why `_marshal` throws, if it does. */
  function Throws(d: DartInvite): Option<DartError> {
    if |d.pubKey| != 32 then Some(BadKey)
    else if d.ipv6 == None && !d.cloudSeed then Some(NoIPv6)
    else if |IPv6Bytes(d)| != 16 then Some(BadIPv6)
    else None
  }

  function DartBody(d: DartInvite): seq<Octet>
    requires Throws(d) == None
  {
    Fixed(LowOctet(d.version), FlagsOf(IPv4Bytes(d) != [], d.cloudSeed, CutName(d.name) != []),
          d.pubKey, IPv6Bytes(d), PortWord(d), ExpiryWord(d.expiry))
    + (IPv4Bytes(d) + NameField(CutName(d.name)))
  }

  function DartMarshal(d: DartInvite, withCrc: bool): Result<seq<Octet>, DartError> {
    match Throws(d)
    case Some(e) => Err(e)
    case None => Ok(if withCrc then DartBody(d) + BE32(Crc(DartBody(d))) else DartBody(d))
  }

  /** The byte builder that `_marshal` fills, in the order of the source. */
  method WriteDartBody(d: DartInvite) returns (out: seq<Octet>)
    requires Throws(d) == None
    ensures out == DartBody(d)
  {
    hide BE16, BE32, LowOctet, LowWord16, ExpiryWord, FlagsOf, HasIPv4, HasSeed, HasName, OctetOf, Fixed, NameField, ZEROS;
    var ncut := if |d.name| > 32 then d.name[..32] else d.name;
    var flags := SetFlags(d.ipv4.Some? && |d.ipv4.value| == 4, d.cloudSeed, |ncut| > 0);
    FlagsRead(d.ipv4.Some? && |d.ipv4.value| == 4, d.cloudSeed, |ncut| > 0);
    var v6 := if d.ipv6 == None then UNSPECIFIED else d.ipv6.value;
    out := [LowOctet(d.version)];
    out := out + [flags];
    out := out + d.pubKey;
    out := out + v6;
    out := out + BE16(LowWord16(if d.port == 0 then 4433 else d.port));
    out := out + BE32(ExpiryWord(d.expiry));
    ghost var fixed := out;
    FixedSteps(LowOctet(d.version), flags, d.pubKey, v6, PortWord(d), ExpiryWord(d.expiry));
    TailSteps(fixed, IPv4Bytes(d), ncut);
    if HasIPv4(flags) {
      out := out + d.ipv4.value;
    }
    if HasName(flags) {
      out := out + [OctetOf(|ncut|)];
      out := out + ncut;
    }
  }

  /** `_marshal`, in the order of the source. */
  method MarshalDart(table: array<bv64>, d: DartInvite, withCrc: bool) returns (r: Result<seq<Octet>, DartError>)
    requires table.Length == 256 && IsWideTable(table[..])
    ensures r == DartMarshal(d, withCrc)
  {
    hide BE32, Crc, IsWideTable, Wide, Narrow, DartBody, ZEROS;
    if |d.pubKey| != 32 {
      return Err(BadKey);
    }
    if d.ipv6 == None && !d.cloudSeed {
      return Err(NoIPv6);
    }
    if d.ipv6.Some? && |d.ipv6.value| != 16 {
      return Err(BadIPv6);
    }
    var raw := WriteDartBody(d);
    if withCrc {
      var crc := DartCrc32(table, raw);
      NarrowWide(Crc(raw));
      raw := raw + BE32(Narrow(crc));
    }
    return Ok(raw);
  }

  // ----- _decodePayload -----

  function ExpiryMs(e: bv32): Option<int> {
    if e == 0 then None else Some(WordValue(e) * 1000)
  }

  /** What `_decodePayload` makes of a body. */
  function DartFields(body: seq<Octet>): Result<DartInvite, DartError>
    requires |body| >= FIXED
  {
    match TailIn(body[1], body[FIXED..])
    case None => Err(OutOfRange)
    case Some(tail) =>
      if !Utf8.Valid(tail.name) then Err(BadName)
      else Ok(DartInvite(
        1, KeyIn(body), if IPv6In(body) == UNSPECIFIED then None else Some(IPv6In(body)),
        if tail.v4 == [] then None else Some(tail.v4), PortValue(PortIn(body)), ExpiryMs(ExpiryIn(body)),
        Utf8.WithoutBom(tail.name), HasSeed(body[1])))
  }

  function DartUnmarshal(raw: seq<Octet>): Result<DartInvite, DartError> {
    if |raw| < FIXED + 4 then Err(TooShort)
    else
      var body := raw[..|raw| - 4];
      if Crc(body) != U32(raw[|raw| - 4..]) then Err(BadChecksum)
      else if body[0] != 1 then Err(BadVersion)
      else DartFields(body)
  }

  /** `_decodePayload` after the text has been decoded, in the order of the source. */
  method UnmarshalDart(table: array<bv64>, raw: seq<Octet>) returns (r: Result<DartInvite, DartError>)
    requires table.Length == 256 && IsWideTable(table[..])
    ensures r == DartUnmarshal(raw)
  {
    hide Crc, IsWideTable, Wide, Narrow, U32, DartFields;
    if |raw| < 2 + 32 + 16 + 2 + 4 + 4 {
      return Err(TooShort);
    }
    var body := raw[..|raw| - 4];
    var sum := DartCrc32(table, body);
    NarrowWide(Crc(body));
    NarrowWide(U32(raw[|raw| - 4..]));
    if sum != Wide(U32(raw[|raw| - 4..])) {
      return Err(BadChecksum);
    }
    if body[0] != 1 {
      return Err(BadVersion);
    }
    r := ReadDartFields(body);
  }

  method ReadDartFields(body: seq<Octet>) returns (r: Result<DartInvite, DartError>)
    requires |body| >= FIXED
    ensures r == DartFields(body)
  {
    hide U32, U16, HasIPv4, HasSeed, HasName, ExpiryMs, Value, ZEROS, PortValue, Utf8.Valid, Utf8.WithoutBom, KeyIn,
      IPv6In, PortIn, ExpiryIn;
    FixedSlices(body);
    var flags := body[1];
    var off := 2;
    var pk := body[off..off + 32];
    off := off + 32;
    var ipv6 := body[off..off + 16];
    off := off + 16;
    var port := U16(body[off], body[off + 1]);
    off := off + 2;
    var exp := U32(body[off..off + 4]);
    off := off + 4;
    var ipv4: Option<seq<Octet>> := None;
    if HasIPv4(flags) {
      if off + 4 > |body| {
        return Err(OutOfRange);
      }
      ipv4 := Some(body[off..off + 4]);
      off := off + 4;
    }
    ghost var tail := body[FIXED..];
    ghost var at := if HasIPv4(flags) then 4 else 0;
    if HasIPv4(flags) {
      SliceOfRest(body, FIXED, 0, 4);
    }
    var name: seq<Octet> := [];
    if HasName(flags) {
      if off >= |body| {
        return Err(OutOfRange);
      }
      var n := Value(body[off]);
      assert tail[at] == body[off];
      off := off + 1;
      if off + n > |body| {
        return Err(OutOfRange);
      }
      SliceOfRest(body, FIXED, at + 1, at + 1 + n);
      if !Utf8.Valid(body[off..off + n]) {
        return Err(BadName);
      }
      name := Utf8.WithoutBom(body[off..off + n]);
    } else {
      EmptyName();
    }
    return Ok(DartInvite(
      1, pk, if ipv6 == UNSPECIFIED then None else Some(ipv6), ipv4, PortValue(port), ExpiryMs(exp), name, HasSeed(flags)));
  }

  lemma EmptyName()
    ensures Utf8.Valid([]) && Utf8.WithoutBom([]) == []
  {
  }
}
