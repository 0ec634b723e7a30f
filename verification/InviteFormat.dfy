/** The binary invite byte by byte, in numbers: what `marshal` puts where, which invites it takes, and
    which payloads `unmarshal` takes (invite/codec.go). */
module InviteFormat {
  import opened Wrappers
  import opened Octets
  import opened Crc32
  import opened Invites

  // ----- The body -----

  lemma FlagBits(v4: bool, seed: bool, name: bool)
    ensures var f := FlagsOf(v4, seed, name);
      f < 8 && (f & 1 != 0 <==> v4) && (f & 2 != 0 <==> seed) && (f & 4 != 0 <==> name)
  {
  }

  lemma FlagTests(f: Octet)
    ensures (HasIPv4(f) <==> f & 1 != 0) && (HasSeed(f) <==> f & 2 != 0) && (HasName(f) <==> f & 4 != 0)
  {
  }

  lemma PortNumber(inv: Invite)
    ensures PortOf(inv) as nat == if inv.port == 0 then 4433 else inv.port as nat
  {
  }

  lemma ExpiryNumber(t: Time)
    ensures ExpiryField(t) as nat == if t == Time(-62135596800, 0) then 0 else t.sec % 0x1_0000_0000
  {
    hide LowWord;
    ValueOfLowWord(t.sec);
    ZeroWord();
  }

  lemma ZeroWord()
    ensures (0 as bv32) as nat == 0
  {
  }

  /** The fixed part: version, flags, key, IPv6 address or zeros, port, expiry. */
  lemma FixedBytes(inv: Invite)
    ensures var b := Body(inv);
      && |b| >= 56 && b[0] == 1
      && b[1] < 8 && (b[1] & 1 != 0 <==> To4(inv.ipv4) != []) && (b[1] & 2 != 0 <==> inv.cloudSeed) && (b[1] & 4 != 0 <==> inv.name != [])
      && b[2..34] == inv.pubKey
      && b[34..50] == (if |inv.ipv6| == 16 then inv.ipv6 else if |inv.ipv6| == 4 then MAPPED + inv.ipv6 else seq(16, _ => 0))
      && Number(b[50..52]) == (if inv.port == 0 then 4433 else inv.port as nat)
      && Number(b[52..56]) == if inv.expiry == Time(-62135596800, 0) then 0 else inv.expiry.sec % 0x1_0000_0000
  {
    hide FlagsOf, BE16, BE32, PortOf, ExpiryField, CutName, Number, To4, NameField;
    var b := Body(inv);
    FlagBits(To4(inv.ipv4) != [], inv.cloudSeed, CutName(inv.name) != []);
    CutNothing(inv.name);
    assert b[2..34] == inv.pubKey && b[34..50] == IPv6Of(inv);
    assert b[50..52] == BE16(PortOf(inv)) && b[52..56] == BE32(ExpiryField(inv.expiry));
    NumberOfBE16(PortOf(inv));
    NumberOfBE32(ExpiryField(inv.expiry));
    PortNumber(inv);
    ExpiryNumber(inv.expiry);
    assert UNSPECIFIED == seq(16, _ => 0);
  }

  lemma CutNothing(name: seq<Octet>)
    ensures CutName(name) == name[..if |name| > 32 then 32 else |name|] && (CutName(name) == [] <==> name == [])
  {
  }

  /** The IPv4 address of an invite: four bytes, or sixteen that map four. */
  lemma FourBytes(ip: IP)
    ensures |ip| == 4 ==> To4(ip) == ip
    ensures |ip| == 16 ==> To4(ip) == if MapsFour(ip) then ip[12..] else []
    ensures |ip| != 4 && |ip| != 16 ==> To4(ip) == []
  {
    if |ip| == 16 {
      MappedBytes(ip);
    }
  }

  /** An IPv4 address in sixteen bytes. */
  predicate MapsFour(ip: seq<Octet>)
    requires |ip| == 16
  {
    (forall i :: 0 <= i < 10 ==> ip[i] == 0) && ip[10] == 0xff && ip[11] == 0xff
  }

  lemma MappedBytes(ip: seq<Octet>)
    requires |ip| == 16
    ensures ip[..12] == MAPPED <==> MapsFour(ip)
  {
    if ip[..12] == MAPPED {
      forall i | 0 <= i < 12 ensures ip[i] == MAPPED[i] {
        assert ip[..12][i] == ip[i];
      }
    }
  }

  /** Behind it the IPv4 address, if there is one, and then the first 32 bytes of the name, if there is
      one, behind their number. */
  lemma TailBytes(inv: Invite)
    ensures var b, n := Body(inv), if |inv.name| > 32 then 32 else |inv.name|;
      && |b| == 56 + |To4(inv.ipv4)| + (if n == 0 then 0 else 1 + n)
      && b[56..56 + |To4(inv.ipv4)|] == To4(inv.ipv4)
      && (n > 0 ==> b[56 + |To4(inv.ipv4)|] as nat == n && b[57 + |To4(inv.ipv4)|..] == inv.name[..n])
  {
    hide FlagsOf, PortOf, ExpiryField, To4, IPv6Of, OctetOf, CutName, Fixed;
    CutNothing(inv.name);
    var n := if |inv.name| > 32 then 32 else |inv.name|;
    var v4 := To4(inv.ipv4);
    var b := Body(inv);
    assert b[56..] == v4 + NameField(CutName(inv.name));
    assert b[56..56 + |v4|] == v4;
    if n > 0 {
      NumberByte(n);
      assert b[56 + |v4|..] == [OctetOf(n)] + inv.name[..n];
      assert b[57 + |v4|..] == b[56 + |v4|..][1..];
    }
  }

  lemma NumberByte(n: nat)
    requires n < 256
    ensures OctetOf(n) as nat == n
  {
    ValueOfOctet(n);
  }

  /** With the checksum: four more bytes, which spell the bit-at-a-time CRC-32 of the body. */
  lemma ChecksumBytes(inv: Invite)
    requires Marshal(inv, true).Ok?
    ensures Marshal(inv, false) == Ok(Body(inv))
    ensures var raw := Marshal(inv, true).value;
      && |raw| == |Body(inv)| + 4 && raw[..|raw| - 4] == Body(inv)
      && Number(raw[|raw| - 4..]) == BitCrc(AllBits(Body(inv))) as nat
  {
    hide Body, Crc, BE32, BitCrc, AllBits, Number;
    var raw := Marshal(inv, true).value;
    assert raw[|raw| - 4..] == BE32(Crc(Body(inv)));
    NumberOfBE32(Crc(Body(inv)));
    CrcIsBitCrc(Body(inv));
  }

  // ----- What is taken -----

  predicate AllZero(s: seq<Octet>) { forall i :: 0 <= i < |s| ==> s[i] == 0 }

  /** Exactly these invites are written. */
  lemma MarshalIff(inv: Invite, withCrc: bool)
    ensures Marshal(inv, withCrc).Ok? <==>
      && (inv.version == 0 || inv.version == 1)
      && !AllZero(inv.pubKey)
      && (inv.cloudSeed || (|inv.ipv6| == 16 && !MapsFour(inv.ipv6)))
    ensures Marshal(inv, withCrc) == Err(ErrVersion) <==> inv.version != 0 && inv.version != 1
    ensures Marshal(inv, withCrc) == Err(ErrBadKey) <==> (inv.version == 0 || inv.version == 1) && AllZero(inv.pubKey)
    ensures Marshal(inv, withCrc).Err? ==> Marshal(inv, withCrc).error in {ErrVersion, ErrBadKey, ErrNoIPv6}
  {
    hide Body, To4;
    KeyOfZeros(inv.pubKey);
    FourBytes(inv.ipv6);
  }

  lemma KeyOfZeros(key: Key)
    ensures key == NO_KEY <==> AllZero(key)
  {
    assert forall i :: 0 <= i < 32 ==> NO_KEY[i] == 0;
  }

  lemma AddressOfZeros(ip: seq<Octet>)
    requires |ip| == 16
    ensures ip == UNSPECIFIED <==> AllZero(ip)
  {
    assert forall i :: 0 <= i < 16 ==> UNSPECIFIED[i] == 0;
  }

  /** The length of the body of a payload with these flags and these bytes behind the fixed part: at
      least four for an IPv4 address, and one and as many as it says for a name. */
  predicate LongEnough(raw: seq<Octet>)
    requires |raw| >= 60
  {
    var at := if raw[1] & 1 != 0 then 60 else 56;
    && |raw| - 4 >= at
    && (raw[1] & 4 != 0 ==> |raw| - 4 > at && |raw| - 4 >= at + 1 + raw[at] as nat)
  }

  /** Exactly these payloads are read: long enough for all that their flags announce, with the
      checksum of their body behind it, of version 1, and from a cloud seed or a hub with an IPv6
      address of its own. */
  lemma UnmarshalIff(raw: seq<Octet>)
    ensures Unmarshal(raw).Ok? <==>
      && |raw| >= 60
      && Number(raw[|raw| - 4..]) == BitCrc(AllBits(raw[..|raw| - 4])) as nat
      && raw[0] == 1
      && LongEnough(raw)
      && (raw[1] & 2 != 0 || (!AllZero(raw[34..50]) && !MapsFour(raw[34..50])))
    ensures |raw| < 60 ==> Unmarshal(raw) == Err(ErrTruncated)
    ensures |raw| >= 60 ==>
      var checked := Number(raw[|raw| - 4..]) == BitCrc(AllBits(raw[..|raw| - 4])) as nat;
      && (!checked ==> Unmarshal(raw) == Err(ErrChecksum))
      && (checked && raw[0] != 1 ==> Unmarshal(raw) == Err(ErrVersion))
      && (checked && raw[0] == 1 && !LongEnough(raw) ==> Unmarshal(raw) == Err(ErrTruncated))
      && (checked && raw[0] == 1 && LongEnough(raw) && Unmarshal(raw).Err? ==> Unmarshal(raw) == Err(ErrNoIPv6))
  {
    hide Crc, BitCrc, AllBits, U32, Number, Fields, HasSeed, LongEnough, AllZero, MapsFour, Reachable;
    if |raw| >= 60 {
      var body := raw[..|raw| - 4];
      CrcIsBitCrc(body);
      ChecksumNumber(raw[|raw| - 4..], Crc(body));
      CompleteIff(raw);
      if Fields(body).Some? {
        ReachableIff(raw);
      }
    }
  }

  lemma ChecksumNumber(s: seq<Octet>, w: bv32)
    requires |s| == 4
    ensures U32(s) == w <==> Number(s) == w as nat
  {
    hide U32, Number;
    BE32OfU32(s);
    NumberOfBE32(U32(s));
    NumberOfBE32(w);
    WordOfNat(w);
    WordOfNat(U32(s));
  }

  lemma CompleteIff(raw: seq<Octet>)
    requires |raw| >= 60
    ensures Fields(raw[..|raw| - 4]).Some? <==> LongEnough(raw)
  {
    hide HasIPv4, HasName, HasSeed, KeyIn, IPv6In, PortIn, ExpiryIn, ExpiryOf;
    var body := raw[..|raw| - 4];
    FlagTests(raw[1]);
    var at := if HasIPv4(raw[1]) then 4 else 0;
    if |body| - 56 > at {
      assert body[FIXED..][at] == raw[56 + at];
    }
  }

  lemma ReachableIff(raw: seq<Octet>)
    requires |raw| >= 60 && Fields(raw[..|raw| - 4]).Some?
    ensures Reachable(Fields(raw[..|raw| - 4]).value) <==>
      raw[1] & 2 != 0 || (!AllZero(raw[34..50]) && !MapsFour(raw[34..50]))
  {
    hide HasSeed, KeyIn, PortIn, ExpiryIn, ExpiryOf, TailIn, To4, UNSPECIFIED;
    var body := raw[..|raw| - 4];
    FlagTests(raw[1]);
    assert body[34..50] == raw[34..50];
    AddressOfZeros(raw[34..50]);
    FourBytes(raw[34..50]);
  }

  /** And read as what their bytes say. */
  lemma FieldsOfBytes(raw: seq<Octet>)
    requires Unmarshal(raw).Ok?
    ensures |raw| >= 60
    ensures var inv := Unmarshal(raw).value;
      && inv.version == 1 && inv.pubKey == raw[2..34]
      && inv.ipv6 == (if AllZero(raw[34..50]) then [] else raw[34..50])
      && inv.port as nat == Number(raw[50..52])
      && inv.expiry == (if Number(raw[52..56]) == 0 then Time(-62135596800, 0) else Time(Number(raw[52..56]), 0))
      && (inv.cloudSeed <==> raw[1] & 2 != 0)
  {
    hide Crc, U32, U16, Number, HasSeed, TailIn, Reachable, AllZero, UNSPECIFIED, KeyIn, IPv6In, PortIn, ExpiryIn, ExpiryOf, MAPPED;
    var body := raw[..|raw| - 4];
    FlagTests(raw[1]);
    AddressOfZeros(raw[34..50]);
    FixedNumbers(raw);
    ExpiryRead(ExpiryIn(body));
  }

  lemma FixedNumbers(raw: seq<Octet>)
    requires |raw| >= 60
    ensures var body := raw[..|raw| - 4];
      && KeyIn(body) == raw[2..34] && IPv6In(body) == raw[34..50]
      && PortIn(body) as nat == Number(raw[50..52]) && ExpiryIn(body) as nat == Number(raw[52..56])
  {
    hide U32, U16, Number;
    BE16OfU16(raw[50], raw[51]);
    NumberOfBE16(U16(raw[50], raw[51]));
    assert raw[50..52] == [raw[50], raw[51]];
    BE32OfU32(raw[52..56]);
    NumberOfBE32(U32(raw[52..56]));
    assert raw[..|raw| - 4][52..56] == raw[52..56];
  }

  lemma ExpiryRead(e: bv32)
    ensures ExpiryOf(e) == if e as nat == 0 then Time(-62135596800, 0) else Time(e as nat, 0)
  {
    ZeroWord();
    WordOfNat(e);
  }

  lemma SliceOfSlice(s: seq<Octet>, m: nat, k: nat, i: nat, j: nat)
    requires i <= j && k + j <= m <= |s|
    ensures s[..m][k..][i..j] == s[k + i..k + j]
  {
    SliceOfRest(s[..m], k, i, j);
    assert s[..m][k + i..k + j] == s[k + i..k + j];
  }

  lemma TailNumbers(raw: seq<Octet>)
    requires |raw| >= 60 && LongEnough(raw)
    ensures var at := if raw[1] & 1 != 0 then 60 else 56;
      TailIn(raw[1], raw[..|raw| - 4][56..])
      == Some(Tail(raw[56..at], if raw[1] & 4 != 0 then raw[at + 1..at + 1 + raw[at] as nat] else []))
  {
    hide HasIPv4, HasName;
    var m := |raw| - 4;
    var rest := raw[..m][56..];
    FlagTests(raw[1]);
    var at := if HasIPv4(raw[1]) then 4 else 0;
    SliceOfSlice(raw, m, 56, 0, at);
    if HasName(raw[1]) {
      assert rest[at] == raw[56 + at];
      SliceOfSlice(raw, m, 56, at + 1, at + 1 + Value(rest[at]));
    }
  }

  lemma MappedFour(v4: seq<Octet>)
    requires |v4| == 4
    ensures |MAPPED + v4| == 16 && MapsFour(MAPPED + v4) && (MAPPED + v4)[12..] == v4
  {
    assert (MAPPED + v4)[..12] == MAPPED;
    MappedBytes(MAPPED + v4);
  }

  /** The address and the name behind the fixed part. */
  lemma TailOfBytes(raw: seq<Octet>)
    requires Unmarshal(raw).Ok?
    ensures |raw| >= 60 && LongEnough(raw)
    ensures var inv := Unmarshal(raw).value; var at := if raw[1] & 1 != 0 then 60 else 56;
      && (raw[1] & 1 != 0 ==> |inv.ipv4| == 16 && MapsFour(inv.ipv4) && inv.ipv4[12..] == raw[56..60])
      && (raw[1] & 1 == 0 ==> inv.ipv4 == [])
      && inv.name == if raw[1] & 4 != 0 then raw[at + 1..at + 1 + raw[at] as nat] else []
  {
    hide Crc, U32, HasSeed, TailIn, Reachable, KeyIn, IPv6In, PortIn, ExpiryIn, ExpiryOf, UNSPECIFIED, MAPPED, MapsFour, LongEnough;
    CompleteIff(raw);
    TailNumbers(raw);
    if raw[1] & 1 != 0 {
      MappedFour(raw[56..60]);
    }
  }
}
