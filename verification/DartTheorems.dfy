/** What the Dart codec reads back of what it writes, and where it agrees with the Go one. */
module DartTheorems {
  import opened Wrappers
  import opened Octets
  import opened Crc32
  import opened Invites
  import opened InviteTheorems
  import opened InviteFormat
  import opened DartInvites
  import Utf8

  // ----- The Dart codec on its own -----

  function DartCanonical(d: DartInvite): DartInvite
    requires Throws(d) == None
  {
    DartInvite(
      1, d.pubKey, if IPv6Bytes(d) == UNSPECIFIED then None else Some(IPv6Bytes(d)),
      if IPv4Bytes(d) == [] then None else Some(IPv4Bytes(d)), PortValue(PortWord(d)),
      ExpiryMs(ExpiryWord(d.expiry)), Utf8.WithoutBom(CutName(d.name)), d.cloudSeed)
  }

  lemma DartFieldsOfBody(d: DartInvite)
    requires Throws(d) == None
    ensures |DartBody(d)| >= FIXED && DartBody(d)[0] == LowOctet(d.version)
    ensures DartFields(DartBody(d)) == if Utf8.Valid(CutName(d.name)) then Ok(DartCanonical(d)) else Err(BadName)
  {
    hide FlagsOf, HasSeed, HasIPv4, HasName, ExpiryWord, ExpiryMs, Fixed, IPv6In, KeyIn, PortIn, ExpiryIn, TailIn, NameField, LowOctet,
      LowWord16, PortValue, Utf8.Valid, Utf8.WithoutBom, ZEROS;
    var v4, name := IPv4Bytes(d), CutName(d.name);
    var flags := FlagsOf(v4 != [], d.cloudSeed, name != []);
    FixedRead(LowOctet(d.version), flags, d.pubKey, IPv6Bytes(d), PortWord(d), ExpiryWord(d.expiry), v4 + NameField(name));
    FlagsRead(v4 != [], d.cloudSeed, name != []);
    TailRead(v4, d.cloudSeed, name);
  }

  /** What the Dart codec writes it reads back in canonical form, unless the version is not 1 or
      the cut name is no longer well formed. */
  lemma DartRoundTrip(d: DartInvite)
    requires DartMarshal(d, true).Ok?
    ensures DartUnmarshal(DartMarshal(d, true).value)
      == if LowOctet(d.version) != 1 then Err(BadVersion)
         else if !Utf8.Valid(CutName(d.name)) then Err(BadName)
         else Ok(DartCanonical(d))
  {
    hide DartBody, Crc, BE32, U32, DartFields, DartCanonical, Utf8.Valid, LowOctet, ZEROS;
    var body := DartBody(d);
    var raw := DartMarshal(d, true).value;
    DartFieldsOfBody(d);
    assert raw[..|raw| - 4] == body && raw[|raw| - 4..] == BE32(Crc(body));
    U32OfBE32(Crc(body));
  }

  /** A version 1 invite that the Dart codec writes can be read back exactly when the cut at 32
      bytes does not split a character of the name. */
  lemma DartReadsBackIff(d: DartInvite)
    requires DartMarshal(d, true).Ok? && LowOctet(d.version) == 1 && Utf8.Valid(d.name)
    ensures DartUnmarshal(DartMarshal(d, true).value).Ok?
      <==> |d.name| <= 32 || !Utf8.Continues(d.name[32])
  {
    hide DartMarshal, DartUnmarshal, DartCanonical, Utf8.Valid, LowOctet, ZEROS;
    DartRoundTrip(d);
    if |d.name| > 32 {
      Utf8.CutIsValid(d.name, 32);
    }
  }

  /** n letters and an accented one. */
  function Accented(n: nat): (name: seq<Octet>)
    ensures |name| == n + 2 && name[n] == 0xc3 && name[n + 1] == 0xa9
  {
    if n == 0 then [0xc3, 0xa9] else [0x61] + Accented(n - 1)
  }

  lemma {:induction false} AccentedIsValid(n: nat)
    ensures Utf8.Valid(Accented(n))
  {
    if n == 0 {
      assert Accented(0)[2..] == [];
    } else {
      AccentedIsValid(n - 1);
      assert Accented(n)[1..] == Accented(n - 1);
    }
  }

  /** A name of 31 letters and an accented one: written, and not read back, by the Dart codec. */
  lemma SplitNameIsLost(key: Key, v6: seq<Octet>)
    requires |v6| == 16
    ensures var d := DartInvite(1, key, Some(v6), None, 4433, None, Accented(31), false);
            Utf8.Valid(d.name) && DartMarshal(d, true).Ok? && DartUnmarshal(DartMarshal(d, true).value) == Err(BadName)
  {
    hide DartBody, DartUnmarshal, Crc, Utf8.Valid, LowOctet, ZEROS;
    var d := DartInvite(1, key, Some(v6), None, 4433, None, Accented(31), false);
    AccentedIsValid(31);
    VersionOne();
    DartReadsBackIff(d);
    DartRoundTrip(d);
  }

  // ----- Against the Go codec -----

  /** Milliseconds since 1970, rounded down. */
  function MsOf(t: Time): Option<int> {
    if t == NEVER then None else Some(t.sec * 1000 + t.nsec / 1_000_000)
  }

  /** The Dart invite with the fields of a Go one. */
  function Twin(inv: Invite): DartInvite {
    DartInvite(
      1, inv.pubKey, if To16(inv.ipv6) == [] then None else Some(To16(inv.ipv6)),
      if To4(inv.ipv4) == [] then None else Some(To4(inv.ipv4)), PortValue(inv.port), MsOf(inv.expiry),
      inv.name, inv.cloudSeed)
  }

  /** An expiry before 1970 with a fraction of a second: Go rounds it down, Dart up. */
  predicate RoundedApart(t: Time) { t != NEVER && t.sec < 0 && t.nsec >= 1_000_000 }

  lemma SecondsOfMs(t: Time)
    requires t != NEVER && t.nsec < 1_000_000_000
    ensures TruncatingDivision(MsOf(t).value, 1000) == if RoundedApart(t) then t.sec + 1 else t.sec
  {
    var f := t.nsec / 1_000_000;
    assert 0 <= f < 1000;
    if t.sec >= 0 {
      assert (t.sec * 1000 + f) / 1000 == t.sec;
    } else {
      assert -(t.sec * 1000 + f) == (-t.sec - 1) * 1000 + (1000 - f);
    }
  }

  lemma ExpiryAgrees(t: Time)
    requires t.nsec < 1_000_000_000
    ensures ExpiryWord(MsOf(t)) == ExpiryField(t) <==> !RoundedApart(t)
  {
    hide TruncatingDivision;
    if t != NEVER {
      SecondsOfMs(t);
      if RoundedApart(t) && ExpiryWord(MsOf(t)) == ExpiryField(t) {
        WordsInjective((t.sec + 1) % TWO32, t.sec % TWO32);
      }
    }
  }

  lemma PortAgrees(p: bv16)
    ensures LowWord16(PortValue(p)) == p && (PortValue(p) == 0 <==> p == 0)
  {
    WordOfPort(p);
    WordOfPort(0);
  }

  lemma DefaultPort()
    ensures PortValue(DEFAULT_PORT) == 4433
  {
  }

  lemma VersionOne()
    ensures LowOctet(1) == 1
  {
    OctetOfValue(1);
    assert Value(1) == 1;
  }

  lemma TwinBody(inv: Invite)
    requires Refusal(inv) == None && ExpiryWord(MsOf(inv.expiry)) == ExpiryField(inv.expiry)
    ensures Throws(Twin(inv)) == None && DartBody(Twin(inv)) == Body(inv)
  {
    hide FlagsOf, ExpiryField, ExpiryWord, MsOf, Fixed, NameField, LowOctet, LowWord16, PortValue, To4, ZEROS;
    TwinFields(inv);
  }

  lemma TwinFields(inv: Invite)
    ensures var d := Twin(inv);
            && LowOctet(d.version) == VERSION && PortWord(d) == PortOf(inv) && IPv6Bytes(d) == IPv6Of(inv)
            && IPv4Bytes(d) == To4(inv.ipv4) && CutName(d.name) == CutName(inv.name)
  {
    hide MsOf, LowOctet, LowWord16, PortValue, ZEROS;
    VersionOne();
    PortAgrees(inv.port);
    PortAgrees(DEFAULT_PORT);
    DefaultPort();
    To4Length(inv.ipv4);
  }

  lemma TwinExpiry(inv: Invite)
    requires Throws(Twin(inv)) == None && DartBody(Twin(inv)) == Body(inv)
    ensures ExpiryWord(MsOf(inv.expiry)) == ExpiryField(inv.expiry)
  {
    hide FlagsOf, ExpiryField, ExpiryWord, MsOf, Fixed, NameField, LowOctet, LowWord16, PortValue, To4, To16, ExpiryIn, KeyIn, IPv6In,
      PortIn, ZEROS;
    var d := Twin(inv);
    var v4, name := IPv4Bytes(d), CutName(d.name);
    FixedRead(LowOctet(d.version), FlagsOf(v4 != [], d.cloudSeed, name != []), d.pubKey, IPv6Bytes(d), PortWord(d),
              ExpiryWord(d.expiry), v4 + NameField(name));
    var w4, wame := To4(inv.ipv4), CutName(inv.name);
    FixedRead(VERSION, FlagsOf(w4 != [], inv.cloudSeed, wame != []), inv.pubKey, IPv6Of(inv), PortOf(inv),
              ExpiryField(inv.expiry), w4 + NameField(wame));
  }

  /** Whatever Go writes, Dart writes for the same fields, byte for byte, exactly when the expiry
      is not one that the two round apart. */
  lemma SameBytesIff(inv: Invite, withCrc: bool)
    requires Marshal(inv, withCrc).Ok? && inv.expiry.nsec < 1_000_000_000
    ensures Throws(Twin(inv)) == None
    ensures DartMarshal(Twin(inv), withCrc) == Ok(Marshal(inv, withCrc).value) <==> !RoundedApart(inv.expiry)
  {
    hide DartBody, Body, Twin, Crc, BE32, RoundedApart, MsOf, ExpiryWord, ExpiryField;
    TwinThrows(inv);
    ExpiryAgrees(inv.expiry);
    if !RoundedApart(inv.expiry) {
      TwinBody(inv);
    } else if DartMarshal(Twin(inv), withCrc) == Ok(Marshal(inv, withCrc).value) {
      SamePrefix(DartBody(Twin(inv)), Body(inv), BE32(Crc(DartBody(Twin(inv)))), BE32(Crc(Body(inv))), withCrc);
      TwinExpiry(inv);
    }
  }

  /** Half a second before 1970, Go writes -1 and Dart 0. */
  lemma HalfSecondDiffers(inv: Invite)
    requires Marshal(inv, true).Ok? && inv.expiry == Time(-1, 500_000_000)
    ensures DartMarshal(Twin(inv), true) != Ok(Marshal(inv, true).value)
  {
    hide Marshal, DartMarshal, Twin;
    SameBytesIff(inv, true);
  }

  lemma SamePrefix(a: seq<Octet>, b: seq<Octet>, x: seq<Octet>, y: seq<Octet>, withCrc: bool)
    requires |x| == |y| && (if withCrc then a + x else a) == if withCrc then b + y else b
    ensures a == b
  {
    if withCrc {
      assert |a| == |b| && a == (a + x)[..|a|] && b == (b + y)[..|b|];
    }
  }

  lemma TwinThrows(inv: Invite)
    requires Refusal(inv) == None
    ensures Throws(Twin(inv)) == None
  {
    hide MsOf, PortValue, ZEROS, To4;
    TwinFields(inv);
  }

  /** What an accepted payload says to both: the Go invite gives the Dart one. */
  lemma SameFields(body: seq<Octet>)
    requires |body| >= FIXED && body[0] == VERSION && Fields(body).Some?
    ensures var inv := Fields(body).value;
            DartFields(body) == if Utf8.Valid(inv.name) then Ok(Twin(inv).(name := Utf8.WithoutBom(inv.name))) else Err(BadName)
  {
    hide TailIn, KeyIn, PortIn, ExpiryIn, IPv6In, HasSeed, HasIPv4, HasName, ExpiryMs, MsOf, To4, To16, PortValue, MAPPED, ZEROS,
      Utf8.Valid, Utf8.WithoutBom, ExpiryOf;
    var t := TailIn(body[1], body[FIXED..]).value;
    TailLength(body[1], body[FIXED..]);
    UnspecifiedIsUnmapped();
    Sixteen(IPv6In(body));
    if t.v4 != [] {
      Mapped4(t.v4);
    }
    MsOfSeconds(ExpiryIn(body));
  }

  lemma MsOfSeconds(e: bv32)
    ensures MsOf(ExpiryOf(e)) == ExpiryMs(e)
  {
    hide WordValue;
  }

  lemma ReachableTwin(inv: Invite)
    requires |inv.ipv6| in {0, 16}
    ensures Reachable(inv) <==> inv.cloudSeed || (Twin(inv).ipv6.Some? && To4(Twin(inv).ipv6.value) == [])
  {
  }

  /** On every payload the two decoders agree, but for two things: only Dart refuses a name that is
      not well-formed UTF-8, and only Go refuses a hub without an IPv6 address of its own. */
  lemma DecodersAgree(raw: seq<Octet>)
    ensures Unmarshal(raw).Ok? ==>
      var inv := Unmarshal(raw).value;
      DartUnmarshal(raw) == if Utf8.Valid(inv.name) then Ok(Twin(inv).(name := Utf8.WithoutBom(inv.name))) else Err(BadName)
    ensures DartUnmarshal(raw).Ok? ==>
      var d := DartUnmarshal(raw).value;
      if d.cloudSeed || (d.ipv6.Some? && To4(d.ipv6.value) == []) then Unmarshal(raw).Ok? else Unmarshal(raw) == Err(ErrNoIPv6)
  {
    hide Crc, U32, Twin, Utf8.Valid, Utf8.WithoutBom, To4, Reachable, MAPPED, ZEROS, TailIn;
    if |raw| >= FIXED + 4 {
      var body := raw[..|raw| - 4];
      if body[0] == VERSION && Fields(body).Some? {
        SameFields(body);
        ReachableTwin(Fields(body).value);
      }
    }
  }

  /** So an invite that Go writes and reads back, Dart reads with the same fields, if the name that
      is left of it is well formed. */
  lemma GoToDart(inv: Invite)
    requires Marshal(inv, true).Ok? && !Unspecified(inv) && Utf8.Valid(CutName(inv.name))
    ensures DartUnmarshal(Marshal(inv, true).value)
      == Ok(Twin(Canonical(inv)).(name := Utf8.WithoutBom(CutName(inv.name))))
  {
    hide Marshal, Unmarshal, DartUnmarshal, Twin, Unspecified, Utf8.Valid, Utf8.WithoutBom, ExpiryField, ExpiryOf, To4, IPv6Of, MAPPED;
    RoundTrip(inv);
    DecodersAgree(Marshal(inv, true).value);
  }

  /** And an invite that Dart writes and reads back, Go reads with the same fields, if it is a cloud
      seed or has an IPv6 address of its own. */
  lemma DartToGo(d: DartInvite)
    requires DartMarshal(d, true).Ok? && LowOctet(d.version) == 1 && Utf8.Valid(CutName(d.name))
    requires d.cloudSeed || (IPv6Bytes(d) != UNSPECIFIED && To4(IPv6Bytes(d)) == [])
    ensures Unmarshal(DartMarshal(d, true).value).Ok?
    ensures var inv := Unmarshal(DartMarshal(d, true).value).value;
            Twin(inv).(name := Utf8.WithoutBom(inv.name)) == DartCanonical(d)
  {
    hide DartMarshal, Unmarshal, DartUnmarshal, Twin, Utf8.Valid, Utf8.WithoutBom, LowOctet, ExpiryWord, ExpiryMs, To4, PortValue, LowWord16,
      MAPPED, ZEROS;
    DartMarshalled(d);
    DartRoundTrip(d);
    DecodersAgree(DartMarshal(d, true).value);
  }

  lemma DartMarshalled(d: DartInvite)
    requires DartMarshal(d, true).Ok?
    ensures Throws(d) == None
  {
    hide DartBody, Crc;
  }

  // ----- What the Dart codec takes -----

  /** Exactly these invites are written. */
  lemma DartMarshalIff(d: DartInvite, withCrc: bool)
    ensures DartMarshal(d, withCrc).Ok? <==>
      && |d.pubKey| == 32 && (d.ipv6.Some? || d.cloudSeed) && (d.ipv6.Some? ==> |d.ipv6.value| == 16)
    ensures DartMarshal(d, withCrc) == Err(BadKey) <==> |d.pubKey| != 32
    ensures DartMarshal(d, withCrc) == Err(NoIPv6) <==> |d.pubKey| == 32 && d.ipv6 == None && !d.cloudSeed
    ensures DartMarshal(d, withCrc).Err? ==> DartMarshal(d, withCrc).error in {BadKey, NoIPv6, BadIPv6}
  {
    hide DartBody, Crc;
  }

  /** Exactly these payloads are read: what Go takes, but from hubs at any address, and with a name that
      is well-formed UTF-8. */
  lemma DartUnmarshalIff(raw: seq<Octet>)
    ensures DartUnmarshal(raw).Ok? <==>
      && |raw| >= 60
      && Number(raw[|raw| - 4..]) == BitCrc(AllBits(raw[..|raw| - 4])) as nat
      && raw[0] == 1
      && LongEnough(raw)
      && var at := if raw[1] & 1 != 0 then 60 else 56; (raw[1] & 4 != 0 ==> Utf8.Valid(raw[at + 1..at + 1 + raw[at] as nat]))
    ensures |raw| < 60 ==> DartUnmarshal(raw) == Err(TooShort)
    ensures |raw| >= 60 ==>
      var checked := Number(raw[|raw| - 4..]) == BitCrc(AllBits(raw[..|raw| - 4])) as nat;
      && (!checked ==> DartUnmarshal(raw) == Err(BadChecksum))
      && (checked && raw[0] != 1 ==> DartUnmarshal(raw) == Err(BadVersion))
      && (checked && raw[0] == 1 && !LongEnough(raw) ==> DartUnmarshal(raw) == Err(OutOfRange))
      && (checked && raw[0] == 1 && LongEnough(raw) && DartUnmarshal(raw).Err? ==> DartUnmarshal(raw) == Err(BadName))
  {
    hide Crc, BitCrc, AllBits, U32, Number, TailIn, LongEnough, KeyIn, IPv6In, PortIn, ExpiryIn, HasSeed, PortValue, ExpiryMs, Utf8.Valid,
      Utf8.WithoutBom;
    if |raw| >= 60 {
      var body := raw[..|raw| - 4];
      CrcIsBitCrc(body);
      ChecksumNumber(raw[|raw| - 4..], Crc(body));
      TailIffLong(raw);
      if LongEnough(raw) {
        TailNumbers(raw);
        EmptyName();
      }
    }
  }

  lemma TailIffLong(raw: seq<Octet>)
    requires |raw| >= 60
    ensures TailIn(raw[1], raw[..|raw| - 4][56..]).Some? <==> LongEnough(raw)
  {
    hide TailIn, LongEnough, KeyIn, IPv6In, PortIn, ExpiryIn, HasSeed, ExpiryOf;
    CompleteIff(raw);
  }
}
