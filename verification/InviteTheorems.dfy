/** How the two halves of the invite codec fit together: round trips, canonical forms, and the
    damage that the checksum catches. */
module InviteTheorems {
  import opened Wrappers
  import opened Octets
  import opened Crc32
  import opened Invites

  /** What an invite is after it has been written and read. */
  function Canonical(inv: Invite): Invite {
    Invite(
      VERSION, inv.pubKey, if IPv6Of(inv) == UNSPECIFIED then [] else IPv6Of(inv),
      if To4(inv.ipv4) == [] then [] else MAPPED + To4(inv.ipv4),
      PortOf(inv), ExpiryOf(ExpiryField(inv.expiry)), CutName(inv.name), inv.cloudSeed)
  }

  /** The one kind of invite that is written but cannot be read back: a hub at `::`. */
  predicate Unspecified(inv: Invite) { !inv.cloudSeed && IPv6Of(inv) == UNSPECIFIED }

  lemma To4Length(ip: IP)
    ensures |To4(ip)| in {0, 4}
  {
  }

  /** The fields of what `marshal` wrote. */
  lemma FieldsOfBody(inv: Invite)
    ensures |Body(inv)| >= FIXED && Body(inv)[0] == VERSION && Fields(Body(inv)) == Some(Canonical(inv))
  {
    hide FlagsOf, HasSeed, HasIPv4, HasName, ExpiryField, ExpiryOf, Fixed, To4, To16, IPv6In, KeyIn, PortIn, ExpiryIn, TailIn, NameField,
      ZEROS, MAPPED;
    var v4, name := To4(inv.ipv4), CutName(inv.name);
    var flags := FlagsOf(v4 != [], inv.cloudSeed, name != []);
    To4Length(inv.ipv4);
    FixedRead(VERSION, flags, inv.pubKey, IPv6Of(inv), PortOf(inv), ExpiryField(inv.expiry), v4 + NameField(name));
    FlagsRead(v4 != [], inv.cloudSeed, name != []);
    TailRead(v4, inv.cloudSeed, name);
  }

  lemma ReachableCanonical(inv: Invite)
    requires Refusal(inv) == None
    ensures Reachable(Canonical(inv)) <==> !Unspecified(inv)
  {
    hide FlagsOf, ExpiryField, ExpiryOf;
  }

  /** An invite that can be written is read back as its canonical form, unless it is a hub at `::`,
      which is refused. */
  lemma RoundTrip(inv: Invite)
    requires Marshal(inv, true).Ok?
    ensures Unmarshal(Marshal(inv, true).value)
      == if Unspecified(inv) then Err(ErrNoIPv6) else Ok(Canonical(inv))
  {
    hide Body, Crc, BE32, U32, Fields, Reachable, Canonical, Unspecified;
    var body := Body(inv);
    var raw := Marshal(inv, true).value;
    assert raw[..|raw| - 4] == body && raw[|raw| - 4..] == BE32(Crc(body));
    U32OfBE32(Crc(body));
    FieldsOfBody(inv);
    ReachableCanonical(inv);
  }

  /** So in plain terms: key, flag and port are kept, no port being 4433, of the name the first 32 bytes,
      of the expiry the second between 1970 and 2106, and an address that there was. */
  lemma ReadsBack(inv: Invite)
    requires Marshal(inv, true).Ok? && !Unspecified(inv)
    ensures var r := Unmarshal(Marshal(inv, true).value);
      && r.Ok? && r.value.version == 1 && r.value.pubKey == inv.pubKey && r.value.cloudSeed == inv.cloudSeed
      && r.value.port == (if inv.port == 0 then 4433 else inv.port)
      && r.value.name == inv.name[..if |inv.name| > 32 then 32 else |inv.name|]
      && (inv.expiry == NEVER ==> r.value.expiry == NEVER)
      && (0 < inv.expiry.sec < 0x1_0000_0000 ==> r.value.expiry == Time(inv.expiry.sec, 0))
      && (inv.ipv6 == [] ==> r.value.ipv6 == [])
      && (|inv.ipv6| == 16 && inv.ipv6 != seq(16, _ => 0) ==> r.value.ipv6 == inv.ipv6)
      && (|inv.ipv4| == 4 ==> |r.value.ipv4| == 16 && r.value.ipv4[12..] == inv.ipv4)
      && (inv.ipv4 == [] ==> r.value.ipv4 == [])
  {
    hide Marshal, Unmarshal, Unspecified, LowWord, WordValue, CutName;
    RoundTrip(inv);
    CutWhole(inv.name);
    ExpiryKept(inv.expiry);
    assert UNSPECIFIED == seq(16, _ => 0);
  }

  lemma CutWhole(name: seq<Octet>)
    ensures CutName(name) == name[..if |name| > 32 then 32 else |name|]
  {
  }

  lemma ExpiryKept(t: Time)
    ensures t == NEVER ==> ExpiryOf(ExpiryField(t)) == NEVER
    ensures 0 < t.sec < TWO32 ==> ExpiryOf(ExpiryField(t)) == Time(t.sec, 0)
  {
    hide LowWord, WordValue;
    ValueOfLowWord(t.sec);
    ZeroValue();
  }

  lemma ZeroValue()
    ensures WordValue(0) == 0
  {
  }

  /** A hub at `::` is written and not read back. */
  lemma UnspecifiedHubIsLost(key: Key)
    requires key != NO_KEY
    ensures var inv := Invite(VERSION, key, UNSPECIFIED, [], DEFAULT_PORT, NEVER, [], false);
      Marshal(inv, true).Ok? && Unmarshal(Marshal(inv, true).value) == Err(ErrNoIPv6)
  {
    hide Body, Crc, Unmarshal;
    UnspecifiedIsUnmapped();
    RoundTrip(Invite(VERSION, key, UNSPECIFIED, [], DEFAULT_PORT, NEVER, [], false));
  }

  lemma To16Twice(ip: IP)
    ensures To16(To16(ip)) == To16(ip) && To4(To16(ip)) == To4(ip)
  {
  }

  lemma UnspecifiedIsUnmapped()
    ensures To16([]) == [] && To4([]) == [] && To16(UNSPECIFIED) == UNSPECIFIED && To4(UNSPECIFIED) == []
  {
    assert UNSPECIFIED[..12][10] != MAPPED[10];
  }

  lemma Mapped4(v4: seq<Octet>)
    requires |v4| == 4
    ensures To4(MAPPED + v4) == v4
  {
  }

  lemma CanonicalAddresses(inv: Invite)
    ensures IPv6Of(Canonical(inv)) == IPv6Of(inv) && To4(Canonical(inv).ipv4) == To4(inv.ipv4)
  {
    hide ExpiryField, ExpiryOf, To4, To16, MAPPED, ZEROS;
    To16Twice(inv.ipv6);
    UnspecifiedIsUnmapped();
    To4Length(inv.ipv4);
    if To4(inv.ipv4) != [] {
      Mapped4(To4(inv.ipv4));
    }
    Sixteen(IPv6Of(inv));
  }

  lemma Sixteen(ip: IP)
    requires |ip| == 16
    ensures To16(ip) == ip
  {
  }

  /** Writing the canonical form writes the same body. */
  lemma CanonicalBody(inv: Invite)
    ensures Body(Canonical(inv)) == Body(inv)
  {
    hide FlagsOf, ExpiryField, ExpiryOf, Fixed, To4, To16, NameField, IPv6Of;
    CanonicalAddresses(inv);
    FieldOfExpiry(ExpiryField(inv.expiry));
  }

  lemma CanonicalRefusal(inv: Invite)
    requires Refusal(inv) == None
    ensures Refusal(Canonical(inv)) == if Unspecified(inv) then Some(ErrNoIPv6) else None
  {
    hide FlagsOf, ExpiryField, ExpiryOf;
  }

  /** The bytes that the fingerprint is taken of survive a full round trip, and so does the
      fingerprint. */
  lemma FingerprintStable(inv: Invite, withCrc: bool)
    requires Marshal(inv, true).Ok? && Unmarshal(Marshal(inv, true).value).Ok?
    ensures Marshal(Unmarshal(Marshal(inv, true).value).value, withCrc) == Marshal(inv, withCrc)
  {
    hide Body, Crc, BE32, Canonical, Unspecified, Unmarshal;
    RoundTrip(inv);
    CanonicalRefusal(inv);
    CanonicalBody(inv);
  }

  /** Canonical forms are the fixed points of writing and reading. */
  lemma CanonicalTwice(inv: Invite)
    ensures Canonical(Canonical(inv)) == Canonical(inv)
  {
    hide ExpiryField, ExpiryOf, To4, To16, IPv6Of;
    CanonicalAddresses(inv);
    FieldOfExpiry(ExpiryField(inv.expiry));
  }

  lemma TailWithMore(flags: Octet, tail: seq<Octet>, more: seq<Octet>)
    requires TailIn(flags, tail).Some?
    ensures TailIn(flags, tail + more) == TailIn(flags, tail)
  {
    hide HasIPv4, HasName, Value;
    var at := if HasIPv4(flags) then 4 else 0;
    assert (tail + more)[..at] == tail[..at];
    if HasName(flags) {
      var n := Value(tail[at]);
      assert (tail + more)[at + 1..at + 1 + n] == tail[at + 1..at + 1 + n];
    }
  }

  lemma FieldsWithMore(body: seq<Octet>, more: seq<Octet>)
    requires |body| >= FIXED && Fields(body).Some?
    ensures Fields(body + more) == Fields(body)
  {
    hide TailIn, HasSeed, ExpiryOf, U16, U32, MAPPED, ZEROS;
    assert (body + more)[FIXED..] == body[FIXED..] + more;
    TailWithMore(body[1], body[FIXED..], more);
    assert (body + more)[2..34] == body[2..34];
    assert (body + more)[34..50] == body[34..50];
    assert (body + more)[52..56] == body[52..56];
  }

  /** A body with its checksum behind it. */
  function Checked(body: seq<Octet>): seq<Octet> { body + BE32(Crc(body)) }

  lemma UnmarshalChecked(body: seq<Octet>)
    requires |body| >= FIXED
    ensures Unmarshal(Checked(body))
      == if body[0] != VERSION then Err(ErrVersion)
         else match Fields(body)
           case None => Err(ErrTruncated)
           case Some(inv) => if Reachable(inv) then Ok(inv) else Err(ErrNoIPv6)
  {
    hide Crc, BE32, U32, Fields, Reachable;
    var raw := Checked(body);
    assert raw[..|raw| - 4] == body && raw[|raw| - 4..] == BE32(Crc(body));
    U32OfBE32(Crc(body));
  }

  /** Bytes at the end of any body whose fields are complete, under a right checksum, are read as
      if they were not there; so writing what was read does not give them back. */
  lemma MoreIsIgnored(body: seq<Octet>, more: seq<Octet>)
    requires |body| >= FIXED && Fields(body).Some?
    ensures Unmarshal(Checked(body + more)) == Unmarshal(Checked(body))
  {
    hide Crc, BE32, U32, Fields, Reachable, Checked, Unmarshal;
    FieldsWithMore(body, more);
    UnmarshalChecked(body);
    UnmarshalChecked(body + more);
  }

  /** Nothing in a payload that reading it loses. */
  predicate Tight(raw: seq<Octet>) {
    && |raw| >= FIXED + 4
    && var body := raw[..|raw| - 4];
    && body[1] < 8
    && PortIn(body) != 0
    && KeyIn(body) != NO_KEY
    && TightTail(body[1], body[FIXED..])
  }

  /** What `marshal` writes loses nothing when it is read. */
  lemma BodyIsTight(inv: Invite, raw: seq<Octet>)
    requires Marshal(inv, true) == Ok(raw)
    ensures Tight(raw)
  {
    hide FlagsOf, HasIPv4, HasName, HasSeed, ExpiryField, ExpiryOf, Fixed, To4, To16, IPv6Of, NameField, BE32, Crc, KeyIn, PortIn, ZEROS,
      TightTail, ExpiryIn, IPv6In;
    var body := raw[..|raw| - 4];
    assert body == Body(inv);
    var v4, name := To4(inv.ipv4), CutName(inv.name);
    var flags := FlagsOf(v4 != [], inv.cloudSeed, name != []);
    FixedRead(VERSION, flags, inv.pubKey, IPv6Of(inv), PortOf(inv), ExpiryField(inv.expiry), v4 + NameField(name));
    FlagsRead(v4 != [], inv.cloudSeed, name != []);
    To4Length(inv.ipv4);
    WrittenTailIsTight(v4, inv.cloudSeed, name);
  }

  lemma WrittenTailIsTight(v4: seq<Octet>, seed: bool, name: seq<Octet>)
    requires |v4| in {0, 4} && |name| <= MAX_NAME_BYTES
    ensures TightTail(FlagsOf(v4 != [], seed, name != []), v4 + NameField(name))
  {
    hide FlagsOf, HasIPv4, HasName, HasSeed, Value, OctetOf;
    FlagsRead(v4 != [], seed, name != []);
    if name != [] {
      ValueOfOctet(|name|);
      assert (v4 + NameField(name))[|v4|] == OctetOf(|name|);
    }
  }

  /** The body of a tight payload is what `marshal` writes for the invite read from it. */
  lemma TightBody(body: seq<Octet>)
    requires |body| >= FIXED && body[0] == VERSION && body[1] < 8
    requires PortIn(body) != 0 && TightTail(body[1], body[FIXED..])
    ensures Fields(body).Some? && Body(Fields(body).value) == body
  {
    hide FlagsOf, HasIPv4, HasName, HasSeed, ExpiryField, ExpiryOf, Fixed, To4, To16, NameField, KeyIn, PortIn, ExpiryIn, IPv6In, TailIn,
      TightTail, ZEROS, MAPPED;
    var tail := body[FIXED..];
    TailWritten(body[1], tail);
    FlagsWritten(body[1]);
    FixedWritten(body);
    FieldOfExpiry(ExpiryIn(body));
    UnspecifiedIsUnmapped();
    Sixteen(IPv6In(body));
    var t := TailIn(body[1], tail).value;
    TailLength(body[1], tail);
    if t.v4 != [] {
      Mapped4(t.v4);
    }
  }

  lemma TailLength(flags: Octet, tail: seq<Octet>)
    requires TailIn(flags, tail).Some?
    ensures |TailIn(flags, tail).value.v4| in {0, 4}
  {
  }

  /** Exactly when writing what was read gives the payload back: no unknown flags, no port 0, no
      zero key, no empty or long name, no bytes at the end of the body. */
  lemma RewriteIffTight(raw: seq<Octet>)
    requires Unmarshal(raw).Ok?
    ensures Marshal(Unmarshal(raw).value, true) == Ok(raw) <==> Tight(raw)
  {
    hide Body, Crc, BE32, U32, TightTail, KeyIn, PortIn, ZEROS, To4;
    var inv := Unmarshal(raw).value;
    var body := raw[..|raw| - 4];
    if Marshal(inv, true) == Ok(raw) {
      BodyIsTight(inv, raw);
    }
    if Tight(raw) {
      TightBody(body);
      AcceptedRefusal(body);
      BE32OfU32(raw[|raw| - 4..]);
      assert raw == body + raw[|raw| - 4..];
    }
  }

  /** An invite that has been read is refused only for a zero key. */
  lemma AcceptedRefusal(body: seq<Octet>)
    requires |body| >= FIXED && body[0] == VERSION && Fields(body).Some? && Reachable(Fields(body).value)
    ensures Refusal(Fields(body).value) == if KeyIn(body) == NO_KEY then Some(ErrBadKey) else None
  {
    hide ZEROS, KeyIn, ExpiryOf, ExpiryIn, PortIn, TailIn, HasSeed;
  }

  // ----- Damage -----

  /** A payload of sufficient length whose checksum is right. */
  predicate ChecksumHolds(raw: seq<Octet>) {
    |raw| >= FIXED + 4 && Crc(raw[..|raw| - 4]) == U32(raw[|raw| - 4..])
  }

  lemma AcceptedChecksum(raw: seq<Octet>)
    requires Unmarshal(raw).Ok?
    ensures ChecksumHolds(raw)
  {
    hide Crc, U32, Fields, Reachable;
  }

  /** Any change within four consecutive bytes of the body of a payload of any length is
      caught by the checksum. */
  lemma BurstIsCaught(raw: seq<Octet>, damaged: seq<Octet>, i: nat)
    requires ChecksumHolds(raw)
    requires DifferWithin(raw, damaged, i, 4) && raw[|raw| - 4..] == damaged[|raw| - 4..]
    ensures Unmarshal(damaged) == Err(ErrChecksum)
  {
    hide Crc, Fields, Reachable;
    var n := |raw| - 4;
    assert raw == raw[..n] + raw[n..] && damaged == damaged[..n] + damaged[n..];
    ByteBurstDetected(raw[..n], damaged[..n], i);
  }

  /** A change in the stored checksum alone is caught too. */
  lemma ChecksumDamageIsCaught(raw: seq<Octet>, damaged: seq<Octet>)
    requires ChecksumHolds(raw) && |raw| == |damaged| && raw != damaged
    requires raw[..|raw| - 4] == damaged[..|raw| - 4]
    ensures Unmarshal(damaged) == Err(ErrChecksum)
  {
    hide Crc, Fields, Reachable, U32;
    var n := |raw| - 4;
    BE32OfU32(raw[n..]);
    BE32OfU32(damaged[n..]);
    assert raw == raw[..n] + raw[n..] && damaged == damaged[..n] + damaged[n..];
  }
}
