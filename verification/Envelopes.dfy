/** Application envelopes: what is signed, and what `Verify` checks (hub/envelope.go). */
module Envelopes {
  import opened Wrappers
  import opened Octets

  const KEY_SIZE := 32
  const MIN_CIPHERTEXT := 40     // nonce and box overhead
  const MAX_CIPHERTEXT := 65536

  newtype int64 = n: int | -0x8000_0000_0000_0000 <= n < 0x8000_0000_0000_0000

  datatype Envelope = Envelope(
    id: GoString,
    from: seq<Octet>,
    to: seq<Octet>,
    ts: int64,
    typ: GoString,
    sig: seq<Octet>,
    ciphertext: seq<Octet>)

  /** Ed25519 verification of a signature by a key over a message. */
  type EdVerify = (seq<Octet>, seq<Octet>, seq<Octet>) -> bool

  datatype VerifyError = BadFrom | BadSignature | MissingTs | TooSmall | TooLarge

  /** The length of a field, cut to 32 bits. */
  function Length(b: seq<Octet>): bv32 { LowWord(|b|) }

  function Put(b: seq<Octet>): seq<Octet> {
    BE32(Length(b)) + b
  }

  function Uint64(x: int64): nat {
    if x >= 0 then x as nat else (x as int + TWO32 * TWO32) as nat
  }

  /** The eight bytes of uint64(x), most significant first. */
  function BE64(x: int64): (s: seq<Octet>)
    ensures |s| == 8
  {
    BE32(LowWord(Uint64(x) / TWO32)) + BE32(LowWord(Uint64(x)))
  }

  /** The signed bytes: every field but the signature, each after its length. */
  function Signed(e: Envelope): seq<Octet> {
    Put(e.id) + (Put(e.from) + (Put(e.to) + (Put(BE64(e.ts)) + (Put(e.typ) + Put(e.ciphertext)))))
  }

  /** They spell the number modulo 2^64. */
  lemma NumberOfBE64(x: int64)
    ensures Number(BE64(x)) == x as int % 0x1_0000_0000_0000_0000
  {
    hide BE32, LowWord, Number, WordValue;
    var u := Uint64(x);
    var high, low := BE32(LowWord(u / TWO32)), BE32(LowWord(u));
    NumberOfSum(high, low);
    NumberOfLowWord(u / TWO32);
    NumberOfLowWord(u);
    TwoHalves(x);
  }

  lemma TwoHalves(x: int64)
    ensures var u := Uint64(x);
      TWO32 * (u / TWO32 % TWO32) + u % TWO32 == u == x as int % 0x1_0000_0000_0000_0000
  {
  }

  lemma BE64Injective(x: int64, y: int64)
    requires BE64(x) == BE64(y)
    ensures x == y
  {
    hide BE64, Number;
    NumberOfBE64(x);
    NumberOfBE64(y);
  }

  /** The closure `put`: a field goes behind its length. */
  method AppendField(sofar: seq<Octet>, b: seq<Octet>) returns (out: seq<Octet>)
    ensures out == sofar + Put(b)
  {
    hide BE32;
    out := sofar + BE32(Length(b));
    out := out + b;
  }

  method SignedBytes(e: Envelope) returns (out: seq<Octet>)
    ensures out == Signed(e)
  {
    hide Put, BE64;
    out := AppendField([], e.id);
    out := AppendField(out, e.from);
    out := AppendField(out, e.to);
    var ts := BE64(e.ts);
    out := AppendField(out, ts);
    out := AppendField(out, e.typ);
    out := AppendField(out, e.ciphertext);
  }

  function Verify(e: Envelope, ed: EdVerify): Result<(), VerifyError> {
    if |e.from| != KEY_SIZE then Err(BadFrom)
    else if !ed(e.from, Signed(e), e.sig) then Err(BadSignature)
    else if e.ts == 0 then Err(MissingTs)
    else if |e.ciphertext| < MIN_CIPHERTEXT then Err(TooSmall)
    else if |e.ciphertext| > MAX_CIPHERTEXT then Err(TooLarge)
    else Ok(())
  }

  // ----- Reading the signed bytes back -----

  /** The first field of s, and what follows it. */
  function TakeField(s: seq<Octet>): Option<(seq<Octet>, seq<Octet>)> {
    if |s| < 4 || |s| - 4 < WordValue(U32(s[..4])) then None
    else
      var n := WordValue(U32(s[..4]));
      Some((s[4..4 + n], s[4 + n..]))
  }

  /** Reads n fields that fill s exactly. */
  function TakeFields(s: seq<Octet>, n: nat): Option<seq<seq<Octet>>> {
    if n == 0 then (if s == [] then Some([]) else None)
    else
      match TakeField(s)
      case None => None
      case Some((field, rest)) =>
        match TakeFields(rest, n - 1)
        case None => None
        case Some(fields) => Some([field] + fields)
  }

  predicate Short(b: seq<Octet>) { |b| < TWO32 }

  /** Every field fits its 32-bit length. */
  predicate FieldsFit(e: Envelope) {
    Short(e.id) && Short(e.from) && Short(e.to) && Short(e.typ) && Short(e.ciphertext)
  }

  lemma TakePut(b: seq<Octet>, rest: seq<Octet>)
    requires Short(b)
    ensures TakeField(Put(b) + rest) == Some((b, rest))
  {
    hide BE32, U32, LowWord, WordValue;
    NumberRead(|b|);
    var s := Put(b) + rest;
    assert s[..4] == BE32(Length(b));
    assert s[4..4 + |b|] == b;
    assert s[4 + |b|..] == rest;
  }

  lemma {:induction false} TakePuts(fields: seq<seq<Octet>>, s: seq<Octet>)
    requires forall b :: b in fields ==> Short(b)
    requires s == Puts(fields)
    ensures TakeFields(s, |fields|) == Some(fields)
  {
    if fields != [] {
      TakePut(fields[0], Puts(fields[1..]));
      TakePuts(fields[1..], Puts(fields[1..]));
      assert [fields[0]] + fields[1..] == fields;
    }
  }

  function Puts(fields: seq<seq<Octet>>): seq<Octet> {
    if fields == [] then [] else Put(fields[0]) + Puts(fields[1..])
  }

  function Fields(e: Envelope): seq<seq<Octet>> {
    [e.id, e.from, e.to, BE64(e.ts), e.typ, e.ciphertext]
  }

  lemma SignedIsPuts(e: Envelope)
    ensures Signed(e) == Puts(Fields(e))
  {
    hide Put, BE64;
    PutsCons(e.ciphertext, []);
    assert Put(e.ciphertext) + [] == Put(e.ciphertext);
    PutsCons(e.typ, [e.ciphertext]);
    PutsCons(BE64(e.ts), [e.typ, e.ciphertext]);
    PutsCons(e.to, [BE64(e.ts), e.typ, e.ciphertext]);
    PutsCons(e.from, [e.to, BE64(e.ts), e.typ, e.ciphertext]);
    PutsCons(e.id, [e.from, e.to, BE64(e.ts), e.typ, e.ciphertext]);
    assert Fields(e) == [e.id] + [e.from, e.to, BE64(e.ts), e.typ, e.ciphertext];
  }

  lemma PutsCons(field: seq<Octet>, fields: seq<seq<Octet>>)
    ensures Puts([field] + fields) == Put(field) + Puts(fields)
  {
    hide Put;
    assert ([field] + fields)[1..] == fields;
  }

  /** A reader of length-prefixed fields recovers every signed field, in this order, the time as
      eight bytes that spell it modulo 2^64. */
  lemma SignedParses(e: Envelope) returns (time: seq<Octet>)
    requires FieldsFit(e)
    ensures TakeFields(Signed(e), 6) == Some([e.id, e.from, e.to, time, e.typ, e.ciphertext])
    ensures |time| == 8 && Number(time) == e.ts as int % 0x1_0000_0000_0000_0000
  {
    hide BE64, Signed, Puts, Number;
    time := BE64(e.ts);
    SignedIsPuts(e);
    TakePuts(Fields(e), Signed(e));
    NumberOfBE64(e.ts);
  }

  /** What that reader takes for the length of a field is what its first four bytes spell. */
  lemma FieldLength(s: seq<Octet>)
    requires TakeField(s).Some?
    ensures var (field, rest) := TakeField(s).value;
      |s| >= 4 && |field| == Number(s[..4]) && s == s[..4] + field + rest
  {
    hide U32, Number;
    WordOfBytes(s[..4]);
  }

  /** A signature covers one envelope only: equal signed bytes force every field but the
      signature to be equal. */
  lemma SignedInjective(a: Envelope, b: Envelope)
    requires FieldsFit(a) && FieldsFit(b) && Signed(a) == Signed(b)
    ensures a == b.(sig := a.sig)
  {
    hide BE64, Signed, Number;
    var at := SignedParses(a);
    var bt := SignedParses(b);
    var fields := [a.id, a.from, a.to, at, a.typ, a.ciphertext];
    assert fields == [b.id, b.from, b.to, bt, b.typ, b.ciphertext];
    assert fields[0] == b.id && fields[1] == b.from && fields[2] == b.to && fields[3] == bt;
    assert fields[4] == b.typ && fields[5] == b.ciphertext;
  }

  // ----- What Verify lets through -----

  /** Exactly the envelopes with a key of 32 bytes, a signature that the key verifies, a time, and a
      ciphertext of 40 to 65536 bytes. */
  lemma VerifiedIff(e: Envelope, ed: EdVerify)
    ensures Verify(e, ed).Ok? <==>
      |e.from| == 32 && ed(e.from, Signed(e), e.sig) && e.ts != 0 && 40 <= |e.ciphertext| <= 0x1_0000
    ensures Verify(e, ed) == Err(BadFrom) <==> |e.from| != 32
    ensures Verify(e, ed) == Err(BadSignature) <==> |e.from| == 32 && !ed(e.from, Signed(e), e.sig)
    ensures Verify(e, ed) == Err(MissingTs) ==> e.ts == 0
    ensures Verify(e, ed) == Err(TooSmall) ==> e.ts != 0 && |e.ciphertext| < 40
    ensures Verify(e, ed) == Err(TooLarge) ==> e.ts != 0 && |e.ciphertext| > 0x1_0000
  {
    hide Signed;
  }
}
