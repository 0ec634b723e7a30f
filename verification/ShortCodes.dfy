/** The 10-character codes: a fingerprint of an invite without its checksum, and the table that
    finds an invite by it. The hash is a parameter. */
module ShortCodes {
  import opened Wrappers
  import opened Octets
  import opened Strings
  import opened Base32
  import opened Invites
  import opened InviteTheorems
  import opened InviteText
  import opened Substitution

  /** A hash gives 32 bytes. */
  type Digest = Key
  type Hash = seq<Octet> -> Digest

  function ShortFrom(hash: Hash, raw: seq<Octet>): (s: string)
    ensures |s| == SHORT_LEN
  {
    DigestText(hash(raw));
    Text(Encode(hash(raw)[..8]))[..SHORT_LEN]
  }

  lemma DigestText(d: Digest)
    ensures |Text(Encode(d[..8]))| == 13
  {
    EncodeLength(d[..8]);
  }

  function ShortCode(hash: Hash, inv: Invite): string {
    match Marshal(inv, false) case Err(_) => "" case Ok(raw) => ShortFrom(hash, raw)
  }

  /** The code with a hyphen in the middle. */
  function ShortDisplay(hash: Hash, inv: Invite): string {
    var s := ShortCode(hash, inv);
    if |s| != SHORT_LEN then s else s[..5] + "-" + s[5..]
  }

  lemma CodeShape(hash: Hash, inv: Invite)
    requires Marshal(inv, false).Ok?
    ensures IsShortCode(ShortCode(hash, inv))
    ensures var code := ShortCode(hash, inv);
      |code| == 10 && forall c :: c in code ==> c in "0123456789ABCDEFGHJKMNPQRSTVWXYZ"
  {
    hide Marshal, Encode, Text;
    TextInAlphabet(Encode(hash(Marshal(inv, false).value)[..8]));
  }

  /** The code is the same after the invite has been sent as a full blob. */
  lemma CodeSurvives(hash: Hash, dec: Decoder, resolve: Resolver, inv: Invite)
    requires Lawful(dec) && GoEncode(inv).Ok? && !Unspecified(inv)
    ensures GoDecode(dec, resolve, GoEncode(inv).value).Ok?
    ensures ShortCode(hash, GoDecode(dec, resolve, GoEncode(inv).value).value) == ShortCode(hash, inv)
  {
    hide Lawful, GoDecode, Marshal, Unmarshal, Unspecified, ShortFrom, Canonical;
    GoTextRoundTrip(dec, resolve, inv);
    RoundTrip(inv);
    FingerprintStable(inv, false);
  }

  // ----- What a code says -----

  lemma {:induction false} DataBitsSum(a: seq<Octet>, b: seq<Octet>)
    ensures DataBits(a + b) == DataBits(a) + DataBits(b)
  {
    hide OctetBits;
    if a == [] {
      assert a + b == b;
    } else {
      assert (a + b)[1..] == a[1..] + b;
      DataBitsSum(a[1..], b);
    }
  }

  lemma {:induction false} SymbolsBitsSum(a: seq<Symbol>, b: seq<Symbol>)
    ensures SymbolsBits(a + b) == SymbolsBits(a) + SymbolsBits(b)
  {
    hide SymbolBits;
    if a == [] {
      assert a + b == b;
    } else {
      assert (a + b)[1..] == a[1..] + b;
      SymbolsBitsSum(a[1..], b);
    }
  }

  lemma TextPrefix(syms: seq<Symbol>, n: nat)
    requires n <= |syms|
    ensures Text(syms)[..n] == Text(syms[..n])
  {
    hide CharOf;
  }

  lemma {:induction false} SymbolsBitsInjective(a: seq<Symbol>, b: seq<Symbol>)
    requires SymbolsBits(a) == SymbolsBits(b)
    ensures a == b
  {
    hide SymbolBits;
    assert 5 * |a| == 5 * |b|;
    if a != [] {
      var m := SymbolsBits(a);
      assert SymbolBits(a[0]) == m[..5] == SymbolBits(b[0]) && SymbolsBits(a[1..]) == m[5..] == SymbolsBits(b[1..]);
      SymbolOfBits(a[0]);
      SymbolOfBits(b[0]);
      SymbolsBitsInjective(a[1..], b[1..]);
    }
  }

  /** The letters of a code, read as base32, are the first 50 bits of the digest; and the code is the
      text of just these letters. */
  lemma CodeSpellsDigest(hash: Hash, raw: seq<Octet>)
    ensures SymbolsBits(SymbolsIn(ShortFrom(hash, raw))) == DataBits(hash(raw))[..50]
    ensures ShortFrom(hash, raw) == Text(SymbolsIn(ShortFrom(hash, raw)))
  {
    hide Text, SymbolsIn, SymbolsBits, DataBits, GroupSymbols;
    var d := hash(raw);
    var syms := Encode(d[..8]);
    DigestText(d);
    TextPrefix(syms, 10);
    SymbolsInText(syms[..10]);
    BitsOfGroups(DataBits(d[..8]));
    var k :| 0 <= k < 5 && SymbolsBits(syms) == DataBits(d[..8]) + Zeros(k);
    assert syms == syms[..10] + syms[10..];
    SymbolsBitsSum(syms[..10], syms[10..]);
    assert SymbolsBits(syms[..10]) == SymbolsBits(syms)[..50];
    DataBitsSum(d[..8], d[8..]);
    assert d == d[..8] + d[8..];
    assert DataBits(d)[..50] == DataBits(d[..8])[..50];
  }

  /** So two byte strings have one code exactly when their digests agree in the first 50 bits. */
  lemma SameCodeIff(hash: Hash, a: seq<Octet>, b: seq<Octet>)
    ensures ShortFrom(hash, a) == ShortFrom(hash, b) <==> DataBits(hash(a))[..50] == DataBits(hash(b))[..50]
  {
    hide ShortFrom, Text, SymbolsIn, SymbolsBits, DataBits;
    CodeSpellsDigest(hash, a);
    CodeSpellsDigest(hash, b);
    if DataBits(hash(a))[..50] == DataBits(hash(b))[..50] {
      SymbolsBitsInjective(SymbolsIn(ShortFrom(hash, a)), SymbolsIn(ShortFrom(hash, b)));
    }
  }

  // ----- Writing a code by hand -----

  /** r is the code with spaces and hyphens put in, in either case. Other letters are not put right
      in a short code. */
  predicate WritesCode(r: string, code: string) {
    if r == "" then code == ""
    else if r[0] == ' ' || r[0] == '-' then WritesCode(r[1..], code)
    else code != "" && Upper(r[0]) == code[0] && WritesCode(r[1..], code[1..])
  }

  lemma {:induction false} CodeCompacted(r: string, code: string)
    requires WritesCode(r, code) && forall c :: c in code ==> c in ALPHABET
    ensures Filter(NotHyphen, Map(Upper, Filter(NotSpace, r))) == code
    ensures Renders(r, code)
    decreases |r|
  {
    hide Upper, ALPHABET;
    if r != "" {
      var rest := Map(Upper, Filter(NotSpace, r[1..]));
      if r[0] == ' ' || r[0] == '-' {
        Constants(r[0]);
        CodeCompacted(r[1..], code);
        if r[0] == '-' {
          FirstUpper(r);
          HyphenCleaned(rest);
        } else {
          assert "" + Filter(NotSpace, r[1..]) == Filter(NotSpace, r[1..]);
        }
      } else {
        CharPlain(code[0]);
        NotUpperSpace(r[0]);
        CodeCompacted(r[1..], code[1..]);
        FirstUpper(r);
        assert ([Upper(r[0])] + rest)[1..] == rest;
        assert code == [code[0]] + code[1..];
      }
    }
  }

  lemma NotUpperSpace(c: char)
    ensures Upper(c) != ' ' ==> c != ' '
  {
  }

  /** A code however written goes to the resolver as it is, and nothing is decoded. */
  lemma CodeIsResolved(dec: Decoder, resolve: Resolver, before: string, r: string, after: string, code: string)
    requires IsShortCode(code) && WritesCode(r, code) && AllSpace(before) && AllSpace(after)
    ensures GoDecode(dec, resolve, before + r + after)
      == match resolve(code) case Some(inv) => Ok(inv) case None => Err(ErrShort)
  {
    hide Upper, Lower, AllSpace, Renders, WritesCode, ALPHABET, Trim, Unmarshal, Squeezed, PREFIX, SCHEME;
    CodeCompacted(r, code);
    assert "" + r == r;
    SqueezedRendering(before, "", r, after, code);
    var x := Map(Upper, Filter(NotSpace, r));
    assert "" + x == x;
    Upped(r, code);
    NoColon(x);
  }

  lemma DisplayWritesCode(hash: Hash, inv: Invite)
    requires Marshal(inv, false).Ok?
    ensures WritesCode(ShortDisplay(hash, inv), ShortCode(hash, inv))
    ensures var d := ShortDisplay(hash, inv);
      |d| == 11 && d[5] == '-' && d[..5] + d[6..] == ShortCode(hash, inv)
  {
    hide Marshal, ShortFrom, Upper, ALPHABET;
    CodeShape(hash, inv);
    var code := ShortCode(hash, inv);
    WritesItself(code[5..]);
    assert ("-" + code[5..])[1..] == code[5..];
    WritesAppended(code[..5], "-" + code[5..], code[5..]);
    assert code[..5] + ("-" + code[5..]) == code[..5] + "-" + code[5..];
    assert code[..5] + code[5..] == code;
    var d := ShortDisplay(hash, inv);
    assert d[..5] == code[..5] && d[6..] == code[5..];
  }

  lemma {:induction false} WritesItself(code: string)
    requires forall c :: c in code ==> c in ALPHABET
    ensures WritesCode(code, code)
  {
    hide ALPHABET, Upper;
    if code != "" {
      CharPlain(code[0]);
      WritesItself(code[1..]);
    }
  }

  lemma {:induction false} WritesAppended(code: string, r: string, rest: string)
    requires WritesCode(r, rest) && forall c :: c in code ==> c in ALPHABET
    ensures WritesCode(code + r, code + rest)
  {
    hide ALPHABET, Upper;
    if code == "" {
      assert code + r == r && code + rest == rest;
    } else {
      CharPlain(code[0]);
      WritesAppended(code[1..], r, rest);
      assert (code + r)[1..] == code[1..] + r && (code + rest)[1..] == code[1..] + rest;
    }
  }

  // ----- The table -----

  /** The last invite of the list with this code. */
  function LastWith(hash: Hash, invites: seq<Option<Invite>>, code: string): Option<Invite>
    decreases |invites|
  {
    if invites == [] then None
    else
      var last := invites[|invites| - 1];
      if last.Some? && ShortCode(hash, last.value) == code then last
      else LastWith(hash, invites[..|invites| - 1], code)
  }

  /** What finding the last one means. */
  lemma {:induction false} LastWithIs(hash: Hash, invites: seq<Option<Invite>>, code: string, i: nat)
    requires i < |invites| && invites[i].Some? && ShortCode(hash, invites[i].value) == code
    requires forall j :: i < j < |invites| && invites[j].Some? ==> ShortCode(hash, invites[j].value) != code
    ensures LastWith(hash, invites, code) == invites[i]
    decreases |invites|
  {
    hide ShortCode;
    if i < |invites| - 1 {
      LastWithIs(hash, invites[..|invites| - 1], code, i);
    }
  }

  lemma {:induction false} LastWithNone(hash: Hash, invites: seq<Option<Invite>>, code: string)
    requires forall i :: 0 <= i < |invites| && invites[i].Some? ==> ShortCode(hash, invites[i].value) != code
    ensures LastWith(hash, invites, code) == None
    decreases |invites|
  {
    hide ShortCode;
    if invites != [] {
      LastWithNone(hash, invites[..|invites| - 1], code);
    }
  }

  ghost predicate IsTableOf(m: map<string, Invite>, hash: Hash, invites: seq<Option<Invite>>) {
    forall code :: LastWith(hash, invites, code) == if code in m then Some(m[code]) else None
  }

  /** `LookupTable`: the map behind the resolver. */
  method LookupTable(hash: Hash, invites: seq<Option<Invite>>) returns (m: map<string, Invite>)
    ensures IsTableOf(m, hash, invites)
  {
    hide ShortCode;
    m := map[];
    for i := 0 to |invites|
      invariant IsTableOf(m, hash, invites[..i])
    {
      assert invites[..i + 1][..i] == invites[..i];
      if invites[i].Some? {
        var inv := invites[i].value;
        m := m[ShortCode(hash, inv) := inv];
      }
    }
    assert invites[..|invites|] == invites;
  }

  function NormalizeShort(code: string): string { Map(Upper, Filter(NotHyphen, Trim(code))) }

  /** The resolver over a table. */
  function TableResolver(m: map<string, Invite>): Resolver {
    (short: string) => var code := NormalizeShort(short); if code in m then Some(m[code]) else None
  }

  /** The resolver that answers with the last listed invite of a code. */
  function ListResolver(hash: Hash, invites: seq<Option<Invite>>): Resolver {
    (short: string) => LastWith(hash, invites, NormalizeShort(short))
  }

  /** A decoder asks its resolver at most once, so only what the resolver answers matters. */
  lemma SameAnswers(dec: Decoder, a: Resolver, b: Resolver, text: string)
    requires forall short :: a(short) == b(short)
    ensures GoDecode(dec, a, text) == GoDecode(dec, b, text)
  {
    hide Squeezed, Unmarshal;
  }

  /** Decoding with the table of a list is decoding with the list. */
  lemma TableAnswers(hash: Hash, dec: Decoder, invites: seq<Option<Invite>>, m: map<string, Invite>, text: string)
    requires IsTableOf(m, hash, invites)
    ensures GoDecode(dec, TableResolver(m), text) == GoDecode(dec, ListResolver(hash, invites), text)
  {
    hide GoDecode, NormalizeShort;
    forall short ensures TableResolver(m)(short) == ListResolver(hash, invites)(short) {
    }
    SameAnswers(dec, TableResolver(m), ListResolver(hash, invites), text);
  }

  lemma NormalizedCode(code: string)
    requires IsShortCode(code)
    ensures NormalizeShort(code) == code
  {
    hide ALPHABET, Upper, IsSpace;
    forall c | c in code ensures !IsSpace(c) && NotHyphen(c) && Upper(c) == c {
      CharPlain(c);
    }
    assert code[0] in code && code[|code| - 1] in code;
    TrimAround("", code, "");
    assert "" + code + "" == code;
    FilterAll(NotHyphen, code);
    MapNothing(code);
  }

  lemma {:induction false} MapNothing(s: string)
    requires forall c :: c in s ==> Upper(c) == c
    ensures Map(Upper, s) == s
  {
    hide Upper;
    if s != "" {
      MapNothing(s[1..]);
      assert s == [s[0]] + s[1..];
    }
  }

  /** Typing the code of a listed invite, in any way, finds that invite, unless one later in the
      list has the same code. */
  lemma CodeFindsInvite(hash: Hash, dec: Decoder, invites: seq<Option<Invite>>, i: nat,
                        before: string, r: string, after: string)
    requires i < |invites| && invites[i].Some? && Marshal(invites[i].value, false).Ok?
    requires forall j :: i < j < |invites| && invites[j].Some?
               ==> ShortCode(hash, invites[j].value) != ShortCode(hash, invites[i].value)
    requires WritesCode(r, ShortCode(hash, invites[i].value)) && AllSpace(before) && AllSpace(after)
    ensures GoDecode(dec, ListResolver(hash, invites), before + r + after) == Ok(invites[i].value)
  {
    hide ShortCode, WritesCode, AllSpace, GoDecode, IsShortCode, Marshal, NormalizeShort;
    var code := ShortCode(hash, invites[i].value);
    CodeShape(hash, invites[i].value);
    LastWithIs(hash, invites, code, i);
    NormalizedCode(code);
    CodeIsResolved(dec, ListResolver(hash, invites), before, r, after, code);
  }

  /** Typing a code that no listed invite has finds nothing, and decodes nothing. */
  lemma UnknownCode(hash: Hash, dec: Decoder, invites: seq<Option<Invite>>, code: string,
                    before: string, r: string, after: string)
    requires IsShortCode(code)
    requires forall i :: 0 <= i < |invites| && invites[i].Some? ==> ShortCode(hash, invites[i].value) != code
    requires WritesCode(r, code) && AllSpace(before) && AllSpace(after)
    ensures GoDecode(dec, ListResolver(hash, invites), before + r + after) == Err(ErrShort)
  {
    hide ShortCode, WritesCode, AllSpace, GoDecode, IsShortCode, NormalizeShort;
    LastWithNone(hash, invites, code);
    NormalizedCode(code);
    CodeIsResolved(dec, ListResolver(hash, invites), before, r, after, code);
  }

  // ----- What a table is asked -----

  lemma {:induction false} UpperKeepsHyphens(s: string)
    ensures Filter(NotHyphen, Map(Upper, s)) == Map(Upper, Filter(NotHyphen, s))
  {
    hide Upper, Filter, Map;
    if s == "" {
      NothingToKeep();
    } else {
      UpperKeepsHyphens(s[1..]);
      OneUpper(s[0]);
      assert s == [s[0]] + s[1..];
      MapAppend(Upper, [s[0]], s[1..]);
      FilterAppend(NotHyphen, Map(Upper, [s[0]]), Map(Upper, s[1..]));
      FilterAppend(NotHyphen, [s[0]], s[1..]);
      MapAppend(Upper, Filter(NotHyphen, [s[0]]), Filter(NotHyphen, s[1..]));
    }
  }

  lemma NothingToKeep()
    ensures Filter(NotHyphen, Map(Upper, "")) == "" == Map(Upper, Filter(NotHyphen, ""))
  {
  }

  lemma OneUpper(c: char)
    ensures Filter(NotHyphen, Map(Upper, [c])) == Map(Upper, Filter(NotHyphen, [c]))
  {
    assert [c][1..] == "" && [Upper(c)][1..] == "";
    assert Map(Upper, [c]) == [Upper(c)];
  }

  lemma {:induction false} NoSpacesToTake(r: string)
    requires ' ' !in r
    ensures Filter(NotSpace, r) == r
  {
    if r != "" {
      NoSpacesToTake(r[1..]);
      assert r == [r[0]] + r[1..];
    }
  }

  lemma {:induction false} WritingChars(r: string, code: string)
    requires WritesCode(r, code) && ' ' !in r && forall c :: c in code ==> c in ALPHABET
    ensures forall c :: c in r ==> !IsSpace(c)
    ensures code != "" ==> r != ""
  {
    hide ALPHABET, IsSpace, Upper;
    if r != "" {
      Constants('-');
      if r[0] != '-' {
        CharPlain(code[0]);
        SpacesHaveNoCase(r[0]);
      }
      WritingChars(r[1..], if r[0] == '-' then code else code[1..]);
      assert r == [r[0]] + r[1..];
    }
  }

  lemma SpacesHaveNoCase(c: char)
    ensures IsSpace(c) ==> IsSpace(Upper(c))
  {
  }

  /** Asked about a code with hyphens anywhere, in either case, with white space around, a table answers
      with the entry of the code. */
  lemma TableTakesWritings(m: map<string, Invite>, before: string, r: string, after: string, code: string)
    requires IsShortCode(code) && WritesCode(r, code) && ' ' !in r && AllSpace(before) && AllSpace(after)
    ensures TableResolver(m)(before + r + after) == if code in m then Some(m[code]) else None
  {
    hide Upper, IsSpace, ALPHABET, WritesCode, Trim;
    CodeCompacted(r, code);
    NoSpacesToTake(r);
    WritingChars(r, code);
    assert r[0] in r && r[|r| - 1] in r;
    TrimAround(before, r, after);
    UpperKeepsHyphens(r);
  }
}
