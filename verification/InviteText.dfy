/** Invites as text: what is cleaned away before the base32 is read, in the Go and the Dart codec,
    on ASCII. Go's base32 library is a parameter. */
module InviteText {
  import opened Wrappers
  import opened Octets
  import opened Strings
  import opened Base32
  import opened Crc32
  import opened Invites
  import opened InviteTheorems
  import opened DartInvites
  import opened DartTheorems
  import Utf8
  import opened Substitution

  const PREFIX := "starmesh1:"
  const SCHEME := "STARMESH1:"
  const PREFIX_LEN := 10
  const SHORT_LEN := 10

  type Decoder = string -> Option<seq<Octet>>
  type Resolver = string -> Option<Invite>
  type DartResolver = string -> Option<DartInvite>

  predicate NotSpace(c: char) { c != ' ' }

  predicate NotHyphen(c: char) { c != '-' }

  /** Characters that are easily misread. */
  function Norm(c: char): char {
    if c == 'I' || c == 'L' then '1' else if c == 'O' then '0' else if c == 'U' then 'V' else c
  }

  /** The loop of `normalizeCrockford`. */
  method NormalizeCrockford(s: string) returns (t: string)
    ensures t == Map(Norm, s)
  {
    t := "";
    for i := 0 to |s|
      invariant t == Map(Norm, s[..i])
    {
      assert s[..i + 1] == s[..i] + [s[i]];
      MapAppend(Norm, s[..i], [s[i]]);
      var c := s[i];
      if c == 'I' || c == 'L' {
        t := t + ['1'];
      } else if c == 'O' {
        t := t + ['0'];
      } else if c == 'U' {
        t := t + ['V'];
      } else {
        t := t + [c];
      }
    }
    assert s[..|s|] == s;
  }

  /** What `decodePayload` hands to base32. */
  function Clean(s: string): string { Map(Norm, Map(Upper, Filter(NotHyphen, s))) }

  predicate IsShortCode(s: string) {
    |s| == SHORT_LEN && forall c :: c in s ==> c in ALPHABET
  }

  function Squeezed(s: string): string { Map(Upper, Filter(NotSpace, Trim(s))) }

  function GoPayload(dec: Decoder, s: string): Result<Invite, Error> {
    match dec(Clean(s)) case None => Err(ErrText) case Some(raw) => Unmarshal(raw)
  }

  /** `Decode` in Go. */
  function GoDecode(dec: Decoder, resolve: Resolver, text: string): Result<Invite, Error> {
    if Trim(text) == "" then Err(ErrEmpty)
    else
      var s := Squeezed(text);
      if PREFIX <= Map(Lower, s) || SCHEME <= s then GoPayload(dec, s[PREFIX_LEN..])
      else
        var compact := Filter(NotHyphen, s);
        if IsShortCode(compact) then match resolve(compact) case Some(inv) => Ok(inv) case None => Err(ErrShort)
        else GoPayload(dec, compact)
  }

  datatype DartTextError = EmptyText | Unresolved | BadPayload(error: DartError)

  function DartPayload(s: string): Result<DartInvite, DartTextError> {
    match DartUnmarshal(Decode(SymbolsIn(Clean(s)))) case Ok(d) => Ok(d) case Err(e) => Err(BadPayload(e))
  }

  /** `decodeInvite` in Dart. */
  function DartDecode(resolve: DartResolver, text: string): Result<DartInvite, DartTextError> {
    if Trim(text) == "" then Err(EmptyText)
    else
      var s := Squeezed(text);
      if SCHEME <= s then DartPayload(s[PREFIX_LEN..])
      else
        var compact := Filter(NotHyphen, s);
        if IsShortCode(compact) then match resolve(compact) case Some(d) => Ok(d) case None => Err(Unresolved)
        else DartPayload(compact)
  }

  /** What a base32 library promises: it decodes what it encodes. */
  ghost predicate Lawful(dec: Decoder) { forall raw :: dec(Text(Encode(raw))) == Some(raw) }

  // ----- The alphabet -----

  lemma AlphabetGrows(i: nat)
    requires i < 31
    ensures ALPHABET[i] < ALPHABET[i + 1]
  {
  }

  lemma {:induction false} AlphabetOrdered(i: nat, j: nat)
    requires i < j < 32
    ensures ALPHABET[i] < ALPHABET[j]
    decreases j
  {
    hide ALPHABET;
    AlphabetGrows(j - 1);
    if i < j - 1 {
      AlphabetOrdered(i, j - 1);
    }
  }

  lemma IndexOfChar(s: Symbol)
    ensures IndexOf(CharOf(s)) == s as int
  {
    hide ALPHABET;
    var j := IndexOf(CharOf(s));
    var i := s as nat;
    assert j >= 0;
    if j < i {
      AlphabetOrdered(j, i);
    } else if i < j {
      AlphabetOrdered(i, j);
    }
  }

  /** Letters of the alphabet are digits and capitals that are not misread. */
  lemma AlphabetPlain(i: nat)
    requires i < 32
    ensures var c := ALPHABET[i];
      Upper(c) == c && Norm(c) == c && c != ' ' && c != '-' && c != ':' && !IsSpace(c) && Lower(c) != ':'
  {
  }

  lemma CharPlain(c: char)
    requires c in ALPHABET
    ensures Upper(c) == c && Norm(c) == c && c != ' ' && c != '-' && c != ':' && !IsSpace(c) && Lower(c) != ':'
  {
    hide ALPHABET, Upper, Norm, IsSpace, Lower;
    var i :| 0 <= i < |ALPHABET| && ALPHABET[i] == c;
    AlphabetSize();
    AlphabetPlain(i);
  }

  lemma AlphabetSize()
    ensures |ALPHABET| == 32
  {
  }

  lemma TextInAlphabet(syms: seq<Symbol>)
    ensures forall c :: c in Text(syms) ==> c in ALPHABET
  {
    hide ALPHABET;
    AlphabetSize();
  }

  /** Reading the text of symbols gives the symbols. */
  lemma {:induction false} SymbolsInText(syms: seq<Symbol>)
    ensures SymbolsIn(Text(syms)) == syms
    decreases |syms|
  {
    hide CharOf, IndexOf, Upper, ALPHABET;
    if syms != [] {
      var n := |syms| - 1;
      var t := Text(syms);
      assert t[..n] == Text(syms[..n]);
      SymbolsInText(syms[..n]);
      CharInAlphabet(syms[n]);
      CharPlain(CharOf(syms[n]));
      IndexOfChar(syms[n]);
    }
  }

  lemma CharInAlphabet(s: Symbol)
    ensures CharOf(s) in ALPHABET
  {
    hide ALPHABET;
    AlphabetSize();
  }

  // ----- Ways to write a payload -----

  /** c is a way of writing the letter a of the alphabet. */
  predicate Variant(c: char, a: char) {
    || Upper(c) == a
    || (a == '0' && Upper(c) == 'O')
    || (a == '1' && (Upper(c) == 'I' || Upper(c) == 'L'))
    || (a == 'V' && Upper(c) == 'U')
  }

  /** r is the payload p with spaces and hyphens put in and letters written in other ways. */
  predicate Renders(r: string, p: string) {
    if r == "" then p == ""
    else if r[0] == ' ' || r[0] == '-' then Renders(r[1..], p)
    else p != "" && Variant(r[0], p[0]) && Renders(r[1..], p[1..])
  }

  lemma VariantRead(c: char, a: char)
    requires Variant(c, a) && a in ALPHABET
    ensures Norm(Upper(Upper(c))) == a && Upper(c) != '-' && c != ' ' && !IsSpace(c) && Lower(Upper(c)) != ':' && Upper(c) != ':'
  {
    hide ALPHABET;
    CharPlain(a);
  }

  lemma Constants(c: char)
    requires c == ' ' || c == '-'
    ensures Upper(c) == c && (IsSpace(c) <==> c == ' ') && Lower(c) == c
  {
  }

  /** Everything that a rendering adds is cleaned away. */
  lemma {:induction false} RenderingCleaned(r: string, p: string)
    requires Renders(r, p) && forall c :: c in p ==> c in ALPHABET
    ensures Clean(Map(Upper, Filter(NotSpace, r))) == p
    ensures |Filter(NotHyphen, Map(Upper, Filter(NotSpace, r)))| == |p|
    decreases |r|
  {
    hide Variant, Norm, Upper, ALPHABET;
    if r != "" {
      var rest := Map(Upper, Filter(NotSpace, r[1..]));
      if r[0] == ' ' || r[0] == '-' {
        Constants(r[0]);
        RenderingCleaned(r[1..], p);
        if r[0] == '-' {
          FirstUpper(r);
          HyphenCleaned(rest);
        } else {
          assert "" + Filter(NotSpace, r[1..]) == Filter(NotSpace, r[1..]);
        }
      } else {
        VariantRead(r[0], p[0]);
        RenderingCleaned(r[1..], p[1..]);
        FirstUpper(r);
        FirstClean(Upper(r[0]), rest);
        assert p == [p[0]] + p[1..];
      }
    }
  }

  lemma FirstUpper(r: string)
    requires r != "" && r[0] != ' '
    ensures Map(Upper, Filter(NotSpace, r)) == [Upper(r[0])] + Map(Upper, Filter(NotSpace, r[1..]))
  {
    hide Upper;
    var t := [r[0]] + Filter(NotSpace, r[1..]);
    assert t[1..] == Filter(NotSpace, r[1..]);
  }

  lemma FirstClean(c: char, rest: string)
    requires c != '-'
    ensures Clean([c] + rest) == [Norm(Upper(c))] + Clean(rest)
    ensures |Filter(NotHyphen, [c] + rest)| == 1 + |Filter(NotHyphen, rest)|
  {
    hide Upper, Norm;
    var t := [c] + rest;
    assert t[1..] == rest;
    var u := Filter(NotHyphen, rest);
    assert ([c] + u)[1..] == u;
    assert ([Upper(c)] + Map(Upper, u))[1..] == Map(Upper, u);
  }

  lemma HyphenCleaned(rest: string)
    ensures Clean(['-'] + rest) == Clean(rest) && Filter(NotHyphen, ['-'] + rest) == Filter(NotHyphen, rest)
  {
    hide Upper, Norm;
    assert (['-'] + rest)[1..] == rest;
    assert "" + Filter(NotHyphen, rest) == Filter(NotHyphen, rest);
  }

  /** A rendering has no white space but spaces, and no colon. */
  lemma {:induction false} RenderingChars(r: string, p: string)
    requires Renders(r, p) && forall c :: c in p ==> c in ALPHABET
    ensures forall c :: c in r ==> (IsSpace(c) ==> c == ' ') && Upper(c) != ':' && Lower(Upper(c)) != ':'
    ensures p != "" ==> exists c :: c in r && !IsSpace(c)
    decreases |r|
  {
    hide Variant, Upper, Lower, IsSpace, ALPHABET;
    if r != "" {
      assert r == [r[0]] + r[1..];
      if r[0] == ' ' || r[0] == '-' {
        Constants(r[0]);
        RenderingChars(r[1..], p);
      } else {
        VariantRead(r[0], p[0]);
        RenderingChars(r[1..], p[1..]);
      }
    }
  }

  // ----- What surrounds the payload -----

  /** The scheme in either case, with spaces put in. */
  predicate IsScheme(q: string) { Map(Upper, Filter(NotSpace, q)) == SCHEME }

  lemma SchemeChars(q: string)
    requires IsScheme(q)
    ensures forall c :: c in q && IsSpace(c) ==> c == ' '
  {
    hide IsSpace, Upper;
    FilterOnlyKept(NotSpace, q);
    MapIn(Upper, Filter(NotSpace, q));
    forall c | c in q && IsSpace(c) ensures c == ' ' {
      if c != ' ' {
        assert c in Filter(NotSpace, q);
        SpaceNotInScheme(c);
      }
    }
  }

  lemma SpaceNotInScheme(c: char)
    requires IsSpace(c)
    ensures Upper(c) !in SCHEME
  {
  }

  /** Spaces at the ends are cleaned away with the white space around. */
  lemma Surrounded(before: string, body: string, after: string)
    requires AllSpace(before) && AllSpace(after)
    requires forall c :: c in body && IsSpace(c) ==> c == ' '
    requires exists c :: c in body && !IsSpace(c)
    ensures Trim(before + body + after) != "" && Filter(NotSpace, Trim(before + body + after)) == Filter(NotSpace, body)
  {
    hide IsSpace, TrimLeft, TrimRight, Trim, Filter;
    var cut := TrimLeftCuts(body);
    var left := TrimLeft(body);
    var tuc := TrimRightCuts(left);
    var core := TrimRight(left);
    assert body == cut + core + tuc;
    assert core != "" && core[0] == left[0];
    assert before + body + after == (before + cut) + core + (tuc + after);
    TrimAround(before + cut, core, tuc + after);
    FilterNone(NotSpace, cut);
    FilterNone(NotSpace, tuc);
    FilterAppend(NotSpace, cut + core, tuc);
    FilterAppend(NotSpace, cut, core);
  }

  lemma SchemeChar(i: nat)
    requires i < 10
    ensures |SCHEME| == |PREFIX| == 10 && Lower(SCHEME[i]) == PREFIX[i] && Upper(PREFIX[i]) == SCHEME[i]
    ensures !IsSpace(PREFIX[i]) && PREFIX[i] != ' '
  {
  }

  lemma PrefixChars()
    ensures |PREFIX| == |SCHEME| == 10 && forall c :: c in PREFIX ==> !IsSpace(c) && c != ' '
  {
    hide IsSpace, PREFIX, SCHEME, Lower, Upper;
    SchemeChar(0);
    forall c | c in PREFIX ensures !IsSpace(c) && c != ' ' {
      var i :| 0 <= i < |PREFIX| && PREFIX[i] == c;
      SchemeChar(i);
    }
  }

  lemma SchemeLower()
    ensures Map(Lower, SCHEME) == PREFIX
  {
    hide Lower, Upper, Map, PREFIX, SCHEME;
    PrefixChars();
    forall i | 0 <= i < 10 ensures Map(Lower, SCHEME)[i] == PREFIX[i] {
      MapAt(Lower, SCHEME, i);
      SchemeChar(i);
    }
  }

  lemma PrefixIsScheme()
    ensures IsScheme(PREFIX)
  {
    hide Lower, Upper, Map, Filter, PREFIX, SCHEME, IsSpace;
    PrefixChars();
    FilterAll(NotSpace, PREFIX);
    forall i | 0 <= i < 10 ensures Map(Upper, PREFIX)[i] == SCHEME[i] {
      MapAt(Upper, PREFIX, i);
      SchemeChar(i);
    }
  }

  lemma NoColon(s: string)
    requires forall c :: c in s ==> c != ':' && Lower(c) != ':'
    ensures !(SCHEME <= s) && !(PREFIX <= Map(Lower, s))
  {
    if |s| >= 10 {
      MapAt(Lower, s, 9);
      assert s[9] in s;
      assert SCHEME[9] == ':' && PREFIX[9] == ':';
    }
  }

  lemma Upped(r: string, p: string)
    requires Renders(r, p) && forall c :: c in p ==> c in ALPHABET
    ensures forall c :: c in Map(Upper, Filter(NotSpace, r)) ==> c != ':' && Lower(c) != ':'
  {
    hide Variant, Upper, Lower, IsSpace, ALPHABET;
    RenderingChars(r, p);
    FilterOnlyKept(NotSpace, r);
    MapIn(Upper, Filter(NotSpace, r));
  }

  // ----- The theorems -----

  lemma EncodedLength(raw: seq<Octet>)
    requires |raw| >= FIXED + 4
    ensures |Text(Encode(raw))| >= 96
  {
    EncodeLength(raw);
  }

  /** What is left of a text after its white space is gone. */
  lemma SqueezedRendering(before: string, scheme: string, r: string, after: string, p: string)
    requires AllSpace(before) && AllSpace(after) && (scheme == "" || IsScheme(scheme))
    requires Renders(r, p) && p != "" && forall c :: c in p ==> c in ALPHABET
    ensures Trim(before + (scheme + r) + after) != ""
    ensures Squeezed(before + (scheme + r) + after)
      == (if scheme == "" then "" else SCHEME) + Map(Upper, Filter(NotSpace, r))
  {
    hide Variant, Upper, IsSpace, ALPHABET, NotSpace, Trim;
    RenderingChars(r, p);
    if scheme != "" {
      SchemeChars(scheme);
    }
    Surrounded(before, scheme + r, after);
    FilterAppend(NotSpace, scheme, r);
    MapAppend(Upper, Filter(NotSpace, scheme), Filter(NotSpace, r));
  }

  /** However a payload is written, with or without the scheme, both decoders read the bytes that
      were encoded, and never take it for a short code. */
  lemma RenderingDecodes(dec: Decoder, resolve: Resolver, dartResolve: DartResolver, raw: seq<Octet>,
                         before: string, scheme: string, r: string, after: string)
    requires Lawful(dec) && |raw| >= FIXED + 4
    requires AllSpace(before) && AllSpace(after) && (scheme == "" || IsScheme(scheme))
    requires Renders(r, Text(Encode(raw)))
    ensures GoDecode(dec, resolve, before + (scheme + r) + after) == Unmarshal(raw)
    ensures DartDecode(dartResolve, before + (scheme + r) + after)
      == match DartUnmarshal(raw) case Ok(d) => Ok(d) case Err(e) => Err(BadPayload(e))
  {
    hide Encode, Decode, Text, SymbolsIn, Unmarshal, DartUnmarshal, Clean, Squeezed, Upper, Lower, IsScheme, AllSpace, Renders, ALPHABET;
    var p := Text(Encode(raw));
    var s := Squeezed(before + (scheme + r) + after);
    var x := Map(Upper, Filter(NotSpace, r));
    EncodedLength(raw);
    TextInAlphabet(Encode(raw));
    SqueezedRendering(before, scheme, r, after, p);
    RenderingCleaned(r, p);
    SymbolsInText(Encode(raw));
    DecodeOfEncode(raw);
    if scheme == "" {
      assert s == x;
      Upped(r, p);
      NoColon(x);
      CleanTwice(x);
    } else {
      SchemeLower();
      MapAppend(Lower, SCHEME, x);
      assert s[PREFIX_LEN..] == x;
    }
  }

  /** Hyphens are gone already when the bare payload is cleaned. */
  lemma CleanTwice(x: string)
    ensures Clean(Filter(NotHyphen, x)) == Clean(x)
  {
    hide Upper, Norm;
    FilterOnlyKept(NotHyphen, x);
    FilterAll(NotHyphen, Filter(NotHyphen, x));
  }

  /** `Encode` in Go. */
  function GoEncode(inv: Invite): Result<string, Error> {
    match Marshal(inv, true) case Err(e) => Err(e) case Ok(raw) => Ok(PREFIX + Text(Encode(raw)))
  }

  lemma {:induction false} RendersItself(p: string)
    requires forall c :: c in p ==> c in ALPHABET
    ensures Renders(p, p)
  {
    hide ALPHABET, Upper;
    if p != "" {
      CharPlain(p[0]);
      RendersItself(p[1..]);
    }
  }

  lemma MarshalledLength(inv: Invite)
    requires Marshal(inv, true).Ok?
    ensures |Marshal(inv, true).value| >= FIXED + 4
  {
    hide Body, Crc, BE32;
    FieldsOfBody(inv);
  }

  /** Decoding the blob of an invite gives its canonical form. */
  lemma GoTextRoundTrip(dec: Decoder, resolve: Resolver, inv: Invite)
    requires Lawful(dec) && GoEncode(inv).Ok?
    ensures GoDecode(dec, resolve, GoEncode(inv).value) == if Unspecified(inv) then Err(ErrNoIPv6) else Ok(Canonical(inv))
  {
    hide Unmarshal, Marshal, Canonical, Unspecified, GoDecode, IsScheme, ALPHABET, Renders, Text, Encode;
    var raw := Marshal(inv, true).value;
    var p := Text(Encode(raw));
    MarshalledLength(inv);
    TextInAlphabet(Encode(raw));
    RendersItself(p);
    PrefixIsScheme();
    RenderingDecodes(dec, resolve, _ => None, raw, "", PREFIX, p, "");
    assert "" + (PREFIX + p) + "" == PREFIX + p;
    RoundTrip(inv);
  }

  /** `encode` in Dart. */
  function DartEncode(d: DartInvite): Result<string, DartError> {
    match DartMarshal(d, true) case Err(e) => Err(e) case Ok(raw) => Ok(PREFIX + Text(Encode(raw)))
  }

  /** Decoding the blob that the Dart codec made. */
  lemma DartTextRoundTrip(resolve: DartResolver, d: DartInvite)
    requires DartEncode(d).Ok?
    ensures DartDecode(resolve, DartEncode(d).value)
      == if LowOctet(d.version) != 1 then Err(BadPayload(BadVersion))
         else if !Utf8.Valid(CutName(d.name)) then Err(BadPayload(BadName))
         else Ok(DartCanonical(d))
  {
    hide DartUnmarshal, DartMarshal, DartDecode, Decode, Encode, Text, DartCanonical, LowOctet, Utf8.Valid;
    var raw := DartMarshal(d, true).value;
    DartRoundTrip(d);
    DecodeOfEncode(raw);
    DartDecodeText(resolve, Encode(raw));
  }

  /** One character of a payload replaced by another of the alphabet: the Dart codec reads the same
      bytes, or finds the checksum wrong. */
  lemma TypoIsCaught(resolve: DartResolver, raw: seq<Octet>, k: nat, s: Symbol)
    requires ChecksumHolds(raw) && k < |Text(Encode(raw))|
    ensures var typo := PREFIX + Text(Encode(raw))[k := CharOf(s)];
            || DartDecode(resolve, typo) == DartDecode(resolve, PREFIX + Text(Encode(raw)))
            || DartDecode(resolve, typo) == Err(BadPayload(BadChecksum))
  {
    hide DartUnmarshal, Encode, Decode, SymbolsIn, CharOf, DartDecode, ChecksumHolds, Unmarshal, Text;
    var syms := Encode(raw);
    SubstitutionIsCaught(raw, k, s);
    TextUpdate(syms, k, s);
    DecodeOfEncode(raw);
    DartDecodeText(resolve, syms);
    DartDecodeText(resolve, syms[k := s]);
    BothFindChecksumWrong(Decode(syms[k := s]));
  }

  lemma TextUpdate(syms: seq<Symbol>, k: nat, s: Symbol)
    requires k < |syms|
    ensures Text(syms[k := s]) == Text(syms)[k := CharOf(s)]
  {
    hide CharOf;
  }

  lemma BothFindChecksumWrong(raw: seq<Octet>)
    ensures Unmarshal(raw) == Err(ErrChecksum) ==> DartUnmarshal(raw) == Err(BadChecksum)
  {
    hide Crc, U32, Fields, Reachable, DartFields;
  }

  /** The Dart codec on the text of any symbols, behind the scheme. */
  lemma DartDecodeText(resolve: DartResolver, syms: seq<Symbol>)
    ensures DartDecode(resolve, PREFIX + Text(syms))
      == match DartUnmarshal(Decode(syms)) case Ok(d) => Ok(d) case Err(e) => Err(BadPayload(e))
  {
    hide Decode, Text, SymbolsIn, DartUnmarshal, Clean, Upper, Lower, Renders, ALPHABET, Trim, IsSpace;
    var p := Text(syms);
    TextInAlphabet(syms);
    RendersItself(p);
    RenderingCleaned(p, p);
    SymbolsInText(syms);
    SqueezedText(p);
    assert Squeezed(PREFIX + p)[PREFIX_LEN..] == Map(Upper, Filter(NotSpace, p));
  }

  lemma SqueezedText(p: string)
    requires forall c :: c in p ==> c in ALPHABET
    ensures Trim(PREFIX + p) != "" && Squeezed(PREFIX + p) == SCHEME + Map(Upper, Filter(NotSpace, p))
  {
    hide Upper, Renders, ALPHABET, Trim, IsSpace, Filter, Map, PREFIX, SCHEME;
    PrefixIsScheme();
    PrefixChars();
    TextChars(p);
    assert "" + (PREFIX + p) + "" == PREFIX + p;
    assert PREFIX[0] in PREFIX + p;
    Surrounded("", PREFIX + p, "");
    FilterAppend(NotSpace, PREFIX, p);
    MapAppend(Upper, Filter(NotSpace, PREFIX), Filter(NotSpace, p));
  }

  lemma TextChars(p: string)
    requires forall c :: c in p ==> c in ALPHABET
    ensures forall c :: c in p ==> !IsSpace(c)
  {
    hide IsSpace, ALPHABET;
    forall c | c in p ensures !IsSpace(c) {
      CharPlain(c);
    }
  }

  // ----- Which texts are empty, and which go to a resolver -----

  /** Only a text of white space alone is empty, in both codecs. */
  lemma EmptyIff(dec: Decoder, resolve: Resolver, dartResolve: DartResolver, text: string)
    ensures GoDecode(dec, resolve, text) == Err(ErrEmpty) <==> AllSpace(text)
    ensures DartDecode(dartResolve, text) == Err(EmptyText) <==> AllSpace(text)
  {
    hide Trim, AllSpace, Squeezed, Clean, Decode, SymbolsIn, IsShortCode, DartUnmarshal, Unmarshal;
    TrimmedAway(text);
    NeverEmptyError();
  }

  lemma NeverEmptyError()
    ensures forall raw :: Unmarshal(raw) != Err(ErrEmpty)
  {
    hide Crc, U32, Fields, Reachable;
  }

  /** A resolver decides at most about ten letters of the alphabet, and never about what stands behind
      the scheme: what else two resolvers answer does not matter, in either codec. */
  lemma OnlyCodesAreResolved(dec: Decoder, a: Resolver, b: Resolver, text: string) returns (code: string)
    requires GoDecode(dec, a, text) != GoDecode(dec, b, text)
    ensures |code| == 10 && (forall c :: c in code ==> CrockfordLetter(c)) && a(code) != b(code)
    ensures code == Filter(NotHyphen, Squeezed(text)) && !(SCHEME <= Squeezed(text))
  {
    hide Trim, Squeezed, Clean, Unmarshal, CrockfordLetter, ALPHABET;
    code := Filter(NotHyphen, Squeezed(text));
    LettersOf(code);
  }

  lemma OnlyCodesAreResolvedInDart(a: DartResolver, b: DartResolver, text: string) returns (code: string)
    requires DartDecode(a, text) != DartDecode(b, text)
    ensures |code| == 10 && (forall c :: c in code ==> CrockfordLetter(c)) && a(code) != b(code)
    ensures code == Filter(NotHyphen, Squeezed(text)) && !(SCHEME <= Squeezed(text))
  {
    hide Trim, Squeezed, Clean, Decode, SymbolsIn, DartUnmarshal, CrockfordLetter, ALPHABET;
    code := Filter(NotHyphen, Squeezed(text));
    LettersOf(code);
  }

  lemma LettersOf(code: string)
    ensures (forall c :: c in code ==> c in ALPHABET) ==> forall c :: c in code ==> CrockfordLetter(c)
  {
    hide ALPHABET, CrockfordLetter;
    forall c | c in ALPHABET ensures CrockfordLetter(c) {
      var i :| 0 <= i < |ALPHABET| && ALPHABET[i] == c;
      AlphabetSize();
      AlphabetSound(i as Symbol);
    }
  }

  /** A blob, of either codec, is the scheme in lower case and letters of the alphabet, which decode to
      the bytes; and this is a way of writing the scheme. */
  lemma BlobShape(inv: Invite, d: DartInvite)
    ensures GoEncode(inv).Ok? ==>
      && "starmesh1:" <= GoEncode(inv).value
      && Decode(SymbolsIn(GoEncode(inv).value[10..])) == Marshal(inv, true).value
    ensures DartEncode(d).Ok? ==>
      && "starmesh1:" <= DartEncode(d).value
      && Decode(SymbolsIn(DartEncode(d).value[10..])) == DartMarshal(d, true).value
    ensures IsScheme("starmesh1:")
  {
    hide Marshal, DartMarshal, Encode, Decode, Text, SymbolsIn;
    if GoEncode(inv).Ok? {
      var raw := Marshal(inv, true).value;
      assert GoEncode(inv).value[10..] == Text(Encode(raw));
      SymbolsInText(Encode(raw));
      DecodeOfEncode(raw);
    }
    if DartEncode(d).Ok? {
      var raw := DartMarshal(d, true).value;
      assert DartEncode(d).value[10..] == Text(Encode(raw));
      SymbolsInText(Encode(raw));
      DecodeOfEncode(raw);
    }
    PrefixIsScheme();
  }

  /** Letters that the library refuses are a text error, behind the scheme and without it. */
  lemma RefusedText(dec: Decoder, resolve: Resolver, text: string)
    requires !AllSpace(text)
    ensures SCHEME <= Squeezed(text) && dec(Clean(Squeezed(text)[10..])) == None ==> GoDecode(dec, resolve, text) == Err(ErrText)
    ensures !(PREFIX <= Map(Lower, Squeezed(text))) && !(SCHEME <= Squeezed(text))
      && !IsShortCode(Filter(NotHyphen, Squeezed(text))) && dec(Clean(Filter(NotHyphen, Squeezed(text)))) == None
      ==> GoDecode(dec, resolve, text) == Err(ErrText)
  {
    hide Trim, AllSpace, Squeezed, Clean, Unmarshal, IsShortCode;
    TrimmedAway(text);
  }
}
