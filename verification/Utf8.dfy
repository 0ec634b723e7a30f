/** Well-formed UTF-8, as Dart's `utf8.decode` accepts it, and what cutting it at a byte does. */
module Utf8 {
  import opened Octets

  const BOM: seq<Octet> := [0xef, 0xbb, 0xbf]

  /** A byte that continues a character. */
  predicate Continues(b: Octet) { 0x80 <= b <= 0xbf }

  /** How many bytes the character takes that starts with this byte, and 0 for no character. */
  function LeadLength(b: Octet): (n: nat)
    ensures n <= 4
  {
    if b <= 0x7f then 1
    else if 0xc2 <= b <= 0xdf then 2
    else if 0xe0 <= b <= 0xef then 3
    else if 0xf0 <= b <= 0xf4 then 4
    else 0
  }

  /** The second byte leaves out longer forms than needed, surrogates, and what is past U+10FFFF. */
  predicate SecondFits(a: Octet, b: Octet) {
    && Continues(b)
    && (a == 0xe0 ==> b >= 0xa0)
    && (a == 0xed ==> b <= 0x9f)
    && (a == 0xf0 ==> b >= 0x90)
    && (a == 0xf4 ==> b <= 0x8f)
  }

  /** The first n bytes are one character. */
  predicate StartsWithChar(s: seq<Octet>, n: nat) {
    && 1 <= n <= |s|
    && n == LeadLength(s[0])
    && (n > 1 ==> SecondFits(s[0], s[1]))
    && (n > 2 ==> Continues(s[2]))
    && (n > 3 ==> Continues(s[3]))
  }

  predicate Valid(s: seq<Octet>) {
    if s == [] then true
    else var n := LeadLength(s[0]); StartsWithChar(s, n) && Valid(s[n..])
  }

  /** What is left of a string when its bytes have been decoded: a byte order mark in front of the
      others is dropped. */
  function WithoutBom(s: seq<Octet>): seq<Octet> { if BOM <= s then s[3..] else s }

  lemma LeadDoesNotContinue(b: Octet)
    ensures LeadLength(b) > 0 ==> !Continues(b)
  {
  }

  /** A string cut at a byte is well formed exactly when the cut does not fall inside a character,
      which is to say when the first byte cut off does not continue one. */
  lemma {:induction false} CutIsValid(s: seq<Octet>, n: nat)
    requires Valid(s) && n < |s|
    ensures Valid(s[..n]) <==> !Continues(s[n])
    decreases |s|
  {
    hide SecondFits, Continues, LeadLength;
    LeadDoesNotContinue(s[0]);
    var l := LeadLength(s[0]);
    if n >= l {
      CutIsValid(s[l..], n - l);
      assert s[..n][l..] == s[l..][..n - l];
      assert s[l..][n - l] == s[n];
    } else if n > 0 {
      SecondContinues(s[0], s[1]);
      assert s[..n][0] == s[0];
    }
  }

  lemma SecondContinues(a: Octet, b: Octet)
    ensures SecondFits(a, b) ==> Continues(b)
  {
  }

  // ----- Well-formed means spelling characters -----

  /** A code point of a character. */
  predicate Scalar(cp: nat) { cp < 0xd800 || 0xe000 <= cp < 0x11_0000 }

  /** The bytes of a character, as numbers (section 3 of RFC 3629). */
  function Spelled(cp: nat): (v: seq<nat>)
    requires Scalar(cp)
    ensures 1 <= |v| <= 4
  {
    if cp < 0x80 then [cp]
    else if cp < 0x800 then [0xc0 + cp / 64, 0x80 + cp % 64]
    else if cp < 0x1_0000 then [0xe0 + cp / 4096, 0x80 + cp / 64 % 64, 0x80 + cp % 64]
    else [0xf0 + cp / 0x4_0000, 0x80 + cp / 4096 % 64, 0x80 + cp / 64 % 64, 0x80 + cp % 64]
  }

  ghost predicate AllScalar(cps: seq<nat>) { forall cp :: cp in cps ==> Scalar(cp) }

  function SpelledAll(cps: seq<nat>): seq<nat>
    requires AllScalar(cps)
  {
    if cps == [] then [] else Spelled(cps[0]) + SpelledAll(cps[1..])
  }

  function Values(s: seq<Octet>): (v: seq<nat>)
    ensures |v| == |s| && forall i :: 0 <= i < |s| ==> v[i] == s[i] as nat
  {
    seq(|s|, i requires 0 <= i < |s| => s[i] as nat)
  }

  function LeadOf(v: nat): nat {
    if v <= 0x7f then 1 else if 0xc2 <= v <= 0xdf then 2 else if 0xe0 <= v <= 0xef then 3 else if 0xf0 <= v <= 0xf4 then 4 else 0
  }

  predicate MoreOf(v: nat) { 0x80 <= v <= 0xbf }

  predicate SecondOf(u: nat, v: nat) {
    MoreOf(v) && (u == 0xe0 ==> v >= 0xa0) && (u == 0xed ==> v <= 0x9f) && (u == 0xf0 ==> v >= 0x90) && (u == 0xf4 ==> v <= 0x8f)
  }

  lemma LeadByValue(b: Octet)
    ensures LeadLength(b) == LeadOf(b as nat)
  {
  }

  lemma MoreByValue(b: Octet)
    ensures Continues(b) <==> MoreOf(b as nat)
  {
  }

  lemma SecondByValue(a: Octet, b: Octet)
    ensures SecondFits(a, b) <==> SecondOf(a as nat, b as nat)
  {
    hide Continues, MoreOf;
    MoreByValue(b);
    LeadsByValue(a);
    BoundsByValue(b);
  }

  lemma LeadsByValue(a: Octet)
    ensures (a == 0xe0 <==> a as nat == 0xe0) && (a == 0xed <==> a as nat == 0xed)
    ensures (a == 0xf0 <==> a as nat == 0xf0) && (a == 0xf4 <==> a as nat == 0xf4)
  {
  }

  lemma BoundsByValue(b: Octet)
    ensures (b >= 0xa0 <==> b as nat >= 0xa0) && (b <= 0x9f <==> b as nat <= 0x9f)
    ensures (b >= 0x90 <==> b as nat >= 0x90) && (b <= 0x8f <==> b as nat <= 0x8f)
  {
  }

  /** One character in numbers. */
  predicate CharOf(v: seq<nat>) {
    && |v| >= 1 && |v| == LeadOf(v[0])
    && (|v| > 1 ==> SecondOf(v[0], v[1]))
    && (|v| > 2 ==> MoreOf(v[2]))
    && (|v| > 3 ==> MoreOf(v[3]))
  }

  lemma Digits(w: nat, z: nat)
    requires z < 64
    ensures (64 * w + z) / 64 == w && (64 * w + z) % 64 == z
  {
  }

  lemma DigitByDigit(n: nat)
    ensures n / 4096 == n / 64 / 64 && n / 0x4_0000 == n / 64 / 64 / 64
  {
  }

  lemma SpelledIsChar(cp: nat)
    requires Scalar(cp)
    ensures CharOf(Spelled(cp))
  {
    DigitByDigit(cp);
    if 0x800 <= cp < 0x1_0000 {
      ThreeSpelled(cp);
    } else if cp >= 0x1_0000 {
      FourSpelled(cp);
    }
  }

  lemma ThreeSpelled(cp: nat)
    requires Scalar(cp) && 0x800 <= cp < 0x1_0000
    ensures 0xe0 <= 0xe0 + cp / 4096 <= 0xef && SecondOf(0xe0 + cp / 4096, 0x80 + cp / 64 % 64)
  {
    var w := cp / 64;
    DigitByDigit(cp);
    assert w == 64 * (w / 64) + w % 64 && 0x20 <= w < 0x400 && !(0x360 <= w < 0x380);
  }

  lemma FourSpelled(cp: nat)
    requires Scalar(cp) && cp >= 0x1_0000
    ensures 0xf0 <= 0xf0 + cp / 0x4_0000 <= 0xf4 && SecondOf(0xf0 + cp / 0x4_0000, 0x80 + cp / 4096 % 64)
  {
    var w := cp / 4096;
    DigitByDigit(cp);
    assert w == 64 * (w / 64) + w % 64 && 0x10 <= w < 0x110;
  }

  lemma CharIsSpelled(v: seq<nat>) returns (cp: nat)
    requires CharOf(v)
    ensures Scalar(cp) && Spelled(cp) == v
  {
    if |v| == 1 {
      cp := v[0];
    } else if |v| == 2 {
      cp := TwoBytes(v);
    } else if |v| == 3 {
      cp := ThreeBytes(v);
    } else {
      cp := FourBytes(v);
    }
  }

  lemma TwoBytes(v: seq<nat>) returns (cp: nat)
    requires CharOf(v) && |v| == 2
    ensures Scalar(cp) && Spelled(cp) == v
  {
    cp := 64 * (v[0] - 0xc0) + (v[1] - 0x80);
    Digits(v[0] - 0xc0, v[1] - 0x80);
  }

  lemma ThreeBytes(v: seq<nat>) returns (cp: nat)
    requires CharOf(v) && |v| == 3
    ensures Scalar(cp) && Spelled(cp) == v
  {
    var w := 64 * (v[0] - 0xe0) + (v[1] - 0x80);
    cp := 64 * w + (v[2] - 0x80);
    Digits(v[0] - 0xe0, v[1] - 0x80);
    Digits(w, v[2] - 0x80);
    DigitByDigit(cp);
    assert 0x20 <= w < 0x400 && !(0x360 <= w < 0x380);
    assert 0x800 <= cp < 0x1_0000;
  }

  lemma FourBytes(v: seq<nat>) returns (cp: nat)
    requires CharOf(v) && |v| == 4
    ensures Scalar(cp) && Spelled(cp) == v
  {
    var x := 64 * (v[0] - 0xf0) + (v[1] - 0x80);
    var w := 64 * x + (v[2] - 0x80);
    cp := 64 * w + (v[3] - 0x80);
    Digits(v[0] - 0xf0, v[1] - 0x80);
    Digits(x, v[2] - 0x80);
    Digits(w, v[3] - 0x80);
    DigitByDigit(cp);
    assert 0x10 <= x < 0x110;
    assert 0x1_0000 <= cp < 0x11_0000;
  }

  lemma StartByValues(s: seq<Octet>, n: nat)
    requires 1 <= n <= |s|
    ensures StartsWithChar(s, n) <==> CharOf(Values(s[..n]))
  {
    hide LeadLength, SecondFits, Continues, LeadOf, SecondOf, MoreOf;
    LeadByValue(s[0]);
    var v := Values(s[..n]);
    assert v[0] == s[0] as nat;
    if n > 1 {
      SecondByValue(s[0], s[1]);
      assert v[1] == s[1] as nat;
    }
    if n > 2 {
      MoreByValue(s[2]);
      assert v[2] == s[2] as nat;
    }
    if n > 3 {
      MoreByValue(s[3]);
      assert v[3] == s[3] as nat;
    }
  }

  /** A well-formed string spells characters. */
  lemma {:induction false} ValidSpells(s: seq<Octet>) returns (cps: seq<nat>)
    requires Valid(s)
    ensures AllScalar(cps) && SpelledAll(cps) == Values(s)
    decreases |s|
  {
    hide StartsWithChar, LeadLength, Spelled, CharOf, Scalar;
    if s == [] {
      cps := [];
    } else {
      var n := LeadLength(s[0]);
      StartLength(s, n);
      StartByValues(s, n);
      var cp := CharIsSpelled(Values(s[..n]));
      var rest := ValidSpells(s[n..]);
      cps := [cp] + rest;
      assert cps[1..] == rest;
      assert Values(s) == Values(s[..n]) + Values(s[n..]);
    }
  }

  lemma StartLength(s: seq<Octet>, n: nat)
    requires s != [] && StartsWithChar(s, n)
    ensures 1 <= n <= |s| && n == LeadLength(s[0])
  {
  }

  /** And what spells characters is well-formed. */
  lemma {:induction false} SpellsValid(s: seq<Octet>, cps: seq<nat>)
    requires AllScalar(cps) && SpelledAll(cps) == Values(s)
    ensures Valid(s)
    decreases |cps|
  {
    hide StartsWithChar, LeadLength, Spelled, CharOf, Scalar;
    if cps == [] {
      assert s == [];
    } else {
      var v := Spelled(cps[0]);
      var n := |v|;
      SpelledIsChar(cps[0]);
      assert Values(s[..n]) == Values(s)[..n] == v;
      StartByValues(s, n);
      StartLength(s, n);
      assert Values(s[n..]) == Values(s)[n..] == SpelledAll(cps[1..]);
      SpellsValid(s[n..], cps[1..]);
    }
  }

  /** A byte string is well formed exactly if it spells a sequence of characters. */
  lemma ValidIff(s: seq<Octet>)
    ensures Valid(s) <==> exists cps :: AllScalar(cps) && SpelledAll(cps) == Values(s)
  {
    hide Valid, SpelledAll, AllScalar;
    if Valid(s) {
      var cps := ValidSpells(s);
    } else if cps :| AllScalar(cps) && SpelledAll(cps) == Values(s) {
      SpellsValid(s, cps);
    }
  }

  /** What is dropped at the front is the character U+FEFF. */
  lemma BomIsSpelled(s: seq<Octet>)
    ensures Values(BOM) == Spelled(0xfeff)
    ensures WithoutBom(BOM + s) == s && (!(BOM <= s) ==> WithoutBom(s) == s)
  {
    assert Values(BOM) == [0xef, 0xbb, 0xbf];
  }
}
