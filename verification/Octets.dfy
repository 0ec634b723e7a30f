/** Bytes as bit vectors, Go strings (which are byte strings), and big-endian words. */
module Octets {
  type Octet = bv8

  type GoString = seq<Octet>

  /** A byte as a number, and a number cut to a byte. */
  function Value(b: Octet): (n: nat)
    ensures n < 256
  {
    b as nat
  }

  function OctetOf(n: nat): Octet
    requires n < 256
  {
    n as Octet
  }

  lemma ValueOfOctet(n: nat)
    requires n < 256
    ensures Value(OctetOf(n)) == n
  {
    IntOfOctet(n);
  }

  lemma OctetOfValue(b: Octet)
    ensures OctetOf(Value(b)) == b
  {
    OctetOfInt(b);
  }

  lemma OctetOfInt(b: Octet)
    ensures 0 <= b as int < 256 && (b as int) as Octet == b
  {
  }

  lemma NextOctet(b: Octet)
    requires b < 255
    ensures (b + 1) as nat == b as nat + 1
  {
  }

  lemma {:induction false} OctetWithValue(n: nat) returns (b: Octet)
    requires n < 256
    ensures b as nat == n
  {
    if n == 0 {
      b := 0;
    } else {
      var c := OctetWithValue(n - 1);
      NextOctet(c);
      b := c + 1;
    }
  }

  lemma IntOfOctet(n: nat)
    requires n < 256
    ensures (n as Octet) as nat == n
  {
    var b := OctetWithValue(n);
    OctetOfInt(b);
  }

  /** The two bytes of a 16-bit word, most significant first. */
  function BE16(w: bv16): (s: seq<Octet>)
    ensures |s| == 2
  {
    [(w >> 8) as Octet, (w & 0xff) as Octet]
  }

  function U16(a: Octet, b: Octet): bv16 { ((a as bv16) << 8) | (b as bv16) }

  lemma U16OfBE16(w: bv16)
    ensures U16(BE16(w)[0], BE16(w)[1]) == w
  {
  }

  lemma BE16OfU16(a: Octet, b: Octet)
    ensures BE16(U16(a, b)) == [a, b]
  {
  }

  /** The four bytes of a 32-bit word, most significant first. */
  function BE32(w: bv32): (s: seq<Octet>)
    ensures |s| == 4
  {
    [(w >> 24) as Octet, ((w >> 16) & 0xff) as Octet, ((w >> 8) & 0xff) as Octet, (w & 0xff) as Octet]
  }

  function U32(s: seq<Octet>): bv32
    requires |s| == 4
  {
    Word32(s[0], s[1], s[2], s[3])
  }

  function Word32(a: Octet, b: Octet, c: Octet, d: Octet): bv32 {
    ((a as bv32) << 24) | ((b as bv32) << 16) | ((c as bv32) << 8) | (d as bv32)
  }

  lemma U32OfBE32(w: bv32)
    ensures U32(BE32(w)) == w
  {
  }

  lemma BE32OfU32(s: seq<Octet>)
    requires |s| == 4
    ensures BE32(U32(s)) == s
  {
    hide BE32, Word32;
    BE32OfBytes(s[0], s[1], s[2], s[3]);
    assert s == [s[0], s[1], s[2], s[3]];
  }

  lemma BE32OfBytes(a: Octet, b: Octet, c: Octet, d: Octet)
    ensures BE32(Word32(a, b, c, d)) == [a, b, c, d]
  {
  }

  lemma DoubleWord(w: bv32)
    requires w <= 0x7fff_ffff
    ensures (w << 1) as nat == 2 * (w as nat)
    ensures ((w << 1) | 1) as nat == 2 * (w as nat) + 1
  {
  }

  lemma SmallWord(w: bv32)
    requires (w as nat) < 0x8000_0000
    ensures w <= 0x7fff_ffff
  {
  }

  lemma {:induction false} WordWithValue(n: nat) returns (w: bv32)
    requires n < TWO32
    ensures w as nat == n
  {
    if n == 0 {
      w := 0;
    } else {
      var v := WordWithValue(n / 2);
      SmallWord(v);
      DoubleWord(v);
      w := if n % 2 == 0 then v << 1 else (v << 1) | 1;
    }
  }

  lemma WordOfNat(w: bv32)
    ensures (w as nat) as bv32 == w
  {
  }

  /** Different numbers below 2^32 are different words. */
  lemma WordsInjective(m: nat, n: nat)
    requires m < TWO32 && n < TWO32 && m as bv32 == n as bv32
    ensures m == n
  {
    var v := WordWithValue(m);
    var w := WordWithValue(n);
    WordOfNat(v);
    WordOfNat(w);
  }

  const TWO32 := 0x1_0000_0000

  function WordValue(w: bv32): (n: nat)
    ensures n < TWO32
  {
    w as nat
  }

  /** The lowest 32 bits of an integer. */
  function LowWord(n: int): bv32 { (n % TWO32) as bv32 }

  lemma ValueOfLowWord(n: int)
    ensures WordValue(LowWord(n)) == n % TWO32
  {
    var w := WordWithValue(n % TWO32);
    WordOfNat(w);
  }

  lemma LowWordOfValue(w: bv32)
    ensures LowWord(WordValue(w)) == w
  {
    WordOfNat(w);
  }

  /** Four bytes read back give the number modulo 2^32. */
  lemma NumberRead(n: int)
    ensures WordValue(U32(BE32(LowWord(n)))) == n % TWO32
  {
    hide U32, BE32;
    U32OfBE32(LowWord(n));
    ValueOfLowWord(n);
  }

  // ----- What the bytes spell -----

  /** The number that bytes spell, most significant first. */
  function Number(s: seq<Octet>): nat {
    if s == [] then 0 else 256 * Number(s[..|s| - 1]) + s[|s| - 1] as nat
  }

  lemma ShiftedWord(w: bv32)
    requires w <= 0xff_ffff
    ensures (w << 8) as nat == 256 * w as nat
  {
  }

  lemma FilledWord(w: bv32, b: Octet)
    requires w & 0xff == 0
    ensures (w | b as bv32) as nat == w as nat + (b as bv32) as nat
  {
  }

  lemma WidenedOctet(b: Octet)
    ensures (b as bv32) as nat == b as nat
  {
  }

  lemma LowByteFree(w: bv32)
    ensures (w << 8) & 0xff == 0
  {
  }

  lemma AppendedOctet(w: bv32, b: Octet)
    requires w <= 0xff_ffff
    ensures ((w << 8) | b as bv32) as nat == 256 * w as nat + b as nat
  {
    ShiftedWord(w);
    LowByteFree(w);
    FilledWord(w << 8, b);
    WidenedOctet(b);
  }

  lemma WordByBytes(a: Octet, b: Octet, c: Octet, d: Octet)
    ensures var ab := ((a as bv32) << 8) | b as bv32; var abc := (ab << 8) | c as bv32;
      && a as bv32 <= 0xff_ffff && ab <= 0xff_ffff && abc <= 0xff_ffff
      && Word32(a, b, c, d) == (abc << 8) | d as bv32
  {
  }

  lemma NumberAppended(s: seq<Octet>, b: Octet)
    ensures Number(s + [b]) == 256 * Number(s) + b as nat
  {
    assert (s + [b])[..|s|] == s;
  }

  /** A 32-bit word is read from its bytes most significant first. */
  lemma WordNumber(a: Octet, b: Octet, c: Octet, d: Octet)
    ensures WordValue(Word32(a, b, c, d)) == Number([a, b, c, d])
  {
    hide Word32, Number;
    WordByBytes(a, b, c, d);
    var ab := ((a as bv32) << 8) | b as bv32;
    var abc := (ab << 8) | c as bv32;
    WidenedOctet(a);
    AppendedOctet(a as bv32, b);
    AppendedOctet(ab, c);
    AppendedOctet(abc, d);
    NumberOfFour(a, b, c, d);
  }

  lemma NumberOfFour(a: Octet, b: Octet, c: Octet, d: Octet)
    ensures Number([a, b, c, d]) == 256 * (256 * (256 * a as nat + b as nat) + c as nat) + d as nat
    ensures Number([c, d]) == 256 * c as nat + d as nat
  {
    hide Number;
    NumberOfOne(a);
    NumberOfOne(c);
    NumberAppended([a], b);
    NumberAppended([a, b], c);
    NumberAppended([a, b, c], d);
    NumberAppended([c], d);
    assert [a] + [b] == [a, b] && [a, b] + [c] == [a, b, c] && [a, b, c] + [d] == [a, b, c, d] && [c] + [d] == [c, d];
  }

  lemma NumberOfOne(b: Octet)
    ensures Number([b]) == b as nat
  {
    assert [b][..0] == [];
  }

  /** And written so. */
  lemma NumberOfBE32(w: bv32)
    ensures Number(BE32(w)) == w as nat
  {
    hide Number, BE32, Word32;
    var s := BE32(w);
    U32OfBE32(w);
    WordNumber(s[0], s[1], s[2], s[3]);
    assert s == [s[0], s[1], s[2], s[3]];
  }

  lemma NumberOfLowWord(n: int)
    ensures Number(BE32(LowWord(n))) == n % TWO32
  {
    hide Number, BE32, LowWord;
    NumberOfBE32(LowWord(n));
    ValueOfLowWord(n);
  }

  lemma WordOfBytes(s: seq<Octet>)
    requires |s| == 4
    ensures WordValue(U32(s)) == Number(s)
  {
    hide Word32, Number;
    WordNumber(s[0], s[1], s[2], s[3]);
    assert s == [s[0], s[1], s[2], s[3]];
  }

  /** A 16-bit word as a number. */
  function PortValue(w: bv16): (n: nat) { w as nat }

  lemma WordOfPort(p: bv16)
    ensures (p as nat) as bv16 == p && (p as nat) < 0x1_0000
  {
  }

  lemma PortsInjective(p: bv16, q: bv16)
    requires PortValue(p) == PortValue(q)
    ensures p == q
  {
    WordOfPort(p);
    WordOfPort(q);
  }

  lemma ShiftedPort(w: bv16)
    requires w <= 0xff
    ensures PortValue(w << 8) == 256 * PortValue(w)
  {
  }

  lemma FilledPort(w: bv16, b: Octet)
    requires w & 0xff == 0
    ensures PortValue(w | b as bv16) == PortValue(w) + PortValue(b as bv16)
  {
  }

  lemma PortOctet(b: Octet)
    ensures PortValue(b as bv16) == b as nat
  {
  }

  lemma PortOctets(a: Octet, b: Octet)
    ensures a as bv16 <= 0xff && b as bv16 <= 0xff && ((a as bv16) << 8) & 0xff == 0
  {
  }

  lemma PortByBytes(a: Octet, b: Octet)
    ensures PortValue(U16(a, b)) == 256 * a as nat + b as nat
  {
    hide PortValue;
    PortOctets(a, b);
    PortOctet(a);
    PortOctet(b);
    ShiftedPort(a as bv16);
    FilledPort((a as bv16) << 8, b);
  }

  lemma NumberOfBE16(w: bv16)
    ensures Number(BE16(w)) == w as nat
  {
    hide Number, BE16, U16;
    var s := BE16(w);
    U16OfBE16(w);
    PortByBytes(s[0], s[1]);
    NumberOfFour(0, 0, s[0], s[1]);
    assert s == [s[0], s[1]];
  }

  lemma NumberOfSum(s: seq<Octet>, t: seq<Octet>)
    requires |t| == 4
    ensures Number(s + t) == TWO32 * Number(s) + Number(t)
  {
    hide Number;
    var a, b, c, d := t[0], t[1], t[2], t[3];
    NumberAppended(s, a);
    NumberAppended(s + [a], b);
    NumberAppended(s + [a] + [b], c);
    NumberAppended(s + [a] + [b] + [c], d);
    assert s + t == s + [a] + [b] + [c] + [d] && t == [a, b, c, d];
    NumberOfFour(a, b, c, d);
  }
}
