/** Base32 with the Crockford alphabet and no padding: the bit strings of section 6 of RFC 4648,
    and the loops of the Dart codec over a 64-bit accumulator that is never masked
    (invite/dart/lib/invite.dart). On the signed integers of the Dart virtual machine a shift to
    the left wraps around, a shift to the right is a division rounding down, and masking with
    2^k - 1 is the remainder modulo 2^k. */
module Base32 {
  import opened Octets
  import opened Strings

  newtype Symbol = n: int | 0 <= n < 32

  // ----- Bit strings, most significant bit first -----

  /** The n lowest bits of v. */
  function IntBits(v: int, n: nat): (m: seq<bool>)
    ensures |m| == n
    decreases n
  {
    if n == 0 then [] else IntBits(v / 2, n - 1) + [v % 2 == 1]
  }

  function BitsValue(m: seq<bool>): nat {
    if m == [] then 0 else 2 * BitsValue(m[..|m| - 1]) + (if m[|m| - 1] then 1 else 0)
  }

  function OctetBits(b: Octet): (m: seq<bool>)
    ensures |m| == 8
  {
    IntBits(b as int, 8)
  }

  function SymbolBits(s: Symbol): (m: seq<bool>)
    ensures |m| == 5
  {
    IntBits(s as int, 5)
  }

  lemma {:induction false} IntBitsOfValue(m: seq<bool>)
    ensures IntBits(BitsValue(m), |m|) == m
    decreases |m|
  {
    if m != [] {
      IntBitsOfValue(m[..|m| - 1]);
    }
  }

  function Pow2(n: nat): (p: nat)
    ensures p > 0
  {
    if n == 0 then 1 else 2 * Pow2(n - 1)
  }

  lemma {:induction false} ValueOfIntBits(v: int, n: nat)
    ensures BitsValue(IntBits(v, n)) == v % Pow2(n)
    decreases n
  {
    if n > 0 {
      ValueOfIntBits(v / 2, n - 1);
      HalfMod(v, Pow2(n - 1));
    }
  }

  lemma HalfMod(v: int, p: nat)
    requires p > 0
    ensures v % (2 * p) == 2 * (v / 2 % p) + v % 2
  {
    var q := v / 2 / p;
    var r := v / 2 % p;
    assert v / 2 == p * q + r;
    assert v == 2 * p * q + (2 * r + v % 2);
    assert 0 <= 2 * r + v % 2 < 2 * p;
    ModUnique(v, 2 * p, q, 2 * r + v % 2);
  }

  lemma ModUnique(v: int, p: nat, q: int, r: int)
    requires p > 0 && v == p * q + r && 0 <= r < p
    ensures v % p == r
  {
    var q1, r1 := v / p, v % p;
    assert p * (q - q1) == r1 - r;
    if q > q1 {
      Grows(p, q - q1);
    } else if q < q1 {
      Grows(p, q1 - q);
    }
  }

  lemma Grows(p: int, d: int)
    requires p > 0 && d > 0
    ensures p * d >= p
  {
  }

  lemma {:induction false} ValueBound(m: seq<bool>)
    ensures BitsValue(m) < Pow2(|m|)
    decreases |m|
  {
    if m != [] {
      ValueBound(m[..|m| - 1]);
    }
  }

  lemma Powers()
    ensures Pow2(5) == 32 && Pow2(8) == 256
  {
  }

  function BitsOctet(m: seq<bool>): Octet
    requires |m| == 8
  {
    ValueBound(m);
    Powers();
    BitsValue(m) as Octet
  }

  function BitsSymbol(m: seq<bool>): Symbol
    requires |m| == 5
  {
    ValueBound(m);
    Powers();
    BitsValue(m) as Symbol
  }

  function DataBits(data: seq<Octet>): (m: seq<bool>)
    ensures |m| == 8 * |data|
  {
    if data == [] then [] else OctetBits(data[0]) + DataBits(data[1..])
  }

  function SymbolsBits(syms: seq<Symbol>): (m: seq<bool>)
    ensures |m| == 5 * |syms|
  {
    if syms == [] then [] else SymbolBits(syms[0]) + SymbolsBits(syms[1..])
  }

  function Zeros(n: nat): seq<bool> { seq(n, _ => false) }

  /** Groups of five bits, the last one filled up with zeros. */
  function GroupSymbols(m: seq<bool>): seq<Symbol>
    decreases |m|
  {
    if m == [] then []
    else if |m| < 5 then [BitsSymbol(m + Zeros(5 - |m|))]
    else [BitsSymbol(m[..5])] + GroupSymbols(m[5..])
  }

  /** Groups of eight bits; what is left at the end is dropped. */
  function GroupOctets(m: seq<bool>): seq<Octet>
    decreases |m|
  {
    if |m| < 8 then [] else [BitsOctet(m[..8])] + GroupOctets(m[8..])
  }

  function Encode(data: seq<Octet>): seq<Symbol> { GroupSymbols(DataBits(data)) }

  function Decode(syms: seq<Symbol>): seq<Octet> { GroupOctets(SymbolsBits(syms)) }

  lemma OctetOfBits(b: Octet)
    ensures BitsOctet(OctetBits(b)) == b
  {
    hide IntBits, BitsValue, Pow2;
    ValueOfIntBits(b as int, 8);
    Powers();
    OctetOfInt(b);
  }

  lemma BitsOfOctet(m: seq<bool>)
    requires |m| == 8
    ensures OctetBits(BitsOctet(m)) == m
  {
    ValueBound(m);
    Powers();
    IntOfOctet(BitsValue(m));
    IntBitsOfValue(m);
  }

  lemma SymbolOfBits(s: Symbol)
    ensures BitsSymbol(SymbolBits(s)) == s
  {
    hide IntBits, BitsValue, Pow2;
    ValueOfIntBits(s as int, 5);
    Powers();
  }

  lemma BitsOfSymbol(m: seq<bool>)
    requires |m| == 5
    ensures SymbolBits(BitsSymbol(m)) == m
  {
    IntBitsOfValue(m);
  }

  /** Grouping loses no bits, and adds fewer than five zeros. */
  lemma {:induction false} BitsOfGroups(m: seq<bool>)
    ensures exists k :: 0 <= k < 5 && SymbolsBits(GroupSymbols(m)) == m + Zeros(k)
    decreases |m|
  {
    if m == [] {
      assert m + Zeros(0) == m;
    } else if |m| < 5 {
      BitsOfSymbol(m + Zeros(5 - |m|));
      assert SymbolsBits(GroupSymbols(m)) == m + Zeros(5 - |m|);
    } else {
      BitsOfGroups(m[5..]);
      BitsOfSymbol(m[..5]);
      var k :| 0 <= k < 5 && SymbolsBits(GroupSymbols(m[5..])) == m[5..] + Zeros(k);
      assert m[..5] + (m[5..] + Zeros(k)) == m + Zeros(k);
    }
  }

  /** Decoding an encoding returns the bytes, at every length. */
  lemma DecodeOfEncode(data: seq<Octet>)
    ensures Decode(Encode(data)) == data
  {
    BitsOfGroups(DataBits(data));
    var k :| 0 <= k < 5 && SymbolsBits(Encode(data)) == DataBits(data) + Zeros(k);
    GroupsOfOctets(data, Zeros(k));
  }

  // ----- The accumulator of the Dart code -----

  const TWO63 := 0x8000_0000_0000_0000
  const TWO64 := 0x1_0000_0000_0000_0000

  /** x as a signed 64-bit integer. */
  function Wrap(x: int): int { (x + TWO63) % TWO64 - TWO63 }

  function ShiftLeft(x: int, k: nat): int {
    if k == 0 then x else Wrap(2 * ShiftLeft(x, k - 1))
  }

  function ShiftRight(x: int, k: nat): int {
    if k == 0 then x else ShiftRight(x, k - 1) / 2
  }

  /** Two's complement does not care about multiples of a power of two above the bits read. */
  lemma {:induction false} IntBitsPeriodic(x: int, q: int, m: nat, n: nat)
    requires n <= m
    ensures IntBits(x + Pow2(m) * q, n) == IntBits(x, n)
    decreases n
  {
    if n > 0 {
      var t := Pow2(m - 1) * q;
      assert Pow2(m) * q == 2 * t;
      assert (x + 2 * t) / 2 == x / 2 + t && (x + 2 * t) % 2 == x % 2;
      IntBitsPeriodic(x / 2, q, m - 1, n - 1);
    }
  }

  lemma Pow64()
    ensures Pow2(64) == TWO64
  {
    hide Pow2;
    Powers();
    PowAdd(8, 8);
    PowAdd(16, 16);
    PowAdd(32, 32);
  }

  lemma {:induction false} PowAdd(m: nat, n: nat)
    ensures Pow2(m + n) == Pow2(m) * Pow2(n)
  {
    if n > 0 {
      PowAdd(m, n - 1);
    }
  }

  lemma WrapBits(x: int, b: int, n: nat)
    requires n <= 64
    ensures IntBits(Wrap(x) + b, n) == IntBits(x + b, n)
  {
    hide IntBits;
    var q := -((x + TWO63) / TWO64);
    Pow64();
    assert Wrap(x) + b == x + b + TWO64 * q;
    IntBitsPeriodic(x + b, q, 64, n);
  }

  /** A shift to the left appends zeros to the bits. */
  lemma {:induction false} ShiftLeftBits(x: int, k: nat, n: nat)
    requires n + k <= 64
    ensures IntBits(ShiftLeft(x, k), n + k) == IntBits(x, n) + Zeros(k)
  {
    if k == 0 {
      assert IntBits(x, n) + Zeros(0) == IntBits(x, n);
    } else {
      var y := ShiftLeft(x, k - 1);
      ShiftLeftBits(x, k - 1, n);
      WrapBits(2 * y, 0, n + k);
      assert 2 * y / 2 == y && 2 * y % 2 == 0;
      assert Zeros(k - 1) + [false] == Zeros(k);
    }
  }

  /** A shift to the right drops bits. */
  lemma {:induction false} ShiftRightBits(x: int, k: nat, n: nat)
    ensures IntBits(x, n + k) == IntBits(ShiftRight(x, k), n) + IntBits(x, k)
    decreases k
  {
    if k == 0 {
      assert IntBits(x, n) + [] == IntBits(x, n);
    } else {
      ShiftRightBits(x / 2, k - 1, n);
      ShiftRightFirst(x, k - 1);
    }
  }

  lemma {:induction false} ShiftRightFirst(x: int, k: nat)
    ensures ShiftRight(x, k + 1) == ShiftRight(x / 2, k)
    decreases k
  {
    if k > 0 {
      ShiftRightFirst(x, k - 1);
    }
  }

  /** Filling the zeros that a shift to the left made: `(x << k) | b` for b below 2^k. */
  lemma {:induction false} FillBits(x: int, k: nat, n: nat, b: nat)
    requires n + k <= 64 && b < Pow2(k)
    ensures IntBits(ShiftLeft(x, k) + b, n + k) == IntBits(x, n) + IntBits(b, k)
  {
    hide Wrap;
    if k == 0 {
      assert IntBits(x, n) + [] == IntBits(x, n);
    } else {
      var y := ShiftLeft(x, k - 1);
      FillBits(x, k - 1, n, b / 2);
      WrapBits(2 * y, b, n + k);
      assert (2 * y + b) / 2 == y + b / 2 && (2 * y + b) % 2 == b % 2;
    }
  }

  lemma OctetBitsOfSum(x: int, n: nat, b: Octet)
    requires n + 8 <= 64
    ensures IntBits(ShiftLeft(x, 8) + b as int, n + 8) == IntBits(x, n) + OctetBits(b)
  {
    Powers();
    OctetOfInt(b);
    FillBits(x, 8, n, b as nat);
  }

  lemma SymbolBitsOfSum(x: int, n: nat, s: Symbol)
    requires n + 5 <= 64
    ensures IntBits(ShiftLeft(x, 5) + s as int, n + 5) == IntBits(x, n) + SymbolBits(s)
  {
    Powers();
    FillBits(x, 5, n, s as nat);
  }

  lemma IntBitsOfMod(v: int, n: nat)
    ensures IntBits(v % Pow2(n), n) == IntBits(v, n)
  {
    var q := -(v / Pow2(n));
    assert v % Pow2(n) == v + Pow2(n) * q;
    IntBitsPeriodic(v, q, n, n);
  }

  /** Taking five bits off the front of the pending ones. */
  lemma TakeSymbol(x: int, k: nat)
    ensures IntBits(x, k + 5) == SymbolBits((ShiftRight(x, k) % 32) as Symbol) + IntBits(x, k)
  {
    Powers();
    ShiftRightBits(x, k, 5);
    IntBitsOfMod(ShiftRight(x, k), 5);
  }

  lemma TakeOctet(x: int, k: nat)
    ensures IntBits(x, k + 8) == OctetBits((ShiftRight(x, k) % 256) as Octet) + IntBits(x, k)
  {
    Powers();
    ShiftRightBits(x, k, 8);
    IntBitsOfMod(ShiftRight(x, k), 8);
    IntOfOctet(ShiftRight(x, k) % 256);
  }

  /** The last symbol: the n pending bits, and zeros below them. */
  lemma LastSymbol(x: int, n: nat)
    requires n < 5
    ensures (ShiftLeft(x, 5 - n) % 32) as Symbol == BitsSymbol(IntBits(x, n) + Zeros(5 - n))
  {
    Powers();
    ShiftLeftBits(x, 5 - n, n);
    ValueOfIntBits(ShiftLeft(x, 5 - n), 5);
  }

  lemma {:induction false} DataBitsSnoc(data: seq<Octet>, b: Octet)
    ensures DataBits(data + [b]) == DataBits(data) + OctetBits(b)
  {
    if data == [] {
      assert [b][1..] == [];
    } else {
      assert (data + [b])[1..] == data[1..] + [b];
      DataBitsSnoc(data[1..], b);
    }
  }

  lemma {:induction false} SymbolsBitsSnoc(syms: seq<Symbol>, s: Symbol)
    ensures SymbolsBits(syms + [s]) == SymbolsBits(syms) + SymbolBits(s)
  {
    if syms == [] {
      assert [s][1..] == [];
    } else {
      assert (syms + [s])[1..] == syms[1..] + [s];
      SymbolsBitsSnoc(syms[1..], s);
    }
  }

  /** Whole symbols and fewer than five bits after them. */
  lemma {:induction false} GroupsOfSymbols(syms: seq<Symbol>, rest: seq<bool>)
    requires |rest| < 5
    ensures GroupSymbols(SymbolsBits(syms) + rest) == syms + GroupSymbols(rest)
  {
    hide BitsSymbol, SymbolBits;
    if syms == [] {
      assert [] + rest == rest;
    } else {
      var m := SymbolsBits(syms) + rest;
      assert m[..5] == SymbolBits(syms[0]) && m[5..] == SymbolsBits(syms[1..]) + rest;
      SymbolOfBits(syms[0]);
      GroupsOfSymbols(syms[1..], rest);
    }
  }

  /** Whole bytes and fewer than eight bits after them. */
  lemma {:induction false} GroupsOfOctets(data: seq<Octet>, rest: seq<bool>)
    requires |rest| < 8
    ensures GroupOctets(DataBits(data) + rest) == data
  {
    hide OctetBits, BitsOctet, IntBits;
    if data != [] {
      GroupsOfOctets(data[1..], rest);
      FirstOctet(data[0], DataBits(data[1..]) + rest);
      assert DataBits(data) + rest == OctetBits(data[0]) + (DataBits(data[1..]) + rest);
      assert [data[0]] + data[1..] == data;
    }
  }

  lemma FirstOctet(b: Octet, m: seq<bool>)
    ensures GroupOctets(OctetBits(b) + m) == [b] + GroupOctets(m)
  {
    hide OctetBits, IntBits, BitsOctet;
    var all := OctetBits(b) + m;
    assert all[..8] == OctetBits(b) && all[8..] == m;
    OctetOfBits(b);
  }

  // ----- Text -----

  const ALPHABET := "0123456789ABCDEFGHJKMNPQRSTVWXYZ"

  function CharOf(s: Symbol): char { ALPHABET[s as nat] }

  function Text(syms: seq<Symbol>): (t: string)
    ensures |t| == |syms|
  {
    seq(|syms|, i requires 0 <= i < |syms| => CharOf(syms[i]))
  }

  /** The position of c in the alphabet from k on, or -1. */
  function IndexFrom(c: char, k: nat): (i: int)
    requires k <= 32
    ensures -1 <= i < 32 && (i >= 0 ==> i >= k && ALPHABET[i] == c)
    ensures i < 0 ==> forall j :: k <= j < 32 ==> ALPHABET[j] != c
    decreases 32 - k
  {
    if k == 32 then -1 else if ALPHABET[k] == c then k else IndexFrom(c, k + 1)
  }

  function IndexOf(c: char): (i: int)
    ensures -1 <= i < 32
  {
    IndexFrom(c, 0)
  }

  /** The symbols of a text in either case, other characters skipped. */
  function SymbolsIn(t: string): seq<Symbol> {
    if t == "" then []
    else
      var i := IndexOf(Upper(t[|t| - 1]));
      SymbolsIn(t[..|t| - 1]) + (if i < 0 then [] else [i as Symbol])
  }

  lemma TextSnoc(syms: seq<Symbol>, s: Symbol)
    ensures Text(syms + [s]) == Text(syms) + [CharOf(s)]
  {
    hide CharOf;
  }

  /** One more character that is in the alphabet, in either case. */
  lemma SymbolsInSnoc(t: string, k: nat, s: Symbol)
    requires k < |t| && IndexOf(Upper(t[k])) == s as int
    ensures SymbolsIn(t[..k + 1]) == SymbolsIn(t[..k]) + [s]
  {
    hide IndexOf, Upper;
    assert t[..k + 1][..k] == t[..k];
  }

  lemma SymbolsInSkip(t: string, k: nat)
    requires k < |t| && IndexOf(Upper(t[k])) < 0
    ensures SymbolsIn(t[..k + 1]) == SymbolsIn(t[..k])
  {
    hide IndexOf, Upper;
    assert t[..k + 1][..k] == t[..k];
    assert SymbolsIn(t[..k]) + [] == SymbolsIn(t[..k]);
  }

  /** The whole encoding, from the symbols written in the loop and what is pending after it. */
  lemma Finished(data: seq<Octet>, syms: seq<Symbol>, buffer: int, bits: nat)
    requires bits < 5 && DataBits(data) == SymbolsBits(syms) + IntBits(buffer, bits)
    ensures bits == 0 ==> Encode(data) == syms
    ensures bits > 0 ==> Encode(data) == syms + [(ShiftLeft(buffer, 5 - bits) % 32) as Symbol]
  {
    hide IntBits, DataBits, SymbolsBits, ShiftLeft, BitsSymbol;
    GroupsOfSymbols(syms, IntBits(buffer, bits));
    if bits == 0 {
      assert IntBits(buffer, bits) == [] && syms + [] == syms;
    } else {
      LastSymbol(buffer, bits);
    }
  }

  function PushOctet(buffer: int, b: Octet): int { ShiftLeft(buffer, 8) + b as int }

  function OctetIn(buffer: int, bits: nat): Octet { (ShiftRight(buffer, bits) % 256) as Octet }

  function SymbolIn(buffer: int, bits: nat): Symbol { (ShiftRight(buffer, bits) % 32) as Symbol }

  /** What is pending after a byte has been pushed. */
  lemma PushedOctet(data: seq<Octet>, i: nat, buffer: int, bits: nat, syms: seq<Symbol>)
    requires i < |data| && bits < 5 && DataBits(data[..i]) == SymbolsBits(syms) + IntBits(buffer, bits)
    ensures DataBits(data[..i + 1]) == SymbolsBits(syms) + IntBits(PushOctet(buffer, data[i]), bits + 8)
  {
    hide OctetBits, IntBits;
    DataBitsSnoc(data[..i], data[i]);
    assert data[..i + 1] == data[..i] + [data[i]];
    OctetBitsOfSum(buffer, bits, data[i]);
  }

  lemma TookSymbol(m: seq<bool>, syms: seq<Symbol>, buffer: int, bits: nat)
    requires m == SymbolsBits(syms) + IntBits(buffer, bits + 5)
    ensures m == SymbolsBits(syms + [SymbolIn(buffer, bits)]) + IntBits(buffer, bits)
  {
    hide IntBits, SymbolBits, SymbolsBits;
    TakeSymbol(buffer, bits);
    SymbolsBitsSnoc(syms, SymbolIn(buffer, bits));
  }

  lemma PushedSymbol(t: string, k: nat, s: Symbol, buffer: int, bits: nat, out: seq<Octet>)
    requires k < |t| && IndexOf(Upper(t[k])) == s as int && bits < 8
    requires SymbolsBits(SymbolsIn(t[..k])) == DataBits(out) + IntBits(buffer, bits)
    ensures SymbolsBits(SymbolsIn(t[..k + 1])) == DataBits(out) + IntBits(ShiftLeft(buffer, 5) + s as int, bits + 5)
  {
    hide IntBits, SymbolBits, SymbolsBits, DataBits, SymbolsIn, IndexOf, Upper, ShiftLeft;
    SymbolsInSnoc(t, k, s);
    SymbolsBitsSnoc(SymbolsIn(t[..k]), s);
    SymbolBitsOfSum(buffer, bits, s);
  }

  lemma TookOctet(m: seq<bool>, out: seq<Octet>, buffer: int, bits: nat)
    requires m == DataBits(out) + IntBits(buffer, bits + 8)
    ensures m == DataBits(out + [OctetIn(buffer, bits)]) + IntBits(buffer, bits)
  {
    hide IntBits, OctetBits, DataBits;
    TakeOctet(buffer, bits);
    DataBitsSnoc(out, OctetIn(buffer, bits));
  }

  method CrockfordEncode(data: seq<Octet>) returns (out: string)
    ensures out == Text(Encode(data))
  {
    hide OctetBits, IntBits, SymbolBits, PushOctet, SymbolIn, CharOf, Text, ShiftLeft;
    if data == [] {
      return "";
    }
    out := "";
    ghost var syms: seq<Symbol> := [];
    var buffer: int, bits: nat := 0, 0;
    for i := 0 to |data|
      invariant bits < 5 && out == Text(syms)
      invariant DataBits(data[..i]) == SymbolsBits(syms) + IntBits(buffer, bits)
    {
      PushedOctet(data, i, buffer, bits, syms);
      buffer := PushOctet(buffer, data[i]);
      bits := bits + 8;
      while bits >= 5
        invariant bits <= 12 && out == Text(syms)
        invariant DataBits(data[..i + 1]) == SymbolsBits(syms) + IntBits(buffer, bits)
      {
        bits := bits - 5;
        TookSymbol(DataBits(data[..i + 1]), syms, buffer, bits);
        TextSnoc(syms, SymbolIn(buffer, bits));
        syms := syms + [SymbolIn(buffer, bits)];
        out := out + [CharOf(SymbolIn(buffer, bits))];
      }
    }
    assert data[..|data|] == data;
    Finished(data, syms, buffer, bits);
    if bits > 0 {
      TextSnoc(syms, (ShiftLeft(buffer, 5 - bits) % 32) as Symbol);
      out := out + [CharOf((ShiftLeft(buffer, 5 - bits) % 32) as Symbol)];
    }
  }

  lemma NothingRead(t: string)
    ensures SymbolsBits(SymbolsIn(t[..0])) == DataBits([]) + IntBits(0, 0)
  {
  }

  method CrockfordDecode(t: string) returns (out: seq<Octet>)
    ensures out == Decode(SymbolsIn(t))
  {
    hide OctetBits, IntBits, SymbolBits, SymbolsBits, SymbolsIn, IndexOf, Upper, ShiftLeft, OctetIn, DataBits;
    var buffer: int, bits: nat := 0, 0;
    out := [];
    NothingRead(t);
    for k := 0 to |t|
      invariant bits < 8
      invariant SymbolsBits(SymbolsIn(t[..k])) == DataBits(out) + IntBits(buffer, bits)
    {
      var i := IndexOf(Upper(t[k]));
      if i >= 0 {
        PushedSymbol(t, k, i as Symbol, buffer, bits, out);
        buffer := ShiftLeft(buffer, 5) + i;
        bits := bits + 5;
        if bits >= 8 {
          bits := bits - 8;
          TookOctet(SymbolsBits(SymbolsIn(t[..k + 1])), out, buffer, bits);
          out := out + [OctetIn(buffer, bits)];
        }
      } else {
        SymbolsInSkip(t, k);
      }
    }
    assert t[..|t|] == t;
    GroupsOfOctets(out, IntBits(buffer, bits));
  }

  // ----- What the letters spell -----

  /** The bits of bytes, most significant first, spell the number that the bytes spell. */
  lemma {:induction false} DataBitsSpell(data: seq<Octet>)
    ensures BitsValue(DataBits(data)) == Number(data)
    decreases |data|
  {
    hide OctetBits, BitsValue;
    if data == [] {
      EmptyBits();
    } else {
      var n := |data| - 1;
      DataBitsSpell(data[..n]);
      DataBitsSnoc(data[..n], data[n]);
      assert data == data[..n] + [data[n]];
      BitsValueSum(DataBits(data[..n]), OctetBits(data[n]));
      OctetBitsSpell(data[n]);
      Powers();
    }
  }

  lemma EmptyBits()
    ensures BitsValue([]) == 0
  {
  }

  lemma OctetBitsSpell(b: Octet)
    ensures BitsValue(OctetBits(b)) == b as nat
  {
    hide BitsValue;
    OctetOfInt(b);
    EightBits(b as int);
  }

  lemma EightBits(v: int)
    requires 0 <= v < 256
    ensures BitsValue(IntBits(v, 8)) == v
  {
    hide IntBits, BitsValue, Pow2;
    ValueOfIntBits(v, 8);
    Powers();
  }

  lemma {:induction false} BitsValueSum(m: seq<bool>, n: seq<bool>)
    ensures BitsValue(m + n) == BitsValue(m) * Pow2(|n|) + BitsValue(n)
    decreases |n|
  {
    hide BitsValue;
    EmptyBits();
    if n == [] {
      assert m + n == m;
    } else {
      var front := n[..|n| - 1];
      BitsValueSum(m, front);
      BitsValueLast(m + front, n[|n| - 1]);
      BitsValueLast(front, n[|n| - 1]);
      assert m + n == m + front + [n[|n| - 1]] && n == front + [n[|n| - 1]];
      Doubled(BitsValue(m), Pow2(|front|));
    }
  }

  lemma BitsValueLast(m: seq<bool>, bit: bool)
    ensures BitsValue(m + [bit]) == 2 * BitsValue(m) + if bit then 1 else 0
  {
    assert (m + [bit])[..|m|] == m;
  }

  lemma Doubled(x: nat, p: nat)
    ensures 2 * (x * p) == x * (2 * p)
  {
  }

  /** The number that symbols spell in base 32. */
  function SymbolsNumber(syms: seq<Symbol>): nat {
    if syms == [] then 0 else 32 * SymbolsNumber(syms[..|syms| - 1]) + syms[|syms| - 1] as nat
  }

  lemma {:induction false} SymbolsBitsSpell(syms: seq<Symbol>)
    ensures BitsValue(SymbolsBits(syms)) == SymbolsNumber(syms)
    decreases |syms|
  {
    hide SymbolBits, BitsValue;
    if syms == [] {
      EmptyBits();
    } else {
      var n := |syms| - 1;
      SymbolsBitsSpell(syms[..n]);
      SymbolsBitsSnoc(syms[..n], syms[n]);
      assert syms == syms[..n] + [syms[n]];
      BitsValueSum(SymbolsBits(syms[..n]), SymbolBits(syms[n]));
      SymbolBitsSpell(syms[n]);
      Powers();
    }
  }

  lemma SymbolBitsSpell(s: Symbol)
    ensures BitsValue(SymbolBits(s)) == s as nat
  {
    hide IntBits, BitsValue;
    ValueOfIntBits(s as int, 5);
    Powers();
  }

  lemma {:induction false} ZerosValue(k: nat)
    ensures BitsValue(Zeros(k)) == 0
  {
    if k > 0 {
      assert Zeros(k)[..k - 1] == Zeros(k - 1);
      ZerosValue(k - 1);
    }
  }

  /** The letters of an encoding are the digits in base 32 of the number that the bytes spell, moved up
      by the fewest bits that fill the last letter. */
  lemma EncodeSpells(data: seq<Octet>) returns (k: nat)
    ensures k < 5 && 5 * |Encode(data)| == 8 * |data| + k
    ensures SymbolsNumber(Encode(data)) == Number(data) * Pow2(k)
  {
    hide GroupSymbols, DataBits, SymbolsBits, BitsValue, Number;
    var m := DataBits(data);
    BitsOfGroups(m);
    k :| 0 <= k < 5 && SymbolsBits(GroupSymbols(m)) == m + Zeros(k);
    SymbolsBitsSpell(Encode(data));
    DataBitsSpell(data);
    BitsValueSum(m, Zeros(k));
    ZerosValue(k);
    assert |SymbolsBits(Encode(data))| == 5 * |Encode(data)|;
  }

  /** A digit, or a capital that is not easily misread. */
  predicate CrockfordLetter(c: char) {
    '0' <= c <= '9' || ('A' <= c <= 'Z' && c != 'I' && c != 'L' && c != 'O' && c != 'U')
  }

  lemma AlphabetSound(s: Symbol)
    ensures CrockfordLetter(CharOf(s)) && (s < 31 ==> CharOf(s) < CharOf(s + 1))
  {
  }

  lemma AlphabetComplete(c: char)
    requires CrockfordLetter(c)
    ensures exists j :: 0 <= j < 32 && ALPHABET[j] == c
  {
    var j := if c <= '9' then c as int - 48 else if c < 'I' then c as int - 55 else if c < 'L' then c as int - 56
      else if c < 'O' then c as int - 57 else if c < 'U' then c as int - 58 else c as int - 59;
    assert ALPHABET[j] == c;
  }

  /** The alphabet has exactly these, in ascending order. */
  lemma AlphabetIs(s: Symbol, c: char)
    ensures CrockfordLetter(CharOf(s)) && (s < 31 ==> CharOf(s) < CharOf(s + 1))
    ensures CrockfordLetter(c) ==> IndexOf(c) >= 0
  {
    hide CrockfordLetter, CharOf, ALPHABET;
    AlphabetSound(s);
    if CrockfordLetter(c) {
      AlphabetComplete(c);
    }
  }
}
