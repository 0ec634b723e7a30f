/** The CRC-32 of the invite codec (invite/codec.go): the table and the table-driven loop
    against the bit-at-a-time register of sections 2.3.1 and 8 of RFC 1952, and the errors
    that it is bound to detect. */
module Crc32 {
  import opened Octets
  import opened Folds

  const POLY: bv32 := 0xEDB8_8320
  const ONES: bv32 := 0xFFFF_FFFF

  function Xor(x: bv32, y: bv32): bv32 { x ^ y }

  function XorOctet(a: Octet, b: Octet): Octet { a ^ b }

  function XorBit(a: bool, b: bool): bool { a != b }

  /** One step of the register: shift out the lowest bit, and subtract the polynomial if it was set. */
  function Shift(c: bv32): bv32 {
    if c & 1 != 0 then POLY ^ (c >> 1) else c >> 1
  }

  // ----- The reference: one message bit at a time -----

  function BitWord(bit: bool): bv32 { if bit then 1 else 0 }

  function Feed(c: bv32, bit: bool): bv32 { Shift(Xor(c, BitWord(bit))) }

  /** The bits of a byte, least significant first. */
  function Bits(b: Octet): (m: seq<bool>)
    ensures |m| == 8
  {
    [b & 1 != 0, b & 2 != 0, b & 4 != 0, b & 8 != 0, b & 16 != 0, b & 32 != 0, b & 64 != 0, b & 128 != 0]
  }

  function AllBits(p: seq<Octet>): (m: seq<bool>)
    ensures |m| == 8 * |p|
  {
    if p == [] then [] else AllBits(p[..|p| - 1]) + Bits(p[|p| - 1])
  }

  /** The CRC-32 of a message of bits. */
  function BitCrc(m: seq<bool>): bv32 { Xor(Fold(Feed, ONES, m), ONES) }

  // ----- The code: one message byte at a time -----

  function ByteStep(c: bv32, b: Octet): bv32 { Iter(Shift, c ^ (b as bv32), 8) }

  function Crc(p: seq<Octet>): bv32 { Xor(Fold(ByteStep, ONES, p), ONES) }

  function Entry(t: seq<bv32>, b: Octet): bv32
    requires |t| == 256
  {
    t[b as nat]
  }

  function Low(c: bv32): Octet { (c & 0xff) as Octet }

  /** The update of the loop: `table[byte(crc)^b] ^ (crc >> 8)`. */
  function TableUpdate(t: seq<bv32>, c: bv32, b: Octet): bv32
    requires |t| == 256
  {
    Xor(Entry(t, Low(c) ^ b), c >> 8)
  }

  function TableValue(k: nat): bv32
    requires k < 256
  {
    Iter(Shift, k as bv32, 8)
  }

  /** Entry i is what eight steps make of i. */
  ghost predicate IsTable(t: seq<bv32>) {
    |t| == 256 && forall b: Octet :: Entry(t, b) == Iter(Shift, b as bv32, 8)
  }

  /** The inner loop of the table. */
  method TableEntry(i: nat) returns (crc: bv32)
    requires i < 256
    ensures crc == TableValue(i)
  {
    crc := i as bv32;
    ghost var start := crc;
    for j := 0 to 8
      invariant crc == Iter(Shift, start, j)
    {
      if crc & 1 != 0 {
        crc := POLY ^ (crc >> 1);
      } else {
        crc := crc >> 1;
      }
    }
  }

  method MakeIEEETable() returns (t: array<bv32>)
    ensures t.Length == 256 && IsTable(t[..])
  {
    t := new bv32[256];
    for i := 0 to 256
      invariant Filled(t[..i])
    {
      ghost var before := t[..i];
      t[i] := TableEntry(i);
      assert t[..i + 1][..i] == before;
    }
    assert t[..256] == t[..];
    TableDone(t[..]);
  }

  lemma TableDone(t: seq<bv32>)
    requires |t| == 256 && Filled(t)
    ensures IsTable(t)
  {
    forall b: Octet ensures Entry(t, b) == Iter(Shift, b as bv32, 8) {
      FilledAt(t, b as nat);
      NatOctet(b);
    }
  }

  /** The first entries of the table. */
  predicate Filled(s: seq<bv32>)
    requires |s| <= 256
  {
    s == [] || (Filled(s[..|s| - 1]) && s[|s| - 1] == TableValue(|s| - 1))
  }

  lemma {:induction false} FilledAt(s: seq<bv32>, k: nat)
    requires k < |s| <= 256 && Filled(s)
    ensures s[k] == TableValue(k)
  {
    if k < |s| - 1 {
      FilledAt(s[..|s| - 1], k);
    }
  }

  method Crc32IEEE(table: array<bv32>, p: seq<Octet>) returns (sum: bv32)
    requires table.Length == 256 && IsTable(table[..])
    ensures sum == Crc(p)
  {
    var crc := ONES;
    for i := 0 to |p|
      invariant crc == Fold(ByteStep, ONES, p[..i])
    {
      TableStep(table[..], crc, p[i]);
      assert p[..i + 1][..i] == p[..i];
      crc := TableUpdate(table[..], crc, p[i]);
    }
    assert p[..|p|] == p;
    return Xor(crc, ONES);
  }

  lemma WidenOctet(b: Octet)
    ensures (b as bv32) as nat == b as nat
  {
  }

  lemma NatOctet(b: Octet)
    ensures (b as nat) as bv32 == b as bv32
  {
    WordOfNat(b as bv32);
    WidenOctet(b);
  }

  // ----- The register is linear -----

  lemma ShiftXorOdd(x: bv32, y: bv32)
    requires x & 1 != 0 && y & 1 != 0
    ensures Shift(x ^ y) == Shift(x) ^ Shift(y)
  {
  }

  lemma ShiftXorMixed(x: bv32, y: bv32)
    requires x & 1 != 0 && y & 1 == 0
    ensures Shift(x ^ y) == Shift(x) ^ Shift(y)
  {
  }

  lemma ShiftXorEven(x: bv32, y: bv32)
    requires x & 1 == 0 && y & 1 == 0
    ensures Shift(x ^ y) == Shift(x) ^ Shift(y)
  {
  }

  lemma XorCommutes(x: bv32, y: bv32)
    ensures Xor(x, y) == Xor(y, x)
  {
  }

  lemma ShiftXor(x: bv32, y: bv32)
    ensures Shift(x ^ y) == Shift(x) ^ Shift(y)
  {
    if x & 1 != 0 {
      if y & 1 != 0 {
        ShiftXorOdd(x, y);
      } else {
        ShiftXorMixed(x, y);
      }
    } else {
      if y & 1 != 0 {
        ShiftXorMixed(y, x);
        XorCommutes(x, y);
        XorCommutes(Shift(x), Shift(y));
      } else {
        ShiftXorEven(x, y);
      }
    }
  }

  lemma ShiftLinear()
    ensures Linear(Shift, Xor)
  {
    forall x, y ensures Shift(Xor(x, y)) == Xor(Shift(x), Shift(y)) {
      ShiftXor(x, y);
    }
  }

  lemma IterXor(x: bv32, y: bv32, n: nat)
    ensures Iter(Shift, Xor(x, y), n) == Xor(Iter(Shift, x, n), Iter(Shift, y, n))
  {
    ShiftLinear();
    IterLinear(Shift, Xor, x, y, n);
  }

  /** The register loses no information: only zero steps to zero. */
  lemma ShiftKernel()
    ensures forall y :: Shift(y) == 0 <==> y == 0
  {
  }

  lemma HighBytes(c: bv32)
    requires c & 0xff == 0
    ensures Shift(Shift(Shift(Shift(Shift(Shift(Shift(Shift(c)))))))) == c >> 8
  {
  }

  function High(c: bv32): bv32 { c & 0xffff_ff00 }

  lemma SplitLow(c: bv32, b: Octet)
    ensures c ^ (b as bv32) == ((Low(c) ^ b) as bv32) ^ High(c)
  {
  }

  lemma HighShift(c: bv32)
    ensures High(c) & 0xff == 0 && High(c) >> 8 == c >> 8
  {
  }

  /** One table look-up absorbs a byte. */
  lemma TableStep(t: seq<bv32>, c: bv32, b: Octet)
    requires IsTable(t)
    ensures TableUpdate(t, c, b) == ByteStep(c, b)
  {
    ByteStepSplit(c, b, Low(c) ^ b);
  }

  lemma HighIter(c: bv32)
    ensures Iter(Shift, High(c), 8) == c >> 8
  {
    Iter8(Shift, High(c));
    HighShift(c);
    HighBytes(High(c));
  }

  lemma ByteStepSplit(c: bv32, b: Octet, low: Octet)
    requires low == Low(c) ^ b
    ensures ByteStep(c, b) == Xor(Iter(Shift, low as bv32, 8), c >> 8)
  {
    SplitLow(c, b);
    HighIter(c);
    ShiftLinear();
    IterOfSum(Shift, Xor, c ^ (b as bv32), low as bv32, High(c), c >> 8, 8);
  }

  // ----- Bytes and bits -----

  /** Puts a bit below the others. */
  function Push(bit: bool, w: bv32): bv32 { Xor(BitWord(bit), w << 1) }

  function PushOne(w: bv32): bv32 { (w << 1) | 1 }

  /** The bits of m as a word, the first one lowest. */
  function Word(m: seq<bool>): bv32 { FoldRight(Push, m, 0) }

  /** The word has no bits but those of the mask. */
  predicate Inside(w: bv32, mask: bv32) { w & mask == w }

  lemma InsidePush(bit: bool, w: bv32, mask: bv32)
    requires Inside(w, mask)
    ensures Inside(Push(bit, w), PushOne(mask))
  {
    hide Inside, PushOne;
    if bit {
      InsidePushOneBit(w, mask);
    } else {
      InsidePushZero(w, mask);
    }
  }

  lemma InsidePushOneBit(w: bv32, mask: bv32)
    requires Inside(w, mask)
    ensures Inside(1 ^ (w << 1), PushOne(mask))
  {
  }

  lemma InsidePushZero(w: bv32, mask: bv32)
    requires Inside(w, mask)
    ensures Inside(0 ^ (w << 1), PushOne(mask))
  {
  }

  lemma InsidePushOne(w: bv32, mask: bv32)
    requires Inside(w, mask)
    ensures Inside(PushOne(w), PushOne(mask))
  {
  }

  lemma InsideTrans(a: bv32, b: bv32, c: bv32)
    requires Inside(a, b) && Inside(b, c)
    ensures Inside(a, c)
  {
  }

  lemma ThirtyOneOnes()
    ensures Iter(PushOne, 0, 31) == 0x7fff_ffff
  {
    Iter8(PushOne, 0);
    IterAdd(PushOne, 0, 8, 8);
    Iter8(PushOne, 0xff);
    IterAdd(PushOne, 0, 16, 8);
    Iter8(PushOne, 0xffff);
    Iter8(PushOne, 0xff_ffff);
    IterAdd(PushOne, 0, 24, 7);
  }

  /** A word of at most 31 bits has its top bit clear. */
  lemma ShortWord(m: seq<bool>)
    requires |m| <= 31
    ensures Inside(Word(m), 0x7fff_ffff)
  {
    forall bit, w, mask | Inside(w, mask) ensures Inside(Push(bit, w), PushOne(mask)) {
      InsidePush(bit, w, mask);
    }
    FoldRightRelated(Push, PushOne, Inside, m, 0, 0);
    forall w, mask | Inside(w, mask) ensures Inside(PushOne(w), PushOne(mask)) {
      InsidePushOne(w, mask);
    }
    forall a ensures Inside(a, a) {
    }
    forall a, b, c | Inside(a, b) && Inside(b, c) ensures Inside(a, c) {
      InsideTrans(a, b, c);
    }
    IterGrows(PushOne, Inside, 0, |m|, 31);
    ThirtyOneOnes();
  }

  lemma XorRegroups(a: bv32, b: bv32, c: bv32)
    ensures a ^ (b ^ c) == (a ^ b) ^ c
  {
  }

  lemma XorAssociates(a: bv32, b: bv32, c: bv32)
    ensures Xor(a, Xor(b, c)) == Xor(Xor(a, b), c)
  {
    assert a ^ (b ^ c) == (a ^ b) ^ c by {
      XorRegroups(a, b, c);
    }
    assert Xor(a, b ^ c) == Xor(a ^ b, c);
  }

  function Double(w: bv32): bv32 { w << 1 }

  lemma ShiftDouble(w: bv32)
    requires Inside(w, 0x7fff_ffff)
    ensures Shift(Double(w)) == w
  {
  }

  /** Absorbing up to 32 bits is xoring them into the register and running that many zero bits. */
  lemma AbsorbWord(c: bv32, m: seq<bool>)
    requires |m| <= 32
    ensures Fold(Feed, c, m) == Iter(Shift, Xor(c, Word(m)), |m|)
  {
    hide Xor, Shift;
    forall x, y, z ensures Xor(x, Xor(y, z)) == Xor(Xor(x, y), z) {
      XorAssociates(x, y, z);
    }
    forall x ensures Xor(x, 0) == x {
      XorZero(x);
    }
    assert Group(Xor, 0);
    ShiftLinear();
    ShortWords();
    FeedIsShift(Shift, Xor, BitWord, Double, 0, Feed, Push, 32, c, m);
  }

  lemma ShortWords()
    ensures UndoesDouble(Shift, Double, Push, 0, 32)
  {
    forall k: seq<bool> | |k| < 32 ensures Shift(Double(FoldRight(Push, k, 0))) == FoldRight(Push, k, 0) {
      ShortWord(k);
      ShiftDouble(Word(k));
    }
  }

  lemma XorZero(c: bv32)
    ensures Xor(c, 0) == c && Xor(0, c) == c
  {
  }

  lemma PushZero(bit: bool, w: bv32)
    requires Inside(w, 0x7fff_ffff)
    ensures Push(bit, w) == 0 <==> !bit && w == 0
  {
  }

  lemma {:induction false} WordZero(m: seq<bool>)
    requires |m| <= 32
    ensures Word(m) == 0 <==> true !in m
  {
    if m != [] {
      ShortWord(m[1..]);
      PushZero(m[0], Word(m[1..]));
      WordZero(m[1..]);
      assert m == [m[0]] + m[1..];
    }
  }

  lemma WordOfByte(b: Octet)
    ensures Word(Bits(b)) == b as bv32
  {
    var m := Bits(b);
    FoldRight8(Push, m, 0);
    EightPushes(b);
  }

  lemma FoldRight8<S, A>(f: (A, S) -> S, xs: seq<A>, s: S)
    requires |xs| == 8
    ensures FoldRight(f, xs, s) == f(xs[0], f(xs[1], f(xs[2], f(xs[3], f(xs[4], f(xs[5], f(xs[6], f(xs[7], s))))))))
  {
    assert FoldRight(f, xs[7..], s) == f(xs[7], s);
    assert FoldRight(f, xs[6..], s) == f(xs[6], FoldRight(f, xs[7..], s));
    assert FoldRight(f, xs[5..], s) == f(xs[5], FoldRight(f, xs[6..], s));
    assert FoldRight(f, xs[4..], s) == f(xs[4], FoldRight(f, xs[5..], s));
    assert FoldRight(f, xs[3..], s) == f(xs[3], FoldRight(f, xs[4..], s));
    assert FoldRight(f, xs[2..], s) == f(xs[2], FoldRight(f, xs[3..], s));
    assert FoldRight(f, xs[1..], s) == f(xs[1], FoldRight(f, xs[2..], s));
  }

  lemma HighPushes(b: Octet)
    ensures Push(b & 16 != 0, Push(b & 32 != 0, Push(b & 64 != 0, Push(b & 128 != 0, 0)))) == (b >> 4) as bv32
  {
  }

  lemma LowPushes(b: Octet, w: bv32)
    requires w == (b >> 4) as bv32
    ensures Push(b & 1 != 0, Push(b & 2 != 0, Push(b & 4 != 0, Push(b & 8 != 0, w)))) == b as bv32
  {
  }

  lemma EightPushes(b: Octet)
    ensures Push(b & 1 != 0, Push(b & 2 != 0, Push(b & 4 != 0, Push(b & 8 != 0,
      Push(b & 16 != 0, Push(b & 32 != 0, Push(b & 64 != 0, Push(b & 128 != 0, 0)))))))) == b as bv32
  {
    hide Push;
    HighPushes(b);
    LowPushes(b, (b >> 4) as bv32);
  }

  /** A byte absorbed at once is its eight bits absorbed one by one. */
  lemma ByteIsBits(c: bv32, b: Octet)
    ensures Fold(Feed, c, Bits(b)) == ByteStep(c, b)
  {
    AbsorbWord(c, Bits(b));
    WordOfByte(b);
  }

  lemma {:induction false} FoldBytesIsFoldBits(c: bv32, p: seq<Octet>)
    ensures Fold(ByteStep, c, p) == Fold(Feed, c, AllBits(p))
    decreases |p|
  {
    if p != [] {
      var n := |p| - 1;
      FoldBytesIsFoldBits(c, p[..n]);
      FoldAppend(Feed, c, AllBits(p[..n]), Bits(p[n]));
      ByteIsBits(Fold(Feed, c, AllBits(p[..n])), p[n]);
    }
  }

  /** The table-driven CRC is the bit-at-a-time CRC-32, on every byte sequence. */
  lemma CrcIsBitCrc(p: seq<Octet>)
    ensures Crc(p) == BitCrc(AllBits(p))
  {
    FoldBytesIsFoldBits(ONES, p);
  }

  // ----- Errors that the CRC detects -----

  lemma XorSame(x: bv32)
    ensures x ^ x == 0
  {
  }

  lemma XorDiffer(x: bv32, y: bv32)
    requires x != y
    ensures x ^ y != 0
  {
  }

  lemma XorSelf(x: bv32, y: bv32)
    ensures Xor(x, y) == 0 <==> x == y
  {
    if x == y {
      XorSame(x);
    } else {
      XorDiffer(x, y);
    }
  }

  lemma BitWordXor(a: bool, b: bool)
    ensures BitWord(XorBit(a, b)) == Xor(BitWord(a), BitWord(b))
  {
  }

  lemma XorMedial()
    ensures Medial(Xor)
  {
    hide Xor;
    forall x, y, z ensures Xor(x, Xor(y, z)) == Xor(Xor(x, y), z) {
      XorAssociates(x, y, z);
    }
    forall x, y ensures Xor(x, y) == Xor(y, x) {
      XorCommutes(x, y);
    }
    forall x ensures Xor(x, 0) == x {
      XorZero(x);
    }
    GroupIsMedial(Xor, 0);
  }

  lemma BitWordLinear()
    ensures forall a, b :: BitWord(XorBit(a, b)) == Xor(BitWord(a), BitWord(b))
  {
    forall a, b ensures BitWord(XorBit(a, b)) == Xor(BitWord(a), BitWord(b)) {
      BitWordXor(a, b);
    }
  }

  lemma FeedLinear()
    ensures StepLinear(Feed, Xor, XorBit)
  {
    ShiftLinear();
    XorMedial();
    BitWordLinear();
    AddThenShiftLinear(Shift, Xor, BitWord, XorBit, Feed);
  }

  /** The CRCs of two messages of one length differ by something that depends on the xor of the
      messages alone. */
  lemma DifferenceOfBits(m: seq<bool>, n: seq<bool>)
    requires |m| == |n|
    ensures Xor(Fold(Feed, ONES, m), Fold(Feed, ONES, n)) == Fold(Feed, 0, Zip(XorBit, m, n))
  {
    FeedLinear();
    FoldLinear(Feed, Xor, XorBit, ONES, ONES, m, n);
  }

  lemma FeedFalse()
    ensures forall t :: Feed(t, false) == Shift(t)
  {
    forall t ensures Feed(t, false) == Shift(t) {
      XorZero(t);
    }
  }

  /** A run of zero bits. */
  lemma ZeroRun(c: bv32, m: seq<bool>)
    requires true !in m
    ensures Fold(Feed, c, m) == Iter(Shift, c, |m|)
  {
    FeedFalse();
    FoldIter(Feed, Shift, c, m);
  }

  /** Up to 32 bits that are not all zero leave the empty register not empty. */
  lemma ShortBurst(w: seq<bool>)
    requires |w| <= 32 && true in w
    ensures Fold(Feed, 0, w) != 0
  {
    AbsorbWord(0, w);
    XorZero(Word(w));
    WordZero(w);
    ShiftKernel();
    IterKernel(Shift, 0, Word(w), |w|);
  }

  /** m and n differ, and only in the window of `len` elements from i on. */
  ghost predicate DifferWithin<A(!new)>(m: seq<A>, n: seq<A>, i: nat, len: nat) {
    && |m| == |n|
    && m != n
    && forall k :: 0 <= k < |m| && m[k] != n[k] ==> i <= k < i + len
  }

  lemma BurstLeavesTrace(d: seq<bool>, i: nat)
    requires true in d && forall k :: 0 <= k < |d| && d[k] ==> i <= k < i + 32
    ensures Fold(Feed, 0, d) != 0
  {
    var j := if i + 32 < |d| then i + 32 else |d|;
    assert i <= j;
    var pre, w, post := d[..i], d[i..j], d[j..];
    assert d == pre + w + post;
    assert true !in pre && true !in post && true in w;
    ShiftKernel();
    ZeroRun(0, pre);
    IterKernel(Shift, 0, 0, |pre|);
    FoldAppend(Feed, 0, pre, w);
    ShortBurst(w);
    FoldAppend(Feed, 0, pre + w, post);
    ZeroRun(Fold(Feed, 0, w), post);
    IterKernel(Shift, 0, Fold(Feed, 0, w), |post|);
  }

  /** Any change within 32 consecutive bits of a message of any length changes its CRC. */
  lemma BurstDetected(m: seq<bool>, n: seq<bool>, i: nat)
    requires DifferWithin(m, n, i, 32)
    ensures BitCrc(m) != BitCrc(n)
  {
    var d := Zip(XorBit, m, n);
    DifferenceOfBits(m, n);
    assert true in d by {
      var k :| 0 <= k < |m| && m[k] != n[k];
      assert d[k];
    }
    BurstLeavesTrace(d, i);
    XorSelf(Fold(Feed, ONES, m), Fold(Feed, ONES, n));
    OnesCancel(Fold(Feed, ONES, m), Fold(Feed, ONES, n));
  }

  lemma OnesCancel(x: bv32, y: bv32)
    requires x != y
    ensures Xor(x, ONES) != Xor(y, ONES)
  {
  }

  lemma BitsInjective(a: Octet, b: Octet)
    ensures Bits(a) == Bits(b) <==> a == b
  {
    WordOfByte(a);
    WordOfByte(b);
  }

  lemma {:induction false} AllBitsAt(p: seq<Octet>, k: nat, j: nat)
    requires k < |p| && j < 8
    ensures AllBits(p)[8 * k + j] == Bits(p[k])[j]
    decreases |p|
  {
    if k < |p| - 1 {
      AllBitsAt(p[..|p| - 1], k, j);
    }
  }

  /** Any change within four consecutive bytes changes the CRC. */
  lemma ByteBurstDetected(p: seq<Octet>, q: seq<Octet>, i: nat)
    requires DifferWithin(p, q, i, 4)
    ensures Crc(p) != Crc(q)
  {
    CrcIsBitCrc(p);
    CrcIsBitCrc(q);
    BytesDifferInBits(p, q, i);
    BurstDetected(AllBits(p), AllBits(q), 8 * i);
  }

  lemma BytesDifferInBits(p: seq<Octet>, q: seq<Octet>, i: nat)
    requires DifferWithin(p, q, i, 4)
    ensures DifferWithin(AllBits(p), AllBits(q), 8 * i, 32)
  {
    DifferingBit(p, q);
    forall b | 0 <= b < |AllBits(p)| && AllBits(p)[b] != AllBits(q)[b] ensures 8 * i <= b < 8 * i + 32 {
      AllBitsAt(p, b / 8, b % 8);
      AllBitsAt(q, b / 8, b % 8);
      assert p[b / 8] != q[b / 8];
    }
  }

  lemma DifferingBit(p: seq<Octet>, q: seq<Octet>)
    requires |p| == |q| && p != q
    ensures AllBits(p) != AllBits(q)
  {
    var k :| 0 <= k < |p| && p[k] != q[k];
    BitsInjective(p[k], q[k]);
    var j :| 0 <= j < 8 && Bits(p[k])[j] != Bits(q[k])[j];
    AllBitsAt(p, k, j);
    AllBitsAt(q, k, j);
  }

  lemma ByteStepXor(s: bv32, t: bv32, a: Octet, b: Octet)
    ensures ByteStep(Xor(s, t), XorOctet(a, b)) == Xor(ByteStep(s, a), ByteStep(t, b))
  {
    MixOctets(s, t, a, b);
    IterXor(s ^ (a as bv32), t ^ (b as bv32), 8);
  }

  lemma MixOctets(s: bv32, t: bv32, a: Octet, b: Octet)
    ensures (s ^ t) ^ ((a ^ b) as bv32) == (s ^ (a as bv32)) ^ (t ^ (b as bv32))
  {
  }

  /** The difference of the CRCs of two inputs of one length depends on their xor alone. */
  lemma DifferenceOfBytes(p: seq<Octet>, q: seq<Octet>)
    requires |p| == |q|
    ensures Xor(Crc(p), Crc(q)) == Fold(ByteStep, 0, Zip(XorOctet, p, q))
  {
    ByteStepLinear();
    FoldLinear(ByteStep, Xor, XorOctet, ONES, ONES, p, q);
    OnesTwice(Fold(ByteStep, ONES, p), Fold(ByteStep, ONES, q));
  }

  lemma ByteStepLinear()
    ensures StepLinear(ByteStep, Xor, XorOctet)
  {
    forall s, t, a, b ensures ByteStep(Xor(s, t), XorOctet(a, b)) == Xor(ByteStep(s, a), ByteStep(t, b)) {
      ByteStepXor(s, t, a, b);
    }
  }

  lemma OnesTwice(x: bv32, y: bv32)
    ensures Xor(Xor(x, ONES), Xor(y, ONES)) == Xor(x, y)
  {
  }

  // ----- The check value -----

  function EightShifts(c: bv32): bv32 { Shift(Shift(Shift(Shift(Shift(Shift(Shift(Shift(c)))))))) }

  lemma IterEight(c: bv32)
    ensures Iter(Shift, c, 8) == EightShifts(c)
  {
    hide Shift;
    assert Iter(Shift, c, 2) == Shift(Shift(c));
    assert Iter(Shift, c, 4) == Shift(Shift(Iter(Shift, c, 2)));
    assert Iter(Shift, c, 6) == Shift(Shift(Iter(Shift, c, 4)));
  }

  lemma FoldStep(p: seq<Octet>, i: nat)
    requires i < |p|
    ensures Fold(ByteStep, ONES, p[..i + 1]) == ByteStep(Fold(ByteStep, ONES, p[..i]), p[i])
    ensures Fold(ByteStep, ONES, p[..0]) == ONES
  {
    hide ByteStep, ONES;
    assert p[..i + 1][..i] == p[..i];
  }

  lemma StepTo(p: seq<Octet>, i: nat, c: bv32, d: bv32)
    requires i < |p| && Fold(ByteStep, ONES, p[..i]) == c && EightShifts(c ^ (p[i] as bv32)) == d
    ensures Fold(ByteStep, ONES, p[..i + 1]) == d
  {
    hide EightShifts, Fold, Iter, ONES;
    FoldStep(p, i);
    IterEight(c ^ (p[i] as bv32));
  }

  lemma Registers()
    ensures EightShifts(0xFFFF_FFCE) == 0x7C23_1048
    ensures EightShifts(0x7C23_107A) == 0xB0AC_BB32
    ensures EightShifts(0xB0AC_BB01) == 0x77B7_9C2D
    ensures EightShifts(0x77B7_9C19) == 0x641C_1F5C
    ensures EightShifts(0x641C_1F69) == 0x340A_C5E3
    ensures EightShifts(0x340A_C5D5) == 0xF68D_2C9E
    ensures EightShifts(0xF68D_2CA9) == 0xAFFC_9660
    ensures EightShifts(0xAFFC_9658) == 0x651F_2550
    ensures EightShifts(0x651F_2569) == 0x340B_C6D9
  {
  }

  /** The check value of CRC-32, which is that of the nine digits. */
  lemma CheckValue()
    ensures Crc([0x31, 0x32, 0x33, 0x34, 0x35, 0x36, 0x37, 0x38, 0x39]) == 0xCBF4_3926
  {
    hide Fold, EightShifts;
    var p: seq<Octet> := [0x31, 0x32, 0x33, 0x34, 0x35, 0x36, 0x37, 0x38, 0x39];
    FoldStep(p, 0);
    Registers();
    StepTo(p, 0, 0xFFFF_FFFF, 0x7C23_1048);
    StepTo(p, 1, 0x7C23_1048, 0xB0AC_BB32);
    StepTo(p, 2, 0xB0AC_BB32, 0x77B7_9C2D);
    StepTo(p, 3, 0x77B7_9C2D, 0x641C_1F5C);
    StepTo(p, 4, 0x641C_1F5C, 0x340A_C5E3);
    StepTo(p, 5, 0x340A_C5E3, 0xF68D_2C9E);
    StepTo(p, 6, 0xF68D_2C9E, 0xAFFC_9660);
    StepTo(p, 7, 0xAFFC_9660, 0x651F_2550);
    StepTo(p, 8, 0x651F_2550, 0x340B_C6D9);
    assert p[..9] == p;
  }
}
