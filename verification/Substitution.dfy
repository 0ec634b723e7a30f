/** One symbol of an encoded invite replaced by another: the bytes read are the same, or the
    checksum catches it, even where the symbol straddles the body and the checksum. */
module Substitution {
  import opened Wrappers
  import opened Octets
  import opened Folds
  import opened Crc32
  import opened Base32
  import opened Invites
  import opened InviteTheorems

  // ----- From symbols to bytes -----

  lemma {:induction false} SymbolsBitsAt(syms: seq<Symbol>, k: nat, j: nat)
    requires k < |syms| && j < 5
    ensures SymbolsBits(syms)[5 * k + j] == SymbolBits(syms[k])[j]
    decreases k
  {
    hide SymbolBits;
    if k > 0 {
      SymbolsBitsAt(syms[1..], k - 1, j);
    }
  }

  lemma {:induction false} GroupOctetsAt(m: seq<bool>, j: nat)
    ensures |GroupOctets(m)| == |m| / 8
    ensures j < |m| / 8 ==> GroupOctets(m)[j] == BitsOctet(m[8 * j..8 * j + 8])
    decreases |m|
  {
    hide BitsOctet;
    if |m| >= 8 {
      GroupOctetsAt(m[8..], if j > 0 then j - 1 else 0);
      if 0 < j < |m| / 8 {
        assert m[8..][8 * (j - 1)..8 * (j - 1) + 8] == m[8 * j..8 * j + 8];
      }
    }
  }

  /** The bits outside the replaced symbol stay. */
  lemma BitsOutside(syms: seq<Symbol>, k: nat, s: Symbol, x: nat)
    requires k < |syms| && x < 5 * |syms| && !(5 * k <= x < 5 * k + 5)
    ensures SymbolsBits(syms[k := s])[x] == SymbolsBits(syms)[x]
  {
    hide SymbolBits;
    SymbolsBitsAt(syms, x / 5, x % 5);
    SymbolsBitsAt(syms[k := s], x / 5, x % 5);
  }

  /** A symbol touches at most two bytes. */
  lemma BytesOutside(syms: seq<Symbol>, k: nat, s: Symbol, j: nat)
    requires k < |syms| && j < 5 * |syms| / 8 && !(5 * k / 8 <= j < 5 * k / 8 + 2)
    ensures |Decode(syms[k := s])| == |Decode(syms)| == 5 * |syms| / 8
    ensures Decode(syms[k := s])[j] == Decode(syms)[j]
  {
    hide SymbolBits, BitsOctet;
    var m, n := SymbolsBits(syms), SymbolsBits(syms[k := s]);
    GroupOctetsAt(m, j);
    GroupOctetsAt(n, j);
    forall x | 8 * j <= x < 8 * j + 8 ensures m[x] == n[x] {
      BitsOutside(syms, k, s, x);
    }
    assert m[8 * j..8 * j + 8] == n[8 * j..8 * j + 8];
  }

  lemma DecodeLength(syms: seq<Symbol>)
    ensures |Decode(syms)| == 5 * |syms| / 8
  {
    GroupOctetsAt(SymbolsBits(syms), 0);
  }

  // ----- The straddling symbol -----

  /** A change in the last byte of the body changes more of the CRC than its first stored byte. */
  lemma LastByteSpreads(d: bv32)
    requires d != 0 && d <= 0xff
    ensures Shift(Shift(Shift(Shift(Shift(Shift(Shift(Shift(d)))))))) & 0x00ff_ffff != 0
  {
  }

  lemma XorStep(c: bv32, a: Octet, b: Octet)
    requires a != b
    ensures (c ^ (a as bv32)) ^ (c ^ (b as bv32)) == (a ^ b) as bv32 && (a ^ b) as bv32 != 0 && (a ^ b) as bv32 <= 0xff
  {
  }

  lemma StepsDiffer(c: bv32, a: Octet, b: Octet)
    requires a != b
    ensures Xor(ByteStep(c, a), ByteStep(c, b)) & 0x00ff_ffff != 0
  {
    hide Shift;
    XorStep(c, a, b);
    IterXor(c ^ (a as bv32), c ^ (b as bv32), 8);
    Iter8(Shift, (a ^ b) as bv32);
    LastByteSpreads((a ^ b) as bv32);
  }

  lemma TopByteOnly(a: Octet, x: Octet, b: Octet, c: Octet, d: Octet)
    ensures Xor(Word32(a, b, c, d), Word32(x, b, c, d)) & 0x00ff_ffff == 0
  {
  }

  lemma CrcOfSnoc(p: seq<Octet>, b: Octet)
    ensures Crc(p + [b]) == Xor(ByteStep(Fold(ByteStep, ONES, p), b), ONES)
  {
    hide ByteStep, Xor;
    assert (p + [b])[..|p|] == p;
  }

  /** Damage to the last byte of the body, and perhaps to the first byte of the checksum. */
  lemma StraddleIsCaught(p: seq<Octet>, a: Octet, b: Octet, s: seq<Octet>, t: seq<Octet>)
    requires a != b && |s| == |t| == 4 && s[1..] == t[1..]
    requires Crc(p + [a]) == U32(s)
    ensures Crc(p + [b]) != U32(t)
  {
    hide ByteStep, Xor, Crc, Word32, Fold;
    var c := Fold(ByteStep, ONES, p);
    CrcOfSnoc(p, a);
    CrcOfSnoc(p, b);
    OnesTwice(ByteStep(c, a), ByteStep(c, b));
    StepsDiffer(c, a, b);
    assert s[1] == s[1..][0] == t[1] && s[2] == s[1..][1] == t[2] && s[3] == s[1..][2] == t[3];
    TopByteOnly(s[0], t[0], s[1], s[2], s[3]);
  }

  /** Two neighbouring damaged bytes anywhere in a payload. */
  lemma TwoBytesAreCaught(raw: seq<Octet>, damaged: seq<Octet>, i: nat)
    requires ChecksumHolds(raw) && DifferWithin(raw, damaged, i, 2)
    ensures Unmarshal(damaged) == Err(ErrChecksum)
  {
    hide Crc, Fields, Reachable, U32;
    var n := |raw| - 4;
    if raw[..n] == damaged[..n] {
      ChecksumDamageIsCaught(raw, damaged);
    } else if raw[n..] == damaged[n..] {
      BurstIsCaught(raw, damaged, i);
    } else {
      var k :| 0 <= k < n && raw[..n][k] != damaged[..n][k];
      var l :| 0 <= l < 4 && raw[n..][l] != damaged[n..][l];
      assert raw[k] != damaged[k] && raw[n + l] != damaged[n + l];
      assert k == i == n - 1 && l == 0;
      Straddle(raw, damaged, n);
    }
  }

  lemma Straddle(raw: seq<Octet>, damaged: seq<Octet>, n: nat)
    requires ChecksumHolds(raw) && n == |raw| - 4
    requires DifferWithin(raw, damaged, n - 1, 2) && raw[n - 1] != damaged[n - 1]
    ensures Unmarshal(damaged) == Err(ErrChecksum)
  {
    hide Crc, Fields, Reachable, U32;
    var p := raw[..n - 1];
    assert raw[..n] == p + [raw[n - 1]];
    assert damaged[..n] == p + [damaged[n - 1]];
    assert raw[n..][1..] == damaged[n..][1..];
    StraddleIsCaught(p, raw[n - 1], damaged[n - 1], raw[n..], damaged[n..]);
  }

  /** One symbol replaced: the same bytes, or a checksum error. */
  lemma SubstitutionIsCaught(raw: seq<Octet>, k: nat, s: Symbol)
    requires ChecksumHolds(raw) && k < |Encode(raw)|
    ensures Decode(Encode(raw)[k := s]) == raw || Unmarshal(Decode(Encode(raw)[k := s])) == Err(ErrChecksum)
  {
    hide Unmarshal, Encode, Decode, ChecksumHolds;
    var syms := Encode(raw);
    var damaged := Decode(syms[k := s]);
    DecodeOfEncode(raw);
    DecodeLength(syms);
    DecodeLength(syms[k := s]);
    if damaged != raw {
      forall j | 0 <= j < |raw| && raw[j] != damaged[j] ensures 5 * k / 8 <= j < 5 * k / 8 + 2 {
        if !(5 * k / 8 <= j < 5 * k / 8 + 2) {
          BytesOutside(syms, k, s, j);
        }
      }
      TwoBytesAreCaught(raw, damaged, 5 * k / 8);
    }
  }

  // ----- When the bytes are the same -----

  lemma {:induction false} GroupSymbolsLength(m: seq<bool>)
    ensures |GroupSymbols(m)| == (|m| + 4) / 5
    decreases |m|
  {
    if |m| >= 5 {
      GroupSymbolsLength(m[5..]);
    }
  }

  /** Equal bytes come from equal bits. */
  lemma BitsOfBytes(m: seq<bool>, n: seq<bool>, x: nat)
    requires |m| == |n| && GroupOctets(m) == GroupOctets(n) && x < |m| / 8 * 8
    ensures m[x] == n[x]
  {
    hide BitsOctet, OctetBits;
    var j := x / 8;
    GroupOctetsAt(m, j);
    GroupOctetsAt(n, j);
    BitsOfOctet(m[8 * j..8 * j + 8]);
    BitsOfOctet(n[8 * j..8 * j + 8]);
    assert m[8 * j..8 * j + 8][x - 8 * j] == n[8 * j..8 * j + 8][x - 8 * j];
  }

  /** A replaced symbol goes unnoticed exactly when it differs only in the bits that the decoder
      drops, which are fewer than five bits of the last symbol. */
  lemma UnnoticedIff(raw: seq<Octet>, k: nat, s: Symbol)
    requires k < |Encode(raw)|
    ensures Decode(Encode(raw)[k := s]) == raw
      <==> forall j :: 0 <= j < 5 && 5 * k + j < 8 * |raw| ==> SymbolBits(s)[j] == SymbolBits(Encode(raw)[k])[j]
    ensures 8 * |raw| > 5 * (|Encode(raw)| - 1)
  {
    hide Encode, SymbolBits, BitsOctet, GroupOctets;
    var syms := Encode(raw);
    var damaged := syms[k := s];
    EncodeLength(raw);
    DecodeOfEncode(raw);
    DecodeLength(syms);
    var m, n := SymbolsBits(syms), SymbolsBits(damaged);
    if Decode(damaged) == raw {
      forall j | 0 <= j < 5 && 5 * k + j < 8 * |raw| ensures SymbolBits(s)[j] == SymbolBits(syms[k])[j] {
        BitsOfBytes(m, n, 5 * k + j);
        SymbolsBitsAt(syms, k, j);
        SymbolsBitsAt(damaged, k, j);
      }
    } else if forall j :: 0 <= j < 5 && 5 * k + j < 8 * |raw| ==> SymbolBits(s)[j] == SymbolBits(syms[k])[j] {
      forall x | 0 <= x < 8 * |raw| ensures m[x] == n[x] {
        if 5 * k <= x < 5 * k + 5 {
          SymbolsBitsAt(syms, k, x - 5 * k);
          SymbolsBitsAt(damaged, k, x - 5 * k);
        } else {
          BitsOutside(syms, k, s, x);
        }
      }
      SameGroups(m, n);
    }
  }

  lemma EncodeLength(raw: seq<Octet>)
    ensures |Encode(raw)| == (8 * |raw| + 4) / 5
  {
    GroupSymbolsLength(DataBits(raw));
  }

  lemma SameGroups(m: seq<bool>, n: seq<bool>)
    requires |m| == |n| && forall x :: 0 <= x < |m| / 8 * 8 ==> m[x] == n[x]
    ensures GroupOctets(m) == GroupOctets(n)
  {
    hide BitsOctet;
    GroupOctetsAt(m, 0);
    GroupOctetsAt(n, 0);
    forall j | 0 <= j < |m| / 8 ensures GroupOctets(m)[j] == GroupOctets(n)[j] {
      GroupOctetsAt(m, j);
      GroupOctetsAt(n, j);
      assert m[8 * j..8 * j + 8] == n[8 * j..8 * j + 8];
    }
  }
}
