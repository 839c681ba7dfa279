/** Bytes, their exclusive or, big-endian integers, and streams cut into parts. */
module Bytes {
  type byte = n: nat | n < 256

  /** Bitwise exclusive or of the k low bits. */
  function XorBits(a: nat, b: nat, k: nat): nat {
    if k == 0 then 0 else 2 * XorBits(a / 2, b / 2, k - 1) + (a + b) % 2
  }

  function Pow2(k: nat): nat {
    if k == 0 then 1 else 2 * Pow2(k - 1)
  }

  lemma Halve(high: nat, low: nat)
    requires low < 2
    ensures (2 * high + low) / 2 == high && (2 * high + low) % 2 == low
  {
  }

  lemma Parity(a: nat, b: nat, high: nat)
    ensures (2 * high + (a + b) % 2 + b) % 2 == a % 2
  {
    var p, q := a % 2, b % 2;
    assert (a + b) % 2 == (p + q) % 2;
    assert 2 * high + (p + q) % 2 + b == 2 * (high + b / 2) + ((p + q) % 2 + q);
    assert ((p + q) % 2 + q) % 2 == p;
  }

  lemma {:induction false} XorBitsTwice(a: nat, b: nat, k: nat)
    requires a < Pow2(k)
    ensures XorBits(XorBits(a, b, k), b, k) == a
  {
    if k > 0 {
      XorBitsTwice(a / 2, b / 2, k - 1);
      var x := XorBits(a / 2, b / 2, k - 1);
      Halve(x, (a + b) % 2);
      Parity(a, b, x);
    }
  }

  lemma {:induction false} XorBitsBound(a: nat, b: nat, k: nat)
    ensures XorBits(a, b, k) < Pow2(k)
  {
    if k > 0 {
      XorBitsBound(a / 2, b / 2, k - 1);
    }
  }

  lemma Pow2Of8()
    ensures Pow2(8) == 256
  {
    assert Pow2(4) == 16;
  }

  function Xor(a: byte, b: byte): byte {
    XorBitsBound(a, b, 8);
    Pow2Of8();
    XorBits(a, b, 8)
  }

  lemma XorTwice(a: byte, b: byte)
    ensures Xor(Xor(a, b), b) == a
  {
    Pow2Of8();
    XorBitsTwice(a, b, 8);
  }

  /** Bit i of v, the lowest being bit 0. */
  function Bit(v: nat, i: nat): nat {
    if i == 0 then v % 2 else Bit(v / 2, i - 1)
  }

  lemma SumOfBits(x: nat, a: nat, b: nat)
    ensures (2 * x + (a + b) % 2) % 2 == (if a % 2 != b % 2 then 1 else 0)
    ensures (2 * x + (a + b) % 2) / 2 == x
  {
  }

  lemma {:induction false} XorBitsAt(a: nat, b: nat, k: nat, i: nat)
    requires i < k
    ensures Bit(XorBits(a, b, k), i) == if Bit(a, i) != Bit(b, i) then 1 else 0
  {
    SumOfBits(XorBits(a / 2, b / 2, k - 1), a, b);
    if i > 0 {
      XorBitsAt(a / 2, b / 2, k - 1, i - 1);
    }
  }

  /** A bit of the result is set exactly if it is set in one of the two bytes. */
  lemma XorIsBitwise(a: byte, b: byte, i: nat)
    requires i < 8
    ensures Bit(Xor(a, b), i) == if Bit(a, i) != Bit(b, i) then 1 else 0
  {
    XorBitsAt(a, b, 8, i);
  }

  function Pow256(k: nat): nat {
    if k == 0 then 1 else 256 * Pow256(k - 1)
  }

  /** The k low-order bytes of v, most significant first. */
  function BigEndian(v: nat, k: nat): (s: seq<byte>)
    ensures |s| == k
  {
    if k == 0 then [] else BigEndian(v / 256, k - 1) + [v % 256]
  }

  function Value(s: seq<byte>): nat {
    if s == [] then 0 else 256 * Value(s[..|s| - 1]) + s[|s| - 1]
  }

  lemma {:induction false} ValueOfBigEndian(v: nat, k: nat)
    requires v < Pow256(k)
    ensures Value(BigEndian(v, k)) == v
  {
    if k > 0 {
      ValueOfBigEndian(v / 256, k - 1);
      assert BigEndian(v, k)[..k - 1] == BigEndian(v / 256, k - 1);
    }
  }

  lemma {:induction false} BigEndianOfValue(s: seq<byte>)
    ensures Value(s) < Pow256(|s|) && BigEndian(Value(s), |s|) == s
  {
    if s != [] {
      BigEndianOfValue(s[..|s| - 1]);
      assert s == s[..|s| - 1] + [s[|s| - 1]];
    }
  }

  /** The first byte counts most. */
  lemma {:induction false} MostSignificantFirst(b: byte, s: seq<byte>)
    ensures Value([b] + s) == b * Pow256(|s|) + Value(s)
  {
    if s != [] {
      var init := s[..|s| - 1];
      MostSignificantFirst(b, init);
      assert ([b] + s)[..|s|] == [b] + init;
      assert 256 * (b * Pow256(|init|)) == b * (256 * Pow256(|init|));
    } else {
      assert [b] + s == [b] && [b][..0] == [];
    }
  }

  /** Equally long and of equal value means equal. */
  lemma ValueInjective(s: seq<byte>, t: seq<byte>)
    requires |s| == |t| && Value(s) == Value(t)
    ensures s == t
  {
    BigEndianOfValue(s);
    BigEndianOfValue(t);
  }

  lemma CarryOver(v: nat, high: nat)
    ensures (v + 256 * high) / 256 == v / 256 + high && (v + 256 * high) % 256 == v % 256
  {
  }

  /** `high` moved k bytes up. */
  function Shifted(high: nat, k: nat): nat {
    if k == 0 then high else 256 * Shifted(high, k - 1)
  }

  /** What does not fit is dropped at the high end. */
  lemma {:induction false} HighBytesDrop(v: nat, k: nat, high: nat)
    ensures BigEndian(v + Shifted(high, k), k) == BigEndian(v, k)
  {
    if k > 0 {
      CarryOver(v, Shifted(high, k - 1));
      HighBytesDrop(v / 256, k - 1, high);
    }
  }

  /** A 32-bit field holds the number modulo 2^32. */
  lemma FourBytesWrap(v: nat)
    ensures Value(BigEndian(v, 4)) == v % 0x1_0000_0000
  {
    var low, high := v % 0x1_0000_0000, v / 0x1_0000_0000;
    assert Shifted(high, 1) == 256 * high && Shifted(high, 3) == 256 * Shifted(high, 2);
    HighBytesDrop(low, 4, high);
    Widths();
    ValueOfBigEndian(low, 4);
  }

  lemma Widths()
    ensures Pow256(2) == 0x1_0000 && Pow256(4) == 0x1_0000_0000 && Pow256(8) == 0x1_0000_0000_0000_0000
  {
    assert Pow256(3) == 0x100_0000 && Pow256(6) == 0x1_0000_0000_0000;
  }

  /** All parts in order. */
  function Flatten(parts: seq<seq<byte>>): seq<byte> {
    if parts == [] then [] else Flatten(parts[..|parts| - 1]) + parts[|parts| - 1]
  }

  lemma FlattenNothing()
    ensures Flatten([]) == []
  {
  }

  lemma FlattenAppend(parts: seq<seq<byte>>, part: seq<byte>)
    ensures Flatten(parts + [part]) == Flatten(parts) + part
  {
    assert (parts + [part])[..|parts|] == parts;
  }
}
