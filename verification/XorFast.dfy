/** The word-wide XOR of the X wire (internal/protocol/xor_fast64.go) against the byte loop it
    replaces (internal/protocol/xor_generic.go). */
module XorFast {
  const XOR_KEY: bv8 := 0xAD
  const XOR_WORD_MASK: bv64 := 0xADAD_ADAD_ADAD_ADAD

  function KeyXor(b: bv8): bv8 {
    b ^ XOR_KEY
  }

  /** The specification: every byte XORed with the key. */
  function Xored(s: seq<bv8>): (r: seq<bv8>)
    ensures |r| == |s|
  {
    seq(|s|, i requires 0 <= i < |s| => KeyXor(s[i]))
  }

  lemma XoredTwice(s: seq<bv8>)
    ensures Xored(Xored(s)) == s
  {
    forall i | 0 <= i < |s| ensures KeyXor(KeyXor(s[i])) == s[i] {
    }
  }

  /** The generic loop. */
  method XorGeneric(b: array<bv8>)
    modifies b
    ensures b[..] == Xored(old(b[..]))
  {
    for i := 0 to b.Length
      invariant forall j :: 0 <= j < i ==> b[j] == KeyXor(old(b[j]))
      invariant forall j :: i <= j < b.Length ==> b[j] == old(b[j])
    {
      b[i] := b[i] ^ XOR_KEY;
    }
  }

  // ---------------------------------------------------------------- words

  /** Byte k of a little-endian word. */
  function ByteOf(w: bv64, k: nat): bv8
    requires k < 8
  {
    match k
    case 0 => (w & 0xFF) as bv8
    case 1 => ((w >> 8) & 0xFF) as bv8
    case 2 => ((w >> 16) & 0xFF) as bv8
    case 3 => ((w >> 24) & 0xFF) as bv8
    case 4 => ((w >> 32) & 0xFF) as bv8
    case 5 => ((w >> 40) & 0xFF) as bv8
    case 6 => ((w >> 48) & 0xFF) as bv8
    case _ => ((w >> 56) & 0xFF) as bv8
  }

  function Word(b0: bv8, b1: bv8, b2: bv8, b3: bv8, b4: bv8, b5: bv8, b6: bv8, b7: bv8): bv64 {
    (b0 as bv64) | ((b1 as bv64) << 8) | ((b2 as bv64) << 16) | ((b3 as bv64) << 24)
    | ((b4 as bv64) << 32) | ((b5 as bv64) << 40) | ((b6 as bv64) << 48) | ((b7 as bv64) << 56)
  }

  function MaskWord(w: bv64): bv64 {
    w ^ XOR_WORD_MASK
  }

  /** XORing a word with the repeated key XORs each of its bytes with the key. */
  lemma WordXor(b0: bv8, b1: bv8, b2: bv8, b3: bv8, b4: bv8, b5: bv8, b6: bv8, b7: bv8)
    ensures var w := MaskWord(Word(b0, b1, b2, b3, b4, b5, b6, b7));
            && ByteOf(w, 0) == KeyXor(b0) && ByteOf(w, 1) == KeyXor(b1)
            && ByteOf(w, 2) == KeyXor(b2) && ByteOf(w, 3) == KeyXor(b3)
            && ByteOf(w, 4) == KeyXor(b4) && ByteOf(w, 5) == KeyXor(b5)
            && ByteOf(w, 6) == KeyXor(b6) && ByteOf(w, 7) == KeyXor(b7)
  {
  }

  function Load(s: seq<bv8>): bv64
    requires |s| == 8
  {
    Word(s[0], s[1], s[2], s[3], s[4], s[5], s[6], s[7])
  }

  function Stored(w: bv64): (s: seq<bv8>)
    ensures |s| == 8
  {
    [ByteOf(w, 0), ByteOf(w, 1), ByteOf(w, 2), ByteOf(w, 3), ByteOf(w, 4), ByteOf(w, 5), ByteOf(w, 6), ByteOf(w, 7)]
  }

  lemma LoadXorStore(s: seq<bv8>)
    requires |s| == 8
    ensures Stored(MaskWord(Load(s))) == Xored(s)
  {
    hide Word, ByteOf, KeyXor, MaskWord;
    WordXor(s[0], s[1], s[2], s[3], s[4], s[5], s[6], s[7]);
  }

  /** The first `done` bytes are XORed, the others are as they were. */
  ghost predicate XoredUpTo(was: seq<bv8>, now: seq<bv8>, done: nat) {
    && |was| == |now|
    && (forall j :: 0 <= j < done && j < |was| ==> now[j] == KeyXor(was[j]))
    && (forall j :: done <= j < |was| ==> now[j] == was[j])
  }

  /** One 64-bit load, XOR and store at b[i]. */
  method XorWord(b: array<bv8>, i: nat, ghost was: seq<bv8>)
    requires i + 8 <= b.Length && XoredUpTo(was, b[..], i)
    modifies b
    ensures XoredUpTo(was, b[..], i + 8)
  {
    hide Load, Stored, KeyXor, MaskWord;
    var s := b[i..i + 8];
    var t := Stored(MaskWord(Load(s)));
    LoadXorStore(s);
    forall k | i <= k < i + 8 {
      b[k] := t[k - i];
    }
  }

  /** XorInPlace for 64-bit targets: bytes up to an aligned address, eight words at a time, single
      words, and the tail. It equals the byte loop for every length and every address of b[0]. */
  method XorInPlace(b: array<bv8>, address: nat)
    modifies b
    ensures b[..] == Xored(old(b[..]))
  {
    hide Word, ByteOf;
    var n := b.Length;
    if n == 0 {
      return;
    }
    ghost var was := b[..];
    var i := 0;
    while i < n && (address + i) % 8 != 0
      invariant 0 <= i <= n && XoredUpTo(was, b[..], i)
    {
      b[i] := b[i] ^ XOR_KEY;
      i := i + 1;
    }
    while i + 64 <= n
      invariant 0 <= i <= n && XoredUpTo(was, b[..], i)
    {
      XorWord(b, i, was);
      XorWord(b, i + 8, was);
      XorWord(b, i + 16, was);
      XorWord(b, i + 24, was);
      XorWord(b, i + 32, was);
      XorWord(b, i + 40, was);
      XorWord(b, i + 48, was);
      XorWord(b, i + 56, was);
      i := i + 64;
    }
    while i + 8 <= n
      invariant 0 <= i <= n && XoredUpTo(was, b[..], i)
    {
      XorWord(b, i, was);
      i := i + 8;
    }
    while i < n
      invariant 0 <= i <= n && XoredUpTo(was, b[..], i)
    {
      b[i] := b[i] ^ XOR_KEY;
      i := i + 1;
    }
    assert b[..] == Xored(was);
  }
}
