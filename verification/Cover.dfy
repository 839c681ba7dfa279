/** The connection preface that announces a profile (internal/cover/profile.go). */
module Cover {
  import opened Bytes
  import opened Wrappers
  import opened Framing

  datatype Profile = Profile(enabled: bool, id: nat, padding: nat, headerMask: byte, xor: bool, clear: bool)

  const MAX_PADDING := 4096

  /** The fields' widths: ID and Padding are 16-bit. */
  predicate InRange(p: Profile) {
    p.id < 0x1_0000 && p.padding < 0x1_0000
  }

  const MAGIC: seq<byte> := [0x44, 0x54, 0x43, 0x33]
  const KEY_LABEL: seq<byte> := [0x44, 0x72, 0x61, 0x67, 0x6f, 0x6e, 0x54, 0x43, 0x50, 0x2d, 0x43, 0x33]

  /** The mask for one profile ID. */
  function Key(h: Sha256, id: nat): Block {
    h(KEY_LABEL + BigEndian(id, 2) + [Xor(id % 256, 0x6d), Xor(id / 256 % 256, 0xb2)])
  }

  function Flags(p: Profile): byte {
    (if p.xor then 1 else 0) + (if p.clear then 2 else 0)
  }

  function Plain(p: Profile): (s: seq<byte>)
    ensures |s| == 10
  {
    var pad := BigEndian(p.padding, 2);
    MAGIC + [Flags(p), p.headerMask] + pad + [Xor(Xor(Flags(p), p.headerMask), 0xa5), Xor(Xor(pad[0], pad[1]), 0x5a)]
  }

  function XorWith(s: seq<byte>, key: Block): (r: seq<byte>)
    requires |s| <= 32
    ensures |r| == |s|
  {
    seq(|s|, i requires 0 <= i < |s| => Xor(s[i], key[i]))
  }

  lemma XorWithTwice(s: seq<byte>, key: Block)
    requires |s| <= 32
    ensures XorWith(XorWith(s, key), key) == s
  {
    forall i | 0 <= i < |s| ensures Xor(Xor(s[i], key[i]), key[i]) == s[i] {
      XorTwice(s[i], key[i]);
    }
  }

  datatype Encoded = Preface(bytes: seq<byte>) | Disabled | PaddingTooLarge

  /** EncodePreface: the ID in clear, the rest masked. */
  function Encode(h: Sha256, p: Profile): Encoded {
    if !p.enabled then Disabled
    else if p.padding > MAX_PADDING then PaddingTooLarge
    else Preface(BigEndian(p.id, 2) + XorWith(Plain(p), Key(h, p.id)))
  }

  /** What an unmasked header says; None if it is not one. */
  function ReadPlain(id: nat, plain: seq<byte>): Option<Profile>
    requires |plain| == 10
  {
    if plain[0..4] != MAGIC || plain[4] >= 4 then None
    else if plain[8] != Xor(Xor(plain[4], plain[5]), 0xa5) || plain[9] != Xor(Xor(plain[6], plain[7]), 0x5a) then None
    else
      var padding := Value(plain[6..8]);
      if padding > MAX_PADDING then None
      else Some(Profile(true, id, padding, plain[5], plain[4] % 2 == 1, plain[4] / 2 % 2 == 1))
  }

  /** DecodePreface; None means the bytes belong to a connection without a preface. */
  function Decode(h: Sha256, s: seq<byte>): Option<Profile>
    requires |s| == 12
  {
    var id := Value(s[0..2]);
    ReadPlain(id, XorWith(s[2..], Key(h, id)))
  }

  lemma ReadPlainOfPlain(p: Profile)
    requires InRange(p) && p.enabled && p.padding <= MAX_PADDING
    ensures ReadPlain(p.id, Plain(p)) == Some(p)
  {
    hide Xor;
    Widths();
    ValueOfBigEndian(p.padding, 2);
    assert Plain(p)[0..4] == MAGIC;
    assert Plain(p)[6..8] == BigEndian(p.padding, 2);
  }

  lemma PlainOfReadPlain(id: nat, plain: seq<byte>)
    requires |plain| == 10 && id < 0x1_0000 && ReadPlain(id, plain).Some?
    ensures InRange(ReadPlain(id, plain).value) && Plain(ReadPlain(id, plain).value) == plain
  {
    hide Xor;
    Widths();
    BigEndianOfValue(plain[6..8]);
    assert Flags(ReadPlain(id, plain).value) == plain[4];
    assert plain == plain[0..4] + [plain[4], plain[5]] + plain[6..8] + [plain[8], plain[9]];
  }

  lemma Unmask(id: nat, plain: seq<byte>, key: Block)
    requires id < 0x1_0000 && |plain| <= 32
    ensures var s := BigEndian(id, 2) + XorWith(plain, key);
            Value(s[0..2]) == id && XorWith(s[2..], key) == plain
  {
    Widths();
    ValueOfBigEndian(id, 2);
    var s := BigEndian(id, 2) + XorWith(plain, key);
    assert s[0..2] == BigEndian(id, 2) && s[2..] == XorWith(plain, key);
    XorWithTwice(plain, key);
  }

  /** Every profile that can be sent is recognised. */
  lemma DecodeEncode(h: Sha256, p: Profile)
    requires InRange(p) && p.enabled && p.padding <= MAX_PADDING
    ensures Encode(h, p).Preface? && |Encode(h, p).bytes| == 12 && Decode(h, Encode(h, p).bytes) == Some(p)
  {
    Unmask(p.id, Plain(p), Key(h, p.id));
    ReadPlainOfPlain(p);
  }

  /** Whatever is recognised is exactly what its profile encodes to: no two prefaces mean the same. */
  lemma EncodeDecode(h: Sha256, s: seq<byte>)
    requires |s| == 12 && Decode(h, s).Some?
    ensures InRange(Decode(h, s).value) && Encode(h, Decode(h, s).value) == Preface(s)
  {
    var id := Value(s[0..2]);
    Widths();
    BigEndianOfValue(s[0..2]);
    PlainOfReadPlain(id, XorWith(s[2..], Key(h, id)));
    XorWithTwice(s[2..], Key(h, id));
    assert s == s[0..2] + s[2..];
  }

  /** The text's bytes. */
  predicate Spells(s: seq<byte>, text: string) {
    |s| == |text| && forall i :: 0 <= i < |s| ==> s[i] == text[i] as int
  }

  /** Two bytes, the first counting most. */
  function Pair(high: int, low: int): int { 256 * high + low }

  /** What is hashed for the mask of one ID, as a reader sees it. */
  predicate IsKeyInput(s: seq<byte>, id: nat) {
    && |s| == 16 && Spells(s[..12], "DragonTCP-C3") && Pair(s[12], s[13]) == id
    && s[14] == Xor(s[13], 0x6d) && s[15] == Xor(s[12], 0xb2)
  }

  lemma TwoBytes(v: nat)
    requires v < 0x1_0000
    ensures BigEndian(v, 2) == [v / 256, v % 256]
  {
    assert BigEndian(v / 256, 1) == [v / 256 % 256];
  }

  lemma KeyOf(h: Sha256, id: nat, input: seq<byte>)
    requires id < 0x1_0000 && IsKeyInput(input, id)
    ensures Key(h, id) == h(input)
  {
    hide Xor;
    TwoBytes(id);
    assert input[..12] == KEY_LABEL;
    assert input == input[..12] + [input[12], input[13]] + [input[14], input[15]];
  }

  /** What is under the mask, as a reader sees it: the magic, two flags, the header mask, the padding
      length and two check bytes. */
  predicate IsPlain(u: seq<byte>, p: Profile) {
    && |u| == 10 && Spells(u[..4], "DTC3")
    && u[4] < 4 && (Bit(u[4], 0) == 1 <==> p.xor) && (Bit(u[4], 1) == 1 <==> p.clear)
    && u[5] == p.headerMask && Pair(u[6], u[7]) == p.padding
    && u[8] == Xor(Xor(u[4], u[5]), 0xa5) && u[9] == Xor(Xor(u[6], u[7]), 0x5a)
  }

  lemma PlainLayout(p: Profile)
    requires InRange(p)
    ensures IsPlain(Plain(p), p)
  {
    hide Xor;
    TwoBytes(p.padding);
    assert Plain(p)[..4] == MAGIC;
    assert Bit(Flags(p), 1) == Flags(p) / 2 % 2;
  }

  /** Where everything is in a preface: the ID in clear, the rest masked with the hash for that ID. */
  lemma PrefaceLayout(h: Sha256, p: Profile, input: seq<byte>)
    requires InRange(p) && p.enabled && p.padding <= MAX_PADDING && IsKeyInput(input, p.id)
    ensures Encode(h, p).Preface? && |Encode(h, p).bytes| == 12
    ensures var s := Encode(h, p).bytes;
            Pair(s[0], s[1]) == p.id && IsPlain(XorWith(s[2..], h(input)), p)
  {
    hide Xor, Plain, XorWith, IsPlain, Key, IsKeyInput;
    KeyOf(h, p.id, input);
    TwoBytes(p.id);
    PlainLayout(p);
    assert Encode(h, p).bytes[2..] == XorWith(Plain(p), h(input));
    XorWithTwice(Plain(p), h(input));
  }

  // ---------------------------------------------------------------- the program's own form

  /** EncodePreface fills two fixed arrays. */
  method EncodePreface(h: Sha256, p: Profile) returns (result: Encoded)
    ensures result == Encode(h, p)
  {
    hide Xor, Plain, Key, XorBits;
    if !p.enabled {
      return Disabled;
    }
    if p.padding > MAX_PADDING {
      return PaddingTooLarge;
    }
    var out := new byte[12](_ => 0);
    var id := BigEndian(p.id, 2);
    out[0], out[1] := id[0], id[1];
    var plain := FillPlain(p);
    var k := Key(h, p.id);
    for i := 0 to 10
      invariant plain[..] == Plain(p)
      invariant out[..2 + i] == id + XorWith(plain[..], k)[..i]
    {
      out[2 + i] := Xor(plain[i], k[i]);
      assert out[..2 + i + 1] == out[..2 + i] + [XorWith(plain[..], k)[i]];
    }
    ghost var masked := XorWith(Plain(p), k);
    assert out[..] == id + masked;
    return Preface(out[..]);
  }

  method FillPlain(p: Profile) returns (plain: array<byte>)
    ensures fresh(plain) && plain[..] == Plain(p)
  {
    hide Xor;
    plain := new byte[10](_ => 0);
    plain[0], plain[1], plain[2], plain[3] := 0x44, 0x54, 0x43, 0x33;
    if p.xor {
      plain[4] := plain[4] + 1;
    }
    if p.clear {
      plain[4] := plain[4] + 2;
    }
    plain[5] := p.headerMask;
    var pad := BigEndian(p.padding, 2);
    plain[6], plain[7] := pad[0], pad[1];
    plain[8] := Xor(Xor(plain[4], plain[5]), 0xa5);
    plain[9] := Xor(Xor(plain[6], plain[7]), 0x5a);
  }

  /** DecodePreface unmasks into a fixed array and checks it. */
  method DecodePreface(h: Sha256, s: seq<byte>) returns (p: Option<Profile>)
    requires |s| == 12
    ensures p == Decode(h, s)
  {
    hide Xor;
    var id := Value(s[0..2]);
    var k := Key(h, id);
    var plain := new byte[10](_ => 0);
    for i := 0 to 10
      invariant forall j :: 0 <= j < i ==> plain[j] == Xor(s[2 + j], k[j])
    {
      plain[i] := Xor(s[2 + i], k[i]);
    }
    assert plain[..] == XorWith(s[2..], k);
    if plain[0..4] != MAGIC || plain[4] >= 4 {
      return None;
    }
    if plain[8] != Xor(Xor(plain[4], plain[5]), 0xa5) || plain[9] != Xor(Xor(plain[6], plain[7]), 0x5a) {
      return None;
    }
    var padding := Value(plain[6..8]);
    if padding > MAX_PADDING {
      return None;
    }
    return Some(Profile(true, id, padding, plain[5], plain[4] % 2 == 1, plain[4] / 2 % 2 == 1));
  }
}
