/** The binary frames of the B and BP wires (internal/wire/protocol.go): requests and responses,
    in the 29/5-byte form and the multiplexed 33/9-byte form, with payloads masked by a SHA-256
    keystream or left clear.

    SHA-256 is any function to 32 bytes. */
module Framing {
  import opened Bytes
  import opened Wrappers

  type Block = s: seq<byte> | |s| == 32 witness seq(32, _ => 0)
  type Sha256 = seq<byte> -> Block
  type Session = s: seq<byte> | |s| == 16 witness seq(16, _ => 0)

  const MAX_PAYLOAD := 2 * 1024 * 1024

  const MODE_CLOSE := 4
  const STATUS_ERROR := 1
  const STATUS_EOF := 4

  // ---------------------------------------------------------------- the payload mask

  /** The hash input for one block; the 32-bit counter wraps because only its low four bytes are
      written. */
  function Seed(sid: Session, mode: byte, num: nat, response: bool, counter: nat): seq<byte> {
    sid + [mode] + BigEndian(num, 8) + [if response then 1 else 0] + BigEndian(counter, 4)
  }

  /** The 30 bytes that are hashed for one block, as a reader sees them. */
  predicate IsSeed(s: seq<byte>, sid: Session, mode: byte, num: nat, response: bool, block: nat) {
    && |s| == 30 && s[..16] == sid && s[16] == mode
    && (num < 0x1_0000_0000_0000_0000 ==> Value(s[17..25]) == num)
    && s[25] == (if response then 1 else 0)
    && Value(s[26..30]) == block % 0x1_0000_0000
  }

  lemma SeedLayout(sid: Session, mode: byte, num: nat, response: bool, block: nat)
    ensures IsSeed(Seed(sid, mode, num, response, block), sid, mode, num, response, block)
  {
    hide BigEndian, Value;
    var s := Seed(sid, mode, num, response, block);
    assert s[17..25] == BigEndian(num, 8) && s[26..30] == BigEndian(block, 4);
    FourBytesWrap(block);
    Widths();
    if num < 0x1_0000_0000_0000_0000 {
      ValueOfBigEndian(num, 8);
    }
  }

  /** Two seeds that read the same are the same bytes. */
  lemma OneSeed(s: seq<byte>, t: seq<byte>, sid: Session, mode: byte, num: nat, response: bool, block: nat)
    requires num < 0x1_0000_0000_0000_0000
    requires IsSeed(s, sid, mode, num, response, block) && IsSeed(t, sid, mode, num, response, block)
    ensures s == t
  {
    hide Value;
    ValueInjective(s[17..25], t[17..25]);
    ValueInjective(s[26..30], t[26..30]);
    assert s == s[..16] + [s[16]] + s[17..25] + [s[25]] + s[26..30];
    assert t == t[..16] + [t[16]] + t[17..25] + [t[25]] + t[26..30];
  }

  /** No two blocks of any two payloads are masked from the same bytes: equal seeds belong to the
      same session, mode, number, direction and block. */
  lemma SeedsDiffer(
      sid: Session, mode: byte, num: nat, response: bool, block: nat,
      sid2: Session, mode2: byte, num2: nat, response2: bool, block2: nat)
    requires num < 0x1_0000_0000_0000_0000 && num2 < 0x1_0000_0000_0000_0000
    requires block < 0x1_0000_0000 && block2 < 0x1_0000_0000
    requires Seed(sid, mode, num, response, block) == Seed(sid2, mode2, num2, response2, block2)
    ensures sid == sid2 && mode == mode2 && num == num2 && response == response2 && block == block2
  {
    hide Seed;
    SeedLayout(sid, mode, num, response, block);
    SeedLayout(sid2, mode2, num2, response2, block2);
  }

  /** Byte i is masked with byte i % 32 of block i / 32. */
  function KeyByte(h: Sha256, sid: Session, mode: byte, num: nat, response: bool, i: nat): byte {
    h(Seed(sid, mode, num, response, i / 32))[i % 32]
  }

  function Masked(h: Sha256, data: seq<byte>, sid: Session, mode: byte, num: nat, response: bool): (m: seq<byte>)
    ensures |m| == |data|
  {
    seq(|data|, i requires 0 <= i < |data| => Xor(data[i], KeyByte(h, sid, mode, num, response, i)))
  }

  /** Masking is a bitwise exclusive or of byte i with byte i % 32 of the hash of block i / 32. */
  lemma MaskedByte(
      h: Sha256, data: seq<byte>, sid: Session, mode: byte, num: nat, response: bool, i: nat, seed: seq<byte>)
    requires i < |data| && num < 0x1_0000_0000_0000_0000 && IsSeed(seed, sid, mode, num, response, i / 32)
    ensures Masked(h, data, sid, mode, num, response)[i] == Xor(data[i], h(seed)[i % 32])
  {
    hide Seed, Xor;
    SeedLayout(sid, mode, num, response, i / 32);
    OneSeed(seed, Seed(sid, mode, num, response, i / 32), sid, mode, num, response, i / 32);
  }

  /** Masking undoes itself. */
  lemma MaskTwice(h: Sha256, data: seq<byte>, sid: Session, mode: byte, num: nat, response: bool)
    ensures Masked(h, Masked(h, data, sid, mode, num, response), sid, mode, num, response) == data
  {
    forall i | 0 <= i < |data|
      ensures Xor(Xor(data[i], KeyByte(h, sid, mode, num, response, i)), KeyByte(h, sid, mode, num, response, i))
            == data[i]
    {
      XorTwice(data[i], KeyByte(h, sid, mode, num, response, i));
    }
  }

  /** The first `done` bytes after `from` are masked, the others are as they were. */
  ghost predicate MaskedUpTo(
      h: Sha256, was: seq<byte>, now: seq<byte>, from: nat, done: nat, sid: Session, mode: byte, num: nat,
      response: bool) {
    && |was| == |now|
    && (forall j :: 0 <= j < |was| && !(from <= j < from + done) ==> now[j] == was[j])
    && (forall j :: from <= j < from + done && j < |was| ==>
         now[j] == Xor(was[j], KeyByte(h, sid, mode, num, response, j - from)))
  }

  lemma MaskOneMore(
      h: Sha256, was: seq<byte>, now: seq<byte>, from: nat, done: nat, sid: Session, mode: byte, num: nat,
      response: bool)
    requires MaskedUpTo(h, was, now, from, done, sid, mode, num, response) && from + done < |was|
    ensures |was| == |now|
    ensures var next := now[from + done := Xor(now[from + done], KeyByte(h, sid, mode, num, response, done))];
            MaskedUpTo(h, was, next, from, done + 1, sid, mode, num, response)
  {
    hide Xor, KeyByte;
  }

  lemma MaskDone(
      h: Sha256, was: seq<byte>, now: seq<byte>, from: nat, sid: Session, mode: byte, num: nat, response: bool)
    requires from <= |was| && MaskedUpTo(h, was, now, from, |was| - from, sid, mode, num, response)
    ensures now == was[..from] + Masked(h, was[from..], sid, mode, num, response)
  {
    hide Xor, KeyByte;
  }

  /** MaskInPlace on the slice data[from..]. */
  method MaskInPlace(h: Sha256, data: array<byte>, from: nat, sid: Session, mode: byte, num: nat, response: bool)
    requires from <= data.Length
    modifies data
    ensures data[..] == old(data[..from]) + Masked(h, old(data[from..]), sid, mode, num, response)
  {
    hide Xor, Seed, Masked;
    ghost var was := data[..];
    var len := data.Length - from;
    var counter, off := 0, 0;
    while off < len
      invariant 0 <= off <= len && (off == 32 * counter || off == len)
      invariant MaskedUpTo(h, was, data[..], from, off, sid, mode, num, response)
    {
      var block := h(Seed(sid, mode, num, response, counter));
      var n := len - off;
      if n > 32 {
        n := 32;
      }
      for i := 0 to n
        invariant MaskedUpTo(h, was, data[..], from, off + i, sid, mode, num, response)
      {
        assert (off + i) / 32 == counter && (off + i) % 32 == i;
        MaskOneMore(h, was, data[..], from, off + i, sid, mode, num, response);
        ghost var before := data[..];
        data[from + off + i] := Xor(data[from + off + i], block[i]);
        assert data[..] == before[from + off + i := data[from + off + i]];
      }
      off := off + n;
      counter := counter + 1;
    }
    MaskDone(h, was, data[..], from, sid, mode, num, response);
    assert was[..from] == old(data[..from]) && was[from..] == old(data[from..]);
  }

  // ---------------------------------------------------------------- requests

  /** `id` is present in the multiplexed form. */
  datatype Request = Request(mode: byte, session: Session, num: nat, id: Option<nat>, payload: seq<byte>)

  datatype Decoded<+T> = Got(value: T, rest: seq<byte>) | ShortRead | UnknownTag | TooLarge

  predicate ValidRequest(r: Request) {
    && r.mode <= MODE_CLOSE && r.num < 0x1_0000_0000_0000_0000
    && (r.id.Some? ==> r.id.value < 0x1_0000_0000) && |r.payload| <= MAX_PAYLOAD
  }

  function RequestHeaderSize(mux: bool): nat { if mux then 33 else 29 }

  function IdBytes(id: Option<nat>): seq<byte> {
    match id case None => [] case Some(n) => BigEndian(n, 4)
  }

  function RequestHeader(r: Request, headerMask: byte): (s: seq<byte>)
    ensures |s| == RequestHeaderSize(r.id.Some?)
  {
    [Xor(r.mode, headerMask)] + r.session + BigEndian(r.num, 8) + IdBytes(r.id) + BigEndian(|r.payload|, 4)
  }

  function EncodeRequest(h: Sha256, r: Request, headerMask: byte, clear: bool): seq<byte> {
    RequestHeader(r, headerMask) + if clear then r.payload else Masked(h, r.payload, r.session, r.mode, r.num, false)
  }

  function DecodeRequest(h: Sha256, s: seq<byte>, headerMask: byte, clear: bool, mux: bool): Decoded<Request> {
    var size := RequestHeaderSize(mux);
    if |s| < size then ShortRead
    else
      var mode := Xor(s[0], headerMask);
      if mode > MODE_CLOSE then UnknownTag
      else
        var sid, num := s[1..17], Value(s[17..25]);
        var id := if mux then Some(Value(s[25..29])) else None;
        var n := Value(s[size - 4..size]);
        if n > MAX_PAYLOAD then TooLarge
        else if n > |s| - size then ShortRead
        else
          var body := s[size..size + n];
          var payload := if clear then body else Masked(h, body, sid, mode, num, false);
          Got(Request(mode, sid, num, id, payload), s[size + n..])
  }

  lemma HeaderFields(r: Request, headerMask: byte, tail: seq<byte>)
    requires ValidRequest(r)
    ensures var s, size := RequestHeader(r, headerMask) + tail, RequestHeaderSize(r.id.Some?);
            && Xor(s[0], headerMask) == r.mode && s[1..17] == r.session && Value(s[17..25]) == r.num
            && (r.id.Some? ==> Some(Value(s[25..29])) == r.id)
            && Value(s[size - 4..size]) == |r.payload| && s[size..] == tail
  {
    var s, size := RequestHeader(r, headerMask) + tail, RequestHeaderSize(r.id.Some?);
    Widths();
    XorTwice(r.mode, headerMask);
    assert s[17..25] == BigEndian(r.num, 8);
    ValueOfBigEndian(r.num, 8);
    if r.id.Some? {
      assert s[25..29] == BigEndian(r.id.value, 4);
      ValueOfBigEndian(r.id.value, 4);
    }
    assert s[size - 4..size] == BigEndian(|r.payload|, 4);
    ValueOfBigEndian(|r.payload|, 4);
  }

  /** Where everything is in a request: the masked mode, the session, the number, the id if there is
      one, the length, and the payload, clear or masked with the blocks of this request. */
  lemma RequestLayout(h: Sha256, r: Request, headerMask: byte, clear: bool, i: nat, seed: seq<byte>)
    requires ValidRequest(r) && i < |r.payload| && IsSeed(seed, r.session, r.mode, r.num, false, i / 32)
    ensures var s, size := EncodeRequest(h, r, headerMask, clear), if r.id.Some? then 33 else 29;
            && |s| == size + |r.payload|
            && Xor(s[0], headerMask) == r.mode && s[1..17] == r.session && Value(s[17..25]) == r.num
            && (r.id.Some? ==> Some(Value(s[25..29])) == r.id) && Value(s[size - 4..size]) == |r.payload|
            && s[size + i] == if clear then r.payload[i] else Xor(r.payload[i], h(seed)[i % 32])
  {
    hide RequestHeader, IsSeed, Masked, Xor, Value;
    var body := if clear then r.payload else Masked(h, r.payload, r.session, r.mode, r.num, false);
    HeaderFields(r, headerMask, body);
    MaskedByte(h, r.payload, r.session, r.mode, r.num, false, i, seed);
  }

  /** Reading what was written gives the request back and leaves exactly what followed it. */
  lemma RequestRoundTrip(h: Sha256, r: Request, headerMask: byte, clear: bool, rest: seq<byte>)
    requires ValidRequest(r)
    ensures DecodeRequest(h, EncodeRequest(h, r, headerMask, clear) + rest, headerMask, clear, r.id.Some?)
          == Got(r, rest)
  {
    hide RequestHeader, BigEndian, Masked;
    var body := if clear then r.payload else Masked(h, r.payload, r.session, r.mode, r.num, false);
    var s, size := EncodeRequest(h, r, headerMask, clear) + rest, RequestHeaderSize(r.id.Some?);
    assert s == RequestHeader(r, headerMask) + (body + rest);
    HeaderFields(r, headerMask, body + rest);
    assert s[size..size + |body|] == body && s[size + |body|..] == rest;
    MaskTwice(h, r.payload, r.session, r.mode, r.num, false);
  }

  /** Whatever is accepted is the encoding of what was read. */
  lemma RequestIsCanonical(h: Sha256, s: seq<byte>, headerMask: byte, clear: bool, mux: bool)
    requires DecodeRequest(h, s, headerMask, clear, mux).Got?
    ensures var d := DecodeRequest(h, s, headerMask, clear, mux);
            && ValidRequest(d.value) && d.value.id.Some? == mux
            && EncodeRequest(h, d.value, headerMask, clear) + d.rest == s
  {
    hide Xor, Value, RequestHeader, Masked;
    var r, size := DecodeRequest(h, s, headerMask, clear, mux).value, RequestHeaderSize(mux);
    HeaderSlices(s, size);
    HeaderIsCanonical(r, s[..size], headerMask);
    var body := s[size..size + |r.payload|];
    MaskTwice(h, body, r.session, r.mode, r.num, false);
    assert (if clear then r.payload else Masked(h, r.payload, r.session, r.mode, r.num, false)) == body;
    Split3(s, size, size + |r.payload|);
  }

  lemma Split3(s: seq<byte>, i: nat, j: nat)
    requires i <= j <= |s|
    ensures s[..i] + s[i..j] + s[j..] == s
  {
  }

  lemma HeaderSlices(s: seq<byte>, size: nat)
    requires 29 <= size <= |s|
    ensures s[..size][0] == s[0] && s[..size][1..17] == s[1..17] && s[..size][17..25] == s[17..25]
    ensures s[..size][25..29] == s[25..29] && s[..size][size - 4..size] == s[size - 4..size]
  {
  }

  lemma HeaderIsCanonical(r: Request, s: seq<byte>, headerMask: byte)
    requires var size := RequestHeaderSize(r.id.Some?);
             && |s| == size && r.mode == Xor(s[0], headerMask) && r.session == s[1..17] && r.num == Value(s[17..25])
             && (r.id.Some? ==> r.id.value == Value(s[25..29])) && |r.payload| == Value(s[size - 4..size])
    ensures RequestHeader(r, headerMask) == s
    ensures r.num < 0x1_0000_0000_0000_0000 && (r.id.Some? ==> r.id.value < 0x1_0000_0000)
  {
    hide BigEndian, Value, Xor;
    Widths();
    XorTwice(s[0], headerMask);
    BigEndianOfValue(s[17..25]);
    if r.id.Some? {
      BigEndianOfValue(s[25..29]);
      BigEndianOfValue(s[29..33]);
      assert s == [s[0]] + s[1..17] + s[17..25] + s[25..29] + s[29..33];
    } else {
      BigEndianOfValue(s[25..29]);
      assert s == [s[0]] + s[1..17] + s[17..25] + [] + s[25..29];
    }
  }

  // ---------------------------------------------------------------- responses

  datatype Response = Response(status: byte, id: Option<nat>, body: seq<byte>)

  predicate ValidResponse(r: Response) {
    r.status <= STATUS_EOF && (r.id.Some? ==> r.id.value < 0x1_0000_0000) && |r.body| <= MAX_PAYLOAD
  }

  function ResponseHeaderSize(mux: bool): nat { if mux then 9 else 5 }

  function ResponseHeader(r: Response, headerMask: byte): (s: seq<byte>)
    ensures |s| == ResponseHeaderSize(r.id.Some?)
  {
    [Xor(r.status, headerMask)] + IdBytes(r.id) + BigEndian(|r.body|, 4)
  }

  function EncodeResponse(
      h: Sha256, r: Response, headerMask: byte, clear: bool, sid: Session, mode: byte, num: nat): seq<byte> {
    ResponseHeader(r, headerMask) + if clear then r.body else Masked(h, r.body, sid, mode, num, true)
  }

  /** The frame as it is on the wire. The length is checked before the status without a request
      id, after it with one. */
  function ReadResponse(s: seq<byte>, headerMask: byte, mux: bool): Decoded<Response> {
    var size := ResponseHeaderSize(mux);
    if |s| < size then ShortRead
    else
      var status := Xor(s[0], headerMask);
      var id := if mux then Some(Value(s[1..5])) else None;
      var n := Value(s[size - 4..size]);
      if mux && status > STATUS_EOF then UnknownTag
      else if n > MAX_PAYLOAD then TooLarge
      else if n > |s| - size then ShortRead
      else if status > STATUS_EOF then UnknownTag
      else Got(Response(status, id, s[size..size + n]), s[size + n..])
  }

  /** The client's decoding of a frame's body: errors are never unmasked. */
  function DecodeBody(
      h: Sha256, status: byte, body: seq<byte>, clear: bool, sid: Session, mode: byte, num: nat): (r: seq<byte>)
    ensures |r| == |body|
  {
    if clear || body == [] || status == STATUS_ERROR then body else Masked(h, body, sid, mode, num, true)
  }

  /** A response comes back as it was sent, except that the body of a masked error stays masked. */
  lemma ResponseRoundTrip(
      h: Sha256, r: Response, headerMask: byte, clear: bool, sid: Session, mode: byte, num: nat, rest: seq<byte>)
    requires ValidResponse(r)
    ensures var s := EncodeResponse(h, r, headerMask, clear, sid, mode, num) + rest;
            var d := ReadResponse(s, headerMask, r.id.Some?);
            && d.Got? && d.rest == rest && d.value.status == r.status && d.value.id == r.id
            && DecodeBody(h, r.status, d.value.body, clear, sid, mode, num)
            == if r.status == STATUS_ERROR && !clear then Masked(h, r.body, sid, mode, num, true) else r.body
  {
    var body := if clear then r.body else Masked(h, r.body, sid, mode, num, true);
    var size := ResponseHeaderSize(r.id.Some?);
    var s := EncodeResponse(h, r, headerMask, clear, sid, mode, num) + rest;
    assert s == ResponseHeader(r, headerMask) + (body + rest);
    ResponseFields(r, headerMask, body + rest);
    assert s[size..size + |body|] == body && s[size + |body|..] == rest;
    MaskTwice(h, r.body, sid, mode, num, true);
  }

  lemma ResponseFields(r: Response, headerMask: byte, tail: seq<byte>)
    requires ValidResponse(r)
    ensures var s, size := ResponseHeader(r, headerMask) + tail, ResponseHeaderSize(r.id.Some?);
            && Xor(s[0], headerMask) == r.status && (r.id.Some? ==> Some(Value(s[1..5])) == r.id)
            && Value(s[size - 4..size]) == |r.body| && s[size..] == tail
  {
    var s, size := ResponseHeader(r, headerMask) + tail, ResponseHeaderSize(r.id.Some?);
    Widths();
    XorTwice(r.status, headerMask);
    if r.id.Some? {
      assert s[1..5] == BigEndian(r.id.value, 4);
      ValueOfBigEndian(r.id.value, 4);
    }
    assert s[size - 4..size] == BigEndian(|r.body|, 4);
    ValueOfBigEndian(|r.body|, 4);
  }

  /** Where everything is in a response, and what the client makes of its body. */
  lemma ResponseLayout(
      h: Sha256, r: Response, headerMask: byte, clear: bool, sid: Session, mode: byte, num: nat, i: nat,
      seed: seq<byte>)
    requires ValidResponse(r) && i < |r.body| && num < 0x1_0000_0000_0000_0000
    requires IsSeed(seed, sid, mode, num, true, i / 32)
    ensures var s, size := EncodeResponse(h, r, headerMask, clear, sid, mode, num), if r.id.Some? then 9 else 5;
            && |s| == size + |r.body| && Xor(s[0], headerMask) == r.status
            && (r.id.Some? ==> Some(Value(s[1..5])) == r.id) && Value(s[size - 4..size]) == |r.body|
            && s[size + i] == if clear then r.body[i] else Xor(r.body[i], h(seed)[i % 32])
    ensures DecodeBody(h, r.status, r.body, clear, sid, mode, num)[i]
         == if clear || r.status == STATUS_ERROR then r.body[i] else Xor(r.body[i], h(seed)[i % 32])
  {
    hide ResponseHeader, IsSeed, Masked, Xor, Value;
    var body := if clear then r.body else Masked(h, r.body, sid, mode, num, true);
    ResponseFields(r, headerMask, body);
    MaskedByte(h, r.body, sid, mode, num, true, i, seed);
  }

  /** A response is accepted exactly if its status is known, its length allowed, and all of it there;
      if both are wrong, the plain form reports the length and the multiplexed form the status. */
  lemma ResponseAcceptedIff(s: seq<byte>, headerMask: byte, mux: bool)
    ensures var size := if mux then 9 else 5;
            if |s| < size then ReadResponse(s, headerMask, mux) == ShortRead
            else
              var status, n := Xor(s[0], headerMask), Value(s[size - 4..size]);
              && (ReadResponse(s, headerMask, mux).Got? <==> status <= 4 && n <= 2 * 1024 * 1024 && size + n <= |s|)
              && (status > 4 && n > 2 * 1024 * 1024 ==>
                    ReadResponse(s, headerMask, mux) == if mux then UnknownTag else TooLarge)
  {
  }

  /** And what is accepted is the encoding of what was read. */
  lemma ResponseIsCanonical(s: seq<byte>, headerMask: byte, mux: bool)
    requires ReadResponse(s, headerMask, mux).Got?
    ensures var d := ReadResponse(s, headerMask, mux);
            && ValidResponse(d.value) && d.value.id.Some? == mux
            && ResponseHeader(d.value, headerMask) + d.value.body + d.rest == s
  {
    hide BigEndian, Value, Xor;
    var d, size := ReadResponse(s, headerMask, mux), ResponseHeaderSize(mux);
    Widths();
    XorTwice(s[0], headerMask);
    BigEndianOfValue(s[1..5]);
    BigEndianOfValue(s[size - 4..size]);
    assert s[..size] == [s[0]] + (if mux then s[1..5] else []) + s[size - 4..size];
    Split3(s, size, size + |d.value.body|);
  }
}
