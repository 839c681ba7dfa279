/** A whole connection: the preface, its padding, and the requests that follow
    (internal/cover/profile.go, internal/wire/protocol.go). */
module Connection {
  import opened Bytes
  import opened Wrappers
  import opened Framing
  import opened Cover
  import opened Io

  function EncodeFrames(h: Sha256, rs: seq<Request>, headerMask: byte, clear: bool): seq<byte> {
    if rs == [] then [] else EncodeRequest(h, rs[0], headerMask, clear) + EncodeFrames(h, rs[1..], headerMask, clear)
  }

  lemma FrameConsumes(h: Sha256, s: seq<byte>, headerMask: byte, clear: bool, mux: bool)
    requires DecodeRequest(h, s, headerMask, clear, mux).Got?
    ensures |DecodeRequest(h, s, headerMask, clear, mux).rest| < |s|
  {
  }

  /** Reads requests until the stream ends; None if it ends inside one or one is refused. */
  function DecodeFrames(h: Sha256, s: seq<byte>, headerMask: byte, clear: bool, mux: bool): Option<seq<Request>>
    decreases |s|
  {
    if s == [] then Some([])
    else
      match DecodeRequest(h, s, headerMask, clear, mux)
      case Got(r, rest) =>
        FrameConsumes(h, s, headerMask, clear, mux);
        (match DecodeFrames(h, rest, headerMask, clear, mux)
         case Some(rs) => Some([r] + rs)
         case None => None)
      case _ => None
  }

  predicate AllValid(rs: seq<Request>, mux: bool) {
    forall r :: r in rs ==> ValidRequest(r) && r.id.Some? == mux
  }

  lemma FrameNotEmpty(h: Sha256, r: Request, headerMask: byte, clear: bool)
    ensures EncodeRequest(h, r, headerMask, clear) != []
  {
  }

  lemma {:induction false} FramesRoundTrip(h: Sha256, rs: seq<Request>, headerMask: byte, clear: bool, mux: bool)
    requires AllValid(rs, mux)
    ensures DecodeFrames(h, EncodeFrames(h, rs, headerMask, clear), headerMask, clear, mux) == Some(rs)
  {
    hide DecodeRequest, EncodeRequest, ValidRequest;
    if rs != [] {
      assert rs[0] in rs;
      FrameNotEmpty(h, rs[0], headerMask, clear);
      FramesRoundTrip(h, rs[1..], headerMask, clear, mux);
      RequestRoundTrip(h, rs[0], headerMask, clear, EncodeFrames(h, rs[1..], headerMask, clear));
      assert rs == [rs[0]] + rs[1..];
    }
  }

  /** The other direction: the frames read are the whole input. */
  lemma {:induction false} FramesAreCanonical(h: Sha256, s: seq<byte>, headerMask: byte, clear: bool, mux: bool)
    requires DecodeFrames(h, s, headerMask, clear, mux).Some?
    ensures var rs := DecodeFrames(h, s, headerMask, clear, mux).value;
            AllValid(rs, mux) && EncodeFrames(h, rs, headerMask, clear) == s
    decreases |s|
  {
    hide Xor, Masked;
    if s != [] {
      var d := DecodeRequest(h, s, headerMask, clear, mux);
      FrameConsumes(h, s, headerMask, clear, mux);
      FramesAreCanonical(h, d.rest, headerMask, clear, mux);
      RequestIsCanonical(h, s, headerMask, clear, mux);
      var rs := DecodeFrames(h, s, headerMask, clear, mux).value;
      assert rs[1..] == DecodeFrames(h, d.rest, headerMask, clear, mux).value;
    }
  }

  /** Everything a client puts on one physical connection. `padding` is the random padding. */
  function EncodeConnection(h: Sha256, p: Profile, padding: seq<byte>, rs: seq<Request>): seq<byte>
    requires Encode(h, p).Preface?
  {
    Encode(h, p).bytes + padding + EncodeFrames(h, rs, p.headerMask, p.clear)
  }

  /** What a server reads off it. */
  function DecodeConnection(h: Sha256, s: seq<byte>, mux: bool): Option<(Profile, seq<Request>)> {
    if |s| < 12 then None
    else
      match Decode(h, s[..12])
      case None => None
      case Some(p) =>
        if |s| < 12 + p.padding then None
        else
          match DecodeFrames(h, s[12 + p.padding..], p.headerMask, p.clear, mux)
          case Some(rs) => Some((p, rs))
          case None => None
  }

  /** Any enabled profile and any valid requests come back exactly, with nothing left over. */
  lemma ConnectionRoundTrip(h: Sha256, p: Profile, padding: seq<byte>, rs: seq<Request>, mux: bool)
    requires InRange(p) && p.enabled && p.padding <= MAX_PADDING && |padding| == p.padding && AllValid(rs, mux)
    ensures Encode(h, p).Preface? && DecodeConnection(h, EncodeConnection(h, p, padding, rs), mux) == Some((p, rs))
  {
    hide Decode, EncodeFrames, DecodeFrames;
    DecodeEncode(h, p);
    FramesRoundTrip(h, rs, p.headerMask, p.clear, mux);
    var s := EncodeConnection(h, p, padding, rs);
    assert s[..12] == Encode(h, p).bytes;
    assert s[12 + p.padding..] == EncodeFrames(h, rs, p.headerMask, p.clear);
  }

  /** And what is read off a connection determines every byte of it but the padding. */
  lemma ConnectionIsCanonical(h: Sha256, s: seq<byte>, mux: bool)
    requires DecodeConnection(h, s, mux).Some?
    ensures var (p, rs) := DecodeConnection(h, s, mux).value;
            && Encode(h, p).Preface? && AllValid(rs, mux) && 12 + p.padding <= |s|
            && EncodeConnection(h, p, s[12..12 + p.padding], rs) == s
  {
    hide Decode, EncodeFrames, DecodeFrames, Encode;
    var (p, rs) := DecodeConnection(h, s, mux).value;
    EncodeDecode(h, s[..12]);
    FramesAreCanonical(h, s[12 + p.padding..], p.headerMask, p.clear, mux);
    assert s == s[..12] + s[12..12 + p.padding] + s[12 + p.padding..];
  }

  // ---------------------------------------------------------------- the program's own form

  /** Writes the header's fields into the front of the packet. */
  method FillHeader(packet: array<byte>, r: Request, headerMask: byte)
    requires packet.Length >= RequestHeaderSize(r.id.Some?)
    modifies packet
    ensures packet[..RequestHeaderSize(r.id.Some?)] == RequestHeader(r, headerMask)
    ensures packet[RequestHeaderSize(r.id.Some?)..] == old(packet[RequestHeaderSize(r.id.Some?)..])
  {
    hide Xor, BigEndian;
    packet[0] := Xor(r.mode, headerMask);
    forall i | 0 <= i < 16 { packet[1 + i] := r.session[i]; }
    var num := BigEndian(r.num, 8);
    forall i | 0 <= i < 8 { packet[17 + i] := num[i]; }
    var at := 25;
    if r.id.Some? {
      var id := BigEndian(r.id.value, 4);
      forall i | 0 <= i < 4 { packet[25 + i] := id[i]; }
      at := 29;
    }
    var n := BigEndian(|r.payload|, 4);
    forall i | 0 <= i < 4 { packet[at + i] := n[i]; }
  }

  datatype SendResult = Sent(result: WriteResult) | Refused

  /** WriteRequestProfileEncoding and its mux form: nothing is written for an oversized payload;
      otherwise the frame is, or a prefix of it if the connection fails. */
  method WriteRequest(h: Sha256, w: Sink, r: Request, headerMask: byte, clear: bool, answers: seq<WriteAnswer>)
    returns (result: SendResult, sent: nat)
    modifies w
    ensures result.Refused? <==> |r.payload| > 2 * 1024 * 1024
    ensures result.Refused? ==> sent == 0
    ensures sent <= |EncodeRequest(h, r, headerMask, clear)|
    ensures w.bytes == old(w.bytes) + EncodeRequest(h, r, headerMask, clear)[..sent]
    ensures result == Sent(Done) ==> sent == |EncodeRequest(h, r, headerMask, clear)|
    ensures !result.Refused? && Obliging(answers) && |answers| >= |EncodeRequest(h, r, headerMask, clear)| ==>
              result == Sent(Done)
  {
    hide Xor, Masked;
    if |r.payload| > MAX_PAYLOAD {
      return Refused, 0;
    }
    var size := RequestHeaderSize(r.id.Some?);
    var packet := new byte[size + |r.payload|](_ => 0);
    FillHeader(packet, r, headerMask);
    forall i | 0 <= i < |r.payload| {
      packet[size + i] := r.payload[i];
    }
    assert packet[..size] == RequestHeader(r, headerMask) && packet[size..] == r.payload;
    if !clear {
      MaskInPlace(h, packet, size, r.session, r.mode, r.num, false);
    }
    assert packet[..] == packet[..size] + packet[size..];
    var done;
    done, sent := WriteAll(w, packet[..], answers);
    return Sent(done), sent;
  }

  /** ReadRequestProfileEncoding and its mux form. */
  method ReadRequest(h: Sha256, src: Source, headerMask: byte, clear: bool, mux: bool) returns (d: Decoded<Request>)
    modifies src
    ensures d == DecodeRequest(h, old(src.left), headerMask, clear, mux)
    ensures d.Got? ==> src.left == d.rest
  {
    hide Xor, Masked;
    var size := RequestHeaderSize(mux);
    ghost var s := src.left;
    var ok, header := src.ReadFull(size);
    if !ok {
      return ShortRead;
    }
    var mode := Xor(header[0], headerMask);
    if mode > MODE_CLOSE {
      return UnknownTag;
    }
    HeaderSlices(s, size);
    var sid, num := header[1..17], Value(header[17..25]);
    var id := if mux then Some(Value(header[25..29])) else None;
    var n := Value(header[size - 4..size]);
    if n > MAX_PAYLOAD {
      return TooLarge;
    }
    if n == 0 {
      assert s[size..size] == [] && Masked(h, [], sid, mode, num, false) == [];
      return Got(Request(mode, sid, num, id, []), src.left);
    }
    var payload;
    ok, payload := src.ReadFull(n);
    if !ok {
      return ShortRead;
    }
    assert payload == s[size..size + n] && src.left == s[size + n..];
    if clear {
      return Got(Request(mode, sid, num, id, payload), src.left);
    }
    var buffer := new byte[n](i requires 0 <= i < n => payload[i]);
    assert buffer[0..] == payload && buffer[..0] == [];
    MaskInPlace(h, buffer, 0, sid, mode, num, false);
    assert buffer[..] == Masked(h, payload, sid, mode, num, false);
    return Got(Request(mode, sid, num, id, buffer[..]), src.left);
  }

  /** WritePreface: nothing for a disabled or refused profile, otherwise the preface and its padding,
      or a prefix of them if the connection fails. */
  method WritePreface(h: Sha256, w: Sink, p: Profile, padding: seq<byte>, answers: seq<WriteAnswer>)
    returns (result: SendResult, sent: nat)
    requires |padding| == p.padding
    modifies w
    ensures result.Refused? <==> p.enabled && p.padding > 4096
    ensures result.Refused? || !p.enabled ==> sent == 0 && w.bytes == old(w.bytes)
    ensures !p.enabled ==> result == Sent(Done)
    ensures p.enabled && !result.Refused? ==>
              && Encode(h, p).Preface? && sent <= 12 + p.padding == |Encode(h, p).bytes + padding|
              && w.bytes == old(w.bytes) + (Encode(h, p).bytes + padding)[..sent]
              && (result == Sent(Done) ==> sent == 12 + p.padding)
    ensures !result.Refused? && Obliging(answers) && |answers| >= 12 + p.padding ==> result == Sent(Done)
  {
    hide Xor, Plain, Key;
    if !p.enabled {
      return Sent(Done), 0;
    }
    var preface := EncodePreface(h, p);
    if !preface.Preface? {
      return Refused, 0;
    }
    var done;
    done, sent := WriteAll(w, preface.bytes + padding, answers);
    return Sent(done), sent;
  }
}
