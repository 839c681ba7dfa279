/** What the replies to one request mean to the client, for one-reply requests and for download
    batches, and what an honest server puts into them (download in chunk.go and bp.go). */
module Batches {
  import opened Bytes
  import opened Wrappers
  import opened Framing

  datatype Reply = Reply(status: byte, body: seq<byte>)

  const STATUS_OK: byte := 0
  const STATUS_DATA: byte := 2
  const STATUS_WAIT: byte := 3

  const MODE_DOWNLOAD: byte := 3
  const BP_DOWNLOAD: byte := 2
  const BP_BATCH: byte := 3

  function LastStatus(replies: seq<Reply>): byte {
    if replies == [] then STATUS_OK else replies[|replies| - 1].status
  }

  // ---------------------------------------------------------------- B

  /** The data a B batch carries: the mask of each DATA record starts at the stream offset that the
      records before it have reached. */
  function PartsB(h: Sha256, sid: Session, clear: bool, start: nat, replies: seq<Reply>): seq<seq<byte>> {
    if replies == [] then []
    else
      var before, last := PartsB(h, sid, clear, start, replies[..|replies| - 1]), replies[|replies| - 1];
      if last.status != STATUS_DATA then before
      else before + [DecodeBody(h, STATUS_DATA, last.body, clear, sid, MODE_DOWNLOAD, start + |Flatten(before)|)]
  }

  lemma PartsBAppend(h: Sha256, sid: Session, clear: bool, start: nat, replies: seq<Reply>, i: nat)
    requires i < |replies|
    ensures var before := PartsB(h, sid, clear, start, replies[..i]);
            PartsB(h, sid, clear, start, replies[..i + 1])
            == if replies[i].status != STATUS_DATA then before
               else
                 var at := start + |Flatten(before)|;
                 before + [DecodeBody(h, STATUS_DATA, replies[i].body, clear, sid, MODE_DOWNLOAD, at)]
    ensures LastStatus(replies[..i + 1]) == replies[i].status
  {
    assert replies[..i + 1][..i] == replies[..i];
  }

  lemma EmptyB(h: Sha256, sid: Session, clear: bool, start: nat)
    ensures PartsB(h, sid, clear, start, []) == [] && SpanB([]) == 0 && Flatten([]) == []
  {
  }

  /** How a B server answers one download: at most `count` records, anything but DATA only at the end. */
  predicate TrainB(replies: seq<Reply>, count: nat) {
    && |replies| <= count
    && forall i :: 0 <= i < |replies| - 1 ==> replies[i].status == STATUS_DATA
  }

  /** The whole of such an answer. */
  predicate WholeB(replies: seq<Reply>, count: nat) {
    && TrainB(replies, count)
    && (|replies| == count || LastStatus(replies) == STATUS_WAIT || LastStatus(replies) == STATUS_EOF)
  }

  /** Bytes of the stream in these records: a mask keeps the length. */
  function SpanB(replies: seq<Reply>): nat {
    if replies == [] then 0
    else
      var last := replies[|replies| - 1];
      SpanB(replies[..|replies| - 1]) + if last.status == STATUS_DATA then |last.body| else 0
  }

  /** What a server seals with the mask of one position. */
  function Sealed(h: Sha256, sid: Session, clear: bool, mode: byte, at: nat, data: seq<byte>): (s: seq<byte>)
    ensures |s| == |data|
  {
    if clear then data else Masked(h, data, sid, mode, at, true)
  }

  /** Sealing masks with the blocks of a response at that position. */
  lemma SealedByte(
      h: Sha256, sid: Session, mode: byte, at: nat, data: seq<byte>, i: nat, seed: seq<byte>)
    requires i < |data| && at < 0x1_0000_0000_0000_0000 && IsSeed(seed, sid, mode, at, true, i / 32)
    ensures Sealed(h, sid, true, mode, at, data) == data
    ensures Sealed(h, sid, false, mode, at, data)[i] == Xor(data[i], h(seed)[i % 32])
  {
    MaskedByte(h, data, sid, mode, at, true, i, seed);
  }

  lemma Unseal(h: Sha256, sid: Session, clear: bool, mode: byte, at: nat, data: seq<byte>)
    ensures DecodeBody(h, STATUS_DATA, Sealed(h, sid, clear, mode, at, data), clear, sid, mode, at) == data
  {
    MaskTwice(h, data, sid, mode, at, true);
  }

  lemma SpanBAppend(replies: seq<Reply>, i: nat)
    requires i < |replies|
    ensures SpanB(replies[..i + 1])
            == SpanB(replies[..i]) + if replies[i].status == STATUS_DATA then |replies[i].body| else 0
  {
    assert replies[..i + 1][..i] == replies[..i];
  }

  lemma {:induction false} SpanBGrows(replies: seq<Reply>, k: nat)
    requires 1 <= k <= |replies| && replies[0].status == STATUS_DATA
    ensures SpanB(replies[..k]) >= |replies[0].body|
  {
    SpanBAppend(replies, k - 1);
    if k > 1 {
      SpanBGrows(replies, k - 1);
    }
  }

  /** A record from stream position `pos`, sealed with the mask of that position. */
  predicate RecordB(h: Sha256, sid: Session, clear: bool, stream: seq<byte>, pos: nat, reply: Reply) {
    && (reply.status == STATUS_DATA ==>
          && pos + |reply.body| <= |stream|
          && reply.body == Sealed(h, sid, clear, MODE_DOWNLOAD, pos, stream[pos..pos + |reply.body|]))
    && (reply.status == STATUS_EOF ==> pos == |stream|)
  }

  /** An honest server of `stream` sends each record from the position the records before it
      reached, and EOF only when everything is out. */
  predicate HonestB(h: Sha256, sid: Session, clear: bool, stream: seq<byte>, start: nat, replies: seq<Reply>) {
    forall i: nat :: i < |replies| ==> RecordB(h, sid, clear, stream, start + SpanB(replies[..i]), replies[i])
  }

  /** Extending a piece of the stream by the piece that follows it. */
  lemma Extend(stream: seq<byte>, start: nat, got: seq<byte>, data: seq<byte>)
    requires start + |got| + |data| <= |stream|
    requires got == stream[start..start + |got|] && data == stream[start + |got|..start + |got| + |data|]
    ensures got + data == stream[start..start + |got + data|]
  {
  }

  /** What a client unseals from any number of honest records is the stream from where it asked. */
  lemma {:induction false} BatchBIsStream(
      h: Sha256, sid: Session, clear: bool, stream: seq<byte>, start: nat, replies: seq<Reply>, k: nat)
    requires start <= |stream| && k <= |replies| && HonestB(h, sid, clear, stream, start, replies)
    ensures var got := Flatten(PartsB(h, sid, clear, start, replies[..k]));
            && |got| == SpanB(replies[..k]) && start + |got| <= |stream| && got == stream[start..start + |got|]
            && (LastStatus(replies[..k]) == STATUS_EOF ==> start + |got| == |stream|)
  {
    hide DecodeBody, Sealed, PartsB, SpanB, Flatten;
    if k == 0 {
      EmptyB(h, sid, clear, start);
    } else {
      BatchBIsStream(h, sid, clear, stream, start, replies, k - 1);
      PartsBAppend(h, sid, clear, start, replies, k - 1);
      SpanBAppend(replies, k - 1);
      var last, before := replies[k - 1], PartsB(h, sid, clear, start, replies[..k - 1]);
      if last.status == STATUS_DATA {
        var pos := start + SpanB(replies[..k - 1]);
        var data := stream[pos..pos + |last.body|];
        Unseal(h, sid, clear, MODE_DOWNLOAD, pos, data);
        FlattenAppend(before, data);
        Extend(stream, start, Flatten(before), data);
      }
    }
  }

  // ---------------------------------------------------------------- BP

  /** A BP record: a length, that many bytes, and whatever follows. */
  function UnwrapBP(body: seq<byte>): Option<seq<byte>> {
    if |body| < 4 then None
    else
      var n := Value(body[..4]);
      if n > |body| - 4 then None else Some(body[4..4 + n])
  }

  /** The data a BP batch carries: every record is masked at the request's own offset, and empty
      ones are skipped. */
  function PartsBP(h: Sha256, sid: Session, clear: bool, mode: byte, start: nat, replies: seq<Reply>): seq<seq<byte>> {
    if replies == [] then []
    else
      var before, last := PartsBP(h, sid, clear, mode, start, replies[..|replies| - 1]), replies[|replies| - 1];
      if last.status != STATUS_DATA then before
      else
        var data := UnwrapBP(DecodeBody(h, STATUS_DATA, last.body, clear, sid, mode, start));
        if data.None? || data.value == [] then before else before + [data.value]
  }

  lemma PartsBPAppend(h: Sha256, sid: Session, clear: bool, mode: byte, start: nat, replies: seq<Reply>, i: nat)
    requires i < |replies|
    ensures var before, data := PartsBP(h, sid, clear, mode, start, replies[..i]),
                                UnwrapBP(DecodeBody(h, STATUS_DATA, replies[i].body, clear, sid, mode, start));
            PartsBP(h, sid, clear, mode, start, replies[..i + 1])
            == if replies[i].status != STATUS_DATA || data.None? || data.value == [] then before
               else before + [data.value]
    ensures LastStatus(replies[..i + 1]) == replies[i].status
  {
    assert replies[..i + 1][..i] == replies[..i];
  }

  lemma EmptyBP(h: Sha256, sid: Session, clear: bool, mode: byte, start: nat)
    ensures PartsBP(h, sid, clear, mode, start, []) == [] && SpanBP([]) == 0 && Flatten([]) == []
    ensures LastStatus([]) != STATUS_EOF
  {
  }

  function WrapBP(data: seq<byte>): (s: seq<byte>)
    ensures |s| == 4 + |data|
  { BigEndian(|data|, 4) + data }

  lemma UnwrapWrapped(data: seq<byte>)
    requires |data| < 0x1_0000_0000
    ensures UnwrapBP(WrapBP(data)) == Some(data)
  {
    Widths();
    ValueOfBigEndian(|data|, 4);
    assert WrapBP(data)[..4] == BigEndian(|data|, 4) && WrapBP(data)[4..4 + |data|] == data;
  }

  /** What follows a wrapped record is ignored, and a record is refused exactly if it is cut short. */
  lemma UnwrapIgnoresTail(data: seq<byte>, tail: seq<byte>, body: seq<byte>)
    requires |data| < 0x1_0000_0000
    ensures UnwrapBP(WrapBP(data) + tail) == Some(data)
    ensures UnwrapBP(body).None? <==> |body| < 4 || |body| < 4 + Value(body[..4])
  {
    Widths();
    ValueOfBigEndian(|data|, 4);
    var s := WrapBP(data) + tail;
    assert s[..4] == BigEndian(|data|, 4) && s[4..4 + |data|] == data;
  }

  function SpanBP(replies: seq<Reply>): nat {
    if replies == [] then 0
    else
      var last := replies[|replies| - 1];
      SpanBP(replies[..|replies| - 1]) + if last.status == STATUS_DATA && |last.body| >= 4 then |last.body| - 4 else 0
  }

  lemma SpanBPAppend(replies: seq<Reply>, i: nat)
    requires i < |replies|
    ensures SpanBP(replies[..i + 1])
            == SpanBP(replies[..i])
               + if replies[i].status == STATUS_DATA && |replies[i].body| >= 4 then |replies[i].body| - 4 else 0
  {
    assert replies[..i + 1][..i] == replies[..i];
  }

  /** A wrapped record from stream position `pos`, sealed with the mask of the offset asked for. */
  predicate RecordBP(
      h: Sha256, sid: Session, clear: bool, mode: byte, stream: seq<byte>, start: nat, pos: nat, reply: Reply) {
    && (reply.status == STATUS_DATA ==>
          && 4 <= |reply.body| < 0x1_0000_0000 && pos + |reply.body| - 4 <= |stream|
          && reply.body == Sealed(h, sid, clear, mode, start, WrapBP(stream[pos..pos + |reply.body| - 4])))
    && (reply.status == STATUS_EOF ==> pos == |stream|)
  }

  lemma RecordBPGives(
      h: Sha256, sid: Session, clear: bool, mode: byte, stream: seq<byte>, start: nat, pos: nat, reply: Reply)
    returns (data: seq<byte>)
    requires RecordBP(h, sid, clear, mode, stream, start, pos, reply) && reply.status == STATUS_DATA
    ensures UnwrapBP(DecodeBody(h, STATUS_DATA, reply.body, clear, sid, mode, start)) == Some(data)
    ensures 4 <= |reply.body| && |data| == |reply.body| - 4 && pos + |data| <= |stream|
    ensures data == stream[pos..pos + |data|]
  {
    hide DecodeBody, Sealed, UnwrapBP, WrapBP;
    data := stream[pos..pos + |reply.body| - 4];
    Unseal(h, sid, clear, mode, start, WrapBP(data));
    UnwrapWrapped(data);
  }

  predicate HonestBP(
      h: Sha256, sid: Session, clear: bool, mode: byte, stream: seq<byte>, start: nat, replies: seq<Reply>) {
    forall i: nat :: i < |replies| ==>
      RecordBP(h, sid, clear, mode, stream, start, start + SpanBP(replies[..i]), replies[i])
  }

  lemma HonestBPAt(
      h: Sha256, sid: Session, clear: bool, mode: byte, stream: seq<byte>, start: nat, replies: seq<Reply>, i: nat)
    requires i < |replies| && HonestBP(h, sid, clear, mode, stream, start, replies)
    ensures RecordBP(h, sid, clear, mode, stream, start, start + SpanBP(replies[..i]), replies[i])
    ensures replies[i].status == STATUS_EOF ==> start + SpanBP(replies[..i]) == |stream|
  {
    hide SpanBP, Sealed, WrapBP;
  }

  lemma {:induction false} BatchBPIsStream(
      h: Sha256, sid: Session, clear: bool, mode: byte, stream: seq<byte>, start: nat, replies: seq<Reply>, k: nat)
    requires start <= |stream| && k <= |replies| && HonestBP(h, sid, clear, mode, stream, start, replies)
    ensures var got := Flatten(PartsBP(h, sid, clear, mode, start, replies[..k]));
            && |got| == SpanBP(replies[..k]) && start + |got| <= |stream| && got == stream[start..start + |got|]
            && (LastStatus(replies[..k]) == STATUS_EOF ==> start + |got| == |stream|)
  {
    hide PartsBP, HonestBP, RecordBP, SpanBP, Flatten, DecodeBody, UnwrapBP;
    if k == 0 {
      EmptyBP(h, sid, clear, mode, start);
    } else {
      BatchBPIsStream(h, sid, clear, mode, stream, start, replies, k - 1);
      PartsBPAppend(h, sid, clear, mode, start, replies, k - 1);
      SpanBPAppend(replies, k - 1);
      HonestBPAt(h, sid, clear, mode, stream, start, replies, k - 1);
      var last, before := replies[k - 1], PartsBP(h, sid, clear, mode, start, replies[..k - 1]);
      if last.status == STATUS_DATA {
        var pos := start + SpanBP(replies[..k - 1]);
        var data := RecordBPGives(h, sid, clear, mode, stream, start, pos, last);
        FlattenAppend(before, data);
        Extend(stream, start, Flatten(before), data);
      }
    }
  }
}
