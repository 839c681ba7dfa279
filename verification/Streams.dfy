/** What the download halves of the B and BP streams share (chunkConn in chunk.go, bpConn in
    bp.go): the network and server they meet, and the order of acknowledgements and requests. */
module Streams {
  import opened Numbers
  import opened Bytes
  import opened Wrappers
  import opened Batches
  import opened Lanes
  import Sizer

  /** One attempt; the server's replies depend on the offset and the number of records asked for. */
  datatype Hop = Hop(
    dial: Option<Fault>, write: Option<Fault>, serve: (nat, nat) -> seq<Reply>, arriving: nat, loss: Fault) {
    function At(start: nat, count: nat): Attempt {
      Attempt(dial, write, serve(start, count), arriving, loss)
    }
  }

  datatype Round = Round(first: Hop, second: Hop) {
    function At(start: nat, count: nat): Tries {
      Tries(first.At(start, count), second.At(start, count))
    }
  }

  /** The attempt that answers: the second if the first fails, and not by a timeout. */
  function Answering(r: Round): Hop {
    if FailsSoftly(r.first.At(0, 0)) then r.second else r.first
  }

  /** `Pending`: the script is over and the call has not returned. */
  datatype FillResult = Ready | Ended | TimedOut | Failed | Pending

  datatype ReadResult = Data(bytes: seq<byte>) | Eof | Error(cause: FillResult)

  /** What Read returns, given how the loop that fills its buffer ended. */
  predicate Reports(r: ReadResult, filled: FillResult) {
    if filled == Ready then r.Data? else if filled == Ended then r == Eof else r == Error(filled)
  }

  // ---------------------------------------------------------------- what a call meets

  /** Where a download stands: whether its lane is open, the offset it asks from, and the limits of
      the number of records it asks for. */
  datatype Spot = Spot(open: bool, start: nat, floor: nat, ceiling: nat)

  /** What a pass of the loop meets there: a failure, no data yet, bytes, the end, or none of these
      for every number of records. */
  datatype Kind = Misses | Waits | Brings | Ends | Unclear

  /** The passes before the first that decides anything. */
  function Silent(kinds: seq<Kind>): (k: nat)
    ensures k <= |kinds| && forall i :: 0 <= i < k ==> kinds[i].Misses? || kinds[i].Waits?
    ensures k < |kinds| ==> !kinds[k].Misses? && !kinds[k].Waits?
  {
    if kinds == [] || !(kinds[0].Misses? || kinds[0].Waits?) then 0 else 1 + Silent(kinds[1..])
  }

  function Losses(kinds: seq<Kind>): nat {
    if kinds == [] then 0 else Losses(kinds[..|kinds| - 1]) + One(kinds[|kinds| - 1].Misses?)
  }

  lemma LossesNext(kinds: seq<Kind>, i: nat)
    requires i < |kinds|
    ensures Losses(kinds[..i + 1]) == Losses(kinds[..i]) + One(kinds[i].Misses?)
  {
    assert kinds[..i + 1][..i] == kinds[..i];
  }

  lemma {:induction false} LossesGrow(kinds: seq<Kind>, i: nat, k: nat)
    requires i <= k <= |kinds|
    ensures Losses(kinds[..i]) <= Losses(kinds[..k])
    ensures i == 0 ==> Losses(kinds[..i]) == 0
    decreases k
  {
    if i < k {
      LossesNext(kinds, k - 1);
      LossesGrow(kinds, i, k - 1);
    }
  }

  lemma {:induction false} AllMisses(kinds: seq<Kind>)
    requires forall i :: 0 <= i < |kinds| ==> kinds[i].Misses?
    ensures Silent(kinds) == |kinds| && kinds[..|kinds|] == kinds && Losses(kinds) == |kinds|
  {
    if kinds != [] {
      AllMisses(kinds[..|kinds| - 1]);
    }
  }

  /** How a call must end: permanently failed if the silent passes use up the retry rule, not yet if
      there are no others, and otherwise as the first pass that is not silent says. */
  function Foretold(kinds: seq<Kind>, gaveUp: bool): Option<FillResult> {
    var k := Silent(kinds);
    if gaveUp then Some(Failed)
    else if k == |kinds| then Some(Pending)
    else if kinds[k].Brings? then Some(Ready)
    else if kinds[k].Ends? then Some(Ended)
    else None
  }

  // ---------------------------------------------------------------- acknowledgements

  const BP_ACK: byte := 4

  /** What a request acknowledges: in B every download carries it, in BP a request of its own does. */
  function AckOf(bp: bool, w: Wired): nat {
    if bp then if w.mode == BP_ACK then w.num else 0
    else if |w.payload| >= 8 then Value(w.payload[..8]) else 0
  }

  /** No request starts below anything acknowledged up to it, so a server may free what is
      acknowledged; and nothing is acknowledged that was not consumed. */
  predicate Forward(bp: bool, log: seq<Wired>, consumed: nat) {
    && (forall i, j :: 0 <= i <= j < |log| ==> AckOf(bp, log[i]) <= log[j].num)
    && (forall i :: 0 <= i < |log| ==> AckOf(bp, log[i]) <= consumed)
  }

  lemma ForwardMore(bp: bool, log: seq<Wired>, longer: seq<Wired>, consumed: nat, w: Wired)
    requires Forward(bp, log, consumed) && log <= longer
    requires forall i :: |log| <= i < |longer| ==> longer[i] == w
    requires AckOf(bp, w) <= consumed <= w.num
    ensures Forward(bp, longer, consumed)
  {
    hide AckOf;
    assert forall i :: 0 <= i < |log| ==> longer[i] == log[i];
  }

  lemma ForwardLater(bp: bool, log: seq<Wired>, consumed: nat, now: nat)
    requires Forward(bp, log, consumed) && consumed <= now
    ensures Forward(bp, log, now)
  {
  }

  /** A field of fixed width never reads back as more than was put in. */
  lemma {:induction false} FieldAtMost(v: nat, k: nat)
    ensures Value(BigEndian(v, k)) <= v
  {
    if k > 0 {
      FieldAtMost(v / 256, k - 1);
      assert BigEndian(v, k)[..k - 1] == BigEndian(v / 256, k - 1);
    }
  }

  lemma AckInPayload(start: nat, ack: nat, chunk: nat, count: nat)
    ensures AckOf(false, Wired(MODE_DOWNLOAD, start, DownloadPayloadB(ack, chunk, count))) <= ack
  {
    FieldAtMost(ack, 8);
    assert DownloadPayloadB(ack, chunk, count)[..8] == BigEndian(ack, 8);
  }

  // ---------------------------------------------------------------- what a stream adapts

  /** What a stream adapts: the pipeline depth, the sizer, and the failures counted with both at
      their floor. */
  datatype Tuning = Tuning(depth: nat, sizer: Sizer.Sizer, minFailures: nat)

  datatype Limits = Limits(params: Sizer.Params, floor: nat, ceiling: nat) {
    predicate Ok() { params.Ok() && 1 <= floor <= ceiling }
  }

  /** appendChunkParts; a single part into an empty buffer is not copied. */
  method AppendParts(dst: seq<byte>, parts: seq<seq<byte>>) returns (out: seq<byte>)
    ensures out == dst + Flatten(parts)
  {
    if |parts| == 0 {
      return dst;
    }
    if |dst| == 0 && |parts| == 1 {
      assert Flatten(parts[..0]) == [];
      return parts[0];
    }
    out := dst;
    for i := 0 to |parts|
      invariant out == dst + Flatten(parts[..i])
    {
      FlattenAppend(parts[..i], parts[i]);
      assert parts[..i + 1] == parts[..i] + [parts[i]];
      out := out + parts[i];
    }
    assert parts[..|parts|] == parts;
  }

  method Advance(offset: nat, parts: seq<seq<byte>>) returns (now: nat)
    ensures now == offset + |Flatten(parts)|
  {
    now := offset;
    for i := 0 to |parts|
      invariant now == offset + |Flatten(parts[..i])|
    {
      FlattenAppend(parts[..i], parts[i]);
      assert parts[..i + 1] == parts[..i] + [parts[i]];
      now := now + |parts[i]|;
    }
    assert parts[..|parts|] == parts;
  }

  /** The buffered part of the stream after more of it was fetched. */
  lemma Buffered(stream: seq<byte>, consumed: nat, buf: seq<byte>, got: seq<byte>)
    requires consumed + |buf| + |got| <= |stream|
    requires buf == stream[consumed..consumed + |buf|] && got == stream[consumed + |buf|..consumed + |buf| + |got|]
    ensures buf + got == stream[consumed..consumed + |buf + got|]
  {
  }

  /** The buffered and delivered parts after n bytes were handed over. */
  lemma Handed(stream: seq<byte>, consumed: nat, buf: seq<byte>, n: nat)
    requires consumed + |buf| <= |stream| && buf == stream[consumed..consumed + |buf|] && n <= |buf|
    ensures stream[..consumed] + buf[..n] == stream[..consumed + n]
    ensures buf[n..] == stream[consumed + n..consumed + |buf|]
  {
  }

  lemma SizerKeeps(p: Sizer.Params, s: Sizer.Sizer, attempted: nat)
    requires p.Ok() && Sizer.Inv(p, s)
    ensures Sizer.Inv(p, Sizer.OnSuccess(p, s, attempted)) && Sizer.Inv(p, Sizer.OnFailure(p, s, attempted))
  {
  }

  lemma QuotientTimes(total: nat, chunk: nat, count: nat)
    requires chunk > 0 && count <= total / chunk
    ensures count * chunk <= total
  {
    assert total == chunk * (total / chunk) + total % chunk;
    if count < total / chunk {
      Sizer.MulMonotone(chunk, count, total / chunk - 1);
    }
  }

  lemma QuotientMost(total: nat, chunk: nat, count: nat)
    requires chunk > 0 && count > total / chunk
    ensures count * chunk > total
  {
    assert total == chunk * (total / chunk) + total % chunk;
    Sizer.MulMonotone(chunk, total / chunk, count - 1);
  }
}
