/** The download half of the BP stream: fillReadBuffer and Read of bpConn in bp.go. Unlike B it
    acknowledges in requests of its own, drops everything a failed batch brought, and gives up at
    the first failure at the minimum size. */
module BpStream {
  import opened Bytes
  import opened Wrappers
  import opened Framing
  import opened Batches
  import opened Lanes
  import opened Streams
  import Sizer
  import opened Retries

  function Responses(count: nat): nat { if count > 1 then count else 1 }

  function ModeFor(count: nat): byte { if count > 1 then BP_BATCH else BP_DOWNLOAD }

  /** A server of `stream` that answers a download with at most the records asked for. Nothing is
      assumed of downloads below `from`, which it may have freed. */
  ghost predicate HonestHop(h: Sha256, sid: Session, clear: bool, stream: seq<byte>, from: nat, hop: Hop) {
    forall start: nat, count: nat {:trigger hop.serve(start, count)} :: from <= start ==>
      && |hop.serve(start, count)| <= Responses(count)
      && (start <= |stream| ==> HonestBP(h, sid, clear, ModeFor(count), stream, start, hop.serve(start, count)))
  }

  /** A hop on which nothing is lost and the server sends bytes and no error. */
  ghost predicate Delivers(h: Sha256, sid: Session, clear: bool, hop: Hop, start: nat, count: nat) {
    var replies := hop.serve(start, count);
    && Flows(hop.At(start, count)) && |replies| == Responses(count) && SpanBP(replies) > 0
    && forall r :: r in replies ==> EndBP(h, sid, clear, ModeFor(count), start, r).Finished?
  }

  /** A hop on which nothing is lost and the server sends no bytes and no error. */
  ghost predicate Bare(h: Sha256, sid: Session, clear: bool, hop: Hop, start: nat, count: nat) {
    var replies := hop.serve(start, count);
    && Flows(hop.At(start, count)) && |replies| == Responses(count)
    && PartsBP(h, sid, clear, ModeFor(count), start, replies) == []
    && forall r :: r in replies ==> EndBP(h, sid, clear, ModeFor(count), start, r).Finished?
  }

  lemma RequestCarriesNoAck(offset: nat, chunk: nat, count: nat)
    ensures var w := DownloadRequestBP(offset, chunk, count);
            w.num == offset && w.mode == ModeFor(count) && AckOf(true, w) == 0
  {
  }

  lemma AckCarriesAck(consumed: nat)
    ensures AckOf(true, Wired(BP_ACK, consumed, [])) == consumed
  {
  }

  /** The pipeline only grows, and only a batch that came in order counts as success. */
  function AfterBatch(l: Limits, t: Tuning, batch: Batch): Tuning {
    if batch.end.Finished? then
      if batch.parts == [] then t
      else
        var depth := if t.depth < l.ceiling then t.depth + 1 else t.depth;
        Tuning(depth, Sizer.OnSuccess(l.params, t.sizer, t.sizer.current), 0)
    else if batch.end == Broke(Timeout) then t
    else t.(sizer := Sizer.OnFailure(l.params, t.sizer, t.sizer.current))
  }

  /** Whether a batch ends the call: a timeout, or a failure that leaves the size at its minimum. */
  function Verdict(p: Sizer.Params, s: Sizer.Sizer, batch: Batch): Option<FillResult> {
    if batch.end.Finished? then None
    else if batch.end == Broke(Timeout) then Some(TimedOut)
    else if Sizer.OnFailure(p, s, s.current).current == s.current == p.min then Some(Failed)
    else None
  }

  /** A failed batch is one step of the retry rule with a limit of one. */
  lemma FailureIsRetry(p: Sizer.Params, s: Sizer.Sizer, batch: Batch)
    requires batch.end == Broke(Failure)
    ensures Fail(p, 1, false, Going(s, 0))
          == if Verdict(p, s, batch).Some? then GaveUp else Going(Sizer.OnFailure(p, s, s.current), 0)
    ensures Verdict(p, s, batch).Some? ==> Verdict(p, s, batch).value == Failed
  {
  }

  /** What one pass meets: the acknowledgement, if one is due, and the download. */
  datatype Step = Step(ack: Tries, round: Round)

  /** Attempts that fail whatever is asked, and not by a timeout. */
  predicate AckFails(t: Tries) {
    FailsSoftly(t.first) && FailsSoftly(t.second)
  }

  predicate Hopeless(r: Round) {
    FailsSoftly(r.first.At(0, 0)) && FailsSoftly(r.second.At(0, 0))
  }

  /** The acknowledgement gets through and the server does not refuse it. */
  predicate AckWorks(t: Tries) {
    var a := if FailsSoftly(t.first) then t.second else t.first;
    GoesThrough(a) && a.replies[0].status != STATUS_ERROR
  }

  /** A round that brings bytes, however many records are asked for. */
  ghost predicate BringsBytes(h: Sha256, sid: Session, clear: bool, at: Spot, r: Round) {
    && at.open
    && forall count: nat :: at.floor <= count <= at.ceiling ==>
         Delivers(h, sid, clear, Answering(r), at.start, count)
  }

  /** A round answered without bytes, with or without EOF, however many records are asked for. */
  ghost predicate SaysNothing(h: Sha256, sid: Session, clear: bool, at: Spot, r: Round, eof: bool) {
    && at.open
    && forall count: nat :: at.floor <= count <= at.ceiling ==>
         && Bare(h, sid, clear, Answering(r), at.start, count)
         && (eof <==> LastStatus(Answering(r).serve(at.start, count)) == STATUS_EOF)
  }

  ghost function KindOf(h: Sha256, sid: Session, clear: bool, at: Spot, r: Round): Kind {
    if Hopeless(r) then Misses
    else if SaysNothing(h, sid, clear, at, r, false) then Waits
    else if BringsBytes(h, sid, clear, at, r) then Brings
    else if SaysNothing(h, sid, clear, at, r, true) then Ends
    else Unclear
  }

  lemma KindMeans(h: Sha256, sid: Session, clear: bool, at: Spot, r: Round, count: nat)
    requires at.floor <= count <= at.ceiling
    ensures var hop := Answering(r);
            match KindOf(h, sid, clear, at, r)
            case Misses => Hopeless(r)
            case Waits =>
              at.open && Bare(h, sid, clear, hop, at.start, count)
              && LastStatus(hop.serve(at.start, count)) != STATUS_EOF
            case Brings => at.open && Delivers(h, sid, clear, hop, at.start, count)
            case Ends =>
              at.open && Bare(h, sid, clear, hop, at.start, count)
              && LastStatus(hop.serve(at.start, count)) == STATUS_EOF
            case Unclear => true
  {
    hide Delivers, Bare, Hopeless;
  }

  ghost function Kinds(h: Sha256, sid: Session, clear: bool, at: Spot, script: seq<Step>): (kinds: seq<Kind>)
    ensures |kinds| == |script|
    ensures forall i :: 0 <= i < |script| ==> kinds[i] == KindOf(h, sid, clear, at, script[i].round)
  {
    seq(|script|, i requires 0 <= i < |script| => KindOf(h, sid, clear, at, script[i].round))
  }

  /** How a call must end that starts there. An acknowledgement that is due comes first, and the call
      ends at once if that fails. */
  ghost function Ahead(p: Sizer.Params, s: Sizer.Sizer, due: bool, open: bool, script: seq<Step>, kinds: seq<Kind>):
      Option<FillResult> {
    if due && script != [] && AckFails(script[0].ack) then Some(Failed)
    else if due && script != [] && !(open && AckWorks(script[0].ack)) then None
    else Foretold(kinds, Fails(p, 1, false, Going(s, 0), Losses(kinds[..Silent(kinds)])).GaveUp?)
  }

  /** When every attempt fails, the retry rule alone decides. */
  lemma {:induction false} AheadIfHopeless(
      p: Sizer.Params, s: Sizer.Sizer, due: bool, h: Sha256, sid: Session, clear: bool, at: Spot, script: seq<Step>)
    requires forall s :: s in script ==> AckFails(s.ack) && Hopeless(s.round)
    ensures Ahead(p, s, due, at.open, script, Kinds(h, sid, clear, at, script))
         == Some(if (due && script != []) || Fails(p, 1, false, Going(s, 0), |script|).GaveUp? then Failed else Pending)
  {
    var kinds := Kinds(h, sid, clear, at, script);
    forall i | 0 <= i < |kinds| ensures kinds[i].Misses? {
      assert script[i] in script;
    }
    AllMisses(kinds);
  }

  /** An acknowledgement first if one is due, and then downloads from `start` for that many records
      of that size. */
  ghost predicate AsksAfterAck(
      log: seq<Wired>, longer: seq<Wired>, ack: Option<nat>, start: nat, chunk: nat, count: nat) {
    && log <= longer
    && forall i :: |log| <= i < |longer| ==>
         || AsksBP(longer[i], start, chunk, count)
         || (ack.Some? && longer[i] == Wired(BP_ACK, ack.value, []))
  }

  predicate AllAsk(log: seq<Wired>, longer: seq<Wired>, start: nat, chunk: nat, count: nat) {
    log <= longer && forall i :: |log| <= i < |longer| ==> AsksBP(longer[i], start, chunk, count)
  }

  lemma AsksFollow(
      log: seq<Wired>, acked: seq<Wired>, longer: seq<Wired>, ack: Option<nat>, start: nat, chunk: nat, count: nat)
    requires if ack.Some? then Copies(log, acked, Wired(BP_ACK, ack.value, [])) else acked == log
    requires AllAsk(acked, longer, start, chunk, count)
    ensures AsksAfterAck(log, longer, ack, start, chunk, count)
  {
    forall i | |log| <= i < |longer|
      ensures AsksBP(longer[i], start, chunk, count)
           || (ack.Some? && longer[i] == Wired(BP_ACK, ack.value, []))
    {
      if i < |acked| {
        assert longer[i] == acked[i];
      }
    }
  }

  class Downloader {
    const h: Sha256
    const sid: Session
    const clear: bool
    const lane: RequestLane
    const sizer: Sizer.AdaptiveSizer
    const minPipeline: nat
    const maxPipeline: nat
    var readBuf: seq<byte>
    var downloadOffset: nat
    var consumedOffset: nat
    var lastAck: nat
    var eof: bool
    var dead: bool
    var pipeline: nat
    ghost const stream: seq<byte>
    ghost var delivered: seq<byte>

    ghost predicate Valid()
      reads this, lane, sizer
    {
      && lane.Valid() && sizer.params.Ok() && Sizer.Inv(sizer.params, sizer.View())
      && 1 <= minPipeline <= pipeline <= maxPipeline
      && consumedOffset + |readBuf| == downloadOffset <= |stream| && lastAck <= consumedOffset
      && readBuf == stream[consumedOffset..downloadOffset]
      && delivered == stream[..consumedOffset]
      && (eof ==> downloadOffset == |stream|)
      && Forward(true, lane.wire, consumedOffset)
    }

    function TheLimits(): Limits { Limits(sizer.params, minPipeline, maxPipeline) }

    function TheTuning(): Tuning
      reads this, sizer
    {
      Tuning(pipeline, sizer.View(), 0)
    }

    ghost predicate HonestRound(r: Round)
      reads this
    {
      && HonestHop(h, sid, clear, stream, consumedOffset, r.first)
      && HonestHop(h, sid, clear, stream, consumedOffset, r.second)
    }

    /** Honest from what was consumed on; no more than that is ever acknowledged. */
    ghost predicate Honest(s: Step)
      reads this
    {
      && |s.ack.first.replies| <= 1 && |s.ack.second.replies| <= 1
      && HonestRound(s.round)
    }

    constructor (h: Sha256, sid: Session, clear: bool, lane: RequestLane, sizer: Sizer.AdaptiveSizer,
                 minPipeline: nat, maxPipeline: nat, ghost stream: seq<byte>)
      requires lane.Valid() && lane.wire == [] && sizer.params.Ok() && Sizer.Inv(sizer.params, sizer.View())
      requires 1 <= minPipeline <= maxPipeline
      ensures Valid() && consumedOffset == 0 && delivered == [] && !eof && !dead
      ensures this.lane == lane && this.sizer == sizer && this.stream == stream
      ensures this.h == h && this.sid == sid && this.clear == clear && pipeline == maxPipeline
    {
      this.h, this.sid, this.clear, this.lane, this.sizer := h, sid, clear, lane, sizer;
      this.minPipeline, this.maxPipeline, this.stream := minPipeline, maxPipeline, stream;
      readBuf, downloadOffset, consumedOffset, lastAck := [], 0, 0, 0;
      eof, dead, pipeline, delivered := false, false, maxPipeline, [];
    }

    /** What a batch got is the stream from where it asked, and EOF means there is no more. */
    lemma BatchIsStream(round: Round, count: nat, read: seq<Reply>)
      requires HonestRound(round) && consumedOffset <= downloadOffset <= |stream|
      requires var t := round.At(downloadOffset, count); read <= t.first.replies || read <= t.second.replies
      ensures var got := Flatten(PartsBP(h, sid, clear, ModeFor(count), downloadOffset, read));
              && |got| == SpanBP(read) && downloadOffset + |got| <= |stream|
              && got == stream[downloadOffset..downloadOffset + |got|]
              && (LastStatus(read) == STATUS_EOF ==> downloadOffset + |got| == |stream|)
    {
      hide PartsBP, HonestBP, Flatten, LastStatus, SpanBP;
      var t := round.At(downloadOffset, count);
      if read <= t.first.replies {
        assert read == t.first.replies[..|read|];
        BatchBPIsStream(h, sid, clear, ModeFor(count), stream, downloadOffset, t.first.replies, |read|);
      } else {
        assert read == t.second.replies[..|read|];
        BatchBPIsStream(h, sid, clear, ModeFor(count), stream, downloadOffset, t.second.replies, |read|);
      }
    }

    /** Acknowledges what was consumed, unless that was done. `None` means go on. */
    method Acknowledge(t: Tries) returns (result: Option<FillResult>)
      requires Valid() && |t.first.replies| <= 1 && |t.second.replies| <= 1
      modifies this`lastAck, this`dead, lane
      ensures Valid() && lane.closed == old(lane.closed)
      ensures if result == Some(TimedOut) then dead else dead == old(dead)
      ensures result.None? ==> lastAck == consumedOffset
      ensures result.Some? ==> lastAck == old(lastAck) < consumedOffset && result.value in {TimedOut, Failed}
      ensures consumedOffset == old(lastAck) ==> result.None? && lane.wire == old(lane.wire)
      ensures Copies(old(lane.wire), lane.wire, Wired(BP_ACK, consumedOffset, []))
      ensures result.None? && consumedOffset > old(lastAck) ==> |lane.wire| > |old(lane.wire)|
      ensures !lane.closed && AckWorks(t) ==> result.None?
      ensures AckFails(t) && consumedOffset > old(lastAck) ==> result == Some(Failed)
    {
      hide Forward, AckOf, Flatten, RequestLane.Valid, Sizer.Inv, Sizer.Params.Ok, LearnsOnly, TimesOut;
      hide FailsSoftly, GoesThrough;
      if consumedOffset > lastAck {
        ghost var log := lane.wire;
        ghost var to;
        var outcome;
        outcome, to := lane.Single(Wired(BP_ACK, consumedOffset, []), t);
        AckCarriesAck(consumedOffset);
        ForwardMore(true, log, lane.wire, consumedOffset, Wired(BP_ACK, consumedOffset, []));
        if outcome.Lost? {
          if outcome.fault == Timeout {
            dead := true;
            return Some(TimedOut);
          }
          return Some(Failed);
        }
        if outcome.reply.status == STATUS_ERROR {
          return Some(Failed);
        }
        lastAck := consumedOffset;
      }
      return None;
    }

    /** One download: what a batch brought in order is the stream from where it was asked. */
    method Ask(chunk: nat, count: nat, round: Round) returns (batch: Batch)
      requires Valid() && HonestRound(round)
      modifies lane
      ensures Valid() && lane.closed == old(lane.closed)
      ensures batch.end.Finished? ==>
                var got := Flatten(batch.parts);
                && downloadOffset + |got| <= |stream| && got == stream[downloadOffset..downloadOffset + |got|]
                && (batch.status == STATUS_EOF ==> downloadOffset + |got| == |stream|)
      ensures !lane.closed && Delivers(h, sid, clear, Answering(round), downloadOffset, count) ==>
                batch.end.Finished? && Flatten(batch.parts) != []
      ensures !lane.closed && Bare(h, sid, clear, Answering(round), downloadOffset, count) ==>
                batch == Batch([], LastStatus(Answering(round).serve(downloadOffset, count)), Finished)
      ensures Hopeless(round) ==> batch.end == Broke(Failure)
      ensures AllAsk(old(lane.wire), lane.wire, downloadOffset, chunk, count)
    {
      hide PartsBP, HonestBP, Flatten, LastStatus, SpanBP, Forward, AckOf, RequestLane.Valid, Sizer.Inv;
      hide Sizer.Params.Ok, LearnsOnly, TimesOut, DownloadRequestBP, EndBP, AsksBP;
      ghost var log := lane.wire;
      ghost var read, tos;
      ghost var request := DownloadRequestBP(downloadOffset, chunk, count);
      assert |round.first.serve(downloadOffset, count)| <= Responses(count)
          && |round.second.serve(downloadOffset, count)| <= Responses(count);
      batch, read, tos := lane.DownloadBP(h, sid, clear, downloadOffset, chunk, count, round.At(downloadOffset, count));
      RequestCarriesNoAck(downloadOffset, chunk, count);
      ForwardMore(true, log, lane.wire, consumedOffset, request);
      if batch.end.Finished? {
        BatchIsStream(round, count, read);
      }
      assert read != [] ==>
               read[|read| - 1] in round.first.serve(downloadOffset, count)
               || read[|read| - 1] in round.second.serve(downloadOffset, count);
      if !lane.closed && Delivers(h, sid, clear, Answering(round), downloadOffset, count) {
        assert read != [] ==> read[|read| - 1] in Answering(round).serve(downloadOffset, count);
        assert batch.end.Finished?;
      }
      if !lane.closed && Bare(h, sid, clear, Answering(round), downloadOffset, count) {
        assert read != [] ==> read[|read| - 1] in Answering(round).serve(downloadOffset, count);
        assert batch.end.Finished?;
      }
    }

    /** The bytes of a batch that came in order. */
    method Take(batch: Batch, chunk: nat)
      requires Valid() && !eof
      requires var got := Flatten(batch.parts);
               && downloadOffset + |got| <= |stream| && got == stream[downloadOffset..downloadOffset + |got|]
               && (batch.status == STATUS_EOF ==> downloadOffset + |got| == |stream|)
      modifies this`readBuf, this`downloadOffset, this`eof, this`pipeline, sizer
      ensures Valid() && readBuf == old(readBuf) + Flatten(batch.parts)
      ensures eof <==> batch.status == STATUS_EOF
      ensures sizer.View()
            == if batch.parts != [] then Sizer.OnSuccess(sizer.params, old(sizer.View()), chunk) else old(sizer.View())
      ensures pipeline == if batch.parts != [] && old(pipeline) < maxPipeline then old(pipeline) + 1 else old(pipeline)
    {
      hide HonestHop, Delivers, GoesThrough, Flatten, Forward, RequestLane.Valid, Sizer.Inv, Sizer.Params.Ok;
      hide Sizer.OnSuccess, Sizer.OnFailure;
      Buffered(stream, consumedOffset, readBuf, Flatten(batch.parts));
      readBuf := AppendParts(readBuf, batch.parts);
      downloadOffset := Advance(downloadOffset, batch.parts);
      if |batch.parts| > 0 {
        SizerKeeps(sizer.params, sizer.View(), chunk);
        sizer.Success(chunk);
        if pipeline < maxPipeline {
          pipeline := pipeline + 1;
        }
      }
      if batch.status == STATUS_EOF {
        eof := true;
      }
    }

    /** A batch that did not come in order. */
    method Lose(batch: Batch, chunk: nat) returns (result: Option<FillResult>)
      requires Valid() && !batch.end.Finished? && chunk == sizer.current
      modifies this`dead, sizer
      ensures Valid() && TheTuning() == AfterBatch(TheLimits(), old(TheTuning()), batch)
      ensures sizer.View() == if batch.end == Broke(Timeout) then old(sizer.View())
                              else Sizer.OnFailure(sizer.params, old(sizer.View()), chunk)
      ensures result == Verdict(sizer.params, old(sizer.View()), batch)
      ensures if result == Some(TimedOut) then dead else dead == old(dead)
    {
      hide Forward, RequestLane.Valid, Sizer.Inv, Sizer.Params.Ok, Sizer.OnSuccess, Sizer.OnFailure;
      if batch.end == Broke(Timeout) {
        dead := true;
        return Some(TimedOut);
      }
      SizerKeeps(sizer.params, sizer.View(), chunk);
      var was, next := sizer.Failure(chunk);
      return if was == next && next == sizer.params.min then Some(Failed) else None;
    }

    /** Where it stands. */
    function Here(): Spot
      reads this, lane
    {
      Spot(!lane.closed, downloadOffset, minPipeline, maxPipeline)
    }

    /** One pass through the loop of fillReadBuffer; `None` means another one. A batch that did not
        come in order leaves no bytes. */
    method Pass(step: Step) returns (result: Option<FillResult>, ghost batch: Option<Batch>)
      requires Valid() && Honest(step) && readBuf == [] && !eof
      modifies this`readBuf, this`downloadOffset, this`lastAck, this`eof, this`dead, this`pipeline, lane, sizer
      ensures Valid()
      ensures if result == Some(TimedOut) then dead else dead == old(dead)
      ensures result.Some? ==> result.value in {TimedOut, Failed} && readBuf == []
      ensures batch.None? ==> result.Some? && consumedOffset > lastAck && TheTuning() == old(TheTuning())
      ensures batch.Some? ==>
                consumedOffset == lastAck && TheTuning() == AfterBatch(TheLimits(), old(TheTuning()), batch.value)
      ensures batch.Some? ==> result == Verdict(sizer.params, old(sizer.View()), batch.value)
      ensures batch.Some? && batch.value.end.Finished? ==>
                readBuf == Flatten(batch.value.parts) && (eof <==> batch.value.status == STATUS_EOF)
      ensures batch.Some? && !batch.value.end.Finished? ==> readBuf == [] && !eof
      ensures lane.closed == old(lane.closed) && (readBuf == [] ==> downloadOffset == old(downloadOffset))
      ensures batch.None? ==> Copies(old(lane.wire), lane.wire, Wired(BP_ACK, consumedOffset, []))
      ensures batch.Some? ==>
                AsksAfterAck(old(lane.wire), lane.wire,
                    if consumedOffset > old(lastAck) then Some(consumedOffset) else None,
                    old(downloadOffset), old(sizer.current), old(pipeline))
      ensures consumedOffset != old(lastAck) && AckFails(step.ack) ==> result == Some(Failed)
      ensures consumedOffset == old(lastAck) || (!lane.closed && AckWorks(step.ack)) ==>
                match KindOf(h, sid, clear, old(Here()), step.round)
                case Misses => batch.Some? && batch.value.end == Broke(Failure)
                case Waits =>
                  result.None? && batch.Some? && batch.value == Batch([], batch.value.status, Finished) && !eof
                case Brings => result.None? && readBuf != []
                case Ends => result.None? && batch.Some? && batch.value == Batch([], STATUS_EOF, Finished) && eof
                case Unclear => true
    {
      hide HonestHop, Delivers, Bare, KindOf, AckWorks, AckFails, Hopeless, Flatten, Forward, RequestLane.Valid;
      hide Copies, AllAsk, AsksAfterAck;
      hide Sizer.Inv, Sizer.Params.Ok, Sizer.OnSuccess, Sizer.OnFailure;
      FlattenNothing();
      batch := None;
      ghost var log, due := lane.wire, consumedOffset > lastAck;
      result := Acknowledge(step.ack);
      ghost var acked := lane.wire;
      if result.Some? {
        return;
      }
      var chunk := sizer.current;
      var count := pipeline;
      if count < minPipeline {
        count := minPipeline;
      }
      if count > maxPipeline {
        count := maxPipeline;
      }
      KindMeans(h, sid, clear, Here(), step.round, count);
      var got := Ask(chunk, count, step.round);
      AsksFollow(log, acked, lane.wire, if due then Some(consumedOffset) else None, downloadOffset, chunk, count);
      batch := Some(got);
      if !got.end.Finished? {
        result := Lose(got, chunk);
        return;
      }
      assert readBuf + Flatten(got.parts) == Flatten(got.parts);
      Take(got, chunk);
      return None, batch;
    }

    ghost function Future(script: seq<Step>): Option<FillResult>
      reads this, lane, sizer
    {
      Ahead(sizer.params, sizer.View(), consumedOffset != lastAck, !lane.closed, script,
          Kinds(h, sid, clear, Here(), script))
    }

    method Fill(script: seq<Step>) returns (result: FillResult)
      requires Valid() && readBuf == []
      requires forall s :: s in script ==> Honest(s)
      modifies this`readBuf, this`downloadOffset, this`lastAck, this`eof, this`dead, this`pipeline, lane, sizer
      ensures Valid()
      ensures result == Ready <==> readBuf != []
      ensures result == Ended ==> eof
      ensures if result == TimedOut then dead else dead == old(dead)
      ensures old(eof) ==> result == Ended
      ensures !old(eof) && old(Future(script)).Some? ==> result == old(Future(script)).value
    {
      hide Downloader.Valid, Fail, Fails, Verdict, HonestHop, Silent, Losses, Kinds, KindOf, AckWorks, AckFails;
      hide Flatten, Forward, RequestLane.Valid, Sizer.Inv, Sizer.Params.Ok, Sizer.OnSuccess;
      hide Sizer.OnFailure;
      if eof {
        return Ended;
      }
      var i: nat := 0;
      FlattenNothing();
      ghost var at, start, kinds := Here(), Going(sizer.View(), 0), Kinds(h, sid, clear, Here(), script);
      ghost var k, due := Silent(kinds), consumedOffset != lastAck;
      ghost var goes := due && script != [] ==> !lane.closed && AckWorks(script[0].ack);
      FailsOnce(sizer.params, 1, false, start, 0);
      LossesGrow(kinds, 0, k);
      while |readBuf| == 0 && !eof
        invariant Valid() && dead == old(dead) && 0 <= i <= |script|
        invariant i == 0 ==> lastAck == old(lastAck) && !eof && readBuf == []
        invariant lane.closed == old(lane.closed)
        invariant goes && i <= k ==>
                    && !eof && readBuf == [] && Here() == at && (i > 0 ==> lastAck == consumedOffset)
                    && Fails(sizer.params, 1, false, start, Losses(kinds[..i])) == Going(sizer.View(), 0)
        invariant i > 0 && due ==> !AckFails(script[0].ack)
        invariant goes && i >= k ==> Fails(sizer.params, 1, false, start, Losses(kinds[..k])).Going?
        invariant goes && i > k && kinds[k].Brings? ==> readBuf != []
        invariant goes && i > k && kinds[k].Ends? ==> eof && readBuf == []
        decreases |script| - i
      {
        if i == |script| {
          return Pending;
        }
        assert script[i] in script;
        FailsOnce(sizer.params, 1, false, start, Losses(kinds[..i]));
        LossesNext(kinds, i);
        ghost var before := sizer.View();
        var over;
        ghost var batch;
        over, batch := Pass(script[i]);
        if batch.Some? && batch.value.end == Broke(Failure) {
          FailureIsRetry(sizer.params, before, batch.value);
        }
        i := i + 1;
        if over.Some? {
          if goes && i <= k && Fails(sizer.params, 1, false, start, Losses(kinds[..i])).GaveUp? {
            LossesGrow(kinds, i, k);
            StaysGivenUp(sizer.params, 1, false, start, Losses(kinds[..i]), Losses(kinds[..k]));
          }
          return over.value;
        }
      }
      return if eof && |readBuf| == 0 then Ended else Ready;
    }

    /** The tail of Read: buffered bytes go to the caller. */
    method HandOver(n: nat) returns (bytes: seq<byte>)
      requires Valid()
      modifies this`readBuf, this`consumedOffset, this`delivered
      ensures Valid() && bytes == old(readBuf)[..if n < |old(readBuf)| then n else |old(readBuf)|]
      ensures delivered == old(delivered) + bytes && readBuf == old(readBuf)[|bytes|..]
    {
      hide Forward, RequestLane.Valid, Sizer.Inv, Sizer.Params.Ok;
      var m := if n < |readBuf| then n else |readBuf|;
      bytes := readBuf[..m];
      Handed(stream, consumedOffset, readBuf, m);
      ForwardLater(true, lane.wire, consumedOffset, consumedOffset + m);
      readBuf := readBuf[m..];
      consumedOffset := consumedOffset + m;
      delivered := delivered + bytes;
    }

    /** Read hands over the next bytes of the stream, says EOF only when the whole of it was handed
        over, and hands over nothing with an error. */
    method Read(n: nat, script: seq<Step>) returns (r: ReadResult)
      requires Valid() && forall s :: s in script ==> Honest(s)
      modifies this, lane, sizer
      ensures Valid()
      ensures r.Data? ==> |r.bytes| <= n && (n > 0 ==> r.bytes != []) && delivered == old(delivered) + r.bytes
      ensures !r.Data? ==> delivered == old(delivered)
      ensures r == Eof ==> delivered == stream
      ensures n == 0 ==> r == Data([])
      ensures old(readBuf) != [] ==> r.Data?
      ensures n > 0 && old(readBuf) == [] && old(eof) ==> r == Eof
      ensures n > 0 && old(readBuf) == [] && !old(eof) && old(Future(script)).Some? ==>
                Reports(r, old(Future(script)).value)
    {
      hide HonestHop, Delivers, GoesThrough, Flatten, Forward, RequestLane.Valid, Sizer.Inv, Sizer.Params.Ok;
      hide Sizer.OnSuccess, Sizer.OnFailure;
      if n == 0 {
        return Data([]);
      }
      if |readBuf| == 0 {
        var filled := Fill(script);
        if filled == Ended {
          return Eof;
        }
        if filled != Ready {
          return Error(filled);
        }
      }
      var bytes := HandOver(n);
      return Data(bytes);
    }
  }
}
