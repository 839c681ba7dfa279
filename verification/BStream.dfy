/** The download half of the B stream: fillReadBuffer and Read of chunkConn in chunk.go. */
module BStream {
  import opened Numbers
  import opened Bytes
  import opened Wrappers
  import opened Framing
  import opened Batches
  import opened Lanes
  import opened Streams
  import Sizer
  import opened Retries

  /** A server of `stream` that answers one download with one train of honest records. Nothing is
      assumed of downloads below `from`, which it may have freed. */
  ghost predicate HonestHop(h: Sha256, sid: Session, clear: bool, stream: seq<byte>, from: nat, hop: Hop) {
    forall start: nat, count: nat {:trigger hop.serve(start, count)} :: from <= start ==>
      && TrainB(hop.serve(start, count), count)
      && (start <= |stream| ==> HonestB(h, sid, clear, stream, start, hop.serve(start, count)))
  }

  /** A hop on which nothing is lost and the server's first record has bytes. */
  ghost predicate Delivers(hop: Hop, start: nat, count: nat) {
    var replies := hop.serve(start, count);
    && Flows(hop.At(start, count)) && WholeB(replies, count)
    && replies != [] && replies[0].status == STATUS_DATA && replies[0].body != []
  }

  lemma SomeAsked(replies: seq<Reply>, count: nat)
    requires WholeB(replies, count) && replies != []
    ensures count > 0
    ensures replies[0].status == STATUS_DATA && replies[0].body != [] ==> EndB(replies[0]).Finished?
  {
  }

  /** Attempts that fail whatever is asked, and not by a timeout. */
  predicate Hopeless(r: Round) {
    FailsSoftly(r.first.At(0, 0)) && FailsSoftly(r.second.At(0, 0))
  }

  /** A hop on which nothing is lost and the server's whole answer is WAIT or EOF. */
  ghost predicate Bare(hop: Hop, start: nat, count: nat) {
    var replies := hop.serve(start, count);
    && Flows(hop.At(start, count)) && |replies| == 1
    && (replies[0].status == STATUS_WAIT || replies[0].status == STATUS_EOF)
  }

  lemma BareIsWhole(h: Sha256, sid: Session, clear: bool, start: nat, replies: seq<Reply>, count: nat)
    requires |replies| == 1 && (replies[0].status == STATUS_WAIT || replies[0].status == STATUS_EOF) && count > 0
    ensures WholeB(replies, count) && EndB(replies[0]) == Finished
    ensures PartsB(h, sid, clear, start, replies) == [] && LastStatus(replies) == replies[0].status
  {
    EmptyB(h, sid, clear, start);
    PartsBAppend(h, sid, clear, start, replies, 0);
    assert replies[..1] == replies;
  }

  /** A round that brings bytes, however many records are asked for. */
  ghost predicate BringsBytes(at: Spot, r: Round) {
    at.open && forall count: nat :: at.floor <= count <= at.ceiling ==> Delivers(Answering(r), at.start, count)
  }

  /** A round answered with that status alone, however many records are asked for. */
  ghost predicate Says(at: Spot, r: Round, status: byte) {
    && at.open
    && forall count: nat :: at.floor <= count <= at.ceiling ==>
         Bare(Answering(r), at.start, count) && Answering(r).serve(at.start, count)[0].status == status
  }

  ghost function KindOf(at: Spot, r: Round): Kind {
    if Hopeless(r) then Misses
    else if Says(at, r, STATUS_WAIT) then Waits
    else if BringsBytes(at, r) then Brings
    else if Says(at, r, STATUS_EOF) then Ends
    else Unclear
  }

  lemma KindMeans(at: Spot, r: Round, count: nat)
    requires at.floor <= count <= at.ceiling
    ensures var hop := Answering(r);
            match KindOf(at, r)
            case Misses => Hopeless(r)
            case Waits =>
              at.open && Bare(hop, at.start, count) && hop.serve(at.start, count)[0].status == STATUS_WAIT
            case Brings => at.open && Delivers(hop, at.start, count)
            case Ends =>
              at.open && Bare(hop, at.start, count) && hop.serve(at.start, count)[0].status == STATUS_EOF
            case Unclear => true
  {
    hide Delivers, Hopeless;
  }

  ghost function Kinds(at: Spot, script: seq<Round>): (kinds: seq<Kind>)
    ensures |kinds| == |script| && forall i :: 0 <= i < |script| ==> kinds[i] == KindOf(at, script[i])
  {
    seq(|script|, i requires 0 <= i < |script| => KindOf(at, script[i]))
  }

  /** How a call must end that starts there. */
  ghost function Ahead(p: Sizer.Params, d: Download, at: Spot, script: seq<Round>): Option<FillResult> {
    var kinds := Kinds(at, script);
    var losses := Losses(kinds[..Silent(kinds)]);
    Foretold(kinds, FailDownloads(p, at.floor, MAX_MIN_FAILURES, d, losses).retry.GaveUp?)
  }

  /** When every attempt fails, the retry rule alone decides. */
  lemma {:induction false} AheadIfHopeless(p: Sizer.Params, d: Download, at: Spot, script: seq<Round>)
    requires forall r :: r in script ==> Hopeless(r)
    ensures Ahead(p, d, at, script)
         == Some(if FailDownloads(p, at.floor, MAX_MIN_FAILURES, d, |script|).retry.GaveUp? then Failed else Pending)
  {
    var kinds := Kinds(at, script);
    forall i | 0 <= i < |kinds| ensures kinds[i].Misses? {
      assert script[i] in script;
    }
    AllMisses(kinds);
  }

  // ---------------------------------------------------------------- what a stream adapts

  const MAX_MIN_FAILURES: nat := 8

  function AfterData(l: Limits, size: nat, t: Tuning): Tuning {
    Tuning(if t.depth < l.ceiling then t.depth + 1 else t.depth, Sizer.OnSuccess(l.params, t.sizer, size), 0)
  }

  function AfterFailure(l: Limits, size: nat, t: Tuning): Tuning {
    if t.depth > l.floor then t.(depth := Max(t.depth / 2, l.floor))
    else
      var s := Sizer.OnFailure(l.params, t.sizer, size);
      Tuning(t.depth, s, if s.current == t.sizer.current == l.params.min then t.minFailures + 1 else t.minFailures)
  }

  /** Data counts as success even in a batch that ends in an error; a timeout ends the stream. */
  function AfterBatch(l: Limits, size: nat, t: Tuning, batch: Batch): Tuning {
    var u := if batch.parts != [] then AfterData(l, size, t) else t;
    if batch.end.Finished? || batch.end == Broke(Timeout) then u else AfterFailure(l, size, u)
  }

  predicate InTune(l: Limits, t: Tuning) {
    && l.floor <= t.depth <= l.ceiling && Sizer.Inv(l.params, t.sizer)
    && (t.minFailures > 0 ==> t.sizer.current == l.params.min)
  }

  function AfterBatches(l: Limits, t: Tuning, batches: seq<Batch>): Tuning
    decreases |batches|
  {
    if batches == [] then t else AfterBatches(l, AfterBatch(l, t.sizer.current, t, batches[0]), batches[1..])
  }

  lemma BatchKeepsTune(l: Limits, size: nat, t: Tuning, batch: Batch)
    requires l.Ok() && InTune(l, t)
    ensures InTune(l, AfterBatch(l, size, t, batch))
  {
    SizerKeeps(l.params, t.sizer, size);
    var u := if batch.parts != [] then AfterData(l, size, t) else t;
    SizerKeeps(l.params, u.sizer, size);
    if u.sizer.current == l.params.min {
      FloorStays(l.params, u.sizer, size);
    }
  }

  lemma FloorStays(p: Sizer.Params, s: Sizer.Sizer, size: nat)
    requires p.Ok() && Sizer.Inv(p, s) && s.current == p.min
    ensures Sizer.OnFailure(p, s, size).current == p.min
  {
  }

  /** Over any sequence of batches the depth stays between its limits, so a depth with equal limits
      never moves, and failures are only ever counted at the minimum record size. */
  lemma {:induction false} DepthStaysInRange(l: Limits, t: Tuning, batches: seq<Batch>)
    requires l.Ok() && InTune(l, t)
    ensures InTune(l, AfterBatches(l, t, batches))
    ensures l.floor == l.ceiling ==> AfterBatches(l, t, batches).depth == t.depth
    decreases |batches|
  {
    if batches != [] {
      BatchKeepsTune(l, t.sizer.current, t, batches[0]);
      DepthStaysInRange(l, AfterBatch(l, t.sizer.current, t, batches[0]), batches[1..]);
    }
  }

  /** A failure is one step of the retry rule. */
  lemma FailureIsRetry(l: Limits, t: Tuning)
    requires l.Ok() && InTune(l, t) && t.minFailures < MAX_MIN_FAILURES
    ensures var u := AfterFailure(l, t.sizer.current, t);
            FailDownload(l.params, l.floor, MAX_MIN_FAILURES, Download(t.depth, Going(t.sizer, t.minFailures)))
            == Download(u.depth, if u.minFailures >= MAX_MIN_FAILURES then GaveUp else Going(u.sizer, u.minFailures))
  {
    if t.sizer.current == l.params.min {
      FloorStays(l.params, t.sizer, t.sizer.current);
    }
  }

  lemma AddsOneAtMost(l: Limits, size: nat, t: Tuning)
    ensures t.minFailures <= AfterFailure(l, size, t).minFailures <= t.minFailures + 1
  {
  }

  // ---------------------------------------------------------------- the stream

  /** These requests were added, and each asks from `start` for that many records of that size and
      acknowledges exactly `ack`. */
  predicate AllAsk(log: seq<Wired>, longer: seq<Wired>, start: nat, ack: nat, chunk: nat, count: nat) {
    log <= longer && forall i :: |log| <= i < |longer| ==> AsksB(longer[i], start, ack, chunk, count)
  }

  const BATCH_BYTES := 1024 * 1024

  /** The pipeline's depth if that many records fit into 1 MiB, and else as many as fit, but no fewer
      than the floor. */
  predicate RightCount(depth: nat, floor: nat, chunk: nat, count: nat) {
    var size := Max(1, chunk);
    if depth * size <= BATCH_BYTES then count == depth
    else
      && floor <= count <= depth && (count + 1) * size > BATCH_BYTES
      && (count * size <= BATCH_BYTES || count == floor)
  }

  lemma CountIsRight(depth: nat, floor: nat, chunk: nat)
    requires floor <= depth
    ensures var most := BATCH_BYTES / Max(1, chunk);
            RightCount(depth, floor, chunk, if most < depth then Max(most, floor) else depth)
  {
    var size: nat := Max(1, chunk);
    var most := BATCH_BYTES / size;
    QuotientTimes(BATCH_BYTES, size, most);
    QuotientMost(BATCH_BYTES, size, most + 1);
    if most < depth {
      QuotientMost(BATCH_BYTES, size, depth);
      QuotientMost(BATCH_BYTES, size, Max(most, floor) + 1);
      if floor <= most {
        QuotientTimes(BATCH_BYTES, size, most);
      }
    } else {
      QuotientTimes(BATCH_BYTES, size, depth);
    }
  }

  class Downloader {
    const h: Sha256
    const sid: Session
    const clear: bool
    const lane: RequestLane
    const sizer: Sizer.AdaptiveSizer
    const minPipeline: nat
    const maxPipeline: nat
    var readBuf: seq<byte>
    var downloadOffset: nat
    var consumedOffset: nat
    var eof: bool
    var dead: bool
    var pipeline: nat
    ghost const stream: seq<byte>
    ghost var delivered: seq<byte>

    ghost predicate Valid()
      reads this, lane, sizer
    {
      && lane.Valid() && sizer.params.Ok() && Sizer.Inv(sizer.params, sizer.View())
      && 1 <= minPipeline <= pipeline <= maxPipeline
      && consumedOffset + |readBuf| == downloadOffset <= |stream|
      && readBuf == stream[consumedOffset..downloadOffset]
      && delivered == stream[..consumedOffset]
      && (eof ==> downloadOffset == |stream|)
      && Forward(false, lane.wire, consumedOffset)
    }

    function TheLimits(): Limits { Limits(sizer.params, minPipeline, maxPipeline) }

    function TheTuning(minFailures: nat): Tuning
      reads this, sizer
    {
      Tuning(pipeline, sizer.View(), minFailures)
    }

    /** Honest from what was consumed on; no more than that is ever acknowledged. */
    ghost predicate Honest(r: Round)
      reads this
    {
      && HonestHop(h, sid, clear, stream, consumedOffset, r.first)
      && HonestHop(h, sid, clear, stream, consumedOffset, r.second)
    }

    constructor (h: Sha256, sid: Session, clear: bool, lane: RequestLane, sizer: Sizer.AdaptiveSizer,
                 minPipeline: nat, maxPipeline: nat, ghost stream: seq<byte>)
      requires lane.Valid() && lane.wire == [] && sizer.params.Ok() && Sizer.Inv(sizer.params, sizer.View())
      requires 1 <= minPipeline <= maxPipeline
      ensures Valid() && consumedOffset == 0 && delivered == [] && !eof && !dead
      ensures this.lane == lane && this.sizer == sizer && this.stream == stream
      ensures this.h == h && this.sid == sid && this.clear == clear && pipeline == maxPipeline
    {
      this.h, this.sid, this.clear, this.lane, this.sizer := h, sid, clear, lane, sizer;
      this.minPipeline, this.maxPipeline, this.stream := minPipeline, maxPipeline, stream;
      readBuf, downloadOffset, consumedOffset, eof, dead, pipeline, delivered :=
          [], 0, 0, false, false, maxPipeline, [];
    }

    /** What a batch got is the stream from where it asked, and EOF means there is no more. */
    lemma BatchIsStream(round: Round, count: nat, read: seq<Reply>, k: nat)
      requires Honest(round) && consumedOffset <= downloadOffset <= |stream| && k <= |read|
      requires var t := round.At(downloadOffset, count); read <= t.first.replies || read <= t.second.replies
      ensures var got := Flatten(PartsB(h, sid, clear, downloadOffset, read[..k]));
              && |got| == SpanB(read[..k]) && downloadOffset + |got| <= |stream|
              && got == stream[downloadOffset..downloadOffset + |got|]
              && (LastStatus(read[..k]) == STATUS_EOF ==> downloadOffset + |got| == |stream|)
    {
      hide PartsB, HonestB, Flatten, LastStatus, SpanB;
      var t := round.At(downloadOffset, count);
      if read <= t.first.replies {
        assert read[..k] == t.first.replies[..k];
        BatchBIsStream(h, sid, clear, stream, downloadOffset, t.first.replies, k);
      } else {
        assert read[..k] == t.second.replies[..k];
        BatchBIsStream(h, sid, clear, stream, downloadOffset, t.second.replies, k);
      }
    }

    lemma AnswerIsWhole(hop: Hop, start: nat, count: nat)
      requires count > 0 && (Delivers(hop, start, count) || Bare(hop, start, count))
      ensures Flows(hop.At(start, count)) && WholeB(hop.At(start, count).replies, count)
    {
      if Bare(hop, start, count) {
        BareIsWhole(h, sid, clear, start, hop.serve(start, count), count);
      }
    }

    lemma Trains(round: Round, count: nat)
      requires Honest(round) && consumedOffset <= downloadOffset
      ensures var t := round.At(downloadOffset, count);
              TrainB(t.first.replies, count) && TrainB(t.second.replies, count)
    {
    }

    /** What counts of the replies read: all of them, or all but the one that ended the batch. */
    function Kept(batch: Batch, read: seq<Reply>): seq<Reply> {
      if batch.end.Finished? || read == [] then read else read[..|read| - 1]
    }

    /** A batch that read these replies. */
    predicate FromReplies(batch: Batch, read: seq<Reply>)
      reads this`downloadOffset
    {
      && batch.parts == PartsB(h, sid, clear, downloadOffset, Kept(batch, read))
      && if batch.end.Finished? then batch.status == LastStatus(read)
         else read != [] && batch.end == EndB(read[|read| - 1])
    }

    lemma BatchAnswers(round: Round, count: nat, batch: Batch, read: seq<Reply>)
      requires var replies := Answering(round).serve(downloadOffset, count);
               read <= replies && (batch.end.Finished? ==> read == replies)
      requires FromReplies(batch, read) && |Flatten(batch.parts)| == SpanB(Kept(batch, read))
      ensures Delivers(Answering(round), downloadOffset, count) ==> Flatten(batch.parts) != []
      ensures Bare(Answering(round), downloadOffset, count) && count > 0 ==>
                batch == Batch([], Answering(round).serve(downloadOffset, count)[0].status, Finished)
    {
      hide PartsB, WholeB, Flatten, LastStatus, SpanB, Flows, Answering;
      var replies := Answering(round).serve(downloadOffset, count);
      if Delivers(Answering(round), downloadOffset, count) {
        SomeAsked(replies, count);
        assert read[..|read|] == read;
        SpanBGrows(read, |Kept(batch, read)|);
      }
      if Bare(Answering(round), downloadOffset, count) && count > 0 {
        BareIsWhole(h, sid, clear, downloadOffset, replies, count);
        assert read == [] || read == replies;
      }
    }

    /** An answer that is not lost and ends of itself. */
    ghost predicate WillAnswer(round: Round, count: nat)
      reads this`downloadOffset, lane`closed
    {
      && !lane.closed && count > 0
      && Flows(Answering(round).At(downloadOffset, count))
      && WholeB(Answering(round).serve(downloadOffset, count), count)
    }

    /** One download over the lane, as seen from there. */
    method Request(chunk: nat, count: nat, round: Round) returns (batch: Batch, ghost read: seq<Reply>)
      requires Valid() && Honest(round)
      modifies lane
      ensures Valid() && lane.closed == old(lane.closed)
      ensures AllAsk(old(lane.wire), lane.wire, downloadOffset, consumedOffset, chunk, count)
      ensures var t := round.At(downloadOffset, count); read <= t.first.replies || read <= t.second.replies
      ensures if batch.end.Broke? then batch.parts == [] else FromReplies(batch, read)
      ensures WillAnswer(round, count) ==>
                var replies := Answering(round).serve(downloadOffset, count);
                !batch.end.Broke? && read <= replies && (batch.end.Finished? ==> read == replies)
      ensures Hopeless(round) && count > 0 ==> batch.end == Broke(Failure)
    {
      hide PartsB, HonestB, TrainB, WholeB, LastStatus, Forward, AckOf, RequestLane.Valid;
      hide Sizer.Inv, Sizer.Params.Ok, LearnsOnly, Flows, TimesOut, DownloadPayloadB, HonestHop, EndB, AsksB;
      ghost var log := lane.wire;
      ghost var tos;
      Trains(round, count);
      batch, read, tos := lane.DownloadB(h, sid, clear, downloadOffset, consumedOffset, chunk, count,
          round.At(downloadOffset, count));
      AckInPayload(downloadOffset, consumedOffset, chunk, count);
      ForwardMore(false, log, lane.wire, consumedOffset,
          Wired(MODE_DOWNLOAD, downloadOffset, DownloadPayloadB(consumedOffset, chunk, count)));
    }

    /** One download: what came is the stream from where it was asked. */
    method Ask(chunk: nat, count: nat, round: Round) returns (batch: Batch)
      requires Valid() && Honest(round)
      modifies lane
      ensures Valid()
      ensures batch.end.Broke? ==> batch.parts == []
      ensures var got := Flatten(batch.parts);
              && downloadOffset + |got| <= |stream| && got == stream[downloadOffset..downloadOffset + |got|]
              && (batch.end.Finished? && batch.status == STATUS_EOF ==> downloadOffset + |got| == |stream|)
      ensures !lane.closed && count > 0 && Delivers(Answering(round), downloadOffset, count) ==>
                Flatten(batch.parts) != []
      ensures !lane.closed && count > 0 && Bare(Answering(round), downloadOffset, count) ==>
                batch == Batch([], Answering(round).serve(downloadOffset, count)[0].status, Finished)
      ensures Hopeless(round) && count > 0 ==> batch.end == Broke(Failure)
      ensures lane.closed == old(lane.closed)
      ensures AllAsk(old(lane.wire), lane.wire, downloadOffset, consumedOffset, chunk, count)
    {
      hide AllAsk;
      hide Delivers, Bare, Answering, Hopeless, PartsB, WholeB, Flatten, LastStatus, SpanB, Forward, HonestHop;
      hide RequestLane.Valid, Sizer.Inv, Sizer.Params.Ok, Flows, EndB;
      ghost var read;
      ghost var hop := Answering(round);
      ghost var answers := !lane.closed && count > 0
          && (Delivers(hop, downloadOffset, count) || Bare(hop, downloadOffset, count));
      if answers {
        AnswerIsWhole(hop, downloadOffset, count);
      }
      batch, read := Request(chunk, count, round);
      FlattenNothing();
      if !batch.end.Broke? {
        assert read[..|read|] == read;
        BatchIsStream(round, count, read, |Kept(batch, read)|);
        if answers {
          BatchAnswers(round, count, batch, read);
        }
      }
    }

    /** One download and the bytes it brought. */
    method Fetch(chunk: nat, count: nat, round: Round) returns (batch: Batch)
      requires Valid() && Honest(round) && !eof
      modifies this`readBuf, this`downloadOffset, lane
      ensures Valid()
      ensures readBuf == old(readBuf) + Flatten(batch.parts)
      ensures batch.end.Broke? ==> batch.parts == []
      ensures batch.end.Finished? && batch.status == STATUS_EOF ==> downloadOffset == |stream|
      ensures !lane.closed && count > 0 && Delivers(Answering(round), old(downloadOffset), count) ==>
                Flatten(batch.parts) != []
      ensures !lane.closed && count > 0 && Bare(Answering(round), old(downloadOffset), count) ==>
                batch == Batch([], Answering(round).serve(old(downloadOffset), count)[0].status, Finished)
      ensures Hopeless(round) && count > 0 ==> batch.end == Broke(Failure)
      ensures lane.closed == old(lane.closed)
      ensures AllAsk(old(lane.wire), lane.wire, old(downloadOffset), consumedOffset, chunk, count)
    {
      hide AllAsk;
      hide HonestHop, Delivers, Bare, Flatten, Forward, RequestLane.Valid, Sizer.Inv, Sizer.Params.Ok;
      hide Sizer.OnSuccess, Sizer.OnFailure;
      batch := Ask(chunk, count, round);
      Buffered(stream, consumedOffset, readBuf, Flatten(batch.parts));
      readBuf := AppendParts(readBuf, batch.parts);
      downloadOffset := Advance(downloadOffset, batch.parts);
    }

    /** Records asked for at once: the pipeline depth, and about 1 MiB unless the depth is pinned. */
    method BatchSize(chunk: nat) returns (count: nat)
      requires 1 <= minPipeline <= pipeline <= maxPipeline
      ensures minPipeline <= count <= maxPipeline && RightCount(pipeline, minPipeline, chunk, count)
      ensures count * chunk <= 1024 * 1024 || count == minPipeline
    {
      hide RightCount;
      CountIsRight(pipeline, minPipeline, chunk);
      count := pipeline;
      if count < minPipeline {
        count := minPipeline;
      }
      if count > maxPipeline {
        count := maxPipeline;
      }
      var maxCount := 1024 * 1024 / if chunk > 1 then chunk else 1;
      if maxCount < count {
        count := if maxCount > minPipeline then maxCount else minPipeline;
      }
      if count <= maxCount && chunk > 0 {
        QuotientTimes(1024 * 1024, chunk, count);
      }
    }

    /** Data arrived: tell the sizer and deepen the pipeline by one. */
    method Grew(chunk: nat, ghost minFailures: nat)
      requires Valid()
      modifies this`pipeline, sizer
      ensures Valid()
      ensures TheTuning(0) == AfterData(TheLimits(), chunk, old(TheTuning(minFailures)))
      ensures pipeline == Min(old(pipeline) + 1, maxPipeline)
      ensures sizer.View() == Sizer.OnSuccess(sizer.params, old(sizer.View()), chunk)
    {
      hide HonestHop, Delivers, Hopeless, Flatten, Forward, RequestLane.Valid, Sizer.Inv, Sizer.Params.Ok;
      hide Sizer.OnSuccess, Sizer.OnFailure;
      SizerKeeps(sizer.params, sizer.View(), chunk);
      sizer.Success(chunk);
      if pipeline < maxPipeline {
        pipeline := pipeline + 1;
      }
    }

    /** A batch failed: halve the pipeline, and only at its floor shrink the records; count failures
        once both are at their floor. */
    method Shrank(chunk: nat, minFailures: nat) returns (now: nat)
      requires Valid()
      modifies this`pipeline, sizer
      ensures Valid()
      ensures TheTuning(now) == AfterFailure(TheLimits(), chunk, old(TheTuning(minFailures)))
      ensures old(pipeline) > minPipeline ==>
                && pipeline == Max(old(pipeline) / 2, minPipeline) && sizer.View() == old(sizer.View())
                && now == minFailures
      ensures old(pipeline) == minPipeline ==>
                && pipeline == minPipeline && sizer.View() == Sizer.OnFailure(sizer.params, old(sizer.View()), chunk)
                && now == minFailures + One(sizer.current == old(sizer.current) == sizer.params.min)
    {
      hide HonestHop, Delivers, Hopeless, Flatten, Forward, RequestLane.Valid, Sizer.Inv, Sizer.Params.Ok;
      hide Sizer.OnSuccess, Sizer.OnFailure;
      now := minFailures;
      if pipeline > minPipeline {
        pipeline := pipeline / 2;
        if pipeline < minPipeline {
          pipeline := minPipeline;
        }
      } else {
        SizerKeeps(sizer.params, sizer.View(), chunk);
        var was, next := sizer.Failure(chunk);
        if was == next && next == sizer.params.min {
          now := now + 1;
        }
      }
    }

    /** Where it stands. */
    function Here(): Spot
      reads this, lane
    {
      Spot(!lane.closed, downloadOffset, minPipeline, maxPipeline)
    }

    /** One pass through the loop of fillReadBuffer; `None` means another one. */
    method Pass(round: Round, minFailures: nat)
      returns (result: Option<FillResult>, now: nat, ghost batch: Batch, ghost asked: nat)
      requires Valid() && Honest(round) && readBuf == [] && !eof && minFailures < MAX_MIN_FAILURES
      modifies this`readBuf, this`downloadOffset, this`eof, this`dead, this`pipeline, lane, sizer
      ensures Valid() && readBuf == Flatten(batch.parts)
      ensures readBuf == [] ==> downloadOffset == old(downloadOffset)
      ensures TheTuning(now) == AfterBatch(TheLimits(), old(sizer.current), old(TheTuning(minFailures)), batch)
      ensures readBuf != [] <==> result == Some(Ready)
      ensures result.Some? ==> result.value in {Ready, TimedOut, Failed}
      ensures result == Some(TimedOut) <==> batch.end == Broke(Timeout)
      ensures if now >= 8 then result == Some(Failed) else result != Some(Failed)
      ensures RightCount(old(pipeline), minPipeline, old(sizer.current), asked)
      ensures AllAsk(old(lane.wire), lane.wire, old(downloadOffset), consumedOffset, old(sizer.current), asked)
      ensures if result == Some(TimedOut) then dead else dead == old(dead)
      ensures lane.closed == old(lane.closed)
      ensures match KindOf(old(Here()), round)
              case Misses => batch == Batch([], batch.status, Broke(Failure)) && !eof
              case Waits => batch == Batch([], STATUS_WAIT, Finished) && !eof
              case Brings => result == Some(Ready)
              case Ends => batch == Batch([], STATUS_EOF, Finished) && eof
              case Unclear => true
    {
      hide AllAsk, RightCount;
      hide HonestHop, Delivers, Bare, Hopeless, KindOf, Flatten, Forward, RequestLane.Valid, Sizer.Inv, Sizer.Params.Ok;
      hide Sizer.OnSuccess, Sizer.OnFailure, AfterFailure, AfterData;
      now := minFailures;
      var chunk := sizer.current;
      var count := BatchSize(chunk);
      asked := count;
      KindMeans(Here(), round, count);
      var got := Fetch(chunk, count, round);
      batch := got;
      FlattenNothing();
      assert readBuf == [] + Flatten(got.parts);
      if |got.parts| > 0 {
        Grew(chunk, minFailures);
        now := 0;
      }
      if !got.end.Finished? {
        if got.end == Broke(Timeout) {
          dead := true;
          return Some(TimedOut), now, batch, asked;
        }
        AddsOneAtMost(TheLimits(), chunk, TheTuning(now));
        var before := now;
        now := Shrank(chunk, now);
        if now > before && now >= MAX_MIN_FAILURES {
          return Some(Failed), now, batch, asked;
        }
      } else if got.status == STATUS_EOF {
        eof := true;
      }
      return if |readBuf| > 0 then Some(Ready) else None, now, batch, asked;
    }

    ghost function Future(script: seq<Round>): Option<FillResult>
      reads this, lane, sizer
    {
      Ahead(sizer.params, Download(pipeline, Going(sizer.View(), 0)), Here(), script)
    }

    method Fill(script: seq<Round>) returns (result: FillResult)
      requires Valid() && readBuf == []
      requires forall r :: r in script ==> Honest(r)
      modifies this`readBuf, this`downloadOffset, this`eof, this`dead, this`pipeline, lane, sizer
      ensures Valid()
      ensures result == Ready <==> readBuf != []
      ensures result == Ended ==> eof
      ensures if result == TimedOut then dead else dead == old(dead)
      ensures old(eof) ==> result == Ended
      ensures !old(eof) && old(Future(script)).Some? ==> result == old(Future(script)).value
    {
      hide Downloader.Valid, FailDownload, FailDownloads, AfterFailure, AfterData, Silent, Losses, Kinds, KindOf;
      hide HonestHop, Flatten, Forward, RequestLane.Valid, Sizer.Inv, Sizer.Params.Ok;
      hide Sizer.OnSuccess, Sizer.OnFailure;
      if eof {
        return Ended;
      }
      var minFailures: nat, i: nat := 0, 0;
      FlattenNothing();
      ghost var at, start, kinds := Here(), Download(pipeline, Going(sizer.View(), 0)), Kinds(Here(), script);
      ghost var k := Silent(kinds);
      FailsDownloadOnce(sizer.params, minPipeline, MAX_MIN_FAILURES, start, 0);
      LossesGrow(kinds, 0, k);
      while |readBuf| == 0 && !eof
        invariant Valid() && readBuf == [] && dead == old(dead) && 0 <= i <= |script| && minFailures < MAX_MIN_FAILURES
        invariant minFailures > 0 ==> sizer.current == sizer.params.min
        invariant i <= k ==>
                    && !eof && Here() == at
                    && FailDownloads(sizer.params, minPipeline, MAX_MIN_FAILURES, start, Losses(kinds[..i]))
                        == Download(pipeline, Going(sizer.View(), minFailures))
        invariant i >= k ==>
                    FailDownloads(sizer.params, minPipeline, MAX_MIN_FAILURES, start, Losses(kinds[..k])).retry.Going?
        invariant i > k ==> !kinds[k].Brings? && (kinds[k].Ends? ==> eof)
        decreases |script| - i
      {
        if i == |script| {
          return Pending;
        }
        assert script[i] in script;
        ghost var before := TheTuning(minFailures);
        Tuned(minFailures);
        FailsDownloadOnce(sizer.params, minPipeline, MAX_MIN_FAILURES, start, Losses(kinds[..i]));
        FailureIsRetry(TheLimits(), before);
        LossesNext(kinds, i);
        var over;
        ghost var batch;
        ghost var asked;
        over, minFailures, batch, asked := Pass(script[i], minFailures);
        BatchKeepsTune(TheLimits(), before.sizer.current, before, batch);
        i := i + 1;
        if over.Some? {
          if i <= k && over == Some(Failed) {
            LossesGrow(kinds, i, k);
            DownloadStaysGivenUp(sizer.params, minPipeline, MAX_MIN_FAILURES, start,
                Losses(kinds[..i]), Losses(kinds[..k]));
          }
          return over.value;
        }
      }
      return Ended;
    }

    lemma Tuned(minFailures: nat)
      requires Valid() && (minFailures > 0 ==> sizer.current == sizer.params.min)
      ensures TheLimits().Ok() && InTune(TheLimits(), TheTuning(minFailures))
    {
      hide Sizer.Inv, Forward;
    }

    /** The tail of Read: buffered bytes go to the caller. */
    method HandOver(n: nat) returns (bytes: seq<byte>)
      requires Valid()
      modifies this`readBuf, this`consumedOffset, this`delivered
      ensures Valid() && bytes == old(readBuf)[..if n < |old(readBuf)| then n else |old(readBuf)|]
      ensures delivered == old(delivered) + bytes && readBuf == old(readBuf)[|bytes|..]
    {
      hide Forward, RequestLane.Valid, Sizer.Inv, Sizer.Params.Ok;
      var m := if n < |readBuf| then n else |readBuf|;
      bytes := readBuf[..m];
      Handed(stream, consumedOffset, readBuf, m);
      ForwardLater(false, lane.wire, consumedOffset, consumedOffset + m);
      readBuf := readBuf[m..];
      consumedOffset := consumedOffset + m;
      delivered := delivered + bytes;
    }

    /** Read hands over the next bytes of the stream, says EOF only when the whole of it was handed
        over, and hands over nothing with an error. */
    method Read(n: nat, script: seq<Round>) returns (r: ReadResult)
      requires Valid() && forall r :: r in script ==> Honest(r)
      modifies this, lane, sizer
      ensures Valid()
      ensures r.Data? ==> |r.bytes| <= n && (n > 0 ==> r.bytes != []) && delivered == old(delivered) + r.bytes
      ensures !r.Data? ==> delivered == old(delivered)
      ensures r == Eof ==> delivered == stream
      ensures n == 0 ==> r == Data([])
      ensures old(readBuf) != [] ==> r.Data?
      ensures n > 0 && old(readBuf) == [] && old(eof) ==> r == Eof
      ensures n > 0 && old(readBuf) == [] && !old(eof) && old(Future(script)).Some? ==>
                Reports(r, old(Future(script)).value)
    {
      hide HonestHop, Delivers, Flatten, Forward, RequestLane.Valid, Sizer.Inv, Sizer.Params.Ok;
      hide Sizer.OnSuccess, Sizer.OnFailure;
      if n == 0 {
        return Data([]);
      }
      if |readBuf| == 0 {
        var filled := Fill(script);
        if filled == Ended {
          return Eof;
        }
        if filled != Ready {
          return Error(filled);
        }
      }
      var bytes := HandOver(n);
      return Data(bytes);
    }
  }
}
