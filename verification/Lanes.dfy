/** Physical connections under the B and BP streams: requestLane in chunk.go and bpLane in bp.go,
    two copies of one type.

    B and BP replies carry no request id: a reply is matched to a request only by being the next
    thing on the connection. Each frame here knows which request it answers, by its position in
    the log of requests put on the wire; the lane does not look at that.

    Dialling, writing and losing replies are choices of the environment, one Attempt each. */
module Lanes {
  import opened Bytes
  import opened Wrappers
  import opened Framing
  import opened Batches

  datatype Fault = Failure | Timeout

  datatype Frame = Frame(to: nat, reply: Reply)

  /** A physical connection: how many requests it has completed, and what lies unread on it. */
  datatype Conn = Conn(requests: nat, unread: seq<Frame>)

  /** `hint` is what a BP download puts into the length field instead of a payload's length. */
  datatype Wired = Wired(mode: byte, num: nat, payload: seq<byte>, hint: nat := 0)

  /** What was put on the wire between these two moments is copies of one request. */
  predicate Copies(log: seq<Wired>, longer: seq<Wired>, w: Wired) {
    log <= longer && forall i :: |log| <= i < |longer| ==> longer[i] == w
  }

  /** `dial` matters only if a connection has to be made. The server answers with `replies`, of
      which `arriving` can be read before reading ends in `loss`. */
  datatype Attempt = Attempt(dial: Option<Fault>, write: Option<Fault>, replies: seq<Reply>, arriving: nat, loss: Fault)

  /** What a logical request meets: it is tried at most twice. */
  datatype Tries = Tries(first: Attempt, second: Attempt)

  datatype Outcome = Answered(reply: Reply) | Lost(fault: Fault)

  /** Why a batch ended: in order, on a transport fault, or because of what a reply said. */
  datatype BatchEnd = Finished | Broke(fault: Fault) | EmptyData | ServerError | BadStatus | BadLength

  datatype Batch = Batch(parts: seq<seq<byte>>, status: byte, end: BatchEnd)

  /** What one reply does to a B batch: nothing, or end it in an error. */
  function EndB(reply: Reply): BatchEnd {
    if reply.status == STATUS_DATA then if reply.body == [] then EmptyData else Finished
    else if reply.status == STATUS_WAIT || reply.status == STATUS_EOF then Finished
    else if reply.status == STATUS_ERROR then ServerError
    else BadStatus
  }

  /** The same for a BP batch, where empty records are allowed and lengths are checked. */
  function EndBP(h: Sha256, sid: Session, clear: bool, mode: byte, start: nat, reply: Reply): BatchEnd {
    if reply.status == STATUS_DATA then
      if UnwrapBP(DecodeBody(h, STATUS_DATA, reply.body, clear, sid, mode, start)).None? then BadLength else Finished
    else if reply.status == STATUS_OK || reply.status == STATUS_WAIT || reply.status == STATUS_EOF then Finished
    else if reply.status == STATUS_ERROR then ServerError
    else BadStatus
  }

  function Frames(replies: seq<Reply>, to: nat): seq<Frame> {
    seq(|replies|, i requires 0 <= i < |replies| => Frame(to, replies[i]))
  }

  lemma FramesFrom(replies: seq<Reply>, to: nat, i: nat)
    requires i <= |replies|
    ensures |Frames(replies, to)| == |replies|
    ensures i < |replies| ==> Frames(replies, to)[i..] != [] && Frames(replies, to)[i..][0] == Frame(to, replies[i])
    ensures i < |replies| ==> Frames(replies, to)[i..][1..] == Frames(replies, to)[i + 1..]
    ensures i == |replies| ==> Frames(replies, to)[i..] == []
    ensures Frames(replies, to)[0..] == Frames(replies, to)
  {
  }

  /** Requests completed on a connection, if there is one. */
  function Used(pc: Option<Conn>): nat {
    if pc.Some? then pc.value.requests else 0
  }

  /** The connection left by a completed request: one that reached its rotation limit is closed. */
  function AfterDone(used: nat, every: nat): Option<Conn> {
    if every > 0 && used + 1 >= every then None else Some(Conn(used + 1, []))
  }

  /** What n requests in a row, all completed, leave of a connection. */
  function AfterMany(every: nat, n: nat): Option<Conn> {
    if n == 0 then None else AfterDone(Used(AfterMany(every, n - 1)), every)
  }

  /** A limit of k uses each connection for exactly k requests. */
  lemma {:induction false} ConnectionsRotate(k: nat, rounds: nat, more: nat)
    requires k > 0 && more < k
    ensures rounds * k >= 0
    ensures AfterMany(k, rounds * k + more) == if more == 0 then None else Some(Conn(more, []))
    decreases rounds, more
  {
    if more > 0 {
      ConnectionsRotate(k, rounds, more - 1);
    } else if rounds > 0 {
      assert rounds * k == (rounds - 1) * k + (k - 1) + 1;
      ConnectionsRotate(k, rounds - 1, k - 1);
    }
  }

  /** Limit 0 keeps one for ever. */
  lemma {:induction false} ConnectionStays(n: nat)
    requires n > 0
    ensures AfterMany(0, n) == Some(Conn(n, []))
  {
    if n > 1 {
      ConnectionStays(n - 1);
    }
  }

  /** The rotation limit after a failed request that was on the wire. */
  function AfterFault(auto: bool, every: nat, pc: Option<Conn>): nat {
    if auto && Used(pc) > 0 then 1 else every
  }

  /** The rotation limit changes only from 0 to 1, on an automatic lane, and only when a connection
      that had completed a request failed. */
  predicate LearnsOnly(auto: bool, was: nat, pc: Option<Conn>, now: nat) {
    now != was ==> auto && was == 0 && now == 1 && Used(pc) > 0
  }

  /** An attempt that fails, and not by a timeout, whatever the lane's state. */
  predicate FailsSoftly(a: Attempt) {
    && a.dial != Some(Timeout) && a.write != Some(Timeout) && a.loss == Failure
    && (a.write.Some? || a.arriving == 0)
  }

  /** An attempt in which nothing goes wrong. */
  predicate GoesThrough(a: Attempt) {
    a.dial.None? && a.write.None? && a.arriving > 0 && |a.replies| == 1
  }

  /** An attempt in which nothing is lost. */
  predicate Flows(a: Attempt) {
    a.dial.None? && a.write.None? && a.arriving >= |a.replies|
  }

  /** The first attempt ends in a timeout after the request may have been put on the wire. */
  predicate TimesOut(a: Attempt) {
    a.write == Some(Timeout) || (a.write.None? && a.loss == Timeout)
  }

  function DownloadPayloadB(ack: nat, maxChunk: nat, count: nat): seq<byte> {
    BigEndian(ack, 8) + BigEndian(maxChunk, 4) + BigEndian(count, 2)
  }

  /** writeBPRequest turns a single download into a frame whose length field is a size hint. */
  function DownloadRequestBP(offset: nat, maxChunk: nat, count: nat): Wired {
    if count > 1 then Wired(BP_BATCH, offset, BigEndian(maxChunk, 4) + BigEndian(count, 2))
    else Wired(BP_DOWNLOAD, offset, [], maxChunk)
  }

  const WIDTH2 := 0x1_0000
  const WIDTH4 := 0x1_0000_0000
  const WIDTH8 := 0x1_0000_0000_0000_0000

  /** How a B server reads a download: 8 bytes of acknowledgement, 4 of record size, 2 of count. */
  predicate AsksB(w: Wired, start: nat, ack: nat, maxChunk: nat, count: nat) {
    && w.mode == 3 && w.num == start && |w.payload| == 14
    && (ack < WIDTH8 ==> Value(w.payload[..8]) == ack)
    && (maxChunk < WIDTH4 ==> Value(w.payload[8..12]) == maxChunk)
    && (count < WIDTH2 ==> Value(w.payload[12..14]) == count)
  }

  /** How a BP server reads one: 4 bytes of record size and 2 of count, or for a single record the
      size in the length field. */
  predicate AsksBP(w: Wired, start: nat, maxChunk: nat, count: nat) {
    && w.num == start
    && if count <= 1 then w.mode == 2 && w.payload == [] && w.hint == maxChunk
       else
         && w.mode == 3 && |w.payload| == 6 && w.hint == 0
         && (maxChunk < WIDTH4 ==> Value(w.payload[..4]) == maxChunk)
         && (count < WIDTH2 ==> Value(w.payload[4..6]) == count)
  }

  lemma PayloadOfB(start: nat, ack: nat, maxChunk: nat, count: nat)
    ensures AsksB(Wired(MODE_DOWNLOAD, start, DownloadPayloadB(ack, maxChunk, count)), start, ack, maxChunk, count)
  {
    hide Value, BigEndian;
    var s := DownloadPayloadB(ack, maxChunk, count);
    Widths();
    assert s[..8] == BigEndian(ack, 8) && s[8..12] == BigEndian(maxChunk, 4) && s[12..14] == BigEndian(count, 2);
    if ack < WIDTH8 { ValueOfBigEndian(ack, 8); }
    if maxChunk < WIDTH4 { ValueOfBigEndian(maxChunk, 4); }
    if count < WIDTH2 { ValueOfBigEndian(count, 2); }
  }

  lemma RequestOfBP(start: nat, maxChunk: nat, count: nat)
    ensures AsksBP(DownloadRequestBP(start, maxChunk, count), start, maxChunk, count)
  {
    hide Value, BigEndian;
    var s := DownloadRequestBP(start, maxChunk, count).payload;
    Widths();
    if count > 1 {
      assert s[..4] == BigEndian(maxChunk, 4) && s[4..6] == BigEndian(count, 2);
      if maxChunk < WIDTH4 { ValueOfBigEndian(maxChunk, 4); }
      if count < WIDTH2 { ValueOfBigEndian(count, 2); }
    }
  }

  /** A whole train of which everything so far was DATA has more to come. */
  lemma WholeEnds(replies: seq<Reply>, count: nat, i: nat)
    requires i < count && i <= |replies|
    requires LastStatus(replies[..i]) == STATUS_DATA || i == 0
    ensures WholeB(replies, count) ==> i < |replies|
  {
    assert replies[..|replies|] == replies;
  }

  class RequestLane {
    const autoReconnect: bool
    var reconnectEvery: nat
    var pc: Option<Conn>
    var closed: bool
    var wire: seq<Wired>

    /** Between calls: a connection that is kept has nothing unread and has not reached its rotation
        limit; a closed lane has none. */
    predicate Valid()
      reads this
    {
      && (pc.Some? ==> pc.value.unread == [] && (reconnectEvery > 0 ==> pc.value.requests < reconnectEvery))
      && (closed ==> pc.None?)
      && (autoReconnect ==> reconnectEvery <= 1)
    }

    /** 1 means automatic: start persistent and learn. */
    constructor (reconnectEvery: nat)
      ensures Valid() && pc.None? && !closed && wire == []
      ensures autoReconnect == (reconnectEvery == 1)
      ensures this.reconnectEvery == if reconnectEvery == 1 then 0 else reconnectEvery
    {
      autoReconnect := reconnectEvery == 1;
      this.reconnectEvery := if reconnectEvery == 1 then 0 else reconnectEvery;
      pc, closed, wire := None, false, [];
    }

    method Discard()
      modifies this
      ensures pc.None? && unchanged(`reconnectEvery) && unchanged(`closed) && unchanged(`wire)
    {
      if pc.Some? {
        pc := None;
      }
    }

    method TransportFailure(reused: bool)
      modifies this
      ensures pc.None? && unchanged(`closed) && unchanged(`wire)
      ensures reconnectEvery == if autoReconnect && reused then 1 else old(reconnectEvery)
    {
      if autoReconnect && reused {
        reconnectEvery := 1;
      }
      Discard();
    }

    /** The tail of a successful transaction: count it and rotate if the limit is reached. */
    method Complete()
      requires pc.Some? && pc.value.unread == [] && !closed && (autoReconnect ==> reconnectEvery <= 1)
      modifies this
      ensures Valid() && unchanged(`reconnectEvery) && unchanged(`closed) && unchanged(`wire)
      ensures pc == AfterDone(old(pc).value.requests, reconnectEvery)
    {
      pc := Some(pc.value.(requests := pc.value.requests + 1));
      if reconnectEvery > 0 && pc.value.requests >= reconnectEvery {
        Discard();
      }
    }

    /** ensureLocked: keep the connection or make one. */
    method Ensure(dial: Option<Fault>) returns (fault: Option<Fault>)
      requires Valid()
      modifies this
      ensures Valid() && unchanged(`reconnectEvery) && unchanged(`closed) && unchanged(`wire)
      ensures fault == if closed then Some(Failure) else if old(pc).Some? then None else dial
      ensures pc == if fault.Some? || old(pc).Some? then old(pc) else Some(Conn(0, []))
    {
      if closed {
        return Some(Failure);
      }
      if pc.Some? {
        if reconnectEvery <= 0 || pc.value.requests < reconnectEvery {
          return None;
        }
        // A kept connection is below its limit, so the program's rotation here never happens.
        assert false;
      }
      if dial.Some? {
        return dial;
      }
      pc := Some(Conn(0, []));
      return None;
    }

    /** The first half of every transaction: have a connection and put the request on it. The server
        may answer it even if the write reports an error. */
    method Begin(request: Wired, a: Attempt) returns (fault: Option<Fault>, reused: bool)
      requires Valid()
      modifies this
      ensures unchanged(`closed) && (autoReconnect ==> reconnectEvery <= 1)
      ensures fault.None? ==>
                && !closed && a.write.None? && reused == (Used(old(pc)) > 0) && unchanged(`reconnectEvery)
                && wire == old(wire) + [request] && pc == Some(Conn(Used(old(pc)), Frames(a.replies, |old(wire)|)))
      ensures fault.Some? ==> pc.None? && LearnsOnly(autoReconnect, old(reconnectEvery), old(pc), reconnectEvery)
      ensures fault.Some? ==>
                || (wire == old(wire) && (closed || (old(pc).None? && fault == a.dial)))
                || (wire == old(wire) + [request] && fault == a.write)
      ensures fault.Some? && wire != old(wire) ==>
                reconnectEvery == AfterFault(autoReconnect, old(reconnectEvery), old(pc))
      ensures closed ==> fault == Some(Failure) && wire == old(wire)
    {
      reused := false;
      fault := Ensure(a.dial);
      if fault.Some? {
        return;
      }
      reused := pc.value.requests > 0;
      // The replies queue behind what is there, and nothing is: that is what pairing rests on.
      assert pc.value.unread + Frames(a.replies, |wire|) == Frames(a.replies, |wire|);
      pc := Some(pc.value.(unread := pc.value.unread + Frames(a.replies, |wire|)));
      wire := wire + [request];
      fault := a.write;
      if fault.Some? {
        TransportFailure(reused);
      }
    }

    /** Reads reply i of those the server sent to the request at `to`, if it arrives. */
    method ReadFrame(a: Attempt, i: nat, ghost to: nat) returns (frame: Option<Frame>)
      requires pc.Some? && i <= |a.replies| && pc.value.unread == Frames(a.replies, to)[i..]
      modifies `pc
      ensures frame == if i < a.arriving && i < |a.replies| then Some(Frame(to, a.replies[i])) else None
      ensures frame.Some? ==> pc == Some(Conn(old(pc).value.requests, Frames(a.replies, to)[i + 1..]))
      ensures frame.None? ==> pc == old(pc)
    {
      hide Frames;
      FramesFrom(a.replies, to, i);
      if i >= a.arriving || pc.value.unread == [] {
        return None;
      }
      frame := Some(pc.value.unread[0]);
      pc := Some(pc.value.(unread := pc.value.unread[1..]));
    }

    method Close()
      requires Valid()
      modifies this
      ensures Valid() && closed && pc.None? && unchanged(`wire)
    {
      closed := true;
      Discard();
    }

    /** One pass through the body of single's loop. */
    method TrySingle(request: Wired, a: Attempt) returns (outcome: Outcome, ghost to: nat)
      requires Valid() && |a.replies| <= 1
      modifies this
      ensures Valid() && unchanged(`closed) && LearnsOnly(autoReconnect, old(reconnectEvery), old(pc), reconnectEvery)
      ensures wire == old(wire) || wire == old(wire) + [request]
      ensures outcome.Answered? ==> wire == old(wire) + [request] && to == |wire| - 1 && a.replies == [outcome.reply]
      ensures outcome.Answered? ==>
                reconnectEvery == old(reconnectEvery) && pc == AfterDone(Used(old(pc)), reconnectEvery)
      ensures outcome.Lost? ==> pc.None? && (TimesOut(a) && wire != old(wire) ==> outcome.fault == Timeout)
      ensures outcome.Lost? && wire != old(wire) ==>
                reconnectEvery == AfterFault(autoReconnect, old(reconnectEvery), old(pc))
      ensures old(pc).Some? && !closed ==> wire != old(wire)
      ensures closed ==> outcome == Lost(Failure) && wire == old(wire)
      ensures FailsSoftly(a) ==> outcome == Lost(Failure)
      ensures !closed && GoesThrough(a) ==> outcome.Answered?
    {
      hide Frames;
      FramesFrom(a.replies, |wire|, 0);
      FramesFrom(a.replies, |wire|, |a.replies|);
      to := 0;
      var fault, reused := Begin(request, a);
      if fault.Some? {
        return Lost(fault.value), to;
      }
      var frame := ReadFrame(a, 0, |wire| - 1);
      if frame.None? {
        TransportFailure(reused);
        return Lost(a.loss), to;
      }
      assert a.replies == [frame.value.reply];
      Complete();
      return Answered(frame.value.reply), frame.value.to;
    }

    /** One request, one reply, one reconnect. With a server that answers each request at most once:
        the reply returned answers the request last put on the wire, every copy on the wire is this
        request, nothing is left unread, and a timeout is not followed by another copy. */
    method Single(request: Wired, t: Tries) returns (outcome: Outcome, ghost to: nat)
      requires Valid()
      requires |t.first.replies| <= 1 && |t.second.replies| <= 1
      modifies this
      ensures Valid() && unchanged(`closed) && LearnsOnly(autoReconnect, old(reconnectEvery), old(pc), reconnectEvery)
      ensures old(wire) <= wire && |wire| <= |old(wire)| + 2
      ensures forall i :: |old(wire)| <= i < |wire| ==> wire[i] == request
      ensures outcome.Answered? ==>
                && |wire| > |old(wire)| && to == |wire| - 1
                && (t.first.replies == [outcome.reply] || t.second.replies == [outcome.reply])
      ensures outcome.Answered? ==> pc == AfterDone(Used(old(pc)), reconnectEvery) || pc == AfterDone(0, reconnectEvery)
      ensures outcome.Lost? ==> pc.None?
      ensures !closed && GoesThrough(t.first) ==>
                pc == AfterDone(Used(old(pc)), reconnectEvery) && unchanged(`reconnectEvery)
      ensures Used(old(pc)) > 0 && autoReconnect && FailsSoftly(t.first) ==> reconnectEvery == 1
      ensures closed ==> outcome == Lost(Failure) && wire == old(wire)
      ensures TimesOut(t.first) ==> |wire| <= |old(wire)| + 1
      ensures FailsSoftly(t.first) && FailsSoftly(t.second) ==> outcome == Lost(Failure)
      ensures !closed && GoesThrough(t.first) ==> outcome == Answered(t.first.replies[0]) && |wire| == |old(wire)| + 1
      ensures !closed && FailsSoftly(t.first) && GoesThrough(t.second) ==> outcome == Answered(t.second.replies[0])
    {
      for attempt := 0 to 2
        invariant Valid() && unchanged(`closed)
        invariant attempt == 0 ==> pc == old(pc) && wire == old(wire) && unchanged(`reconnectEvery)
        invariant attempt > 0 ==> pc.None? && LearnsOnly(autoReconnect, old(reconnectEvery), old(pc), reconnectEvery)
        invariant attempt > 0 && !closed ==> !GoesThrough(t.first)
        invariant attempt > 0 && Used(old(pc)) > 0 && autoReconnect && FailsSoftly(t.first) ==> reconnectEvery == 1
        invariant attempt == 2 && !closed ==> !GoesThrough(t.second)
        invariant |wire| <= |old(wire)| + if TimesOut(t.first) && attempt > 0 then attempt - 1 else attempt
        invariant old(wire) <= wire && forall i :: |old(wire)| <= i < |wire| ==> wire[i] == request
        invariant closed ==> wire == old(wire)
      {
        outcome, to := TrySingle(request, if attempt == 0 then t.first else t.second);
        if outcome.Answered? || outcome.fault == Timeout {
          return;
        }
      }
      return Lost(Failure), 0;
    }

    /** Reads the records of one B batch. `k` is how many replies it consumed, `tos` the requests they
        answered. */
    method ReadBatchB(h: Sha256, sid: Session, clear: bool, start: nat, count: nat, a: Attempt, reused: bool)
      returns (batch: Batch, ghost k: nat, ghost tos: seq<nat>)
      requires pc.Some? && !closed && |wire| > 0 && (autoReconnect ==> reconnectEvery <= 1)
      requires pc.value.unread == Frames(a.replies, |wire| - 1) && TrainB(a.replies, count)
      modifies this
      ensures unchanged(`wire) && unchanged(`closed)
      ensures k <= |a.replies| && |tos| == k && forall to :: to in tos ==> to == |wire| - 1
      ensures WholeB(a.replies, count) && a.arriving >= |a.replies| ==> !batch.end.Broke?
      ensures count > 0 && a.arriving == 0 ==> batch.end == Broke(a.loss)
      ensures batch.end.Finished? ==>
                && k == |a.replies| && pc == Some(Conn(old(pc).value.requests, []))
                && batch.parts == PartsB(h, sid, clear, start, a.replies[..k])
                && batch.status == LastStatus(a.replies[..k])
      ensures !batch.end.Finished? ==> pc.None?
      ensures batch.end.Broke? ==>
                && batch == Batch([], 0, Broke(a.loss))
                && reconnectEvery == if autoReconnect && reused then 1 else old(reconnectEvery)
      ensures !batch.end.Broke? ==> unchanged(`reconnectEvery)
      ensures !batch.end.Finished? && !batch.end.Broke? ==>
                && k > 0 && batch.parts == PartsB(h, sid, clear, start, a.replies[..k - 1])
                && batch.status == a.replies[k - 1].status
      ensures !batch.end.Finished? && !batch.end.Broke? ==> batch.end == EndB(a.replies[k - 1])
      ensures forall i :: 0 <= i < k - 1 ==> a.replies[i].status == STATUS_DATA && a.replies[i].body != []
      ensures batch.end.Finished? && k > 0 ==>
                var last := a.replies[k - 1];
                if last.status == STATUS_DATA then last.body != [] && k == count
                else last.status == STATUS_WAIT || last.status == STATUS_EOF
      ensures !batch.end.Finished? && !batch.end.Broke? ==>
                var last := a.replies[k - 1];
                && (batch.end.EmptyData? <==> last.status == STATUS_DATA)
                && (last.status == STATUS_DATA ==> last.body == [])
                && (batch.end.ServerError? <==> last.status == STATUS_ERROR)
                && last.status != STATUS_WAIT && last.status != STATUS_EOF
    {
      hide DecodeBody, Frames, PartsB, Flatten, WholeB;
      EmptyB(h, sid, clear, start);
      k, tos := 0, [];
      var out: seq<seq<byte>>, status, offset, i := [], STATUS_OK, start, 0;
      FramesFrom(a.replies, |wire| - 1, 0);
      while i < count
        invariant 0 <= i <= count && k == i <= |a.replies| && i <= a.arriving
        invariant unchanged(`wire) && unchanged(`closed) && unchanged(`reconnectEvery)
        invariant pc == Some(Conn(old(pc).value.requests, Frames(a.replies, |wire| - 1)[i..]))
        invariant |tos| == i && forall to :: to in tos ==> to == |wire| - 1
        invariant out == PartsB(h, sid, clear, start, a.replies[..i]) && offset == start + |Flatten(out)|
        invariant status == LastStatus(a.replies[..i]) && (status == STATUS_DATA || i == 0)
        invariant forall j :: 0 <= j < i ==> a.replies[j].status == STATUS_DATA && a.replies[j].body != []
      {
        var frame := ReadFrame(a, i, |wire| - 1);
        if frame.None? {
          WholeEnds(a.replies, count, i);
          TransportFailure(reused);
          return Batch([], 0, Broke(a.loss)), k, tos;
        }
        PartsBAppend(h, sid, clear, start, a.replies, i);
        k, tos := k + 1, tos + [frame.value.to];
        var reply := frame.value.reply;
        status := reply.status;
        if status == STATUS_DATA {
          var body := DecodeBody(h, status, reply.body, clear, sid, MODE_DOWNLOAD, offset);
          if |body| == 0 {
            Discard();
            return Batch(out, status, EmptyData), k, tos;
          }
          FlattenAppend(out, body);
          out := out + [body];
          offset := offset + |body|;
        } else if status == STATUS_WAIT || status == STATUS_EOF {
          assert k == |a.replies|;
          FramesFrom(a.replies, |wire| - 1, k);
          return Batch(out, status, Finished), k, tos;
        } else {
          Discard();
          return Batch(out, status, if status == STATUS_ERROR then ServerError else BadStatus), k, tos;
        }
        i := i + 1;
      }
      FramesFrom(a.replies, |wire| - 1, i);
      return Batch(out, status, Finished), k, tos;
    }

    /** One pass through the body of download's loop. */
    method TryDownloadB(
        h: Sha256, sid: Session, clear: bool, start: nat, ack: nat, maxChunk: nat, count: nat, a: Attempt)
      returns (batch: Batch, ghost read: seq<Reply>, ghost tos: seq<nat>)
      requires Valid() && TrainB(a.replies, count)
      modifies this
      ensures Valid() && unchanged(`closed) && LearnsOnly(autoReconnect, old(reconnectEvery), old(pc), reconnectEvery)
      ensures wire == old(wire)
                || wire == old(wire) + [Wired(MODE_DOWNLOAD, start, DownloadPayloadB(ack, maxChunk, count))]
      ensures wire != old(wire) ==> AsksB(wire[|wire| - 1], start, ack, maxChunk, count)
      ensures read <= a.replies && |tos| == |read| && (forall to :: to in tos ==> to == |wire| - 1)
      ensures batch.end.Broke? ==>
                && pc.None? && batch.parts == [] && read == []
                && (TimesOut(a) && wire != old(wire) ==> batch.end.fault == Timeout)
      ensures !batch.end.Broke? ==> wire != old(wire) && unchanged(`reconnectEvery)
      ensures batch.end.Finished? ==> pc == AfterDone(Used(old(pc)), reconnectEvery)
      ensures !batch.end.Finished? ==> pc.None?
      ensures batch.end.Broke? && wire != old(wire) ==>
                reconnectEvery == AfterFault(autoReconnect, old(reconnectEvery), old(pc))
      ensures old(pc).Some? && !closed ==> wire != old(wire)
      ensures count > 0 && FailsSoftly(a) ==> batch.end == Broke(Failure)
      ensures !closed && Flows(a) && WholeB(a.replies, count) ==> !batch.end.Broke?
      ensures batch.end.Finished? ==>
                && read == a.replies
                && batch.parts == PartsB(h, sid, clear, start, read)
                && batch.status == LastStatus(read)
      ensures !batch.end.Finished? && !batch.end.Broke? ==>
                && read != [] && batch.end == EndB(read[|read| - 1])
                && batch.parts == PartsB(h, sid, clear, start, read[..|read| - 1])
    {
      hide Frames, PartsB, LastStatus, TrainB, WholeB, DownloadPayloadB, AsksB;
      PayloadOfB(start, ack, maxChunk, count);
      read, tos := [], [];
      var fault, reused := Begin(Wired(MODE_DOWNLOAD, start, DownloadPayloadB(ack, maxChunk, count)), a);
      if fault.Some? {
        return Batch([], 0, Broke(fault.value)), [], [];
      }
      ghost var k;
      batch, k, tos := ReadBatchB(h, sid, clear, start, count, a, reused);
      if batch.end.Broke? {
        read, tos := [], [];
        return;
      }
      read := a.replies[..k];
      if batch.end.Finished? {
        Complete();
      } else {
        assert read[..|read| - 1] == a.replies[..k - 1];
      }
    }

    /** A download batch of the B stream, with one reconnect. `read` is what was consumed of the
        replies to the last copy of the request; a batch cut by a transport fault yields nothing. */
    method DownloadB(h: Sha256, sid: Session, clear: bool, start: nat, ack: nat, maxChunk: nat, count: nat, t: Tries)
      returns (batch: Batch, ghost read: seq<Reply>, ghost tos: seq<nat>)
      requires Valid() && TrainB(t.first.replies, count) && TrainB(t.second.replies, count)
      modifies this
      ensures Valid() && unchanged(`closed) && LearnsOnly(autoReconnect, old(reconnectEvery), old(pc), reconnectEvery)
      ensures old(wire) <= wire && |wire| <= |old(wire)| + 2
      ensures forall i :: |old(wire)| <= i < |wire| ==>
                && AsksB(wire[i], start, ack, maxChunk, count)
                && wire[i] == Wired(MODE_DOWNLOAD, start, DownloadPayloadB(ack, maxChunk, count))
      ensures TimesOut(t.first) ==> |wire| <= |old(wire)| + 1
      ensures read <= t.first.replies || read <= t.second.replies
      ensures |tos| == |read| && (forall to :: to in tos ==> to == |wire| - 1) && (read != [] ==> |wire| > |old(wire)|)
      ensures batch.end.Broke? ==> batch.parts == []
      ensures batch.end.Finished? ==>
                pc == AfterDone(Used(old(pc)), reconnectEvery) || pc == AfterDone(0, reconnectEvery)
      ensures !batch.end.Finished? ==> pc.None?
      ensures Used(old(pc)) > 0 && autoReconnect && count > 0 && FailsSoftly(t.first) ==> reconnectEvery == 1
      ensures count > 0 && FailsSoftly(t.first) && FailsSoftly(t.second) ==> batch.end == Broke(Failure)
      ensures !closed && Flows(t.first) && WholeB(t.first.replies, count) ==>
                !batch.end.Broke? && read <= t.first.replies && (batch.end.Finished? ==> read == t.first.replies)
      ensures !closed && count > 0 && FailsSoftly(t.first) && Flows(t.second) && WholeB(t.second.replies, count) ==>
                !batch.end.Broke? && read <= t.second.replies && (batch.end.Finished? ==> read == t.second.replies)
      ensures batch.end.Finished? ==>
                batch.parts == PartsB(h, sid, clear, start, read) && batch.status == LastStatus(read)
      ensures !batch.end.Finished? && !batch.end.Broke? ==>
                && read != [] && batch.end == EndB(read[|read| - 1])
                && batch.parts == PartsB(h, sid, clear, start, read[..|read| - 1])
    {
      hide PartsB, PartsBP, TrainB, WholeB, LastStatus, EndB, EndBP, Flows, TimesOut, DownloadPayloadB;
      hide DownloadRequestBP, AsksB, AsksBP;
      PayloadOfB(start, ack, maxChunk, count);
      for attempt := 0 to 2
        invariant Valid() && unchanged(`closed)
        invariant attempt == 0 ==> pc == old(pc) && wire == old(wire) && unchanged(`reconnectEvery)
        invariant attempt > 0 && Used(old(pc)) > 0 && autoReconnect && FailsSoftly(t.first) ==>
                    count == 0 || reconnectEvery == 1
        invariant attempt > 0 ==> pc.None? && LearnsOnly(autoReconnect, old(reconnectEvery), old(pc), reconnectEvery)
        invariant |wire| <= |old(wire)| + if TimesOut(t.first) && attempt > 0 then attempt - 1 else attempt
        invariant old(wire) <= wire && forall i :: |old(wire)| <= i < |wire| ==>
                    wire[i] == Wired(MODE_DOWNLOAD, start, DownloadPayloadB(ack, maxChunk, count))
        invariant attempt > 0 && !closed ==> !(Flows(t.first) && WholeB(t.first.replies, count))
        invariant attempt > 1 && !closed ==> !(Flows(t.second) && WholeB(t.second.replies, count))
      {
        var a := if attempt == 0 then t.first else t.second;
        batch, read, tos := TryDownloadB(h, sid, clear, start, ack, maxChunk, count, a);
        if !batch.end.Broke? || batch.end.fault == Timeout {
          return;
        }
      }
      return Batch([], 0, Broke(Failure)), [], [];
    }

    /** Reads the records of one BP batch: always `responses` of them, whatever their statuses. */
    method ReadBatchBP(
        h: Sha256, sid: Session, clear: bool, mode: byte, start: nat, responses: nat, a: Attempt, reused: bool)
      returns (batch: Batch, ghost k: nat, ghost tos: seq<nat>)
      requires pc.Some? && !closed && |wire| > 0 && (autoReconnect ==> reconnectEvery <= 1)
      requires pc.value.unread == Frames(a.replies, |wire| - 1) && |a.replies| <= responses
      modifies this
      ensures unchanged(`wire) && unchanged(`closed)
      ensures k <= |a.replies| && |tos| == k && forall to :: to in tos ==> to == |wire| - 1
      ensures |a.replies| == responses && a.arriving >= responses ==> !batch.end.Broke?
      ensures responses > 0 && a.arriving == 0 ==> batch.end == Broke(a.loss)
      ensures batch.end.Finished? ==>
                && k == responses && pc == Some(Conn(old(pc).value.requests, []))
                && batch.parts == PartsBP(h, sid, clear, mode, start, a.replies[..k])
                && batch.status == LastStatus(a.replies[..k])
      ensures !batch.end.Finished? ==> pc.None?
      ensures batch.end.Broke? ==>
                && batch == Batch([], 0, Broke(a.loss))
                && reconnectEvery == if autoReconnect && reused then 1 else old(reconnectEvery)
      ensures !batch.end.Broke? ==> unchanged(`reconnectEvery)
      ensures !batch.end.Finished? && !batch.end.Broke? ==>
                && k > 0 && batch.parts == PartsBP(h, sid, clear, mode, start, a.replies[..k - 1])
                && batch.status == a.replies[k - 1].status
      ensures !batch.end.Finished? && !batch.end.Broke? ==>
                batch.end == EndBP(h, sid, clear, mode, start, a.replies[k - 1])
      ensures forall i :: 0 <= i < k && (i < k - 1 || batch.end.Finished?) ==>
                a.replies[i].status in {STATUS_OK, STATUS_DATA, STATUS_WAIT, STATUS_EOF}
      ensures !batch.end.Finished? && !batch.end.Broke? ==>
                var last := a.replies[k - 1];
                && (batch.end.BadLength? <==> last.status == STATUS_DATA)
                && (batch.end.ServerError? <==> last.status == STATUS_ERROR)
                && last.status !in {STATUS_OK, STATUS_WAIT, STATUS_EOF}
    {
      hide DecodeBody, Frames, PartsBP, UnwrapBP;
      EmptyBP(h, sid, clear, mode, start);
      k, tos := 0, [];
      var out: seq<seq<byte>>, status, i := [], STATUS_OK, 0;
      FramesFrom(a.replies, |wire| - 1, 0);
      while i < responses
        invariant 0 <= i <= responses && k == i <= |a.replies| && i <= a.arriving
        invariant unchanged(`wire) && unchanged(`closed) && unchanged(`reconnectEvery)
        invariant pc == Some(Conn(old(pc).value.requests, Frames(a.replies, |wire| - 1)[i..]))
        invariant |tos| == i && forall to :: to in tos ==> to == |wire| - 1
        invariant out == PartsBP(h, sid, clear, mode, start, a.replies[..i])
        invariant status == LastStatus(a.replies[..i])
        invariant forall j :: 0 <= j < i ==> a.replies[j].status in {STATUS_OK, STATUS_DATA, STATUS_WAIT, STATUS_EOF}
      {
        var frame := ReadFrame(a, i, |wire| - 1);
        if frame.None? {
          TransportFailure(reused);
          return Batch([], 0, Broke(a.loss)), k, tos;
        }
        PartsBPAppend(h, sid, clear, mode, start, a.replies, i);
        k, tos := k + 1, tos + [frame.value.to];
        var reply := frame.value.reply;
        status := reply.status;
        if status == STATUS_DATA {
          var data := UnwrapBP(DecodeBody(h, status, reply.body, clear, sid, mode, start));
          if data.None? {
            Discard();
            return Batch(out, status, BadLength), k, tos;
          }
          if |data.value| > 0 {
            out := out + [data.value];
          }
        } else if status != STATUS_OK && status != STATUS_WAIT && status != STATUS_EOF {
          Discard();
          return Batch(out, status, if status == STATUS_ERROR then ServerError else BadStatus), k, tos;
        }
        i := i + 1;
      }
      FramesFrom(a.replies, |wire| - 1, i);
      return Batch(out, status, Finished), k, tos;
    }

    /** One pass through the body of download's loop. */
    method TryDownloadBP(h: Sha256, sid: Session, clear: bool, start: nat, maxChunk: nat, count: nat, a: Attempt)
      returns (batch: Batch, ghost read: seq<Reply>, ghost tos: seq<nat>)
      requires Valid() && |a.replies| <= (if count > 1 then count else 1)
      modifies this
      ensures Valid() && unchanged(`closed) && LearnsOnly(autoReconnect, old(reconnectEvery), old(pc), reconnectEvery)
      ensures wire == old(wire) || wire == old(wire) + [DownloadRequestBP(start, maxChunk, count)]
      ensures wire != old(wire) ==> AsksBP(wire[|wire| - 1], start, maxChunk, count)
      ensures read <= a.replies && |tos| == |read| && (forall to :: to in tos ==> to == |wire| - 1)
      ensures batch.end.Broke? ==>
                && pc.None? && batch.parts == [] && read == []
                && (TimesOut(a) && wire != old(wire) ==> batch.end.fault == Timeout)
      ensures !batch.end.Broke? ==> wire != old(wire) && unchanged(`reconnectEvery)
      ensures batch.end.Finished? ==> pc == AfterDone(Used(old(pc)), reconnectEvery)
      ensures !batch.end.Finished? ==> pc.None?
      ensures batch.end.Broke? && wire != old(wire) ==>
                reconnectEvery == AfterFault(autoReconnect, old(reconnectEvery), old(pc))
      ensures old(pc).Some? && !closed ==> wire != old(wire)
      ensures FailsSoftly(a) ==> batch.end == Broke(Failure)
      ensures !closed && Flows(a) && |a.replies| == (if count > 1 then count else 1) ==> !batch.end.Broke?
      ensures batch.end.Finished? ==>
                && |read| == (if count > 1 then count else 1) && batch.status == LastStatus(read)
                && batch.parts == PartsBP(h, sid, clear, DownloadRequestBP(start, maxChunk, count).mode, start, read)
      ensures !batch.end.Finished? && !batch.end.Broke? ==>
                var mode := DownloadRequestBP(start, maxChunk, count).mode;
                && read != [] && batch.end == EndBP(h, sid, clear, mode, start, read[|read| - 1])
                && batch.parts == PartsBP(h, sid, clear, mode, start, read[..|read| - 1])
    {
      hide Frames, PartsBP, LastStatus, AsksBP;
      RequestOfBP(start, maxChunk, count);
      read, tos := [], [];
      var request := DownloadRequestBP(start, maxChunk, count);
      var responses := if request.mode == BP_BATCH then count else 1;
      var fault, reused := Begin(request, a);
      if fault.Some? {
        return Batch([], 0, Broke(fault.value)), [], [];
      }
      ghost var k;
      batch, k, tos := ReadBatchBP(h, sid, clear, request.mode, start, responses, a, reused);
      if batch.end.Broke? {
        read, tos := [], [];
        return;
      }
      read := a.replies[..k];
      if batch.end.Finished? {
        Complete();
      } else {
        assert read[..|read| - 1] == a.replies[..k - 1];
      }
    }

    /** A download of the BP stream, with one reconnect; more than one record asks for a batch. */
    method DownloadBP(h: Sha256, sid: Session, clear: bool, start: nat, maxChunk: nat, count: nat, t: Tries)
      returns (batch: Batch, ghost read: seq<Reply>, ghost tos: seq<nat>)
      requires Valid() && |t.first.replies| <= (if count > 1 then count else 1)
      requires |t.second.replies| <= (if count > 1 then count else 1)
      modifies this
      ensures Valid() && unchanged(`closed) && LearnsOnly(autoReconnect, old(reconnectEvery), old(pc), reconnectEvery)
      ensures old(wire) <= wire && |wire| <= |old(wire)| + 2
      ensures forall i :: |old(wire)| <= i < |wire| ==>
                && AsksBP(wire[i], start, maxChunk, count)
                && wire[i] == DownloadRequestBP(start, maxChunk, count)
      ensures TimesOut(t.first) ==> |wire| <= |old(wire)| + 1
      ensures read <= t.first.replies || read <= t.second.replies
      ensures |tos| == |read| && (forall to :: to in tos ==> to == |wire| - 1) && (read != [] ==> |wire| > |old(wire)|)
      ensures batch.end.Broke? ==> batch.parts == []
      ensures batch.end.Finished? ==>
                pc == AfterDone(Used(old(pc)), reconnectEvery) || pc == AfterDone(0, reconnectEvery)
      ensures !batch.end.Finished? ==> pc.None?
      ensures Used(old(pc)) > 0 && autoReconnect && FailsSoftly(t.first) ==> reconnectEvery == 1
      ensures FailsSoftly(t.first) && FailsSoftly(t.second) ==> batch.end == Broke(Failure)
      ensures !closed && Flows(t.first) && |t.first.replies| == (if count > 1 then count else 1) ==>
                !batch.end.Broke? && read <= t.first.replies && (batch.end.Finished? ==> read == t.first.replies)
      ensures !closed && FailsSoftly(t.first) && Flows(t.second)
              && |t.second.replies| == (if count > 1 then count else 1) ==>
                !batch.end.Broke? && read <= t.second.replies && (batch.end.Finished? ==> read == t.second.replies)
      ensures batch.end.Finished? ==>
                && |read| == (if count > 1 then count else 1) && batch.status == LastStatus(read)
                && batch.parts == PartsBP(h, sid, clear, DownloadRequestBP(start, maxChunk, count).mode, start, read)
      ensures !batch.end.Finished? && !batch.end.Broke? ==>
                var mode := DownloadRequestBP(start, maxChunk, count).mode;
                && read != [] && batch.end == EndBP(h, sid, clear, mode, start, read[|read| - 1])
                && batch.parts == PartsBP(h, sid, clear, mode, start, read[..|read| - 1])
    {
      hide PartsB, PartsBP, TrainB, WholeB, LastStatus, EndB, EndBP, Flows, TimesOut, DownloadPayloadB;
      hide DownloadRequestBP, AsksB, AsksBP;
      RequestOfBP(start, maxChunk, count);
      for attempt := 0 to 2
        invariant Valid() && unchanged(`closed)
        invariant attempt == 0 ==> pc == old(pc) && wire == old(wire) && unchanged(`reconnectEvery)
        invariant attempt > 0 && Used(old(pc)) > 0 && autoReconnect && FailsSoftly(t.first) ==> reconnectEvery == 1
        invariant attempt > 0 ==> pc.None? && LearnsOnly(autoReconnect, old(reconnectEvery), old(pc), reconnectEvery)
        invariant |wire| <= |old(wire)| + if TimesOut(t.first) && attempt > 0 then attempt - 1 else attempt
        invariant old(wire) <= wire && forall i :: |old(wire)| <= i < |wire| ==>
                    wire[i] == DownloadRequestBP(start, maxChunk, count)
        invariant attempt > 0 && !closed ==> !(Flows(t.first) && |t.first.replies| == (if count > 1 then count else 1))
        invariant attempt > 1 && !closed ==>
                    !(Flows(t.second) && |t.second.replies| == (if count > 1 then count else 1))
      {
        var a := if attempt == 0 then t.first else t.second;
        batch, read, tos := TryDownloadBP(h, sid, clear, start, maxChunk, count, a);
        if !batch.end.Broke? || batch.end.fault == Timeout {
          return;
        }
      }
      return Batch([], 0, Broke(Failure)), [], [];
    }
  }
}
