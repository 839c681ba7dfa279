/** Upload on the X stream: Write of chunkConn in internal/xorchunk/chunk.go with parseAck, over the
    push lane of TxnLane.

    A record is named by its sequence number, and a retry sends the same number again, often with
    fewer bytes. The server half is an assumption: it stores a non-empty prefix of the first CPUSH
    it sees for each number, in order, and each reply it sends carries the id of the request it
    answers and the length it stored. It may answer any request it has seen, late, repeatedly, or
    not at all. */
module XPush {
  import opened Numbers
  import opened Bytes
  import opened Wrappers
  import opened TxnLane
  import opened Retries
  import Sizer

  datatype Push = Push(num: nat, data: seq<byte>)

  /** A reply to CPUSH after splitting at blanks; `Other` is anything that is not three fields of
      which the first is ACK. */
  datatype PushReply = Ack(num: int, n: int) | Err | Other

  /** parseAck accepts exactly an ACK of the expected number with a positive length. */
  function ParseAck(reply: PushReply, expected: nat): (accepted: Option<nat>)
    ensures forall n: nat :: accepted == Some(n) <==> n > 0 && reply == Ack(expected, n)
  {
    if reply.Ack? && reply.num == expected && reply.n > 0 then Some(reply.n) else None
  }

  type Log = seq<Sent<Push>>
  type Records = seq<seq<byte>>

  // ---------------------------------------------------------------- the assumed server

  /** `keep` is how much of a new record the server decides to store. */
  function Store(records: Records, push: Push, keep: nat): Records {
    if push.num == |records| && keep > 0 && push.data != [] then records + [push.data[..Min(keep, |push.data|)]]
    else records
  }

  function Answer(records: Records, push: Push): PushReply {
    if push.num < |records| then Ack(push.num, |records[push.num]|) else Err
  }

  /** A copy of an earlier request, by its position among all requests sent. */
  datatype Copy = Copy(index: nat, keep: nat)

  function StoreCopies(records: Records, log: Log, copies: seq<Copy>): Records {
    if copies == [] then records
    else
      var before, last := StoreCopies(records, log, copies[..|copies| - 1]), copies[|copies| - 1];
      if last.index < |log| then Store(before, log[last.index].request, last.keep) else before
  }

  /** What one transaction meets: requests of other lanes and late copies come first; then the
      request may reach the server, and replies are put on the connection, `answers[i]` requests
      back in the log. */
  datatype Round = Round(
    others: nat, late: seq<Copy>, dials: bool, writes: bool, reaches: bool, keep: nat, answers: seq<nat>, arrives: bool)

  /** The server's replies; it does not answer a request that it has not seen. */
  function Replies(log: Log, records: Records, reaches: bool, answers: seq<nat>): seq<Frame<PushReply>> {
    if answers == [] then []
    else
      var before, back := Replies(log, records, reaches, answers[..|answers| - 1]), answers[|answers| - 1];
      if back >= |log| || (back == 0 && !reaches) then before
      else
        var to := |log| - 1 - back;
        before + [Frame(log[to].ticket % ID_SPACE, Some(to), Answer(records, log[to].request))]
  }

  /** No reply is read. */
  predicate Lost(r: Round) { !r.writes || !r.arrives }

  /** The request and its one reply get through. */
  predicate Works(r: Round) {
    r.dials && r.writes && r.reaches && r.keep > 0 && r.answers == [0] && r.arrives
  }

  // ---------------------------------------------------------------- the invariant

  /** The server has every acknowledged record, and at most the next one, which then is a prefix of
      what is still to be acknowledged. */
  predicate Holds(records: Records, upSeq: nat, rest: seq<byte>) {
    && upSeq <= |records| <= upSeq + 1
    && (|records| == upSeq + 1 ==> records[upSeq] != [] && records[upSeq] <= rest)
  }

  /** Requests sent so far: none is larger than `cap`, and the ones still unacknowledged all start
      where the acknowledged bytes end. */
  predicate Prefixes(log: Log, upSeq: nat, rest: seq<byte>, cap: nat) {
    forall s :: s in log ==>
      |s.request.data| <= cap && s.request.num <= upSeq && (s.request.num == upSeq ==> s.request.data <= rest)
  }

  /** A frame that answers a request of the log, with its id, and tells the truth: what it says of a
      stored record stays true for ever. */
  predicate Honest(log: Log, records: Records, frame: Frame<PushReply>) {
    && frame.to.Some? && Echoes(log, frame)
    && var num := log[frame.to.value].request.num;
       frame.body == Err || (num < |records| && frame.body == Ack(num, |records[num]|))
  }

  predicate AllHonest(log: Log, records: Records, frames: seq<Frame<PushReply>>) {
    forall f :: f in frames ==> Honest(log, records, f)
  }

  lemma StoreHolds(records: Records, push: Push, keep: nat, upSeq: nat, rest: seq<byte>)
    requires Holds(records, upSeq, rest) && push.num <= upSeq && (push.num == upSeq ==> push.data <= rest)
    ensures Holds(Store(records, push, keep), upSeq, rest) && records <= Store(records, push, keep)
  {
  }

  /** A server willing to store something has the record afterwards, and only that one. */
  lemma StoreGrows(records: Records, push: Push, keep: nat, upSeq: nat, rest: seq<byte>)
    requires Holds(records, upSeq, rest) && push.num == upSeq && push.data != []
    ensures |Store(records, push, keep)| <= upSeq + 1
    ensures keep > 0 ==> |Store(records, push, keep)| == upSeq + 1
    ensures |records| == upSeq && keep >= |push.data| ==> Store(records, push, keep) == records + [push.data]
  {
    assert push.data[..|push.data|] == push.data;
  }

  lemma {:induction false} CopiesHold(
      records: Records, log: Log, copies: seq<Copy>, upSeq: nat, rest: seq<byte>, cap: nat)
    requires Holds(records, upSeq, rest) && Prefixes(log, upSeq, rest, cap)
    ensures Holds(StoreCopies(records, log, copies), upSeq, rest) && records <= StoreCopies(records, log, copies)
  {
    if copies != [] {
      CopiesHold(records, log, copies[..|copies| - 1], upSeq, rest, cap);
      var last := copies[|copies| - 1];
      if last.index < |log| {
        assert log[last.index] in log;
        StoreHolds(StoreCopies(records, log, copies[..|copies| - 1]), log[last.index].request, last.keep, upSeq, rest);
      }
    }
  }

  lemma PrefixesOn(log: Log, upSeq: nat, rest: seq<byte>, cap: nat, s: Sent<Push>)
    requires Prefixes(log, upSeq, rest, cap)
    requires s.request.num == upSeq && s.request.data <= rest && |s.request.data| <= cap
    ensures Prefixes(log + [s], upSeq, rest, cap)
  {
  }

  lemma {:induction false} RepliesHonest(log: Log, records: Records, reaches: bool, answers: seq<nat>)
    ensures AllHonest(log, records, Replies(log, records, reaches, answers))
  {
    if answers != [] {
      RepliesHonest(log, records, reaches, answers[..|answers| - 1]);
    }
  }

  lemma OneReply(log: Log, records: Records)
    requires log != []
    ensures var to := |log| - 1;
            Replies(log, records, true, [0])
                == [Frame(log[to].ticket % ID_SPACE, Some(to), Answer(records, log[to].request))]
  {
    assert [0][..0] == [];
  }

  lemma HonestStays(log: Log, longer: Log, records: Records, more: Records, frames: seq<Frame<PushReply>>)
    requires AllHonest(log, records, frames) && log <= longer && records <= more
    ensures AllHonest(longer, more, frames)
  {
    forall f | f in frames ensures Honest(longer, more, f) {
      assert Honest(log, records, f) && longer[f.to.value] == log[f.to.value];
    }
  }

  /** What an honest frame accepted under this request's id says: it is about the record in flight,
      unless the id belongs to a request made 2^32 requests before. */
  lemma AcceptedMeans(log: Log, records: Records, frame: Frame<PushReply>, upSeq: nat, last: nat)
    requires Honest(log, records, frame) && |log| > 0 && log[|log| - 1].request.num == upSeq
    requires frame.to.value == |log| - 1 || log[frame.to.value].ticket + ID_SPACE <= last
    ensures
      || frame.body == Err
      || (|records| > upSeq && frame.body == Ack(upSeq, |records[upSeq]|))
      || (last >= ID_SPACE && frame.body.Ack? && frame.body.num != upSeq)
  {
  }

  /** The server's stream when it holds at most one record that is not acknowledged. */
  lemma StreamOf(records: Records, upSeq: nat, rest: seq<byte>)
    requires Holds(records, upSeq, rest)
    ensures |records| == upSeq ==> Flatten(records) == Flatten(records[..upSeq])
    ensures |records| == upSeq + 1 ==> Flatten(records) == Flatten(records[..upSeq]) + records[upSeq]
  {
    if |records| == upSeq {
      assert records[..upSeq] == records;
    }
  }

  /** Nothing of the next record has been put on the wire. */
  predicate NoneSent(log: Log, upSeq: nat) {
    forall s :: s in log && s.request.num == upSeq ==> s.request.data == []
  }

  lemma {:induction false} CopiesIdle(records: Records, log: Log, copies: seq<Copy>, upSeq: nat)
    requires |records| == upSeq && NoneSent(log, upSeq)
    ensures StoreCopies(records, log, copies) == records
  {
    if copies != [] {
      CopiesIdle(records, log, copies[..|copies| - 1], upSeq);
      var last := copies[|copies| - 1];
      if last.index < |log| {
        assert log[last.index] in log;
      }
    }
  }

  /** Every round works and the server keeps records of this size whole. */
  predicate AllKeep(script: seq<Round>, size: nat) {
    forall r :: r in script ==> Works(r) && r.keep >= size
  }

  lemma AllKeepAt(script: seq<Round>, size: nat, i: nat)
    requires i < |script|
    ensures AllKeep(script, size) ==> Works(script[i]) && script[i].keep >= size
  {
  }

  lemma NothingSentYet(log: Log, upSeq: nat, cap: nat)
    requires Prefixes(log, upSeq, [], cap)
    ensures NoneSent(log, upSeq)
  {
  }

  lemma NoneSentAfter(log: Log, upSeq: nat, rest: seq<byte>, cap: nat)
    requires Prefixes(log, upSeq, rest, cap)
    ensures NoneSent(log, upSeq + 1)
  {
  }

  datatype WriteResult = Stored | Refused | BadReply | TooLong | AtMinimum | Pending

  const LIMIT: nat := 8

  predicate AllLost(script: seq<Round>) {
    forall r :: r in script ==> Lost(r)
  }

  predicate AllWork(script: seq<Round>) {
    forall r :: r in script ==> Works(r)
  }

  class Pusher {
    const lane: Lane<Push, PushReply>
    const sizer: Sizer.AdaptiveSizer
    var upSeq: nat
    var records: Records
    ghost const cap: nat
    ghost var app: seq<byte>
    ghost var acked: nat
    ghost var ended: bool

    ghost predicate Valid()
      reads this, sizer, lane, lane.counter
    {
      && lane.Valid() && Sizer.Capped(sizer.params, sizer.View(), cap)
      && acked <= |app| && (!ended ==> acked == |app|)
      && Holds(records, upSeq, app[acked..]) && Prefixes(lane.log, upSeq, app[acked..], cap)
      && AllHonest(lane.log, records, lane.Unread())
      && Flatten(records[..upSeq]) == app[..acked]
    }

    /** `cap` is any bound on the sizes the sizer can give. */
    constructor (lane: Lane<Push, PushReply>, sizer: Sizer.AdaptiveSizer, ghost cap: nat)
      requires lane.Valid() && lane.log == [] && lane.Unread() == [] && Sizer.Capped(sizer.params, sizer.View(), cap)
      ensures Valid() && !ended && upSeq == 0 && app == [] && records == []
      ensures this.lane == lane && this.sizer == sizer && this.cap == cap
    {
      this.lane, this.sizer, this.cap := lane, sizer, cap;
      upSeq, app, acked, records, ended := 0, [], 0, [], false;
    }

    /** Nobody has seen any of the next record. */
    predicate Fresh()
      reads this, lane
    {
      |records| == upSeq && NoneSent(lane.log, upSeq)
    }

    /** What other lanes and late copies do before a transaction. */
    method Before(round: Round)
      requires Valid()
      modifies this`records, lane.counter
      ensures Valid() && lane.counter.last == old(lane.counter.last) + round.others && old(records) <= records
      ensures old(Fresh()) ==> Fresh()
    {
      hide Holds, Prefixes, Honest, Rising, StoreCopies, NoneSent, Flatten, Sizer.Capped;
      if Fresh() {
        CopiesIdle(records, lane.log, round.late, upSeq);
      }
      CopiesHold(records, lane.log, round.late, upSeq, app[acked..], cap);
      HonestStays(lane.log, lane.log, records, StoreCopies(records, lane.log, round.late), lane.Unread());
      HoldsEnough(records, upSeq, app[acked..]);
      assert StoreCopies(records, lane.log, round.late)[..upSeq] == records[..upSeq];
      records := StoreCopies(records, lane.log, round.late);
      RisesLater(lane.log, lane.counter.last, lane.counter.last + round.others);
      lane.counter.Skip(round.others);
    }

    /** The server's part of a transaction that was sent: it may store the record, and it replies. */
    method Serve(push: Push, round: Round) returns (frames: seq<Frame<PushReply>>, ghost after: Log)
      requires Valid() && push.num == upSeq && push.data != [] && push.data <= app[acked..] && |push.data| <= cap
      modifies this`records
      ensures after == lane.log + [Sent(lane.counter.last + 1, push)]
      ensures Valid() && old(records) <= records && Prefixes(after, upSeq, app[acked..], cap)
      ensures AllHonest(after, records, lane.Unread() + frames)
      ensures Works(round) ==>
                && |records| > upSeq
                && frames == [Frame((lane.counter.last + 1) % ID_SPACE, Some(|lane.log|), Ack(upSeq, |records[upSeq]|))]
      ensures old(Fresh()) && Works(round) && round.keep >= |push.data| ==>
                |records| == upSeq + 1 && records[upSeq] == push.data
    {
      hide Holds, Prefixes, NoneSent, Honest, Rising, Store, Replies, Flatten, Sizer.Capped;
      after := lane.log + [Sent(lane.counter.last + 1, push)];
      PrefixesOn(lane.log, upSeq, app[acked..], cap, Sent(lane.counter.last + 1, push));
      HoldsEnough(records, upSeq, app[acked..]);
      StoreHolds(records, push, round.keep, upSeq, app[acked..]);
      StoreGrows(records, push, round.keep, upSeq, app[acked..]);
      var more := if round.reaches then Store(records, push, round.keep) else records;
      assert more[..upSeq] == records[..upSeq];
      HonestStays(lane.log, lane.log, records, more, lane.Unread());
      HonestStays(lane.log, after, records, more, lane.Unread());
      records := more;
      frames := Replies(lane.log + [Sent(lane.counter.last + 1, push)], records, round.reaches, round.answers);
      RepliesHonest(after, records, round.reaches, round.answers);
      OneReply(after, records);
    }

    /** One CPUSH of the record that starts at the acknowledged end. A reply means a refusal, or the
        stored length of this very record; only an id that has wrapped round can bring another
        record's, and then its number shows it. */
    method Exchange(data: seq<byte>, round: Round) returns (reply: Option<PushReply>)
      requires Valid() && data != [] && data <= app[acked..] && |data| <= cap
      modifies this`records, lane, lane.counter
      ensures Valid() && lane.closed == old(lane.closed) && old(records) <= records
      ensures lane.log == old(lane.log) || lane.log == old(lane.log) + [Sent(lane.counter.last, Push(upSeq, data))]
      ensures reply.Some? ==>
                || reply.value == Err
                || (|records| > upSeq && reply.value == Ack(upSeq, |records[upSeq]|))
                || (lane.counter.last >= ID_SPACE && reply.value.Ack? && reply.value.num != upSeq)
      ensures Lost(round) ==> reply.None?
      ensures !lane.closed && old(lane.Unread()) == [] && Works(round) ==>
                |records| > upSeq && reply == Some(Ack(upSeq, |records[upSeq]|)) && lane.Unread() == []
      ensures !lane.closed && old(Fresh()) && Works(round) && round.keep >= |data| ==>
                && |records| == upSeq + 1 && records[upSeq] == data
                && lane.log == old(lane.log) + [Sent(lane.counter.last, Push(upSeq, data))]
    {
      hide Holds, Prefixes, Honest, Rising, Flatten, Sizer.Capped, Replies, NoneSent;
      var push := Push(upSeq, data);
      Before(round);
      var frames: seq<Frame<PushReply>> := [];
      ghost var unread, after := lane.Unread(), lane.log;
      ghost var sends := lane.CanSend(round.dials);
      if lane.CanSend(round.dials) {
        frames, after := Serve(push, round);
      }
      assert AllHonest(after, records, unread + frames);
      ghost var frame;
      reply, frame := lane.Do(push, TxnAttempt(round.dials, round.writes, frames, round.arrives));
      assert lane.log == after;
      assert forall f :: f in lane.Unread() ==> f in unread + frames;
      if frame.Some? {
        assert frame.value in unread + frames;
        HonestEchoes(after, records, frame.value);
        AcceptedMeans(after, records, frame.value, upSeq, lane.counter.last);
      }
    }

    /** A transaction that failed: tell the sizer, and count it. */
    method CountFailure(failures: nat) returns (now: nat, over: bool)
      requires Valid()
      modifies sizer
      ensures Valid()
      ensures Fail(sizer.params, LIMIT, true, Going(old(sizer.View()), failures))
           == if over then GaveUp else Going(sizer.View(), now)
    {
      hide Holds, Prefixes, AllHonest, Rising, Flatten, Sizer.Capped;
      Sizer.CappedStep(sizer.params, sizer.View(), cap, sizer.current);
      var was, next := sizer.Failure(sizer.current);
      now := if !sizer.params.adaptive || (next == was && next == sizer.params.min) then failures + 1 else 0;
      over := now >= LIMIT;
    }

    /** The record the server acknowledged, whatever part of it this attempt carried. */
    method Acknowledge(accepted: nat, size: nat)
      requires Valid() && ended && |records| > upSeq && accepted == |records[upSeq]|
      modifies this`upSeq, this`acked, sizer
      ensures Valid() && acked == old(acked) + accepted && upSeq == old(upSeq) + 1 && accepted > 0
      ensures |records| == upSeq ==> Fresh()
      ensures sizer.View() == Sizer.OnSuccess(sizer.params, old(sizer.View()), size)
    {
      hide AllHonest, Rising, Flatten, NoneSent, Sizer.Capped;
      NoneSentAfter(lane.log, upSeq, app[acked..], cap);
      ghost var rest := app[acked..];
      FlattenAppend(records[..upSeq], records[upSeq]);
      assert records[..upSeq + 1] == records[..upSeq] + [records[upSeq]];
      assert app[..acked] + rest[..accepted] == app[..acked + accepted];
      upSeq, acked := upSeq + 1, acked + accepted;
      Sizer.CappedStep(sizer.params, sizer.View(), cap, size);
      sizer.Success(size);
    }

    /** One pass through Write's loop, with `rest` still to send; `None` means another one. */
    method Pass(rest: seq<byte>, failures: nat, round: Round)
      returns (result: Option<WriteResult>, n: nat, now: nat, ghost reply: Option<PushReply>)
      requires Valid() && ended && rest != [] && rest == app[acked..]
      modifies this`upSeq, this`acked, this`records, sizer, lane, lane.counter
      ensures Valid() && lane.closed == old(lane.closed)
      ensures n <= |rest| && acked == old(acked) + n
      ensures reply.None? ==>
                && n == 0 && (result.None? || result == Some(AtMinimum))
                && Fail(sizer.params, LIMIT, true, Going(old(sizer.View()), failures))
                == if result.Some? then GaveUp else Going(sizer.View(), now)
      ensures reply == Some(Err) ==> n == 0 && result == Some(Refused)
      ensures reply.Some? && reply.value != Err && ParseAck(reply.value, old(upSeq)).None? ==>
                n == 0 && result == Some(BadReply) && lane.counter.last >= ID_SPACE
      ensures reply.Some? && ParseAck(reply.value, old(upSeq)).Some? ==>
                && result.None? && now == 0 && upSeq == old(upSeq) + 1
                && n == ParseAck(reply.value, old(upSeq)).value && n == |records[old(upSeq)]| > 0
                && sizer.View() == Sizer.OnSuccess(sizer.params, old(sizer.View()), old(sizer.current))
      ensures Lost(round) ==> reply.None?
      ensures !lane.closed && old(lane.Unread()) == [] && Works(round) ==> result.None? && n > 0 && lane.Unread() == []
      ensures var data := rest[..Min(old(sizer.current), |rest|)];
              || lane.log == old(lane.log)
              || lane.log == old(lane.log) + [Sent(lane.counter.last, Push(old(upSeq), data))]
      ensures !lane.closed && old(lane.Unread()) == [] && old(Fresh()) && Works(round)
              && round.keep >= old(sizer.current) ==>
                n == Min(old(sizer.current), |rest|) && Fresh() && |lane.log| == |old(lane.log)| + 1
    {
      hide Holds, Prefixes, AllHonest, Rising, Flatten, Lost, Works, NoneSent, Sizer.Capped, Sizer.OnSuccess, Fail;
      var size := sizer.current;
      n := Min(size, |rest|);
      Sizer.CappedStep(sizer.params, sizer.View(), cap, size);
      var answer := Exchange(rest[..n], round);
      reply := answer;
      if answer.None? {
        var over;
        now, over := CountFailure(failures);
        return if over then Some(AtMinimum) else None, 0, now, reply;
      }
      if answer.value.Err? {
        return Some(Refused), 0, failures, reply;
      }
      var accepted := ParseAck(answer.value, upSeq);
      Bounds();
      if accepted.None? {
        return Some(BadReply), 0, failures, reply;
      }
      if accepted.value > |rest| {
        return Some(TooLong), 0, failures, reply;
      }
      Acknowledge(accepted.value, size);
      return None, accepted.value, 0, reply;
    }

    /** Success leaves the server with exactly what the application has written so far; an error
        with what was acknowledged and at most one record more, all of it as written. The server's
        length is never too long for the bytes still pending, and its reply never unusable while
        fewer than 2^32 requests were made. When no reply arrives, the call gives up exactly when
        Retries says; when every round works, each byte costs at most one. */
    method Write(p: seq<byte>, script: seq<Round>) returns (total: nat, result: WriteResult)
      requires Valid() && !ended
      modifies this, sizer, lane, lane.counter
      ensures Valid() && app == old(app) + p
      ensures total <= |p| && acked == |old(app)| + total
      ensures result == Stored <==> !ended
      ensures result == Stored ==> total == |p| && Flatten(records) == app && |records| == upSeq
      ensures Flatten(records[..upSeq]) == app[..acked] && Flatten(records) <= app && |records| <= upSeq + 1
      ensures result != TooLong && (result == BadReply ==> lane.counter.last >= ID_SPACE)
      ensures p == [] ==> result == Stored
      ensures p != [] && AllLost(script) ==>
                && total == 0
                && result == if Fails(sizer.params, 8, true, Going(old(sizer.View()), 0), |script|).GaveUp?
                             then AtMinimum else Pending
      ensures !lane.closed && old(lane.Unread()) == [] && AllWork(script) && |script| >= |p| ==> result == Stored
      ensures !lane.closed && old(lane.Unread()) == [] && !sizer.params.adaptive
              && AllKeep(script, old(sizer.current)) ==>
                var size, sent := old(sizer.current), |lane.log| - |old(lane.log)|;
                && sent >= 0 && Paced(sent, size, |p|, total)
                && (result == Stored || (result == Pending && sent == |script|))
                && (|script| * size >= |p| ==> result == Stored)
    {
      hide Pusher.Valid, Pusher.Fresh, Holds, Prefixes, AllHonest, Rising, Flatten, Lost, Works, NoneSent, Paced;
      hide AllKeep, Sizer.Capped, Sizer.OnSuccess, Fails, Fail;
      ghost var start, lost, quiet := sizer.View(), true, lane.Unread() == [];
      ghost var size, first := sizer.current, |lane.log|;
      ghost var full := !lane.closed && quiet && !sizer.params.adaptive && AllKeep(script, size);
      StartsFresh();
      PacedStart(size, |p|);
      Grow(p);
      total := 0;
      var failures: nat, i: nat := 0, 0;
      FailsOnce(sizer.params, LIMIT, true, Going(start, 0), 0);
      while total < |p|
        invariant Valid() && ended && app == old(app) + p && lane.closed == old(lane.closed)
        invariant 0 <= total <= |p| && acked == |old(app)| + total && 0 <= i <= |script|
        invariant AllLost(script) ==> lost
        invariant full ==>
                    && sizer.current == size && Fresh() && lane.Unread() == [] && |lane.log| == first + i
                    && Paced(i, size, |p|, total)
        invariant !lane.closed && quiet && AllWork(script) ==> i <= total && lane.Unread() == []
        invariant lost ==>
                    total == 0 && Fails(sizer.params, LIMIT, true, Going(start, 0), i) == Going(sizer.View(), failures)
        decreases |script| - i
      {
        if i == |script| {
          Bounds();
          PacedShort(i, size, |p|, total);
          return total, Pending;
        }
        assert script[i] in script;
        lost := lost && Lost(script[i]);
        assert full ==> Works(script[i]) && script[i].keep >= size by {
          AllKeepAt(script, size, i);
        }
        FailsOnce(sizer.params, LIMIT, true, Going(start, 0), i);
        assert p[total..] == app[acked..];
        var over, n;
        ghost var reply;
        Sizer.FixedKeeps(sizer.params, sizer.View(), sizer.current);
        over, n, failures, reply := Pass(p[total..], failures, script[i]);
        PacedOn(i, size, |p|, total, n);
        i := i + 1;
        if over.Some? {
          if Fails(sizer.params, LIMIT, true, Going(start, 0), i).GaveUp? {
            StaysGivenUp(sizer.params, LIMIT, true, Going(start, 0), i, |script|);
          }
          Bounds();
          return total, over.value;
        }
        total := total + n;
      }
      Bounds();
      Finish();
      return total, Stored;
    }

    ghost method Finish()
      requires Valid() && acked == |app|
      modifies this`ended
      ensures Valid() && !ended
    {
      hide AllHonest, Rising, Sizer.Capped, Flatten, Holds, Prefixes;
      ended := false;
    }

    lemma StartsFresh()
      requires Valid() && !ended
      ensures Fresh() && acked == |app|
    {
      assert app[acked..] == [];
      NothingSentYet(lane.log, upSeq, cap);
    }

    /** The application hands over more bytes. */
    ghost method Grow(p: seq<byte>)
      requires Valid() && !ended
      modifies this`app, this`ended
      ensures Valid() && ended && app == old(app) + p && Fresh() == old(Fresh())
    {
      hide AllHonest, Rising, Sizer.Capped, Flatten;
      assert (app + p)[..acked] == app[..acked];
      app := app + p;
      ended := true;
    }

    /** The server holds what is acknowledged and no more than is written. */
    lemma Bounds()
      requires Valid()
      ensures acked <= |app| && upSeq <= |records| && Flatten(records[..upSeq]) == app[..acked]
      ensures app[..acked] <= Flatten(records) <= app && |records| <= upSeq + 1
      ensures |records| > upSeq ==> 0 < |records[upSeq]| <= |app| - acked
      ensures acked == |app| ==> Flatten(records) == app && |records| == upSeq
    {
      hide AllHonest, Rising, Sizer.Capped, Flatten;
      StreamOf(records, upSeq, app[acked..]);
      assert app[..acked] + app[acked..] == app;
    }

    /** No request on the wire carries more than `cap` bytes. */
    lemma WithinCap()
      requires Valid()
      ensures forall s :: s in lane.log ==> |s.request.data| <= cap
    {
      hide Holds, AllHonest, Rising, Sizer.Capped, Flatten;
    }
  }

  lemma HoldsEnough(records: Records, upSeq: nat, rest: seq<byte>)
    requires Holds(records, upSeq, rest)
    ensures upSeq <= |records| <= upSeq + 1
  {
  }

  lemma HonestEchoes(log: Log, records: Records, frame: Frame<PushReply>)
    requires Honest(log, records, frame)
    ensures frame.to.Some? && frame.to.value < |log| && Echoes(log, frame)
  {
  }
}
