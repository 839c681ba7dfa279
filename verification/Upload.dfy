/** Upload on the B and BP streams: the Write methods of chunkConn in chunk.go and bpConn in bp.go.

    The two loops differ in three numbers: the mode byte, the shift of the offsets (BP spends the
    first two on registration and OPEN), and how many failures at the minimum size end the call.

    The server half is an assumption: it merges records by offset, in whatever order and however
    often copies reach it, and says OK only to a record it has merged. */
module Upload {
  import opened Numbers
  import opened Bytes
  import opened Wrappers
  import opened Batches
  import opened Framing
  import opened Lanes
  import Sizer
  import opened Retries

  /** A record at offset `at`: bytes already held are ignored, and so is a record after a gap. */
  function Merge(stream: seq<byte>, at: nat, data: seq<byte>): seq<byte> {
    if at <= |stream| < at + |data| then stream + data[|stream| - at..] else stream
  }

  datatype Wire = Wire(mode: byte, shift: nat) {
    /** A record of the stream, as opposed to an opening or closing request. */
    predicate Record(w: Wired) { w.mode == mode && w.num >= shift }

    predicate Carries(w: Wired, app: seq<byte>) {
      Record(w) ==> w.num - shift + |w.payload| <= |app| && w.payload == app[w.num - shift..w.num - shift + |w.payload|]
    }

    /** Every record carries the application's bytes at its own offset and starts no later than `acked`. */
    predicate AllCarry(log: seq<Wired>, app: seq<byte>, acked: nat) {
      forall w :: w in log ==> Carries(w, app) && (Record(w) ==> w.num - shift <= acked)
    }

    /** No record is larger than `cap`. */
    predicate Sized(log: seq<Wired>, cap: nat) {
      forall w :: w in log && Record(w) ==> |w.payload| <= cap
    }

    lemma SizedCopies(log: seq<Wired>, longer: seq<Wired>, cap: nat, w: Wired)
      requires Sized(log, cap) && log <= longer && |w.payload| <= cap
      requires forall i :: |log| <= i < |longer| ==> longer[i] == w
      ensures Sized(longer, cap)
    {
      forall x | x in longer && Record(x) ensures |x.payload| <= cap {
        var i :| 0 <= i < |longer| && longer[i] == x;
        if i < |log| {
          assert log[i] == x && x in log;
        }
      }
    }

    function Receive(stream: seq<byte>, w: Wired): seq<byte> {
      if Record(w) then Merge(stream, w.num - shift, w.payload) else stream
    }

    /** Copies of requests in the log reaching the server, in any order and number. */
    function Deliver(stream: seq<byte>, log: seq<Wired>, indices: seq<nat>): seq<byte> {
      if indices == [] then stream
      else
        var before, last := Deliver(stream, log, indices[..|indices| - 1]), indices[|indices| - 1];
        if last < |log| then Receive(before, log[last]) else before
    }

    lemma CarriesAt(log: seq<Wired>, i: nat, app: seq<byte>, acked: nat)
      requires i < |log| && AllCarry(log, app, acked)
      ensures Carries(log[i], app)
    {
    }

    lemma ReceiveKeepsPrefix(stream: seq<byte>, w: Wired, app: seq<byte>)
      requires stream <= app && Carries(w, app)
      ensures stream <= Receive(stream, w) <= app
      ensures Record(w) && w.num - shift <= |stream| ==> |Receive(stream, w)| >= w.num - shift + |w.payload|
    {
      var r := Receive(stream, w);
      if r != stream {
        var at := w.num - shift;
        assert r == stream + w.payload[|stream| - at..];
        assert forall i :: |stream| <= i < |r| ==> r[i] == w.payload[i - at] == app[i];
      }
    }

    /** However copies are reordered, repeated or lost, the server holds a prefix of what was written. */
    lemma {:induction false} DeliverKeepsPrefix(
        stream: seq<byte>, log: seq<Wired>, indices: seq<nat>, app: seq<byte>, acked: nat)
      requires stream <= app && AllCarry(log, app, acked)
      ensures stream <= Deliver(stream, log, indices) <= app
    {
      if indices != [] {
        var last := indices[|indices| - 1];
        DeliverKeepsPrefix(stream, log, indices[..|indices| - 1], app, acked);
        if last < |log| {
          assert log[last] in log;
          ReceiveKeepsPrefix(Deliver(stream, log, indices[..|indices| - 1]), log[last], app);
        }
      }
    }

    lemma CarryMore(log: seq<Wired>, app: seq<byte>, more: seq<byte>, acked: nat, now: nat)
      requires AllCarry(log, app, acked) && acked <= now
      ensures AllCarry(log, app + more, now)
    {
      forall w | w in log && Record(w)
        ensures Carries(w, app + more)
      {
        var at := w.num - shift;
        assert (app + more)[at..at + |w.payload|] == app[at..at + |w.payload|];
      }
    }

    lemma CarryCopies(log: seq<Wired>, longer: seq<Wired>, app: seq<byte>, acked: nat, n: nat)
      requires AllCarry(log, app, acked) && log <= longer && acked + n <= |app|
      requires forall i :: |log| <= i < |longer| ==> longer[i] == Wired(mode, acked + shift, app[acked..acked + n])
      ensures AllCarry(longer, app, acked)
    {
      forall w | w in longer
        ensures Carries(w, app) && (Record(w) ==> w.num - shift <= acked)
      {
        var i :| 0 <= i < |longer| && longer[i] == w;
        if i < |log| {
          assert log[i] == w && w in log;
        }
      }
    }
  }

  /** One pass of a Write loop: what the lane meets, and the copies that reach the server before and
      after the reply. */
  datatype Round = Round(tries: Tries, before: seq<nat>, after: seq<nat>)

  /** `Pending`: the script is over and the call has not returned. */
  datatype WriteResult = Stored | TimedOut | AtMinimum | Refused | BadReply | Pending

  predicate OneReply(r: Round) { |r.tries.first.replies| <= 1 && |r.tries.second.replies| <= 1 }

  predicate Hopeless(r: Round) { FailsSoftly(r.tries.first) && FailsSoftly(r.tries.second) }

  lemma Offset(before: seq<byte>, p: seq<byte>, i: nat, n: nat)
    requires i + n <= |p|
    ensures (before + p)[|before| + i..|before| + i + n] == p[i..i + n]
  {
  }

  /** The first attempt gets through and the server says OK. */
  predicate Works(r: Round) { GoesThrough(r.tries.first) && r.tries.first.replies[0].status == STATUS_OK }

  predicate AllWork(script: seq<Round>) {
    forall r :: r in script ==> Works(r)
  }

  predicate AllHopeless(script: seq<Round>) {
    forall r :: r in script ==> Hopeless(r)
  }

  class Uploader {
    const lane: RequestLane
    const sizer: Sizer.AdaptiveSizer
    const kind: Wire
    const limit: nat
    var upOffset: nat
    var dead: bool
    ghost var app: seq<byte>
    ghost var server: seq<byte>
    ghost var ended: bool
    ghost const cap: nat

    ghost predicate Valid()
      reads this, lane, sizer
    {
      && lane.Valid() && Sizer.Capped(sizer.params, sizer.View(), cap) && limit >= 1
      && upOffset <= |server| && server <= app && (!ended ==> upOffset == |app|)
      && kind.AllCarry(lane.wire, app, upOffset) && kind.Sized(lane.wire, cap)
    }

    /** From opened lanes: nothing of the stream has been sent. `cap` is any bound on the sizes the
        sizer can give. */
    constructor (lane: RequestLane, sizer: Sizer.AdaptiveSizer, kind: Wire, limit: nat, ghost cap: nat)
      requires lane.Valid() && Sizer.Capped(sizer.params, sizer.View(), cap) && limit >= 1
      requires forall w :: w in lane.wire ==> !kind.Record(w)
      ensures Valid() && !ended && upOffset == 0 && app == [] && server == [] && !dead
      ensures this.lane == lane && this.sizer == sizer && this.kind == kind && this.limit == limit && this.cap == cap
    {
      this.lane, this.sizer, this.kind, this.limit, this.cap := lane, sizer, kind, limit, cap;
      upOffset, dead, app, server, ended := 0, false, [], [], false;
    }

    /** One request for n bytes at the acknowledged end, and what reaches the server around it. */
    method Exchange(payload: seq<byte>, round: Round) returns (outcome: Outcome)
      requires Valid() && OneReply(round) && |payload| <= cap
      requires upOffset + |payload| <= |app| && payload == app[upOffset..upOffset + |payload|]
      modifies lane, this`server
      ensures Valid() && lane.closed == old(lane.closed)
      ensures old(server) <= server
      ensures outcome.Answered? && outcome.reply.status == STATUS_OK ==> |server| >= upOffset + |payload|
      ensures Hopeless(round) ==> outcome == Lost(Failure)
      ensures !lane.closed && Works(round) ==> outcome.Answered? && outcome.reply.status == STATUS_OK
      ensures Copies(old(lane.wire), lane.wire, Wired(kind.mode, upOffset + kind.shift, payload))
      ensures !lane.closed && Works(round) ==> |lane.wire| == |old(lane.wire)| + 1
    {
      hide Wire.AllCarry, Wire.Sized, Wire.Carries, Wire.Receive, Wire.Deliver, Sizer.Capped;
      hide FailsSoftly, GoesThrough, RequestLane.Valid;
      ghost var log := lane.wire;
      var request := Wired(kind.mode, upOffset + kind.shift, payload);
      ghost var to;
      outcome, to := lane.Single(request, round.tries);
      kind.CarryCopies(log, lane.wire, app, upOffset, |payload|);
      kind.SizedCopies(log, lane.wire, cap, request);
      kind.DeliverKeepsPrefix(server, lane.wire, round.before, app, upOffset);
      server := kind.Deliver(server, lane.wire, round.before);
      if outcome.Answered? && outcome.reply.status == STATUS_OK {
        kind.CarriesAt(lane.wire, to, app, upOffset);
        kind.ReceiveKeepsPrefix(server, lane.wire[to], app);
        server := kind.Receive(server, lane.wire[to]);
      }
      kind.DeliverKeepsPrefix(server, lane.wire, round.after, app, upOffset);
      server := kind.Deliver(server, lane.wire, round.after);
    }

    /** A failed exchange: tell the sizer, and count failures at the minimum size. */
    method CountFailure(minFailures: nat) returns (now: nat, over: bool)
      requires Valid()
      modifies sizer
      ensures Valid()
      ensures Fail(sizer.params, limit, false, Going(old(sizer.View()), minFailures))
            == if over then GaveUp else Going(sizer.View(), now)
    {
      hide Wire.AllCarry, Wire.Sized, Sizer.Capped, RequestLane.Valid;
      Sizer.CappedStep(sizer.params, sizer.View(), cap, sizer.current);
      var was, next := sizer.Failure(sizer.current);
      if was == next && next == sizer.params.min {
        return minFailures + 1, minFailures + 1 >= limit;
      }
      return 0, false;
    }

    /** A record the server said OK to. */
    method Acknowledge(n: nat, size: nat)
      requires Valid() && upOffset + n <= |server|
      requires ended
      modifies this`upOffset, sizer
      ensures Valid() && upOffset == old(upOffset) + n
      ensures sizer.View() == Sizer.OnSuccess(sizer.params, old(sizer.View()), size)
    {
      hide Wire.AllCarry, Wire.Sized, Sizer.Capped, RequestLane.Valid;
      kind.CarryMore(lane.wire, app, [], upOffset, upOffset + n);
      assert app + [] == app;
      upOffset := upOffset + n;
      Sizer.CappedStep(sizer.params, sizer.View(), cap, size);
      sizer.Success(size);
    }

    /** One pass through Write's loop, with `rest` still to send; `None` means another one. */
    method Pass(rest: seq<byte>, minFailures: nat, round: Round)
      returns (result: Option<WriteResult>, n: nat, now: nat, ghost outcome: Outcome)
      requires Valid() && ended && OneReply(round)
      requires rest != [] && |rest| == |app| - upOffset && rest == app[upOffset..]
      modifies this`upOffset, this`dead, this`server, lane, sizer
      ensures Valid() && old(server) <= server && lane.closed == old(lane.closed)
      ensures n <= |rest| && upOffset == old(upOffset) + n
      ensures outcome == Lost(Timeout) <==> result == Some(TimedOut)
      ensures outcome == Lost(Failure) ==>
                && n == 0 && (result.None? || result == Some(AtMinimum))
                && Fail(sizer.params, limit, false, Going(old(sizer.View()), minFailures))
                == if result.Some? then GaveUp else Going(sizer.View(), now)
      ensures outcome.Answered? && outcome.reply.status == STATUS_OK ==>
                && result.None? && now == 0 && n == Min(old(sizer.current), |rest|) && n > 0
                && sizer.View() == Sizer.OnSuccess(sizer.params, old(sizer.View()), old(sizer.current))
      ensures outcome.Answered? && outcome.reply.status != STATUS_OK ==>
                n == 0 && result == Some(if outcome.reply.status == STATUS_ERROR then Refused else BadReply)
      ensures result.Some? ==> n == 0 && result.value in {TimedOut, AtMinimum, Refused, BadReply}
      ensures if result == Some(TimedOut) then dead else dead == old(dead)
      ensures Hopeless(round) ==> outcome == Lost(Failure)
      ensures !lane.closed && Works(round) ==> outcome.Answered? && outcome.reply.status == STATUS_OK
      ensures Copies(old(lane.wire), lane.wire,
          Wired(kind.mode, old(upOffset) + kind.shift, rest[..Min(old(sizer.current), |rest|)]))
      ensures !lane.closed && Works(round) ==> |lane.wire| == |old(lane.wire)| + 1
    {
      hide Copies;
      hide Wire.AllCarry, Wire.Sized, Wire.Carries, Wire.Receive, Wire.Deliver, RequestLane.Valid, Sizer.Capped;
      hide Fails, Fail, FailsSoftly, GoesThrough, Hopeless, Works;
      var size := sizer.current;
      n := if size < |rest| then size else |rest|;
      Sizer.CappedStep(sizer.params, sizer.View(), cap, size);
      assert rest[..n] == app[upOffset..upOffset + n];
      var met := Exchange(rest[..n], round);
      outcome := met;
      if met.Lost? {
        if met.fault == Timeout {
          dead := true;
          return Some(TimedOut), 0, minFailures, outcome;
        }
        var over;
        now, over := CountFailure(minFailures);
        return if over then Some(AtMinimum) else None, 0, now, outcome;
      }
      if met.reply.status != STATUS_OK {
        return Some(if met.reply.status == STATUS_ERROR then Refused else BadReply), 0, minFailures, outcome;
      }
      Acknowledge(n, size);
      return None, n, 0, outcome;
    }

    /** Success leaves the server with exactly what the application has written so far; an error
        leaves it with at least what was acknowledged and nothing that was not written. When every
        round fails without a timeout, the call gives up exactly when Retries says; when every round
        works, each byte costs at most one. */
    method Write(p: seq<byte>, script: seq<Round>) returns (total: nat, result: WriteResult)
      requires Valid() && !ended
      requires forall r :: r in script ==> OneReply(r)
      modifies this, lane, sizer
      ensures Valid() && app == old(app) + p
      ensures total <= |p| && upOffset == old(upOffset) + total && old(server) <= server
      ensures result == Stored <==> !ended
      ensures result == Stored ==> total == |p| && server == app
      ensures if result == TimedOut then dead else dead == old(dead)
      ensures p == [] ==> result == Stored
      ensures p != [] && AllHopeless(script) ==>
                && total == 0
                && result == if Fails(sizer.params, limit, false, Going(old(sizer.View()), 0), |script|).GaveUp?
                             then AtMinimum else Pending
      ensures !lane.closed && AllWork(script) && |script| >= |p| ==> result == Stored
      ensures !lane.closed && AllWork(script) && !sizer.params.adaptive ==>
                var size, sent := old(sizer.current), |lane.wire| - |old(lane.wire)|;
                && sent >= 0 && Paced(sent, size, |p|, total)
                && (result == Stored || (result == Pending && sent == |script|))
                && (|script| * size >= |p| ==> result == Stored)
    {
      hide Wire.AllCarry, Wire.Sized, Wire.Carries, Wire.Receive, Wire.Deliver, RequestLane.Valid, Sizer.Capped;
      hide Fails, Fail, FailsSoftly, GoesThrough, Hopeless, Works;
      hide Uploader.Valid, Copies, Paced;
      ghost var start, hopeless, first := sizer.View(), true, |lane.wire|;
      ghost var full := !lane.closed && AllWork(script) && !sizer.params.adaptive;
      PacedStart(sizer.current, |p|);
      Grow(p);
      total := 0;
      var minFailures := 0;
      var i := 0;
      FailsOnce(sizer.params, limit, false, Going(start, 0), 0);
      while total < |p|
        invariant Valid() && ended && dead == old(dead) && app == old(app) + p && old(server) <= server
        invariant 0 <= total <= |p| && upOffset == |old(app)| + total && 0 <= i <= |script|
        invariant AllHopeless(script) ==> hopeless
        invariant full ==>
                    && sizer.current == start.current && |lane.wire| == first + i
                    && Paced(i, start.current, |p|, total)
        invariant lane.closed == old(lane.closed) && (!lane.closed && AllWork(script) ==> i <= total)
        invariant hopeless ==>
                    && total == 0
                    && Fails(sizer.params, limit, false, Going(start, 0), i) == Going(sizer.View(), minFailures)
        decreases |script| - i
      {
        if i == |script| {
          PacedShort(i, start.current, |p|, total);
          return total, Pending;
        }
        assert script[i] in script;
        Sizer.FixedKeeps(sizer.params, sizer.View(), sizer.current);
        hopeless := hopeless && Hopeless(script[i]);
        Offset(old(app), p, total, |p| - total);
        FailsOnce(sizer.params, limit, false, Going(start, 0), i);
        var over, n;
        ghost var outcome;
        over, n, minFailures, outcome := Pass(p[total..], minFailures, script[i]);
        PacedOn(i, start.current, |p|, total, n);
        i := i + 1;
        if over.Some? {
          if Fails(sizer.params, limit, false, Going(start, 0), i).GaveUp? {
            StaysGivenUp(sizer.params, limit, false, Going(start, 0), i, |script|);
          }
          return total, over.value;
        }
        total := total + n;
      }
      Finish();
      return total, Stored;
    }

    /** The application hands over more bytes. */
    ghost method Grow(p: seq<byte>)
      requires Valid() && !ended
      modifies this`app, this`ended
      ensures Valid() && ended && app == old(app) + p && upOffset == |old(app)|
    {
      hide Wire.AllCarry, Wire.Sized, RequestLane.Valid, Sizer.Capped;
      kind.CarryMore(lane.wire, app, p, upOffset, upOffset);
      app := app + p;
      ended := true;
    }

    ghost method Finish()
      requires Valid() && upOffset == |app|
      modifies this`ended
      ensures Valid() && !ended && server == app
    {
      hide Wire.AllCarry, Wire.Sized, RequestLane.Valid, Sizer.Capped;
      ended := false;
    }

    /** No record on the wire carries more than `cap` bytes. */
    lemma WithinCap()
      requires Valid()
      ensures forall w :: w in lane.wire && kind.Record(w) ==> |w.payload| <= cap
    {
      hide Wire.AllCarry, RequestLane.Valid, Sizer.Capped;
    }
  }
}
