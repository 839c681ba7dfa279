/** Connections under the X stream (txnLane in internal/xorchunk/chunk.go): one attempt per
    transaction, and a reply must carry the id of the request it answers.

    Ids are 32 bits of one counter shared by all lanes. A ticket is that counter before it wraps.
    Requests are of any type Q and replies of any type R. */
module TxnLane {
  import opened Wrappers

  const ID_SPACE: nat := 0x1_0000_0000

  datatype Sent<Q> = Sent(ticket: nat, request: Q)

  /** A reply on its way to the client, with the id it carries. If the server sent it in answer to a
      request of this lane, `to` is that request's position in the log; the lane sees only the id. */
  datatype Frame<R> = Frame(id: nat, to: Option<nat>, body: R)

  /** What the environment does to one transaction: anything may be sent to the client, and
      `arrives` says whether the next reply can be read. */
  datatype TxnAttempt<R> = TxnAttempt(dials: bool, writes: bool, replies: seq<Frame<R>>, arrives: bool)

  class RequestCounter {
    var last: nat

    constructor ()
      ensures last == 0
    {
      last := 0;
    }

    method Add() returns (id: nat)
      modifies this
      ensures last == old(last) + 1 && id == last % ID_SPACE
    {
      last := last + 1;
      return last % ID_SPACE;
    }

    /** The requests of other lanes. */
    method Skip(n: nat)
      modifies this
      ensures last == old(last) + n
    {
      last := last + n;
    }
  }

  /** Tickets rise along the log and none is above `last`. */
  predicate Rising<Q>(log: seq<Sent<Q>>, last: nat) {
    && (forall i :: 0 <= i < |log| ==> log[i].ticket <= last)
    && (forall i, j :: 0 <= i < j < |log| ==> log[i].ticket < log[j].ticket)
  }

  lemma RisesOn<Q>(log: seq<Sent<Q>>, last: nat, request: Q)
    requires Rising(log, last)
    ensures Rising(log + [Sent(last + 1, request)], last + 1)
  {
  }

  lemma RisesLater<Q>(log: seq<Sent<Q>>, last: nat, now: nat)
    requires Rising(log, last) && last <= now
    ensures Rising(log, now)
  {
  }

  /** The server's half: a frame sent in answer to a request of the log carries that request's id. */
  predicate Echoes<Q, R>(log: seq<Sent<Q>>, frame: Frame<R>) {
    frame.to.Some? ==> frame.to.value < |log| && frame.id == log[frame.to.value].ticket % ID_SPACE
  }

  /** Two requests with one id are the same request, or 2^32 tickets apart. */
  lemma Apart<Q>(log: seq<Sent<Q>>, last: nat, to: nat)
    requires Rising(log, last) && to < |log| && log[|log| - 1].ticket == last
    requires log[to].ticket % ID_SPACE == last % ID_SPACE
    ensures to == |log| - 1 || log[to].ticket + ID_SPACE <= last
  {
  }

  class Lane<Q(==), R(==)> {
    const counter: RequestCounter
    const reconnectEvery: int
    var conn: Option<seq<Frame<R>>>
    var count: nat
    var closed: bool
    var log: seq<Sent<Q>>

    predicate Valid()
      reads this, counter
    {
      && (conn.None? ==> count == 0)
      && (closed ==> conn.None?)
      && (conn.Some? && reconnectEvery > 0 ==> count < reconnectEvery)
      && Rising(log, counter.last)
    }

    /** What lies unread on the connection, if there is one. */
    function Unread(): seq<Frame<R>>
      reads this
    {
      if conn.Some? then conn.value else []
    }

    /** There is a connection for the next transaction. */
    predicate CanSend(dials: bool)
      reads this
    {
      !closed && (conn.Some? || dials)
    }

    constructor (counter: RequestCounter, reconnectEvery: int)
      ensures Valid() && conn.None? && !closed && log == []
      ensures this.counter == counter && this.reconnectEvery == reconnectEvery
    {
      this.counter, this.reconnectEvery := counter, reconnectEvery;
      conn, count, closed, log := None, 0, false, [];
    }

    method CloseConn()
      modifies this`conn, this`count
      ensures conn.None? && count == 0
    {
      conn := None;
      count := 0;
    }

    method Close()
      requires Valid()
      modifies this
      ensures Valid() && closed && conn.None? && log == old(log)
    {
      closed := true;
      CloseConn();
    }

    method EnsureConn(dials: bool) returns (ok: bool)
      requires Valid()
      modifies this`conn, this`count
      ensures Valid()
      ensures ok <==> old(CanSend(dials))
      ensures ok ==> conn == Some(old(Unread())) && count == old(count)
      ensures !ok ==> conn.None?
    {
      if closed {
        return false;
      }
      if conn.Some? && (reconnectEvery <= 0 || count < reconnectEvery) {
        return true;
      }
      CloseConn();
      if !dials {
        return false;
      }
      conn := Some([]);
      return true;
    }

    /** Client only, whatever the server sends: the reply accepted is the first unread frame and
        carries this request's id; everything else closes the connection. With a server whose
        frames carry the ids of what they answer, it therefore answers this request or one made at
        least 2^32 requests before. `frame` is what was accepted. */
    method Do(request: Q, a: TxnAttempt<R>) returns (reply: Option<R>, ghost frame: Option<Frame<R>>)
      requires Valid()
      modifies this, counter
      ensures Valid() && closed == old(closed)
      ensures counter.last == old(counter.last) + if old(CanSend(a.dials)) then 1 else 0
      ensures log == if old(CanSend(a.dials)) then old(log) + [Sent(counter.last, request)] else old(log)
      ensures reply == if frame.Some? then Some(frame.value.body) else None
      ensures frame.Some? <==>
                && old(CanSend(a.dials)) && a.writes && a.arrives && old(Unread()) + a.replies != []
                && (old(Unread()) + a.replies)[0].id == counter.last % ID_SPACE
      ensures frame.Some? ==> frame.value == (old(Unread()) + a.replies)[0]
      ensures frame.Some? && frame.value.to.Some? && Echoes(log, frame.value) ==>
                var to := frame.value.to.value; to == |log| - 1 || log[to].ticket + ID_SPACE <= counter.last
      ensures frame.None? ==> conn.None? && count == 0
      ensures frame.Some? ==>
                && count == (if reconnectEvery > 0 && old(count) + 1 >= reconnectEvery then 0 else old(count) + 1)
                && conn == if count == 0 then None else Some((old(Unread()) + a.replies)[1..])
    {
      hide Rising;
      var ok := EnsureConn(a.dials);
      if !ok {
        return None, None;
      }
      RisesOn(log, counter.last, request);
      var id := counter.Add();
      log := log + [Sent(counter.last, request)];
      conn := Some(conn.value + a.replies);
      if !a.writes || !a.arrives || conn.value == [] {
        CloseConn();
        return None, None;
      }
      var next := conn.value[0];
      conn := Some(conn.value[1..]);
      if next.id != id {
        CloseConn();
        return None, None;
      }
      if next.to.Some? && Echoes(log, next) {
        Apart(log, counter.last, next.to.value);
      }
      count := count + 1;
      if reconnectEvery > 0 && count >= reconnectEvery {
        CloseConn();
      }
      return Some(next.body), Some(next);
    }
  }
}
