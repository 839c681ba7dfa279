/** The two loops of the X download pipeline as the program runs them, proved to be runs of the
    step system in XPull: the reader's Read and a pull worker's fetch of one chunk. */
module XPullConn {
  import opened Numbers
  import opened Bytes
  import opened Wrappers
  import opened XPull
  import Sizer

  datatype ReadOutcome = Copied(n: nat) | ErrorFor(num: nat) | EndOfStream | Blocked

  /** The part of chunkConn that Read uses. `world` is the rest of the pipeline, which Read leaves
      alone; the results channel is a queue that Read finds empty when it would block. */
  class ChunkConn {
    var pending: map<nat, seq<byte>>
    var nextRead: nat
    var current: seq<byte>
    var currentSeq: nat
    var finalKnown: bool
    var finalSeq: nat
    var terminalErr: Option<nat>
    var ack: int
    var results: seq<Result>
    var closed: bool
    ghost var world: State

    constructor (pollers: nat)
      ensures View() == Init(pollers)
    {
      pending, nextRead, current, currentSeq := map[], 0, [], 0;
      finalKnown, finalSeq, terminalErr := false, 0, None;
      ack, results, closed := -1, [], false;
      world := Init(pollers);
    }

    ghost function View(): State
      reads this
    {
      world.(reader := Reader(pending, nextRead, current, currentSeq, finalKnown, finalSeq, terminalErr),
             ack := ack, channel := results, channelClosed := closed)
    }

    /** The head of Read's loop: copy out of `current`, acknowledging when it is used up. */
    method CopyOut(c: Config, p: array<byte>) returns (n: nat)
      requires current != []
      modifies this, p
      ensures View() == Apply(c, old(View()), Deliver(p.Length))
      ensures n == Min(p.Length, |old(current)|) && p[..n] == old(current)[..n] && p[n..] == old(p[n..])
    {
      n := Min(p.Length, |current|);
      forall i | 0 <= i < n { p[i] := current[i]; }
      world := world.(delivered := world.delivered + current[..n]);
      current := current[n..];
      if |current| == 0 {
        nextRead := nextRead + 1;
        ack := currentSeq;
      }
    }

    method TakeNext(c: Config)
      requires Enabled(c, View(), TakePending)
      modifies this
      ensures View() == Apply(c, old(View()), TakePending)
      ensures results == old(results) && |pending| < old(|pending|)
    {
      current, currentSeq := pending[nextRead], nextRead;
      pending := pending - {nextRead};
      assert old(pending) == pending[nextRead := current];
    }

    /** The tail of Read's loop: one receive from a non-empty channel. */
    method ReceiveOne(c: Config)
      requires Enabled(c, View(), Receive)
      modifies this
      ensures View() == Apply(c, old(View()), Receive)
      ensures |results| < old(|results|)
    {
      var result := results[0];
      results := results[1..];
      match result {
        case Fault(q) =>
          terminalErr := Some(q);
        case Eof(q, n) =>
          if !finalKnown || n < finalSeq {
            finalKnown, finalSeq := true, n;
          }
          world := world.(retired := world.retired + multiset{q});
        case Chunk(q, data) =>
          if q >= nextRead {
            pending := pending[q := data];
          }
      }
    }

    /** One turn of Read's loop while there is nothing to copy: it stops with an outcome, or does
        one event of the step system. */
    method Turn(c: Config) returns (stop: Option<ReadOutcome>, ghost e: Event)
      requires current == []
      modifies this
      ensures stop.None? ==>
                && (e == TakePending || e == Receive)
                && Enabled(c, old(View()), e) && View() == Apply(c, old(View()), e)
                && (|results| < old(|results|) || (results == old(results) && |pending| < old(|pending|)))
      ensures stop.Some? ==> View() == old(View())
      ensures old(terminalErr).Some? ==> stop == Some(ErrorFor(old(terminalErr).value))
      ensures stop.Some? && stop.value.ErrorFor? ==> old(terminalErr) == Some(stop.value.num)
      ensures stop == Some(EndOfStream) <==> ReadReturnsEof(old(View()))
      ensures stop == Some(Blocked) <==> NeedsChannel(old(View()).reader) && old(results) == [] && !closed
      ensures stop.Some? ==> !stop.value.Copied?
    {
      e := Receive;
      if terminalErr.Some? {
        return Some(ErrorFor(terminalErr.value)), e;
      }
      if finalKnown && nextRead >= finalSeq {
        return Some(EndOfStream), e;
      }
      if nextRead in pending {
        TakeNext(c);
        return None, TakePending;
      }
      if results == [] {
        return Some(if closed then EndOfStream else Blocked), e;
      }
      ReceiveOne(c);
      return None, Receive;
    }

    /** Fills p from the stream. What it does is exactly some run of the reader's own events, and
        the outcome says why it stopped. */
    method Read(c: Config, p: array<byte>) returns (outcome: ReadOutcome, ghost events: seq<Event>)
      modifies this, p
      ensures Reaches(c, old(View()), events, View())
      ensures forall e :: e in events ==> e.Deliver? || e.TakePending? || e.Receive?
      ensures outcome.Copied? ==>
                && outcome.n <= p.Length && (outcome.n == 0 ==> p.Length == 0)
                && View().delivered == old(View()).delivered + p[..outcome.n] && p[outcome.n..] == old(p[outcome.n..])
      ensures !outcome.Copied? ==> View().delivered == old(View()).delivered && current == []
      ensures outcome.ErrorFor? ==> terminalErr == Some(outcome.num)
      ensures outcome.EndOfStream? ==> ReadReturnsEof(View())
      ensures outcome.Blocked? ==> NeedsChannel(View().reader) && results == [] && !closed
    {
      events := [];
      while |current| == 0
        invariant Reaches(c, old(View()), events, View())
        invariant forall e :: e in events ==> e.Deliver? || e.TakePending? || e.Receive?
        invariant View().delivered == old(View()).delivered && p[..] == old(p[..])
        decreases |results|, |pending|
      {
        ghost var before := View();
        ghost var e;
        var stop;
        stop, e := Turn(c);
        if stop.Some? {
          return stop.value, events;
        }
        ReachesThen(c, old(View()), events, before, e);
        events := events + [e];
      }
      ReachesThen(c, old(View()), events, View(), Deliver(p.Length));
      var n := CopyOut(c, p);
      return Copied(n), events + [Deliver(p.Length)];
    }
  }

  // ---------------------------------------------------------------- a worker's inner loop

  /** One turn of the loop: what other workers report to the shared sizer while this worker's request
      is out, and the answer to it. */
  datatype Turn = Turn(others: seq<Sizer.Report>, reply: Reply)

  /** Whether a loss counts is the sizer's business, not the environment's. */
  function Judged(p: Sizer.Params, s: Sizer.Sizer, limit: nat, reply: Reply): Reply {
    if reply.Lost? then Lost(Sizer.CannotShrink(p, s, limit)) else reply
  }

  /** What the worker itself reports: a loss, or a fragment it could use. */
  function Reported(p: Sizer.Params, s: Sizer.Sizer, limit: nat, reply: Reply, after: Worker): Sizer.Sizer {
    if reply.Lost? then Sizer.OnFailure(p, s, limit)
    else if reply.Data? && !(after.Sending? && after.result.Fault?) then Sizer.OnSuccess(p, s, limit)
    else s
  }

  function AfterTurn(p: Sizer.Params, serverMax: nat, s: Sizer.Sizer, x: Worker, turn: Turn): (Worker, Sizer.Sizer)
    requires x.Fetching?
  {
    var met := Sizer.Run(p, s, turn.others);
    var after := OnReply(serverMax, x.num, x.offset, x.assembled, x.minFails, Judged(p, met, s.current, turn.reply));
    (after, Reported(p, met, s.current, turn.reply, after))
  }

  /** The worker and the sizer after these turns; the worker stops listening once it has something
      to push. */
  function AfterTurns(
      p: Sizer.Params, serverMax: nat, s: Sizer.Sizer, x: Worker, turns: seq<Turn>): (r: (Worker, Sizer.Sizer))
    requires x.Fetching? || x.Sending?
    ensures r.0.Fetching? || r.0.Sending?
    decreases |turns|
  {
    if turns == [] then (x, s)
    else
      var (y, t) := AfterTurns(p, serverMax, s, x, turns[..|turns| - 1]);
      if y.Sending? then (y, t) else AfterTurn(p, serverMax, t, y, turns[|turns| - 1])
  }

  lemma NextTurn(p: Sizer.Params, serverMax: nat, s: Sizer.Sizer, x: Worker, turns: seq<Turn>, i: nat)
    requires (x.Fetching? || x.Sending?) && i < |turns|
    ensures var (y, t) := AfterTurns(p, serverMax, s, x, turns[..i]);
            AfterTurns(p, serverMax, s, x, turns[..i + 1])
            == if y.Sending? then (y, t) else AfterTurn(p, serverMax, t, y, turns[i])
  {
    assert turns[..i + 1][..i] == turns[..i];
  }

  lemma {:induction false} StaysSending(
      p: Sizer.Params, serverMax: nat, s: Sizer.Sizer, x: Worker, turns: seq<Turn>, i: nat)
    requires (x.Fetching? || x.Sending?) && i <= |turns|
    requires AfterTurns(p, serverMax, s, x, turns[..i]).0.Sending?
    ensures AfterTurns(p, serverMax, s, x, turns) == AfterTurns(p, serverMax, s, x, turns[..i])
    decreases |turns| - i
  {
    if i < |turns| {
      NextTurn(p, serverMax, s, x, turns, i);
      StaysSending(p, serverMax, s, x, turns, i + 1);
    } else {
      assert turns[..i] == turns;
    }
  }

  /** What a CPULL asks for, besides the acknowledgement it carries. */
  datatype Asked = Asked(num: nat, offset: nat, limit: nat)

  /** Request i asks for the chunk from what is assembled on, in records of the sizer's size. */
  predicate AsksRight(
      p: Sizer.Params, serverMax: nat, s: Sizer.Sizer, q: nat, turns: seq<Turn>, i: nat, asked: Asked)
    requires i <= |turns|
  {
    var (x, t) := AfterTurns(p, serverMax, s, Fetching(q, 0, [], 0), turns[..i]);
    x.Fetching? && asked == Asked(q, |x.assembled|, t.current)
  }

  /** What the other workers do to the shared sizer. */
  method Others(sizer: Sizer.AdaptiveSizer, reports: seq<Sizer.Report>)
    modifies sizer
    ensures sizer.View() == Sizer.Run(sizer.params, old(sizer.View()), reports)
  {
    for i := 0 to |reports|
      invariant Sizer.Run(sizer.params, sizer.View(), reports[i..])
              == Sizer.Run(sizer.params, old(sizer.View()), reports)
    {
      assert reports[i..][0] == reports[i] && reports[i..][1..] == reports[i + 1..];
      match reports[i] {
        case Success(a) => sizer.Success(a);
        case Failure(a) =>
          var was, next := sizer.Failure(a);
      }
    }
  }

  /** Fetches chunk q while turns last: the worker's inner loop with every branch it takes. One
      request goes out for each turn until there is something to push. */
  method FetchChunk(sizer: Sizer.AdaptiveSizer, serverMax: nat, q: nat, turns: seq<Turn>)
    returns (x: Worker, ghost asked: seq<Asked>)
    modifies sizer
    ensures (x, sizer.View()) == AfterTurns(sizer.params, serverMax, old(sizer.View()), Fetching(q, 0, [], 0), turns)
    ensures |asked| <= |turns| && (x.Fetching? ==> |asked| == |turns|)
    ensures forall i :: 0 <= i < |asked| ==>
              AsksRight(sizer.params, serverMax, old(sizer.View()), q, turns, i, asked[i])
    ensures x == AfterTurns(sizer.params, serverMax, old(sizer.View()), Fetching(q, 0, [], 0), turns[..|asked|]).0
  {
    hide Sizer.OnSuccess, Sizer.OnFailure, Sizer.Run, AfterTurns;
    ghost var p, s, x0 := sizer.params, sizer.View(), Fetching(q, 0, [], 0);
    var offset: nat, assembled: seq<byte>, minFails := 0, [], 0;
    asked := [];
    var i := 0;
    NoTurns(p, serverMax, s, x0, turns);
    while i < |turns|
      invariant 0 <= i <= |turns| && offset == |assembled| && |asked| == i
      invariant (Fetching(q, offset, assembled, minFails), sizer.View()) == AfterTurns(p, serverMax, s, x0, turns[..i])
      invariant forall k :: 0 <= k < i ==> AsksRight(p, serverMax, s, q, turns, k, asked[k])
    {
      NextTurn(p, serverMax, s, x0, turns, i);
      if AfterTurns(p, serverMax, s, x0, turns[..i + 1]).0.Sending? {
        StaysSending(p, serverMax, s, x0, turns, i + 1);
      }
      var limit := sizer.current;
      asked := asked + [Asked(q, offset, limit)];
      Others(sizer, turns[i].others);
      match turns[i].reply {
        case Lost(_) =>
          var was, next := sizer.Failure(limit);
          if !sizer.params.adaptive || (next == was && next == sizer.params.min) {
            minFails := minFails + 1;
          } else {
            minFails := 0;
          }
          if minFails >= MAX_MIN_FAILURES {
            return Sending(Fault(q)), asked;
          }
        case Wait =>
        case ErrText =>
          return Sending(Fault(q)), asked;
        case EofLine(None) =>
          return Sending(Fault(q)), asked;
        case EofLine(Some(n)) =>
          return Sending(Eof(q, n)), asked;
        case Garbled =>
          return Sending(Fault(q)), asked;
        case Data(gotSeq, gotOffset, total, fragment) =>
          if gotSeq != q || gotOffset != offset {
            return Sending(Fault(q)), asked;
          }
          if total > serverMax || total < offset + |fragment| || |fragment| == 0 {
            return Sending(Fault(q)), asked;
          }
          assembled := assembled + fragment;
          offset := offset + |fragment|;
          minFails := 0;
          sizer.Success(limit);
          if offset == total {
            return Sending(Chunk(q, assembled)), asked;
          }
      }
      i := i + 1;
    }
    assert turns[..i] == turns;
    return Fetching(q, offset, assembled, minFails), asked;
  }

  lemma NoTurns(p: Sizer.Params, serverMax: nat, s: Sizer.Sizer, x: Worker, turns: seq<Turn>)
    requires x.Fetching?
    ensures AfterTurns(p, serverMax, s, x, turns[..0]) == (x, s)
  {
  }

  /** With an honest server the loop can only push the chunk itself, the true end, or an error. */
  lemma {:induction false} FetchedIsTrue(
      chunks: seq<seq<byte>>, p: Sizer.Params, serverMax: nat, s: Sizer.Sizer, q: nat, turns: seq<Turn>)
    requires forall i, offset :: 0 <= i < |turns| ==> Honest(chunks, -1, q, offset, turns[i].reply)
    ensures var x := AfterTurns(p, serverMax, s, Fetching(q, 0, [], 0), turns).0;
            && WorkerTrue(chunks, x) && x.Held() == Some(q) && (x.Fetching? ==> x.offset == |x.assembled|)
    decreases |turns|
  {
    if turns != [] {
      var init := turns[..|turns| - 1];
      FetchedIsTrue(chunks, p, serverMax, s, q, init);
      var (x, t) := AfterTurns(p, serverMax, s, Fetching(q, 0, [], 0), init);
      if x.Fetching? {
        var last := turns[|turns| - 1];
        assert Honest(chunks, -1, q, |x.assembled|, last.reply);
        var judged := Judged(p, Sizer.Run(p, t, last.others), t.current, last.reply);
        ReplyTrue(chunks, serverMax, -1, q, x.assembled, x.minFails, judged);
      }
    }
  }

  /** Nothing but losses: this worker's, and failures that the others report. */
  predicate AllLost(turns: seq<Turn>) {
    forall t :: t in turns ==> t.reply.Lost? && forall r :: r in t.others ==> r.Failure?
  }

  lemma {:induction false} StaysAtFloor(p: Sizer.Params, s: Sizer.Sizer, reports: seq<Sizer.Report>)
    requires !p.adaptive || s.current == p.min
    requires forall r :: r in reports ==> r.Failure?
    ensures Sizer.Run(p, s, reports).current == s.current
    decreases |reports|
  {
    if reports != [] {
      assert reports[0] in reports && forall r :: r in reports[1..] ==> r in reports;
      StaysAtFloor(p, Sizer.Apply(p, s, reports[0]), reports[1..]);
    }
  }

  /** Losses alone end a fetch at exactly the eighth in a row once no size can change. */
  lemma {:induction false} LossesEndAtEight(
      p: Sizer.Params, serverMax: nat, s: Sizer.Sizer, q: nat, offset: nat, assembled: seq<byte>, minFails: nat,
      turns: seq<Turn>)
    requires minFails < 8 && (!p.adaptive || s.current == p.min) && AllLost(turns)
    ensures var (x, t) := AfterTurns(p, serverMax, s, Fetching(q, offset, assembled, minFails), turns);
            && t.current == s.current
            && x == if minFails + |turns| >= 8 then Sending(Fault(q))
                    else Fetching(q, offset, assembled, minFails + |turns|)
    decreases |turns|
  {
    if turns != [] {
      var init, last := turns[..|turns| - 1], turns[|turns| - 1];
      assert last in turns && forall t :: t in init ==> t in turns;
      LossesEndAtEight(p, serverMax, s, q, offset, assembled, minFails, init);
      var t := AfterTurns(p, serverMax, s, Fetching(q, offset, assembled, minFails), init).1;
      StaysAtFloor(p, t, last.others);
      StaysAtFloor(p, Sizer.Run(p, t, last.others), [Sizer.Failure(t.current)]);
      OneReport(p, Sizer.Run(p, t, last.others), Sizer.Failure(t.current));
    }
  }

  lemma OneReport(p: Sizer.Params, s: Sizer.Sizer, r: Sizer.Report)
    ensures Sizer.Run(p, s, [r]) == Sizer.Apply(p, s, r)
  {
    assert Sizer.Run(p, Sizer.Apply(p, s, r), [r][1..]) == Sizer.Apply(p, s, r);
  }

  // ---------------------------------------------------------------- a truthful server makes progress

  /** Bytes that fragments have brought. */
  function Got(turns: seq<Turn>): nat {
    if turns == [] then 0
    else
      var last := turns[|turns| - 1].reply;
      Got(turns[..|turns| - 1]) + if last.Data? then |last.fragment| else 0
  }

  /** Turns in which the server tells the truth about the chunk: losses, WAITs, and fragments of any
      size from where the ones before ended. */
  predicate Truthful(chunk: seq<byte>, q: nat, turns: seq<Turn>)
    decreases |turns|
  {
    turns == []
    || (Truthful(chunk, q, turns[..|turns| - 1])
        && var at := Got(turns[..|turns| - 1]);
           match turns[|turns| - 1].reply
           case Lost(_) => true
           case Wait => true
           case Data(num, offset, total, fragment) =>
             && num == q && offset == at && total == |chunk| && fragment != []
             && at + |fragment| <= |chunk| && fragment == chunk[at..at + |fragment|]
           case _ => false)
  }

  /** Losses since the last fragment, and since the last loss that the sizer could answer by
      shrinking; WAITs do not matter. */
  function Streak(p: Sizer.Params, serverMax: nat, s: Sizer.Sizer, q: nat, turns: seq<Turn>): nat
    decreases |turns|
  {
    if turns == [] then 0
    else
      var init, last := turns[..|turns| - 1], turns[|turns| - 1];
      var t := AfterTurns(p, serverMax, s, Fetching(q, 0, [], 0), init).1;
      match last.reply
      case Lost(_) =>
        if Sizer.CannotShrink(p, Sizer.Run(p, t, last.others), t.current) then Streak(p, serverMax, s, q, init) + 1
        else 0
      case Wait => Streak(p, serverMax, s, q, init)
      case _ => 0
  }

  /** Fewer than eight such losses in a row, all the way. */
  ghost predicate Endures(p: Sizer.Params, serverMax: nat, s: Sizer.Sizer, q: nat, turns: seq<Turn>) {
    forall k :: 0 <= k <= |turns| ==> Streak(p, serverMax, s, q, turns[..k]) < 8
  }

  lemma EnduresBefore(p: Sizer.Params, serverMax: nat, s: Sizer.Sizer, q: nat, turns: seq<Turn>)
    requires turns != [] && Endures(p, serverMax, s, q, turns)
    ensures Endures(p, serverMax, s, q, turns[..|turns| - 1]) && Streak(p, serverMax, s, q, turns) < 8
  {
    hide Streak;
    var init := turns[..|turns| - 1];
    LastEndures(p, serverMax, s, q, turns);
    forall k | 0 <= k <= |init| ensures Streak(p, serverMax, s, q, init[..k]) < 8 {
      assert init[..k] == turns[..k];
    }
  }

  lemma LastEndures(p: Sizer.Params, serverMax: nat, s: Sizer.Sizer, q: nat, turns: seq<Turn>)
    requires Endures(p, serverMax, s, q, turns)
    ensures Streak(p, serverMax, s, q, turns) < 8
  {
    assert turns[..|turns|] == turns;
  }

  /** Whatever others report meanwhile, as long as the fragments do not add up the worker goes on
      asking from exactly where they end, and when they do it pushes exactly the chunk. */
  lemma {:induction false} FetchAdvances(
      p: Sizer.Params, serverMax: nat, s: Sizer.Sizer, q: nat, chunk: seq<byte>, turns: seq<Turn>)
    requires 0 < |chunk| <= serverMax && Truthful(chunk, q, turns) && Endures(p, serverMax, s, q, turns)
    ensures Got(turns) <= |chunk|
    ensures AfterTurns(p, serverMax, s, Fetching(q, 0, [], 0), turns).0
         == if Got(turns) < |chunk| then Fetching(q, Got(turns), chunk[..Got(turns)], Streak(p, serverMax, s, q, turns))
            else Sending(Chunk(q, chunk))
    decreases |turns|
  {
    hide Sizer.CannotShrink, Sizer.OnSuccess, Sizer.OnFailure, Sizer.Run, Endures;
    if turns != [] {
      var init, last := turns[..|turns| - 1], turns[|turns| - 1].reply;
      EnduresBefore(p, serverMax, s, q, turns);
      FetchAdvances(p, serverMax, s, q, chunk, init);
      if last.Data? {
        var at := Got(init);
        assert chunk[..at] + last.fragment == chunk[..at + |last.fragment|];
        assert chunk[..|chunk|] == chunk;
      }
    }
  }

  /** The eighth such loss in a row ends the fetch, and not a loss before it. */
  lemma FetchGivesUp(p: Sizer.Params, serverMax: nat, s: Sizer.Sizer, q: nat, chunk: seq<byte>, turns: seq<Turn>)
    requires 0 < |chunk| <= serverMax && turns != [] && Truthful(chunk, q, turns) && Got(turns) < |chunk|
    requires Endures(p, serverMax, s, q, turns[..|turns| - 1]) && Streak(p, serverMax, s, q, turns) >= 8
    ensures AfterTurns(p, serverMax, s, Fetching(q, 0, [], 0), turns).0 == Sending(Fault(q))
  {
    hide Sizer.CannotShrink, Sizer.OnSuccess, Sizer.OnFailure, Sizer.Run, Endures;
    FetchAdvances(p, serverMax, s, q, chunk, turns[..|turns| - 1]);
    LastEndures(p, serverMax, s, q, turns[..|turns| - 1]);
  }

  /** Losses in a row, whether or not the sizer could answer them. */
  function LossRun(turns: seq<Turn>): nat {
    if turns == [] then 0
    else
      match turns[|turns| - 1].reply
      case Lost(_) => LossRun(turns[..|turns| - 1]) + 1
      case Wait => LossRun(turns[..|turns| - 1])
      case _ => 0
  }

  lemma {:induction false} StreakAtMost(
      p: Sizer.Params, serverMax: nat, s: Sizer.Sizer, q: nat, turns: seq<Turn>)
    ensures Streak(p, serverMax, s, q, turns) <= LossRun(turns)
    decreases |turns|
  {
    hide AfterTurns, Sizer.CannotShrink, Sizer.Run;
    if turns != [] {
      StreakAtMost(p, serverMax, s, q, turns[..|turns| - 1]);
    }
  }

  /** So with fewer than eight losses in a row between fragments, the whole chunk arrives. */
  lemma FetchSucceeds(p: Sizer.Params, serverMax: nat, s: Sizer.Sizer, q: nat, chunk: seq<byte>, turns: seq<Turn>)
    requires 0 < |chunk| <= serverMax && Truthful(chunk, q, turns)
    requires forall k :: 0 <= k <= |turns| ==> LossRun(turns[..k]) < 8
    ensures var x := AfterTurns(p, serverMax, s, Fetching(q, 0, [], 0), turns).0;
            && Got(turns) <= |chunk|
            && (Got(turns) < |chunk| ==> x.Fetching? && x.num == q && x.assembled == chunk[..Got(turns)])
            && (Got(turns) == |chunk| ==> x == Sending(Chunk(q, chunk)))
  {
    hide LossRun, Streak, Truthful, AfterTurns;
    forall k | 0 <= k <= |turns| ensures Streak(p, serverMax, s, q, turns[..k]) < 8 {
      StreakAtMost(p, serverMax, s, q, turns[..k]);
    }
    FetchAdvances(p, serverMax, s, q, chunk, turns);
  }

  /** An answer that no honest server gives to this request: an error, text that cannot be read, or
      DATA for another position, beyond the limits, or empty. */
  predicate Unusable(serverMax: nat, q: nat, offset: nat, reply: Reply) {
    match reply
    case ErrText => true
    case Garbled => true
    case EofLine(final) => final.None?
    case Data(num, at, total, fragment) =>
      num != q || at != offset || total > serverMax || total < offset + |fragment| || fragment == []
    case _ => false
  }

  /** A worker still asking stops with an error at such an answer, with EOF at EOF, and at once. */
  lemma FetchEnds(
      p: Sizer.Params, serverMax: nat, s: Sizer.Sizer, x0: Worker, turns: seq<Turn>, last: Turn)
    requires x0.Fetching? && AfterTurns(p, serverMax, s, x0, turns).0.Fetching?
    ensures var x := AfterTurns(p, serverMax, s, x0, turns).0;
            var y := AfterTurns(p, serverMax, s, x0, turns + [last]).0;
            && (Unusable(serverMax, x.num, x.offset, last.reply) ==> y == Sending(Fault(x.num)))
            && (last.reply.EofLine? && last.reply.final.Some? ==> y == Sending(Eof(x.num, last.reply.final.value)))
  {
    assert (turns + [last])[..|turns|] == turns;
  }

  /** What the worker tells the shared sizer: each loss and each usable fragment, about the size it
      had asked for; nothing else. */
  lemma TurnReports(p: Sizer.Params, serverMax: nat, s: Sizer.Sizer, x0: Worker, turns: seq<Turn>, last: Turn)
    requires x0.Fetching? && AfterTurns(p, serverMax, s, x0, turns).0.Fetching?
    ensures var (x, t) := AfterTurns(p, serverMax, s, x0, turns);
            var own := if last.reply.Lost? then [Sizer.Failure(t.current)]
                       else if last.reply.Data? && !Unusable(serverMax, x.num, x.offset, last.reply)
                       then [Sizer.Success(t.current)] else [];
            AfterTurns(p, serverMax, s, x0, turns + [last]).1 == Sizer.Run(p, Sizer.Run(p, t, last.others), own)
  {
    hide Sizer.OnSuccess, Sizer.OnFailure;
    var (x, t) := AfterTurns(p, serverMax, s, x0, turns);
    assert (turns + [last])[..|turns|] == turns;
    var met := Sizer.Run(p, t, last.others);
    OneReport(p, met, Sizer.Failure(t.current));
    OneReport(p, met, Sizer.Success(t.current));
  }
}
