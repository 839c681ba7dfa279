/** The X download pipeline when every request is lost (internal/xorchunk/chunk.go): all pull
    workers share one sizer, so one worker's failure can shrink the records of another, and a
    report about a size that is no longer current changes nothing.

    These are the runs of XPull in which nobody calls Close, every answer is a loss, and whether a
    loss counts is decided by the shared sizer. */
module XPullLoss {
  import opened Numbers
  import opened XPull
  import Sizer

  /** `limits[w]` is the size that worker w's outstanding request asked for. */
  datatype Losing = Losing(pull: State, sizer: Sizer.Sizer, limits: seq<nat>)

  /** The workers' own events. */
  predicate ByWorker(e: Event) {
    e.Claim? || e.Ask? || e.Answer? || e.Send?
  }

  predicate May(c: Config, p: Sizer.Params, l: Losing, e: Event) {
    && (ByWorker(e) || e.Receive?) && Enabled(c, l.pull, e) && |l.limits| == |l.pull.workers|
    && (e.Answer? ==> e.reply == Lost(Sizer.CannotShrink(p, l.sizer, l.limits[e.w])))
  }

  function Next(c: Config, p: Sizer.Params, l: Losing, e: Event): Losing
    requires May(c, p, l, e)
  {
    Losing(Apply(c, l.pull, e),
           if e.Answer? then Sizer.OnFailure(p, l.sizer, l.limits[e.w]) else l.sizer,
           if e.Ask? then l.limits[e.w := l.sizer.current] else l.limits)
  }

  predicate Leads(c: Config, p: Sizer.Params, l: Losing, events: seq<Event>, t: Losing)
    decreases |events|
  {
    if events == [] then l == t
    else May(c, p, l, events[0]) && Leads(c, p, Next(c, p, l, events[0]), events[1..], t)
  }

  function Start(pollers: nat, s: Sizer.Sizer): Losing {
    Losing(Init(pollers), s, seq(pollers, _ => 0))
  }

  function WorkerEvents(events: seq<Event>): nat {
    if events == [] then 0 else One(ByWorker(events[0])) + WorkerEvents(events[1..])
  }

  // ---------------------------------------------------------------- invariant

  /** A fixed sizer, as in the sessions the program opens, need not be sound. */
  predicate Sound(p: Sizer.Params, s: Sizer.Sizer) {
    !p.adaptive || (p.Ok() && Sizer.Inv(p, s))
  }

  /** A worker has counted a loss only if no size can change any more, and pushes nothing but its
      error. */
  predicate Bare(p: Sizer.Params, s: Sizer.Sizer, x: Worker) {
    match x
    case Free => true
    case Fetching(_, _, _, n) => n < MAX_MIN_FAILURES && (n > 0 ==> !p.adaptive || s.current == p.min)
    case Asking(_, _, _, n, _) => n < MAX_MIN_FAILURES && (n > 0 ==> !p.adaptive || s.current == p.min)
    case Sending(r) => r.Fault?
    case Stopped => true
  }

  ghost predicate LossInv(c: Config, p: Sizer.Params, l: Losing) {
    && ClientInv(c, l.pull) && Sound(p, l.sizer) && |l.limits| == |l.pull.workers|
    && !l.pull.cancelled && l.pull.delivered == [] && l.pull.retired == multiset{}
    && l.pull.reader.pending == map[] && l.pull.reader.current == [] && !l.pull.reader.finalKnown
    && (forall x :: x in l.pull.workers ==> Bare(p, l.sizer, x))
    && (forall r :: r in l.pull.channel ==> r.Fault?)
  }

  lemma FloorStays(p: Sizer.Params, s: Sizer.Sizer, limit: nat)
    requires Sound(p, s)
    ensures Sound(p, Sizer.OnFailure(p, s, limit)) && Sizer.OnFailure(p, s, limit).current <= s.current
    ensures Sizer.CannotShrink(p, s, limit) <==> !p.adaptive || s.current == p.min
    ensures Sizer.CannotShrink(p, s, limit) || s.current > p.min
  {
  }

  lemma LossStep(c: Config, p: Sizer.Params, l: Losing, e: Event)
    requires LossInv(c, p, l) && May(c, p, l, e)
    ensures LossInv(c, p, Next(c, p, l, e))
  {
    hide EverySeqOnce, ReaderOk, ChannelOk, WorkersOk, ShutdownOk, Sizer.OnFailure, Sound;
    var t := Next(c, p, l, e);
    ClientStep(c, l.pull, e);
    if e.Receive? {
      assert l.pull.channel[0] in l.pull.channel;
    } else {
      BareStep(c, p, l, e);
      if e.Answer? {
        FloorStays(p, l.sizer, l.limits[e.w]);
      }
    }
  }

  lemma BareStep(c: Config, p: Sizer.Params, l: Losing, e: Event)
    requires LossInv(c, p, l) && May(c, p, l, e) && ByWorker(e)
    ensures forall x :: x in Next(c, p, l, e).pull.workers ==> Bare(p, Next(c, p, l, e).sizer, x)
    ensures forall r :: r in Next(c, p, l, e).pull.channel ==> r.Fault?
  {
    hide ClientInv, Sizer.OnFailure, Sound;
    var t := Next(c, p, l, e);
    assert Bare(p, l.sizer, l.pull.workers[e.w]);
    if e.Answer? {
      FloorStays(p, l.sizer, l.limits[e.w]);
      FloorOf(p, l.sizer, l.limits[e.w]);
    }
    forall x | x in t.pull.workers ensures Bare(p, t.sizer, x) {
      assert x in l.pull.workers ==> Bare(p, l.sizer, x);
    }
  }

  lemma FloorOf(p: Sizer.Params, s: Sizer.Sizer, limit: nat)
    requires Sound(p, s)
    ensures !p.adaptive || s.current == p.min ==> Sizer.OnFailure(p, s, limit).current == s.current
  {
  }

  // ---------------------------------------------------------------- what falls

  /** What a worker still has to do; an outstanding request for a size that is no longer current
      weighs two more, because its loss will change nothing. */
  function Weight(x: Worker, stale: bool): nat {
    match x
    case Free => 20
    case Fetching(_, _, _, n) => if n < 8 then 3 + 2 * (8 - n) else 3
    case Asking(_, _, _, n, _) => (if n < 8 then 2 + 2 * (8 - n) else 2) + if stale then 2 else 0
    case Sending(_) => 1
    case Stopped => 0
  }

  function Weights(ws: seq<Worker>, limits: seq<nat>, current: nat): nat
    requires |ws| == |limits|
  {
    if ws == [] then 0 else Weight(ws[0], limits[0] != current) + Weights(ws[1..], limits[1..], current)
  }

  lemma {:induction false} WeightsUpdate(ws: seq<Worker>, limits: seq<nat>, current: nat, i: nat, x: Worker, limit: nat)
    requires |ws| == |limits| && i < |ws|
    ensures Weights(ws[i := x], limits[i := limit], current)
         == Weights(ws, limits, current) - Weight(ws[i], limits[i] != current) + Weight(x, limit != current)
  {
    if i == 0 {
      assert ws[i := x][1..] == ws[1..] && limits[i := limit][1..] == limits[1..];
    } else {
      assert ws[i := x][1..] == ws[1..][i - 1 := x] && limits[i := limit][1..] == limits[1..][i - 1 := limit];
      WeightsUpdate(ws[1..], limits[1..], current, i - 1, x, limit);
    }
  }

  lemma {:induction false} WeightsRise(ws: seq<Worker>, limits: seq<nat>, was: nat, now: nat)
    requires |ws| == |limits|
    ensures Weights(ws, limits, now) <= Weights(ws, limits, was) + 2 * |ws|
  {
    if ws != [] {
      WeightsRise(ws[1..], limits[1..], was, now);
    }
  }

  /** Failures the sizer can still answer by shrinking. */
  function Budget(p: Sizer.Params, s: Sizer.Sizer): int {
    if p.adaptive && s.current > p.min then p.shrinkAfter * (s.current - p.min) - s.failures else 0
  }

  lemma BudgetFalls(p: Sizer.Params, s: Sizer.Sizer)
    requires Sound(p, s) && p.adaptive && s.current > p.min
    ensures 0 <= Budget(p, Sizer.OnFailure(p, s, s.current)) < Budget(p, s)
  {
    var t := Sizer.OnFailure(p, s, s.current);
    Sizer.MulMonotone(p.shrinkAfter, 0, s.current - p.min - 1);
    if t.current < s.current {
      Sizer.MulMonotone(p.shrinkAfter, t.current - p.min, s.current - p.min - 1);
    }
    if t.current > p.min {
      Sizer.MulMonotone(p.shrinkAfter, 0, t.current - p.min - 1);
    }
  }

  lemma BudgetIsNatural(p: Sizer.Params, s: Sizer.Sizer)
    requires Sound(p, s)
    ensures 0 <= Budget(p, s)
  {
    if p.adaptive && s.current > p.min {
      BudgetFalls(p, s);
    }
  }

  function Left(p: Sizer.Params, l: Losing): int
    requires |l.limits| == |l.pull.workers|
  {
    2 * (|l.limits| + 1) * Budget(p, l.sizer) + Weights(l.pull.workers, l.limits, l.sizer.current)
  }

  lemma Scale(n: nat, a: nat, b: int)
    requires a < b
    ensures 2 * (n + 1) * a + 2 * (n + 1) <= 2 * (n + 1) * b
  {
    Sizer.MulMonotone(2 * (n + 1), a, b - 1);
  }

  /** A loss that the sizer answers lowers its budget by more than other requests can turn stale. */
  lemma AnswerFalls(c: Config, p: Sizer.Params, l: Losing, e: Event)
    requires LossInv(c, p, l) && May(c, p, l, e) && e.Answer?
    ensures Left(p, Next(c, p, l, e)) < Left(p, l)
  {
    hide ClientInv, Sound, Budget;
    var t, w := Next(c, p, l, e), e.w;
    var x, limit := l.pull.workers[w], l.limits[w];
    assert Bare(p, l.sizer, x);
    FloorStays(p, l.sizer, limit);
    FloorOf(p, l.sizer, limit);
    WeightsUpdate(l.pull.workers, l.limits, l.sizer.current, w, t.pull.workers[w], limit);
    assert l.limits[w := limit] == l.limits;
    if Sizer.CannotShrink(p, l.sizer, limit) {
      NoBudget(p, l.sizer, limit);
    } else if limit == l.sizer.current {
      BudgetFalls(p, l.sizer);
      Scale(|l.limits|, Budget(p, t.sizer), Budget(p, l.sizer));
      WeightsRise(t.pull.workers, l.limits, l.sizer.current, t.sizer.current);
    }
  }

  lemma NoBudget(p: Sizer.Params, s: Sizer.Sizer, limit: nat)
    requires Sound(p, s) && (!p.adaptive || s.current == p.min)
    ensures Budget(p, s) == 0 == Budget(p, Sizer.OnFailure(p, s, limit))
  {
    FloorOf(p, s, limit);
  }

  lemma WorkerStepFalls(c: Config, p: Sizer.Params, l: Losing, e: Event)
    requires LossInv(c, p, l) && May(c, p, l, e)
    ensures |Next(c, p, l, e).limits| == |Next(c, p, l, e).pull.workers|
    ensures Left(p, Next(c, p, l, e)) + One(ByWorker(e)) <= Left(p, l)
  {
    if e.Answer? {
      AnswerFalls(c, p, l, e);
    } else if e.Receive? {
      assert Next(c, p, l, e).pull.workers == l.pull.workers;
    } else {
      hide ClientInv, Sound, Budget;
      var t, w := Next(c, p, l, e), e.w;
      assert Bare(p, l.sizer, l.pull.workers[w]);
      WeightsUpdate(l.pull.workers, l.limits, l.sizer.current, w, t.pull.workers[w], t.limits[w]);
      assert t.limits == l.limits[w := t.limits[w]];
    }
  }

  // ---------------------------------------------------------------- results

  lemma {:induction false} LossRuns(c: Config, p: Sizer.Params, l: Losing, events: seq<Event>, t: Losing)
    requires LossInv(c, p, l) && Leads(c, p, l, events, t)
    ensures LossInv(c, p, t) && WorkerEvents(events) + Left(p, t) <= Left(p, l)
    decreases |events|
  {
    hide LossInv, Left, May, Next;
    if events != [] {
      LossStep(c, p, l, events[0]);
      SameShape(c, p, l);
      WorkerStepFalls(c, p, l, events[0]);
      LossRuns(c, p, Next(c, p, l, events[0]), events[1..], t);
    } else {
      SameShape(c, p, l);
    }
  }

  lemma SameShape(c: Config, p: Sizer.Params, l: Losing)
    requires LossInv(c, p, l)
    ensures |l.limits| == |l.pull.workers|
  {
  }

  lemma {:induction false} StartWeights(pollers: nat, s: Sizer.Sizer)
    ensures Weights(Start(pollers, s).pull.workers, Start(pollers, s).limits, s.current) == 20 * pollers
  {
    if pollers > 0 {
      StartWeights(pollers - 1, s);
      assert Start(pollers, s).pull.workers[1..] == Start(pollers - 1, s).pull.workers;
      assert Start(pollers, s).limits[1..] == Start(pollers - 1, s).limits;
    }
  }

  lemma StartInv(c: Config, p: Sizer.Params, pollers: nat, s: Sizer.Sizer)
    requires Sound(p, s)
    ensures LossInv(c, p, Start(pollers, s))
    ensures Left(p, Start(pollers, s)) == 2 * (pollers + 1) * Budget(p, s) + 20 * pollers
  {
    InitInv(c, pollers);
    StartWeights(pollers, s);
  }

  /** The whole pipeline stops retrying: over every interleaving, the workers together make at most
      this many steps, and so lose at most this many requests. */
  lemma LossesAreBounded(c: Config, p: Sizer.Params, pollers: nat, s: Sizer.Sizer, events: seq<Event>, t: Losing)
    requires Sound(p, s) && Leads(c, p, Start(pollers, s), events, t)
    ensures WorkerEvents(events) <= 2 * (pollers + 1) * Budget(p, s) + 20 * pollers
  {
    hide LossInv, Left;
    StartInv(c, p, pollers, s);
    LossRuns(c, p, Start(pollers, s), events, t);
    SameShape(c, p, t);
    LeftIsNatural(c, p, t);
  }

  lemma LeftIsNatural(c: Config, p: Sizer.Params, l: Losing)
    requires LossInv(c, p, l)
    ensures 0 <= Left(p, l)
  {
    hide ClientInv, Budget;
    BudgetIsNatural(p, l.sizer);
    assert 2 * (|l.limits| + 1) * Budget(p, l.sizer) >= 0;
  }

  /** Read returns an error now, or as soon as it takes the next result from the channel. */
  predicate ReadFails(s: State) {
    s.reader.terminal.Some? || (NeedsChannel(s.reader) && s.channel != [] && s.channel[0].Fault?)
  }

  lemma NothingDelivered(c: Config, p: Sizer.Params, l: Losing)
    requires LossInv(c, p, l)
    ensures l.pull.delivered == [] && !ReadReturnsEof(l.pull)
    ensures l.pull.reader.terminal.None? && l.pull.channel != [] ==> ReadFails(l.pull)
    ensures l.pull.reader.terminal.None? && l.pull.channel == [] ==> Stopped !in l.pull.workers
  {
    hide EverySeqOnce, WorkersOk, Sound, Bare;
    if l.pull.channel != [] {
      assert l.pull.channel[0] in l.pull.channel;
    }
  }

  /** And Read returns the error: nothing is ever delivered, the end is never reported, and once no
      worker can take a step any more, Read fails. */
  lemma LossesReachTheReader(c: Config, p: Sizer.Params, pollers: nat, s: Sizer.Sizer, events: seq<Event>, t: Losing)
    requires Sound(p, s) && Leads(c, p, Start(pollers, s), events, t)
    requires pollers >= 1 && c.capacity >= 1
    ensures t.pull.delivered == [] && !ReadReturnsEof(t.pull)
    ensures ReadFails(t.pull) || exists e :: ByWorker(e) && May(c, p, t, e)
  {
    hide Left, LossInv, ReadReturnsEof, May, Leads, ByWorker;
    StartInv(c, p, pollers, s);
    LossRuns(c, p, Start(pollers, s), events, t);
    SameShape(c, p, t);
    WorkersRemain(c, p, Start(pollers, s), events, t);
    NothingDelivered(c, p, t);
    if t.pull.reader.terminal.None? && t.pull.channel == [] {
      assert t.pull.workers[0] in t.pull.workers;
      CanStep(c, p, t);
    }
  }

  lemma CanStep(c: Config, p: Sizer.Params, l: Losing)
    requires c.capacity >= 1 && l.pull.channel == [] && |l.limits| == |l.pull.workers| >= 1
    requires l.pull.workers[0] != Stopped
    ensures exists e :: ByWorker(e) && May(c, p, l, e)
  {
    match l.pull.workers[0] {
      case Free => assert May(c, p, l, Claim(0));
      case Fetching(_, _, _, _) => assert May(c, p, l, Ask(0));
      case Asking(_, _, _, _, _) => assert May(c, p, l, Answer(0, Lost(Sizer.CannotShrink(p, l.sizer, l.limits[0]))));
      case Sending(_) => assert May(c, p, l, Send(0));
      case Stopped =>
    }
  }

  lemma {:induction false} WorkersRemain(c: Config, p: Sizer.Params, l: Losing, events: seq<Event>, t: Losing)
    requires Leads(c, p, l, events, t)
    ensures |t.pull.workers| == |l.pull.workers|
    decreases |events|
  {
    if events != [] {
      WorkersRemain(c, p, Next(c, p, l, events[0]), events[1..], t);
    }
  }
}
