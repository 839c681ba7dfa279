/** The startup search for a wire and header profile (wireselect.go): candidates are probed by
    concurrent goroutines, at most `threads` at a time, that report through a channel of the same
    capacity; the first validated result wins and the rest are left behind.

    A run is any sequence of enabled events, so any completion order and any spacing in time.
    Candidates are their positions in the list; `valid` is what probing each one reports. */
module Discovery {
  import opened Numbers
  import opened Bytes
  import opened Wrappers
  import Cover

  datatype Outcome = Searching | Found(candidate: nat) | NothingFound

  /** `rejected` are the candidates whose failure has been received. */
  datatype State = State(
    next: nat, inflight: nat, running: set<nat>, buffered: seq<nat>, rejected: set<nat>, outcome: Outcome)

  datatype Config = Config(candidates: nat, threads: nat, valid: nat -> bool)

  /** The clamp of probeThreads to 1..16. */
  function Threads(probeThreads: int): (n: nat)
    ensures 1 <= n <= 16
    ensures (1 <= probeThreads <= 16 ==> n == probeThreads) && (probeThreads < 1 ==> n == 1)
    ensures probeThreads > 16 ==> n == 16
  {
    if probeThreads < 1 then 1 else if probeThreads > 16 then 16 else probeThreads
  }

  datatype Event =
    | Launch             // start probing the next candidate
    | Finish(i: nat)     // a probe sends its result
    | Receive            // the loop takes the oldest result
    | GiveUp             // the loop ends with nothing left to launch or to wait for

  predicate CanLaunch(c: Config, s: State) {
    s.next < c.candidates && s.inflight < c.threads
  }

  predicate Enabled(c: Config, s: State, e: Event) {
    match e
    case Launch => s.outcome.Searching? && CanLaunch(c, s)
    case Finish(i) => i in s.running && |s.buffered| < c.threads
    case Receive => s.outcome.Searching? && s.buffered != []
    case GiveUp => s.outcome.Searching? && s.next >= c.candidates && s.inflight == 0
  }

  function Apply(c: Config, s: State, e: Event): State
    requires Enabled(c, s, e)
  {
    match e
    case Launch => s.(next := s.next + 1, inflight := s.inflight + 1, running := s.running + {s.next})
    case Finish(i) => s.(running := s.running - {i}, buffered := s.buffered + [i])
    case Receive =>
      var i := s.buffered[0];
      var t := s.(buffered := s.buffered[1..], inflight := if s.inflight > 0 then s.inflight - 1 else 0);
      if c.valid(i) then t.(outcome := Found(i)) else t.(rejected := s.rejected + {i})
    case GiveUp => s.(outcome := NothingFound)
  }

  const INIT := State(0, 0, {}, [], {}, Searching)

  predicate Reaches(c: Config, s: State, events: seq<Event>, t: State)
    decreases |events|
  {
    if events == [] then s == t
    else Enabled(c, s, events[0]) && Reaches(c, Apply(c, s, events[0]), events[1..], t)
  }

  // ---------------------------------------------------------------- invariant

  /** How many places candidate i is in: being probed, waiting in the channel, rejected, or chosen. */
  ghost function Places(s: State, i: nat): nat {
    One(i in s.running) + multiset(s.buffered)[i] + One(i in s.rejected) + One(s.outcome == Found(i))
  }

  ghost predicate Inv(c: Config, s: State) {
    && (forall i: nat :: Places(s, i) == One(i < s.next))
    && s.next <= c.candidates
    && |s.running| + |s.buffered| == s.inflight <= c.threads
    && (forall i :: i in s.rejected ==> !c.valid(i))
    && (s.outcome.Found? ==> c.valid(s.outcome.candidate))
    && (s.outcome.NothingFound? ==> s.next == c.candidates && s.inflight == 0)
  }

  lemma FinishStep(c: Config, s: State, i: nat)
    requires Inv(c, s) && Enabled(c, s, Finish(i))
    ensures Inv(c, Apply(c, s, Finish(i)))
  {
    var t := Apply(c, s, Finish(i));
    forall k: nat ensures Places(t, k) == One(k < t.next) {
      assert Places(s, k) == One(k < s.next);
    }
  }

  lemma ReceiveStep(c: Config, s: State)
    requires Inv(c, s) && Enabled(c, s, Receive)
    ensures Inv(c, Apply(c, s, Receive))
  {
    var t := Apply(c, s, Receive);
    assert s.buffered == [s.buffered[0]] + t.buffered;
    forall k: nat ensures Places(t, k) == One(k < t.next) {
      assert Places(s, k) == One(k < s.next);
    }
  }

  lemma LaunchStep(c: Config, s: State)
    requires Inv(c, s) && Enabled(c, s, Launch)
    ensures Inv(c, Apply(c, s, Launch)) && s.next !in s.running
  {
    var t := Apply(c, s, Launch);
    assert Places(s, s.next) == 0;
    forall k: nat ensures Places(t, k) == One(k < t.next) {
      assert Places(s, k) == One(k < s.next);
    }
  }

  lemma Step(c: Config, s: State, e: Event)
    requires Inv(c, s) && Enabled(c, s, e)
    ensures Inv(c, Apply(c, s, e))
  {
    match e {
      case Launch => LaunchStep(c, s);
      case Finish(i) => FinishStep(c, s, i);
      case Receive => ReceiveStep(c, s);
      case GiveUp =>
        forall k: nat ensures Places(Apply(c, s, e), k) == One(k < s.next) {
          assert Places(s, k) == One(k < s.next);
        }
    }
  }

  lemma {:induction false} Runs(c: Config, s: State, events: seq<Event>, t: State)
    requires Inv(c, s) && Reaches(c, s, events, t)
    ensures Inv(c, t)
    decreases |events|
  {
    if events != [] {
      Step(c, s, events[0]);
      Runs(c, Apply(c, s, events[0]), events[1..], t);
    }
  }

  // ---------------------------------------------------------------- results

  /** In every reachable state, also long after an early return, a finishing probe finds room in
      the channel: none ever blocks. Each candidate was launched at most once. */
  lemma ProbesNeverBlock(c: Config, events: seq<Event>, s: State)
    requires Reaches(c, INIT, events, s)
    ensures |s.running| + |s.buffered| <= c.threads
    ensures forall i :: i in s.running ==> Enabled(c, s, Finish(i))
    ensures forall i :: i in s.running ==> i !in s.buffered && i !in s.rejected
  {
    Runs(c, INIT, events, s);
    forall i | i in s.running ensures Enabled(c, s, Finish(i)) && i !in s.buffered && i !in s.rejected {
      assert |s.running| >= 1 by { assert s.running == s.running - {i} + {i}; }
      assert Places(s, i) == One(i < s.next);
      assert i in s.buffered ==> multiset(s.buffered)[i] > 0;
    }
  }

  /** Success returns a validated candidate, and every candidate before it that was not rejected is
      still being probed; failure means every candidate was probed and rejected. */
  lemma OutcomeIsRight(c: Config, events: seq<Event>, s: State)
    requires Reaches(c, INIT, events, s)
    ensures s.outcome.Found? ==>
              && s.outcome.candidate < c.candidates && c.valid(s.outcome.candidate)
              && forall i :: 0 <= i < s.next && i != s.outcome.candidate ==>
                   (i in s.rejected && !c.valid(i)) || i in s.running || i in s.buffered
    ensures s.outcome.NothingFound? ==> forall i :: 0 <= i < c.candidates ==> i in s.rejected && !c.valid(i)
  {
    Runs(c, INIT, events, s);
    forall i | 0 <= i < s.next && s.outcome != Found(i)
      ensures (i in s.rejected && !c.valid(i)) || i in s.running || i in s.buffered
    {
      assert Places(s, i) == 1;
    }
    if s.outcome.Found? {
      assert Places(s, s.outcome.candidate) >= 1;
    }
    if s.outcome.NothingFound? {
      assert s.running == {} && s.buffered == [];
    }
  }

  /** One thread at a time: no candidate is launched before the one before it was rejected. */
  ghost predicate InOrder(s: State) {
    forall i :: 0 <= i && i + s.inflight + One(s.outcome.Found?) < s.next ==> i in s.rejected
  }

  lemma {:induction false} OneThreadRuns(c: Config, s: State, events: seq<Event>, t: State)
    requires c.threads == 1 && Inv(c, s) && InOrder(s)
    requires s.outcome.Found? ==> s.outcome.candidate + 1 == s.next && s.inflight == 0
    requires Reaches(c, s, events, t)
    ensures Inv(c, t) && InOrder(t) && (t.outcome.Found? ==> t.outcome.candidate + 1 == t.next && t.inflight == 0)
    decreases |events|
  {
    if events != [] {
      var u := Apply(c, s, events[0]);
      Step(c, s, events[0]);
      if events[0].Receive? {
        var i := s.buffered[0];
        assert multiset(s.buffered)[i] > 0;
        assert Places(s, i) == One(i < s.next);
        assert i + 1 == s.next;
      }
      assert InOrder(u);
      OneThreadRuns(c, u, events[1..], t);
    }
  }

  /** With one thread the first valid candidate wins. */
  lemma FirstValidWins(c: Config, events: seq<Event>, s: State)
    requires c.threads == 1 && Reaches(c, INIT, events, s) && s.outcome.Found?
    ensures c.valid(s.outcome.candidate) && forall i :: 0 <= i < s.outcome.candidate ==> !c.valid(i)
  {
    OneThreadRuns(c, INIT, events, s);
    assert forall i :: 0 <= i < s.outcome.candidate ==> i in s.rejected;
  }

  /** What is left to do: each launch and each result received takes one off. */
  function Remaining(c: Config, s: State): int {
    2 * (c.candidates - s.next) + s.inflight
  }

  /** The search cannot get stuck and cannot go on for ever: until it has an outcome, something can
      happen, and its own launches and receives use up Remaining. */
  lemma SearchEnds(c: Config, events: seq<Event>, s: State)
    requires c.threads >= 1 && Reaches(c, INIT, events, s) && s.outcome.Searching?
    ensures 0 <= Remaining(c, s)
    ensures Enabled(c, s, Launch) || Enabled(c, s, Receive) || Enabled(c, s, GiveUp)
              || exists i :: Enabled(c, s, Finish(i))
    ensures Enabled(c, s, Launch) ==> Remaining(c, Apply(c, s, Launch)) == Remaining(c, s) - 1
    ensures Enabled(c, s, Receive) ==> Remaining(c, Apply(c, s, Receive)) == Remaining(c, s) - 1
  {
    Runs(c, INIT, events, s);
    if s.buffered == [] && s.running != {} {
      var i :| i in s.running;
      assert Enabled(c, s, Finish(i));
    }
  }

  // ---------------------------------------------------------------- the program's own form

  /** A success is a validated candidate, and the first one if only one probe runs at a time; a
      failure means that none validates. */
  predicate Right(c: Config, outcome: Outcome) {
    match outcome
    case Searching => true
    case Found(i) => i < c.candidates && c.valid(i) && (c.threads == 1 ==> forall k: nat :: k < i ==> !c.valid(k))
    case NothingFound => forall k: nat :: k < c.candidates ==> !c.valid(k)
  }

  lemma RunsEndRight(c: Config, events: seq<Event>, s: State)
    requires Reaches(c, INIT, events, s)
    ensures Right(c, s.outcome)
  {
    OutcomeIsRight(c, events, s);
    if c.threads == 1 && s.outcome.Found? {
      FirstValidWins(c, events, s);
    }
  }

  /** What can happen while the loop is busy or waiting. */
  datatype Signal = DelayOver | Done(i: nat)

  /** Nothing happens but the delay passing before each turn: no probe finishes. */
  predicate OnlyDelays(turns: seq<seq<Signal>>) {
    forall t :: t in turns ==> DelayOver in t && Unfinished(t)
  }

  predicate Unfinished(signals: seq<Signal>) {
    forall s :: s in signals ==> !s.Done?
  }

  /** detectLocked, turn by turn: `turns[k]` is all that happens before turn k, so any number of
      probes may have finished before one result is received, and a launch may come while results
      are waiting. `Searching` means the loop is still waiting when the turns are used up. Whatever
      it does is a run of the step system. While no probe finishes, each delay that passes launches one
      more, up to the number of threads. */
  method DetectLocked(c: Config, turns: seq<seq<Signal>>)
    returns (outcome: Outcome, ghost events: seq<Event>, ghost last: State)
    ensures Reaches(c, INIT, events, last) && outcome == last.outcome
    ensures Right(c, outcome)
    ensures outcome.Searching? ==> last.buffered == [] && (last.next > 0 <==> c.candidates > 0 && c.threads > 0)
    ensures OnlyDelays(turns) && c.candidates > 0 && c.threads > 0 ==>
              && outcome.Searching? && last.inflight == last.next
              && last.next == Min(Max(1, |turns|), Min(c.candidates, c.threads))
  {
    hide Places, Enabled, Inv, Right, Reaches, OnlyDelays, Unfinished;
    ghost var quiet, most := OnlyDelays(turns) && c.candidates > 0 && c.threads > 0, Min(c.candidates, c.threads);
    var next: nat, inflight: nat, due := 0, 0, true;
    var running: set<nat>, buffered: seq<nat> := {}, [];
    ghost var rejected: set<nat> := {};
    events := [];
    StartsSound(c);
    var k := 0;
    while next < c.candidates || inflight > 0
      invariant 0 <= k <= |turns| && next <= c.candidates
      invariant next > 0 ==> c.threads > 0
      invariant next == 0 ==> due && inflight == 0 && buffered == []
      invariant quiet ==> buffered == [] && inflight == next && (next > 0 ==> next >= most || !due)
      invariant quiet ==> next == if |turns| == 0 then Min(next, 1) else Min(k, most)
      invariant Reaches(c, INIT, events, State(next, inflight, running, buffered, rejected, Searching))
      invariant Inv(c, State(next, inflight, running, buffered, rejected, Searching))
      decreases |turns| - k, 2 * (c.candidates - next) + inflight
    {
      var turnsOver := k == |turns|;
      if !turnsOver {
        ghost var s := State(next, inflight, running, buffered, rejected, Searching);
        var delayOver;
        ghost var more;
        if quiet {
          DelayAt(turns, k);
        }
        delayOver, running, buffered, more := Meanwhile(c, turns[k], running, buffered, events, s);
        events := events + more;
        due, k := due || delayOver, k + 1;
      }
      ghost var s := State(next, inflight, running, buffered, rejected, Searching);
      var canLaunch := next < c.candidates && inflight < c.threads;
      if canLaunch && due {
        CanLaunchNow(c, s);
        ReachesThen(c, INIT, events, s, Launch);
        Step(c, s, Launch);
        events := events + [Launch];
        running := running + {next};
        next, inflight, due := next + 1, inflight + 1, false;
        continue;
      }
      if buffered == [] {
        if turnsOver {
          RunsEndRight(c, events, s);
          return Searching, events, s;
        }
        continue;
      }
      var got := buffered[0];
      CanReceiveNow(c, s);
      ReachesThen(c, INIT, events, s, Receive);
      Step(c, s, Receive);
      events := events + [Receive];
      InFlightPositive(c, s);
      buffered, inflight := buffered[1..], inflight - 1;
      if c.valid(got) {
        last := State(next, inflight, running, buffered, rejected, Found(got));
        RunsEndRight(c, events, last);
        return Found(got), events, last;
      }
      rejected := rejected + {got};
    }
    last := State(next, inflight, running, buffered, rejected, Searching);
    CanGiveUpNow(c, last);
    ReachesThen(c, INIT, events, last, GiveUp);
    events, last := events + [GiveUp], last.(outcome := NothingFound);
    RunsEndRight(c, events, last);
    return NothingFound, events, last;
  }

  /** The probes that finish before the next turn put their results into the channel; a signal from
      a probe that is not running is none. */
  method Meanwhile(
      c: Config, signals: seq<Signal>, running0: set<nat>, buffered0: seq<nat>, ghost events: seq<Event>,
      ghost s: State)
    returns (delayOver: bool, running: set<nat>, buffered: seq<nat>, ghost more: seq<Event>)
    requires s.running == running0 && s.buffered == buffered0 && Reaches(c, INIT, events, s) && Inv(c, s)
    ensures var t := s.(running := running, buffered := buffered); Reaches(c, INIT, events + more, t) && Inv(c, t)
    ensures delayOver <==> DelayOver in signals
    ensures Unfinished(signals) ==> buffered == buffered0
    ensures buffered0 <= buffered && (buffered == buffered0 <==> running == running0)
    ensures forall i :: Done(i) in signals ==> i !in running
    ensures forall i :: i in running0 && i !in running ==> i in buffered
  {
    hide Places, Enabled, Inv, Reaches;
    delayOver, running, buffered, more := false, running0, buffered0, [];
    assert events + [] == events;
    for k := 0 to |signals|
      invariant var t := s.(running := running, buffered := buffered); Reaches(c, INIT, events + more, t) && Inv(c, t)
      invariant delayOver <==> DelayOver in signals[..k]
      invariant Unfinished(signals) ==> buffered == buffered0
      invariant buffered0 <= buffered && running <= running0 && (buffered == buffered0 <==> running == running0)
      invariant forall i :: Done(i) in signals[..k] ==> i !in running
      invariant forall i :: i in running0 && i !in running ==> i in buffered
    {
      assert signals[..k + 1] == signals[..k] + [signals[k]];
      var signal := signals[k];
      if signal == DelayOver {
        delayOver := true;
      } else if signal.i in running {
        ghost var t := s.(running := running, buffered := buffered);
        Room(c, t, signal.i);
        ReachesThen(c, INIT, events + more, t, Finish(signal.i));
        Step(c, t, Finish(signal.i));
        assert events + more + [Finish(signal.i)] == events + (more + [Finish(signal.i)]);
        more := more + [Finish(signal.i)];
        assert signal.i in running0 && running - {signal.i} != running0;
        running, buffered := running - {signal.i}, buffered + [signal.i];
      }
    }
    assert signals[..|signals|] == signals;
  }

  lemma DelayAt(turns: seq<seq<Signal>>, k: nat)
    requires OnlyDelays(turns) && k < |turns|
    ensures DelayOver in turns[k] && Unfinished(turns[k])
  {
  }

  lemma CanLaunchNow(c: Config, s: State)
    requires s.outcome.Searching? && CanLaunch(c, s)
    ensures Enabled(c, s, Launch)
  {
  }

  lemma CanReceiveNow(c: Config, s: State)
    requires s.outcome.Searching? && s.buffered != []
    ensures Enabled(c, s, Receive)
  {
  }

  lemma CanGiveUpNow(c: Config, s: State)
    requires s.outcome.Searching? && s.next >= c.candidates && s.inflight == 0
    ensures Enabled(c, s, GiveUp)
  {
  }

  lemma StartsSound(c: Config)
    ensures Inv(c, INIT) && Reaches(c, INIT, [], INIT)
  {
  }

  lemma InFlightPositive(c: Config, s: State)
    requires Inv(c, s) && s.buffered != []
    ensures s.inflight > 0
  {
  }

  /** A probe that finishes finds room in the channel. */
  lemma Room(c: Config, s: State, i: nat)
    requires Inv(c, s) && i in s.running
    ensures Enabled(c, s, Finish(i))
  {
    assert s.running == s.running - {i} + {i};
  }

  lemma {:induction false} ReachesThen(c: Config, s: State, events: seq<Event>, t: State, e: Event)
    requires Reaches(c, s, events, t) && Enabled(c, t, e)
    ensures Reaches(c, s, events + [e], Apply(c, t, e))
    decreases |events|
  {
    if events == [] {
      assert (events + [e])[1..] == [];
    } else {
      assert (events + [e])[1..] == events[1..] + [e];
      ReachesThen(c, Apply(c, s, events[0]), events[1..], t, e);
    }
  }

  // ---------------------------------------------------------------- the cached choice

  datatype Wire = B | BP | X | Auto

  datatype Choice = Choice(mode: Wire, mask: byte, cover: Cover.Profile)

  const NO_COVER := Cover.Profile(false, 0, 0, 0, false, false)

  function ForcedClearChoice(mode: Wire, mask: byte): Choice {
    Choice(mode, mask, Cover.Profile(true, if mask == 0x25 then 0x65 else 0, 0, mask, false, true))
  }

  /** profileCandidates when clear payloads are forced. */
  function ClearCandidates(configured: Wire): seq<Choice> {
    match configured
    case B => [ForcedClearChoice(B, 0), ForcedClearChoice(B, 0x25)]
    case BP => [ForcedClearChoice(BP, 0), ForcedClearChoice(BP, 0x25)]
    case Auto =>
      [ForcedClearChoice(B, 0), ForcedClearChoice(BP, 0), ForcedClearChoice(B, 0x25), ForcedClearChoice(BP, 0x25)]
    case X => []
  }

  /** With forced clear payloads every B or BP wire of the family is tried with both masks, and
      nothing else. */
  lemma ClearCandidatesAre(configured: Wire, choice: Choice)
    ensures choice in ClearCandidates(configured) <==>
              && (choice == ForcedClearChoice(choice.mode, 0) || choice == ForcedClearChoice(choice.mode, 0x25))
              && (choice.mode == B || choice.mode == BP) && (configured == Auto || configured == choice.mode)
    ensures configured != X ==>
              && ClearCandidates(configured) != []
              && ClearCandidates(configured)[0] == ForcedClearChoice(if configured == Auto then B else configured, 0)
  {
    assert ClearCandidates(Auto)[0] == ForcedClearChoice(B, 0) && ClearCandidates(Auto)[1] == ForcedClearChoice(BP, 0);
    assert ClearCandidates(Auto)[2] == ForcedClearChoice(B, 0x25);
    assert ClearCandidates(Auto)[3] == ForcedClearChoice(BP, 0x25);
    assert ClearCandidates(B)[1] == ForcedClearChoice(B, 0x25);
    assert ClearCandidates(BP)[1] == ForcedClearChoice(BP, 0x25);
  }

  /** main refuses to combine forced clear payloads with the X wire. */
  predicate MainAccepts(configured: Wire, forceClear: bool) {
    !(forceClear && configured == X)
  }

  /** What detection can return: a candidate of the configured family, clear if that is forced. */
  predicate Detectable(configured: Wire, forceClear: bool, detected: Option<Choice>) {
    detected.Some? ==>
      if forceClear then detected.value in ClearCandidates(configured)
      else detected.value.mode != Auto && (configured == Auto || detected.value.mode == configured)
  }

  class WireSelector {
    const configured: Wire
    const forceClear: bool
    var resolved: Choice
    var hasChoice: bool

    /** A cached choice is of the configured family, and clear if that is forced. */
    predicate Valid()
      reads this
    {
      && MainAccepts(configured, forceClear)
      && (hasChoice ==> Keeps(resolved))
    }

    predicate Keeps(choice: Choice) {
      && choice.mode != Auto && (configured == Auto || choice.mode == configured)
      && (forceClear ==> choice.cover.clear)
    }

    constructor (configured: Wire, forceClear: bool)
      requires MainAccepts(configured, forceClear)
      ensures Valid() && this.configured == configured && this.forceClear == forceClear && !hasChoice
    {
      this.configured, this.forceClear := configured, forceClear;
      resolved, hasChoice := Choice(configured, 0, NO_COVER), false;
    }

    /** The choice in force, if there is one. */
    function Cached(): Option<Choice>
      reads this
    {
      if hasChoice then Some(resolved) else None
    }

    /** mode(), given what detection finds if it has to run. A found choice is kept for ever; a
        failure is not cached. Cached or fallback, the choice stays in the configured family, and
        under forced clear payloads it is clear. */
    method Mode(detected: Option<Choice>) returns (choice: Choice)
      requires Valid() && Detectable(configured, forceClear, detected)
      modifies this
      ensures Valid() && Keeps(choice)
      ensures Cached() == if old(Cached()).Some? then old(Cached()) else detected
      ensures Cached().Some? ==> choice == Cached().value
      ensures Cached().None? ==> choice.mode == if configured == Auto then B else configured
      ensures Cached().None? && !forceClear ==> choice.cover == NO_COVER
    {
      if hasChoice {
        return resolved;
      }
      if detected.Some? {
        resolved, hasChoice := detected.value, true;
        return detected.value;
      }
      if forceClear {
        var candidates := ClearCandidates(configured);
        if |candidates| > 0 {
          return candidates[0];
        }
      }
      match configured {
        case BP => return Choice(BP, 0, NO_COVER);
        case X => return Choice(X, 0, NO_COVER);
        case _ => return Choice(B, 0, NO_COVER);
      }
    }

    /** resolveOnly(): the same cache, but a failure is reported instead of falling back. */
    method ResolveOnly(detected: Option<Choice>) returns (choice: Option<Choice>)
      requires Valid() && Detectable(configured, forceClear, detected)
      modifies this
      ensures Valid() && (choice.Some? ==> Keeps(choice.value))
      ensures Cached() == if old(Cached()).Some? then old(Cached()) else detected
      ensures choice == Cached()
    {
      if hasChoice {
        return Some(resolved);
      }
      if detected.None? {
        return None;
      }
      resolved, hasChoice := detected.value, true;
      return detected;
    }
  }
}
