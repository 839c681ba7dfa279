/** Startup calibration of the record size (chunk.go and internal/xorchunk/chunk.go): an ascent by
    a factor of four followed by a binary refinement, with a two-of-three confirmation in which
    timeouts never vote, and the older search that starts from the maximum.

    Probing is an arbitrary function from the probe's index and size to an answer. Both searches
    return the log of what they asked, and their results are specified by that log. */
module Calibration {
  import opened Numbers
  import opened Bytes

  datatype Answer = Good | Bad | Timeout

  datatype Probe = Probe(size: nat, answer: Answer)

  type Carrier = (nat, nat) -> Answer

  /** The log is what this carrier answers, probe by probe. */
  predicate Answered(carrier: Carrier, log: seq<Probe>) {
    forall i :: 0 <= i < |log| ==> log[i].answer == carrier(i, log[i].size)
  }

  function Count(log: seq<Probe>, x: Probe): nat {
    if log == [] then 0
    else Count(log[..|log| - 1], x) + if log[|log| - 1] == x then 1 else 0
  }

  lemma CountAppend(log: seq<Probe>, y: Probe, x: Probe)
    ensures Count(log + [y], x) == Count(log, x) + if y == x then 1 else 0
  {
    assert (log + [y])[..|log|] == log;
  }

  lemma {:induction false} CountMember(log: seq<Probe>, x: Probe)
    requires Count(log, x) > 0
    ensures x in log
  {
    if log[|log| - 1] != x {
      CountMember(log[..|log| - 1], x);
    }
  }

  lemma {:induction false} CountAbsent(log: seq<Probe>, x: Probe)
    requires forall y :: y in log ==> y.size != x.size
    ensures Count(log, x) == 0
  {
    if log != [] {
      assert log[|log| - 1] in log;
      assert forall y :: y in log[..|log| - 1] ==> y in log;
      CountAbsent(log[..|log| - 1], x);
    }
  }

  function Votes(obs: seq<Answer>, a: Answer): nat {
    if obs == [] then 0
    else Votes(obs[..|obs| - 1], a) + if obs[|obs| - 1] == a then 1 else 0
  }

  lemma VotesAppend(obs: seq<Answer>, answer: Answer, a: Answer)
    ensures Votes(obs + [answer], a) == Votes(obs, a) + if answer == a then 1 else 0
    ensures Votes([answer], a) == if answer == a then 1 else 0
  {
    assert (obs + [answer])[..|obs|] == obs;
    assert [answer][..0] == [];
  }

  /** The log entries for consecutive observations of one size. */
  function Observed(size: nat, obs: seq<Answer>): seq<Probe> {
    seq(|obs|, i requires 0 <= i < |obs| => Probe(size, obs[i]))
  }

  lemma {:induction false} CountObserved(log: seq<Probe>, size: nat, obs: seq<Answer>, a: Answer)
    requires forall x :: x in log ==> x.size != size
    ensures Count(log + Observed(size, obs), Probe(size, a)) == Votes(obs, a)
    decreases |obs|
  {
    if obs == [] {
      assert log + Observed(size, obs) == log;
      CountAbsent(log, Probe(size, a));
    } else {
      var init := obs[..|obs| - 1];
      CountObserved(log, size, init, a);
      assert log + Observed(size, obs) == (log + Observed(size, init)) + [Probe(size, obs[|obs| - 1])];
      CountAppend(log + Observed(size, init), Probe(size, obs[|obs| - 1]), Probe(size, a));
    }
  }

  const DECISION_ATTEMPTS := 3

  /** confirmIperfResult / confirmCalibrationResult: after a first observation of `size`, ask again
      until two successes or two non-timeout failures, at most three observations in all. */
  method Confirm(carrier: Carrier, at: nat, size: nat, first: Answer) returns (verdict: Answer, obs: seq<Answer>)
    requires first == carrier(at, size)
    ensures 1 <= |obs| <= 3 && obs[0] == first
    ensures forall k :: 0 <= k < |obs| ==> obs[k] == carrier(at + k, size)
    ensures verdict == Good <==> Votes(obs, Good) >= 2
    ensures verdict == Bad <==> Votes(obs, Bad) >= 2
    ensures verdict == Timeout ==> Votes(obs, Timeout) >= 1 && |obs| == 3
    ensures carrier(at + 1, size) == first != Timeout ==> |obs| == 2 && verdict == first
  {
    hide Votes;
    obs := [first];
    forall a { VotesAppend([], first, a); }
    var successes := if first == Good then 1 else 0;
    var failures := if first == Bad then 1 else 0;
    var sawTimeout := first == Timeout;
    var attempt := 2;
    while attempt <= DECISION_ATTEMPTS && successes < 2 && failures < 2
      invariant 2 <= attempt <= 4 && |obs| == attempt - 1 && obs[0] == first && (attempt == 2 ==> obs == [first])
      invariant forall k :: 0 <= k < |obs| ==> obs[k] == carrier(at + k, size)
      invariant successes == Votes(obs, Good) && failures == Votes(obs, Bad)
      invariant sawTimeout <==> Votes(obs, Timeout) > 0
      invariant successes + failures + Votes(obs, Timeout) == |obs|
      invariant attempt > 2 && carrier(at + 1, size) == first != Timeout ==>
                  && attempt == 3 && successes == (if first == Good then 2 else 0)
                  && failures == (if first == Bad then 2 else 0)
      invariant successes <= 2 && failures <= 2 && !(successes == 2 && failures == 2)
    {
      var answer := carrier(at + |obs|, size);
      forall a { VotesAppend(obs, answer, a); }
      obs := obs + [answer];
      match answer {
        case Good => successes := successes + 1;
        case Bad => failures := failures + 1;
        case Timeout => sawTimeout := true;
      }
      attempt := attempt + 1;
    }
    if successes >= 2 {
      return Good, obs;
    }
    if failures >= 2 {
      return Bad, obs;
    }
    if sawTimeout {
      return Timeout, obs;
    }
    return if successes > failures then Good else Bad, obs;
  }

  // ---------------------------------------------------------------- what a search may conclude

  /** The size was accepted: by its only probe, or by two successes. */
  predicate Accepted(log: seq<Probe>, size: nat) {
    && Count(log, Probe(size, Good)) >= 1
    && (Count(log, Probe(size, Good)) >= 2
        || (Count(log, Probe(size, Bad)) == 0 && Count(log, Probe(size, Timeout)) == 0))
  }

  predicate Rejected(log: seq<Probe>, size: nat) {
    Count(log, Probe(size, Bad)) >= 2
  }

  /** Nothing larger than `size` was accepted. */
  ghost predicate Best(log: seq<Probe>, size: nat) {
    forall n: nat :: Accepted(log, n) ==> n <= size
  }

  /** The last size asked about is `size`, it has a timeout, and it was left undecided. */
  predicate LeftUndecided(log: seq<Probe>, size: nat) {
    && log != [] && log[|log| - 1].size == size
    && Count(log, Probe(size, Timeout)) >= 1 && !Accepted(log, size) && !Rejected(log, size)
  }

  /** The search was cut short at a size above its result, or at the floor it started from. */
  predicate CutShort(log: seq<Probe>, min: nat, result: nat) {
    && log != [] && LeftUndecided(log, log[|log| - 1].size)
    && (log[|log| - 1].size > result || log[|log| - 1].size == result == min)
  }

  /** Why an ascending search stopped at `result`: the ceiling, a size left undecided by timeouts, a
      size rejected within `fine` above it, or the floor itself being rejected. */
  predicate Stopped(log: seq<Probe>, min: nat, max: nat, fine: nat, result: nat) {
    || result == max
    || CutShort(log, min, result)
    || (exists b {:trigger Rejected(log, b)} :: result < b <= result + fine && b <= max && Rejected(log, b))
    || (result == min && Rejected(log, min))
  }

  /** The next size of the ascent. */
  function NextRung(min: nat, max: nat, size: nat): nat {
    Min(max, if size == min && size * 4 < 512 && max >= 512 then 512 else size * 4)
  }

  /** Refinement rounds needed to bring a gap down to `fine`. */
  function Rounds(gap: nat, fine: nat): nat
    requires fine >= 1
  {
    if gap <= fine then 0 else 1 + Rounds(gap - gap / 2, fine)
  }

  lemma {:induction false} RoundsMonotone(a: nat, b: nat, fine: nat)
    requires fine >= 1 && a <= b
    ensures Rounds(a, fine) <= Rounds(b, fine)
    decreases b
  {
    if a > fine {
      RoundsMonotone(a - a / 2, b - b / 2, fine);
    }
  }

  /** Either half of a gap needs a round less. */
  lemma HalvesNeedLess(gap: nat, fine: nat)
    requires fine >= 1 && gap > fine
    ensures Rounds(gap / 2, fine) + 1 <= Rounds(gap, fine)
    ensures Rounds(gap - gap / 2, fine) + 1 <= Rounds(gap, fine)
  {
    RoundsMonotone(gap / 2, gap - gap / 2, fine);
  }

  /** The most probes the search can still make when it is about to try `size` above `good`;
      `each` probes decide a size, `pass` of them when it passes in the ascent. */
  function Cost(min: nat, max: nat, fine: nat, pass: nat, each: nat, good: nat, size: nat): nat
    requires fine >= 1 && 1 <= size && size <= max
    decreases max - size
  {
    Max(pass + (if size >= max then 0 else Cost(min, max, fine, pass, each, size, NextRung(min, max, size))),
        each + (if good == 0 then 0 else each * Rounds(Max(0, size - good), fine)))
  }

  /** A carrier that passes sizes up to T, always, and never times out. */
  ghost predicate Steady(carrier: Carrier, T: nat) {
    forall i: nat, n: nat :: carrier(i, n) == if n <= T then Good else Bad
  }

  /** Probes at other sizes do not change what was learnt about this one. */
  lemma {:induction false} CountStays(log: seq<Probe>, after: seq<Probe>, x: Probe)
    requires log <= after
    requires forall i :: |log| <= i < |after| ==> after[i].size != x.size
    ensures Count(after, x) == Count(log, x)
    decreases |after|
  {
    if |after| > |log| {
      CountStays(log, after[..|after| - 1], x);
    } else {
      assert after == log;
    }
  }

  lemma LearntStays(log: seq<Probe>, after: seq<Probe>, size: nat)
    requires log <= after
    requires forall i :: |log| <= i < |after| ==> after[i].size != size
    ensures Accepted(log, size) == Accepted(after, size) && Rejected(log, size) == Rejected(after, size)
  {
    forall a { CountStays(log, after, Probe(size, a)); }
  }

  lemma OthersStay(log: seq<Probe>, after: seq<Probe>, size: nat)
    requires log <= after
    requires forall i :: |log| <= i < |after| ==> after[i].size == size
    ensures forall n: nat :: n != size ==> Accepted(after, n) == Accepted(log, n)
  {
    forall n: nat | n != size ensures Accepted(after, n) == Accepted(log, n) {
      LearntStays(log, after, n);
    }
  }

  lemma AcceptedWasAsked(log: seq<Probe>, lo: nat, hi: nat)
    requires SizesWithin(log, lo, hi)
    ensures Best(log, hi)
  {
    forall n: nat | Accepted(log, n) ensures n <= hi {
      CountMember(log, Probe(n, Good));
    }
  }

  predicate SizesWithin(log: seq<Probe>, lo: nat, hi: nat) {
    forall x :: x in log ==> lo <= x.size <= hi
  }

  /** Decides one size nobody has asked about yet: by one probe if that succeeds and `quick` allows
      it, by confirmation otherwise. */
  method Decide(carrier: Carrier, log: seq<Probe>, size: nat, quick: bool) returns (verdict: Answer, after: seq<Probe>)
    requires Answered(carrier, log) && forall x :: x in log ==> x.size != size
    ensures Answered(carrier, after)
    ensures log < after && |after| <= |log| + 3
    ensures forall i :: |log| <= i < |after| ==> after[i].size == size
    ensures verdict == Good <==> Accepted(after, size)
    ensures forall n: nat :: n != size ==> Accepted(after, n) == Accepted(log, n)
    ensures verdict == Bad ==> Rejected(after, size)
    ensures verdict == Timeout ==> LeftUndecided(after, size)
    ensures carrier(|log|, size) == carrier(|log| + 1, size) != Timeout ==>
              verdict == carrier(|log|, size) && |after| == |log| + if quick && verdict == Good then 1 else 2
  {
    verdict := carrier(|log|, size);
    if quick && verdict == Good {
      DecisionLog(carrier, log, size, [Good]);
      OthersStay(log, log + Observed(size, [Good]), size);
      return Good, log + Observed(size, [Good]);
    }
    var obs;
    verdict, obs := Confirm(carrier, |log|, size, verdict);
    DecisionLog(carrier, log, size, obs);
    after := log + Observed(size, obs);
    OthersStay(log, after, size);
  }

  lemma DecisionLog(carrier: Carrier, log: seq<Probe>, size: nat, obs: seq<Answer>)
    requires Answered(carrier, log) && obs != []
    requires forall x :: x in log ==> x.size != size
    requires forall k :: 0 <= k < |obs| ==> obs[k] == carrier(|log| + k, size)
    ensures var after := log + Observed(size, obs);
            && Answered(carrier, after) && log < after
            && (forall i :: |log| <= i < |after| ==> after[i].size == size)
            && (obs == [Good] || Votes(obs, Good) >= 2 ==> Accepted(after, size))
            && (Votes(obs, Good) < 2 && Votes(obs, Bad) + Votes(obs, Timeout) >= 1 ==> !Accepted(after, size))
            && (Votes(obs, Bad) >= 2 ==> Rejected(after, size))
            && (Votes(obs, Timeout) >= 1 && Votes(obs, Good) < 2 && Votes(obs, Bad) < 2 ==> LeftUndecided(after, size))
  {
    var after := log + Observed(size, obs);
    CountObserved(log, size, obs, Good);
    CountObserved(log, size, obs, Bad);
    CountObserved(log, size, obs, Timeout);
    if obs == [Good] {
      assert obs[..0] == [];
    }
    assert after[|after| - 1].size == size;
  }

  lemma CostCovers(min: nat, max: nat, fine: nat, pass: nat, each: nat, good: nat, size: nat)
    requires fine >= 1 && 1 <= size <= max && good < size
    ensures var c := Cost(min, max, fine, pass, each, good, size);
            && c >= pass + (if size >= max then 0 else Cost(min, max, fine, pass, each, size, NextRung(min, max, size)))
            && c >= each + (if good == 0 then 0 else each * Rounds(size - good, fine))
  {
  }

  /** The ascent: ends at the ceiling, at a timeout, or with a rejected size above `good` (0 if
      nothing has passed). */
  method Ascend(carrier: Carrier, min: nat, max: nat, ghost fine: nat, ghost T: nat)
    returns (good: nat, bad: nat, log: seq<Probe>)
    requires 32 <= min <= max && fine >= 1
    ensures Answered(carrier, log) && SizesWithin(log, min, max)
    ensures good == 0 || (min <= good <= max && Accepted(log, good))
    ensures Best(log, good)
    ensures bad == 0 ==> good == max || CutShort(log, min, if good == 0 then min else good)
    ensures bad > 0 ==> min <= bad <= max && good < bad && Rejected(log, bad)
    ensures bad > 0 ==> forall x :: x in log ==> x.size <= good || x.size == bad
    ensures bad > 0 && good == 0 ==> bad == min
    ensures |log| + (if bad > 0 && good > 0 then 3 * Rounds(bad - good, fine) else 0)
         <= Cost(min, max, fine, 3, 3, 0, min)
    ensures Steady(carrier, T) ==>
              |log| + (if bad > 0 && good > 0 then 2 * Rounds(bad - good, fine) else 0)
              <= Cost(min, max, fine, 1, 2, 0, min)
  {
    hide Count, Accepted, Rejected, Cost, Rounds;
    ghost var any, sure := Cost(min, max, fine, 3, 3, 0, min), Cost(min, max, fine, 1, 2, 0, min);
    log := [];
    good, bad := 0, 0;
    var candidate := min;
    if candidate < 32 { candidate := 32; }
    if candidate > max { candidate := max; }
    while true
      invariant good < candidate && min <= candidate <= max
      invariant Answered(carrier, log) && SizesWithin(log, min, good)
      invariant good == 0 ==> candidate == min
      invariant good > 0 ==> min <= good && Accepted(log, good)
      invariant |log| + Cost(min, max, fine, 3, 3, good, candidate) <= any
      invariant Steady(carrier, T) ==> |log| + Cost(min, max, fine, 1, 2, good, candidate) <= sure
      decreases max - candidate
    {
      ghost var before := log;
      var verdict;
      verdict, log := Decide(carrier, log, candidate, true);
      AcceptedWasAsked(before, min, good);
      CostCovers(min, max, fine, 3, 3, good, candidate);
      CostCovers(min, max, fine, 1, 2, good, candidate);
      if verdict == Good {
        good := candidate;
        if candidate >= max {
          return max, 0, log;
        }
        candidate := NextRung(min, max, candidate);
      } else if verdict == Timeout {
        return good, 0, log;
      } else {
        return good, candidate, log;
      }
    }
  }

  /** probeMaximum with resolution 32, calibrateMaximum with the fine resolution it is given. */
  method ProbeMaximum(carrier: Carrier, min: nat, max: nat, resolution: int, ghost T: nat)
    returns (result: nat, log: seq<Probe>, ghost fine: nat)
    requires 32 <= min <= max
    ensures fine == (if resolution < 1 then 32 else resolution)
    ensures Answered(carrier, log) && SizesWithin(log, min, max)
    ensures min <= result <= max
    ensures result > min ==> Accepted(log, result)
    ensures Best(log, result)
    ensures Stopped(log, min, max, fine, result)
    ensures |log| <= Cost(min, max, fine, 3, 3, 0, min)
    ensures Steady(carrier, T) ==> |log| <= Cost(min, max, fine, 1, 2, 0, min)
  {
    var step := if resolution < 1 then 32 else resolution;
    fine := step;
    var good, bad;
    good, bad, log := Ascend(carrier, min, max, fine, T);
    if good == 0 {
      return min, log, fine;
    }
    if bad == 0 {
      return good, log, fine;
    }
    result, log := Refine(carrier, min, max, step, good, bad, log, T);
  }

  /** The binary refinement between a size that passed and one that was rejected. */
  method Refine(carrier: Carrier, min: nat, max: nat, fine: nat, good0: nat, bad0: nat, log0: seq<Probe>, ghost T: nat)
    returns (result: nat, log: seq<Probe>)
    requires fine >= 1 && min <= good0 < bad0 <= max
    requires Answered(carrier, log0) && SizesWithin(log0, min, max)
    requires Accepted(log0, good0) && Best(log0, good0) && Rejected(log0, bad0)
    requires forall x :: x in log0 ==> x.size <= good0 || x.size >= bad0
    ensures Answered(carrier, log) && SizesWithin(log, min, max)
    ensures good0 <= result < bad0 && Accepted(log, result) && Best(log, result)
    ensures Stopped(log, min, max, fine, result)
    ensures |log| <= |log0| + 3 * Rounds(bad0 - good0, fine)
    ensures Steady(carrier, T) ==> |log| <= |log0| + 2 * Rounds(bad0 - good0, fine)
  {
    hide Accepted, Rejected, Count, Rounds;
    var good, bad := good0, bad0;
    log := log0;
    ghost var spent := 0;
    while bad - good > fine
      invariant good0 <= good < bad <= bad0
      invariant Answered(carrier, log) && SizesWithin(log, min, max)
      invariant Accepted(log, good) && Best(log, good) && Rejected(log, bad)
      invariant forall x :: x in log ==> x.size <= good || x.size >= bad
      invariant spent + Rounds(bad - good, fine) <= Rounds(bad0 - good0, fine)
      invariant |log| <= |log0| + 3 * spent
      invariant Steady(carrier, T) ==> |log| <= |log0| + 2 * spent
      decreases bad - good
    {
      HalvesNeedLess(bad - good, fine);
      spent := spent + 1;
      var verdict;
      good, bad, verdict, log := RefineRound(carrier, min, max, good, bad, log, T);
      if verdict == Timeout {
        return good, log;
      }
    }
    return good, log;
  }

  /** One round of the refinement: decide the middle of the bracket. */
  method RefineRound(carrier: Carrier, min: nat, max: nat, good0: nat, bad0: nat, log0: seq<Probe>, ghost T: nat)
    returns (good: nat, bad: nat, verdict: Answer, log: seq<Probe>)
    requires min <= good0 && good0 + 1 < bad0 <= max
    requires Answered(carrier, log0) && SizesWithin(log0, min, max)
    requires Accepted(log0, good0) && Best(log0, good0) && Rejected(log0, bad0)
    requires forall x :: x in log0 ==> x.size <= good0 || x.size >= bad0
    ensures Answered(carrier, log) && SizesWithin(log, min, max)
    ensures Accepted(log, good) && Best(log, good) && Rejected(log, bad)
    ensures var middle := good0 + (bad0 - good0) / 2;
            match verdict
            case Good => good == middle && bad == bad0
            case Bad => good == good0 && bad == middle
            case Timeout => good == good0 && bad == bad0 && CutShort(log, min, good)
    ensures verdict != Timeout ==> forall x :: x in log ==> x.size <= good || x.size >= bad
    ensures |log| <= |log0| + 3 && (Steady(carrier, T) ==> |log| <= |log0| + 2)
  {
    good, bad := good0, bad0;
    var next := good + (bad - good) / 2;
    verdict, log := Decide(carrier, log0, next, false);
    LearntStays(log0, log, good);
    LearntStays(log0, log, bad);
    match verdict {
      case Good => good := next;
      case Bad => bad := next;
      case Timeout =>
    }
  }

  // ---------------------------------------------------------------- the boundary, and what it costs

  /** With a carrier that passes exactly the sizes up to T >= min, what the search concludes is
      T itself to within the resolution. */
  lemma BoundaryFound(carrier: Carrier, T: nat, log: seq<Probe>, min: nat, max: nat, fine: nat, result: nat)
    requires Answered(carrier, log) && Steady(carrier, T) && T >= min && fine >= 1
    requires min <= result <= max && (result > min ==> Accepted(log, result)) && Stopped(log, min, max, fine, result)
    ensures result <= T && Min(T, max) - result < fine
  {
    SteadyLog(carrier, T, log);
    if CutShort(log, min, result) {
      CountMember(log, Probe(log[|log| - 1].size, Timeout));
    }
    forall b: nat | Rejected(log, b) ensures b > T {
      CountMember(log, Probe(b, Bad));
    }
    if result > min {
      CountMember(log, Probe(result, Good));
    }
  }

  lemma SteadyLog(carrier: Carrier, T: nat, log: seq<Probe>)
    requires Answered(carrier, log) && Steady(carrier, T)
    ensures forall x :: x in log ==> x.answer == if x.size <= T then Good else Bad
  {
    forall x | x in log ensures x.answer == if x.size <= T then Good else Bad {
      var i :| 0 <= i < |log| && log[i] == x;
      assert log[i].answer == carrier(i, x.size);
    }
  }

  /** k rounds are enough for a gap of fine * 2^k. */
  lemma {:induction false} RoundsBound(gap: nat, fine: nat, k: nat)
    requires fine >= 1 && gap <= fine * Pow2(k)
    ensures Rounds(gap, fine) <= k
    decreases k
  {
    if gap > fine {
      assert k > 0 && fine * Pow2(k) == 2 * (fine * Pow2(k - 1));
      RoundsBound(gap - gap / 2, fine, k - 1);
    }
  }

  lemma RoundsAt(gap: nat, k: nat)
    requires gap == 32 * Pow2(k)
    ensures Rounds(gap, 32) == k
    decreases k
  {
    if k > 0 {
      assert gap - gap / 2 == 32 * Pow2(k - 1);
      RoundsAt(gap - gap / 2, k - 1);
    } else {
      assert Rounds(32, 32) == 0;
    }
  }

  lemma TimesMonotone(each: nat, r: nat, k: nat)
    requires r <= k
    ensures each * r <= each * k
  {
    assert each * k == each * r + each * (k - r);
  }

  lemma Pow2Of14()
    ensures Pow2(14) == 16384
  {
    calc { Pow2(14); 2 * Pow2(13); 4 * Pow2(12); 8 * Pow2(11); 16 * Pow2(10); 1024 * Pow2(4); 16384; }
  }

  /** A rung below the top is dearest when it passes, as long as a rung above can cost 15 decisions. */
  lemma Rung(pass: nat, each: nat, good: nat, size: nat)
    requires 1 <= size < 1048576 && good < size && size - good <= 524288
    requires Cost(32, 1048576, 32, pass, each, size, NextRung(32, 1048576, size)) >= each * 15
    ensures Cost(32, 1048576, 32, pass, each, good, size)
         == pass + Cost(32, 1048576, 32, pass, each, size, NextRung(32, 1048576, size))
  {
    Pow2Of14();
    RoundsBound(size - good, 32, 14);
    TimesMonotone(each, Rounds(size - good, 32), 14);
  }

  /** From 32 bytes to 1 MiB the ascent tries 32, 512, 2K, 8K, 32K, 128K, 512K and 1 MiB. */
  lemma CostOfDefaultRange(pass: nat, each: nat)
    requires pass <= each
    ensures Cost(32, 1048576, 32, pass, each, 0, 32) == 7 * pass + 15 * each
  {
    Pow2Of14();
    RoundsAt(524288, 14);
    assert Cost(32, 1048576, 32, pass, each, 524288, 1048576) == each + each * 14;
    Rung(pass, each, 131072, 524288);
    Rung(pass, each, 32768, 131072);
    Rung(pass, each, 8192, 32768);
    Rung(pass, each, 2048, 8192);
    Rung(pass, each, 512, 2048);
    Rung(pass, each, 32, 512);
    Rung(pass, each, 0, 32);
  }

  /** Over the default range: at most 66 probes whatever the answers, 37 with a steady carrier. */
  lemma DefaultRangeCosts()
    ensures Cost(32, 1048576, 32, 3, 3, 0, 32) == 66
    ensures Cost(32, 1048576, 32, 1, 2, 0, 32) == 37
  {
    CostOfDefaultRange(3, 3);
    CostOfDefaultRange(1, 2);
  }

  // ---------------------------------------------------------------- starting from the maximum

  const COARSE_STEP := 128 * 1024

  /** Why the search from the maximum may return `result` although nothing larger is known to work. */
  predicate StoppedFromMax(log: seq<Probe>, min: nat, max: nat, fine: nat, result: nat) {
    || result == max
    || (log != [] && log[|log| - 1].answer == Timeout)
    || (exists b {:trigger Probe(b, Bad)} :: result < b <= result + fine && b <= max && Probe(b, Bad) in log)
    || (result == min && Probe(min, Bad) in log)
  }

  predicate NoneGood(log: seq<Probe>) {
    forall x :: x in log ==> x.answer != Good
  }

  /** What the search from the maximum settles on: the largest size that passed; if none did, the
      size that timed out, or else the floor. */
  predicate Settles(log: seq<Probe>, min: nat, result: nat) {
    && (forall x :: x in log && x.answer == Good ==> x.size <= result)
    && (if NoneGood(log) then
          log != [] && result == if log[|log| - 1].answer == Timeout then log[|log| - 1].size else min
        else Probe(result, Good) in log)
  }

  /** Probes of the coarse descent from `size`. */
  function CoarseProbes(min: nat, size: nat): nat
    requires min <= size
  {
    if size <= min then 1 else 1 + CoarseProbes(min, Max(min, size - COARSE_STEP))
  }

  /** One probe, logged. */
  method Ask(carrier: Carrier, log0: seq<Probe>, size: nat, ghost min: nat, ghost max: nat)
    returns (answer: Answer, log: seq<Probe>)
    requires Answered(carrier, log0) && SizesWithin(log0, min, max) && min <= size <= max
    ensures Answered(carrier, log) && SizesWithin(log, min, max)
    ensures answer == carrier(|log0|, size) && log == log0 + [Probe(size, answer)] && log[|log0|] in log
    ensures forall x :: x in log0 ==> x in log
  {
    answer := carrier(|log0|, size);
    log := log0 + [Probe(size, answer)];
    assert log[|log0|] in log;
  }

  /** The coarse descent: ends with a size that passed, at a timeout, or below the floor. */
  method Descend(carrier: Carrier, min: nat, max: nat) returns (good: nat, bad: nat, found: bool, log: seq<Probe>)
    requires 32 <= min <= max
    ensures Answered(carrier, log) && SizesWithin(log, min, max)
    ensures min <= good <= max
    ensures !found ==> StoppedFromMax(log, min, max, 32, good)
    ensures Settles(log, min, good)
    ensures found ==>
              good < bad <= max && bad - good <= COARSE_STEP && Probe(good, Good) in log && Probe(bad, Bad) in log
    ensures |log| <= CoarseProbes(min, max)
  {
    good, bad := max, 0;
    if good < min { good := min; }
    log := [];
    while true
      invariant min <= good <= max
      invariant Answered(carrier, log) && SizesWithin(log, min, max)
      invariant bad == 0 <==> good == max
      invariant bad > 0 ==> good < bad <= max && bad - good <= COARSE_STEP && Probe(bad, Bad) in log
      invariant NoneGood(log)
      invariant |log| + CoarseProbes(min, good) <= CoarseProbes(min, max)
      decreases good
    {
      var answer;
      answer, log := Ask(carrier, log, good, min, max);
      if answer == Good {
        return good, bad, bad > 0, log;
      }
      if answer == Timeout {
        return good, bad, false, log;
      }
      bad := good;
      if good <= min {
        return min, bad, false, log;
      }
      var next: int := good - COARSE_STEP;
      if next < min { next := min; }
      if next >= good { next := min; }
      good := next;
    }
  }

  /** probeMaximumMaxFirst: one probe decides a size, and a timeout keeps the size it hit. */
  method ProbeMaximumMaxFirst(carrier: Carrier, min: nat, max: nat) returns (result: nat, log: seq<Probe>)
    requires 32 <= min <= max
    ensures Answered(carrier, log) && SizesWithin(log, min, max)
    ensures min <= result <= max
    ensures Settles(log, min, result)
    ensures StoppedFromMax(log, min, max, 32, result)
    ensures |log| <= CoarseProbes(min, max) + Rounds(COARSE_STEP, 32)
  {
    var good, bad, found;
    good, bad, found, log := Descend(carrier, min, max);
    if !found {
      return good, log;
    }
    RoundsMonotone(bad - good, COARSE_STEP, 32);
    result, log := RefineOnce(carrier, min, max, 32, good, bad, log);
  }

  /** One more probe above the largest size that passed. */
  lemma SettlesAgain(log: seq<Probe>, size: nat, answer: Answer, min: nat, good: nat)
    requires Settles(log, min, good) && Probe(good, Good) in log && good < size
    ensures var after := log + [Probe(size, answer)];
            Settles(after, min, if answer == Good then size else good) && Probe(good, Good) in after
  {
  }

  /** Its refinement: one probe a round. */
  method RefineOnce(carrier: Carrier, min: nat, max: nat, fine: nat, good0: nat, bad0: nat, log0: seq<Probe>)
    returns (result: nat, log: seq<Probe>)
    requires fine >= 1 && min <= good0 < bad0 <= max
    requires Answered(carrier, log0) && SizesWithin(log0, min, max)
    requires Probe(good0, Good) in log0 && Probe(bad0, Bad) in log0 && Settles(log0, min, good0)
    ensures Answered(carrier, log) && SizesWithin(log, min, max)
    ensures good0 <= result < bad0 && Settles(log, min, result)
    ensures StoppedFromMax(log, min, max, fine, result)
    ensures |log| <= |log0| + Rounds(bad0 - good0, fine)
  {
    hide Settles;
    var good, bad := good0, bad0;
    log := log0;
    ghost var spent := 0;
    while bad - good > fine
      invariant good0 <= good < bad <= bad0
      invariant Answered(carrier, log) && SizesWithin(log, min, max)
      invariant Probe(good, Good) in log && Probe(bad, Bad) in log && Settles(log, min, good)
      invariant |log| == |log0| + spent && spent + Rounds(bad - good, fine) <= Rounds(bad0 - good0, fine)
      decreases bad - good
    {
      HalvesNeedLess(bad - good, fine);
      spent := spent + 1;
      var next := good + (bad - good) / 2;
      var answer;
      SettlesAgain(log, next, carrier(|log|, next), min, good);
      answer, log := Ask(carrier, log, next, min, max);
      match answer {
        case Good => good := next;
        case Timeout => return good, log;
        case Bad => bad := next;
      }
    }
    return good, log;
  }

  /** The search from the maximum finds the same boundary. */
  lemma BoundaryFoundFromMax(carrier: Carrier, T: nat, log: seq<Probe>, min: nat, max: nat, result: nat)
    requires Answered(carrier, log) && Steady(carrier, T) && T >= min
    requires min <= result <= max && StoppedFromMax(log, min, max, 32, result)
    requires Settles(log, min, result)
    ensures result <= T && Min(T, max) - result < 32
  {
    SteadyLog(carrier, T, log);
  }

  /** At most 21 probes from 1 MiB down to 32 bytes: nine coarse ones and twelve refinements. */
  lemma MaxFirstCosts()
    ensures CoarseProbes(32, 1048576) + Rounds(COARSE_STEP, 32) == 21
  {
    assert CoarseProbes(32, 32) == 1;
    assert CoarseProbes(32, 262144) == 3;
    assert CoarseProbes(32, 524288) == 5;
    assert CoarseProbes(32, 786432) == 7;
    assert Pow2(4) == 16;
    assert Pow2(8) == 16 * Pow2(4);
    assert Pow2(12) == 16 * Pow2(8);
    RoundsAt(COARSE_STEP, 12);
  }
}
