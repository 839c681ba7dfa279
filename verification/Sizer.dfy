/** The adaptive record sizer (chunk.go and internal/xorchunk/chunk.go): a controller that keeps a
    current size between a known-good and a known-bad one.

    The two copies of the program's type differ in two numbers, which are parameters here: `near`
    (64 for B and BP, 32 for X) and `shrinkStep` (X has none, which is 0). */
module Sizer {
  import opened Numbers
  import opened Bytes

  datatype Params = Params(
    min: nat, max: nat, adaptive: bool, adaptSuccesses: nat, shrinkAfter: nat, shrinkStep: nat, near: nat) {
    predicate Ok() {
      1 <= min <= max && adaptSuccesses >= 1 && shrinkAfter >= 1
    }
  }

  /** `good` and `bad` are 0 while unknown. */
  datatype Sizer = Sizer(current: nat, failures: nat, successes: nat, good: nat, bad: nat)

  /** Successes needed before the next growth; eight times as many close to a known failure. */
  function GrowAfter(p: Params, s: Sizer): nat {
    if s.bad > 0 && s.bad - s.good <= p.near then p.adaptSuccesses * 8 else p.adaptSuccesses
  }

  function GrownSize(p: Params, s: Sizer): nat
  {
    var step := if s.bad > s.current + 1 then (s.bad - s.current) / 2 else Max(32, s.current / 4);
    Min(p.max, s.current + step)
  }

  function OnSuccess(p: Params, s: Sizer, attempted: nat): Sizer {
    if !p.adaptive || attempted != s.current then s
    else if s.current >= p.max then s.(failures := 0)
    else
      var g := s.(failures := 0, good := Max(s.good, attempted), successes := s.successes + 1);
      if g.successes < GrowAfter(p, g) then g
      else
        g.(successes := 0,
           bad := if g.bad > g.current + 1 then g.bad else 0,
           current := Max(g.current, GrownSize(p, g)))
  }

  /** The size after a shrink; `good` is forgotten unless it is the size returned to. */
  function ShrunkSize(p: Params, s: Sizer): nat {
    var target :=
      if p.shrinkStep > 0 then s.current - p.shrinkStep
      else if 0 < s.good < s.current then s.good
      else s.current / 2;
    var clamped := if target < p.min then p.min else target;
    Max(p.min, if clamped >= s.current && s.current > p.min then s.current - 1 else clamped)
  }

  function OnFailure(p: Params, s: Sizer, attempted: nat): Sizer {
    if !p.adaptive || attempted != s.current then s
    else if s.failures + 1 < p.shrinkAfter then s.(successes := 0, failures := s.failures + 1)
    else
      Sizer(ShrunkSize(p, s), 0, 0,
            if p.shrinkStep == 0 && 0 < s.good < s.current then s.good else 0,
            if s.bad == 0 || attempted < s.bad then attempted else s.bad)
  }

  /** What the X client counts as a failure that shrinking cannot answer. */
  predicate CannotShrink(p: Params, s: Sizer, attempted: nat) {
    !p.adaptive || OnFailure(p, s, attempted).current == s.current == p.min
  }

  datatype Report = Success(attempted: nat) | Failure(attempted: nat)

  function Apply(p: Params, s: Sizer, r: Report): Sizer {
    match r
    case Success(a) => OnSuccess(p, s, a)
    case Failure(a) => OnFailure(p, s, a)
  }

  function Run(p: Params, s: Sizer, reports: seq<Report>): Sizer
    decreases |reports|
  {
    if reports == [] then s else Run(p, Apply(p, s, reports[0]), reports[1..])
  }

  // ---------------------------------------------------------------- every sequence of reports

  predicate Inv(p: Params, s: Sizer) {
    && p.min <= s.current <= p.max
    && s.good <= s.current && (s.good == 0 || s.good >= p.min)
    && s.bad <= p.max
    && (s.bad == 0 || s.current < s.bad || s.current == s.bad == p.min)
    && s.failures < p.shrinkAfter
  }

  lemma {:induction false} InvAlways(p: Params, s: Sizer, reports: seq<Report>)
    requires p.Ok() && Inv(p, s)
    ensures Inv(p, Run(p, s, reports))
    decreases |reports|
  {
    if reports != [] {
      InvAlways(p, Apply(p, s, reports[0]), reports[1..]);
    }
  }

  /** A report about another size, or to a sizer that does not adapt, changes nothing at all; any
      other failure clears the success count, and any other success the failure count. */
  lemma OnlyCurrentReportsCount(p: Params, s: Sizer, r: Report)
    requires p.Ok() && Inv(p, s)
    ensures !p.adaptive || r.attempted != s.current ==> Apply(p, s, r) == s
    ensures p.adaptive && r == Failure(s.current) ==>
              Apply(p, s, r).successes == 0 && Apply(p, s, r).current <= s.current
    ensures p.adaptive && r == Success(s.current) ==>
              Apply(p, s, r).failures == 0 && Apply(p, s, r).current >= s.current
  {
  }

  // ---------------------------------------------------------------- sizes on the wire

  /** Every size this sizer will ever give is from 1 to `cap`: it is sound and its maximum is at most
      `cap`, or it does not adapt and stands there already. */
  predicate Capped(p: Params, s: Sizer, cap: nat) {
    (p.Ok() && Inv(p, s) && p.max <= cap) || (!p.adaptive && 1 <= s.current <= cap)
  }

  lemma CappedStep(p: Params, s: Sizer, cap: nat, attempted: nat)
    requires Capped(p, s, cap)
    ensures 1 <= s.current <= cap
    ensures Capped(p, OnSuccess(p, s, attempted), cap) && Capped(p, OnFailure(p, s, attempted), cap)
  {
  }

  lemma {:induction false} CappedAlways(p: Params, s: Sizer, cap: nat, reports: seq<Report>)
    requires Capped(p, s, cap)
    ensures Capped(p, Run(p, s, reports), cap) && 1 <= Run(p, s, reports).current <= cap
    decreases |reports|
  {
    if reports == [] {
      CappedStep(p, s, cap, 0);
    } else {
      CappedStep(p, s, cap, reports[0].attempted);
      CappedAlways(p, Apply(p, s, reports[0]), cap, reports[1..]);
    }
  }

  lemma FixedKeeps(p: Params, s: Sizer, attempted: nat)
    ensures !p.adaptive ==> OnSuccess(p, s, attempted) == s == OnFailure(p, s, attempted)
  {
  }

  lemma {:induction false} FixedStays(p: Params, s: Sizer, reports: seq<Report>)
    requires !p.adaptive
    ensures Run(p, s, reports) == s
    decreases |reports|
  {
    if reports != [] {
      FixedStays(p, s, reports[1..]);
    }
  }

  /** The effective ceiling of one direction; 0 means that there was no calibration. */
  function Ceiling(p: Params, ceiling: nat): nat {
    Max(p.min, if ceiling == 0 || ceiling > p.max then p.max else ceiling)
  }

  /** A direction's sizer after the X client has opened a session: built from the options and the
      calibrated sizes, then adjusted to the server's maximum if that is below the options' own. */
  function Opened(p: Params, start: nat, startSize: nat, ceiling: nat, serverMax: nat): (Params, Sizer) {
    var c := Ceiling(p, ceiling);
    var s := Sizer(Min(c, Max(p.min, if start == 0 then startSize else start)), 0, 0, 0, 0);
    if serverMax < p.max then (p.(max := serverMax), s.(current := Min(s.current, serverMax))) else (p.(max := c), s)
  }

  /** The sessions the program opens fix both directions at their calibrated size: no record is ever
      larger than that size and the server's maximum, whatever the server's maximum is. */
  lemma {:induction false} CalibratedIsKept(
      p: Params, calibrated: nat, startSize: nat, serverMax: nat, reports: seq<Report>)
    requires p.Ok() && !p.adaptive && p.min <= calibrated <= p.max && serverMax >= 1
    ensures var (q, s) := Opened(p, calibrated, startSize, calibrated, serverMax);
            Capped(q, s, Min(calibrated, serverMax)) && Run(q, s, reports).current == Min(calibrated, serverMax)
  {
    var (q, s) := Opened(p, calibrated, startSize, calibrated, serverMax);
    FixedStays(q, s, reports);
  }

  /** Opening leaves a sound sizer exactly when the server's maximum reaches the client's minimum,
      which Open does not check. */
  lemma OpenedIsSound(p: Params, start: nat, startSize: nat, ceiling: nat, serverMax: nat)
    requires p.Ok()
    ensures var (q, s) := Opened(p, start, startSize, ceiling, serverMax);
            && (Inv(q, s) <==> serverMax >= p.min)
            && (serverMax >= p.min ==> Capped(q, s, Min(p.max, serverMax)))
  {
  }

  /** A size within the calibrated ceiling is the one the session starts with, unless the server's
      maximum is smaller; without a calibrated size the option's decides. */
  lemma OpenedStarts(p: Params, start: nat, startSize: nat, ceiling: nat, serverMax: nat)
    requires p.Ok()
    ensures var (q, s) := Opened(p, start, startSize, ceiling, serverMax);
            && (start > 0 && p.min <= start <= Ceiling(p, ceiling) ==> s.current == Min(start, serverMax))
            && (start == 0 && p.min <= startSize <= Ceiling(p, ceiling) ==> s.current == Min(startSize, serverMax))
            && (p.min <= ceiling <= p.max <= serverMax ==> q.max == ceiling)
            && (serverMax < p.max ==> q.max == serverMax)
            && (ceiling == 0 && p.max <= serverMax ==> q.max == p.max)
            && q == p.(max := q.max) && s == Sizer(s.current, 0, 0, 0, 0)
  {
  }

  /** Otherwise every record stays within what the server accepts exactly when sizing is fixed: an
      adaptive sizer's first shrink raises the size to the client's minimum. */
  lemma {:induction false} OpenedTooSmall(p: Params, start: nat, startSize: nat, ceiling: nat, serverMax: nat)
    requires p.Ok() && serverMax < p.min
    ensures var (q, s) := Opened(p, start, startSize, ceiling, serverMax);
            (forall reports :: Run(q, s, reports).current <= serverMax) <==> !p.adaptive
  {
    var (q, s) := Opened(p, start, startSize, ceiling, serverMax);
    if p.adaptive {
      var reports := ShrinksToFloor(q, s);
      assert Run(q, s, reports).current > serverMax;
    } else {
      forall reports ensures Run(q, s, reports).current <= serverMax {
        FixedStays(q, s, reports);
      }
    }
  }

  lemma {:induction false} ShrinksToFloor(p: Params, s: Sizer) returns (reports: seq<Report>)
    requires p.adaptive && s.failures < p.shrinkAfter && s.current < p.min
    ensures Run(p, s, reports).current == p.min
    decreases p.shrinkAfter - s.failures
  {
    var t := OnFailure(p, s, s.current);
    if s.failures + 1 < p.shrinkAfter {
      var rest := ShrinksToFloor(p, t);
      reports := [Failure(s.current)] + rest;
    } else {
      reports := [Failure(s.current)];
      assert Run(p, t, []) == t;
    }
    assert Apply(p, s, reports[0]) == t;
  }

  /** With adaptive sizing, which only the package's own interface allows, Open can also lift a
      calibrated ceiling: it is kept exactly unless the server's maximum lies between that ceiling
      and the options' maximum. */
  lemma {:induction false} CeilingIsKeptIff(p: Params, start: nat, startSize: nat, ceiling: nat, serverMax: nat)
    requires p.Ok() && p.adaptive && serverMax >= p.min
    ensures var (q, s) := Opened(p, start, startSize, ceiling, serverMax);
            (forall reports :: Run(q, s, reports).current <= Ceiling(p, ceiling)) <==>
                !(Ceiling(p, ceiling) < serverMax < p.max)
  {
    var c := Ceiling(p, ceiling);
    var (q, s) := Opened(p, start, startSize, ceiling, serverMax);
    if c < serverMax < p.max {
      var reports := GrowsPast(q, s, c);
      assert Run(q, s, reports).current > c;
    } else {
      forall reports ensures Run(q, s, reports).current <= c {
        InvAlways(q, s, reports);
      }
    }
  }

  /** A sizer that has seen no failure grows past any size below its maximum. */
  lemma {:induction false} GrowsPast(p: Params, s: Sizer, size: nat) returns (reports: seq<Report>)
    requires p.Ok() && p.adaptive && Inv(p, s) && s.bad == 0 && s.current <= size < p.max
    ensures Run(p, s, reports).current > size
    decreases p.max - s.current, p.adaptSuccesses - s.successes
  {
    var t := OnSuccess(p, s, s.current);
    var rest := [];
    if t.current > size {
      assert Run(p, t, []) == t;
    } else {
      rest := GrowsPast(p, t, size);
    }
    reports := [Success(s.current)] + rest;
    assert reports[0] == Success(s.current) && reports[1..] == rest;
  }

  // ---------------------------------------------------------------- against a carrier that passes up to T bytes

  predicate Consistent(T: nat, r: Report) {
    match r
    case Success(a) => a <= T
    case Failure(a) => a > T
  }

  predicate Brackets(s: Sizer, T: nat) {
    s.good <= T && (s.bad == 0 || s.bad > T)
  }

  lemma {:induction false} BracketsAlways(p: Params, s: Sizer, T: nat, reports: seq<Report>)
    requires p.Ok() && T >= p.min && Inv(p, s) && Brackets(s, T)
    requires forall i :: 0 <= i < |reports| ==> Consistent(T, reports[i])
    ensures Brackets(Run(p, s, reports), T)
    decreases |reports|
  {
    if reports != [] {
      assert Consistent(T, reports[0]);
      assert forall i :: 0 <= i < |reports[1..]| ==> reports[1..][i] == reports[i + 1];
      BracketsAlways(p, Apply(p, s, reports[0]), T, reports[1..]);
    }
  }

  /** n failures in a row, each at the size then current and each above T. */
  predicate FailsInARow(p: Params, s: Sizer, T: nat, n: nat)
    decreases n
  {
    n == 0 || (s.current > T && FailsInARow(p, OnFailure(p, s, s.current), T, n - 1))
  }

  /** With a recorded good size, halving mode (shrinkStep 0) fails exactly until it has failed
      shrinkAfter times at the size above T, and is then back at a size that works. */
  lemma {:induction false} FailuresWithGood(p: Params, s: Sizer, T: nat, n: nat)
    requires p.Ok() && p.adaptive && p.shrinkStep == 0 && T >= p.min
    requires Inv(p, s) && Brackets(s, T) && s.good > 0
    ensures FailsInARow(p, s, T, n) <==> n == 0 || (s.current > T && n + s.failures <= p.shrinkAfter)
    decreases n
  {
    if n > 0 && s.current > T {
      var t := OnFailure(p, s, s.current);
      assert s.failures + 1 >= p.shrinkAfter ==> t.current <= T;
      FailuresWithGood(p, t, T, n - 1);
    }
  }

  lemma MulMonotone(k: nat, a: nat, b: int)
    requires a <= b
    ensures k * a + k <= k * (b + 1)
  {
    assert k * (b + 1) == k * (a + 1) + k * (b - a);
  }

  lemma TimesMonotone(k: nat, a: nat, b: nat)
    requires a <= b
    ensures 0 <= k * a <= k * b
  {
    if a < b {
      MulMonotone(k, a, b - 1);
    }
  }

  /** The next size down when no good size decides it: a fixed step, or half if the step is 0. */
  function Down(p: Params, size: nat): nat {
    if p.shrinkStep > 0 then Max(0, size - p.shrinkStep) else size / 2
  }

  /** How often a size is lowered before it fits. */
  function StepsDown(p: Params, size: nat, T: nat): nat
    requires T >= 1
  {
    if size <= T then 0 else 1 + StepsDown(p, Down(p, size), T)
  }

  /** Linear mode takes one step for each shrinkStep bytes above T, rounded up. */
  lemma {:induction false} LinearSteps(p: Params, size: nat, T: nat, k: nat)
    requires T >= 1 && p.shrinkStep > 0
    ensures StepsDown(p, size, T) <= k <==> size <= T + p.shrinkStep * k
    decreases size
  {
    var a := p.shrinkStep;
    assert a * k >= 0;
    if size > T {
      if k > 0 {
        LinearSteps(p, Down(p, size), T, k - 1);
        assert a * k == a * (k - 1) + a;
      }
    }
  }

  /** shrinkAfter failures for each step down. */
  function FailureBudget(p: Params, size: nat, T: nat): nat
    requires T >= 1
  {
    if size <= T then 0 else p.shrinkAfter + FailureBudget(p, Down(p, size), T)
  }

  /** Halving mode takes one step for each halving that brings the size to T. */
  lemma {:induction false} HalvingSteps(p: Params, size: nat, T: nat, k: nat)
    requires T >= 1 && p.shrinkStep == 0
    ensures StepsDown(p, size, T) <= k <==> size < (T + 1) * Pow2(k)
    decreases size
  {
    hide Pow2;
    if k == 0 {
      PowersStart();
    }
    if size > T && k > 0 {
      HalvingSteps(p, size / 2, T, k - 1);
      Doubled(T + 1, k);
    } else {
      AtLeastOne(k);
      TimesMonotone(T + 1, 1, Pow2(k));
    }
  }

  lemma PowersStart()
    ensures Pow2(0) == 1
  {
  }

  lemma Doubled(x: nat, k: nat)
    requires k > 0
    ensures x * Pow2(k) == 2 * (x * Pow2(k - 1))
  {
    var half := Pow2(k - 1);
    assert x * (2 * half) == 2 * (x * half);
  }

  lemma {:induction false} AtLeastOne(k: nat)
    ensures Pow2(k) >= 1
  {
    if k > 0 {
      AtLeastOne(k - 1);
    }
  }

  lemma {:induction false} BudgetIsProduct(p: Params, size: nat, T: nat)
    requires T >= 1
    ensures FailureBudget(p, size, T) == p.shrinkAfter * StepsDown(p, size, T)
  {
    if size > T {
      var rest := Down(p, size);
      BudgetIsProduct(p, rest, T);
      assert p.shrinkAfter * (1 + StepsDown(p, rest, T)) == p.shrinkAfter + p.shrinkAfter * StepsDown(p, rest, T);
    }
  }

  /** What a shrink does when no good size decides it. */
  lemma ShrinksDown(p: Params, s: Sizer, T: nat)
    requires p.Ok() && p.adaptive && T >= p.min && Inv(p, s) && s.current > T && (p.shrinkStep > 0 || s.good == 0)
    ensures var t := OnFailure(p, s, s.current);
            if s.failures + 1 < p.shrinkAfter then t == s.(successes := 0, failures := s.failures + 1)
            else t.current == Max(p.min, Down(p, s.current)) && t.failures == t.successes == t.good == 0
                 && t.bad <= s.current
    ensures Inv(p, OnFailure(p, s, s.current)) && s.failures < p.shrinkAfter
  {
  }

  /** In linear mode, and in halving mode without a good size, the failures in a row are exactly
      shrinkAfter for each step down to a size that fits. */
  lemma {:induction false} FailuresWithoutGood(p: Params, s: Sizer, T: nat, n: nat)
    requires p.Ok() && p.adaptive && T >= p.min
    requires Inv(p, s) && (p.shrinkStep > 0 || s.good == 0)
    ensures FailsInARow(p, s, T, n) <==> n == 0 || (s.current > T && n + s.failures <= FailureBudget(p, s.current, T))
    ensures FailsInARow(p, s, T, n) ==> n <= p.shrinkAfter * StepsDown(p, s.current, T)
    decreases n
  {
    hide OnFailure, Inv, Down;
    BudgetIsProduct(p, s.current, T);
    if n > 0 && s.current > T {
      var t := OnFailure(p, s, s.current);
      ShrinksDown(p, s, T);
      FailuresWithoutGood(p, t, T, n - 1);
      BelowFloor(p, Down(p, s.current), T);
    }
  }

  lemma BelowFloor(p: Params, size: nat, T: nat)
    requires T >= p.min && T >= 1
    ensures FailureBudget(p, Max(p.min, size), T) == FailureBudget(p, size, T)
    ensures Max(p.min, size) > T <==> size > T
    ensures size > T ==> FailureBudget(p, size, T) >= p.shrinkAfter
  {
  }

  /** So a recorded good size limits the failures in a row to shrinkAfter exactly in halving mode, or
      when one linear step is enough anyway: linear mode forgets it. */
  lemma GoodLimitsFailuresIff(p: Params, s: Sizer, T: nat)
    requires p.Ok() && p.adaptive && T >= p.min && Inv(p, s) && Brackets(s, T) && s.good > 0 && s.current > T
    ensures (forall n: nat :: FailsInARow(p, s, T, n) ==> n + s.failures <= p.shrinkAfter)
       <==> p.shrinkStep == 0 || s.current <= T + p.shrinkStep
  {
    hide FailsInARow;
    if p.shrinkStep == 0 {
      forall n: nat | FailsInARow(p, s, T, n) ensures n + s.failures <= p.shrinkAfter {
        FailuresWithGood(p, s, T, n);
      }
    } else {
      forall n: nat | FailsInARow(p, s, T, n) && s.current <= T + p.shrinkStep ensures n + s.failures <= p.shrinkAfter {
        FailuresWithoutGood(p, s, T, n);
      }
      if s.current > T + p.shrinkStep {
        FailuresWithoutGood(p, s, T, p.shrinkAfter - s.failures + 1);
      }
    }
  }

  /** At the program's defaults: three failures in a row with shrinkAfter 1 and a good size known. */
  lemma LinearForgetsGood()
    ensures var p, s := Params(32, 1048576, true, 16, 1, 200, 64), Sizer(1000, 0, 0, 500, 0);
            Inv(p, s) && Brackets(s, 500) && FailsInARow(p, s, 500, 3)
  {
  }

  // ---------------------------------------------------------------- convergence

  /** The next report such a carrier makes about the current size. */
  function Answer(s: Sizer, T: nat): Report {
    if s.current <= T then Success(s.current) else Failure(s.current)
  }

  /** n reports, each about the size then current. */
  function Drive(p: Params, s: Sizer, T: nat, n: nat): Sizer
    decreases n
  {
    if n == 0 then s else Drive(p, Apply(p, s, Answer(s, T)), T, n - 1)
  }

  lemma {:induction false} DriveThen(p: Params, s: Sizer, T: nat, m: nat, n: nat)
    ensures Drive(p, s, T, m + n) == Drive(p, Drive(p, s, T, m), T, n)
    decreases m
  {
    if m > 0 {
      DriveThen(p, Apply(p, s, Answer(s, T)), T, m - 1, n);
    }
  }

  /** Growing out of a bracket leaves at most half of the gap above, rounded up. */
  lemma GrowthHalvesGap(p: Params, s: Sizer)
    requires p.Ok() && p.adaptive && Inv(p, s) && s.bad > s.current + 1
    requires OnSuccess(p, s, s.current).current != s.current
    ensures var t := OnSuccess(p, s, s.current);
            && s.current < t.current < t.bad == s.bad
            && t.bad - t.current <= (s.bad - s.current + 1) / 2
            && t.current - s.current <= (s.bad - s.current + 1) / 2
  {
  }

  /** Settled at a size that works, with a failing size known above it. */
  predicate Settled(p: Params, s: Sizer, T: nat) {
    Inv(p, s) && Brackets(s, T) && s.good == s.current && s.bad > s.current
  }

  /** Trying the middle of such a bracket. */
  predicate Probing(p: Params, s: Sizer, T: nat) {
    && Inv(p, s) && Brackets(s, T) && 0 < s.good && s.good < s.current < s.bad
    && s.current == s.good + (s.bad - s.good) / 2
  }

  /** The successes that the next growth takes in all: eight times as many if and only if a failing
      size is known within `near` of the one that works. */
  function Needed(p: Params, s: Sizer): nat {
    if s.bad > 0 && s.bad <= s.current + p.near then 8 * p.adaptSuccesses else p.adaptSuccesses
  }

  /** The size stays as it is until report n, at which it changes. */
  ghost predicate ChangesAt(p: Params, s: Sizer, T: nat, n: nat) {
    && (forall k: nat :: k < n ==> Drive(p, s, T, k).current == s.current)
    && Drive(p, s, T, n).current != s.current
  }

  lemma ChangesLater(p: Params, s: Sizer, T: nat, n: nat)
    requires Apply(p, s, Answer(s, T)).current == s.current && ChangesAt(p, Apply(p, s, Answer(s, T)), T, n)
    ensures ChangesAt(p, s, T, n + 1)
  {
    var t := Apply(p, s, Answer(s, T));
    forall k: nat | k < n + 1 ensures Drive(p, s, T, k).current == s.current {
      if k > 0 {
        assert Drive(p, s, T, k) == Drive(p, t, T, k - 1);
      }
    }
  }

  /** Exactly enough successes at a settled size grow it half way to the failing one. */
  lemma {:induction false} SuccessesGrow(p: Params, s: Sizer, T: nat) returns (n: nat)
    requires p.Ok() && p.adaptive && Settled(p, s, T) && s.bad > s.current + 1
    ensures n == Max(1, Needed(p, s) - s.successes) && ChangesAt(p, s, T, n)
    ensures 1 <= n <= p.adaptSuccesses * 8 && (n == 1 || n + s.successes <= p.adaptSuccesses * 8)
    ensures Drive(p, s, T, n) == Sizer(s.current + (s.bad - s.current) / 2, 0, 0, s.good, s.bad)
    decreases p.adaptSuccesses * 8 - s.successes
  {
    var t := OnSuccess(p, s, s.current);
    assert Drive(p, s, T, 1) == Drive(p, t, T, 0);
    if s.successes + 1 < GrowAfter(p, s) {
      n := SuccessesGrow(p, t, T);
      ChangesLater(p, s, T, n);
      n := n + 1;
    } else {
      n := 1;
    }
  }

  /** In halving mode (shrinkStep 0) enough failures at a probed size return to the good one. */
  lemma {:induction false} FailuresReturn(p: Params, s: Sizer, T: nat) returns (n: nat)
    requires p.Ok() && p.adaptive && p.shrinkStep == 0
    requires Inv(p, s) && Brackets(s, T) && 0 < s.good && s.current > T >= p.min
    ensures 1 <= n && n + s.failures <= p.shrinkAfter
    ensures Drive(p, s, T, n) == Sizer(s.good, 0, 0, s.good, s.current)
    decreases p.shrinkAfter - s.failures
  {
    var t := OnFailure(p, s, s.current);
    if s.failures + 1 < p.shrinkAfter {
      n := FailuresReturn(p, t, T);
      n := n + 1;
    } else {
      n := 1;
      assert Drive(p, s, T, 1) == Drive(p, t, T, 0);
    }
  }

  /** Halvings of a gap, rounding up, until good and bad are neighbours. */
  function Rounds(gap: nat): nat {
    if gap <= 1 then 0 else 1 + Rounds((gap + 1) / 2)
  }

  lemma {:induction false} RoundsMonotone(a: nat, b: nat)
    requires a <= b
    ensures Rounds(a) <= Rounds(b)
    decreases b
  {
    if a > 1 {
      RoundsMonotone((a + 1) / 2, (b + 1) / 2);
    }
  }

  /** The most reports one halving of the bracket takes. */
  function PerRound(p: Params): nat {
    p.adaptSuccesses * 8 + p.shrinkAfter
  }

  lemma RoundsPay(k: nat, gap: nat, half: nat)
    requires gap > 1 && half <= (gap + 1) / 2
    ensures k * Rounds(half) + k <= k * Rounds(gap)
  {
    RoundsMonotone(half, (gap + 1) / 2);
    MulMonotone(k, Rounds(half), Rounds(gap) - 1);
  }

  /** From a bracket the sizer in halving mode (shrinkStep 0) finds the carrier's limit exactly: it
      stands on T with T+1 known to fail, after at most PerRound reports for each halving of the
      bracket. */
  lemma {:induction false} BracketConverges(p: Params, s: Sizer, T: nat) returns (n: nat)
    requires p.Ok() && p.adaptive && p.shrinkStep == 0 && T >= p.min
    requires Settled(p, s, T) || Probing(p, s, T)
    ensures n <= PerRound(p) * Rounds(s.bad - s.good)
    ensures Drive(p, s, T, n).current == T && Drive(p, s, T, n).bad == T + 1
    decreases s.bad - s.good, 1
  {
    hide OnSuccess, OnFailure, GrowAfter, Needed, ChangesAt;
    if s.bad == s.current + 1 && s.current <= T {
      n := 0;
      return;
    }
    var m, t;
    if Settled(p, s, T) {
      m := SuccessesGrow(p, s, T);
      t := Drive(p, s, T, m);
      n := ProbeConverges(p, t, T);
    } else {
      m, t := 0, s;
      n := ProbeConverges(p, t, T);
    }
    DriveThen(p, s, T, m, n);
    n := m + n;
  }

  /** A probe that works either settles or, with its successes counted, grows again. */
  lemma ProbeWorks(p: Params, s: Sizer, T: nat)
    requires p.Ok() && p.adaptive && Probing(p, s, T) && s.current <= T && s.bad > s.current + 1
    ensures var t := Apply(p, s, Answer(s, T));
            && t == OnSuccess(p, s, s.current) && t.bad == s.bad && t.good == s.current
            && (Settled(p, t, T) || Probing(p, t, T))
  {
  }

  lemma {:induction false} ProbeConverges(p: Params, s: Sizer, T: nat) returns (n: nat)
    requires p.Ok() && p.adaptive && p.shrinkStep == 0 && T >= p.min
    requires Probing(p, s, T)
    ensures n + p.adaptSuccesses * 8 <= PerRound(p) * Rounds(s.bad - s.good)
    ensures Drive(p, s, T, n).current == T && Drive(p, s, T, n).bad == T + 1
    decreases s.bad - s.good, 0
  {
    hide OnSuccess, OnFailure, GrowAfter, Rounds, ChangesAt, Needed, Apply;
    var gap := s.bad - s.good;
    if s.current <= T {
      RoundsPay(PerRound(p), gap, s.bad - s.current);
      if s.bad == s.current + 1 {
        TimesMonotone(PerRound(p), 0, Rounds(1));
        n := 0;
        return;
      }
      ProbeWorks(p, s, T);
      n := BracketConverges(p, OnSuccess(p, s, s.current), T);
      n := n + 1;
    } else {
      RoundsPay(PerRound(p), gap, s.current - s.good);
      var m := FailuresReturn(p, s, T);
      n := BracketConverges(p, Drive(p, s, T, m), T);
      DriveThen(p, s, T, m, n);
      n := m + n;
    }
  }

  // ---------------------------------------------------------------- convergence in either mode

  /** The size grew: half way to the failing one, or if none is known above by a quarter, at least 32
      bytes, up to the maximum. */
  predicate Grew(p: Params, s: Sizer, t: Sizer) {
    && Inv(p, t) && t.successes == t.failures == 0 && s.current < t.current && t.good == Max(s.good, s.current)
    && if s.bad > s.current + 1 then t.bad == s.bad && t.current == s.current + (s.bad - s.current) / 2
       else t.bad == 0 && t.current == Min(p.max, s.current + Max(32, s.current / 4))
  }

  lemma GrowthGains(p: Params, s: Sizer)
    requires p.Ok() && p.adaptive && Inv(p, s) && s.current < p.max
    requires s.successes + 1 >= GrowAfter(p, s.(good := Max(s.good, s.current)))
    ensures Grew(p, s, OnSuccess(p, s, s.current))
  {
  }

  /** One growth adds a quarter or 32 bytes, whichever is more, or half of the way to a failing size:
      never more. */
  lemma GrowthIsGentle(p: Params, s: Sizer, attempted: nat)
    requires p.Ok() && p.adaptive && Inv(p, s)
    ensures var t := OnSuccess(p, s, attempted);
            t.current - s.current <= Max(Max(32, s.current / 4), (s.bad - s.current) / 2)
    ensures s.bad <= s.current + 1 ==> OnSuccess(p, s, attempted).current - s.current <= Max(32, s.current / 4)
  {
  }

  /** Successes at one size, until it grows, and exactly how many. */
  lemma {:induction false} GrowsOnce(p: Params, s: Sizer, T: nat) returns (n: nat)
    requires p.Ok() && p.adaptive && Inv(p, s) && s.current <= T && s.current < p.max
    ensures n == Max(1, Needed(p, s) - s.successes) && ChangesAt(p, s, T, n)
    ensures 1 <= n <= p.adaptSuccesses * 8 && (n == 1 || n + s.successes <= p.adaptSuccesses * 8)
    ensures Grew(p, s, Drive(p, s, T, n))
    decreases p.adaptSuccesses * 8 - s.successes
  {
    var t := OnSuccess(p, s, s.current);
    assert Drive(p, s, T, 1) == Drive(p, t, T, 0);
    if s.successes + 1 < GrowAfter(p, s.(good := Max(s.good, s.current))) {
      n := GrowsOnce(p, t, T);
      ChangesLater(p, s, T, n);
      n := n + 1;
    } else {
      GrowthGains(p, s);
      n := 1;
    }
  }

  /** Down to a size that fits, with the smallest size that failed recorded. */
  predicate Fell(p: Params, s: Sizer, T: nat, t: Sizer) {
    Inv(p, t) && Brackets(t, T) && t.current <= T < t.bad <= s.current && t.successes == t.failures == 0
  }

  lemma FailureFalls(p: Params, s: Sizer, T: nat)
    requires p.Ok() && p.adaptive && Inv(p, s) && Brackets(s, T) && s.current > T >= p.min
    ensures var t := OnFailure(p, s, s.current);
            && Inv(p, t) && Brackets(t, T) && s.failures < p.shrinkAfter
            && if s.failures + 1 < p.shrinkAfter then t.current == s.current && t.failures == s.failures + 1
               else && t.failures == t.successes == 0 && t.bad == s.current > t.current
                    && (t.current <= T || t.current == Max(p.min, Down(p, s.current)))
  {
  }

  /** Failures in either mode, until the size fits. */
  lemma {:induction false} FallsToFit(p: Params, s: Sizer, T: nat) returns (n: nat)
    requires p.Ok() && p.adaptive && Inv(p, s) && Brackets(s, T) && s.current > T >= p.min
    ensures n + s.failures <= FailureBudget(p, s.current, T) && Fell(p, s, T, Drive(p, s, T, n))
    decreases s.current, p.shrinkAfter - s.failures
  {
    hide Inv, OnFailure, Down;
    var t := OnFailure(p, s, s.current);
    FailureFalls(p, s, T);
    assert Drive(p, s, T, 1) == Drive(p, t, T, 0);
    BelowFloor(p, Down(p, s.current), T);
    if t.current <= T {
      n := 1;
    } else {
      n := FallsToFit(p, t, T);
      n := n + 1;
    }
  }

  /** On the carrier's limit, with the next byte known to fail. */
  predicate Found(s: Sizer, T: nat) {
    s.current == T && s.bad == T + 1
  }

  /** A growth that passed T tries a size at most half as far above it as the known failure. */
  predicate Overshot(p: Params, s: Sizer, T: nat, t: Sizer) {
    Inv(p, t) && Brackets(t, T) && T < t.current < t.bad == s.bad && 2 * (t.current - T) <= s.bad - T
  }

  lemma DriveNone(p: Params, s: Sizer, T: nat)
    ensures Drive(p, s, T, 0) == s
  {
  }

  lemma {:induction false} ClimbsBracket(p: Params, s: Sizer, T: nat) returns (n: nat)
    requires p.Ok() && p.adaptive && Inv(p, s) && Brackets(s, T) && s.current <= T < s.bad
    ensures n <= p.adaptSuccesses * 8 * Rounds(s.bad - s.current)
    ensures var t := Drive(p, s, T, n); Found(t, T) || Overshot(p, s, T, t)
    decreases s.bad - s.current
  {
    hide GrowAfter, OnSuccess, OnFailure, Apply, Drive, Rounds;
    var each := p.adaptSuccesses * 8;
    if s.bad == s.current + 1 {
      n := 0;
      DriveNone(p, s, T);
      TimesMonotone(each, 0, Rounds(1));
      return;
    }
    n := GrowsOnce(p, s, T);
    var t := Drive(p, s, T, n);
    RoundsPay(each, s.bad - s.current, t.bad - t.current);
    TimesMonotone(each, 0, Rounds(t.bad - t.current));
    if t.current <= T {
      var m := ClimbsBracket(p, t, T);
      DriveThen(p, s, T, n, m);
      n := n + m;
    }
  }

  /** Growth without a known failure passes T. */
  lemma {:induction false} ClimbsPast(p: Params, s: Sizer, T: nat) returns (n: nat)
    requires p.Ok() && p.adaptive && Inv(p, s) && Brackets(s, T) && s.bad == 0 && s.current <= T < p.max
    ensures n <= p.adaptSuccesses * 8 * (1 + (T - s.current) / 32)
    ensures var t := Drive(p, s, T, n); Inv(p, t) && Brackets(t, T) && t.current > T
    decreases T - s.current
  {
    hide GrowAfter, OnSuccess, OnFailure, Apply;
    var each := p.adaptSuccesses * 8;
    n := GrowsOnce(p, s, T);
    var t := Drive(p, s, T, n);
    if t.current <= T {
      var m := ClimbsPast(p, t, T);
      DriveThen(p, s, T, n, m);
      MulMonotone(each, 1 + (T - t.current) / 32, (T - s.current) / 32);
      n := n + m;
    } else {
      MulMonotone(each, 0, (T - s.current) / 32);
    }
  }

  /** Halvings of a distance, rounding down. */
  function Log2(d: nat): nat {
    if d <= 1 then 0 else 1 + Log2(d / 2)
  }

  lemma {:induction false} Log2Monotone(a: nat, b: nat)
    requires a <= b
    ensures Log2(a) <= Log2(b)
  {
    if a > 1 {
      Log2Monotone(a / 2, b / 2);
    }
  }

  lemma Log2Halves(d: nat, half: nat)
    requires 1 <= half && 2 * half <= d
    ensures 1 + Log2(half) <= Log2(d)
  {
    Log2Monotone(half, d / 2);
  }

  lemma Log2Pays(k: nat, d: nat, half: nat)
    requires 1 <= half && 2 * half <= d
    ensures k * (1 + Log2(half)) + k <= k * (1 + Log2(d))
  {
    hide Log2;
    Log2Halves(d, half);
    MulMonotone(k, 1 + Log2(half), Log2(d));
    assert 1 + Log2(d) == Log2(d) + 1;
  }

  /** The most reports that one climb and the fall after it take. */
  function PerClimb(p: Params, T: nat): nat
    requires T >= 1
  {
    p.adaptSuccesses * 8 * Rounds(p.max) + FailureBudget(p, p.max, T)
  }

  lemma ClimbIsPaid(p: Params, gap: nat, size: nat, T: nat)
    requires T >= 1 && gap <= p.max && size <= p.max
    ensures p.adaptSuccesses * 8 * Rounds(gap) + FailureBudget(p, size, T) <= PerClimb(p, T)
  {
    RoundsMonotone(gap, p.max);
    if Rounds(gap) < Rounds(p.max) {
      MulMonotone(p.adaptSuccesses * 8, Rounds(gap), Rounds(p.max) - 1);
    }
    BudgetMonotone(p, size, p.max, T);
  }

  lemma {:induction false} BudgetMonotone(p: Params, a: nat, b: nat, T: nat)
    requires T >= 1 && a <= b
    ensures FailureBudget(p, a, T) <= FailureBudget(p, b, T)
    decreases b
  {
    if a > T {
      BudgetMonotone(p, Down(p, a), Down(p, b), T);
    }
  }

  /** Once a failing size is known, each climb at least halves the distance from T to it. */
  lemma {:induction false} ClimbsConverge(p: Params, s: Sizer, T: nat) returns (n: nat)
    requires p.Ok() && p.adaptive && Inv(p, s) && Brackets(s, T) && p.min <= T && s.current <= T < s.bad
    ensures n <= PerClimb(p, T) * (1 + Log2(s.bad - T)) && Found(Drive(p, s, T, n), T)
    decreases s.bad
  {
    hide Rounds, FailureBudget, PerClimb, Drive, Log2;
    n := ClimbsBracket(p, s, T);
    var t := Drive(p, s, T, n);
    ClimbIsPaid(p, s.bad - s.current, t.current, T);
    TimesMonotone(PerClimb(p, T), 1, 1 + Log2(s.bad - T));
    if !Found(t, T) {
      var m := FallsToFit(p, t, T);
      var u := Drive(p, t, T, m);
      var k := ClimbsConverge(p, u, T);
      Log2Pays(PerClimb(p, T), s.bad - T, u.bad - T);
      DriveThen(p, s, T, n, m);
      DriveThen(p, s, T, n + m, k);
      n := n + m + k;
    }
  }

  /** One fall takes no more reports than a climb with its fall. */
  lemma {:induction false} FallsAtOnce(p: Params, s: Sizer, T: nat) returns (n: nat)
    requires p.Ok() && p.adaptive && Inv(p, s) && Brackets(s, T) && s.current > T >= p.min
    ensures n <= PerClimb(p, T) && Fell(p, s, T, Drive(p, s, T, n))
  {
    n := FallsToFit(p, s, T);
    ClimbIsPaid(p, 0, s.current, T);
  }

  /** From any sound state to one that fits with a failing size known. */
  lemma {:induction false} EntersBracket(p: Params, s: Sizer, T: nat) returns (n: nat)
    requires p.Ok() && p.adaptive && p.min <= T < p.max && Inv(p, s) && Brackets(s, T)
    ensures n <= p.adaptSuccesses * 8 * (1 + T / 32) + PerClimb(p, T)
    ensures var t := Drive(p, s, T, n); Inv(p, t) && Brackets(t, T) && t.current <= T < t.bad
  {
    hide FailureBudget, PerClimb, Rounds, Apply;
    TimesMonotone(p.adaptSuccesses * 8, 0, 1 + T / 32);
    if s.current > T {
      n := FallsAtOnce(p, s, T);
    } else if s.bad == 0 {
      var m := ClimbsPast(p, s, T);
      TimesMonotone(p.adaptSuccesses * 8, 1 + (T - s.current) / 32, 1 + T / 32);
      n := FallsAtOnce(p, Drive(p, s, T, m), T);
      DriveThen(p, s, T, m, n);
      n := m + n;
    } else {
      n := 0;
      assert PerClimb(p, T) >= 0;
    }
  }

  /** From any sound state, in linear and in halving mode, with or without a good or a failing size
      known: below its ceiling the sizer reaches the carrier's limit with the next byte known to
      fail, within a stated number of reports. */
  lemma {:induction false} Converges(p: Params, s: Sizer, T: nat) returns (n: nat)
    requires p.Ok() && p.adaptive && p.min <= T < p.max
    requires Inv(p, s) && Brackets(s, T)
    ensures n <= p.adaptSuccesses * 8 * (1 + T / 32) + PerClimb(p, T) * (2 + Log2(p.max))
    ensures Drive(p, s, T, n).current == T && Drive(p, s, T, n).bad == T + 1
  {
    hide PerClimb, Drive, Log2;
    n := EntersBracket(p, s, T);
    var t := Drive(p, s, T, n);
    var k := ClimbsConverge(p, t, T);
    Log2Monotone(t.bad - T, p.max);
    TimesMonotone(PerClimb(p, T), 1 + Log2(t.bad - T), 1 + Log2(p.max));
    DriveThen(p, s, T, n, k);
    n := n + k;
  }

  // ---------------------------------------------------------------- a carrier without a limit

  lemma {:induction false} StaysAtMaximum(p: Params, s: Sizer, T: nat, n: nat)
    requires p.Ok() && p.adaptive && T >= p.max == s.current
    ensures Drive(p, s, T, n).current == p.max
    decreases n
  {
    if n > 0 {
      StaysAtMaximum(p, OnSuccess(p, s, s.current), T, n - 1);
    }
  }

  lemma {:induction false} ReachesMaximum(p: Params, s: Sizer, T: nat) returns (n: nat)
    requires p.Ok() && p.adaptive && T >= p.max && Inv(p, s)
    ensures n <= p.adaptSuccesses * 8 * (p.max - s.current) && Drive(p, s, T, n).current == p.max
    decreases p.max - s.current
  {
    hide GrowAfter, OnSuccess, OnFailure, Apply;
    if s.current == p.max {
      n := 0;
    } else {
      var m := GrowsOnce(p, s, T);
      var t := Drive(p, s, T, m);
      n := ReachesMaximum(p, t, T);
      MulMonotone(p.adaptSuccesses * 8, p.max - t.current, p.max - s.current - 1);
      DriveThen(p, s, T, m, n);
      n := m + n;
    }
  }

  /** When everything up to its maximum passes, the sizer recovers that maximum from any sound state,
      past any failing size it remembers, and stays there. */
  lemma {:induction false} RecoversMaximum(p: Params, s: Sizer, T: nat) returns (n: nat)
    requires p.Ok() && p.adaptive && T >= p.max && Inv(p, s)
    ensures n <= p.adaptSuccesses * 8 * (p.max - s.current)
    ensures forall m: nat :: m >= n ==> Drive(p, s, T, m).current == p.max
  {
    n := ReachesMaximum(p, s, T);
    forall m: nat | m >= n ensures Drive(p, s, T, m).current == p.max {
      DriveThen(p, s, T, n, m - n);
      StaysAtMaximum(p, Drive(p, s, T, n), T, m - n);
    }
  }

  // ---------------------------------------------------------------- the program's own form

  /** adaptiveSizer between lock and unlock. */
  class AdaptiveSizer {
    const params: Params
    var current: nat
    var failures: nat
    var successes: nat
    var good: nat
    var bad: nat

    constructor (params: Params, start: nat)
      requires params.Ok()
      ensures this.params == params && Inv(params, View())
      ensures current == if start < params.min then params.min else Min(start, params.max)
    {
      this.params := params;
      var n := start;
      if n < params.min { n := params.min; }
      if n > params.max { n := params.max; }
      current, failures, successes, good, bad := n, 0, 0, 0, 0;
    }

    /** newAdaptiveSizer of the X client, and what Open does to the sizer it built. */
    constructor Open(p: Params, start: nat, startSize: nat, ceiling: nat, serverMax: nat)
      ensures (params, View()) == Opened(p, start, startSize, ceiling, serverMax)
    {
      var c := ceiling;
      if c <= 0 || c > p.max { c := p.max; }
      if c < p.min { c := p.min; }
      var n := start;
      if n <= 0 { n := startSize; }
      if n < p.min { n := p.min; }
      if n > c { n := c; }
      if serverMax < p.max {
        c := serverMax;
        if n > serverMax { n := serverMax; }
      }
      params := p.(max := c);
      current, failures, successes, good, bad := n, 0, 0, 0, 0;
    }

    function View(): Sizer
      reads this
    {
      Sizer(current, failures, successes, good, bad)
    }

    method Success(attempted: nat)
      modifies this
      ensures View() == OnSuccess(params, old(View()), attempted)
    {
      if !params.adaptive || attempted != current {
        return;
      }
      failures := 0;
      if current >= params.max {
        return;
      }
      if attempted > good {
        good := attempted;
      }
      successes := successes + 1;
      var growAfter := params.adaptSuccesses;
      if bad > 0 && bad - good <= params.near {
        growAfter := growAfter * 8;
      }
      if successes < growAfter {
        return;
      }
      successes := 0;
      var oldSize := current;
      var next := 0;
      if bad > oldSize + 1 {
        next := oldSize + (bad - oldSize) / 2;
      } else {
        if bad > 0 {
          bad := 0;
        }
        var step := oldSize / 4;
        if step < 32 {
          step := 32;
        }
        next := oldSize + step;
      }
      if next > params.max {
        next := params.max;
      }
      if next <= oldSize {
        return;
      }
      current := next;
    }

    method Failure(attempted: nat) returns (was: nat, next: nat)
      modifies this
      ensures View() == OnFailure(params, old(View()), attempted)
      ensures was == old(current) && next == current
    {
      was := current;
      if !params.adaptive || attempted != current {
        return was, was;
      }
      successes := 0;
      failures := failures + 1;
      if failures < params.shrinkAfter {
        return was, was;
      }
      failures := 0;
      if bad == 0 || attempted < bad {
        bad := attempted;
      }
      var target: int := attempted / 2;
      if params.shrinkStep > 0 {
        target := attempted - params.shrinkStep;
        good := 0;
      } else if good > 0 && good < attempted {
        target := good;
      } else {
        good := 0;
      }
      if target < params.min {
        target := params.min;
      }
      if target >= attempted && attempted > params.min {
        target := attempted - 1;
      }
      if target < params.min {
        target := params.min;
      }
      current := target;
      return was, current;
    }
  }
}
