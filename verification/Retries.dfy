/** How long a transfer keeps retrying a transaction that always fails, and not by a timeout: the
    retry loops of the three Write methods (chunk.go, bp.go, internal/xorchunk/chunk.go), which
    share the sizer and differ in two numbers, and of the two fillReadBuffer methods. `limit` is how
    many counted failures end the loop (8 for B and X, 1 for BP); `countFixed` says whether every
    failure counts when sizing is fixed (X only). */
module Retries {
  import opened Numbers
  import opened Sizer

  /** `k` is the count of failures at the minimum size. */
  datatype Retry = Going(s: Sizer, k: nat) | GaveUp

  function Fail(p: Params, limit: nat, countFixed: bool, r: Retry): Retry {
    if r.GaveUp? then GaveUp
    else
      var t := OnFailure(p, r.s, r.s.current);
      var k := if (countFixed && !p.adaptive) || t.current == r.s.current == p.min then r.k + 1 else 0;
      if k >= limit then GaveUp else Going(t, k)
  }

  /** n failures with no success between them. */
  function Fails(p: Params, limit: nat, countFixed: bool, r: Retry, n: nat): Retry {
    if n == 0 then r else Fail(p, limit, countFixed, Fails(p, limit, countFixed, r, n - 1))
  }

  lemma FailsOnce(p: Params, limit: nat, countFixed: bool, r: Retry, n: nat)
    ensures Fails(p, limit, countFixed, r, n + 1) == Fail(p, limit, countFixed, Fails(p, limit, countFixed, r, n))
    ensures Fails(p, limit, countFixed, r, 0) == r
  {
  }

  lemma {:induction false} StaysGivenUp(p: Params, limit: nat, countFixed: bool, r: Retry, m: nat, n: nat)
    requires m <= n && Fails(p, limit, countFixed, r, m).GaveUp?
    ensures Fails(p, limit, countFixed, r, n).GaveUp?
    decreases n
  {
    if m < n {
      StaysGivenUp(p, limit, countFixed, r, m, n - 1);
    }
  }

  /** What a caller can check before the call: the loop can end. */
  predicate CanEnd(p: Params, countFixed: bool, s: Sizer) {
    p.adaptive || s.current == p.min || countFixed
  }

  /** Falls with every failure: the size above the minimum, the budget at that size, the tries left
      at the minimum. */
  function Measure(p: Params, limit: nat, r: Retry): int {
    if r.GaveUp? then 0
    else if p.adaptive && r.s.current > p.min then p.shrinkAfter * (r.s.current - p.min) - r.s.failures + limit
    else limit - r.k
  }

  predicate Sound(p: Params, limit: nat, countFixed: bool, r: Retry) {
    r.GaveUp? || (Inv(p, r.s) && r.k < limit && CanEnd(p, countFixed, r.s))
  }

  lemma {:induction false} FailureFalls(p: Params, limit: nat, countFixed: bool, r: Retry)
    requires p.Ok() && limit >= 1 && Sound(p, limit, countFixed, r) && r.Going?
    ensures var t := Fail(p, limit, countFixed, r);
            Sound(p, limit, countFixed, t) && 0 <= Measure(p, limit, t) < Measure(p, limit, r)
  {
    var t := OnFailure(p, r.s, r.s.current);
    if p.adaptive && r.s.current > p.min {
      Product(p.shrinkAfter, t.current - p.min, r.s.current - p.min);
      Product(p.shrinkAfter, 0, r.s.current - p.min);
      Product(p.shrinkAfter, 0, t.current - p.min);
    }
  }

  lemma Product(k: nat, a: nat, b: nat)
    ensures a < b ==> k * a + k <= k * b
    ensures k * a >= 0
  {
    if a < b {
      MulMonotone(k, a, b - 1);
    }
  }

  lemma MeasureIsNatural(p: Params, limit: nat, countFixed: bool, r: Retry)
    requires Sound(p, limit, countFixed, r)
    ensures Measure(p, limit, r) >= 0
  {
    if r.Going? && r.s.current > p.min {
      Product(p.shrinkAfter, 0, r.s.current - p.min);
    }
  }

  lemma {:induction false} FailuresFall(p: Params, limit: nat, countFixed: bool, r: Retry, n: nat)
    requires p.Ok() && limit >= 1 && Sound(p, limit, countFixed, r)
    ensures var t := Fails(p, limit, countFixed, r, n);
            && Sound(p, limit, countFixed, t) && Measure(p, limit, t) >= 0
            && (t.Going? ==> r.Going? && Measure(p, limit, t) + n <= Measure(p, limit, r))
  {
    MeasureIsNatural(p, limit, countFixed, r);
    if n > 0 {
      FailuresFall(p, limit, countFixed, r, n - 1);
      var t := Fails(p, limit, countFixed, r, n - 1);
      if t.Going? {
        FailureFalls(p, limit, countFixed, t);
      }
    }
  }

  /** The loop gives up after at most shrinkAfter failures for each byte above the minimum and
      `limit` more. */
  lemma GivesUpWithin(p: Params, limit: nat, countFixed: bool, s: Sizer, n: nat)
    requires p.Ok() && limit >= 1 && Inv(p, s) && CanEnd(p, countFixed, s)
    requires n >= p.shrinkAfter * (s.current - p.min) + limit
    ensures Fails(p, limit, countFixed, Going(s, 0), n).GaveUp?
  {
    FailuresFall(p, limit, countFixed, Going(s, 0), n);
    var t := Fails(p, limit, countFixed, Going(s, 0), n);
    Product(p.shrinkAfter, 0, s.current - p.min);
    if t.Going? && p.adaptive && t.s.current > p.min {
      Product(p.shrinkAfter, t.s.current - p.min - 1, t.s.current - p.min);
    }
  }

  /** While no size can change, the loop counts to its limit exactly. Fixed sizes need not even lie
      between the client's bounds: Open of the X client can leave one below the minimum. */
  lemma {:induction false} CountsExactly(p: Params, limit: nat, countFixed: bool, s: Sizer, n: nat)
    requires limit >= 1
    requires if p.adaptive then p.Ok() && Inv(p, s) && s.current == p.min else countFixed || s.current == p.min
    ensures Fails(p, limit, countFixed, Going(s, 0), n).GaveUp? <==> n >= limit
    ensures n < limit ==> Fails(p, limit, countFixed, Going(s, 0), n).k == n
    ensures n < limit ==> Fails(p, limit, countFixed, Going(s, 0), n).s.current == s.current
  {
    if n > 0 {
      CountsExactly(p, limit, countFixed, s, n - 1);
      if n - 1 < limit && p.adaptive {
        FailuresInv(p, limit, countFixed, s, n - 1);
      }
    }
  }

  lemma {:induction false} FailuresInv(p: Params, limit: nat, countFixed: bool, s: Sizer, n: nat)
    requires p.Ok() && Inv(p, s)
    ensures var t := Fails(p, limit, countFixed, Going(s, 0), n);
            t.Going? ==> Inv(p, t.s)
  {
    if n > 0 {
      FailuresInv(p, limit, countFixed, s, n - 1);
    }
  }

  /** A fixed size above the minimum never meets the exit test of B and BP. */
  lemma {:induction false} NeverGivesUp(p: Params, limit: nat, s: Sizer, n: nat)
    requires limit >= 1 && !CanEnd(p, false, s)
    ensures Fails(p, limit, false, Going(s, 0), n) == Going(s, 0)
  {
    if n > 0 {
      NeverGivesUp(p, limit, s, n - 1);
    }
  }

  /** Permanent failure ends the loop exactly when sizing is adaptive, or the size is already the
      minimum, or fixed sizes count. */
  lemma GivesUpIff(p: Params, limit: nat, countFixed: bool, s: Sizer)
    requires limit >= 1 && (p.adaptive ==> p.Ok() && Inv(p, s))
    ensures (exists n: nat :: Fails(p, limit, countFixed, Going(s, 0), n).GaveUp?) <==> CanEnd(p, countFixed, s)
  {
    if !p.adaptive && CanEnd(p, countFixed, s) {
      CountsExactly(p, limit, countFixed, s, limit);
    } else if CanEnd(p, countFixed, s) {
      Product(p.shrinkAfter, 0, s.current - p.min);
      var n: nat := p.shrinkAfter * (s.current - p.min) + limit;
      GivesUpWithin(p, limit, countFixed, s, n);
    } else if n: nat :| Fails(p, limit, countFixed, Going(s, 0), n).GaveUp? {
      NeverGivesUp(p, limit, s, n);
      assert false;
    }
  }

  // ---------------------------------------------------------------- B download

  /** A download on the B wire also has a pipeline depth, which is halved down to `floor` before the
      record size is touched. */
  datatype Download = Download(depth: nat, retry: Retry)

  function FailDownload(p: Params, floor: nat, limit: nat, d: Download): Download {
    if d.retry.GaveUp? then d
    else if d.depth > floor then d.(depth := Max(d.depth / 2, floor))
    else d.(retry := Fail(p, limit, false, d.retry))
  }

  function FailDownloads(p: Params, floor: nat, limit: nat, d: Download, n: nat): Download {
    if n == 0 then d else FailDownload(p, floor, limit, FailDownloads(p, floor, limit, d, n - 1))
  }

  lemma FailsDownloadOnce(p: Params, floor: nat, limit: nat, d: Download, n: nat)
    ensures FailDownloads(p, floor, limit, d, n + 1)
          == FailDownload(p, floor, limit, FailDownloads(p, floor, limit, d, n))
    ensures FailDownloads(p, floor, limit, d, 0) == d
  {
  }

  lemma {:induction false} DownloadStaysGivenUp(p: Params, floor: nat, limit: nat, d: Download, m: nat, n: nat)
    requires m <= n && FailDownloads(p, floor, limit, d, m).retry.GaveUp?
    ensures FailDownloads(p, floor, limit, d, n).retry.GaveUp?
    decreases n
  {
    if m < n {
      DownloadStaysGivenUp(p, floor, limit, d, m, n - 1);
    }
  }

  /** Halvings that bring the depth to its floor. */
  function HalvingsTo(depth: nat, floor: nat): nat
    requires floor >= 1
  {
    if depth <= floor then 0 else 1 + HalvingsTo(Max(depth / 2, floor), floor)
  }

  /** The first HalvingsTo failures go to the depth, all later ones to the upload's rule. */
  lemma {:induction false} DepthFirst(p: Params, floor: nat, limit: nat, s: Sizer, depth: nat, n: nat)
    requires 1 <= floor <= depth
    ensures FailDownloads(p, floor, limit, Download(depth, Going(s, 0)), HalvingsTo(depth, floor) + n)
         == Download(floor, Fails(p, limit, false, Going(s, 0), n))
    decreases depth, n
  {
    if depth > floor {
      DepthFirst(p, floor, limit, s, Max(depth / 2, floor), n);
      Shift(p, floor, limit, Download(depth, Going(s, 0)), HalvingsTo(depth, floor) + n - 1);
    } else if n > 0 {
      DepthFirst(p, floor, limit, s, depth, n - 1);
    }
  }

  lemma {:induction false} Shift(p: Params, floor: nat, limit: nat, d: Download, n: nat)
    ensures FailDownloads(p, floor, limit, d, n + 1)
          == FailDownloads(p, floor, limit, FailDownload(p, floor, limit, d), n)
  {
    if n > 0 {
      Shift(p, floor, limit, d, n - 1);
    }
  }

  /** So a B download under permanent failure gives up exactly when an upload would, and at most
      HalvingsTo(depth) failures later. */
  lemma DownloadGivesUpIff(p: Params, floor: nat, limit: nat, s: Sizer, depth: nat)
    requires p.Ok() && limit >= 1 && Inv(p, s) && 1 <= floor <= depth
    ensures (exists n: nat :: FailDownloads(p, floor, limit, Download(depth, Going(s, 0)), n).retry.GaveUp?) <==>
              CanEnd(p, false, s)
    ensures CanEnd(p, false, s) ==>
              var n := HalvingsTo(depth, floor) + p.shrinkAfter * (s.current - p.min) + limit;
              n >= 0 && FailDownloads(p, floor, limit, Download(depth, Going(s, 0)), n).retry.GaveUp?
  {
    var start, h := Download(depth, Going(s, 0)), HalvingsTo(depth, floor);
    if CanEnd(p, false, s) {
      Product(p.shrinkAfter, 0, s.current - p.min);
      var n: nat := p.shrinkAfter * (s.current - p.min) + limit;
      GivesUpWithin(p, limit, false, s, n);
      DepthFirst(p, floor, limit, s, depth, n);
      assert FailDownloads(p, floor, limit, start, h + n).retry.GaveUp?;
    } else if n: nat :| FailDownloads(p, floor, limit, start, n).retry.GaveUp? {
      DownloadStaysGivenUp(p, floor, limit, start, n, h + n);
      DepthFirst(p, floor, limit, s, depth, n);
      NeverGivesUp(p, limit, s, n);
      assert false;
    }
  }
}
