/** How the upload lane of a B or BP stream is opened (openChunkTunnel in chunk.go, openBPTunnel in
    bp.go): the requests sent before the first byte of the stream. */
module Opening {
  import opened Numbers
  import opened Bytes
  import opened Wrappers
  import opened Framing
  import opened Batches
  import opened Lanes
  import opened Upload
  import Sizer

  const MODE_OPEN: byte := 1

  const B_WIRE := Upload.Wire(2, 0)
  const BP_WIRE := Upload.Wire(1, 2)

  const BP_OPEN_MAGIC: seq<byte> := [0x44, 0x4f, 0x50, 0x31]

  /** The size limit in B's answer to OPEN. */
  function Limit(h: Sha256, sid: Session, clear: bool, reply: Reply): Option<nat> {
    if reply.status != STATUS_OK || |reply.body| != 4 then None
    else Some(Value(DecodeBody(h, STATUS_OK, reply.body, clear, sid, MODE_OPEN, 0)))
  }

  /** B sends OPEN on the upload lane and refuses a server whose limit is below the client's
      minimum. Nothing it sends counts as a record of the stream, and a failure closes the lane. */
  method OpenB(lane: RequestLane, h: Sha256, sid: Session, clear: bool, open: seq<byte>, minSize: nat, t: Tries)
    returns (serverMax: Option<nat>)
    requires lane.Valid() && lane.wire == [] && |t.first.replies| <= 1 && |t.second.replies| <= 1
    modifies lane
    ensures lane.Valid() && forall w :: w in lane.wire ==> w == Wired(MODE_OPEN, 0, open) && !B_WIRE.Record(w)
    ensures serverMax.Some? ==> serverMax.value >= minSize && lane.closed == old(lane.closed)
    ensures serverMax.None? ==> lane.closed
    ensures !old(lane.closed) && GoesThrough(t.first) ==>
              var limit := Limit(h, sid, clear, t.first.replies[0]);
              serverMax == if limit.Some? && limit.value >= minSize then limit else None
  {
    hide DecodeBody;
    ghost var to;
    var outcome;
    outcome, to := lane.Single(Wired(MODE_OPEN, 0, open), t);
    if outcome.Lost? {
      lane.Close();
      return None;
    }
    if outcome.reply.status == STATUS_ERROR {
      lane.Close();
      return None;
    }
    if outcome.reply.status != STATUS_OK || |outcome.reply.body| != 4 {
      lane.Close();
      return None;
    }
    var limit := Value(DecodeBody(h, STATUS_OK, outcome.reply.body, clear, sid, MODE_OPEN, 0));
    if limit < minSize {
      lane.Close();
      return None;
    }
    return Some(limit);
  }

  /** A direction's sizer once B knows the server's limit: `calibrated` is the size the path profile
      found, and its ceiling too if the path was probed. BP is told no limit: there it is p.max. */
  function BSizer(p: Sizer.Params, calibrated: nat, probed: bool, serverMax: nat): (Sizer.Params, Sizer.Sizer) {
    var most := Min(p.max, serverMax);
    var start := Max(p.min, Min(calibrated, most));
    (p.(max := if probed then start else most), Sizer.Sizer(start, 0, 0, 0, 0))
  }

  /** Because OpenB refuses a low limit, the sizer of a B stream is sound from the start, and no size
      it ever gives exceeds the calibrated one or the server's limit. */
  lemma BKeepsCalibrated(p: Sizer.Params, calibrated: nat, probed: bool, serverMax: nat, reports: seq<Sizer.Report>)
    requires p.Ok() && serverMax >= p.min && calibrated >= p.min
    ensures var (q, s) := BSizer(p, calibrated, probed, serverMax);
            && s == Sizer.Sizer(Min(calibrated, Min(p.max, serverMax)), 0, 0, 0, 0)
            && q == p.(max := if probed then s.current else Min(p.max, serverMax))
            && q.Ok() && Sizer.Inv(q, s) && Sizer.Capped(q, s, if probed then Min(calibrated, serverMax) else serverMax)
            && Sizer.Run(q, s, reports).current <= if probed then Min(calibrated, serverMax) else serverMax
  {
    var (q, s) := BSizer(p, calibrated, probed, serverMax);
    Sizer.CappedAlways(q, s, if probed then Min(calibrated, serverMax) else serverMax, reports);
  }

  /** BP registers the session with sequence number 0 and opens the target with 1, so the stream's
      own records start at 2. */
  method OpenBP(lane: RequestLane, open: seq<byte>, registration: Tries, opening: Tries) returns (ok: bool)
    requires lane.Valid() && lane.wire == []
    requires |registration.first.replies| <= 1 && |registration.second.replies| <= 1
    requires |opening.first.replies| <= 1 && |opening.second.replies| <= 1
    modifies lane
    ensures lane.Valid() && lane.closed == (old(lane.closed) || !ok)
    ensures forall w :: w in lane.wire ==>
              (w == Wired(1, 0, []) || w == Wired(1, 1, BP_OPEN_MAGIC + open)) && !BP_WIRE.Record(w)
    ensures ok ==> Wired(1, 0, []) in lane.wire && Wired(1, 1, BP_OPEN_MAGIC + open) in lane.wire
    ensures !old(lane.closed) && GoesThrough(registration.first) && GoesThrough(opening.first) ==>
              var (first, second) := (registration.first.replies[0], opening.first.replies[0]);
              ok == (first.status == second.status == STATUS_OK)
  {
    ghost var to;
    var outcome;
    outcome, to := lane.Single(Wired(1, 0, []), registration);
    if outcome.Lost? || outcome.reply.status != STATUS_OK {
      lane.Close();
      return false;
    }
    assert lane.wire[|lane.wire| - 1] == Wired(1, 0, []);
    ghost var log := lane.wire;
    outcome, to := lane.Single(Wired(1, 1, BP_OPEN_MAGIC + open), opening);
    assert forall i :: 0 <= i < |log| ==> lane.wire[i] == log[i];
    if outcome.Lost? || outcome.reply.status != STATUS_OK {
      lane.Close();
      return false;
    }
    assert lane.wire[|lane.wire| - 1] == Wired(1, 1, BP_OPEN_MAGIC + open);
    return true;
  }
}
