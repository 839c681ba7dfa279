/** Byte sinks and sources as the transports see them: a write may take only part of what it is
    given, and a read may end early. */
module Io {
  import opened Bytes

  /** One answer of a writer: n bytes taken, and perhaps an error. */
  datatype WriteAnswer = WriteAnswer(n: nat, error: bool)

  /** A writer that takes something every time. */
  predicate Obliging(answers: seq<WriteAnswer>) {
    forall a :: a in answers ==> !a.error && a.n > 0
  }

  /** `Pending` means the writer has not answered yet. */
  datatype WriteResult = Done | Failed | Pending

  class Sink {
    var bytes: seq<byte>

    constructor ()
      ensures bytes == []
    {
      bytes := [];
    }
  }

  /** writeAll and writeCarrierFull: push all of b while the writer takes something each time. */
  method WriteAll(w: Sink, b: seq<byte>, answers: seq<WriteAnswer>) returns (result: WriteResult, sent: nat)
    modifies w
    ensures sent <= |b| && w.bytes == old(w.bytes) + b[..sent]
    ensures result == Done ==> sent == |b|
    ensures result == Pending ==> sent < |b|
    ensures b == [] ==> result == Done
    ensures Obliging(answers) ==> result != Failed
    ensures |answers| >= |b| ==> result != Pending
  {
    sent := 0;
    var i := 0;
    while sent < |b|
      invariant 0 <= i <= |answers| && i <= sent <= |b|
      invariant w.bytes == old(w.bytes) + b[..sent]
      decreases |answers| - i
    {
      if i == |answers| {
        return Pending, sent;
      }
      var a := answers[i];
      var n := if a.n < |b| - sent then a.n else |b| - sent;
      w.bytes := w.bytes + b[sent..sent + n];
      assert b[..sent] + b[sent..sent + n] == b[..sent + n];
      sent := sent + n;
      if a.error || n == 0 {
        return Failed, sent;
      }
      i := i + 1;
    }
    return Done, sent;
  }

  class Source {
    var left: seq<byte>

    constructor (s: seq<byte>)
      ensures left == s
    {
      left := s;
    }

    /** io.ReadFull. */
    method ReadFull(n: nat) returns (ok: bool, data: seq<byte>)
      modifies this
      ensures ok <==> n <= |old(left)|
      ensures ok ==> data == old(left)[..n] && left == old(left)[n..]
      ensures !ok ==> left == []
    {
      if n <= |left| {
        ok, data, left := true, left[..n], left[n..];
      } else {
        ok, data, left := false, left, [];
      }
    }
  }
}
