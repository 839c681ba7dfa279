/** The SSH carrier's bounded buffer (ssh_carrier.go): any number of writers fill it, one drain loop
    empties it into the raw connection, and a single condition variable is used with Signal by
    the writers and Broadcast by the drain loop and Close.

    One event is one critical section of the program's mutex, or one call on the raw connection.
    A run is any sequence of enabled events, so any interleaving; Signal may wake any waiter. */
module SshCarrier {
  import opened Numbers
  import opened Bytes

  datatype Config = Config(flushBytes: nat, maxBuffered: nat) {
    predicate Ok() {
      flushBytes >= 1 && maxBuffered >= 2 * flushBytes
    }
  }

  /** The clamps of newSSHCarrierConn. */
  function NewConfig(flushBytes: int, maxBuffered: int): (c: Config)
    ensures c.Ok() && c.flushBytes >= flushBytes && c.maxBuffered >= maxBuffered
    ensures c.flushBytes == Max(flushBytes, 32 * 1024) && c.maxBuffered == Max(maxBuffered, 2 * c.flushBytes)
  {
    var f := if flushBytes < 32 * 1024 then 32 * 1024 else flushBytes;
    Config(f, if maxBuffered < f * 2 then f * 2 else maxBuffered)
  }

  /** Where the drain loop is. `Parked` is inside cond.Wait; once woken it has to lock again. */
  datatype Drain =
    | Top
    | Parked(woken: bool)
    | Delaying
    | Writing(rest: seq<byte>)
    | Failing
    | Done

  /** Where one caller of Write is. */
  datatype Writer =
    | Idle
    | Pushing(p: seq<byte>, written: nat)
    | Waiting(p: seq<byte>, written: nat, woken: bool)

  /** `raw` is everything handed to the raw connection, `accepted` everything Write has taken. */
  datatype State = State(
    buf: seq<byte>, closing: bool, failed: bool, drain: Drain, writers: seq<Writer>,
    raw: seq<byte>, accepted: seq<byte>)

  datatype Waiter = Nobody | TheDrain | AWriter(w: nat)

  datatype Event =
    | DrainLocks                        // the top of writeLoop, or a return from Wait
    | DrainTakes                        // after the delay: cut a batch, Broadcast
    | RawWrites(n: nat)                 // the raw connection takes n bytes
    | RawFails(n: nat)                  // the raw connection takes n bytes and returns an error
    | DrainFails                        // record the error, Broadcast
    | StartWrite(w: nat, p: seq<byte>)  // somebody calls Write
    | WriterLocks(w: nat, wakes: Waiter) // one turn of Write's loop; Signal wakes this waiter
    | Close                             // Close sets closing, Broadcast

  predicate DrainParked(s: State) {
    s.drain == Parked(false)
  }

  predicate WriterParked(s: State, w: nat) {
    w < |s.writers| && s.writers[w].Waiting? && !s.writers[w].woken
  }

  /** Signal wakes one waiter that is parked and not yet woken, and nobody if there is none. */
  predicate MaySignal(s: State, wakes: Waiter) {
    match wakes
    case TheDrain => DrainParked(s)
    case AWriter(w) => WriterParked(s, w)
    case Nobody => !DrainParked(s) && forall w :: 0 <= w < |s.writers| ==> !WriterParked(s, w)
  }

  function WakeDrain(d: Drain): Drain {
    if d.Parked? then Parked(true) else d
  }

  function WakeWriter(w: Writer): Writer {
    if w.Waiting? then w.(woken := true) else w
  }

  function Signal(s: State, wakes: Waiter): State
    requires MaySignal(s, wakes)
  {
    match wakes
    case TheDrain => s.(drain := WakeDrain(s.drain))
    case AWriter(w) => s.(writers := s.writers[w := WakeWriter(s.writers[w])])
    case Nobody => s
  }

  function Broadcast(s: State): State {
    s.(drain := WakeDrain(s.drain),
       writers := seq(|s.writers|, i requires 0 <= i < |s.writers| => WakeWriter(s.writers[i])))
  }

  /** Write's loop would wait. */
  predicate MustWait(c: Config, s: State) {
    |s.buf| >= c.maxBuffered && !s.closing && !s.failed
  }

  predicate InWrite(x: Writer) {
    x.Pushing? || (x.Waiting? && x.woken)
  }

  predicate Enabled(c: Config, s: State, e: Event) {
    match e
    case DrainLocks => s.drain.Top? || s.drain == Parked(true)
    case DrainTakes => s.drain.Delaying?
    case RawWrites(n) => s.drain.Writing? && 1 <= n <= |s.drain.rest|
    case RawFails(n) => s.drain.Writing? && n <= |s.drain.rest|
    case DrainFails => s.drain.Failing?
    case StartWrite(w, p) => w < |s.writers| && s.writers[w].Idle? && p != []
    case WriterLocks(w, wakes) =>
      w < |s.writers| && InWrite(s.writers[w]) && s.writers[w].written < |s.writers[w].p| && MaySignal(s, wakes)
    case Close => true
  }

  /** The drain loop's check at the top of its loop. */
  function OnDrainLocks(s: State): State {
    if s.buf == [] && !s.closing && !s.failed then s.(drain := Parked(false))
    else if s.failed then s.(drain := Done)
    else if s.buf == [] then s.(drain := Done)
    else s.(drain := Delaying)
  }

  function OnDrainTakes(c: Config, s: State): State {
    if s.failed then s.(drain := Done)
    else
      var n := Min(|s.buf|, c.flushBytes);
      Broadcast(s.(drain := Writing(s.buf[..n]), buf := s.buf[n..]))
  }

  function OnDrainFails(s: State): State {
    Broadcast(s.(failed := true, closing := true, drain := Done))
  }

  function OnClose(s: State): State {
    Broadcast(s.(closing := true))
  }

  function OnWriterLocks(c: Config, s: State, w: nat, wakes: Waiter): State
    requires Enabled(c, s, WriterLocks(w, wakes))
  {
    var x := s.writers[w];
    if MustWait(c, s) then s.(writers := s.writers[w := Waiting(x.p, x.written, false)])
    else if s.failed || s.closing then s.(writers := s.writers[w := Idle])
    else
      var take := Min(|x.p| - x.written, c.maxBuffered - |s.buf|);
      var cut := x.p[x.written..x.written + take];
      var t := Signal(s, wakes);
      t.(buf := s.buf + cut, accepted := s.accepted + cut,
         writers := t.writers[w := if x.written + take == |x.p| then Idle else Pushing(x.p, x.written + take)])
  }

  function Apply(c: Config, s: State, e: Event): State
    requires Enabled(c, s, e)
  {
    match e
    case DrainLocks => OnDrainLocks(s)
    case DrainTakes => OnDrainTakes(c, s)
    case RawWrites(n) =>
      s.(raw := s.raw + s.drain.rest[..n],
         drain := if n == |s.drain.rest| then Top else Writing(s.drain.rest[n..]))
    case RawFails(n) => s.(raw := s.raw + s.drain.rest[..n], drain := Failing)
    case DrainFails => OnDrainFails(s)
    case StartWrite(w, p) => s.(writers := s.writers[w := Pushing(p, 0)])
    case WriterLocks(w, wakes) => OnWriterLocks(c, s, w, wakes)
    case Close => OnClose(s)
  }

  function Init(callers: nat): State {
    State([], false, false, Top, seq(callers, _ => Idle), [], [])
  }

  predicate Reaches(c: Config, s: State, events: seq<Event>, t: State)
    decreases |events|
  {
    if events == [] then s == t
    else Enabled(c, s, events[0]) && Reaches(c, Apply(c, s, events[0]), events[1..], t)
  }

  // ---------------------------------------------------------------- invariants

  function InFlight(d: Drain): seq<byte> {
    if d.Writing? then d.rest else []
  }

  /** No raw error has happened yet. */
  predicate Healthy(s: State) {
    !s.failed && !s.drain.Failing?
  }

  predicate Conserved(s: State) {
    && (Healthy(s) ==> s.raw + InFlight(s.drain) + s.buf == s.accepted)
    && s.raw <= s.accepted
  }

  predicate Bounded(c: Config, s: State) {
    && |s.buf| <= c.maxBuffered
    && (s.drain.Writing? ==> 1 <= |s.drain.rest| <= c.flushBytes)
    && (s.drain.Delaying? ==> s.buf != [] && !s.failed)
    && (s.drain.Failing? || s.drain.Writing? ==> !s.failed)
    && (s.drain.Done? ==> s.closing && (s.failed || s.buf == []))
    && (s.failed ==> s.closing && s.drain.Done?)
  }

  predicate WriterOk(x: Writer) {
    !x.Idle? ==> x.written < |x.p|
  }

  /** No lost wakeup: a parked drain loop has nothing to do and nobody else is parked; a parked
      writer has no room, and the drain loop is not parked. */
  ghost predicate NoLostWakeup(c: Config, s: State) {
    && (DrainParked(s) ==> s.buf == [] && !s.closing && !s.failed)
    && (forall w :: WriterParked(s, w) ==>
          |s.buf| == c.maxBuffered && !s.closing && !s.failed && !DrainParked(s))
  }

  ghost predicate Inv(c: Config, s: State) {
    Conserved(s) && Bounded(c, s) && NoLostWakeup(c, s) && (forall x :: x in s.writers ==> WriterOk(x))
  }

  lemma BroadcastWakesAll(s: State)
    ensures !DrainParked(Broadcast(s)) && forall w :: !WriterParked(Broadcast(s), w)
    ensures forall x :: x in Broadcast(s).writers ==> exists y :: y in s.writers && x == WakeWriter(y)
  {
    forall x | x in Broadcast(s).writers ensures exists y :: y in s.writers && x == WakeWriter(y) {
      var i :| 0 <= i < |s.writers| && Broadcast(s).writers[i] == x;
      assert s.writers[i] in s.writers;
    }
  }

  /** What a turn of Write's loop does to bytes and bounds. */
  lemma WriterLocksConserves(c: Config, s: State, w: nat, wakes: Waiter)
    requires c.Ok() && Conserved(s) && Bounded(c, s) && Enabled(c, s, WriterLocks(w, wakes))
    ensures var t := Apply(c, s, WriterLocks(w, wakes)); Conserved(t) && Bounded(c, t)
  {
    if !MustWait(c, s) && !s.failed && !s.closing {
      var x := s.writers[w];
      var cut := x.p[x.written..x.written + Min(|x.p| - x.written, c.maxBuffered - |s.buf|)];
      assert s.raw + InFlight(s.drain) + (s.buf + cut) == s.raw + InFlight(s.drain) + s.buf + cut;
    }
  }

  lemma WriterLocksStep(c: Config, s: State, w: nat, wakes: Waiter)
    requires c.Ok() && Inv(c, s) && Enabled(c, s, WriterLocks(w, wakes))
    ensures Inv(c, Apply(c, s, WriterLocks(w, wakes)))
  {
    hide Conserved;
    var t := Apply(c, s, WriterLocks(w, wakes));
    WriterLocksConserves(c, s, w, wakes);
    assert forall i :: WriterParked(t, i) && i != w ==> WriterParked(s, i);
    assert forall x :: x in t.writers ==> x in s.writers || WriterOk(x);
  }

  lemma DrainTakesStep(c: Config, s: State)
    requires c.Ok() && Inv(c, s) && Enabled(c, s, DrainTakes)
    ensures Inv(c, Apply(c, s, DrainTakes))
  {
    var t := Apply(c, s, DrainTakes);
    BroadcastWakesAll(s.(drain := t.drain, buf := t.buf));
    assert s.buf == t.drain.rest + t.buf;
    assert t.raw + t.drain.rest + t.buf == s.raw + (t.drain.rest + t.buf);
  }

  lemma Regroup(raw: seq<byte>, rest: seq<byte>, n: nat, buf: seq<byte>)
    requires n <= |rest|
    ensures raw + rest + buf == (raw + rest[..n]) + rest[n..] + buf
    ensures raw + rest[..n] <= raw + rest + buf
  {
    assert rest == rest[..n] + rest[n..];
  }

  lemma RawConserves(c: Config, s: State, e: Event)
    requires Conserved(s) && Bounded(c, s) && Enabled(c, s, e) && (e.RawWrites? || e.RawFails?)
    ensures Conserved(Apply(c, s, e))
  {
    Regroup(s.raw, s.drain.rest, e.n, s.buf);
    assert Apply(c, s, e).raw == s.raw + s.drain.rest[..e.n];
    assert e.RawWrites? ==> InFlight(Apply(c, s, e).drain) == s.drain.rest[e.n..];
  }

  lemma RawStep(c: Config, s: State, e: Event)
    requires Inv(c, s) && Enabled(c, s, e) && (e.RawWrites? || e.RawFails?)
    ensures Inv(c, Apply(c, s, e))
  {
    RawConserves(c, s, e);
    assert forall i :: WriterParked(Apply(c, s, e), i) ==> WriterParked(s, i);
  }

  lemma Step(c: Config, s: State, e: Event)
    requires c.Ok() && Inv(c, s) && Enabled(c, s, e)
    ensures Inv(c, Apply(c, s, e))
  {
    match e {
      case WriterLocks(w, wakes) => WriterLocksStep(c, s, w, wakes);
      case Close => BroadcastWakesAll(s.(closing := true));
      case DrainFails => BroadcastWakesAll(s.(failed := true, closing := true, drain := Done));
      case DrainTakes => DrainTakesStep(c, s);
      case RawWrites(_) => RawStep(c, s, e);
      case RawFails(_) => RawStep(c, s, e);
      case StartWrite(_, _) => assert forall i :: WriterParked(Apply(c, s, e), i) ==> WriterParked(s, i);
      case DrainLocks => assert forall i :: WriterParked(Apply(c, s, e), i) ==> WriterParked(s, i);
    }
  }

  lemma {:induction false} Runs(c: Config, s: State, events: seq<Event>, t: State)
    requires c.Ok() && Inv(c, s) && Reaches(c, s, events, t)
    ensures Inv(c, t)
    decreases |events|
  {
    if events != [] {
      Step(c, s, events[0]);
      Runs(c, Apply(c, s, events[0]), events[1..], t);
    }
  }

  /** Every reachable state: bytes are conserved in order, the buffer and batches are bounded, and
      nobody sleeps through the event it waits for. */
  lemma Reachable(c: Config, callers: nat, events: seq<Event>, s: State)
    requires c.Ok() && Reaches(c, Init(callers), events, s)
    ensures Inv(c, s)
  {
    Runs(c, Init(callers), events, s);
  }

  /** With any number of writers, the one Signal of an append reaches the drain loop whenever the
      drain loop is parked: no other waiter may be chosen. */
  lemma SignalReachesDrain(c: Config, callers: nat, events: seq<Event>, s: State, w: nat, wakes: Waiter)
    requires c.Ok() && Reaches(c, Init(callers), events, s)
    requires Enabled(c, s, WriterLocks(w, wakes)) && DrainParked(s)
    ensures wakes == TheDrain
    ensures Apply(c, s, WriterLocks(w, wakes)).drain == Parked(true)
    ensures Apply(c, s, WriterLocks(w, wakes)).buf != []
  {
    Reachable(c, callers, events, s);
  }

  /** The drain loop can always take its next step unless it is done or parked with nothing to do;
      the raw connection answering is its only outside help. */
  predicate DrainCanStep(c: Config, s: State) {
    || Enabled(c, s, DrainLocks) || Enabled(c, s, DrainTakes) || Enabled(c, s, DrainFails)
    || (s.drain.Writing? && Enabled(c, s, RawWrites(|s.drain.rest|)))
  }

  /** No deadlock: while bytes are buffered, a caller is parked inside Write, or Close is waiting,
      the drain loop can step, until it is done. Every other caller inside Write can step itself. */
  lemma NoDeadlock(c: Config, callers: nat, events: seq<Event>, s: State)
    requires c.Ok() && Reaches(c, Init(callers), events, s)
    ensures s.buf != [] || s.closing || (exists w :: WriterParked(s, w)) ==> DrainCanStep(c, s) || s.drain.Done?
    ensures s.drain.Done? ==> forall w :: !WriterParked(s, w)
    ensures forall w :: 0 <= w < |s.writers| && !s.writers[w].Idle? && !WriterParked(s, w) ==>
              exists wakes :: Enabled(c, s, WriterLocks(w, wakes))
  {
    Reachable(c, callers, events, s);
    var wakes := AnySignal(s);
    forall w | 0 <= w < |s.writers| && !s.writers[w].Idle? && !WriterParked(s, w)
      ensures exists wakes :: Enabled(c, s, WriterLocks(w, wakes))
    {
      assert WriterOk(s.writers[w]);
      assert Enabled(c, s, WriterLocks(w, wakes));
    }
  }

  lemma AnySignal(s: State) returns (wakes: Waiter)
    ensures MaySignal(s, wakes)
  {
    if DrainParked(s) {
      wakes := TheDrain;
    } else if w :| 0 <= w < |s.writers| && WriterParked(s, w) {
      wakes := AWriter(w);
    } else {
      wakes := Nobody;
    }
  }

  /** A batch is everything that is buffered, or full. */
  lemma BatchIsFull(c: Config, callers: nat, events: seq<Event>, s: State)
    requires c.Ok() && Reaches(c, Init(callers), events, s) && Enabled(c, s, DrainTakes)
    ensures var t := Apply(c, s, DrainTakes);
            && t.drain.Writing? && t.drain.rest + t.buf == s.buf
            && (t.buf == [] || |t.drain.rest| == c.flushBytes)
  {
    Reachable(c, callers, events, s);
    DrainTakesStep(c, s);
  }

  /** A writer that need not wait appends all it still has, or fills the buffer. */
  lemma WriterFills(c: Config, callers: nat, events: seq<Event>, s: State, w: nat, wakes: Waiter)
    requires c.Ok() && Reaches(c, Init(callers), events, s) && Enabled(c, s, WriterLocks(w, wakes))
    requires !MustWait(c, s) && !s.closing && !s.failed
    ensures var t, x := Apply(c, s, WriterLocks(w, wakes)), s.writers[w];
            if t.writers[w].Idle? then t.buf == s.buf + x.p[x.written..]
            else
              && t.writers[w].Pushing? && t.writers[w].p == x.p && |t.buf| == c.maxBuffered
              && x.written < t.writers[w].written && t.buf == s.buf + x.p[x.written..t.writers[w].written]
  {
    Reachable(c, callers, events, s);
  }

  // ---------------------------------------------------------------- Close drains

  /** Close returns once the drain loop is done; nil means no write error was recorded. */
  predicate CloseReturnsNil(s: State) {
    s.drain.Done? && !s.failed
  }

  lemma CloseNilMeansAllWritten(c: Config, callers: nat, events: seq<Event>, s: State)
    requires c.Ok() && Reaches(c, Init(callers), events, s) && CloseReturnsNil(s)
    ensures s.raw == s.accepted
  {
    Reachable(c, callers, events, s);
    assert s.raw + [] + [] == s.raw;
  }

  /** An upper bound on the drain loop's remaining steps once `closing` is set. */
  function Remaining(s: State): nat {
    4 * |s.buf| +
    match s.drain
    case Top => 2
    case Parked(_) => 2
    case Delaying => 1
    case Writing(rest) => 3 * |rest|
    case Failing => 1
    case Done => 0
  }

  predicate ByDrain(e: Event) {
    e.DrainLocks? || e.DrainTakes? || e.RawWrites? || e.RawFails? || e.DrainFails?
  }

  function DrainSteps(events: seq<Event>): nat {
    if events == [] then 0 else (if ByDrain(events[0]) then 1 else 0) + DrainSteps(events[1..])
  }

  lemma ClosingStep(c: Config, s: State, e: Event)
    requires c.Ok() && Inv(c, s) && s.closing && Enabled(c, s, e)
    ensures Apply(c, s, e).closing && Apply(c, s, e).accepted == s.accepted
    ensures Remaining(Apply(c, s, e)) + (if ByDrain(e) then 1 else 0) <= Remaining(s)
  {
    if e.WriterLocks? {
      assert Apply(c, s, e).drain == s.drain;
    }
  }

  /** After Close nothing more is accepted and the drain loop ends: it has at most Remaining(s)
      steps left, whatever the writers do, and can take one until it is done. */
  lemma {:induction false} CloseTerminates(c: Config, s: State, events: seq<Event>, t: State)
    requires c.Ok() && Inv(c, s) && s.closing && Reaches(c, s, events, t)
    ensures DrainSteps(events) + Remaining(t) <= Remaining(s)
    ensures t.accepted == s.accepted && (DrainCanStep(c, t) || t.drain.Done?)
    decreases |events|
  {
    if events != [] {
      ClosingStep(c, s, events[0]);
      Step(c, s, events[0]);
      CloseTerminates(c, Apply(c, s, events[0]), events[1..], t);
    }
  }

  // ---------------------------------------------------------------- the program's own form

  /** sshCarrierConn between lock and unlock: each method is one critical section and does exactly
      one event of the step system. `world` holds the parts the mutex does not guard. */
  class Carrier {
    const config: Config
    var buf: seq<byte>
    var closing: bool
    var writeErr: bool
    ghost var world: State

    constructor (flushBytes: int, maxBuffered: int, ghost callers: nat)
      ensures config == NewConfig(flushBytes, maxBuffered) && View() == Init(callers)
    {
      config := NewConfig(flushBytes, maxBuffered);
      buf, closing, writeErr := [], false, false;
      world := Init(callers);
    }

    ghost function View(): State
      reads this
    {
      world.(buf := buf, closing := closing, failed := writeErr)
    }

    /** The top of writeLoop: wait, stop, or go on to the delay. */
    method CheckWork() returns (park: bool, stop: bool)
      requires Enabled(config, View(), DrainLocks)
      modifies this
      ensures View() == Apply(config, old(View()), DrainLocks)
      ensures park <==> View().drain.Parked?
      ensures stop <==> View().drain.Done?
    {
      if |buf| == 0 && !closing && !writeErr {
        world := world.(drain := Parked(false));
        return true, false;
      }
      if writeErr || (|buf| == 0 && closing) {
        world := world.(drain := Done);
        return false, true;
      }
      world := world.(drain := Delaying);
      return false, false;
    }

    /** Cuts the next batch off the buffer and wakes every waiter. */
    method TakeBatch() returns (batch: seq<byte>, stop: bool)
      requires Enabled(config, View(), DrainTakes)
      modifies this
      ensures View() == Apply(config, old(View()), DrainTakes)
      ensures stop <==> View().drain.Done?
      ensures !stop ==> View().drain == Writing(batch) && old(buf) == batch + buf
      ensures !stop ==> |batch| <= config.flushBytes && (buf == [] || |batch| == config.flushBytes)
    {
      if writeErr {
        world := world.(drain := Done);
        return [], true;
      }
      var n := |buf|;
      if n > config.flushBytes {
        n := config.flushBytes;
      }
      batch, stop := buf[..n], false;
      buf := if n == |buf| then [] else buf[n..];
      world := Broadcast(world.(drain := Writing(batch)));
      assert old(buf)[n..] == buf;
    }

    /** Records a raw write error and wakes every waiter. */
    method RecordError()
      requires Enabled(config, View(), DrainFails) && !writeErr
      modifies this
      ensures View() == Apply(config, old(View()), DrainFails)
    {
      if !writeErr {
        writeErr := true;
      }
      closing := true;
      world := Broadcast(world.(drain := Done));
    }

    /** One turn of Write's loop by caller w: wait, give up, or copy what fits and Signal. */
    method WriteTurn(ghost w: nat, p: seq<byte>, written: nat, ghost wakes: Waiter)
      returns (wait: bool, giveUp: bool, total: nat)
      requires Bounded(config, View())
      requires Enabled(config, View(), WriterLocks(w, wakes))
      requires View().writers[w].p == p && View().writers[w].written == written
      modifies this
      ensures View() == Apply(config, old(View()), WriterLocks(w, wakes))
      ensures wait <==> MustWait(config, old(View()))
      ensures giveUp <==> !wait && (writeErr || closing)
      ensures wait || giveUp ==> total == written && buf == old(buf)
      ensures !wait && !giveUp ==> written < total <= |p| && buf == old(buf) + p[written..total]
      ensures !wait && !giveUp ==> total == |p| || |buf| == config.maxBuffered
    {
      if |buf| >= config.maxBuffered && !closing && !writeErr {
        world := world.(writers := world.writers[w := Waiting(p, written, false)]);
        return true, false, written;
      }
      if writeErr || closing {
        world := world.(writers := world.writers[w := Idle]);
        return false, true, written;
      }
      var room := config.maxBuffered - |buf|;
      var take := |p| - written;
      if take > room {
        take := room;
      }
      ghost var t := Signal(View(), wakes);
      world := t.(accepted := t.accepted + p[written..written + take],
                  writers := t.writers[w := if written + take == |p| then Idle else Pushing(p, written + take)]);
      buf := buf + p[written..written + take];
      return false, false, written + take;
    }

    method MarkClosing()
      modifies this
      ensures View() == Apply(config, old(View()), Close)
    {
      closing := true;
      world := Broadcast(world);
    }
  }
}
