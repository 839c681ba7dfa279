/** The X wire's download pipeline (internal/xorchunk/chunk.go) as a step system.

    Any number of pull workers claim sequence numbers from one counter, fetch each chunk in
    fragments with CPULL requests that carry the reader's acknowledgement, and push results into a
    bounded channel. One reader reorders, acknowledges and detects the end. A run is any sequence
    of events: every interleaving of the workers, the reader, the server and Close, with any
    answers and any fragment sizes.

    Sequence numbers are unbounded here; the program's are uint64. */
module XPull {
  import opened Numbers
  import opened Bytes
  import opened Wrappers

  /** What a worker pushes to the reader: a whole chunk, the server's EOF, or an error. */
  datatype Result =
    | Chunk(num: nat, data: seq<byte>)
    | Eof(num: nat, final: nat)
    | Fault(num: nat)

  /** One answer to a CPULL, after framing. `Lost` is any error from the lane; `atMin` says
      whether the sizer reported that it can shrink no further (or does not adapt at all). */
  datatype Reply =
    | Lost(atMin: bool)
    | Wait
    | ErrText
    | EofLine(final: Option<nat>)
    | Garbled
    | Data(num: nat, offset: nat, total: nat, fragment: seq<byte>)

  datatype Worker =
    | Free
    | Fetching(num: nat, offset: nat, assembled: seq<byte>, minFails: nat)
    | Asking(num: nat, offset: nat, assembled: seq<byte>, minFails: nat, ack: int)
    | Sending(result: Result)
    | Stopped
  {
    /** The sequence number this worker is responsible for. */
    function Held(): Option<nat> {
      match this
      case Free => None
      case Fetching(q, _, _, _) => Some(q)
      case Asking(q, _, _, _, _) => Some(q)
      case Sending(r) => Some(r.num)
      case Stopped => None
    }
  }

  /** The reader's fields; `terminal` is the seq whose error became terminalErr. */
  datatype Reader = Reader(
    pending: map<nat, seq<byte>>, nextRead: nat, current: seq<byte>, currentSeq: nat,
    finalKnown: bool, finalSeq: nat, terminal: Option<nat>)

  /** `sent` holds the acknowledgements put on the wire so far, `freed` the largest one the server
      has acted on, `delivered` the bytes Read has returned, `retired` the seqs whose EOF the
      reader has taken, `dropped` the seqs abandoned because of Close. */
  datatype State = State(
    workers: seq<Worker>, claim: nat, ack: int, channel: seq<Result>, reader: Reader,
    sent: set<int>, freed: int, delivered: seq<byte>, retired: multiset<nat>,
    dropped: multiset<nat>, cancelled: bool, channelClosed: bool)

  datatype Config = Config(capacity: nat, serverMax: nat)

  datatype Event =
    | Claim(w: nat)                 // take the next seq
    | Ask(w: nat)                   // load ack, put a CPULL on the wire
    | Answer(w: nat, reply: Reply)  // the lane returns
    | Send(w: nat)                  // push into the channel
    | ServerFrees(upTo: int)        // the server acts on some CPULL's acknowledgement
    | Deliver(room: nat)            // Read copies into a buffer of this size
    | TakePending                   // Read moves the next chunk from pending to current
    | Receive                       // Read receives from the channel
    | Cancel                        // Close cancels the context
    | Quit(w: nat)                  // a worker sees the cancelled context
    | CloseChannel                  // Close closes the channel after every worker has stopped

  // ---------------------------------------------------------------- client steps

  const MAX_MIN_FAILURES := 8

  /** One pass through the body of the worker's inner loop after the lane returned. */
  function OnReply(serverMax: nat, q: nat, offset: nat, assembled: seq<byte>, minFails: nat, reply: Reply): Worker {
    match reply
    case Lost(atMin) =>
      var n := if atMin then minFails + 1 else 0;
      if n >= MAX_MIN_FAILURES then Sending(Fault(q)) else Fetching(q, offset, assembled, n)
    case Wait => Fetching(q, offset, assembled, minFails)
    case ErrText => Sending(Fault(q))
    case EofLine(None) => Sending(Fault(q))
    case EofLine(Some(n)) => Sending(Eof(q, n))
    case Garbled => Sending(Fault(q))
    case Data(gotSeq, gotOffset, total, fragment) =>
      if gotSeq != q || gotOffset != offset then Sending(Fault(q))
      else if total > serverMax || total < offset + |fragment| || |fragment| == 0 then Sending(Fault(q))
      else if offset + |fragment| == total then Sending(Chunk(q, assembled + fragment))
      else Fetching(q, offset + |fragment|, assembled + fragment, 0)
  }

  /** Where a worker goes once its result has been pushed: errors end it. */
  function AfterSend(r: Result): Worker {
    if r.Fault? then Stopped else Free
  }

  predicate AtEof(r: Reader) {
    r.finalKnown && r.nextRead >= r.finalSeq
  }

  /** Read has nothing left but the channel: it receives, or blocks while it is empty. */
  predicate NeedsChannel(r: Reader) {
    r.current == [] && r.terminal.None? && !AtEof(r) && r.nextRead !in r.pending
  }

  /** The reader after it received `x` from the channel. */
  function OnReceive(r: Reader, x: Result): Reader {
    match x
    case Fault(q) => r.(terminal := Some(q))
    case Eof(_, n) =>
      if !r.finalKnown || n < r.finalSeq then r.(finalKnown := true, finalSeq := n) else r
    case Chunk(q, data) =>
      if q < r.nextRead then r else r.(pending := r.pending[q := data])
  }

  /** The reader after copying n bytes out of `current`. */
  function OnDeliver(r: Reader, n: nat): Reader
    requires n <= |r.current|
  {
    if n == |r.current| then r.(current := [], nextRead := r.nextRead + 1)
    else r.(current := r.current[n..])
  }

  function OnTake(r: Reader): Reader
    requires r.nextRead in r.pending
  {
    r.(pending := r.pending - {r.nextRead}, current := r.pending[r.nextRead], currentSeq := r.nextRead)
  }

  function Singleton(x: Option<nat>): multiset<nat> {
    match x case None => multiset{} case Some(q) => multiset{q}
  }

  predicate Enabled(c: Config, s: State, e: Event) {
    match e
    case Claim(w) => w < |s.workers| && s.workers[w].Free?
    case Ask(w) => w < |s.workers| && s.workers[w].Fetching?
    case Answer(w, _) => w < |s.workers| && s.workers[w].Asking?
    case Send(w) => w < |s.workers| && s.workers[w].Sending? && |s.channel| < c.capacity
    case ServerFrees(a) => a in s.sent
    case Deliver(_) => s.reader.current != []
    case TakePending =>
      s.reader.current == [] && s.reader.terminal.None? && !AtEof(s.reader) && s.reader.nextRead in s.reader.pending
    case Receive => NeedsChannel(s.reader) && s.channel != []
    case Cancel => !s.cancelled
    case Quit(w) => s.cancelled && w < |s.workers| && !s.workers[w].Stopped?
    case CloseChannel => s.cancelled && forall i :: 0 <= i < |s.workers| ==> s.workers[i].Stopped?
  }

  function Apply(c: Config, s: State, e: Event): State
    requires Enabled(c, s, e)
  {
    match e
    case Claim(w) =>
      s.(workers := s.workers[w := Fetching(s.claim, 0, [], 0)], claim := s.claim + 1)
    case Ask(w) =>
      var f := s.workers[w];
      s.(workers := s.workers[w := Asking(f.num, f.offset, f.assembled, f.minFails, s.ack)], sent := s.sent + {s.ack})
    case Answer(w, reply) =>
      var a := s.workers[w];
      s.(workers := s.workers[w := OnReply(c.serverMax, a.num, a.offset, a.assembled, a.minFails, reply)])
    case Send(w) =>
      var r := s.workers[w].result;
      s.(workers := s.workers[w := AfterSend(r)], channel := s.channel + [r])
    case ServerFrees(a) =>
      s.(freed := if a > s.freed then a else s.freed)
    case Deliver(room) =>
      var n := Min(room, |s.reader.current|);
      var r := OnDeliver(s.reader, n);
      s.(delivered := s.delivered + s.reader.current[..n], reader := r,
         ack := if r.current == [] then s.reader.currentSeq else s.ack)
    case TakePending => s.(reader := OnTake(s.reader))
    case Receive =>
      var x := s.channel[0];
      s.(channel := s.channel[1..], reader := OnReceive(s.reader, x),
         retired := if x.Eof? then s.retired + multiset{x.num} else s.retired)
    case Cancel => s.(cancelled := true)
    case Quit(w) =>
      s.(workers := s.workers[w := Stopped], dropped := s.dropped + Singleton(s.workers[w].Held()))
    case CloseChannel => s.(channelClosed := true)
  }

  function Init(pollers: nat): State {
    State(seq(pollers, _ => Free), 0, -1, [], Reader(map[], 0, [], 0, false, 0, None),
          {}, -1, [], multiset{}, multiset{}, false, false)
  }

  /** `t` is reached from `s` by these events, every one enabled when it happens. */
  predicate Reaches(c: Config, s: State, events: seq<Event>, t: State)
    decreases |events|
  {
    if events == [] then s == t
    else Enabled(c, s, events[0]) && Reaches(c, Apply(c, s, events[0]), events[1..], t)
  }

  lemma {:induction false} ReachesThen(c: Config, s: State, events: seq<Event>, t: State, e: Event)
    requires Reaches(c, s, events, t) && Enabled(c, t, e)
    ensures Reaches(c, s, events + [e], Apply(c, t, e))
    decreases |events|
  {
    if events == [] {
      assert (events + [e])[1..] == [];
    } else {
      assert (events + [e])[1..] == events[1..] + [e];
      ReachesThen(c, Apply(c, s, events[0]), events[1..], t, e);
    }
  }

  // ---------------------------------------------------------------- where every claimed seq is

  /** How many workers hold q. */
  ghost function HeldBy(ws: seq<Worker>, q: nat): nat {
    if ws == [] then 0 else One(ws[0].Held() == Some(q)) + HeldBy(ws[1..], q)
  }

  /** How many results in the channel are for q. */
  ghost function InChannel(rs: seq<Result>, q: nat): nat {
    if rs == [] then 0 else One(rs[0].num == q) + InChannel(rs[1..], q)
  }

  ghost function InReader(r: Reader, q: nat): nat {
    One(q in r.pending) + One(r.current != [] && r.currentSeq == q) + One(r.terminal == Some(q)) + One(q < r.nextRead)
  }

  /** The number of places q is in: held by a worker, in the channel, in the reader (pending,
      current, consumed, or behind the terminal error), past the end, or abandoned by Close. */
  ghost function Places(s: State, q: nat): nat {
    HeldBy(s.workers, q) + InChannel(s.channel, q) + InReader(s.reader, q) + s.retired[q] + s.dropped[q]
  }

  lemma {:induction false} HeldByUpdate(ws: seq<Worker>, i: nat, x: Worker, q: nat)
    requires i < |ws|
    ensures HeldBy(ws[i := x], q) == HeldBy(ws, q) - One(ws[i].Held() == Some(q)) + One(x.Held() == Some(q))
  {
    if i == 0 {
      assert ws[i := x][1..] == ws[1..];
    } else {
      assert ws[i := x][1..] == ws[1..][i - 1 := x];
      HeldByUpdate(ws[1..], i - 1, x, q);
    }
  }

  lemma {:induction false} HeldByMember(ws: seq<Worker>, i: nat, q: nat)
    requires i < |ws| && ws[i].Held() == Some(q)
    ensures HeldBy(ws, q) >= 1
  {
    if i > 0 {
      HeldByMember(ws[1..], i - 1, q);
    }
  }

  lemma {:induction false} HeldByFinds(ws: seq<Worker>, q: nat) returns (i: nat)
    requires HeldBy(ws, q) >= 1
    ensures i < |ws| && ws[i].Held() == Some(q)
  {
    if ws[0].Held() == Some(q) {
      i := 0;
    } else {
      i := HeldByFinds(ws[1..], q);
      i := i + 1;
    }
  }

  lemma {:induction false} InChannelAppend(rs: seq<Result>, x: Result, q: nat)
    ensures InChannel(rs + [x], q) == InChannel(rs, q) + One(x.num == q)
  {
    if rs == [] {
      assert (rs + [x])[1..] == [];
    } else {
      assert (rs + [x])[1..] == rs[1..] + [x];
      InChannelAppend(rs[1..], x, q);
    }
  }

  lemma {:induction false} InChannelMember(rs: seq<Result>, i: nat)
    requires i < |rs|
    ensures InChannel(rs, rs[i].num) >= 1
  {
    if i > 0 {
      InChannelMember(rs[1..], i - 1);
    }
  }

  // ---------------------------------------------------------------- client-only invariant

  /** Every claimed seq is in exactly one place and nothing else is anywhere. */
  ghost predicate EverySeqOnce(s: State) {
    forall q: nat :: Places(s, q) == One(q < s.claim)
  }

  predicate WorkerOk(s: State, x: Worker) {
    match x
    case Free => true
    case Fetching(_, offset, assembled, minFails) => |assembled| == offset && minFails < MAX_MIN_FAILURES
    case Asking(_, offset, assembled, minFails, ack) =>
      |assembled| == offset && minFails < MAX_MIN_FAILURES && ack in s.sent
    case Sending(r) => r.Chunk? ==> r.data != []
    case Stopped => true
  }

  ghost predicate ReaderOk(s: State) {
    && s.ack == s.reader.nextRead - 1
    && (s.reader.current != [] ==> s.reader.currentSeq == s.reader.nextRead)
    && (forall q :: q in s.reader.pending ==> s.reader.pending[q] != [])
    && (s.reader.finalKnown <==> s.retired != multiset{})
    && (forall a :: a in s.sent ==> a <= s.ack)
    && s.freed <= s.ack
  }

  ghost predicate ChannelOk(c: Config, s: State) {
    && |s.channel| <= c.capacity
    && (forall r :: r in s.channel && r.Chunk? ==> r.data != [])
  }

  ghost predicate WorkersOk(s: State) {
    forall x :: x in s.workers ==> WorkerOk(s, x)
  }

  /** Before Close nothing is abandoned, and a worker stops only behind an error the reader gets. */
  ghost predicate ShutdownOk(s: State) {
    && (!s.cancelled ==> s.dropped == multiset{} && !s.channelClosed)
    && (s.channelClosed ==> forall x :: x in s.workers ==> x.Stopped?)
    && (s.cancelled || Stopped !in s.workers || s.reader.terminal.Some? || exists r :: r in s.channel && r.Fault?)
  }

  /** What every run keeps, whatever the server answers. */
  ghost predicate ClientInv(c: Config, s: State) {
    EverySeqOnce(s) && ReaderOk(s) && ChannelOk(c, s) && WorkersOk(s) && ShutdownOk(s)
  }

  lemma {:induction false} NobodyHolds(n: nat, q: nat)
    ensures HeldBy(Init(n).workers, q) == 0
  {
    if n > 0 {
      assert Init(n).workers[1..] == Init(n - 1).workers;
      NobodyHolds(n - 1, q);
    }
  }

  lemma InitInv(c: Config, pollers: nat)
    ensures ClientInv(c, Init(pollers))
  {
    forall q: nat ensures Places(Init(pollers), q) == 0 {
      NobodyHolds(pollers, q);
    }
  }

  lemma WorkerStepPlaces(c: Config, s: State, e: Event, q: nat)
    requires e.Claim? || e.Ask? || e.Answer? || e.Send? || e.Quit?
    requires Enabled(c, s, e) && Places(s, q) == One(q < s.claim)
    ensures Places(Apply(c, s, e), q) == One(q < Apply(c, s, e).claim)
  {
    var t := Apply(c, s, e);
    HeldByUpdate(s.workers, e.w, t.workers[e.w], q);
    if e.Send? {
      InChannelAppend(s.channel, s.workers[e.w].result, q);
    }
  }

  lemma ReceivePlaces(c: Config, s: State, q: nat)
    requires Enabled(c, s, Receive) && EverySeqOnce(s)
    ensures Places(Apply(c, s, Receive), q) == Places(s, q)
  {
    var x := s.channel[0];
    InChannelMember(s.channel, 0);
    assert Places(s, x.num) == One(x.num < s.claim);
    assert InChannel(s.channel, q) == One(x.num == q) + InChannel(s.channel[1..], q);
    assert InReader(OnReceive(s.reader, x), q) + One(x.Eof? && x.num == q) == InReader(s.reader, q) + One(x.num == q);
  }

  lemma DeliverPlaces(c: Config, s: State, room: nat, q: nat)
    requires Enabled(c, s, Deliver(room)) && Places(s, q) == One(q < s.claim)
    requires s.reader.currentSeq == s.reader.nextRead
    ensures Places(Apply(c, s, Deliver(room)), q) == Places(s, q)
  {
    assert InReader(Apply(c, s, Deliver(room)).reader, q) == InReader(s.reader, q);
  }

  lemma TakePlaces(c: Config, s: State, q: nat)
    requires Enabled(c, s, TakePending) && s.reader.pending[s.reader.nextRead] != []
    ensures Places(Apply(c, s, TakePending), q) == Places(s, q)
  {
    assert InReader(OnTake(s.reader), q) == InReader(s.reader, q);
  }

  /** Each step moves at most one seq, from exactly one place to exactly one place. */
  lemma PlacesStep(c: Config, s: State, e: Event)
    requires ClientInv(c, s) && Enabled(c, s, e)
    ensures EverySeqOnce(Apply(c, s, e))
  {
    forall q: nat ensures Places(Apply(c, s, e), q) == One(q < Apply(c, s, e).claim) {
      assert Places(s, q) == One(q < s.claim);
      match e {
        case Receive => ReceivePlaces(c, s, q);
        case Deliver(room) => DeliverPlaces(c, s, room, q);
        case TakePending => TakePlaces(c, s, q);
        case ServerFrees(_) =>
        case Cancel =>
        case CloseChannel =>
        case _ => WorkerStepPlaces(c, s, e, q);
      }
    }
  }

  /** A seq in a worker's hands, in the channel or in pending has not been consumed. */
  lemma NotConsumed(s: State, q: nat)
    requires EverySeqOnce(s)
    requires HeldBy(s.workers, q) + InChannel(s.channel, q) + One(q in s.reader.pending) >= 1
    ensures s.reader.nextRead <= q < s.claim
  {
    assert Places(s, q) == One(q < s.claim);
  }

  lemma DeliverStep(c: Config, s: State, room: nat)
    requires ReaderOk(s) && Enabled(c, s, Deliver(room))
    ensures ReaderOk(Apply(c, s, Deliver(room)))
  {
    var r := OnDeliver(s.reader, Min(room, |s.reader.current|));
    assert r.pending == s.reader.pending;
  }

  lemma TakeStep(c: Config, s: State)
    requires ReaderOk(s) && Enabled(c, s, TakePending)
    ensures ReaderOk(Apply(c, s, TakePending))
  {
    var r := OnTake(s.reader);
    assert forall q :: q in r.pending ==> r.pending[q] == s.reader.pending[q];
  }

  lemma ReceiveStep(c: Config, s: State)
    requires ReaderOk(s) && ChannelOk(c, s) && Enabled(c, s, Receive)
    ensures ReaderOk(Apply(c, s, Receive)) && ChannelOk(c, Apply(c, s, Receive))
  {
    var x := s.channel[0];
    assert x in s.channel;
    var t := Apply(c, s, Receive);
    assert x.Eof? ==> t.retired[x.num] > 0;
    assert forall q :: q in t.reader.pending ==> q in s.reader.pending || (x.Chunk? && q == x.num);
    assert forall r :: r in t.channel ==> r in s.channel;
  }

  lemma ReaderStep(c: Config, s: State, e: Event)
    requires ReaderOk(s) && ChannelOk(c, s) && Enabled(c, s, e) && !e.Send?
    ensures ReaderOk(Apply(c, s, e)) && ChannelOk(c, Apply(c, s, e))
  {
    if e.Deliver? {
      DeliverStep(c, s, e.room);
    } else if e.TakePending? {
      TakeStep(c, s);
    } else if e.Receive? {
      ReceiveStep(c, s);
    } else {
      assert Apply(c, s, e).reader == s.reader && Apply(c, s, e).retired == s.retired;
    }
  }

  lemma SendStep(c: Config, s: State, w: nat)
    requires ReaderOk(s) && ChannelOk(c, s) && WorkersOk(s) && Enabled(c, s, Send(w))
    ensures ReaderOk(Apply(c, s, Send(w))) && ChannelOk(c, Apply(c, s, Send(w)))
  {
    assert WorkerOk(s, s.workers[w]);
  }

  lemma WorkersStep(c: Config, s: State, e: Event)
    requires WorkersOk(s) && Enabled(c, s, e)
    ensures WorkersOk(Apply(c, s, e))
  {
    var t := Apply(c, s, e);
    forall x | x in t.workers ensures WorkerOk(t, x) {
      if x in s.workers {
        assert WorkerOk(s, x);
      } else {
        assert WorkerOk(s, s.workers[e.w]);
      }
    }
  }

  lemma ShutdownStep(c: Config, s: State, e: Event)
    requires ShutdownOk(s) && Enabled(c, s, e)
    ensures ShutdownOk(Apply(c, s, e))
  {
    var t := Apply(c, s, e);
    if e.Receive? && !s.cancelled && Stopped in s.workers && t.reader.terminal.None? {
      var r :| r in s.channel && r.Fault?;
      assert r in t.channel;
    }
    if e.Claim? || e.Ask? || e.Answer? || e.Quit? || e.Send? {
      assert s.workers[e.w] in s.workers;
    }
    if e.Send? {
      assert s.workers[e.w] in s.workers && s.workers[e.w].result in t.channel;
      assert forall r :: r in s.channel ==> r in t.channel;
    }
  }

  lemma ClientStep(c: Config, s: State, e: Event)
    requires ClientInv(c, s) && Enabled(c, s, e)
    ensures ClientInv(c, Apply(c, s, e))
  {
    PlacesStep(c, s, e);
    if e.Send? { SendStep(c, s, e.w); } else { ReaderStep(c, s, e); }
    WorkersStep(c, s, e);
    ShutdownStep(c, s, e);
  }

  /** Client only: whatever the server answers, every run keeps the invariant. */
  lemma {:induction false} ClientRuns(c: Config, s: State, events: seq<Event>, t: State)
    requires ClientInv(c, s) && Reaches(c, s, events, t)
    ensures ClientInv(c, t)
    decreases |events|
  {
    if events != [] {
      ClientStep(c, s, events[0]);
      ClientRuns(c, Apply(c, s, events[0]), events[1..], t);
    }
  }

  /** Client only: every request on the wire acknowledges strictly less than the seq it asks for,
      so a server that frees acknowledged chunks never frees one that is still wanted; and each
      claimed seq is in exactly one place. */
  lemma NeverFreesWanted(c: Config, pollers: nat, events: seq<Event>, t: State)
    requires Reaches(c, Init(pollers), events, t)
    ensures EverySeqOnce(t)
    ensures t.ack == t.reader.nextRead - 1
    ensures forall i :: 0 <= i < |t.workers| && t.workers[i].Asking? ==> t.workers[i].ack < t.workers[i].num
    ensures forall i :: 0 <= i < |t.workers| && t.workers[i].Held().Some? ==> t.freed < t.workers[i].Held().value
    ensures t.freed < t.claim
  {
    InitInv(c, pollers);
    ClientRuns(c, Init(pollers), events, t);
    forall i | 0 <= i < |t.workers| && t.workers[i].Held().Some?
      ensures t.reader.nextRead <= t.workers[i].Held().value
    {
      HeldByMember(t.workers, i, t.workers[i].Held().value);
      NotConsumed(t, t.workers[i].Held().value);
    }
    forall i | 0 <= i < |t.workers| && t.workers[i].Asking?
      ensures t.workers[i].ack < t.workers[i].num
    {
      assert WorkerOk(t, t.workers[i]);
      assert t.reader.nextRead <= t.workers[i].Held().value;
    }
    ConsumedWereClaimed(t);
  }

  /** Each request acknowledges everything consumed when it is sent, and asks for what its worker
      still lacks. */
  lemma AskAcksConsumed(c: Config, pollers: nat, events: seq<Event>, s: State, w: nat)
    requires Reaches(c, Init(pollers), events, s) && Enabled(c, s, Ask(w))
    ensures var t := Apply(c, s, Ask(w));
            && t.workers[w].Asking? && t.workers[w].Held() == s.workers[w].Held()
            && t.workers[w].offset == |s.workers[w].assembled| && t.workers[w].ack == s.reader.nextRead - 1
            && s.reader.nextRead - 1 in t.sent
  {
    InitInv(c, pollers);
    ClientRuns(c, Init(pollers), events, s);
    assert WorkerOk(s, s.workers[w]);
  }

  lemma ConsumedWereClaimed(s: State)
    requires EverySeqOnce(s)
    ensures s.reader.nextRead <= s.claim
  {
    assert Places(s, s.claim) == 0;
  }

  // ---------------------------------------------------------------- with an honest server

  /** A reply the client would believe tells the truth about `chunks`. Nothing is assumed about a
      chunk the server has already freed, about positions the client did not ask for, or about
      losses, waits and errors. */
  predicate Honest(chunks: seq<seq<byte>>, freed: int, q: nat, offset: nat, reply: Reply) {
    q > freed ==>
      match reply
      case EofLine(Some(n)) => n == |chunks| && q >= |chunks|
      case Data(gotSeq, gotOffset, total, fragment) =>
        gotSeq == q && gotOffset == offset ==>
          && q < |chunks| && total == |chunks[q]|
          && (offset + |fragment| <= total ==> fragment == chunks[q][offset..offset + |fragment|])
      case _ => true
  }

  predicate HonestStep(chunks: seq<seq<byte>>, s: State, e: Event) {
    e.Answer? && e.w < |s.workers| && s.workers[e.w].Asking? ==>
      Honest(chunks, s.freed, s.workers[e.w].num, s.workers[e.w].offset, e.reply)
  }

  predicate HonestRun(chunks: seq<seq<byte>>, c: Config, s: State, events: seq<Event>)
    decreases |events|
  {
    events != [] && Enabled(c, s, events[0]) ==>
      HonestStep(chunks, s, events[0]) && HonestRun(chunks, c, Apply(c, s, events[0]), events[1..])
  }

  predicate PartOf(chunks: seq<seq<byte>>, q: nat, assembled: seq<byte>) {
    if q < |chunks| then assembled <= chunks[q] else assembled == []
  }

  predicate ResultTrue(chunks: seq<seq<byte>>, r: Result) {
    match r
    case Chunk(q, data) => q < |chunks| && data == chunks[q]
    case Eof(q, n) => n == |chunks| && q >= |chunks|
    case Fault(_) => true
  }

  predicate WorkerTrue(chunks: seq<seq<byte>>, x: Worker) {
    match x
    case Fetching(q, _, assembled, _) => PartOf(chunks, q, assembled)
    case Asking(q, _, assembled, _, _) => PartOf(chunks, q, assembled)
    case Sending(r) => ResultTrue(chunks, r)
    case _ => true
  }

  /** How many chunks the reader has consumed or holds in `current`. */
  function Taken(r: Reader): nat {
    r.nextRead + (if r.current != [] then 1 else 0)
  }

  ghost predicate ReaderTrue(chunks: seq<seq<byte>>, s: State) {
    && (forall q :: q in s.reader.pending ==> q < |chunks| && s.reader.pending[q] == chunks[q])
    && (s.reader.finalKnown ==> s.reader.finalSeq == |chunks|)
    && (forall q :: s.retired[q] > 0 ==> q >= |chunks|)
    && Taken(s.reader) <= |chunks|
    && s.delivered + s.reader.current == Flatten(chunks[..Taken(s.reader)])
  }

  ghost predicate ServerInv(chunks: seq<seq<byte>>, s: State) {
    && (forall x :: x in s.workers ==> WorkerTrue(chunks, x))
    && (forall r :: r in s.channel ==> ResultTrue(chunks, r))
    && ReaderTrue(chunks, s)
  }

  /** One answer, honest about a chunk not yet freed, keeps a worker's bytes a piece of the chunk. */
  lemma ReplyTrue(
      chunks: seq<seq<byte>>, serverMax: nat, freed: int, q: nat, assembled: seq<byte>, minFails: nat, reply: Reply)
    requires q > freed && Honest(chunks, freed, q, |assembled|, reply)
    requires PartOf(chunks, q, assembled)
    ensures WorkerTrue(chunks, OnReply(serverMax, q, |assembled|, assembled, minFails, reply))
  {
    if reply.Data? && reply.num == q && reply.offset == |assembled| && |assembled| + |reply.fragment| <= reply.total {
      assert assembled + reply.fragment == chunks[q][..|assembled| + |reply.fragment|];
    }
  }

  lemma WorkersTrueStep(chunks: seq<seq<byte>>, c: Config, s: State, e: Event)
    requires EverySeqOnce(s) && ReaderOk(s) && WorkersOk(s)
    requires forall x :: x in s.workers ==> WorkerTrue(chunks, x)
    requires Enabled(c, s, e) && HonestStep(chunks, s, e)
    ensures forall x :: x in Apply(c, s, e).workers ==> WorkerTrue(chunks, x)
  {
    if e.Answer? {
      var a := s.workers[e.w];
      HeldByMember(s.workers, e.w, a.num);
      NotConsumed(s, a.num);
      assert WorkerOk(s, a) && WorkerTrue(chunks, a);
      ReplyTrue(chunks, c.serverMax, s.freed, a.num, a.assembled, a.minFails, e.reply);
    } else if e.Ask? {
      assert WorkerTrue(chunks, s.workers[e.w]);
    }
  }

  lemma TakeTrue(chunks: seq<seq<byte>>, c: Config, s: State)
    requires ReaderTrue(chunks, s) && Enabled(c, s, TakePending)
    requires s.reader.pending[s.reader.nextRead] != []
    ensures ReaderTrue(chunks, Apply(c, s, TakePending))
  {
    var n := s.reader.nextRead;
    assert chunks[..n + 1][..n] == chunks[..n];
    assert s.delivered + [] == s.delivered;
  }

  lemma DeliverTrue(chunks: seq<seq<byte>>, c: Config, s: State, room: nat)
    requires ReaderTrue(chunks, s) && Enabled(c, s, Deliver(room))
    ensures ReaderTrue(chunks, Apply(c, s, Deliver(room)))
  {
    var t := Apply(c, s, Deliver(room));
    assert t.delivered + t.reader.current == s.delivered + s.reader.current;
  }

  lemma ReceiveTrue(chunks: seq<seq<byte>>, c: Config, s: State)
    requires ReaderTrue(chunks, s) && Enabled(c, s, Receive) && ResultTrue(chunks, s.channel[0])
    ensures ReaderTrue(chunks, Apply(c, s, Receive))
  {
  }

  lemma ReaderTrueStep(chunks: seq<seq<byte>>, c: Config, s: State, e: Event)
    requires ReaderOk(s) && ReaderTrue(chunks, s)
    requires forall r :: r in s.channel ==> ResultTrue(chunks, r)
    requires Enabled(c, s, e)
    ensures ReaderTrue(chunks, Apply(c, s, e))
  {
    if e.Deliver? {
      DeliverTrue(chunks, c, s, e.room);
    } else if e.TakePending? {
      TakeTrue(chunks, c, s);
    } else if e.Receive? {
      ReceiveTrue(chunks, c, s);
    } else {
      assert Apply(c, s, e).reader == s.reader && Apply(c, s, e).delivered == s.delivered;
    }
  }

  lemma ServerStep(chunks: seq<seq<byte>>, c: Config, s: State, e: Event)
    requires ClientInv(c, s) && ServerInv(chunks, s)
    requires Enabled(c, s, e) && HonestStep(chunks, s, e)
    ensures ServerInv(chunks, Apply(c, s, e))
  {
    WorkersTrueStep(chunks, c, s, e);
    ReaderTrueStep(chunks, c, s, e);
    if e.Send? {
      assert WorkerTrue(chunks, s.workers[e.w]);
    }
  }

  lemma {:induction false} ServerRuns(chunks: seq<seq<byte>>, c: Config, s: State, events: seq<Event>, t: State)
    requires ClientInv(c, s) && ServerInv(chunks, s)
    requires Reaches(c, s, events, t) && HonestRun(chunks, c, s, events)
    ensures ClientInv(c, t) && ServerInv(chunks, t)
    decreases |events|
  {
    if events != [] {
      ClientStep(c, s, events[0]);
      ServerStep(chunks, c, s, events[0]);
      ServerRuns(chunks, c, Apply(c, s, events[0]), events[1..], t);
    }
  }

  lemma FromInit(chunks: seq<seq<byte>>, c: Config, pollers: nat, events: seq<Event>, t: State)
    requires Reaches(c, Init(pollers), events, t) && HonestRun(chunks, c, Init(pollers), events)
    ensures ClientInv(c, t) && ServerInv(chunks, t)
  {
    InitInv(c, pollers);
    ServerRuns(chunks, c, Init(pollers), events, t);
  }

  lemma {:induction false} FlattenPrefix(chunks: seq<seq<byte>>, n: nat)
    requires n <= |chunks|
    ensures Flatten(chunks[..n]) <= Flatten(chunks)
    decreases |chunks| - n
  {
    if n < |chunks| {
      assert chunks[..n + 1][..n] == chunks[..n];
      FlattenPrefix(chunks, n + 1);
    } else {
      assert chunks[..n] == chunks;
    }
  }

  /** What Read has returned is always a prefix of the server's stream, even after Close. */
  lemma DeliveredIsPrefix(chunks: seq<seq<byte>>, c: Config, pollers: nat, events: seq<Event>, t: State)
    requires Reaches(c, Init(pollers), events, t) && HonestRun(chunks, c, Init(pollers), events)
    ensures t.delivered <= Flatten(chunks)
  {
    FromInit(chunks, c, pollers, events, t);
    FlattenPrefix(chunks, Taken(t.reader));
  }

  /** Read returns io.EOF: the final seq has been reached, or the channel is closed and drained. */
  predicate ReadReturnsEof(s: State) {
    && s.reader.current == [] && s.reader.terminal.None?
    && (AtEof(s.reader) || (NeedsChannel(s.reader) && s.channel == [] && s.channelClosed))
  }

  /** EOF means that every chunk has been delivered when the final seq was reached, which is the
      only way to see EOF before Close. */
  lemma EofMeansEverything(chunks: seq<seq<byte>>, c: Config, pollers: nat, events: seq<Event>, t: State)
    requires Reaches(c, Init(pollers), events, t) && HonestRun(chunks, c, Init(pollers), events)
    requires ReadReturnsEof(t)
    ensures AtEof(t.reader) || !t.cancelled ==> t.delivered == Flatten(chunks)
  {
    FromInit(chunks, c, pollers, events, t);
    if AtEof(t.reader) || !t.cancelled {
      assert Taken(t.reader) == |chunks|;
      assert chunks[..|chunks|] == chunks;
    }
  }

  /** After Close it can mean less: a closed empty channel also reads as EOF. */
  lemma EofAfterCloseCanBeEarly(chunks: seq<seq<byte>>, c: Config)
    requires Flatten(chunks) != []
    ensures exists events, t :: Reaches(c, Init(1), events, t) && HonestRun(chunks, c, Init(1), events)
              && ReadReturnsEof(t) && t.delivered != Flatten(chunks)
  {
    var s0 := Init(1);
    var s1 := Apply(c, s0, Cancel);
    var s2 := Apply(c, s1, Quit(0));
    var s3 := Apply(c, s2, CloseChannel);
    var e3 := [CloseChannel];
    var e2 := [Quit(0)] + e3;
    var e1 := [Cancel] + e2;
    assert e1[1..] == e2 && e2[1..] == e3 && e3[1..] == [];
    assert Reaches(c, s3, [], s3) && HonestRun(chunks, c, s3, []);
    assert Reaches(c, s2, e3, s3) && HonestRun(chunks, c, s2, e3);
    assert Reaches(c, s1, e2, s3) && HonestRun(chunks, c, s1, e2);
    assert Reaches(c, s0, e1, s3) && HonestRun(chunks, c, s0, e1);
  }

  // ---------------------------------------------------------------- no stuck state

  /** This worker's next step needs neither the channel nor the reader. */
  predicate Live(x: Worker) {
    x.Fetching? || x.Asking?
  }

  /** Whenever Read waits on an empty channel before Close, either some worker that can step
      without the channel being drained holds exactly the chunk the reader needs, or nothing from
      that chunk on is claimed and every worker is free to claim it. With room in the channel a
      worker that is about to push is not blocked either. */
  lemma NoStuckState(chunks: seq<seq<byte>>, c: Config, pollers: nat, events: seq<Event>, t: State) returns (w: nat)
    requires c.capacity > 0
    requires Reaches(c, Init(pollers), events, t) && HonestRun(chunks, c, Init(pollers), events)
    requires NeedsChannel(t.reader) && t.channel == [] && !t.cancelled
    ensures
      || (w < |t.workers| && t.workers[w].Held() == Some(t.reader.nextRead)
          && (Live(t.workers[w]) || Enabled(c, t, Send(w))))
      || (t.claim == t.reader.nextRead && forall i :: 0 <= i < |t.workers| ==> t.workers[i].Free?)
  {
    FromInit(chunks, c, pollers, events, t);
    ConsumedWereClaimed(t);
    var q := t.reader.nextRead;
    assert Places(t, q) == One(q < t.claim);
    if q < t.claim {
      assert t.retired[q] == 0 by {
        assert t.retired[q] > 0 ==> q >= |chunks| && t.retired != multiset{};
      }
      w := HeldByFinds(t.workers, q);
    } else {
      w := 0;
      forall i | 0 <= i < |t.workers| ensures t.workers[i].Free? {
        if t.workers[i].Held().Some? {
          HeldByMember(t.workers, i, t.workers[i].Held().value);
          NotConsumed(t, t.workers[i].Held().value);
          assert false;
        }
      }
    }
  }
}
