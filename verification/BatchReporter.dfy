/** The asynchronous batch reporter of reporter/http/http.go: the operations on the shared batch, and the
    protocol of the two goroutines as a transition system whose events are their atomic steps. */
module BatchReporter {
  import opened Counting
  import opened Model

  datatype Config = Config(batchSize: int, maxBacklog: int)

  /** The batch after one append: the oldest spans beyond maxBacklog are cut off; None if the cut would
      begin beyond the end of the slice. */
  function AppendBatch<T>(batch: seq<T>, span: T, maxBacklog: int): (r: Option<seq<T>>)
    ensures r.Some? ==> |r.value| <= |batch| + 1
  {
    var longer := batch + [span];
    if |longer| <= maxBacklog then Some(longer)
    else
      var dispose := |longer| - maxBacklog;
      if dispose <= |longer| then Some(longer[dispose..]) else None
  }

  lemma AppendInBounds<T>(batch: seq<T>, span: T, maxBacklog: int)
    ensures AppendBatch(batch, span, maxBacklog).Some? <==> maxBacklog >= 0
  {
  }

  /** Spans are disposed of only beyond the limit: an append that just reaches it keeps them all. */
  lemma AppendKeepsAll<T>(batch: seq<T>, span: T, maxBacklog: int)
    ensures AppendBatch(batch, span, maxBacklog) == Some(batch + [span]) <==> |batch| + 1 <= maxBacklog
    ensures |batch| + 1 == maxBacklog ==> AppendBatch(batch, span, maxBacklog) == Some(batch + [span])
  {
    var longer := batch + [span];
    if |longer| > maxBacklog >= 0 {
      assert |longer[|longer| - maxBacklog..]| < |longer|;
    }
  }

  /** A limit of two is reached by the second span, and none is disposed of. */
  lemma AppendAtTheLimit<T>(a: T, b: T)
    ensures AppendBatch([a], b, 2) == Some([a, b])
  {
    AppendKeepsAll([a], b, 2);
    assert [a] + [b] == [a, b];
  }

  // ---------------------------------------------------------------------------
  // The shared state and its critical sections
  // ---------------------------------------------------------------------------

  class HTTPReporter<T> {
    const config: Config
    var batch: seq<T>
    var token: bool  // sendC holds its one token

    constructor (config: Config)
      ensures this.config == config && batch == [] && !token
    {
      this.config := config;
      batch, token := [], false;
    }

    method Append(span: T) returns (newBatchSize: nat)
      requires config.maxBacklog >= 0
      modifies this
      ensures AppendBatch(old(batch), span, config.maxBacklog) == Some(batch)
      ensures newBatchSize == |batch| <= config.maxBacklog
      ensures token == old(token)
    {
      batch := batch + [span];
      if |batch| > config.maxBacklog {
        var dispose := |batch| - config.maxBacklog;
        batch := batch[dispose..];
      }
      newBatchSize := |batch|;
    }

    method EnqueueSend()
      modifies this
      ensures token && batch == old(batch)
    {
      if !token {
        token := true;
      }
    }

    /** The first critical section of sendBatch. */
    method Snapshot() returns (sendBatch: seq<T>)
      ensures sendBatch == batch
    {
      sendBatch := batch[..];
    }

    /** The second critical section of sendBatch: it removes by count, not by identity. */
    method RemoveSent(sendBatch: seq<T>)
      requires |sendBatch| <= |batch|
      modifies this
      ensures batch == old(batch)[|sendBatch|..] && token == old(token)
    {
      batch := batch[|sendBatch|..];
    }
  }

  // ---------------------------------------------------------------------------
  // The protocol
  // ---------------------------------------------------------------------------

  /** A snapshot under way. `start` and `end` are its positions among all accepted spans, and `dropsBefore`
      the number of spans disposed of before it was taken. */
  datatype Request<T> = Request(start: nat, end: nat, payload: seq<T>, dropsBefore: nat)

  datatype Loop<T> = Selecting | Appending(span: T) | Signalling | Stopped | LoopPanicked

  datatype Sender<T> =
    | Receiving
    | Starting(last: bool)
    | InFlight(last: bool, request: Request<T>)
    | Removing(last: bool, request: Request<T>)
    | Finished(failed: bool)
    | SenderPanicked

  datatype State<T> = State(
    batch: seq<T>,
    loop: Loop<T>,
    sender: Sender<T>,
    token: bool,
    closed: bool,
    quit: bool,
    closeResult: Option<bool>,
    // History: all spans appended so far, of which the batch starts at position `lo`; the positions
    // disposed of by append, removed by sendBatch, and covered by requests that reached the removal.
    accepted: seq<T>,
    lo: nat,
    dropped: set<nat>,
    removed: set<nat>,
    sentAt: set<nat>,
    sent: seq<Request<T>>,
    triggered: bool)

  datatype Event<T> =
    | Accept(span: T)    // loop: receive from spanC
    | Append             // loop: append, under the lock
    | Tick               // loop: the ticker fired and a send is due
    | Enqueue            // loop: enqueueSend
    | Stop               // loop: receive from quit, close sendC
    | Receive            // sender: receive a token
    | ReceiveClosed      // sender: sendC is closed and drained
    | TakeSnapshot       // sender: the first critical section of sendBatch
    | Fail               // sender: serialising, building or sending the request failed
    | Succeed            // sender: the request was answered
    | Remove             // sender: the second critical section of sendBatch
    | CloseCall          // Close: close(quit)
    | CloseReturn        // Close: receive from shutdown

  function Initial<T>(): State<T> {
    State([], Selecting, Receiving, false, false, false, None, [], 0, {}, {}, {}, [], false)
  }

  /** Where the sender goes when a sendBatch returns: the last one reports to shutdown. */
  function Return<T>(last: bool, failed: bool): Sender<T> {
    if last then Finished(failed) else Receiving
  }

  function Interval(a: nat, b: nat): set<nat> {
    Below(b) - Below(a)
  }

  predicate Enabled<T>(s: State<T>, e: Event<T>) {
    match e
    case Accept(_) => s.loop.Selecting?
    case Append => s.loop.Appending?
    case Tick => s.loop.Selecting?
    case Enqueue => s.loop.Signalling?
    case Stop => s.loop.Selecting? && s.quit
    case Receive => s.sender.Receiving? && s.token
    case ReceiveClosed => s.sender.Receiving? && !s.token && s.closed
    case TakeSnapshot => s.sender.Starting?
    case Fail => s.sender.InFlight?
    case Succeed => s.sender.InFlight?
    case Remove => s.sender.Removing?
    case CloseCall => !s.quit
    case CloseReturn => s.quit && s.sender.Finished? && s.closeResult.None?
  }

  function AppendStep<T>(config: Config, s: State<T>, span: T): State<T> {
    match AppendBatch(s.batch, span, config.maxBacklog)
    case None => s.(loop := LoopPanicked)
    case Some(batch) =>
      var lo := s.lo + |s.batch| + 1 - |batch|;
      s.(batch := batch,
         accepted := s.accepted + [span],
         lo := lo,
         dropped := s.dropped + Interval(s.lo, lo),
         loop := if |batch| >= config.batchSize then Signalling else Selecting)
  }

  function SnapshotStep<T>(s: State<T>, last: bool): State<T> {
    s.(triggered := false,
       sender := if s.batch == [] then Return(last, false)
                 else InFlight(last, Request(s.lo, s.lo + |s.batch|, s.batch, |s.dropped|)))
  }

  function RemoveStep<T>(s: State<T>, last: bool, r: Request<T>): State<T> {
    if |r.payload| > |s.batch| then s.(sender := SenderPanicked)
    else
      s.(batch := s.batch[|r.payload|..],
         lo := s.lo + |r.payload|,
         removed := s.removed + Interval(s.lo, s.lo + |r.payload|),
         sentAt := s.sentAt + Interval(r.start, r.end),
         sent := s.sent + [r],
         sender := Return(last, false))
  }

  function Step<T>(config: Config, s: State<T>, e: Event<T>): State<T>
    requires Enabled(s, e)
  {
    match e
    case Accept(span) => s.(loop := Appending(span))
    case Append => AppendStep(config, s, s.loop.span)
    case Tick => s.(loop := Signalling)
    case Enqueue =>
      if s.closed then s.(loop := LoopPanicked)  // a send on a closed channel
      else s.(token := true, triggered := true, loop := Selecting)
    case Stop => s.(closed := true, loop := Stopped)
    case Receive => s.(token := false, sender := Starting(false))
    case ReceiveClosed => s.(sender := Starting(true))
    case TakeSnapshot => SnapshotStep(s, s.sender.last)
    case Fail => s.(sender := Return(s.sender.last, true))
    case Succeed => s.(sender := Removing(s.sender.last, s.sender.request))
    case Remove => RemoveStep(s, s.sender.last, s.sender.request)
    case CloseCall => s.(quit := true)
    case CloseReturn => s.(closeResult := Some(s.sender.failed))
  }

  /** The state a sequence of events leads to from `s`, if every event is enabled when its turn comes. */
  function Run<T>(config: Config, s: State<T>, events: seq<Event<T>>): Option<State<T>>
    decreases |events|
  {
    if events == [] then Some(s)
    else if Enabled(s, events[0]) then Run(config, Step(config, s, events[0]), events[1..])
    else None
  }

  /** An interleaving of the two goroutines and Close, from the start. */
  ghost predicate Reachable<T(!new)>(config: Config, s: State<T>) {
    exists events: seq<Event<T>> :: Run(config, Initial(), events) == Some(s)
  }
}
