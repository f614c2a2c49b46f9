/** When the batch reporter sends: what triggers a request, what each answer leads to, what a run accepts and how
    often it sends, and that Close can always be brought to its end. */
module ReporterSignals {
  import opened Model
  import opened BatchReporter
  import opened ReporterSafety
  import opened ReporterTheorems

  // ---------------------------------------------------------------------------
  // Triggers
  // ---------------------------------------------------------------------------

  /** The loop signals next exactly after a due tick, after an append that leaves the batch at batchSize or
      above, and as long as it was about to signal and has not. */
  lemma SignalsExactly<T>(config: Config, s: State<T>, e: Event<T>)
    requires config.maxBacklog >= 0 && Enabled(s, e)
    ensures Enabled(Step(config, s, e), Enqueue) <==>
            || e.Tick?
            || (e.Append? && |Step(config, s, e).batch| >= config.batchSize)
            || (s.loop.Signalling? && !e.Enqueue?)
  {
    if e.Append? {
      AppendInBounds(s.batch, s.loop.span, config.maxBacklog);
    }
  }

  /** A signal is due or has been given since the last snapshot. */
  predicate Pending<T>(s: State<T>) {
    s.loop.Signalling? || s.triggered
  }

  lemma {:induction false} PendingStays<T>(config: Config, s: State<T>, events: seq<Event<T>>)
    requires config.maxBacklog >= 0 && Inv(config, s) && Pending(s) && Run(config, s, events).Some?
    requires forall i :: 0 <= i < |events| ==> !events[i].TakeSnapshot?
    ensures Pending(Run(config, s, events).value)
    decreases |events|
  {
    if events != [] {
      StepKeepsInv(config, s, events[0]);
      StepKeepsPending(config, s, events[0]);
      PendingStays(config, Step(config, s, events[0]), events[1..]);
    }
  }

  lemma StepKeepsPending<T>(config: Config, s: State<T>, e: Event<T>)
    requires LoopConsistent(s) && Enabled(s, e)
    requires Pending(s) && !e.TakeSnapshot?
    ensures Pending(Step(config, s, e))
  {
  }

  lemma SignallingIsHeard<T>(config: Config, s: State<T>, events: seq<Event<T>>)
    requires config.maxBacklog >= 0 && Inv(config, s) && s.loop.Signalling?
    requires forall i :: 0 <= i < |events| ==> !events[i].TakeSnapshot?
    requires Run(config, s, events).Some?
    ensures var s' := Run(config, s, events).value;
            Enabled(s', Enqueue) || s'.token || s'.sender.Starting?
  {
    RunKeepsInv(config, s, events);
    PendingStays(config, s, events);
  }

  lemma SnapshotAfterRun<T>(config: Config, s: State<T>, events: seq<Event<T>>)
    requires config.maxBacklog >= 0 && Inv(config, s) && Run(config, s, events).Some?
    requires Enabled(Run(config, s, events).value, TakeSnapshot)
    ensures forall p: nat :: p < |s.accepted| ==>
              TakenOrGone(s.accepted, Step(config, Run(config, s, events).value, TakeSnapshot), p)
  {
    var s' := Run(config, s, events).value;
    RunKeepsInv(config, s, events);
    HistoryGrows(config, s, events);
    forall p: nat | p < |s.accepted| ensures TakenOrGone(s.accepted, SnapshotStep(s', s'.sender.last), p) {
      WaitingOrGoneHolds(config, s, s', p);
      WaitingIsTaken(config, s, s', p);
    }
  }

  lemma AfterAppend<T(!new)>(config: Config, s: State<T>)
    requires config.maxBacklog >= 0 && Reachable(config, s) && s.loop.Appending?
    ensures var full := Step(config, s, Append);
            && Inv(config, full)
            && full.accepted == s.accepted + [s.loop.span]
            && (full.loop.Signalling? <==> |full.batch| >= config.batchSize)
  {
    InvariantHolds(config, s);
    StepKeepsInv(config, s, Append);
    SignalsExactly(config, s, Append);
    AppendInBounds(s.batch, s.loop.span, config.maxBacklog);
  }

  /** A full batch is signalled: once an append leaves the batch at batchSize or above, then until the next
      snapshot the loop is about to signal, or a token waits, or the sender is about to take that snapshot. */
  lemma FullBatchSignals<T(!new)>(config: Config, s: State<T>, events: seq<Event<T>>)
    requires config.maxBacklog >= 0 && Reachable(config, s) && s.loop.Appending?
    requires |Step(config, s, Append).batch| >= config.batchSize
    requires forall i :: 0 <= i < |events| ==> !events[i].TakeSnapshot?
    requires Run(config, Step(config, s, Append), events).Some?
    ensures var s' := Run(config, Step(config, s, Append), events).value;
            Enabled(s', Enqueue) || s'.token || s'.sender.Starting?
  {
    AfterAppend(config, s);
    SignallingIsHeard(config, Step(config, s, Append), events);
  }

  /** And the next snapshot takes every span accepted so far, the one just appended included, unless it was
      disposed of or removed. */
  lemma FullBatchIsSent<T(!new)>(config: Config, s: State<T>, events: seq<Event<T>>)
    requires config.maxBacklog >= 0 && Reachable(config, s) && s.loop.Appending?
    requires Run(config, Step(config, s, Append), events).Some?
    requires Enabled(Run(config, Step(config, s, Append), events).value, TakeSnapshot)
    ensures Step(config, s, Append).accepted == s.accepted + [s.loop.span]
    ensures var taken := Step(config, Run(config, Step(config, s, Append), events).value, TakeSnapshot);
            forall p: nat :: p <= |s.accepted| ==> TakenOrGone(s.accepted + [s.loop.span], taken, p)
  {
    AfterAppend(config, s);
    SnapshotAfterRun(config, Step(config, s, Append), events);
  }

  // ---------------------------------------------------------------------------
  // Answers
  // ---------------------------------------------------------------------------

  /** Request `r` was answered, and is being removed or has been recorded. */
  predicate Answered<T(==)>(s: State<T>, last: bool, r: Request<T>) {
    s.sender == Removing(last, r) || r in s.sent
  }

  lemma StepKeepsAnswered<T>(config: Config, s: State<T>, e: Event<T>, last: bool, r: Request<T>)
    requires Answered(s, last, r)
    requires Enabled(s, e) && !Step(config, s, e).sender.SenderPanicked?
    ensures Answered(Step(config, s, e), last, r)
  {
    if !e.Append? && !e.Remove? {
      OtherStepsKeepHistory(config, s, e);
    }
  }

  lemma NeverPanics<T>(config: Config, s: State<T>, e: Event<T>)
    requires config.maxBacklog >= 0 && Inv(config, s) && Enabled(s, e)
    ensures Inv(config, Step(config, s, e)) && !Step(config, s, e).sender.SenderPanicked?
  {
    StepKeepsInv(config, s, e);
  }

  /** Nothing but its removal ends the removing of a request, and a removed request is recorded for good. */
  lemma {:induction false} AnsweredStays<T>(config: Config, s: State<T>, events: seq<Event<T>>, last: bool, r: Request<T>)
    requires Answered(s, last, r)
    requires config.maxBacklog >= 0 && Inv(config, s) && Run(config, s, events).Some?
    ensures Answered(Run(config, s, events).value, last, r)
    decreases |events|
  {
    if events != [] {
      NeverPanics(config, s, events[0]);
      StepKeepsAnswered(config, s, events[0], last, r);
      AnsweredStays(config, Step(config, s, events[0]), events[1..], last, r);
    }
  }

  /** What the answer to a request leads to. On a failure everything stays in the batch, and Close reports it
      if it was the last request. On a success, however the run goes on, the request is being removed or has
      been recorded; and once the sender waits or has finished, it has been. */
  lemma AnswerDecides<T(!new)>(config: Config, s: State<T>, events: seq<Event<T>>)
    requires config.maxBacklog >= 0 && Reachable(config, s) && s.sender.InFlight?
    ensures SameHistory(s, Step(config, s, Fail))
    ensures Step(config, s, Fail).sender == if s.sender.last then Finished(true) else Receiving
    ensures Run(config, Step(config, s, Succeed), events).Some? ==>
              var s' := Run(config, Step(config, s, Succeed), events).value;
              && Answered(s', s.sender.last, s.sender.request)
              && (!s'.sender.Removing? ==> s.sender.request in s'.sent)
  {
    InvariantHolds(config, s);
    OtherStepsKeepHistory(config, s, Fail);
    StepKeepsInv(config, s, Succeed);
    if Run(config, Step(config, s, Succeed), events).Some? {
      AnsweredStays(config, Step(config, s, Succeed), events, s.sender.last, s.sender.request);
    }
  }

  // ---------------------------------------------------------------------------
  // Runs as a whole
  // ---------------------------------------------------------------------------

  /** The spans the loop received in a run. */
  function Received<T>(events: seq<Event<T>>): seq<T> {
    if events == [] then []
    else (if events[0].Accept? then [events[0].span] else []) + Received(events[1..])
  }

  function Held<T>(loop: Loop<T>): seq<T> {
    if loop.Appending? then [loop.span] else []
  }

  lemma StepAccepts<T>(config: Config, s: State<T>, e: Event<T>)
    requires config.maxBacklog >= 0 && Enabled(s, e)
    ensures var s' := Step(config, s, e);
            s'.accepted + Held(s'.loop) == s.accepted + Held(s.loop) + (if e.Accept? then [e.span] else [])
  {
    if e.Append? {
      AppendInBounds(s.batch, s.loop.span, config.maxBacklog);
    } else if !e.Remove? {
      OtherStepsKeepHistory(config, s, e);
    }
  }

  lemma Regroup<T>(a: seq<T>, b: seq<T>, c: seq<T>)
    ensures (a + b) + c == a + (b + c)
  {
  }

  lemma {:induction false} RunAccepts<T>(config: Config, s: State<T>, events: seq<Event<T>>)
    requires config.maxBacklog >= 0 && Inv(config, s) && Run(config, s, events).Some?
    ensures var s' := Run(config, s, events).value;
            s'.accepted + Held(s'.loop) == s.accepted + Held(s.loop) + Received(events)
    decreases |events|
  {
    if events != [] {
      StepKeepsInv(config, s, events[0]);
      var e := events[0];
      StepAccepts(config, s, e);
      RunAccepts(config, Step(config, s, e), events[1..]);
      Regroup(s.accepted + Held(s.loop), if e.Accept? then [e.span] else [], Received(events[1..]));
    }
  }

  /** The accepted spans are those received, in the order received, without loss or repetition; at most one
      is still on its way into the batch. */
  lemma AcceptsWhatItReceives<T(!new)>(config: Config, events: seq<Event<T>>)
    requires config.maxBacklog >= 0 && Run(config, Initial(), events).Some?
    ensures var s := Run(config, Initial(), events).value;
            s.accepted + Held(s.loop) == Received(events)
  {
    InitialReachable<T>(config);
    InvariantHolds(config, Initial<T>());
    RunAccepts(config, Initial(), events);
  }

  datatype Counted = EnqueueCount | ReceiveCount | SnapshotCount

  predicate Counts<T>(c: Counted, e: Event<T>) {
    match c
    case EnqueueCount => e.Enqueue?
    case ReceiveCount => e.Receive?
    case SnapshotCount => e.TakeSnapshot?
  }

  function Count<T>(c: Counted, events: seq<Event<T>>): nat {
    if events == [] then 0 else (if Counts(c, events[0]) then 1 else 0) + Count(c, events[1..])
  }

  function One(b: bool): nat {
    if b then 1 else 0
  }

  /** Whether the sender has begun its last sendBatch. */
  predicate InLast<T>(sender: Sender<T>) {
    match sender
    case Starting(last) => last
    case InFlight(last, _) => last
    case Removing(last, _) => last
    case Finished(_) => true
    case _ => false
  }

  lemma StepCountsTokens<T>(config: Config, s: State<T>, e: Event<T>)
    requires Enabled(s, e)
    ensures One(e.Receive?) + One(Step(config, s, e).token) <= One(e.Enqueue?) + One(s.token)
  {
  }

  predicate SenderEvent<T>(e: Event<T>) {
    e.Receive? || e.ReceiveClosed? || e.TakeSnapshot? || e.Fail? || e.Succeed? || e.Remove?
  }

  lemma OthersLeaveSender<T>(config: Config, s: State<T>, e: Event<T>)
    requires Enabled(s, e) && !SenderEvent(e)
    ensures Step(config, s, e).sender == s.sender
  {
  }

  lemma SenderCountsSnapshots<T>(config: Config, s: State<T>, e: Event<T>)
    requires Enabled(s, e) && SenderEvent(e) && !Step(config, s, e).sender.SenderPanicked?
    ensures var sender := Step(config, s, e).sender;
            One(e.TakeSnapshot?) + One(sender.Starting?) + One(InLast(s.sender))
            == One(e.Receive?) + One(s.sender.Starting?) + One(InLast(sender))
  {
    match e {
      case TakeSnapshot =>
      case Remove =>
      case _ =>
    }
  }

  lemma StepCountsSnapshots<T>(config: Config, s: State<T>, e: Event<T>)
    requires Enabled(s, e) && !Step(config, s, e).sender.SenderPanicked?
    ensures var sender := Step(config, s, e).sender;
            One(e.TakeSnapshot?) + One(sender.Starting?) + One(InLast(s.sender))
            == One(e.Receive?) + One(s.sender.Starting?) + One(InLast(sender))
  {
    if SenderEvent(e) {
      SenderCountsSnapshots(config, s, e);
    } else {
      OthersLeaveSender(config, s, e);
    }
  }

  lemma {:induction false} RunCountsTokens<T>(config: Config, s: State<T>, events: seq<Event<T>>)
    requires Run(config, s, events).Some?
    ensures Count(ReceiveCount, events) + One(Run(config, s, events).value.token)
            <= Count(EnqueueCount, events) + One(s.token)
    decreases |events|
  {
    if events != [] {
      StepCountsTokens(config, s, events[0]);
      RunCountsTokens(config, Step(config, s, events[0]), events[1..]);
    }
  }

  lemma {:induction false} RunCountsSnapshots<T>(config: Config, s: State<T>, events: seq<Event<T>>)
    requires config.maxBacklog >= 0 && Inv(config, s) && Run(config, s, events).Some?
    ensures var sender := Run(config, s, events).value.sender;
            Count(SnapshotCount, events) + One(sender.Starting?) + One(InLast(s.sender))
            == Count(ReceiveCount, events) + One(s.sender.Starting?) + One(InLast(sender))
    decreases |events|
  {
    if events != [] {
      NeverPanics(config, s, events[0]);
      StepCountsSnapshots(config, s, events[0]);
      RunCountsSnapshots(config, Step(config, s, events[0]), events[1..]);
    }
  }

  /** One signal leads to at most one snapshot, since signals coalesce and each token is used up; apart from
      them there is one more snapshot, the last one after the channel was closed. */
  lemma SnapshotsMatchSignals<T(!new)>(config: Config, events: seq<Event<T>>)
    requires config.maxBacklog >= 0 && Run(config, Initial(), events).Some?
    ensures var s := Run(config, Initial(), events).value;
            && Count(ReceiveCount, events) + One(s.token) <= Count(EnqueueCount, events)
            && Count(SnapshotCount, events) + One(s.sender.Starting?) == Count(ReceiveCount, events) + One(InLast(s.sender))
  {
    InitialReachable<T>(config);
    InvariantHolds(config, Initial<T>());
    RunCountsTokens(config, Initial(), events);
    RunCountsSnapshots(config, Initial(), events);
  }

  // ---------------------------------------------------------------------------
  // No deadlock
  // ---------------------------------------------------------------------------

  /** A step that brings Close nearer to its end, with every request answered. */
  function Next<T>(s: State<T>): Event<T> {
    if !s.quit then CloseCall
    else match s.loop
      case Appending(_) => Append
      case Signalling => Enqueue
      case Selecting => Stop
      case _ =>
        match s.sender
        case Receiving => if s.token then Receive else ReceiveClosed
        case Starting(_) => TakeSnapshot
        case InFlight(_, _) => Succeed
        case Removing(_, _) => Remove
        case _ => CloseReturn
  }

  function LoopRank<T>(loop: Loop<T>): nat {
    match loop
    case Appending(_) => 3
    case Signalling => 2
    case Selecting => 1
    case _ => 0
  }

  function SenderRank<T>(sender: Sender<T>): nat {
    match sender
    case Starting(last) => if last then 4 else 9
    case InFlight(last, _) => if last then 3 else 8
    case Removing(last, _) => if last then 2 else 7
    case Receiving => 5
    case _ => 1
  }

  function Rank<T>(s: State<T>): nat {
    (if s.quit then 0 else 1000) + 100 * LoopRank(s.loop) + (if s.token then 10 else 0) + SenderRank(s.sender)
  }

  lemma NextInLoop<T>(config: Config, s: State<T>)
    requires LoopConsistent(s) && s.closeResult.None? && (!s.quit || !s.loop.Stopped?)
    ensures Enabled(s, Next(s))
    ensures var s' := Step(config, s, Next(s));
            Rank(s') < Rank(s) && s'.sender == s.sender && s'.closeResult.None?
  {
  }

  lemma NextInSender<T>(config: Config, s: State<T>)
    requires LoopConsistent(s) && !s.sender.SenderPanicked? && s.closeResult.None? && s.quit && s.loop.Stopped?
    ensures Enabled(s, Next(s))
    ensures var s' := Step(config, s, Next(s));
            && (s'.closeResult.None? ==> Rank(s') < Rank(s))
            && (s.sender != Finished(true) ==> s'.sender != Finished(true) && s'.closeResult != Some(true))
  {
  }

  lemma NextIsNearer<T>(config: Config, s: State<T>)
    requires LoopConsistent(s) && !s.sender.SenderPanicked? && s.closeResult.None?
    ensures Enabled(s, Next(s))
    ensures var s' := Step(config, s, Next(s));
            && (s'.closeResult.None? ==> Rank(s') < Rank(s))
            && (s.sender != Finished(true) ==> s'.sender != Finished(true) && s'.closeResult != Some(true))
  {
    if !s.quit || !s.loop.Stopped? {
      NextInLoop(config, s);
    } else {
      NextInSender(config, s);
    }
  }

  lemma RunFirst<T>(config: Config, s: State<T>, e: Event<T>, rest: seq<Event<T>>)
    requires Enabled(s, e)
    ensures Run(config, s, [e] + rest) == Run(config, Step(config, s, e), rest)
  {
    assert ([e] + rest)[1..] == rest;
  }

  lemma {:induction false} CloseIsNear<T>(config: Config, s: State<T>) returns (events: seq<Event<T>>)
    requires config.maxBacklog >= 0 && Inv(config, s) && s.closeResult.None?
    ensures Run(config, s, events).Some? && Run(config, s, events).value.closeResult.Some?
    ensures s.sender != Finished(true) ==> Run(config, s, events).value.closeResult == Some(false)
    decreases Rank(s)
  {
    NextIsNearer(config, s);
    NeverPanics(config, s, Next(s));
    var s' := Step(config, s, Next(s));
    var rest := [];
    if s'.closeResult.None? {
      rest := CloseIsNear(config, s');
    }
    RunFirst(config, s, Next(s), rest);
    events := [Next(s)] + rest;
  }

  /** No deadlock: from every reachable state some continuation ends with Close returning; and unless the last
      request has failed already, it can return nil. */
  lemma CloseCanReturn<T(!new)>(config: Config, s: State<T>) returns (events: seq<Event<T>>)
    requires config.maxBacklog >= 0 && Reachable(config, s)
    ensures Run(config, s, events).Some? && Run(config, s, events).value.closeResult.Some?
    ensures s.sender != Finished(true) ==> Run(config, s, events).value.closeResult == Some(false)
  {
    InvariantHolds(config, s);
    if s.closeResult.Some? {
      events := [];
    } else {
      events := CloseIsNear(config, s);
    }
  }
}
