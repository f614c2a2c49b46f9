/** Consequences for users of the batch reporter: what a removal loses, the fate of every accepted span,
    shutdown, and wakeups. */
module ReporterTheorems {
  import opened Counting
  import opened Model
  import opened BatchReporter
  import opened ReporterSafety

  // ---------------------------------------------------------------------------
  // Removal by count
  // ---------------------------------------------------------------------------

  lemma NotInBlock<T>(sent: seq<Request<T>>, p: nat, at: nat)
    requires forall i :: 0 <= i < |sent| ==> sent[i].end <= at
    requires at <= p
    ensures !InSomeBlock(sent, p)
  {
  }

  lemma NotSentAfter<T>(sentAt: set<nat>, sent: seq<Request<T>>, at: nat)
    requires Recorded(sentAt, sent) && forall i :: 0 <= i < |sent| ==> sent[i].end <= at
    ensures forall p: nat :: at <= p ==> p !in sentAt
  {
    forall p: nat | at <= p ensures p !in sentAt {
      NotInBlock(sent, p, at);
    }
  }

  lemma ReachableRemoval<T(!new)>(config: Config, s: State<T>)
    requires config.maxBacklog >= 0 && Reachable(config, s) && s.sender.Removing?
    ensures BatchIsSuffix(config, s) && RequestUnderWay(s, s.sender.last, s.sender.request)
  {
    InvariantHolds(config, s);
  }

  lemma ReachableRecord<T(!new)>(config: Config, s: State<T>)
    requires config.maxBacklog >= 0 && Reachable(config, s)
    ensures Recorded(s.sentAt, s.sent) && BlocksInOrder(s)
  {
    InvariantHolds(config, s);
  }

  /** The removal of request `r` by its length, after `k` spans had been disposed of since its snapshot. */
  predicate RemovedByCount<T(==)>(s: State<T>, s': State<T>, r: Request<T>, k: nat) {
    && Covers(s.accepted, r)
    && |r.payload| <= |s.batch|
    && r.end + k <= |s.accepted|
    && s'.batch == s.accepted[r.end + k..]
    && s'.lo == r.end + k
    && (k == 0 ==> s.batch == r.payload + s'.batch)
  }

  lemma RemovalBounds<T>(config: Config, s: State<T>, last: bool, r: Request<T>)
    requires BatchIsSuffix(config, s) && RequestUnderWay(s, last, r)
    ensures var s', k := RemoveStep(s, last, r), |s.dropped| - r.dropsBefore;
            && r.end + k <= |s.accepted|
            && s'.batch == s.accepted[r.end + k..]
            && s'.lo == r.end + k
            && (k == 0 ==> s.batch == r.payload + s'.batch)
            && s'.sender == Return(last, false)
  {
    RemoveMoves(config, s, last, r);
    if |s.dropped| == r.dropsBefore {
      SuffixSplit(s.accepted, s.lo, r.end);
    }
  }

  /** When a request for positions [start, end) is removed and k spans were disposed of since its snapshot,
      the slice is in bounds and the batch starts at end + k afterwards; with k == 0 exactly the sent spans
      have gone. */
  lemma RemovalLaw<T(!new)>(config: Config, s: State<T>)
    requires config.maxBacklog >= 0 && Reachable(config, s) && s.sender.Removing?
    ensures |s.dropped| >= s.sender.request.dropsBefore
    ensures RemovedByCount(s, Step(config, s, Remove), s.sender.request, |s.dropped| - s.sender.request.dropsBefore)
    ensures !Step(config, s, Remove).sender.SenderPanicked?
  {
    ReachableRemoval(config, s);
    RemovalBounds(config, s, s.sender.last, s.sender.request);
  }

  /** The removal takes out exactly the positions that were sent if and only if nothing was disposed of since
      the snapshot. */
  lemma RemovalExactIff<T(!new)>(config: Config, s: State<T>)
    requires config.maxBacklog >= 0 && Reachable(config, s) && s.sender.Removing?
    ensures var r, s' := s.sender.request, Step(config, s, Remove);
            Interval(s.lo, s'.lo) == Interval(r.start, r.end) <==> |s.dropped| == r.dropsBefore
  {
    ReachableRemoval(config, s);
    var last, r := s.sender.last, s.sender.request;
    RemoveRecords(s, last, r);
    IntervalsEqual(s.lo, RemoveStep(s, last, r).lo, r.start, r.end);
  }

  lemma IntervalsEqual(a: nat, b: nat, start: nat, end: nat)
    requires start <= a < b && start < end && b - a == end - start
    ensures Interval(a, b) == Interval(start, end) <==> a == start
  {
    CardInterval(a, b);
    CardInterval(start, end);
    assert start in Interval(start, end);
  }

  /** Which positions before `bound` have been sent is settled: no request under way reaches down to them. */
  predicate Settled<T>(s: State<T>, bound: nat, sentAt: set<nat>) {
    && bound <= s.lo
    && SameBelow(s.sentAt, sentAt, bound)
    && (s.sender.InFlight? || s.sender.Removing? ==> bound <= s.sender.request.start)
  }

  predicate SameBelow(a: set<nat>, b: set<nat>, bound: nat) {
    forall p :: p in Below(bound) ==> (p in a <==> p in b)
  }

  lemma RemoveKeepsSettled<T>(s: State<T>, last: bool, r: Request<T>, bound: nat, sentAt: set<nat>)
    requires Settled(s, bound, sentAt) && s.sender == Removing(last, r) && RequestUnderWay(s, last, r)
    ensures Settled(RemoveStep(s, last, r), bound, sentAt)
  {
    RemoveRecords(s, last, r);
    CardInterval(r.start, r.end);
  }

  lemma AppendKeepsSettled<T>(config: Config, s: State<T>, span: T, bound: nat, sentAt: set<nat>)
    requires config.maxBacklog >= 0 && BatchIsSuffix(config, s) && Settled(s, bound, sentAt)
    ensures Settled(AppendStep(config, s, span), bound, sentAt)
  {
    AppendMoves(config, s, span);
  }

  lemma SameHistoryKeepsSettled<T>(s: State<T>, s': State<T>, bound: nat, sentAt: set<nat>)
    requires Settled(s, bound, sentAt) && SameHistory(s, s')
    requires s'.sender.InFlight? || s'.sender.Removing? ==>
               s'.sender.request.start == s.lo
               || ((s.sender.InFlight? || s.sender.Removing?) && s'.sender.request == s.sender.request)
    ensures Settled(s', bound, sentAt)
  {
  }

  lemma StepKeepsSettled<T>(config: Config, s: State<T>, e: Event<T>, bound: nat, sentAt: set<nat>)
    requires config.maxBacklog >= 0 && Inv(config, s) && Enabled(s, e) && Settled(s, bound, sentAt)
    ensures Settled(Step(config, s, e), bound, sentAt)
  {
    match e {
      case Append => AppendKeepsSettled(config, s, s.loop.span, bound, sentAt);
      case Remove => RemoveKeepsSettled(s, s.sender.last, s.sender.request, bound, sentAt);
      case _ =>
        OtherStepsKeepHistory(config, s, e);
        SameHistoryKeepsSettled(s, Step(config, s, e), bound, sentAt);
    }
  }

  lemma {:induction false} RunKeepsSettled<T>(config: Config, s: State<T>, events: seq<Event<T>>, bound: nat, sentAt: set<nat>)
    requires config.maxBacklog >= 0 && Inv(config, s) && Settled(s, bound, sentAt)
    requires Run(config, s, events).Some?
    ensures Settled(Run(config, s, events).value, bound, sentAt)
    decreases |events|
  {
    if events != [] {
      StepKeepsInv(config, s, events[0]);
      StepKeepsSettled(config, s, events[0], bound, sentAt);
      RunKeepsSettled(config, Step(config, s, events[0]), events[1..], bound, sentAt);
    }
  }

  /** The state right after the removal, as far as positions are concerned. */
  predicate RemovalTook<T>(s: State<T>, s': State<T>, end: nat, k: nat) {
    && s'.lo == end + k && s.lo <= s'.lo
    && Partition(s.dropped, s.removed, s.lo)
    && s'.dropped == s.dropped && s'.removed == s.removed + Interval(s.lo, s'.lo)
    && s.removed <= Below(end)
    && s'.sentAt <= Below(end)
  }

  lemma RecordedRemovalTook<T>(s: State<T>, s': State<T>, r: Request<T>, k: nat)
    requires RemoveRecorded(s, s', r) && r.start <= r.end && s.lo == r.start + k
    requires Partition(s.dropped, s.removed, s.lo) && s.removed <= Below(r.start) && s.sentAt <= Below(r.start)
    ensures RemovalTook(s, s', r.end, k)
  {
    CardInterval(r.start, r.end);
  }

  lemma ReachablePartition<T(!new)>(config: Config, s: State<T>)
    requires config.maxBacklog >= 0 && Reachable(config, s)
    ensures Partition(s.dropped, s.removed, s.lo)
  {
    InvariantHolds(config, s);
  }

  lemma RemovalTakes<T(!new)>(config: Config, s: State<T>)
    requires config.maxBacklog >= 0 && Reachable(config, s) && s.sender.Removing?
    ensures |s.dropped| >= s.sender.request.dropsBefore
    ensures var r := s.sender.request;
            RemovalTook(s, Step(config, s, Remove), r.end, |s.dropped| - r.dropsBefore)
  {
    ReachablePartition(config, s);
    ReachableRecord(config, s);
    ReachableRemoval(config, s);
    var last, r := s.sender.last, s.sender.request;
    RemoveRecords(s, last, r);
    BlocksBefore(s.sentAt, s.sent, r.start);
    RecordedRemovalTook(s, RemoveStep(s, last, r), r, |s.dropped| - r.dropsBefore);
  }

  lemma LaterPartition<T(!new)>(config: Config, s: State<T>, events: seq<Event<T>>, later: State<T>)
    requires config.maxBacklog >= 0 && Reachable(config, s)
    requires Run(config, s, events) == Some(later)
    ensures Partition(later.dropped, later.removed, later.lo) && Grows(s, later)
  {
    InvariantHolds(config, s);
    RunKeepsInv(config, s, events);
    HistoryGrows(config, s, events);
  }

  lemma LaterSettled<T(!new)>(config: Config, s: State<T>, events: seq<Event<T>>, later: State<T>)
    requires config.maxBacklog >= 0 && Reachable(config, s) && !s.sender.InFlight? && !s.sender.Removing?
    requires Run(config, s, events) == Some(later)
    ensures Settled(later, s.lo, s.sentAt)
  {
    InvariantHolds(config, s);
    RunKeepsSettled(config, s, events, s.lo, s.sentAt);
  }

  lemma RemovalEnds<T(!new)>(config: Config, s: State<T>)
    requires config.maxBacklog >= 0 && Reachable(config, s) && s.sender.Removing?
    ensures Reachable(config, Step(config, s, Remove))
    ensures !Step(config, s, Remove).sender.InFlight? && !Step(config, s, Remove).sender.Removing?
  {
    StepReachable(config, s, Remove);
    RemovalLaw(config, s);
  }

  /** The k positions right after the block that was sent: in `later` they have left the batch, those from
      `lo` on through the removal and the others by disposal before it, and no request has delivered them. */
  predicate Lost<T>(lo: nat, end: nat, k: nat, later: State<T>) {
    && |Interval(end, end + k)| == k
    && forall p :: p in Interval(end, end + k) ==>
         && p < later.lo
         && p !in later.sentAt
         && (p in later.removed <==> lo <= p)
         && (p in later.dropped <==> p < lo)
  }

  lemma NeverDelivered<T>(s: State<T>, s': State<T>, later: State<T>, end: nat, k: nat, p: nat)
    requires RemovalTook(s, s', end, k) && Settled(later, s'.lo, s'.sentAt)
    requires end <= p < end + k
    ensures p < later.lo && p !in later.sentAt
  {
    assert p in Below(s'.lo) && p !in Below(end);
  }

  lemma WayOut<T>(s: State<T>, s': State<T>, later: State<T>, end: nat, k: nat, p: nat)
    requires RemovalTook(s, s', end, k)
    requires later.dropped !! later.removed && s'.dropped <= later.dropped && s'.removed <= later.removed
    requires end <= p < end + k
    ensures (p in later.removed <==> s.lo <= p) && (p in later.dropped <==> p < s.lo)
  {
    if s.lo <= p {
      CardInterval(s.lo, s'.lo);
      assert p in Interval(s.lo, s'.lo);
      assert p in later.removed;
    } else {
      assert p in Below(s.lo) && p !in Below(end);
      assert p in later.dropped;
    }
  }

  lemma TakenAreLost<T>(s: State<T>, s': State<T>, later: State<T>, end: nat, k: nat)
    requires RemovalTook(s, s', end, k)
    requires Partition(later.dropped, later.removed, later.lo)
    requires Settled(later, s'.lo, s'.sentAt) && Grows(s', later)
    ensures Lost(s.lo, end, k, later)
  {
    CardInterval(end, end + k);
    forall p | p in Interval(end, end + k)
      ensures p < later.lo && p !in later.sentAt
      ensures (p in later.removed <==> s.lo <= p) && (p in later.dropped <==> p < s.lo)
    {
      NeverDelivered(s, s', later, end, k, p);
      WayOut(s, s', later, end, k, p);
    }
  }

  lemma LossLater<T(!new)>(config: Config, s: State<T>, s': State<T>, end: nat, k: nat, events: seq<Event<T>>, later: State<T>)
    requires config.maxBacklog >= 0 && Reachable(config, s') && !s'.sender.InFlight? && !s'.sender.Removing?
    requires RemovalTook(s, s', end, k)
    requires Run(config, s', events) == Some(later)
    ensures Lost(s.lo, end, k, later)
  {
    LaterPartition(config, s', events, later);
    LaterSettled(config, s', events, later);
    TakenAreLost(s, s', later, end, k);
  }

  /** What the removal about to happen in `s` loses, as seen in a later state: as many positions after its
      request's as were disposed of since the snapshot. */
  predicate LostBy<T>(s: State<T>, later: State<T>)
    requires s.sender.Removing?
  {
    var r := s.sender.request;
    |s.dropped| >= r.dropsBefore && Lost(s.lo, r.end, |s.dropped| - r.dropsBefore, later)
  }

  /** The k positions right after the block are lost for good: whatever happens after the removal, they are
      out of the batch and no request ever delivers them. */
  lemma RemovalLoss<T(!new)>(config: Config, s: State<T>, events: seq<Event<T>>)
    requires config.maxBacklog >= 0 && Reachable(config, s) && s.sender.Removing?
    requires Run(config, Step(config, s, Remove), events).Some?
    ensures LostBy(s, Run(config, Step(config, s, Remove), events).value)
  {
    RemovalTakes(config, s);
    RemovalEnds(config, s);
    var s' := Step(config, s, Remove);
    LossLater(config, s, s', s.sender.request.end, |s.dropped| - s.sender.request.dropsBefore, events,
              Run(config, s', events).value);
  }

  lemma SuffixSplit<T>(accepted: seq<T>, lo: nat, end: nat)
    requires lo <= end <= |accepted|
    ensures accepted[lo..] == accepted[lo..end] + accepted[end..]
  {
  }

  lemma {:induction false} RunExtend<T>(config: Config, s: State<T>, events: seq<Event<T>>, e: Event<T>)
    requires Run(config, s, events).Some? && Enabled(Run(config, s, events).value, e)
    ensures Run(config, s, events + [e]) == Some(Step(config, Run(config, s, events).value, e))
    decreases |events|
  {
    if events == [] {
      assert [] + [e] == [e];
      assert [e][1..] == [];
    } else {
      RunExtend(config, Step(config, s, events[0]), events[1..], e);
      assert (events + [e])[1..] == events[1..] + [e];
    }
  }

  lemma StepReachable<T(!new)>(config: Config, s: State<T>, e: Event<T>)
    requires Reachable(config, s) && Enabled(s, e)
    ensures Reachable(config, Step(config, s, e))
  {
    var events :| Run(config, Initial(), events) == Some(s);
    RunExtend(config, Initial(), events, e);
  }

  lemma InitialReachable<T(!new)>(config: Config)
    ensures Reachable(config, Initial<T>())
  {
    assert Run(config, Initial<T>(), []) == Some(Initial());
  }

  lemma NoInterval(a: nat)
    ensures Interval(a, a) == {}
  {
  }

  const BACKLOG_OF_TWO := Config(2, 2)

  lemma TwoAccepted<T(!new)>(a: T, b: T) returns (s: State<T>)
    ensures Reachable(BACKLOG_OF_TWO, s)
    ensures s == Initial<T>().(batch := [a, b], accepted := [a, b], loop := Signalling)
  {
    InitialReachable<T>(BACKLOG_OF_TWO);
    NoInterval(0);
    s := Initial();
    StepReachable(BACKLOG_OF_TWO, s, Accept(a));
    s := Step(BACKLOG_OF_TWO, s, Accept(a));
    StepReachable(BACKLOG_OF_TWO, s, Append);
    s := Step(BACKLOG_OF_TWO, s, Append);
    assert s == Initial<T>().(batch := [a], accepted := [a]);
    StepReachable(BACKLOG_OF_TWO, s, Accept(b));
    s := Step(BACKLOG_OF_TWO, s, Accept(b));
    StepReachable(BACKLOG_OF_TWO, s, Append);
    s := Step(BACKLOG_OF_TWO, s, Append);
  }

  lemma TwoInFlight<T(!new)>(a: T, b: T) returns (s: State<T>)
    ensures Reachable(BACKLOG_OF_TWO, s)
    ensures s == Initial<T>().(batch := [a, b], accepted := [a, b], sender := InFlight(false, Request(0, 2, [a, b], 0)))
  {
    s := TwoAccepted(a, b);
    StepReachable(BACKLOG_OF_TWO, s, Enqueue);
    s := Step(BACKLOG_OF_TWO, s, Enqueue);
    StepReachable(BACKLOG_OF_TWO, s, Receive);
    s := Step(BACKLOG_OF_TWO, s, Receive);
    StepReachable(BACKLOG_OF_TWO, s, TakeSnapshot);
    s := Step(BACKLOG_OF_TWO, s, TakeSnapshot);
  }

  /** Removing by count is not removing what was sent: with a disposal in flight a span that was never
      sent is lost. Spans a and b are in flight when c arrives at a full backlog of two. */
  lemma RemovalLosesUnsent<T(!new)>(a: T, b: T, c: T) returns (s: State<T>)
    ensures Reachable(BACKLOG_OF_TWO, s)
    ensures s.accepted == [a, b, c] && s.batch == [] && 2 !in s.sentAt && 2 !in s.dropped
  {
    s := TwoInFlight(a, b);
    StepReachable(BACKLOG_OF_TWO, s, Accept(c));
    s := Step(BACKLOG_OF_TWO, s, Accept(c));
    StepReachable(BACKLOG_OF_TWO, s, Append);
    assert [a, b] + [c] == [a, b, c] && [a, b, c][1..] == [b, c];
    s := Step(BACKLOG_OF_TWO, s, Append);
    CardInterval(0, 1);
    CardInterval(0, 2);
    StepReachable(BACKLOG_OF_TWO, s, Succeed);
    s := Step(BACKLOG_OF_TWO, s, Succeed);
    StepReachable(BACKLOG_OF_TWO, s, Remove);
    s := Step(BACKLOG_OF_TWO, s, Remove);
  }

  // ---------------------------------------------------------------------------
  // The fate of every span
  // ---------------------------------------------------------------------------

  /** Every accepted position is in exactly one of: a sent block, disposed of and never sent, removed
      unsent, still in the batch. And as many positions were removed unsent as were disposed of although
      their request went through. */
  lemma EveryFateOnce<T(!new)>(config: Config, s: State<T>)
    requires config.maxBacklog >= 0 && Reachable(config, s)
    ensures FourFates(s.sentAt, s.dropped - s.sentAt, s.removed - s.sentAt, Interval(s.lo, |s.accepted|), |s.accepted|)
    ensures |Interval(s.lo, |s.accepted|)| == |s.batch|
    ensures |s.removed - s.sentAt| == |s.dropped * s.sentAt|
    ensures forall p: nat :: p in s.sentAt <==> InSomeBlock(s.sent, p)
  {
    InvariantHolds(config, s);
    BlocksBefore(s.sentAt, s.sent, s.lo);
    CardInterval(s.lo, |s.accepted|);
    SentOrNot(s.dropped, s.removed, s.sentAt, s.lo, |s.accepted|);
    CardUnsent(s.dropped, s.removed, s.sentAt);
  }

  /** Each of the first `n` positions is in exactly one of the sets. */
  predicate FourFates(a: set<nat>, b: set<nat>, c: set<nat>, d: set<nat>, n: nat) {
    && a + b + c + d == Below(n)
    && a !! b && a !! c && a !! d && b !! c && b !! d && c !! d
  }

  lemma SentOrNot(dropped: set<nat>, removed: set<nat>, sentAt: set<nat>, lo: nat, n: nat)
    requires Partition(dropped, removed, lo) && sentAt <= Below(lo) && lo <= n
    ensures FourFates(sentAt, dropped - sentAt, removed - sentAt, Interval(lo, n), n)
  {
    CardInterval(lo, n);
    forall p: nat | p < lo ensures p in dropped || p in removed {
      assert p in Below(lo);
    }
    assert dropped <= Below(lo) && removed <= Below(lo);
  }

  lemma CardUnsent(dropped: set<nat>, removed: set<nat>, sentAt: set<nat>)
    requires dropped !! removed && sentAt <= dropped + removed && |removed| == |sentAt|
    ensures |removed - sentAt| == |dropped * sentAt|
  {
    CardOverlap(removed, sentAt);
    CardOverlap(sentAt, removed);
    assert removed * sentAt == sentAt * removed;
    assert sentAt - removed == dropped * sentAt;
  }

  lemma CardOverlap(a: set<nat>, b: set<nat>)
    ensures |a| == |a * b| + |a - b|
  {
    CardSplit(a, a * b);
    assert a - (a * b) == a - b;
  }

  // ---------------------------------------------------------------------------
  // Shutdown
  // ---------------------------------------------------------------------------

  /** When Close has returned, the loop has stopped. Without an error the batch is empty, and if nothing was
      disposed of the payloads that went through are all accepted spans, in order, once each; with an error
      the batch is the nonempty unsent suffix. */
  lemma Shutdown<T(!new)>(config: Config, s: State<T>)
    requires config.maxBacklog >= 0 && Reachable(config, s) && s.closeResult.Some?
    ensures s.loop.Stopped? && s.closed
    ensures s.closeResult == Some(false) ==>
              s.batch == [] && (s.dropped == {} ==> Payloads(s.sent) == s.accepted)
    ensures s.closeResult == Some(true) ==>
              && s.batch != []
              && BatchIsSuffix(config, s)
              && (forall p: nat :: s.lo <= p ==> p !in s.sentAt)
  {
    InvariantHolds(config, s);
    NotSentAfter(s.sentAt, s.sent, s.lo);
    if s.closeResult == Some(false) {
      assert s.accepted[..s.lo] == s.accepted;
    }
  }

  /** After Close has returned nothing happens any more. */
  lemma NothingAfterClose<T(!new)>(config: Config, s: State<T>, e: Event<T>)
    requires config.maxBacklog >= 0 && Reachable(config, s) && s.closeResult.Some?
    ensures !Enabled(s, e)
  {
    InvariantHolds(config, s);
  }

  /** The loop never sends on the closed signal channel. */
  lemma NeverSignalsClosed<T(!new)>(config: Config, s: State<T>)
    requires config.maxBacklog >= 0 && Reachable(config, s) && Enabled(s, Enqueue)
    ensures !s.closed && Step(config, s, Enqueue).token
  {
    InvariantHolds(config, s);
  }

  // ---------------------------------------------------------------------------
  // Wakeups
  // ---------------------------------------------------------------------------

  predicate Grows<T(==)>(s: State<T>, s': State<T>) {
    && s.accepted <= s'.accepted
    && s.lo <= s'.lo
    && s.dropped <= s'.dropped && s.removed <= s'.removed && s.sentAt <= s'.sentAt
  }

  lemma OtherStepsKeepHistory<T>(config: Config, s: State<T>, e: Event<T>)
    requires Enabled(s, e) && !e.Append? && !e.Remove?
    ensures SameHistory(s, Step(config, s, e))
  {
  }

  lemma AppendGrows<T>(config: Config, s: State<T>, span: T)
    requires config.maxBacklog >= 0 && BatchIsSuffix(config, s)
    ensures Grows(s, AppendStep(config, s, span))
  {
    AppendMoves(config, s, span);
  }

  lemma RemoveGrows<T>(s: State<T>, last: bool, r: Request<T>)
    requires RequestUnderWay(s, last, r)
    ensures Grows(s, RemoveStep(s, last, r))
  {
    RemoveRecords(s, last, r);
  }

  lemma StepGrows<T>(config: Config, s: State<T>, e: Event<T>)
    requires config.maxBacklog >= 0 && Inv(config, s) && Enabled(s, e)
    ensures Grows(s, Step(config, s, e))
  {
    match e {
      case Append => AppendGrows(config, s, s.loop.span);
      case Remove => RemoveGrows(s, s.sender.last, s.sender.request);
      case _ => OtherStepsKeepHistory(config, s, e);
    }
  }

  lemma GrowsTransitive<T>(a: State<T>, b: State<T>, c: State<T>)
    requires Grows(a, b) && Grows(b, c)
    ensures Grows(a, c)
  {
  }

  /** A run only adds to the history. */
  lemma {:induction false} HistoryGrows<T>(config: Config, s: State<T>, events: seq<Event<T>>)
    requires config.maxBacklog >= 0 && Inv(config, s)
    requires Run(config, s, events).Some?
    ensures Grows(s, Run(config, s, events).value)
    decreases |events|
  {
    if events != [] {
      var next := Step(config, s, events[0]);
      StepKeepsInv(config, s, events[0]);
      StepGrows(config, s, events[0]);
      HistoryGrows(config, next, events[1..]);
      GrowsTransitive(s, next, Run(config, next, events[1..]).value);
    }
  }

  lemma NewlyGone(dropped: set<nat>, removed: set<nat>, lo: nat, dropped': set<nat>, removed': set<nat>, lo': nat)
    requires Partition(dropped, removed, lo) && Partition(dropped', removed', lo')
    requires dropped <= dropped' && removed <= removed' && lo <= lo'
    ensures Interval(lo, lo') == (dropped' - dropped) + (removed' - removed)
  {
    CardInterval(lo, lo');
    forall p: nat ensures p in Interval(lo, lo') <==> p in (dropped' - dropped) + (removed' - removed) {
      assert p in Below(lo) <==> p in dropped || p in removed;
      assert p in Below(lo') <==> p in dropped' || p in removed';
    }
  }

  /** Over any run positions leave the batch only by disposal or removal: the positions that were in the
      batch, or came later, and are behind it now are exactly the newly disposed of and the newly removed. */
  lemma LeavesByDisposalOrRemoval<T(!new)>(config: Config, s: State<T>, events: seq<Event<T>>)
    requires config.maxBacklog >= 0 && Reachable(config, s) && Run(config, s, events).Some?
    ensures var s' := Run(config, s, events).value;
            && Grows(s, s')
            && Interval(s.lo, s'.lo) == (s'.dropped - s.dropped) + (s'.removed - s.removed)
            && s.dropped !! s'.removed && s.removed !! s'.dropped
  {
    InvariantHolds(config, s);
    RunKeepsInv(config, s, events);
    HistoryGrows(config, s, events);
    var s' := Run(config, s, events).value;
    NewlyGone(s.dropped, s.removed, s.lo, s'.dropped, s'.removed, s'.lo);
  }

  /** As long as no snapshot is taken, a trigger stays pending. */
  lemma {:induction false} TriggerStays<T>(config: Config, s: State<T>, events: seq<Event<T>>)
    requires s.triggered && Run(config, s, events).Some?
    requires forall i :: 0 <= i < |events| ==> !events[i].TakeSnapshot?
    ensures Run(config, s, events).value.triggered
    decreases |events|
  {
    if events != [] {
      TriggerStays(config, Step(config, s, events[0]), events[1..]);
    }
  }

  /** The span at position `p` of `s.accepted` is in the batch of `s'`, or has been disposed of or removed. */
  predicate WaitingOrGone<T(==)>(s: State<T>, s': State<T>, p: nat)
    requires p < |s.accepted|
  {
    p in s'.dropped || p in s'.removed
    || (s'.lo <= p < s'.lo + |s'.batch| && s'.batch[p - s'.lo] == s.accepted[p])
  }

  lemma WaitingOrGoneHolds<T>(config: Config, s: State<T>, s': State<T>, p: nat)
    requires Inv(config, s') && s.accepted <= s'.accepted && p < |s.accepted|
    ensures WaitingOrGone(s, s', p)
  {
    if p < s'.lo {
      assert p in Below(s'.lo);
    } else {
      assert s'.accepted[p] == s.accepted[p];
    }
  }

  /** No wakeup is lost: after the loop signals in state `s`, and as long as no snapshot has been taken, a
      token waits or the sender is about to take a snapshot; a waiting sender can receive; and every position
      accepted before the signal is in the batch, or has been disposed of or removed meanwhile. */
  lemma NoLostWakeup<T(!new)>(config: Config, s: State<T>, events: seq<Event<T>>)
    requires config.maxBacklog >= 0 && Reachable(config, s) && Enabled(s, Enqueue)
    requires Run(config, Step(config, s, Enqueue), events).Some?
    requires forall i :: 0 <= i < |events| ==> !events[i].TakeSnapshot?
    ensures var s' := Run(config, Step(config, s, Enqueue), events).value;
            && (s'.token || s'.sender.Starting?)
            && (s'.sender.Receiving? ==> Enabled(s', Receive))
            && (forall p: nat :: p < |s.accepted| ==> WaitingOrGone(s, s', p))
  {
    InvariantHolds(config, s);
    var signalled := Step(config, s, Enqueue);
    StepKeepsInv(config, s, Enqueue);
    RunKeepsInv(config, signalled, events);
    TriggerStays(config, signalled, events);
    HistoryGrows(config, signalled, events);
    forall p: nat | p < |s.accepted| ensures WaitingOrGone(s, Run(config, signalled, events).value, p) {
      WaitingOrGoneHolds(config, s, Run(config, signalled, events).value, p);
    }
  }

  /** A snapshot takes the whole batch, so whatever waits in the batch is in it. */
  lemma SnapshotTakesAll<T(!new)>(config: Config, s: State<T>)
    requires config.maxBacklog >= 0 && Reachable(config, s) && Enabled(s, TakeSnapshot) && s.batch != []
    ensures var sender := Step(config, s, TakeSnapshot).sender;
            && sender.InFlight? && sender.last == s.sender.last
            && sender.request.start == s.lo && sender.request.end == |s.accepted|
            && Covers(s.accepted, sender.request)
  {
    InvariantHolds(config, s);
    SnapshotKeepsInv(config, s);
  }

  /** The span at position `p` of `accepted` is in the request just made, or has been disposed of or removed. */
  predicate TakenOrGone<T(==)>(accepted: seq<T>, s': State<T>, p: nat)
    requires p < |accepted|
  {
    p in s'.dropped || p in s'.removed
    || (s'.sender.InFlight?
        && (var r := s'.sender.request;
            r.start <= p < r.end && p - r.start < |r.payload| && r.payload[p - r.start] == accepted[p]))
  }

  lemma WaitingIsTaken<T>(config: Config, s: State<T>, s1: State<T>, p: nat)
    requires Inv(config, s1) && s1.sender.Starting? && p < |s.accepted| && WaitingOrGone(s, s1, p)
    ensures TakenOrGone(s.accepted, SnapshotStep(s1, s1.sender.last), p)
  {
  }

  /** Every span present at a trigger reaches a request: at the first snapshot after the loop signals, each
      span accepted before the signal is in the request made there, unless it was disposed of or removed. */
  lemma TriggerReachesSnapshot<T(!new)>(config: Config, s: State<T>, events: seq<Event<T>>)
    requires config.maxBacklog >= 0 && Reachable(config, s) && Enabled(s, Enqueue)
    requires forall i :: 0 <= i < |events| ==> !events[i].TakeSnapshot?
    requires Run(config, Step(config, s, Enqueue), events).Some?
    requires Enabled(Run(config, Step(config, s, Enqueue), events).value, TakeSnapshot)
    ensures var end := Run(config, Step(config, s, Enqueue), events + [TakeSnapshot]);
            end.Some? && forall p: nat :: p < |s.accepted| ==> TakenOrGone(s.accepted, end.value, p)
  {
    var signalled := Step(config, s, Enqueue);
    var s1 := Run(config, signalled, events).value;
    RunExtend(config, signalled, events, TakeSnapshot);
    NoLostWakeup(config, s, events);
    InvariantHolds(config, s);
    StepKeepsInv(config, s, Enqueue);
    RunKeepsInv(config, signalled, events);
    forall p: nat | p < |s.accepted| ensures TakenOrGone(s.accepted, SnapshotStep(s1, s1.sender.last), p) {
      WaitingIsTaken(config, s, s1, p);
    }
  }
}
