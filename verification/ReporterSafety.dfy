/** What every interleaving of the batch reporter keeps, and what follows at removal and at shutdown. */
module ReporterSafety {
  import opened Counting
  import opened Model
  import opened BatchReporter

  // ---------------------------------------------------------------------------
  // The invariant
  // ---------------------------------------------------------------------------

  /** The batch is the contiguous suffix of the accepted spans from `lo` on, and within bounds. */
  predicate BatchIsSuffix<T(==)>(config: Config, s: State<T>) {
    && s.lo <= |s.accepted|
    && s.batch == s.accepted[s.lo..]
    && |s.batch| <= config.maxBacklog
  }

  predicate Covers<T(==)>(accepted: seq<T>, r: Request<T>) {
    r.start < r.end <= |accepted| && r.payload == accepted[r.start..r.end]
  }

  /** Requests that reached the removal: contiguous blocks, disjoint and in order, all before `lo`. */
  predicate BlocksInOrder<T(==)>(s: State<T>) {
    && (forall i :: 0 <= i < |s.sent| ==> Covers(s.accepted, s.sent[i]) && s.sent[i].end <= s.lo)
    && (forall i, j :: 0 <= i < j < |s.sent| ==> s.sent[i].end <= s.sent[j].start)
  }

  /** A request under way: everything disposed of since its snapshot has moved `lo` on by as much, but the
      batch still holds at least as many spans as the request does. Nothing has been removed meanwhile. */
  predicate RequestUnderWay<T(==)>(s: State<T>, last: bool, r: Request<T>) {
    && Covers(s.accepted, r)
    && r.dropsBefore <= |s.dropped|
    && s.lo == r.start + (|s.dropped| - r.dropsBefore)
    && |r.payload| <= |s.batch|
    && (forall i :: 0 <= i < |s.sent| ==> s.sent[i].end <= r.start)
    && s.removed <= Below(r.start)
    && (last ==> s.closed && s.batch == r.payload)
  }

  predicate SenderConsistent<T(==)>(s: State<T>) {
    match s.sender
    case Receiving => true
    case Starting(last) => last ==> s.closed && !s.token
    case InFlight(last, r) => RequestUnderWay(s, last, r)
    case Removing(last, r) => RequestUnderWay(s, last, r)
    case Finished(failed) => s.closed && (failed <==> s.batch != [])
    case SenderPanicked => false
  }

  predicate LoopConsistent<T>(s: State<T>) {
    && !s.loop.LoopPanicked?
    && (s.closed <==> s.loop.Stopped?)
    && (s.closed ==> s.quit)
    && (s.closeResult.Some? ==> s.quit && s.sender == Finished(s.closeResult.value))
    && (s.triggered ==> s.token || s.sender.Starting?)
  }

  /** Every position before `lo` went in exactly one way, and removals match what was sent in number. */
  ghost predicate FatesConsistent<T>(s: State<T>) {
    && Partition(s.dropped, s.removed, s.lo)
    && |s.removed| == |s.sentAt|
    && Recorded(s.sentAt, s.sent)
  }

  predicate Partition(dropped: set<nat>, removed: set<nat>, lo: nat) {
    dropped + removed == Below(lo) && dropped !! removed
  }

  ghost predicate Recorded<T>(sentAt: set<nat>, sent: seq<Request<T>>) {
    forall p: nat :: p in sentAt <==> InSomeBlock(sent, p)
  }

  predicate InSomeBlock<T>(sent: seq<Request<T>>, p: nat) {
    exists i :: 0 <= i < |sent| && sent[i].start <= p < sent[i].end
  }

  function Payloads<T>(sent: seq<Request<T>>): seq<T> {
    if sent == [] then [] else Payloads(sent[..|sent| - 1]) + sent[|sent| - 1].payload
  }

  /** As long as nothing was disposed of, the payloads sent so far are the accepted spans before `lo`. */
  predicate NothingLost<T(==)>(s: State<T>) {
    s.dropped == {} ==> s.lo <= |s.accepted| && Payloads(s.sent) == s.accepted[..s.lo]
  }

  ghost predicate Inv<T>(config: Config, s: State<T>) {
    && BatchIsSuffix(config, s)
    && BlocksInOrder(s)
    && SenderConsistent(s)
    && LoopConsistent(s)
    && FatesConsistent(s)
    && NothingLost(s)
  }

  // ---------------------------------------------------------------------------
  // It is kept
  // ---------------------------------------------------------------------------

  lemma CardInterval(a: nat, b: nat)
    requires a <= b
    ensures |Interval(a, b)| == b - a
    ensures Below(a) + Interval(a, b) == Below(b)
    ensures forall p: nat :: p in Interval(a, b) <==> a <= p < b
  {
    CardBelow(a);
    CardBelow(b);
    CardSplit(Below(b), Below(a));
  }

  lemma DisjointUnion<T>(a: set<T>, b: set<T>)
    requires a !! b
    ensures |a + b| == |a| + |b|
  {
  }

  lemma AppendKeepsBlocks<T>(s: State<T>, s': State<T>)
    requires BlocksInOrder(s)
    requires s'.sent == s.sent && s.accepted <= s'.accepted && s.lo <= s'.lo
    ensures BlocksInOrder(s')
  {
    forall i | 0 <= i < |s'.sent| ensures Covers(s'.accepted, s'.sent[i]) {
      CoversLonger(s.accepted, s'.accepted, s.sent[i]);
    }
  }

  lemma CoversLonger<T>(accepted: seq<T>, longer: seq<T>, r: Request<T>)
    requires Covers(accepted, r) && accepted <= longer
    ensures Covers(longer, r)
  {
    assert longer[..|accepted|] == accepted;
    assert longer[r.start..r.end] == accepted[r.start..r.end];
  }

  lemma CardGrows(s: set<nat>, a: nat, b: nat)
    requires s <= Below(a) && a <= b
    ensures |s + Interval(a, b)| == |s| + (b - a)
  {
    CardInterval(a, b);
    assert s !! Interval(a, b);
    DisjointUnion(s, Interval(a, b));
  }

  lemma RemovedGrows(dropped: set<nat>, removed: set<nat>, a: nat, b: nat)
    requires Partition(dropped, removed, a) && a <= b
    ensures Partition(dropped, removed + Interval(a, b), b)
  {
    CardInterval(a, b);
  }

  lemma DroppedGrows(dropped: set<nat>, removed: set<nat>, a: nat, b: nat)
    requires Partition(dropped, removed, a) && a <= b
    ensures Partition(dropped + Interval(a, b), removed, b)
  {
    CardInterval(a, b);
  }

  lemma AppendKeepsFates<T>(s: State<T>, s': State<T>)
    requires FatesConsistent(s) && s.lo <= s'.lo
    requires s'.dropped == s.dropped + Interval(s.lo, s'.lo)
    requires s'.removed == s.removed && s'.sentAt == s.sentAt && s'.sent == s.sent
    ensures FatesConsistent(s')
  {
    DroppedGrows(s.dropped, s.removed, s.lo, s'.lo);
  }

  lemma AppendCountsDrops<T>(s: State<T>, s': State<T>)
    requires FatesConsistent(s) && s.lo <= s'.lo
    requires s'.dropped == s.dropped + Interval(s.lo, s'.lo)
    ensures |s'.dropped| == |s.dropped| + (s'.lo - s.lo)
  {
    assert s.dropped <= Below(s.lo);
    CardGrows(s.dropped, s.lo, s'.lo);
  }

  /** What one append does: accepted grows at its end, the batch stays its suffix. */
  lemma AppendMoves<T>(config: Config, s: State<T>, span: T)
    requires config.maxBacklog >= 0 && BatchIsSuffix(config, s)
    ensures var s' := AppendStep(config, s, span);
            && BatchIsSuffix(config, s')
            && s.accepted <= s'.accepted && s.lo <= s'.lo
            && s'.dropped == s.dropped + Interval(s.lo, s'.lo)
            && !s'.loop.LoopPanicked? && !s'.loop.Stopped?
            && |s'.batch| >= |s.batch|
  {
    var longer := s.batch + [span];
    assert longer == (s.accepted + [span])[s.lo..];
  }

  lemma AppendKeepsRequest<T>(config: Config, s: State<T>, s': State<T>, last: bool, r: Request<T>)
    requires RequestUnderWay(s, last, r) && !s.closed
    requires s.accepted <= s'.accepted && s'.sent == s.sent && s'.removed == s.removed
    requires |s'.batch| >= |s.batch|
    requires s.lo <= s'.lo && |s'.dropped| == |s.dropped| + (s'.lo - s.lo)
    ensures RequestUnderWay(s', last, r)
  {
    CoversLonger(s.accepted, s'.accepted, r);
  }

  lemma AppendKeepsNothingLost<T>(s: State<T>, s': State<T>)
    requires NothingLost(s) && s'.sent == s.sent && s.accepted <= s'.accepted && s'.lo <= |s'.accepted|
    requires s.lo <= |s.accepted| && s.lo <= s'.lo && |s'.dropped| == |s.dropped| + (s'.lo - s.lo)
    requires s.dropped <= s'.dropped
    ensures NothingLost(s')
  {
    if s'.dropped == {} {
      assert s.dropped == {};
      assert |s'.dropped| == 0;
      assert s'.accepted[..|s.accepted|] == s.accepted;
      assert s'.accepted[..s.lo] == s.accepted[..s.lo];
    }
  }

  lemma AppendKeepsInv<T>(config: Config, s: State<T>)
    requires config.maxBacklog >= 0 && Inv(config, s) && s.loop.Appending?
    ensures Inv(config, AppendStep(config, s, s.loop.span))
  {
    var s' := AppendStep(config, s, s.loop.span);
    AppendMoves(config, s, s.loop.span);
    AppendKeepsBlocks(s, s');
    AppendKeepsFates(s, s');
    AppendCountsDrops(s, s');
    AppendKeepsNothingLost(s, s');
    match s.sender {
      case InFlight(last, r) => AppendKeepsRequest(config, s, s', last, r);
      case Removing(last, r) => AppendKeepsRequest(config, s, s', last, r);
      case _ =>
    }
  }

  lemma SnapshotKeepsInv<T>(config: Config, s: State<T>)
    requires Inv(config, s) && s.sender.Starting?
    ensures Inv(config, SnapshotStep(s, s.sender.last))
  {
    assert s.accepted[s.lo..s.lo + |s.batch|] == s.batch;
  }

  lemma RemoveMoves<T>(config: Config, s: State<T>, last: bool, r: Request<T>)
    requires BatchIsSuffix(config, s) && RequestUnderWay(s, last, r)
    ensures var s' := RemoveStep(s, last, r);
            && BatchIsSuffix(config, s')
            && s'.lo == s.lo + (r.end - r.start)
            && s'.batch == s.accepted[r.end + (|s.dropped| - r.dropsBefore)..]
            && (last ==> s'.batch == [])
  {
  }

  lemma RemoveKeepsBlocks<T>(s: State<T>, last: bool, r: Request<T>)
    requires BlocksInOrder(s) && RequestUnderWay(s, last, r)
    ensures BlocksInOrder(RemoveStep(s, last, r))
  {
  }

  lemma InOneMoreBlock<T>(sent: seq<Request<T>>, r: Request<T>, p: nat)
    ensures InSomeBlock(sent + [r], p) <==> InSomeBlock(sent, p) || r.start <= p < r.end
  {
    var all := sent + [r];
    if InSomeBlock(sent, p) {
      var i :| 0 <= i < |sent| && sent[i].start <= p < sent[i].end;
      assert all[i] == sent[i];
    }
    if r.start <= p < r.end {
      assert all[|sent|] == r;
    }
  }

  lemma OneMoreBlock<T>(sentAt: set<nat>, sent: seq<Request<T>>, r: Request<T>)
    requires Recorded(sentAt, sent) && r.start <= r.end
    ensures Recorded(sentAt + Interval(r.start, r.end), sent + [r])
  {
    CardInterval(r.start, r.end);
    forall p: nat ensures p in sentAt + Interval(r.start, r.end) <==> InSomeBlock(sent + [r], p) {
      InOneMoreBlock(sent, r, p);
    }
  }

  lemma BlocksBefore<T>(sentAt: set<nat>, sent: seq<Request<T>>, at: nat)
    requires Recorded(sentAt, sent)
    requires forall i :: 0 <= i < |sent| ==> sent[i].end <= at
    ensures sentAt <= Below(at)
  {
    forall p | p in sentAt ensures p < at {
      assert InSomeBlock(sent, p);
    }
  }

  /** The history after a removal, apart from the request that led to it. */
  predicate RemoveRecorded<T(==)>(s: State<T>, s': State<T>, r: Request<T>) {
    && s'.lo == s.lo + (r.end - r.start)
    && s'.dropped == s.dropped
    && s'.removed == s.removed + Interval(s.lo, s'.lo)
    && s'.sentAt == s.sentAt + Interval(r.start, r.end)
    && s'.sent == s.sent + [r]
  }

  lemma RemoveRecords<T>(s: State<T>, last: bool, r: Request<T>)
    requires RequestUnderWay(s, last, r)
    ensures RemoveRecorded(s, RemoveStep(s, last, r), r)
  {
  }

  lemma RemoveKeepsCounts<T>(s: State<T>, s': State<T>, r: Request<T>)
    requires FatesConsistent(s) && r.start <= r.end && RemoveRecorded(s, s', r)
    requires forall i :: 0 <= i < |s.sent| ==> s.sent[i].end <= r.start
    ensures |s'.removed| == |s'.sentAt|
  {
    BlocksBefore(s.sentAt, s.sent, r.start);
    CardGrows(s.sentAt, r.start, r.end);
    assert s.removed <= Below(s.lo);
    CardGrows(s.removed, s.lo, s'.lo);
  }

  lemma RemoveKeepsFates<T>(s: State<T>, s': State<T>, r: Request<T>)
    requires FatesConsistent(s) && r.start <= r.end && RemoveRecorded(s, s', r)
    requires forall i :: 0 <= i < |s.sent| ==> s.sent[i].end <= r.start
    ensures FatesConsistent(s')
  {
    RemovedGrows(s.dropped, s.removed, s.lo, s'.lo);
    OneMoreBlock(s.sentAt, s.sent, r);
    RemoveKeepsCounts(s, s', r);
  }

  lemma RemoveKeepsNothingLost<T>(s: State<T>, last: bool, r: Request<T>)
    requires NothingLost(s) && RequestUnderWay(s, last, r)
    requires s.lo + |s.batch| <= |s.accepted|
    ensures NothingLost(RemoveStep(s, last, r))
  {
    var s' := RemoveStep(s, last, r);
    if s.dropped == {} {
      assert s'.sent[..|s'.sent| - 1] == s.sent;
      assert s.accepted[..r.start] + s.accepted[r.start..r.end] == s.accepted[..r.end];
    }
  }

  lemma RemoveKeepsInv<T>(config: Config, s: State<T>)
    requires Inv(config, s) && s.sender.Removing?
    ensures Inv(config, RemoveStep(s, s.sender.last, s.sender.request))
  {
    var last, r := s.sender.last, s.sender.request;
    RemoveMoves(config, s, last, r);
    RemoveKeepsBlocks(s, last, r);
    RemoveRecords(s, last, r);
    RemoveKeepsFates(s, RemoveStep(s, last, r), r);
    RemoveKeepsNothingLost(s, last, r);
  }

  /** The parts of the state that only append and removal change. */
  predicate SameHistory<T(==)>(s: State<T>, s': State<T>) {
    && s'.batch == s.batch && s'.accepted == s.accepted && s'.lo == s.lo
    && s'.dropped == s.dropped && s'.removed == s.removed
    && s'.sentAt == s.sentAt && s'.sent == s.sent
  }

  lemma SameHistoryKeeps<T>(config: Config, s: State<T>, s': State<T>)
    requires Inv(config, s) && SameHistory(s, s')
    ensures BatchIsSuffix(config, s') && BlocksInOrder(s') && FatesConsistent(s') && NothingLost(s')
  {
  }

  lemma SameHistoryKeepsRequest<T>(s: State<T>, s': State<T>, last: bool, r: Request<T>)
    requires RequestUnderWay(s, last, r) && SameHistory(s, s') && (s.closed ==> s'.closed)
    ensures RequestUnderWay(s', last, r)
  {
  }

  lemma SameHistoryKeepsSender<T>(s: State<T>, s': State<T>)
    requires SenderConsistent(s) && SameHistory(s, s') && s'.sender == s.sender
    requires s.closed ==> s'.closed && (s'.token ==> s.token)
    ensures SenderConsistent(s')
  {
    match s.sender {
      case InFlight(last, r) => SameHistoryKeepsRequest(s, s', last, r);
      case Removing(last, r) => SameHistoryKeepsRequest(s, s', last, r);
      case _ =>
    }
  }

  predicate LoopEvent<T>(e: Event<T>) {
    e.Accept? || e.Tick? || e.Enqueue? || e.Stop?
  }

  lemma LoopKeepsInv<T>(config: Config, s: State<T>, e: Event<T>)
    requires Inv(config, s) && Enabled(s, e) && LoopEvent(e)
    ensures Inv(config, Step(config, s, e))
  {
    var s' := Step(config, s, e);
    SameHistoryKeeps(config, s, s');
    SameHistoryKeepsSender(s, s');
  }

  lemma CloseKeepsInv<T>(config: Config, s: State<T>, e: Event<T>)
    requires Inv(config, s) && Enabled(s, e) && (e.CloseCall? || e.CloseReturn?)
    ensures Inv(config, Step(config, s, e))
  {
    var s' := Step(config, s, e);
    SameHistoryKeeps(config, s, s');
    SameHistoryKeepsSender(s, s');
  }

  lemma ReceiveKeepsInv<T>(config: Config, s: State<T>, e: Event<T>)
    requires Inv(config, s) && Enabled(s, e) && (e.Receive? || e.ReceiveClosed?)
    ensures Inv(config, Step(config, s, e))
  {
    SameHistoryKeeps(config, s, Step(config, s, e));
  }

  lemma AnswerKeepsInv<T>(config: Config, s: State<T>, e: Event<T>)
    requires Inv(config, s) && Enabled(s, e) && (e.Fail? || e.Succeed?)
    ensures Inv(config, Step(config, s, e))
  {
    var s', last, r := Step(config, s, e), s.sender.last, s.sender.request;
    SameHistoryKeeps(config, s, s');
    SameHistoryKeepsRequest(s, s', last, r);
  }

  lemma StepKeepsInv<T>(config: Config, s: State<T>, e: Event<T>)
    requires config.maxBacklog >= 0 && Inv(config, s) && Enabled(s, e)
    ensures Inv(config, Step(config, s, e))
  {
    match e {
      case Append => AppendKeepsInv(config, s);
      case TakeSnapshot => SnapshotKeepsInv(config, s);
      case Remove => RemoveKeepsInv(config, s);
      case Fail => AnswerKeepsInv(config, s, e);
      case Succeed => AnswerKeepsInv(config, s, e);
      case Receive => ReceiveKeepsInv(config, s, e);
      case ReceiveClosed => ReceiveKeepsInv(config, s, e);
      case CloseCall => CloseKeepsInv(config, s, e);
      case CloseReturn => CloseKeepsInv(config, s, e);
      case _ => LoopKeepsInv(config, s, e);
    }
  }

  lemma {:induction false} RunKeepsInv<T>(config: Config, s: State<T>, events: seq<Event<T>>)
    requires config.maxBacklog >= 0 && Inv(config, s)
    ensures Run(config, s, events).Some? ==> Inv(config, Run(config, s, events).value)
    decreases |events|
  {
    if events != [] && Enabled(s, events[0]) {
      StepKeepsInv(config, s, events[0]);
      RunKeepsInv(config, Step(config, s, events[0]), events[1..]);
    }
  }

  /** In every interleaving: the batch is a bounded suffix, sent blocks are contiguous, disjoint and in order,
      the loop never signals a closed channel, and no slice expression is out of bounds. */
  lemma InvariantHolds<T(!new)>(config: Config, s: State<T>)
    requires config.maxBacklog >= 0 && Reachable(config, s)
    ensures Inv(config, s)
  {
    var events :| Run(config, Initial(), events) == Some(s);
    assert Inv(config, Initial<T>());
    RunKeepsInv(config, Initial(), events);
  }
}
