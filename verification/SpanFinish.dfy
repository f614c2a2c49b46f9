/** Concurrent finishing of one span (span_implementation.go:79-107): callers of Finish, FinishedWithDuration
    and Flush whose compare-and-swap, duration store and send interleave freely. */
module SpanFinish {
  import opened Hex
  import opened Model
  import opened Spans
  import opened Tracer
  import opened TraceChain
  import opened StartedSpans

  /** One call; a finish comes with the duration it is going to store, measured or given. */
  datatype Call = Finish(duration: int64) | Flush

  /** How far a call has got: a finish that wins the compare-and-swap stores the duration, then sends. */
  datatype Progress = Ready | Won | Stored | Done

  /** What the reporter is handed, and by which caller. */
  datatype Send = Send(caller: nat, model: SpanModel)

  datatype State = State(
    mustCollect: bool,
    model: SpanModel,
    flushOnFinish: bool,
    progress: seq<Progress>,
    winner: Option<nat>,
    sends: seq<Send>)

  function Initial(span: SpanState, callers: nat): State {
    State(span.mustCollect, span.model, span.flushOnFinish, seq(callers, _ => Ready), None, [])
  }

  predicate WellFormed(calls: seq<Call>, s: State) {
    |s.progress| == |calls| && (s.winner.Some? ==> s.winner.value < |calls|)
  }

  /** The next atomic step of caller `i`, which does nothing once it is done. */
  function Step(calls: seq<Call>, s: State, i: nat): (s': State)
    requires WellFormed(calls, s) && i < |calls|
    ensures WellFormed(calls, s')
  {
    match s.progress[i]
    case Ready =>
      (match calls[i]
       case Flush =>
         s.(progress := s.progress[i := Done],
            sends := if s.model.ctx.Decision() then s.sends + [Send(i, s.model)] else s.sends)
       case Finish(_) =>
         if s.mustCollect then s.(mustCollect := false, progress := s.progress[i := Won], winner := Some(i))
         else s.(progress := s.progress[i := Done]))
    case Won =>
      (match calls[i]
       case Finish(d) => s.(model := s.model.(duration := d), progress := s.progress[i := Stored])
       case Flush => s)
    case Stored =>
      s.(progress := s.progress[i := Done],
         sends := if s.flushOnFinish then s.sends + [Send(i, s.model)] else s.sends)
    case Done => s
  }

  predicate Schedule(calls: seq<Call>, schedule: seq<nat>) {
    forall k :: 0 <= k < |schedule| ==> schedule[k] < |calls|
  }

  function Run(calls: seq<Call>, s: State, schedule: seq<nat>): (s': State)
    requires WellFormed(calls, s) && Schedule(calls, schedule)
    ensures WellFormed(calls, s')
    decreases |schedule|
  {
    if schedule == [] then s else Run(calls, Step(calls, s, schedule[0]), schedule[1..])
  }

  // ---------------------------------------------------------------------------
  // The invariant
  // ---------------------------------------------------------------------------

  /** Flushes completed among the first `n` callers. */
  function FlushesDone(calls: seq<Call>, progress: seq<Progress>, n: nat): nat
    requires n <= |calls| == |progress|
  {
    if n == 0 then 0
    else FlushesDone(calls, progress, n - 1) + (if calls[n - 1].Flush? && progress[n - 1].Done? then 1 else 0)
  }

  /** Whether the winning finish has completed and was to send. */
  predicate FinishSent(s: State)
    requires s.winner.Some? ==> s.winner.value < |s.progress|
  {
    s.winner.Some? && s.progress[s.winner.value].Done? && s.flushOnFinish
  }

  function CompletedSends(calls: seq<Call>, s: State): nat
    requires WellFormed(calls, s)
  {
    (if s.model.ctx.Decision() then FlushesDone(calls, s.progress, |calls|) else 0) + (if FinishSent(s) then 1 else 0)
  }

  /** The winner is the only caller that ever stores or sends for a finish. */
  predicate OneWinner(calls: seq<Call>, s: State)
    requires WellFormed(calls, s)
  {
    && s.mustCollect == (s.model.ctx.Decision() && s.winner.None?)
    && (s.winner.Some? ==> s.model.ctx.Decision() && calls[s.winner.value].Finish? && !s.progress[s.winner.value].Ready?)
    && (forall i :: 0 <= i < |calls| ==>
          && (s.progress[i] in {Won, Stored} ==> s.winner == Some(i))
          && (calls[i].Finish? && s.progress[i].Done? && s.model.ctx.Decision() ==> s.winner.Some?))
  }

  /** Once stored, the duration is the winner's, for good. */
  predicate WinnersDuration(calls: seq<Call>, s: State)
    requires WellFormed(calls, s)
  {
    s.winner.Some? && calls[s.winner.value].Finish? && s.progress[s.winner.value] in {Stored, Done} ==>
      && s.model.duration == calls[s.winner.value].duration
      && (forall k :: 0 <= k < |s.sends| && s.sends[k].caller == s.winner.value ==> s.sends[k].model == s.model)
  }

  /** Nobody is named in a send before having sent. */
  predicate SendersDone(calls: seq<Call>, s: State)
    requires WellFormed(calls, s)
  {
    forall k :: 0 <= k < |s.sends| ==> s.sends[k].caller < |calls| && s.progress[s.sends[k].caller].Done?
  }

  predicate Inv(calls: seq<Call>, s: State) {
    && WellFormed(calls, s)
    && OneWinner(calls, s)
    && WinnersDuration(calls, s)
    && SendersDone(calls, s)
    && |s.sends| == CompletedSends(calls, s)
  }

  lemma {:induction false} FlushesDoneUpdate(calls: seq<Call>, progress: seq<Progress>, i: nat, p: Progress, n: nat)
    requires n <= |calls| == |progress| && i < |calls| && !progress[i].Done?
    ensures FlushesDone(calls, progress[i := p], n)
            == FlushesDone(calls, progress, n) + (if i < n && calls[i].Flush? && p.Done? then 1 else 0)
  {
    if n > 0 {
      FlushesDoneUpdate(calls, progress, i, p, n - 1);
    }
  }

  lemma ReadyKeepsInv(calls: seq<Call>, s: State, i: nat)
    requires Inv(calls, s) && i < |calls| && s.progress[i].Ready?
    ensures Inv(calls, Step(calls, s, i))
  {
    FlushesDoneUpdate(calls, s.progress, i, Done, |calls|);
    FlushesDoneUpdate(calls, s.progress, i, Won, |calls|);
  }

  lemma WonKeepsInv(calls: seq<Call>, s: State, i: nat)
    requires Inv(calls, s) && i < |calls| && s.progress[i].Won?
    ensures Inv(calls, Step(calls, s, i))
  {
    FlushesDoneUpdate(calls, s.progress, i, Stored, |calls|);
  }

  lemma StoredKeepsInv(calls: seq<Call>, s: State, i: nat)
    requires Inv(calls, s) && i < |calls| && s.progress[i].Stored?
    ensures Inv(calls, Step(calls, s, i))
  {
    FlushesDoneUpdate(calls, s.progress, i, Done, |calls|);
  }

  lemma StepKeepsInv(calls: seq<Call>, s: State, i: nat)
    requires Inv(calls, s) && i < |calls|
    ensures Inv(calls, Step(calls, s, i))
    ensures Step(calls, s, i).model.ctx == s.model.ctx
    ensures Step(calls, s, i).flushOnFinish == s.flushOnFinish
  {
    match s.progress[i] {
      case Done =>
      case Ready => ReadyKeepsInv(calls, s, i);
      case Won => WonKeepsInv(calls, s, i);
      case Stored => StoredKeepsInv(calls, s, i);
    }
  }

  lemma {:induction false} RunKeepsInv(calls: seq<Call>, s: State, schedule: seq<nat>)
    requires Inv(calls, s) && Schedule(calls, schedule)
    ensures Inv(calls, Run(calls, s, schedule))
    ensures Run(calls, s, schedule).model.ctx == s.model.ctx
    ensures Run(calls, s, schedule).flushOnFinish == s.flushOnFinish
    decreases |schedule|
  {
    if schedule != [] {
      StepKeepsInv(calls, s, schedule[0]);
      RunKeepsInv(calls, Step(calls, s, schedule[0]), schedule[1..]);
    }
  }

  lemma {:induction false} NoFlushesYet(calls: seq<Call>, n: nat)
    requires n <= |calls|
    ensures FlushesDone(calls, seq(|calls|, _ => Ready), n) == 0
  {
    if n > 0 {
      NoFlushesYet(calls, n - 1);
    }
  }

  // ---------------------------------------------------------------------------
  // Every interleaving on a started span
  // ---------------------------------------------------------------------------

  /** At every moment of every interleaving of calls on a started span: the spans sent are one for each
      completed flush, plus one if a finish has completed and flush-on-finish is set, when the decision is to
      sample, and none otherwise; at most one finish takes effect, and its duration is the one sent. */
  lemma SendsMatchCalls(config: Config, name: string, options: seq<SpanOption>, supply: Supply,
                        calls: seq<Call>, schedule: seq<nat>)
    requires Start(false, config, name, options, supply).Recording?
    requires Schedule(calls, schedule)
    ensures var span := Start(false, config, name, options, supply).span;
            var s := Run(calls, Initial(span, |calls|), schedule);
            && s.model.ctx == span.model.ctx
            && |s.sends| == CompletedSends(calls, s)
            && (!span.model.ctx.Decision() ==> s.sends == [] && s.winner.None?)
            && OneWinner(calls, s) && WinnersDuration(calls, s)
  {
    var span := Start(false, config, name, options, supply).span;
    StartedSpanIsDecided(config, name, options, supply);
    NoFlushesYet(calls, |calls|);
    RunKeepsInv(calls, Initial(span, |calls|), schedule);
  }

  /** How often `i` is named as the caller of a send. */
  function SendsBy(sends: seq<Send>, i: nat): nat {
    if sends == [] then 0
    else SendsBy(sends[..|sends| - 1], i) + (if sends[|sends| - 1].caller == i then 1 else 0)
  }

  /** How often caller `i` is to have sent: once it is done, a flush of a sampled span and the winning finish
      under flush-on-finish send once, and nobody else ever. */
  function Due(calls: seq<Call>, s: State, i: nat): nat
    requires WellFormed(calls, s) && i < |calls|
  {
    if !s.progress[i].Done? then 0
    else if calls[i].Flush? then if s.model.ctx.Decision() then 1 else 0
    else if s.winner == Some(i) && s.flushOnFinish then 1
    else 0
  }

  predicate SendsExact(calls: seq<Call>, s: State)
    requires WellFormed(calls, s)
  {
    forall i :: 0 <= i < |calls| ==> SendsBy(s.sends, i) == Due(calls, s, i)
  }

  lemma OneMoreSend(sends: seq<Send>, send: Send, i: nat)
    ensures SendsBy(sends + [send], i) == SendsBy(sends, i) + (if send.caller == i then 1 else 0)
  {
    assert (sends + [send])[..|sends|] == sends;
  }

  lemma OthersDueUnchanged(calls: seq<Call>, s: State, i: nat, j: nat)
    requires Inv(calls, s) && i < |calls| && j < |calls| && i != j
    ensures Due(calls, Step(calls, s, i), j) == Due(calls, s, j)
  {
  }

  lemma OwnDue(calls: seq<Call>, s: State, i: nat)
    requires Inv(calls, s) && i < |calls|
    ensures var s' := Step(calls, s, i);
            s'.sends == if Due(calls, s', i) > Due(calls, s, i) then s.sends + [Send(i, s.model)] else s.sends
    ensures Due(calls, s, i) <= Due(calls, Step(calls, s, i), i) <= 1
  {
  }

  lemma StepKeepsSendsExact(calls: seq<Call>, s: State, i: nat)
    requires Inv(calls, s) && SendsExact(calls, s) && i < |calls|
    ensures SendsExact(calls, Step(calls, s, i))
  {
    var s' := Step(calls, s, i);
    OwnDue(calls, s, i);
    forall j | 0 <= j < |calls| ensures SendsBy(s'.sends, j) == Due(calls, s', j) {
      OneMoreSend(s.sends, Send(i, s.model), j);
      if j != i {
        OthersDueUnchanged(calls, s, i, j);
      }
    }
  }

  lemma {:induction false} RunKeepsSendsExact(calls: seq<Call>, s: State, schedule: seq<nat>)
    requires Inv(calls, s) && SendsExact(calls, s) && Schedule(calls, schedule)
    ensures SendsExact(calls, Run(calls, s, schedule))
    decreases |schedule|
  {
    if schedule != [] {
      StepKeepsInv(calls, s, schedule[0]);
      StepKeepsSendsExact(calls, s, schedule[0]);
      RunKeepsSendsExact(calls, Step(calls, s, schedule[0]), schedule[1..]);
    }
  }

  /** At every moment of every interleaving each completed flush of a sampled span has sent exactly once, the
      winning finish exactly once if it has completed under flush-on-finish, and no other caller has. */
  lemma EachSendsOnce(config: Config, name: string, options: seq<SpanOption>, supply: Supply,
                      calls: seq<Call>, schedule: seq<nat>)
    requires Start(false, config, name, options, supply).Recording?
    requires Schedule(calls, schedule)
    ensures var span := Start(false, config, name, options, supply).span;
            SendsExact(calls, Run(calls, Initial(span, |calls|), schedule))
  {
    var span := Start(false, config, name, options, supply).span;
    StartedSpanIsDecided(config, name, options, supply);
    NoFlushesYet(calls, |calls|);
    RunKeepsSendsExact(calls, Initial(span, |calls|), schedule);
  }

  function Flushes(calls: seq<Call>, n: nat): nat
    requires n <= |calls|
  {
    if n == 0 then 0 else Flushes(calls, n - 1) + (if calls[n - 1].Flush? then 1 else 0)
  }

  lemma {:induction false} AllFlushesDone(calls: seq<Call>, progress: seq<Progress>, n: nat)
    requires n <= |calls| == |progress|
    requires forall i :: 0 <= i < n ==> progress[i].Done?
    ensures FlushesDone(calls, progress, n) == Flushes(calls, n)
  {
    if n > 0 {
      AllFlushesDone(calls, progress, n - 1);
    }
  }

  /** When all calls have returned, the total depends on the calls made and not on the interleaving. */
  lemma TotalSends(config: Config, name: string, options: seq<SpanOption>, supply: Supply,
                   calls: seq<Call>, schedule: seq<nat>)
    requires Start(false, config, name, options, supply).Recording?
    requires Schedule(calls, schedule)
    requires var s := Run(calls, Initial(Start(false, config, name, options, supply).span, |calls|), schedule);
             forall i :: 0 <= i < |calls| ==> s.progress[i].Done?
    ensures var span := Start(false, config, name, options, supply).span;
            |Run(calls, Initial(span, |calls|), schedule).sends|
            == if !span.model.ctx.Decision() then 0
               else Flushes(calls, |calls|) + (if span.flushOnFinish && HasFinish(calls) then 1 else 0)
  {
    var span := Start(false, config, name, options, supply).span;
    var s := Run(calls, Initial(span, |calls|), schedule);
    SendsMatchCalls(config, name, options, supply, calls, schedule);
    NoFlushesYet(calls, |calls|);
    StartedSpanIsDecided(config, name, options, supply);
    RunKeepsInv(calls, Initial(span, |calls|), schedule);
    AllFlushesDone(calls, s.progress, |calls|);
    if HasFinish(calls) {
      var i :| 0 <= i < |calls| && calls[i].Finish?;
      assert s.progress[i].Done?;
    }
  }

  predicate HasFinish(calls: seq<Call>) {
    exists i :: 0 <= i < |calls| && calls[i].Finish?
  }

  /** A sampled span started without an option about flushing is sent exactly once by however many finishes,
      in whatever interleaving; with the last such option false it is not sent. */
  lemma FinishedSpanIsSent(config: Config, name: string, options: seq<SpanOption>, supply: Supply,
                           calls: seq<Call>, schedule: seq<nat>)
    requires Start(false, config, name, options, supply).Recording?
    requires ContextOf(Start(false, config, name, options, supply)).Decision()
    requires Schedule(calls, schedule) && HasFinish(calls) && (forall i :: 0 <= i < |calls| ==> calls[i].Finish?)
    requires var s := Run(calls, Initial(Start(false, config, name, options, supply).span, |calls|), schedule);
             forall i :: 0 <= i < |calls| ==> s.progress[i].Done?
    ensures |Run(calls, Initial(Start(false, config, name, options, supply).span, |calls|), schedule).sends|
            == if LastFlush(true, options) then 1 else 0
    ensures (forall i :: 0 <= i < |options| ==> !options[i].FlushOnFinish?) ==> LastFlush(true, options)
  {
    RecordedFields(config, name, options, supply);
    TotalSends(config, name, options, supply, calls, schedule);
    NoFlushes(calls, |calls|);
    FlushesByDefault(options);
  }

  lemma {:induction false} NoFlushes(calls: seq<Call>, n: nat)
    requires n <= |calls| && forall i :: 0 <= i < |calls| ==> calls[i].Finish?
    ensures Flushes(calls, n) == 0
  {
    if n > 0 {
      NoFlushes(calls, n - 1);
    }
  }

  lemma {:induction false} FlushesByDefault(options: seq<SpanOption>)
    ensures (forall i :: 0 <= i < |options| ==> !options[i].FlushOnFinish?) ==> LastFlush(true, options)
  {
    if options != [] {
      FlushesByDefault(options[..|options| - 1]);
    }
  }

  // ---------------------------------------------------------------------------
  // What is sent
  // ---------------------------------------------------------------------------

  /** The duration a span may have: the one it started with, or that of the winning finish. */
  predicate KnownDuration(calls: seq<Call>, s: State, before: int64, d: int64)
    requires WellFormed(calls, s)
  {
    d == before || (s.winner.Some? && calls[s.winner.value].Finish? && d == calls[s.winner.value].duration)
  }

  /** Whatever is sent is the span, with such a duration. */
  predicate SendsTheSpan(calls: seq<Call>, s: State, m: SpanModel)
    requires WellFormed(calls, s)
  {
    && s.model == m.(duration := s.model.duration) && KnownDuration(calls, s, m.duration, s.model.duration)
    && forall k :: 0 <= k < |s.sends| ==>
         && s.sends[k].model == m.(duration := s.sends[k].model.duration)
         && KnownDuration(calls, s, m.duration, s.sends[k].model.duration)
  }

  lemma StepSendsTheSpan(calls: seq<Call>, s: State, i: nat, m: SpanModel)
    requires WellFormed(calls, s) && OneWinner(calls, s) && SendsTheSpan(calls, s, m) && i < |calls|
    ensures WellFormed(calls, Step(calls, s, i)) && SendsTheSpan(calls, Step(calls, s, i), m)
  {
    var s' := Step(calls, s, i);
    assert s.winner.Some? ==> s'.winner == s.winner;
  }

  lemma {:induction false} RunSendsTheSpan(calls: seq<Call>, s: State, schedule: seq<nat>, m: SpanModel)
    requires Inv(calls, s) && SendsTheSpan(calls, s, m) && Schedule(calls, schedule)
    ensures SendsTheSpan(calls, Run(calls, s, schedule), m)
    decreases |schedule|
  {
    if schedule != [] {
      StepKeepsInv(calls, s, schedule[0]);
      StepSendsTheSpan(calls, s, schedule[0], m);
      RunSendsTheSpan(calls, Step(calls, s, schedule[0]), schedule[1..], m);
    }
  }

  /** Every send, at any moment of any interleaving, is of the span as it was started, with the duration it
      started with or that of the winning finish. */
  lemma SentModels(config: Config, name: string, options: seq<SpanOption>, supply: Supply,
                   calls: seq<Call>, schedule: seq<nat>)
    requires Start(false, config, name, options, supply).Recording?
    requires Schedule(calls, schedule)
    ensures var span := Start(false, config, name, options, supply).span;
            SendsTheSpan(calls, Run(calls, Initial(span, |calls|), schedule), span.model)
  {
    var span := Start(false, config, name, options, supply).span;
    StartedSpanIsDecided(config, name, options, supply);
    NoFlushesYet(calls, |calls|);
    RunSendsTheSpan(calls, Initial(span, |calls|), schedule, span.model);
  }

  /** Undisturbed, the three steps of a finish are the method FinishedWithDuration: the span it leaves and
      what it sends. */
  lemma FinishAlone(span: SpanState, d: int64)
    ensures var s := Run([Finish(d)], Initial(span, 1), [0, 0, 0]);
            && !s.mustCollect
            && s.model == (if span.mustCollect then span.model.(duration := d) else span.model)
            && s.sends == (if span.mustCollect && span.flushOnFinish then [Send(0, s.model)] else [])
  {
    var calls, s0 := [Finish(d)], Initial(span, 1);
    var s1 := Step(calls, s0, 0);
    var s2 := Step(calls, s1, 0);
    assert Run(calls, s0, [0, 0, 0]) == Run(calls, s1, [0, 0]) by {
      assert [0, 0, 0][1..] == [0, 0];
    }
    assert Run(calls, s1, [0, 0]) == Run(calls, s2, [0]) by {
      assert [0, 0][1..] == [0];
    }
    assert Run(calls, s2, [0]) == Step(calls, s2, 0) by {
      assert [0][1..] == [];
    }
  }
}
