/** What becomes of a batch, told from the writer's answers: which points are counted written,
    failed or retried, over every run of StatusDelivery. */
module StatusOutcomes {
  import opened Prelude
  import opened StatusDelivery

  /** The writer answers call n of a batch; after an error the worker looks at its context. */
  datatype Event = Answered(batch: seq<nat>, n: nat, ok: bool) | Checked(batch: seq<nat>, n: nat, cancelled: bool)

  function EventOf(s: State, step: Step): seq<Event> {
    if step.WriterReturns? && s.worker.Attempt? then [Answered(s.worker.batch, s.worker.n, step.ok)]
    else if step.WorkerChecksError? && s.worker.Erred? then [Checked(s.worker.batch, s.worker.n, s.cancelled)]
    else []
  }

  /** What the writer and the context answered over a run. */
  function Events(c: Config, s: State, steps: seq<Step>): seq<Event>
    requires c.Valid() && CanRun(c, s, steps)
    decreases |steps|
  {
    if |steps| == 0 then [] else EventOf(s, steps[0]) + Events(c, Apply(c, s, steps[0]), steps[1..])
  }

  // ------------------------------------------------------------------ what the answers amount to

  /** The points of the batches that were answered with success, in order. */
  function WrittenBy(h: seq<Event>): seq<nat>
    decreases |h|
  {
    if |h| == 0 then []
    else
      var e := h[|h| - 1];
      WrittenBy(h[..|h| - 1]) + if e.Answered? && e.ok then e.batch else []
  }

  /** The points of the batches that failed their last attempt without a cancellation. */
  function FailedBy(c: Config, h: seq<Event>): seq<nat>
    decreases |h|
  {
    if |h| == 0 then []
    else
      var e := h[|h| - 1];
      FailedBy(c, h[..|h| - 1]) + if e.Checked? && !e.cancelled && c.attempts <= e.n then e.batch else []
  }

  /** How many failed calls were to be repeated. */
  function RetriedBy(c: Config, h: seq<Event>): nat
    decreases |h|
  {
    if |h| == 0 then 0
    else
      var e := h[|h| - 1];
      RetriedBy(c, h[..|h| - 1]) + if e.Checked? && !e.cancelled && e.n < c.attempts then 1 else 0
  }

  function Last(h: seq<Event>): Option<Event> {
    if |h| == 0 then None else Some(h[|h| - 1])
  }

  /** Each look at the context follows a failed answer to the same call, each call but a batch's
      first follows a look that found no cancellation and attempts left, and nothing follows
      a look that found one. */
  predicate Follows(c: Config, before: Option<Event>, e: Event) {
    && !(before.Some? && before.value.Checked? && before.value.cancelled)
    && match e
    case Checked(b, n, _) => before == Some(Answered(b, n, false))
    case Answered(b, n, _) => n == 1 || (1 < n <= c.attempts && before == Some(Checked(b, n - 1, false)))
  }

  predicate Orderly(c: Config, h: seq<Event>) {
    forall i :: 0 <= i < |h| ==> Follows(c, Last(h[..i]), h[i])
  }

  // ------------------------------------------------------------------ the invariant

  predicate LogsFit(c: Config, s: State, h: seq<Event>) {
    && s.writtenLog + (if s.worker.Acked? then s.worker.batch else []) == WrittenBy(h)
    && s.failedLog + (if s.worker.Exhausted? then s.worker.batch else []) == FailedBy(c, h)
    && s.retried == RetriedBy(c, h)
  }

  /** Where the worker stands with a batch that has been called is told by the last event. */
  predicate WorkerFits(c: Config, s: State, h: seq<Event>) {
    && (s.worker.Erred? ==> Last(h) == Some(Answered(s.worker.batch, s.worker.n, false)))
    && (s.worker.Backoff? || (s.worker.Attempt? && s.worker.n != 1) ==>
          1 < s.worker.n <= c.attempts && Last(h) == Some(Checked(s.worker.batch, s.worker.n - 1, false)))
  }

  /** And the last event tells where the worker stands: a batch that failed and may be called
      again is held until its next call, unless a cancellation comes first. */
  predicate LastFits(c: Config, s: State, h: seq<Event>) {
    match Last(h)
    case None => true
    case Some(Answered(b, n, ok)) => !ok ==> s.worker == Erred(b, n)
    case Some(Checked(b, n, cancelled)) =>
      && (cancelled ==> s.cancelled && (s.worker == Dropping(b) || Dropped(s, b)))
      && (!cancelled && n < c.attempts ==>
            || s.worker == Backoff(b, n + 1) || s.worker == Attempt(b, n + 1)
            || (s.cancelled && (s.worker == Dropping(b) || Dropped(s, b))))
  }

  /** The worker is past dropRemaining, and the batch was dropped by it. */
  predicate Dropped(s: State, b: seq<nat>) {
    (s.worker.Counting? || s.worker.Exited?) && forall i :: i in b ==> i in s.droppedLog
  }

  predicate Fits(c: Config, s: State, h: seq<Event>) {
    Orderly(c, h) && LogsFit(c, s, h) && WorkerFits(c, s, h) && LastFits(c, s, h)
  }

  lemma OneMoreEvent(c: Config, h: seq<Event>, e: Event)
    ensures Last(h + [e]) == Some(e)
    ensures WrittenBy(h + [e]) == WrittenBy(h) + if e.Answered? && e.ok then e.batch else []
    ensures FailedBy(c, h + [e]) == FailedBy(c, h) + if e.Checked? && !e.cancelled && c.attempts <= e.n then e.batch else []
    ensures RetriedBy(c, h + [e]) == RetriedBy(c, h) + if e.Checked? && !e.cancelled && e.n < c.attempts then 1 else 0
    ensures Orderly(c, h) && Follows(c, Last(h), e) ==> Orderly(c, h + [e])
  {
    assert (h + [e])[..|h|] == h;
    if Orderly(c, h) && Follows(c, Last(h), e) {
      forall i | 0 <= i < |h + [e]|
        ensures Follows(c, Last((h + [e])[..i]), (h + [e])[i])
      {
        if i < |h| {
          assert (h + [e])[..i] == h[..i];
        }
      }
    }
  }

  lemma LogsAfterAnswer(c: Config, s: State, h: seq<Event>, ok: bool)
    requires c.Valid() && Enabled(c, s, WriterReturns(ok)) && LogsFit(c, s, h)
    ensures LogsFit(c, WorkerApply(c, s, WriterReturns(ok)), h + [Answered(s.worker.batch, s.worker.n, ok)])
  {
    OneMoreEvent(c, h, Answered(s.worker.batch, s.worker.n, ok));
  }

  lemma WorkerAfterAnswer(c: Config, s: State, h: seq<Event>, ok: bool)
    requires c.Valid() && Enabled(c, s, WriterReturns(ok)) && WorkerFits(c, s, h) && LastFits(c, s, h)
    ensures var s', h' := WorkerApply(c, s, WriterReturns(ok)), h + [Answered(s.worker.batch, s.worker.n, ok)];
      WorkerFits(c, s', h') && LastFits(c, s', h') && Follows(c, Last(h), Answered(s.worker.batch, s.worker.n, ok))
  {
  }

  lemma LogsAfterCheck(c: Config, s: State, h: seq<Event>)
    requires c.Valid() && Enabled(c, s, WorkerChecksError) && LogsFit(c, s, h)
    ensures LogsFit(c, WorkerApply(c, s, WorkerChecksError), h + [Checked(s.worker.batch, s.worker.n, s.cancelled)])
  {
    OneMoreEvent(c, h, Checked(s.worker.batch, s.worker.n, s.cancelled));
  }

  lemma WorkerAfterCheck(c: Config, s: State, h: seq<Event>)
    requires c.Valid() && Enabled(c, s, WorkerChecksError) && WorkerFits(c, s, h) && 1 <= s.worker.n
    ensures var s', h' := WorkerApply(c, s, WorkerChecksError), h + [Checked(s.worker.batch, s.worker.n, s.cancelled)];
      WorkerFits(c, s', h') && LastFits(c, s', h') && Follows(c, Last(h), Checked(s.worker.batch, s.worker.n, s.cancelled))
  {
  }

  lemma LogsAfterWorker(c: Config, s: State, h: seq<Event>, step: Step)
    requires c.Valid() && Enabled(c, s, step) && LogsFit(c, s, h)
    requires IsWorkerStep(step) && !step.WriterReturns? && !step.WorkerChecksError?
    ensures LogsFit(c, WorkerApply(c, s, step), h)
  {
  }

  lemma WorkerAfterWorker(c: Config, s: State, h: seq<Event>, step: Step)
    requires c.Valid() && Enabled(c, s, step) && WorkerFits(c, s, h) && LastFits(c, s, h)
    requires IsWorkerStep(step) && !step.WriterReturns? && !step.WorkerChecksError?
    ensures WorkerFits(c, WorkerApply(c, s, step), h) && LastFits(c, WorkerApply(c, s, step), h)
  {
  }

  lemma FitsAfterThread(c: Config, s: State, h: seq<Event>, step: Step)
    requires c.Valid() && Enabled(c, s, step) && Fits(c, s, h) && !IsWorkerStep(step) && StopOrder(s)
    ensures Fits(c, ThreadApply(c, s, step), h)
  {
  }

  lemma FitsKept(c: Config, s: State, h: seq<Event>, step: Step)
    requires c.Valid() && Enabled(c, s, step) && Fits(c, s, h) && Sizes(c, s) && StopOrder(s)
    ensures Fits(c, Apply(c, s, step), h + EventOf(s, step))
  {
    if step.WriterReturns? {
      LogsAfterAnswer(c, s, h, step.ok);
      WorkerAfterAnswer(c, s, h, step.ok);
      OneMoreEvent(c, h, Answered(s.worker.batch, s.worker.n, step.ok));
    } else if step.WorkerChecksError? {
      LogsAfterCheck(c, s, h);
      WorkerAfterCheck(c, s, h);
      OneMoreEvent(c, h, Checked(s.worker.batch, s.worker.n, s.cancelled));
    } else {
      assert h + EventOf(s, step) == h;
      if IsWorkerStep(step) {
        LogsAfterWorker(c, s, h, step);
        WorkerAfterWorker(c, s, h, step);
      } else {
        FitsAfterThread(c, s, h, step);
      }
    }
  }

  lemma Assoc(a: seq<Event>, b: seq<Event>, d: seq<Event>)
    ensures a + b + d == a + (b + d)
  {
  }

  lemma {:induction false} FitsByRun(c: Config, s: State, h: seq<Event>, steps: seq<Step>)
    requires c.Valid() && CanRun(c, s, steps) && Inv(c, s) && Fits(c, s, h)
    ensures Inv(c, Run(c, s, steps)) && Fits(c, Run(c, s, steps), h + Events(c, s, steps))
    decreases |steps|
  {
    if |steps| == 0 {
      assert h + Events(c, s, steps) == h;
    } else {
      InvKept(c, s, steps[0]);
      FitsKept(c, s, h, steps[0]);
      FitsByRun(c, Apply(c, s, steps[0]), h + EventOf(s, steps[0]), steps[1..]);
      Assoc(h, EventOf(s, steps[0]), Events(c, Apply(c, s, steps[0]), steps[1..]));
    }
  }

  lemma RunFits(c: Config, steps: seq<Step>)
    requires c.Valid() && CanRun(c, Init(), steps)
    ensures Inv(c, Run(c, Init(), steps)) && Fits(c, Run(c, Init(), steps), Events(c, Init(), steps))
  {
    FitsByRun(c, Init(), [], steps);
    assert [] + Events(c, Init(), steps) == Events(c, Init(), steps);
  }

  lemma RunLogs(c: Config, steps: seq<Step>)
    requires c.Valid() && CanRun(c, Init(), steps)
    ensures Orderly(c, Events(c, Init(), steps)) && LogsFit(c, Run(c, Init(), steps), Events(c, Init(), steps))
  {
    RunFits(c, steps);
  }

  // ------------------------------------------------------------------ main results

  predicate Succeeded(h: seq<Event>, e: int, b: seq<nat>) {
    0 <= e < |h| && h[e].Answered? && h[e].ok && h[e].batch == b
  }

  lemma {:induction false} WrittenByPoint(h: seq<Event>, i: nat)
    ensures i in WrittenBy(h) <==> exists e, b :: Succeeded(h, e, b) && i in b
    decreases |h|
  {
    if |h| > 0 {
      var n := |h| - 1;
      WrittenByPoint(h[..n], i);
      assert forall e, b :: Succeeded(h[..n], e, b) ==> Succeeded(h, e, b);
      assert forall e, b :: Succeeded(h, e, b) && e < n ==> Succeeded(h[..n], e, b);
      if i in WrittenBy(h) && i !in WrittenBy(h[..n]) {
        assert Succeeded(h, n, h[n].batch);
      }
    }
  }

  /** Over every run: the points counted written, or about to be, are exactly those of the
      batches to which the writer answered with success, in that order. */
  lemma WrittenExactly(c: Config, steps: seq<Step>, i: nat)
    requires c.Valid() && CanRun(c, Init(), steps)
    ensures var s, h := Run(c, Init(), steps), Events(c, Init(), steps);
      var counted := s.writtenLog + if s.worker.Acked? then s.worker.batch else [];
      && counted == WrittenBy(h)
      && (i in counted <==> exists e, b :: Succeeded(h, e, b) && i in b)
  {
    RunLogs(c, steps);
    WrittenByPoint(Events(c, Init(), steps), i);
  }

  /** n calls of one batch, each answered with an error and none followed by a cancellation. */
  function Failing(b: seq<nat>, n: nat): (r: seq<Event>)
    ensures |r| == 2 * n
  {
    if n == 0 then [] else Failing(b, n - 1) + [Answered(b, n, false), Checked(b, n, false)]
  }

  /** The events up to number e end with n failing calls of the batch. */
  predicate FailedAt(h: seq<Event>, e: int, b: seq<nat>, n: nat) {
    0 <= e < |h| && 2 * n <= e + 1 && h[e + 1 - 2 * n..e + 1] == Failing(b, n)
  }

  /** A batch's n-th failure has all the earlier ones right before it. */
  lemma {:induction false} FailuresPileUp(c: Config, h: seq<Event>, e: nat, b: seq<nat>, n: nat)
    requires Orderly(c, h) && e < |h| && h[e] == Checked(b, n, false) && 1 <= n
    ensures FailedAt(h, e, b, n)
    decreases n
  {
    BeforeCheck(c, h, e);
    if n > 1 {
      BeforeAnswer(c, h, e - 1);
      FailuresPileUp(c, h, e - 2, b, n - 1);
      TwoMore(h, e - 1 - 2 * (n - 1), e);
    } else {
      assert Failing(b, 0) == [] && h[e - 1..e + 1] == [h[e - 1], h[e]];
    }
  }

  lemma BeforeCheck(c: Config, h: seq<Event>, e: nat)
    requires Orderly(c, h) && e < |h| && h[e].Checked?
    ensures 0 < e && h[e - 1] == Answered(h[e].batch, h[e].n, false)
  {
    assert Follows(c, Last(h[..e]), h[e]);
  }

  lemma BeforeAnswer(c: Config, h: seq<Event>, e: nat)
    requires Orderly(c, h) && e < |h| && h[e].Answered? && h[e].n != 1
    ensures 1 < h[e].n <= c.attempts && 0 < e && h[e - 1] == Checked(h[e].batch, h[e].n - 1, false)
  {
    assert Follows(c, Last(h[..e]), h[e]);
  }

  lemma TwoMore(h: seq<Event>, m: nat, e: nat)
    requires m + 1 <= e < |h|
    ensures h[m..e + 1] == h[m..e - 1] + [h[e - 1], h[e]]
  {
  }

  /** Each failed look names an attempt within bounds. */
  lemma CheckedWithin(c: Config, h: seq<Event>, e: nat)
    requires c.Valid() && Orderly(c, h) && e < |h| && h[e].Checked?
    ensures 1 <= h[e].n <= c.attempts
  {
    BeforeCheck(c, h, e);
    if h[e].n != 1 {
      BeforeAnswer(c, h, e - 1);
    }
  }

  /** Event e is a look, without a cancellation, after the last attempt. */
  predicate GivesUp(c: Config, h: seq<Event>, e: int) {
    0 <= e < |h| && h[e].Checked? && !h[e].cancelled && c.attempts <= h[e].n
  }

  lemma {:induction false} FailedByPoint(c: Config, h: seq<Event>, i: nat)
    ensures i in FailedBy(c, h) <==> exists e :: GivesUp(c, h, e) && i in h[e].batch
    decreases |h|
  {
    if |h| > 0 {
      var n := |h| - 1;
      FailedByPoint(c, h[..n], i);
      assert forall e :: GivesUp(c, h[..n], e) <==> GivesUp(c, h, e) && e < n;
    }
  }

  lemma GivesUpAfterFailures(c: Config, h: seq<Event>, e: nat)
    requires c.Valid() && Orderly(c, h) && e < |h|
    ensures GivesUp(c, h, e) ==> FailedAt(h, e, h[e].batch, c.attempts)
    ensures forall b :: FailedAt(h, e, b, c.attempts) ==> GivesUp(c, h, e) && h[e].batch == b
  {
    if GivesUp(c, h, e) {
      CheckedWithin(c, h, e);
      FailuresPileUp(c, h, e, h[e].batch, c.attempts);
    }
    forall b | FailedAt(h, e, b, c.attempts)
      ensures GivesUp(c, h, e) && h[e].batch == b
    {
      assert h[e] == h[e + 1 - 2 * c.attempts..e + 1][2 * c.attempts - 1];
    }
  }

  /** Calls 1 to `attempts` of the point's batch were all answered with an error, one after the
      other, with no cancellation seen after any of them. */
  ghost predicate GivenUp(c: Config, h: seq<Event>, i: nat) {
    exists e, b :: FailedAt(h, e, b, c.attempts) && i in b
  }

  lemma FailedPoints(c: Config, h: seq<Event>, i: nat)
    requires c.Valid() && Orderly(c, h)
    ensures i in FailedBy(c, h) <==> GivenUp(c, h, i)
  {
    FailedByPoint(c, h, i);
    if i in FailedBy(c, h) {
      var e: nat :| GivesUp(c, h, e) && i in h[e].batch;
      GivesUpAfterFailures(c, h, e);
    }
    if GivenUp(c, h, i) {
      var e: nat, b :| FailedAt(h, e, b, c.attempts) && i in b;
      GivesUpAfterFailures(c, h, e);
    }
  }

  /** Over every run: the points counted failed, or about to be, are exactly the given up. */
  lemma FailedExactly(c: Config, steps: seq<Step>, i: nat)
    requires c.Valid() && CanRun(c, Init(), steps)
    ensures var s := Run(c, Init(), steps);
      i in s.failedLog + (if s.worker.Exhausted? then s.worker.batch else []) <==> GivenUp(c, Events(c, Init(), steps), i)
  {
    RunLogs(c, steps);
    FailedPoints(c, Events(c, Init(), steps), i);
  }

  lemma {:induction false} TimesPositive(a: seq<nat>, i: nat)
    ensures Times(a, i) > 0 <==> i in a
    decreases |a|
  {
    if |a| > 0 {
      TimesPositive(a[..|a| - 1], i);
      assert a == a[..|a| - 1] + [a[|a| - 1]];
    }
  }

  lemma HeldIsNowhereElse(c: Config, s: State, i: nat)
    requires Partitioned(s) && i in Held(s.worker)
    ensures i !in s.writtenLog && i !in s.failedLog && i !in s.droppedLog && i !in s.queue
  {
    TimesPositive(Held(s.worker), i);
    TimesPositive(s.writtenLog, i);
    TimesPositive(s.failedLog, i);
    TimesPositive(s.droppedLog, i);
    TimesPositive(s.queue, i);
    assert Places(HoldingsOf(s), i) <= 1;
  }

  /** A batch whose n-th answer was an error, with attempts left and no cancellation, is neither
      counted nor dropped: the worker is about to look at its context or to make call n + 1. */
  lemma RetryIsDue(c: Config, steps: seq<Step>, b: seq<nat>, n: nat)
    requires c.Valid() && CanRun(c, Init(), steps) && n < c.attempts && !Run(c, Init(), steps).cancelled
    requires var last := Last(Events(c, Init(), steps));
      last == Some(Answered(b, n, false)) || last == Some(Checked(b, n, false))
    ensures var s := Run(c, Init(), steps);
      && (s.worker == Erred(b, n) || s.worker == Backoff(b, n + 1) || s.worker == Attempt(b, n + 1))
      && forall i :: i in b ==> i !in s.writtenLog && i !in s.failedLog && i !in s.droppedLog && i !in s.queue
  {
    RunFits(c, steps);
    var s := Run(c, Init(), steps);
    forall i | i in b
      ensures i !in s.writtenLog && i !in s.failedLog && i !in s.droppedLog && i !in s.queue
    {
      HeldIsNowhereElse(c, s, i);
    }
  }

  /** A cancellation seen after an error ends the calls for good: it is the last thing that
      happens to the batch but being dropped. */
  lemma CancelledBatchIsDropped(c: Config, steps: seq<Step>, b: seq<nat>, n: nat)
    requires c.Valid() && CanRun(c, Init(), steps)
    requires Last(Events(c, Init(), steps)) == Some(Checked(b, n, true))
    ensures var s := Run(c, Init(), steps);
      s.worker == Dropping(b) || ((s.worker.Counting? || s.worker.Exited?) && forall i :: i in b ==> i in s.droppedLog)
  {
    RunFits(c, steps);
  }

  lemma NothingAfterCancellation(c: Config, steps: seq<Step>, e: nat)
    requires c.Valid() && CanRun(c, Init(), steps)
    requires e < |Events(c, Init(), steps)| && Events(c, Init(), steps)[e].Checked? && Events(c, Init(), steps)[e].cancelled
    ensures e + 1 == |Events(c, Init(), steps)|
  {
    RunLogs(c, steps);
    CancellationIsLast(c, Events(c, Init(), steps), e);
  }

  lemma CancellationIsLast(c: Config, h: seq<Event>, e: nat)
    requires Orderly(c, h) && e < |h|
    ensures h[e].Checked? && h[e].cancelled ==> e + 1 == |h|
  {
    if e + 1 < |h| {
      assert Follows(c, Last(h[..e + 1]), h[e + 1]);
      assert h[..e + 1][e] == h[e];
    }
  }

  /** The counter of repeated calls counts the failures that had attempts left. */
  lemma RetriesCounted(c: Config, steps: seq<Step>)
    requires c.Valid() && CanRun(c, Init(), steps)
    ensures Run(c, Init(), steps).retried == RetriedBy(c, Events(c, Init(), steps))
  {
    RunLogs(c, steps);
  }

  // ------------------------------------------------------------------ when a batch is due

  /** A batch is first called when it is full, when the flush timer has run out, or when no more
      points will come. */
  lemma PartialBatchesAreDue(c: Config, s: State, step: Step)
    requires c.Valid() && Enabled(c, s, step) && Sizes(c, s)
    requires Apply(c, s, step).worker.Attempt? && !s.worker.Attempt? && !s.worker.Backoff?
    ensures var b := Apply(c, s, step).worker.batch;
      Apply(c, s, step).worker.n == 1 && (|b| == c.batchSize || step.FlushTimer? || !s.accepting)
  {
  }

  /** And a full batch, or one that can not grow, is called without waiting. */
  lemma FullBatchesDoNotWait(c: Config, s: State)
    requires c.Valid() && Enabled(c, s, WorkerTakes) && Sizes(c, s)
    ensures var w := Apply(c, s, WorkerTakes).worker;
      && (w.Fill? || w.FillBlocked? ==> 0 < |w.batch| < c.batchSize && s.accepting)
      && (w.Blocked? ==> s.accepting && s.queue == [] && s.worker.Top?)
      && (w.Exited? ==> !s.accepting && s.queue == [] && s.worker.Top?)
  {
  }

  /** When the flush timer has run out, what has been gathered is called next. */
  lemma FlushTimerCalls(c: Config, s: State)
    requires c.Valid() && Enabled(c, s, FlushTimer)
    ensures Apply(c, s, FlushTimer).worker == Attempt(s.worker.batch, 1) && Apply(c, s, FlushTimer).queue == s.queue
  {
  }

  // ------------------------------------------------------------------ abort and shutdown

  /** Whoever began to stop the processor has either cancelled or is still on the way to it;
      and whoever began a shutdown is still in it until the worker has exited. */
  predicate OnTheWay(s: State, t: nat, kind: StopKind) {
    && (s.cancelled || PcOf(s, t) == Stopping(kind) || PcOf(s, t) == if kind.Abort? then Cancelling else Waiting)
    && (kind.Shutdown? ==>
          || s.worker.Exited?
          || PcOf(s, t) == Stopping(kind) || PcOf(s, t).Waiting? || PcOf(s, t) == Waking(kind) || PcOf(s, t).Awaiting?)
  }

  lemma OnTheWayKept(c: Config, s: State, step: Step, t: nat, kind: StopKind)
    requires c.Valid() && Enabled(c, s, step) && OnTheWay(s, t, kind)
    ensures OnTheWay(Apply(c, s, step), t, kind)
  {
    if IsWorkerStep(step) {
      assert WorkerApply(c, s, step).threads == s.threads && WorkerApply(c, s, step).cancelled == s.cancelled;
    }
  }

  /** So no caller of abort returns without a cancellation, and no caller of shutdown before the
      worker is done, in any run after its first step. */
  lemma {:induction false} StopsRunToTheirEnd(c: Config, s: State, t: nat, kind: StopKind, more: seq<Step>)
    requires c.Valid() && CanRun(c, s, more) && OnTheWay(s, t, kind)
    ensures OnTheWay(Run(c, s, more), t, kind)
    decreases |more|
  {
    if |more| > 0 {
      OnTheWayKept(c, s, more[0], t, kind);
      StopsRunToTheirEnd(c, Apply(c, s, more[0]), t, kind, more[1..]);
    }
  }

  lemma StopperReturnsWhenDone(c: Config, s: State, t: nat, kind: StopKind, more: seq<Step>)
    requires c.Valid() && Enabled(c, s, StopAccepting(t, kind)) && CanRun(c, Apply(c, s, StopAccepting(t, kind)), more)
    ensures var later := Run(c, Apply(c, s, StopAccepting(t, kind)), more);
      PcOf(later, t).Idle? ==> later.cancelled && (kind.Shutdown? ==> later.worker.Exited?)
  {
    StopsRunToTheirEnd(c, Apply(c, s, StopAccepting(t, kind)), t, kind, more);
  }

  /** Past its cancel, a caller of abort or shutdown has cancelled. */
  predicate CancelFits(s: State) {
    forall t :: t in s.threads && (s.threads[t].Waking? || s.threads[t].Awaiting?) ==> s.cancelled
  }

  lemma CancelKept(c: Config, s: State, step: Step)
    requires c.Valid() && Enabled(c, s, step) && CancelFits(s)
    ensures CancelFits(Apply(c, s, step))
  {
    if IsWorkerStep(step) {
      assert WorkerApply(c, s, step).threads == s.threads && WorkerApply(c, s, step).cancelled == s.cancelled;
    }
  }

  lemma {:induction false} CancelByRun(c: Config, s: State, steps: seq<Step>)
    requires c.Valid() && CanRun(c, s, steps) && CancelFits(s)
    ensures CancelFits(Run(c, s, steps))
    decreases |steps|
  {
    if |steps| > 0 {
      CancelKept(c, s, steps[0]);
      CancelByRun(c, Apply(c, s, steps[0]), steps[1..]);
    }
  }

  /** When a caller of abort returns from its last notify, acceptance has stopped and the
      context is cancelled; when a caller of shutdown returns, the worker has exited as well. */
  lemma StopsAreComplete(c: Config, steps: seq<Step>, step: Step)
    requires c.Valid() && CanRun(c, Init(), steps) && Enabled(c, Run(c, Init(), steps), step)
    requires (step.Notify? && PcOf(Run(c, Init(), steps), step.t) == Waking(Abort)) || step.ShutdownSeesDone? || step.ShutdownReturns?
    ensures var s' := Apply(c, Run(c, Init(), steps), step);
      && PcOf(s', step.t).Idle? && !s'.accepting && s'.cancelled && s'.wake == (step.Notify? || Run(c, Init(), steps).wake)
      && (!step.Notify? ==> s'.worker.Exited?)
  {
    CancelByRun(c, Init(), steps);
    Reachable(c, steps);
  }

  /** Every wait of the worker can be ended by a cancellation, and then what it holds is dropped
      with the queue. */
  lemma CancellationEndsWaits(c: Config, s: State)
    requires c.Valid() && s.cancelled && (s.worker.Blocked? || s.worker.FillBlocked? || s.worker.Backoff?)
    ensures Enabled(c, s, WorkerCancelled) && Apply(c, s, WorkerCancelled).worker == Dropping(Held(s.worker))
    ensures var s' := Apply(c, Apply(c, s, WorkerCancelled), DropRemaining);
      s'.droppedLog == s.droppedLog + Held(s.worker) + s.queue && s'.queue == [] && s'.worker.Counting?
  {
  }

  /** Left alone, enqueue pushes, counts what it evicted if the queue was full, and notifies. */
  lemma EnqueueGoesThrough(c: Config, s: State, t: nat)
    requires c.Valid() && PcOf(s, t).Idle? && s.accepting
    ensures var steps := if |s.queue| == c.queueSize then [Enqueue(t), RecordEviction(t), Notify(t)] else [Enqueue(t), Notify(t)];
      CanRun(c, s, steps) && PcOf(Run(c, s, steps), t).Idle? && Run(c, s, steps).wake
  {
    var e := Apply(c, s, Enqueue(t));
    if |s.queue| == c.queueSize {
      Unrolled(c, s, [Enqueue(t), RecordEviction(t), Notify(t)]);
      Unrolled(c, e, [RecordEviction(t), Notify(t)]);
      Unrolled(c, Apply(c, e, RecordEviction(t)), [Notify(t)]);
    } else {
      Unrolled(c, s, [Enqueue(t), Notify(t)]);
      Unrolled(c, e, [Notify(t)]);
    }
  }

  /** Left alone, abort stops acceptance, notifies, cancels, and notifies again. */
  lemma AbortGoesThrough(c: Config, s: State, t: nat)
    requires c.Valid() && PcOf(s, t).Idle?
    ensures var steps := [StopAccepting(t, Abort), Notify(t), AbortCancels(t), Notify(t)];
      CanRun(c, s, steps) && PcOf(Run(c, s, steps), t).Idle? && Run(c, s, steps).wake
  {
    var s1 := Apply(c, s, StopAccepting(t, Abort));
    var s2 := Apply(c, s1, Notify(t));
    Unrolled(c, s, [StopAccepting(t, Abort), Notify(t), AbortCancels(t), Notify(t)]);
    Unrolled(c, s1, [Notify(t), AbortCancels(t), Notify(t)]);
    Unrolled(c, s2, [AbortCancels(t), Notify(t)]);
    Unrolled(c, Apply(c, s2, AbortCancels(t)), [Notify(t)]);
  }

  lemma Unrolled(c: Config, s: State, steps: seq<Step>)
    requires c.Valid() && |steps| > 0
    ensures CanRun(c, s, steps) <==> Enabled(c, s, steps[0]) && CanRun(c, Apply(c, s, steps[0]), steps[1..])
    ensures CanRun(c, s, steps) ==> Run(c, s, steps) == Run(c, Apply(c, s, steps[0]), steps[1..])
  {
  }
}
