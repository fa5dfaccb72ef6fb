/** The delivery protocol around the ring of StatusQueue: any number of producers,
    one batching worker, aborters and shutdowns, interleaved at the granularity of
    internal/influx/status_writer.go's critical sections, atomic counters and
    channel operations. An accepted point is named by its acceptance number. */
module StatusDelivery {
  import opened StatusQueue
  import opened Prelude

  /** The constructor panics unless all three are positive. */
  datatype Config = Config(queueSize: nat, batchSize: nat, attempts: nat) {
    predicate Valid() { 0 < queueSize && 0 < batchSize && 0 < attempts }
  }

  datatype StopKind = Abort | Shutdown

  /** Where a caller of enqueue, abort or shutdown stands between atomic steps. */
  datatype Pc =
    | Idle
    | Evicted                    // pushed, evicted one, recordDrop(1) and notify to come
    | MustNotify                    // pushed, notify to come
    | Stopping(kind: StopKind)   // accepting cleared, notify to come
    | Cancelling                 // abort: cancel to come
    | Waiting                    // shutdown: select on done and ctx.Done
    | Waking(kind: StopKind)     // cancelled, last notify to come
    | Awaiting                   // shutdown: final receive from done

  /** Where the worker stands. Calls to the writer are numbered from 1. */
  datatype Worker =
    | Top
    | Blocked
    | Fill(batch: seq<nat>)
    | FillBlocked(batch: seq<nat>)
    | Attempt(batch: seq<nat>, n: nat)
    | Backoff(batch: seq<nat>, n: nat)
    | Erred(batch: seq<nat>, n: nat)
    | Acked(batch: seq<nat>)
    | Exhausted(batch: seq<nat>)
    | Completing(points: int)
    | Dropping(batch: seq<nat>)
    | Counting(points: int)
    | Exited

  /** A batch handed to the writer, and how often. */
  datatype Sent = Sent(points: seq<nat>, tries: nat)

  /** Shared fields and counters, the threads, and the record of what became of points. */
  datatype State = State(
    queue: seq<nat>, inFlight: int, accepting: bool, wake: bool, cancelled: bool,
    enqueued: nat, written: nat, failed: nat, dropped: int, retried: nat,
    threads: map<nat, Pc>, worker: Worker,
    sent: seq<Sent>, writtenLog: seq<nat>, failedLog: seq<nat>, droppedLog: seq<nat>)

  datatype Step =
    | Enqueue(t: nat)
    | RecordEviction(t: nat)
    | Notify(t: nat)
    | StopAccepting(t: nat, kind: StopKind)
    | AbortCancels(t: nat)
    | ShutdownSeesDone(t: nat)
    | ShutdownTimesOut(t: nat)
    | ShutdownReturns(t: nat)
    | WorkerTakes
    | WorkerWakes
    | WorkerCancelled
    | FlushTimer
    | WriterReturns(ok: bool)
    | WorkerChecksError
    | BackoffEnds
    | CountWritten
    | CountFailed
    | CompleteBatch
    | DropRemaining
    | CountDropped

  predicate IsWorkerStep(step: Step) {
    !(step.Enqueue? || step.RecordEviction? || step.Notify? || step.StopAccepting? || step.AbortCancels?
      || step.ShutdownSeesDone? || step.ShutdownTimesOut? || step.ShutdownReturns?)
  }

  function Init(): State {
    State([], 0, true, false, false, 0, 0, 0, 0, 0, map[], Top, [], [], [], [])
  }

  function PcOf(s: State, t: nat): Pc {
    if t in s.threads then s.threads[t] else Idle
  }

  predicate Enabled(c: Config, s: State, step: Step) {
    match step
    case Enqueue(t) => PcOf(s, t).Idle? && s.accepting
    case RecordEviction(t) => PcOf(s, t).Evicted?
    case Notify(t) => PcOf(s, t).MustNotify? || PcOf(s, t).Stopping? || PcOf(s, t).Waking?
    case StopAccepting(t, _) => PcOf(s, t).Idle?
    case AbortCancels(t) => PcOf(s, t).Cancelling?
    case ShutdownSeesDone(t) => PcOf(s, t).Waiting? && s.worker.Exited?
    case ShutdownTimesOut(t) => PcOf(s, t).Waiting?
    case ShutdownReturns(t) => PcOf(s, t).Awaiting? && s.worker.Exited?
    case WorkerTakes => s.worker.Top? || (s.worker.Fill? && |s.worker.batch| < c.batchSize)
    case WorkerWakes => (s.worker.Blocked? || s.worker.FillBlocked?) && s.wake
    case WorkerCancelled => (s.worker.Blocked? || s.worker.FillBlocked? || s.worker.Backoff?) && s.cancelled
    case FlushTimer => s.worker.FillBlocked?
    case WriterReturns(_) => s.worker.Attempt?
    case WorkerChecksError => s.worker.Erred?
    case BackoffEnds => s.worker.Backoff?
    case CountWritten => s.worker.Acked?
    case CountFailed => s.worker.Exhausted?
    case CompleteBatch => s.worker.Completing?
    case DropRemaining => s.worker.Dropping?
    case CountDropped => s.worker.Counting?
  }

  function WithPc(s: State, t: nat, pc: Pc): State {
    s.(threads := s.threads[t := pc])
  }

  /** The worker after a take that returned these points: run's two tests, then fillBatch's. */
  function AfterTake(c: Config, worker: Worker, points: seq<nat>, open: bool): Worker {
    if worker.Fill? then
      var batch := worker.batch + points;
      if |batch| == c.batchSize || !open then Attempt(batch, 1) else FillBlocked(batch)
    else if points == [] then
      if open then Blocked else Exited
    else if |points| < c.batchSize && open then Fill(points)
    else Attempt(points, 1)
  }

  /** The record after the n-th call with this batch: the first call adds it. */
  function Handed(sent: seq<Sent>, batch: seq<nat>, n: nat): seq<Sent> {
    if n <= 1 || sent == [] then sent + [Sent(batch, n)] else sent[..|sent| - 1] + [Sent(batch, n)]
  }

  /** A step of a caller of enqueue, abort or shutdown. */
  function ThreadApply(c: Config, s: State, step: Step): State
    requires c.Valid() && Enabled(c, s, step) && !IsWorkerStep(step)
  {
    match step
    case Enqueue(t) =>
      var full := |s.queue| == c.queueSize;
      WithPc(s.(queue := Pushed(s.queue, c.queueSize, s.enqueued), enqueued := s.enqueued + 1,
                droppedLog := if full then s.droppedLog + [s.queue[0]] else s.droppedLog),
             t, if full then Evicted else MustNotify)
    case RecordEviction(t) => WithPc(s.(dropped := s.dropped + 1), t, MustNotify)
    case Notify(t) =>
      WithPc(s.(wake := true), t,
             match PcOf(s, t)
             case Stopping(Abort) => Cancelling
             case Stopping(Shutdown) => Waiting
             case Waking(Shutdown) => Awaiting
             case _ => Idle)
    case StopAccepting(t, kind) => WithPc(s.(accepting := false), t, Stopping(kind))
    case AbortCancels(t) => WithPc(s.(cancelled := true), t, Waking(Abort))
    case ShutdownSeesDone(t) => WithPc(s.(cancelled := true), t, Idle)
    case ShutdownTimesOut(t) => WithPc(s.(cancelled := true), t, Waking(Shutdown))
    case ShutdownReturns(t) => WithPc(s, t, Idle)
  }

  function WorkerApply(c: Config, s: State, step: Step): State
    requires c.Valid() && Enabled(c, s, step) && IsWorkerStep(step)
  {
    match step
    case WorkerTakes =>
      var max := if s.worker.Fill? then c.batchSize - |s.worker.batch| else c.batchSize;
      var k := Taken(max, |s.queue|);
      s.(queue := s.queue[k..], inFlight := s.inFlight + k,
         worker := AfterTake(c, s.worker, s.queue[..k], s.accepting))
    case WorkerWakes =>
      s.(wake := false, worker := if s.worker.Blocked? then Top else Fill(s.worker.batch))
    case WorkerCancelled =>
      s.(worker := Dropping(if s.worker.Blocked? then [] else s.worker.batch))
    case FlushTimer => s.(worker := Attempt(s.worker.batch, 1))
    case WriterReturns(ok) =>
      var b, n := s.worker.batch, s.worker.n;
      s.(sent := Handed(s.sent, b, n),
         worker := if ok then Acked(b) else Erred(b, n))
    case WorkerChecksError =>
      var b, n := s.worker.batch, s.worker.n;
      if s.cancelled then s.(worker := Dropping(b))
      else if n < c.attempts then s.(retried := s.retried + 1, worker := Backoff(b, n + 1))
      else s.(worker := Exhausted(b))
    case BackoffEnds => s.(worker := Attempt(s.worker.batch, s.worker.n))
    case CountWritten =>
      s.(written := s.written + |s.worker.batch|, writtenLog := s.writtenLog + s.worker.batch,
         worker := Completing(|s.worker.batch|))
    case CountFailed =>
      s.(failed := s.failed + |s.worker.batch|, failedLog := s.failedLog + s.worker.batch,
         worker := Completing(|s.worker.batch|))
    case CompleteBatch => s.(inFlight := s.inFlight - s.worker.points, worker := Top)
    case DropRemaining =>
      s.(queue := [], inFlight := 0, droppedLog := s.droppedLog + s.worker.batch + s.queue,
         worker := Counting(s.inFlight + |s.queue|))
    case CountDropped => s.(dropped := s.dropped + s.worker.points, worker := Exited)
  }

  function Apply(c: Config, s: State, step: Step): State
    requires c.Valid() && Enabled(c, s, step)
  {
    if IsWorkerStep(step) then WorkerApply(c, s, step) else ThreadApply(c, s, step)
  }

  // ------------------------------------------------------------------ runs

  /** The steps can be taken one after the other from s. */
  predicate CanRun(c: Config, s: State, steps: seq<Step>)
    requires c.Valid()
    decreases |steps|
  {
    steps == [] || (Enabled(c, s, steps[0]) && CanRun(c, Apply(c, s, steps[0]), steps[1..]))
  }

  function Run(c: Config, s: State, steps: seq<Step>): State
    requires c.Valid() && CanRun(c, s, steps)
    decreases |steps|
  {
    if steps == [] then s else Run(c, Apply(c, s, steps[0]), steps[1..])
  }

  // ------------------------------------------------------------------ accounting

  /** The points the worker holds that are not yet written, failed or dropped. */
  function Held(w: Worker): seq<nat> {
    if w.Fill? || w.FillBlocked? || w.Attempt? || w.Backoff? || w.Erred? || w.Acked? || w.Exhausted? || w.Dropping?
    then w.batch else []
  }

  /** Points counted written or failed whose completeBatch has not run. */
  function Uncompleted(w: Worker): int {
    if w.Completing? then w.points else 0
  }

  /** Points dropped by dropRemaining that recordDrop has not counted. */
  function UncountedByWorker(w: Worker): int {
    if w.Counting? then w.points else 0
  }

  /** Producers that evicted a point and have not counted it. */
  function UncountedProducers(threads: map<nat, Pc>): set<nat> {
    set t | t in threads && threads[t].Evicted?
  }

  /** How often i occurs. */
  function Times(a: seq<nat>, i: nat): nat
    decreases |a|
  {
    if |a| == 0 then 0 else Times(a[..|a| - 1], i) + if a[|a| - 1] == i then 1 else 0
  }

  /** Where accepted points are: written, failed, dropped, held or queued. */
  datatype Holdings = Holdings(written: seq<nat>, failed: seq<nat>, dropped: seq<nat>, held: seq<nat>, queue: seq<nat>)

  function HoldingsOf(s: State): Holdings {
    Holdings(s.writtenLog, s.failedLog, s.droppedLog, Held(s.worker), s.queue)
  }

  /** In how many places point i is found. */
  function Places(h: Holdings, i: nat): nat {
    Times(h.written, i) + Times(h.failed, i) + Times(h.dropped, i) + Times(h.held, i) + Times(h.queue, i)
  }

  /** Every accepted point is in exactly one place, and nothing else is anywhere. */
  ghost predicate Partitioned(s: State) {
    forall i: nat :: Places(HoldingsOf(s), i) == if i < s.enqueued then 1 else 0
  }

  function Total(h: Holdings): nat {
    |h.written| + |h.failed| + |h.dropped| + |h.held| + |h.queue|
  }

  /** The same in numbers. */
  predicate Conserved(s: State) {
    Total(HoldingsOf(s)) == s.enqueued
  }

  /** The counters lag behind the places by exactly the steps still owed. */
  predicate Counted(s: State) {
    && s.written == |s.writtenLog|
    && s.failed == |s.failedLog|
    && s.dropped + |UncountedProducers(s.threads)| + UncountedByWorker(s.worker) == |s.droppedLog|
    && s.inFlight == |Held(s.worker)| + Uncompleted(s.worker)
  }

  predicate Sizes(c: Config, s: State) {
    && |s.queue| <= c.queueSize
    && (s.worker.Fill? ==> 0 < |s.worker.batch| < c.batchSize)
    && (s.worker.FillBlocked? ==> 0 < |s.worker.batch| < c.batchSize)
    && (s.worker.Attempt? || s.worker.Backoff? || s.worker.Erred? || s.worker.Acked? || s.worker.Exhausted?
        ==> 0 < |s.worker.batch| <= c.batchSize)
    && (s.worker.Attempt? || s.worker.Erred? ==> 1 <= s.worker.n <= c.attempts)
    && (s.worker.Backoff? ==> 1 < s.worker.n <= c.attempts)
  }

  lemma SizeWithout(a: set<nat>, t: nat)
    ensures |a| == |a - {t}| + if t in a then 1 else 0
  {
    if t in a {
      assert a == (a - {t}) + {t};
    } else {
      assert a == a - {t};
    }
  }

  lemma CountingSet(threads: map<nat, Pc>, t: nat, pc: Pc)
    ensures |UncountedProducers(threads[t := pc])|
         == |UncountedProducers(threads)| + (if pc.Evicted? then 1 else 0)
            - (if t in threads && threads[t].Evicted? then 1 else 0)
  {
    var before, after := UncountedProducers(threads), UncountedProducers(threads[t := pc]);
    SizeWithout(before, t);
    SizeWithout(after, t);
    assert before - {t} == after - {t};
  }

  lemma SizesKept(c: Config, s: State, step: Step)
    requires c.Valid() && Enabled(c, s, step) && Sizes(c, s)
    ensures Sizes(c, Apply(c, s, step))
  {
    if IsWorkerStep(step) {
      SizesKeptByWorker(c, s, step);
    }
  }

  lemma SizesKeptByWorker(c: Config, s: State, step: Step)
    requires c.Valid() && Enabled(c, s, step) && Sizes(c, s) && IsWorkerStep(step)
    ensures Sizes(c, WorkerApply(c, s, step))
  {
  }

  // Only five steps move a point from one place to another.

  predicate Moves(step: Step) {
    step.Enqueue? || step.WorkerTakes? || step.CountWritten? || step.CountFailed? || step.DropRemaining?
  }

  lemma NothingMoves(c: Config, s: State, step: Step)
    requires c.Valid() && Enabled(c, s, step) && !Moves(step)
    ensures HoldingsOf(Apply(c, s, step)) == HoldingsOf(s) && Apply(c, s, step).enqueued == s.enqueued
  {
  }

  lemma {:induction false} TimesAppend(a: seq<nat>, b: seq<nat>, i: nat)
    ensures Times(a + b, i) == Times(a, i) + Times(b, i)
    decreases |b|
  {
    if |b| == 0 {
      assert a + b == a;
    } else {
      assert (a + b)[..|a + b| - 1] == a + b[..|b| - 1];
      TimesAppend(a, b[..|b| - 1], i);
    }
  }

  function Cut(c: Config, s: State): nat
    requires Enabled(c, s, WorkerTakes)
  {
    Taken(if s.worker.Fill? then c.batchSize - |s.worker.batch| else c.batchSize, |s.queue|)
  }

  lemma TakeMoves(c: Config, s: State)
    requires c.Valid() && Enabled(c, s, WorkerTakes)
    ensures var h := HoldingsOf(s); var k := Cut(c, s);
      HoldingsOf(WorkerApply(c, s, WorkerTakes)) == h.(held := h.held + h.queue[..k], queue := h.queue[k..])
  {
  }

  lemma PlacesKeptByEnqueue(c: Config, s: State, t: nat, i: nat)
    requires c.Valid() && Enabled(c, s, Enqueue(t))
    ensures var h' := HoldingsOf(ThreadApply(c, s, Enqueue(t)));
      Places(h', i) == Places(HoldingsOf(s), i) + (if i == s.enqueued then 1 else 0) && Total(h') == Total(HoldingsOf(s)) + 1
  {
    var q := s.queue;
    if |q| == c.queueSize {
      assert q == [q[0]] + q[1..];
      TimesAppend([q[0]], q[1..], i);
      TimesAppend(s.droppedLog, [q[0]], i);
      TimesAppend(q[1..], [s.enqueued], i);
    } else {
      TimesAppend(q, [s.enqueued], i);
    }
  }

  lemma PlacesKeptByTake(c: Config, s: State, i: nat)
    requires c.Valid() && Enabled(c, s, WorkerTakes)
    ensures var h' := HoldingsOf(WorkerApply(c, s, WorkerTakes));
      Places(h', i) == Places(HoldingsOf(s), i) && Total(h') == Total(HoldingsOf(s))
  {
    var k := Cut(c, s);
    TakeMoves(c, s);
    assert s.queue == s.queue[..k] + s.queue[k..];
    TimesAppend(s.queue[..k], s.queue[k..], i);
    TimesAppend(Held(s.worker), s.queue[..k], i);
  }

  lemma PlacesKeptByCounting(c: Config, s: State, step: Step, i: nat)
    requires c.Valid() && Enabled(c, s, step) && (step.CountWritten? || step.CountFailed?)
    ensures var h' := HoldingsOf(WorkerApply(c, s, step));
      Places(h', i) == Places(HoldingsOf(s), i) && Total(h') == Total(HoldingsOf(s))
  {
    TimesAppend(if step.CountWritten? then s.writtenLog else s.failedLog, s.worker.batch, i);
  }

  lemma PlacesKeptByDrop(c: Config, s: State, i: nat)
    requires c.Valid() && Enabled(c, s, DropRemaining)
    ensures var h' := HoldingsOf(WorkerApply(c, s, DropRemaining));
      Places(h', i) == Places(HoldingsOf(s), i) && Total(h') == Total(HoldingsOf(s))
  {
    TimesAppend(s.droppedLog, s.worker.batch, i);
    TimesAppend(s.droppedLog + s.worker.batch, s.queue, i);
  }

  lemma OnlyEnqueueAccepts(c: Config, s: State, step: Step)
    requires c.Valid() && Enabled(c, s, step)
    ensures Apply(c, s, step).enqueued == s.enqueued + if step.Enqueue? then 1 else 0
  {
  }

  lemma PlacesKept(c: Config, s: State, step: Step, i: nat)
    requires c.Valid() && Enabled(c, s, step)
    ensures var h, h' := HoldingsOf(s), HoldingsOf(Apply(c, s, step));
      && Places(h', i) == Places(h, i) + (if step.Enqueue? && i == s.enqueued then 1 else 0)
      && Total(h') == Total(h) + (if step.Enqueue? then 1 else 0)
  {
    if !Moves(step) {
      NothingMoves(c, s, step);
    } else if step.Enqueue? {
      PlacesKeptByEnqueue(c, s, step.t, i);
    } else if step.WorkerTakes? {
      PlacesKeptByTake(c, s, i);
    } else if step.DropRemaining? {
      PlacesKeptByDrop(c, s, i);
    } else {
      PlacesKeptByCounting(c, s, step, i);
    }
  }

  lemma PartitionKept(c: Config, s: State, step: Step)
    requires c.Valid() && Enabled(c, s, step) && Partitioned(s) && Conserved(s)
    ensures Partitioned(Apply(c, s, step)) && Conserved(Apply(c, s, step))
  {
    var s' := Apply(c, s, step);
    OnlyEnqueueAccepts(c, s, step);
    PlacesKept(c, s, step, 0);
    forall i: nat
      ensures Places(HoldingsOf(s'), i) == if i < s'.enqueued then 1 else 0
    {
      PlacesKept(c, s, step, i);
    }
  }

  lemma CountersKeptByThread(c: Config, s: State, step: Step)
    requires c.Valid() && Enabled(c, s, step) && Counted(s) && !IsWorkerStep(step)
    ensures Counted(ThreadApply(c, s, step))
  {
    var s' := ThreadApply(c, s, step);
    CountingSet(s.threads, step.t, s'.threads[step.t]);
    assert s'.threads == s.threads[step.t := s'.threads[step.t]];
  }

  lemma CountersKeptByTake(c: Config, s: State)
    requires c.Valid() && Enabled(c, s, WorkerTakes) && Counted(s)
    ensures Counted(WorkerApply(c, s, WorkerTakes))
  {
    TakeMoves(c, s);
  }

  /** The worker's steps that touch a counter. */
  predicate Counts(step: Step) {
    step.CountWritten? || step.CountFailed? || step.CompleteBatch? || step.DropRemaining? || step.CountDropped?
  }

  lemma CountersKeptByCounting(c: Config, s: State, step: Step)
    requires c.Valid() && Enabled(c, s, step) && Counted(s) && Counts(step)
    ensures Counted(WorkerApply(c, s, step))
  {
    assert WorkerApply(c, s, step).threads == s.threads;
  }

  lemma CountersStay(c: Config, s: State, step: Step)
    requires c.Valid() && Enabled(c, s, step) && IsWorkerStep(step) && !Counts(step) && !step.WorkerTakes?
    ensures var s' := WorkerApply(c, s, step);
      && s'.threads == s.threads && s'.dropped == s.dropped && s'.written == s.written && s'.failed == s.failed
      && s'.inFlight == s.inFlight && Uncompleted(s'.worker) == Uncompleted(s.worker)
      && UncountedByWorker(s'.worker) == UncountedByWorker(s.worker)
  {
  }

  lemma CountersKeptByWorker(c: Config, s: State, step: Step)
    requires c.Valid() && Enabled(c, s, step) && Counted(s) && IsWorkerStep(step)
    ensures Counted(WorkerApply(c, s, step))
  {
    if step.WorkerTakes? {
      CountersKeptByTake(c, s);
    } else if Counts(step) {
      CountersKeptByCounting(c, s, step);
    } else {
      CountersStay(c, s, step);
      NothingMoves(c, s, step);
      assert HoldingsOf(WorkerApply(c, s, step)) == HoldingsOf(s);
    }
  }

  lemma CountersKept(c: Config, s: State, step: Step)
    requires c.Valid() && Enabled(c, s, step) && Counted(s)
    ensures Counted(Apply(c, s, step))
  {
    if IsWorkerStep(step) {
      CountersKeptByWorker(c, s, step);
    } else {
      CountersKeptByThread(c, s, step);
    }
  }

  // ------------------------------------------------------------------ order of delivery

  predicate Below(s: seq<nat>, n: nat) {
    forall i :: 0 <= i < |s| ==> s[i] < n
  }

  function Flat(sent: seq<Sent>): seq<nat> {
    if sent == [] then [] else Flat(sent[..|sent| - 1]) + sent[|sent| - 1].points
  }

  /** The batch under assembly, before its first call to the writer. */
  function Unsent(w: Worker): seq<nat> {
    if w.Fill? || w.FillBlocked? || (w.Attempt? && w.n == 1) then w.batch else []
  }

  /** What was handed over, then what is being assembled, then the queue: in acceptance order. */
  predicate InOrder(s: State) {
    Increasing(Line(s)) && Below(Line(s), s.enqueued)
  }

  function Line(s: State): seq<nat> {
    Flat(s.sent) + Unsent(s.worker) + s.queue
  }

  /** The batch being retried is the last one handed over, with its number of calls so far. */
  predicate Retrying(s: State) {
    && (s.worker.Attempt? && 1 < s.worker.n ==> s.sent != [] && s.sent[|s.sent| - 1] == Sent(s.worker.batch, s.worker.n - 1))
    && (s.worker.Backoff? ==> 1 < s.worker.n && s.sent != [] && s.sent[|s.sent| - 1] == Sent(s.worker.batch, s.worker.n - 1))
    && (s.worker.Erred? ==> s.sent != [] && s.sent[|s.sent| - 1] == Sent(s.worker.batch, s.worker.n))
  }

  predicate BatchBounds(c: Config, sent: seq<Sent>) {
    forall k :: 0 <= k < |sent| ==> 1 <= |sent[k].points| <= c.batchSize && 1 <= sent[k].tries <= c.attempts
  }

  lemma Thinned(a: seq<nat>, b: seq<nat>, d: seq<nat>, n: nat)
    requires Increasing(a + b + d) && Below(a + b + d, n)
    ensures Increasing(a + d) && Below(a + d, n)
  {
    var all, kept := a + b + d, a + d;
    forall i | 0 <= i < |kept|
      ensures kept[i] == all[if i < |a| then i else i + |b|]
    {
    }
    forall i, j | 0 <= i < j < |kept|
      ensures kept[i] < kept[j]
    {
      assert all[if i < |a| then i else i + |b|] < all[if j < |a| then j else j + |b|];
    }
  }

  lemma Regrouped(a: seq<nat>, u: seq<nat>, q: seq<nat>, k: nat)
    requires k <= |q|
    ensures a + (u + q[..k]) + q[k..] == a + u + q
  {
    assert q == q[..k] + q[k..];
  }

  lemma FlatHanded(sent: seq<Sent>, batch: seq<nat>, n: nat)
    ensures n <= 1 ==> Flat(Handed(sent, batch, n)) == Flat(sent) + batch
    ensures 1 < n && sent != [] && sent[|sent| - 1].points == batch ==> Flat(Handed(sent, batch, n)) == Flat(sent)
  {
    var h := Handed(sent, batch, n);
    assert h[|h| - 1] == Sent(batch, n);
    if n <= 1 || sent == [] {
      assert h[..|h| - 1] == sent;
    } else {
      assert h[..|h| - 1] == sent[..|sent| - 1];
    }
  }

  lemma Lengthened(a: seq<nat>, q: seq<nat>, n: nat)
    requires Increasing(a + q) && Below(a + q, n)
    ensures Increasing(a + (q + [n])) && Below(a + (q + [n]), n + 1)
  {
    assert a + (q + [n]) == (a + q) + [n];
  }

  lemma OrderKeptByEnqueue(c: Config, s: State, t: nat)
    requires c.Valid() && Enabled(c, s, Enqueue(t)) && InOrder(s)
    ensures InOrder(ThreadApply(c, s, Enqueue(t)))
  {
    var front := Flat(s.sent) + Unsent(s.worker);
    if |s.queue| == c.queueSize {
      assert front + s.queue == front + [s.queue[0]] + s.queue[1..];
      Thinned(front, [s.queue[0]], s.queue[1..], s.enqueued);
      Lengthened(front, s.queue[1..], s.enqueued);
    } else {
      Lengthened(front, s.queue, s.enqueued);
    }
    var s' := ThreadApply(c, s, Enqueue(t));
    assert Line(s') == front + Pushed(s.queue, c.queueSize, s.enqueued);
  }

  lemma OrderKeptByTake(c: Config, s: State)
    requires c.Valid() && Enabled(c, s, WorkerTakes) && InOrder(s)
    ensures InOrder(Apply(c, s, WorkerTakes))
  {
    var k := Cut(c, s);
    Regrouped(Flat(s.sent), Unsent(s.worker), s.queue, k);
    assert Unsent(AfterTake(c, s.worker, s.queue[..k], s.accepting)) == Unsent(s.worker) + s.queue[..k];
    assert Line(Apply(c, s, WorkerTakes)) == Line(s);
  }

  lemma OrderKeptByCancel(c: Config, s: State)
    requires c.Valid() && Enabled(c, s, WorkerCancelled) && InOrder(s)
    ensures InOrder(Apply(c, s, WorkerCancelled))
  {
    Thinned(Flat(s.sent), Unsent(s.worker), s.queue, s.enqueued);
    assert Line(Apply(c, s, WorkerCancelled)) == Flat(s.sent) + s.queue;
  }

  lemma NothingBetween(a: seq<nat>, q: seq<nat>)
    ensures a + [] + q == a + q
  {
  }

  lemma OrderKeptByWriter(c: Config, s: State, ok: bool)
    requires c.Valid() && Enabled(c, s, WriterReturns(ok)) && Sizes(c, s) && Retrying(s) && InOrder(s)
    ensures InOrder(Apply(c, s, WriterReturns(ok)))
  {
    FlatHanded(s.sent, s.worker.batch, s.worker.n);
    var s' := WorkerApply(c, s, WriterReturns(ok));
    assert Unsent(s'.worker) == [];
    assert Flat(s'.sent) == Flat(s.sent) + Unsent(s.worker);
    NothingBetween(Flat(s'.sent), s.queue);
  }

  lemma OrderKeptByDrop(c: Config, s: State)
    requires c.Valid() && Enabled(c, s, DropRemaining) && InOrder(s)
    ensures InOrder(Apply(c, s, DropRemaining))
  {
    var front := Flat(s.sent) + Unsent(s.worker);
    assert front + s.queue + [] == Line(s);
    Thinned(front, s.queue, [], s.enqueued);
    assert Line(Apply(c, s, DropRemaining)) == front + [];
  }

  /** The steps that can change what is in the line. */
  predicate Reorders(step: Step) {
    step.Enqueue? || step.WorkerTakes? || step.WorkerCancelled? || step.WriterReturns? || step.DropRemaining?
  }

  lemma LineStays(c: Config, s: State, step: Step)
    requires c.Valid() && Enabled(c, s, step) && Sizes(c, s) && !Reorders(step)
    ensures var s' := Apply(c, s, step);
      s'.sent == s.sent && Unsent(s'.worker) == Unsent(s.worker) && s'.queue == s.queue && s'.enqueued == s.enqueued
  {
    if IsWorkerStep(step) {
      LineStaysForWorker(c, s, step);
    }
  }

  lemma LineStaysForWorker(c: Config, s: State, step: Step)
    requires c.Valid() && Enabled(c, s, step) && Sizes(c, s) && !Reorders(step) && IsWorkerStep(step)
    ensures var s' := WorkerApply(c, s, step);
      s'.sent == s.sent && Unsent(s'.worker) == Unsent(s.worker) && s'.queue == s.queue && s'.enqueued == s.enqueued
  {
  }

  lemma OrderKept(c: Config, s: State, step: Step)
    requires c.Valid() && Enabled(c, s, step) && Sizes(c, s) && Retrying(s) && InOrder(s)
    ensures InOrder(Apply(c, s, step))
  {
    if !Reorders(step) {
      LineStays(c, s, step);
    } else {
      match step
      case Enqueue(t) => OrderKeptByEnqueue(c, s, t);
      case WorkerTakes => OrderKeptByTake(c, s);
      case WorkerCancelled => OrderKeptByCancel(c, s);
      case WriterReturns(ok) => OrderKeptByWriter(c, s, ok);
      case DropRemaining => OrderKeptByDrop(c, s);
    }
  }

  lemma RetryKeptByWriter(c: Config, s: State, ok: bool)
    requires c.Valid() && Enabled(c, s, WriterReturns(ok)) && Sizes(c, s) && Retrying(s) && BatchBounds(c, s.sent)
    ensures var s' := Apply(c, s, WriterReturns(ok)); Retrying(s') && BatchBounds(c, s'.sent)
  {
    var sent' := Handed(s.sent, s.worker.batch, s.worker.n);
    assert sent'[|sent'| - 1] == Sent(s.worker.batch, s.worker.n);
    assert forall k :: 0 <= k < |sent'| - 1 ==> sent'[k] == s.sent[k];
  }

  lemma RetryKept(c: Config, s: State, step: Step)
    requires c.Valid() && Enabled(c, s, step) && Sizes(c, s) && Retrying(s) && BatchBounds(c, s.sent)
    ensures Retrying(Apply(c, s, step)) && BatchBounds(c, Apply(c, s, step).sent)
  {
    if step.WriterReturns? {
      RetryKeptByWriter(c, s, step.ok);
    } else if IsWorkerStep(step) {
      RetryKeptByWorker(c, s, step);
    }
  }

  lemma RetryKeptByWorker(c: Config, s: State, step: Step)
    requires c.Valid() && Enabled(c, s, step) && Sizes(c, s) && Retrying(s) && IsWorkerStep(step) && !step.WriterReturns?
    ensures Retrying(WorkerApply(c, s, step)) && WorkerApply(c, s, step).sent == s.sent
  {
  }

  // ------------------------------------------------------------------ wake-ups and stopping

  predicate OwesNotify(pc: Pc) {
    pc.Evicted? || pc.MustNotify? || pc.Stopping?
  }

  predicate SomeoneOwesNotify(s: State) {
    exists t :: t in s.threads && OwesNotify(s.threads[t])
  }

  /** A worker blocked on wake with work to do or an end to see is going to be woken. */
  predicate WakeComing(s: State) {
    (s.worker.Blocked? || s.worker.FillBlocked?) && (s.queue != [] || !s.accepting)
    ==> s.wake || SomeoneOwesNotify(s)
  }

  predicate IsStopping(pc: Pc) {
    pc.Stopping? || pc.Cancelling? || pc.Waiting?
  }

  /** Cancellation and exit happen only after acceptance has stopped. */
  predicate StopOrder(s: State) {
    && (s.cancelled ==> !s.accepting)
    && (forall t :: t in s.threads && IsStopping(s.threads[t]) ==> !s.accepting)
    && (s.worker.Dropping? || s.worker.Counting? || s.worker.Exited? ==> !s.accepting)
    && (s.worker.Counting? || s.worker.Exited? ==> s.queue == [])
  }

  lemma StopKept(c: Config, s: State, step: Step)
    requires c.Valid() && Enabled(c, s, step) && StopOrder(s)
    ensures StopOrder(Apply(c, s, step))
  {
    if IsWorkerStep(step) {
      StopKeptByWorker(c, s, step);
    } else {
      StopKeptByThread(c, s, step);
    }
  }

  lemma StopKeptByThread(c: Config, s: State, step: Step)
    requires c.Valid() && Enabled(c, s, step) && StopOrder(s) && !IsWorkerStep(step)
    ensures StopOrder(ThreadApply(c, s, step))
  {
  }

  lemma StopKeptByWorker(c: Config, s: State, step: Step)
    requires c.Valid() && Enabled(c, s, step) && StopOrder(s) && IsWorkerStep(step)
    ensures StopOrder(WorkerApply(c, s, step))
  {
  }

  lemma WakeKeptByThread(c: Config, s: State, step: Step)
    requires c.Valid() && Enabled(c, s, step) && WakeComing(s) && !IsWorkerStep(step)
    ensures WakeComing(ThreadApply(c, s, step))
  {
    var s' := ThreadApply(c, s, step);
    if step.Enqueue? || step.RecordEviction? || step.StopAccepting? {
      assert step.t in s'.threads && OwesNotify(s'.threads[step.t]);
    } else if !step.Notify? && SomeoneOwesNotify(s) {
      var t :| t in s.threads && OwesNotify(s.threads[t]);
      assert t in s'.threads && OwesNotify(s'.threads[t]);
    }
  }

  lemma WakeKeptByWorker(c: Config, s: State, step: Step)
    requires c.Valid() && Enabled(c, s, step) && WakeComing(s) && IsWorkerStep(step)
    ensures WakeComing(WorkerApply(c, s, step))
  {
    assert WorkerApply(c, s, step).threads == s.threads;
  }

  lemma WakeKept(c: Config, s: State, step: Step)
    requires c.Valid() && Enabled(c, s, step) && WakeComing(s)
    ensures WakeComing(Apply(c, s, step))
  {
    if IsWorkerStep(step) {
      WakeKeptByWorker(c, s, step);
    } else {
      WakeKeptByThread(c, s, step);
    }
  }

  // ------------------------------------------------------------------ every reachable state

  ghost predicate Inv(c: Config, s: State) {
    && Sizes(c, s) && Partitioned(s) && Conserved(s) && Counted(s)
    && InOrder(s) && Retrying(s) && BatchBounds(c, s.sent)
    && WakeComing(s) && StopOrder(s)
  }

  lemma InvKept(c: Config, s: State, step: Step)
    requires c.Valid() && Enabled(c, s, step) && Inv(c, s)
    ensures Inv(c, Apply(c, s, step))
  {
    SizesKept(c, s, step);
    PartitionKept(c, s, step);
    CountersKept(c, s, step);
    OrderKept(c, s, step);
    RetryKept(c, s, step);
    WakeKept(c, s, step);
    StopKept(c, s, step);
  }

  lemma {:induction false} InvKeptByRun(c: Config, s: State, steps: seq<Step>)
    requires c.Valid() && CanRun(c, s, steps) && Inv(c, s)
    ensures Inv(c, Run(c, s, steps))
    decreases |steps|
  {
    if steps != [] {
      InvKept(c, s, steps[0]);
      InvKeptByRun(c, Apply(c, s, steps[0]), steps[1..]);
    }
  }

  lemma Reachable(c: Config, steps: seq<Step>)
    requires c.Valid() && CanRun(c, Init(), steps)
    ensures Inv(c, Run(c, Init(), steps))
  {
    InvKeptByRun(c, Init(), steps);
  }

  // ------------------------------------------------------------------ main results

  /** Conservation in every reachable interleaving: each accepted point is in exactly one
      place, and the counters add up once the steps still owed are added. */
  lemma Conservation(c: Config, steps: seq<Step>, i: nat)
    requires c.Valid() && CanRun(c, Init(), steps)
    ensures var s := Run(c, Init(), steps);
      && Places(HoldingsOf(s), i) == (if i < s.enqueued then 1 else 0)
      && s.enqueued == s.written + s.failed + s.dropped + |s.queue| + s.inFlight
                       + |UncountedProducers(s.threads)| + UncountedByWorker(s.worker) - Uncompleted(s.worker)
  {
    Reachable(c, steps);
  }

  /** Once the worker is done and no producer is between two steps, nothing is pending and
      every accepted point was written, failed or dropped, with the counters saying so. */
  lemma SettledAtRest(c: Config, steps: seq<Step>)
    requires c.Valid() && CanRun(c, Init(), steps)
    requires var s := Run(c, Init(), steps); s.worker.Exited? && forall t :: t in s.threads ==> !s.threads[t].Evicted?
    ensures var s := Run(c, Init(), steps);
      s.queue == [] && s.inFlight == 0 && s.enqueued == s.written + s.failed + s.dropped
  {
    Reachable(c, steps);
    assert UncountedProducers(Run(c, Init(), steps).threads) == {};
  }

  /** No lost wake-up: a worker blocked on wake while there is something to take, or an end
      of acceptance to see, has a token in the channel or a thread about to put one there. */
  lemma NoLostWakeUp(c: Config, steps: seq<Step>)
    requires c.Valid() && CanRun(c, Init(), steps)
    ensures var s := Run(c, Init(), steps);
      (s.worker.Blocked? || s.worker.FillBlocked?) && (s.queue != [] || !s.accepting)
      ==> s.wake || SomeoneOwesNotify(s)
  {
    Reachable(c, steps);
  }

  lemma {:induction false} ExitIsFinal(c: Config, s: State, more: seq<Step>)
    requires c.Valid() && CanRun(c, s, more) && s.worker.Exited? && StopOrder(s)
    ensures var later := Run(c, s, more); later.worker.Exited? && later.queue == [] && later.enqueued == s.enqueued
    decreases |more|
  {
    if more != [] {
      StopKept(c, s, more[0]);
      ExitIsFinal(c, Apply(c, s, more[0]), more[1..]);
    }
  }

  /** No stranded point: after the worker exits the queue is empty in every later state. */
  lemma NothingStranded(c: Config, steps: seq<Step>, more: seq<Step>)
    requires c.Valid() && CanRun(c, Init(), steps) && CanRun(c, Run(c, Init(), steps), more)
    requires Run(c, Init(), steps).worker.Exited?
    ensures var later := Run(c, Run(c, Init(), steps), more);
      later.worker.Exited? && later.queue == [] && later.enqueued == Run(c, Init(), steps).enqueued
  {
    Reachable(c, steps);
    ExitIsFinal(c, Run(c, Init(), steps), more);
  }

  /** What reaches the writer: an in-order subsequence of the accepted points, no point in
      two batches, batches of 1..batchSize points, each tried 1..attempts times. */
  lemma WriterSeesInOrder(c: Config, steps: seq<Step>)
    requires c.Valid() && CanRun(c, Init(), steps)
    ensures var s := Run(c, Init(), steps);
      Increasing(Flat(s.sent)) && Below(Flat(s.sent), s.enqueued) && BatchBounds(c, s.sent)
  {
    Reachable(c, steps);
    var s := Run(c, Init(), steps);
    var rest := Unsent(s.worker) + s.queue;
    assert Flat(s.sent) + rest + [] == Flat(s.sent) + Unsent(s.worker) + s.queue;
    Thinned(Flat(s.sent), rest, [], s.enqueued);
    assert Flat(s.sent) + [] == Flat(s.sent);
  }

  // ------------------------------------------------------------------ draining ends

  /** k for each of n queued points. */
  function Weight(k: nat, n: nat): nat {
    if n == 0 then 0 else Weight(k, n - 1) + k
  }

  /** How many more steps the worker can take once acceptance has stopped. */
  function Rank(c: Config, s: State): int {
    var queued := Weight(3 * c.attempts + 12, |s.queue|);
    match s.worker
    case Exited => 0
    case Counting(_) => 1
    case Dropping(_) => 2
    case Top => queued + 3
    case Blocked => queued + 4
    case Completing(_) => queued + 4
    case Acked(_) => queued + 5
    case Exhausted(_) => queued + 5
    case Erred(_, n) => queued + 6 + 3 * (c.attempts - n)
    case Attempt(_, n) => queued + 7 + 3 * (c.attempts - n)
    case Backoff(_, n) => queued + 8 + 3 * (c.attempts - n)
    case Fill(_) => queued + 9 + 3 * c.attempts
    case FillBlocked(_) => queued + 10 + 3 * c.attempts
  }

  function WorkerSteps(steps: seq<Step>): nat {
    if steps == [] then 0 else (if IsWorkerStep(steps[0]) then 1 else 0) + WorkerSteps(steps[1..])
  }

  lemma {:induction false} WeightGrows(k: nat, a: nat, b: nat)
    requires a <= b
    ensures Weight(k, a) <= Weight(k, b)
    ensures a < b ==> Weight(k, a) + k <= Weight(k, b)
  {
    if a < b {
      WeightGrows(k, a, b - 1);
    }
  }

  lemma RankFallsOnTake(c: Config, s: State)
    requires c.Valid() && Enabled(c, s, WorkerTakes) && !s.accepting
    ensures 0 <= Rank(c, Apply(c, s, WorkerTakes)) < Rank(c, s)
  {
    WeightGrows(3 * c.attempts + 12, |Apply(c, s, WorkerTakes).queue|, |s.queue|);
  }

  lemma RankFallsByWorker(c: Config, s: State, step: Step)
    requires c.Valid() && Enabled(c, s, step) && Sizes(c, s) && !s.accepting && IsWorkerStep(step) && !step.WorkerTakes?
    ensures 0 <= Rank(c, WorkerApply(c, s, step)) < Rank(c, s)
  {
  }

  lemma RankFalls(c: Config, s: State, step: Step)
    requires c.Valid() && Enabled(c, s, step) && Sizes(c, s) && !s.accepting
    ensures var s' := Apply(c, s, step);
      0 <= Rank(c, s') && Rank(c, s') <= Rank(c, s) - (if IsWorkerStep(step) then 1 else 0)
  {
    if step.WorkerTakes? {
      RankFallsOnTake(c, s);
    } else if IsWorkerStep(step) {
      RankFallsByWorker(c, s, step);
    } else {
      assert ThreadApply(c, s, step).worker == s.worker && ThreadApply(c, s, step).queue == s.queue;
    }
  }

  /** After acceptance stops the worker takes a bounded number of steps, whatever the writer,
      the timers and the other threads do. */
  lemma {:induction false} DrainIsBounded(c: Config, s: State, more: seq<Step>)
    requires c.Valid() && CanRun(c, s, more) && Inv(c, s) && !s.accepting
    ensures WorkerSteps(more) <= Rank(c, s)
    decreases |more|
  {
    if more != [] {
      RankFalls(c, s, more[0]);
      InvKept(c, s, more[0]);
      DrainIsBounded(c, Apply(c, s, more[0]), more[1..]);
    }
  }

  /** A step the worker can take when it is not blocked for good. */
  function Ready(s: State): Step {
    match s.worker
    case Top => WorkerTakes
    case Fill(_) => WorkerTakes
    case Blocked => WorkerWakes
    case FillBlocked(_) => FlushTimer
    case Attempt(_, _) => WriterReturns(false)
    case Backoff(_, _) => BackoffEnds
    case Erred(_, _) => WorkerChecksError
    case Acked(_) => CountWritten
    case Exhausted(_) => CountFailed
    case Completing(_) => CompleteBatch
    case Dropping(_) => DropRemaining
    case Counting(_) => CountDropped
    case Exited => CountDropped
  }

  /** ... and until it exits it always has a step to take, once pending notifies have run:
      so the final receive from `done` in shutdown and in a restart always returns. */
  lemma DrainNeverStalls(c: Config, steps: seq<Step>)
    requires c.Valid() && CanRun(c, Init(), steps)
    requires var s := Run(c, Init(), steps); !s.accepting && !SomeoneOwesNotify(s) && !s.worker.Exited?
    ensures var s := Run(c, Init(), steps); IsWorkerStep(Ready(s)) && Enabled(c, s, Ready(s))
  {
    Reachable(c, steps);
  }
}
