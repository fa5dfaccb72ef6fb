/** Starting, stopping and retrying server connections, after internal/connect/conn:
    striped lifecycle locks, the pool of outbound workers, the table of reconcile retries,
    the worker goroutines and the retry goroutines, in every interleaving. */
module ServerLifecycle {
  import opened Prelude

  const STRIPES := 64

  /** lifecycleLock: the id is converted to uint64 before the remainder is taken. */
  function LifecycleLock(server: int): (stripe: int)
    ensures stripe == server % 64
  {
    (server % TWO_TO_64) % STRIPES
  }

  /** Any assignment of servers to locks; servers that share one only exclude each other more. */
  type Striping = int -> int

  // ------------------------------------------------------------------ the two tables

  function Current(table: map<int, nat>, server: int): Option<nat> {
    if server in table then Some(table[server]) else None
  }

  /** The table after its owner takes itself out: a successor's entry stays. */
  function WithoutOwn(table: map<int, nat>, server: int, own: nat): map<int, nat> {
    if Current(table, server) == Some(own) then table - {server} else table
  }

  class Tables {
    var pool: map<int, nat>
    var retries: map<int, nat>

    constructor ()
      ensures pool == map[] && retries == map[]
    {
      pool, retries := map[], map[];
    }

    /** cancelReconcileRetry: the caller cancels what comes back. */
    method TakeRetry(server: int) returns (r: Option<nat>)
      modifies this`retries
      ensures r == Current(old(retries), server) && retries == old(retries) - {server}
      ensures r == if server in old(retries) then Some(old(retries)[server]) else None
    {
      r := None;
      if server in retries {
        r := Some(retries[server]);
        retries := retries - {server};
      }
    }

    /** stopOutboundServer's critical section: the caller cancels and awaits what comes back. */
    method TakeOutbound(server: int) returns (e: Option<nat>)
      modifies this`pool
      ensures e == Current(old(pool), server) && pool == old(pool) - {server}
      ensures e == if server in old(pool) then Some(old(pool)[server]) else None
    {
      e := None;
      if server in pool {
        e := Some(pool[server]);
        pool := pool - {server};
      }
    }

    method FinishOutbound(server: int, entry: nat)
      modifies this`pool
      ensures pool == WithoutOwn(old(pool), server, entry)
      ensures pool == if server in old(pool) && old(pool)[server] == entry then old(pool) - {server} else old(pool)
    {
      if server in pool && pool[server] == entry {
        pool := pool - {server};
      }
    }

    method FinishRetry(server: int, r: nat)
      modifies this`retries
      ensures retries == WithoutOwn(old(retries), server, r)
      ensures retries == if server in old(retries) && old(retries)[server] == r then old(retries) - {server} else old(retries)
    {
      if server in retries && retries[server] == r {
        retries := retries - {server};
      }
    }
  }

  // ------------------------------------------------------------------ threads

  /** An outbound worker, from its registration in the pool until it has closed `done`. */
  datatype Entry = Entry(server: int, cancelled: bool, done: bool)

  datatype Retry = Retry(server: int, cancelled: bool)

  datatype Origin = ByReconcile | ByStop | ByRetry(r: nat)

  /** What follows a stopOutboundServer. */
  datatype Next = Return(failed: bool) | Start | Insert

  /** A thread outside the locks, a sleeping retry goroutine, or the holder of the lifecycle
      lock of `server`. */
  datatype Pc =
    | Idle
    | Sleeping(r: nat)
    | Locked(server: int, origin: Origin)
    | Reconciling(server: int, origin: Origin)
    | Stopping(server: int, origin: Origin, next: Next)
    | Removed(server: int, origin: Origin, entry: nat, next: Next)
    | Awaiting(server: int, origin: Origin, entry: nat, next: Next)
    | After(server: int, origin: Origin, next: Next)
    | Inserted(server: int, origin: Origin)

  predicate Holding(pc: Pc) {
    !pc.Idle? && !pc.Sleeping?
  }

  /** `stopped` records the servers whose last StopServer has returned since the last ReconcileServer began. */
  datatype State = State(
    pool: map<int, nat>, retries: map<int, nat>, entries: seq<Entry>, retryInfo: seq<Retry>,
    locks: map<int, nat>, threads: map<nat, Pc>, stopped: set<int>)

  datatype Step =
    | Reconcile(t: nat, server: int)          // ReconcileServer takes the lock
    | Stop(t: nat, server: int)               // StopServer takes the lock
    | TimerFires(t: nat)                      // a retry goroutine takes the lock
    | RetryCancelled(t: nat)                  // a retry goroutine sees its context done
    | CancelRetry(t: nat)                     // cancelReconcileRetry
    | CheckRetry(t: nat)                      // the goroutine compares itself with the table
    | Decide(t: nat, next: Next)              // reconcileServer read the database
    | RemoveEntry(t: nat)                     // stopOutboundServer's critical section
    | CancelEntry(t: nat)
    | SeeDone(t: nat)
    | ConfigFails(t: nat, failed: bool)       // startServer cannot read or decrypt; a missing row is no failure
    | ConfigRead(t: nat)
    | InsertEntry(t: nat)                     // startServer's critical section
    | Finish(t: nat, goroutine: nat)          // record the outcome and unlock
    | WorkerExits(entry: nat)                 // finishOutboundServer

  function Init(): State {
    State(map[], map[], [], [], map[], map[], {})
  }

  function PcOf(s: State, t: nat): Pc {
    if t in s.threads then s.threads[t] else Idle
  }

  predicate Free(lk: Striping, s: State, server: int) {
    lk(server) !in s.locks
  }

  predicate Enabled(lk: Striping, s: State, step: Step) {
    match step
    case Reconcile(t, server) => PcOf(s, t).Idle? && Free(lk, s, server)
    case Stop(t, server) => PcOf(s, t).Idle? && Free(lk, s, server)
    case TimerFires(t) => PcOf(s, t).Sleeping? && PcOf(s, t).r < |s.retryInfo| && Free(lk, s, s.retryInfo[PcOf(s, t).r].server)
    case RetryCancelled(t) => PcOf(s, t).Sleeping? && PcOf(s, t).r < |s.retryInfo| && s.retryInfo[PcOf(s, t).r].cancelled
    case CancelRetry(t) => PcOf(s, t).Locked? && !PcOf(s, t).origin.ByRetry?
    case CheckRetry(t) => PcOf(s, t).Locked? && PcOf(s, t).origin.ByRetry? && PcOf(s, t).origin.r < |s.retryInfo|
    case Decide(t, next) => PcOf(s, t).Reconciling? && !next.Insert?
    case RemoveEntry(t) => PcOf(s, t).Stopping?
    case CancelEntry(t) => PcOf(s, t).Removed? && PcOf(s, t).entry < |s.entries|
    case SeeDone(t) => PcOf(s, t).Awaiting? && PcOf(s, t).entry < |s.entries| && s.entries[PcOf(s, t).entry].done
    case ConfigFails(t, _) => PcOf(s, t).After? && PcOf(s, t).next.Start?
    case ConfigRead(t) => PcOf(s, t).After? && PcOf(s, t).next.Start?
    case InsertEntry(t) => PcOf(s, t).After? && PcOf(s, t).next.Insert?
    case Finish(t, g) =>
      ((PcOf(s, t).After? && PcOf(s, t).next.Return?) || PcOf(s, t).Inserted?) && g !in s.threads && g != t
    case WorkerExits(e) => e < |s.entries| && !s.entries[e].done
  }

  function With(s: State, t: nat, pc: Pc): State {
    s.(threads := s.threads[t := pc])
  }

  function Lock(lk: Striping, s: State, t: nat, server: int, origin: Origin): State {
    With(s.(locks := s.locks[lk(server) := t]), t, Locked(server, origin))
  }

  function Unlock(lk: Striping, s: State, t: nat, server: int, pc: Pc): State {
    With(s.(locks := s.locks - {lk(server)}), t, pc)
  }

  function CancelledRetry(s: State, server: int): State {
    if server in s.retries then
      s.(retries := s.retries - {server},
         retryInfo := if s.retries[server] < |s.retryInfo|
                      then s.retryInfo[s.retries[server] := s.retryInfo[s.retries[server]].(cancelled := true)] else s.retryInfo)
    else s
  }

  /** The last thing each kind of holder does before it unlocks. */
  function Finished(lk: Striping, s: State, t: nat, g: nat): State
    requires Enabled(lk, s, Finish(t, g))
  {
    var pc := PcOf(s, t);
    var server, failed := pc.server, pc.After? && pc.next.failed;
    match pc.origin
    case ByReconcile =>
      if failed then
        With(Unlock(lk, s.(retries := s.retries[server := |s.retryInfo|], retryInfo := s.retryInfo + [Retry(server, false)]), t, server, Idle),
             g, Sleeping(|s.retryInfo|))
      else Unlock(lk, s, t, server, Idle)
    case ByStop => Unlock(lk, s.(stopped := s.stopped + {server}), t, server, Idle)
    case ByRetry(r) =>
      if failed then Unlock(lk, s, t, server, Sleeping(r))
      else Unlock(lk, s.(retries := WithoutOwn(s.retries, server, r)), t, server, Idle)
  }

  function Apply(lk: Striping, s: State, step: Step): State
    requires Enabled(lk, s, step)
  {
    match step
    case Reconcile(t, server) => Lock(lk, s.(stopped := s.stopped - {server}), t, server, ByReconcile)
    case Stop(t, server) => Lock(lk, s, t, server, ByStop)
    case TimerFires(t) => Lock(lk, s, t, s.retryInfo[PcOf(s, t).r].server, ByRetry(PcOf(s, t).r))
    case RetryCancelled(t) => With(s, t, Idle)
    case CancelRetry(t) =>
      var pc := PcOf(s, t);
      With(CancelledRetry(s, pc.server), t,
           if pc.origin.ByStop? then Stopping(pc.server, ByStop, Return(false)) else Reconciling(pc.server, ByReconcile))
    case CheckRetry(t) =>
      var pc := PcOf(s, t);
      if s.retryInfo[pc.origin.r].cancelled || pc.server !in s.retries || s.retries[pc.server] != pc.origin.r
      then Unlock(lk, s, t, pc.server, Idle)
      else With(s, t, Reconciling(pc.server, pc.origin))
    case Decide(t, next) => With(s, t, Stopping(PcOf(s, t).server, PcOf(s, t).origin, next))
    case RemoveEntry(t) =>
      var pc := PcOf(s, t);
      if pc.server in s.pool
      then With(s.(pool := s.pool - {pc.server}), t, Removed(pc.server, pc.origin, s.pool[pc.server], pc.next))
      else With(s, t, After(pc.server, pc.origin, pc.next))
    case CancelEntry(t) =>
      var pc := PcOf(s, t);
      With(s.(entries := s.entries[pc.entry := s.entries[pc.entry].(cancelled := true)]), t,
           Awaiting(pc.server, pc.origin, pc.entry, pc.next))
    case SeeDone(t) => With(s, t, After(PcOf(s, t).server, PcOf(s, t).origin, PcOf(s, t).next))
    case ConfigFails(t, failed) => With(s, t, After(PcOf(s, t).server, PcOf(s, t).origin, Return(failed)))
    case ConfigRead(t) => With(s, t, Stopping(PcOf(s, t).server, PcOf(s, t).origin, Insert))
    case InsertEntry(t) =>
      var pc := PcOf(s, t);
      With(s.(pool := s.pool[pc.server := |s.entries|], entries := s.entries + [Entry(pc.server, false, false)]), t,
           Inserted(pc.server, pc.origin))
    case Finish(t, g) => Finished(lk, s, t, g)
    case WorkerExits(e) =>
      var entry := s.entries[e];
      s.(entries := s.entries[e := entry.(done := true)],
         pool := WithoutOwn(s.pool, entry.server, e))
  }

  predicate CanRun(lk: Striping, s: State, steps: seq<Step>)
    decreases |steps|
  {
    |steps| == 0 || (Enabled(lk, s, steps[0]) && CanRun(lk, Apply(lk, s, steps[0]), steps[1..]))
  }

  function Run(lk: Striping, s: State, steps: seq<Step>): State
    requires CanRun(lk, s, steps)
    decreases |steps|
  {
    if |steps| == 0 then s else Run(lk, Apply(lk, s, steps[0]), steps[1..])
  }

  // ------------------------------------------------------------------ the invariant

  predicate OriginFits(s: State, pc: Pc)
    requires Holding(pc)
  {
    match pc.origin
    case ByReconcile => true
    case ByRetry(r) =>
      // a retry goroutine at work is the one in the table
      r < |s.retryInfo| && (pc.Locked? || (pc.server in s.retries && s.retries[pc.server] == r))
    case ByStop =>
      // StopServer forgets the retry before it touches the pool, and never starts anything
      pc.Locked? ||
      (pc.server !in s.retries && (pc.Stopping? || pc.Removed? || pc.Awaiting? || pc.After?) && pc.next.Return?)
  }

  /** From the removal of its pool entry until it inserts a new one, a holder keeps its server
      out of the pool. */
  predicate PoolFits(s: State, pc: Pc) {
    && (pc.Removed? || pc.Awaiting? ==> pc.entry < |s.entries| && s.entries[pc.entry].server == pc.server)
    && (pc.Removed? || pc.Awaiting? || pc.After? ==> pc.server !in s.pool)
  }

  /** Whoever holds the lock of a stopped server is stopping it again, or is a retry goroutine
      that has not yet looked at the table. */
  predicate StopFits(s: State, pc: Pc)
    requires Holding(pc)
  {
    pc.server in s.stopped ==> (pc.origin.ByStop? || (pc.origin.ByRetry? && pc.Locked?)) && Awaited(pc).None?
  }

  predicate Fits(lk: Striping, s: State, t: nat, pc: Pc) {
    if pc.Idle? then true
    else if pc.Sleeping? then pc.r < |s.retryInfo|
    else
      && lk(pc.server) in s.locks && s.locks[lk(pc.server)] == t
      && OriginFits(s, pc) && PoolFits(s, pc) && StopFits(s, pc)
  }

  /** The worker whose end the holder of the lock is waiting for. */
  function Awaited(pc: Pc): Option<nat> {
    if pc.Removed? || pc.Awaiting? then Some(pc.entry) else None
  }

  predicate PoolTable(s: State) {
    forall v :: v in s.pool ==> s.pool[v] < |s.entries| && s.entries[s.pool[v]].server == v
  }

  predicate RetryTable(s: State) {
    forall v :: v in s.retries ==> s.retries[v] < |s.retryInfo|
  }

  predicate StoppedTable(s: State) {
    forall v :: v in s.stopped ==> v !in s.pool && v !in s.retries
  }

  predicate TablesFit(s: State) {
    PoolTable(s) && RetryTable(s) && StoppedTable(s)
  }

  predicate Live(s: State, e: nat) {
    e < |s.entries| && !s.entries[e].done
  }

  /** A live worker is registered in the pool or waited for by the holder of its lock. */
  predicate Accounted(lk: Striping, s: State, e: nat)
    requires e < |s.entries|
  {
    var v := s.entries[e].server;
    || (v in s.pool && s.pool[v] == e)
    || (lk(v) in s.locks && s.locks[lk(v)] in s.threads && Awaited(s.threads[s.locks[lk(v)]]) == Some(e))
  }

  ghost predicate Inv(lk: Striping, s: State) {
    && (forall t :: t in s.threads ==> Fits(lk, s, t, s.threads[t]))
    && TablesFit(s)
    && (forall e: nat :: Live(s, e) ==> Accounted(lk, s, e))
  }

  /** What holds of the thread that takes a step. */
  predicate ActorFits(lk: Striping, s: State, step: Step) {
    !step.WorkerExits? && step.t in s.threads ==> Fits(lk, s, step.t, s.threads[step.t])
  }

  lemma ActorKept(lk: Striping, s: State, step: Step)
    requires Enabled(lk, s, step) && TablesFit(s) && ActorFits(lk, s, step) && !step.WorkerExits?
    ensures step.t in Apply(lk, s, step).threads
    ensures Fits(lk, Apply(lk, s, step), step.t, Apply(lk, s, step).threads[step.t])
  {
    if step.Finish? {
      FinisherKept(lk, s, step.t, step.goroutine);
    }
  }

  lemma FinisherKept(lk: Striping, s: State, t: nat, g: nat)
    requires Enabled(lk, s, Finish(t, g)) && t in s.threads && Fits(lk, s, t, s.threads[t])
    ensures var s' := Finished(lk, s, t, g); t in s'.threads && Fits(lk, s', t, s'.threads[t])
  {
  }

  /** A step leaves alone every server whose lock another thread holds, except that a worker
      may take itself out of the pool. */
  lemma LeavesAlone(lk: Striping, s: State, step: Step, v: int)
    requires Enabled(lk, s, step) && ActorFits(lk, s, step)
    requires lk(v) in s.locks && (!step.WorkerExits? ==> s.locks[lk(v)] != step.t)
    ensures var s' := Apply(lk, s, step);
      && lk(v) in s'.locks && s'.locks[lk(v)] == s.locks[lk(v)]
      && (v in s'.pool ==> v in s.pool)
      && (v in s'.retries <==> v in s.retries) && (v in s.retries ==> s'.retries[v] == s.retries[v])
      && (v in s'.stopped ==> v in s.stopped)
  {
    if step.Finish? {
      FinishLeavesAlone(lk, s, step.t, step.goroutine, v);
    }
  }

  lemma FinishLeavesAlone(lk: Striping, s: State, t: nat, g: nat, v: int)
    requires Enabled(lk, s, Finish(t, g)) && ActorFits(lk, s, Finish(t, g))
    requires lk(v) in s.locks && s.locks[lk(v)] != t
    ensures var s' := Finished(lk, s, t, g);
      && lk(v) in s'.locks && s'.locks[lk(v)] == s.locks[lk(v)]
      && s'.pool == s.pool
      && (v in s'.retries <==> v in s.retries) && (v in s.retries ==> s'.retries[v] == s.retries[v])
      && (v in s'.stopped ==> v in s.stopped)
  {
    assert lk(PcOf(s, t).server) != lk(v);
  }

  lemma RowsStay(lk: Striping, s: State, step: Step)
    requires Enabled(lk, s, step)
    ensures var s' := Apply(lk, s, step);
      && |s.entries| <= |s'.entries| && |s.retryInfo| <= |s'.retryInfo|
      && forall e :: 0 <= e < |s.entries| ==> s'.entries[e].server == s.entries[e].server
  {
  }

  /** The step leaves the thread itself where it was. */
  lemma BystanderStays(lk: Striping, s: State, step: Step, u: nat)
    requires Enabled(lk, s, step) && u in s.threads && (!step.WorkerExits? ==> step.t != u)
    ensures u in Apply(lk, s, step).threads && Apply(lk, s, step).threads[u] == s.threads[u]
  {
    if step.Finish? {
      FinishLeavesOthers(lk, s, step.t, step.goroutine, u);
    }
  }

  lemma FinishLeavesOthers(lk: Striping, s: State, t: nat, g: nat, u: nat)
    requires Enabled(lk, s, Finish(t, g)) && u in s.threads && t != u
    ensures u in Finished(lk, s, t, g).threads && Finished(lk, s, t, g).threads[u] == s.threads[u]
  {
  }

  lemma OthersKept(lk: Striping, s: State, step: Step, u: nat)
    requires Enabled(lk, s, step) && ActorFits(lk, s, step)
    requires u in s.threads && Fits(lk, s, u, s.threads[u]) && (!step.WorkerExits? ==> step.t != u)
    ensures var s' := Apply(lk, s, step); u in s'.threads && Fits(lk, s', u, s'.threads[u])
  {
    BystanderStays(lk, s, step, u);
    RowsStay(lk, s, step);
    if Holding(s.threads[u]) {
      LeavesAlone(lk, s, step, s.threads[u].server);
    }
  }

  lemma FitsKept(lk: Striping, s: State, step: Step)
    requires Enabled(lk, s, step) && Inv(lk, s)
    ensures var s' := Apply(lk, s, step); forall u :: u in s'.threads ==> Fits(lk, s', u, s'.threads[u])
  {
    var s' := Apply(lk, s, step);
    forall u | u in s'.threads
      ensures Fits(lk, s', u, s'.threads[u])
    {
      if !step.WorkerExits? && u == step.t {
        ActorKept(lk, s, step);
      } else if u in s.threads {
        OthersKept(lk, s, step, u);
      } else {
        assert step.Finish? && u == step.goroutine;
      }
    }
  }

  lemma PoolTableKept(lk: Striping, s: State, step: Step)
    requires Enabled(lk, s, step) && PoolTable(s)
    ensures PoolTable(Apply(lk, s, step))
  {
  }

  lemma RetryTableKept(lk: Striping, s: State, step: Step)
    requires Enabled(lk, s, step) && RetryTable(s)
    ensures RetryTable(Apply(lk, s, step))
  {
  }

  lemma StoppedTableKept(lk: Striping, s: State, step: Step)
    requires Enabled(lk, s, step) && StoppedTable(s) && ActorFits(lk, s, step)
    ensures StoppedTable(Apply(lk, s, step))
  {
  }

  /** While a thread holds the lock of an awaited worker, others leave that lock alone. */
  lemma AwaitedKept(lk: Striping, s: State, step: Step, e: nat)
    requires Enabled(lk, s, step) && ActorFits(lk, s, step) && Live(Apply(lk, s, step), e) && Live(s, e)
    requires var v := s.entries[e].server;
      lk(v) in s.locks && s.locks[lk(v)] in s.threads && Awaited(s.threads[s.locks[lk(v)]]) == Some(e)
    ensures Accounted(lk, Apply(lk, s, step), e)
  {
    var v := s.entries[e].server;
    RowsStay(lk, s, step);
    if step.WorkerExits? || step.t != s.locks[lk(v)] {
      LeavesAlone(lk, s, step, v);
      assert Apply(lk, s, step).threads[s.locks[lk(v)]] == s.threads[s.locks[lk(v)]];
    }
  }

  lemma PooledKept(lk: Striping, s: State, step: Step, e: nat)
    requires Enabled(lk, s, step) && ActorFits(lk, s, step) && Live(Apply(lk, s, step), e) && Live(s, e)
    requires var v := s.entries[e].server; v in s.pool && s.pool[v] == e
    ensures Accounted(lk, Apply(lk, s, step), e)
  {
    RowsStay(lk, s, step);
  }

  lemma AccountedKept(lk: Striping, s: State, step: Step, e: nat)
    requires Enabled(lk, s, step) && ActorFits(lk, s, step) && Live(Apply(lk, s, step), e)
    requires Live(s, e) ==> Accounted(lk, s, e)
    ensures Accounted(lk, Apply(lk, s, step), e)
  {
    if Live(s, e) {
      var v := s.entries[e].server;
      if v in s.pool && s.pool[v] == e {
        PooledKept(lk, s, step, e);
      } else {
        AwaitedKept(lk, s, step, e);
      }
    } else {
      assert step.InsertEntry? && e == |s.entries|;
    }
  }

  lemma InvKept(lk: Striping, s: State, step: Step)
    requires Enabled(lk, s, step) && Inv(lk, s)
    ensures Inv(lk, Apply(lk, s, step))
  {
    FitsKept(lk, s, step);
    PoolTableKept(lk, s, step);
    RetryTableKept(lk, s, step);
    StoppedTableKept(lk, s, step);
    forall e: nat | Live(Apply(lk, s, step), e)
      ensures Accounted(lk, Apply(lk, s, step), e)
    {
      AccountedKept(lk, s, step, e);
    }
  }

  lemma {:induction false} InvKeptByRun(lk: Striping, s: State, steps: seq<Step>)
    requires CanRun(lk, s, steps) && Inv(lk, s)
    ensures Inv(lk, Run(lk, s, steps))
    decreases |steps|
  {
    if |steps| > 0 {
      InvKept(lk, s, steps[0]);
      InvKeptByRun(lk, Apply(lk, s, steps[0]), steps[1..]);
    }
  }

  // ------------------------------------------------------------------ main results

  /** In every reachable state a server has at most one live outbound worker. */
  lemma AtMostOneWorker(lk: Striping, steps: seq<Step>, d: nat, e: nat)
    requires CanRun(lk, Init(), steps)
    ensures var s := Run(lk, Init(), steps);
      Live(s, d) && Live(s, e) && s.entries[d].server == s.entries[e].server ==> d == e
  {
    InvKeptByRun(lk, Init(), steps);
    var s := Run(lk, Init(), steps);
    if Live(s, d) && Live(s, e) && s.entries[d].server == s.entries[e].server {
      assert Accounted(lk, s, d) && Accounted(lk, s, e);
      var v := s.entries[d].server;
      if lk(v) in s.locks && s.locks[lk(v)] in s.threads {
        assert Fits(lk, s, s.locks[lk(v)], s.threads[s.locks[lk(v)]]);
      }
    }
  }

  /** A retry goroutine is reconciling this server. */
  predicate RetryAtWork(s: State, t: nat, v: int) {
    Holding(PcOf(s, t)) && PcOf(s, t).server == v && PcOf(s, t).origin.ByRetry? && !PcOf(s, t).Locked?
  }

  /** From the return of StopServer until the next ReconcileServer of the same server, no
      worker of it is alive and no retry goroutine reconciles it; the only retries left are
      ones that will find themselves replaced. */
  lemma QuietAfterStop(lk: Striping, steps: seq<Step>, v: int)
    requires CanRun(lk, Init(), steps) && v in Run(lk, Init(), steps).stopped
    ensures var s := Run(lk, Init(), steps);
      && (forall e: nat :: Live(s, e) ==> s.entries[e].server != v)
      && v !in s.pool && v !in s.retries
      && (forall t :: !RetryAtWork(s, t, v))
  {
    InvKeptByRun(lk, Init(), steps);
    var s := Run(lk, Init(), steps);
    forall e: nat | Live(s, e)
      ensures s.entries[e].server != v
    {
      assert Accounted(lk, s, e);
    }
    forall t
      ensures !RetryAtWork(s, t, v)
    {
      if t in s.threads {
        assert Fits(lk, s, t, s.threads[t]);
      }
    }
  }

  /** StopServer's return is what puts a server there; only a ReconcileServer takes it out. */
  lemma StopIsRecorded(lk: Striping, s: State, step: Step, v: int)
    requires Enabled(lk, s, step)
    ensures v in s.stopped && v !in Apply(lk, s, step).stopped ==> step.Reconcile? && step.server == v
    ensures v !in s.stopped && v in Apply(lk, s, step).stopped ==>
              step.Finish? && PcOf(s, step.t).origin.ByStop? && PcOf(s, step.t).server == v
    ensures step.Finish? && PcOf(s, step.t).origin.ByStop? ==> PcOf(s, step.t).server in Apply(lk, s, step).stopped
  {
  }

  // ------------------------------------------------------------------ workers are told to stop

  /** Whoever waits for a worker has cancelled it. */
  predicate AwaitedCancelled(s: State) {
    forall t :: t in s.threads && s.threads[t].Awaiting? ==>
      s.threads[t].entry < |s.entries| && s.entries[s.threads[t].entry].cancelled
  }

  lemma AwaitedCancelledKept(lk: Striping, s: State, step: Step)
    requires Enabled(lk, s, step) && AwaitedCancelled(s)
    ensures AwaitedCancelled(Apply(lk, s, step))
  {
    var s' := Apply(lk, s, step);
    CancelledStays(lk, s, step);
    forall t | t in s'.threads && s'.threads[t].Awaiting?
      ensures s'.threads[t].entry < |s'.entries| && s'.entries[s'.threads[t].entry].cancelled
    {
      if t in s.threads && (step.WorkerExits? || step.t != t) {
        BystanderStays(lk, s, step, t);
      } else {
        AwaiterHasCancelled(lk, s, step, t);
      }
    }
  }

  lemma CancelledStays(lk: Striping, s: State, step: Step)
    requires Enabled(lk, s, step)
    ensures var s' := Apply(lk, s, step);
      |s.entries| <= |s'.entries| && forall e :: 0 <= e < |s.entries| && s.entries[e].cancelled ==> s'.entries[e].cancelled
  {
  }

  lemma AwaiterHasCancelled(lk: Striping, s: State, step: Step, t: nat)
    requires Enabled(lk, s, step) && t in Apply(lk, s, step).threads && Apply(lk, s, step).threads[t].Awaiting?
    requires t !in s.threads || (!step.WorkerExits? && step.t == t)
    ensures var s' := Apply(lk, s, step); s'.threads[t].entry < |s'.entries| && s'.entries[s'.threads[t].entry].cancelled
  {
    OnlyCancelEntryWaits(lk, s, step, t);
  }

  lemma OnlyCancelEntryWaits(lk: Striping, s: State, step: Step, t: nat)
    requires Enabled(lk, s, step) && t in Apply(lk, s, step).threads && Apply(lk, s, step).threads[t].Awaiting?
    requires t !in s.threads || (!step.WorkerExits? && step.t == t)
    ensures step.CancelEntry? && step.t == t
  {
    if step.Finish? {
      FinishDoesNotWait(lk, s, step.t, step.goroutine);
    }
  }

  lemma FinishDoesNotWait(lk: Striping, s: State, t: nat, g: nat)
    requires Enabled(lk, s, Finish(t, g))
    ensures var s' := Apply(lk, s, Finish(t, g)); t in s'.threads ==> !s'.threads[t].Awaiting?
  {
  }

  lemma {:induction false} AwaitedCancelledByRun(lk: Striping, s: State, steps: seq<Step>)
    requires CanRun(lk, s, steps) && AwaitedCancelled(s)
    ensures AwaitedCancelled(Run(lk, s, steps))
    decreases |steps|
  {
    if |steps| > 0 {
      AwaitedCancelledKept(lk, s, steps[0]);
      AwaitedCancelledByRun(lk, Apply(lk, s, steps[0]), steps[1..]);
    }
  }

  /** In every reachable state a worker that a stop waits for has been told to stop. */
  lemma WaitsAreForCancelledWorkers(lk: Striping, steps: seq<Step>, t: nat)
    requires CanRun(lk, Init(), steps)
    ensures var s := Run(lk, Init(), steps);
      PcOf(s, t).Awaiting? ==> PcOf(s, t).entry < |s.entries| && s.entries[PcOf(s, t).entry].cancelled
  {
    AwaitedCancelledByRun(lk, Init(), steps);
  }

  // ------------------------------------------------------------------ reconciles do their work

  lemma Unrolled(lk: Striping, s: State, steps: seq<Step>)
    requires |steps| > 0
    ensures CanRun(lk, s, steps) <==> Enabled(lk, s, steps[0]) && CanRun(lk, Apply(lk, s, steps[0]), steps[1..])
    ensures CanRun(lk, s, steps) ==> Run(lk, s, steps) == Run(lk, Apply(lk, s, steps[0]), steps[1..])
  {
  }

  /** Every reconcile stops what runs before it goes on to what it decided, and never decides to
      insert a worker before the configuration is read. */
  lemma DecisionsStopFirst(lk: Striping, s: State, t: nat, next: Next)
    requires PcOf(s, t).Reconciling?
    ensures Enabled(lk, s, Decide(t, next)) <==> !next.Insert?
    ensures !next.Insert? ==> PcOf(Apply(lk, s, Decide(t, next)), t) == Stopping(PcOf(s, t).server, PcOf(s, t).origin, next)
  {
  }

  /** stopOutboundServer without a worker to stop. */
  lemma StopsNothing(lk: Striping, s: State, t: nat)
    requires Enabled(lk, s, RemoveEntry(t)) && PcOf(s, t).server !in s.pool
    ensures var pc := PcOf(s, t); Apply(lk, s, RemoveEntry(t)) == s.(threads := s.threads[t := After(pc.server, pc.origin, pc.next)])
  {
  }

  /** With a worker: it is taken out of the pool, told to stop, and waited for; and the wait is
      over exactly when it is done. */
  lemma StopsTheWorker(lk: Striping, s: State, t: nat)
    requires Enabled(lk, s, RemoveEntry(t)) && PcOf(s, t).server in s.pool && s.pool[PcOf(s, t).server] < |s.entries|
    ensures var pc, e := PcOf(s, t), s.pool[PcOf(s, t).server];
      var removed := Apply(lk, s, RemoveEntry(t));
      && removed.pool == s.pool - {pc.server} && Enabled(lk, removed, CancelEntry(t))
      && var awaiting := Apply(lk, removed, CancelEntry(t));
      && awaiting.entries[e].cancelled && (Enabled(lk, awaiting, SeeDone(t)) <==> s.entries[e].done)
      && (s.entries[e].done ==> PcOf(Apply(lk, awaiting, SeeDone(t)), t) == After(pc.server, pc.origin, pc.next))
  {
  }

  /** A reconcile, or a retry, whose configuration could be read registers a live worker that
      has not been told to stop. */
  lemma ReadConfigurationStarts(lk: Striping, s: State, t: nat)
    requires PcOf(s, t).After? && PcOf(s, t).next.Start? && PcOf(s, t).server !in s.pool
    ensures var steps, pc := [ConfigRead(t), RemoveEntry(t), InsertEntry(t)], PcOf(s, t);
      && CanRun(lk, s, steps)
      && var later := Run(lk, s, steps);
      && pc.server in later.pool && later.pool[pc.server] == |s.entries|
      && later.entries == s.entries + [Entry(pc.server, false, false)]
      && PcOf(later, t) == Inserted(pc.server, pc.origin)
  {
    var a := Apply(lk, s, ConfigRead(t));
    var b := Apply(lk, a, RemoveEntry(t));
    Unrolled(lk, s, [ConfigRead(t), RemoveEntry(t), InsertEntry(t)]);
    Unrolled(lk, a, [RemoveEntry(t), InsertEntry(t)]);
    Unrolled(lk, b, [InsertEntry(t)]);
  }

  /** A failure to read it, or to reach the database, ends in a failed finish. */
  lemma FailuresAreReported(lk: Striping, s: State, t: nat, failed: bool)
    requires PcOf(s, t).After? && PcOf(s, t).next.Start?
    ensures Enabled(lk, s, ConfigFails(t, failed))
    ensures PcOf(Apply(lk, s, ConfigFails(t, failed)), t) == After(PcOf(s, t).server, PcOf(s, t).origin, Return(failed))
  {
  }

  // ------------------------------------------------------------------ failures are retried

  predicate FinishesFailed(lk: Striping, s: State, t: nat, g: nat, server: int) {
    Enabled(lk, s, Finish(t, g)) && PcOf(s, t).server == server && PcOf(s, t).After? && PcOf(s, t).next == Return(true)
  }

  /** A ReconcileServer that failed leaves the table pointing to a new retry, not cancelled,
      whose goroutine is asleep; and it has released its lock. */
  lemma FailedReconcileIsRetried(lk: Striping, s: State, t: nat, g: nat, server: int)
    requires FinishesFailed(lk, s, t, g, server) && PcOf(s, t).origin.ByReconcile?
    ensures var s', r := Apply(lk, s, Finish(t, g)), |s.retryInfo|;
      && server in s'.retries && s'.retries[server] == r
      && s'.retryInfo == s.retryInfo + [Retry(server, false)]
      && PcOf(s', g) == Sleeping(r) && PcOf(s', t).Idle? && Free(lk, s', server)
  {
  }

  /** A sleeping retry that is still the table's own, and was not cancelled, reconciles when its
      timer fires and the lock is free; one that was replaced, forgotten or cancelled gives up
      and changes nothing. */
  lemma RetryFires(lk: Striping, s: State, g: nat, r: nat)
    requires PcOf(s, g) == Sleeping(r) && r < |s.retryInfo| && Free(lk, s, s.retryInfo[r].server)
    ensures var server := s.retryInfo[r].server;
      && Enabled(lk, s, TimerFires(g))
      && var fired := Apply(lk, s, TimerFires(g));
      && Enabled(lk, fired, CheckRetry(g))
      && var checked := Apply(lk, fired, CheckRetry(g));
      if server in s.retries && s.retries[server] == r && !s.retryInfo[r].cancelled
      then PcOf(checked, g) == Reconciling(server, ByRetry(r)) && !Free(lk, checked, server)
      else PcOf(checked, g).Idle? && checked.locks == s.locks && checked.pool == s.pool && checked.retries == s.retries
  {
    var fired := Apply(lk, s, TimerFires(g));
    assert lk(s.retryInfo[r].server) !in s.locks;
    assert fired.locks - {lk(s.retryInfo[r].server)} == s.locks;
  }

  /** A retry that failed sleeps again, still in the table; one that succeeded leaves the table
      and ends; either way the lock is released. */
  lemma RetryGoesOn(lk: Striping, s: State, t: nat, g: nat)
    requires Enabled(lk, s, Finish(t, g)) && PcOf(s, t).origin.ByRetry?
    ensures var pc, s' := PcOf(s, t), Apply(lk, s, Finish(t, g));
      && Free(lk, s', pc.server)
      && (if pc.After? && pc.next.failed
          then PcOf(s', t) == Sleeping(pc.origin.r) && s'.retries == s.retries
          else PcOf(s', t).Idle? && (pc.server in s.retries && s.retries[pc.server] == pc.origin.r ==> pc.server !in s'.retries))
  {
  }

  /** ReconcileServer and StopServer begin by cancelling the retry in the table, and a cancelled
      goroutine ends without its timer. */
  lemma RetriesAreCancelled(lk: Striping, s: State, t: nat, g: nat, server: int)
    requires PcOf(s, t).Locked? && !PcOf(s, t).origin.ByRetry? && PcOf(s, t).server == server && g != t
    requires server in s.retries && s.retries[server] < |s.retryInfo| && PcOf(s, g) == Sleeping(s.retries[server])
    ensures var s' := Apply(lk, s, CancelRetry(t));
      && server !in s'.retries && s'.retryInfo[s.retries[server]].cancelled
      && Enabled(lk, s', RetryCancelled(g)) && PcOf(Apply(lk, s', RetryCancelled(g)), g).Idle?
      && PcOf(s', t) == if PcOf(s, t).origin.ByStop? then Stopping(server, ByStop, Return(false)) else Reconciling(server, ByReconcile)
  {
  }
}
