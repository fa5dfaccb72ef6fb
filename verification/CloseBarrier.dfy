/** Managed agent connections, after internal/app/agent/connection/main.go: the map of
    current connections, and a Close that returns only when no status callback can be
    running, built from an atomic flag and an empty write-locked section. */
module CloseBarrier {
  import opened Prelude

  // ------------------------------------------------------------------ the map

  /** mainSetManaged's section: the connection displaced is the caller's to close. */
  function SetManaged(m: map<int, nat>, server: int, conn: nat): map<int, nat> {
    m[server := conn]
  }

  function Current(m: map<int, nat>, server: int): Option<nat> {
    if server in m then Some(m[server]) else None
  }

  /** MainRemove takes out a connection only while it is still the current one. */
  function Without(m: map<int, nat>, server: int, conn: nat): map<int, nat> {
    if Current(m, server) == Some(conn) then m - {server} else m
  }

  class MainConnections {
    var connections: map<int, nat>

    constructor ()
      ensures connections == map[]
    {
      connections := map[];
    }

    method Set(server: int, conn: nat) returns (displaced: Option<nat>)
      modifies this
      ensures connections == SetManaged(old(connections), server, conn) == old(connections)[server := conn]
      ensures displaced == Current(old(connections), server)
      ensures displaced == if server in old(connections) then Some(old(connections)[server]) else None
    {
      displaced := if server in connections then Some(connections[server]) else None;
      connections := connections[server := conn];
    }

    method Remove(server: int, conn: nat)
      modifies this
      ensures connections == Without(old(connections), server, conn)
      ensures connections == if server in old(connections) && old(connections)[server] == conn then old(connections) - {server} else old(connections)
    {
      if server in connections && connections[server] == conn {
        connections := connections - {server};
      }
    }

    method Close(server: int) returns (toClose: Option<nat>)
      modifies this
      ensures connections == old(connections) - {server} && toClose == Current(old(connections), server)
      ensures toClose == if server in old(connections) then Some(old(connections)[server]) else None
    {
      if server in connections {
        toClose := Some(connections[server]);
        connections := connections - {server};
      } else {
        toClose := None;
      }
    }
  }

  // ------------------------------------------------------------------ threads

  datatype Pc =
    | Idle
    | Reading(c: nat)      // read lock taken, flag not yet loaded
    | Running(c: nat)      // inside the callback
    | Leaving(c: nat)      // read lock to be released
    | MustClose(c: nat)    // at the start of Close
    | Shutting(c: nat)     // won the compare-and-swap
    | Locking(c: nat)      // about to take the write lock
    | Barrier(c: nat)      // inside the empty write-locked section

  /** Threads and the map, the flags set, the connections whose closeFn ran, which thread won
      each flag, which thread displaced each connection, and the connections of which a Close
      has returned. */
  datatype State = State(
    current: map<int, nat>, closed: set<nat>, shut: set<nat>, threads: map<nat, Pc>,
    winner: map<nat, nat>, displacedBy: map<nat, nat>, returned: set<nat>)

  datatype Step =
    | WhileOpen(t: nat, c: nat)
    | LoadFlag(t: nat)
    | CallbackReturns(t: nat)
    | ReadUnlock(t: nat)
    | Close(t: nat, c: nat)
    | CompareAndSwap(t: nat)
    | RunCloseFn(t: nat)
    | WriteLock(t: nat)
    | WriteUnlock(t: nat)
    | Set(t: nat, server: int, c: nat)
    | Remove(server: int, c: nat)
    | CloseCurrent(t: nat, server: int)

  function Init(): State {
    State(map[], {}, {}, map[], map[], map[], {})
  }

  function PcOf(s: State, t: nat): Pc {
    if t in s.threads then s.threads[t] else Idle
  }

  predicate IsReader(pc: Pc, c: nat) {
    pc == Reading(c) || pc == Running(c) || pc == Leaving(c)
  }

  predicate NoWriter(s: State, c: nat) {
    forall t :: t in s.threads ==> s.threads[t] != Barrier(c)
  }

  predicate NoReader(s: State, c: nat) {
    forall t :: t in s.threads ==> !IsReader(s.threads[t], c)
  }

  predicate Enabled(s: State, step: Step) {
    match step
    case WhileOpen(t, c) => PcOf(s, t).Idle? && NoWriter(s, c)
    case LoadFlag(t) => PcOf(s, t).Reading?
    case CallbackReturns(t) => PcOf(s, t).Running?
    case ReadUnlock(t) => PcOf(s, t).Leaving?
    case Close(t, c) => PcOf(s, t).Idle?
    case CompareAndSwap(t) => PcOf(s, t).MustClose?
    case RunCloseFn(t) => PcOf(s, t).Shutting?
    case WriteLock(t) => PcOf(s, t).Locking? && NoReader(s, PcOf(s, t).c) && NoWriter(s, PcOf(s, t).c)
    case WriteUnlock(t) => PcOf(s, t).Barrier?
    case Set(t, _, _) => PcOf(s, t).Idle?
    case Remove(_, _) => true
    case CloseCurrent(t, _) => PcOf(s, t).Idle?
  }

  function With(s: State, t: nat, pc: Pc): State {
    s.(threads := s.threads[t := pc])
  }

  /** The thread that took a connection out of the map goes on to close it. */
  function Displace(s: State, t: nat, previous: Option<nat>): State {
    match previous
    case None => s
    case Some(c) => With(s.(displacedBy := s.displacedBy[c := t]), t, MustClose(c))
  }

  function Apply(s: State, step: Step): State
    requires Enabled(s, step)
  {
    match step
    case WhileOpen(t, c) => With(s, t, Reading(c))
    case LoadFlag(t) => With(s, t, if PcOf(s, t).c in s.closed then Leaving(PcOf(s, t).c) else Running(PcOf(s, t).c))
    case CallbackReturns(t) => With(s, t, Leaving(PcOf(s, t).c))
    case ReadUnlock(t) => With(s, t, Idle)
    case Close(t, c) => With(s, t, MustClose(c))
    case CompareAndSwap(t) =>
      var c := PcOf(s, t).c;
      if c in s.closed then With(s, t, Locking(c))
      else With(s.(closed := s.closed + {c}, winner := s.winner[c := t]), t, Shutting(c))
    case RunCloseFn(t) => With(s.(shut := s.shut + {PcOf(s, t).c}), t, Locking(PcOf(s, t).c))
    case WriteLock(t) => With(s, t, Barrier(PcOf(s, t).c))
    case WriteUnlock(t) => With(s.(returned := s.returned + {PcOf(s, t).c}), t, Idle)
    case Set(t, server, c) => Displace(s.(current := SetManaged(s.current, server, c)), t, Current(s.current, server))
    case Remove(server, c) => s.(current := Without(s.current, server, c))
    case CloseCurrent(t, server) => Displace(s.(current := s.current - {server}), t, Current(s.current, server))
  }

  predicate CanRun(s: State, steps: seq<Step>)
    decreases |steps|
  {
    |steps| == 0 || (Enabled(s, steps[0]) && CanRun(Apply(s, steps[0]), steps[1..]))
  }

  function Run(s: State, steps: seq<Step>): State
    requires CanRun(s, steps)
    decreases |steps|
  {
    if |steps| == 0 then s else Run(Apply(s, steps[0]), steps[1..])
  }

  // ------------------------------------------------------------------ the invariant

  /** Past the compare-and-swap the flag is set. */
  predicate FlagsFit(s: State) {
    && (forall t :: t in s.threads && (s.threads[t].Shutting? || s.threads[t].Locking? || s.threads[t].Barrier?) ==>
          s.threads[t].c in s.closed)
    && s.returned <= s.closed
  }

  /** In the barrier there is no reader. */
  predicate LocksFit(s: State) {
    forall t :: t in s.threads && s.threads[t].Barrier? ==> NoReader(s, s.threads[t].c)
  }

  /** A callback of a connection runs only while no Close of it has returned. */
  predicate CallbacksFit(s: State) {
    forall t :: t in s.threads && s.threads[t].Running? ==> s.threads[t].c !in s.returned
  }

  predicate BarrierFits(s: State) {
    FlagsFit(s) && LocksFit(s) && CallbacksFit(s)
  }

  /** Each flag has one winner, which has run the closing function or is about to. */
  predicate WinnersFit(s: State) {
    && s.closed == s.winner.Keys && s.shut <= s.closed
    && (forall c :: c in s.winner ==> c in s.shut || PcOf(s, s.winner[c]) == Shutting(c))
    && (forall t :: t in s.threads && s.threads[t].Shutting? ==> Won(s, t, s.threads[t].c))
  }

  predicate Won(s: State, t: nat, c: nat) {
    c in s.winner && s.winner[c] == t && c !in s.shut
  }

  predicate DisplacedFit(s: State) {
    forall c :: c in s.displacedBy ==> c in s.closed || PcOf(s, s.displacedBy[c]) == MustClose(c)
  }

  predicate Inv(s: State) {
    BarrierFits(s) && WinnersFit(s) && DisplacedFit(s)
  }

  lemma FlagsKept(s: State, step: Step)
    requires Enabled(s, step) && FlagsFit(s)
    ensures FlagsFit(Apply(s, step))
  {
  }

  lemma LocksKept(s: State, step: Step)
    requires Enabled(s, step) && LocksFit(s)
    ensures LocksFit(Apply(s, step))
  {
  }

  lemma CallbacksKept(s: State, step: Step)
    requires Enabled(s, step) && BarrierFits(s)
    ensures CallbacksFit(Apply(s, step))
  {
  }

  lemma BarrierKept(s: State, step: Step)
    requires Enabled(s, step) && BarrierFits(s)
    ensures BarrierFits(Apply(s, step))
  {
    FlagsKept(s, step);
    LocksKept(s, step);
    CallbacksKept(s, step);
  }

  lemma WinnersKept(s: State, step: Step)
    requires Enabled(s, step) && WinnersFit(s)
    ensures WinnersFit(Apply(s, step))
  {
    var s' := Apply(s, step);
    forall c | c in s'.winner
      ensures c in s'.shut || PcOf(s', s'.winner[c]) == Shutting(c)
    {
      WinnerKept(s, step, c);
    }
    forall t | t in s'.threads && s'.threads[t].Shutting?
      ensures Won(s', t, s'.threads[t].c)
    {
      ShutterKept(s, step, t);
    }
  }

  lemma WinnerKept(s: State, step: Step, c: nat)
    requires Enabled(s, step) && c in Apply(s, step).winner
    requires c in s.winner ==> c in s.shut || PcOf(s, s.winner[c]) == Shutting(c)
    requires s.closed == s.winner.Keys
    ensures var s' := Apply(s, step); c in s'.shut || PcOf(s', s'.winner[c]) == Shutting(c)
  {
  }

  lemma ShutterKept(s: State, step: Step, t: nat)
    requires Enabled(s, step) && WinnersFit(s) && PcOf(Apply(s, step), t).Shutting?
    ensures Won(Apply(s, step), t, PcOf(Apply(s, step), t).c)
  {
  }

  lemma DisplacedKept(s: State, step: Step)
    requires Enabled(s, step) && DisplacedFit(s)
    ensures DisplacedFit(Apply(s, step))
  {
  }

  lemma InvKept(s: State, step: Step)
    requires Enabled(s, step) && Inv(s)
    ensures Inv(Apply(s, step))
  {
    BarrierKept(s, step);
    WinnersKept(s, step);
    DisplacedKept(s, step);
  }

  lemma {:induction false} InvKeptByRun(s: State, steps: seq<Step>)
    requires CanRun(s, steps) && Inv(s)
    ensures Inv(Run(s, steps)) && s.returned <= Run(s, steps).returned
    decreases |steps|
  {
    if |steps| > 0 {
      InvKept(s, steps[0]);
      InvKeptByRun(Apply(s, steps[0]), steps[1..]);
    }
  }

  // ------------------------------------------------------------------ main results

  /** Once any Close of a connection has returned, no WhileOpen callback of it is running, in
      this or any later state, for any number of closers and callers. */
  lemma CloseIsABarrier(steps: seq<Step>, later: seq<Step>, c: nat, t: nat)
    requires CanRun(Init(), steps) && CanRun(Run(Init(), steps), later) && c in Run(Init(), steps).returned
    ensures PcOf(Run(Run(Init(), steps), later), t) != Running(c)
  {
    InvKeptByRun(Init(), steps);
    InvKeptByRun(Run(Init(), steps), later);
  }

  /** A connection displaced by a newer one, or taken out by MainClose, is closed or its
      displacer is at the start of closing it; and the closing function of a connection has
      run, or its one winner is about to run it. */
  lemma DisplacedAreClosed(steps: seq<Step>, c: nat)
    requires CanRun(Init(), steps)
    ensures var s := Run(Init(), steps);
      && (c in s.displacedBy ==> c in s.closed || PcOf(s, s.displacedBy[c]) == MustClose(c))
      && (c in s.closed ==> c in s.shut || (c in s.winner && PcOf(s, s.winner[c]) == Shutting(c)))
  {
    InvKeptByRun(Init(), steps);
  }

  /** The closing function runs at most once: only the winner runs it, and only before it has. */
  lemma ClosesOnce(steps: seq<Step>, t: nat)
    requires CanRun(Init(), steps) && Enabled(Run(Init(), steps), RunCloseFn(t))
    ensures var s := Run(Init(), steps);
      PcOf(s, t).c !in s.shut && PcOf(s, t).c in s.winner && s.winner[PcOf(s, t).c] == t
  {
    InvKeptByRun(Init(), steps);
  }

  // ------------------------------------------------------------------ calls do their work

  lemma Unrolled(s: State, steps: seq<Step>)
    requires |steps| > 0
    ensures CanRun(s, steps) <==> Enabled(s, steps[0]) && CanRun(Apply(s, steps[0]), steps[1..])
    ensures CanRun(s, steps) ==> Run(s, steps) == Run(Apply(s, steps[0]), steps[1..])
  {
  }

  /** A WhileOpen that got its read lock runs its callback exactly if the flag is not set when
      it looks, and then releases the lock in either case. */
  lemma CallbackRunsWhileOpen(s: State, t: nat)
    requires PcOf(s, t).Reading?
    ensures var c := PcOf(s, t).c;
      && Enabled(s, LoadFlag(t))
      && (c !in s.closed ==>
            && PcOf(Apply(s, LoadFlag(t)), t) == Running(c)
            && CanRun(s, [LoadFlag(t), CallbackReturns(t), ReadUnlock(t)])
            && PcOf(Run(s, [LoadFlag(t), CallbackReturns(t), ReadUnlock(t)]), t).Idle?)
      && (c in s.closed ==>
            && PcOf(Apply(s, LoadFlag(t)), t) == Leaving(c)
            && CanRun(s, [LoadFlag(t), ReadUnlock(t)]) && PcOf(Run(s, [LoadFlag(t), ReadUnlock(t)]), t).Idle?)
  {
    var a := Apply(s, LoadFlag(t));
    Unrolled(s, [LoadFlag(t), CallbackReturns(t), ReadUnlock(t)]);
    Unrolled(s, [LoadFlag(t), ReadUnlock(t)]);
    if PcOf(s, t).c !in s.closed {
      Unrolled(a, [CallbackReturns(t), ReadUnlock(t)]);
      Unrolled(Apply(a, CallbackReturns(t)), [ReadUnlock(t)]);
    } else {
      Unrolled(a, [ReadUnlock(t)]);
    }
  }

  /** A Close sets the flag, runs the closing function if it was the first to set it, and passes
      the write lock as soon as no other thread is inside; then it has returned. */
  lemma CloseGoesThrough(s: State, t: nat, c: nat)
    requires PcOf(s, t) == MustClose(c) && NoReader(s, c) && NoWriter(s, c)
    ensures var steps := if c in s.closed then [CompareAndSwap(t), WriteLock(t), WriteUnlock(t)]
                         else [CompareAndSwap(t), RunCloseFn(t), WriteLock(t), WriteUnlock(t)];
      && CanRun(s, steps)
      && var later := Run(s, steps);
      && PcOf(later, t).Idle? && c in later.closed && c in later.returned && (c !in s.closed ==> c in later.shut)
      && later.current == s.current
  {
    var a := Apply(s, CompareAndSwap(t));
    if c in s.closed {
      Unrolled(s, [CompareAndSwap(t), WriteLock(t), WriteUnlock(t)]);
      Unrolled(a, [WriteLock(t), WriteUnlock(t)]);
      Unrolled(Apply(a, WriteLock(t)), [WriteUnlock(t)]);
    } else {
      var b := Apply(a, RunCloseFn(t));
      Unrolled(s, [CompareAndSwap(t), RunCloseFn(t), WriteLock(t), WriteUnlock(t)]);
      Unrolled(a, [RunCloseFn(t), WriteLock(t), WriteUnlock(t)]);
      Unrolled(b, [WriteLock(t), WriteUnlock(t)]);
      Unrolled(Apply(b, WriteLock(t)), [WriteUnlock(t)]);
    }
  }

  /** Setting makes the connection current and sends the caller to close the one before it;
      closing the current one takes it out and does the same; removal takes out its own. */
  lemma CallersGoOnToClose(s: State, t: nat, server: int, c: nat)
    requires PcOf(s, t).Idle?
    ensures var s' := Apply(s, Set(t, server, c));
      && server in s'.current && s'.current[server] == c && (forall v :: v != server ==> Current(s'.current, v) == Current(s.current, v))
      && PcOf(s', t) == if server in s.current then MustClose(s.current[server]) else Idle
    ensures var s' := Apply(s, CloseCurrent(t, server));
      && s'.current == s.current - {server}
      && PcOf(s', t) == if server in s.current then MustClose(s.current[server]) else Idle
    ensures var s' := Apply(s, Remove(server, c));
      && s'.current == (if server in s.current && s.current[server] == c then s.current - {server} else s.current)
      && s'.threads == s.threads
    ensures PcOf(Apply(s, Close(t, c)), t) == MustClose(c)
  {
  }
}
