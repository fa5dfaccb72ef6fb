/** The poll loop of a snapshot source, after the two snapshot.go files: subscribing starts
    it, the last unsubscribe closes its stop channel, and a loop that ends while there are
    subscribers starts its own successor. Loops and stop channels are numbered together. */
module PollLoop {
  import opened Prelude

  /** The fields the mutex guards; a subscriber is its channel. */
  datatype Fields = Fields(subscribers: set<nat>, loopStop: Option<nat>, loopRunning: bool)

  // ------------------------------------------------------------------ critical sections

  function Subscribed(f: Fields, sub: nat, stop: nat): Fields {
    if f.loopRunning then f.(subscribers := f.subscribers + {sub})
    else Fields(f.subscribers + {sub}, Some(stop), true)
  }

  /** unsubscribeLocked; the channel to close is loopStop, if this was the last one out. */
  predicate LastOut(f: Fields, sub: nat) {
    f.subscribers - {sub} == {}
  }

  function Unsubscribed(f: Fields, sub: nat): Fields {
    f.(subscribers := f.subscribers - {sub}, loopStop := if LastOut(f, sub) then None else f.loopStop)
  }

  function ToClose(f: Fields, sub: nat): Option<nat> {
    if LastOut(f, sub) then f.loopStop else None
  }

  /** The deferred section of run. */
  function LoopEnded(f: Fields, nextStop: nat): Fields {
    if f.subscribers != {} then f.(loopStop := Some(nextStop), loopRunning := true) else f.(loopRunning := false)
  }

  class Source {
    var subscribers: set<nat>
    var loopStop: Option<nat>
    var loopRunning: bool
    var loadCancel: Option<nat>   // of the load under way; only the monitor source keeps it

    ghost function State(): Fields
      reads this
    {
      Fields(subscribers, loopStop, loopRunning)
    }

    constructor ()
      ensures State() == Fields({}, None, false)
    {
      subscribers, loopStop, loopRunning, loadCancel := {}, None, false, None;
    }

    method SubscribeLocked(sub: nat, stop: nat) returns (starts: bool)
      modifies this
      ensures State() == Subscribed(old(State()), sub, stop) && starts == !old(loopRunning)
      ensures loadCancel == old(loadCancel)
      ensures subscribers == old(subscribers) + {sub} && loopRunning
      ensures loopStop == if old(loopRunning) then old(loopStop) else Some(stop)
    {
      subscribers := subscribers + {sub};
      starts := !loopRunning;
      if !loopRunning {
        loopStop := Some(stop);
        loopRunning := true;
      }
    }

    method UnsubscribeLocked(sub: nat) returns (idle: bool, toClose: Option<nat>, toCancel: Option<nat>)
      modifies this
      ensures State() == Unsubscribed(old(State()), sub)
      ensures idle == LastOut(old(State()), sub) && toClose == ToClose(old(State()), sub)
      ensures toCancel == (if idle then loadCancel else None) && loadCancel == old(loadCancel)
      ensures subscribers == old(subscribers) - {sub} && loopRunning == old(loopRunning) && (idle <==> subscribers == {})
      ensures loopStop == (if idle then None else old(loopStop)) && toClose == (if idle then old(loopStop) else None)
    {
      subscribers := subscribers - {sub};
      toClose := None;
      if subscribers != {} {
        return false, None, None;
      }
      if loopStop != None {
        toClose := loopStop;
        loopStop := None;
      }
      idle, toCancel := true, loadCancel;
    }

    method EndLoop(nextStop: nat) returns (restarts: bool)
      modifies this
      ensures State() == LoopEnded(old(State()), nextStop) && restarts == (old(subscribers) != {})
      ensures loadCancel == old(loadCancel) && subscribers == old(subscribers) && loopRunning == restarts
      ensures loopStop == if restarts then Some(nextStop) else old(loopStop)
    {
      loopRunning := false;
      if subscribers != {} {
        loopStop := Some(nextStop);
        loopRunning := true;
      }
      restarts := subscribers != {};
    }
  }

  // ------------------------------------------------------------------ loops

  /** Where a loop stands: at its select, loading, with a result to broadcast, on its way to
      the deferred section, or gone. */
  datatype LoopPc = Selecting | Loading | Loaded | Exiting | Gone

  /** The fields, the state of every loop ever started, the stop channels closed, whether one
      was closed twice, and which loop is alive. */
  datatype State = State(f: Fields, loops: seq<LoopPc>, closed: set<nat>, closedTwice: bool, alive: Option<nat>)

  datatype Step =
    | Subscribe(sub: nat)
    | Unsubscribe(sub: nat)
    | SeeStop(l: nat)
    | Tick(l: nat)
    | LoadReturns(l: nat)
    | DropResult(l: nat)       // only the monitor source looks at stop again before it broadcasts
    | BroadcastDone(l: nat)
    | EndLoop(l: nat)

  function Init(): State {
    State(Fields({}, None, false), [], {}, false, None)
  }

  predicate At(s: State, l: nat, pc: LoopPc) {
    l < |s.loops| && s.loops[l] == pc
  }

  /** An unsubscribe function runs once, so its subscriber is still there. */
  predicate Enabled(s: State, step: Step) {
    match step
    case Subscribe(sub) => sub !in s.f.subscribers
    case Unsubscribe(sub) => sub in s.f.subscribers
    case SeeStop(l) => At(s, l, Selecting) && l in s.closed
    case Tick(l) => At(s, l, Selecting)
    case LoadReturns(l) => At(s, l, Loading)
    case DropResult(l) => At(s, l, Loaded) && l in s.closed
    case BroadcastDone(l) => At(s, l, Loaded)
    case EndLoop(l) => At(s, l, Exiting)
  }

  function Goto(s: State, l: nat, pc: LoopPc): State
    requires l < |s.loops|
  {
    s.(loops := s.loops[l := pc])
  }

  function Spawned(s: State): State {
    s.(loops := s.loops + [Selecting], alive := Some(|s.loops|))
  }

  function ClosedChannel(s: State, c: Option<nat>): State {
    match c
    case None => s
    case Some(stop) => s.(closed := s.closed + {stop}, closedTwice := s.closedTwice || stop in s.closed)
  }

  function Apply(s: State, step: Step): State
    requires Enabled(s, step)
  {
    match step
    case Subscribe(sub) =>
      var s' := s.(f := Subscribed(s.f, sub, |s.loops|));
      if s.f.loopRunning then s' else Spawned(s')
    case Unsubscribe(sub) => ClosedChannel(s.(f := Unsubscribed(s.f, sub)), ToClose(s.f, sub))
    case SeeStop(l) => Goto(s, l, Exiting)
    case Tick(l) => Goto(s, l, Loading)
    case LoadReturns(l) => Goto(s, l, Loaded)
    case DropResult(l) => Goto(s, l, Exiting)
    case BroadcastDone(l) => Goto(s, l, Selecting)
    case EndLoop(l) =>
      var s' := Goto(s.(f := LoopEnded(s.f, |s.loops|), alive := None), l, Gone);
      if s.f.subscribers != {} then Spawned(s') else s'
  }

  predicate CanRun(s: State, steps: seq<Step>)
    decreases |steps|
  {
    |steps| == 0 || (Enabled(s, steps[0]) && CanRun(Apply(s, steps[0]), steps[1..]))
  }

  function Run(s: State, steps: seq<Step>): State
    requires CanRun(s, steps)
    decreases |steps|
  {
    if |steps| == 0 then s else Run(Apply(s, steps[0]), steps[1..])
  }

  // ------------------------------------------------------------------ the invariant

  predicate Inv(s: State) {
    && !s.closedTwice
    && (s.f.loopRunning <==> s.alive.Some?)
    && (s.alive.Some? ==> s.alive.value < |s.loops|)
    && (forall l :: 0 <= l < |s.loops| ==> (s.loops[l] != Gone <==> s.alive == Some(l)))
    && (forall c :: c in s.closed ==> c < |s.loops|)
    && (s.f.loopStop.Some? ==> s.f.loopStop == s.alive && s.f.loopStop.value !in s.closed)
    && (s.alive.Some? && s.f.loopStop.None? ==> s.alive.value in s.closed)
    && (s.f.subscribers != {} ==> s.f.loopRunning)
    && (s.f.subscribers == {} ==> s.f.loopStop.None?)
    && (forall l :: 0 <= l < |s.loops| && s.loops[l] == Exiting ==> l in s.closed)
  }

  lemma InvKept(s: State, step: Step)
    requires Enabled(s, step) && Inv(s)
    ensures Inv(Apply(s, step))
  {
  }

  lemma {:induction false} InvKeptByRun(s: State, steps: seq<Step>)
    requires CanRun(s, steps) && Inv(s)
    ensures Inv(Run(s, steps))
    decreases |steps|
  {
    if |steps| > 0 {
      InvKept(s, steps[0]);
      InvKeptByRun(Apply(s, steps[0]), steps[1..]);
    }
  }

  // ------------------------------------------------------------------ main results

  /** `loopRunning` holds exactly when a loop is alive, and never more than one is; a stop
      channel in the field belongs to that loop and is open; none is ever closed twice. */
  lemma OneLoop(steps: seq<Step>, k: nat, l: nat)
    requires CanRun(Init(), steps)
    ensures var s := Run(Init(), steps);
      && (s.f.loopRunning <==> exists m :: 0 <= m < |s.loops| && s.loops[m] != Gone)
      && (k < |s.loops| && l < |s.loops| && s.loops[k] != Gone && s.loops[l] != Gone ==> k == l)
      && (s.f.loopStop == Some(l) ==> l < |s.loops| && s.loops[l] != Gone && l !in s.closed)
      && !s.closedTwice
  {
    InvKeptByRun(Init(), steps);
  }

  /** Subscribers are never left without a loop: one is alive, and either its stop channel is
      open or it has been told to stop, and then its last section starts a successor whose
      channel is open. */
  lemma SubscribersAreServed(steps: seq<Step>, l: nat)
    requires CanRun(Init(), steps) && Run(Init(), steps).f.subscribers != {}
    ensures var s := Run(Init(), steps);
      && s.alive.Some? && s.alive.value < |s.loops| && s.loops[s.alive.value] != Gone
      && (s.f.loopStop == s.alive || s.alive.value in s.closed)
      && (Enabled(s, EndLoop(l)) ==>
            var s' := Apply(s, EndLoop(l));
            s'.f.loopStop == s'.alive && s'.alive == Some(|s.loops|) && |s.loops| !in s'.closed && s'.loops[|s.loops|] == Selecting)
  {
    InvKeptByRun(Init(), steps);
  }

  /** Without subscribers a loop that is still alive has been told to stop, and ends for good. */
  lemma IdleSourceStops(steps: seq<Step>, l: nat)
    requires CanRun(Init(), steps) && Run(Init(), steps).f.subscribers == {}
    ensures var s := Run(Init(), steps);
      && (s.alive.Some? ==> s.alive.value in s.closed)
      && (Enabled(s, EndLoop(l)) ==> !Apply(s, EndLoop(l)).f.loopRunning && Apply(s, EndLoop(l)).alive.None?)
  {
    InvKeptByRun(Init(), steps);
  }

  // ------------------------------------------------------------------ loops do their work

  /** A loop at its select can always tick; a tick loads, the result is broadcast unless the
      loop has been told to stop, and the loop is back at its select. */
  lemma LoopGoesOn(s: State, l: nat)
    requires At(s, l, Selecting)
    ensures Enabled(s, Tick(l)) && At(Apply(s, Tick(l)), l, Loading)
    ensures var loading := Apply(s, Tick(l));
      && Enabled(loading, LoadReturns(l))
      && var loaded := Apply(loading, LoadReturns(l));
      && At(loaded, l, Loaded) && (Enabled(loaded, DropResult(l)) <==> l in s.closed)
      && Enabled(loaded, BroadcastDone(l)) && Apply(loaded, BroadcastDone(l)) == s
  {
    assert Apply(Apply(Apply(s, Tick(l)), LoadReturns(l)), BroadcastDone(l)).loops == s.loops;
  }

  /** Once its channel is closed it can leave, from the select or before a broadcast, and then
      ends. */
  lemma StoppedLoopEnds(s: State, l: nat)
    requires l in s.closed
    ensures At(s, l, Selecting) ==> Enabled(s, SeeStop(l)) && At(Apply(s, SeeStop(l)), l, Exiting)
    ensures At(s, l, Loaded) ==> Enabled(s, DropResult(l)) && At(Apply(s, DropResult(l)), l, Exiting)
    ensures At(s, l, Exiting) ==> Enabled(s, EndLoop(l)) && At(Apply(s, EndLoop(l)), l, Gone)
  {
  }

  /** Subscribing starts a loop exactly if none runs, and the last one out tells it to stop. */
  lemma SubscribersDriveTheLoop(s: State, sub: nat)
    ensures sub !in s.f.subscribers ==>
      var s' := Apply(s, Subscribe(sub));
      && s'.f.subscribers == s.f.subscribers + {sub}
      && s'.loops == if s.f.loopRunning then s.loops else s.loops + [Selecting]
    ensures sub in s.f.subscribers ==>
      var s' := Apply(s, Unsubscribe(sub));
      && s'.f.subscribers == s.f.subscribers - {sub} && s'.loops == s.loops
      && s'.closed == (if s.f.subscribers == {sub} && s.f.loopStop.Some? then s.closed + {s.f.loopStop.value} else s.closed)
  {
  }
}
