/** Single-flight, cached loading of a snapshot, after loadResult of the monitor source and
    get of the public one; the public source also caches failures. */
module SnapshotLoad {
  import opened Prelude

  /** A snapshot or an error, named by a number. */
  datatype Result = Loaded(snapshot: nat) | Failed(error: nat)

  datatype Fields = Fields(cached: Option<Result>, load: Option<nat>)

  // ------------------------------------------------------------------ critical sections

  datatype Decision = UseCache(result: Result) | Join(load: nat) | Lead

  /** `young` says that the cache is allowed and not older than its time to live. */
  function Decide(f: Fields, young: bool): Decision {
    if young && f.cached.Some? then UseCache(f.cached.value)
    else if f.load.Some? then Join(f.load.value)
    else Lead
  }

  function Begun(f: Fields, young: bool, id: nat): Fields {
    if Decide(f, young).Lead? then f.(load := Some(id)) else f
  }

  function Stored(f: Fields, result: Result, cacheFailures: bool): Fields {
    Fields(if result.Loaded? || cacheFailures then Some(result) else f.cached, None)
  }

  class Source {
    const cacheFailures: bool
    var cached: Option<Result>
    var load: Option<nat>

    ghost function State(): Fields
      reads this
    {
      Fields(cached, load)
    }

    constructor (cacheFailures: bool)
      ensures State() == Fields(None, None) && this.cacheFailures == cacheFailures
    {
      this.cacheFailures := cacheFailures;
      cached, load := None, None;
    }

    method Begin(young: bool, id: nat) returns (d: Decision)
      modifies this
      ensures d == Decide(old(State()), young) && State() == Begun(old(State()), young, id)
      ensures young && old(cached) != None ==> d == UseCache(old(cached).value)
      ensures !(young && old(cached) != None) ==> d == if old(load) != None then Join(old(load).value) else Lead
      ensures State() == if d.Lead? then old(State()).(load := Some(id)) else old(State())
    {
      if young && cached != None {
        return UseCache(cached.value);
      }
      if load != None {
        return Join(load.value);
      }
      load := Some(id);
      d := Lead;
    }

    method Finish(result: Result)
      modifies this
      ensures State() == Stored(old(State()), result, cacheFailures)
      ensures load == None && cached == if result.Loaded? || cacheFailures then Some(result) else old(cached)
    {
      if result.Loaded? || cacheFailures {
        cached := Some(result);
      }
      load := None;
    }
  }

  // ------------------------------------------------------------------ callers

  datatype Pc = Idle | Loading(id: nat) | Waiting(id: nat)

  /** The result of every load, once it has one; who is loading; and every answer a caller
      took from a load. */
  datatype State = State(
    f: Fields, results: seq<Option<Result>>, threads: map<nat, Pc>, loader: Option<nat>, answers: set<(nat, Result)>)

  datatype Step =
    | Call(t: nat, young: bool)
    | LoaderReturns(t: nat, result: Result)
    | WaiterReturns(t: nat)
    | WaiterGivesUp(t: nat)

  function Init(): State {
    State(Fields(None, None), [], map[], None, {})
  }

  function PcOf(s: State, t: nat): Pc {
    if t in s.threads then s.threads[t] else Idle
  }

  predicate Enabled(s: State, step: Step) {
    match step
    case Call(t, _) => PcOf(s, t).Idle?
    case LoaderReturns(t, _) => PcOf(s, t).Loading? && PcOf(s, t).id < |s.results|
    case WaiterReturns(t) => PcOf(s, t).Waiting? && PcOf(s, t).id < |s.results| && s.results[PcOf(s, t).id].Some?
    case WaiterGivesUp(t) => PcOf(s, t).Waiting?
  }

  function With(s: State, t: nat, pc: Pc): State {
    s.(threads := s.threads[t := pc])
  }

  function Apply(cacheFailures: bool, s: State, step: Step): State
    requires Enabled(s, step)
  {
    match step
    case Call(t, young) =>
      var s' := s.(f := Begun(s.f, young, |s.results|));
      (match Decide(s.f, young)
       case UseCache(_) => s'
       case Join(id) => With(s', t, Waiting(id))
       case Lead => With(s'.(results := s.results + [None], loader := Some(t)), t, Loading(|s.results|)))
    case LoaderReturns(t, result) =>
      var id := PcOf(s, t).id;
      With(s.(f := Stored(s.f, result, cacheFailures), results := s.results[id := Some(result)], loader := None,
              answers := s.answers + {(id, result)}), t, Idle)
    case WaiterReturns(t) =>
      With(s.(answers := s.answers + {(PcOf(s, t).id, s.results[PcOf(s, t).id].value)}), t, Idle)
    case WaiterGivesUp(t) => With(s, t, Idle)
  }

  predicate CanRun(cacheFailures: bool, s: State, steps: seq<Step>)
    decreases |steps|
  {
    |steps| == 0 || (Enabled(s, steps[0]) && CanRun(cacheFailures, Apply(cacheFailures, s, steps[0]), steps[1..]))
  }

  function Run(cacheFailures: bool, s: State, steps: seq<Step>): State
    requires CanRun(cacheFailures, s, steps)
    decreases |steps|
  {
    if |steps| == 0 then s else Run(cacheFailures, Apply(cacheFailures, s, steps[0]), steps[1..])
  }

  predicate FlightFits(s: State) {
    && (s.loader.Some? <==> s.f.load.Some?)
    && (s.f.load.Some? ==> s.f.load.value < |s.results| && s.results[s.f.load.value].None?)
    && (s.loader.Some? ==> PcOf(s, s.loader.value) == Loading(s.f.load.value))
    && (forall t :: t in s.threads && s.threads[t].Loading? ==> s.loader == Some(t))
    && (forall t :: t in s.threads && s.threads[t].Waiting? ==>
          s.threads[t].id < |s.results| && (s.results[s.threads[t].id].Some? || s.f.load == Some(s.threads[t].id)))
  }

  predicate AnswersFit(s: State) {
    forall a :: a in s.answers ==> a.0 < |s.results| && s.results[a.0] == Some(a.1)
  }

  predicate CacheFits(cacheFailures: bool, s: State) {
    s.f.cached.Some? ==>
      && (cacheFailures || s.f.cached.value.Loaded?)
      && exists id :: 0 <= id < |s.results| && s.results[id] == s.f.cached
  }

  predicate Inv(cacheFailures: bool, s: State) {
    FlightFits(s) && AnswersFit(s) && CacheFits(cacheFailures, s)
  }

  lemma FlightKept(cacheFailures: bool, s: State, step: Step)
    requires Enabled(s, step) && FlightFits(s)
    ensures FlightFits(Apply(cacheFailures, s, step))
  {
  }

  /** A load that has its result keeps it. */
  lemma ResultsStay(cacheFailures: bool, s: State, step: Step)
    requires Enabled(s, step) && FlightFits(s)
    ensures var s' := Apply(cacheFailures, s, step);
      |s.results| <= |s'.results| && forall id :: 0 <= id < |s.results| && s.results[id].Some? ==> s'.results[id] == s.results[id]
  {
  }

  lemma AnswersKept(cacheFailures: bool, s: State, step: Step)
    requires Enabled(s, step) && FlightFits(s) && AnswersFit(s)
    ensures AnswersFit(Apply(cacheFailures, s, step))
  {
    ResultsStay(cacheFailures, s, step);
  }

  lemma CacheKept(cacheFailures: bool, s: State, step: Step)
    requires Enabled(s, step) && FlightFits(s) && CacheFits(cacheFailures, s)
    ensures CacheFits(cacheFailures, Apply(cacheFailures, s, step))
  {
    var s' := Apply(cacheFailures, s, step);
    ResultsStay(cacheFailures, s, step);
    if step.LoaderReturns? && s'.f.cached == Some(step.result) {
      assert s'.results[PcOf(s, step.t).id] == s'.f.cached;
    } else if s'.f.cached.Some? {
      var id :| 0 <= id < |s.results| && s.results[id] == s.f.cached;
      assert s'.results[id] == s'.f.cached;
    }
  }

  lemma InvKept(cacheFailures: bool, s: State, step: Step)
    requires Enabled(s, step) && Inv(cacheFailures, s)
    ensures Inv(cacheFailures, Apply(cacheFailures, s, step))
  {
    FlightKept(cacheFailures, s, step);
    AnswersKept(cacheFailures, s, step);
    CacheKept(cacheFailures, s, step);
  }

  lemma {:induction false} InvKeptByRun(cacheFailures: bool, s: State, steps: seq<Step>)
    requires CanRun(cacheFailures, s, steps) && Inv(cacheFailures, s)
    ensures Inv(cacheFailures, Run(cacheFailures, s, steps))
    decreases |steps|
  {
    if |steps| > 0 {
      InvKept(cacheFailures, s, steps[0]);
      InvKeptByRun(cacheFailures, Apply(cacheFailures, s, steps[0]), steps[1..]);
    }
  }

  /** At most one loader call is in flight; whoever waits, waits for it or for one that has
      its result; and all callers answered by one load got the same result. */
  lemma SingleFlight(cacheFailures: bool, steps: seq<Step>, t: nat, u: nat)
    requires CanRun(cacheFailures, Init(), steps)
    ensures var s := Run(cacheFailures, Init(), steps);
      && (PcOf(s, t).Loading? && PcOf(s, u).Loading? ==> t == u)
      && (PcOf(s, t).Waiting? ==>
          && PcOf(s, t).id < |s.results|
          && (s.results[PcOf(s, t).id].Some? || (s.loader.Some? && PcOf(s, s.loader.value) == Loading(PcOf(s, t).id))))
      && (forall a, b :: a in s.answers && b in s.answers && a.0 == b.0 ==> a.1 == b.1)
  {
    InvKeptByRun(cacheFailures, Init(), steps);
  }

  /** What is cached came from a load; the monitor source never caches a failure. */
  lemma CacheIsLoaded(cacheFailures: bool, steps: seq<Step>)
    requires CanRun(cacheFailures, Init(), steps)
    ensures var s := Run(cacheFailures, Init(), steps);
      s.f.cached.Some? ==>
        && (!cacheFailures ==> s.f.cached.value.Loaded?)
        && exists id :: 0 <= id < |s.results| && s.results[id] == s.f.cached
  {
    InvKeptByRun(cacheFailures, Init(), steps);
  }

  /** What a call comes to: a young cached result is used and nothing changes; else a load under
      way is waited for; else the caller leads a new one. */
  lemma CallsUseWhatIsThere(cacheFailures: bool, s: State, t: nat, young: bool)
    requires PcOf(s, t).Idle?
    ensures var s', cached := Apply(cacheFailures, s, Call(t, young)), young && s.f.cached.Some?;
      && (cached ==> s' == s && Decide(s.f, young) == UseCache(s.f.cached.value))
      && (!cached && s.f.load.Some? ==> PcOf(s', t) == Waiting(s.f.load.value) && s'.f == s.f && s'.results == s.results)
      && (!cached && s.f.load.None? ==>
            PcOf(s', t) == Loading(|s.results|) && s'.f.load == Some(|s.results|) && s'.f.cached == s.f.cached)
  {
  }

  /** A loader's return ends the load with its result, which it answers, caches if it may, and
      hands to every waiter. */
  lemma LoadsAnswerEverybody(cacheFailures: bool, s: State, t: nat, u: nat, result: Result)
    requires PcOf(s, t).Loading? && PcOf(s, t).id < |s.results|
    ensures var s', id := Apply(cacheFailures, s, LoaderReturns(t, result)), PcOf(s, t).id;
      && Enabled(s, LoaderReturns(t, result)) && PcOf(s', t).Idle? && (id, result) in s'.answers && s'.f.load.None?
      && s'.f.cached == (if result.Loaded? || cacheFailures then Some(result) else s.f.cached)
      && (u != t && PcOf(s, u) == Waiting(id) ==>
            && Enabled(s', WaiterReturns(u))
            && PcOf(Apply(cacheFailures, s', WaiterReturns(u)), u).Idle?
            && (id, result) in Apply(cacheFailures, s', WaiterReturns(u)).answers)
  {
  }

  /** A waiter may also give up, and changes nothing for the others. */
  lemma WaitersMayGiveUp(cacheFailures: bool, s: State, t: nat)
    requires PcOf(s, t).Waiting?
    ensures Apply(cacheFailures, s, WaiterGivesUp(t)) == s.(threads := s.threads[t := Idle])
  {
  }
}
