/** The manager of the monitor's snapshot sources: subscribing finds or creates a team's
    source, and the last unsubscribe drops it. Sources are numbered as they are created. */
module SnapshotManager {

  datatype Source = Source(team: int, subscribers: set<nat>)

  /** The map from team to source, every source ever created, and how many channels were. */
  datatype Fields = Fields(sources: map<int, nat>, all: seq<Source>, channels: nat)

  const Init: Fields := Fields(map[], [], 0)

  // ------------------------------------------------------------------ critical sections

  function Found(f: Fields, team: int): Fields {
    if team in f.sources then f
    else f.(sources := f.sources[team := |f.all|], all := f.all + [Source(team, {})])
  }

  predicate Fits(f: Fields) {
    forall team :: team in f.sources ==> f.sources[team] < |f.all| && f.all[f.sources[team]].team == team
  }

  /** Every source with subscribers is the one that its team finds. */
  predicate Kept(f: Fields) {
    forall n :: 0 <= n < |f.all| && f.all[n].subscribers != {} ==>
      f.all[n].team in f.sources && f.sources[f.all[n].team] == n
  }

  function Subscribed(f: Fields, team: int): Fields
    requires Fits(f)
  {
    var g := Found(f, team);
    var n := g.sources[team];
    g.(all := g.all[n := g.all[n].(subscribers := g.all[n].subscribers + {f.channels})], channels := f.channels + 1)
  }

  function Unsubscribed(f: Fields, n: nat, channel: nat): Fields
    requires n < |f.all|
  {
    var source := f.all[n].(subscribers := f.all[n].subscribers - {channel});
    var drop := source.subscribers == {} && source.team in f.sources && f.sources[source.team] == n;
    f.(all := f.all[n := source], sources := if drop then f.sources - {source.team} else f.sources)
  }

  class Manager {
    var sources: map<int, nat>
    var all: seq<Source>
    var channels: nat

    ghost function State(): Fields
      reads this
    {
      Fields(sources, all, channels)
    }

    constructor ()
      ensures State() == Init
    {
      sources, all, channels := map[], [], 0;
    }

    method SourceLocked(team: int) returns (n: nat)
      modifies this
      requires Fits(State())
      ensures State() == Found(old(State()), team) && Fits(State())
      ensures team in sources && n == sources[team]
      ensures team in old(sources) ==> State() == old(State())
      ensures team !in old(sources) ==>
        && n == |old(all)| && sources == old(sources)[team := n] && all == old(all) + [Source(team, {})]
        && channels == old(channels)
    {
      if team in sources {
        return sources[team];
      }
      n := |all|;
      all := all + [Source(team, {})];
      sources := sources[team := n];
    }

    method Subscribe(team: int) returns (n: nat, channel: nat)
      modifies this
      requires Fits(State())
      ensures State() == Subscribed(old(State()), team)
      ensures n < |all| && channel == old(channels) && channel in all[n].subscribers && all[n].team == team
      ensures channels == old(channels) + 1 && team in sources && sources[team] == n
      ensures team in old(sources) ==> n == old(sources)[team] && sources == old(sources) && |all| == |old(all)|
      ensures team !in old(sources) ==> n == |old(all)| && sources == old(sources)[team := n] && |all| == |old(all)| + 1
      ensures all[n].subscribers == (if n < |old(all)| then old(all)[n].subscribers else {}) + {channel}
      ensures forall m :: 0 <= m < |old(all)| && m != n ==> all[m] == old(all)[m]
    {
      n := SourceLocked(team);
      channel := channels;
      all := all[n := all[n].(subscribers := all[n].subscribers + {channel})];
      channels := channels + 1;
    }

    method Unsubscribe(n: nat, channel: nat)
      modifies this
      requires n < |all|
      ensures State() == Unsubscribed(old(State()), n, channel)
      ensures all == old(all)[n := Source(old(all)[n].team, old(all)[n].subscribers - {channel})] && channels == old(channels)
      ensures var team := old(all)[n].team;
        sources == if all[n].subscribers == {} && team in old(sources) && old(sources)[team] == n then old(sources) - {team}
                   else old(sources)
    {
      var source := all[n];
      source := source.(subscribers := source.subscribers - {channel});
      all := all[n := source];
      if source.subscribers == {} && source.team in sources && sources[source.team] == n {
        sources := sources - {source.team};
      }
    }
  }

  // ------------------------------------------------------------------ runs

  datatype Step = Get(team: int) | Subscribe(team: int) | Unsubscribe(n: nat, channel: nat)

  /** An unsubscribe function runs once, for the source and channel it was made with. */
  predicate Enabled(f: Fields, step: Step) {
    step.Unsubscribe? ==> step.n < |f.all| && step.channel in f.all[step.n].subscribers
  }

  function Apply(f: Fields, step: Step): Fields
    requires Fits(f) && Enabled(f, step)
  {
    match step
    case Get(team) => Found(f, team)
    case Subscribe(team) => Subscribed(f, team)
    case Unsubscribe(n, channel) => Unsubscribed(f, n, channel)
  }

  lemma FitsKept(f: Fields, step: Step)
    requires Fits(f) && Enabled(f, step)
    ensures Fits(Apply(f, step))
  {
  }

  lemma KeptKept(f: Fields, step: Step)
    requires Fits(f) && Kept(f) && Enabled(f, step)
    ensures Kept(Apply(f, step))
  {
  }

  ghost predicate CanRun(f: Fields, steps: seq<Step>)
    requires Fits(f)
    decreases |steps|
  {
    |steps| == 0 || (Enabled(f, steps[0]) && (FitsKept(f, steps[0]); CanRun(Apply(f, steps[0]), steps[1..])))
  }

  ghost function Run(f: Fields, steps: seq<Step>): (g: Fields)
    requires Fits(f) && CanRun(f, steps)
    ensures Fits(g)
    decreases |steps|
  {
    if |steps| == 0 then f else (FitsKept(f, steps[0]); Run(Apply(f, steps[0]), steps[1..]))
  }

  lemma {:induction false} KeptByRun(f: Fields, steps: seq<Step>)
    requires Fits(f) && Kept(f) && CanRun(f, steps)
    ensures Kept(Run(f, steps))
    decreases |steps|
  {
    if |steps| > 0 {
      FitsKept(f, steps[0]);
      KeptKept(f, steps[0]);
      KeptByRun(Apply(f, steps[0]), steps[1..]);
    }
  }

  /** All subscribers of a team are on one source, and it is the one the map holds: dropping
      idle sources never splits a team. */
  lemma OneSourcePerTeam(steps: seq<Step>, m: nat, n: nat)
    requires CanRun(Init, steps)
    ensures var f := Run(Init, steps);
      m < |f.all| && n < |f.all| && f.all[m].team == f.all[n].team
      && f.all[m].subscribers != {} && f.all[n].subscribers != {}
      ==> m == n && f.all[m].team in f.sources && f.sources[f.all[m].team] == m
  {
    KeptByRun(Init, steps);
  }

  predicate Retired(f: Fields, n: nat) {
    && n < |f.all| && f.all[n].subscribers == {}
    && !(f.all[n].team in f.sources && f.sources[f.all[n].team] == n)
  }

  /** A source that was dropped is never found again and never has subscribers again. */
  lemma {:induction false} RetiredForGood(f: Fields, steps: seq<Step>, n: nat)
    requires Fits(f) && CanRun(f, steps) && Retired(f, n)
    ensures Retired(Run(f, steps), n)
    decreases |steps|
  {
    if |steps| > 0 {
      FitsKept(f, steps[0]);
      RetiredForGood(Apply(f, steps[0]), steps[1..], n);
    }
  }

  /** What the steps come to: subscribing adds a new channel to the source that the team finds,
      and unsubscribing drops the source exactly if it is left idle and still the team's own. */
  lemma StepsDoTheirPart(f: Fields, team: int, n: nat, channel: nat)
    requires Fits(f)
    ensures var g := Subscribed(f, team);
      && team in g.sources && g.sources[team] < |g.all|
      && g.sources[team] == (if team in f.sources then f.sources[team] else |f.all|)
      && f.channels in g.all[g.sources[team]].subscribers && g.all[g.sources[team]].team == team && g.channels == f.channels + 1
      && (forall v :: v != team ==> (v in g.sources <==> v in f.sources) && (v in f.sources ==> g.sources[v] == f.sources[v]))
    ensures n < |f.all| ==>
      var g, left := Unsubscribed(f, n, channel), f.all[n].subscribers - {channel};
      && |g.all| == |f.all| && g.all[n] == Source(f.all[n].team, left)
      && (f.all[n].team in f.sources && f.sources[f.all[n].team] == n ==> (f.all[n].team in g.sources <==> left != {}))
    ensures Found(f, team).sources == if team in f.sources then f.sources else f.sources[team := |f.all|]
  {
  }
}
