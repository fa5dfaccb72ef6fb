/** Installs, removals, snapshot merges, authorizations and revocations of
    internal/oauth/init.go, interleaved by any number of threads. A change of the
    registry and the revocation that follows it are two separate steps; beginning an
    authorization holds the read lock from reading the configuration to storing the
    `state` parameter (section 4.1.1 of RFC 6749). */
module AuthorizationProtocol {
  import opened ProviderRegistry

  /** Between steps a thread owes revocations, or holds the read lock of BeginAuthorization. */
  datatype Pc =
    | Owing(todo: map<int, int>)
    | Beginning(token: string, provider: int, cfg: ProviderConfig)

  /** `settled` records the (provider, revision) pairs whose change and revocation both ran. */
  datatype State = State(reg: Registry, pending: map<string, Pending>, threads: map<nat, Pc>, settled: set<(int, int)>)

  datatype Step =
    | Install(t: nat, p: int, cfg: ProviderConfig)
    | Remove(t: nat, p: int, revision: int)
    | Merge(t: nat, built: map<int, ProviderConfig>, known: map<int, int>)
    | Refresh(domain: string)
    | Revoke(t: nat, p: int)
    | BeginReads(t: nat, token: string, p: int)
    | BeginStores(t: nat, now: int)
    | Consume(token: string)
    | CleanUp(now: int)

  function Init(): State {
    State(Registry(map[], map[]), map[], map[], {})
  }

  function PcOf(s: State, t: nat): Pc {
    if t in s.threads then s.threads[t] else Owing(map[])
  }

  predicate Idle(s: State, t: nat) {
    PcOf(s, t) == Owing(map[])
  }

  /** The write lock is free of readers. */
  predicate NoReader(s: State) {
    forall t :: t in s.threads ==> !s.threads[t].Beginning?
  }

  predicate Enabled(s: State, step: Step) {
    match step
    case Install(t, _, _) => Idle(s, t) && NoReader(s)
    case Remove(t, _, _) => Idle(s, t) && NoReader(s)
    case Merge(t, _, _) => Idle(s, t) && NoReader(s)
    case Refresh(_) => NoReader(s)
    case Revoke(t, p) => PcOf(s, t).Owing? && p in PcOf(s, t).todo
    case BeginReads(t, _, p) => Idle(s, t) && p in s.reg.configs
    case BeginStores(t, _) => PcOf(s, t).Beginning?
    case Consume(_) => true
    case CleanUp(_) => true
  }

  function With(s: State, t: nat, pc: Pc): State {
    s.(threads := s.threads[t := pc])
  }

  function Apply(s: State, step: Step): State
    requires Enabled(s, step)
  {
    match step
    case Install(t, p, cfg) =>
      var effective := Installs(Undeleted(s.reg, p, cfg), p, cfg);
      var s' := s.(reg := Installed(s.reg, p, cfg));
      if !effective then s'
      else if cfg.revision <= 1 then s'.(settled := s.settled + {(p, cfg.revision - 1)})
      else With(s', t, Owing(map[p := cfg.revision - 1]))
    case Remove(t, p, revision) => With(s.(reg := Removed(s.reg, p, revision)), t, Owing(map[p := revision]))
    case Merge(t, built, known) =>
      With(s.(reg := Merged(s.reg, built, known)), t, Owing(Revocations(s.reg, built, known)))
    case Refresh(domain) => s.(reg := Refreshed(s.reg, domain))
    case Revoke(t, p) =>
      var todo := PcOf(s, t).todo;
      With(s.(pending := Revoked(s.pending, p, todo[p]), settled := s.settled + {(p, todo[p])}), t, Owing(todo - {p}))
    case BeginReads(t, token, p) => With(s, t, Beginning(token, p, s.reg.configs[p]))
    case BeginStores(t, now) =>
      var pc := PcOf(s, t);
      With(s.(pending := s.pending[pc.token := Pending(now, pc.provider, pc.cfg.revision)]), t, Owing(map[]))
    case Consume(token) => s.(pending := s.pending - {token})
    case CleanUp(now) => s.(pending := Unexpired(s.pending, now))
  }

  predicate CanRun(s: State, steps: seq<Step>)
    decreases |steps|
  {
    steps == [] || (Enabled(s, steps[0]) && CanRun(Apply(s, steps[0]), steps[1..]))
  }

  function Run(s: State, steps: seq<Step>): State
    requires CanRun(s, steps)
    decreases |steps|
  {
    if steps == [] then s else Run(Apply(s, steps[0]), steps[1..])
  }

  // ------------------------------------------------------------------ the floor under revisions

  /** No configuration of p at or below r is served, nor can one be installed: either a
      newer one is present, or the tombstone has reached r. */
  predicate Floored(reg: Registry, p: int, r: int) {
    if p in reg.configs then r < reg.configs[p].revision else r <= Deleted(reg, p)
  }

  /** Every served configuration is newer than its provider's tombstone, which is never negative. */
  predicate Sound(reg: Registry) {
    && (forall p :: p in reg.configs ==> Deleted(reg, p) < reg.configs[p].revision)
    && (forall p :: p in reg.deleted ==> 0 < reg.deleted[p])
  }

  lemma InstallKeeps(reg: Registry, q: int, cfg: ProviderConfig, p: int, r: int)
    requires Sound(reg)
    ensures Sound(Installed(reg, q, cfg))
    ensures Floored(reg, p, r) ==> Floored(Installed(reg, q, cfg), p, r)
    ensures Installs(Undeleted(reg, q, cfg), q, cfg) ==> Floored(Installed(reg, q, cfg), q, cfg.revision - 1)
  {
  }

  lemma RemoveKeeps(reg: Registry, q: int, revision: int, p: int, r: int)
    requires Sound(reg)
    ensures Sound(Removed(reg, q, revision))
    ensures Floored(reg, p, r) ==> Floored(Removed(reg, q, revision), p, r)
    ensures Floored(Removed(reg, q, revision), q, revision)
  {
  }

  /** What a merge does to one provider. */
  lemma MergeAt(reg: Registry, built: map<int, ProviderConfig>, known: map<int, int>, p: int)
    ensures var m := Merged(reg, built, known);
      && Deleted(m, p) == (if Tombstones(reg, built, known, p) then known[p] else Deleted(reg, p))
      && (p in m.deleted ==> p in reg.deleted || Tombstones(reg, built, known, p))
      && (p in built ==> (p in m.configs <==> p in reg.configs || Installs(reg, p, built[p])))
      && (p in built && p in m.configs ==> m.configs[p] == if Installs(reg, p, built[p]) then built[p] else reg.configs[p])
      && (p !in built ==> (p in m.configs <==> p in reg.configs && Deleted(m, p) < reg.configs[p].revision))
      && (p !in built && p in m.configs ==> m.configs[p] == reg.configs[p])
  {
    var t := Tombstoned(reg, built, known);
    assert p in built ==> Installs(t, p, built[p]) == Installs(reg, p, built[p]);
  }

  lemma MergeKeeps(reg: Registry, built: map<int, ProviderConfig>, known: map<int, int>, p: int, r: int)
    requires Sound(reg)
    ensures Floored(reg, p, r) ==> Floored(Merged(reg, built, known), p, r)
    ensures var owed := Revocations(reg, built, known); p in owed ==> Floored(Merged(reg, built, known), p, owed[p])
  {
    MergeAt(reg, built, known, p);
  }

  lemma MergeSound(reg: Registry, built: map<int, ProviderConfig>, known: map<int, int>)
    requires Sound(reg)
    ensures Sound(Merged(reg, built, known))
  {
    var m := Merged(reg, built, known);
    forall p
      ensures p in m.configs ==> Deleted(m, p) < m.configs[p].revision
      ensures p in m.deleted ==> 0 < m.deleted[p]
    {
      MergeAt(reg, built, known, p);
    }
  }

  // ------------------------------------------------------------------ the invariant

  /** Nothing pending for p at or below r. */
  predicate Clear(pending: map<string, Pending>, p: int, r: int) {
    forall k :: k in pending && pending[k].provider == p ==> r < pending[k].revision
  }

  /** A thread that owes a revocation has already raised the floor; a thread that is
      beginning holds the configuration still being served. */
  predicate ThreadFits(reg: Registry, pc: Pc) {
    match pc
    case Owing(todo) => forall p :: p in todo ==> Floored(reg, p, todo[p])
    case Beginning(_, p, cfg) => p in reg.configs && reg.configs[p].revision == cfg.revision
  }

  predicate Inv(s: State) {
    && Sound(s.reg)
    && (forall k :: k in s.pending ==> 0 < s.pending[k].revision)
    && (forall t :: t in s.threads ==> ThreadFits(s.reg, s.threads[t]))
    && (forall e :: e in s.settled ==> Floored(s.reg, e.0, e.1) && Clear(s.pending, e.0, e.1))
  }

  /** A registry change keeps the invariant if it keeps every floor and there is no reader. */
  lemma RegistryChange(s: State, reg: Registry)
    requires Inv(s) && NoReader(s) && Sound(reg)
    requires forall p, r :: Floored(s.reg, p, r) ==> Floored(reg, p, r)
    ensures Inv(s.(reg := reg))
  {
  }

  lemma Enter(s: State, t: nat, pc: Pc)
    requires Inv(s) && ThreadFits(s.reg, pc)
    ensures Inv(With(s, t, pc))
  {
  }

  lemma InvKeptByInstall(s: State, t: nat, p: int, cfg: ProviderConfig)
    requires Inv(s) && Enabled(s, Install(t, p, cfg))
    ensures Inv(Apply(s, Install(t, p, cfg)))
  {
    var reg := Installed(s.reg, p, cfg);
    forall q, r {
      InstallKeeps(s.reg, p, cfg, q, r);
    }
    RegistryChange(s, reg);
    InstallKeeps(s.reg, p, cfg, p, 0);
    if Installs(Undeleted(s.reg, p, cfg), p, cfg) {
      if 1 < cfg.revision {
        Enter(s.(reg := reg), t, Owing(map[p := cfg.revision - 1]));
      }
    }
  }

  lemma InvKeptByRemove(s: State, t: nat, p: int, revision: int)
    requires Inv(s) && Enabled(s, Remove(t, p, revision))
    ensures Inv(Apply(s, Remove(t, p, revision)))
  {
    var reg := Removed(s.reg, p, revision);
    forall q, r {
      RemoveKeeps(s.reg, p, revision, q, r);
    }
    RegistryChange(s, reg);
    Enter(s.(reg := reg), t, Owing(map[p := revision]));
  }

  lemma InvKeptByMerge(s: State, t: nat, built: map<int, ProviderConfig>, known: map<int, int>)
    requires Inv(s) && Enabled(s, Merge(t, built, known))
    ensures Inv(Apply(s, Merge(t, built, known)))
  {
    var reg := Merged(s.reg, built, known);
    forall q, r
      ensures Floored(s.reg, q, r) ==> Floored(reg, q, r)
    {
      MergeKeeps(s.reg, built, known, q, r);
    }
    forall q | q in Revocations(s.reg, built, known)
      ensures Floored(reg, q, Revocations(s.reg, built, known)[q])
    {
      MergeKeeps(s.reg, built, known, q, 0);
    }
    MergeSound(s.reg, built, known);
    RegistryChange(s, reg);
    Enter(s.(reg := reg), t, Owing(Revocations(s.reg, built, known)));
  }

  lemma InvKept(s: State, step: Step)
    requires Inv(s) && Enabled(s, step)
    ensures Inv(Apply(s, step))
  {
    match step
    case Install(t, p, cfg) => InvKeptByInstall(s, t, p, cfg);
    case Remove(t, p, revision) => InvKeptByRemove(s, t, p, revision);
    case Merge(t, built, known) => InvKeptByMerge(s, t, built, known);
    case _ =>
  }

  lemma {:induction false} InvKeptByRun(s: State, steps: seq<Step>)
    requires Inv(s) && CanRun(s, steps)
    ensures Inv(Run(s, steps)) && s.settled <= Run(s, steps).settled
    decreases |steps|
  {
    if steps != [] {
      InvKept(s, steps[0]);
      InvKeptByRun(Apply(s, steps[0]), steps[1..]);
    }
  }

  // ------------------------------------------------------------------ main results

  /** Once a removal through revision r (or an effective install of r + 1, or a merge that
      did either) has finished both phases, no later state of any run serves a configuration
      at or below r or holds a pending state at or below r; so none can be consumed. */
  lemma RevokedForGood(steps: seq<Step>, more: seq<Step>, p: int, r: int)
    requires CanRun(Init(), steps) && CanRun(Run(Init(), steps), more)
    requires (p, r) in Run(Init(), steps).settled
    ensures var s := Run(Run(Init(), steps), more);
      && (p in s.reg.configs ==> r < s.reg.configs[p].revision)
      && (forall k :: k in s.pending && s.pending[k].provider == p ==> r < s.pending[k].revision)
      && (forall k, revision, now :: revision <= r ==> !Consumable(s.pending, k, p, revision, now))
  {
    InvKeptByRun(Init(), steps);
    InvKeptByRun(Run(Init(), steps), more);
  }

  /** A revocation that a thread owes stays owed, and at the same revision, until the thread
      makes it; and then it is settled. */
  lemma {:induction false} OwedSettles(s: State, t: nat, p: int, meanwhile: seq<Step>)
    requires CanRun(s, meanwhile) && PcOf(s, t).Owing? && p in PcOf(s, t).todo
    requires forall i :: 0 <= i < |meanwhile| ==> meanwhile[i] != Revoke(t, p)
    ensures var u := Run(s, meanwhile);
      Enabled(u, Revoke(t, p)) && (p, PcOf(s, t).todo[p]) in Apply(u, Revoke(t, p)).settled
    decreases |meanwhile|
  {
    if |meanwhile| > 0 {
      assert meanwhile[0] != Revoke(t, p);
      var s' := Apply(s, meanwhile[0]);
      assert PcOf(s', t).Owing? && p in PcOf(s', t).todo && PcOf(s', t).todo[p] == PcOf(s, t).todo[p];
      OwedSettles(s', t, p, meanwhile[1..]);
    }
  }

  /** A removal, anything that happens meanwhile, then its revocation: settled. */
  lemma RemovalSettles(s: State, t: nat, p: int, r: int, meanwhile: seq<Step>)
    requires Enabled(s, Remove(t, p, r)) && CanRun(Apply(s, Remove(t, p, r)), meanwhile)
    requires forall i :: 0 <= i < |meanwhile| ==> meanwhile[i] != Revoke(t, p)
    ensures var u := Run(Apply(s, Remove(t, p, r)), meanwhile);
      Enabled(u, Revoke(t, p)) && (p, r) in Apply(u, Revoke(t, p)).settled
  {
    OwedSettles(Apply(s, Remove(t, p, r)), t, p, meanwhile);
  }

  /** An effective install of r + 1 and its revocation settle r; of revision 1 or less, which
      owes no revocation, there is nothing older to revoke. */
  lemma InstallSettles(s: State, t: nat, p: int, cfg: ProviderConfig, meanwhile: seq<Step>)
    requires Enabled(s, Install(t, p, cfg)) && Installs(Undeleted(s.reg, p, cfg), p, cfg)
    requires CanRun(Apply(s, Install(t, p, cfg)), meanwhile)
    requires forall i :: 0 <= i < |meanwhile| ==> meanwhile[i] != Revoke(t, p)
    ensures var u := Run(Apply(s, Install(t, p, cfg)), meanwhile);
      if cfg.revision <= 1 then (p, cfg.revision - 1) in Apply(s, Install(t, p, cfg)).settled
      else Enabled(u, Revoke(t, p)) && (p, cfg.revision - 1) in Apply(u, Revoke(t, p)).settled
  {
    if cfg.revision > 1 {
      OwedSettles(Apply(s, Install(t, p, cfg)), t, p, meanwhile);
    }
  }

  /** Every revocation that a merge owes settles its revision, in any order among themselves. */
  lemma MergeSettles(
      s: State, t: nat, built: map<int, ProviderConfig>, known: map<int, int>, p: int, meanwhile: seq<Step>)
    requires Enabled(s, Merge(t, built, known)) && p in Revocations(s.reg, built, known)
    requires CanRun(Apply(s, Merge(t, built, known)), meanwhile)
    requires forall i :: 0 <= i < |meanwhile| ==> meanwhile[i] != Revoke(t, p)
    ensures var u := Run(Apply(s, Merge(t, built, known)), meanwhile);
      Enabled(u, Revoke(t, p)) && (p, Revocations(s.reg, built, known)[p]) in Apply(u, Revoke(t, p)).settled
  {
    OwedSettles(Apply(s, Merge(t, built, known)), t, p, meanwhile);
  }

  /** A tombstone alone does not carry the result: there is a run in which the one left by
      a removal is discarded and the floor is then held by the configuration that replaced it. */
  lemma TombstonesAreDiscarded()
    ensures exists steps ::
      && CanRun(Init(), steps)
      && var s := Run(Init(), steps);
         (7, 3) in s.settled && 7 !in s.reg.deleted && 7 in s.reg.configs && s.reg.configs[7].revision == 4
  {
    var cfg := ProviderConfig(4, 0, Redirect("", 7));
    var steps := [Remove(0, 7, 3), Revoke(0, 7), Install(0, 7, cfg)];
    var s1 := Apply(Init(), steps[0]);
    var s2 := Apply(s1, steps[1]);
    assert PcOf(s2, 0).todo == map[];
    var s3 := Apply(s2, steps[2]);
    assert steps[1..][1..] == [steps[2]] && steps[1..][1..][1..] == [];
    assert CanRun(s2, [steps[2]]) && Run(s2, [steps[2]]) == s3;
    assert CanRun(s1, steps[1..]) && Run(s1, steps[1..]) == s3;
    assert CanRun(Init(), steps) && Run(Init(), steps) == s3;
  }

  // ------------------------------------------------------------------ how long a state lives

  /** The step stores a new state under this token. */
  predicate Stores(s: State, step: Step, token: string) {
    step.BeginStores? && PcOf(s, step.t).Beginning? && PcOf(s, step.t).token == token
  }

  /** The step takes this pending state away: it is consumed, its revision is revoked, or it is
      found expired. */
  predicate TakesAway(s: State, step: Step, token: string, e: Pending) {
    || step == Consume(token)
    || (step.Revoke? && step.p == e.provider && PcOf(s, step.t).Owing?
        && step.p in PcOf(s, step.t).todo && e.revision <= PcOf(s, step.t).todo[step.p])
    || (step.CleanUp? && step.now - e.createdAt > 600_000_000_000)
  }

  predicate Stored(s: State, steps: seq<Step>, token: string)
    requires CanRun(s, steps)
    decreases |steps|
  {
    |steps| > 0 && (Stores(s, steps[0], token) || Stored(Apply(s, steps[0]), steps[1..], token))
  }

  predicate TakenAway(s: State, steps: seq<Step>, token: string, e: Pending)
    requires CanRun(s, steps)
    decreases |steps|
  {
    |steps| > 0 && (TakesAway(s, steps[0], token, e) || TakenAway(Apply(s, steps[0]), steps[1..], token, e))
  }

  lemma {:induction false} GoneStaysGone(s: State, steps: seq<Step>, token: string)
    requires CanRun(s, steps) && token !in s.pending && !Stored(s, steps, token)
    ensures token !in Run(s, steps).pending
    decreases |steps|
  {
    if |steps| > 0 {
      GoneStaysGone(Apply(s, steps[0]), steps[1..], token);
    }
  }

  /** A pending state that is not replaced is accepted later exactly for its own provider and
      revision, within ten minutes of its making, and if nothing took it away before. */
  lemma {:induction false} AcceptedWithinTenMinutes(s: State, steps: seq<Step>, token: string, p: int, revision: int, now: int)
    requires CanRun(s, steps) && token in s.pending && !Stored(s, steps, token)
    ensures Consumable(Run(s, steps).pending, token, p, revision, now) <==>
      && p == s.pending[token].provider && revision == s.pending[token].revision
      && now - s.pending[token].createdAt <= 600_000_000_000
      && !TakenAway(s, steps, token, s.pending[token])
    decreases |steps|
  {
    if |steps| > 0 {
      var s', e := Apply(s, steps[0]), s.pending[token];
      if TakesAway(s, steps[0], token, e) {
        assert token !in s'.pending;
        GoneStaysGone(s', steps[1..], token);
      } else {
        assert token in s'.pending && s'.pending[token] == e;
        AcceptedWithinTenMinutes(s', steps[1..], token, p, revision, now);
      }
    }
  }

  /** Storing: the state carries the clock, and the provider and revision that were read. */
  lemma BeginStoresWhatItRead(s: State, t: nat, now: int)
    requires Enabled(s, BeginStores(t, now))
    ensures var pc := PcOf(s, t);
      Apply(s, BeginStores(t, now)).pending == s.pending[pc.token := Pending(now, pc.provider, pc.cfg.revision)]
  {
  }

  /** An authorization begins only with a configuration that is served, and keeps others from
      changing the registry until its state is stored. */
  lemma BeginReadsWhatIsServed(s: State, t: nat, token: string, p: int)
    requires Enabled(s, BeginReads(t, token, p))
    ensures p in s.reg.configs && PcOf(Apply(s, BeginReads(t, token, p)), t) == Beginning(token, p, s.reg.configs[p])
    ensures !NoReader(Apply(s, BeginReads(t, token, p)))
  {
    var s' := Apply(s, BeginReads(t, token, p));
    assert s'.threads[t].Beginning?;
  }

  // ------------------------------------------------------------------ what each call does

  /** The calls change the registry as their critical sections say, and owe exactly the
      revocations of what they made obsolete. */
  lemma CallsDoTheirPart(s: State, t: nat, p: int, cfg: ProviderConfig, revision: int, built: map<int, ProviderConfig>, known: map<int, int>)
    requires Idle(s, t) && NoReader(s)
    ensures var s' := Apply(s, Install(t, p, cfg));
      && s'.reg == Installed(s.reg, p, cfg) && s'.pending == s.pending
      && PcOf(s', t) == Owing(if Installs(Undeleted(s.reg, p, cfg), p, cfg) && 1 < cfg.revision then map[p := cfg.revision - 1] else map[])
    ensures var s' := Apply(s, Remove(t, p, revision));
      s'.reg == Removed(s.reg, p, revision) && s'.pending == s.pending && PcOf(s', t) == Owing(map[p := revision])
    ensures var s' := Apply(s, Merge(t, built, known));
      s'.reg == Merged(s.reg, built, known) && s'.pending == s.pending && PcOf(s', t) == Owing(Revocations(s.reg, built, known))
  {
  }

  lemma RefreshDoesItsPart(s: State, domain: string)
    requires NoReader(s)
    ensures Apply(s, Refresh(domain)) == s.(reg := Refreshed(s.reg, domain))
  {
  }

  /** A revocation removes exactly the provider's pending states through its revision. */
  lemma RevokeDoesItsPart(s: State, t: nat, p: int)
    requires Enabled(s, Revoke(t, p))
    ensures var s', r := Apply(s, Revoke(t, p)), PcOf(s, t).todo[p];
      && s'.reg == s.reg
      && (forall k :: k in s'.pending <==> k in s.pending && (s.pending[k].provider != p || r < s.pending[k].revision))
      && (forall k :: k in s'.pending ==> s'.pending[k] == s.pending[k])
  {
  }
}
