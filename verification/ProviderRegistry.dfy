/** The in-memory provider registry of internal/oauth/init.go and the pending-state
    store of internal/utils/store/auth_session.go, each as a value with the effect of
    every critical section, and as a class that carries the section out. */
module ProviderRegistry {
  import opened Prelude

  datatype Redirect = Redirect(domain: string, provider: int)

  /** A provider configuration; `rest` stands for the fields no decision looks at. */
  datatype ProviderConfig = ProviderConfig(revision: int, rest: int, redirect: Redirect)

  /** `configs` and `deletedRevisions`. */
  datatype Registry = Registry(configs: map<int, ProviderConfig>, deleted: map<int, int>)

  /** A missing entry of a revision map reads as 0. */
  function RevisionAt(m: map<int, int>, p: int): int {
    if p in m then m[p] else 0
  }

  function Deleted(r: Registry, p: int): int {
    RevisionAt(r.deleted, p)
  }

  // ------------------------------------------------------------------ critical sections

  /** installProviderLocked's two refusals. */
  predicate Installs(r: Registry, p: int, cfg: ProviderConfig) {
    Deleted(r, p) < cfg.revision && (p in r.configs ==> r.configs[p].revision < cfg.revision)
  }

  function InstalledLocked(r: Registry, p: int, cfg: ProviderConfig): Registry {
    if Installs(r, p, cfg) then r.(configs := r.configs[p := cfg]) else r
  }

  /** InstallProvider drops a tombstone the new revision has overtaken, then installs. */
  function Undeleted(r: Registry, p: int, cfg: ProviderConfig): Registry {
    if Deleted(r, p) < cfg.revision then r.(deleted := r.deleted - {p}) else r
  }

  function Installed(r: Registry, p: int, cfg: ProviderConfig): Registry {
    InstalledLocked(Undeleted(r, p, cfg), p, cfg)
  }

  function Removed(r: Registry, p: int, revision: int): Registry {
    Registry(
      if p in r.configs && r.configs[p].revision <= revision then r.configs - {p} else r.configs,
      if Deleted(r, p) < revision then r.deleted[p := revision] else r.deleted)
  }

  /** Snapshot merge, first loop: a provider the snapshot knows but could not build or
      has disabled is tombstoned at the snapshot's revision. */
  predicate Tombstones(r: Registry, built: map<int, ProviderConfig>, known: map<int, int>, p: int) {
    p in known && p !in built && Deleted(r, p) < known[p]
  }

  /** The tombstones once the loop has visited the providers in `done`. */
  function TombstonedBy(r: Registry, built: map<int, ProviderConfig>, known: map<int, int>, done: set<int>): map<int, int> {
    map p | p in r.deleted.Keys + done && (p in r.deleted || Tombstones(r, built, known, p))
      :: if p in done && Tombstones(r, built, known, p) then known[p] else if p in r.deleted then r.deleted[p] else 0
  }

  function TombstoneRevocations(r: Registry, built: map<int, ProviderConfig>, known: map<int, int>, done: set<int>): map<int, int> {
    map p | p in done && Tombstones(r, built, known, p) :: known[p]
  }

  /** Second loop: the snapshot's configurations go through installProviderLocked. */
  predicate BuiltInstalls(r: Registry, built: map<int, ProviderConfig>, p: int) {
    p in built && Installs(r, p, built[p])
  }

  function InstalledBy(r: Registry, built: map<int, ProviderConfig>, done: set<int>): map<int, ProviderConfig> {
    r.configs + map p | p in done && BuiltInstalls(r, built, p) :: built[p]
  }

  function InstallRevocations(r: Registry, built: map<int, ProviderConfig>, done: set<int>): map<int, int> {
    map p | p in done && BuiltInstalls(r, built, p) && 1 < built[p].revision :: built[p].revision - 1
  }

  /** Third loop: what the snapshot left out goes if its tombstone covers it. */
  predicate Outlives(r: Registry, built: map<int, ProviderConfig>, p: int) {
    p in r.configs && (p in built || Deleted(r, p) < r.configs[p].revision)
  }

  function SweptBy(r: Registry, built: map<int, ProviderConfig>, done: set<int>): map<int, ProviderConfig> {
    map p | p in r.configs && (p in done ==> Outlives(r, built, p)) :: r.configs[p]
  }

  /** mergeProviderSnapshot's three loops. */
  function Tombstoned(r: Registry, built: map<int, ProviderConfig>, known: map<int, int>): Registry {
    r.(deleted := TombstonedBy(r, built, known, known.Keys))
  }

  function Merged(r: Registry, built: map<int, ProviderConfig>, known: map<int, int>): Registry {
    var t := Tombstoned(r, built, known);
    var u := t.(configs := InstalledBy(t, built, built.Keys));
    u.(configs := SweptBy(u, built, u.configs.Keys))
  }

  /** The revocations a merge owes once it has released the lock. */
  function Revocations(r: Registry, built: map<int, ProviderConfig>, known: map<int, int>): map<int, int> {
    TombstoneRevocations(r, built, known, known.Keys)
    + InstallRevocations(Tombstoned(r, built, known), built, built.Keys)
  }

  // ------------------------------------------------------------------ what they come to

  /** An install takes effect exactly when its revision is above 0, above the tombstone's, and
      above that of the configuration it replaces; a tombstone it has overtaken goes. */
  lemma InstallLaw(r: Registry, p: int, cfg: ProviderConfig)
    ensures var dead := if p in r.deleted then r.deleted[p] else 0;
      var effective := 0 < cfg.revision && dead < cfg.revision && (p !in r.configs || r.configs[p].revision < cfg.revision);
      var after := Installed(r, p, cfg);
      && after.configs == (if effective then r.configs[p := cfg] else r.configs)
      && after.deleted == (if dead < cfg.revision then r.deleted - {p} else r.deleted)
      && (Installs(Undeleted(r, p, cfg), p, cfg) <==> effective)
  {
  }

  lemma RemoveLaw(r: Registry, p: int, revision: int)
    ensures var dead, after := if p in r.deleted then r.deleted[p] else 0, Removed(r, p, revision);
      && after.configs == (if p in r.configs && r.configs[p].revision <= revision then r.configs - {p} else r.configs)
      && after.deleted == (if dead < revision then r.deleted[p := revision] else r.deleted)
  {
  }

  /** What a merge makes of one provider. One that is known but was not built is tombstoned at
      its known revision, if that is higher; one that was built is installed if it is newer
      than tombstone and configuration; and one that was not built is dropped if its tombstone
      has reached it. It owes the revocations of what it tombstoned, and of everything below
      what it installed. */
  lemma MergeLaw(r: Registry, built: map<int, ProviderConfig>, known: map<int, int>, p: int)
    ensures var after, owed := Merged(r, built, known), Revocations(r, built, known);
      var dead := if p in r.deleted then r.deleted[p] else 0;
      var buries := p in known && p !in built && dead < known[p];
      var installs := p in built && dead < built[p].revision && (p !in r.configs || r.configs[p].revision < built[p].revision);
      var dead' := if buries then known[p] else dead;
      && (p in after.deleted <==> p in r.deleted || buries) && (p in after.deleted ==> after.deleted[p] == dead')
      && (p in after.configs <==>
            if p in built then installs || p in r.configs else p in r.configs && dead' < r.configs[p].revision)
      && (p in after.configs ==> after.configs[p] == if installs then built[p] else r.configs[p])
      && (p in owed <==> buries || (installs && 1 < built[p].revision))
      && (p in owed ==> owed[p] == if buries then known[p] else built[p].revision - 1)
  {
  }

  /** A new domain changes the redirects and nothing else. */
  lemma RefreshLaw(r: Registry, domain: string)
    ensures var after := Refreshed(r, domain);
      && after.deleted == r.deleted && after.configs.Keys == r.configs.Keys
      && forall p :: p in r.configs ==> after.configs[p] == r.configs[p].(redirect := Redirect(domain, p))
  {
  }

  // ------------------------------------------------------------------ their loops

  lemma TombstoneStep(r: Registry, built: map<int, ProviderConfig>, known: map<int, int>, done: set<int>, p: int)
    requires p in known && p !in done && done <= known.Keys
    ensures var before, after := TombstonedBy(r, built, known, done), TombstonedBy(r, built, known, done + {p});
      && after == (if Tombstones(r, built, known, p) then before[p := known[p]] else before)
      && RevisionAt(before, p) == Deleted(r, p)
    ensures var before, after := TombstoneRevocations(r, built, known, done), TombstoneRevocations(r, built, known, done + {p});
      after == (if Tombstones(r, built, known, p) then before[p := known[p]] else before)
  {
  }

  lemma InstallStep(r: Registry, built: map<int, ProviderConfig>, done: set<int>, p: int)
    requires p in built && p !in done && done <= built.Keys
    ensures var before, after := InstalledBy(r, built, done), InstalledBy(r, built, done + {p});
      && after == (if BuiltInstalls(r, built, p) then before[p := built[p]] else before)
      && BuiltInstalls(r.(configs := before), built, p) == BuiltInstalls(r, built, p)
  {
  }

  function Refreshed(r: Registry, domain: string): Registry {
    r.(configs := map p | p in r.configs :: r.configs[p].(redirect := Redirect(domain, p)))
  }

  lemma RevocationStep(r: Registry, built: map<int, ProviderConfig>, done: set<int>, p: int, revoked: map<int, int>)
    requires p in built && p !in done && done <= built.Keys && revoked.Keys !! built.Keys
    ensures var before, after := revoked + InstallRevocations(r, built, done), revoked + InstallRevocations(r, built, done + {p});
      && after == (if BuiltInstalls(r, built, p) && 1 < built[p].revision then before[p := built[p].revision - 1] else before)
      && p !in before
  {
  }

  // ------------------------------------------------------------------ the registry object

  class Providers {
    var configs: map<int, ProviderConfig>
    var deleted: map<int, int>

    ghost function State(): Registry
      reads this
    {
      Registry(configs, deleted)
    }

    constructor ()
      ensures State() == Registry(map[], map[])
    {
      configs, deleted := map[], map[];
    }

    method InstallLocked(p: int, cfg: ProviderConfig) returns (installed: bool)
      modifies this
      ensures State() == InstalledLocked(old(State()), p, cfg)
      ensures installed == Installs(old(State()), p, cfg)
    {
      var revision := RevisionAt(deleted, p);
      if revision >= cfg.revision {
        return false;
      }
      if p in configs && configs[p].revision >= cfg.revision {
        return false;
      }
      configs := configs[p := cfg];
      installed := true;
    }

    /** The critical section of InstallProvider; None is a nil or empty configuration. */
    method Install(p: int, config: Option<ProviderConfig>, domain: string) returns (revoke: Option<int>)
      modifies this
      ensures config.None? ==> State() == old(State()) && revoke.None?
      ensures config.Some? ==>
        var cfg := config.value.(redirect := Redirect(domain, p));
        && State() == Installed(old(State()), p, cfg)
        && revoke == (if Installs(Undeleted(old(State()), p, cfg), p, cfg) && 1 < cfg.revision
                      then Some(cfg.revision - 1) else None)
    {
      if config.None? {
        return None;
      }
      var cfg := config.value.(redirect := Redirect(domain, p));
      var revision := RevisionAt(deleted, p);
      if revision < cfg.revision {
        deleted := deleted - {p};
      }
      var installed := InstallLocked(p, cfg);
      revoke := if installed && 1 < cfg.revision then Some(cfg.revision - 1) else None;
    }

    method Remove(p: int, configRevision: int)
      modifies this
      ensures State() == Removed(old(State()), p, configRevision)
    {
      var revision := RevisionAt(deleted, p);
      if revision < configRevision {
        deleted := deleted[p := configRevision];
      }
      if p in configs && configs[p].revision <= configRevision {
        configs := configs - {p};
      }
    }

    /** First loop of mergeProviderSnapshot, in any iteration order. */
    method Tombstone(built: map<int, ProviderConfig>, known: map<int, int>) returns (revocations: map<int, int>)
      modifies this`deleted
      ensures State() == Tombstoned(old(State()), built, known)
      ensures revocations == TombstoneRevocations(old(State()), built, known, known.Keys)
    {
      ghost var before := State();
      var done: set<int>, todo := {}, known.Keys;
      revocations := map[];
      assert TombstonedBy(before, built, known, {}) == before.deleted;
      while todo != {}
        invariant done + todo == known.Keys && done !! todo
        invariant configs == before.configs
        invariant deleted == TombstonedBy(before, built, known, done)
        invariant revocations == TombstoneRevocations(before, built, known, done)
        decreases todo
      {
        Inhabited(todo);
        var p :| p in todo;
        TombstoneStep(before, built, known, done, p);
        var revision := RevisionAt(deleted, p);
        if p !in built && revision < known[p] {
          deleted := deleted[p := known[p]];
          revocations := revocations[p := known[p]];
        }
        done, todo := done + {p}, todo - {p};
      }
      assert done == known.Keys;
    }

    /** Second loop. */
    method InstallAll(built: map<int, ProviderConfig>, revoked: map<int, int>) returns (revocations: map<int, int>)
      requires revoked.Keys !! built.Keys
      modifies this
      ensures State() == old(State()).(configs := InstalledBy(old(State()), built, built.Keys))
      ensures revocations == revoked + InstallRevocations(old(State()), built, built.Keys)
    {
      ghost var before := State();
      var done: set<int>, todo := {}, built.Keys;
      revocations := revoked;
      assert InstalledBy(before, built, {}) == before.configs;
      while todo != {}
        invariant done + todo == built.Keys && done !! todo
        invariant State() == before.(configs := InstalledBy(before, built, done))
        invariant revocations == revoked + InstallRevocations(before, built, done)
        decreases todo
      {
        Inhabited(todo);
        var p :| p in todo;
        InstallStep(before, built, done, p);
        RevocationStep(before, built, done, p, revoked);
        var installed := InstallLocked(p, built[p]);
        if installed && 1 < built[p].revision {
          var revision := built[p].revision - 1;
          if RevisionAt(revocations, p) < revision {
            revocations := revocations[p := revision];
          }
        }
        done, todo := done + {p}, todo - {p};
      }
      assert done == built.Keys;
    }

    /** Third loop. */
    method Sweep(built: map<int, ProviderConfig>)
      modifies this`configs
      ensures State() == old(State()).(configs := SweptBy(old(State()), built, old(State()).configs.Keys))
    {
      ghost var before := State();
      var keys, done, todo := configs.Keys, {}, configs.Keys;
      while todo != {}
        invariant done + todo == keys && done !! todo
        invariant deleted == before.deleted && keys == before.configs.Keys
        invariant configs == SweptBy(before, built, done)
        decreases todo
      {
        Inhabited(todo);
        var p :| p in todo;
        var revision := RevisionAt(deleted, p);
        if p !in built && configs[p].revision <= revision {
          configs := configs - {p};
        }
        done, todo := done + {p}, todo - {p};
      }
      assert done == keys;
    }

    /** The critical section of mergeProviderSnapshot. */
    method Merge(built: map<int, ProviderConfig>, known: map<int, int>) returns (revocations: map<int, int>)
      modifies this
      ensures State() == Merged(old(State()), built, known)
      ensures revocations == Revocations(old(State()), built, known)
    {
      revocations := Tombstone(built, known);
      revocations := InstallAll(built, revocations);
      Sweep(built);
    }

    method RefreshRedirectURLs(domain: string)
      modifies this`configs
      ensures State() == Refreshed(old(State()), domain)
    {
      ghost var before := configs;
      var keys, done, todo := configs.Keys, {}, configs.Keys;
      while todo != {}
        invariant done + todo == keys && done !! todo
        invariant keys == configs.Keys == before.Keys && deleted == old(deleted)
        invariant forall p :: p in configs && p in done ==> configs[p] == before[p].(redirect := Redirect(domain, p))
        invariant forall p :: p in configs && p !in done ==> configs[p] == before[p]
        decreases todo
      {
        Inhabited(todo);
        var p :| p in todo;
        configs := configs[p := configs[p].(redirect := Redirect(domain, p))];
        done, todo := done + {p}, todo - {p};
      }
      assert done == keys;
    }
  }

  // ------------------------------------------------------------------ pending states

  datatype Pending = Pending(createdAt: int, provider: int, revision: int)

  /** Nanoseconds in ten minutes. */
  const STATE_TTL := 600_000_000_000

  function Revoked(data: map<string, Pending>, p: int, through: int): map<string, Pending> {
    map k | k in data && !(data[k].provider == p && data[k].revision <= through) :: data[k]
  }

  function Unexpired(data: map<string, Pending>, now: int): map<string, Pending> {
    map k | k in data && now - data[k].createdAt <= STATE_TTL :: data[k]
  }

  predicate Consumable(data: map<string, Pending>, state: string, p: int, revision: int, now: int) {
    && state in data
    && data[state].provider == p
    && data[state].revision == revision
    && now - data[state].createdAt <= STATE_TTL
  }

  class PendingStates {
    var data: map<string, Pending>

    constructor ()
      ensures data == map[]
    {
      data := map[];
    }

    method Set(state: string, p: int, revision: int, now: int)
      modifies this
      ensures data == old(data)[state := Pending(now, p, revision)]
    {
      data := data[state := Pending(now, p, revision)];
    }

    /** A state is taken out whether or not it matches, so it answers at most once. */
    method Consume(state: string, p: int, revision: int, now: int) returns (ok: bool)
      modifies this
      ensures data == old(data) - {state}
      ensures ok == Consumable(old(data), state, p, revision, now)
      ensures ok <==> state in old(data) && old(data)[state].provider == p && old(data)[state].revision == revision
                      && now - old(data)[state].createdAt <= 600_000_000_000
    {
      if state !in data {
        return false;
      }
      var entry := data[state];
      data := data - {state};
      ok := entry.provider == p && entry.revision == revision && now - entry.createdAt <= STATE_TTL;
    }

    method Revoke(p: int, through: int)
      modifies this
      ensures data == Revoked(old(data), p, through)
      ensures forall k :: k in data <==> k in old(data) && (old(data)[k].provider != p || through < old(data)[k].revision)
      ensures forall k :: k in data ==> data[k] == old(data)[k]
    {
      var todo := data.Keys;
      while todo != {}
        invariant todo <= old(data).Keys
        invariant data == map k | k in old(data)
          && (k in todo || !(old(data)[k].provider == p && old(data)[k].revision <= through)) :: old(data)[k]
        decreases |todo|
      {
        var k :| k in todo;
        if data[k].provider == p && data[k].revision <= through {
          data := data - {k};
        }
        todo := todo - {k};
      }
    }

    method CleanUp(now: int)
      modifies this
      ensures data == Unexpired(old(data), now)
      ensures forall k :: k in data <==> k in old(data) && now - old(data)[k].createdAt <= 600_000_000_000
      ensures forall k :: k in data ==> data[k] == old(data)[k]
    {
      var todo := data.Keys;
      while todo != {}
        invariant todo <= old(data).Keys
        invariant data == map k | k in old(data) && (k in todo || now - old(data)[k].createdAt <= STATE_TTL) :: old(data)[k]
        decreases |todo|
      {
        var k :| k in todo;
        if now - data[k].createdAt > STATE_TTL {
          data := data - {k};
        }
        todo := todo - {k};
      }
    }
  }
}
