/** The provider and identity tables of internal/db/oauth.go. Each transaction locks the
    provider row it reads, so it is one step on the two tables; a failed one changes nothing. */
module IdentityStore {

  /** The fields whose change starts a new identity namespace. */
  datatype Namespace = Namespace(
    protocol: string, issuerURL: string, authURL: string, tokenURL: string,
    userinfoURL: string, subjectField: string, clientID: string)

  datatype Provider = Provider(ns: Namespace, version: int, revision: int, enabled: bool)

  datatype Identity = Identity(user: int, provider: int, subject: string, quarantined: bool)

  /** Row ids come from sequences and are never issued twice. */
  datatype Tables = Tables(
    providers: map<int, Provider>, identities: map<int, Identity>, nextProvider: int, nextIdentity: int)

  datatype Error =
    | NoRows
    | NamespaceLocked
    | NamespaceChanged
    | VersionExhausted
    | RevisionExhausted
    | AlreadyLinked
    | InvalidSubject

  datatype Result<T> = Ok(value: T) | Err(error: Error)

  const MAX_INT64 := 0x7fff_ffff_ffff_ffff
  const MAX_SUBJECT_BYTES := 255

  predicate IsSpace(c: char) {
    c == ' ' || c == '\t' || c == '\n' || c == '\r' || c == 11 as char || c == 12 as char
  }

  predicate ValidSubject(subject: string) {
    && subject != "" && subject != "0" && |subject| <= MAX_SUBJECT_BYTES
    && !IsSpace(subject[0]) && !IsSpace(subject[|subject| - 1])
  }

  // ------------------------------------------------------------------ transactions on values

  function Created(t: Tables, ns: Namespace, enabled: bool): Tables {
    t.(providers := t.providers[t.nextProvider := Provider(ns, 1, 1, enabled)], nextProvider := t.nextProvider + 1)
  }

  predicate HasActiveIdentity(t: Tables, p: int) {
    exists i :: i in t.identities && t.identities[i].provider == p && !t.identities[i].quarantined
  }

  function UpdateError(t: Tables, p: int, ns: Namespace): Result<int> {
    if p !in t.providers then Err(NoRows)
    else if t.providers[p].ns != ns && HasActiveIdentity(t, p) then Err(NamespaceLocked)
    else if t.providers[p].ns != ns && t.providers[p].version == MAX_INT64 then Err(VersionExhausted)
    else if t.providers[p].revision == MAX_INT64 then Err(RevisionExhausted)
    else Ok(t.providers[p].revision + 1)
  }

  /** A new namespace takes a new version and forgets the quarantined bindings. */
  function Updated(t: Tables, p: int, ns: Namespace, enabled: bool): Tables {
    if UpdateError(t, p, ns).Err? then t
    else
      var row := t.providers[p];
      var changed := row.ns != ns;
      t.(providers := t.providers[p := Provider(ns, if changed then row.version + 1 else row.version, row.revision + 1, enabled)],
         identities := if changed
                       then map i | i in t.identities && !(t.identities[i].provider == p && t.identities[i].quarantined) :: t.identities[i]
                       else t.identities)
  }

  function Removed(t: Tables, p: int): Tables {
    if p !in t.providers then t
    else t.(providers := t.providers - {p},
            identities := map i | i in t.identities && t.identities[i].provider != p :: t.identities[i])
  }

  /** The test both login and linking make on the locked provider row. */
  predicate Accepts(t: Tables, p: int, version: int, revision: int) {
    p in t.providers && t.providers[p].version == version && t.providers[p].revision == revision && t.providers[p].enabled
  }

  predicate Conflicts(t: Tables, user: int, p: int, subject: string) {
    exists i :: i in t.identities && t.identities[i].provider == p
      && (t.identities[i].subject == subject || (t.identities[i].user == user && !t.identities[i].quarantined))
  }

  function LinkError(t: Tables, user: int, p: int, version: int, revision: int, subject: string): Result<int> {
    if !ValidSubject(subject) then Err(InvalidSubject)
    else if p !in t.providers then Err(NoRows)
    else if !Accepts(t, p, version, revision) then Err(NamespaceChanged)
    else if Conflicts(t, user, p, subject) then Err(AlreadyLinked)
    else Ok(t.nextIdentity)
  }

  function Linked(t: Tables, user: int, p: int, version: int, revision: int, subject: string): Tables {
    if LinkError(t, user, p, version, revision, subject).Err? then t
    else t.(identities := t.identities[t.nextIdentity := Identity(user, p, subject, false)], nextIdentity := t.nextIdentity + 1)
  }

  predicate Matches(t: Tables, i: int, p: int, subject: string) {
    && i in t.identities && t.identities[i].provider == p && t.identities[i].subject == subject
    && !t.identities[i].quarantined && subject != "0"
  }

  /** What a login lookup may answer. */
  ghost predicate LookupAnswers(t: Tables, p: int, version: int, revision: int, subject: string, r: Result<int>) {
    if p !in t.providers then r == Err(NoRows)
    else if !Accepts(t, p, version, revision) then r == Err(NamespaceChanged)
    else match r
      case Ok(i) => Matches(t, i, p, subject)
      case Err(e) => e == NoRows && forall i :: !Matches(t, i, p, subject)
  }

  function Unlinked(t: Tables, p: int, user: int): Tables {
    t.(identities := map i | i in t.identities && !(t.identities[i].provider == p && t.identities[i].user == user) :: t.identities[i])
  }

  // ------------------------------------------------------------------ the tables as an object

  class Database {
    var providers: map<int, Provider>
    var identities: map<int, Identity>
    var nextProvider: int
    var nextIdentity: int

    ghost function State(): Tables
      reads this
    {
      Tables(providers, identities, nextProvider, nextIdentity)
    }

    constructor ()
      ensures State() == Tables(map[], map[], 1, 1)
    {
      providers, identities, nextProvider, nextIdentity := map[], map[], 1, 1;
    }

    method CreateProvider(ns: Namespace, enabled: bool) returns (id: int, version: int, revision: int)
      modifies this
      ensures State() == Created(old(State()), ns, enabled)
      ensures id == old(nextProvider) && nextProvider == id + 1 && version == 1 && revision == 1
      ensures providers == old(providers)[id := Provider(ns, 1, 1, enabled)]
      ensures identities == old(identities) && nextIdentity == old(nextIdentity)
    {
      id, version, revision := nextProvider, 1, 1;
      nextProvider := nextProvider + 1;
      providers := providers[id := Provider(ns, 1, 1, enabled)];
    }

    method UpdateProvider(id: int, ns: Namespace, enabled: bool) returns (r: Result<(int, int)>)
      modifies this
      ensures State() == Updated(old(State()), id, ns, enabled)
      // which error, if any
      ensures r == Err(NoRows) <==> id !in old(providers)
      ensures r == Err(NamespaceLocked) <==>
                id in old(providers) && old(providers)[id].ns != ns
                && exists i :: i in old(identities) && old(identities)[i].provider == id && !old(identities)[i].quarantined
      ensures r == Err(VersionExhausted) <==>
                id in old(providers) && old(providers)[id].ns != ns && r != Err(NamespaceLocked)
                && old(providers)[id].version == MAX_INT64
      ensures r == Err(RevisionExhausted) <==>
                id in old(providers) && r != Err(NamespaceLocked) && r != Err(VersionExhausted)
                && old(providers)[id].revision == MAX_INT64
      ensures r.Err? ==> State() == old(State()) && r.error in {NoRows, NamespaceLocked, VersionExhausted, RevisionExhausted}
      // what is stored otherwise
      ensures r.Ok? ==>
        var row := old(providers)[id];
        && r.value == (if row.ns != ns then row.version + 1 else row.version, row.revision + 1)
        && providers == old(providers)[id := Provider(ns, r.value.0, r.value.1, enabled)]
        && (forall i :: i in identities <==>
              i in old(identities) && !(row.ns != ns && old(identities)[i].provider == id && old(identities)[i].quarantined))
        && (forall i :: i in identities ==> identities[i] == old(identities)[i])
      ensures nextProvider == old(nextProvider) && nextIdentity == old(nextIdentity)
    {
      if id !in providers {
        return Err(NoRows);
      }
      var current := providers[id];
      var nextVersion := current.version;
      var namespaceChanged := current.ns != ns;
      if namespaceChanged {
        if exists i :: i in identities && identities[i].provider == id && !identities[i].quarantined {
          return Err(NamespaceLocked);
        }
        if current.version == MAX_INT64 {
          return Err(VersionExhausted);
        }
        nextVersion := nextVersion + 1;
      }
      if current.revision == MAX_INT64 {
        return Err(RevisionExhausted);
      }
      var nextRevision := current.revision + 1;
      providers := providers[id := Provider(ns, nextVersion, nextRevision, enabled)];
      if namespaceChanged {
        identities := map i | i in identities && !(identities[i].provider == id && identities[i].quarantined) :: identities[i];
      }
      r := Ok((nextVersion, nextRevision));
    }

    method DeleteProvider(id: int) returns (r: Result<int>)
      modifies this
      ensures State() == Removed(old(State()), id)
      ensures r == if id in old(providers) then Ok(old(providers)[id].revision) else Err(NoRows)
      ensures r.Err? ==> State() == old(State())
      ensures r.Ok? ==>
        && providers == old(providers) - {id}
        && (forall i :: i in identities <==> i in old(identities) && old(identities)[i].provider != id)
        && (forall i :: i in identities ==> identities[i] == old(identities)[i])
      ensures nextProvider == old(nextProvider) && nextIdentity == old(nextIdentity)
    {
      if id !in providers {
        return Err(NoRows);
      }
      r := Ok(providers[id].revision);
      identities := map i | i in identities && identities[i].provider != id :: identities[i];
      providers := providers - {id};
    }

    method AddIdentity(user: int, p: int, version: int, revision: int, subject: string) returns (r: Result<int>)
      modifies this
      ensures State() == Linked(old(State()), user, p, version, revision, subject)
      // which error, if any
      ensures r == Err(InvalidSubject) <==>
                || subject == "" || subject == "0" || |subject| > 255
                || IsSpace(subject[0]) || IsSpace(subject[|subject| - 1])
      ensures r == Err(NoRows) <==> r != Err(InvalidSubject) && p !in providers
      ensures r == Err(NamespaceChanged) <==>
                r != Err(InvalidSubject) && p in providers
                && !(providers[p].version == version && providers[p].revision == revision && providers[p].enabled)
      ensures r == Err(AlreadyLinked) <==>
                r != Err(InvalidSubject) && r != Err(NoRows) && r != Err(NamespaceChanged)
                && exists i :: i in old(identities) && old(identities)[i].provider == p
                     && (old(identities)[i].subject == subject || (old(identities)[i].user == user && !old(identities)[i].quarantined))
      ensures r.Err? ==> State() == old(State()) && r.error in {InvalidSubject, NoRows, NamespaceChanged, AlreadyLinked}
      // what is stored otherwise
      ensures r.Ok? ==>
        && r.value == old(nextIdentity) && nextIdentity == r.value + 1
        && identities == old(identities)[r.value := Identity(user, p, subject, false)]
      ensures providers == old(providers) && nextProvider == old(nextProvider)
    {
      if !ValidSubject(subject) {
        return Err(InvalidSubject);
      }
      if p !in providers {
        return Err(NoRows);
      }
      var row := providers[p];
      if row.version != version || row.revision != revision || !row.enabled {
        return Err(NamespaceChanged);
      }
      if exists i :: i in identities && identities[i].provider == p
                     && (identities[i].subject == subject || (identities[i].user == user && !identities[i].quarantined)) {
        return Err(AlreadyLinked);
      }
      r := Ok(nextIdentity);
      identities := identities[nextIdentity := Identity(user, p, subject, false)];
      nextIdentity := nextIdentity + 1;
    }

    method IdentityBySubject(p: int, version: int, revision: int, subject: string) returns (r: Result<int>)
      ensures LookupAnswers(State(), p, version, revision, subject, r)
      ensures r == Err(NamespaceChanged) <==>
                p in providers && !(providers[p].version == version && providers[p].revision == revision && providers[p].enabled)
      ensures r.Err? ==> r.error in {NoRows, NamespaceChanged}
      ensures r == Err(NoRows) ==> p !in providers || forall i :: i in identities ==>
                !(identities[i].provider == p && identities[i].subject == subject && !identities[i].quarantined && subject != "0")
      ensures r.Ok? ==>
        && p in providers && subject != "0"
        && r.value in identities && identities[r.value].provider == p && identities[r.value].subject == subject
        && !identities[r.value].quarantined
    {
      if p !in providers {
        return Err(NoRows);
      }
      var row := providers[p];
      if row.version != version || row.revision != revision || !row.enabled {
        return Err(NamespaceChanged);
      }
      var found := set i | i in identities && identities[i].provider == p && identities[i].subject == subject
                           && !identities[i].quarantined && subject != "0";
      assert forall i :: Matches(State(), i, p, subject) ==> i in found;
      if i :| i in found {
        r := Ok(i);
      } else {
        assert forall i :: i !in found;
        forall i | i in identities
          ensures !(identities[i].provider == p && identities[i].subject == subject && !identities[i].quarantined && subject != "0")
        {
          assert i !in found;
        }
        r := Err(NoRows);
      }
    }
  }

  // ------------------------------------------------------------------ runs

  /** The namespace an identity was bound in. */
  datatype Binding = Binding(version: int, ns: Namespace)

  /** The tables, and for every identity ever linked the namespace it was linked under. */
  datatype State = State(t: Tables, bound: map<int, Binding>)

  datatype Step =
    | Create(ns: Namespace, enabled: bool)
    | Update(p: int, ns: Namespace, enabled: bool)
    | Delete(p: int)
    | Link(user: int, p: int, version: int, revision: int, subject: string)
    | Unlink(p: int, user: int)
    | Lookup(p: int, version: int, revision: int, subject: string)

  function Apply(s: State, step: Step): State {
    match step
    case Create(ns, enabled) => s.(t := Created(s.t, ns, enabled))
    case Update(p, ns, enabled) => s.(t := Updated(s.t, p, ns, enabled))
    case Delete(p) => s.(t := Removed(s.t, p))
    case Link(user, p, version, revision, subject) =>
      State(Linked(s.t, user, p, version, revision, subject),
            if LinkError(s.t, user, p, version, revision, subject).Ok?
            then s.bound[s.t.nextIdentity := Binding(s.t.providers[p].version, s.t.providers[p].ns)] else s.bound)
    case Unlink(p, user) => s.(t := Unlinked(s.t, p, user))
    case Lookup(_, _, _, _) => s
  }

  function Run(s: State, steps: seq<Step>): State
    decreases |steps|
  {
    if steps == [] then s else Run(Apply(s, steps[0]), steps[1..])
  }

  /** Tables as a migration leaves them: quarantined rows are allowed, active ones belong to
      the namespace their provider has now. */
  predicate Inv(s: State) {
    && (forall p :: p in s.t.providers ==> p < s.t.nextProvider && s.t.providers[p].version <= MAX_INT64 && s.t.providers[p].revision <= MAX_INT64)
    && (forall i :: i in s.t.identities ==> i < s.t.nextIdentity && s.t.identities[i].provider in s.t.providers)
    && (forall i :: i in s.t.identities && !s.t.identities[i].quarantined ==>
          i in s.bound && var row := s.t.providers[s.t.identities[i].provider]; s.bound[i] == Binding(row.version, row.ns))
  }

  /** The two unique constraints, which the conflict test of AddAuthIdentity answers for. */
  predicate Unique(t: Tables) {
    forall i, j :: i in t.identities && j in t.identities && i != j ==> Distinct(t.identities[i], t.identities[j])
  }

  predicate Distinct(a: Identity, b: Identity) {
    a.provider == b.provider ==>
      a.subject != b.subject && (!a.quarantined && !b.quarantined ==> a.user != b.user)
  }

  lemma InvKept(s: State, step: Step)
    requires Inv(s)
    ensures Inv(Apply(s, step))
  {
  }

  lemma UniqueKept(s: State, step: Step)
    requires Inv(s) && Unique(s.t)
    ensures Unique(Apply(s, step).t)
  {
  }

  lemma {:induction false} InvKeptByRun(s: State, steps: seq<Step>)
    requires Inv(s) && Unique(s.t)
    ensures Inv(Run(s, steps)) && Unique(Run(s, steps).t)
    decreases |steps|
  {
    if steps != [] {
      InvKept(s, steps[0]);
      UniqueKept(s, steps[0]);
      InvKeptByRun(Apply(s, steps[0]), steps[1..]);
    }
  }

  /** In every state of every run, an active identity was bound in the very namespace, version
      and content, that its provider has at that moment. */
  lemma BoundInCurrentNamespace(s: State, steps: seq<Step>, i: int)
    requires Inv(s) && Unique(s.t)
    requires var t := Run(s, steps).t; i in t.identities && !t.identities[i].quarantined
    ensures var later := Run(s, steps);
      && later.t.identities[i].provider in later.t.providers
      && i in later.bound
      && var row := later.t.providers[later.t.identities[i].provider];
         later.bound[i] == Binding(row.version, row.ns)
  {
    InvKeptByRun(s, steps);
  }

  // ------------------------------------------------------------------ authorizations in between

  /** Some update or deletion of p took effect during the run. */
  predicate Changed(s: State, steps: seq<Step>, p: int)
    decreases |steps|
  {
    steps != [] &&
    ((match steps[0]
      case Update(q, ns, _) => q == p && UpdateError(s.t, p, ns).Ok?
      case Delete(q) => q == p && p in s.t.providers
      case _ => false)
     || Changed(Apply(s, steps[0]), steps[1..], p))
  }

  /** From here on p is gone or beyond revision r. */
  predicate Past(s: State, p: int, r: int) {
    p < s.t.nextProvider && (p in s.t.providers ==> r < s.t.providers[p].revision)
  }

  lemma {:induction false} PastForGood(s: State, steps: seq<Step>, p: int, r: int)
    requires Past(s, p, r)
    ensures Past(Run(s, steps), p, r)
    decreases |steps|
  {
    if steps != [] {
      PastForGood(Apply(s, steps[0]), steps[1..], p, r);
    }
  }

  lemma {:induction false} RowKept(s: State, steps: seq<Step>, p: int)
    requires Inv(s) && p in s.t.providers
    ensures var later := Run(s, steps).t;
      if Changed(s, steps, p) then Past(Run(s, steps), p, s.t.providers[p].revision)
      else p in later.providers && later.providers[p] == s.t.providers[p]
    decreases |steps|
  {
    if steps != [] {
      var s' := Apply(s, steps[0]);
      InvKept(s, steps[0]);
      if p in s'.t.providers && s'.t.providers[p] == s.t.providers[p] {
        RowKept(s', steps[1..], p);
      } else {
        PastForGood(s', steps[1..], p, s.t.providers[p].revision);
      }
    }
  }

  /** An authorization begun at the provider's current revision is accepted later exactly
      when the provider is enabled, the version is its own, and no update or deletion of the
      provider took effect in between. One begun at an older revision is never accepted. */
  lemma AcceptedOnlyIfUnchanged(s: State, steps: seq<Step>, p: int, version: int, revision: int)
    requires Inv(s) && p in s.t.providers && revision <= s.t.providers[p].revision
    ensures Accepts(Run(s, steps).t, p, version, revision) <==>
      && !Changed(s, steps, p)
      && revision == s.t.providers[p].revision
      && version == s.t.providers[p].version
      && s.t.providers[p].enabled
  {
    RowKept(s, steps, p);
  }

  /** A deleted provider is never accepted again, at any revision: its id is not reissued. */
  lemma DeletedNeverAccepted(s: State, steps: seq<Step>, p: int, version: int, revision: int)
    requires Inv(s) && p < s.t.nextProvider && p !in s.t.providers
    ensures !Accepts(Run(s, steps).t, p, version, revision)
  {
    PastForGood(s, steps, p, revision);
  }

  /** Linking and login, for an authorization begun when the provider was at this row: they
      succeed later only if no update or deletion took effect in between, and a login then
      finds the one active identity of its subject, bound under that very namespace. */
  lemma LoginOnlyIfUnchanged(s: State, steps: seq<Step>, user: int, p: int, subject: string, r: Result<int>)
    requires Inv(s) && Unique(s.t) && p in s.t.providers
    ensures var row, later := s.t.providers[p], Run(s, steps);
      && (LinkError(later.t, user, p, row.version, row.revision, subject).Ok? ==> !Changed(s, steps, p) && row.enabled)
      && (LookupAnswers(later.t, p, row.version, row.revision, subject, r) && r.Ok? ==>
            && !Changed(s, steps, p) && row.enabled
            && r.value in later.bound && later.bound[r.value] == Binding(row.version, row.ns)
            && forall i :: Matches(later.t, i, p, subject) <==> i == r.value)
  {
    var row, later := s.t.providers[p], Run(s, steps);
    AcceptedOnlyIfUnchanged(s, steps, p, row.version, row.revision);
    if LookupAnswers(later.t, p, row.version, row.revision, subject, r) && r.Ok? {
      InvKeptByRun(s, steps);
      RowKept(s, steps, p);
      BoundInCurrentNamespace(s, steps, r.value);
    }
  }

  // ------------------------------------------------------------------ switching a provider off

  /** An update of p that takes effect and leaves it enabled or not. */
  predicate Switches(s: State, step: Step, p: int, enabled: bool) {
    step.Update? && step.p == p && step.enabled == enabled && UpdateError(s.t, p, step.ns).Ok?
  }

  predicate SwitchedOn(s: State, steps: seq<Step>, p: int)
    decreases |steps|
  {
    |steps| > 0 && (Switches(s, steps[0], p, true) || SwitchedOn(Apply(s, steps[0]), steps[1..], p))
  }

  lemma {:induction false} OffUntilOn(s: State, steps: seq<Step>, p: int)
    requires p < s.t.nextProvider && (p in s.t.providers ==> !s.t.providers[p].enabled)
    requires !SwitchedOn(s, steps, p)
    ensures p in Run(s, steps).t.providers ==> !Run(s, steps).t.providers[p].enabled
    decreases |steps|
  {
    if |steps| > 0 {
      OffUntilOn(Apply(s, steps[0]), steps[1..], p);
    }
  }

  /** After an update that disables a provider, nothing accepts, links or logs in through it,
      at whatever version and revision, until an update enables it again. */
  lemma DisabledRefuses(
      s: State, off: Step, steps: seq<Step>, p: int, user: int, version: int, revision: int, subject: string, r: Result<int>)
    requires Inv(s) && Switches(s, off, p, false) && !SwitchedOn(Apply(s, off), steps, p)
    ensures var later := Run(Apply(s, off), steps).t;
      && !Accepts(later, p, version, revision)
      && LinkError(later, user, p, version, revision, subject).Err?
      && (LookupAnswers(later, p, version, revision, subject, r) ==> r.Err?)
  {
    OffUntilOn(Apply(s, off), steps, p);
  }

  /** And one that enables it makes it accept at once, exactly at its new version and revision. */
  lemma EnabledAccepts(s: State, on: Step, p: int, version: int, revision: int)
    requires Inv(s) && Switches(s, on, p, true)
    ensures var row, t := s.t.providers[p], Apply(s, on).t;
      Accepts(t, p, version, revision) <==>
        && version == (if on.ns != row.ns then row.version + 1 else row.version)
        && revision == row.revision + 1
  {
  }

  // ------------------------------------------------------------------ a link serves logins

  /** The user's binding at p is taken away. */
  predicate Unlinks(s: State, steps: seq<Step>, p: int, user: int) {
    exists n :: 0 <= n < |steps| && steps[n] == Unlink(p, user)
  }

  lemma {:induction false} IdentityStays(s: State, steps: seq<Step>, i: int)
    requires Inv(s) && i in s.t.identities && !s.t.identities[i].quarantined
    requires !Changed(s, steps, s.t.identities[i].provider)
    requires !Unlinks(s, steps, s.t.identities[i].provider, s.t.identities[i].user)
    ensures i in Run(s, steps).t.identities && Run(s, steps).t.identities[i] == s.t.identities[i]
    decreases |steps|
  {
    if |steps| > 0 {
      var s' := Apply(s, steps[0]);
      InvKept(s, steps[0]);
      assert steps[0] != Unlink(s.t.identities[i].provider, s.t.identities[i].user);
      assert forall n :: 0 <= n < |steps[1..]| ==> steps[1..][n] == steps[n + 1];
      IdentityStays(s', steps[1..], i);
    }
  }

  /** What was linked logs in: until the provider changes or the binding is taken away, every
      lookup at the same version and revision finds exactly the linked identity. */
  lemma LinkedLogsIn(
      s: State, user: int, p: int, version: int, revision: int, subject: string, steps: seq<Step>, r: Result<int>)
    requires Inv(s) && Unique(s.t) && LinkError(s.t, user, p, version, revision, subject).Ok?
    requires var s' := Apply(s, Link(user, p, version, revision, subject)); !Changed(s', steps, p) && !Unlinks(s', steps, p, user)
    ensures var later := Run(Apply(s, Link(user, p, version, revision, subject)), steps).t;
      LookupAnswers(later, p, version, revision, subject, r) <==> r == Ok(s.t.nextIdentity)
  {
    var link := Link(user, p, version, revision, subject);
    var s', i := Apply(s, link), s.t.nextIdentity;
    InvKept(s, link);
    UniqueKept(s, link);
    IdentityStays(s', steps, i);
    RowKept(s', steps, p);
    InvKeptByRun(s', steps);
    assert Matches(Run(s', steps).t, i, p, subject);
  }
}
