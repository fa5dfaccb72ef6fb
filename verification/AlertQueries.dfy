/** Loading the observations of all alert rules: servers in batches of 64, rules grouped by
    duration, at most eight durations to a query. */
module AlertQueries {
  import opened Prelude
  import opened Alerts

  const SERVER_BATCH_SIZE: nat := 64
  const MAX_QUERY_BRANCHES: nat := 8

  const InfluxItems: seq<Item> := [Status, Cpu, Memory, Disk, ReadIops, WriteIops, Bandwidth]

  /** The duration of every rule, by server and item. */
  type Rules = map<int, map<Item, int>>

  datatype Key = Key(server: int, item: Item)

  datatype Plan = Plan(item: Item, durations: seq<int>, servers: seq<int>)

  type Answers = Plan -> Option<map<int, Observation>>

  // ------------------------------------------------------------------ sorted, distinct numbers

  lemma Prepended(x: int, a: seq<int>)
    requires Increasing(a) && forall y :: y in Elements(a) ==> x < y
    ensures Increasing([x] + a) && Elements([x] + a) == Elements(a) + {x}
  {
    assert forall i :: 0 <= i < |a| ==> a[i] in Elements(a);
    assert Elements([x]) == {x};
    ElementsAppend([x], a);
  }

  lemma FirstIsLeast(a: seq<int>)
    requires |a| > 0 && Increasing(a)
    ensures Elements(a) == Elements(a[1..]) + {a[0]} && Increasing(a[1..])
    ensures forall y :: y in Elements(a[1..]) ==> a[0] < y
  {
    assert a == [a[0]] + a[1..];
    assert Elements([a[0]]) == {a[0]};
    ElementsAppend([a[0]], a[1..]);
  }

  function Inserted(x: int, a: seq<int>): (r: seq<int>)
    requires Increasing(a) && x !in Elements(a)
    ensures Increasing(r) && Elements(r) == Elements(a) + {x} && |r| == |a| + 1
    decreases |a|
  {
    if |a| == 0 then assert Elements([x]) == {x}; [x]
    else
      FirstIsLeast(a);
      if x < a[0] then Prepended(x, a); [x] + a
      else
        Prepended(a[0], Inserted(x, a[1..]));
        [a[0]] + Inserted(x, a[1..])
  }

  lemma LastIsNew(a: seq<int>)
    requires |a| > 0 && Distinct(a)
    ensures Distinct(a[..|a| - 1]) && a[|a| - 1] !in Elements(a[..|a| - 1])
    ensures Elements(a) == Elements(a[..|a| - 1]) + {a[|a| - 1]}
  {
    assert a == a[..|a| - 1] + [a[|a| - 1]];
    assert Elements([a[|a| - 1]]) == {a[|a| - 1]};
    ElementsAppend(a[..|a| - 1], [a[|a| - 1]]);
  }

  function Sorted(a: seq<int>): (r: seq<int>)
    requires Distinct(a)
    ensures Increasing(r) && Elements(r) == Elements(a) && |r| == |a|
    decreases |a|
  {
    if |a| == 0 then []
    else
      LastIsNew(a);
      Inserted(a[|a| - 1], Sorted(a[..|a| - 1]))
  }

  /** Collecting the keys of a map in any order and then sorting them. */
  method SortedKeys(keys: set<int>) returns (r: seq<int>)
    ensures Increasing(r) && Elements(r) == keys
  {
    var left, found := keys, [];
    while left != {}
      invariant left <= keys && Elements(found) == keys - left && Distinct(found)
      decreases |left|
    {
      Inhabited(left);
      var x :| x in left;
      assert x !in Elements(found);
      ElementsAppend(found, [x]);
      left, found := left - {x}, found + [x];
    }
    r := Sorted(found);
  }

  lemma ElementsAppend(a: seq<int>, b: seq<int>)
    ensures Elements(a + b) == Elements(a) + Elements(b)
  {
  }

  // ------------------------------------------------------------------ which rules are wanted

  /** The rules with a positive duration, of these servers and these items. */
  function Wanted(rules: Rules, servers: set<int>, items: set<Item>): set<Key> {
    set s, i | s in servers && i in items && s in rules && i in rules[s] && rules[s][i] > 0 :: Key(s, i)
  }

  predicate Valid(rules: Rules, server: int, item: Item) {
    server in rules && item in rules[server] && rules[server][item] > 0
  }

  predicate Invalid(rules: Rules, server: int, item: Item) {
    server in rules && item in rules[server] && rules[server][item] <= 0
  }

  function InvalidAmong(rules: Rules, servers: seq<int>, item: Item, n: nat): nat
    requires n <= |servers|
  {
    if n == 0 then 0 else InvalidAmong(rules, servers, item, n - 1) + if Invalid(rules, servers[n - 1], item) then 1 else 0
  }

  /** Every server of every team, with the rules that some team has for it. */
  predicate MergedFrom(byTeam: map<int, Rules>, rules: Rules) {
    && (forall team, s :: team in byTeam && s in byTeam[team] ==> s in rules)
    && (forall s :: s in rules ==> exists team :: team in byTeam && s in byTeam[team] && byTeam[team][s] == rules[s])
  }

  method MergeTeams(byTeam: map<int, Rules>) returns (rules: Rules)
    ensures MergedFrom(byTeam, rules)
  {
    rules := map[];
    var left := byTeam.Keys;
    while left != {}
      invariant left <= byTeam.Keys
      invariant forall team, s :: team in byTeam && team !in left && s in byTeam[team] ==> s in rules
      invariant forall s :: s in rules ==>
        exists team :: team in byTeam && s in byTeam[team] && byTeam[team][s] == rules[s]
      decreases |left|
    {
      Inhabited(left);
      var team :| team in left;
      rules, left := rules + byTeam[team], left - {team};
    }
  }

  // ------------------------------------------------------------------ grouping by duration

  type Groups = map<int, seq<int>>

  /** The servers of the batch whose rule has one of these durations. */
  function Servers(rules: Rules, batch: set<int>, item: Item, durations: set<int>): set<int> {
    set s | s in batch && Valid(rules, s, item) && rules[s][item] in durations
  }

  predicate GroupFits(rules: Rules, batch: set<int>, item: Item, d: int, group: seq<int>) {
    && d > 0 && |group| > 0 && Distinct(group)
    && Elements(group) == Servers(rules, batch, item, {d})
  }

  /** Every server of the batch with a valid rule is in the group of its duration, once. */
  predicate Grouped(rules: Rules, batch: set<int>, item: Item, groups: Groups) {
    && (forall d :: d in groups ==> GroupFits(rules, batch, item, d, groups[d]))
    && (forall s :: s in batch && Valid(rules, s, item) ==> rules[s][item] in groups)
  }

  function Added(groups: Groups, d: int, server: int): Groups {
    groups[d := (if d in groups then groups[d] else []) + [server]]
  }

  lemma GroupedMore(rules: Rules, batch: set<int>, item: Item, groups: Groups, server: int)
    requires Grouped(rules, batch, item, groups) && server !in batch && Valid(rules, server, item)
    ensures Grouped(rules, batch + {server}, item, Added(groups, rules[server][item], server))
  {
    var all, d := batch + {server}, rules[server][item];
    var before := if d in groups then groups[d] else [];
    assert Elements(before) == Servers(rules, batch, item, {d});
    ElementsAppend(before, [server]);
    assert Elements([server]) == {server};
    assert Servers(rules, all, item, {d}) == Servers(rules, batch, item, {d}) + {server};
    assert server !in Elements(before);
    DistinctAppend(before, [server]);
    forall e | e in groups && e != d ensures GroupFits(rules, all, item, e, groups[e]) {
      assert Servers(rules, all, item, {e}) == Servers(rules, batch, item, {e});
    }
  }

  lemma GroupedSame(rules: Rules, batch: set<int>, item: Item, groups: Groups, server: int)
    requires Grouped(rules, batch, item, groups) && !Valid(rules, server, item)
    ensures Grouped(rules, batch + {server}, item, groups)
  {
    forall d | d in groups ensures GroupFits(rules, batch + {server}, item, d, groups[d]) {
      assert Servers(rules, batch + {server}, item, {d}) == Servers(rules, batch, item, {d});
    }
  }

  lemma DistinctAppend(a: seq<int>, b: seq<int>)
    requires Distinct(a) && Distinct(b) && Elements(a) !! Elements(b)
    ensures Distinct(a + b)
  {
    forall i, j | 0 <= i < j < |a + b| ensures (a + b)[i] != (a + b)[j] {
      if i < |a| <= j {
        assert (a + b)[i] in Elements(a) && (a + b)[j] in Elements(b);
      }
    }
  }

  /** The first `n` elements, as a set. */
  function First(a: seq<int>, n: nat): set<int>
    requires n <= |a|
  {
    Elements(a[..n])
  }

  lemma FirstMore(a: seq<int>, n: nat)
    requires n < |a|
    ensures First(a, n + 1) == First(a, n) + {a[n]}
  {
    assert a[..n + 1] == a[..n] + [a[n]];
  }

  lemma FirstApart(a: seq<int>, n: nat)
    requires n < |a| && Distinct(a)
    ensures a[n] !in First(a, n)
  {
  }

  function ValidServers(rules: Rules, servers: set<int>, item: Item): set<int> {
    set s | s in servers && Valid(rules, s, item)
  }

  lemma ValidMore(rules: Rules, servers: set<int>, item: Item, server: int)
    ensures ValidServers(rules, servers + {server}, item)
         == ValidServers(rules, servers, item) + if Valid(rules, server, item) then {server} else {}
  {
  }

  method DurationGroups(rules: Rules, batch: seq<int>, item: Item) returns (groups: Groups, requested: set<int>, invalid: nat)
    requires Distinct(batch)
    ensures Grouped(rules, Elements(batch), item, groups)
    ensures requested == ValidServers(rules, Elements(batch), item)
    ensures invalid == InvalidAmong(rules, batch, item, |batch|)
  {
    groups, requested, invalid := map[], {}, 0;
    for i := 0 to |batch|
      invariant Grouped(rules, First(batch, i), item, groups)
      invariant requested == ValidServers(rules, First(batch, i), item)
      invariant invalid == InvalidAmong(rules, batch, item, i)
    {
      var s := batch[i];
      FirstMore(batch, i);
      FirstApart(batch, i);
      ValidMore(rules, First(batch, i), item, s);
      if Valid(rules, s, item) {
        GroupedMore(rules, First(batch, i), item, groups, s);
        groups := Added(groups, rules[s][item], s);
        requested := requested + {s};
      } else {
        GroupedSame(rules, First(batch, i), item, groups, s);
        if s in rules && item in rules[s] {
          invalid := invalid + 1;
        }
      }
    }
    assert batch[..|batch|] == batch;
  }

  // ------------------------------------------------------------------ plans

  function KeysAt(servers: set<int>, item: Item): set<Key> {
    set s | s in servers :: Key(s, item)
  }

  function Keys(plan: Plan): set<Key> {
    KeysAt(Elements(plan.servers), plan.item)
  }

  predicate Holds(plans: seq<Plan>, p: int, k: Key) {
    0 <= p < |plans| && k in Keys(plans[p])
  }

  /** No rule sits in two plans, and every plan asks for wanted rules only. */
  predicate Within(plans: seq<Plan>, wanted: set<Key>) {
    && (forall p :: 0 <= p < |plans| ==> Keys(plans[p]) <= wanted)
    && (forall p, q :: 0 <= p < q < |plans| ==> Keys(plans[p]) !! Keys(plans[q]))
  }

  ghost predicate Complete(plans: seq<Plan>, wanted: set<Key>) {
    forall k :: k in wanted ==> exists p :: Holds(plans, p, k)
  }

  /** One to eight durations, each server once, and each with one of those durations. */
  predicate Bounded(rules: Rules, batch: set<int>, plan: Plan) {
    && 1 <= |plan.durations| <= 8 && Increasing(plan.durations)
    && Increasing(plan.servers)
    && Elements(plan.servers) == Servers(rules, batch, plan.item, Elements(plan.durations))
  }

  lemma WithinAppend(a: seq<Plan>, b: seq<Plan>, left: set<Key>, right: set<Key>)
    requires Within(a, left) && Within(b, right) && left !! right
    ensures Within(a + b, left + right)
  {
    var c := a + b;
    forall p, q | 0 <= p < q < |c| ensures Keys(c[p]) !! Keys(c[q]) {
      if p < |a| <= q {
        assert Keys(c[p]) <= left && Keys(c[q]) <= right;
      }
    }
  }

  lemma CompleteAppend(a: seq<Plan>, b: seq<Plan>, left: set<Key>, right: set<Key>)
    requires Complete(a, left) && Complete(b, right)
    ensures Complete(a + b, left + right)
  {
    forall k | k in left + right ensures exists p :: Holds(a + b, p, k) {
      if k in left {
        var p :| Holds(a, p, k);
        assert Holds(a + b, p, k);
      } else {
        var p :| Holds(b, p, k);
        assert Holds(a + b, |a| + p, k);
      }
    }
  }

  lemma OnePlan(plan: Plan)
    ensures Within([plan], Keys(plan)) && Complete([plan], Keys(plan))
  {
    forall k | k in Keys(plan) ensures exists p :: Holds([plan], p, k) {
      assert Holds([plan], 0, k);
    }
  }

  /** The servers of these durations, in one list. */
  method ServersOf(rules: Rules, ghost batch: set<int>, item: Item, groups: Groups, durations: seq<int>)
      returns (servers: seq<int>)
    requires Grouped(rules, batch, item, groups) && Distinct(durations) && Elements(durations) <= groups.Keys
    ensures Distinct(servers) && Elements(servers) == Servers(rules, batch, item, Elements(durations))
  {
    servers := [];
    for i := 0 to |durations|
      invariant Distinct(servers) && Elements(servers) == Servers(rules, batch, item, First(durations, i))
    {
      var d := durations[i];
      assert d in Elements(durations);
      FirstMore(durations, i);
      FirstApart(durations, i);
      ServersSplit(rules, batch, item, First(durations, i), {d});
      assert GroupFits(rules, batch, item, d, groups[d]);
      DistinctAppend(servers, groups[d]);
      ElementsAppend(servers, groups[d]);
      servers := servers + groups[d];
    }
    assert durations[..|durations|] == durations;
  }

  lemma ServersSplit(rules: Rules, batch: set<int>, item: Item, d: set<int>, e: set<int>)
    ensures Servers(rules, batch, item, d + e) == Servers(rules, batch, item, d) + Servers(rules, batch, item, e)
    ensures d !! e ==> Servers(rules, batch, item, d) !! Servers(rules, batch, item, e)
  {
  }

  lemma KeysAtSplit(a: set<int>, b: set<int>, item: Item)
    ensures KeysAt(a + b, item) == KeysAt(a, item) + KeysAt(b, item)
    ensures a !! b ==> KeysAt(a, item) !! KeysAt(b, item)
  {
  }

  /** The rules of the batch whose duration is among these. */
  function KeysFor(rules: Rules, batch: set<int>, item: Item, durations: set<int>): set<Key> {
    KeysAt(Servers(rules, batch, item, durations), item)
  }

  /** Cutting the durations into runs of eight: together the plans hold every wanted rule
      exactly once. An item that is not kept in the time series is refused. */
  method BuildPlans(rules: Rules, ghost batch: set<int>, item: Item, groups: Groups) returns (r: Option<seq<Plan>>)
    requires Grouped(rules, batch, item, groups)
    ensures r.None? <==> !InTimeSeries(item)
    ensures r.Some? ==> Within(r.value, Wanted(rules, batch, {item})) && Complete(r.value, Wanted(rules, batch, {item}))
    ensures r.Some? ==> forall p :: 0 <= p < |r.value| ==> Bounded(rules, batch, r.value[p]) && r.value[p].item == item
    ensures r.Some? ==> forall p :: 0 <= p < |r.value| - 1 ==> |r.value[p].durations| == 8
  {
    if !InTimeSeries(item) {
      return None;
    }
    var valid := set d | d in groups.Keys && d > 0;
    assert valid == groups.Keys;
    var durations := SortedKeys(valid);
    var plans: seq<Plan> := [];
    var offset := 0;
    while offset < |durations|
      invariant 0 <= offset <= |durations|
      invariant forall p :: 0 <= p < |plans| ==> Bounded(rules, batch, plans[p]) && plans[p].item == item
      invariant FullBut(plans, if offset < |durations| then 0 else 1)
      invariant Within(plans, KeysFor(rules, batch, item, First(durations, offset)))
      invariant Complete(plans, KeysFor(rules, batch, item, First(durations, offset)))
    {
      var endOffset := if offset + MAX_QUERY_BRANCHES < |durations| then offset + MAX_QUERY_BRANCHES else |durations|;
      var chunk := durations[offset..endOffset];
      ChunkOf(durations, offset, endOffset);
      var servers := ServersOf(rules, batch, item, groups, chunk);
      var plan := Plan(item, chunk, Sorted(servers));
      PlanJoins(rules, batch, First(durations, offset), plans, plan);
      FullJoins(plans, plan);
      plans, offset := plans + [plan], endOffset;
    }
    assert durations[..offset] == durations;
    GroupedKeys(rules, batch, item, groups);
    r := Some(plans);
  }

  /** All plans but the last `n` have as many durations as a query may. */
  ghost predicate FullBut(plans: seq<Plan>, n: nat) {
    forall p :: 0 <= p < |plans| - n ==> |plans[p].durations| == 8
  }

  lemma FullJoins(plans: seq<Plan>, plan: Plan)
    requires FullBut(plans, 0)
    ensures FullBut(plans + [plan], 1)
    ensures |plan.durations| == 8 ==> FullBut(plans + [plan], 0)
  {
    assert forall p :: 0 <= p < |plans| ==> (plans + [plan])[p] == plans[p];
  }

  lemma ChunkOf(durations: seq<int>, offset: nat, endOffset: nat)
    requires offset <= endOffset <= |durations| && Increasing(durations)
    ensures var chunk := durations[offset..endOffset];
      && Increasing(chunk) && Distinct(chunk) && Elements(chunk) <= Elements(durations)
      && First(durations, endOffset) == First(durations, offset) + Elements(chunk)
      && First(durations, offset) !! Elements(chunk)
  {
    assert durations[..endOffset] == durations[..offset] + durations[offset..endOffset];
  }

  lemma PlanJoins(rules: Rules, batch: set<int>, done: set<int>, plans: seq<Plan>, plan: Plan)
    requires Bounded(rules, batch, plan) && done !! Elements(plan.durations)
    requires Within(plans, KeysFor(rules, batch, plan.item, done))
    requires Complete(plans, KeysFor(rules, batch, plan.item, done))
    ensures Within(plans + [plan], KeysFor(rules, batch, plan.item, done + Elements(plan.durations)))
    ensures Complete(plans + [plan], KeysFor(rules, batch, plan.item, done + Elements(plan.durations)))
  {
    var left := KeysFor(rules, batch, plan.item, done);
    OnePlan(plan);
    ServersSplit(rules, batch, plan.item, done, Elements(plan.durations));
    KeysAtSplit(Servers(rules, batch, plan.item, done), Elements(plan.servers), plan.item);
    WithinAppend(plans, [plan], left, Keys(plan));
    CompleteAppend(plans, [plan], left, Keys(plan));
  }

  lemma GroupedKeys(rules: Rules, batch: set<int>, item: Item, groups: Groups)
    requires Grouped(rules, batch, item, groups)
    ensures KeysFor(rules, batch, item, groups.Keys) == Wanted(rules, batch, {item})
  {
    assert Servers(rules, batch, item, groups.Keys) == set s | s in batch && Valid(rules, s, item);
  }

  // ------------------------------------------------------------------ asking

  datatype Loaded = Loaded(keys: set<Key>, values: map<Key, Observation>, failures: nat)

  const Nothing: Loaded := Loaded({}, map[], 0)

  /** After the first `n` servers of a plan that was answered. */
  function Filled(o: Loaded, plan: Plan, values: map<int, Observation>, n: nat): Loaded
    requires n <= |plan.servers|
  {
    if n == 0 then o
    else
      var before := Filled(o, plan, values, n - 1);
      var key := Key(plan.servers[n - 1], plan.item);
      before.(keys := before.keys + {key},
              values := if key.server in values then before.values[key := values[key.server]] else before.values)
  }

  function Asked(o: Loaded, plan: Plan, answer: Option<map<int, Observation>>): Loaded {
    if answer.None? then o.(failures := o.failures + 1) else Filled(o, plan, answer.value, |plan.servers|)
  }

  function AskedAll(o: Loaded, plans: seq<Plan>, answers: Answers): Loaded
    decreases |plans|
  {
    if |plans| == 0 then o
    else
      var last := plans[|plans| - 1];
      Asked(AskedAll(o, plans[..|plans| - 1], answers), last, answers(last))
  }

  lemma AskedAllAppend(o: Loaded, plans: seq<Plan>, plan: Plan, answers: Answers)
    ensures AskedAll(o, plans + [plan], answers) == Asked(AskedAll(o, plans, answers), plan, answers(plan))
  {
    assert (plans + [plan])[..|plans|] == plans;
  }

  lemma {:induction false} AskedAllSplit(o: Loaded, a: seq<Plan>, b: seq<Plan>, answers: Answers)
    ensures AskedAll(o, a + b, answers) == AskedAll(AskedAll(o, a, answers), b, answers)
    decreases |b|
  {
    if |b| == 0 {
      assert a + b == a;
    } else {
      assert (a + b)[..|a + b| - 1] == a + b[..|b| - 1];
      AskedAllSplit(o, a, b[..|b| - 1], answers);
    }
  }

  // ------------------------------------------------------------------ what is loaded

  lemma {:induction false} FilledKeys(o: Loaded, plan: Plan, values: map<int, Observation>, n: nat)
    requires n <= |plan.servers|
    ensures var f := Filled(o, plan, values, n);
      && f.keys == o.keys + (set i | 0 <= i < n :: Key(plan.servers[i], plan.item))
      && f.failures == o.failures
  {
    if n > 0 {
      FilledKeys(o, plan, values, n - 1);
    }
  }

  lemma {:induction false} FilledValue(o: Loaded, plan: Plan, values: map<int, Observation>, n: nat, k: Key)
    requires n <= |plan.servers|
    ensures var f := Filled(o, plan, values, n);
      if k.item == plan.item && k.server in plan.servers[..n] && k.server in values
      then k in f.values && f.values[k] == values[k.server]
      else (k in f.values <==> k in o.values) && (k in o.values ==> f.values[k] == o.values[k])
  {
    if n > 0 {
      FilledValue(o, plan, values, n - 1, k);
      assert plan.servers[..n] == plan.servers[..n - 1] + [plan.servers[n - 1]];
    }
  }

  predicate LoadedBy(k: Key, plan: Plan, answers: Answers) {
    k in Keys(plan) && answers(plan).Some?
  }

  /** A rule is loaded exactly when a plan that holds it was answered. */
  lemma {:induction false} LoadedExactly(plans: seq<Plan>, answers: Answers, k: Key)
    ensures k in AskedAll(Nothing, plans, answers).keys <==>
              exists p :: 0 <= p < |plans| && LoadedBy(k, plans[p], answers)
    decreases |plans|
  {
    if |plans| > 0 {
      var n := |plans| - 1;
      var front := plans[..n];
      LoadedExactly(front, answers, k);
      if answers(plans[n]).Some? {
        FilledKeys(AskedAll(Nothing, front, answers), plans[n], answers(plans[n]).value, |plans[n].servers|);
      }
      assert forall p :: 0 <= p < n ==> front[p] == plans[p];
    }
  }

  /** Values belong to loaded rules only. */
  lemma {:induction false} ValuesAreLoaded(plans: seq<Plan>, answers: Answers, k: Key)
    ensures k in AskedAll(Nothing, plans, answers).values ==> k in AskedAll(Nothing, plans, answers).keys
    decreases |plans|
  {
    if |plans| > 0 {
      var n := |plans| - 1;
      var o := AskedAll(Nothing, plans[..n], answers);
      ValuesAreLoaded(plans[..n], answers, k);
      if answers(plans[n]).Some? {
        FilledKeys(o, plans[n], answers(plans[n]).value, |plans[n].servers|);
        FilledValue(o, plans[n], answers(plans[n]).value, |plans[n].servers|, k);
        assert plans[n].servers[..|plans[n].servers|] == plans[n].servers;
      }
    }
  }

  /** A rule's observation comes from the one plan that holds the rule, whatever the other
      queries returned: absent if that query failed or did not mention the server. */
  lemma {:induction false} ObservedBy(plans: seq<Plan>, answers: Answers, wanted: set<Key>, k: Key, p: nat)
    requires Within(plans, wanted) && p < |plans| && k in Keys(plans[p])
    ensures var o := AskedAll(Nothing, plans, answers);
      && (k in o.keys <==> answers(plans[p]).Some?)
      && (k in o.values <==> answers(plans[p]).Some? && k.server in answers(plans[p]).value)
      && (k in o.values ==> o.values[k] == answers(plans[p]).value[k.server])
    decreases |plans|
  {
    var n := |plans| - 1;
    var front, last := plans[..n], plans[n];
    var o := AskedAll(Nothing, front, answers);
    LoadedExactly(plans, answers, k);
    assert forall q :: Holds(plans, q, k) ==> q == p;
    if answers(last).Some? {
      FilledValue(o, last, answers(last).value, |last.servers|, k);
      assert last.servers[..|last.servers|] == last.servers;
    }
    if p < n {
      assert front[p] == plans[p];
      ObservedBy(front, answers, wanted, k, p);
      assert k !in Keys(last);
    } else {
      NotObservedYet(plans, answers, wanted, k);
    }
  }

  lemma NotObservedYet(plans: seq<Plan>, answers: Answers, wanted: set<Key>, k: Key)
    requires |plans| > 0 && Within(plans, wanted) && k in Keys(plans[|plans| - 1])
    ensures k !in AskedAll(Nothing, plans[..|plans| - 1], answers).values
  {
    var front := plans[..|plans| - 1];
    ValuesAreLoaded(front, answers, k);
    LoadedExactly(front, answers, k);
    assert forall p :: 0 <= p < |front| ==> front[p] == plans[p] && k !in Keys(front[p]);
  }

  /** Each rule with a positive duration sits in exactly one plan, so it is loaded exactly
      when that plan's query succeeds, and nothing else is ever loaded. */
  lemma EachRuleHasItsQuery(plans: seq<Plan>, answers: Answers, wanted: set<Key>, k: Key)
    requires Within(plans, wanted) && Complete(plans, wanted)
    ensures k in wanted ==>
      exists p ::
        && Holds(plans, p, k) && Alone(plans, p, k)
        && (k in AskedAll(Nothing, plans, answers).keys <==> answers(plans[p]).Some?)
    ensures k !in wanted ==> k !in AskedAll(Nothing, plans, answers).keys
  {
    if k in wanted {
      var p :| Holds(plans, p, k);
      ObservedBy(plans, answers, wanted, k, p);
      assert Alone(plans, p, k);
    } else {
      LoadedExactly(plans, answers, k);
    }
  }

  ghost predicate Alone(plans: seq<Plan>, p: int, k: Key) {
    forall q :: Holds(plans, q, k) ==> q == p
  }

  // ------------------------------------------------------------------ the whole load

  lemma WantedSplit(rules: Rules, s: set<int>, t: set<int>, i: set<Item>, j: set<Item>)
    ensures Wanted(rules, s + t, i) == Wanted(rules, s, i) + Wanted(rules, t, i)
    ensures Wanted(rules, s, i + j) == Wanted(rules, s, i) + Wanted(rules, s, j)
    ensures s !! t ==> Wanted(rules, s, i) !! Wanted(rules, t, i)
    ensures i !! j ==> Wanted(rules, s, i) !! Wanted(rules, s, j)
  {
  }

  function ItemSet(n: nat): set<Item>
    requires n <= |InfluxItems|
  {
    set i | 0 <= i < n :: InfluxItems[i]
  }

  /** The plans asked so far: each wanted rule in at most one, or, unless loading was
      stopped, in exactly one. */
  ghost predicate Log(plans: seq<Plan>, wanted: set<Key>, stopped: bool) {
    Within(plans, wanted) && (!stopped ==> Complete(plans, wanted))
  }

  lemma LogJoins(a: seq<Plan>, b: seq<Plan>, left: set<Key>, right: set<Key>, stopped: bool)
    requires Log(a, left, false) && Log(b, right, stopped) && left !! right
    ensures Log(a + b, left + right, stopped)
  {
    WithinAppend(a, b, left, right);
    if !stopped {
      CompleteAppend(a, b, left, right);
    }
  }

  lemma LogWidens(a: seq<Plan>, left: set<Key>, right: set<Key>)
    requires Within(a, left) && left <= right
    ensures Log(a, right, true)
  {
  }

  class ObservationSet {
    var loaded: set<Key>
    var values: map<Key, Observation>
    var queryFailures: nat
    var invalidDurations: nat
    var loadStopped: bool

    ghost function State(): Loaded
      reads this
    {
      Loaded(loaded, values, queryFailures)
    }

    constructor ()
      ensures State() == Nothing && invalidDurations == 0 && !loadStopped
    {
      loaded, values, queryFailures, invalidDurations, loadStopped := {}, map[], 0, 0, false;
    }

    method Ask(plan: Plan, answers: Answers)
      modifies this
      ensures State() == Asked(old(State()), plan, answers(plan))
      ensures invalidDurations == old(invalidDurations) && loadStopped == old(loadStopped)
    {
      var answer := answers(plan);
      if answer == None {
        queryFailures := queryFailures + 1;
        return;
      }
      for n := 0 to |plan.servers|
        invariant State() == Filled(old(State()), plan, answer.value, n)
        invariant invalidDurations == old(invalidDurations) && loadStopped == old(loadStopped)
      {
        var key := Key(plan.servers[n], plan.item);
        loaded := loaded + {key};
        if plan.servers[n] in answer.value {
          values := values[key := answer.value[plan.servers[n]]];
        }
      }
    }

    /** Asks the plans in turn until the context ends. */
    method AskPlans(plans: seq<Plan>, answers: Answers) returns (asked: nat)
      requires !loadStopped
      modifies this
      ensures asked <= |plans| && (!loadStopped ==> asked == |plans|)
      ensures State() == AskedAll(old(State()), plans[..asked], answers)
      ensures invalidDurations == old(invalidDurations)
    {
      asked := 0;
      while asked < |plans|
        invariant asked <= |plans| && !loadStopped
        invariant State() == AskedAll(old(State()), plans[..asked], answers)
        invariant invalidDurations == old(invalidDurations)
      {
        var ended: bool := *;
        if ended {
          loadStopped := true;
          return;
        }
        assert plans[..asked + 1] == plans[..asked] + [plans[asked]];
        AskedAllAppend(old(State()), plans[..asked], plans[asked], answers);
        Ask(plans[asked], answers);
        asked := asked + 1;
      }
    }

    method LoadItem(rules: Rules, batch: seq<int>, item: Item, answers: Answers) returns (log: seq<Plan>)
      requires Distinct(batch) && InTimeSeries(item) && !loadStopped
      modifies this
      ensures Log(log, Wanted(rules, Elements(batch), {item}), loadStopped)
      ensures State() == AskedAll(old(State()), log, answers)
      ensures invalidDurations == old(invalidDurations) + InvalidAmong(rules, batch, item, |batch|)
    {
      var groups, requested, invalid := DurationGroups(rules, batch, item);
      invalidDurations := invalidDurations + invalid;
      if requested == {} {
        assert forall k :: k in Wanted(rules, Elements(batch), {item}) ==> k.server in requested;
        return [];
      }
      var plans := BuildPlans(rules, Elements(batch), item, groups);
      var asked := AskPlans(plans.value, answers);
      assert plans.value[..|plans.value|] == plans.value;
      log := plans.value[..asked];
    }

    method LoadBatch(rules: Rules, batch: seq<int>, answers: Answers) returns (log: seq<Plan>)
      requires Distinct(batch) && !loadStopped
      modifies this
      ensures Log(log, Wanted(rules, Elements(batch), ItemSet(|InfluxItems|)), loadStopped)
      ensures State() == AskedAll(old(State()), log, answers)
    {
      log := [];
      for n := 0 to |InfluxItems|
        invariant Log(log, Wanted(rules, Elements(batch), ItemSet(n)), false) && !loadStopped
        invariant State() == AskedAll(old(State()), log, answers)
      {
        WantedSplit(rules, Elements(batch), {}, ItemSet(n), {InfluxItems[n]});
        assert ItemSet(n + 1) == ItemSet(n) + {InfluxItems[n]};
        ItemsRest(n);
        WantedGrows(rules, Elements(batch), ItemSet(n), ItemSet(|InfluxItems|));
        WantedGrows(rules, Elements(batch), ItemSet(n + 1), ItemSet(|InfluxItems|));
        var ended: bool := *;
        if ended {
          LogWidens(log, Wanted(rules, Elements(batch), ItemSet(n)), Wanted(rules, Elements(batch), ItemSet(|InfluxItems|)));
          loadStopped := true;
          return;
        }
        var more := LoadItem(rules, batch, InfluxItems[n], answers);
        AskedAllSplit(old(State()), log, more, answers);
        LogJoins(log, more, Wanted(rules, Elements(batch), ItemSet(n)), Wanted(rules, Elements(batch), {InfluxItems[n]}), loadStopped);
        log := log + more;
        if loadStopped {
          LogWidens(log, Wanted(rules, Elements(batch), ItemSet(n + 1)), Wanted(rules, Elements(batch), ItemSet(|InfluxItems|)));
          return;
        }
      }
    }

    /** The load merges the teams and fills this set from the plans it asked; unless it was
        stopped, those hold every rule with a positive duration exactly once. */
    method Load(byTeam: map<int, Rules>, answers: Answers)
        returns (rules: Rules, log: seq<Plan>, ghost batches: seq<seq<int>>)
      requires State() == Nothing && !loadStopped
      modifies this
      ensures MergedFrom(byTeam, rules)
      ensures forall b :: 0 <= b < |batches| ==> 1 <= |batches[b]| <= 64 && (b < |batches| - 1 ==> |batches[b]| == 64)
      ensures Increasing(Joined(batches)) && Elements(Joined(batches)) <= rules.Keys
      ensures !loadStopped ==> Elements(Joined(batches)) == rules.Keys
      ensures Log(log, Wanted(rules, rules.Keys, ItemSet(|InfluxItems|)), loadStopped)
      ensures State() == AskedAll(Nothing, log, answers)
    {
      rules := MergeTeams(byTeam);
      var ids := SortedKeys(rules.Keys);
      ghost var items := ItemSet(|InfluxItems|);
      log, batches := [], [];
      var offset := 0;
      assert Joined([]) == ids[..0];
      while offset < |ids|
        invariant 0 <= offset <= |ids| && !loadStopped
        invariant forall b :: 0 <= b < |batches| ==> 1 <= |batches[b]| <= 64
        invariant forall b :: 0 <= b < |batches| && (b < |batches| - 1 || offset < |ids|) ==> |batches[b]| == 64
        invariant Joined(batches) == ids[..offset]
        invariant Log(log, Wanted(rules, First(ids, offset), items), false)
        invariant State() == AskedAll(Nothing, log, answers)
      {
        var endOffset := if offset + SERVER_BATCH_SIZE < |ids| then offset + SERVER_BATCH_SIZE else |ids|;
        var batch := ids[offset..endOffset];
        ChunkOf(ids, offset, endOffset);
        ghost var before, here := Wanted(rules, First(ids, offset), items), Wanted(rules, Elements(batch), items);
        WantedSplit(rules, First(ids, offset), Elements(batch), items, {});
        assert before <= Wanted(rules, rules.Keys, items) && here <= Wanted(rules, rules.Keys, items);
        var ended: bool := *;
        if ended {
          LogWidens(log, before, Wanted(rules, rules.Keys, items));
          loadStopped := true;
          return;
        }
        var more := LoadBatch(rules, batch, answers);
        JoinedMore(batches, batch);
        assert ids[..endOffset] == ids[..offset] + batch;
        batches := batches + [batch];
        AskedAllSplit(Nothing, log, more, answers);
        LogJoins(log, more, before, here, loadStopped);
        log, offset := log + more, endOffset;
        if loadStopped {
          LogWidens(log, before + here, Wanted(rules, rules.Keys, items));
          return;
        }
      }
      assert ids[..offset] == ids;
    }
  }

  /** The batches, one after the other. */
  function Joined(batches: seq<seq<int>>): seq<int>
    decreases |batches|
  {
    if |batches| == 0 then [] else Joined(batches[..|batches| - 1]) + batches[|batches| - 1]
  }

  lemma JoinedMore(batches: seq<seq<int>>, batch: seq<int>)
    ensures Joined(batches + [batch]) == Joined(batches) + batch
  {
    assert (batches + [batch])[..|batches|] == batches;
  }

  lemma ItemsRest(n: nat)
    requires n < |InfluxItems|
    ensures ItemSet(n) !! {InfluxItems[n]} && InTimeSeries(InfluxItems[n])
    ensures ItemSet(n) <= ItemSet(|InfluxItems|) && ItemSet(n + 1) <= ItemSet(|InfluxItems|)
  {
  }

  lemma WantedGrows(rules: Rules, servers: set<int>, i: set<Item>, j: set<Item>)
    requires i <= j
    ensures Wanted(rules, servers, i) <= Wanted(rules, servers, j)
  {
  }
}
