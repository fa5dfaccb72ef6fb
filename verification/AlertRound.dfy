/** A round's observations, from the queries that loaded them to the rules they decide. */
module AlertRound {
  import opened Prelude
  import opened Alerts
  import opened AlertRules
  import opened AlertQueries

  /** setObservationForRule: what the loaded set says of one rule. */
  function Observed(o: Loaded, k: Key, r: Round): Round {
    r.(loaded := k in o.keys, observation := if k in o.values then o.values[k] else Absent)
  }

  /** What an answered query says of one server; one it does not mention is absent. */
  function Reported(answer: map<int, Observation>, server: int): Observation {
    if server in answer then answer[server] else Absent
  }

  /** A rule is decided by the one query that holds it and by no other: if that query fails the
      rule is skipped and left exactly as it was, without a notice; otherwise it is checked
      on what that query reports of its server. */
  lemma ItsQueryDecides(plans: seq<Plan>, answers: Answers, wanted: set<Key>, k: Key, p: nat, s: RuleState, r: Round)
    requires Within(plans, wanted) && p < |plans| && k in Keys(plans[p]) && InTimeSeries(k.item)
    ensures var r' := Observed(AskedAll(Nothing, plans, answers), k, r);
      Check(k.item, s, r') ==
        match answers(plans[p])
        case None => Outcome(s, None)
        case Some(answer) => Check(k.item, s, r.(loaded := true, observation := Reported(answer, k.server)))
  {
    ObservedBy(plans, answers, wanted, k, p);
  }

  /** A rule that no query holds, because its duration is not positive or the load was stopped
      before its turn, is left as it was too. */
  lemma UnqueriedRuleIsLeftAlone(plans: seq<Plan>, answers: Answers, k: Key, s: RuleState, r: Round)
    requires InTimeSeries(k.item) && forall p :: !Holds(plans, p, k)
    ensures Check(k.item, s, Observed(AskedAll(Nothing, plans, answers), k, r)) == Outcome(s, None)
  {
    assert forall p :: 0 <= p < |plans| && k in Keys(plans[p]) ==> Holds(plans, p, k);
    LoadedExactly(plans, answers, k);
  }

  /** Each server belongs to one team. */
  predicate OneTeamEach(byTeam: map<int, Rules>) {
    forall t, u, v :: t in byTeam && u in byTeam && v in byTeam[t] && v in byTeam[u] ==> t == u
  }

  /** One round over every rule of every team, from what a load promises: a rule whose duration
      is not positive is left alone; any other is decided by the one query that holds it; and
      if none does, the load was stopped and the rule is left alone too. */
  lemma EveryRuleIsDecided(
      byTeam: map<int, Rules>, rules: Rules, log: seq<Plan>, stopped: bool, answers: Answers, team: int, k: Key,
      s: RuleState, r: Round)
    requires OneTeamEach(byTeam) && MergedFrom(byTeam, rules)
    requires Log(log, Wanted(rules, rules.Keys, ItemSet(|InfluxItems|)), stopped)
    requires team in byTeam && k.server in byTeam[team] && k.item in byTeam[team][k.server] && InTimeSeries(k.item)
    ensures var out := Check(k.item, s, Observed(AskedAll(Nothing, log, answers), k, r));
      if byTeam[team][k.server][k.item] <= 0 then out == Outcome(s, None)
      else if exists p :: Holds(log, p, k) then
        exists p ::
          && Holds(log, p, k) && Alone(log, p, k)
          && out == match answers(log[p])
                    case None => Outcome(s, None)
                    case Some(answer) => Check(k.item, s, r.(loaded := true, observation := Reported(answer, k.server)))
      else stopped && out == Outcome(s, None)
  {
    var wanted := Wanted(rules, rules.Keys, ItemSet(|InfluxItems|));
    assert rules[k.server] == byTeam[team][k.server];
    AllInTimeSeries(k.item);
    assert k == Key(k.server, k.item) && (rules[k.server][k.item] > 0 ==> k in wanted);
    if exists p :: Holds(log, p, k) {
      var p :| Holds(log, p, k);
      ItsQueryDecides(log, answers, wanted, k, p, s, r);
      assert Alone(log, p, k);
    } else {
      UnqueriedRuleIsLeftAlone(log, answers, k, s, r);
    }
  }

  lemma AllInTimeSeries(item: Item)
    requires InTimeSeries(item)
    ensures item in ItemSet(|InfluxItems|)
  {
    var n := match item
      case Status => 0
      case Cpu => 1
      case Memory => 2
      case Disk => 3
      case ReadIops => 4
      case WriteIops => 5
      case Bandwidth => 6
      case _ => 0;
    assert InfluxItems[n] == item;
  }
}
