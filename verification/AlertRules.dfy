/** Alert evaluation: what one rule's check decides, how a round is stored, and what holds of
    the notices over every run of rounds. */
module AlertRules {
  import opened Prelude
  import opened Alerts

  /** Durations and instants are in nanoseconds. */
  const HOUR: int := 3_600_000_000_000
  const DAY: int := 24 * HOUR

  datatype RuleState = RuleState(lastStatus: Option<bool>, lastNotifyAt: Option<int>)

  datatype Lifetime = Lifetime(endTime: Option<int>, autoRenew: bool)

  datatype Notice = Down | Up | Exceeded(value: real) | Expires(days: int)

  datatype Delivery = Delivery(attempted: bool, delivered: bool)

  /** Everything that one round brings to a rule: whether its observation was loaded and what
      it is, the rule's threshold, the server's expiry, the clock, what became of a notice,
      and whether the new state was stored. */
  datatype Round = Round(
    loaded: bool, observation: Observation, threshold: int, lifetime: Option<Lifetime>,
    checkedAt: int, delivery: Delivery, deliveredAt: int, persisted: bool)

  // ------------------------------------------------------------------ delivery

  datatype Channel = Email(ok: bool) | Shoutrrr(ok: bool) | Unsupported

  /** Of the channels tried before the context ended: attempted exactly when one is of a known
      kind, delivered exactly when one of those succeeded. Alert rounds use a context that
      never ends, and so try every channel. */
  method Deliver(channels: seq<Channel>, background: bool) returns (d: Delivery, tried: nat)
    ensures tried <= |channels| && (background ==> tried == |channels|)
    ensures d.attempted <==> exists i :: 0 <= i < tried && !channels[i].Unsupported?
    ensures d.delivered <==> exists i :: 0 <= i < tried && !channels[i].Unsupported? && channels[i].ok
    ensures d.delivered ==> d.attempted
  {
    d, tried := Delivery(false, false), 0;
    while tried < |channels|
      invariant tried <= |channels|
      invariant d.attempted <==> exists j :: 0 <= j < tried && !channels[j].Unsupported?
      invariant d.delivered <==> exists j :: 0 <= j < tried && !channels[j].Unsupported? && channels[j].ok
    {
      var ended: bool := *;
      if ended && !background {
        break;
      }
      if !channels[tried].Unsupported? {
        d := Delivery(true, d.delivered || channels[tried].ok);
      }
      tried := tried + 1;
    }
  }

  // ------------------------------------------------------------------ one check

  /** A rule's new state, and the notice it tried to send. */
  datatype Outcome = Outcome(state: RuleState, notice: Option<Notice>)

  function StatusNotificationFor(lastStatus: Option<bool>, current: bool): Option<Notice> {
    if lastStatus.None? then
      if current then None else Some(Down)
    else if lastStatus.value == current then None
    else if current then Some(Up)
    else Some(Down)
  }

  function ShouldNotify(current: bool, s: RuleState, now: int): bool {
    && current
    && (s.lastStatus.None? || s.lastStatus.value != current || s.lastNotifyAt.None? || now - s.lastNotifyAt.value > HOUR)
  }

  /** A delivered notice is stamped, a failed one changes nothing, and with no notice, or
      none attempted, only the status is recorded. */
  function Settled(s: RuleState, current: bool, notice: Option<Notice>, r: Round): Outcome {
    Outcome(
      if notice.Some? && r.delivery.delivered then RuleState(Some(current), Some(r.deliveredAt))
      else if notice.Some? && r.delivery.attempted then s
      else RuleState(Some(current), s.lastNotifyAt),
      notice)
  }

  function CheckStatus(s: RuleState, r: Round): Outcome {
    Settled(s, r.observation.Present?, StatusNotificationFor(s.lastStatus, r.observation.Present?), r)
  }

  predicate Breaching(r: Round) {
    r.observation.Present? && r.observation.value >= r.threshold as real
  }

  function CheckMetric(s: RuleState, r: Round): Outcome {
    Settled(s, Breaching(r),
            if ShouldNotify(Breaching(r), s, r.checkedAt) then Some(Exceeded(r.observation.value)) else None, r)
  }

  /** The server ends within the threshold's days and will not renew itself. */
  predicate Expiring(r: Round) {
    && r.lifetime.Some? && r.lifetime.value.endTime.Some? && !r.lifetime.value.autoRenew
    && 0 < r.lifetime.value.endTime.value - r.checkedAt <= r.threshold * DAY
  }

  function DaysLeft(remaining: int): (days: int)
    requires remaining > 0
    ensures days >= 1 && (days - 1) * DAY < remaining <= days * DAY
  {
    (remaining + DAY - 1) / DAY
  }

  function CheckExpiry(s: RuleState, r: Round): Outcome {
    Settled(s, Expiring(r),
            if Expiring(r) && s.lastStatus != Some(true)
            then Some(Expires(DaysLeft(r.lifetime.value.endTime.value - r.checkedAt))) else None, r)
  }

  /** A rule whose observation could not be loaded is skipped; expiry needs none. */
  predicate Skipped(item: Item, r: Round) {
    InTimeSeries(item) && !r.loaded
  }

  function Check(item: Item, s: RuleState, r: Round): Outcome {
    if Skipped(item, r) then Outcome(s, None)
    else match item
      case Status => CheckStatus(s, r)
      case Expiry => CheckExpiry(s, r)
      case Other => Outcome(s, None)
      case _ => CheckMetric(s, r)
  }

  predicate Delivers(item: Item, s: RuleState, r: Round) {
    Check(item, s, r).notice.Some? && r.delivery.delivered
  }

  // ------------------------------------------------------------------ one round over all rules

  datatype Rule = Rule(id: int, item: Item, state: RuleState)

  datatype Update = Update(id: int, state: RuleState)

  function AlertStateEqual(a: RuleState, b: RuleState): (r: bool)
    ensures r <==> a == b
  {
    if a.lastStatus.None? || b.lastStatus.None? then
      a.lastStatus.None? && b.lastStatus.None? && SameInstant(a.lastNotifyAt, b.lastNotifyAt)
    else
      a.lastStatus.value == b.lastStatus.value && SameInstant(a.lastNotifyAt, b.lastNotifyAt)
  }

  function SameInstant(a: Option<int>, b: Option<int>): bool {
    if a.None? || b.None? then a.None? && b.None? else a.value == b.value
  }

  predicate DistinctIds(rules: seq<Rule>) {
    forall i, j :: 0 <= i < j < |rules| ==> rules[i].id != rules[j].id
  }

  /** The rows after the queued updates have been written in order. */
  function Written(table: map<int, RuleState>, updates: seq<Update>): map<int, RuleState>
    decreases |updates|
  {
    if |updates| == 0 then table
    else
      var u := updates[|updates| - 1];
      Written(table, updates[..|updates| - 1])[u.id := u.state]
  }

  /** How many of the first `n` rules the round skips. */
  function SkippedAmong(rules: seq<Rule>, rounds: seq<Round>, n: nat): nat
    requires n <= |rules| == |rounds|
  {
    if n == 0 then 0
    else SkippedAmong(rules, rounds, n - 1) + if Skipped(rules[n - 1].item, rounds[n - 1]) then 1 else 0
  }

  /** The rows if each of the first `n` rules stored what its own check decided. */
  function Decided(table: map<int, RuleState>, rules: seq<Rule>, rounds: seq<Round>, n: nat): map<int, RuleState>
    requires n <= |rules| == |rounds|
  {
    if n == 0 then table
    else
      var rule := rules[n - 1];
      Decided(table, rules, rounds, n - 1)[rule.id := Check(rule.item, rule.state, rounds[n - 1]).state]
  }

  lemma {:induction false} DecidedAt(table: map<int, RuleState>, rules: seq<Rule>, rounds: seq<Round>, n: nat, id: int)
    requires n <= |rules| == |rounds| && DistinctIds(rules)
    ensures var rows := Decided(table, rules, rounds, n);
      && rows.Keys == table.Keys + (set i | 0 <= i < n :: rules[i].id)
      && (forall i :: 0 <= i < n && rules[i].id == id ==> rows[id] == Check(rules[i].item, rules[i].state, rounds[i]).state)
      && (id in table && (forall i :: 0 <= i < n ==> rules[i].id != id) ==> rows[id] == table[id])
  {
    if n > 0 {
      DecidedAt(table, rules, rounds, n - 1, id);
    }
  }

  /** Until its turn comes, a rule's row is as it was read. */
  lemma StillAsRead(table: map<int, RuleState>, rules: seq<Rule>, rounds: seq<Round>, i: nat)
    requires i < |rules| == |rounds| && DistinctIds(rules)
    requires rules[i].id in table && table[rules[i].id] == rules[i].state
    ensures var rows := Decided(table, rules, rounds, i);
      rules[i].id in rows && rows[rules[i].id] == rules[i].state && rows[rules[i].id := rules[i].state] == rows
  {
    DecidedAt(table, rules, rounds, i, rules[i].id);
  }

  /** The queue holds rows of the table only, each once and each with a new value. */
  predicate Needed(table: map<int, RuleState>, updates: seq<Update>) {
    && (forall k :: 0 <= k < |updates| ==> updates[k].id in table && table[updates[k].id] != updates[k].state)
    && (forall j, k :: 0 <= j < k < |updates| ==> updates[j].id != updates[k].id)
  }

  /** The loop over a team's rules. Although rules whose state is unchanged are left out of
      the queue, writing the queue leaves every row as its own check decided; no row is
      written twice or without need. */
  method EvaluateRules(rules: seq<Rule>, rounds: seq<Round>, ghost table: map<int, RuleState>)
      returns (updates: seq<Update>, skipped: nat)
    requires |rules| == |rounds| && DistinctIds(rules)
    requires forall i :: 0 <= i < |rules| ==> rules[i].id in table && table[rules[i].id] == rules[i].state
    ensures Written(table, updates) == Decided(table, rules, rounds, |rules|)
    ensures Needed(table, updates)
    ensures skipped == SkippedAmong(rules, rounds, |rules|)
  {
    updates, skipped := [], 0;
    ghost var owner: seq<nat> := [];
    for i := 0 to |rules|
      invariant Written(table, updates) == Decided(table, rules, rounds, i)
      invariant |owner| == |updates|
      invariant forall k :: 0 <= k < |updates| ==> owner[k] < i && rules[owner[k]].id == updates[k].id
      invariant Needed(table, updates)
      invariant skipped == SkippedAmong(rules, rounds, i)
    {
      StillAsRead(table, rules, rounds, i);
      var next := Check(rules[i].item, rules[i].state, rounds[i]).state;
      if Skipped(rules[i].item, rounds[i]) {
        skipped := skipped + 1;
      } else if !AlertStateEqual(rules[i].state, next) {
        WrittenAppend(table, updates, Update(rules[i].id, next));
        updates, owner := updates + [Update(rules[i].id, next)], owner + [i];
      }
    }
  }

  lemma WrittenAppend(table: map<int, RuleState>, updates: seq<Update>, u: Update)
    ensures Written(table, updates + [u]) == Written(table, updates)[u.id := u.state]
  {
    assert (updates + [u])[..|updates|] == updates;
  }

  // ------------------------------------------------------------------ runs

  function Next(item: Item, s: RuleState, r: Round): RuleState {
    if r.persisted then Check(item, s, r).state else s
  }

  function After(item: Item, s: RuleState, rounds: seq<Round>): RuleState
    decreases |rounds|
  {
    if |rounds| == 0 then s else After(item, Next(item, s, rounds[0]), rounds[1..])
  }

  /** The notices delivered over a run, in order. */
  function Notices(item: Item, s: RuleState, rounds: seq<Round>): seq<Notice>
    decreases |rounds|
  {
    if |rounds| == 0 then []
    else
      (if Delivers(item, s, rounds[0]) then [Check(item, s, rounds[0]).notice.value] else [])
      + Notices(item, Next(item, s, rounds[0]), rounds[1..])
  }

  const Fresh: RuleState := RuleState(None, None)

  /** The round skips the rule, or tries a notice that no channel takes. */
  predicate Fails(item: Item, s: RuleState, r: Round) {
    Skipped(item, r) || (Check(item, s, r).notice.Some? && r.delivery == Delivery(true, false))
  }

  /** Any run of failed queries and failed deliveries leaves a rule, of any item, exactly as
      it was: every due notice is tried again in the next round. */
  lemma {:induction false} FailuresChangeNothing(item: Item, s: RuleState, rounds: seq<Round>)
    requires forall i :: 0 <= i < |rounds| ==> Fails(item, s, rounds[i])
    ensures After(item, s, rounds) == s && Notices(item, s, rounds) == []
    decreases |rounds|
  {
    if |rounds| > 0 {
      assert Fails(item, s, rounds[0]);
      FailuresChangeNothing(item, s, rounds[1..]);
    }
  }

  // ------------------------------------------------------------------ status notices alternate

  function Side(up: bool): Notice {
    if up then Up else Down
  }

  /** Down and Up in turn, starting with Up or with Down. */
  predicate Alternating(notices: seq<Notice>, upFirst: bool) {
    forall i :: 0 <= i < |notices| ==> notices[i] == Side((i % 2 == 0) == upFirst)
  }

  // What a round does, from its inputs alone; `down` is the side recorded before it, and a
  // server never seen counts as up.

  /** The observation is the other side of the one recorded. */
  predicate Contradicts(down: bool, r: Round) {
    r.loaded && r.observation.Present? == down
  }

  /** The change is recorded: stored, and told or with nobody to tell. */
  predicate Records(r: Round) {
    r.persisted && (r.delivery.delivered || !r.delivery.attempted)
  }

  /** A change was told and not recorded, or recorded and not told. */
  predicate Slips(down: bool, r: Round) {
    Contradicts(down, r) && r.delivery.delivered != Records(r)
  }

  /** The side recorded after the first n rounds, having been `first` before them. */
  function RecordedDown(first: bool, rounds: seq<Round>, n: nat): bool
    requires n <= |rounds|
  {
    if n == 0 then first
    else
      var down := RecordedDown(first, rounds, n - 1);
      if Contradicts(down, rounds[n - 1]) && Records(rounds[n - 1]) then !down else down
  }

  function SlipsBefore(first: bool, rounds: seq<Round>, n: nat): nat
    requires n <= |rounds|
  {
    if n == 0 then 0
    else SlipsBefore(first, rounds, n - 1) + if Slips(RecordedDown(first, rounds, n - 1), rounds[n - 1]) then 1 else 0
  }

  predicate Told(first: bool, rounds: seq<Round>, n: nat)
    requires n < |rounds|
  {
    Contradicts(RecordedDown(first, rounds, n), rounds[n]) && rounds[n].delivery.delivered
  }

  /** Whenever a change is told, an even number of slips came before. */
  predicate InStep(first: bool, rounds: seq<Round>) {
    forall n :: 0 <= n < |rounds| && Told(first, rounds, n) ==> SlipsBefore(first, rounds, n) % 2 == 0
  }

  predicate IsDown(s: RuleState) {
    s.lastStatus == Some(false)
  }

  /** What the status check does, in those terms. */
  lemma StatusCheck(s: RuleState, r: Round)
    ensures Check(Status, s, r).notice ==
      if Contradicts(IsDown(s), r) then Some(Side(IsDown(s))) else None
    ensures IsDown(Next(Status, s, r)) == (IsDown(s) != (Contradicts(IsDown(s), r) && Records(r)))
    ensures var c, due := Check(Status, s, r), Contradicts(IsDown(s), r);
      c.state ==
        if !r.loaded then s
        else if due && r.delivery.delivered then RuleState(Some(r.observation.Present?), Some(r.deliveredAt))
        else if due && r.delivery.attempted then s
        else RuleState(Some(r.observation.Present?), s.lastNotifyAt)
  {
  }

  /** Items that rounds do not check, and rules that are skipped, are left as they are. */
  lemma OthersUnchecked(item: Item, s: RuleState, r: Round)
    ensures item.Other? || (item != Expiry && !r.loaded) ==> Check(item, s, r) == Outcome(s, None)
  {
  }

  lemma {:induction false} NoticesSplit(item: Item, s: RuleState, a: seq<Round>, b: seq<Round>)
    ensures Notices(item, s, a + b) == Notices(item, s, a) + Notices(item, After(item, s, a), b)
    decreases |a|
  {
    if |a| == 0 {
      assert a + b == b;
    } else {
      assert (a + b)[1..] == a[1..] + b;
      NoticesSplit(item, Next(item, s, a[0]), a[1..], b);
    }
  }

  lemma OneMoreRound(item: Item, s: RuleState, rounds: seq<Round>, n: nat)
    requires n < |rounds|
    ensures var before := After(item, s, rounds[..n]);
      && After(item, s, rounds[..n + 1]) == Next(item, before, rounds[n])
      && Notices(item, s, rounds[..n + 1]) == Notices(item, s, rounds[..n])
         + if Delivers(item, before, rounds[n]) then [Check(item, before, rounds[n]).notice.value] else []
  {
    var last := [rounds[n]];
    assert rounds[..n + 1] == rounds[..n] + last;
    AfterSplit(item, s, rounds[..n], last);
    NoticesSplit(item, s, rounds[..n], last);
    assert last[1..] == [];
  }

  /** The recorded side has changed as often as notices and slips together. */
  lemma {:induction false} SideIsParity(s: RuleState, rounds: seq<Round>, n: nat)
    requires n <= |rounds|
    ensures var first := IsDown(s);
      && IsDown(After(Status, s, rounds[..n])) == RecordedDown(first, rounds, n)
      && (|Notices(Status, s, rounds[..n])| + SlipsBefore(first, rounds, n)) % 2
         == if RecordedDown(first, rounds, n) == first then 0 else 1
  {
    if n > 0 {
      SideIsParity(s, rounds, n - 1);
      OneMoreRound(Status, s, rounds, n - 1);
      StatusCheck(After(Status, s, rounds[..n - 1]), rounds[n - 1]);
    }
  }

  lemma AlternatingLonger(notices: seq<Notice>, last: Notice, upFirst: bool)
    ensures Alternating(notices + [last], upFirst) <==>
              Alternating(notices, upFirst) && last == Side((|notices| % 2 == 0) == upFirst)
  {
    var all := notices + [last];
    assert all[|notices|] == last && forall i :: 0 <= i < |notices| ==> all[i] == notices[i];
  }

  lemma {:induction false} AlternatingUpTo(s: RuleState, rounds: seq<Round>, n: nat)
    requires n <= |rounds|
    ensures var first := IsDown(s);
      Alternating(Notices(Status, s, rounds[..n]), first) <==>
        forall m :: 0 <= m < n && Told(first, rounds, m) ==> SlipsBefore(first, rounds, m) % 2 == 0
  {
    if n > 0 {
      var m := n - 1;
      var notices, t := Notices(Status, s, rounds[..m]), After(Status, s, rounds[..m]);
      AlternatingUpTo(s, rounds, m);
      SideIsParity(s, rounds, m);
      OneMoreRound(Status, s, rounds, m);
      StatusCheck(t, rounds[m]);
      if Told(IsDown(s), rounds, m) {
        AlternatingLonger(notices, Side(IsDown(t)), IsDown(s));
      } else {
        assert notices + [] == notices;
      }
    }
  }

  /** From whatever state, the status notices delivered alternate, starting with Up if the
      server was recorded down and with Down otherwise, exactly if an even number of slips
      precedes every change told: slips being changes recorded for want of channels, or told
      and then not stored. */
  lemma AlternatesExactlyWhenInStep(s: RuleState, rounds: seq<Round>)
    ensures Alternating(Notices(Status, s, rounds), IsDown(s)) <==> InStep(IsDown(s), rounds)
  {
    AlternatingUpTo(s, rounds, |rounds|);
    assert rounds[..|rounds|] == rounds;
  }

  lemma {:induction false} NoSlips(first: bool, rounds: seq<Round>, n: nat)
    requires n <= |rounds| && forall i :: 0 <= i < |rounds| ==> rounds[i].delivery.attempted && rounds[i].persisted
    ensures SlipsBefore(first, rounds, n) == 0
  {
    if n > 0 {
      NoSlips(first, rounds, n - 1);
    }
  }

  /** With a channel in every round and every round stored, they do, whatever deliveries
      fail and whatever queries fail; a new rule starts with Down. */
  lemma {:induction false} StatusNoticesAlternate(s: RuleState, rounds: seq<Round>)
    requires forall i :: 0 <= i < |rounds| ==> rounds[i].delivery.attempted && rounds[i].persisted
    ensures Alternating(Notices(Status, s, rounds), IsDown(s)) && !IsDown(Fresh)
  {
    forall n | 0 <= n < |rounds|
      ensures SlipsBefore(IsDown(s), rounds, n) == 0
    {
      NoSlips(IsDown(s), rounds, n);
    }
    AlternatesExactlyWhenInStep(s, rounds);
  }

  /** One round without channels is enough to make the first notice an Up. */
  lemma AlternationNeedsChannels()
    ensures exists down: Round, up: Round ::
              down.persisted && up.persisted && up.delivery.attempted && Notices(Status, Fresh, [down, up]) == [Up]
  {
    var down := Round(true, Absent, 0, None, 0, Delivery(false, false), 0, true);
    var up := Round(true, Present(0.0), 0, None, 1, Delivery(true, true), 1, true);
    var mid := Next(Status, Fresh, down);
    assert [down, up][1..] == [up];
    assert [up][1..] == [];
    assert Notices(Status, mid, [up]) == [Up] + Notices(Status, Next(Status, mid, up), []);
    assert Notices(Status, Fresh, [down, up]) == [Up];
  }

  /** A notice that is due stays due through any number of failed attempts and failed
      queries, and the first round that can deliver it does. */
  lemma {:induction false} DueUntilDelivered(s: RuleState, rounds: seq<Round>, r: Round)
    requires forall i :: 0 <= i < |rounds| ==> rounds[i].delivery == Delivery(true, false)
    requires Contradicts(IsDown(s), r) && r.delivery.delivered
    ensures Delivers(Status, After(Status, s, rounds), r)
    ensures Check(Status, After(Status, s, rounds), r).notice == Some(Side(IsDown(s)))
    ensures Notices(Status, s, rounds) == []
    decreases |rounds|
  {
    if |rounds| > 0 {
      assert rounds[0].delivery == Delivery(true, false);
      StatusCheck(s, rounds[0]);
      DueUntilDelivered(Next(Status, s, rounds[0]), rounds[1..], r);
    }
  }

  // ------------------------------------------------------------------ metric notices are spaced

  /** The clock does not run backwards, within a round or between rounds. */
  predicate Timely(rounds: seq<Round>) {
    && (forall i :: 0 <= i < |rounds| ==> rounds[i].checkedAt <= rounds[i].deliveredAt)
    && (forall i, j :: 0 <= i < j < |rounds| ==> rounds[i].deliveredAt <= rounds[j].checkedAt)
  }

  /** The round records that the condition does not hold. */
  predicate Clears(item: Item, r: Round) {
    r.persisted && !Skipped(item, r) && (if IsMetric(item) then !Breaching(r) else !Expiring(r))
  }

  predicate NotifiedSince(s: RuleState, since: int) {
    s.lastStatus == Some(true) && s.lastNotifyAt.Some? && s.lastNotifyAt.value >= since
  }

  lemma {:induction false} NotifiedKept(item: Item, s: RuleState, rounds: seq<Round>, since: int)
    requires IsMetric(item) || item.Expiry?
    requires NotifiedSince(s, since)
    requires forall i :: 0 <= i < |rounds| ==> !Clears(item, rounds[i]) && rounds[i].deliveredAt >= since
    ensures NotifiedSince(After(item, s, rounds), since)
    decreases |rounds|
  {
    if |rounds| > 0 {
      assert !Clears(item, rounds[0]) && rounds[0].deliveredAt >= since;
      NotifiedKept(item, Next(item, s, rounds[0]), rounds[1..], since);
    }
  }

  /** What holds just after a stored delivery in round `i` still holds at round `j`, unless
      a round in between cleared the rule. */
  lemma NotifiedBetween(item: Item, s: RuleState, rounds: seq<Round>, i: nat, j: nat)
    requires IsMetric(item) || item.Expiry?
    requires i < j < |rounds| && Timely(rounds)
    requires Delivers(item, After(item, s, rounds[..i]), rounds[i]) && rounds[i].persisted
    requires forall k :: i < k < j ==> !Clears(item, rounds[k])
    ensures NotifiedSince(After(item, s, rounds[..j]), rounds[i].deliveredAt)
  {
    var before := After(item, s, rounds[..i]);
    var between := rounds[i + 1..j];
    assert forall k :: 0 <= k < |between| ==> between[k] == rounds[i + 1 + k];
    forall k | 0 <= k < |between|
      ensures !Clears(item, between[k]) && between[k].deliveredAt >= rounds[i].deliveredAt
    {
      assert between[k] == rounds[i + 1 + k];
    }
    NotifiedKept(item, Next(item, before, rounds[i]), between, rounds[i].deliveredAt);
    assert rounds[..j] == rounds[..i] + rounds[i..j];
    AfterSplit(item, s, rounds[..i], rounds[i..j]);
    assert rounds[i..j][1..] == between;
  }

  lemma {:induction false} AfterSplit(item: Item, s: RuleState, a: seq<Round>, b: seq<Round>)
    ensures After(item, s, a + b) == After(item, After(item, s, a), b)
    decreases |a|
  {
    if |a| == 0 {
      assert a + b == b;
    } else {
      assert (a + b)[1..] == a[1..] + b;
      AfterSplit(item, Next(item, s, a[0]), a[1..], b);
    }
  }

  /** The round loaded the metric and found none, or one below the rule's threshold. */
  predicate Under(r: Round) {
    r.loaded && (r.observation.Absent? || r.observation.value < r.threshold as real)
  }

  /** It found one at or above the threshold. */
  predicate AtOrOver(r: Round) {
    r.loaded && r.observation.Present? && r.observation.value >= r.threshold as real
  }

  lemma MetricClears(item: Item, r: Round)
    requires IsMetric(item)
    ensures Clears(item, r) <==> r.persisted && Under(r)
  {
  }

  /** What a metric check announces and stores, from its inputs alone: a value at or above the
      threshold, unless the last state was already true and its notice at most an hour old. */
  lemma MetricCheck(item: Item, s: RuleState, r: Round)
    requires IsMetric(item)
    ensures var c := Check(item, s, r);
      var due := AtOrOver(r)
        && (s.lastStatus != Some(true) || s.lastNotifyAt.None? || r.checkedAt - s.lastNotifyAt.value > 3_600_000_000_000);
      && c.notice == (if due then Some(Exceeded(r.observation.value)) else None)
      && (!r.loaded ==> c.state == s)
      && (r.loaded ==>
            c.state == (if due && r.delivery.delivered then RuleState(Some(true), Some(r.deliveredAt))
                        else if due && r.delivery.attempted then s
                        else RuleState(Some(AtOrOver(r)), s.lastNotifyAt)))
  {
  }

  /** Two deliveries of one metric rule, the earlier one stored: a stored round in between
      found the metric below its threshold, or more than an hour lies between them; and both
      found it at or above. */
  lemma MetricNoticesAreSpaced(item: Item, s: RuleState, rounds: seq<Round>, i: nat, j: nat)
    requires IsMetric(item) && i < j < |rounds| && Timely(rounds)
    requires Delivers(item, After(item, s, rounds[..i]), rounds[i]) && rounds[i].persisted
    requires Delivers(item, After(item, s, rounds[..j]), rounds[j])
    ensures || (exists k :: i < k < j && rounds[k].persisted && Under(rounds[k]))
            || rounds[j].checkedAt - rounds[i].deliveredAt > 3_600_000_000_000
    ensures AtOrOver(rounds[i]) && AtOrOver(rounds[j])
  {
    if forall k :: i < k < j ==> !(rounds[k].persisted && Under(rounds[k])) {
      forall k | i < k < j
        ensures !Clears(item, rounds[k])
      {
        MetricClears(item, rounds[k]);
      }
      NotifiedBetween(item, s, rounds, i, j);
    }
  }

  /** What a stored delivery leaves, until the rule is cleared or another one is stored. */
  lemma {:induction false} NotifiedExactly(item: Item, s: RuleState, rounds: seq<Round>, i: nat, j: nat)
    requires IsMetric(item) && i < j <= |rounds|
    requires Delivers(item, After(item, s, rounds[..i]), rounds[i]) && rounds[i].persisted
    requires forall k :: i < k < j ==> !(rounds[k].persisted && Under(rounds[k]))
    requires forall k :: i < k < j ==> !(Delivers(item, After(item, s, rounds[..k]), rounds[k]) && rounds[k].persisted)
    ensures After(item, s, rounds[..j]) == RuleState(Some(true), Some(rounds[i].deliveredAt))
    decreases j
  {
    OneMoreRound(item, s, rounds, j - 1);
    MetricCheck(item, After(item, s, rounds[..j - 1]), rounds[j - 1]);
    if i < j - 1 {
      NotifiedExactly(item, s, rounds, i, j - 1);
    }
  }

  /** The hour is exact: while no stored round finds a metric below its threshold, a round that
      finds it at or above tries to announce it again if and only if more than an hour has
      passed since the last stored delivery. */
  lemma MetricIsRepeatedExactly(item: Item, s: RuleState, rounds: seq<Round>, i: nat, j: nat)
    requires IsMetric(item) && i < j < |rounds| && AtOrOver(rounds[j])
    requires Delivers(item, After(item, s, rounds[..i]), rounds[i]) && rounds[i].persisted
    requires forall k :: i < k < j ==> !(rounds[k].persisted && Under(rounds[k]))
    requires forall k :: i < k < j ==> !(Delivers(item, After(item, s, rounds[..k]), rounds[k]) && rounds[k].persisted)
    ensures Check(item, After(item, s, rounds[..j]), rounds[j]).notice
         == if rounds[j].checkedAt - rounds[i].deliveredAt > 3_600_000_000_000
            then Some(Exceeded(rounds[j].observation.value)) else None
  {
    NotifiedExactly(item, s, rounds, i, j);
    MetricCheck(item, After(item, s, rounds[..j]), rounds[j]);
  }

  // ------------------------------------------------------------------ expiry reminders

  /** The server's end is known, it does not renew itself, and it ends within the threshold's
      days but has not ended. */
  predicate InWindow(r: Round) {
    && r.lifetime.Some? && r.lifetime.value.endTime.Some? && !r.lifetime.value.autoRenew
    && r.checkedAt < r.lifetime.value.endTime.value
    && r.lifetime.value.endTime.value <= r.checkedAt + r.threshold * 86_400_000_000_000
  }

  /** What an expiry check announces and stores, from its inputs alone: in the window, unless
      the last state was already true; and the number of days it announces is the remaining
      time in days, rounded up. */
  lemma ExpiryCheck(s: RuleState, r: Round)
    ensures var c, due := Check(Expiry, s, r), InWindow(r) && s.lastStatus != Some(true);
      && (c.notice.Some? <==> due)
      && (due ==>
            var left := r.lifetime.value.endTime.value - r.checkedAt;
            && c.notice.value.Expires?
            && (c.notice.value.days - 1) * 86_400_000_000_000 < left <= c.notice.value.days * 86_400_000_000_000)
      && c.state ==
           (if due && r.delivery.delivered then RuleState(Some(true), Some(r.deliveredAt))
            else if due && r.delivery.attempted then s
            else RuleState(Some(InWindow(r)), s.lastNotifyAt))
  {
    assert Expiring(r) <==> InWindow(r);
  }

  /** An expiry reminder is not repeated while the server stays inside its window. */
  lemma ExpiryNoticesAreSpaced(s: RuleState, rounds: seq<Round>, i: nat, j: nat)
    requires i < j < |rounds| && Timely(rounds)
    requires Delivers(Expiry, After(Expiry, s, rounds[..i]), rounds[i]) && rounds[i].persisted
    requires Delivers(Expiry, After(Expiry, s, rounds[..j]), rounds[j])
    ensures exists k :: i < k < j && rounds[k].persisted && !InWindow(rounds[k])
  {
    if forall k :: i < k < j ==> !Clears(Expiry, rounds[k]) {
      NotifiedBetween(Expiry, s, rounds, i, j);
      assert false;
    }
    var k :| i < k < j && Clears(Expiry, rounds[k]);
    assert rounds[k].persisted && !InWindow(rounds[k]);
  }
}
