/** The fixed-window limiter of notification deliveries, with its periodic cleanup. Targets
    stand for their digests, and a missing counter for one whose start is unset. */
module TargetLimiter {
  import opened Prelude

  datatype Counter = Counter(started: int, count: int)

  type Counters = map<int, Counter>

  datatype Limits = Limits(limit: int, window: int)

  const SWEEP_EVERY: nat := 256

  datatype Request = Request(target: int, now: int)

  // ------------------------------------------------------------------ one call

  function Swept(l: Limits, c: Counters, now: int): Counters {
    map t | t in c && now - c[t].started < 2 * l.window :: c[t]
  }

  /** The target starts a new window with this request. */
  predicate Restarts(l: Limits, c: Counters, r: Request) {
    r.target !in c || r.now - c[r.target].started >= l.window
  }

  predicate Admits(l: Limits, c: Counters, r: Request) {
    Restarts(l, c, r) || c[r.target].count < l.limit
  }

  function Counted(l: Limits, c: Counters, r: Request): Counters {
    if Restarts(l, c, r) then c[r.target := Counter(r.now, 1)]
    else if Admits(l, c, r) then c[r.target := c[r.target].(count := c[r.target].count + 1)]
    else c
  }

  function MaybeSwept(l: Limits, c: Counters, now: int, sweep: bool): Counters {
    if sweep then Swept(l, c, now) else c
  }

  class Limiter {
    const limits: Limits
    var counters: Counters
    var calls: nat

    constructor (limits: Limits)
      ensures this.limits == limits && counters == map[] && calls == 0
    {
      this.limits := limits;
      counters, calls := map[], 0;
    }

    method Sweep(now: int)
      modifies this`counters
      ensures counters == Swept(limits, old(counters), now)
      ensures forall t :: t in counters <==> t in old(counters) && now - old(counters)[t].started < 2 * limits.window
      ensures forall t :: t in counters ==> counters[t] == old(counters)[t]
    {
      ghost var was := counters;
      var left := counters.Keys;
      while left != {}
        invariant left <= counters.Keys
        invariant forall t :: t in counters ==> t in was && counters[t] == was[t]
        invariant forall t :: t in was && t !in left ==> (t in counters <==> now - was[t].started < 2 * limits.window)
        decreases |left|
      {
        Inhabited(left);
        var t :| t in left;
        if now - counters[t].started >= 2 * limits.window {
          counters := counters - {t};
        }
        left := left - {t};
      }
      ghost var kept := Swept(limits, was, now);
      assert forall t :: t in counters <==> t in kept;
      assert forall t :: t in counters ==> counters[t] == kept[t];
    }

    method Allow(r: Request) returns (ok: bool)
      modifies this
      ensures calls == old(calls) + 1
      ensures var c := MaybeSwept(limits, old(counters), r.now, calls % SWEEP_EVERY == 0);
        && ok == Admits(limits, c, r) && counters == Counted(limits, c, r)
        && (ok <==> r.target !in c || r.now - c[r.target].started >= limits.window || c[r.target].count < limits.limit)
        && counters == if !ok then c
                       else c[r.target := if r.target !in c || r.now - c[r.target].started >= limits.window
                                          then Counter(r.now, 1)
                                          else Counter(c[r.target].started, c[r.target].count + 1)]
      ensures calls % 256 != 0 ==> MaybeSwept(limits, old(counters), r.now, calls % SWEEP_EVERY == 0) == old(counters)
    {
      calls := calls + 1;
      if calls % SWEEP_EVERY == 0 {
        Sweep(r.now);
      }
      if r.target !in counters || r.now - counters[r.target].started >= limits.window {
        counters := counters[r.target := Counter(r.now, 1)];
        return true;
      }
      var counter := counters[r.target];
      if counter.count >= limits.limit {
        return false;
      }
      counters := counters[r.target := counter.(count := counter.count + 1)];
      ok := true;
    }
  }

  // ------------------------------------------------------------------ runs

  /** A request, and whether this call sweeps first. */
  datatype Call = Call(request: Request, sweep: bool)

  function Ready(l: Limits, c: Counters, call: Call): Counters {
    MaybeSwept(l, c, call.request.now, call.sweep)
  }

  function Answers(l: Limits, c: Counters, calls: seq<Call>): seq<bool>
    decreases |calls|
  {
    if |calls| == 0 then []
    else
      var d := Ready(l, c, calls[0]);
      [Admits(l, d, calls[0].request)] + Answers(l, Counted(l, d, calls[0].request), calls[1..])
  }

  function After(l: Limits, c: Counters, calls: seq<Call>): Counters
    decreases |calls|
  {
    if |calls| == 0 then c else After(l, Counted(l, Ready(l, c, calls[0]), calls[0].request), calls[1..])
  }

  lemma {:induction false} AfterSplit(l: Limits, c: Counters, a: seq<Call>, b: seq<Call>)
    ensures After(l, c, a + b) == After(l, After(l, c, a), b)
    decreases |a|
  {
    if |a| == 0 {
      assert a + b == b;
    } else {
      assert (a + b)[1..] == a[1..] + b;
      AfterSplit(l, Counted(l, Ready(l, c, a[0]), a[0].request), a[1..], b);
    }
  }

  lemma AfterNext(l: Limits, c: Counters, calls: seq<Call>, n: nat)
    requires n < |calls|
    ensures After(l, c, calls[..n + 1]) == Counted(l, Ready(l, After(l, c, calls[..n]), calls[n]), calls[n].request)
  {
    var last := [calls[n]];
    assert calls[..n + 1] == calls[..n] + last;
    AfterSplit(l, c, calls[..n], last);
    assert last[1..] == [];
  }

  lemma {:induction false} AnswerAt(l: Limits, c: Counters, calls: seq<Call>, n: nat)
    requires n < |calls|
    ensures |Answers(l, c, calls)| == |calls|
    ensures Answers(l, c, calls)[n] == Admits(l, Ready(l, After(l, c, calls[..n]), calls[n]), calls[n].request)
    decreases |calls|
  {
    var d, rest := Counted(l, Ready(l, c, calls[0]), calls[0].request), calls[1..];
    AnswersLength(l, d, rest);
    if n > 0 {
      AnswerAt(l, d, rest, n - 1);
      assert calls[..n][1..] == rest[..n - 1];
    }
  }

  lemma {:induction false} AnswersLength(l: Limits, c: Counters, calls: seq<Call>)
    ensures |Answers(l, c, calls)| == |calls|
    decreases |calls|
  {
    if |calls| > 0 {
      AnswersLength(l, Counted(l, Ready(l, c, calls[0]), calls[0].request), calls[1..]);
    }
  }

  /** The same requests with no cleanup at all. */
  function Unswept(calls: seq<Call>): (r: seq<Call>)
    ensures |r| == |calls|
  {
    seq(|calls|, n requires 0 <= n < |calls| => Call(calls[n].request, false))
  }

  // ------------------------------------------------------------------ when cleanup is invisible

  /** The stamp of call k is two windows old at the sweep of call i and less than one window
      old at call j, which is that call or a later one. */
  predicate Tells(window: int, calls: seq<Call>, k: int, i: int, j: int) {
    && 0 <= k < i <= j < |calls| && calls[i].sweep
    && calls[i].request.now - calls[k].request.now >= 2 * window
    && calls[j].request.now - calls[k].request.now < window
  }

  /** The condition, on the stamps and the sweeps alone. */
  ghost predicate Telling(window: int, calls: seq<Call>) {
    exists k, i, j :: Tells(window, calls, k, i, j)
  }

  /** A counter started at `start` would be swept by call i and still be running at call j. */
  predicate LostAt(window: int, start: int, calls: seq<Call>, i: int, j: int) {
    && 0 <= i <= j < |calls| && calls[i].sweep
    && calls[i].request.now - start >= 2 * window && calls[j].request.now - start < window
  }

  ghost predicate Lost(window: int, start: int, calls: seq<Call>) {
    exists i, j :: LostAt(window, start, calls, i, j)
  }

  lemma LostTells(window: int, calls: seq<Call>)
    requires |calls| > 0 && Lost(window, calls[0].request.now, calls[1..])
    ensures Telling(window, calls)
  {
    var i, j :| LostAt(window, calls[0].request.now, calls[1..], i, j);
    assert Tells(window, calls, 0, i + 1, j + 1);
  }

  lemma LaterTells(window: int, calls: seq<Call>)
    requires |calls| > 0 && Telling(window, calls[1..])
    ensures Telling(window, calls)
  {
    var k, i, j :| Tells(window, calls[1..], k, i, j);
    assert Tells(window, calls, k + 1, i + 1, j + 1);
  }

  lemma LostLater(window: int, start: int, calls: seq<Call>)
    requires |calls| > 0 && Lost(window, start, calls[1..])
    ensures Lost(window, start, calls)
  {
    var i, j :| LostAt(window, start, calls[1..], i, j);
    assert LostAt(window, start, calls, i + 1, j + 1);
  }

  /** At all of these calls the target starts a new window. */
  predicate Dead(l: Limits, c: Counters, t: int, calls: seq<Call>) {
    t !in c || forall j :: 0 <= j < |calls| ==> calls[j].request.now - c[t].started >= l.window
  }

  /** A swept table and one that never is: they agree, except on dead counters. */
  ghost predicate Alike(l: Limits, a: Counters, b: Counters, calls: seq<Call>) {
    forall t ::
      || (t in a && t in b && a[t] == b[t])
      || (Dead(l, a, t, calls) && Dead(l, b, t, calls))
  }

  ghost predicate NoneLost(l: Limits, a: Counters, calls: seq<Call>) {
    forall t :: t in a ==> !Lost(l.window, a[t].started, calls)
  }

  /** What a sweep takes is dead from here on. */
  lemma SweptIsDead(l: Limits, start: int, calls: seq<Call>)
    requires |calls| > 0 && calls[0].sweep && calls[0].request.now - start >= 2 * l.window && !Lost(l.window, start, calls)
    ensures forall j :: 0 <= j < |calls| ==> calls[j].request.now - start >= l.window
  {
    forall j | 0 <= j < |calls|
      ensures calls[j].request.now - start >= l.window
    {
      assert !LostAt(l.window, start, calls, 0, j);
    }
  }

  lemma SweptAlike(l: Limits, a: Counters, b: Counters, calls: seq<Call>)
    requires |calls| > 0 && Alike(l, a, b, calls) && NoneLost(l, a, calls)
    ensures Alike(l, Ready(l, a, calls[0]), b, calls) && NoneLost(l, Ready(l, a, calls[0]), calls)
  {
    var a' := Ready(l, a, calls[0]);
    forall t
      ensures (t in a' && t in b && a'[t] == b[t]) || (Dead(l, a', t, calls) && Dead(l, b, t, calls))
    {
      if t in a && t !in a' {
        SweptIsDead(l, a[t].started, calls);
      }
    }
  }

  lemma CountedAlike(l: Limits, a: Counters, b: Counters, calls: seq<Call>)
    requires |calls| > 0 && Alike(l, a, b, calls) && NoneLost(l, a, calls)
    requires !Lost(l.window, calls[0].request.now, calls[1..])
    ensures var r := calls[0].request;
      && Admits(l, a, r) == Admits(l, b, r)
      && Alike(l, Counted(l, a, r), Counted(l, b, r), calls[1..])
      && NoneLost(l, Counted(l, a, r), calls[1..])
  {
    var r, rest := calls[0].request, calls[1..];
    var a', b' := Counted(l, a, r), Counted(l, b, r);
    if Dead(l, a, r.target, calls) && Dead(l, b, r.target, calls) {
      assert Restarts(l, a, r) && Restarts(l, b, r);
    }
    forall t
      ensures (t in a' && t in b' && a'[t] == b'[t]) || (Dead(l, a', t, rest) && Dead(l, b', t, rest))
    {
      assert Dead(l, a, t, calls) ==> Dead(l, a, t, rest);
      assert Dead(l, b, t, calls) ==> Dead(l, b, t, rest);
    }
    forall t | t in a'
      ensures !Lost(l.window, a'[t].started, rest)
    {
      if t in a && Lost(l.window, a[t].started, rest) {
        LostLater(l.window, a[t].started, calls);
      }
    }
  }

  lemma {:induction false} AlikeAnswer(l: Limits, a: Counters, b: Counters, calls: seq<Call>)
    requires Alike(l, a, b, calls) && NoneLost(l, a, calls) && !Telling(l.window, calls)
    ensures Answers(l, a, calls) == Answers(l, b, Unswept(calls))
    decreases |calls|
  {
    if |calls| > 0 {
      if Lost(l.window, calls[0].request.now, calls[1..]) {
        LostTells(l.window, calls);
      }
      if Telling(l.window, calls[1..]) {
        LaterTells(l.window, calls);
      }
      SweptAlike(l, a, b, calls);
      CountedAlike(l, Ready(l, a, calls[0]), b, calls);
      assert Unswept(calls)[1..] == Unswept(calls[1..]);
      AlikeAnswer(l, Counted(l, Ready(l, a, calls[0]), calls[0].request), Counted(l, b, calls[0].request), calls[1..]);
    }
  }

  // The converse: one target's requests at call k, at enough calls near it, and at call j, with
  // another target's everywhere else.

  /** Call n is less than one window after call k. */
  predicate Near(window: int, calls: seq<Call>, k: nat, n: nat)
    requires k < |calls| && n < |calls|
  {
    k < n && calls[n].request.now - calls[k].request.now < window
  }

  /** How many calls before call n are near call k, counting to at most `most`. */
  function NearBefore(window: int, calls: seq<Call>, k: nat, n: nat, most: nat): (c: nat)
    requires k < |calls| && n <= |calls|
    ensures c <= most
  {
    if n == 0 then 0
    else
      var c := NearBefore(window, calls, k, n - 1, most);
      if Near(window, calls, k, n - 1) && c < most then c + 1 else c
  }

  /** A telling triple with enough calls in between that are near call k to use up the limit. */
  predicate TellsAt(l: Limits, calls: seq<Call>, k: int, i: int, j: int) {
    Tells(l.window, calls, k, i, j) && NearBefore(l.window, calls, k, j, PerWindow(l) - 1) == PerWindow(l) - 1
  }

  ghost predicate TellingAt(l: Limits, calls: seq<Call>) {
    exists k, i, j :: TellsAt(l, calls, k, i, j)
  }

  predicate Probes(l: Limits, calls: seq<Call>, k: nat, j: nat, n: nat)
    requires k < |calls| && n < |calls|
  {
    || n == k || n == j
    || (Near(l.window, calls, k, n) && NearBefore(l.window, calls, k, n, PerWindow(l) - 1) < PerWindow(l) - 1)
  }

  /** The same stamps and sweeps, with target 0 at the probing calls. */
  function Probe(l: Limits, calls: seq<Call>, k: nat, j: nat): (r: seq<Call>)
    requires k < |calls|
    ensures |r| == |calls|
  {
    seq(|calls|, n requires 0 <= n < |calls| =>
      Call(Request(if Probes(l, calls, k, j, n) then 0 else 1, calls[n].request.now), calls[n].sweep))
  }

  /** What the probe leaves of target 0 without sweeps: one window, begun by call k. */
  lemma {:induction false} ProbeUnswept(l: Limits, calls: seq<Call>, k: nat, j: nat, n: nat)
    requires k < j < |calls| && n <= j
    ensures var c := After(l, map[], Unswept(Probe(l, calls, k, j))[..n]);
      && (n <= k ==> 0 !in c)
      && (k < n ==> 0 in c && c[0] == Counter(calls[k].request.now, 1 + NearBefore(l.window, calls, k, n, PerWindow(l) - 1)))
  {
    if n > 0 {
      ProbeUnswept(l, calls, k, j, n - 1);
      AfterNext(l, map[], Unswept(Probe(l, calls, k, j)), n - 1);
      NothingNearBefore(l.window, calls, k, n - 1, PerWindow(l) - 1);
    }
  }

  lemma {:induction false} NothingNearBefore(window: int, calls: seq<Call>, k: nat, n: nat, most: nat)
    requires k < |calls| && n <= |calls|
    ensures n <= k + 1 ==> NearBefore(window, calls, k, n, most) == 0
  {
    if n > 0 {
      NothingNearBefore(window, calls, k, n - 1, most);
    }
  }

  /** What a swept table holds of target 0 after call k: that same window, until the sweep of
      call i; or one begun later, which has missed at least call k. */
  predicate SweptFits(l: Limits, calls: seq<Call>, k: nat, i: nat, n: nat, c: Counters)
    requires k < |calls| && n <= |calls|
  {
    var near := NearBefore(l.window, calls, k, n, PerWindow(l) - 1);
    0 in c ==>
      || (n <= i && c[0] == Counter(calls[k].request.now, 1 + near))
      || 1 <= c[0].count <= near
  }

  lemma {:induction false} ProbeSwept(l: Limits, calls: seq<Call>, k: nat, i: nat, j: nat, n: nat)
    requires Tells(l.window, calls, k, i, j) && n <= j
    ensures var c := After(l, map[], Probe(l, calls, k, j)[..n]);
      if n <= k then 0 !in c else SweptFits(l, calls, k, i, n, c)
  {
    if n > 0 {
      ProbeSwept(l, calls, k, i, j, n - 1);
      AfterNext(l, map[], Probe(l, calls, k, j), n - 1);
      NothingNearBefore(l.window, calls, k, n, PerWindow(l) - 1);
    }
  }

  lemma ProbeTells(l: Limits, calls: seq<Call>, k: nat, i: nat, j: nat)
    requires TellsAt(l, calls, k, i, j)
    ensures Answers(l, map[], Probe(l, calls, k, j)) != Answers(l, map[], Unswept(Probe(l, calls, k, j)))
  {
    var probe := Probe(l, calls, k, j);
    ProbeUnswept(l, calls, k, j, j);
    ProbeSwept(l, calls, k, i, j, j);
    AnswerAt(l, map[], probe, j);
    AnswerAt(l, map[], Unswept(probe), j);
  }

  /** The same stamps and the same calls sweep; targets may differ. */
  predicate SameTimes(a: seq<Call>, b: seq<Call>) {
    |a| == |b| && forall n :: 0 <= n < |a| ==> a[n].request.now == b[n].request.now && a[n].sweep == b[n].sweep
  }

  /** For every choice of targets, cleanup changes no answer of a limiter with these limits. */
  ghost predicate InvisibleAt(l: Limits, times: seq<Call>) {
    forall calls: seq<Call> :: SameTimes(calls, times) ==>
      Answers(l, map[], calls) == Answers(l, map[], Unswept(calls))
  }

  /** The same for every limit. */
  ghost predicate Invisible(window: int, times: seq<Call>) {
    forall limit: int :: InvisibleAt(Limits(limit, window), times)
  }

  lemma TellingIsOfTimes(window: int, a: seq<Call>, b: seq<Call>)
    requires SameTimes(a, b) && Telling(window, a)
    ensures Telling(window, b)
  {
    var k, i, j :| Tells(window, a, k, i, j);
    assert Tells(window, b, k, i, j);
  }

  /** At any limit, cleanup is invisible unless there is a telling triple. */
  lemma HiddenUnlessTelling(l: Limits, times: seq<Call>)
    requires !Telling(l.window, times)
    ensures InvisibleAt(l, times)
  {
    forall calls: seq<Call> | SameTimes(calls, times)
      ensures Answers(l, map[], calls) == Answers(l, map[], Unswept(calls))
    {
      if Telling(l.window, calls) {
        TellingIsOfTimes(l.window, calls, times);
      }
      AlikeAnswer(l, map[], map[], calls);
    }
  }

  /** At any limit, it is visible if there is one with enough calls in between to use up the
      limit. */
  lemma VisibleIfTellingAt(l: Limits, times: seq<Call>)
    requires TellingAt(l, times)
    ensures !InvisibleAt(l, times)
  {
    var k, i, j :| TellsAt(l, times, k, i, j);
    ProbeTells(l, times, k, i, j);
    assert SameTimes(Probe(l, times, k, j), times);
  }

  lemma {:induction false} CountedAtMost(l: Limits, calls: seq<Call>, n: nat, t: int)
    requires n <= |calls|
    ensures var c := After(l, map[], calls[..n]); t in c ==> c[t].count <= n
  {
    if n > 0 {
      CountedAtMost(l, calls, n - 1, t);
      AfterNext(l, map[], calls, n - 1);
    }
  }

  lemma FewAreAdmitted(l: Limits, calls: seq<Call>)
    requires |calls| <= l.limit
    ensures Answers(l, map[], calls) == seq(|calls|, _ => true)
  {
    AnswersLength(l, map[], calls);
    forall n | 0 <= n < |calls|
      ensures Answers(l, map[], calls)[n]
    {
      AnswerAt(l, map[], calls, n);
      CountedAtMost(l, calls, n, calls[n].request.target);
    }
  }

  /** Above limit 1 a telling triple alone need not show: a run of no more calls than the
      limit admits them all, swept or not. */
  lemma FewCallsAreHidden(l: Limits, times: seq<Call>)
    requires |times| <= l.limit
    ensures InvisibleAt(l, times)
  {
    forall calls: seq<Call> | SameTimes(calls, times)
      ensures Answers(l, map[], calls) == Answers(l, map[], Unswept(calls))
    {
      FewAreAdmitted(l, calls);
      FewAreAdmitted(l, Unswept(calls));
    }
  }

  /** Nor need there be the calls of TellsAt: here, at limit 2, the sweep shifts the target's
      windows against each other, and the next window's last call shows it. */
  lemma ShiftedWindowsShow()
    ensures var l, times := Limits(2, 10), Shifted(); !TellingAt(l, times) && !InvisibleAt(l, times)
  {
    ShiftedIsNotTellingAt();
    ShiftedSwept();
    ShiftedUnswept();
    AnswerAt(Limits(2, 10), map[], Shifted(), 4);
    AnswerAt(Limits(2, 10), map[], Unswept(Shifted()), 4);
    assert SameTimes(Shifted(), Shifted());
  }

  lemma ShiftedIsNotTellingAt()
    ensures !TellingAt(Limits(2, 10), Shifted())
  {
    assert NearBefore(10, Shifted(), 0, 2, 1) == 0;
    assert forall k, i, j :: Tells(10, Shifted(), k, i, j) ==> k == 0 && j == 2;
  }

  function Shifted(): seq<Call> {
    [Call(Request(0, 0), false), Call(Request(1, 20), true), Call(Request(0, 9), false),
     Call(Request(0, 10), false), Call(Request(0, 10), false)]
  }

  lemma ShiftedSwept()
    ensures After(Limits(2, 10), map[], Shifted()[..4]) == map[1 := Counter(20, 1), 0 := Counter(9, 2)]
  {
    var l, times := Limits(2, 10), Shifted();
    AfterNext(l, map[], times, 0);
    AfterNext(l, map[], times, 1);
    AfterNext(l, map[], times, 2);
    AfterNext(l, map[], times, 3);
  }

  lemma ShiftedUnswept()
    ensures After(Limits(2, 10), map[], Unswept(Shifted())[..4]) == map[1 := Counter(20, 1), 0 := Counter(10, 1)]
  {
    var l, times := Limits(2, 10), Unswept(Shifted());
    AfterNext(l, map[], times, 0);
    AfterNext(l, map[], times, 1);
    AfterNext(l, map[], times, 2);
    AfterNext(l, map[], times, 3);
  }

  /** At limit 1 or less a telling triple is enough by itself, so there it is exact. */
  lemma InvisibleExactlyAtOne(l: Limits, times: seq<Call>)
    requires l.limit <= 1
    ensures InvisibleAt(l, times) <==> !Telling(l.window, times)
  {
    if Telling(l.window, times) {
      var k, i, j :| Tells(l.window, times, k, i, j);
      assert TellsAt(l, times, k, i, j);
      VisibleIfTellingAt(l, times);
    } else {
      HiddenUnlessTelling(l, times);
    }
  }

  /** Over all limits together: cleanup changes no answer, at any limit and for any targets,
      exactly if no stamp is two windows old at a later sweep and less than one window old at
      that call or after it. The clock may otherwise step back as it likes. */
  lemma CleanupIsInvisibleExactly(window: int, times: seq<Call>)
    ensures Invisible(window, times) <==> !Telling(window, times)
  {
    if Telling(window, times) {
      InvisibleExactlyAtOne(Limits(1, window), times);
    } else {
      forall limit: int
        ensures InvisibleAt(Limits(limit, window), times)
      {
        HiddenUnlessTelling(Limits(limit, window), times);
      }
    }
  }

  /** With non-decreasing time, and also when stamps run back by no more than a window, no
      schedule of sweeps tells; in particular not the limiter's own, on every 256th call. */
  lemma NearlyTimelyIsEnough(window: int, times: seq<Call>)
    requires window >= 0
    requires forall i, j :: 0 <= i < j < |times| ==> times[i].request.now - window <= times[j].request.now
    ensures Invisible(window, times)
  {
    assert forall k, i, j :: !Tells(window, times, k, i, j);
    CleanupIsInvisibleExactly(window, times);
  }

  // A run that a limiter can make.

  /** The limiter's own schedule, from its first call. */
  predicate Cadence(calls: seq<Call>) {
    forall n :: 0 <= n < |calls| ==> (calls[n].sweep <==> (n + 1) % SWEEP_EVERY == 0)
  }

  /** Calls at stamp 0, the last of some 256th calls at two windows, and one at stamp 0 again. */
  function BackStep(window: int, rounds: nat): (calls: seq<Call>)
    requires rounds > 0
    ensures |calls| == SWEEP_EVERY * rounds + 1
  {
    seq(SWEEP_EVERY * rounds + 1, n =>
      Call(Request(0, if n == SWEEP_EVERY * rounds - 1 then 2 * window else 0), (n + 1) % SWEEP_EVERY == 0))
  }

  lemma {:induction false} AllNear(window: int, rounds: nat, n: nat, most: nat)
    requires window > 0 && 0 < rounds && 0 < n <= SWEEP_EVERY * rounds - 1
    ensures NearBefore(window, BackStep(window, rounds), 0, n, most) == if n - 1 < most then n - 1 else most
  {
    if n > 1 {
      AllNear(window, rounds, n - 1, most);
    }
  }

  lemma {:induction false} NearGrows(window: int, calls: seq<Call>, k: nat, m: nat, n: nat, most: nat)
    requires k < |calls| && m <= n <= |calls|
    ensures NearBefore(window, calls, k, m, most) <= NearBefore(window, calls, k, n, most)
  {
    if m < n {
      NearGrows(window, calls, k, m, n - 1, most);
    }
  }

  lemma LastOfRound(rounds: nat)
    requires rounds > 0
    ensures (SWEEP_EVERY * rounds) % SWEEP_EVERY == 0
  {
  }

  /** For every limit and every positive window there is a run, sweeping on every 256th call
      as the limiter does, in which the clock steps back and a sweep changes an answer. */
  lemma CleanupShowsWhenTimeStepsBack(l: Limits)
    requires l.window > 0
    ensures var times := BackStep(l.window, PerWindow(l)); Cadence(times) && !InvisibleAt(l, times)
  {
    var rounds := PerWindow(l);
    var times, last := BackStep(l.window, rounds), SWEEP_EVERY * rounds - 1;
    LastOfRound(rounds);
    AllNear(l.window, rounds, last, rounds - 1);
    NearGrows(l.window, times, 0, last, last + 1, rounds - 1);
    assert TellsAt(l, times, 0, last, last + 1);
    VisibleIfTellingAt(l, times);
  }

  // ------------------------------------------------------------------ how much is admitted

  /** How many requests of this target are admitted. */
  function Admitted(l: Limits, c: Counters, calls: seq<Call>, target: int): nat
    decreases |calls|
  {
    if |calls| == 0 then 0
    else
      var d, r := Ready(l, c, calls[0]), calls[0].request;
      (if r.target == target && Admits(l, d, r) then 1 else 0) + Admitted(l, Counted(l, d, r), calls[1..], target)
  }

  /** The most that one window lets through: a window's first request always passes. */
  function PerWindow(l: Limits): int {
    if l.limit < 1 then 1 else l.limit
  }

  predicate Within(l: Limits, c: Counters) {
    forall t :: t in c ==> 1 <= c[t].count <= PerWindow(l)
  }

  lemma {:induction false} WithinKept(l: Limits, c: Counters, calls: seq<Call>)
    requires Within(l, c)
    ensures Within(l, After(l, c, calls))
    decreases |calls|
  {
    if |calls| > 0 {
      assert Within(l, Ready(l, c, calls[0]));
      assert Within(l, Counted(l, Ready(l, c, calls[0]), calls[0].request));
      WithinKept(l, Counted(l, Ready(l, c, calls[0]), calls[0].request), calls[1..]);
    }
  }

  /** What the target can still get until `end`, if that is less than a window away. */
  function Room(l: Limits, c: Counters, target: int, end: int): int {
    if target !in c then PerWindow(l)
    else PerWindow(l) - c[target].count + if end - c[target].started < l.window then 0 else PerWindow(l)
  }

  lemma RoomFalls(l: Limits, c: Counters, call: Call, target: int, end: int)
    requires Within(l, c) && call.request.now <= end < call.request.now + l.window
    ensures var d, r := Ready(l, c, call), call.request;
      && Within(l, Counted(l, d, r))
      && Room(l, Counted(l, d, r), target, end)
         <= Room(l, c, target, end) - if r.target == target && Admits(l, d, r) then 1 else 0
  {
    var d := Ready(l, c, call);
    assert Within(l, d) && Room(l, d, target, end) <= Room(l, c, target, end);
  }

  lemma {:induction false} AdmittedWithinRoom(l: Limits, c: Counters, calls: seq<Call>, target: int, end: int)
    requires Within(l, c)
    requires forall i :: 0 <= i < |calls| ==> calls[i].request.now <= end < calls[i].request.now + l.window
    ensures Admitted(l, c, calls, target) <= Room(l, c, target, end)
    decreases |calls|
  {
    if |calls| > 0 {
      assert calls[0].request.now <= end < calls[0].request.now + l.window;
      RoomFalls(l, c, calls[0], target, end);
      AdmittedWithinRoom(l, Counted(l, Ready(l, c, calls[0]), calls[0].request), calls[1..], target, end);
    }
  }

  /** In any stretch of calls shorter than one window, whatever came before it and however
      sweeps are scheduled, a target gets less than twice its limit. */
  lemma LessThanTwicePerWindow(l: Limits, before: seq<Call>, stretch: seq<Call>, target: int, start: int)
    requires forall i :: 0 <= i < |stretch| ==> start <= stretch[i].request.now < start + l.window
    ensures Admitted(l, After(l, map[], before), stretch, target) <= 2 * PerWindow(l) - 1
  {
    WithinKept(l, map[], before);
    AdmittedWithinRoom(l, After(l, map[], before), stretch, target, start + l.window - 1);
  }

  /** A window that begins with an admitted request goes on admitting its target until that
      many are through, and then nobody: refusals and other targets use nothing up. */
  lemma WindowAnswers(l: Limits, c: Counters, first: Call, later: seq<Call>, last: Call)
    requires 0 < l.window
    requires var d, r := Ready(l, c, first), first.request;
      r.target !in d || r.now - d[r.target].started >= l.window
    requires forall i :: 0 <= i < |later| ==> later[i].request.now - first.request.now < l.window
    requires last.request.target == first.request.target && last.request.now - first.request.now < l.window
    ensures Admits(l, Ready(l, c, first), first.request)
    ensures Admits(l, Ready(l, After(l, c, [first] + later), last), last.request)
        <==> Admitted(l, c, [first] + later, first.request.target) < if l.limit < 1 then 1 else l.limit
  {
    var c' := Counted(l, Ready(l, c, first), first.request);
    assert ([first] + later)[1..] == later;
    WindowCounts(l, c', first.request.target, first.request.now, later);
  }

  lemma {:induction false} WindowCounts(l: Limits, c: Counters, target: int, start: int, calls: seq<Call>)
    requires 0 < l.window && target in c && c[target].started == start
    requires forall i :: 0 <= i < |calls| ==> calls[i].request.now - start < l.window
    ensures var c' := After(l, c, calls);
      target in c' && c'[target] == Counter(start, c[target].count + Admitted(l, c, calls, target))
    decreases |calls|
  {
    if |calls| > 0 {
      assert calls[0].request.now - start < l.window;
      WindowCounts(l, Counted(l, Ready(l, c, calls[0]), calls[0].request), target, start, calls[1..]);
    }
  }

  // The bound is met, for every limit, around the turn of a window.

  /** n requests of target 0 at one instant. */
  function Burst(n: nat, now: int): (calls: seq<Call>)
    ensures |calls| == n && forall i :: 0 <= i < n ==> calls[i].request.now == now
  {
    if n == 0 then [] else Burst(n - 1, now) + [Call(Request(0, now), false)]
  }

  lemma {:induction false} AdmittedSplit(l: Limits, c: Counters, a: seq<Call>, b: seq<Call>, target: int)
    ensures Admitted(l, c, a + b, target) == Admitted(l, c, a, target) + Admitted(l, After(l, c, a), b, target)
    decreases |a|
  {
    if |a| == 0 {
      assert a + b == b;
    } else {
      assert (a + b)[1..] == a[1..] + b;
      AdmittedSplit(l, Counted(l, Ready(l, c, a[0]), a[0].request), a[1..], b, target);
    }
  }

  lemma AdmittedOne(l: Limits, c: Counters, now: int)
    ensures var one := [Call(Request(0, now), false)];
      && Admitted(l, c, one, 0) == (if Admits(l, c, Request(0, now)) then 1 else 0)
      && After(l, c, one) == Counted(l, c, Request(0, now))
  {
    var one := [Call(Request(0, now), false)];
    assert one[1..] == [];
  }

  /** A burst that the window still has room for is admitted entirely. */
  lemma {:induction false} BurstPasses(l: Limits, c: Counters, n: nat, now: int)
    requires 0 in c && now - c[0].started < l.window && c[0].count + n <= l.limit
    ensures Admitted(l, c, Burst(n, now), 0) == n
    ensures After(l, c, Burst(n, now)) == c[0 := Counter(c[0].started, c[0].count + n)]
  {
    if n == 0 {
      assert c[0 := Counter(c[0].started, c[0].count)] == c;
    } else {
      var one := [Call(Request(0, now), false)];
      BurstPasses(l, c, n - 1, now);
      AdmittedSplit(l, c, Burst(n - 1, now), one, 0);
      AfterSplit(l, c, Burst(n - 1, now), one);
      AdmittedOne(l, After(l, c, Burst(n - 1, now)), now);
    }
  }

  /** A burst that starts a window of its own is admitted up to the limit. */
  lemma FreshBurstPasses(l: Limits, c: Counters, now: int)
    requires l.window > 0 && Restarts(l, c, Request(0, now))
    ensures Admitted(l, c, Burst(1, now) + Burst(PerWindow(l) - 1, now), 0) == PerWindow(l)
  {
    AdmittedSplit(l, c, Burst(1, now), Burst(PerWindow(l) - 1, now), 0);
    assert Burst(0, now) + [Call(Request(0, now), false)] == [Call(Request(0, now), false)];
    AdmittedOne(l, c, now);
    if l.limit > 1 {
      BurstPasses(l, Counted(l, c, Request(0, now)), PerWindow(l) - 1, now);
    }
  }

  /** The first request of a window, then, at its last instant and at the next window's first,
      as many as pass. */
  function Crowd(l: Limits): seq<Call>
    requires l.window > 1
  {
    Burst(PerWindow(l) - 1, l.window - 1) + (Burst(1, l.window) + Burst(PerWindow(l) - 1, l.window))
  }

  lemma BoundIsMet(l: Limits)
    requires l.window > 1
    ensures forall i :: 0 <= i < |Crowd(l)| ==> l.window - 1 <= Crowd(l)[i].request.now < l.window - 1 + l.window
    ensures Admitted(l, After(l, map[], Burst(1, 0)), Crowd(l), 0) == 2 * PerWindow(l) - 1
  {
    var w, p := l.window, PerWindow(l);
    var c: Counters := map[0 := Counter(0, 1)];
    assert Burst(0, 0) + [Call(Request(0, 0), false)] == [Call(Request(0, 0), false)];
    AdmittedOne(l, map[], 0);
    assert After(l, map[], Burst(1, 0)) == c;
    if p > 1 {
      BurstPasses(l, c, p - 1, w - 1);
    }
    var d := After(l, c, Burst(p - 1, w - 1));
    assert 0 in d && d[0].started == 0;
    AdmittedSplit(l, c, Burst(p - 1, w - 1), Burst(1, w) + Burst(p - 1, w), 0);
    FreshBurstPasses(l, d, w);
  }
}
