/** The limiters of the public preview: a request limiter with one shared window for all
    addresses, and a limiter of concurrent streams. Addresses are already normalised. */
module PublicLimiters {
  import opened Prelude

  // ------------------------------------------------------------------ requests

  datatype Limits = Limits(globalLimit: int, ipLimit: int, window: int)

  datatype Counts = Counts(started: Option<int>, count: nat, byIP: map<int, nat>)

  datatype Request = Request(now: int, ip: int)

  const Unused: Counts := Counts(None, 0, map[])

  function CountOf(c: Counts, ip: int): nat {
    if ip in c.byIP then c.byIP[ip] else 0
  }

  /** A new window forgets every address at once. */
  function Turned(l: Limits, c: Counts, now: int): Counts {
    if c.started.None? || now - c.started.value >= l.window then Counts(Some(now), 0, map[]) else c
  }

  predicate Admits(l: Limits, c: Counts, r: Request) {
    c.count < l.globalLimit && CountOf(c, r.ip) < l.ipLimit
  }

  function Counted(l: Limits, c: Counts, r: Request): Counts {
    if Admits(l, c, r) then c.(count := c.count + 1, byIP := c.byIP[r.ip := CountOf(c, r.ip) + 1]) else c
  }

  function Next(l: Limits, c: Counts, r: Request): Counts {
    Counted(l, Turned(l, c, r.now), r)
  }

  class RequestLimiter {
    const limits: Limits
    var started: Option<int>
    var count: nat
    var byIP: map<int, nat>

    ghost function State(): Counts
      reads this
    {
      Counts(started, count, byIP)
    }

    constructor (limits: Limits)
      ensures this.limits == limits && State() == Unused
    {
      this.limits := limits;
      started, count, byIP := None, 0, map[];
    }

    method Allow(r: Request) returns (ok: bool)
      modifies this
      ensures ok == Admits(limits, Turned(limits, old(State()), r.now), r)
      ensures State() == Next(limits, old(State()), r)
      ensures var turns := old(started).None? || r.now - old(started).value >= limits.window;
        var had := if turns || r.ip !in old(byIP) then 0 else old(byIP)[r.ip];
        var all := if turns then 0 else old(count);
        && (ok <==> all < limits.globalLimit && had < limits.ipLimit)
        && started == (if turns then Some(r.now) else old(started))
        && count == all + (if ok then 1 else 0)
        && byIP == var was := if turns then map[] else old(byIP); if ok then was[r.ip := had + 1] else was
    {
      if started == None || r.now - started.value >= limits.window {
        started, count, byIP := Some(r.now), 0, map[];
      }
      var ipCount := if r.ip in byIP then byIP[r.ip] else 0;
      if count >= limits.globalLimit || ipCount >= limits.ipLimit {
        return false;
      }
      count := count + 1;
      byIP := byIP[r.ip := ipCount + 1];
      ok := true;
    }
  }

  function After(l: Limits, c: Counts, requests: seq<Request>): Counts
    decreases |requests|
  {
    if |requests| == 0 then c else After(l, Next(l, c, requests[0]), requests[1..])
  }

  /** Whom to count: everybody, or one address. */
  datatype Whom = Everybody | Only(ip: int)

  predicate Concerns(w: Whom, ip: int) {
    w.Everybody? || w.ip == ip
  }

  function Admitted(l: Limits, c: Counts, requests: seq<Request>, w: Whom): nat
    decreases |requests|
  {
    if |requests| == 0 then 0
    else
      var r := requests[0];
      (if Concerns(w, r.ip) && Admits(l, Turned(l, c, r.now), r) then 1 else 0)
      + Admitted(l, Next(l, c, r), requests[1..], w)
  }

  /** Until a window has passed since the request that began it, one is answered yes exactly
      if fewer than the limits were, of all requests and of its own address: refusals use
      nothing up. */
  lemma WindowAnswers(l: Limits, c: Counts, first: Request, later: seq<Request>, last: Request)
    requires c.started.None? || first.now - c.started.value >= l.window
    requires 0 < l.window && last.now - first.now < l.window
    requires forall i :: 0 <= i < |later| ==> later[i].now - first.now < l.window
    ensures Admits(l, Turned(l, After(l, c, [first] + later), last.now), last)
        <==> (Admitted(l, c, [first] + later, Everybody) < l.globalLimit
          && Admitted(l, c, [first] + later, Only(last.ip)) < l.ipLimit)
  {
    var t := Counts(Some(first.now), 0, map[]);
    WindowCounts(l, t, first.now, [first] + later, last.ip);
    assert ([first] + later)[0] == first;
    assert Turned(l, c, first.now) == t == Turned(l, t, first.now);
  }

  lemma {:induction false} WindowCounts(l: Limits, c: Counts, start: int, requests: seq<Request>, ip: int)
    requires c.started == Some(start)
    requires forall i :: 0 <= i < |requests| ==> requests[i].now - start < l.window
    ensures var c' := After(l, c, requests);
      && c'.started == Some(start)
      && c'.count == c.count + Admitted(l, c, requests, Everybody)
      && CountOf(c', ip) == CountOf(c, ip) + Admitted(l, c, requests, Only(ip))
    decreases |requests|
  {
    if |requests| > 0 {
      assert requests[0].now - start < l.window;
      assert Turned(l, c, requests[0].now) == c;
      WindowCounts(l, Next(l, c, requests[0]), start, requests[1..], ip);
    }
  }

  function LimitFor(l: Limits, w: Whom): nat {
    var n := if w.Everybody? then l.globalLimit else l.ipLimit;
    if n < 0 then 0 else n
  }

  function CountFor(c: Counts, w: Whom): nat {
    if w.Everybody? then c.count else CountOf(c, w.ip)
  }

  predicate Within(l: Limits, c: Counts, w: Whom) {
    CountFor(c, w) <= LimitFor(l, w)
  }

  function Room(l: Limits, c: Counts, w: Whom, end: int): int {
    if c.started.None? then LimitFor(l, w)
    else LimitFor(l, w) - CountFor(c, w) + if end - c.started.value < l.window then 0 else LimitFor(l, w)
  }

  lemma NextWithin(l: Limits, c: Counts, r: Request, w: Whom)
    requires Within(l, c, w)
    ensures Within(l, Next(l, c, r), w)
  {
  }

  lemma {:induction false} WithinKept(l: Limits, c: Counts, requests: seq<Request>, w: Whom)
    requires Within(l, c, w)
    ensures Within(l, After(l, c, requests), w)
    decreases |requests|
  {
    if |requests| > 0 {
      NextWithin(l, c, requests[0], w);
      WithinKept(l, Next(l, c, requests[0]), requests[1..], w);
    }
  }

  lemma {:induction false} AdmittedWithinRoom(l: Limits, c: Counts, requests: seq<Request>, w: Whom, end: int)
    requires Within(l, c, w) && (c.started.None? ==> CountFor(c, w) == 0)
    requires forall i :: 0 <= i < |requests| ==> requests[i].now <= end < requests[i].now + l.window
    ensures Admitted(l, c, requests, w) <= Room(l, c, w, end)
    decreases |requests|
  {
    if |requests| > 0 {
      var r := requests[0];
      assert r.now <= end < r.now + l.window;
      NextWithin(l, c, r, w);
      var t := Turned(l, c, r.now);
      assert Room(l, t, w, end) <= Room(l, c, w, end);
      AdmittedWithinRoom(l, Next(l, c, r), requests[1..], w, end);
    }
  }

  lemma {:induction false} UnstartedIsEmpty(l: Limits, c: Counts, requests: seq<Request>, w: Whom)
    requires c.started.None? ==> CountFor(c, w) == 0
    ensures After(l, c, requests).started.None? ==> CountFor(After(l, c, requests), w) == 0
    decreases |requests|
  {
    if |requests| > 0 {
      UnstartedIsEmpty(l, Next(l, c, requests[0]), requests[1..], w);
    }
  }

  /** With both limits positive, the request that turns the window is admitted. */
  predicate Begun(l: Limits, c: Counts) {
    c.started.Some? && 0 < l.globalLimit && 0 < l.ipLimit ==> c.count > 0
  }

  lemma {:induction false} BegunKept(l: Limits, c: Counts, requests: seq<Request>)
    requires Begun(l, c)
    ensures Begun(l, After(l, c, requests))
    decreases |requests|
  {
    if |requests| > 0 {
      BegunKept(l, Next(l, c, requests[0]), requests[1..]);
    }
  }

  lemma {:induction false} NobodyExceedsEverybody(l: Limits, c: Counts, requests: seq<Request>, w: Whom)
    ensures Admitted(l, c, requests, w) <= Admitted(l, c, requests, Everybody)
    decreases |requests|
  {
    if |requests| > 0 {
      NobodyExceedsEverybody(l, Next(l, c, requests[0]), requests[1..], w);
    }
  }

  lemma {:induction false} NoneWithoutLimit(l: Limits, c: Counts, requests: seq<Request>)
    requires l.globalLimit <= 0 || l.ipLimit <= 0
    ensures Admitted(l, c, requests, Everybody) == 0
    decreases |requests|
  {
    if |requests| > 0 {
      NoneWithoutLimit(l, Next(l, c, requests[0]), requests[1..]);
    }
  }

  /** The most that can pass in less than one window. An address can get its limit twice, if
      another one's request turned the window; altogether, and for an address that could
      use up everything, the request that turned the earlier window comes off. */
  function Most(l: Limits, w: Whom): nat {
    if l.globalLimit <= 0 || l.ipLimit <= 0 then 0
    else if w.Everybody? || l.globalLimit <= l.ipLimit then 2 * l.globalLimit - 1
    else 2 * l.ipLimit
  }

  /** In any stretch of requests shorter than one window, whatever came before. */
  lemma AtMostTwiceTheLimit(l: Limits, before: seq<Request>, stretch: seq<Request>, w: Whom, start: int)
    requires forall i :: 0 <= i < |stretch| ==> start <= stretch[i].now < start + l.window
    ensures Admitted(l, After(l, Unused, before), stretch, w) <= Most(l, w) <= 2 * LimitFor(l, w)
  {
    var c, end := After(l, Unused, before), start + l.window - 1;
    NobodyExceedsEverybody(l, c, stretch, w);
    if l.globalLimit <= 0 || l.ipLimit <= 0 {
      NoneWithoutLimit(l, c, stretch);
    } else {
      var v := if w.Everybody? || l.globalLimit <= l.ipLimit then Everybody else w;
      WithinKept(l, Unused, before, v);
      UnstartedIsEmpty(l, Unused, before, v);
      BegunKept(l, Unused, before);
      AdmittedWithinRoom(l, c, stretch, v, end);
    }
  }

  // The bound is met, for all limits, around the turn of a window.

  /** n requests at one instant, from different addresses or all from address 0. */
  function Burst(n: nat, now: int, different: bool): (r: seq<Request>)
    ensures |r| == n && forall i :: 0 <= i < n ==> r[i].now == now
  {
    if n == 0 then [] else Burst(n - 1, now, different) + [Request(now, if different then n - 1 else 0)]
  }

  lemma {:induction false} AfterSplit(l: Limits, c: Counts, a: seq<Request>, b: seq<Request>)
    ensures After(l, c, a + b) == After(l, After(l, c, a), b)
    decreases |a|
  {
    if |a| == 0 {
      assert a + b == b;
    } else {
      assert (a + b)[1..] == a[1..] + b;
      AfterSplit(l, Next(l, c, a[0]), a[1..], b);
    }
  }

  lemma {:induction false} AdmittedSplit(l: Limits, c: Counts, a: seq<Request>, b: seq<Request>, w: Whom)
    ensures Admitted(l, c, a + b, w) == Admitted(l, c, a, w) + Admitted(l, After(l, c, a), b, w)
    decreases |a|
  {
    if |a| == 0 {
      assert a + b == b;
    } else {
      assert (a + b)[1..] == a[1..] + b;
      AdmittedSplit(l, Next(l, c, a[0]), a[1..], b, w);
    }
  }

  lemma AdmittedOne(l: Limits, c: Counts, r: Request, w: Whom)
    ensures Admitted(l, c, [r], w) == if Concerns(w, r.ip) && Admits(l, Turned(l, c, r.now), r) then 1 else 0
    ensures After(l, c, [r]) == Next(l, c, r)
  {
    assert [r][1..] == [];
  }

  /** There is room for the burst, in all and for its addresses. */
  predicate HasRoom(l: Limits, c: Counts, n: nat, different: bool) {
    && c.count + n <= l.globalLimit
    && (if different then 0 < l.ipLimit && forall ip :: 0 <= ip < n ==> ip !in c.byIP else CountOf(c, 0) + n <= l.ipLimit)
  }

  /** The counts after a burst that passed entirely. */
  function Filled(c: Counts, n: nat, different: bool): Counts {
    if n == 0 then c
    else
      var d, ip := Filled(c, n - 1, different), if different then n - 1 else 0;
      d.(count := d.count + 1, byIP := d.byIP[ip := CountOf(d, ip) + 1])
  }

  lemma {:induction false} FilledFields(c: Counts, n: nat, different: bool, ip: int)
    ensures var d := Filled(c, n, different);
      && d.started == c.started && d.count == c.count + n
      && (!different ==> CountOf(d, 0) == CountOf(c, 0) + n)
      && (different && ip >= n ==> CountOf(d, ip) == CountOf(c, ip))
  {
    if n > 0 {
      FilledFields(c, n - 1, different, ip);
    }
  }

  /** Whom a burst is counted for: all of it for everybody, and for address 0 if it is its own. */
  predicate CountsAll(w: Whom, different: bool) {
    w.Everybody? || (w == Only(0) && !different)
  }

  lemma LastPasses(l: Limits, c: Counts, n: nat, now: int, different: bool)
    requires c.started.Some? && now - c.started.value < l.window && HasRoom(l, c, n, different) && n > 0
    ensures var d, last := Filled(c, n - 1, different), Request(now, if different then n - 1 else 0);
      Turned(l, d, now) == d && Admits(l, d, last) && Next(l, d, last) == Filled(c, n, different)
  {
    FilledFields(c, n - 1, different, n - 1);
  }

  lemma {:induction false} BurstPasses(l: Limits, c: Counts, n: nat, now: int, different: bool, w: Whom)
    requires c.started.Some? && now - c.started.value < l.window && HasRoom(l, c, n, different) && CountsAll(w, different)
    ensures Admitted(l, c, Burst(n, now, different), w) == n
    ensures After(l, c, Burst(n, now, different)) == Filled(c, n, different)
  {
    if n > 0 {
      var front, last := Burst(n - 1, now, different), Request(now, if different then n - 1 else 0);
      assert HasRoom(l, c, n - 1, different);
      BurstPasses(l, c, n - 1, now, different, w);
      AdmittedSplit(l, c, front, [last], w);
      AfterSplit(l, c, front, [last]);
      LastPasses(l, c, n, now, different);
      AdmittedOne(l, Filled(c, n - 1, different), last, w);
    }
  }

  /** A request that finds the window over begins a new one, whatever came before. */
  lemma {:induction false} BurstTurns(l: Limits, c: Counts, n: nat, now: int, different: bool, w: Whom)
    requires 0 < l.window && n > 0
    ensures Admitted(l, c, Burst(n, now, different), w) == Admitted(l, Turned(l, c, now), Burst(n, now, different), w)
    ensures After(l, c, Burst(n, now, different)) == After(l, Turned(l, c, now), Burst(n, now, different))
  {
    var first := Burst(n, now, different)[0];
    assert Turned(l, Turned(l, c, now), now) == Turned(l, c, now);
    assert Next(l, c, first) == Next(l, Turned(l, c, now), first);
  }

  /** How many pass in each window, and whether from different addresses. */
  function Share(l: Limits, w: Whom): int {
    if w.Everybody? || l.globalLimit <= l.ipLimit then l.globalLimit else l.ipLimit
  }

  /** In the earlier window one request has gone to whoever turned it. */
  function EarlierShare(l: Limits, w: Whom): int {
    if w.Everybody? || l.globalLimit <= l.ipLimit then l.globalLimit - 1 else l.ipLimit
  }

  function Crowd(l: Limits, w: Whom): seq<Request>
    requires 0 < l.globalLimit && 0 < l.ipLimit
  {
    Burst(EarlierShare(l, w), l.window - 1, w.Everybody?) + Burst(Share(l, w), l.window, w.Everybody?)
  }

  /** The request that turns the earlier window: the address's own, if it could use up
      everything by itself, and another's otherwise. */
  function Turner(l: Limits, w: Whom): Request {
    Request(0, if w.Only? && l.globalLimit <= l.ipLimit then 0 else -1)
  }

  /** The counts once the earlier window has been turned. */
  function TurnedBy(r: Request): Counts {
    Counts(Some(r.now), 1, map[r.ip := 1])
  }

  lemma TurnerPasses(l: Limits, r: Request)
    requires 0 < l.globalLimit && 0 < l.ipLimit
    ensures After(l, Unused, [r]) == TurnedBy(r)
  {
    AdmittedOne(l, Unused, r, Everybody);
  }

  lemma RoomForShares(l: Limits, w: Whom)
    requires 0 < l.globalLimit && 0 < l.ipLimit && (w.Everybody? || w == Only(0))
    ensures HasRoom(l, TurnedBy(Turner(l, w)), EarlierShare(l, w), w.Everybody?)
    ensures HasRoom(l, Unused, Share(l, w), w.Everybody?)
    ensures EarlierShare(l, w) + Share(l, w) == Most(l, w)
  {
  }

  lemma EarlierPasses(l: Limits, w: Whom)
    requires 1 < l.window && 0 < l.globalLimit && 0 < l.ipLimit && (w.Everybody? || w == Only(0))
    ensures var c, burst := TurnedBy(Turner(l, w)), Burst(EarlierShare(l, w), l.window - 1, w.Everybody?);
      Admitted(l, c, burst, w) == EarlierShare(l, w) && After(l, c, burst).started == Some(0)
  {
    var c, n := TurnedBy(Turner(l, w)), EarlierShare(l, w);
    RoomForShares(l, w);
    BurstPasses(l, c, n, l.window - 1, w.Everybody?, w);
    FilledFields(c, n, w.Everybody?, 0);
  }

  /** For every pair of limits and every window longer than an instant there is a run that
      reaches the bound, in all and for an address. */
  lemma MostIsMet(l: Limits, w: Whom)
    requires 1 < l.window && 0 < l.globalLimit && 0 < l.ipLimit && (w.Everybody? || w == Only(0))
    ensures forall i :: 0 <= i < |Crowd(l, w)| ==> l.window - 1 <= Crowd(l, w)[i].now < l.window - 1 + l.window
    ensures Admitted(l, After(l, Unused, [Turner(l, w)]), Crowd(l, w), w) == Most(l, w)
  {
    var c := TurnedBy(Turner(l, w));
    var earlier, later := Burst(EarlierShare(l, w), l.window - 1, w.Everybody?), Burst(Share(l, w), l.window, w.Everybody?);
    TurnerPasses(l, Turner(l, w));
    RoomForShares(l, w);
    EarlierPasses(l, w);
    AdmittedSplit(l, c, earlier, later, w);
    NextWindowPasses(l, After(l, c, earlier), Share(l, w), w.Everybody?, w);
  }

  lemma NextWindowPasses(l: Limits, d: Counts, m: nat, different: bool, w: Whom)
    requires 0 < l.window && d.started == Some(0) && m > 0 && HasRoom(l, Unused, m, different) && CountsAll(w, different)
    ensures Admitted(l, d, Burst(m, l.window, different), w) == m
  {
    BurstTurns(l, d, m, l.window, different, w);
    var e := Counts(Some(l.window), 0, map[]);
    assert Turned(l, d, l.window) == e;
    BurstPasses(l, e, m, l.window, different, w);
  }

  // ------------------------------------------------------------------ streams

  /** What a successful acquire returns: its release runs once. */
  datatype Handle = Handle(ip: int, released: bool)

  function Outstanding(handles: seq<Handle>, ip: int): nat
    decreases |handles|
  {
    if |handles| == 0 then 0
    else
      var last := handles[|handles| - 1];
      Outstanding(handles[..|handles| - 1], ip) + if last.ip == ip && !last.released then 1 else 0
  }

  lemma OutstandingAfterAcquire(handles: seq<Handle>, ip: int, other: int)
    ensures Outstanding(handles + [Handle(ip, false)], other)
         == Outstanding(handles, other) + if other == ip then 1 else 0
  {
    assert (handles + [Handle(ip, false)])[..|handles|] == handles;
  }

  lemma {:induction false} OutstandingAfterRelease(handles: seq<Handle>, h: nat, other: int)
    requires h < |handles| && !handles[h].released
    ensures Outstanding(handles[h := handles[h].(released := true)], other)
         == Outstanding(handles, other) - if other == handles[h].ip then 1 else 0
    decreases |handles|
  {
    var n := |handles| - 1;
    var after := handles[h := handles[h].(released := true)];
    if h < n {
      assert after[..n] == handles[..n][h := handles[h].(released := true)];
      OutstandingAfterRelease(handles[..n], h, other);
    } else {
      assert after[..n] == handles[..n];
    }
  }

  class StreamLimiter {
    const ipLimit: int
    var byIP: map<int, int>
    var handles: seq<Handle>

    /** The table counts exactly the streams that are still open, within the limit, and has
        no entry for an address without streams. */
    ghost predicate Valid()
      reads this
    {
      && (forall ip :: ip in byIP ==> byIP[ip] == Outstanding(handles, ip) && 0 < byIP[ip] <= ipLimit)
      && (forall ip :: Outstanding(handles, ip) > 0 ==> ip in byIP)
    }

    constructor (ipLimit: int)
      ensures Valid() && this.ipLimit == ipLimit && handles == []
    {
      this.ipLimit := ipLimit;
      byIP, handles := map[], [];
    }

    method Acquire(ip: int) returns (r: Option<nat>)
      requires Valid()
      modifies this
      ensures Valid()
      ensures r.None? <==> old(Outstanding(handles, ip)) >= ipLimit
      ensures r.None? ==> handles == old(handles)
      ensures r.Some? ==> r.value == old(|handles|) && handles == old(handles) + [Handle(ip, false)]
    {
      var open := if ip in byIP then byIP[ip] else 0;
      assert open == Outstanding(handles, ip);
      if open >= ipLimit {
        return None;
      }
      byIP := byIP[ip := open + 1];
      forall other ensures Outstanding(handles + [Handle(ip, false)], other)
                        == Outstanding(handles, other) + if other == ip then 1 else 0 {
        OutstandingAfterAcquire(handles, ip, other);
      }
      handles := handles + [Handle(ip, false)];
      r := Some(|handles| - 1);
    }

    /** Releasing twice is the same as releasing once. */
    method Release(h: nat)
      requires Valid() && h < |handles|
      modifies this
      ensures Valid()
      ensures handles == old(handles)[h := Handle(old(handles)[h].ip, true)]
      ensures forall ip :: Outstanding(handles, ip)
                == old(Outstanding(handles, ip)) - if ip == old(handles)[h].ip && !old(handles)[h].released then 1 else 0
    {
      var handle := handles[h];
      if handle.released {
        assert handles == handles[h := Handle(handle.ip, true)];
        return;
      }
      forall other ensures Outstanding(handles[h := handle.(released := true)], other)
                        == Outstanding(handles, other) - if other == handle.ip then 1 else 0 {
        OutstandingAfterRelease(handles, h, other);
      }
      handles := handles[h := handle.(released := true)];
      byIP := byIP[handle.ip := byIP[handle.ip] - 1];
      if byIP[handle.ip] == 0 {
        byIP := byIP - {handle.ip};
      }
    }
  }
}
