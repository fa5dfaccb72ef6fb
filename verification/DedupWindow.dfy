/** The deduplication window of agent/logins/utmp.go: a set of recently recorded session
    keys, ordered by a slice that is compacted only now and then. */
module DedupWindow {
  import opened Prelude

  const MAX_SEEN_KEYS := 4096
  const EVICTED := 1024

  datatype Record = Record(user: string, tty: string, ip: string, time: int)

  function Decimal(n: nat): string {
    if n < 10 then [('0' as int + n) as char] else Decimal(n / 10) + [('0' as int + n % 10) as char]
  }

  function FormatInt(n: int): string {
    if n < 0 then "-" + Decimal(-n) else Decimal(n)
  }

  /** The text a session is recognised by. */
  datatype SessionKey = SessionKey(text: string)

  function Key(r: Record): SessionKey {
    SessionKey(r.user + "|" + r.tty + "|" + r.ip + "|" + FormatInt(r.time))
  }

  function KeysOf(records: seq<Record>): (keys: seq<SessionKey>)
    ensures |keys| == |records|
  {
    seq(|records|, i requires 0 <= i < |records| => Key(records[i]))
  }

  // ------------------------------------------------------------------ the window as a sequence

  /** A full window first loses its oldest quarter. */
  function Evicted<K>(w: seq<K>): seq<K> {
    if MAX_SEEN_KEYS <= |w| then w[EVICTED..] else w
  }

  function Recorded<K(==)>(w: seq<K>, key: K): seq<K> {
    if key in w then w else Evicted(w) + [key]
  }

  /** The window after a run of keys. */
  function Window<K(==)>(w: seq<K>, keys: seq<K>): seq<K>
    decreases |keys|
  {
    if |keys| == 0 then w else Window(Recorded(w, keys[0]), keys[1..])
  }

  /** Whether each key of the run was unseen when it came. */
  function Unseen<K(==)>(w: seq<K>, keys: seq<K>): (news: seq<bool>)
    ensures |news| == |keys|
    decreases |keys|
  {
    if |keys| == 0 then [] else [keys[0] !in w] + Unseen(Recorded(w, keys[0]), keys[1..])
  }

  /** The elements the flags select, in order. */
  function Selected<T>(items: seq<T>, flags: seq<bool>): seq<T>
    requires |items| == |flags|
    decreases |items|
  {
    if |items| == 0 then [] else
      var rest := Selected(items[1..], flags[1..]);
      if flags[0] then [items[0]] + rest else rest
  }

  /** One key's worth of a run. */
  lemma OneKey<K, T>(w: seq<K>, keys: seq<K>, items: seq<T>)
    requires 0 < |keys| == |items|
    ensures Window(w, keys) == Window(Recorded(w, keys[0]), keys[1..])
    ensures Selected(items, Unseen(w, keys))
         == (if keys[0] in w then [] else [items[0]]) + Selected(items[1..], Unseen(Recorded(w, keys[0]), keys[1..]))
  {
    assert Unseen(w, keys)[1..] == Unseen(Recorded(w, keys[0]), keys[1..]);
  }

  lemma {:induction false} DistinctSize<K>(w: seq<K>)
    requires Distinct(w)
    ensures |Elements(w)| == |w|
  {
    if |w| > 0 {
      var rest, last := w[..|w| - 1], w[|w| - 1];
      DistinctSize(rest);
      assert w == rest + [last] && last !in rest;
      assert forall k :: k in Elements(w) <==> k in Elements(rest) || k == last;
      assert Elements(w) == Elements(rest) + {last};
    }
  }

  lemma DropFirst<K>(w: seq<K>)
    requires w != [] && Distinct(w)
    ensures Elements(w[1..]) == Elements(w) - {w[0]}
  {
    assert w == [w[0]] + w[1..];
  }

  lemma AddLast<K>(w: seq<K>, key: K)
    requires Distinct(w) && key !in w
    ensures Distinct(w + [key]) && Elements(w + [key]) == Elements(w) + {key}
  {
  }

  lemma SuffixGrows<K>(s: seq<K>, i: nat, key: K)
    requires i <= |s|
    ensures (s + [key])[i..] == s[i..] + [key]
  {
  }

  lemma RecordedDistinct<K>(w: seq<K>, key: K)
    requires Distinct(w) && |w| <= MAX_SEEN_KEYS
    ensures Distinct(Recorded(w, key)) && |Recorded(w, key)| <= MAX_SEEN_KEYS && key in Recorded(w, key)
  {
  }

  lemma KeysOfFirst(records: seq<Record>)
    requires |records| > 0
    ensures KeysOf(records)[0] == Key(records[0]) && KeysOf(records)[1..] == KeysOf(records[1..])
  {
  }

  lemma Regrouped<T>(a: seq<T>, b: seq<T>, c: seq<T>)
    ensures a + (b + c) == a + b + c
  {
  }

  /** What a run from window w0 comes to is what was found and what the records left come to. */
  ghost predicate RoundsLeft(w0: seq<SessionKey>, records: seq<Record>, w: seq<SessionKey>, found: seq<Record>, left: seq<Record>) {
    && Window(w0, KeysOf(records)) == Window(w, KeysOf(left))
    && Selected(records, Unseen(w0, KeysOf(records))) == found + Selected(left, Unseen(w, KeysOf(left)))
  }

  lemma NextRound(w0: seq<SessionKey>, records: seq<Record>, w: seq<SessionKey>, found: seq<Record>, left: seq<Record>)
    requires |left| > 0 && RoundsLeft(w0, records, w, found, left)
    ensures var key := Key(left[0]);
      RoundsLeft(w0, records, Recorded(w, key), found + (if key in w then [] else [left[0]]), left[1..])
  {
    var key, rest := Key(left[0]), left[1..];
    OneKey(w, KeysOf(left), left);
    KeysOfFirst(left);
    Regrouped(found, if key in w then [] else [left[0]], Selected(rest, Unseen(Recorded(w, key), KeysOf(rest))));
  }

  lemma FirstRound(w: seq<SessionKey>, records: seq<Record>)
    ensures RoundsLeft(w, records, w, [], records[0..])
  {
    assert records[0..] == records;
  }

  lemma LastRound(w0: seq<SessionKey>, records: seq<Record>, w: seq<SessionKey>, found: seq<Record>)
    requires RoundsLeft(w0, records, w, found, [])
    ensures w == Window(w0, KeysOf(records)) && found == Selected(records, Unseen(w0, KeysOf(records)))
  {
  }

  // ------------------------------------------------------------------ scanState

  class ScanState {
    var seen: set<SessionKey>
    var order: seq<SessionKey>
    var head: nat
    var seeded: bool

    /** What the window holds, oldest first. */
    ghost function Keys(): seq<SessionKey>
      reads this
      requires head <= |order|
    {
      order[head..]
    }

    /** `seen` is the key set of the live part of `order`, which has no duplicates and at
        most 4096 keys; the dead part never exceeds 3072, so `order` stays within 7168. */
    ghost predicate Valid()
      reads this
    {
      && head <= |order|
      && (head == 0 || head == EVICTED || head == 2 * EVICTED || head == 3 * EVICTED)
      && Distinct(Keys())
      && seen == Elements(Keys())
      && |Keys()| <= MAX_SEEN_KEYS
      && |order| <= 7168
    }

    constructor ()
      ensures Valid() && Keys() == [] && !seeded
    {
      seen, order, head, seeded := {}, [], 0, false;
    }

    /** evictOldest: forget a quarter of a full window; compact once the head has passed it all. */
    method EvictOldest()
      requires Valid() && |Keys()| == MAX_SEEN_KEYS
      modifies this`seen, this`order, this`head
      ensures Valid() && Keys() == old(Keys())[EVICTED..]
    {
      ghost var was := Keys();
      for i := 0 to EVICTED
        invariant order == old(order) && head == old(head) + i
        invariant seen == Elements(was[i..])
      {
        assert was[i..][0] == order[head] && was[i..][1..] == was[i + 1..];
        DropFirst(was[i..]);
        seen := seen - {order[head]};
        head := head + 1;
      }
      assert order[head..] == was[EVICTED..];
      if head >= MAX_SEEN_KEYS {
        order := order[head..];
        head := 0;
      }
    }

    /** One round of ingest's loop. */
    method Record(key: SessionKey) returns (unseen: bool)
      requires Valid()
      modifies this`seen, this`order, this`head
      ensures Valid() && Keys() == Recorded(old(Keys()), key) && unseen == (key !in old(Keys()))
      ensures Keys() == if !unseen then old(Keys())
                        else if |old(Keys())| < 4096 then old(Keys()) + [key] else old(Keys())[1024..] + [key]
    {
      ghost var w := Keys();
      unseen := key !in seen;
      if unseen {
        DistinctSize(w);
        if |seen| >= MAX_SEEN_KEYS {
          EvictOldest();
        }
        ghost var e := Keys();
        assert e == Evicted(w) && key !in e;
        AddLast(e, key);
        SuffixGrows(order, head, key);
        seen := seen + {key};
        order := order + [key];
      }
    }

    /** ingest's loop. */
    method RecordAll(records: seq<Record>) returns (news: seq<Record>)
      requires Valid()
      modifies this`seen, this`order, this`head
      ensures Valid() && Keys() == Window(old(Keys()), KeysOf(records))
      ensures news == if seeded then Selected(records, Unseen(old(Keys()), KeysOf(records))) else []
    {
      news := [];
      ghost var w, found: seq<Record> := Keys(), [];
      FirstRound(w, records);
      for i := 0 to |records|
        invariant Valid() && Keys() == w
        invariant RoundsLeft(old(Keys()), records, w, found, records[i..])
        invariant news == if seeded then found else []
      {
        NextRound(old(Keys()), records, w, found, records[i..]);
        assert records[i..][1..] == records[i + 1..];
        var unseen := Record(Key(records[i]));
        found, w := found + (if unseen then [records[i]] else []), Recorded(w, Key(records[i]));
        if unseen && seeded {
          news := news + [records[i]];
        }
      }
      LastRound(old(Keys()), records, w, found);
    }

    /** ingest: record unseen keys and return their records, none on the first call. */
    method Ingest(records: seq<Record>) returns (news: seq<Record>)
      requires Valid()
      modifies this
      ensures Valid() && seeded
      ensures Keys() == Window(old(Keys()), KeysOf(records))
      ensures news == if old(seeded) then Selected(records, Unseen(old(Keys()), KeysOf(records))) else []
    {
      news := RecordAll(records);
      seeded := true;
    }
  }

  // ------------------------------------------------------------------ how soon a key can come back

  /** The keys recorded in the course of a run: each unseen one, in order. */
  function RecordedKeys<K(==)>(w: seq<K>, keys: seq<K>): seq<K> {
    Selected(keys, Unseen(w, keys))
  }

  const GAP := MAX_SEEN_KEYS - EVICTED

  /** Key number j of the history does not occur among the 3072 keys recorded just before
      it, and those are all different. */
  predicate ApartAt<K(==)>(hist: seq<K>, j: nat) {
    GAP <= j < |hist| && Distinct(hist[j - GAP..j]) && hist[j] !in hist[j - GAP..j]
  }

  predicate Repeats<K(==)>(hist: seq<K>, i: nat, j: nat) {
    i < j < |hist| && hist[i] == hist[j]
  }

  /** Two occurrences of one key are more than 3072 recordings apart. */
  ghost predicate WellSpaced<K>(hist: seq<K>) {
    forall i: nat, j: nat :: Repeats(hist, i, j) ==> i + GAP < j && ApartAt(hist, j)
  }

  /** The window is the end of the history: all of it, or at least its last 3072 keys. */
  predicate EndOf<K(==)>(w: seq<K>, hist: seq<K>) {
    && |w| <= |hist| && w == hist[|hist| - |w|..]
    && (|w| == |hist| || GAP <= |w|)
    && |w| <= MAX_SEEN_KEYS && Distinct(w)
  }

  lemma EndKept<K>(w: seq<K>, hist: seq<K>, key: K)
    requires EndOf(w, hist) && key !in w
    ensures EndOf(Recorded(w, key), hist + [key])
  {
    RecordedDistinct(w, key);
    var e := Evicted(w);
    assert e == hist[|hist| - |e|..];
    assert e + [key] == (hist + [key])[|hist| - |e|..];
  }

  lemma InTail<K>(hist: seq<K>, m: nat, i: nat)
    requires m <= |hist| && i < |hist|
    ensures |hist| - m <= i ==> hist[i] in hist[|hist| - m..]
  {
    if |hist| - m <= i {
      assert hist[i] == hist[|hist| - m..][i - (|hist| - m)];
    }
  }

  lemma NewKeyApart<K>(w: seq<K>, hist: seq<K>, key: K, i: nat)
    requires EndOf(w, hist) && key !in w && i < |hist| && hist[i] == key
    ensures i + GAP < |hist| && ApartAt(hist + [key], |hist|)
  {
    var n, m := |hist|, |w|;
    InTail(hist, m, i);
    assert (hist + [key])[n - GAP..n] == w[m - GAP..];
  }

  lemma SpacingKept<K>(w: seq<K>, hist: seq<K>, key: K)
    requires EndOf(w, hist) && WellSpaced(hist) && key !in w
    ensures WellSpaced(hist + [key])
  {
    var h, n := hist + [key], |hist|;
    forall i: nat, j: nat | Repeats(h, i, j)
      ensures i + GAP < j && ApartAt(h, j)
    {
      if j < n {
        assert Repeats(hist, i, j);
        assert h[j - GAP..j] == hist[j - GAP..j];
      } else {
        NewKeyApart(w, hist, key, i);
      }
    }
  }

  /** The history as it grows, key by key. */
  function Extended<K(==)>(w: seq<K>, hist: seq<K>, keys: seq<K>): seq<K>
    decreases |keys|
  {
    if |keys| == 0 then hist
    else Extended(Recorded(w, keys[0]), if keys[0] in w then hist else hist + [keys[0]], keys[1..])
  }

  lemma {:induction false} ExtendedIsAppended<K>(w: seq<K>, hist: seq<K>, keys: seq<K>)
    ensures Extended(w, hist, keys) == hist + RecordedKeys(w, keys)
    decreases |keys|
  {
    if |keys| > 0 {
      OneKey(w, keys, keys);
      ExtendedIsAppended(Recorded(w, keys[0]), if keys[0] in w then hist else hist + [keys[0]], keys[1..]);
    }
  }

  /** A run of keys keeps the window the end of a well-spaced history, so runs can follow one
      another: one call of ingest after the other. */
  lemma {:induction false} RunFits<K>(w: seq<K>, hist: seq<K>, keys: seq<K>)
    requires EndOf(w, hist) && WellSpaced(hist)
    ensures EndOf(Window(w, keys), Extended(w, hist, keys)) && WellSpaced(Extended(w, hist, keys))
    decreases |keys|
  {
    if |keys| > 0 {
      if keys[0] !in w {
        SpacingKept(w, hist, keys[0]);
        EndKept(w, hist, keys[0]);
      }
      RunFits(Recorded(w, keys[0]), if keys[0] in w then hist else hist + [keys[0]], keys[1..]);
    }
  }

  /** Every key of a run is in the history afterwards. */
  lemma {:induction false} RunRecords<K>(w: seq<K>, hist: seq<K>, keys: seq<K>, key: K)
    requires EndOf(w, hist) && (key in keys || key in hist)
    ensures key in Extended(w, hist, keys)
    decreases |keys|
  {
    if |keys| > 0 {
      assert keys == [keys[0]] + keys[1..];
      if keys[0] !in w {
        EndKept(w, hist, keys[0]);
      }
      RunRecords(Recorded(w, keys[0]), if keys[0] in w then hist else hist + [keys[0]], keys[1..], key);
    }
  }

  /** Between recordings i and j at least 3072 keys were recorded, all different and other
      than key j. */
  predicate FarApart<K(==)>(hist: seq<K>, i: nat, j: nat) {
    && i + GAP < j < |hist|
    && |Elements(hist[j - GAP..j])| == 3072 && hist[j] !in Elements(hist[j - GAP..j])
  }

  lemma WellSpacedIsFarApart<K>(hist: seq<K>, i: nat, j: nat)
    requires WellSpaced(hist) && Repeats(hist, i, j)
    ensures FarApart(hist, i, j)
  {
    assert ApartAt(hist, j);
    DistinctSize(hist[j - GAP..j]);
  }

  /** In whatever order keys come, between two recordings (so between two reports) of one
      key at least 3072 other, distinct keys were recorded. */
  lemma ReportsFarApart<K>(keys: seq<K>, i: nat, j: nat)
    requires Repeats(RecordedKeys([], keys), i, j)
    ensures FarApart(RecordedKeys([], keys), i, j)
  {
    RunFits([], [], keys);
    ExtendedIsAppended([], [], keys);
    assert [] + RecordedKeys([], keys) == RecordedKeys([], keys);
    WellSpacedIsFarApart(RecordedKeys([], keys), i, j);
  }

  // ------------------------------------------------------------------ what a key recognises

  lemma {:induction false} SplitAtBar(a: string, x: string, b: string, y: string)
    requires '|' !in a && '|' !in b && a + "|" + x == b + "|" + y
    ensures a == b && x == y
    decreases |a|
  {
    var s, t := a + "|" + x, b + "|" + y;
    if |a| == 0 || |b| == 0 {
      assert s[0] == t[0];
      assert |a| == 0 ==> s[0] == '|';
      assert |b| == 0 ==> t[0] == '|';
      assert |a| == 0 && |b| == 0;
      assert s[1..] == x && t[1..] == y;
    } else {
      assert s[0] == a[0] && t[0] == b[0];
      assert s[1..] == a[1..] + "|" + x && t[1..] == b[1..] + "|" + y;
      SplitAtBar(a[1..], x, b[1..], y);
    }
  }

  function Digits(s: string): int
    decreases |s|
  {
    if |s| == 0 then 0 else 10 * Digits(s[..|s| - 1]) + (s[|s| - 1] as int - '0' as int)
  }

  lemma {:induction false} DecimalReadsBack(n: nat)
    ensures Digits(Decimal(n)) == n && |Decimal(n)| > 0 && Decimal(n)[0] != '-'
  {
    if n < 10 {
      assert Decimal(n)[..0] == "";
    } else {
      DecimalReadsBack(n / 10);
      assert Decimal(n)[..|Decimal(n)| - 1] == Decimal(n / 10);
    }
  }

  lemma FormatIntInjective(m: int, n: int)
    requires FormatInt(m) == FormatInt(n)
    ensures m == n
  {
    DecimalReadsBack(if m < 0 then -m else m);
    DecimalReadsBack(if n < 0 then -n else n);
    if m < 0 && n < 0 {
      assert FormatInt(m)[1..] == Decimal(-m) && FormatInt(n)[1..] == Decimal(-n);
    }
  }

  predicate Barless(r: Record) {
    '|' !in r.user && '|' !in r.tty && '|' !in r.ip
  }

  /** Two sessions have the same key exactly if they agree in user, terminal, address and time,
      as long as none of these texts contains the separator. */
  lemma KeysAreSessions(a: Record, b: Record)
    requires Barless(a) && Barless(b)
    ensures Key(a) == Key(b) <==> a.user == b.user && a.tty == b.tty && a.ip == b.ip && a.time == b.time
  {
    if Key(a) == Key(b) {
      var a2, b2 := a.ip + "|" + FormatInt(a.time), b.ip + "|" + FormatInt(b.time);
      var a1, b1 := a.tty + "|" + a2, b.tty + "|" + b2;
      assert Key(a).text == a.user + "|" + a1 && Key(b).text == b.user + "|" + b1;
      SplitAtBar(a.user, a1, b.user, b1);
      SplitAtBar(a.tty, a2, b.tty, b2);
      SplitAtBar(a.ip, FormatInt(a.time), b.ip, FormatInt(b.time));
      FormatIntInjective(a.time, b.time);
    }
  }

  function Bars(s: string): nat {
    if |s| == 0 then 0 else (if s[0] == '|' then 1 else 0) + Bars(s[1..])
  }

  lemma {:induction false} BarsAppend(s: string, t: string)
    ensures Bars(s + t) == Bars(s) + Bars(t)
    decreases |s|
  {
    if |s| == 0 {
      assert s + t == t;
    } else {
      assert (s + t)[1..] == s[1..] + t;
      BarsAppend(s[1..], t);
    }
  }

  lemma {:induction false} NoBars(s: string)
    ensures Bars(s) == 0 <==> '|' !in s
    decreases |s|
  {
    if |s| > 0 {
      NoBars(s[1..]);
      assert s == [s[0]] + s[1..];
    }
  }

  lemma {:induction false} DecimalHasNoBars(n: nat)
    ensures '|' !in Decimal(n)
  {
    if n >= 10 {
      DecimalHasNoBars(n / 10);
    }
  }

  lemma BarsOfKey(r: Record)
    ensures Bars(Key(r).text) == 3 + Bars(r.user) + Bars(r.tty) + Bars(r.ip)
  {
    var time := FormatInt(r.time);
    DecimalHasNoBars(if r.time < 0 then -r.time else r.time);
    NoBars(time);
    BarsAppend(r.user + "|" + r.tty + "|" + r.ip + "|", time);
    BarsAppend(r.user + "|" + r.tty + "|" + r.ip, "|");
    BarsAppend(r.user + "|" + r.tty + "|", r.ip);
    BarsAppend(r.user + "|" + r.tty, "|");
    BarsAppend(r.user + "|", r.tty);
    BarsAppend(r.user, "|");
    assert Bars("|") == 1;
  }

  lemma BarlessByKey(r: Record)
    ensures Barless(r) <==> Bars(Key(r).text) == 3
  {
    BarsOfKey(r);
    NoBars(r.user);
    NoBars(r.tty);
    NoBars(r.ip);
  }

  lemma CutAtBar(s: string) returns (l: string, r: string)
    requires '|' in s
    ensures s == l + "|" + r
  {
    var i :| 0 <= i < |s| && s[i] == '|';
    l, r := s[..i], s[i + 1..];
  }

  lemma UserDoubles(l: string, r: string, tty: string, ip: string, time: int)
    ensures Key(Record(l + "|" + r, tty, ip, time)) == Key(Record(l, r + "|" + tty, ip, time))
  {
    assert l + "|" + r + "|" + tty == l + "|" + (r + "|" + tty);
  }

  lemma TerminalDoubles(user: string, l: string, r: string, ip: string, time: int)
    ensures Key(Record(user, l + "|" + r, ip, time)) == Key(Record(user + "|" + l, r, ip, time))
  {
    assert user + "|" + (l + "|" + r) == user + "|" + l + "|" + r;
  }

  lemma AddressDoubles(user: string, tty: string, l: string, r: string, time: int)
    ensures Key(Record(user, tty, l + "|" + r, time)) == Key(Record(user, tty + "|" + l, r, time))
  {
    assert user + "|" + tty + "|" + (l + "|" + r) == user + "|" + (tty + "|" + l) + "|" + r;
  }

  /** Another record with the same key, where a text contains the separator: what stands on
      one side of it moves into the neighbouring field. */
  lemma HasDouble(a: Record) returns (b: Record)
    requires !Barless(a)
    ensures b != a && Key(b) == Key(a)
  {
    if '|' in a.user {
      var l, r := CutAtBar(a.user);
      UserDoubles(l, r, a.tty, a.ip, a.time);
      b := Record(l, r + "|" + a.tty, a.ip, a.time);
    } else if '|' in a.tty {
      var l, r := CutAtBar(a.tty);
      TerminalDoubles(a.user, l, r, a.ip, a.time);
      b := Record(a.user + "|" + l, r, a.ip, a.time);
      assert |b.user| > |a.user|;
    } else {
      var l, r := CutAtBar(a.ip);
      AddressDoubles(a.user, a.tty, l, r, a.time);
      b := Record(a.user, a.tty + "|" + l, r, a.time);
      assert |b.tty| > |a.tty|;
    }
  }

  /** For one. */
  lemma SeparatorsCollide()
    ensures Key(Record("a|b", "c", "", 0)) == Key(Record("a", "b|c", "", 0))
  {
    UserDoubles("a", "b", "c", "", 0);
  }

  /** So a session shares its key with no other exactly if the separator is in none of its texts. */
  lemma KeyIsItsOwnExactly(a: Record)
    ensures (forall b :: Key(b) == Key(a) ==> b == a) <==> Barless(a)
  {
    BarlessByKey(a);
    if Barless(a) {
      forall b | Key(b) == Key(a)
        ensures b == a
      {
        BarlessByKey(b);
        KeysAreSessions(a, b);
      }
    } else {
      var b := HasDouble(a);
    }
  }
}
