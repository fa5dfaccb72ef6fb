/** Incremental scanning of the login log, after scanPath of agent/logins/watch_linux.go
    and the parsing loop of agent/logins/utmp.go. Record parsing and layout detection are
    given as functions, so everything here holds for any of them. */
module LoginWatcher {
  import opened DedupWindow
  import opened Prelude

  type RecordSize = n: int | 0 < n witness 1

  /** `variant` stands for the offsets and byte order of a layout. */
  datatype Layout = Layout(recordSize: RecordSize, variant: int)

  /** parseUtmpRecord on one record's bytes, and detectUtmpLayout. */
  datatype Format = Format(parse: (Bytes, Layout) -> Option<Record>, detect: Bytes -> Option<Layout>)

  const MAX_LOGIN_EVENTS_PER_REPORT := 5

  // ------------------------------------------------------------------ parseUtmpRecords

  /** All complete records; a trailing partial one is left out. */
  function Parse(f: Format, data: Bytes, layout: Layout): seq<Record>
    decreases |data|
  {
    if |data| < layout.recordSize then []
    else
      var rest := Parse(f, data[layout.recordSize..], layout);
      match f.parse(data[..layout.recordSize], layout)
      case Some(rec) => [rec] + rest
      case None => rest
  }

  method ParseRecords(f: Format, data: Bytes, layout: Layout) returns (records: seq<Record>)
    ensures records == Parse(f, data, layout)
  {
    records := [];
    var left := data;
    while |left| >= layout.recordSize
      invariant Parse(f, data, layout) == records + Parse(f, left, layout)
      decreases |left|
    {
      var rec := f.parse(left[..layout.recordSize], layout);
      if rec.Some? {
        ghost var rest := Parse(f, left[layout.recordSize..], layout);
        assert records + ([rec.value] + rest) == records + [rec.value] + rest;
        records := records + [rec.value];
      }
      left := left[layout.recordSize..];
    }
  }

  /** The longest whole-record prefix. */
  function Whole(n: nat, layout: Layout): (k: nat)
    ensures k <= n < k + layout.recordSize && k % layout.recordSize == 0
  {
    WholeMultiple(n, layout.recordSize);
    n - n % layout.recordSize
  }

  lemma WholeMultiple(n: nat, size: RecordSize)
    ensures (n - n % size) % size == 0 && 0 <= n % size < size && n % size <= n
  {
    assert n == n / size * size + n % size;
    MultipleOf(n / size, size);
  }

  lemma MultipleOf(q: nat, size: RecordSize)
    ensures (q * size) % size == 0
  {
    if q > 0 {
      MultipleOf(q - 1, size);
      assert q * size == (q - 1) * size + size;
      AddOne((q - 1) * size, size);
    }
  }

  lemma AddOne(n: int, size: RecordSize)
    requires 0 <= n
    ensures (n + size) % size == n % size
  {
    assert n + size == (n / size + 1) * size + n % size;
    Remainder(n / size + 1, n % size, size);
  }

  lemma Remainder(q: int, r: int, size: RecordSize)
    requires 0 <= r < size
    ensures (q * size + r) % size == r
  {
    var n := q * size + r;
    var d := n / size - q;
    assert d * size == r - n % size;
    assert d >= 1 ==> d * size >= size;
    assert d <= -1 ==> d * size <= -1 * size;
  }

  /** Cutting the data at a record boundary does not change what is parsed. */
  lemma {:induction false} ParseSplit(f: Format, a: Bytes, b: Bytes, layout: Layout)
    requires |a| % layout.recordSize == 0
    ensures Parse(f, a + b, layout) == Parse(f, a, layout) + Parse(f, b, layout)
    decreases |a|
  {
    var size := layout.recordSize;
    if |a| < size {
      Remainder(0, |a|, size);
      assert a + b == b;
    } else {
      AddOne(|a| - size, size);
      ParseSplit(f, a[size..], b, layout);
      assert (a + b)[..size] == a[..size];
      assert (a + b)[size..] == a[size..] + b;
    }
  }

  // ------------------------------------------------------------------ scanPath

  datatype Timespec = Timespec(sec: int, nsec: int)

  predicate TimespecBefore(a: Timespec, b: Timespec) {
    a.sec < b.sec || (a.sec == b.sec && a.nsec < b.nsec)
  }

  /** What one scan finds: a file that cannot be opened, stat'ed or read; one whose stat is of
      an unexpected type, which ends the watch; or its identity, its size when stat'ed, and
      its whole content when read a moment later. */
  datatype Scan =
    | Unreadable
    | NoStat
    | File(dev: int, ino: int, ctim: Timespec, size: int, content: Bytes, now: int)

  /** The watcher's fields; `layout` is None while recordSize is 0. */
  datatype Watcher = Watcher(
    startupTime: int, minLoginTime: int, offset: nat, device: int, inode: int, ctim: Timespec,
    layout: Option<Layout>, started: bool, baselineSize: nat, seen: seq<SessionKey>, seeded: bool)

  function NewWatcher(): Watcher {
    Watcher(0, 0, 0, 0, 0, Timespec(0, 0), None, false, 0, [], false)
  }

  /** One scan's effect: the new fields, the records ingested as the startup baseline, the
      records ingested after it, and the records emitted. */
  datatype Outcome = Outcome(w: Watcher, baseline: seq<Record>, later: seq<Record>, emitted: seq<Record>)

  predicate UtmpRotated(scan: Scan, w: Watcher)
    requires scan.File?
  {
    || scan.ino != w.inode || scan.size < w.offset
    || (w.ctim.sec != 0 && TimespecBefore(scan.ctim, w.ctim))
  }

  predicate Rotated(scan: Scan, w: Watcher)
    requires scan.File?
  {
    scan.dev != w.device || UtmpRotated(scan, w)
  }

  /** Seek past the end reads nothing. */
  function ReadFrom(content: Bytes, offset: nat): Bytes {
    if offset <= |content| then content[offset..] else []
  }

  /** Rotation starts over; if the baseline was still undecided, time takes its place. */
  function Reset(w: Watcher): Watcher {
    var cleared := w.(offset := 0, layout := None, baselineSize := 0);
    if w.started && !w.seeded then cleared.(minLoginTime := w.startupTime, seeded := true) else cleared
  }

  function Identified(w: Watcher, scan: Scan): Watcher
    requires scan.File?
  {
    w.(device := scan.dev, inode := scan.ino, ctim := scan.ctim)
  }

  function Started(w: Watcher, scan: Scan, data: Bytes): Watcher
    requires scan.File?
  {
    if w.started then w
    else w.(startupTime := if w.startupTime == 0 then scan.now else w.startupTime, baselineSize := |data|, started := true)
  }

  function Recent(records: seq<Record>, minTime: int): seq<Record> {
    if |records| == 0 then []
    else
      var rest := Recent(records[1..], minTime);
      if minTime <= records[0].time then [records[0]] + rest else rest
  }

  /** ingest, on the window as a sequence. */
  function Ingested(w: Watcher, records: seq<Record>): Watcher {
    w.(seen := Window(w.seen, KeysOf(records)), seeded := true)
  }

  function News(w: Watcher, records: seq<Record>): seq<Record> {
    if w.seeded then Selected(records, Unseen(w.seen, KeysOf(records))) else []
  }

  /** How many bytes of the data belong to the startup baseline. */
  function BaselineLength(w: Watcher, layout: Layout, data: Bytes): (n: nat)
    ensures n <= Whole(|data|, layout)
  {
    if w.seeded then 0 else Whole(Min(w.baselineSize, Whole(|data|, layout)), layout)
  }

  function BaselineRecords(f: Format, w: Watcher, layout: Layout, data: Bytes): seq<Record> {
    if w.seeded then [] else Parse(f, data[..BaselineLength(w, layout, data)], layout)
  }

  function Seeded(w: Watcher, prior: seq<Record>): Watcher {
    if w.seeded then w else Ingested(w, prior)
  }

  function LaterRecords(f: Format, w: Watcher, layout: Layout, data: Bytes): seq<Record> {
    var records := Parse(f, data[BaselineLength(w, layout, data)..Whole(|data|, layout)], layout);
    if w.minLoginTime != 0 then Recent(records, w.minLoginTime) else records
  }

  function AtMost(news: seq<Record>): seq<Record> {
    if |news| > MAX_LOGIN_EVENTS_PER_REPORT then news[..MAX_LOGIN_EVENTS_PER_REPORT] else news
  }

  /** The part of a scan after the layout is known. */
  function Consumed(f: Format, w: Watcher, layout: Layout, data: Bytes): Outcome {
    var prior, later := BaselineRecords(f, w, layout, data), LaterRecords(f, w, layout, data);
    var seeded := Seeded(w.(offset := w.offset + Whole(|data|, layout), layout := Some(layout)), prior);
    Outcome(Ingested(seeded, later), prior, later, AtMost(News(seeded, later)))
  }

  function Scanned(f: Format, w: Watcher, scan: Scan): Outcome {
    if !scan.File? then Outcome(w, [], [], [])
    else
      var rotated := Rotated(scan, w);
      var data := ReadFrom(scan.content, if rotated then 0 else w.offset);
      var w' := Started(Identified(if rotated then Reset(w) else w, scan), scan, data);
      var layout := if w'.layout.None? then f.detect(data) else w'.layout;
      if layout.None? then Outcome(if |data| == 0 then w'.(seeded := true) else w', [], [], [])
      else Consumed(f, w', layout.value, data)
  }

  // ------------------------------------------------------------------ the watcher object

  class LogWatcher {
    const format: Format
    const state: ScanState
    var startupTime: int
    var minLoginTime: int
    var offset: nat
    var device: int
    var inode: int
    var ctim: Timespec
    var layout: Option<Layout>
    var started: bool
    var baselineSize: nat

    ghost predicate Valid()
      reads this, state
    {
      state.Valid()
    }

    ghost function State(): Watcher
      reads this, state
      requires Valid()
    {
      Watcher(startupTime, minLoginTime, offset, device, inode, ctim, layout, started, baselineSize, state.Keys(), state.seeded)
    }

    constructor (format: Format)
      ensures Valid() && fresh(state) && State() == NewWatcher() && this.format == format
    {
      this.format := format;
      state := new ScanState();
      startupTime, minLoginTime, offset, device, inode, ctim := 0, 0, 0, 0, 0, Timespec(0, 0);
      layout, started, baselineSize := None, false, 0;
    }

    /** Seed the deduplication window if this is the first data with a known layout. */
    method Seed(prior: seq<Record>)
      requires Valid()
      modifies state
      ensures Valid() && State() == Seeded(old(State()), prior)
    {
      if !state.seeded {
        var none := state.Ingest(prior);
      }
    }

    method Report(later: seq<Record>) returns (emitted: seq<Record>)
      requires Valid()
      modifies state
      ensures Valid() && State() == Ingested(old(State()), later) && emitted == AtMost(News(old(State()), later))
    {
      emitted := state.Ingest(later);
      if |emitted| > MAX_LOGIN_EVENTS_PER_REPORT {
        emitted := emitted[..MAX_LOGIN_EVENTS_PER_REPORT];
      }
    }

    /** Cut the data at the record boundaries that close the baseline and the complete part. */
    method Cut(known: Layout, data: Bytes) returns (prior: seq<Record>, later: seq<Record>, complete: nat)
      requires Valid()
      ensures prior == BaselineRecords(format, State(), known, data)
      ensures later == LaterRecords(format, State(), known, data)
      ensures complete == Whole(|data|, known)
    {
      WholeMultiple(|data|, known.recordSize);
      complete := |data| - |data| % known.recordSize;
      var baseline := 0;
      prior := [];
      if !state.seeded {
        baseline := if baselineSize < complete then baselineSize else complete;
        WholeMultiple(baseline, known.recordSize);
        baseline := baseline - baseline % known.recordSize;
        prior := ParseRecords(format, data[..baseline], known);
      }
      later := ParseRecords(format, data[baseline..complete], known);
      if minLoginTime != 0 {
        later := KeepRecent(later, minLoginTime);
      }
    }

    /** The rest of scanPath once the layout is known. */
    method Consume(known: Layout, data: Bytes) returns (emitted: seq<Record>)
      requires Valid()
      modifies this, state
      ensures Valid()
      ensures State() == Consumed(format, old(State()), known, data).w
      ensures emitted == Consumed(format, old(State()), known, data).emitted
    {
      var prior, later, complete := Cut(known, data);
      layout := Some(known);
      offset := offset + complete;
      Seed(prior);
      emitted := Report(later);
    }

    /** The reset a rotation brings. */
    method ResetOnRotation()
      requires Valid()
      modifies this, state
      ensures Valid() && State() == Reset(old(State()))
    {
      offset, layout, baselineSize := 0, None, 0;
      if started && !state.seeded {
        minLoginTime := startupTime;
        var none := state.Ingest([]);
      }
    }

    method Identify(scan: Scan, data: Bytes)
      requires Valid() && scan.File?
      modifies this
      ensures Valid() && State() == Started(Identified(old(State()), scan), scan, data)
    {
      device, inode, ctim := scan.dev, scan.ino, scan.ctim;
      if !started {
        if startupTime == 0 {
          startupTime := scan.now;
        }
        baselineSize, started := |data|, true;
      }
    }

    method ScanPath(scan: Scan) returns (goOn: bool, emitted: seq<Record>)
      requires Valid()
      modifies this, state
      ensures Valid()
      ensures State() == Scanned(format, old(State()), scan).w
      ensures emitted == Scanned(format, old(State()), scan).emitted
      ensures goOn <==> !scan.NoStat?
    {
      goOn, emitted := true, [];
      if scan.Unreadable? {
        return;
      }
      if scan.NoStat? {
        goOn := false;
        return;
      }
      var from := offset;
      var rotated := scan.dev != device || scan.ino != inode || scan.size < from
        || (ctim.sec != 0 && TimespecBefore(scan.ctim, ctim));
      if rotated {
        from := 0;
      }
      var data := ReadFrom(scan.content, from);
      if rotated {
        ResetOnRotation();
      }
      Identify(scan, data);
      var known := layout;
      if known.None? {
        known := format.detect(data);
        if known.None? {
          if |data| == 0 {
            Nothing();
          }
          return;
        }
      }
      emitted := Consume(known.value, data);
    }

    /** ingest(nil). */
    method Nothing()
      requires Valid()
      modifies state
      ensures Valid() && State() == old(State()).(seeded := true)
    {
      var none := state.Ingest([]);
    }
  }

  /** The filter loop on minLoginTime. */
  method KeepRecent(records: seq<Record>, minTime: int) returns (kept: seq<Record>)
    ensures kept == Recent(records, minTime)
  {
    kept := [];
    assert records[0..] == records;
    for i := 0 to |records|
      invariant Recent(records, minTime) == kept + Recent(records[i..], minTime)
    {
      assert records[i..][1..] == records[i + 1..];
      if records[i].time >= minTime {
        ghost var rest := Recent(records[i + 1..], minTime);
        assert kept + ([records[i]] + rest) == kept + [records[i]] + rest;
        kept := kept + [records[i]];
      }
    }
  }

  // ------------------------------------------------------------------ a growing file

  /** Everything that happened over a run of scans. */
  datatype Log = Log(w: Watcher, baseline: seq<Record>, later: seq<Record>, emitted: seq<Record>)

  function Watched(f: Format, scans: seq<Scan>): Log {
    if |scans| == 0 then Log(NewWatcher(), [], [], [])
    else
      var before := Watched(f, scans[..|scans| - 1]);
      Extended(before, Scanned(f, before.w, scans[|scans| - 1]))
  }

  /** The last readable scan. */
  function Latest(scans: seq<Scan>): (r: Option<Scan>)
    ensures r.Some? ==> r.value.File?
  {
    if |scans| == 0 then None
    else if scans[|scans| - 1].File? then Some(scans[|scans| - 1])
    else Latest(scans[..|scans| - 1])
  }

  /** How large the file was at the first readable scan. */
  function FirstSize(scans: seq<Scan>): nat {
    if |scans| == 0 then 0
    else if Latest(scans[..|scans| - 1]).None? && scans[|scans| - 1].File? then |scans[|scans| - 1].content|
    else FirstSize(scans[..|scans| - 1])
  }

  /** The same file, only appended to: between its stat and its read, and between scans. */
  predicate Grows(a: Scan, b: Scan)
    requires a.File? && b.File?
  {
    && a.dev == b.dev && a.ino == b.ino && !TimespecBefore(b.ctim, a.ctim)
    && a.content <= b.content && |a.content| <= b.size <= |b.content|
  }

  /** Any cutting of an append-only file into scans, with unreadable ones in between. */
  predicate AppendOnly(scans: seq<Scan>) {
    |scans| == 0 || (
      var before, scan := scans[..|scans| - 1], scans[|scans| - 1];
      && AppendOnly(before)
      && (scan.File? && Latest(before).Some? ==> Grows(Latest(before).value, scan)))
  }

  lemma WholeUnique(m: nat, k: nat, layout: Layout)
    requires k % layout.recordSize == 0 && k <= m < k + layout.recordSize
    ensures Whole(m, layout) == k
  {
    Remainder(k / layout.recordSize, m - k, layout.recordSize);
  }

  lemma WholeShift(o: nat, n: nat, layout: Layout)
    requires o <= n && o % layout.recordSize == 0
    ensures o + Whole(n - o, layout) == Whole(n, layout)
  {
    var size, b := layout.recordSize, Whole(n - o, layout);
    assert o == o / size * size && b == b / size * size;
    assert o + b == (o / size + b / size) * size;
    Remainder(o / size + b / size, 0, size);
    WholeUnique(n, o + b, layout);
  }

  /** What is known after scanning a file of this content, first seen at this size. */
  predicate CaughtUp(f: Format, log: Log, scan: Scan, first: nat)
    requires scan.File?
  {
    var w, c := log.w, scan.content;
    && w.started && w.device == scan.dev && w.inode == scan.ino && w.ctim == scan.ctim && w.minLoginTime == 0
    && first <= |c|
    && match w.layout
       case None =>
         w.offset == 0 && log.baseline == [] && log.later == []
         && (if w.seeded then first == 0 else w.baselineSize == first)
       case Some(l) =>
         && w.seeded && w.offset == Whole(|c|, l)
         && log.baseline == Parse(f, c[..Whole(first, l)], l)
         && log.baseline + log.later == Parse(f, c[..Whole(|c|, l)], l)
  }

  /** The first time data is consumed: baseline and rest, split at the first scan's boundary. */
  lemma FirstConsumed(f: Format, w: Watcher, layout: Layout, c: Bytes, first: nat)
    requires w.minLoginTime == 0 && w.offset == 0 && first <= |c|
    requires if w.seeded then first == 0 else w.baselineSize == first
    ensures var out := Consumed(f, w, layout, c);
      && out.w.offset == Whole(|c|, layout)
      && out.baseline == Parse(f, c[..Whole(first, layout)], layout)
      && out.baseline + out.later == Parse(f, c[..Whole(|c|, layout)], layout)
  {
    var whole, head := Whole(|c|, layout), Whole(first, layout);
    var n := BaselineLength(w, layout, c);
    if whole <= first {
      WholeUnique(first, whole, layout);
      WholeUnique(whole, whole, layout);
    }
    if w.seeded {
      WholeUnique(0, 0, layout);
    }
    assert n == head;
    assert c[..whole] == c[..head] + c[head..whole];
    ParseSplit(f, c[..head], c[head..whole], layout);
  }

  /** Later, only what came after the offset is consumed. */
  lemma LaterConsumed(f: Format, w: Watcher, layout: Layout, c: Bytes)
    requires w.minLoginTime == 0 && w.seeded && w.offset <= |c| && w.offset % layout.recordSize == 0
    ensures var out := Consumed(f, w, layout, c[w.offset..]);
      && out.w.offset == Whole(|c|, layout)
      && out.baseline == []
      && Parse(f, c[..w.offset], layout) + out.later == Parse(f, c[..Whole(|c|, layout)], layout)
  {
    var data := c[w.offset..];
    var complete := Whole(|data|, layout);
    WholeShift(w.offset, |c|, layout);
    assert data[0..complete] == c[w.offset..w.offset + complete];
    assert c[..w.offset + complete] == c[..w.offset] + data[0..complete];
    ParseSplit(f, c[..w.offset], data[0..complete], layout);
  }

  lemma FirstScan(f: Format, scan: Scan)
    requires scan.File?
    ensures var out := Scanned(f, NewWatcher(), scan);
      CaughtUp(f, Log(out.w, out.baseline, out.later, out.emitted), scan, |scan.content|)
  {
    var data := ReadFrom(scan.content, 0);
    assert data == scan.content;
    var w := Started(Identified(NewWatcher(), scan), scan, data);
    if f.detect(data).Some? {
      FirstConsumed(f, w, f.detect(data).value, data, |data|);
    }
  }

  /** What a scan of the same file comes to once the watcher has started. */
  lemma ScanOfTheSame(f: Format, w: Watcher, scan: Scan)
    requires scan.File? && !Rotated(scan, w) && w.started && w.offset <= |scan.content|
    ensures var w', data := Identified(w, scan), scan.content[w.offset..];
      var layout := if w.layout.None? then f.detect(data) else w.layout;
      Scanned(f, w, scan) ==
        if layout.None? then Outcome(if |data| == 0 then w'.(seeded := true) else w', [], [], [])
        else Consumed(f, w', layout.value, data)
  {
  }

  /** Consuming leaves the identity and the baseline's limits alone. */
  lemma ConsumedKeeps(f: Format, w: Watcher, layout: Layout, data: Bytes)
    ensures var w' := Consumed(f, w, layout, data).w;
      && w'.started == w.started && w'.device == w.device && w'.inode == w.inode && w'.ctim == w.ctim
      && w'.minLoginTime == w.minLoginTime && w'.layout == Some(layout) && w'.seeded
  {
  }

  /** A log extended by one scan's outcome. */
  function Extended(log: Log, out: Outcome): Log {
    Log(out.w, log.baseline + out.baseline, log.later + out.later, log.emitted + out.emitted)
  }

  lemma NextScanUndecided(f: Format, log: Log, last: Scan, scan: Scan, first: nat)
    requires last.File? && scan.File? && CaughtUp(f, log, last, first) && Grows(last, scan) && log.w.layout.None?
    ensures CaughtUp(f, Extended(log, Scanned(f, log.w, scan)), scan, first)
  {
    var c := scan.content;
    assert !Rotated(scan, log.w);
    assert c[0..] == c;
    ScanOfTheSame(f, log.w, scan);
    if f.detect(c).Some? {
      FirstConsumed(f, Identified(log.w, scan), f.detect(c).value, c, first);
      ConsumedKeeps(f, Identified(log.w, scan), f.detect(c).value, c);
      var out := Consumed(f, Identified(log.w, scan), f.detect(c).value, c);
      assert [] + out.baseline == out.baseline && [] + out.later == out.later;
    }
  }

  /** Appending to the file does not change what its earlier bytes hold. */
  lemma SamePrefix(a: Bytes, b: Bytes, n: nat)
    requires a <= b && n <= |a|
    ensures a[..n] == b[..n]
  {
  }

  lemma NextScanDecided(f: Format, log: Log, last: Scan, scan: Scan, first: nat)
    requires last.File? && scan.File? && CaughtUp(f, log, last, first) && Grows(last, scan) && log.w.layout.Some?
    ensures CaughtUp(f, Extended(log, Scanned(f, log.w, scan)), scan, first)
  {
    var w, l := log.w, log.w.layout.value;
    var out := Consumed(f, Identified(w, scan), l, scan.content[w.offset..]);
    assert Scanned(f, w, scan) == out by {
      assert !Rotated(scan, w);
      ScanOfTheSame(f, w, scan);
    }
    LaterConsumed(f, Identified(w, scan), l, scan.content);
    ConsumedKeeps(f, Identified(w, scan), l, scan.content[w.offset..]);
    SamePrefix(last.content, scan.content, w.offset);
    SamePrefix(last.content, scan.content, Whole(first, l));
    Appended(log.baseline, log.later, out.later);
  }

  lemma Appended(a: seq<Record>, b: seq<Record>, c: seq<Record>)
    ensures a + [] == a && a + (b + c) == a + b + c
  {
  }

  lemma NextScan(f: Format, log: Log, last: Scan, scan: Scan, first: nat)
    requires last.File? && scan.File? && CaughtUp(f, log, last, first) && Grows(last, scan)
    ensures CaughtUp(f, Extended(log, Scanned(f, log.w, scan)), scan, first)
  {
    if log.w.layout.None? {
      NextScanUndecided(f, log, last, scan, first);
    } else {
      NextScanDecided(f, log, last, scan, first);
    }
  }

  lemma {:induction false} KeepsUp(f: Format, scans: seq<Scan>)
    requires AppendOnly(scans)
    ensures match Latest(scans)
      case None => Watched(f, scans) == Log(NewWatcher(), [], [], [])
      case Some(scan) => CaughtUp(f, Watched(f, scans), scan, FirstSize(scans))
    decreases |scans|
  {
    if |scans| > 0 {
      var before, scan := scans[..|scans| - 1], scans[|scans| - 1];
      KeepsUp(f, before);
      if scan.File? {
        if Latest(before).Some? {
          NextScan(f, Watched(f, before), Latest(before).value, scan, FirstSize(before));
        } else {
          FirstScan(f, scan);
        }
      }
    }
  }

  lemma {:induction false} PartialTailIgnored(f: Format, data: Bytes, layout: Layout)
    ensures Parse(f, data[..Whole(|data|, layout)], layout) == Parse(f, data, layout)
  {
    var k := Whole(|data|, layout);
    ParseSplit(f, data[..k], data[k..], layout);
    assert data == data[..k] + data[k..];
  }

  /** Chunk independence. However an append-only file's growth is cut into scans, torn records
      and failed reads included, once its layout is known the records ingested are exactly the
      parse of the content read last, once each and in order: the ones complete at the first
      readable scan as the baseline, which emits nothing, all later ones after it. Until the
      layout is known nothing is ingested. */
  lemma ChunkIndependence(f: Format, scans: seq<Scan>)
    requires AppendOnly(scans) && Latest(scans).Some?
    ensures var log, c := Watched(f, scans), Latest(scans).value.content;
      match log.w.layout
      case None => log.baseline == [] && log.later == []
      case Some(l) =>
        && log.baseline + log.later == Parse(f, c, l)
        && FirstSize(scans) <= |c|
        && log.baseline == Parse(f, c[..FirstSize(scans)], l)
  {
    KeepsUp(f, scans);
    var log, c := Watched(f, scans), Latest(scans).value.content;
    if log.w.layout.Some? {
      var l := log.w.layout.value;
      PartialTailIgnored(f, c, l);
      PartialTailIgnored(f, c[..FirstSize(scans)], l);
      var head := c[..FirstSize(scans)];
      assert head[..Whole(|head|, l)] == c[..Whole(FirstSize(scans), l)];
    }
  }

  lemma {:induction false} SelectedAreItems<T>(items: seq<T>, flags: seq<bool>)
    requires |items| == |flags|
    ensures forall x :: x in Selected(items, flags) ==> x in items
    decreases |items|
  {
    if |items| > 0 {
      SelectedAreItems(items[1..], flags[1..]);
    }
  }

  lemma {:induction false} EmittedAreItsNews(f: Format, w: Watcher, scan: Scan)
    ensures var out := Scanned(f, w, scan); forall x :: x in out.emitted ==> x in out.later
    ensures |Scanned(f, w, scan).emitted| <= MAX_LOGIN_EVENTS_PER_REPORT
  {
    forall v: Watcher, later: seq<Record>
      ensures forall x :: x in AtMost(News(v, later)) ==> x in later
    {
      SelectedAreItems(later, Unseen(v.seen, KeysOf(later)));
    }
  }

  /** Over any scans at all, rotation included, what is emitted was ingested after the
      baseline, at most five records per scan. */
  lemma {:induction false} EmittedAreLater(f: Format, scans: seq<Scan>)
    ensures forall x :: x in Watched(f, scans).emitted ==> x in Watched(f, scans).later
    ensures |Watched(f, scans).emitted| <= MAX_LOGIN_EVENTS_PER_REPORT * |scans|
    decreases |scans|
  {
    if |scans| > 0 {
      EmittedAreLater(f, scans[..|scans| - 1]);
      EmittedAreItsNews(f, Watched(f, scans[..|scans| - 1]).w, scans[|scans| - 1]);
    }
  }

  // ------------------------------------------------------------------ how soon a session can come back

  /** The window just before a scan's later records are ingested. */
  function SeenAtNews(seen: seq<SessionKey>, out: Outcome): seq<SessionKey> {
    Window(seen, KeysOf(out.baseline))
  }

  /** What a scan does to the window, and which keys it emits: exactly the first five that it
      records after the baseline, or all of them if they are fewer. */
  predicate RecordsFit(seen: seq<SessionKey>, out: Outcome) {
    var recorded := RecordedKeys(SeenAtNews(seen, out), KeysOf(out.later));
    && out.w.seen == Window(SeenAtNews(seen, out), KeysOf(out.later))
    && |out.emitted| == (if |recorded| < 5 then |recorded| else 5)
    && forall m :: 0 <= m < |out.emitted| ==> Key(out.emitted[m]) == recorded[m]
  }

  lemma {:induction false} KeysOfSelected(records: seq<Record>, flags: seq<bool>)
    requires |records| == |flags|
    ensures KeysOf(Selected(records, flags)) == Selected(KeysOf(records), flags)
    decreases |records|
  {
    if |records| > 0 {
      KeysOfSelected(records[1..], flags[1..]);
      assert KeysOf(records)[1..] == KeysOf(records[1..]);
    }
  }

  lemma ConsumedRecords(f: Format, w: Watcher, layout: Layout, data: Bytes)
    ensures RecordsFit(w.seen, Consumed(f, w, layout, data))
  {
    var out := Consumed(f, w, layout, data);
    var flags := Unseen(SeenAtNews(w.seen, out), KeysOf(out.later));
    KeysOfSelected(out.later, flags);
    assert KeysOf(Selected(out.later, flags)) == RecordedKeys(SeenAtNews(w.seen, out), KeysOf(out.later));
  }

  lemma ScanRecords(f: Format, w: Watcher, scan: Scan)
    ensures RecordsFit(w.seen, Scanned(f, w, scan))
  {
    if scan.File? {
      var rotated := Rotated(scan, w);
      var data := ReadFrom(scan.content, if rotated then 0 else w.offset);
      var v := Started(Identified(if rotated then Reset(w) else w, scan), scan, data);
      var layout := if v.layout.None? then f.detect(data) else v.layout;
      if layout.Some? {
        ConsumedRecords(f, v, layout.value, data);
      }
    }
  }

  /** The window, every key recorded so far, by seeding or as news, in order, and where in
      that order the emitted sessions stand. */
  datatype History = History(seen: seq<SessionKey>, recorded: seq<SessionKey>, emittedAt: seq<nat>)

  function Advanced(h: History, out: Outcome): History {
    var atNews, seeded := SeenAtNews(h.seen, out), SeededRecords(h, out);
    History(Window(atNews, KeysOf(out.later)), DedupWindow.Extended(atNews, seeded, KeysOf(out.later)),
            h.emittedAt + seq(|out.emitted|, m => |seeded| + m))
  }

  function HistoryOf(f: Format, scans: seq<Scan>): History {
    if |scans| == 0 then History([], [], [])
    else
      Advanced(HistoryOf(f, scans[..|scans| - 1]),
               Scanned(f, Watched(f, scans[..|scans| - 1]).w, scans[|scans| - 1]))
  }

  /** Each emission is a recording of its own. */
  predicate EmittedFit(h: History, emitted: seq<Record>) {
    && |h.emittedAt| == |emitted| && Increasing(h.emittedAt)
    && (forall e :: 0 <= e < |emitted| ==>
          h.emittedAt[e] < |h.recorded| && h.recorded[h.emittedAt[e]] == Key(emitted[e]))
  }

  /** Whatever was in the baseline is recorded, and before anything emitted. */
  predicate BaselineFits(h: History, baseline: seq<Record>) {
    && (forall p :: 0 <= p < |baseline| ==> Key(baseline[p]) in h.recorded)
    && (forall p, e :: 0 <= p < |baseline| && 0 <= e < |h.emittedAt| && h.emittedAt[e] < |h.recorded| ==>
          Key(baseline[p]) in h.recorded[..h.emittedAt[e]])
  }

  predicate Recounts(h: History, baseline: seq<Record>, emitted: seq<Record>) {
    EmittedFit(h, emitted) && BaselineFits(h, baseline)
  }

  ghost predicate Spaced(h: History) {
    EndOf(h.seen, h.recorded) && WellSpaced(h.recorded)
  }

  lemma SpacedKept(h: History, out: Outcome)
    requires Spaced(h)
    ensures Spaced(Advanced(h, out))
  {
    RunFits(h.seen, h.recorded, KeysOf(out.baseline));
    RunFits(SeenAtNews(h.seen, out), SeededRecords(h, out), KeysOf(out.later));
  }

  /** The recordings once a scan's baseline has been seeded. */
  function SeededRecords(h: History, out: Outcome): seq<SessionKey> {
    DedupWindow.Extended(h.seen, h.recorded, KeysOf(out.baseline))
  }

  lemma SeededGrows(h: History, out: Outcome)
    ensures h.recorded <= SeededRecords(h, out) <= Advanced(h, out).recorded
  {
    ExtendedIsAppended(h.seen, h.recorded, KeysOf(out.baseline));
    ExtendedIsAppended(SeenAtNews(h.seen, out), SeededRecords(h, out), KeysOf(out.later));
  }

  lemma AppendedAt<K>(a: seq<K>, b: seq<K>, m: nat)
    requires m < |b|
    ensures |a| + m < |a + b| && (a + b)[|a| + m] == b[m]
  {
  }

  /** The emitted sessions come right after the seeded ones. */
  lemma NewsAt(h: History, out: Outcome, m: nat)
    requires RecordsFit(h.seen, out) && m < |out.emitted|
    ensures var all, j := Advanced(h, out).recorded, |SeededRecords(h, out)| + m;
      j < |all| && all[j] == Key(out.emitted[m])
  {
    var news := RecordedKeys(SeenAtNews(h.seen, out), KeysOf(out.later));
    ExtendedIsAppended(SeenAtNews(h.seen, out), SeededRecords(h, out), KeysOf(out.later));
    AppendedAt(SeededRecords(h, out), news, m);
  }

  lemma BaselineRecorded(h: History, out: Outcome, p: nat)
    requires Spaced(h) && p < |out.baseline|
    ensures Key(out.baseline[p]) in Advanced(h, out).recorded
  {
    assert KeysOf(out.baseline)[p] == Key(out.baseline[p]);
    RunRecords(h.seen, h.recorded, KeysOf(out.baseline), Key(out.baseline[p]));
    SeededGrows(h, out);
  }

  lemma Positions(h: History, out: Outcome)
    ensures |Advanced(h, out).emittedAt| == |h.emittedAt| + |out.emitted|
    ensures forall e :: 0 <= e < |h.emittedAt| ==> Advanced(h, out).emittedAt[e] == h.emittedAt[e]
    ensures forall e :: |h.emittedAt| <= e < |h.emittedAt| + |out.emitted| ==>
              Advanced(h, out).emittedAt[e] == |SeededRecords(h, out)| + (e - |h.emittedAt|)
  {
  }

  lemma EarlierEmission(h: History, out: Outcome, emitted: seq<Record>, e: nat)
    requires EmittedFit(h, emitted) && e < |emitted|
    ensures h.emittedAt[e] < |Advanced(h, out).recorded|
    ensures Advanced(h, out).recorded[h.emittedAt[e]] == Key(emitted[e])
  {
    SeededGrows(h, out);
  }

  lemma LaterEmission(h: History, out: Outcome, e: nat)
    requires RecordsFit(h.seen, out) && |h.emittedAt| <= e < |h.emittedAt| + |out.emitted|
    ensures var h', m := Advanced(h, out), e - |h.emittedAt|;
      e < |h'.emittedAt| && h'.emittedAt[e] < |h'.recorded| && h'.recorded[h'.emittedAt[e]] == Key(out.emitted[m])
  {
    Positions(h, out);
    NewsAt(h, out, e - |h.emittedAt|);
  }

  /** Where the e-th of all emissions stands. */
  lemma EmissionAt(h: History, out: Outcome, emitted: seq<Record>, e: nat)
    requires EmittedFit(h, emitted) && RecordsFit(h.seen, out) && e < |emitted| + |out.emitted|
    ensures var h' := Advanced(h, out);
      && |h'.emittedAt| == |emitted| + |out.emitted| && h'.emittedAt[e] < |h'.recorded|
      && h'.recorded[h'.emittedAt[e]] == Key((emitted + out.emitted)[e])
  {
    Positions(h, out);
    if e < |emitted| {
      EarlierEmission(h, out, emitted, e);
    } else {
      LaterEmission(h, out, e);
    }
  }

  lemma EmissionsIncrease(h: History, out: Outcome, emitted: seq<Record>)
    requires EmittedFit(h, emitted)
    ensures Increasing(Advanced(h, out).emittedAt)
  {
    SeededGrows(h, out);
    Positions(h, out);
  }

  lemma EmittedKept(h: History, out: Outcome, emitted: seq<Record>)
    requires EmittedFit(h, emitted) && RecordsFit(h.seen, out)
    ensures EmittedFit(Advanced(h, out), emitted + out.emitted)
  {
    var h', total := Advanced(h, out), emitted + out.emitted;
    EmissionsIncrease(h, out, emitted);
    forall e | 0 <= e < |total|
      ensures h'.emittedAt[e] < |h'.recorded| && h'.recorded[h'.emittedAt[e]] == Key(total[e])
    {
      EmissionAt(h, out, emitted, e);
    }
  }

  /** A baseline is ingested once, by an unseeded watcher, which has emitted nothing; and only a
      seeded one emits. */
  lemma SeedingComesFirst(f: Format, w: Watcher, scan: Scan)
    ensures var out := Scanned(f, w, scan);
      && (w.seeded ==> out.baseline == [] && out.w.seeded)
      && (out.emitted != [] || out.baseline != [] ==> out.w.seeded)
  {
  }

  /** A scan's own baseline is recorded before its emissions. */
  lemma SeededBeforeNews(h: History, out: Outcome, p: nat, e: nat)
    requires Spaced(h) && |h.emittedAt| == 0 && p < |out.baseline| && e < |out.emitted|
    ensures Key(out.baseline[p]) in SeededRecords(h, out)
    ensures |Advanced(h, out).emittedAt| == |out.emitted| && |SeededRecords(h, out)| <= Advanced(h, out).emittedAt[e]
  {
    assert KeysOf(out.baseline)[p] == Key(out.baseline[p]);
    RunRecords(h.seen, h.recorded, KeysOf(out.baseline), Key(out.baseline[p]));
  }

  lemma InLongerPrefix(a: seq<SessionKey>, b: seq<SessionKey>, n: nat, key: SessionKey)
    requires a <= b && |a| <= n <= |b| && key in a
    ensures key in b[..n]
  {
    var i :| 0 <= i < |a| && a[i] == key;
    assert b[..n][i] == key;
  }

  /** The baseline of a watcher's first seeding. */
  lemma FirstBaselineFits(h: History, out: Outcome)
    requires Spaced(h) && |h.emittedAt| == 0
    ensures BaselineFits(Advanced(h, out), out.baseline)
  {
    var h' := Advanced(h, out);
    SeededGrows(h, out);
    forall p | 0 <= p < |out.baseline|
      ensures Key(out.baseline[p]) in h'.recorded
    {
      BaselineRecorded(h, out, p);
    }
    forall p, e | 0 <= p < |out.baseline| && 0 <= e < |h'.emittedAt| && h'.emittedAt[e] < |h'.recorded|
      ensures Key(out.baseline[p]) in h'.recorded[..h'.emittedAt[e]]
    {
      SeededBeforeNews(h, out, p, e);
      InLongerPrefix(SeededRecords(h, out), h'.recorded, h'.emittedAt[e], Key(out.baseline[p]));
    }
  }

  /** Later scans add recordings after it. */
  lemma BaselineStays(h: History, out: Outcome, baseline: seq<Record>, p: nat, e: nat)
    requires BaselineFits(h, baseline) && p < |baseline| && out.baseline == []
    requires forall d :: 0 <= d < |h.emittedAt| ==> h.emittedAt[d] < |h.recorded|
    ensures Key(baseline[p]) in Advanced(h, out).recorded
    ensures var h' := Advanced(h, out);
      e < |h'.emittedAt| && h'.emittedAt[e] < |h'.recorded| ==> Key(baseline[p]) in h'.recorded[..h'.emittedAt[e]]
  {
    var h', key := Advanced(h, out), Key(baseline[p]);
    SeededGrows(h, out);
    InLongerPrefix(h.recorded, h'.recorded, |h'.recorded|, key);
    if e < |h'.emittedAt| && h'.emittedAt[e] < |h'.recorded| {
      if e < |h.emittedAt| {
        InLongerPrefix(h.recorded[..h.emittedAt[e]], h'.recorded, h'.emittedAt[e], key);
      } else {
        InLongerPrefix(h.recorded, h'.recorded, h'.emittedAt[e], key);
      }
    }
  }

  lemma BaselineKept(h: History, out: Outcome, baseline: seq<Record>)
    requires BaselineFits(h, baseline) && Spaced(h)
    requires forall d :: 0 <= d < |h.emittedAt| ==> h.emittedAt[d] < |h.recorded|
    requires out.baseline == [] || (baseline == [] && |h.emittedAt| == 0)
    ensures BaselineFits(Advanced(h, out), baseline + out.baseline)
  {
    if out.baseline == [] {
      assert baseline + out.baseline == baseline;
      var h' := Advanced(h, out);
      forall p | 0 <= p < |baseline|
        ensures Key(baseline[p]) in h'.recorded
      {
        BaselineStays(h, out, baseline, p, 0);
      }
      forall p, e | 0 <= p < |baseline| && 0 <= e < |h'.emittedAt| && h'.emittedAt[e] < |h'.recorded|
        ensures Key(baseline[p]) in h'.recorded[..h'.emittedAt[e]]
      {
        BaselineStays(h, out, baseline, p, e);
      }
    } else {
      assert baseline + out.baseline == out.baseline;
      FirstBaselineFits(h, out);
    }
  }

  /** Before the seeding nothing was ingested as a baseline and nothing emitted. */
  predicate QuietUntilSeeded(log: Log) {
    !log.w.seeded ==> log.baseline == [] && log.emitted == []
  }

  predicate HistoryOfLog(h: History, log: Log) {
    && h.seen == log.w.seen && EmittedFit(h, log.emitted) && BaselineFits(h, log.baseline) && QuietUntilSeeded(log)
  }

  ghost predicate HistoryGood(h: History, log: Log) {
    HistoryOfLog(h, log) && Spaced(h)
  }

  /** What the history needs to know of a scan. */
  predicate ScanFits(w: Watcher, out: Outcome) {
    && RecordsFit(w.seen, out)
    && (w.seeded ==> out.baseline == [] && out.w.seeded) && (out.emitted != [] || out.baseline != [] ==> out.w.seeded)
  }

  lemma EveryScanFits(f: Format, w: Watcher, scan: Scan)
    ensures ScanFits(w, Scanned(f, w, scan))
  {
    ScanRecords(f, w, scan);
    SeedingComesFirst(f, w, scan);
  }

  lemma HistoryNext(h: History, log: Log, out: Outcome)
    requires HistoryGood(h, log) && ScanFits(log.w, out)
    ensures HistoryGood(Advanced(h, out), Extended(log, out))
  {
    SpacedKept(h, out);
    EmittedKept(h, out, log.emitted);
    BaselineKept(h, out, log.baseline);
  }

  /** One more scan of either record. */
  lemma OneMoreScan(f: Format, scans: seq<Scan>, out: Outcome)
    requires |scans| > 0 && out == Scanned(f, Watched(f, scans[..|scans| - 1]).w, scans[|scans| - 1])
    ensures HistoryOf(f, scans) == Advanced(HistoryOf(f, scans[..|scans| - 1]), out)
    ensures Watched(f, scans) == Extended(Watched(f, scans[..|scans| - 1]), out)
  {
  }

  lemma HistoryFitsNext(f: Format, scans: seq<Scan>, h: History, log: Log, out: Outcome)
    requires |scans| > 0 && HistoryGood(h, log) && ScanFits(log.w, out)
    requires HistoryOf(f, scans) == Advanced(h, out) && Watched(f, scans) == Extended(log, out)
    ensures HistoryGood(HistoryOf(f, scans), Watched(f, scans))
  {
    HistoryNext(h, log, out);
  }

  lemma {:induction false} HistoryFits(f: Format, scans: seq<Scan>)
    ensures HistoryGood(HistoryOf(f, scans), Watched(f, scans))
    decreases |scans|
  {
    if |scans| > 0 {
      var before, scan := scans[..|scans| - 1], scans[|scans| - 1];
      var out := Scanned(f, Watched(f, before).w, scan);
      HistoryFits(f, before);
      EveryScanFits(f, Watched(f, before).w, scan);
      OneMoreScan(f, scans, out);
      HistoryFitsNext(f, scans, HistoryOf(f, before), Watched(f, before), out);
    }
  }

  /** Over any scans, rotation and re-reading included: every emission is a recording of its
      own, and if its key was recorded before, as an earlier emission, as unreported news or
      as part of a baseline, at least 3072 other, distinct keys were recorded in between. */
  lemma EmissionsFarApart(f: Format, scans: seq<Scan>, e: nat, i: nat)
    requires e < |Watched(f, scans).emitted|
    ensures var h, log := HistoryOf(f, scans), Watched(f, scans);
      && Recounts(h, log.baseline, log.emitted)
      && (Repeats(h.recorded, i, h.emittedAt[e]) ==> FarApart(h.recorded, i, h.emittedAt[e]))
  {
    HistoryFits(f, scans);
    SpacedIsFarApart(HistoryOf(f, scans), i);
  }

  lemma SpacedIsFarApart(h: History, i: nat)
    requires Spaced(h)
    ensures forall j: nat :: Repeats(h.recorded, i, j) ==> FarApart(h.recorded, i, j)
  {
    forall j: nat | Repeats(h.recorded, i, j)
      ensures FarApart(h.recorded, i, j)
    {
      WellSpacedIsFarApart(h.recorded, i, j);
    }
  }

  /** So a session that was in the baseline is emitted, if ever, only after at least 3072
      other, distinct keys were recorded since. */
  lemma BaselineComesBackLate(f: Format, scans: seq<Scan>, p: nat, e: nat)
    requires p < |Watched(f, scans).baseline| && e < |Watched(f, scans).emitted|
    requires Key(Watched(f, scans).baseline[p]) == Key(Watched(f, scans).emitted[e])
    ensures var h := HistoryOf(f, scans);
      && e < |h.emittedAt|
      && exists i: nat :: FarApart(h.recorded, i, h.emittedAt[e]) && h.recorded[i] == Key(Watched(f, scans).baseline[p])
  {
    HistoryFits(f, scans);
    RecordedEarlier(HistoryOf(f, scans), Watched(f, scans).baseline, Watched(f, scans).emitted, p, e);
  }

  lemma RecordedEarlier(h: History, baseline: seq<Record>, emitted: seq<Record>, p: nat, e: nat)
    requires Spaced(h) && Recounts(h, baseline, emitted)
    requires p < |baseline| && e < |emitted| && Key(baseline[p]) == Key(emitted[e])
    ensures exists i: nat :: FarApart(h.recorded, i, h.emittedAt[e]) && h.recorded[i] == Key(baseline[p])
  {
    var j := h.emittedAt[e];
    assert Key(baseline[p]) in h.recorded[..j];
    var i: nat :| i < j && h.recorded[..j][i] == Key(baseline[p]);
    assert Repeats(h.recorded, i, j);
    WellSpacedIsFarApart(h.recorded, i, j);
  }

  // ------------------------------------------------------------------ what must be emitted

  lemma {:induction false} WindowSplit<K>(w: seq<K>, a: seq<K>, b: seq<K>)
    ensures Window(w, a + b) == Window(Window(w, a), b)
    ensures Unseen(w, a + b) == Unseen(w, a) + Unseen(Window(w, a), b)
    decreases |a|
  {
    if |a| == 0 {
      assert a + b == b;
    } else {
      assert (a + b)[1..] == a[1..] + b;
      WindowSplit(Recorded(w, a[0]), a[1..], b);
    }
  }

  lemma {:induction false} SelectedSplit<T>(a: seq<T>, b: seq<T>, x: seq<bool>, y: seq<bool>)
    requires |a| == |x| && |b| == |y|
    ensures Selected(a + b, x + y) == Selected(a, x) + Selected(b, y)
    decreases |a|
  {
    if |a| == 0 {
      assert a + b == b && x + y == y;
    } else {
      assert (a + b)[1..] == a[1..] + b && (x + y)[1..] == x[1..] + y;
      SelectedSplit(a[1..], b, x[1..], y);
    }
  }

  /** A record whose key is not in the window at its turn comes right after the new ones before
      it. */
  lemma NewRecordAt(seen: seq<SessionKey>, records: seq<Record>, q: nat)
    requires q < |records| && Key(records[q]) !in Window(seen, KeysOf(records[..q]))
    ensures var news, m := Selected(records, Unseen(seen, KeysOf(records))), |RecordedKeys(seen, KeysOf(records[..q]))|;
      m < |news| && news[m] == records[q]
  {
    var a, b := records[..q], records[q..];
    assert records == a + b;
    SelectedAcross(seen, a, b);
    KeysOfSelected(a, Unseen(seen, KeysOf(a)));
    FirstSelected(Window(seen, KeysOf(a)), b);
    AppendedAt(Selected(a, Unseen(seen, KeysOf(a))), Selected(b, Unseen(Window(seen, KeysOf(a)), KeysOf(b))), 0);
  }

  lemma SelectedAcross(seen: seq<SessionKey>, a: seq<Record>, b: seq<Record>)
    ensures Selected(a + b, Unseen(seen, KeysOf(a + b)))
         == Selected(a, Unseen(seen, KeysOf(a))) + Selected(b, Unseen(Window(seen, KeysOf(a)), KeysOf(b)))
  {
    assert KeysOf(a + b) == KeysOf(a) + KeysOf(b);
    WindowSplit(seen, KeysOf(a), KeysOf(b));
    SelectedSplit(a, b, Unseen(seen, KeysOf(a)), Unseen(Window(seen, KeysOf(a)), KeysOf(b)));
  }

  lemma FirstSelected(w: seq<SessionKey>, b: seq<Record>)
    requires |b| > 0 && Key(b[0]) !in w
    ensures |Selected(b, Unseen(w, KeysOf(b)))| > 0 && Selected(b, Unseen(w, KeysOf(b)))[0] == b[0]
  {
  }

  lemma ConsumedEmits(f: Format, w: Watcher, layout: Layout, data: Bytes, q: nat)
    requires var out := Consumed(f, w, layout, data);
      q < |out.later| && Key(out.later[q]) !in Window(SeenAtNews(w.seen, out), KeysOf(out.later[..q]))
    ensures var out := Consumed(f, w, layout, data);
      var m := |RecordedKeys(SeenAtNews(w.seen, out), KeysOf(out.later[..q]))|;
      m < 5 ==> m < |out.emitted| && out.emitted[m] == out.later[q]
  {
    var out := Consumed(f, w, layout, data);
    NewRecordAt(SeenAtNews(w.seen, out), out.later, q);
  }

  /** Over any scans: every record ingested after the baseline whose key is not in the window at
      its turn is emitted, unless five of its scan came before it. */
  lemma NewsIsEmitted(f: Format, scans: seq<Scan>, q: nat)
    requires |scans| > 0
    requires var out := Scanned(f, Watched(f, scans[..|scans| - 1]).w, scans[|scans| - 1]);
      q < |out.later|
      && Key(out.later[q]) !in Window(Watched(f, scans[..|scans| - 1]).w.seen, KeysOf(out.baseline) + KeysOf(out.later[..q]))
    ensures var w := Watched(f, scans[..|scans| - 1]).w;
      var out := Scanned(f, w, scans[|scans| - 1]);
      var m := |RecordedKeys(SeenAtNews(w.seen, out), KeysOf(out.later[..q]))|;
      m < 5 ==> m < |out.emitted| && out.emitted[m] == out.later[q] && out.later[q] in Watched(f, scans).emitted
  {
    var w, scan := Watched(f, scans[..|scans| - 1]).w, scans[|scans| - 1];
    var out := Scanned(f, w, scan);
    WindowSplit(w.seen, KeysOf(out.baseline), KeysOf(out.later[..q]));
    ScanEmits(f, w, scan, q);
  }

  lemma ScanEmits(f: Format, w: Watcher, scan: Scan, q: nat)
    requires var out := Scanned(f, w, scan);
      q < |out.later| && Key(out.later[q]) !in Window(SeenAtNews(w.seen, out), KeysOf(out.later[..q]))
    ensures var out := Scanned(f, w, scan);
      var m := |RecordedKeys(SeenAtNews(w.seen, out), KeysOf(out.later[..q]))|;
      m < 5 ==> m < |out.emitted| && out.emitted[m] == out.later[q]
  {
    var rotated := Rotated(scan, w);
    var data := ReadFrom(scan.content, if rotated then 0 else w.offset);
    var v := Started(Identified(if rotated then Reset(w) else w, scan), scan, data);
    var layout := if v.layout.None? then f.detect(data) else v.layout;
    ConsumedEmits(f, v, layout.value, data, q);
  }

  // ------------------------------------------------------------------ rotation

  /** The filter, by concatenation and on single records: nothing is reordered, added or lost. */
  lemma {:induction false} RecentExactly(a: seq<Record>, b: seq<Record>, x: Record, minTime: int)
    ensures Recent(a + b, minTime) == Recent(a, minTime) + Recent(b, minTime)
    ensures Recent([x], minTime) == if x.time >= minTime then [x] else []
    decreases |a|
  {
    assert [x][1..] == [];
    if |a| == 0 {
      assert a + b == b;
    } else {
      assert (a + b)[1..] == a[1..] + b;
      RecentExactly(a[1..], b, x, minTime);
    }
  }

  /** So is parsing: one record's bytes give what the parser makes of them, and fewer nothing. */
  lemma ParseOne(f: Format, data: Bytes, layout: Layout)
    ensures |data| < layout.recordSize ==> Parse(f, data, layout) == []
    ensures |data| == layout.recordSize ==>
      Parse(f, data, layout) == match f.parse(data, layout) case Some(rec) => [rec] case None => []
  {
    if |data| == layout.recordSize {
      assert data[..layout.recordSize] == data && data[layout.recordSize..] == [];
    }
  }

  /** When a started watcher finds another file, or the file shrunk or older, it starts over:
      everything in it counts as news that is not older than the time that stands for the
      baseline, which for an undecided baseline is the time the watch started. */
  lemma RotationStartsOver(f: Format, w: Watcher, scan: Scan, l: Layout)
    requires scan.File? && w.started && f.detect(scan.content) == Some(l)
    requires
      || scan.dev != w.device || scan.ino != w.inode || scan.size < w.offset
      || (w.ctim.sec != 0
          && (scan.ctim.sec < w.ctim.sec || (scan.ctim.sec == w.ctim.sec && scan.ctim.nsec < w.ctim.nsec)))
    ensures var out, since := Scanned(f, w, scan), if w.seeded then w.minLoginTime else w.startupTime;
      var all := Parse(f, scan.content, l);
      && out.baseline == [] && out.later == (if since == 0 then all else Recent(all, since))
      && out.w.offset == Whole(|scan.content|, l) && out.w.layout == Some(l) && out.w.seeded
      && out.w.minLoginTime == since && out.w.startupTime == w.startupTime
      && out.w.device == scan.dev && out.w.inode == scan.ino && out.w.ctim == scan.ctim
  {
    assert ReadFrom(scan.content, 0) == scan.content;
    assert scan.content[0..Whole(|scan.content|, l)] == scan.content[..Whole(|scan.content|, l)];
    PartialTailIgnored(f, scan.content, l);
  }

  /** The watch starts at the clock of its first readable scan, and that is kept. */
  lemma StartIsKept(f: Format, w: Watcher, scan: Scan)
    ensures scan.File? ==> Scanned(f, NewWatcher(), scan).w.startupTime == scan.now && Scanned(f, NewWatcher(), scan).w.started
    ensures w.started ==> Scanned(f, w, scan).w.started && Scanned(f, w, scan).w.startupTime == w.startupTime
  {
  }

  /** Whenever a time stands for the baseline, everything emitted so far is at least as late. */
  lemma {:induction false} EmittedSinceStart(f: Format, scans: seq<Scan>)
    ensures var log := Watched(f, scans);
      && (log.w.minLoginTime != 0 ==> log.w.minLoginTime == log.w.startupTime && log.w.seeded)
      && (log.w.minLoginTime != 0 ==> forall x :: x in log.emitted ==> x.time >= log.w.minLoginTime)
      && (!log.w.seeded ==> log.emitted == [])
    decreases |scans|
  {
    if |scans| > 0 {
      var w := Watched(f, scans[..|scans| - 1]).w;
      EmittedSinceStart(f, scans[..|scans| - 1]);
      ScanSinceStart(f, w, scans[|scans| - 1]);
    }
  }

  lemma ScanSinceStart(f: Format, w: Watcher, scan: Scan)
    requires w.minLoginTime != 0 ==> w.minLoginTime == w.startupTime && w.seeded
    ensures var out := Scanned(f, w, scan);
      && (w.minLoginTime != 0 ==> out.w.minLoginTime == w.minLoginTime)
      && (w.seeded ==> out.w.minLoginTime == w.minLoginTime && out.w.seeded)
      && (out.w.minLoginTime != 0 ==> out.w.minLoginTime == out.w.startupTime && out.w.seeded)
      && (out.w.minLoginTime != 0 ==> forall x :: x in out.emitted ==> x.time >= out.w.minLoginTime)
      && (!out.w.seeded ==> out.emitted == [])
  {
    var out := Scanned(f, w, scan);
    EmittedAreItsNews(f, w, scan);
    if out.w.minLoginTime != 0 && out.later != [] {
      var rotated := Rotated(scan, w);
      var data := ReadFrom(scan.content, if rotated then 0 else w.offset);
      var v := Started(Identified(if rotated then Reset(w) else w, scan), scan, data);
      var layout := if v.layout.None? then f.detect(data) else v.layout;
      RecentIsLate(Parse(f, data[BaselineLength(v, layout.value, data)..Whole(|data|, layout.value)], layout.value), v.minLoginTime);
    }
  }

  lemma {:induction false} RecentIsLate(records: seq<Record>, minTime: int)
    ensures forall x :: x in Recent(records, minTime) ==> x.time >= minTime
    decreases |records|
  {
    if |records| > 0 {
      RecentIsLate(records[1..], minTime);
    }
  }
}
