/** Telling the two record layouts of the login log apart, after detectUtmpLayout of
    agent/logins/utmp.go: each layout is tried as a stride over the data and scored. */
module LayoutDetection {
  import opened Prelude

  datatype Order = LittleEndian | BigEndian

  /** 384-byte records with a 32-bit time, or 400-byte records with a 64-bit one. */
  datatype Layout = Compat32 | Native64 {
    function RecordSize(): nat {
      if Compat32? then 384 else 400
    }
    function TimeOffset(): nat {
      if Compat32? then 340 else 344
    }
    function Width(): nat {
      if Compat32? then 4 else 8
    }
    /** How much of a record the test looks at. */
    function Needed(): (n: nat)
      ensures 2 <= n <= RecordSize()
    {
      TimeOffset() + 2 * Width()
    }
  }

  const Layouts: seq<Layout> := [Compat32, Native64]

  const MIN_DETECTABLE: nat := 360
  const FIRST_SECOND: int := -62135596800
  const LAST_SECOND: int := 253402300799

  // ------------------------------------------------------------------ one entry

  function Unsigned(order: Order, b: Bytes): nat
    decreases |b|
  {
    if |b| == 0 then 0
    else match order
      case LittleEndian => b[0] + 256 * Unsigned(order, b[1..])
      case BigEndian => b[|b| - 1] + 256 * Unsigned(order, b[..|b| - 1])
  }

  function Signed(order: Order, b: Bytes): int {
    var n := Unsigned(order, b);
    if |b| == 8 then (if n < 0x8000_0000_0000_0000 then n else n - 0x1_0000_0000_0000_0000)
    else if n < 0x8000_0000 then n else n - 0x1_0000_0000
  }

  /** What the test reads of the entry that starts the data. */
  datatype Entry = Entry(typ: nat, sec: int, usec: int)

  function EntryAt(order: Order, layout: Layout, b: Bytes): Entry
    requires layout.Needed() <= |b|
  {
    var t, w := layout.TimeOffset(), layout.Width();
    Entry(Unsigned(order, b[..2]), Signed(order, b[t..t + w]), Signed(order, b[t + w..t + 2 * w]))
  }

  predicate Plausible(e: Entry) {
    e.typ <= 9 && FIRST_SECOND <= e.sec <= LAST_SECOND && 0 <= e.usec < 1000000
  }

  // ------------------------------------------------------------------ the score of a layout

  /** The number of non-empty entries at this stride, or None if one is implausible. */
  function Score(order: Order, layout: Layout, data: Bytes): Option<nat>
    decreases |data|
  {
    if |data| < layout.Needed() then Some(0)
    else
      var e := EntryAt(order, layout, data);
      if !Plausible(e) then None
      else
        match Score(order, layout, Rest(layout, data))
        case None => None
        case Some(n) => Some(n + if e.typ != 0 then 1 else 0)
  }

  /** What follows the first record, if anything does. */
  function Rest(layout: Layout, data: Bytes): (r: Bytes)
    requires layout.Needed() <= |data|
    ensures |r| < |data|
  {
    if |data| < layout.RecordSize() then [] else data[layout.RecordSize()..]
  }

  /** The inner loop. */
  method ScoreOf(order: Order, layout: Layout, data: Bytes) returns (valid: bool, score: nat)
    ensures valid == Score(order, layout, data).Some?
    ensures valid ==> score == Score(order, layout, data).value
  {
    valid, score := true, 0;
    var offset := 0;
    ghost var left := data;
    while offset + layout.Needed() <= |data|
      invariant 0 <= offset
      invariant left == if offset <= |data| then data[offset..] else []
      invariant Score(order, layout, data).Some? <==> Score(order, layout, left).Some?
      invariant Score(order, layout, data).Some? ==>
                  Score(order, layout, data).value == score + Score(order, layout, left).value
      decreases |data| - offset
    {
      var e := EntryAt(order, layout, data[offset..]);
      if !Plausible(e) {
        valid := false;
        return;
      }
      if e.typ != 0 {
        score := score + 1;
      }
      left := Rest(layout, left);
      offset := offset + layout.RecordSize();
    }
  }

  // ------------------------------------------------------------------ detection

  predicate Fits(order: Order, layout: Layout, data: Bytes) {
    Score(order, layout, data).Some?
  }

  /** The layout fits, and any other that fits scores less. */
  predicate Best(order: Order, layout: Layout, data: Bytes) {
    && Fits(order, layout, data)
    && forall other :: other != layout && Fits(order, other, data) ==>
         Score(order, other, data).value < Score(order, layout, data).value
  }

  /** A layout is detected exactly if the data is long enough and that layout alone scores
      best: ties and implausible data are left undecided. */
  method Detect(order: Order, data: Bytes) returns (r: Option<Layout>)
    ensures forall layout :: r == Some(layout) <==> 360 <= |data| && Best(order, layout, data)
  {
    var found, matches := Compat32, 0;
    var bestScore: int := -1;
    for i := 0 to |Layouts|
      invariant i == 0 ==> matches == 0 && bestScore == -1
      invariant i == 1 ==>
        if Fits(order, Compat32, data) then found == Compat32 && matches == 1 && bestScore == Score(order, Compat32, data).value
        else matches == 0 && bestScore == -1
      invariant i == 2 ==>
        && (matches == 1 ==> Best(order, found, data))
        && (matches != 1 ==> !Best(order, Compat32, data) && !Best(order, Native64, data))
    {
      var valid, score := ScoreOf(order, Layouts[i], data);
      if valid {
        if score > bestScore {
          found, bestScore, matches := Layouts[i], score, 1;
        } else if score == bestScore {
          matches := matches + 1;
        }
      }
    }
    if |data| < MIN_DETECTABLE || matches != 1 {
      return None;
    }
    r := Some(found);
  }

  // ------------------------------------------------------------------ growing data

  lemma {:induction false} PrefixFits(order: Order, layout: Layout, data: Bytes, more: Bytes)
    requires Fits(order, layout, data + more)
    ensures Fits(order, layout, data)
    ensures Score(order, layout, data).value <= Score(order, layout, data + more).value
    decreases |data|
  {
    if layout.Needed() <= |data| {
      SameEntry(order, layout, data, more);
      if layout.RecordSize() <= |data| {
        assert Rest(layout, data + more) == Rest(layout, data) + more;
        PrefixFits(order, layout, Rest(layout, data), more);
      }
    }
  }

  lemma SameEntry(order: Order, layout: Layout, data: Bytes, more: Bytes)
    requires layout.Needed() <= |data|
    ensures EntryAt(order, layout, data + more) == EntryAt(order, layout, data)
  {
    var t, w := layout.TimeOffset(), layout.Width();
    assert (data + more)[..2] == data[..2];
    assert (data + more)[t..t + w] == data[t..t + w];
    assert (data + more)[t + w..t + 2 * w] == data[t + w..t + 2 * w];
  }

  /** A layout that earlier bytes ruled out stays ruled out: once the other one does not fit,
      no append makes the detection change its mind, only, at worst, become undecided. */
  lemma RuledOutForGood(order: Order, layout: Layout, other: Layout, data: Bytes, more: Bytes)
    requires MIN_DETECTABLE <= |data| && Best(order, layout, data)
    requires other != layout && !Fits(order, other, data)
    ensures !Best(order, other, data + more)
    ensures Best(order, layout, data + more) <==> Fits(order, layout, data + more)
  {
    if Fits(order, other, data + more) {
      PrefixFits(order, other, data, more);
    }
  }

  // ------------------------------------------------------------------ what is read where

  /** The two layouts of the record. */
  lemma TwoLayouts()
    ensures Compat32.RecordSize() == 384 && Compat32.TimeOffset() == 340 && Compat32.Width() == 4 && Compat32.Needed() == 348
    ensures Native64.RecordSize() == 400 && Native64.TimeOffset() == 344 && Native64.Width() == 8 && Native64.Needed() == 360
  {
  }

  lemma OneMoreByte(x: byte, b: Bytes)
    ensures Unsigned(LittleEndian, [x] + b) == x + 256 * Unsigned(LittleEndian, b)
    ensures Unsigned(BigEndian, b + [x]) == x + 256 * Unsigned(BigEndian, b)
  {
    assert ([x] + b)[1..] == b && (b + [x])[..|b|] == b;
  }

  /** Two bytes, and four read as a signed number, in either order. */
  lemma Numbers(a: byte, b: byte, c: byte, d: byte)
    ensures Unsigned(LittleEndian, [a, b]) == a + 256 * b && Unsigned(BigEndian, [b, a]) == a + 256 * b
    ensures var n := a + 256 * (b + 256 * (c + 256 * d));
      && Signed(LittleEndian, [a, b, c, d]) == (if d < 128 then n else n - 0x1_0000_0000)
      && Signed(BigEndian, [d, c, b, a]) == (if d < 128 then n else n - 0x1_0000_0000)
  {
    TwoBytes(a, b);
    TwoBytes(c, d);
    OneMoreByte(b, [c, d]);
    OneMoreByte(a, [b, c, d]);
    OneMoreByte(b, [d, c]);
    OneMoreByte(a, [d, c, b]);
    assert [b] + [c, d] == [b, c, d] && [a] + [b, c, d] == [a, b, c, d];
    assert [d, c] + [b] == [d, c, b] && [d, c, b] + [a] == [d, c, b, a];
  }

  lemma TwoBytes(a: byte, b: byte)
    ensures Unsigned(LittleEndian, [a, b]) == a + 256 * b && Unsigned(BigEndian, [b, a]) == a + 256 * b
  {
    OneMoreByte(b, []);
    OneMoreByte(a, [b]);
    assert [a] + [b] == [a, b] && [b] + [a] == [b, a] && [] + [b] == [b] == [b] + [];
  }

  /** An entry is plausible exactly if its type is at most 9, its time lies in the years 1 to
      9999, and its microseconds are within a second; it is counted unless its type is 0. */
  lemma OneEntry(order: Order, layout: Layout, data: Bytes)
    requires |data| == layout.Needed()
    ensures var t, w := layout.TimeOffset(), layout.Width();
      var typ := Unsigned(order, data[0..2]);
      var sec, usec := Signed(order, data[t..t + w]), Signed(order, data[t + w..t + 2 * w]);
      Score(order, layout, data) ==
        if typ <= 9 && -62135596800 <= sec <= 253402300799 && 0 <= usec < 1000000 then Some(if typ == 0 then 0 else 1) else None
  {
    assert data[0..2] == data[..2];
  }

  lemma SignedEight(order: Order, b: Bytes)
    requires |b| == 8
    ensures Signed(order, b) == Unsigned(order, b) - if Unsigned(order, b) < 0x8000_0000_0000_0000 then 0 else 0x1_0000_0000_0000_0000
  {
  }
}
