/** The ordered session cipher of pkg/securews/ws.go. The AEAD of section 2.8 of RFC 8439
    is symbolic: a sealed value is the key, nonce, associated data and plaintext it was
    made from, and opens only under the same key, nonce and associated data. */
module SecureChannel {
  import opened FieldEncoding
  import opened Prelude

  datatype Role = Hub | Agent

  datatype Cipher = Sealed(key: Bytes, nonce: Bytes, aad: Bytes, plain: Bytes) | Junk(bytes: Bytes)

  /** A frame off the wire; Garbled is one msgpack cannot decode. */
  datatype Wire = Frame(seqNo: int, ciphertext: Cipher) | Garbled

  datatype Failure = BadEncoding | BadSequence | BadCiphertext
  datatype Result = Plain(plain: Bytes) | Rejected(failure: Failure)

  function Seal(key: Bytes, nonce: Bytes, plain: Bytes, aad: Bytes): Cipher {
    Sealed(key, nonce, aad, plain)
  }

  function Open(key: Bytes, nonce: Bytes, c: Cipher, aad: Bytes): Option<Bytes> {
    if c.Sealed? && c.key == key && c.nonce == nonce && c.aad == aad then Some(c.plain) else None
  }

  function OppositeRole(r: Role): Role {
    if r == Hub then Agent else Hub
  }

  /** The Hub sends under the first half of the derived key material and the Agent under the second. */
  function SessionKeys(role: Role, okm: Bytes): (keys: (Bytes, Bytes))
    requires |okm| == 64
  {
    var hubToAgent, agentToHub := okm[..32], okm[32..];
    if role == Agent then (agentToHub, hubToAgent) else (hubToAgent, agentToHub)
  }

  function Tag(role: Role): byte {
    if role == Hub then 0xA1 else 0xB2
  }

  /** One role tag, three zero bytes, the sequence number. */
  function MakeNonce(role: Role, n: int): (nonce: Bytes)
    requires 0 <= n
    ensures |nonce| == 12
  {
    [Tag(role), 0, 0, 0] + Uint64Bytes(n)
  }

  /** Nonces of one key differ: the same nonce is the same sender and sequence number. */
  lemma NonceInjective(r: Role, m: int, s: Role, n: int)
    requires 0 <= m < TWO_TO_64 && 0 <= n < TWO_TO_64 && MakeNonce(r, m) == MakeNonce(s, n)
    ensures r == s && m == n
  {
    assert MakeNonce(r, m)[0] == MakeNonce(s, n)[0];
    assert MakeNonce(r, m)[4..] == Uint64Bytes(m) && MakeNonce(s, n)[4..] == Uint64Bytes(n);
    Uint64RoundTrip(m);
    Uint64RoundTrip(n);
  }

  // ------------------------------------------------------------------ one endpoint

  datatype Session = Session(role: Role, txKey: Bytes, rxKey: Bytes, txSeq: int, rxSeq: int) {
    predicate Valid() { 0 <= txSeq < TWO_TO_64 && 0 <= rxSeq < TWO_TO_64 }
  }

  function NewSession(role: Role, okm: Bytes): (s: Session)
    requires |okm| == 64
    ensures s.Valid()
  {
    Session(role, SessionKeys(role, okm).0, SessionKeys(role, okm).1, 0, 0)
  }

  /** uint64 arithmetic wraps. */
  function Next(n: int): (r: int)
    requires 0 <= n < TWO_TO_64
    ensures 0 <= r < TWO_TO_64
  {
    if n + 1 == TWO_TO_64 then 0 else n + 1
  }

  /** The number k increments later. */
  function SeqAt(start: int, k: nat): (n: int)
    requires 0 <= start < TWO_TO_64
    ensures 0 <= n < TWO_TO_64
    decreases k
  {
    if k == 0 then start else SeqAt(Next(start), k - 1)
  }

  lemma {:induction false} SeqAtBelow(start: int, k: nat)
    requires 0 <= start && start + k < TWO_TO_64
    ensures SeqAt(start, k) == start + k
    decreases k
  {
    if k > 0 {
      SeqAtBelow(start + 1, k - 1);
    }
  }

  lemma {:induction false} SeqAtWraps(start: int, k: nat)
    requires 0 <= start < TWO_TO_64
    ensures exists q :: start + k == q * TWO_TO_64 + SeqAt(start, k)
    decreases k
  {
    if k == 0 {
      assert start + k == 0 * TWO_TO_64 + SeqAt(start, k);
    } else {
      SeqAtWraps(Next(start), k - 1);
      var q :| Next(start) + (k - 1) == q * TWO_TO_64 + SeqAt(Next(start), k - 1);
      if start + 1 == TWO_TO_64 {
        assert start + k == (q + 1) * TWO_TO_64 + SeqAt(start, k);
      } else {
        assert start + k == q * TWO_TO_64 + SeqAt(start, k);
      }
    }
  }

  lemma MultiplesApart(a: int, p: int, b: int, q: int)
    requires 0 <= a < TWO_TO_64 && 0 <= b < TWO_TO_64
    ensures a == b <==> ((q * TWO_TO_64 + b) - (p * TWO_TO_64 + a)) % TWO_TO_64 == 0
  {
    var d := (q * TWO_TO_64 + b) - (p * TWO_TO_64 + a);
    assert d == (q - p) * TWO_TO_64 + (b - a);
  }

  lemma SeqsRepeatOnWrap(start: int, i: nat, j: nat)
    requires 0 <= start < TWO_TO_64
    ensures SeqAt(start, i) == SeqAt(start, j) <==> (j - i) % TWO_TO_64 == 0
  {
    var m, n := SeqAt(start, i), SeqAt(start, j);
    SeqAtWraps(start, i);
    SeqAtWraps(start, j);
    var p :| start + i == p * TWO_TO_64 + m;
    var q :| start + j == q * TWO_TO_64 + n;
    MultiplesApart(m, p, n, q);
  }

  function FrameFor(role: Role, key: Bytes, n: int, plain: Bytes): Wire
    requires 0 <= n
  {
    Frame(n, Seal(key, MakeNonce(role, n), plain, Uint64Bytes(n)))
  }

  function Encrypted(s: Session, plain: Bytes): (Session, Wire)
    requires s.Valid()
  {
    (s.(txSeq := Next(s.txSeq)), FrameFor(s.role, s.txKey, s.txSeq, plain))
  }

  /** The sequence number is spent as soon as it matches, before authentication. */
  function Decrypted(s: Session, w: Wire): (r: (Session, Result))
    requires s.Valid()
    ensures r.0.Valid()
  {
    if w.Garbled? then (s, Rejected(BadEncoding))
    else if w.seqNo != s.rxSeq then (s, Rejected(BadSequence))
    else
      var s' := s.(rxSeq := Next(s.rxSeq));
      match Open(s.rxKey, MakeNonce(OppositeRole(s.role), s.rxSeq), w.ciphertext, Uint64Bytes(s.rxSeq))
      case Some(plain) => (s', Plain(plain))
      case None => (s', Rejected(BadCiphertext))
  }

  class SessionCrypto {
    const role: Role
    const txKey: Bytes
    const rxKey: Bytes
    var txSeq: int
    var rxSeq: int

    ghost function State(): Session
      reads this
    {
      Session(role, txKey, rxKey, txSeq, rxSeq)
    }

    constructor (role: Role, okm: Bytes)
      requires |okm| == 64
      ensures State() == NewSession(role, okm)
    {
      this.role := role;
      txKey, rxKey := SessionKeys(role, okm).0, SessionKeys(role, okm).1;
      txSeq, rxSeq := 0, 0;
    }

    method Encrypt(plain: Bytes) returns (w: Wire)
      requires State().Valid()
      modifies this
      ensures (State(), w) == Encrypted(old(State()), plain)
      ensures w == Frame(old(txSeq), Sealed(txKey, [if role == Hub then 0xA1 else 0xB2, 0, 0, 0] + Uint64Bytes(old(txSeq)),
                                            Uint64Bytes(old(txSeq)), plain))
      ensures txSeq == (old(txSeq) + 1) % TWO_TO_64 && rxSeq == old(rxSeq)
    {
      var n := txSeq;
      txSeq := (txSeq + 1) % TWO_TO_64;
      var nonce := MakeNonce(role, n);
      var aad := Uint64Bytes(n);
      w := Frame(n, Seal(txKey, nonce, plain, aad));
    }

    method Decrypt(w: Wire) returns (r: Result)
      requires State().Valid()
      modifies this
      ensures (State(), r) == Decrypted(old(State()), w)
      ensures txSeq == old(txSeq)
      ensures w.Garbled? ==> r == Rejected(BadEncoding) && rxSeq == old(rxSeq)
      ensures w.Frame? && w.seqNo != old(rxSeq) ==> r == Rejected(BadSequence) && rxSeq == old(rxSeq)
      ensures w.Frame? && w.seqNo == old(rxSeq) ==>
        && rxSeq == (old(rxSeq) + 1) % TWO_TO_64
        && r == (if w.ciphertext.Sealed? && w.ciphertext.key == rxKey && w.ciphertext.aad == Uint64Bytes(old(rxSeq))
                    && w.ciphertext.nonce == [if role == Hub then 0xB2 else 0xA1, 0, 0, 0] + Uint64Bytes(old(rxSeq))
                 then Plain(w.ciphertext.plain) else Rejected(BadCiphertext))
    {
      if w.Garbled? {
        return Rejected(BadEncoding);
      }
      if w.seqNo != rxSeq {
        return Rejected(BadSequence);
      }
      rxSeq := (rxSeq + 1) % TWO_TO_64;
      var nonce := MakeNonce(OppositeRole(role), w.seqNo);
      var aad := Uint64Bytes(w.seqNo);
      var pt := Open(rxKey, nonce, w.ciphertext, aad);
      r := if pt.Some? then Plain(pt.value) else Rejected(BadCiphertext);
    }
  }

  // ------------------------------------------------------------------ two endpoints

  /** The frames a session produces for these plaintexts. */
  function SentFrames(s: Session, plains: seq<Bytes>): seq<Wire>
    requires s.Valid()
    decreases |plains|
  {
    if |plains| == 0 then [] else
      [Encrypted(s, plains[0]).1] + SentFrames(Encrypted(s, plains[0]).0, plains[1..])
  }

  /** Both roles hold each other's keys. */
  lemma KeysAreSwapped(okm: Bytes)
    requires |okm| == 64
    ensures SessionKeys(Hub, okm).0 == SessionKeys(Agent, okm).1
    ensures SessionKeys(Hub, okm).1 == SessionKeys(Agent, okm).0
    ensures SessionKeys(Hub, okm).0 + SessionKeys(Agent, okm).0 == okm
  {
  }

  /** The k-th frame carries the k-th plaintext under the k-th sequence number, modulo 2^64. */
  lemma {:induction false} FrameAt(s: Session, plains: seq<Bytes>, k: nat)
    requires s.Valid() && k < |plains|
    ensures |SentFrames(s, plains)| == |plains|
    ensures SentFrames(s, plains)[k] == FrameFor(s.role, s.txKey, SeqAt(s.txSeq, k), plains[k])
    decreases |plains|
  {
    var s' := Encrypted(s, plains[0]).0;
    SentLength(s', plains[1..]);
    if k > 0 {
      FrameAt(s', plains[1..], k - 1);
    }
  }

  /** Over a whole session two frames share a nonce exactly when they are a multiple of
      2^64 apart: never while sequence numbers stay below 2^64. */
  lemma NoncesRepeatOnlyOnWrap(s: Session, plains: seq<Bytes>, i: nat, j: nat)
    requires s.Valid() && i < |plains| && j < |plains|
    ensures var sent := SentFrames(s, plains);
      && |sent| == |plains|
      && sent[i].Frame? && sent[i].ciphertext.Sealed? && sent[j].Frame? && sent[j].ciphertext.Sealed?
      && (sent[i].ciphertext.nonce == sent[j].ciphertext.nonce <==> (j - i) % TWO_TO_64 == 0)
  {
    FrameAt(s, plains, i);
    FrameAt(s, plains, j);
    var m, n := SeqAt(s.txSeq, i), SeqAt(s.txSeq, j);
    SeqsRepeatOnWrap(s.txSeq, i, j);
    if MakeNonce(s.role, m) == MakeNonce(s.role, n) {
      NonceInjective(s.role, m, s.role, n);
    }
  }

  predicate Carries(frames: seq<Wire>, i: int, c: Cipher) {
    0 <= i < |frames| && frames[i].Frame? && frames[i].ciphertext == c
  }

  /** The network may drop, repeat, reorder, relabel, reflect and invent frames, but it cannot
      seal under the sender's key: what is sealed so is a ciphertext of one of the two ends. */
  ghost predicate Unforged(w: Wire, key: Bytes, sent: seq<Wire>, own: seq<Wire>) {
    w.Frame? && w.ciphertext.Sealed? && w.ciphertext.key == key
    ==> exists i :: Carries(sent, i, w.ciphertext) || Carries(own, i, w.ciphertext)
  }

  /** Everything sealed among these frames has the nonce tag of this role. */
  predicate Tagged(frames: seq<Wire>, role: Role) {
    forall i :: 0 <= i < |frames| && frames[i].Frame? && frames[i].ciphertext.Sealed? ==>
      |frames[i].ciphertext.nonce| > 0 && frames[i].ciphertext.nonce[0] == Tag(role)
  }

  lemma SentIsTagged(s: Session, plains: seq<Bytes>)
    requires s.Valid()
    ensures Tagged(SentFrames(s, plains), s.role)
  {
    var frames := SentFrames(s, plains);
    SentLength(s, plains);
    forall i | 0 <= i < |frames| && frames[i].Frame? && frames[i].ciphertext.Sealed?
      ensures |frames[i].ciphertext.nonce| > 0 && frames[i].ciphertext.nonce[0] == Tag(s.role)
    {
      FrameAt(s, plains, i);
    }
  }

  /** Plaintexts delivered up to the first rejection. */
  function Delivered(r: Session, wires: seq<Wire>): seq<Bytes>
    requires r.Valid()
    decreases |wires|
  {
    if |wires| == 0 then [] else
      match Decrypted(r, wires[0])
      case (r', Plain(plain)) => [plain] + Delivered(r', wires[1..])
      case (_, Rejected(_)) => []
  }

  /** Sequence number and plaintext of everything delivered, going on after rejections. */
  function DeliveredAfterAll(r: Session, wires: seq<Wire>): seq<(int, Bytes)>
    requires r.Valid()
    decreases |wires|
  {
    if |wires| == 0 then [] else
      match Decrypted(r, wires[0])
      case (r', Plain(plain)) => [(r.rxSeq, plain)] + DeliveredAfterAll(r', wires[1..])
      case (r', Rejected(_)) => DeliveredAfterAll(r', wires[1..])
  }

  /** A frame that decrypts at sequence number n is the sender's n-th. */
  lemma OnlyTheNext(sender: Session, plains: seq<Bytes>, own: seq<Wire>, r: Session, w: Wire)
    requires sender.Valid() && r.Valid() && sender.txSeq == 0 && |plains| < TWO_TO_64
    requires r.rxKey == sender.txKey && r.role == OppositeRole(sender.role)
    requires Unforged(w, sender.txKey, SentFrames(sender, plains), own) && Tagged(own, r.role)
    requires Decrypted(r, w).1.Plain?
    ensures r.rxSeq < |plains| && Decrypted(r, w).1.plain == plains[r.rxSeq] && Decrypted(r, w).0.rxSeq == r.rxSeq + 1
  {
    var sent := SentFrames(sender, plains);
    OpensItsOwn(r, w);
    assert MakeNonce(sender.role, r.rxSeq)[0] == Tag(sender.role);
    var i :| Carries(sent, i, w.ciphertext) || Carries(own, i, w.ciphertext);
    SentLength(sender, plains);
    SentAt(sender, plains, i);
    NonceInjective(sender.role, i, sender.role, r.rxSeq);
  }

  /** What decrypts was sealed under this end's receiving key with the nonce it expects. */
  lemma OpensItsOwn(r: Session, w: Wire)
    requires r.Valid() && Decrypted(r, w).1.Plain?
    ensures w.Frame? && w.ciphertext.Sealed? && w.ciphertext.key == r.rxKey
    ensures w.ciphertext.nonce == MakeNonce(OppositeRole(r.role), r.rxSeq)
    ensures Decrypted(r, w).1.plain == w.ciphertext.plain && Decrypted(r, w).0.rxSeq == Next(r.rxSeq)
  {
  }

  lemma SentAt(sender: Session, plains: seq<Bytes>, i: nat)
    requires sender.Valid() && sender.txSeq == 0 && i < |plains| < TWO_TO_64
    ensures |SentFrames(sender, plains)| == |plains|
    ensures var w := SentFrames(sender, plains)[i];
      w.Frame? && w.ciphertext.Sealed? && w.ciphertext.nonce == MakeNonce(sender.role, i) && w.ciphertext.plain == plains[i]
  {
    FrameAt(sender, plains, i);
    SeqAtBelow(0, i);
  }

  lemma {:induction false} SentLength(s: Session, plains: seq<Bytes>)
    requires s.Valid()
    ensures |SentFrames(s, plains)| == |plains|
    decreases |plains|
  {
    if |plains| > 0 {
      SentLength(Encrypted(s, plains[0]).0, plains[1..]);
    }
  }

  lemma {:induction false} DeliveredFrom(sender: Session, plains: seq<Bytes>, own: seq<Wire>, r: Session, wires: seq<Wire>)
    requires sender.Valid() && r.Valid() && sender.txSeq == 0 && |plains| < TWO_TO_64 && r.rxSeq <= |plains|
    requires r.rxKey == sender.txKey && r.role == OppositeRole(sender.role)
    requires Tagged(own, r.role)
    requires forall k :: 0 <= k < |wires| ==> Unforged(wires[k], sender.txKey, SentFrames(sender, plains), own)
    ensures Delivered(r, wires) <= plains[r.rxSeq..]
    decreases |wires|
  {
    if |wires| > 0 {
      var (r', result) := Decrypted(r, wires[0]);
      if result.Plain? {
        OnlyTheNext(sender, plains, own, r, wires[0]);
        DeliveredFrom(sender, plains, own, r', wires[1..]);
        PrefixGrows(Delivered(r', wires[1..]), plains, r.rxSeq);
      }
    }
  }

  lemma PrefixGrows(tail: seq<Bytes>, plains: seq<Bytes>, n: nat)
    requires n < |plains| && tail <= plains[n + 1..]
    ensures [plains[n]] + tail <= plains[n..]
  {
    assert plains[n..] == [plains[n]] + plains[n + 1..];
  }

  /** Whatever the network does, and even if it turns an end's own frames back to it under keys
      that happen to coincide, what one end delivers up to its first error is a prefix of what
      the other end sent. */
  lemma DeliveredIsPrefix(okm: Bytes, role: Role, plains: seq<Bytes>, back: seq<Bytes>, wires: seq<Wire>)
    requires |okm| == 64 && |plains| < TWO_TO_64
    requires var sender, own := NewSession(role, okm), SentFrames(NewSession(OppositeRole(role), okm), back);
      forall k :: 0 <= k < |wires| ==> Unforged(wires[k], sender.txKey, SentFrames(sender, plains), own)
    ensures Delivered(NewSession(OppositeRole(role), okm), wires) <= plains
  {
    SentIsTagged(NewSession(OppositeRole(role), okm), back);
    DeliveredFrom(NewSession(role, okm), plains, SentFrames(NewSession(OppositeRole(role), okm), back), NewSession(OppositeRole(role), okm), wires);
    assert plains[0..] == plains;
  }

  /** Increasing numbers from `low` on, each with the plaintext of that number. */
  predicate Ordered(d: seq<(int, Bytes)>, plains: seq<Bytes>, low: int) {
    && (forall i :: 0 <= i < |d| ==> Sent(d[i], plains, low))
    && (forall i, j :: 0 <= i < j < |d| ==> d[i].0 < d[j].0)
  }

  predicate Sent(e: (int, Bytes), plains: seq<Bytes>, low: int) {
    low <= e.0 && 0 <= e.0 < |plains| && e.1 == plains[e.0]
  }

  lemma OrderedCons(n: int, rest: seq<(int, Bytes)>, plains: seq<Bytes>)
    requires 0 <= n < |plains| && Ordered(rest, plains, n + 1)
    ensures Ordered([(n, plains[n])] + rest, plains, n)
  {
    var d := [(n, plains[n])] + rest;
    forall i | 0 <= i < |d|
      ensures Sent(d[i], plains, n) && (0 < i ==> n < d[i].0)
    {
      if 0 < i {
        assert Sent(rest[i - 1], plains, n + 1);
      }
    }
    forall i, j | 0 <= i < j < |d|
      ensures d[i].0 < d[j].0
    {
      if 0 < i {
        assert rest[i - 1].0 < rest[j - 1].0;
      }
    }
  }

  lemma OrderedWeaker(d: seq<(int, Bytes)>, plains: seq<Bytes>, low: int, high: int)
    requires Ordered(d, plains, high) && low <= high
    ensures Ordered(d, plains, low)
  {
    forall i | 0 <= i < |d|
      ensures Sent(d[i], plains, low)
    {
      assert Sent(d[i], plains, high);
    }
  }

  lemma {:induction false} InOrderFrom(sender: Session, plains: seq<Bytes>, own: seq<Wire>, r: Session, wires: seq<Wire>)
    requires sender.Valid() && r.Valid() && sender.txSeq == 0 && |plains| < TWO_TO_64 && r.rxSeq + |wires| < TWO_TO_64
    requires r.rxKey == sender.txKey && r.role == OppositeRole(sender.role)
    requires Tagged(own, r.role)
    requires forall k :: 0 <= k < |wires| ==> Unforged(wires[k], sender.txKey, SentFrames(sender, plains), own)
    ensures Ordered(DeliveredAfterAll(r, wires), plains, r.rxSeq)
    decreases |wires|
  {
    if |wires| > 0 {
      var (r', result) := Decrypted(r, wires[0]);
      InOrderFrom(sender, plains, own, r', wires[1..]);
      var rest := DeliveredAfterAll(r', wires[1..]);
      if result.Plain? {
        OnlyTheNext(sender, plains, own, r, wires[0]);
        OrderedCons(r.rxSeq, rest, plains);
        assert DeliveredAfterAll(r, wires) == [(r.rxSeq, result.plain)] + rest;
      } else {
        assert DeliveredAfterAll(r, wires) == rest;
        OrderedWeaker(rest, plains, r.rxSeq, r'.rxSeq);
      }
    }
  }

  /** Even if the caller goes on after errors, what is delivered is an in-order subsequence
      of what was sent, each plaintext under its own number and none twice. */
  lemma DeliveredInOrder(okm: Bytes, role: Role, plains: seq<Bytes>, back: seq<Bytes>, wires: seq<Wire>)
    requires |okm| == 64 && |plains| < TWO_TO_64 && |wires| < TWO_TO_64
    requires var sender, own := NewSession(role, okm), SentFrames(NewSession(OppositeRole(role), okm), back);
      forall k :: 0 <= k < |wires| ==> Unforged(wires[k], sender.txKey, SentFrames(sender, plains), own)
    ensures Ordered(DeliveredAfterAll(NewSession(OppositeRole(role), okm), wires), plains, 0)
  {
    SentIsTagged(NewSession(OppositeRole(role), okm), back);
    InOrderFrom(NewSession(role, okm), plains, SentFrames(NewSession(OppositeRole(role), okm), back), NewSession(OppositeRole(role), okm), wires);
  }

  lemma {:induction false} LosslessFrom(sender: Session, r: Session, plains: seq<Bytes>)
    requires sender.Valid() && r.Valid() && sender.txSeq == r.rxSeq
    requires r.rxKey == sender.txKey && r.role == OppositeRole(sender.role)
    ensures Delivered(r, SentFrames(sender, plains)) == plains
    decreases |plains|
  {
    if |plains| > 0 {
      var (sender', w) := Encrypted(sender, plains[0]);
      var (r', result) := Decrypted(r, w);
      OneFrameLossless(sender, r, plains[0]);
      LosslessFrom(sender', r', plains[1..]);
      var rest := SentFrames(sender', plains[1..]);
      assert SentFrames(sender, plains) == [w] + rest && ([w] + rest)[1..] == rest;
      assert plains == [plains[0]] + plains[1..];
    }
  }

  lemma OneFrameLossless(sender: Session, r: Session, plain: Bytes)
    requires sender.Valid() && r.Valid() && sender.txSeq == r.rxSeq
    requires r.rxKey == sender.txKey && r.role == OppositeRole(sender.role)
    ensures var (sender', w) := Encrypted(sender, plain);
      var (r', result) := Decrypted(r, w);
      && result == Plain(plain)
      && sender'.txSeq == r'.rxSeq && r'.rxKey == sender'.txKey && r'.role == OppositeRole(sender'.role)
  {
  }

  /** Round trip: over an honest network everything sent is delivered, of any length. */
  lemma HonestNetworkDeliversAll(okm: Bytes, role: Role, plains: seq<Bytes>)
    requires |okm| == 64
    ensures Delivered(NewSession(OppositeRole(role), okm), SentFrames(NewSession(role, okm), plains)) == plains
  {
    LosslessFrom(NewSession(role, okm), NewSession(OppositeRole(role), okm), plains);
  }

  /** The two directions of a session never meet: a frame of one end is sealed under the key
      that the other end opens with, and no frame of the other end has its nonce. */
  lemma DirectionsApart(okm: Bytes, a: seq<Bytes>, b: seq<Bytes>, i: nat, j: nat)
    requires |okm| == 64 && i < |a| && j < |b|
    ensures var fromHub, fromAgent := SentFrames(NewSession(Hub, okm), a), SentFrames(NewSession(Agent, okm), b);
      && |fromHub| == |a| && fromHub[i].Frame? && fromHub[i].ciphertext.Sealed?
      && |fromAgent| == |b| && fromAgent[j].Frame? && fromAgent[j].ciphertext.Sealed?
      && fromHub[i].ciphertext.key == NewSession(Agent, okm).rxKey
      && fromAgent[j].ciphertext.key == NewSession(Hub, okm).rxKey
      && fromHub[i].ciphertext.nonce != fromAgent[j].ciphertext.nonce
  {
    FrameAt(NewSession(Hub, okm), a, i);
    FrameAt(NewSession(Agent, okm), b, j);
    KeysAreSwapped(okm);
    var m, n := SeqAt(0, i), SeqAt(0, j);
    if MakeNonce(Hub, m) == MakeNonce(Agent, n) {
      NonceInjective(Hub, m, Agent, n);
    }
  }

  /** What the k-th frame carries: its number, and the plaintext sealed under the sender's key
      with that number as nonce, behind the role's tag, and as associated data. */
  lemma FrameLayout(s: Session, plains: seq<Bytes>, k: nat)
    requires s.Valid() && k < |plains|
    ensures |SentFrames(s, plains)| == |plains|
    ensures var w, n := SentFrames(s, plains)[k], SeqAt(s.txSeq, k);
      w == Frame(n, Sealed(s.txKey, [if s.role == Hub then 0xA1 else 0xB2, 0, 0, 0] + BigEndian(n, 8), BigEndian(n, 8), plains[k]))
  {
    FrameAt(s, plains, k);
  }
}
