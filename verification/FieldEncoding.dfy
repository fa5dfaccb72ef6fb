/** The byte encodings under the signatures and transcripts of pkg/securews/handshake.go:
    big-endian integers and length-prefixed fields. Hashes are taken of these pre-images. */
module FieldEncoding {
  import opened Prelude

  const TWO_TO_63 := 0x8000_0000_0000_0000

  // ------------------------------------------------------------------ binary.BigEndian

  function Pow256(width: nat): (p: int)
    ensures 0 < p
  {
    if width == 0 then 1 else 256 * Pow256(width - 1)
  }

  function BigEndian(n: int, width: nat): (b: Bytes)
    requires 0 <= n
    ensures |b| == width
  {
    if width == 0 then [] else BigEndian(n / 256, width - 1) + [n % 256]
  }

  function FromBigEndian(b: Bytes): (n: int)
    ensures 0 <= n
  {
    if b == [] then 0 else 256 * FromBigEndian(b[..|b| - 1]) + b[|b| - 1]
  }

  lemma {:induction false} BigEndianRoundTrip(n: int, width: nat)
    requires 0 <= n < Pow256(width)
    ensures FromBigEndian(BigEndian(n, width)) == n
  {
    if width > 0 {
      var b := BigEndian(n, width);
      BigEndianRoundTrip(n / 256, width - 1);
      assert b[..width - 1] == BigEndian(n / 256, width - 1);
    }
  }

  lemma EightBytes()
    ensures Pow256(8) == TWO_TO_64
  {
    assert Pow256(2) == 0x1_0000;
    assert Pow256(4) == 0x1_0000_0000;
    assert Pow256(6) == 0x1_0000_0000_0000;
  }

  /** PutUint64. */
  function Uint64Bytes(n: int): (b: Bytes)
    requires 0 <= n
    ensures |b| == 8
  {
    BigEndian(n, 8)
  }

  lemma Uint64RoundTrip(n: int)
    requires 0 <= n < TWO_TO_64
    ensures FromBigEndian(Uint64Bytes(n)) == n
  {
    EightBytes();
    BigEndianRoundTrip(n, 8);
  }

  /** int64Bytes: the two's complement of a signed value. */
  function Int64Bytes(n: int): (b: Bytes)
    ensures |b| == 8
  {
    Uint64Bytes(n % TWO_TO_64)
  }

  lemma Int64Injective(m: int, n: int)
    requires -TWO_TO_63 <= m < TWO_TO_63 && -TWO_TO_63 <= n < TWO_TO_63 && Int64Bytes(m) == Int64Bytes(n)
    ensures m == n
  {
    Uint64RoundTrip(m % TWO_TO_64);
    Uint64RoundTrip(n % TWO_TO_64);
    TwosComplementInjective(m, n);
  }

  lemma TwosComplementInjective(m: int, n: int)
    requires -TWO_TO_63 <= m < TWO_TO_63 && -TWO_TO_63 <= n < TWO_TO_63
    ensures m % TWO_TO_64 == n % TWO_TO_64 ==> m == n
  {
  }

  // ------------------------------------------------------------------ hashFields

  /** What hashFields feeds to the hash: each field behind its length. */
  function EncodeFields(fields: seq<Bytes>): Bytes {
    if fields == [] then [] else Uint64Bytes(|fields[0]|) + fields[0] + EncodeFields(fields[1..])
  }

  /** The fields can be read back off the encoding. */
  function DecodeFields(b: Bytes): Option<seq<Bytes>>
    decreases |b|
  {
    if b == [] then Some([])
    else if |b| < 8 then None
    else
      var n := FromBigEndian(b[..8]);
      if |b| < 8 + n then None
      else
        match DecodeFields(b[8 + n..])
        case None => None
        case Some(rest) => Some([b[8..8 + n]] + rest)
  }

  /** Lengths fit the eight bytes that carry them, as every Go slice length does. */
  predicate Sized(fields: seq<Bytes>) {
    forall i :: 0 <= i < |fields| ==> |fields[i]| < TWO_TO_64
  }

  lemma {:induction false} FieldsRoundTrip(fields: seq<Bytes>)
    requires Sized(fields)
    ensures DecodeFields(EncodeFields(fields)) == Some(fields)
    decreases |fields|
  {
    if fields != [] {
      var f, rest := fields[0], EncodeFields(fields[1..]);
      var b := Uint64Bytes(|f|) + f + rest;
      FieldsRoundTrip(fields[1..]);
      Uint64RoundTrip(|f|);
      assert b[..8] == Uint64Bytes(|f|);
      assert b[8..8 + |f|] == f;
      assert b[8 + |f|..] == rest;
      assert fields == [f] + fields[1..];
    }
  }

  /** The encoding is injective over lists of any number of fields of any length. */
  lemma EncodingInjective(a: seq<Bytes>, b: seq<Bytes>)
    requires Sized(a) && Sized(b) && EncodeFields(a) == EncodeFields(b)
    ensures a == b
  {
    FieldsRoundTrip(a);
    FieldsRoundTrip(b);
  }

  lemma {:induction false} EncodeAppend(fields: seq<Bytes>, f: Bytes)
    ensures EncodeFields(fields + [f]) == EncodeFields(fields) + Uint64Bytes(|f|) + f
    decreases |fields|
  {
    if fields == [] {
      assert fields + [f] == [f];
      assert EncodeFields([f][1..]) == [];
    } else {
      assert (fields + [f])[1..] == fields[1..] + [f];
      EncodeAppend(fields[1..], f);
    }
  }

  /** The loop of hashFields; `fed` is everything written to the hash state. */
  method HashFields(fields: seq<Bytes>) returns (fed: Bytes)
    ensures fed == EncodeFields(fields)
  {
    fed := [];
    for i := 0 to |fields|
      invariant fed == EncodeFields(fields[..i])
    {
      var length := Uint64Bytes(|fields[i]|);
      assert fields[..i + 1] == fields[..i] + [fields[i]];
      EncodeAppend(fields[..i], fields[i]);
      fed := fed + length;
      fed := fed + fields[i];
    }
    assert fields[..|fields|] == fields;
  }

  // ------------------------------------------------------------------ handshake messages

  const PROTOCOL_VERSION: byte := 2

  function Label(s: string): (b: Bytes)
    ensures |b| == |s|
  {
    seq(|s|, i requires 0 <= i < |s| => s[i] as int % 256)
  }

  datatype HandshakeContext = HandshakeContext(agentUID: Bytes, path: Bytes, httpNonce: Bytes, httpTimestamp: Bytes)

  datatype Transcript = Transcript(
    ctx: HandshakeContext, hubX25519Pub: Bytes, hubNonce: Bytes, hubTimestamp: int,
    agentEd25519Pub: Bytes, agentX25519Pub: Bytes, agentNonce: Bytes)
  {
    /** Slices and an int64, as the Go struct holds them. */
    predicate WellTyped() {
      && -TWO_TO_63 <= hubTimestamp < TWO_TO_63
      && Sized([ctx.agentUID, ctx.path, ctx.httpNonce, ctx.httpTimestamp])
      && Sized([hubX25519Pub, hubNonce, agentEd25519Pub, agentX25519Pub, agentNonce])
    }
  }

  function HubSignatureFields(t: Transcript): seq<Bytes> {
    [Label("mosona-secure-ws-v2 hub signature"), [PROTOCOL_VERSION], t.ctx.agentUID, t.ctx.path,
     t.ctx.httpNonce, t.ctx.httpTimestamp, t.hubX25519Pub, t.hubNonce, Int64Bytes(t.hubTimestamp)]
  }

  function TranscriptFields(t: Transcript): seq<Bytes> {
    [Label("mosona-secure-ws-v2 transcript"), [PROTOCOL_VERSION], t.ctx.agentUID, t.ctx.path,
     t.ctx.httpNonce, t.ctx.httpTimestamp, t.hubX25519Pub, t.hubNonce, Int64Bytes(t.hubTimestamp),
     t.agentEd25519Pub, t.agentX25519Pub, t.agentNonce]
  }

  function AgentSignatureFields(transcriptHash: Bytes): seq<Bytes> {
    [Label("mosona-secure-ws-v2 agent signature"), transcriptHash]
  }

  lemma FieldsSized(t: Transcript)
    requires t.WellTyped()
    ensures Sized(HubSignatureFields(t)) && Sized(TranscriptFields(t))
  {
    var c := [t.ctx.agentUID, t.ctx.path, t.ctx.httpNonce, t.ctx.httpTimestamp];
    var h := [t.hubX25519Pub, t.hubNonce, t.agentEd25519Pub, t.agentX25519Pub, t.agentNonce];
    assert |c[0]| < TWO_TO_64 && |c[1]| < TWO_TO_64 && |c[2]| < TWO_TO_64 && |c[3]| < TWO_TO_64;
    assert |h[0]| < TWO_TO_64 && |h[1]| < TWO_TO_64 && |h[2]| < TWO_TO_64 && |h[3]| < TWO_TO_64 && |h[4]| < TWO_TO_64;
  }

  /** The transcript pre-image determines every authenticated value. */
  lemma TranscriptInjective(a: Transcript, b: Transcript)
    requires a.WellTyped() && b.WellTyped()
    requires EncodeFields(TranscriptFields(a)) == EncodeFields(TranscriptFields(b))
    ensures a == b
  {
    FieldsSized(a);
    FieldsSized(b);
    var x, y := TranscriptFields(a), TranscriptFields(b);
    EncodingInjective(x, y);
    assert x[2] == y[2] && x[3] == y[3] && x[4] == y[4] && x[5] == y[5] && x[6] == y[6] && x[7] == y[7];
    assert x[8] == y[8] && x[9] == y[9] && x[10] == y[10] && x[11] == y[11];
    Int64Injective(a.hubTimestamp, b.hubTimestamp);
  }

  /** So does the Hub's, of the part the Hub signs. */
  lemma HubSignatureInjective(a: Transcript, b: Transcript)
    requires a.WellTyped() && b.WellTyped()
    requires EncodeFields(HubSignatureFields(a)) == EncodeFields(HubSignatureFields(b))
    ensures a.ctx == b.ctx && a.hubX25519Pub == b.hubX25519Pub && a.hubNonce == b.hubNonce && a.hubTimestamp == b.hubTimestamp
  {
    FieldsSized(a);
    FieldsSized(b);
    var x, y := HubSignatureFields(a), HubSignatureFields(b);
    EncodingInjective(x, y);
    assert x[2] == y[2] && x[3] == y[3] && x[4] == y[4] && x[5] == y[5] && x[6] == y[6] && x[7] == y[7] && x[8] == y[8];
    Int64Injective(a.hubTimestamp, b.hubTimestamp);
  }

  /** No message of one kind has the pre-image of a message of another kind. */
  lemma DomainsAreSeparate(a: Transcript, b: Transcript, hash: Bytes)
    requires a.WellTyped() && b.WellTyped() && |hash| < TWO_TO_64
    ensures EncodeFields(HubSignatureFields(a)) != EncodeFields(TranscriptFields(b))
    ensures EncodeFields(HubSignatureFields(a)) != EncodeFields(AgentSignatureFields(hash))
    ensures EncodeFields(TranscriptFields(b)) != EncodeFields(AgentSignatureFields(hash))
  {
    FieldsSized(a);
    FieldsSized(b);
    var x, y, z := HubSignatureFields(a), TranscriptFields(b), AgentSignatureFields(hash);
    assert |x| != |y| && |x| != |z| && |y| != |z|;
    FieldsRoundTrip(x);
    FieldsRoundTrip(y);
    FieldsRoundTrip(z);
  }

  // ------------------------------------------------------------------ what is where

  lemma {:induction false} BytesInOrder(n: nat, width: nat, i: nat)
    requires i < width
    ensures BigEndian(n, width)[i] == n / Pow256(width - 1 - i) % 256
  {
    if i < width - 1 {
      BytesInOrder(n / 256, width - 1, i);
      DivideTwice(n, Pow256(width - 2 - i));
    }
  }

  lemma DivideTwice(n: nat, p: int)
    requires 0 < p
    ensures n / 256 / p == n / (256 * p)
  {
    var q := n / (256 * p);
    var r := n % (256 * p);
    assert n == 256 * p * q + r == 256 * (p * q) + r;
    assert n / 256 == p * q + r / 256;
    assert 0 <= r / 256 < p;
    Quotient(p, q, r / 256);
  }

  lemma Quotient(p: int, q: int, r: int)
    requires 0 <= r < p
    ensures (p * q + r) / p == q
  {
    var d := (p * q + r) / p - q;
    assert p * d == r - (p * q + r) % p;
    assert d >= 1 ==> p * d >= p;
    assert d <= -1 ==> p * d <= -p;
  }

  /** Read back, each pre-image holds exactly these fields in this order. */
  lemma FieldsInOrder(t: Transcript, hash: Bytes)
    requires t.WellTyped() && |hash| < TWO_TO_64
    ensures DecodeFields(EncodeFields(HubSignatureFields(t))) == Some([
      Label("mosona-secure-ws-v2 hub signature"), [2], t.ctx.agentUID, t.ctx.path, t.ctx.httpNonce, t.ctx.httpTimestamp,
      t.hubX25519Pub, t.hubNonce, Int64Bytes(t.hubTimestamp)])
    ensures DecodeFields(EncodeFields(TranscriptFields(t))) == Some([
      Label("mosona-secure-ws-v2 transcript"), [2], t.ctx.agentUID, t.ctx.path, t.ctx.httpNonce, t.ctx.httpTimestamp,
      t.hubX25519Pub, t.hubNonce, Int64Bytes(t.hubTimestamp), t.agentEd25519Pub, t.agentX25519Pub, t.agentNonce])
    ensures DecodeFields(EncodeFields(AgentSignatureFields(hash))) == Some([Label("mosona-secure-ws-v2 agent signature"), hash])
  {
    FieldsSized(t);
    FieldsRoundTrip(HubSignatureFields(t));
    FieldsRoundTrip(TranscriptFields(t));
    FieldsRoundTrip(AgentSignatureFields(hash));
  }

  /** One field is its length in eight bytes, most significant first, and then itself. */
  lemma FramedField(f: Bytes)
    ensures EncodeFields([f]) == BigEndian(|f|, 8) + f
  {
    assert [f][1..] == [];
  }
}
