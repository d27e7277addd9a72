/**
 Signing a transaction envelope on its raw bytes: the transaction body is never parsed, only sliced out,
 hashed together with the network id and the envelope type, and followed by a new decorated signature.

 The layout is XDR: a big-endian word for the type, the body, and a variable-length array of signatures
 (section 4.13 of RFC 4506), each a four-byte hint and a variable-length opaque (section 4.10).
 */
module Envelope {
  import opened Wrappers

  newtype byte = x: int | 0 <= x < 256

  type Bytes = seq<byte>

  type Hint = b: Bytes | |b| == 4 witness [0, 0, 0, 0]

  type Signature = b: Bytes | |b| == SIGNATURE_LENGTH witness seq(SIGNATURE_LENGTH, i => 0)

  const SIGNATURE_LENGTH: nat := 64
  const WORD_LIMIT: nat := 0x1_0000_0000

  // ---- words --------------------------------------------------------------------------------------

  function Word(v: nat): (b: Bytes)
    requires v < WORD_LIMIT
    ensures |b| == 4
  {
    [(v / 256 / 256 / 256) as byte, (v / 256 / 256 % 256) as byte, (v / 256 % 256) as byte, (v % 256) as byte]
  }

  function ReadWord(b: Bytes, offset: nat): (v: nat)
    requires offset + 4 <= |b|
    ensures v < WORD_LIMIT
  {
    ((b[offset] as int * 256 + b[offset + 1] as int) * 256 + b[offset + 2] as int) * 256 + b[offset + 3] as int
  }

  lemma WordRoundTrip(b: Bytes, offset: nat, v: nat)
    requires offset + 4 <= |b| && v < WORD_LIMIT
    ensures b[offset..offset + 4] == Word(v) <==> ReadWord(b, offset) == v
  {
    var w := b[offset..offset + 4];
    assert w[0] == b[offset] && w[1] == b[offset + 1] && w[2] == b[offset + 2] && w[3] == b[offset + 3];
    Digits256(v, w[0] as int, w[1] as int, w[2] as int, w[3] as int);
  }

  lemma LastDigit256(v: nat, q: nat, r: nat)
    requires r < 256
    ensures v == q * 256 + r <==> q == v / 256 && r == v % 256
  {
  }

  lemma Digits256(v: nat, a: nat, b: nat, c: nat, d: nat)
    requires v < WORD_LIMIT && a < 256 && b < 256 && c < 256 && d < 256
    ensures v == ((a * 256 + b) * 256 + c) * 256 + d
       <==> a == v / 256 / 256 / 256 && b == v / 256 / 256 % 256 && c == v / 256 % 256 && d == v % 256
  {
    LastDigit256(v, (a * 256 + b) * 256 + c, d);
    LastDigit256(v / 256, a * 256 + b, c);
    LastDigit256(v / 256 / 256, a, b);
  }

  /** Where a slice bound falls: negative bounds count from the end, and both are clamped. */
  function SliceBound(i: int, n: nat): (k: nat)
    ensures k <= n
  {
    if i >= 0 then (if i < n then i else n) else (if n + i > 0 then n + i else 0)
  }

  function Subarray(b: Bytes, start: int, end: int): Bytes {
    var lo, hi := SliceBound(start, |b|), SliceBound(end, |b|);
    if lo <= hi then b[lo..hi] else []
  }

  // ---- envelopes -------------------------------------------------------------------------------------

  datatype Decorated = Decorated(hint: Hint, signature: Signature)

  datatype Envelope = Envelope(kind: nat, body: Bytes, signatures: seq<Decorated>)

  function EncodeDecorated(d: Decorated): (b: Bytes)
    ensures |b| == 72
  {
    d.hint + Word(SIGNATURE_LENGTH) + d.signature
  }

  function EncodeAll(ds: seq<Decorated>): (b: Bytes)
    ensures |b| == 72 * |ds|
  {
    if ds == [] then [] else EncodeDecorated(ds[0]) + EncodeAll(ds[1..])
  }

  predicate Encodable(e: Envelope) {
    e.kind < WORD_LIMIT && |e.signatures| < WORD_LIMIT
  }

  function Encode(e: Envelope): (b: Bytes)
    requires Encodable(e)
    ensures |b| == 8 + |e.body| + 72 * |e.signatures|
  {
    Word(e.kind) + e.body + Word(|e.signatures|) + EncodeAll(e.signatures)
  }

  datatype Error = OutOfRange | Malformed

  function DecodeAll(b: Bytes, count: nat): Result<seq<Decorated>, Error>
    decreases count
  {
    if count == 0 then (if b == [] then Ok([]) else Err(Malformed))
    else if |b| < 72 || ReadWord(b, 4) != SIGNATURE_LENGTH then Err(Malformed)
    else
      var rest := DecodeAll(b[72..], count - 1);
      if rest.Err? then rest else Ok([Decorated(b[..4], b[8..72])] + rest.value)
  }

  /** Reading an envelope whose body, known from its type, has the given length. */
  function Decode(b: Bytes, bodyLength: nat): Result<Envelope, Error> {
    if |b| < 8 + bodyLength then Err(Malformed)
    else
      var sigs := DecodeAll(b[8 + bodyLength..], ReadWord(b, 4 + bodyLength));
      if sigs.Err? then Err(Malformed)
      else Ok(Envelope(ReadWord(b, 0), b[4..4 + bodyLength], sigs.value))
  }

  lemma {:induction false} DecodeAllEncoded(ds: seq<Decorated>)
    ensures DecodeAll(EncodeAll(ds), |ds|) == Ok(ds)
  {
    if ds != [] {
      var b := EncodeAll(ds);
      var head := EncodeDecorated(ds[0]);
      DecodeAllEncoded(ds[1..]);
      assert b[72..] == EncodeAll(ds[1..]);
      assert b[..4] == ds[0].hint && b[8..72] == ds[0].signature;
      assert b[4..8] == Word(SIGNATURE_LENGTH);
      WordRoundTrip(b, 4, SIGNATURE_LENGTH);
      assert [ds[0]] + ds[1..] == ds;
    }
  }

  lemma RoundTrip(e: Envelope)
    requires Encodable(e)
    ensures Decode(Encode(e), |e.body|) == Ok(e)
  {
    hide Word, ReadWord;
    var b, n := Encode(e), |e.body|;
    assert b[0..4] == Word(e.kind);
    assert b[4 + n..8 + n] == Word(|e.signatures|);
    assert b[8 + n..] == EncodeAll(e.signatures);
    assert b[4..4 + n] == e.body;
    WordRoundTrip(b, 0, e.kind);
    WordRoundTrip(b, 4 + n, |e.signatures|);
    DecodeAllEncoded(e.signatures);
  }

  // ---- signing -------------------------------------------------------------------------------------------

  /** The signing key and the hash, both uninterpreted. */
  datatype Signer = Signer(hash: Bytes -> Bytes, sign: Bytes -> Signature, hint: Hint)

  /** What is hashed for the signature. */
  function Preimage(raw: Bytes, networkId: Bytes): Bytes
    requires |raw| >= 4
  {
    networkId + Word(ReadWord(raw, 0)) + Subarray(raw, 4, |raw| - 4)
  }

  function Decoration(raw: Bytes, networkId: Bytes, key: Signer): Decorated
    requires |raw| >= 4
  {
    Decorated(key.hint, key.sign(key.hash(Preimage(raw, networkId))))
  }

  /** The signed bytes; a short input or a full count is a range error of the buffer operations. */
  function SignedBytes(raw: Bytes, passphrase: Bytes, key: Signer): Result<Bytes, Error> {
    if |raw| < 4 then Err(OutOfRange)
    else
      var count := ReadWord(raw, |raw| - 4);
      var d := Decoration(raw, key.hash(passphrase), key);
      if count + 1 >= WORD_LIMIT then Err(OutOfRange)
      else if count > 0 then
        var tail := |raw| - 4 - count * 72;
        Ok(Subarray(raw, 0, 4) + Subarray(raw, 4, tail) + Word(count + 1) + Subarray(raw, tail, |raw| - 4)
           + EncodeDecorated(d))
      else Ok(Subarray(raw, 0, 4) + Subarray(raw, 4, |raw| - 4) + Word(1) + EncodeDecorated(d))
  }

  method WriteUInt32BE(buffer: array<byte>, v: nat, offset: nat)
    requires v < WORD_LIMIT && offset + 4 <= buffer.Length
    modifies buffer
    ensures buffer[..] == old(buffer[..offset]) + Word(v) + old(buffer[offset + 4..])
  {
    buffer[offset] := (v / 256 / 256 / 256) as byte;
    buffer[offset + 1] := (v / 256 / 256 % 256) as byte;
    buffer[offset + 2] := (v / 256 % 256) as byte;
    buffer[offset + 3] := (v % 256) as byte;
  }

  method CopyInto(source: Bytes, buffer: array<byte>, offset: nat)
    requires offset + |source| <= buffer.Length
    modifies buffer
    ensures buffer[..] == old(buffer[..offset]) + source + old(buffer[offset + |source|..])
  {
    for i := 0 to |source|
      invariant buffer[..] == old(buffer[..offset]) + source[..i] + old(buffer[offset + i..])
    {
      buffer[offset + i] := source[i];
    }
  }

  method DecorateInPlace(hint: Hint, signature: Signature) returns (decorated: array<byte>)
    ensures fresh(decorated) && decorated[..] == EncodeDecorated(Decorated(hint, signature))
  {
    decorated := new byte[4 + 4 + 64];
    CopyInto(hint, decorated, 0);
    assert decorated[..4] == hint;
    WriteUInt32BE(decorated, 64, 4);
    assert decorated[..8] == hint + Word(64);
    CopyInto(signature, decorated, 8);
  }

  method SignAndEncode(raw: Bytes, passphrase: Bytes, key: Signer) returns (signed: Result<Bytes, Error>)
    ensures signed == SignedBytes(raw, passphrase, key)
  {
    hide Word, ReadWord;
    if |raw| < 4 { return Err(OutOfRange); }
    var kind := ReadWord(raw, 0);
    var sigCount := ReadWord(raw, |raw| - 4);
    var txBody := Subarray(raw, 4, |raw| - 4);

    var networkId := key.hash(passphrase);
    var typeTag := new byte[4];
    WriteUInt32BE(typeTag, kind, 0);
    assert typeTag[..] == Word(kind);
    var preimage := networkId + typeTag[..] + txBody;
    var signature := key.sign(key.hash(preimage));

    var decorated := DecorateInPlace(key.hint, signature);
    if sigCount + 1 >= WORD_LIMIT { return Err(OutOfRange); }
    var newSigCount := new byte[4];
    WriteUInt32BE(newSigCount, sigCount + 1, 0);
    assert newSigCount[..] == Word(sigCount + 1);

    if sigCount > 0 {
      var existing := sigCount * 72;
      var existingSigs := Subarray(raw, |raw| - 4 - existing, |raw| - 4);
      var txEnd := |raw| - 4 - existing;
      signed := Ok(Subarray(raw, 0, 4) + Subarray(raw, 4, txEnd) + newSigCount[..] + existingSigs + decorated[..]);
    } else {
      signed := Ok(Subarray(raw, 0, 4) + txBody + newSigCount[..] + decorated[..]);
    }
  }

  // ---- what signing means -----------------------------------------------------------------------------------

  /**
   Signing an unsigned envelope gives the encoding of the same type and body with exactly one signature,
   72 bytes longer, which decodes again; what was hashed is the network id, the type and the body.
   */
  lemma SignsUnsigned(e: Envelope, passphrase: Bytes, key: Signer)
    requires Encodable(e) && e.signatures == []
    ensures var raw, networkId := Encode(e), key.hash(passphrase);
      var d := Decorated(key.hint, key.sign(key.hash(networkId + Word(e.kind) + e.body)));
      var r := SignedBytes(raw, passphrase, key);
      && r == Ok(Encode(e.(signatures := [d])))
      && |r.value| == |raw| + 72
      && Decode(r.value, |e.body|) == Ok(e.(signatures := [d]))
  {
    hide Word, ReadWord;
    var raw, n := Encode(e), |e.body|;
    assert raw[0..4] == Word(e.kind) && raw[4..4 + n] == e.body && raw[4 + n..8 + n] == Word(0);
    WordRoundTrip(raw, 0, e.kind);
    WordRoundTrip(raw, 4 + n, 0);
    var d := Decorated(key.hint, key.sign(key.hash(key.hash(passphrase) + Word(e.kind) + e.body)));
    assert EncodeAll([d]) == EncodeDecorated(d) by { assert [d][1..] == []; }
    RoundTrip(e.(signatures := [d]));
  }

  /**
   The signature is made over the right bytes exactly for envelopes without signatures: with some already
   there, their count and all but the last word of them are hashed as if they were body.
   */
  lemma PreimageExact(e: Envelope, networkId: Bytes)
    requires Encodable(e)
    ensures Preimage(Encode(e), networkId) == networkId + Word(e.kind) + e.body <==> e.signatures == []
  {
    hide Word, ReadWord;
    var raw, n := Encode(e), |e.body|;
    assert raw[0..4] == Word(e.kind) && raw[4..4 + n] == e.body;
    WordRoundTrip(raw, 0, e.kind);
    assert |Preimage(raw, networkId)| == |networkId| + 4 + n + 72 * |e.signatures|;
  }

  // ---- the bytes themselves ---------------------------------------------------------------------------------

  /** The most significant byte stands first. */
  lemma WordIsBigEndian(v: nat)
    requires v < WORD_LIMIT
    ensures var b := Word(v);
      b[0] as int * 0x100_0000 + b[1] as int * 0x1_0000 + b[2] as int * 0x100 + b[3] as int == v
  {
    hide Word;
    assert Word(v)[0..4] == Word(v);
    WordRoundTrip(Word(v), 0, v);
  }

  /** A decorated signature: the hint, the length 64 as a word, the signature. */
  lemma DecoratedLayout(d: Decorated)
    ensures var b := EncodeDecorated(d);
      b[..4] == d.hint && b[4..8] == [0, 0, 0, 64] && b[8..] == d.signature
  {
    var b := EncodeDecorated(d);
    assert b[..4] == d.hint && b[4..8] == Word(64) && b[8..] == d.signature;
  }

  /** An envelope: its type, its body, the number of its signatures, and they in their order. */
  lemma EnvelopeLayout(e: Envelope, i: nat)
    requires Encodable(e)
    ensures var (b, n) := (Encode(e), |e.body|);
      && b[..4] == Word(e.kind) && b[4..4 + n] == e.body && b[4 + n..8 + n] == Word(|e.signatures|)
      && (i < |e.signatures| ==> b[8 + n + 72 * i..80 + n + 72 * i] == EncodeDecorated(e.signatures[i]))
  {
    hide Word, EncodeDecorated;
    var b, n := Encode(e), |e.body|;
    assert b[8 + n..] == EncodeAll(e.signatures);
    if i < |e.signatures| {
      SignatureAt(e.signatures, i);
      assert b[8 + n + 72 * i..80 + n + 72 * i] == EncodeAll(e.signatures)[72 * i..72 * i + 72];
    }
  }

  lemma {:induction false} SignatureAt(ds: seq<Decorated>, i: nat)
    requires i < |ds|
    ensures EncodeAll(ds)[72 * i..72 * i + 72] == EncodeDecorated(ds[i])
  {
    hide EncodeDecorated;
    if i > 0 {
      SignatureAt(ds[1..], i - 1);
      assert EncodeAll(ds)[72 * i..72 * i + 72] == EncodeAll(ds[1..])[72 * (i - 1)..72 * (i - 1) + 72];
    }
  }

  /** Bounds beyond the ends are the ends, and a negative bound counts from the end. */
  lemma SubarrayBounds(b: Bytes, i: int, j: int)
    ensures 0 <= i <= j <= |b| ==> Subarray(b, i, j) == b[i..j]
    ensures 0 <= j < i ==> Subarray(b, i, j) == []
    ensures -|b| <= i < 0 ==> Subarray(b, i, j) == Subarray(b, |b| + i, j)
    ensures -|b| <= j < 0 ==> Subarray(b, i, j) == Subarray(b, i, |b| + j)
    ensures i < -|b| ==> Subarray(b, i, j) == Subarray(b, 0, j)
    ensures j < -|b| ==> Subarray(b, i, j) == []
    ensures j > |b| ==> Subarray(b, i, j) == Subarray(b, i, |b|)
    ensures i > |b| ==> Subarray(b, i, j) == []
  {
  }

  /** Signing is refused exactly for inputs too short to hold a word and for a count that is already full. */
  lemma SigningRefused(raw: Bytes, passphrase: Bytes, key: Signer)
    ensures SignedBytes(raw, passphrase, key).Err? <==> |raw| < 4 || raw[|raw| - 4..] == [255, 255, 255, 255]
    ensures SignedBytes(raw, passphrase, key).Err? ==> SignedBytes(raw, passphrase, key).error == OutOfRange
  {
    hide Decoration, EncodeDecorated, Subarray;
    if |raw| >= 4 {
      assert raw[|raw| - 4..|raw| - 4 + 4] == raw[|raw| - 4..];
      WordRoundTrip(raw, |raw| - 4, 0xFFFF_FFFF);
      assert Word(0xFFFF_FFFF) == [255, 255, 255, 255];
    }
  }

  /**
   Bytes with n signatures in front of their count keep type, body and signatures, get the count raised by one
   before the signatures and ours after them; all but the count is hashed.
   */
  lemma AppendsToTrailing(head: Bytes, body: Bytes, sigs: Bytes, n: nat, passphrase: Bytes, key: Signer)
    requires |head| == 4 && |sigs| == 72 * n && 0 < n < WORD_LIMIT - 1
    ensures var d := Decorated(key.hint, key.sign(key.hash(key.hash(passphrase) + head + (body + sigs))));
      SignedBytes(head + body + sigs + Word(n), passphrase, key) == Ok(head + body + Word(n + 1) + sigs + EncodeDecorated(d))
  {
    hide Word, ReadWord, EncodeDecorated;
    var raw := head + body + sigs + Word(n);
    var k := |raw| - 4;
    assert raw[k..k + 4] == Word(n);
    WordRoundTrip(raw, k, n);
    assert raw[0..4] == head;
    WordRoundTrip(raw, 0, ReadWord(raw, 0));
    assert Subarray(raw, 0, 4) == head;
    assert Subarray(raw, 4, k) == body + sigs;
    assert Subarray(raw, 4, k - n * 72) == body;
    assert Subarray(raw, k - n * 72, k) == sigs;
  }
}
