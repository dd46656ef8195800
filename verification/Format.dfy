/** The at-rest envelope format of crates/batter-at-rest/src/format.rs.

    `Encode*` are the canonical encodings. `*Verdict` say at fixed offsets what a
    byte string means, with the exact error; the cursor decoder in Decoder.dfy is
    proved to return them. The ciphertext fields are type parameters, so that the
    codec stores bytes where the cipher model stores symbolic ciphertexts. */
module Format {
  import opened Bytes

  const FORMAT_VERSION: byte := 1
  const NONCE_BYTES: nat := 12
  const SECRET_KEY_BYTES: nat := 32
  const TAG_BYTES: nat := 16
  const WRAPPED_DATA_KEY_BYTES: nat := 48
  const MAX_KEY_ID_BYTES: nat := 128
  const MAX_ENVELOPE_BYTES: nat := 256
  const MAX_PLAINTEXT_BYTES: nat := 64 * 1024 * 1024
  const MAX_BODY_BYTES: nat := MAX_PLAINTEXT_BYTES + TAG_BYTES

  const ENVELOPE_MAGIC: Bytes := [65, 84, 82, 69]
  const SEALED_MAGIC: Bytes := [65, 84, 82, 83]

  datatype Error =
    | InvalidKeyId | DuplicateKeyId | CurrentKeyUnavailable | KeyUnavailable | InvalidContext
    | PlaintextTooLarge | MalformedEncoding | UnsupportedVersion | TrailingData
    | AuthenticationFailed | RandomnessUnavailable

  datatype Result<+T> = Ok(value: T) | Err(error: Error) {
    predicate IsFailure() {
      Err?
    }

    function PropagateFailure<U>(): Result<U>
      requires Err?
    {
      Err(error)
    }

    function Extract(): T
      requires Ok?
    {
      value
    }
  }

  /** ASCII letters, digits and `._:-`. */
  predicate IsKeyIdByte(b: byte) {
    48 <= b <= 57 || 65 <= b <= 90 || 97 <= b <= 122 || b == 46 || b == 95 || b == 58 || b == 45
  }

  predicate IsKeyId(id: Bytes) {
    1 <= |id| <= MAX_KEY_ID_BYTES && forall k :: 0 <= k < |id| ==> IsKeyIdByte(id[k])
  }

  /** The characters of a key id, written out. */
  predicate IsKeyIdCharacter(c: char) {
    || c in "0123456789" || c in "ABCDEFGHIJKLMNOPQRSTUVWXYZ" || c in "abcdefghijklmnopqrstuvwxyz"
    || c == '.' || c == '_' || c == ':' || c == '-'
  }

  lemma KeyIdByteIs(b: byte)
    ensures IsKeyIdByte(b) <==> IsKeyIdCharacter(b as int as char)
  {
  }

  lemma KeyIdIs(id: Bytes)
    ensures IsKeyId(id) <==> 0 < |id| < 129 && forall k :: 0 <= k < |id| ==> IsKeyIdCharacter(id[k] as int as char)
  {
    forall k | 0 <= k < |id| ensures IsKeyIdByte(id[k]) <==> IsKeyIdCharacter(id[k] as int as char) {
      KeyIdByteIs(id[k]);
    }
  }

  type KeyId = id: Bytes | IsKeyId(id) witness [65]
  type Nonce = n: Bytes | |n| == NONCE_BYTES witness seq(12, _ => 0)
  type WrappedBytes = w: Bytes | |w| == WRAPPED_DATA_KEY_BYTES witness seq(48, _ => 0)
  type Body = b: Bytes | TAG_BYTES <= |b| <= MAX_BODY_BYTES witness seq(16, _ => 0)

  datatype Descriptor = Descriptor(formatVersion: byte, payloadNonce: Nonce)
  datatype WrappedKey<+C> = WrappedKey(keyId: KeyId, nonce: Nonce, encryptedDataKey: C)
  datatype Envelope<+C> = Envelope(descriptor: Descriptor, wrappedKey: WrappedKey<C>)
  datatype SealedPayload<+C, +B> = SealedPayload(envelope: Envelope<C>, ciphertext: B)

  /** A stored wrapper, header and payload: the cipher fields are bytes. */
  type StoredKey = WrappedKey<WrappedBytes>
  type StoredEnvelope = Envelope<WrappedBytes>
  type StoredPayload = SealedPayload<WrappedBytes, Body>

  /** `with_wrapped_key`: the same descriptor under another wrapper. */
  function WithWrappedKey<C>(e: Envelope<C>, w: WrappedKey<C>): Envelope<C> {
    e.(wrappedKey := w)
  }

  // ----- canonical encodings

  function U16(n: nat): (r: Bytes)
    requires n < 0x1_0000
    ensures |r| == 2 && r[0] as nat * 256 + r[1] as nat == n
  {
    [(n / 256) as byte, (n % 256) as byte]
  }

  function U32(n: nat): (r: Bytes)
    requires n < 0x1_0000_0000
    ensures |r| == 4
    ensures r[0] as nat * 0x100_0000 + r[1] as nat * 0x1_0000 + r[2] as nat * 0x100 + r[3] as nat == n
  {
    U16(n / 0x1_0000) + U16(n % 0x1_0000)
  }

  /** `push_u16_length` and `push_frame`. */
  function Framed(value: Bytes): (r: Bytes)
    requires |value| < 0x1_0000
    ensures |r| == 2 + |value|
  {
    U16(|value|) + value
  }

  function EncodeDescriptor(d: Descriptor): (r: Bytes)
    ensures |r| == 14
  {
    [d.formatVersion, 12] + d.payloadNonce
  }

  function EncodeWrapped(w: StoredKey): (r: Bytes)
    ensures |r| == 64 + |w.keyId| <= 192
  {
    [|w.keyId| as byte] + w.keyId + ([12] + w.nonce) + (U16(WRAPPED_DATA_KEY_BYTES) + w.encryptedDataKey)
  }

  function EncodeEnvelope(e: StoredEnvelope): (r: Bytes)
    ensures |r| <= MAX_ENVELOPE_BYTES
  {
    ENVELOPE_MAGIC + Framed(EncodeDescriptor(e.descriptor)) + Framed(EncodeWrapped(e.wrappedKey))
  }

  function EncodeSealed(s: StoredPayload): Bytes {
    SEALED_MAGIC + Framed(EncodeEnvelope(s.envelope)) + (U32(|s.ciphertext|) + s.ciphertext)
  }

  // ----- what a byte string means

  function ReadU16(b: Bytes, i: nat): (n: nat)
    requires i + 2 <= |b|
    ensures n < 0x1_0000
  {
    b[i] as nat * 256 + b[i + 1] as nat
  }

  function ReadU32(b: Bytes, i: nat): (n: nat)
    requires i + 4 <= |b|
    ensures n < 0x1_0000_0000
  {
    ReadU16(b, i) * 0x1_0000 + ReadU16(b, i + 2)
  }

  function DescriptorVerdict(b: Bytes): Result<Descriptor> {
    if |b| == 0 then Err(MalformedEncoding)
    else if b[0] != FORMAT_VERSION then Err(UnsupportedVersion)
    else if |b| < 14 || b[1] != 12 then Err(MalformedEncoding)
    else if |b| > 14 then Err(TrailingData)
    else Ok(Descriptor(b[0], b[2..14]))
  }

  function WrappedVerdict(version: byte, b: Bytes): Result<StoredKey> {
    if version != FORMAT_VERSION then Err(UnsupportedVersion)
    else if |b| == 0 || 1 + b[0] as nat > |b| then Err(MalformedEncoding)
    else
      var p := 1 + b[0] as nat;
      if !IsKeyId(b[1..p]) then Err(InvalidKeyId)
      else if |b| < p + 63 || b[p] != 12 || ReadU16(b, p + 13) != WRAPPED_DATA_KEY_BYTES then Err(MalformedEncoding)
      else if |b| > p + 63 then Err(TrailingData)
      else Ok(WrappedKey(b[1..p], b[p + 1..p + 13], b[p + 15..p + 63]))
  }

  /** A u16-framed field at `i`: where it ends, if it fits. */
  function FrameEnd(b: Bytes, i: nat): (r: Option<nat>)
    ensures r.Some? ==> i + 2 <= r.value <= |b|
  {
    if i + 2 <= |b| && i + 2 + ReadU16(b, i) <= |b| then Some(i + 2 + ReadU16(b, i)) else None
  }

  function EnvelopeVerdict(b: Bytes): Result<StoredEnvelope> {
    if |b| > MAX_ENVELOPE_BYTES || |b| < 4 || b[..4] != ENVELOPE_MAGIC then Err(MalformedEncoding)
    else match FrameEnd(b, 4)
      case None => Err(MalformedEncoding)
      case Some(p) =>
        var d :- DescriptorVerdict(b[6..p]);
        match FrameEnd(b, p)
        case None => Err(MalformedEncoding)
        case Some(q) =>
          var w :- WrappedVerdict(d.formatVersion, b[p + 2..q]);
          if q < |b| then Err(TrailingData) else Ok(Envelope(d, w))
  }

  /** A u32-counted body that ends the input. */
  function BodyVerdict(b: Bytes, p: nat): Result<Body>
    requires p <= |b|
  {
    if |b| < p + 4 then Err(MalformedEncoding)
    else
      var n := ReadU32(b, p);
      if !(TAG_BYTES <= n <= MAX_BODY_BYTES) || |b| < p + 4 + n then Err(MalformedEncoding)
      else if |b| > p + 4 + n then Err(TrailingData)
      else Ok(b[p + 4..])
  }

  function SealedVerdict(b: Bytes): Result<StoredPayload> {
    if |b| < 4 || b[..4] != SEALED_MAGIC then Err(MalformedEncoding)
    else match FrameEnd(b, 4)
      case None => Err(MalformedEncoding)
      case Some(p) =>
        var envelope :- EnvelopeVerdict(b[6..p]);
        var body :- BodyVerdict(b, p);
        Ok(SealedPayload(envelope, body))
  }
}

/** Encoding and decoding are mutual inverses, so every value has one encoding. */
module FormatProofs {
  import opened Bytes
  import opened Format

  lemma U16RoundTrip(n: nat, before: Bytes, after: Bytes)
    requires n < 0x1_0000
    ensures ReadU16(before + U16(n) + after, |before|) == n
  {
  }

  lemma U16Canonical(b: Bytes, i: nat)
    requires i + 2 <= |b|
    ensures U16(ReadU16(b, i)) == b[i..i + 2]
  {
    assert b[i..i + 2] == [b[i], b[i + 1]];
  }

  lemma U32RoundTrip(n: nat, before: Bytes, after: Bytes)
    requires n < 0x1_0000_0000
    ensures ReadU32(before + U32(n) + after, |before|) == n
  {
    var b, high, low := before + U32(n) + after, n / 0x1_0000, n % 0x1_0000;
    assert b == before + U16(high) + (U16(low) + after);
    U16RoundTrip(high, before, U16(low) + after);
    assert b == (before + U16(high)) + U16(low) + after;
    U16RoundTrip(low, before + U16(high), after);
  }

  lemma U32Canonical(b: Bytes, i: nat)
    requires i + 4 <= |b|
    ensures U32(ReadU32(b, i)) == b[i..i + 4]
  {
    U16Canonical(b, i);
    U16Canonical(b, i + 2);
    assert b[i..i + 4] == b[i..i + 2] + b[i + 2..i + 4];
  }

  // ----- descriptor

  lemma DescriptorRoundTrip(d: Descriptor)
    requires d.formatVersion == FORMAT_VERSION
    ensures DescriptorVerdict(EncodeDescriptor(d)) == Ok(d)
  {
    assert EncodeDescriptor(d)[2..14] == d.payloadNonce;
  }

  lemma DescriptorCanonical(b: Bytes)
    requires DescriptorVerdict(b).Ok?
    ensures EncodeDescriptor(DescriptorVerdict(b).value) == b
    ensures DescriptorVerdict(b).value.formatVersion == FORMAT_VERSION
  {
    assert b == [b[0], b[1]] + b[2..14];
  }

  // ----- wrapper

  lemma WrappedRoundTrip(w: StoredKey)
    ensures WrappedVerdict(FORMAT_VERSION, EncodeWrapped(w)) == Ok(w)
  {
    var b, p := EncodeWrapped(w), 1 + |w.keyId|;
    assert b[1..p] == w.keyId;
    assert b[p + 1..p + 13] == w.nonce;
    assert b[p + 13] == 0 && b[p + 14] == 48;
    assert b[p + 15..p + 63] == w.encryptedDataKey;
  }

  lemma WrappedCanonical(version: byte, b: Bytes)
    requires WrappedVerdict(version, b).Ok?
    ensures EncodeWrapped(WrappedVerdict(version, b).value) == b
  {
    var p := 1 + b[0] as nat;
    U16Canonical(b, p + 13);
    assert b == [b[0]] + b[1..p] + ([b[p]] + b[p + 1..p + 13]) + (b[p + 13..p + 15] + b[p + 15..p + 63]);
  }

  // ----- frames

  lemma FrameRoundTrip(before: Bytes, value: Bytes, after: Bytes)
    requires |value| < 0x1_0000
    ensures var b := before + Framed(value) + after;
            && FrameEnd(b, |before|) == Some(|before| + 2 + |value|)
            && b[|before| + 2..|before| + 2 + |value|] == value
  {
    var b := before + Framed(value) + after;
    assert b == before + U16(|value|) + (value + after);
    U16RoundTrip(|value|, before, value + after);
    assert b[|before| + 2..|before| + 2 + |value|] == value;
  }

  lemma FrameCanonical(b: Bytes, i: nat)
    requires FrameEnd(b, i).Some?
    ensures var p := FrameEnd(b, i).value;
            |b[i + 2..p]| < 0x1_0000 && Framed(b[i + 2..p]) == b[i..p]
  {
    U16Canonical(b, i);
  }

  // ----- envelope

  lemma EnvelopeRoundTrip(e: StoredEnvelope)
    requires e.descriptor.formatVersion == FORMAT_VERSION
    ensures EnvelopeVerdict(EncodeEnvelope(e)) == Ok(e)
  {
    var b, d, w := EncodeEnvelope(e), EncodeDescriptor(e.descriptor), EncodeWrapped(e.wrappedKey);
    assert b == ENVELOPE_MAGIC + Framed(d) + Framed(w);
    assert b[..4] == ENVELOPE_MAGIC;
    FrameRoundTrip(ENVELOPE_MAGIC, d, Framed(w));
    assert b == (ENVELOPE_MAGIC + Framed(d)) + Framed(w) + [];
    FrameRoundTrip(ENVELOPE_MAGIC + Framed(d), w, []);
    DescriptorRoundTrip(e.descriptor);
    WrappedRoundTrip(e.wrappedKey);
  }

  /** Two frames after a magic number are the whole input. */
  lemma TwoFrames(b: Bytes, p: nat)
    requires |b| >= 4 && FrameEnd(b, 4) == Some(p) && FrameEnd(b, p) == Some(|b|)
    ensures |b[6..p]| < 0x1_0000 && |b[p + 2..|b|]| < 0x1_0000
    ensures b[..4] + Framed(b[6..p]) + Framed(b[p + 2..|b|]) == b
  {
    FrameCanonical(b, 4);
    FrameCanonical(b, p);
    assert b == b[..4] + b[4..p] + b[p..|b|];
  }

  /** What an accepted envelope consists of. */
  lemma EnvelopeParts(b: Bytes) returns (p: nat)
    requires EnvelopeVerdict(b).Ok?
    ensures |b| >= 4 && b[..4] == ENVELOPE_MAGIC && FrameEnd(b, 4) == Some(p) && FrameEnd(b, p) == Some(|b|)
    ensures DescriptorVerdict(b[6..p]) == Ok(EnvelopeVerdict(b).value.descriptor)
    ensures WrappedVerdict(EnvelopeVerdict(b).value.descriptor.formatVersion, b[p + 2..|b|])
         == Ok(EnvelopeVerdict(b).value.wrappedKey)
  {
    p := FrameEnd(b, 4).value;
  }

  lemma EnvelopeCanonical(b: Bytes)
    requires EnvelopeVerdict(b).Ok?
    ensures EncodeEnvelope(EnvelopeVerdict(b).value) == b
    ensures EnvelopeVerdict(b).value.descriptor.formatVersion == FORMAT_VERSION
  {
    var p := EnvelopeParts(b);
    var e := EnvelopeVerdict(b).value;
    assert EncodeDescriptor(e.descriptor) == b[6..p] && e.descriptor.formatVersion == FORMAT_VERSION by {
      DescriptorCanonical(b[6..p]);
    }
    assert EncodeWrapped(e.wrappedKey) == b[p + 2..|b|] by {
      WrappedCanonical(e.descriptor.formatVersion, b[p + 2..|b|]);
    }
    TwoFrames(b, p);
  }

  // ----- composite payload

  lemma BodyRoundTrip(before: Bytes, body: Body)
    ensures BodyVerdict(before + (U32(|body|) + body), |before|) == Ok(body)
  {
    var b := before + (U32(|body|) + body);
    assert b == before + U32(|body|) + body;
    U32RoundTrip(|body|, before, body);
    assert b[|before| + 4..] == body;
  }

  lemma BodyCanonical(b: Bytes, p: nat)
    requires p <= |b| && BodyVerdict(b, p).Ok?
    ensures var body := BodyVerdict(b, p).value;
            b[p..] == U32(|body|) + body
  {
    U32Canonical(b, p);
  }

  lemma SealedRoundTrip(s: StoredPayload)
    requires s.envelope.descriptor.formatVersion == FORMAT_VERSION
    ensures SealedVerdict(EncodeSealed(s)) == Ok(s)
  {
    var b, e := EncodeSealed(s), EncodeEnvelope(s.envelope);
    var tail := U32(|s.ciphertext|) + s.ciphertext;
    assert b == SEALED_MAGIC + Framed(e) + tail;
    assert b[..4] == SEALED_MAGIC;
    FrameRoundTrip(SEALED_MAGIC, e, tail);
    EnvelopeRoundTrip(s.envelope);
    BodyRoundTrip(SEALED_MAGIC + Framed(e), s.ciphertext);
  }

  lemma SealedCanonical(b: Bytes)
    requires SealedVerdict(b).Ok?
    ensures EncodeSealed(SealedVerdict(b).value) == b
    ensures SealedVerdict(b).value.envelope.descriptor.formatVersion == FORMAT_VERSION
  {
    var p := FrameEnd(b, 4).value;
    var envelope, body := EnvelopeVerdict(b[6..p]).value, BodyVerdict(b, p).value;
    EnvelopeCanonical(b[6..p]);
    assert Framed(EncodeEnvelope(envelope)) == b[4..p] by {
      FrameCanonical(b, 4);
    }
    BodyCanonical(b, p);
    ThreeParts(b, 4, p);
  }

  lemma ThreeParts(b: Bytes, i: nat, j: nat)
    requires i <= j <= |b|
    ensures b == b[..i] + b[i..j] + b[j..]
  {
  }

  // ----- the encoding is self-delimiting

  lemma BodyExtension(before: Bytes, body: Body, more: Bytes)
    requires more != []
    ensures BodyVerdict(before + (U32(|body|) + body) + more, |before|) == Err(TrailingData)
  {
    var b := before + (U32(|body|) + body) + more;
    assert b == before + U32(|body|) + (body + more);
    U32RoundTrip(|body|, before, body + more);
  }

  /** Anything after a complete payload is trailing data. */
  lemma SealedExtension(s: StoredPayload, more: Bytes)
    requires s.envelope.descriptor.formatVersion == FORMAT_VERSION && more != []
    ensures SealedVerdict(EncodeSealed(s) + more) == Err(TrailingData)
  {
    var b, e := EncodeSealed(s) + more, EncodeEnvelope(s.envelope);
    var tail := U32(|s.ciphertext|) + s.ciphertext;
    assert b == SEALED_MAGIC + Framed(e) + (tail + more);
    assert b[..4] == SEALED_MAGIC;
    FrameRoundTrip(SEALED_MAGIC, e, tail + more);
    EnvelopeRoundTrip(s.envelope);
    BodyExtension(SEALED_MAGIC + Framed(e), s.ciphertext, more);
  }

  lemma EnvelopeExtension(e: StoredEnvelope, more: Bytes)
    requires e.descriptor.formatVersion == FORMAT_VERSION && more != []
    ensures EnvelopeVerdict(EncodeEnvelope(e) + more)
         == Err(if |EncodeEnvelope(e) + more| > MAX_ENVELOPE_BYTES then MalformedEncoding else TrailingData)
  {
    var b, d, w := EncodeEnvelope(e) + more, EncodeDescriptor(e.descriptor), EncodeWrapped(e.wrappedKey);
    assert b == ENVELOPE_MAGIC + Framed(d) + (Framed(w) + more);
    assert b[..4] == ENVELOPE_MAGIC;
    FrameRoundTrip(ENVELOPE_MAGIC, d, Framed(w) + more);
    assert b == (ENVELOPE_MAGIC + Framed(d)) + Framed(w) + more;
    FrameRoundTrip(ENVELOPE_MAGIC + Framed(d), w, more);
    DescriptorRoundTrip(e.descriptor);
    WrappedRoundTrip(e.wrappedKey);
  }

  /** No proper prefix of an encoding decodes: truncation is always detected. */
  lemma TruncationDetected(s: StoredPayload, k: nat)
    requires s.envelope.descriptor.formatVersion == FORMAT_VERSION && k < |EncodeSealed(s)|
    ensures SealedVerdict(EncodeSealed(s)[..k]) == Err(MalformedEncoding)
  {
    SealedRoundTrip(s);
    CutIsMalformed(EncodeSealed(s), k);
  }

  lemma CutFrame(b: Bytes, i: nat, k: nat)
    requires FrameEnd(b, i).Some? && k <= |b|
    ensures FrameEnd(b[..k], i) == if k < FrameEnd(b, i).value then None else FrameEnd(b, i)
  {
  }

  lemma CutBody(b: Bytes, p: nat, k: nat)
    requires p <= k < |b| && BodyVerdict(b, p).Ok?
    ensures BodyVerdict(b[..k], p) == Err(MalformedEncoding)
  {
  }

  /** Whatever decodes is malformed once anything is cut off its end. */
  lemma CutIsMalformed(b: Bytes, k: nat)
    requires SealedVerdict(b).Ok? && k < |b|
    ensures SealedVerdict(b[..k]) == Err(MalformedEncoding)
  {
    var p := FrameEnd(b, 4).value;
    CutFrame(b, 4, k);
    if k >= p {
      assert b[..k][6..p] == b[6..p];
      CutBody(b, p, k);
    }
  }
}
