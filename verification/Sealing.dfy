/** Sealing, opening and key rotation of crates/batter-at-rest/src/crypto.rs.

    Encryption is symbolic: a ciphertext remembers the key, nonce, associated data
    and plaintext it was made from, and opens only under the same three. Anything
    else a caller might present is `Forged` and never opens. A context is the
    binding it encodes. */
module Sealing {
  import opened Bytes
  import opened Format
  import opened Contexts
  import opened AssociatedData
  import opened Keyrings

  /** A random data key, or the wrapping key HKDF expands from a master key. */
  datatype CipherKey = DataKey(secret: Secret) | WrappingKey(master: Secret, info: Bytes)

  datatype Cipher =
    | Encrypted(key: CipherKey, nonce: Nonce, aad: Bytes, plain: Bytes)
    | Forged(bytes: Bytes)

  /** The 48 bytes of a wrapped data key hold 32 key bytes and a tag. */
  type KeyCipher = c: Cipher | c.Encrypted? ==> |c.plain| == SECRET_KEY_BYTES witness Forged([])

  type Header = Envelope<KeyCipher>
  type Wrapper = WrappedKey<KeyCipher>

  function Decrypt(key: CipherKey, nonce: Nonce, aad: Bytes, c: Cipher): Result<Bytes> {
    if c.Encrypted? && c.key == key && c.nonce == nonce && c.aad == aad then Ok(c.plain) else Err(AuthenticationFailed)
  }

  function CipherLength(c: Cipher): nat {
    if c.Encrypted? then |c.plain| + TAG_BYTES else |c.bytes|
  }

  function Wrap(ctx: ValidBinding, d: Descriptor, id: KeyId, master: Secret, nonce: Nonce, dataKey: Secret): Wrapper {
    WrappedKey(id, nonce, Encrypted(WrappingKey(master, HkdfInfo(ctx)), nonce, WrappingAad(ctx, d, id), dataKey))
  }

  function Unwrap(ring: Keyring, ctx: ValidBinding, e: Header): Result<Secret> {
    var w := e.wrappedKey;
    var master :- Key(ring, w.keyId);
    Decrypt(WrappingKey(master, HkdfInfo(ctx)), w.nonce, WrappingAad(ctx, e.descriptor, w.keyId), w.encryptedDataKey)
  }

  function Encipher(ctx: ValidBinding, d: Descriptor, dataKey: Secret, plaintext: Bytes): Cipher {
    Encrypted(DataKey(dataKey), d.payloadNonce, PayloadAad(ctx, d), plaintext)
  }

  function Open(ring: Keyring, ctx: ValidBinding, e: Header, body: Cipher): Result<Bytes> {
    var dataKey :- Unwrap(ring, ctx, e);
    Decrypt(DataKey(dataKey), e.descriptor.payloadNonce, PayloadAad(ctx, e.descriptor), body)
  }

  type Payload = SealedPayload<KeyCipher, Cipher>
  type Drawn = Result<Bytes>

  /** The outcome of sealing, given what the three random draws return. */
  function SealOutcome(ring: Keyring, ctx: ValidBinding, plaintext: Bytes, draws: seq<Drawn>): Result<Payload>
    requires |draws| == 3
    requires forall k :: 0 <= k < 3 && draws[k].Ok? ==> |draws[k].value| == [SECRET_KEY_BYTES, NONCE_BYTES, NONCE_BYTES][k]
  {
    if |plaintext| > MAX_PLAINTEXT_BYTES then Err(PlaintextTooLarge)
    else
      var dataKey :- draws[0];
      var payloadNonce :- draws[1];
      var wrappingNonce :- draws[2];
      var master :- Key(ring, ring.currentId);
      var d := Descriptor(FORMAT_VERSION, payloadNonce);
      Ok(SealedPayload(Envelope(d, Wrap(ctx, d, ring.currentId, master, wrappingNonce, dataKey)),
                       Encipher(ctx, d, dataKey, plaintext)))
  }

  /** The outcome of rewrapping, given what a random draw would return. */
  function RewrapOutcome(ring: Keyring, ctx: ValidBinding, e: Header, draw: Drawn): Result<Wrapper>
    requires draw.Ok? ==> |draw.value| == NONCE_BYTES
  {
    var dataKey :- Unwrap(ring, ctx, e);
    if e.wrappedKey.keyId == ring.currentId then Ok(e.wrappedKey)
    else
      var nonce :- draw;
      var master :- Key(ring, ring.currentId);
      Ok(Wrap(ctx, e.descriptor, ring.currentId, master, nonce, dataKey))
  }

  // ----- what the outcomes mean

  /** The wrapper was made for this descriptor and context, under this master key. */
  ghost predicate MadeFor(w: Wrapper, ctx: ValidBinding, d: Descriptor, master: Secret, dataKey: Secret) {
    w.encryptedDataKey ==
    Encrypted(WrappingKey(master, HkdfInfo(ctx)), w.nonce, WrappingAad(ctx, d, w.keyId), dataKey)
  }

  /** The wrapper was made for this header and context under a key the ring holds. */
  ghost predicate Genuine(ring: Keyring, ctx: ValidBinding, e: Header) {
    && e.wrappedKey.keyId in ring.keys
    && exists dataKey: Secret :: MadeFor(e.wrappedKey, ctx, e.descriptor, ring.keys[e.wrappedKey.keyId], dataKey)
  }

  /** A payload of these three draws: the data key enciphers the plaintext under the payload
      nonce and is itself wrapped under the current key and the wrapping nonce. */
  ghost predicate Sealed(p: Payload, ring: Keyring, ctx: ValidBinding, plaintext: Bytes,
                         dataKey: Secret, payloadNonce: Nonce, wrappingNonce: Nonce) {
    var e := p.envelope;
    && e.descriptor == Descriptor(FORMAT_VERSION, payloadNonce)
    && e.wrappedKey.keyId == ring.currentId && ring.currentId in ring.keys && e.wrappedKey.nonce == wrappingNonce
    && MadeFor(e.wrappedKey, ctx, e.descriptor, ring.keys[ring.currentId], dataKey)
    && p.ciphertext == Encrypted(DataKey(dataKey), payloadNonce, PayloadAad(ctx, e.descriptor), plaintext)
  }

  lemma UnwrapMeans(ring: Keyring, ctx: ValidBinding, e: Header)
    ensures Unwrap(ring, ctx, e).Ok? <==> Genuine(ring, ctx, e)
    ensures Unwrap(ring, ctx, e).Ok? ==>
              && e.wrappedKey.keyId in ring.keys
              && forall dataKey: Secret ::
                   MadeFor(e.wrappedKey, ctx, e.descriptor, ring.keys[e.wrappedKey.keyId], dataKey) <==>
                   dataKey == Unwrap(ring, ctx, e).value
    ensures Unwrap(ring, ctx, e).Err? ==>
              Unwrap(ring, ctx, e).error ==
              if e.wrappedKey.keyId in ring.keys then AuthenticationFailed else KeyUnavailable
  {
    if Unwrap(ring, ctx, e).Ok? {
      var dataKey := Unwrap(ring, ctx, e).value;
      assert MadeFor(e.wrappedKey, ctx, e.descriptor, ring.keys[e.wrappedKey.keyId], dataKey);
    }
  }

  /** Rewrapping authenticates first: it succeeds exactly on a genuine wrapper that is current
      or for which a nonce was drawn and the current key is there. */
  lemma RewrapMeans(ring: Keyring, ctx: ValidBinding, e: Header, draw: Drawn)
    requires draw.Ok? ==> |draw.value| == NONCE_BYTES
    ensures var w, r := e.wrappedKey, RewrapOutcome(ring, ctx, e, draw);
            && (r.Ok? <==>
                  && Genuine(ring, ctx, e)
                  && (w.keyId == ring.currentId || (draw.Ok? && ring.currentId in ring.keys)))
            && (r.Ok? ==>
                  && r.value.keyId == ring.currentId && ring.currentId in ring.keys
                  && (w.keyId == ring.currentId ==> r.value == w)
                  && (w.keyId != ring.currentId ==> r.value.nonce == draw.value)
                  && forall dataKey: Secret ::
                       MadeFor(w, ctx, e.descriptor, ring.keys[w.keyId], dataKey) ==>
                         MadeFor(r.value, ctx, e.descriptor, ring.keys[ring.currentId], dataKey))
            && (w.keyId !in ring.keys ==> r == Err(KeyUnavailable))
            && (w.keyId in ring.keys && !Genuine(ring, ctx, e) ==> r == Err(AuthenticationFailed))
  {
    UnwrapMeans(ring, ctx, e);
  }

  // ----- the operations, with their random source

  class RandomSource {
    const tape: (nat, nat) -> Drawn
    var drawn: nat

    ghost predicate Valid() {
      forall k: nat, n: nat :: tape(k, n).Ok? ==> |tape(k, n).value| == n
    }

    constructor (tape: (nat, nat) -> Drawn)
      ensures this.tape == tape && drawn == 0
    {
      this.tape, drawn := tape, 0;
    }

    method Fill(n: nat) returns (r: Drawn)
      modifies this
      ensures drawn == old(drawn) + 1 && r == tape(old(drawn), n)
    {
      r := tape(drawn, n);
      drawn := drawn + 1;
    }
  }

  /** `seal_with_random` draws a data key and two nonces in that order, and nothing
      for a plaintext it rejects. */
  method SealWithRandom(ring: Keyring, ctx: ValidBinding, plaintext: Bytes, random: RandomSource)
    returns (r: Result<Payload>)
    requires random.Valid()
    modifies random
    ensures var at := old(random.drawn);
            && r == SealOutcome(ring, ctx, plaintext,
                                [random.tape(at, SECRET_KEY_BYTES), random.tape(at + 1, NONCE_BYTES), random.tape(at + 2, NONCE_BYTES)])
            && random.drawn == at + (if |plaintext| > MAX_PLAINTEXT_BYTES then 0
                                     else if random.tape(at, SECRET_KEY_BYTES).Err? then 1
                                     else if random.tape(at + 1, NONCE_BYTES).Err? then 2 else 3)
    ensures var at := old(random.drawn);
            && (r.Ok? <==>
                  && |plaintext| <= MAX_PLAINTEXT_BYTES && ring.currentId in ring.keys
                  && random.tape(at, SECRET_KEY_BYTES).Ok? && random.tape(at + 1, NONCE_BYTES).Ok?
                  && random.tape(at + 2, NONCE_BYTES).Ok?)
            && (r.Ok? ==>
                  Sealed(r.value, ring, ctx, plaintext, random.tape(at, SECRET_KEY_BYTES).value,
                         random.tape(at + 1, NONCE_BYTES).value, random.tape(at + 2, NONCE_BYTES).value))
    ensures |plaintext| > MAX_PLAINTEXT_BYTES ==> r == Err(PlaintextTooLarge)
  {
    if |plaintext| > MAX_PLAINTEXT_BYTES {
      return Err(PlaintextTooLarge);
    }
    var dataKey :- random.Fill(SECRET_KEY_BYTES);
    var payloadNonce :- random.Fill(NONCE_BYTES);
    var wrappingNonce :- random.Fill(NONCE_BYTES);
    var d := Descriptor(FORMAT_VERSION, payloadNonce);
    var body := Encipher(ctx, d, dataKey, plaintext);
    var master :- Key(ring, ring.currentId);
    var wrapper := Wrap(ctx, d, ring.currentId, master, wrappingNonce, dataKey);
    if !(TAG_BYTES <= CipherLength(body) <= MAX_BODY_BYTES) {
      return Err(MalformedEncoding);
    }
    r := Ok(SealedPayload(Envelope(d, wrapper), body));
  }

  /** `rewrap_envelope_with_random` authenticates first; a wrapper already under the
      current key comes back unchanged without a draw. */
  method RewrapWithRandom(ring: Keyring, ctx: ValidBinding, e: Header, random: RandomSource) returns (r: Result<Header>)
    requires random.Valid()
    modifies random
    ensures var at := old(random.drawn);
            var outcome := RewrapOutcome(ring, ctx, e, random.tape(at, NONCE_BYTES));
            && r == (match outcome case Ok(w) => Ok(WithWrappedKey(e, w)) case Err(error) => Err(error))
            && random.drawn == at + (if Unwrap(ring, ctx, e).Ok? && e.wrappedKey.keyId != ring.currentId then 1 else 0)
    ensures r.Ok? && e.wrappedKey.keyId == ring.currentId ==> r.value == e
    ensures var w, draw := e.wrappedKey, random.tape(old(random.drawn), NONCE_BYTES);
            && (r.Ok? <==>
                  && Genuine(ring, ctx, e)
                  && (w.keyId == ring.currentId || (draw.Ok? && ring.currentId in ring.keys)))
            && (r.Ok? ==>
                  && r.value.descriptor == e.descriptor && r.value.wrappedKey.keyId == ring.currentId
                  && (w.keyId != ring.currentId ==> r.value.wrappedKey.nonce == draw.value)
                  && forall dataKey: Secret ::
                       MadeFor(w, ctx, e.descriptor, ring.keys[w.keyId], dataKey) ==>
                         MadeFor(r.value.wrappedKey, ctx, e.descriptor, ring.keys[ring.currentId], dataKey))
    ensures e.wrappedKey.keyId !in ring.keys ==> r == Err(KeyUnavailable)
    ensures e.wrappedKey.keyId in ring.keys && !Genuine(ring, ctx, e) ==> r == Err(AuthenticationFailed)
  {
    RewrapMeans(ring, ctx, e, random.tape(random.drawn, NONCE_BYTES));
    var dataKey :- Unwrap(ring, ctx, e);
    if e.wrappedKey.keyId == ring.currentId {
      return Ok(WithWrappedKey(e, e.wrappedKey));
    }
    var nonce :- random.Fill(NONCE_BYTES);
    var master :- Key(ring, ring.currentId);
    r := Ok(WithWrappedKey(e, Wrap(ctx, e.descriptor, ring.currentId, master, nonce, dataKey)));
  }

  // ----- what opening proves

  /** Opening succeeds exactly on a wrapper and a body made together for the supplied
      context and the header's own descriptor. */
  lemma OpenIff(ring: Keyring, ctx: ValidBinding, e: Header, body: Cipher, plaintext: Bytes)
    ensures Open(ring, ctx, e, body) == Ok(plaintext) <==>
            && e.wrappedKey.keyId in ring.keys
            && exists dataKey: Secret ::
                 && MadeFor(e.wrappedKey, ctx, e.descriptor, ring.keys[e.wrappedKey.keyId], dataKey)
                 && body == Encipher(ctx, e.descriptor, dataKey, plaintext)
  {
    if Open(ring, ctx, e, body) == Ok(plaintext) {
      var dataKey := Unwrap(ring, ctx, e).value;
      assert MadeFor(e.wrappedKey, ctx, e.descriptor, ring.keys[e.wrappedKey.keyId], dataKey);
    }
  }

  /** Recombining parts of different records fails: an opened header carries the
      descriptor, context and key its wrapper was made for, and its body was
      enciphered under that data key, nonce and context. */
  lemma OpenBinds(ring: Keyring, ctx: ValidBinding, d: Descriptor, ctx': ValidBinding, d': Descriptor, id: KeyId,
                  master: Secret, nonce: Nonce, dataKey: Secret,
                  ctx'': ValidBinding, d'': Descriptor, dataKey'': Secret, plaintext: Bytes)
    requires Open(ring, ctx, Envelope(d, Wrap(ctx', d', id, master, nonce, dataKey)),
                  Encipher(ctx'', d'', dataKey'', plaintext)).Ok?
    ensures ctx == ctx' == ctx'' && d == d' && d'' == d && dataKey'' == dataKey
    ensures id in ring.keys && ring.keys[id] == master
  {
    WrappingAadInjective(ctx, d, id, ctx', d', id);
    PayloadAadInjective(ctx, d, ctx'', d'');
  }

  // ----- rotation

  /** Rewrapping changes neither the descriptor nor what any body opens to. */
  lemma RewrapPreservesOpen(earlier: Keyring, ring: Keyring, ctx: ValidBinding, e: Header, draw: Drawn, body: Cipher)
    requires draw.Ok? ==> |draw.value| == NONCE_BYTES
    requires RewrapOutcome(ring, ctx, e, draw).Ok?
    requires e.wrappedKey.keyId in earlier.keys && earlier.keys[e.wrappedKey.keyId] == ring.keys[e.wrappedKey.keyId]
    ensures var e' := WithWrappedKey(e, RewrapOutcome(ring, ctx, e, draw).value);
            && e'.descriptor == e.descriptor
            && e'.wrappedKey.keyId == ring.currentId
            && Open(ring, ctx, e', body) == Open(earlier, ctx, e, body)
  {
  }

  /** One rotation: a key ring and the nonce it draws if it needs one. */
  datatype Rotation = Rotation(ring: Keyring, nonce: Nonce)

  function Rotate(ctx: ValidBinding, e: Header, r: Rotation): Header {
    match RewrapOutcome(r.ring, ctx, e, Ok(r.nonce))
    case Ok(w) => WithWrappedKey(e, w)
    case Err(_) => e
  }

  function RotateAll(ctx: ValidBinding, e: Header, rs: seq<Rotation>): Header
    decreases |rs|
  {
    if rs == [] then e else RotateAll(ctx, Rotate(ctx, e, rs[0]), rs[1..])
  }

  /** The master key a rotation leaves the wrapper under. */
  function MasterAfter(e: Header, master: Secret, r: Rotation): Secret
    requires r.ring.currentId in r.ring.keys
  {
    if e.wrappedKey.keyId == r.ring.currentId then master else r.ring.keys[r.ring.currentId]
  }

  /** Each ring has a current key and still holds the key the wrapper arrives under. */
  ghost predicate Chained(ctx: ValidBinding, e: Header, master: Secret, rs: seq<Rotation>)
    decreases |rs|
  {
    rs != [] ==>
      && rs[0].ring.currentId in rs[0].ring.keys
      && e.wrappedKey.keyId in rs[0].ring.keys && rs[0].ring.keys[e.wrappedKey.keyId] == master
      && Chained(ctx, Rotate(ctx, e, rs[0]), MasterAfter(e, master, rs[0]), rs[1..])
  }

  function LastMaster(ctx: ValidBinding, e: Header, master: Secret, rs: seq<Rotation>): Secret
    requires Chained(ctx, e, master, rs)
    decreases |rs|
  {
    if rs == [] then master
    else LastMaster(ctx, Rotate(ctx, e, rs[0]), MasterAfter(e, master, rs[0]), rs[1..])
  }

  /** Every rewrap of the chain goes through. */
  ghost predicate AllRewrap(ctx: ValidBinding, e: Header, rs: seq<Rotation>)
    decreases |rs|
  {
    rs != [] ==>
      && RewrapOutcome(rs[0].ring, ctx, e, Ok(rs[0].nonce)).Ok?
      && AllRewrap(ctx, Rotate(ctx, e, rs[0]), rs[1..])
  }

  /** In any chain of rotations every rewrap succeeds, the descriptor and the wrapped data key
      stay, and the wrapper ends under the last ring's current key. */
  lemma {:induction false} RotationsKeepKey(ctx: ValidBinding, e: Header, master: Secret, dataKey: Secret, rs: seq<Rotation>)
    requires MadeFor(e.wrappedKey, ctx, e.descriptor, master, dataKey)
    requires Chained(ctx, e, master, rs)
    ensures var last := RotateAll(ctx, e, rs);
            && AllRewrap(ctx, e, rs)
            && last.descriptor == e.descriptor
            && MadeFor(last.wrappedKey, ctx, e.descriptor, LastMaster(ctx, e, master, rs), dataKey)
            && (rs != [] ==>
                  && var ring := rs[|rs| - 1].ring;
                  && last.wrappedKey.keyId == ring.currentId && ring.currentId in ring.keys
                  && LastMaster(ctx, e, master, rs) == ring.keys[ring.currentId])
    decreases |rs|
  {
    if rs != [] {
      RotationsKeepKey(ctx, Rotate(ctx, e, rs[0]), MasterAfter(e, master, rs[0]), dataKey, rs[1..]);
      assert |rs| > 1 ==> rs[1..][|rs| - 2] == rs[|rs| - 1];
    }
  }

  /** Sealing and then rotating any number of times leaves the original body readable:
      every ring holding the last wrapper's key opens it to the original plaintext. */
  lemma SealRotateOpen(ring: Keyring, ctx: ValidBinding, plaintext: Bytes, draws: seq<Drawn>, rs: seq<Rotation>, reader: Keyring)
    requires |draws| == 3
    requires forall k :: 0 <= k < 3 && draws[k].Ok? ==> |draws[k].value| == [SECRET_KEY_BYTES, NONCE_BYTES, NONCE_BYTES][k]
    requires SealOutcome(ring, ctx, plaintext, draws).Ok?
    requires var sealed := SealOutcome(ring, ctx, plaintext, draws).value;
             && Chained(ctx, sealed.envelope, ring.keys[ring.currentId], rs)
             && var last := RotateAll(ctx, sealed.envelope, rs);
                && last.wrappedKey.keyId in reader.keys
                && reader.keys[last.wrappedKey.keyId]
                   == LastMaster(ctx, sealed.envelope, ring.keys[ring.currentId], rs)
    ensures var sealed := SealOutcome(ring, ctx, plaintext, draws).value;
            var last := RotateAll(ctx, sealed.envelope, rs);
            && AllRewrap(ctx, sealed.envelope, rs)
            && last.descriptor == sealed.envelope.descriptor
            && Open(reader, ctx, last, sealed.ciphertext) == Ok(plaintext)
  {
    var sealed := SealOutcome(ring, ctx, plaintext, draws).value;
    var dataKey: Secret := draws[0].value;
    RotationsKeepKey(ctx, sealed.envelope, ring.keys[ring.currentId], dataKey, rs);
    OpenIff(reader, ctx, RotateAll(ctx, sealed.envelope, rs), sealed.ciphertext, plaintext);
  }
}
