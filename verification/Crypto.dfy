/** Framed associated data of crates/batter-at-rest/src/crypto.rs: what each byte
    string binds, and that no two roles can produce the same one. */
module AssociatedData {
  import opened Bytes
  import opened Format
  import opened Contexts

  function EncodedContext(ctx: ValidBinding): Part {
    BindingFits(ctx);
    EncodeBinding(ctx)
  }

  /** Four magic bytes, two role and version bytes, then frames. */
  function Headed(magic: Bytes, x: byte, y: byte, parts: seq<Part>): Bytes {
    magic + [x, y] + Frames(parts)
  }

  function PayloadAad(ctx: ValidBinding, d: Descriptor): Bytes {
    Headed(AAD_MAGIC, PAYLOAD_ROLE, d.formatVersion, [EncodedContext(ctx)])
  }

  function WrappingAad(ctx: ValidBinding, d: Descriptor, id: KeyId): Bytes {
    Headed(AAD_MAGIC, WRAPPING_ROLE, d.formatVersion, [id, d.payloadNonce, EncodedContext(ctx)])
  }

  function HkdfInfo(ctx: ValidBinding): Bytes {
    Headed(HKDF_MAGIC, FORMAT_VERSION, HKDF_WRAPPING_ROLE, [ctx.namespace, ctx.purpose])
  }

  // ----- the bytes, written out

  lemma PayloadAadLayout(ctx: ValidBinding, d: Descriptor)
    ensures var c := EncodeBinding(ctx);
            PayloadAad(ctx, d) == [65, 84, 82, 65, 1, d.formatVersion] + (U16(|EncodedContext(ctx)|) + c)
  {
    FramesOf([EncodedContext(ctx)]);
  }

  lemma WrappingAadLayout(ctx: ValidBinding, d: Descriptor, id: KeyId)
    ensures WrappingAad(ctx, d, id) ==
            [65, 84, 82, 65, 2, d.formatVersion]
            + (Framed(id) + (Framed(d.payloadNonce) + Framed(EncodedContext(ctx))))
  {
    FramesOf([id, d.payloadNonce, EncodedContext(ctx)]);
  }

  lemma HkdfInfoLayout(ctx: ValidBinding)
    ensures HkdfInfo(ctx) == [65, 84, 82, 75, FORMAT_VERSION, 3] + (Framed(ctx.namespace) + Framed(ctx.purpose))
  {
    FramesOf([ctx.namespace, ctx.purpose]);
  }

  lemma HeadedInjective(m: Bytes, x: byte, y: byte, p: seq<Part>, m': Bytes, x': byte, y': byte, p': seq<Part>)
    requires |m| == |m'| == 4 && Headed(m, x, y, p) == Headed(m', x', y', p')
    ensures m == m' && x == x' && y == y' && p == p'
  {
    var a, b := Headed(m, x, y, p), Headed(m', x', y', p');
    assert a[..4] == m && b[..4] == m' && a[4] == x && b[4] == x' && a[5] == y && b[5] == y';
    assert a[6..] == Frames(p) && b[6..] == Frames(p');
    FramesInjective(p, p');
  }

  lemma PayloadAadInjective(ctx: ValidBinding, d: Descriptor, ctx': ValidBinding, d': Descriptor)
    requires PayloadAad(ctx, d) == PayloadAad(ctx', d')
    ensures ctx == ctx' && d.formatVersion == d'.formatVersion
  {
    var p, p': seq<Part> := [EncodedContext(ctx)], [EncodedContext(ctx')];
    HeadedInjective(AAD_MAGIC, PAYLOAD_ROLE, d.formatVersion, p, AAD_MAGIC, PAYLOAD_ROLE, d'.formatVersion, p');
    assert p[0] == p'[0];
    BindingInjective(ctx, ctx');
  }

  lemma WrappingAadInjective(ctx: ValidBinding, d: Descriptor, id: KeyId, ctx': ValidBinding, d': Descriptor, id': KeyId)
    requires WrappingAad(ctx, d, id) == WrappingAad(ctx', d', id')
    ensures ctx == ctx' && d == d' && id == id'
  {
    var p: seq<Part> := [id, d.payloadNonce, EncodedContext(ctx)];
    var p': seq<Part> := [id', d'.payloadNonce, EncodedContext(ctx')];
    HeadedInjective(AAD_MAGIC, WRAPPING_ROLE, d.formatVersion, p, AAD_MAGIC, WRAPPING_ROLE, d'.formatVersion, p');
    assert p[0] == p'[0] && p[1] == p'[1] && p[2] == p'[2];
    BindingInjective(ctx, ctx');
  }

  lemma HkdfInfoInjective(ctx: ValidBinding, ctx': ValidBinding)
    requires HkdfInfo(ctx) == HkdfInfo(ctx')
    ensures ctx.namespace == ctx'.namespace && ctx.purpose == ctx'.purpose
  {
    var p, p': seq<Part> := [ctx.namespace, ctx.purpose], [ctx'.namespace, ctx'.purpose];
    HeadedInjective(HKDF_MAGIC, FORMAT_VERSION, HKDF_WRAPPING_ROLE, p, HKDF_MAGIC, FORMAT_VERSION, HKDF_WRAPPING_ROLE, p');
    assert p[0] == p'[0] && p[1] == p'[1];
  }

  /** Payload, wrapping and key-derivation strings never coincide. */
  lemma RolesDisjoint(a: ValidBinding, d: Descriptor, b: ValidBinding, d': Descriptor, id: KeyId, c: ValidBinding)
    ensures PayloadAad(a, d) != WrappingAad(b, d', id)
    ensures PayloadAad(a, d) != HkdfInfo(c) && WrappingAad(b, d', id) != HkdfInfo(c)
  {
    assert PayloadAad(a, d)[4] == PAYLOAD_ROLE && WrappingAad(b, d', id)[4] == WRAPPING_ROLE;
    assert PayloadAad(a, d)[3] == 65 && WrappingAad(b, d', id)[3] == 65 && HkdfInfo(c)[3] == 75;
  }
}

/** Key rings of crates/batter-at-rest/src/key.rs. */
module Keyrings {
  import opened Bytes
  import opened Format

  type Secret = k: Bytes | |k| == SECRET_KEY_BYTES witness seq(32, _ => 0)

  datatype Keyring = Keyring(currentId: KeyId, keys: map<KeyId, Secret>)

  function Key(ring: Keyring, id: KeyId): Result<Secret> {
    if id in ring.keys then Ok(ring.keys[id]) else Err(KeyUnavailable)
  }

  ghost predicate DistinctIds(entries: seq<(KeyId, Secret)>) {
    forall i, j :: 0 <= i < j < |entries| ==> entries[i].0 != entries[j].0
  }

  /** `Keyring::new`: duplicates are reported before a missing current key, and an
      accepted ring maps exactly the given ids to their keys. */
  method NewKeyring(currentId: KeyId, entries: seq<(KeyId, Secret)>) returns (r: Result<Keyring>)
    ensures r == Err(DuplicateKeyId) <==> !DistinctIds(entries)
    ensures r == Err(CurrentKeyUnavailable) <==>
            DistinctIds(entries) && forall i :: 0 <= i < |entries| ==> entries[i].0 != currentId
    ensures r.Ok? ==> r.value.currentId == currentId && currentId in r.value.keys
    ensures r.Ok? ==> forall id: KeyId, key: Secret ::
                        (id in r.value.keys && r.value.keys[id] == key) <==> (id, key) in entries
    ensures r.Err? ==> r.error == DuplicateKeyId || r.error == CurrentKeyUnavailable
  {
    var keys: map<KeyId, Secret> := map[];
    for n := 0 to |entries|
      invariant forall i, j :: 0 <= i < j < n ==> entries[i].0 != entries[j].0
      invariant forall i :: 0 <= i < n ==> entries[i].0 in keys && keys[entries[i].0] == entries[i].1
      invariant forall id :: id in keys ==> (id, keys[id]) in entries[..n]
    {
      var (id, key) := entries[n];
      if id in keys {
        assert (id, keys[id]) in entries[..n];
        return Err(DuplicateKeyId);
      }
      keys := keys[id := key];
    }
    if currentId !in keys {
      return Err(CurrentKeyUnavailable);
    }
    r := Ok(Keyring(currentId, keys));
  }
}
