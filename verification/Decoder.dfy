/** The cursor decoder of crates/batter-at-rest/src/format.rs. */
module Decoding {
  import opened Bytes
  import opened Format

  /** Advances `remaining` over an input it never revisits. */
  class Decoder {
    var remaining: Bytes
    ghost const input: Bytes
    ghost var pos: nat

    ghost predicate Valid()
      reads this
    {
      pos + |remaining| == |input| && forall k :: 0 <= k < |remaining| ==> remaining[k] == input[pos + k]
    }

    constructor (bytes: Bytes)
      ensures Valid() && input == bytes && pos == 0
    {
      remaining, input, pos := bytes, bytes, 0;
    }

    method Take(length: nat) returns (r: Result<Bytes>)
      requires Valid()
      modifies this
      ensures Valid()
      ensures r.Ok? <==> old(pos) + length <= |input|
      ensures r.Ok? ==> pos == old(pos) + length && r.value == input[old(pos)..pos]
      ensures r.Err? ==> r.error == MalformedEncoding && pos == old(pos)
    {
      if length > |remaining| {
        return Err(MalformedEncoding);
      }
      var value := remaining[..length];
      remaining := remaining[length..];
      pos := pos + length;
      r := Ok(value);
    }

    method Byte() returns (r: Result<byte>)
      requires Valid()
      modifies this
      ensures Valid()
      ensures r.Ok? <==> old(pos) + 1 <= |input|
      ensures r.Ok? ==> pos == old(pos) + 1 && r.value == input[old(pos)]
      ensures r.Err? ==> r.error == MalformedEncoding
    {
      var value :- Take(1);
      r := Ok(value[0]);
    }

    method TakeU16() returns (r: Result<nat>)
      requires Valid()
      modifies this
      ensures Valid()
      ensures r.Ok? <==> old(pos) + 2 <= |input|
      ensures r.Ok? ==> pos == old(pos) + 2 && r.value == ReadU16(input, old(pos))
      ensures r.Err? ==> r.error == MalformedEncoding
    {
      var value :- Take(2);
      r := Ok(value[0] as nat * 256 + value[1] as nat);
    }

    method TakeU32() returns (r: Result<nat>)
      requires Valid()
      modifies this
      ensures Valid()
      ensures r.Ok? <==> old(pos) + 4 <= |input|
      ensures r.Ok? ==> pos == old(pos) + 4 && r.value == ReadU32(input, old(pos))
      ensures r.Err? ==> r.error == MalformedEncoding
    {
      var value :- Take(4);
      r := Ok((value[0] as nat * 256 + value[1] as nat) * 0x1_0000 + (value[2] as nat * 256 + value[3] as nat));
    }

    method Magic(expected: Bytes) returns (r: Result<()>)
      requires Valid()
      modifies this
      ensures Valid()
      ensures r.Ok? <==> old(pos) + |expected| <= |input| && input[old(pos)..old(pos) + |expected|] == expected
      ensures r.Ok? ==> pos == old(pos) + |expected|
      ensures r.Err? ==> r.error == MalformedEncoding
    {
      var value :- Take(|expected|);
      r := if value != expected then Err(MalformedEncoding) else Ok(());
    }

    method LengthPrefixed() returns (r: Result<Bytes>)
      requires Valid()
      modifies this
      ensures Valid()
      ensures r.Ok? <==> FrameEnd(input, old(pos)).Some?
      ensures r.Ok? ==> pos == FrameEnd(input, old(pos)).value && r.value == input[old(pos) + 2..pos]
      ensures r.Err? ==> r.error == MalformedEncoding
    {
      var length :- TakeU16();
      r := Take(length);
    }

    /** The u32-counted ciphertext body and the end of the input. */
    method CountedBody() returns (r: Result<Body>)
      requires Valid()
      modifies this
      ensures Valid()
      ensures r == BodyVerdict(input, old(pos))
    {
      var length :- TakeU32();
      if !(TAG_BYTES <= length <= MAX_BODY_BYTES) {
        return Err(MalformedEncoding);
      }
      var body :- Take(length);
      var _ :- Finish();
      assert body == input[old(pos) + 4..];
      r := Ok(body);
    }

    method Finish() returns (r: Result<()>)
      requires Valid()
      ensures r == if pos < |input| then Err(TrailingData) else Ok(())
    {
      r := if |remaining| != 0 then Err(TrailingData) else Ok(());
    }
  }

  method DecodeDescriptor(bytes: Bytes) returns (r: Result<Descriptor>)
    ensures r == DescriptorVerdict(bytes)
  {
    var decoder := new Decoder(bytes);
    var version :- decoder.Byte();
    if version != FORMAT_VERSION {
      return Err(UnsupportedVersion);
    }
    var size :- decoder.Byte();
    if size as nat != NONCE_BYTES {
      return Err(MalformedEncoding);
    }
    var nonce :- decoder.Take(NONCE_BYTES);
    var _ :- decoder.Finish();
    r := Ok(Descriptor(version, nonce));
  }

  method DecodeWrapped(descriptor: Descriptor, bytes: Bytes) returns (r: Result<StoredKey>)
    ensures r == WrappedVerdict(descriptor.formatVersion, bytes)
  {
    if descriptor.formatVersion != FORMAT_VERSION {
      return Err(UnsupportedVersion);
    }
    var decoder := new Decoder(bytes);
    var idLength :- decoder.Byte();
    var id :- decoder.Take(idLength as nat);
    if !IsKeyId(id) {
      return Err(InvalidKeyId);
    }
    var size :- decoder.Byte();
    if size as nat != NONCE_BYTES {
      return Err(MalformedEncoding);
    }
    var nonce :- decoder.Take(NONCE_BYTES);
    var length :- decoder.TakeU16();
    if length != WRAPPED_DATA_KEY_BYTES {
      return Err(MalformedEncoding);
    }
    var wrapped :- decoder.Take(WRAPPED_DATA_KEY_BYTES);
    var _ :- decoder.Finish();
    r := Ok(WrappedKey(id, nonce, wrapped));
  }

  method DecodeEnvelope(bytes: Bytes) returns (r: Result<StoredEnvelope>)
    ensures r == EnvelopeVerdict(bytes)
  {
    if |bytes| > MAX_ENVELOPE_BYTES {
      return Err(MalformedEncoding);
    }
    var decoder := new Decoder(bytes);
    var _ :- decoder.Magic(ENVELOPE_MAGIC);
    var descriptorBytes :- decoder.LengthPrefixed();
    var descriptor :- DecodeDescriptor(descriptorBytes);
    var wrappedBytes :- decoder.LengthPrefixed();
    var wrapped :- DecodeWrapped(descriptor, wrappedBytes);
    var _ :- decoder.Finish();
    r := Ok(Envelope(descriptor, wrapped));
  }

  method DecodeSealed(bytes: Bytes) returns (r: Result<StoredPayload>)
    ensures r == SealedVerdict(bytes)
  {
    var decoder := new Decoder(bytes);
    var _ :- decoder.Magic(SEALED_MAGIC);
    var envelopeBytes :- decoder.LengthPrefixed();
    var envelope :- DecodeEnvelope(envelopeBytes);
    var body :- decoder.CountedBody();
    r := Ok(SealedPayload(envelope, body));
  }
}
