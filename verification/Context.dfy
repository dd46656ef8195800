/** Canonical contexts of crates/batter-at-rest/src/context.rs and the framed
    associated data built on them in crypto.rs. */
module Contexts {
  import opened Bytes
  import opened Format

  const MAX_CONTEXT_LABEL_BYTES: nat := 64
  const MAX_BINDING_COMPONENT_BYTES: nat := 128
  const MAX_CONTEXT_BYTES: nat := 512

  const CODEC_VERSION: byte := 1
  const ROW_BINDING: byte := 1
  const TENANT_TOKEN_BINDING: byte := 2

  const AAD_MAGIC: Bytes := [65, 84, 82, 65]
  const HKDF_MAGIC: Bytes := [65, 84, 82, 75]
  const PAYLOAD_ROLE: byte := 1
  const WRAPPING_ROLE: byte := 2
  const HKDF_WRAPPING_ROLE: byte := 3

  /** Lower-case ASCII letters, digits and `._:-`. */
  predicate IsLabel(b: Bytes) {
    && 1 <= |b| <= MAX_CONTEXT_LABEL_BYTES
    && forall k :: 0 <= k < |b| ==>
                     97 <= b[k] <= 122 || 48 <= b[k] <= 57 || b[k] == 46 || b[k] == 95 || b[k] == 58 || b[k] == 45
  }

  /** The characters of a label, written out. */
  lemma LabelIs(b: Bytes)
    ensures IsLabel(b) <==>
            0 < |b| < 65 && forall k :: 0 <= k < |b| ==>
              var c := b[k] as int as char;
              || c in "abcdefghijklmnopqrstuvwxyz" || c in "0123456789"
              || c == '.' || c == '_' || c == ':' || c == '-'
  {
  }

  predicate IsPart(b: Bytes) {
    1 <= |b| <= MAX_BINDING_COMPONENT_BYTES
  }

  /** The application identity a context stands for. */
  datatype Binding =
    | Row(namespace: Bytes, purpose: Bytes, owner: Bytes, resource: Bytes, schema: Bytes)
    | TenantToken(namespace: Bytes, purpose: Bytes, tenant: Bytes, schema: Bytes)

  predicate IsBinding(b: Binding) {
    && IsLabel(b.namespace) && IsLabel(b.purpose) && IsLabel(b.schema)
    && (match b
        case Row(_, _, owner, resource, _) => IsPart(owner) && IsPart(resource)
        case TenantToken(_, _, tenant, _) => IsPart(tenant))
  }

  type ValidBinding = b: Binding | IsBinding(b) witness TenantToken([97], [97], [0], [97])

  // ----- framed components

  /** What a u16 length can frame. */
  type Part = b: Bytes | |b| < 0x1_0000 witness []

  function Frames(parts: seq<Part>): Bytes {
    if parts == [] then [] else Framed(parts[0]) + Frames(parts[1..])
  }

  lemma {:induction false} FramesAppend(parts: seq<Part>, last: Part)
    ensures Frames(parts + [last]) == Frames(parts) + Framed(last)
  {
    if parts == [] {
      assert [last][1..] == [];
      assert Frames([last]) == Framed(last) + [];
    } else {
      assert (parts + [last])[1..] == parts[1..] + [last];
      FramesAppend(parts[1..], last);
    }
  }

  lemma FramedInjective(x: Part, r: Bytes, y: Part, s: Bytes)
    requires Framed(x) + r == Framed(y) + s
    ensures x == y && r == s
  {
    var a, b := Framed(x) + r, Framed(y) + s;
    assert a[0] as nat * 256 + a[1] as nat == |x| && b[0] as nat * 256 + b[1] as nat == |y|;
    assert a[2..2 + |x|] == x && b[2..2 + |x|] == y;
    assert a[2 + |x|..] == r && b[2 + |x|..] == s;
  }

  /** Framing loses nothing: components and their number are recovered. */
  lemma {:induction false} FramesInjective(a: seq<Part>, b: seq<Part>)
    requires Frames(a) == Frames(b)
    ensures a == b
  {
    if a != [] && b != [] {
      FramedInjective(a[0], Frames(a[1..]), b[0], Frames(b[1..]));
      FramesInjective(a[1..], b[1..]);
      assert a == [a[0]] + a[1..] && b == [b[0]] + b[1..];
    }
  }

  function Parts(b: ValidBinding): seq<Part> {
    match b
    case Row(namespace, purpose, owner, resource, schema) => [namespace, purpose, owner, resource, schema]
    case TenantToken(namespace, purpose, tenant, schema) => [namespace, purpose, tenant, schema]
  }

  function Kind(b: Binding): byte {
    if b.Row? then ROW_BINDING else TENANT_TOKEN_BINDING
  }

  function EncodeBinding(b: ValidBinding): Bytes {
    [CODEC_VERSION, Kind(b)] + Frames(Parts(b))
  }

  /** Up to three frames, written out. */
  lemma FramesOf(parts: seq<Part>)
    ensures |parts| == 1 ==> Frames(parts) == Framed(parts[0])
    ensures |parts| == 2 ==> Frames(parts) == Framed(parts[0]) + Framed(parts[1])
    ensures |parts| == 3 ==> Frames(parts) == Framed(parts[0]) + (Framed(parts[1]) + Framed(parts[2]))
  {
    if |parts| == 1 {
      assert parts[1..] == [];
      assert Framed(parts[0]) + [] == Framed(parts[0]);
    } else if |parts| == 2 || |parts| == 3 {
      assert forall k :: 1 <= k < |parts| ==> parts[1..][k - 1] == parts[k];
      FramesOf(parts[1..]);
    }
  }

  /** The bytes of a context, written out. */
  lemma BindingLayout(b: ValidBinding)
    ensures b.Row? ==>
              EncodeBinding(b) ==
              [1, 1] + (Framed(b.namespace) + (Framed(b.purpose)
                        + (Framed(b.owner) + (Framed(b.resource) + Framed(b.schema)))))
    ensures b.TenantToken? ==>
              EncodeBinding(b) ==
              [1, 2] + (Framed(b.namespace) + (Framed(b.purpose) + (Framed(b.tenant) + Framed(b.schema))))
  {
    var p := Parts(b);
    if b.Row? {
      assert p[1..] == [b.purpose, b.owner, b.resource, b.schema];
      assert p[1..][1..] == [b.owner, b.resource, b.schema];
      FramesOf(p[1..][1..]);
      assert Frames(p[1..]) == Framed(b.purpose) + Frames(p[1..][1..]);
      assert Frames(p) == Framed(b.namespace) + Frames(p[1..]);
    } else {
      assert p[1..] == [b.purpose, b.tenant, b.schema];
      FramesOf(p[1..]);
    }
  }

  /** The context encoding identifies the binding: kind and every component. */
  lemma BindingInjective(a: ValidBinding, b: ValidBinding)
    requires EncodeBinding(a) == EncodeBinding(b)
    ensures a == b
  {
    assert EncodeBinding(a)[1] == Kind(a) && EncodeBinding(b)[1] == Kind(b);
    assert EncodeBinding(a)[2..] == Frames(Parts(a)) && EncodeBinding(b)[2..] == Frames(Parts(b));
    FramesInjective(Parts(a), Parts(b));
    match a
    case Row(namespace, purpose, owner, resource, schema) =>
      assert Parts(a)[0] == Parts(b)[0] && Parts(a)[1] == Parts(b)[1] && Parts(a)[2] == Parts(b)[2];
      assert Parts(a)[3] == Parts(b)[3] && Parts(a)[4] == Parts(b)[4];
    case TenantToken(namespace, purpose, tenant, schema) =>
      assert Parts(a)[0] == Parts(b)[0] && Parts(a)[1] == Parts(b)[1];
      assert Parts(a)[2] == Parts(b)[2] && Parts(a)[3] == Parts(b)[3];
  }

  lemma {:induction false} FramesLength(parts: seq<Part>, longest: nat)
    requires forall k :: 0 <= k < |parts| ==> |parts[k]| <= longest
    ensures |Frames(parts)| <= |parts| * (2 + longest)
  {
    if parts != [] {
      FramesLength(parts[1..], longest);
      assert |parts| * (2 + longest) == (|parts| - 1) * (2 + longest) + (2 + longest);
    }
  }

  /** The total-length check of the factories can never fail. */
  lemma BindingFits(b: ValidBinding)
    ensures |EncodeBinding(b)| <= MAX_CONTEXT_BYTES
  {
    var p := Parts(b);
    assert p == p[..2] + (p[2..|p| - 1] + p[|p| - 1..]);
    FramesConcat(p[..2], p[2..|p| - 1] + p[|p| - 1..]);
    FramesConcat(p[2..|p| - 1], p[|p| - 1..]);
    FramesLength(p[..2], MAX_CONTEXT_LABEL_BYTES);
    FramesLength(p[2..|p| - 1], MAX_BINDING_COMPONENT_BYTES);
    FramesLength(p[|p| - 1..], MAX_CONTEXT_LABEL_BYTES);
  }

  lemma {:induction false} FramesConcat(a: seq<Part>, b: seq<Part>)
    ensures Frames(a + b) == Frames(a) + Frames(b)
  {
    if a == [] {
      assert a + b == b;
    } else {
      assert (a + b)[1..] == a[1..] + b;
      FramesConcat(a[1..], b);
    }
  }

  // ----- the context value

  /** An encoding with the positions of its namespace and purpose. */
  datatype Context = Context(encoded: Bytes, namespaceAt: (nat, nat), purposeAt: (nat, nat))

  ghost predicate Stands(c: Context, b: ValidBinding) {
    && c.encoded == EncodeBinding(b)
    && c.namespaceAt.0 <= c.namespaceAt.1 <= |c.encoded|
    && c.encoded[c.namespaceAt.0..c.namespaceAt.1] == b.namespace
    && c.purposeAt.0 <= c.purposeAt.1 <= |c.encoded|
    && c.encoded[c.purposeAt.0..c.purposeAt.1] == b.purpose
  }

  /** `push_component`: append one frame and return where its bytes are. */
  method PushComponent(target: Bytes, value: Part, ghost head: Bytes, ghost done: seq<Part>)
    returns (r: Bytes, at: (nat, nat), ghost framed: seq<Part>)
    requires target == head + Frames(done)
    ensures framed == done + [value] && r == head + Frames(framed)
    ensures target <= r && at.0 <= at.1 == |r| && r[at.0..at.1] == value
  {
    framed := done + [value];
    FramesAppend(done, value);
    r := target + U16(|value|);
    var start := |r|;
    r := r + value;
    at := (start, |r|);
  }

  /** `Context::for_row`: fails exactly when a component is invalid. */
  method ForRow(namespace: Bytes, purpose: Bytes, owner: Bytes, resource: Bytes, schema: Bytes)
    returns (r: Result<Context>)
    ensures r.Ok? <==> IsBinding(Row(namespace, purpose, owner, resource, schema))
    ensures r.Ok? ==> Stands(r.value, Row(namespace, purpose, owner, resource, schema))
    ensures r.Err? ==> r.error == InvalidContext
  {
    if !IsLabel(namespace) || !IsLabel(purpose) || !IsPart(owner) || !IsPart(resource) || !IsLabel(schema) {
      return Err(InvalidContext);
    }
    var head := [CODEC_VERSION, ROW_BINDING];
    var namespaceAt, purposeAt, at;
    var encoded := head;
    ghost var done: seq<Part> := [];
    encoded, namespaceAt, done := PushComponent(encoded, namespace, head, done);
    encoded, purposeAt, done := PushComponent(encoded, purpose, head, done);
    encoded, at, done := PushComponent(encoded, owner, head, done);
    encoded, at, done := PushComponent(encoded, resource, head, done);
    encoded, at, done := PushComponent(encoded, schema, head, done);
    assert done == [namespace, purpose, owner, resource, schema];
    r := Finish(encoded, namespaceAt, purposeAt, Row(namespace, purpose, owner, resource, schema));
  }

  /** `Context::for_tenant_token`: fails exactly when a component is invalid. */
  method ForTenantToken(namespace: Bytes, purpose: Bytes, tenant: Bytes, schema: Bytes) returns (r: Result<Context>)
    ensures r.Ok? <==> IsBinding(TenantToken(namespace, purpose, tenant, schema))
    ensures r.Ok? ==> Stands(r.value, TenantToken(namespace, purpose, tenant, schema))
    ensures r.Err? ==> r.error == InvalidContext
  {
    if !IsLabel(namespace) || !IsLabel(purpose) || !IsPart(tenant) || !IsLabel(schema) {
      return Err(InvalidContext);
    }
    var head := [CODEC_VERSION, TENANT_TOKEN_BINDING];
    var namespaceAt, purposeAt, at;
    var encoded := head;
    ghost var done: seq<Part> := [];
    encoded, namespaceAt, done := PushComponent(encoded, namespace, head, done);
    encoded, purposeAt, done := PushComponent(encoded, purpose, head, done);
    encoded, at, done := PushComponent(encoded, tenant, head, done);
    encoded, at, done := PushComponent(encoded, schema, head, done);
    assert done == [namespace, purpose, tenant, schema];
    r := Finish(encoded, namespaceAt, purposeAt, TenantToken(namespace, purpose, tenant, schema));
  }

  /** `validate_total` and the finished value. */
  method Finish(encoded: Bytes, namespaceAt: (nat, nat), purposeAt: (nat, nat), ghost b: ValidBinding)
    returns (r: Result<Context>)
    requires Stands(Context(encoded, namespaceAt, purposeAt), b)
    ensures r == Ok(Context(encoded, namespaceAt, purposeAt))
  {
    BindingFits(b);
    r := if |encoded| > MAX_CONTEXT_BYTES then Err(InvalidContext) else Ok(Context(encoded, namespaceAt, purposeAt));
  }
}
