/** Well-formed UTF-8, as a check on bytes and as what encoding scalar values yields. */
module Utf8 {
  import opened Bytes

  predicate Between(b: Bytes, i: nat, low: byte, high: byte) {
    i < |b| && low <= b[i] <= high
  }

  /** b[i..] is well-formed UTF-8. */
  predicate IsUtf8(b: Bytes, i: nat)
    requires i <= |b|
    decreases |b| - i
  {
    || i == |b|
    || (Between(b, i, 0, 0x7F) && IsUtf8(b, i + 1))
    || (Between(b, i, 0xC2, 0xDF) && Between(b, i + 1, 0x80, 0xBF) && IsUtf8(b, i + 2))
    || (&& Between(b, i, 0xE0, 0xEF) && Between(b, i + 2, 0x80, 0xBF)
        && Between(b, i + 1, if b[i] == 0xE0 then 0xA0 else 0x80, if b[i] == 0xED then 0x9F else 0xBF)
        && IsUtf8(b, i + 3))
    || (&& Between(b, i, 0xF0, 0xF4) && Between(b, i + 2, 0x80, 0xBF) && Between(b, i + 3, 0x80, 0xBF)
        && Between(b, i + 1, if b[i] == 0xF0 then 0x90 else 0x80, if b[i] == 0xF4 then 0x8F else 0xBF)
        && IsUtf8(b, i + 4))
  }

  /** A Unicode scalar value: a code point that is no surrogate. */
  type Scalar = v: nat | v < 0xD800 || 0xE000 <= v < 0x11_0000

  /** The encoding of one scalar value (section 3 of RFC 3629). */
  function Encode(v: Scalar): (r: Bytes)
    ensures 1 <= |r| <= 4
  {
    if v < 0x80 then [v as byte]
    else if v < 0x800 then [(0xC0 + v / 64) as byte, (0x80 + v % 64) as byte]
    else if v < 0x1_0000 then [(0xE0 + v / 4096) as byte, (0x80 + v / 64 % 64) as byte, (0x80 + v % 64) as byte]
    else [(0xF0 + v / 262144) as byte, (0x80 + v / 4096 % 64) as byte, (0x80 + v / 64 % 64) as byte, (0x80 + v % 64) as byte]
  }

  function EncodeAll(vs: seq<Scalar>): Bytes {
    if |vs| == 0 then [] else Encode(vs[0]) + EncodeAll(vs[1..])
  }

  /** Checking from `i` on is checking what is there. */
  lemma {:induction false} IsUtf8After(a: Bytes, b: Bytes, i: nat)
    requires i <= |b|
    ensures IsUtf8(a + b, |a| + i) <==> IsUtf8(b, i)
    decreases |b| - i
  {
    var c := a + b;
    assert forall k :: 0 <= k < |b| ==> c[|a| + k] == b[k];
    if i + 1 <= |b| { IsUtf8After(a, b, i + 1); }
    if i + 2 <= |b| { IsUtf8After(a, b, i + 2); }
    if i + 3 <= |b| { IsUtf8After(a, b, i + 3); }
    if i + 4 <= |b| { IsUtf8After(a, b, i + 4); }
  }

  /** The ranges of the bytes of one encoded value. */
  lemma EncodeRanges(v: Scalar)
    ensures var e := Encode(v);
            && (|e| == 1 ==> Between(e, 0, 0, 0x7F))
            && (|e| == 2 ==> Between(e, 0, 0xC2, 0xDF) && Between(e, 1, 0x80, 0xBF))
            && (|e| == 3 ==>
                  && Between(e, 0, 0xE0, 0xEF) && Between(e, 2, 0x80, 0xBF)
                  && Between(e, 1, if e[0] == 0xE0 then 0xA0 else 0x80, if e[0] == 0xED then 0x9F else 0xBF))
            && (|e| == 4 ==>
                  && Between(e, 0, 0xF0, 0xF4) && Between(e, 2, 0x80, 0xBF) && Between(e, 3, 0x80, 0xBF)
                  && Between(e, 1, if e[0] == 0xF0 then 0x90 else 0x80, if e[0] == 0xF4 then 0x8F else 0xBF))
  {
  }

  lemma {:induction false} EncodedIsUtf8(v: Scalar, rest: Bytes)
    requires IsUtf8(rest, 0)
    ensures IsUtf8(Encode(v) + rest, 0)
  {
    EncodeRanges(v);
    AddOne(Encode(v), rest);
  }

  /** One well-formed sequence before well-formed bytes. */
  lemma {:induction false} AddOne(e: Bytes, rest: Bytes)
    requires IsUtf8(rest, 0) && 1 <= |e| <= 4
    requires |e| == 1 ==> Between(e, 0, 0, 0x7F)
    requires |e| == 2 ==> Between(e, 0, 0xC2, 0xDF) && Between(e, 1, 0x80, 0xBF)
    requires |e| == 3 ==>
               && Between(e, 0, 0xE0, 0xEF) && Between(e, 2, 0x80, 0xBF)
               && Between(e, 1, if e[0] == 0xE0 then 0xA0 else 0x80, if e[0] == 0xED then 0x9F else 0xBF)
    requires |e| == 4 ==>
               && Between(e, 0, 0xF0, 0xF4) && Between(e, 2, 0x80, 0xBF) && Between(e, 3, 0x80, 0xBF)
               && Between(e, 1, if e[0] == 0xF0 then 0x90 else 0x80, if e[0] == 0xF4 then 0x8F else 0xBF)
    ensures IsUtf8(e + rest, 0)
  {
    var b := e + rest;
    IsUtf8After(e, rest, 0);
    assert forall k :: 0 <= k < |e| ==> b[k] == e[k];
  }

  /** Every sequence of scalar values encodes to well-formed bytes. */
  lemma {:induction false} EncodingIsUtf8(vs: seq<Scalar>)
    ensures IsUtf8(EncodeAll(vs), 0)
  {
    if |vs| > 0 {
      EncodingIsUtf8(vs[1..]);
      EncodedIsUtf8(vs[0], EncodeAll(vs[1..]));
    }
  }

  lemma TwoBytes(x: byte, y: byte) returns (v: Scalar)
    requires 0xC2 <= x <= 0xDF && 0x80 <= y <= 0xBF
    ensures Encode(v) == [x, y]
  {
    v := (x as nat - 0xC0) * 64 + (y as nat - 0x80);
  }

  lemma ThreeBytes(x: byte, y: byte, z: byte) returns (v: Scalar)
    requires 0xE0 <= x <= 0xEF && 0x80 <= z <= 0xBF
    requires (if x == 0xE0 then 0xA0 else 0x80) <= y <= (if x == 0xED then 0x9F else 0xBF)
    ensures Encode(v) == [x, y, z]
  {
    var a, b, c := x as nat - 0xE0, y as nat - 0x80, z as nat - 0x80;
    v := a * 4096 + b * 64 + c;
    assert v / 4096 == a && v / 64 == a * 64 + b && v % 64 == c;
  }

  /** Four digits to the base 64. */
  lemma Digits(a: nat, b: nat, c: nat, d: nat)
    requires b < 64 && c < 64 && d < 64
    ensures var v := a * 262144 + b * 4096 + c * 64 + d;
            v / 262144 == a && v / 4096 % 64 == b && v / 64 % 64 == c && v % 64 == d
  {
    var v := a * 262144 + b * 4096 + c * 64 + d;
    assert v / 64 == a * 4096 + b * 64 + c;
    assert v / 4096 == a * 64 + b;
  }

  lemma FourBytes(w: byte, x: byte, y: byte, z: byte) returns (v: Scalar)
    requires 0xF0 <= w <= 0xF4 && 0x80 <= y <= 0xBF && 0x80 <= z <= 0xBF
    requires (if w == 0xF0 then 0x90 else 0x80) <= x <= (if w == 0xF4 then 0x8F else 0xBF)
    ensures Encode(v) == [w, x, y, z]
  {
    var a, b, c, d := w as nat - 0xF0, x as nat - 0x80, y as nat - 0x80, z as nat - 0x80;
    v := a * 262144 + b * 4096 + c * 64 + d;
    Digits(a, b, c, d);
  }

  /** The first value of well-formed bytes. */
  lemma {:induction false} FirstScalar(b: Bytes, i: nat) returns (v: Scalar, n: nat)
    requires i < |b| && IsUtf8(b, i)
    ensures 0 < n <= |b| - i && IsUtf8(b, i + n) && Encode(v) == Sub(b, i, i + n)
  {
    if Between(b, i, 0, 0x7F) {
      v, n := b[i] as nat, 1;
    } else if Between(b, i, 0xC2, 0xDF) {
      v := TwoBytes(b[i], b[i + 1]);
      n := 2;
    } else if Between(b, i, 0xE0, 0xEF) {
      v := ThreeBytes(b[i], b[i + 1], b[i + 2]);
      n := 3;
    } else {
      v := FourBytes(b[i], b[i + 1], b[i + 2], b[i + 3]);
      n := 4;
    }
  }

  lemma Halves(b: Bytes, i: nat, j: nat)
    requires i <= j <= |b|
    ensures Sub(b, i, |b|) == Sub(b, i, j) + Sub(b, j, |b|)
  {
  }

  /** Well-formed bytes encode some sequence of scalar values. */
  lemma {:induction false} Utf8IsEncoding(b: Bytes, i: nat) returns (vs: seq<Scalar>)
    requires i <= |b| && IsUtf8(b, i)
    ensures EncodeAll(vs) == Sub(b, i, |b|)
    decreases |b| - i
  {
    if i == |b| {
      vs := [];
    } else {
      var v, n := FirstScalar(b, i);
      var rest := Utf8IsEncoding(b, i + n);
      vs := [v] + rest;
      assert vs[1..] == rest;
      Halves(b, i, i + n);
    }
  }

  /** Exactly the encodings of scalar values are well-formed. */
  lemma Utf8Iff(b: Bytes)
    ensures IsUtf8(b, 0) <==> exists vs: seq<Scalar> :: EncodeAll(vs) == b
  {
    if IsUtf8(b, 0) {
      var vs := Utf8IsEncoding(b, 0);
      assert Sub(b, 0, |b|) == b;
    }
    if vs: seq<Scalar> :| EncodeAll(vs) == b {
      EncodingIsUtf8(vs);
    }
  }
}
