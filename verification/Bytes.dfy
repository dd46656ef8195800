/** Bytes, big-endian integers and the Result type shared by the models. */
module Bytes {

  newtype byte = x: int | 0 <= x < 256

  type Bytes = seq<byte>

  datatype Option<+T> = None | Some(value: T)

  function Min(a: int, b: int): int {
    if a <= b then a else b
  }

  function Max(a: int, b: int): int {
    if a <= b then b else a
  }

  /** The elements of `s` from `i` up to `j`. */
  function Sub<T>(s: seq<T>, i: nat, j: nat): (r: seq<T>)
    requires i <= j <= |s|
    ensures |r| == j - i && forall k :: 0 <= k < j - i ==> r[k] == s[i + k]
  {
    seq(j - i, k requires 0 <= k < j - i => s[i + k])
  }

  /** The last `n` elements of `s`. */
  function Suffix<T>(s: seq<T>, n: nat): (r: seq<T>)
    requires n <= |s|
    ensures |r| == n && forall k :: 0 <= k < n ==> r[k] == s[|s| - n + k]
  {
    seq(n, k requires 0 <= k < n => s[|s| - n + k])
  }

  /** Concatenation of a sequence of chunks. */
  function Join<T>(chunks: seq<seq<T>>): seq<T> {
    if chunks == [] then [] else chunks[0] + Join(chunks[1..])
  }

  lemma {:induction false} JoinAppend<T>(chunks: seq<seq<T>>, last: seq<T>)
    ensures Join(chunks + [last]) == Join(chunks) + last
  {
    if chunks == [] {
      assert Join([last]) == last + Join([]);
    } else {
      assert (chunks + [last])[1..] == chunks[1..] + [last];
      JoinAppend(chunks[1..], last);
    }
  }
}
