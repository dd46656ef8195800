/** Lines of a byte string. */
module Lines {
  import opened Bytes

  const NEWLINE: byte := 10
  const RETURN: byte := 13

  predicate IsLineStart(b: Bytes, p: nat) {
    p <= |b| && (p == 0 || b[p - 1] == NEWLINE)
  }

  /** The start of the line that position `k` is on. */
  function StartOf(b: Bytes, k: nat): (q: nat)
    requires k <= |b|
    ensures q <= k && IsLineStart(b, q)
  {
    if k == 0 || b[k - 1] == NEWLINE then k else StartOf(b, k - 1)
  }

  lemma {:induction false} StartOfExtend(b: Bytes, more: Bytes, k: nat)
    requires k <= |b|
    ensures StartOf(b + more, k) == StartOf(b, k)
  {
    if k != 0 && b[k - 1] != NEWLINE {
      StartOfExtend(b, more, k - 1);
    }
  }

  lemma SliceExtend(b: Bytes, more: Bytes, i: nat, j: nat)
    requires i <= j <= |b|
    ensures Sub(b + more, i, j) == Sub(b, i, j)
  {
  }
}
