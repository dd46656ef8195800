/** Readiness markers of scripts/scheduling_process.py: a complete output line that ends
    with the marker once terminal colours and the carriage return are taken off. */
module Readiness {
  import opened Bytes
  import opened Lines

  const ESCAPE: byte := 27
  const OPEN: byte := 91
  const FINAL: byte := 109

  /** Where the digits and semicolons from `i` on end. */
  function ParametersEnd(b: Bytes, i: nat): (j: nat)
    requires i <= |b|
    ensures i <= j <= |b|
    decreases |b| - i
  {
    if i < |b| && (48 <= b[i] <= 57 || b[i] == 59) then ParametersEnd(b, i + 1) else i
  }

  /** The end of the colour sequence that starts at `i`, if one does. */
  function ColourEnd(b: Bytes, i: nat): (r: Option<nat>)
    requires i < |b|
    ensures r.Some? ==> i < r.value <= |b|
  {
    if i + 1 < |b| && b[i] == ESCAPE && b[i + 1] == OPEN then
      var j := ParametersEnd(b, i + 2);
      if j < |b| && b[j] == FINAL then Some(j + 1) else None
    else None
  }

  /** b[i..] without its colour sequences. */
  function Uncoloured(b: Bytes, i: nat): Bytes
    requires i <= |b|
    decreases |b| - i
  {
    if i == |b| then []
    else match ColourEnd(b, i)
      case Some(j) => Uncoloured(b, j)
      case None => [b[i]] + Uncoloured(b, i + 1)
  }

  function WithoutReturns(b: Bytes): Bytes {
    if |b| > 0 && b[|b| - 1] == RETURN then WithoutReturns(b[..|b| - 1]) else b
  }

  predicate EndsWith(b: Bytes, marker: Bytes) {
    |marker| <= |b| && b[|b| - |marker|..] == marker
  }

  predicate MarkedLine(line: Bytes, marker: Bytes) {
    EndsWith(WithoutReturns(Uncoloured(line, 0)), marker)
  }

  /** Some complete line carries the marker. */
  predicate Marked(b: Bytes, marker: Bytes) {
    exists n :: 0 <= n < |b| && b[n] == NEWLINE && MarkedLine(Sub(b, StartOf(b, n), n), marker)
  }

  /** More output never takes a marker away. */
  lemma MarkedGrows(b: Bytes, more: Bytes, marker: Bytes)
    requires Marked(b, marker)
    ensures Marked(b + more, marker)
  {
    var n :| 0 <= n < |b| && b[n] == NEWLINE && MarkedLine(Sub(b, StartOf(b, n), n), marker);
    StartOfExtend(b, more, n);
    SliceExtend(b, more, StartOf(b, n), n);
    assert (b + more)[n] == NEWLINE;
  }

  lemma MarkedStays(b: Bytes, longer: Bytes, marker: Bytes)
    requires b <= longer && Marked(b, marker)
    ensures Marked(longer, marker)
  {
    assert longer == b + longer[|b|..];
    MarkedGrows(b, longer[|b|..], marker);
  }

  lemma {:induction false} UncolouredKeepsPlain(b: Bytes, i: nat)
    requires i <= |b| && forall k :: i <= k < |b| ==> b[k] != ESCAPE
    ensures Uncoloured(b, i) == b[i..]
    decreases |b| - i
  {
    if i < |b| {
      UncolouredKeepsPlain(b, i + 1);
    }
  }

  /** A line without colours or returns that ends with the marker counts as it stands. */
  lemma PlainLineCounts(line: Bytes, marker: Bytes)
    requires forall k :: 0 <= k < |line| ==> line[k] != ESCAPE
    requires |line| == 0 || line[|line| - 1] != RETURN
    ensures MarkedLine(line, marker) <==> EndsWith(line, marker)
  {
    UncolouredKeepsPlain(line, 0);
    assert line[0..] == line;
  }

  /** Digits and semicolons only. */
  predicate IsParameters(p: Bytes) {
    forall k :: 0 <= k < |p| ==> 48 <= p[k] <= 57 || p[k] == 59
  }

  lemma {:induction false} ParametersEndAt(b: Bytes, i: nat, p: Bytes, rest: Bytes)
    requires IsParameters(p) && i <= |b| && b[i..] == p + [FINAL] + rest
    ensures ParametersEnd(b, i) == i + |p|
    decreases |p|
  {
    assert |b| == i + |p| + 1 + |rest|;
    assert b[i] == b[i..][0];
    if |p| > 0 {
      assert b[i + 1..] == b[i..][1..] && (p + [FINAL] + rest)[1..] == p[1..] + [FINAL] + rest;
      ParametersEndAt(b, i + 1, p[1..], rest);
    }
  }

  /** A colour sequence disappears; what follows it is read on. */
  lemma ColourDisappears(b: Bytes, i: nat, p: Bytes, rest: Bytes)
    requires IsParameters(p) && i <= |b| && b[i..] == [ESCAPE, OPEN] + p + [FINAL] + rest
    ensures Uncoloured(b, i) == Uncoloured(b, i + 3 + |p|)
  {
    assert b[i] == b[i..][0] && b[i + 1] == b[i..][1];
    assert b[i + 2..] == b[i..][2..];
    assert ([ESCAPE, OPEN] + p + [FINAL] + rest)[2..] == p + [FINAL] + rest;
    ParametersEndAt(b, i + 2, p, rest);
    assert b[i + 2 + |p|] == b[i + 2..][|p|];
  }

  /** All trailing carriage returns go, and nothing else. */
  lemma {:induction false} WithoutReturnsIs(b: Bytes)
    ensures var r := WithoutReturns(b);
            && r <= b && (|r| == 0 || r[|r| - 1] != RETURN)
            && forall k :: |r| <= k < |b| ==> b[k] == RETURN
  {
    if |b| > 0 && b[|b| - 1] == RETURN {
      WithoutReturnsIs(b[..|b| - 1]);
    }
  }
}
