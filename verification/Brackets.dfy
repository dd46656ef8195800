/** Bracket words against the stack machine, and texts as a table of pieces. */
module Brackets {
  import opened Bytes
  import opened Delimiters

  // ----- the bracket stack against the grammar

  /** What the scanner expects to close an opening bracket. */
  function Closer(open: char): char {
    if open == '(' then ')' else if open == '[' then ']' else '}'
  }

  /** The scanner's stack after reading `brackets`, or None at a mismatch. */
  function Run(stack: string, brackets: string): Option<string>
    decreases |brackets|
  {
    if brackets == [] then Some(stack)
    else if brackets[0] in "([{" then Run(stack + [brackets[0]], brackets[1..])
    else if stack != [] && Closer(stack[|stack| - 1]) == brackets[0] then Run(stack[..|stack| - 1], brackets[1..])
    else None
  }

  lemma {:induction false} RunWord(stack: string, w: Word, more: string)
    requires Legal(w)
    ensures Run(stack, Yield(w) + more) == Run(stack, more)
    decreases w
  {
    match w
    case Empty =>
      assert Yield(w) + more == more;
    case Wrap(open, inner, close, rest) =>
      var tail := [close] + (Yield(rest) + more);
      var all := Yield(w) + more;
      assert all == [open] + (Yield(inner) + tail);
      assert all[1..] == Yield(inner) + tail;
      RunWord(stack + [open], inner, tail);
      assert (stack + [open])[..|stack|] == stack;
      assert tail[1..] == Yield(rest) + more;
      RunWord(stack, rest, more);
  }

  /** Emptying a nonempty stack first closes its top, after a balanced word. */
  lemma {:induction false} RunClosesTop(stack: string, top: char, brackets: string) returns (w: Word, rest: string)
    requires Run(stack + [top], brackets) == Some([])
    ensures Legal(w) && brackets == Yield(w) + ([Closer(top)] + rest)
    ensures Run(stack, rest) == Some([])
    decreases |brackets|
  {
    assert (stack + [top])[..|stack|] == stack;
    assert brackets != [];
    if brackets[0] in "([{" {
      var inner, more := RunClosesTop(stack + [top], brackets[0], brackets[1..]);
      var after, last := RunClosesTop(stack, top, more);
      w, rest := Wrap(brackets[0], inner, Closer(brackets[0]), after), last;
      WrapYield(brackets, inner, after, more, [Closer(top)] + rest);
    } else {
      w, rest := Empty, brackets[1..];
    }
  }

  lemma WrapYield(brackets: string, inner: Word, after: Word, more: string, last: string)
    requires brackets != [] && brackets[1..] == Yield(inner) + ([Closer(brackets[0])] + more)
    requires more == Yield(after) + last
    ensures brackets == Yield(Wrap(brackets[0], inner, Closer(brackets[0]), after)) + last
  {
    assert brackets == [brackets[0]] + brackets[1..];
  }

  lemma {:induction false} RunIsWord(brackets: string) returns (w: Word)
    requires Run([], brackets) == Some([])
    ensures Legal(w) && Yield(w) == brackets
    decreases |brackets|
  {
    if brackets == [] {
      w := Empty;
    } else {
      assert [] + [brackets[0]] == [brackets[0]];
      var inner, more := RunClosesTop([], brackets[0], brackets[1..]);
      var after := RunIsWord(more);
      w := Wrap(brackets[0], inner, Closer(brackets[0]), after);
      assert Yield(after) == Yield(after) + [];
      WrapYield(brackets, inner, after, more, []);
      assert Yield(w) + [] == Yield(w);
    }
  }

  /** The stack ends empty exactly on the balanced words. */
  lemma BalancedIsRun(brackets: string)
    ensures Balanced(brackets) <==> Run([], brackets) == Some([])
  {
    if Balanced(brackets) {
      var w: Word :| Legal(w) && Yield(w) == brackets;
      assert brackets + [] == brackets;
      RunWord([], w, []);
    }
    if Run([], brackets) == Some([]) {
      var w := RunIsWord(brackets);
    }
  }

  lemma {:induction false} RunConcat(stack: string, a: string, b: string)
    ensures Run(stack, a + b) == (match Run(stack, a) case None => None case Some(s) => Run(s, b))
    decreases |a|
  {
    if a == [] {
      assert a + b == b;
    } else {
      assert (a + b)[1..] == a[1..] + b;
      if a[0] in "([{" {
        RunConcat(stack + [a[0]], a[1..], b);
      } else if stack != [] && Closer(stack[|stack| - 1]) == a[0] {
        RunConcat(stack[..|stack| - 1], a[1..], b);
      }
    }
  }

  // ----- a text as a table of pieces

  /** What starts at a position: where it ends, if it does, and the plain bracket it is. */
  datatype Piece = Piece(end: Option<nat>, bracket: string)

  ghost predicate Forward(pieces: seq<Piece>) {
    forall i :: 0 <= i < |pieces| ==> pieces[i].end.Some? ==> i < pieces[i].end.value <= |pieces|
  }

  /** All plain brackets from `i` on, or None if some piece never ends. */
  function Lex(pieces: seq<Piece>, i: nat): Option<string>
    requires i <= |pieces| && Forward(pieces)
    decreases |pieces| - i
  {
    if i == |pieces| then Some([])
    else if pieces[i].end.None? then None
    else match Lex(pieces, pieces[i].end.value)
      case None => None
      case Some(rest) => Some(pieces[i].bracket + rest)
  }

  /** The scanner gets to `i` having read the plain brackets `seen`. */
  ghost predicate Reaches(pieces: seq<Piece>, i: nat, seen: string)
    decreases i
  {
    || (i == 0 && seen == [])
    || exists k: nat, prior: string ::
         && k < i && k < |pieces| && pieces[k].end == Some(i)
         && seen == prior + pieces[k].bracket && Reaches(pieces, k, prior)
  }

  lemma ReachNext(pieces: seq<Piece>, i: nat, seen: string)
    requires i < |pieces| && Forward(pieces) && Reaches(pieces, i, seen) && pieces[i].end.Some?
    ensures Reaches(pieces, pieces[i].end.value, seen + pieces[i].bracket)
  {
  }

  /** The piece before a position that was reached. */
  lemma ReachesFrom(pieces: seq<Piece>, i: nat, seen: string) returns (k: nat, prior: string)
    requires Reaches(pieces, i, seen) && !(i == 0 && seen == [])
    ensures k < i && k < |pieces| && pieces[k].end == Some(i)
    ensures seen == prior + pieces[k].bracket && Reaches(pieces, k, prior)
  {
    k, prior :| && k < i && k < |pieces| && pieces[k].end == Some(i)
                && seen == prior + pieces[k].bracket && Reaches(pieces, k, prior);
  }

  lemma LexBack(pieces: seq<Piece>, k: nat, prior: string)
    requires k < |pieces| && Forward(pieces) && pieces[k].end.Some?
    ensures var rest := Lex(pieces, pieces[k].end.value);
            && (rest.None? ==> Lex(pieces, k).None?)
            && (rest.Some? ==> && Lex(pieces, k).Some?
                               && prior + Lex(pieces, k).value == (prior + pieces[k].bracket) + rest.value)
  {
    var rest := Lex(pieces, pieces[k].end.value);
    if rest.Some? {
      assert prior + (pieces[k].bracket + rest.value) == (prior + pieces[k].bracket) + rest.value;
    }
  }

  lemma {:induction false} ReachesLex(pieces: seq<Piece>, i: nat, seen: string)
    requires i <= |pieces| && Forward(pieces) && Reaches(pieces, i, seen)
    ensures Lex(pieces, i).None? ==> Lex(pieces, 0).None?
    ensures Lex(pieces, i).Some? ==> Lex(pieces, 0) == Some(seen + Lex(pieces, i).value)
    decreases i
  {
    if i == 0 && seen == [] {
      if Lex(pieces, i).Some? {
        assert [] + Lex(pieces, i).value == Lex(pieces, i).value;
      }
    } else {
      var k, prior := ReachesFrom(pieces, i, seen);
      ReachesLex(pieces, k, prior);
      LexBack(pieces, k, prior);
    }
  }

  ghost predicate Accepted(pieces: seq<Piece>)
    requires Forward(pieces)
  {
    Lex(pieces, 0).Some? && Balanced(Lex(pieces, 0).value)
  }

  lemma MismatchRejects(pieces: seq<Piece>, i: nat, seen: string, c: char)
    requires i < |pieces| && Forward(pieces) && Reaches(pieces, i, seen) && pieces[i].bracket == [c]
    requires Run([], seen + [c]).None?
    ensures !Accepted(pieces)
  {
    ReachesLex(pieces, i, seen);
    if Lex(pieces, i).Some? {
      var rest := Lex(pieces, pieces[i].end.value).value;
      assert seen + ([c] + rest) == (seen + [c]) + rest;
      RunConcat([], seen + [c], rest);
      BalancedIsRun((seen + [c]) + rest);
    }
  }

  lemma EndDecides(pieces: seq<Piece>, seen: string)
    requires Forward(pieces) && Reaches(pieces, |pieces|, seen)
    ensures Lex(pieces, 0) == Some(seen)
    ensures Accepted(pieces) <==> Run([], seen) == Some([])
  {
    ReachesLex(pieces, |pieces|, seen);
    assert seen + [] == seen;
    BalancedIsRun(seen);
  }

  lemma RunOne(seen: string, stack: string, c: char)
    requires Run([], seen) == Some(stack)
    ensures Run([], seen + [c]) == Run(stack, [c])
  {
    RunConcat([], seen, [c]);
  }

  lemma RunOpens(stack: string, c: char)
    requires c in "([{"
    ensures Run(stack, [c]) == Some(stack + [c])
  {
    assert [c][1..] == [];
  }

  lemma RunCloses(stack: string, c: char)
    requires c !in "([{"
    ensures Run(stack, [c]) == if |stack| > 0 && Closer(stack[|stack| - 1]) == c then Some(stack[..|stack| - 1]) else None
  {
    assert [c][1..] == [];
  }
}
