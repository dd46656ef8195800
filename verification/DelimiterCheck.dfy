/** `rust_delimiters`, proved to accept exactly the balanced texts of the grammar. */
module DelimiterCheck {
  import opened Bytes
  import opened Delimiters
  import opened DelimiterScan
  import opened Brackets

  /** The piece the scanner finds, given what it recognised at a character. */
  function PieceOf(i: nat, c: char, next: Next): Piece {
    match next
    case Stuck(_) => Piece(None, [])
    case Skip(j) => Piece(Some(j), [])
    case Plain => Piece(Some(i + 1), if IsBracket(c) then [c] else [])
  }

  function PieceAt(text: string, i: nat): (p: Piece)
    requires i < |text|
    ensures p.end.Some? ==> i < p.end.value <= |text|
  {
    PieceOf(i, text[i], NextAt(text, i))
  }

  function Pieces(text: string): (r: seq<Piece>)
    ensures |r| == |text| && Forward(r)
  {
    seq(|text|, i requires 0 <= i < |text| => PieceAt(text, i))
  }

  /** `pieces` is what the scanner finds, asked for one position at a time. */
  ghost predicate Scanned(text: string, pieces: seq<Piece>) {
    && |pieces| == |text| && Forward(pieces)
    && forall i {:trigger AskedAt(i)} :: 0 <= i < |text| && AskedAt(i) ==> pieces[i] == PieceAt(text, i)
  }

  /** Names a position; `Scanned` speaks only of positions that are named. */
  predicate AskedAt(i: int) {
    true
  }

  lemma NextLexeme(text: string, pieces: seq<Piece>, i: nat, j: nat)
    requires Scanned(text, pieces) && i < |text|
    ensures Lexeme(text, i, j) <==> pieces[i].end == Some(j)
    ensures pieces[i].bracket == if IsPlain(text, i) && IsBracket(text[i]) then [text[i]] else []
  {
    assert AskedAt(i);
    LexemeIsNext(text, i, j);
    IsPlainIsMatch(text, i);
  }

  /** The grammar's reading of a text is the scanner's. */
  lemma {:induction false} LexesIsLex(text: string, pieces: seq<Piece>, i: nat, brackets: string)
    requires Scanned(text, pieces) && i <= |text|
    ensures Lexes(text, i, brackets) <==> Lex(pieces, i) == Some(brackets)
    decreases |text| - i
  {
    if i < |text| {
      forall j | i < j <= |text|
        ensures Lexeme(text, i, j) <==> pieces[i].end == Some(j)
        ensures Continues(text, i, j, brackets) <==>
                Lex(pieces, j).Some? && brackets == pieces[i].bracket + Lex(pieces, j).value
      {
        NextLexeme(text, pieces, i, j);
        if IsPlain(text, i) && IsBracket(text[i]) {
          if brackets != [] {
            LexesIsLex(text, pieces, j, brackets[1..]);
            assert brackets == [brackets[0]] + brackets[1..];
          }
        } else {
          LexesIsLex(text, pieces, j, brackets);
          if Lex(pieces, j).Some? {
            assert [] + Lex(pieces, j).value == Lex(pieces, j).value;
          }
        }
      }
    }
  }

  /** The text is lexemes throughout and its plain brackets are a balanced word. */
  ghost predicate WellDelimited(text: string) {
    exists brackets: string :: Lexes(text, 0, brackets) && Balanced(brackets)
  }

  lemma WellDelimitedIsAccepted(text: string, pieces: seq<Piece>)
    requires Scanned(text, pieces)
    ensures WellDelimited(text) <==> Accepted(pieces)
  {
    if WellDelimited(text) {
      var brackets: string :| Lexes(text, 0, brackets) && Balanced(brackets);
      LexesIsLex(text, pieces, 0, brackets);
    }
    if Accepted(pieces) {
      LexesIsLex(text, pieces, 0, Lex(pieces, 0).value);
    }
  }

  // ----- the checker

  datatype Report =
    | Fine
    | Unterminated(problem: Problem)
    | Unmatched(closer: char, line: nat)
    | Unclosed(opener: char, line: nat)

  function LineOf(text: string, i: nat): nat
    requires i <= |text|
  {
    if i == 0 then 1 else LineOf(text, i - 1) + if text[i - 1] == '\n' then 1 else 0
  }

  /** The newlines before a position. */
  ghost function NewlinesBefore(text: string, i: nat): set<nat>
    requires i <= |text|
  {
    set k: nat | k < i && text[k] == '\n'
  }

  /** Lines are counted from one. */
  lemma {:induction false} LineOfCounts(text: string, i: nat)
    requires i <= |text|
    ensures LineOf(text, i) == 1 + |NewlinesBefore(text, i)|
  {
    if i > 0 {
      LineOfCounts(text, i - 1);
      var before := NewlinesBefore(text, i - 1);
      if text[i - 1] == '\n' {
        assert NewlinesBefore(text, i) == before + {i - 1};
      } else {
        assert NewlinesBefore(text, i) == before;
      }
    } else {
      assert NewlinesBefore(text, 0) == {};
    }
  }

  /** What starts at `i` has no end. */
  ghost predicate NeverEnds(text: string, i: nat, problem: Problem) {
    && i < |text|
    && (match problem
        case UnterminatedComment => At2(text, i, '/', '*')
        case UnterminatedRaw => OpensRaw(text, i)
        case UnterminatedString => text[i] == '"')
    && forall j: nat :: !Lexeme(text, i, j)
  }

  lemma StuckNeverEnds(text: string, i: nat)
    requires i < |text| && NextAt(text, i).Stuck?
    ensures NeverEnds(text, i, NextAt(text, i).problem)
  {
    OpensRawIsMatch(text, i);
    forall j: nat ensures !Lexeme(text, i, j) {
      LexemeIsNext(text, i, j);
    }
  }

  /** What a report claims about the text. */
  ghost predicate Describes(text: string, pieces: seq<Piece>, r: Report)
    requires |pieces| == |text| && Forward(pieces)
  {
    match r
    case Fine => Accepted(pieces)
    case Unterminated(problem) =>
      exists i: nat, seen: string ::
        i < |text| && Reaches(pieces, i, seen) && Run([], seen).Some? && NeverEnds(text, i, problem)
    case Unmatched(closer, line) =>
      exists i: nat, seen: string ::
        && i < |text| && Reaches(pieces, i, seen) && Run([], seen).Some?
        && pieces[i].bracket == [closer] && line == LineOf(text, i) && Run([], seen + [closer]).None?
    case Unclosed(opener, line) =>
      exists m: Mark ::
        && Marks(text, pieces, m, (opener, line)) && Lex(pieces, 0) == Some(m.before + ([opener] + m.after))
        && Run([], m.before).Some? && Balanced(m.after)
  }

  function Opens(stack: seq<(char, nat)>): (r: string)
    ensures |r| == |stack|
  {
    seq(|stack|, k requires 0 <= k < |stack| => stack[k].0)
  }

  lemma OpensPush(stack: seq<(char, nat)>, entry: (char, nat))
    ensures Opens(stack + [entry]) == Opens(stack) + [entry.0]
  {
  }

  lemma OpensPop(stack: seq<(char, nat)>)
    requires |stack| > 0
    ensures Opens(stack[..|stack| - 1]) == Opens(stack)[..|stack| - 1]
  {
  }

  /** Where an opening bracket is, and the plain brackets before and after it. */
  datatype Mark = Mark(at: nat, before: string, after: string)

  /** The scan reads this opening bracket at the mark, on this line. */
  ghost predicate Marks(text: string, pieces: seq<Piece>, m: Mark, entry: (char, nat))
    requires |pieces| == |text|
  {
    && m.at < |text| && Reaches(pieces, m.at, m.before)
    && pieces[m.at].bracket == [entry.0] && entry.1 == LineOf(text, m.at)
  }

  /** Entry k was read at the mark, and what followed it left exactly the entries above. */
  ghost predicate MarksEntry(text: string, pieces: seq<Piece>, stack: seq<(char, nat)>, seen: string, k: nat, m: Mark)
    requires |pieces| == |text| && k < |stack|
  {
    && Marks(text, pieces, m, stack[k])
    && seen == m.before + ([stack[k].0] + m.after)
    && Run([], m.after) == Some(Opens(stack[k + 1..]))
  }

  ghost predicate HasMark(text: string, pieces: seq<Piece>, stack: seq<(char, nat)>, seen: string, k: nat)
    requires |pieces| == |text| && k < |stack|
  {
    exists m: Mark :: MarksEntry(text, pieces, stack, seen, k, m)
  }

  /** Each stack entry is an opening bracket that is still open. */
  ghost predicate Located(text: string, pieces: seq<Piece>, stack: seq<(char, nat)>, seen: string)
    requires |pieces| == |text|
  {
    forall k :: 0 <= k < |stack| ==> HasMark(text, pieces, stack, seen, k)
  }

  /** Reading one more bracket keeps the marks of the entries that stay. */
  lemma KeepMark(text: string, pieces: seq<Piece>, stack: seq<(char, nat)>, seen: string, c: char,
                 stack': seq<(char, nat)>, k: nat)
    requires |pieces| == |text| && k < |stack| && k < |stack'| && HasMark(text, pieces, stack, seen, k)
    requires stack'[k] == stack[k] && Run(Opens(stack[k + 1..]), [c]) == Some(Opens(stack'[k + 1..]))
    ensures HasMark(text, pieces, stack', seen + [c], k)
  {
    var m: Mark :| MarksEntry(text, pieces, stack, seen, k, m);
    var m' := m.(after := m.after + [c]);
    RunOne(m.after, Opens(stack[k + 1..]), c);
    assert m.before + ([stack[k].0] + m'.after) == seen + [c];
    assert MarksEntry(text, pieces, stack', seen + [c], k, m');
  }

  lemma PushKeeps(text: string, pieces: seq<Piece>, stack: seq<(char, nat)>, seen: string, i: nat)
    requires |pieces| == |text| && i < |text| && Located(text, pieces, stack, seen)
    requires Reaches(pieces, i, seen) && pieces[i].bracket == [text[i]] && text[i] in "([{"
    ensures Located(text, pieces, stack + [(text[i], LineOf(text, i))], seen + [text[i]])
  {
    var c := text[i];
    var stack' := stack + [(c, LineOf(text, i))];
    forall k | 0 <= k < |stack'| ensures HasMark(text, pieces, stack', seen + [c], k) {
      if k < |stack| {
        assert stack'[k + 1..] == stack[k + 1..] + [stack'[|stack|]];
        OpensPush(stack[k + 1..], stack'[|stack|]);
        RunOpens(Opens(stack[k + 1..]), c);
        KeepMark(text, pieces, stack, seen, c, stack', k);
      } else {
        var m := Mark(i, seen, []);
        assert stack'[k + 1..] == [];
        assert m.before + ([c] + m.after) == seen + [c];
        assert MarksEntry(text, pieces, stack', seen + [c], k, m);
      }
    }
  }

  lemma PopKeeps(text: string, pieces: seq<Piece>, stack: seq<(char, nat)>, seen: string, c: char)
    requires |pieces| == |text| && Located(text, pieces, stack, seen)
    requires stack != [] && c !in "([{" && Closer(stack[|stack| - 1].0) == c
    ensures Located(text, pieces, stack[..|stack| - 1], seen + [c])
  {
    var stack' := stack[..|stack| - 1];
    forall k | 0 <= k < |stack'| ensures HasMark(text, pieces, stack', seen + [c], k) {
      var above := stack[k + 1..];
      assert stack'[k + 1..] == above[..|above| - 1];
      OpensPop(above);
      RunCloses(Opens(above), c);
      KeepMark(text, pieces, stack, seen, c, stack', k);
    }
  }

  /** What is still open at the end is followed by a balanced word only. */
  lemma TopIsUnclosed(text: string, pieces: seq<Piece>, stack: seq<(char, nat)>, seen: string)
    requires |pieces| == |text| && Forward(pieces) && Located(text, pieces, stack, seen) && stack != []
    requires Lex(pieces, 0) == Some(seen) && Run([], seen).Some?
    ensures Describes(text, pieces, Unclosed(stack[|stack| - 1].0, stack[|stack| - 1].1))
  {
    var k := |stack| - 1;
    assert HasMark(text, pieces, stack, seen, k);
    var m: Mark :| MarksEntry(text, pieces, stack, seen, k, m);
    assert Opens(stack[k + 1..]) == [];
    BalancedIsRun(m.after);
    RunConcat([], m.before, [stack[k].0] + m.after);
  }

  method SkipComment(text: string, start: nat) returns (end: Option<nat>)
    requires start <= |text|
    ensures end == CommentEnd(text, start, 1)
  {
    var i, depth := start, 1;
    while i < |text| && depth > 0
      invariant i <= |text|
      invariant CommentEnd(text, i, depth) == CommentEnd(text, start, 1)
    {
      if At2(text, i, '/', '*') {
        i, depth := i + 2, depth + 1;
      } else if At2(text, i, '*', '/') {
        i, depth := i + 2, depth - 1;
      } else {
        i := i + 1;
      }
    }
    end := if depth > 0 then None else Some(i);
  }

  method SkipString(text: string, start: nat) returns (end: Option<nat>)
    ensures end == StringEnd(text, start)
  {
    var i := start;
    while i < |text|
      invariant StringEnd(text, i) == StringEnd(text, start)
    {
      if text[i] == '\\' {
        i := i + 2;
      } else if text[i] == '"' {
        return Some(i + 1);
      } else {
        i := i + 1;
      }
    }
    end := None;
  }

  method Look(text: string, i: nat, ghost pieces: seq<Piece>) returns (next: Next)
    requires i < |text| && Scanned(text, pieces)
    ensures pieces[i] == PieceOf(i, text[i], next)
    ensures next.Stuck? ==> NeverEnds(text, i, next.problem)
  {
    assert AskedAt(i);
    next := Recognise(text, i);
    if next.Stuck? {
      StuckNeverEnds(text, i);
    }
  }

  /** What the scanner finds at `i`, with the source's two inner loops. */
  method Recognise(text: string, i: nat) returns (next: Next)
    requires i < |text|
    ensures next == NextAt(text, i)
  {
    if At2(text, i, '/', '/') {
      return Skip(LineEnd(text, i));
    }
    if At2(text, i, '/', '*') {
      var end := SkipComment(text, i + 2);
      return if end.None? then Stuck(UnterminatedComment) else Skip(end.value);
    }
    var raw := RawOpening(text, i);
    if raw.Some? {
      var end := FindMarker(text, raw.value.1, raw.value.0);
      return if end.None? then Stuck(UnterminatedRaw) else Skip(end.value + 1 + raw.value.0);
    }
    if text[i] == '"' {
      var end := SkipString(text, i + 1);
      return if end.None? then Stuck(UnterminatedString) else Skip(end.value);
    }
    var end := CharacterEnd(text, i);
    next := if end.Some? then Skip(end.value) else Plain;
  }

  /** One bracket on the stack; None if it closes nothing. */
  method OnBracket(text: string, stack: seq<(char, nat)>, i: nat, ghost pieces: seq<Piece>, ghost seen: string)
    returns (r: Option<seq<(char, nat)>>)
    requires |pieces| == |text| && i < |text| && IsBracket(text[i]) && pieces[i].bracket == [text[i]]
    requires Reaches(pieces, i, seen) && Located(text, pieces, stack, seen) && Run([], seen) == Some(Opens(stack))
    ensures r.Some? ==> Located(text, pieces, r.value, seen + [text[i]])
    ensures Run([], seen + [text[i]]) == if r.Some? then Some(Opens(r.value)) else None
  {
    var value := text[i];
    RunOne(seen, Opens(stack), value);
    if value in "([{" {
      r := Some(stack + [(value, LineOf(text, i))]);
      PushKeeps(text, pieces, stack, seen, i);
      RunOpens(Opens(stack), value);
      OpensPush(stack, (value, LineOf(text, i)));
    } else {
      RunCloses(Opens(stack), value);
      if |stack| == 0 || Closer(stack[|stack| - 1].0) != value {
        r := None;
      } else {
        r := Some(stack[..|stack| - 1]);
        PopKeeps(text, pieces, stack, seen, value);
        OpensPop(stack);
      }
    }
  }

  /** The main loop. */
  method Scan(text: string, ghost pieces: seq<Piece>) returns (r: Report)
    requires Scanned(text, pieces)
    ensures r.Fine? <==> Accepted(pieces)
    ensures Describes(text, pieces, r)
  {
    var stack: seq<(char, nat)> := [];
    ghost var seen: string := [];
    var i := 0;
    while i < |text|
      invariant i <= |text|
      invariant Reaches(pieces, i, seen)
      invariant Run([], seen) == Some(Opens(stack))
      invariant Located(text, pieces, stack, seen)
    {
      var next := Look(text, i, pieces);
      if next.Stuck? {
        ReachesLex(pieces, i, seen);
        return Unterminated(next.problem);
      }
      ReachNext(pieces, i, seen);
      if next.Plain? && IsBracket(text[i]) {
        var pushed := OnBracket(text, stack, i, pieces, seen);
        if pushed.None? {
          MismatchRejects(pieces, i, seen, text[i]);
          return Unmatched(text[i], LineOf(text, i));
        }
        stack, seen := pushed.value, seen + [text[i]];
      } else {
        assert seen + [] == seen;
      }
      i := if next.Plain? then i + 1 else next.end;
    }
    EndDecides(pieces, seen);
    if stack == [] {
      r := Fine;
    } else {
      var top := stack[|stack| - 1];
      TopIsUnclosed(text, pieces, stack, seen);
      r := Unclosed(top.0, top.1);
    }
  }

  method RustDelimiters(text: string) returns (r: Report)
    ensures r.Fine? <==> WellDelimited(text)
    ensures Describes(text, Pieces(text), r)
  {
    WellDelimitedIsAccepted(text, Pieces(text));
    r := Scan(text, Pieces(text));
  }
}
