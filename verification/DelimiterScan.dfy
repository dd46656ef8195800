/** The scanner's searches as functions, each equal to its lexeme's shape. */
module DelimiterScan {
  import opened Bytes
  import opened Delimiters

  /** `text.find("\n", i)` and the position after it, or the end of the text. */
  function LineEnd(text: string, k: nat): (j: nat)
    requires k <= |text|
    ensures k <= j <= |text|
    ensures forall m :: k <= m < j - 1 ==> text[m] != '\n'
    ensures j == |text| || (k < j && text[j - 1] == '\n')
    decreases |text| - k
  {
    if k == |text| then k else if text[k] == '\n' then k + 1 else LineEnd(text, k + 1)
  }

  /** The nested-comment loop: where `depth` open comments are all closed. */
  function CommentEnd(text: string, k: nat, depth: nat): (r: Option<nat>)
    ensures r.Some? && k <= |text| ==> k <= r.value <= |text|
    decreases |text| - k
  {
    if depth == 0 then Some(k)
    else if k >= |text| then None
    else if At2(text, k, '/', '*') then CommentEnd(text, k + 2, depth + 1)
    else if At2(text, k, '*', '/') then CommentEnd(text, k + 2, depth - 1)
    else CommentEnd(text, k + 1, depth)
  }

  /** The string loop: the position after the closing quote. */
  function StringEnd(text: string, k: nat): (r: Option<nat>)
    ensures r.Some? ==> k < r.value <= |text|
    decreases |text| - k
  {
    if k >= |text| then None
    else if text[k] == '\\' then StringEnd(text, k + 2)
    else if text[k] == '"' then Some(k + 1)
    else StringEnd(text, k + 1)
  }

  function CountHashes(text: string, k: nat): (h: nat)
    ensures k <= |text| ==> k + h <= |text|
    ensures forall m :: k <= m < k + h && m < |text| ==> text[m] == '#'
    ensures k + h < |text| ==> text[k + h] != '#'
    decreases |text| - k
  {
    if k < |text| && text[k] == '#' then 1 + CountHashes(text, k + 1) else 0
  }

  /** The raw-string regex at `i`: hash count and start of the contents. */
  function RawOpening(text: string, i: nat): (r: Option<(nat, nat)>)
    ensures r.Some? ==> IsRawOpening(text, i, r.value.0, r.value.1)
  {
    var start :=
      if At2(text, i, 'b', 'r') then i + 2
      else if i < |text| && text[i] == 'r' then i + 1 else |text|;
    var h := CountHashes(text, start);
    if start + h < |text| && text[start + h] == '"' then Some((h, start + h + 1)) else None
  }

  /** `text.find('"' + '#' * h, k)` */
  function FindMarker(text: string, k: nat, h: nat): (r: Option<nat>)
    ensures r.Some? ==> IsFirstMarker(text, k, r.value, h)
    ensures r.None? ==> forall e: nat :: k <= e ==> !IsMarker(text, e, h)
    decreases |text| - k
  {
    if k >= |text| then None else if IsMarker(text, k, h) then Some(k) else FindMarker(text, k + 1, h)
  }

  function CountHex(text: string, k: nat): (n: nat)
    ensures k <= |text| ==> k + n <= |text|
    ensures forall m :: k <= m < k + n && m < |text| ==> IsHex(text[m]) || text[m] == '_'
    ensures k + n < |text| ==> !IsHex(text[k + n]) && text[k + n] != '_'
    decreases |text| - k
  {
    if k < |text| && (IsHex(text[k]) || text[k] == '_') then 1 + CountHex(text, k + 1) else 0
  }

  /** The character-literal regex at `i`. */
  function CharacterEnd(text: string, i: nat): (r: Option<nat>)
    ensures r.Some? ==> IsCharacter(text, i, r.value)
  {
    if i + 2 >= |text| || text[i] != '\'' then None
    else if text[i + 1] != '\\' then
      if text[i + 1] != '\'' && text[i + 1] != '\n' && text[i + 2] == '\'' then Some(i + 3) else None
    else
      var digits := CountHex(text, i + 4);
      if text[i + 2] == 'u' && i + 3 < |text| && text[i + 3] == '{' && digits > 0 && At2(text, i + 4 + digits, '}', '\'')
      then Some(i + 6 + digits)
      else if text[i + 2] == 'x' && i + 5 < |text| && IsHex(text[i + 3]) && IsHex(text[i + 4]) && text[i + 5] == '\''
      then Some(i + 6)
      else if text[i + 2] != '\n' && i + 3 < |text| && text[i + 3] == '\'' then Some(i + 4)
      else None
  }

  lemma RawOpeningIsMatch(text: string, i: nat, h: nat, b: nat)
    requires IsRawOpening(text, i, h, b)
    ensures RawOpening(text, i) == Some((h, b))
  {
    HashesUpTo(text, b - 1 - h, h);
  }

  lemma {:induction false} HashesUpTo(text: string, k: nat, h: nat)
    requires k + h < |text| && text[k + h] != '#'
    requires forall m :: k <= m < k + h ==> text[m] == '#'
    ensures CountHashes(text, k) == h
    decreases h
  {
    if h > 0 {
      HashesUpTo(text, k + 1, h - 1);
    }
  }

  lemma {:induction false} HexUpTo(text: string, k: nat, n: nat)
    requires k + n < |text| && !IsHex(text[k + n]) && text[k + n] != '_'
    requires forall m :: k <= m < k + n ==> IsHex(text[m]) || text[m] == '_'
    ensures CountHex(text, k) == n
    decreases n
  {
    if n > 0 {
      HexUpTo(text, k + 1, n - 1);
    }
  }

  lemma CharacterIsMatch(text: string, i: nat, j: nat)
    requires IsCharacter(text, i, j)
    ensures CharacterEnd(text, i) == Some(j)
  {
    if j >= i + 7 && text[i + 1] == '\\' && text[i + 2] == 'u' && text[i + 3] == '{' {
      HexUpTo(text, i + 4, j - 6 - i);
    }
  }

  // ----- nested comments

  /** A comment body is skipped without changing the depth. */
  lemma {:induction false} BodyKeepsDepth(text: string, i: nat, j: nat, depth: nat)
    requires i <= j <= |text| && CommentBody(text, i, j) && depth > 0
    ensures CommentEnd(text, i, depth) == CommentEnd(text, j, depth)
    decreases j - i
  {
    if i < j {
      if At2(text, i, '/', '*') {
        var k :| i + 2 <= k <= j - 2 && CommentBody(text, i + 2, k) && At2(text, k, '*', '/')
                 && CommentBody(text, k + 2, j);
        BodyKeepsDepth(text, i + 2, k, depth + 1);
        BodyKeepsDepth(text, k + 2, j, depth);
      } else {
        BodyKeepsDepth(text, i + 1, j, depth);
      }
    }
  }

  /** Closing `depth` comments first closes the innermost, after a comment body. */
  lemma {:induction false} ClosesInnermost(text: string, k: nat, depth: nat) returns (m: nat)
    requires depth > 0 && k <= |text| && CommentEnd(text, k, depth).Some?
    ensures k <= m <= |text| - 2 && CommentBody(text, k, m) && At2(text, m, '*', '/')
    ensures CommentEnd(text, m + 2, depth - 1) == CommentEnd(text, k, depth)
    decreases |text| - k
  {
    if At2(text, k, '/', '*') {
      var inner := ClosesInnermost(text, k + 2, depth + 1);
      m := ClosesInnermost(text, inner + 2, depth);
    } else if At2(text, k, '*', '/') {
      m := k;
    } else {
      m := ClosesInnermost(text, k + 1, depth);
    }
  }

  lemma BlockCommentIsEnd(text: string, i: nat, j: nat)
    requires At2(text, i, '/', '*')
    ensures IsBlockComment(text, i, j) <==> CommentEnd(text, i + 2, 1) == Some(j)
  {
    if IsBlockComment(text, i, j) {
      BodyKeepsDepth(text, i + 2, j - 2, 1);
    }
    if CommentEnd(text, i + 2, 1) == Some(j) {
      var m := ClosesInnermost(text, i + 2, 1);
    }
  }

  // ----- strings

  lemma {:induction false} StringIsEnd(text: string, k: nat, j: nat)
    requires k <= |text|
    ensures (k < j <= |text| && StringBody(text, k, j - 1) && text[j - 1] == '"') <==> StringEnd(text, k) == Some(j)
    decreases |text| - k
  {
    if k < |text| && text[k] != '"' {
      if text[k] == '\\' {
        if k + 2 <= |text| {
          StringIsEnd(text, k + 2, j);
        }
      } else {
        StringIsEnd(text, k + 1, j);
      }
    }
  }

  // ----- one lexeme

  datatype Next = Stuck(problem: Problem) | Skip(end: nat) | Plain

  datatype Problem = UnterminatedComment | UnterminatedRaw | UnterminatedString

  /** What the scanner finds at `i`: a lexeme to skip, a plain character, or no end. */
  function NextAt(text: string, i: nat): Next
    requires i < |text|
  {
    if At2(text, i, '/', '/') then Skip(LineEnd(text, i))
    else if At2(text, i, '/', '*') then
      (match CommentEnd(text, i + 2, 1) case Some(j) => Skip(j) case None => Stuck(UnterminatedComment))
    else match RawOpening(text, i)
      case Some((h, b)) =>
        (match FindMarker(text, b, h) case Some(e) => Skip(e + 1 + h) case None => Stuck(UnterminatedRaw))
      case None =>
        if text[i] == '"' then
          (match StringEnd(text, i + 1) case Some(j) => Skip(j) case None => Stuck(UnterminatedString))
        else match CharacterEnd(text, i)
          case Some(j) => Skip(j)
          case None => Plain
  }

  lemma LineCommentIsEnd(text: string, i: nat, j: nat)
    requires At2(text, i, '/', '/')
    ensures IsLineComment(text, i, j) <==> j == LineEnd(text, i)
  {
    if IsLineComment(text, i, j) {
      LineUpTo(text, i, j);
    }
  }

  lemma {:induction false} LineUpTo(text: string, k: nat, j: nat)
    requires k < j <= |text| && (text[j - 1] == '\n' || j == |text|)
    requires forall m :: k <= m < j - 1 ==> text[m] != '\n'
    ensures LineEnd(text, k) == j
    decreases j - k
  {
    if k < j - 1 {
      LineUpTo(text, k + 1, j);
    }
  }

  lemma OpensRawIsMatch(text: string, i: nat)
    ensures OpensRaw(text, i) <==> RawOpening(text, i).Some?
  {
    if OpensRaw(text, i) {
      var h: nat, b: nat :| IsRawOpening(text, i, h, b);
      RawOpeningIsMatch(text, i, h, b);
    }
  }

  lemma RawStringIsEnd(text: string, i: nat, h: nat, b: nat, j: nat)
    requires RawOpening(text, i) == Some((h, b))
    ensures IsRawString(text, i, j) <==> FindMarker(text, b, h) == Some(j - 1 - h) && j > h
  {
    if IsRawString(text, i, j) {
      var h': nat, b': nat :|
        IsRawOpening(text, i, h', b') && b' + h' < j && IsFirstMarker(text, b', j - 1 - h', h');
      RawOpeningIsMatch(text, i, h', b');
    }
  }

  lemma IsPlainIsMatch(text: string, i: nat)
    requires i < |text|
    ensures IsPlain(text, i) <==> NextAt(text, i).Plain?
    ensures (exists j: nat :: IsCharacter(text, i, j)) <==> CharacterEnd(text, i).Some?
  {
    OpensRawIsMatch(text, i);
    forall j: nat | IsCharacter(text, i, j) ensures CharacterEnd(text, i) == Some(j) {
      CharacterIsMatch(text, i, j);
    }
  }

  /** The scanner finds a lexeme exactly where the grammar has one. */
  lemma LexemeIsNext(text: string, i: nat, j: nat)
    requires i < |text|
    ensures Lexeme(text, i, j) <==> NextAt(text, i) == Skip(j) || (NextAt(text, i).Plain? && j == i + 1)
  {
    if At2(text, i, '/', '/') {
      LineCommentIsEnd(text, i, j);
    } else if At2(text, i, '/', '*') {
      BlockCommentIsEnd(text, i, j);
    } else {
      OpensRawIsMatch(text, i);
      match RawOpening(text, i)
      case Some((h, b)) => RawStringIsEnd(text, i, h, b, j);
      case None =>
        if text[i] == '"' {
          StringIsEnd(text, i + 1, j);
        } else {
          IsPlainIsMatch(text, i);
          if IsCharacter(text, i, j) {
            CharacterIsMatch(text, i, j);
          }
        }
    }
  }
}
