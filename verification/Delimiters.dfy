/** The grammar behind the delimiter checker of scripts/check_package.py: what each lexeme
    is, stated by its shape and not by scanning, and which bracket words are balanced. */
module Delimiters {

  predicate At2(text: string, i: nat, c: char, d: char) {
    i + 1 < |text| && text[i] == c && text[i + 1] == d
  }

  // ----- lexemes, by shape: text[i..j] is one lexeme of each kind

  predicate IsLineComment(text: string, i: nat, j: nat) {
    && At2(text, i, '/', '/')
    && i < j <= |text|
    && (forall k :: i <= k < j - 1 ==> text[k] != '\n')
    && (text[j - 1] == '\n' || j == |text|)
  }

  /** text[i..j] is the inside of a block comment: plain characters and whole nested comments. */
  ghost predicate CommentBody(text: string, i: nat, j: nat)
    requires i <= j <= |text|
    decreases j - i
  {
    || i == j
    || (&& At2(text, i, '/', '*')
        && exists k :: i + 2 <= k <= j - 2 && CommentBody(text, i + 2, k) && At2(text, k, '*', '/')
                       && CommentBody(text, k + 2, j))
    || (!At2(text, i, '/', '*') && !At2(text, i, '*', '/') && CommentBody(text, i + 1, j))
  }

  ghost predicate IsBlockComment(text: string, i: nat, j: nat) {
    && At2(text, i, '/', '*')
    && i + 4 <= j <= |text|
    && CommentBody(text, i + 2, j - 2)
    && At2(text, j - 2, '*', '/')
  }

  /** `r` or `br`, then `h` hashes, then a quote ending just before `b`. */
  predicate IsRawOpening(text: string, i: nat, h: nat, b: nat) {
    && (|| (i < |text| && text[i] == 'r' && b == i + 2 + h)
        || (At2(text, i, 'b', 'r') && b == i + 3 + h))
    && b <= |text| && text[b - 1] == '"'
    && forall k :: b - 1 - h <= k < b - 1 ==> text[k] == '#'
  }

  /** A quote and `h` hashes at `e`. */
  predicate IsMarker(text: string, e: nat, h: nat) {
    e + h < |text| && text[e] == '"' && forall k :: e < k <= e + h ==> text[k] == '#'
  }

  /** The closing marker, written out. */
  lemma MarkerIs(text: string, e: nat, h: nat)
    ensures IsMarker(text, e, h) <==> e + h < |text| && text[e..e + h + 1] == ['"'] + seq(h, _ => '#')
  {
    if e + h < |text| {
      var marker := text[e..e + h + 1];
      assert marker[0] == text[e] && forall k :: e < k <= e + h ==> text[k] == marker[k - e];
      if IsMarker(text, e, h) {
        assert marker == ['"'] + seq(h, _ => '#');
      }
    }
  }

  predicate IsFirstMarker(text: string, b: nat, e: nat, h: nat) {
    b <= e && IsMarker(text, e, h) && forall k: nat :: b <= k < e ==> !IsMarker(text, k, h)
  }

  ghost predicate IsRawString(text: string, i: nat, j: nat) {
    exists h: nat, b: nat ::
      IsRawOpening(text, i, h, b) && b + h < j && IsFirstMarker(text, b, j - 1 - h, h)
  }

  /** text[i..j] is escape pairs and characters other than quote and backslash. */
  predicate StringBody(text: string, i: nat, j: nat)
    requires i <= j <= |text|
    decreases j - i
  {
    || i == j
    || (text[i] == '\\' && i + 2 <= j && StringBody(text, i + 2, j))
    || (text[i] != '\\' && text[i] != '"' && StringBody(text, i + 1, j))
  }

  predicate IsString(text: string, i: nat, j: nat) {
    i + 2 <= j <= |text| && text[i] == '"' && StringBody(text, i + 1, j - 1) && text[j - 1] == '"'
  }

  predicate IsHex(c: char) {
    '0' <= c <= '9' || 'A' <= c <= 'F' || 'a' <= c <= 'f'
  }

  /** Quoted: one character, one escaped character, a two-digit hex escape or a Unicode escape. */
  predicate IsCharacter(text: string, i: nat, j: nat) {
    && i + 3 <= j <= |text| && text[i] == '\'' && text[j - 1] == '\''
    && (|| (j == i + 3 && text[i + 1] != '\'' && text[i + 1] != '\\' && text[i + 1] != '\n')
        || (j == i + 4 && text[i + 1] == '\\' && text[i + 2] != '\n')
        || (j == i + 6 && text[i + 1] == '\\' && text[i + 2] == 'x' && IsHex(text[i + 3]) && IsHex(text[i + 4]))
        || (&& j >= i + 7 && text[i + 1] == '\\' && text[i + 2] == 'u' && text[i + 3] == '{' && text[j - 2] == '}'
            && forall k :: i + 4 <= k < j - 2 ==> IsHex(text[k]) || text[k] == '_'))
  }

  ghost predicate OpensRaw(text: string, i: nat) {
    exists h: nat, b: nat :: IsRawOpening(text, i, h, b)
  }

  ghost predicate IsPlain(text: string, i: nat) {
    && i < |text| && text[i] != '"'
    && !At2(text, i, '/', '/') && !At2(text, i, '/', '*') && !OpensRaw(text, i)
    && forall j: nat :: !IsCharacter(text, i, j)
  }

  ghost predicate Lexeme(text: string, i: nat, j: nat) {
    if At2(text, i, '/', '/') then IsLineComment(text, i, j)
    else if At2(text, i, '/', '*') then IsBlockComment(text, i, j)
    else if OpensRaw(text, i) then IsRawString(text, i, j)
    else if i < |text| && text[i] == '"' then IsString(text, i, j)
    else IsCharacter(text, i, j) || (IsPlain(text, i) && j == i + 1)
  }

  predicate IsBracket(c: char) {
    c in "([{" || c in ")]}"
  }

  /** text[i..] is a sequence of lexemes whose plain brackets are `brackets`. */
  ghost predicate Lexes(text: string, i: nat, brackets: string)
    requires i <= |text|
    decreases |text| - i
  {
    if i == |text| then brackets == []
    else exists j :: i < j <= |text| && Lexeme(text, i, j) && Continues(text, i, j, brackets)
  }

  ghost predicate Continues(text: string, i: nat, j: nat, brackets: string)
    requires i < j <= |text|
    decreases |text| - i, 0
  {
    if IsPlain(text, i) && IsBracket(text[i])
    then brackets != [] && brackets[0] == text[i] && Lexes(text, j, brackets[1..])
    else Lexes(text, j, brackets)
  }

  /** The character classes, written out. */
  lemma ClassesAre(c: char)
    ensures IsHex(c) <==> c in "0123456789abcdefABCDEF"
    ensures IsBracket(c) <==> c in "()[]{}"
  {
  }

  // ----- the balanced-bracket grammar: W -> empty | ( W ) W | [ W ] W | { W } W

  datatype Word = Empty | Wrap(open: char, inner: Word, close: char, rest: Word)

  predicate IsPair(open: char, close: char) {
    (open == '(' && close == ')') || (open == '[' && close == ']') || (open == '{' && close == '}')
  }

  function Yield(w: Word): string {
    match w
    case Empty => []
    case Wrap(open, inner, close, rest) => [open] + Yield(inner) + [close] + Yield(rest)
  }

  predicate Legal(w: Word) {
    match w
    case Empty => true
    case Wrap(open, inner, close, rest) => IsPair(open, close) && Legal(inner) && Legal(rest)
  }

  ghost predicate Balanced(brackets: string) {
    exists w: Word :: Legal(w) && Yield(w) == brackets
  }
}
