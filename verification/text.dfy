/**
 * String comparisons the document store performs for the tutor search: ordering of
 * "HH:MM" time strings (strings compare by character code, position by position),
 * and the case-insensitive substring test of a regular expression with the `i` flag
 * whose pattern contains no metacharacters.
 */
module Text {

  /** a <= b in lexicographic character-code order. */
  predicate StrLe(a: string, b: string)
  {
    if |a| == 0 then true
    else if |b| == 0 then false
    else if a[0] != b[0] then a[0] < b[0]
    else StrLe(a[1..], b[1..])
  }

  /** Lexicographic order is transitive. */
  lemma {:induction false} StrLeTransitive(a: string, b: string, c: string)
    requires StrLe(a, b) && StrLe(b, c)
    ensures StrLe(a, c)
  {
    if |a| > 0 && |b| > 0 && |c| > 0 && a[0] == b[0] && b[0] == c[0] {
      StrLeTransitive(a[1..], b[1..], c[1..]);
    }
  }

  function Lower(c: char): char
  {
    if 'A' <= c <= 'Z' then (c as int + 32) as char else c
  }

  function LowerAll(s: string): (r: string)
    ensures |r| == |s|
    ensures forall i | 0 <= i < |s| :: r[i] == Lower(s[i])
  {
    if |s| == 0 then "" else [Lower(s[0])] + LowerAll(s[1..])
  }

  /** The window of text starting at i equals pattern when both are folded to lower case. */
  predicate MatchesAt(text: string, pattern: string, i: nat)
  {
    i + |pattern| <= |text| && LowerAll(text[i..i + |pattern|]) == LowerAll(pattern)
  }

  predicate ContainsIgnoreCase(text: string, pattern: string)
  {
    exists i: nat | i <= |text| :: MatchesAt(text, pattern, i)
  }

  /**
   * The characters JavaScript's String.prototype.trim strips: the white space and line
   * terminators of section 12.2 and 12.3 of ECMA-262, that is tab, vertical tab, form
   * feed, the byte order mark, every space separator (Unicode category Zs), line feed,
   * carriage return and the line and paragraph separators.
   */
  predicate TrimmedAway(c: char)
  {
    || c == '\U{0009}' || c == '\U{000A}' || c == '\U{000B}' || c == '\U{000C}' || c == '\U{000D}'
    || c == '\U{0020}' || c == '\U{00A0}' || c == '\U{1680}'
    || ('\U{2000}' <= c <= '\U{200A}')
    || c == '\U{2028}' || c == '\U{2029}' || c == '\U{202F}' || c == '\U{205F}' || c == '\U{3000}'
    || c == '\U{FEFF}'
  }

  /** Nothing is left once trimmed: what a trimmed `required` string field rejects. */
  predicate Blank(s: string)
  {
    forall i | 0 <= i < |s| :: TrimmedAway(s[i])
  }

  /**
   * A vertical tab, a no-break space and a line separator are trimmed away like a plain
   * space; a comment with any other character left after trimming is not blank.
   */
  lemma BlankExamples()
    ensures Blank("")
    ensures Blank(" \U{000B}\U{00A0}\U{2028}\U{FEFF}\t")
    ensures !Blank(" ok ")
    ensures !Blank("\U{0085}")
  {
    assert " ok "[1] == 'o';
    assert "\U{0085}"[0] == '\U{0085}';
  }
}
