/**
 * Whole-line matching: FileSearchApp.searchText and the declarative search of
 * searchFile8 (`Files.lines(...).anyMatch(searchText)`).
 *
 * The regex engine is not part of this model. It is a parameter,
 * `fullMatch(regex, line)`, true when the pattern compiled from `regex`
 * matches the WHOLE of `line` (Matcher.matches), not some substring of it.
 */
module LineMatching {
  import opened Wrappers

  /** The regex engine's full-match test: pattern source, then the line. */
  type FullMatch = (string, string) -> bool

  /** searchText: every line is accepted when no regex is set (regex == null). */
  function SearchText(fullMatch: FullMatch, regex: Option<string>, text: string): (accepted: bool)
    ensures regex.None? ==> accepted
    ensures regex.Some? ==> (accepted <==> fullMatch(regex.value, text))
  {
    regex.None? || fullMatch(regex.value, text)
  }

  /** anyMatch over the file's lines, in order, stopping at the first accepted one. */
  function AnyMatch(fullMatch: FullMatch, regex: Option<string>, lines: seq<string>): (b: bool)
    ensures b <==> exists i :: 0 <= i < |lines| && SearchText(fullMatch, regex, lines[i])
  {
    if lines == [] then false
    else SearchText(fullMatch, regex, lines[0]) || AnyMatch(fullMatch, regex, lines[1..])
  }

  /** Line k is the first line searchText accepts. */
  predicate IsFirstMatch(fullMatch: FullMatch, regex: Option<string>, lines: seq<string>, k: int)
  {
    0 <= k < |lines| && SearchText(fullMatch, regex, lines[k]) &&
    forall j :: 0 <= j < k ==> !SearchText(fullMatch, regex, lines[j])
  }

  /**
   * Without a regex a file is selected exactly when it has at least one line;
   * with one, exactly when some whole line fully matches it.
   */
  lemma AnyMatchMeaning(fullMatch: FullMatch, regex: Option<string>, lines: seq<string>)
    ensures regex.None? ==> (AnyMatch(fullMatch, regex, lines) <==> |lines| > 0)
    ensures regex.Some? ==>
      (AnyMatch(fullMatch, regex, lines) <==> exists line :: line in lines && fullMatch(regex.value, line))
  {
  }

  /** A file with zero lines is never selected, with or without a regex. */
  lemma EmptyFileNeverMatches(fullMatch: FullMatch, regex: Option<string>)
    ensures !AnyMatch(fullMatch, regex, [])
  {
  }

  /** When some line is accepted, there is exactly one first accepted line. */
  lemma {:induction false} FirstMatchExists(fullMatch: FullMatch, regex: Option<string>, lines: seq<string>)
    requires AnyMatch(fullMatch, regex, lines)
    ensures exists k :: IsFirstMatch(fullMatch, regex, lines, k)
    ensures forall k, k' :: IsFirstMatch(fullMatch, regex, lines, k) && IsFirstMatch(fullMatch, regex, lines, k') ==> k == k'
  {
    if SearchText(fullMatch, regex, lines[0]) {
      assert IsFirstMatch(fullMatch, regex, lines, 0);
    } else {
      FirstMatchExists(fullMatch, regex, lines[1..]);
      var k :| IsFirstMatch(fullMatch, regex, lines[1..], k);
      assert IsFirstMatch(fullMatch, regex, lines, k + 1);
    }
  }
}
