/** Words, case folding and white space in SQL text, as JavaScript's string functions see them. */
module SqlText {
  import opened Wrappers

  /** `\w`. */
  predicate IsWord(c: char) {
    'a' <= c <= 'z' || 'A' <= c <= 'Z' || '0' <= c <= '9' || c == '_'
  }

  /** What `trim` removes. */
  predicate IsSpace(c: char) {
    || '\U{0009}' <= c <= '\U{000D}' || c == ' ' || c == '\U{00A0}' || c == '\U{1680}'
    || '\U{2000}' <= c <= '\U{200A}' || c == '\U{2028}' || c == '\U{2029}' || c == '\U{202F}'
    || c == '\U{205F}' || c == '\U{3000}' || c == '\U{FEFF}'
  }

  function Up(c: char): char {
    if 'a' <= c <= 'z' then (c as int - 'a' as int + 'A' as int) as char else c
  }

  function Upper(s: string): (r: string)
    ensures |r| == |s|
  {
    seq(|s|, i requires 0 <= i < |s| => Up(s[i]))
  }

  /** Equal under the `i` flag. */
  predicate SameFolded(a: string, b: string) {
    Upper(a) == Upper(b)
  }

  function TrimStart(s: string): string {
    if s != "" && IsSpace(s[0]) then TrimStart(s[1..]) else s
  }

  function TrimEnd(s: string): string {
    if s != "" && IsSpace(s[|s| - 1]) then TrimEnd(s[..|s| - 1]) else s
  }

  function Trim(s: string): string {
    TrimEnd(TrimStart(s))
  }

  predicate FoldedAt(s: string, word: string, i: nat) {
    i + |word| <= |s| && SameFolded(s[i..i + |word|], word)
  }

  /** `toLowerCase().includes(word)` for an ASCII word. */
  predicate Includes(s: string, word: string) {
    exists i :: 0 <= i <= |s| && FoldedAt(s, word, i)
  }

  /** `\bword\b` with the `i` flag matches at `i`; the word starts and ends with word characters. */
  predicate MatchAt(s: string, word: string, i: nat) {
    && FoldedAt(s, word, i)
    && (i == 0 || !IsWord(s[i - 1]))
    && (i + |word| == |s| || !IsWord(s[i + |word|]))
  }

  predicate MatchAnyAt(s: string, words: seq<string>, i: nat) {
    exists w :: w in words && MatchAt(s, w, i)
  }

  /** The first match of any of the words at or after `i`. */
  function FirstMatch(s: string, words: seq<string>, i: nat): (r: Option<nat>)
    requires i <= |s|
    ensures r.Some? ==> i <= r.value < |s| && MatchAnyAt(s, words, r.value)
    ensures forall k :: i <= k < (if r.Some? then r.value else |s|) ==> !MatchAnyAt(s, words, k)
    decreases |s| - i
  {
    if i == |s| then None
    else if MatchAnyAt(s, words, i) then Some(i)
    else FirstMatch(s, words, i + 1)
  }

  lemma OneWord(s: string, word: string)
    ensures forall k :: MatchAnyAt(s, [word], k) <==> MatchAt(s, word, k)
  {
    assert word in [word];
  }

  lemma FirstFolded(s: string, word: string, i: nat)
    requires FoldedAt(s, word, i) && word != ""
    ensures Up(s[i]) == Up(word[0])
  {
    assert Upper(s[i..i + |word|])[0] == Upper(word)[0];
  }
}
