/**
 * AudioScribe's `CenteredLevelFormatter.format`: in an already formatted
 * log line, the level word of the leftmost `- <word> -` is replaced by the
 * word centred to eight columns (`str.center(8)`).
 */
module LogFormat {
  import opened Wrappers
  import opened Text

  /** The regular-expression class `\w`, restricted to ASCII. */
  predicate IsWordChar(c: char) {
    'a' <= c <= 'z' || 'A' <= c <= 'Z' || '0' <= c <= '9' || c == '_'
  }

  /** The end of the run of word characters that starts at `i`. */
  function WordEnd(s: string, i: nat): (j: nat)
    requires i <= |s|
    ensures i <= j <= |s|
    ensures forall k :: i <= k < j ==> IsWordChar(s[k])
    ensures j < |s| ==> !IsWordChar(s[j])
    decreases |s| - i
  {
    if i == |s| || !IsWordChar(s[i]) then i else WordEnd(s, i + 1)
  }

  /**
   * `(- )(\w+)( -)` matches at `i`. Backtracking cannot shorten the greedy
   * `\w+`, because the character after a shorter run is a word character
   * and not the space the third group needs; so the word is the whole run.
   */
  predicate MatchAt(s: string, i: nat) {
    && i + 2 <= |s| && s[i] == '-' && s[i + 1] == ' '
    && var j := WordEnd(s, i + 2);
    j > i + 2 && j + 2 <= |s| && s[j] == ' ' && s[j + 1] == '-'
  }

  /** `re.search`: the leftmost match position at or after `from`. */
  function Search(s: string, from: nat): (r: Option<nat>)
    requires from <= |s|
    ensures r.Some? ==> from <= r.value < |s| && MatchAt(s, r.value)
    ensures forall i :: from <= i < |s| && (r.None? || i < r.value) ==> !MatchAt(s, i)
    decreases |s| - from
  {
    if from == |s| then None
    else if MatchAt(s, from) then Some(from)
    else Search(s, from + 1)
  }

  /**
   * CPython's `str.center`: of the `marg = width - n` padding columns,
   * `marg / 2 + (marg & width & 1)` go to the left. For an even width such
   * as 8 that is half the padding rounded down, so an odd extra space goes
   * to the right; a word at least as wide as `width` is kept.
   */
  function Center(w: string, width: nat): (r: string)
    ensures |r| == if |w| >= width then |w| else width
    ensures |w| >= width ==> r == w
    ensures width % 2 == 0 && |w| < width ==>
      r == Repeat(' ', (width - |w|) / 2) + w + Repeat(' ', width - |w| - (width - |w|) / 2)
  {
    if |w| >= width then w
    else
      var marg := width - |w|;
      var left := marg / 2 + (if marg % 2 == 1 && width % 2 == 1 then 1 else 0);
      Repeat(' ', left) + w + Repeat(' ', marg - left)
  }

  const LevelWidth: nat := 8

  /**
   * The word `s[i..j]` replaced by its centred form: the text before `i`
   * and from `j` on is kept, and the line grows by `max(0, 8 - n)` for a
   * word of length `n`.
   */
  function Splice(s: string, i: nat, j: nat): (r: string)
    requires i <= j <= |s|
    ensures |r| == |s| + (if j - i >= LevelWidth then 0 else LevelWidth - (j - i))
    ensures r[..i] == s[..i]
    ensures r[|r| - (|s| - j)..] == s[j..]
  {
    var c := Center(s[i..j], LevelWidth);
    SpliceParts(s[..i], c, s[j..]);
    s[..i] + c + s[j..]
  }

  lemma SpliceParts(a: string, c: string, b: string)
    ensures (a + c + b)[..|a|] == a && (a + c + b)[|a + c + b| - |b|..] == b
  {
  }

  /**
   * `format` after the parent formatter: the splice of the leftmost
   * match's word; without a `- <word> -` the line itself.
   */
  function FormatLevel(s: string): (r: string)
    ensures (forall i :: 0 <= i < |s| ==> !MatchAt(s, i)) ==> r == s
    ensures (exists i :: 0 <= i < |s| && MatchAt(s, i)) ==>
      Search(s, 0).Some? && r == Splice(s, Search(s, 0).value + 2, WordEnd(s, Search(s, 0).value + 2))
  {
    match Search(s, 0)
    case None => s
    case Some(i) => Splice(s, i + 2, WordEnd(s, i + 2))
  }
}
