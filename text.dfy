/** The .NET string operations the logging layer relies on: `char.IsWhiteSpace`,
    `string.Trim`, `string.TrimEnd(chars)`, `string.ToUpperInvariant` and
    `string.IsNullOrWhiteSpace`. */
module Text {
  import opened Wrappers

  /** `char.IsWhiteSpace`: the Unicode space, line and paragraph separators,
      the controls U+0009 to U+000D and U+0085. */
  predicate IsWhiteSpace(c: char) {
    ('\U{9}' <= c <= '\U{D}') || c == ' ' || c == '\U{85}' || c == '\U{A0}' ||
    c == '\U{1680}' || ('\U{2000}' <= c <= '\U{200A}') || c == '\U{2028}' || c == '\U{2029}' ||
    c == '\U{202F}' || c == '\U{205F}' || c == '\U{3000}'
  }

  /** Removes every character satisfying `drop` from the end of `s`
      (`string.TrimEnd(params char[])` when `drop` is membership in the array). */
  function TrimEnd(s: string, drop: char -> bool): (r: string)
    ensures r <= s
    ensures r == [] || !drop(r[|r| - 1])
    ensures forall i :: |r| <= i < |s| ==> drop(s[i])
  {
    if |s| > 0 && drop(s[|s| - 1]) then TrimEnd(s[..|s| - 1], drop) else s
  }

  /** Removes every character satisfying `drop` from the start of `s`. */
  function TrimStart(s: string, drop: char -> bool): (r: string)
    ensures |r| <= |s| && r == s[|s| - |r|..]
    ensures r == [] || !drop(r[0])
    ensures forall i :: 0 <= i < |s| - |r| ==> drop(s[i])
  {
    if |s| > 0 && drop(s[0]) then
      var r := TrimStart(s[1..], drop);
      assert s[1..][|s| - 1 - |r|..] == s[|s| - |r|..];
      r
    else s
  }

  /** `string.Trim()`: both ends, white space as `char.IsWhiteSpace` defines it. */
  function Trim(s: string): string {
    TrimEnd(TrimStart(s, IsWhiteSpace), IsWhiteSpace)
  }

  /** The prefix that `TrimEnd` keeps is the only prefix that does not end in a
      dropped character and leaves only dropped characters behind. */
  lemma {:induction false} TrimEndUnique(s: string, drop: char -> bool, p: string)
    requires p <= s
    requires p == [] || !drop(p[|p| - 1])
    requires forall i :: |p| <= i < |s| ==> drop(s[i])
    ensures TrimEnd(s, drop) == p
  {
    if |s| > |p| {
      assert drop(s[|s| - 1]);
      TrimEndUnique(s[..|s| - 1], drop, p);
    }
  }

  /** Likewise, the suffix that `TrimStart` keeps is the only one of its kind. */
  lemma {:induction false} TrimStartUnique(s: string, drop: char -> bool, p: string)
    requires |p| <= |s| && p == s[|s| - |p|..]
    requires p == [] || !drop(p[0])
    requires forall i :: 0 <= i < |s| - |p| ==> drop(s[i])
    ensures TrimStart(s, drop) == p
  {
    if |s| > |p| {
      assert drop(s[0]);
      assert s[1..][|s| - 1 - |p|..] == s[|s| - |p|..];
      TrimStartUnique(s[1..], drop, p);
    }
  }

  /** Trimming twice is trimming once. */
  lemma TrimEndIdempotent(s: string, drop: char -> bool)
    ensures TrimEnd(TrimEnd(s, drop), drop) == TrimEnd(s, drop)
  {
    var r := TrimEnd(s, drop);
    TrimEndUnique(r, drop, r);
  }

  /** Padding made of dropped characters is exactly what trimming both ends
      removes: a word that neither starts nor ends with one comes back unchanged. */
  lemma TrimBothPadded(pre: string, word: string, post: string, drop: char -> bool)
    requires forall c | c in pre :: drop(c)
    requires forall c | c in post :: drop(c)
    requires |word| > 0 && !drop(word[0]) && !drop(word[|word| - 1])
    ensures TrimEnd(TrimStart(pre + word + post, drop), drop) == word
  {
    var s := pre + word + post;
    assert s[|s| - |word + post|..] == word + post;
    forall i | 0 <= i < |s| - |word + post| ensures drop(s[i]) {
      assert s[i] == pre[i];
    }
    TrimStartUnique(s, drop, word + post);
    assert word <= word + post;
    forall i | |word| <= i < |word + post| ensures drop((word + post)[i]) {
      assert (word + post)[i] == post[i - |word|];
    }
    TrimEndUnique(word + post, drop, word);
  }

  /** A character that is not dropped survives trimming both ends: it is found in
      the trimmed text at its original index minus what was cut from the start. */
  lemma TrimBothKeeps(s: string, drop: char -> bool, k: int)
    requires 0 <= k < |s| && !drop(s[k])
    ensures var t := TrimEnd(TrimStart(s, drop), drop);
            var cut := |s| - |TrimStart(s, drop)|;
            cut <= k < cut + |t| && t[k - cut] == s[k]
  {
    var lead := TrimStart(s, drop);
    var cut := |s| - |lead|;
    assert lead[k - cut] == s[k];
  }

  /** `char.ToUpperInvariant` as far as it can produce ASCII: the ASCII lower-case
      letters, and U+017F (long s) to 'S'. U+0131 (dotless i) has no upper-case
      mapping in the invariant culture and is left as it is. */
  function ToUpperChar(c: char): (u: char)
    ensures 'A' <= u <= 'Z' ==> ('A' <= c <= 'Z' || 'a' <= c <= 'z' || c == '\U{17F}')
    ensures c == '\U{131}' ==> u == c
  {
    if 'a' <= c <= 'z' then (c as int - 32) as char
    else if c == '\U{17F}' then 'S'
    else c
  }

  /** `string.ToUpperInvariant`: character by character, length preserved. */
  function ToUpperInvariant(s: string): (r: string)
    ensures |r| == |s|
    ensures forall i :: 0 <= i < |s| ==> r[i] == ToUpperChar(s[i])
  {
    if s == [] then [] else [ToUpperChar(s[0])] + ToUpperInvariant(s[1..])
  }

  /** `string.IsNullOrWhiteSpace`: null, empty, or white space only. */
  predicate IsNullOrWhiteSpace(s: Option<string>) {
    s.None? || forall c | c in s.value :: IsWhiteSpace(c)
  }

  /** `s` occurs somewhere inside `text`. */
  ghost predicate Contains(text: string, s: string) {
    exists i :: OccursAt(text, s, i)
  }

  /** `s` occurs in `text` starting at index `i`. */
  predicate OccursAt(text: string, s: string, i: int) {
    0 <= i <= |text| - |s| && text[i..i + |s|] == s
  }
}
