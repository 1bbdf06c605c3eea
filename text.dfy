/** String operations of Python's `str` that the tool relies on, over `seq<char>`.
    Case mapping is ASCII-only; whitespace is the set Python's `str.isspace` accepts.
    Each function carries only its length bounds; what it computes is stated by the lemma
    that follows it, so that callers pay for that description only where they use it. */
module Text {

  datatype Option<+T> = None | Some(value: T)

  /** `c.isspace()`: the characters Python's `str.strip()` removes when given no argument. */
  predicate IsSpace(c: char)
  {
    ('\t' <= c <= '\r') || ('\U{1C}' <= c <= '\U{1F}') || c == ' ' || c == '\U{85}' || c == '\U{A0}'
    || c == '\U{1680}' || ('\U{2000}' <= c <= '\U{200A}') || c == '\U{2028}' || c == '\U{2029}'
    || c == '\U{202F}' || c == '\U{205F}' || c == '\U{3000}'
  }

  predicate IsAsciiLower(c: char) { 'a' <= c <= 'z' }

  predicate IsAsciiUpper(c: char) { 'A' <= c <= 'Z' }

  function UpperChar(c: char): char
  {
    if IsAsciiLower(c) then (c as int - 32) as char else c
  }

  function LowerChar(c: char): char
  {
    if IsAsciiUpper(c) then (c as int + 32) as char else c
  }

  /** `s.upper()`. */
  function Upper(s: string): (r: string)
    ensures |r| == |s|
  {
    if s == [] then [] else [UpperChar(s[0])] + Upper(s[1..])
  }

  /** `s.lower()`. */
  function Lower(s: string): (r: string)
    ensures |r| == |s|
  {
    if s == [] then [] else [LowerChar(s[0])] + Lower(s[1..])
  }

  /** Upper-casing maps every character on its own: ASCII lower-case letters become capitals,
      every other character is kept, and no ASCII lower-case letter is left. */
  lemma {:induction false} UpperIsPointwise(s: string)
    ensures forall i :: 0 <= i < |s| ==> Upper(s)[i] == UpperChar(s[i]) && !IsAsciiLower(Upper(s)[i])
  {
    if s != [] {
      UpperIsPointwise(s[1..]);
      assert forall i :: 1 <= i < |s| ==> Upper(s)[i] == Upper(s[1..])[i - 1];
    }
  }

  /** Lower-casing maps every character on its own: ASCII capitals become lower-case letters,
      every other character is kept, and no ASCII capital is left. */
  lemma {:induction false} LowerIsPointwise(s: string)
    ensures forall i :: 0 <= i < |s| ==> Lower(s)[i] == LowerChar(s[i]) && !IsAsciiUpper(Lower(s)[i])
  {
    if s != [] {
      LowerIsPointwise(s[1..]);
      assert forall i :: 1 <= i < |s| ==> Lower(s)[i] == Lower(s[1..])[i - 1];
    }
  }

  /** Lower-casing forgets whether a string was upper-cased or lower-cased first, so a
      case-insensitive comparison does not depend on the case of either side. */
  lemma LowerOfUpper(s: string)
    ensures Lower(Upper(s)) == Lower(s)
    ensures Lower(Lower(s)) == Lower(s)
  {
    var upper, lower := Upper(s), Lower(s);
    UpperIsPointwise(s);
    LowerIsPointwise(s);
    LowerIsPointwise(upper);
    LowerIsPointwise(lower);
    var lowerOfUpper, lowerOfLower := Lower(upper), Lower(lower);
    assert forall i :: 0 <= i < |s| ==> lowerOfUpper[i] == lower[i];
    assert forall i :: 0 <= i < |s| ==> lowerOfLower[i] == lower[i];
  }

  /** `s.endswith(suffix)`. */
  predicate EndsWith(s: string, suffix: string)
  {
    |suffix| <= |s| && s[|s| - |suffix|..] == suffix
  }

  /** `s.split(c)[0]`. */
  function BeforeFirst(s: string, c: char): (r: string)
    ensures |r| <= |s|
  {
    if s == [] || s[0] == c then [] else [s[0]] + BeforeFirst(s[1..], c)
  }

  /** `s.split(c)[0]` is the text before the first `c`, or all of `s` when it holds none. */
  lemma {:induction false} BeforeFirstIsPrefix(s: string, c: char)
    ensures BeforeFirst(s, c) <= s
    ensures c !in BeforeFirst(s, c)
    ensures |BeforeFirst(s, c)| < |s| ==> s[|BeforeFirst(s, c)|] == c
  {
    if s != [] && s[0] != c {
      BeforeFirstIsPrefix(s[1..], c);
    }
  }

  /** `s.split(c)[0]` of a text whose first `c` follows `p` is `p`. */
  lemma {:induction false} BeforeFirstOfSplit(p: string, c: char, q: string)
    requires c !in p
    ensures BeforeFirst(p + [c] + q, c) == p
  {
    if p != [] {
      assert (p + [c] + q)[1..] == p[1..] + [c] + q;
      BeforeFirstOfSplit(p[1..], c, q);
    }
  }

  /** `s[a..b]` is what is left of `s` once leading and trailing whitespace are gone. */
  ghost predicate StrippedAt(s: string, a: int, b: int)
  {
    && 0 <= a <= b <= |s|
    && (forall i :: 0 <= i < a ==> IsSpace(s[i]))
    && (forall i :: b <= i < |s| ==> IsSpace(s[i]))
    && (a < b ==> !IsSpace(s[a]) && !IsSpace(s[b - 1]))
  }

  /** `s.strip()`: leading and trailing whitespace removed. */
  function Strip(s: string): (r: string)
    ensures |r| <= |s|
  {
    if s != [] && IsSpace(s[0]) then Strip(s[1..])
    else if s != [] && IsSpace(s[|s| - 1]) then Strip(s[..|s| - 1])
    else s
  }

  /** A leading space in front of a stripped piece of `s[1..]` stays outside it. */
  lemma StrippedPastLeadingSpace(s: string, a: int, b: int)
    requires s != [] && IsSpace(s[0]) && StrippedAt(s[1..], a, b)
    ensures StrippedAt(s, a + 1, b + 1) && s[1..][a..b] == s[a + 1..b + 1]
  {
    assert forall i :: 1 <= i < |s| ==> s[i] == s[1..][i - 1];
  }

  /** A trailing space behind a stripped piece of `s[..|s| - 1]` stays outside it. */
  lemma StrippedPastTrailingSpace(s: string, a: int, b: int)
    requires s != [] && IsSpace(s[|s| - 1]) && StrippedAt(s[..|s| - 1], a, b)
    ensures StrippedAt(s, a, b) && s[..|s| - 1][a..b] == s[a..b]
  {
    assert forall i :: 0 <= i < |s| - 1 ==> s[i] == s[..|s| - 1][i];
  }

  /** `s.strip()` removes leading and trailing whitespace: what is left neither starts nor
      ends with whitespace, and everything outside it is whitespace. */
  lemma {:induction false} StripRemovesSpaces(s: string)
    ensures exists a, b :: StrippedAt(s, a, b) && Strip(s) == s[a..b]
  {
    if s != [] && IsSpace(s[0]) {
      StripRemovesSpaces(s[1..]);
      var a, b :| StrippedAt(s[1..], a, b) && Strip(s[1..]) == s[1..][a..b];
      StrippedPastLeadingSpace(s, a, b);
    } else if s != [] && IsSpace(s[|s| - 1]) {
      StripRemovesSpaces(s[..|s| - 1]);
      var a, b :| StrippedAt(s[..|s| - 1], a, b) && Strip(s[..|s| - 1]) == s[..|s| - 1][a..b];
      StrippedPastTrailingSpace(s, a, b);
    } else {
      assert StrippedAt(s, 0, |s|) && s == s[0..|s|];
    }
  }

  /** `needle` occurs in `hay` starting at index `k`. */
  ghost predicate OccursAt(needle: string, hay: string, k: int)
  {
    0 <= k && k + |needle| <= |hay| && hay[k..k + |needle|] == needle
  }

  /** An occurrence in `hay[1..]` is one in `hay`, one index further on. */
  lemma OccursPastFirst(needle: string, hay: string, k: int)
    requires hay != [] && 0 <= k
    ensures OccursAt(needle, hay[1..], k) <==> OccursAt(needle, hay, k + 1)
  {
    if k + |needle| <= |hay[1..]| {
      var here, there := hay[1..][k..k + |needle|], hay[k + 1..k + 1 + |needle|];
      assert forall t :: 0 <= t < |needle| ==> here[t] == there[t];
    }
  }

  /** `needle in hay` on strings. */
  function Contains(hay: string, needle: string): bool
    decreases |hay|
  {
    if needle <= hay then true
    else if hay == [] then false
    else Contains(hay[1..], needle)
  }

  /** `needle in hay` holds exactly when `needle` occurs somewhere in `hay` (the empty string
      occurs in every string). */
  lemma {:induction false} ContainsMeansOccurs(hay: string, needle: string)
    ensures Contains(hay, needle) <==> exists k :: OccursAt(needle, hay, k)
    decreases |hay|
  {
    if needle <= hay {
      assert OccursAt(needle, hay, 0);
    } else if hay != [] {
      ContainsMeansOccurs(hay[1..], needle);
      forall k | 0 <= k
        ensures OccursAt(needle, hay[1..], k) <==> OccursAt(needle, hay, k + 1)
      {
        OccursPastFirst(needle, hay, k);
      }
      assert !OccursAt(needle, hay, 0);
      assert forall k :: OccursAt(needle, hay, k) ==> k == 0 || OccursAt(needle, hay[1..], k - 1);
    }
  }
}
