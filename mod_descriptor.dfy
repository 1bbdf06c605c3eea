/** Reading the mod folder out of a `.mod` descriptor: `re.search(r'path="(.+?)"', content)`
    and the callback that stores group 1 in the mod path, or reports an error when nothing matches. */
module ModDescriptor {
  import opened Text

  /** The literal part of the pattern before the group. */
  const Key: string := "path=\""

  /** The pattern matches at index `i` with its closing quote at index `q`: the literal `path="`,
      then group 1 = `s[i + |Key|..q]`, at least one character and none of them a newline
      (`.` does not match `\n`), then `"`. */
  ghost predicate MatchesAt(s: string, i: int, q: int)
  {
    && 0 <= i && i + |Key| < q < |s|
    && s[i..i + |Key|] == Key
    && (forall j :: i + |Key| <= j < q ==> s[j] != '\n')
    && s[q] == '"'
  }

  /** The match `re.search` reports: the leftmost start, and at that start the shortest
      group, since `+?` is lazy. */
  ghost predicate IsSearchResult(s: string, i: int, q: int)
  {
    && MatchesAt(s, i, q)
    && (forall i', q' :: 0 <= i' < i ==> !MatchesAt(s, i', q'))
    && (forall q' :: q' < q ==> !MatchesAt(s, i, q'))
  }

  /** Where a match is: its start and the index of its closing quote. */
  datatype Span = Span(start: nat, close: nat)

  /** The lazy `.+?"` once group 1 holds everything before index `q`: close at `q` if `s[q]` is a quote,
      otherwise let `.` take `s[q]` (not a newline) and try one further. */
  function LazyClose(s: string, q: nat): (r: Option<nat>)
    ensures r.Some? ==> q <= r.value < |s| && s[r.value] == '"'
    ensures r.Some? ==> forall j :: q <= j < r.value ==> s[j] != '\n' && s[j] != '"'
    ensures r.None? ==> forall q' :: q <= q' < |s| && s[q'] == '"' ==> exists j :: q <= j < q' && s[j] == '\n'
    decreases |s| - q
  {
    if q >= |s| then None
    else if s[q] == '"' then Some(q)
    else if s[q] == '\n' then None
    else LazyClose(s, q + 1)
  }

  /** The engine's attempt at start `i`: the closing quote of the shortest match there, if any. */
  function MatchAt(s: string, i: nat): (r: Option<nat>)
    ensures r.Some? ==> MatchesAt(s, i, r.value) && forall q :: q < r.value ==> !MatchesAt(s, i, q)
    ensures r.None? ==> forall q :: !MatchesAt(s, i, q)
  {
    var c := i + |Key|;
    if c < |s| && s[i..c] == Key && s[c] != '\n' then
      LazyClose(s, c + 1)
    else
      None
  }

  /** `re.search` from index `i` on: try every start in turn, the first that matches wins. */
  function SearchFrom(s: string, i: nat): (r: Option<Span>)
    ensures r.Some? ==> i <= r.value.start && IsSearchResultFrom(s, i, r.value.start, r.value.close)
    ensures r.None? ==> forall i', q :: i <= i' ==> !MatchesAt(s, i', q)
    decreases |s| - i
  {
    if i >= |s| then None
    else
      match MatchAt(s, i)
      case Some(q) => Some(Span(i, q))
      case None => SearchFrom(s, i + 1)
  }

  /** Like `IsSearchResult`, for a search that starts at index `from`. */
  ghost predicate IsSearchResultFrom(s: string, from: int, i: int, q: int)
  {
    && MatchesAt(s, i, q)
    && (forall i', q' :: from <= i' < i ==> !MatchesAt(s, i', q'))
    && (forall q' :: q' < q ==> !MatchesAt(s, i, q'))
  }

  /** `re.search(r'path="(.+?)"', content)`. */
  function Search(s: string): (r: Option<Span>)
    ensures r.Some? ==> IsSearchResult(s, r.value.start, r.value.close)
    ensures r.None? ==> forall i, q :: !MatchesAt(s, i, q)
  {
    SearchFrom(s, 0)
  }

  /** `v`, then a quote, follows the literal `path="` at index `i` of `s`. */
  ghost predicate QuotedAt(s: string, v: string, i: int)
  {
    0 <= i && i + |Key| + |v| < |s| && s[i..i + |Key| + |v| + 1] == Key + v + "\""
  }

  /** `match.group(1)` when there is a match: the mod path the descriptor names.
      A result is never empty, holds no newline, follows `path="` and is followed by `"`;
      only its first character can be a quote (`path="""` yields `"`). */
  function ModPathOf(content: string): (r: Option<string>)
    ensures r.Some? ==> |r.value| > 0 && '\n' !in r.value && '"' !in r.value[1..]
    ensures r.Some? ==> exists i :: QuotedAt(content, r.value, i)
    ensures r.None? <==> forall i, q :: !MatchesAt(content, i, q)
    ensures r.Some? ==> exists i, q :: IsSearchResult(content, i, q) && r.value == content[i + |Key|..q]
  {
    match Search(content)
    case None => None
    case Some(m) =>
      var v := content[m.start + |Key|..m.close];
      assert forall j :: 0 <= j < |v| ==> v[j] == content[m.start + |Key| + j];
      NotAQuoteBeforeClose(content, m.start, m.close);
      assert content[m.start..m.start + |Key| + |v| + 1] == Key + v + "\"";
      assert QuotedAt(content, v, m.start);
      Some(v)
  }

  /** Within the shortest match no character of group 1 is a quote: a quote earlier would
      close a shorter match. */
  lemma NotAQuoteBeforeClose(s: string, i: int, q: int)
    requires IsSearchResult(s, i, q)
    ensures forall j :: i + |Key| < j < q ==> s[j] != '"'
  {
    forall j | i + |Key| < j < q ensures s[j] != '"' {
      if s[j] == '"' {
        assert MatchesAt(s, i, j);
      }
    }
  }

  /** The search result is determined by the pattern alone: any leftmost-shortest match is
      exactly the one `Search` returns. */
  lemma SearchFindsTheSearchResult(s: string, i: int, q: int)
    requires IsSearchResult(s, i, q)
    ensures Search(s) == Some(Span(i, q))
  {
  }

  /** Group 1 is taken from the leftmost-shortest match and from no other. */
  lemma ModPathOfIsLeftmost(content: string, i: int, q: int)
    requires IsSearchResult(content, i, q)
    ensures ModPathOf(content) == Some(content[i + |Key|..q])
  {
    SearchFindsTheSearchResult(content, i, q);
  }

  /** A descriptor whose text starts with one complete `path="v"` yields `v`, whatever
      follows it, a second `path="..."` included: the first occurrence wins. */
  lemma FirstAssignmentWins(v: string, rest: string)
    requires |v| > 0 && '\n' !in v && '"' !in v[1..]
    ensures ModPathOf(Key + v + "\"" + rest) == Some(v)
  {
    var s := Key + v + "\"" + rest;
    var q := |Key| + |v|;
    assert s[..|Key|] == Key;
    assert forall j :: |Key| <= j < q ==> s[j] == v[j - |Key|];
    assert forall j :: |Key| < j < q ==> s[j] == v[1..][j - |Key| - 1];
    assert IsSearchResult(s, 0, q);
    SearchFindsTheSearchResult(s, 0, q);
    assert s[|Key|..q] == v;
  }

  /** No match starts inside a leading `replace_`: only its `p` could begin `path="`, and an
      `l` follows it. */
  lemma NoMatchInReplacePrefix(s: string)
    requires |s| >= 9 && s[..9] == "replace_p"
    ensures forall i, q :: 0 <= i < 8 ==> !MatchesAt(s, i, q)
  {
    forall i, q | 0 <= i < 8 ensures !MatchesAt(s, i, q) {
      assert s[i] == s[..9][i] && s[i + 1] == s[..9][i + 1];
    }
  }

  /** The literal `path="` also occurs inside `replace_path="`: a `replace_path` line before the
      `path` line supplies the mod path. */
  lemma ReplacePathComesFirst(a: string, b: string)
    requires |a| > 0 && '\n' !in a && '"' !in a[1..]
    ensures ModPathOf("replace_" + Key + a + "\"\n" + Key + b + "\"") == Some(a)
  {
    var s := "replace_" + Key + a + "\"\n" + Key + b + "\"";
    var i, q := 8, 8 + |Key| + |a|;
    assert s[..i + |Key|] == "replace_" + Key;
    assert s[..9] == "replace_p";
    NoMatchInReplacePrefix(s);
    assert forall j :: i + |Key| <= j < q ==> s[j] == a[j - i - |Key|];
    assert forall j :: i + |Key| < j < q ==> s[j] == a[1..][j - i - |Key| - 1];
    assert s[q] == '"';
    assert IsSearchResult(s, i, q);
    ModPathOfIsLeftmost(s, i, q);
    assert s[i + |Key|..q] == a;
  }

  /** A group cannot span lines: a newline before the closing quote means no match. */
  lemma NoMatchAcrossNewline(v: string, w: string)
    requires '"' !in v && '"' !in w
    ensures ModPathOf(Key + v + "\n" + w + "\"") == None
  {
    var s := Key + v + "\n" + w + "\"";
    var n := |Key| + |v|;
    // The only quotes in `s` are the one closing `path="` and the last character.
    forall k | 0 <= k < |s| && k != |Key| - 1 && k != |s| - 1
      ensures s[k] != '"'
    {
      if k < |Key| {
        assert s[k] == Key[k];
      } else if k < n {
        assert s[k] == v[k - |Key|];
      } else if k > n {
        assert s[k] == w[k - n - 1];
      }
    }
    assert s[n] == '\n';
    forall i, q | MatchesAt(s, i, q)
      ensures i == 0 && q == |s| - 1
    {
      assert s[i..i + |Key|][|Key| - 1] == '"';
    }
  }

  /** The window state that the descriptor callback updates: the mod folder the other tools use. */
  class Session {
    var modPath: string

    constructor ()
      ensures modPath == ""
    {
      modPath := "";
    }

    /** The callback after the user picked a descriptor whose text is `content`: on a match
        the mod path becomes group 1; otherwise an error is shown and the mod path is kept. */
    method ExtractModPath(content: string) returns (errorShown: bool)
      modifies this
      ensures errorShown <==> forall i, q :: !MatchesAt(content, i, q)
      ensures !errorShown ==> ModPathOf(content).Some? && modPath == ModPathOf(content).value
      ensures errorShown ==> modPath == old(modPath)
    {
      var m := Search(content);
      match m {
        case Some(span) =>
          modPath := content[span.start + |Key|..span.close];
          errorShown := false;
        case None =>
          errorShown := true;
      }
    }
  }
}
