/**
 * The playlist identifier in a playlist URL: `re.search(r"playlist/([\w\d]+)", url)`, group 1.
 */
module PlaylistId {
  import opened Wrappers
  import opened Text

  const MARKER: string := "playlist/"

  /** The pattern can match at `i`: the marker is there and a word character follows it. */
  predicate MatchesAt(url: string, i: nat)
  {
    i + |MARKER| < |url| && url[i..i + |MARKER|] == MARKER && IsWordChar(url[i + |MARKER|])
  }

  /** `t` is the maximal run of word characters starting at `p`. */
  predicate IsTokenAt(url: string, p: nat, t: string)
  {
    t != [] && p + |t| <= |url| && url[p..p + |t|] == t &&
    (forall k :: 0 <= k < |t| ==> IsWordChar(t[k])) &&
    (p + |t| == |url| || !IsWordChar(url[p + |t|]))
  }

  /** End of the run of word characters that starts at `p` (the greedy `[\w\d]+`). */
  function WordRunEnd(url: string, p: nat): (e: nat)
    requires p <= |url|
    ensures p <= e <= |url|
    ensures forall k :: p <= k < e ==> IsWordChar(url[k])
    ensures e == |url| || !IsWordChar(url[e])
    decreases |url| - p
  {
    if p < |url| && IsWordChar(url[p]) then WordRunEnd(url, p + 1) else p
  }

  /** The regular-expression search, trying each start position from `i` on. */
  function SearchFrom(url: string, i: nat): (r: Option<string>)
    requires i <= |url|
    ensures r.Some? ==> r.value != [] && forall k :: 0 <= k < |r.value| ==> IsWordChar(r.value[k])
    decreases |url| - i
  {
    if i == |url| then None
    else if MatchesAt(url, i) then
      var p := i + |MARKER|;
      Some(url[p..WordRunEnd(url, p)])
    else SearchFrom(url, i + 1)
  }

  /** The identifier of a playlist URL, or `None` for "Invalid playlist URL". */
  function ExtractPlaylistId(url: string): (r: Option<string>)
    ensures r.Some? ==> r.value != [] && forall k :: 0 <= k < |r.value| ==> IsWordChar(r.value[k])
  {
    SearchFrom(url, 0)
  }

  lemma {:induction false} SearchFromSpec(url: string, i: nat)
    requires i <= |url|
    ensures SearchFrom(url, i).None? <==> forall j :: i <= j < |url| ==> !MatchesAt(url, j)
    ensures SearchFrom(url, i).Some? ==>
      exists j :: i <= j < |url| && MatchesAt(url, j) && (forall k :: i <= k < j ==> !MatchesAt(url, k)) &&
        IsTokenAt(url, j + |MARKER|, SearchFrom(url, i).value)
    decreases |url| - i
  {
    if i < |url| {
      if MatchesAt(url, i) {
        var p := i + |MARKER|;
        var t := url[p..WordRunEnd(url, p)];
        assert SearchFrom(url, i) == Some(t);
        assert IsTokenAt(url, p, t);
      } else {
        assert SearchFrom(url, i) == SearchFrom(url, i + 1);
        SearchFromSpec(url, i + 1);
        if SearchFrom(url, i + 1).Some? {
          var j :| i + 1 <= j < |url| && MatchesAt(url, j) && (forall k :: i + 1 <= k < j ==> !MatchesAt(url, k)) &&
            IsTokenAt(url, j + |MARKER|, SearchFrom(url, i + 1).value);
          assert forall k :: i <= k < j ==> !MatchesAt(url, k);
        }
      }
    }
  }

  /**
   * The URL has an identifier exactly when `playlist/` followed by a word character occurs in it;
   * the identifier is then the whole run of word characters after the first such occurrence.
   */
  lemma ExtractPlaylistIdSpec(url: string)
    ensures ExtractPlaylistId(url).None? <==> forall j :: 0 <= j < |url| ==> !MatchesAt(url, j)
    ensures ExtractPlaylistId(url).Some? ==>
      exists j :: 0 <= j < |url| && MatchesAt(url, j) && (forall k :: 0 <= k < j ==> !MatchesAt(url, k)) &&
        IsTokenAt(url, j + |MARKER|, ExtractPlaylistId(url).value)
  {
    SearchFromSpec(url, 0);
  }

  /** A URL that carries `playlist/<token>` after a prefix without the marker yields exactly `<token>`. */
  lemma ExtractFromPlaylistUrl(prefix: string, token: string, suffix: string)
    requires forall j :: 0 <= j < |prefix| ==> !MatchesAt(prefix + MARKER + token + suffix, j)
    requires token != [] && forall k :: 0 <= k < |token| ==> IsWordChar(token[k])
    requires suffix == [] || !IsWordChar(suffix[0])
    ensures ExtractPlaylistId(prefix + MARKER + token + suffix) == Some(token)
  {
    var url := prefix + MARKER + token + suffix;
    var i := |prefix|;
    assert url[i..i + |MARKER|] == MARKER;
    assert url[i + |MARKER|] == token[0];
    assert MatchesAt(url, i);
    SkipTo(url, 0, i);
    var p := i + |MARKER|;
    assert WordRunEnd(url, p) == p + |token| by {
      RunOfToken(url, p, token);
    }
    assert url[p..p + |token|] == token;
  }

  /** When nothing matches before `i`, the search from `j <= i` is the search from `i`. */
  lemma {:induction false} SkipTo(url: string, j: nat, i: nat)
    requires j <= i <= |url|
    requires forall k :: j <= k < i ==> !MatchesAt(url, k)
    ensures SearchFrom(url, j) == SearchFrom(url, i)
    decreases i - j
  {
    if j < i {
      SkipTo(url, j + 1, i);
    }
  }

  /** The run starting at a token placed at `p`, followed by a non-word character or the end, ends right after it. */
  lemma {:induction false} RunOfToken(url: string, p: nat, token: string)
    requires p + |token| <= |url| && url[p..p + |token|] == token
    requires forall k :: 0 <= k < |token| ==> IsWordChar(token[k])
    requires p + |token| == |url| || !IsWordChar(url[p + |token|])
    ensures WordRunEnd(url, p) == p + |token|
    decreases |token|
  {
    if token != [] {
      assert url[p] == token[0];
      assert url[p + 1..p + 1 + |token[1..]|] == token[1..];
      RunOfToken(url, p + 1, token[1..]);
    }
  }
}
