/** Recognition of a video id in a URL: the pattern
    `(?:v=|/)([0-9A-Za-z_-]{11}).*` applied with leftmost search semantics
    (refiner.py:41). Start positions are tried from left to right; the first
    position where the marker `v=` or `/` is followed by eleven id characters
    wins, and group 1 is exactly those eleven characters. The trailing `.*`
    matches anything, including nothing, so it never makes a match fail. */
module VideoId {
  import opened Wrappers

  /** The `{11}` of the pattern. */
  const IdLength: nat := 11

  /** The character class `[0-9A-Za-z_-]` (ASCII only). */
  predicate IsIdChar(c: char)
  {
    ('0' <= c <= '9') || ('A' <= c <= 'Z') || ('a' <= c <= 'z') || c == '_' || c == '-'
  }

  /** Eleven id characters begin at position g. */
  predicate IdRunAt(url: string, g: nat)
  {
    g + IdLength <= |url| && forall k :: g <= k < g + IdLength ==> IsIdChar(url[k])
  }

  /** The first alternative, `v=`, begins at position p. */
  predicate EqualsMarkerAt(url: string, p: nat)
  {
    p + 2 <= |url| && url[p] == 'v' && url[p + 1] == '='
  }

  /** The second alternative, `/`, is at position p. */
  predicate SlashMarkerAt(url: string, p: nat)
  {
    p < |url| && url[p] == '/'
  }

  /** A match attempt at start position p succeeds. The two alternatives
      begin with different characters, so at most one applies at p. */
  predicate MatchAt(url: string, p: nat)
  {
    || (EqualsMarkerAt(url, p) && IdRunAt(url, p + 2))
    || (SlashMarkerAt(url, p) && IdRunAt(url, p + 1))
  }

  /** p is the position `re.search` reports: a match, and no earlier one. */
  predicate Leftmost(url: string, p: nat)
  {
    MatchAt(url, p) && forall q :: 0 <= q < p ==> !MatchAt(url, q)
  }

  /** Where group 1 starts for a successful attempt at p. */
  function GroupStart(url: string, p: nat): (g: nat)
    requires MatchAt(url, p)
    ensures IdRunAt(url, g)
    ensures g == p + 1 || g == p + 2
  {
    if EqualsMarkerAt(url, p) then p + 2 else p + 1
  }

  /** Group 1 of a successful attempt at p. */
  function IdAt(url: string, p: nat): (id: string)
    requires MatchAt(url, p)
  {
    var g := GroupStart(url, p);
    url[g..g + IdLength]
  }

  /** The scan of start positions from `start` onwards. */
  function SearchFrom(url: string, start: nat): (r: Option<nat>)
    ensures r.Some? ==> start <= r.value && MatchAt(url, r.value)
    ensures r.Some? ==> forall q :: start <= q < r.value ==> !MatchAt(url, q)
    ensures r.None? ==> forall q :: start <= q ==> !MatchAt(url, q)
    decreases |url| - start
  {
    if |url| <= start then None
    else if MatchAt(url, start) then Some(start)
    else SearchFrom(url, start + 1)
  }

  /** `re.search(pattern, url).group(1)`, with `None` where `re.search`
      finds nothing. */
  function FindVideoId(url: string): (r: Option<string>)
    ensures r.None? <==> forall p :: !MatchAt(url, p)
    ensures r.Some? ==> exists p :: Leftmost(url, p) && r.value == IdAt(url, p)
    ensures r.Some? ==> |r.value| == IdLength
    ensures r.Some? ==> forall i :: 0 <= i < |r.value| ==> IsIdChar(r.value[i])
  {
    match SearchFrom(url, 0)
    case None => None
    case Some(p) =>
      var id := IdAt(url, p);
      assert Leftmost(url, p) && id == IdAt(url, p);
      Some(id)
  }

  /** Whatever qualifying position is leftmost determines the id. */
  lemma FindsLeftmost(url: string, p: nat)
    requires Leftmost(url, p)
    ensures FindVideoId(url) == Some(IdAt(url, p))
  {
    var r := FindVideoId(url);
    assert r.Some? by { assert MatchAt(url, p); }
    var p': nat :| Leftmost(url, p') && r.value == IdAt(url, p');
    assert p' == p by {
      assert !(p' < p) && !(p < p');
    }
  }

  /** id stands at position g of url, right after a `/` or a `v=`. */
  predicate MarkedIdAt(url: string, g: nat, id: string)
  {
    && 1 <= g && g + |id| <= |url| && url[g..g + |id|] == id
    && (url[g - 1] == '/' || (2 <= g && url[g - 2..g] == "v="))
  }

  /** A recognized id is eleven id characters that the URL holds right
      after a `/` or a `v=`. */
  lemma IdFollowsMarker(url: string)
    requires FindVideoId(url).Some?
    ensures exists g :: MarkedIdAt(url, g, FindVideoId(url).value)
  {
    var id := FindVideoId(url).value;
    var p := SearchFrom(url, 0).value;
    assert id == IdAt(url, p);
    var g := GroupStart(url, p);
    if EqualsMarkerAt(url, p) {
      assert url[g - 2..g] == [url[p], url[p + 1]] == "v=";
    }
    assert MarkedIdAt(url, g, id);
  }

  /** A match found in url is still a match once more text is appended. */
  lemma MatchSurvivesAppend(url: string, rest: string, p: nat)
    requires MatchAt(url, p)
    ensures MatchAt(url + rest, p) && IdAt(url + rest, p) == IdAt(url, p)
  {
    var ext := url + rest;
    var g := GroupStart(url, p);
    assert forall k :: 0 <= k < |url| ==> ext[k] == url[k];
    assert ext[g..g + IdLength] == url[g..g + IdLength];
  }

  /** An attempt that only reads characters of url is unaffected by what
      follows url. */
  lemma MatchIsLocal(url: string, rest: string, q: nat)
    requires q + 2 + IdLength <= |url|
    ensures MatchAt(url + rest, q) == MatchAt(url, q)
  {
    var ext := url + rest;
    assert forall k :: 0 <= k < |url| ==> ext[k] == url[k];
  }

  /** Once a URL yields an id, appending anything (more id characters,
      further query parameters, a playlist reference) leaves the id as it
      is: later qualifying occurrences never win. */
  lemma {:induction false} AppendKeepsId(url: string, rest: string)
    requires FindVideoId(url).Some?
    ensures FindVideoId(url + rest) == FindVideoId(url)
  {
    var p: nat :| Leftmost(url, p) && FindVideoId(url).value == IdAt(url, p);
    MatchSurvivesAppend(url, rest, p);
    forall q | 0 <= q < p
      ensures !MatchAt(url + rest, q)
    {
      assert q + 2 + IdLength <= p + 1 + IdLength;
      MatchIsLocal(url, rest, q);
    }
    FindsLeftmost(url + rest, p);
  }

  /** A URL that starts with a marker and an id run yields the first eleven
      characters of the run, however long the run is. */
  lemma {:induction false} MarkerAtStart(marker: string, run: string)
    requires marker == "v=" || marker == "/"
    requires IdRunAt(run, 0)
    ensures FindVideoId(marker + run) == Some(run[..IdLength])
  {
    var url := marker + run;
    assert MatchAt(url, 0) by {
      assert forall k :: |marker| <= k < |url| ==> url[k] == run[k - |marker|];
    }
    if marker == "v=" {
      assert !MatchAt(url, 0) || !SlashMarkerAt(url, 0);
    }
    FindsLeftmost(url, 0);
    assert IdAt(url, 0) == run[..IdLength];
  }
}
