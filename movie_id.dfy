/**
 * Movie-id extraction: `re.search(r'film(\d+)\.html', url).group(1)`.
 * The id is the digit run of the leftmost occurrence of `film<digits>.html`.
 */
module MovieId {

  import opened Wrappers

  predicate IsDigit(c: char)
  {
    '0' <= c <= '9'
  }

  predicate IsDigitString(s: string)
  {
    |s| >= 1 && forall i :: 0 <= i < |s| ==> IsDigit(s[i])
  }

  /**
   * The pattern `film(\d+)\.html` matches at position `p` of `url` with
   * group 1 equal to `id`.
   */
  predicate MatchesAt(url: string, p: nat, id: string)
  {
    && p + 4 + |id| + 5 <= |url|
    && url[p..p + 4] == "film"
    && IsDigitString(id)
    && url[p + 4..p + 4 + |id|] == id
    && url[p + 4 + |id|..p + 9 + |id|] == ".html"
  }

  /** A match found by the search: where it starts and what group 1 captured. */
  datatype Match = Match(start: nat, id: string)

  /** Length of the longest run of digits that starts at `i`. */
  function DigitRun(s: string, i: nat): (n: nat)
    requires i <= |s|
    ensures i + n <= |s|
    ensures forall k :: i <= k < i + n ==> IsDigit(s[k])
    ensures i + n == |s| || !IsDigit(s[i + n])
    decreases |s| - i
  {
    if i < |s| && IsDigit(s[i]) then 1 + DigitRun(s, i + 1) else 0
  }

  /** Whatever digits a match at `p` captures, they are the whole digit run after `film`. */
  lemma MatchCapturesDigitRun(url: string, p: nat, id: string)
    requires MatchesAt(url, p, id)
    ensures DigitRun(url, p + 4) == |id|
  {
    var q := p + 4 + |id|;
    assert url[q] == url[q..q + 5][0] == '.';
    forall k | p + 4 <= k < q ensures IsDigit(url[k]) {
      assert url[k] == url[p + 4..q][k - (p + 4)];
    }
  }

  /** The pattern can capture at most one id at a given position. */
  lemma MatchIsUnique(url: string, p: nat, id1: string, id2: string)
    requires MatchesAt(url, p, id1) && MatchesAt(url, p, id2)
    ensures id1 == id2
  {
    MatchCapturesDigitRun(url, p, id1);
    MatchCapturesDigitRun(url, p, id2);
  }

  /** Try the pattern at position `p` only, as the regex engine does before moving on. */
  function MatchAt(url: string, p: nat): (r: Option<string>)
    requires p <= |url|
    ensures r.Some? ==> MatchesAt(url, p, r.value)
    ensures r.None? ==> forall id :: !MatchesAt(url, p, id)
  {
    if p + 4 <= |url| && url[p..p + 4] == "film" then
      var n := DigitRun(url, p + 4);
      if 1 <= n && p + 9 + n <= |url| && url[p + 4 + n..p + 9 + n] == ".html" then
        Some(url[p + 4..p + 4 + n])
      else
        NoMatchOffRun(url, p);
        None
    else
      None
  }

  /** When the digit run after `film` is not followed by `.html`, no shorter or longer run is. */
  lemma NoMatchOffRun(url: string, p: nat)
    requires p + 4 <= |url|
    requires var n := DigitRun(url, p + 4);
      !(1 <= n && p + 9 + n <= |url| && url[p + 4 + n..p + 9 + n] == ".html")
    ensures forall id :: !MatchesAt(url, p, id)
  {
    forall id | MatchesAt(url, p, id) ensures false {
      MatchCapturesDigitRun(url, p, id);
    }
  }

  /** Scan positions `p`, `p + 1`, ... for the first one where the pattern matches. */
  function Search(url: string, p: nat): (r: Option<Match>)
    requires p <= |url|
    ensures r.Some? ==> p <= r.value.start && MatchesAt(url, r.value.start, r.value.id)
    ensures r.Some? ==> forall q: nat, id :: p <= q < r.value.start ==> !MatchesAt(url, q, id)
    ensures r.None? ==> forall q: nat, id :: p <= q ==> !MatchesAt(url, q, id)
    decreases |url| - p
  {
    match MatchAt(url, p)
    case Some(id) => Some(Match(p, id))
    case None => if p == |url| then None else Search(url, p + 1)
  }

  /**
   * `re.search(r'film(\d+)\.html', url)` followed by `group(1)`: the id of the
   * leftmost match, or `None` when the pattern matches nowhere.
   */
  function ExtractId(url: string): (r: Option<string>)
    ensures r.Some? ==> IsDigitString(r.value)
    ensures r.Some? ==> exists q: nat ::
      MatchesAt(url, q, r.value) && (forall q': nat, id :: q' < q ==> !MatchesAt(url, q', id))
    ensures r.None? ==> forall q: nat, id :: !MatchesAt(url, q, id)
  {
    match Search(url, 0)
    case Some(m) => Some(m.id)
    case None => None
  }
}
