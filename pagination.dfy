/**
 * `get_all_reviews`: request review pages 1, 2, 3, ... of one movie and
 * gather `(text, rating)` pairs until a page is empty or a request fails.
 */
module Pagination {

  import opened Http

  /**
   * What the HTML extractor finds on one review page: the texts of the
   * `review-text1` blocks and the numeric ratings of the
   * `user-reviews-movie-rating` blocks, in page order.
   */
  datatype ReviewPage = ReviewPage(texts: seq<string>, ratings: seq<int>)

  type Review = (string, int)

  /** The reply to the request for page `n` of the reviews of movie `id`. */
  type ReviewSource = (string, nat) -> Response<ReviewPage>

  /** HTTP 429: the page number is skipped. */
  predicate IsRateLimited(r: Response<ReviewPage>)
  {
    r.Received? && r.status == TooManyRequests
  }

  /** A `RequestException`, raised by the call or by `raise_for_status`: the loop stops. */
  predicate IsError(r: Response<ReviewPage>)
  {
    r.RequestFailed? || (!IsRateLimited(r) && RaisesForStatus(r.status))
  }

  /** A page read without error that lacks texts or ratings: the loop stops. */
  predicate IsExhausted(r: Response<ReviewPage>)
  {
    r.Received? && !IsRateLimited(r) && !RaisesForStatus(r.status)
    && (|r.body.texts| == 0 || |r.body.ratings| == 0)
  }

  /** The replies after which no further page is requested. */
  predicate IsTerminal(r: Response<ReviewPage>)
  {
    IsError(r) || IsExhausted(r)
  }

  /** Python's `zip`, which stops at the end of the shorter list. */
  function Zip(texts: seq<string>, ratings: seq<int>): (z: seq<Review>)
    ensures |z| == if |texts| < |ratings| then |texts| else |ratings|
    ensures forall i :: 0 <= i < |z| ==> z[i] == (texts[i], ratings[i])
  {
    if |texts| == 0 || |ratings| == 0 then []
    else [(texts[0], ratings[0])] + Zip(texts[1..], ratings[1..])
  }

  /** The pairs one reply adds to the result: none unless it is a full page. */
  function Contribution(r: Response<ReviewPage>): (pairs: seq<Review>)
  {
    if IsRateLimited(r) || IsTerminal(r) then [] else Zip(r.body.texts, r.body.ratings)
  }

  /** The contributions of pages `from` up to (not including) `to`, in page order. */
  function Harvest(source: ReviewSource, id: string, from: nat, to: nat): (pairs: seq<Review>)
    decreases to
  {
    if to <= from then [] else Harvest(source, id, from, to - 1) + Contribution(source(id, to - 1))
  }

  /** The first page from `page` on whose reply ends the loop. */
  function StopPage(source: ReviewSource, id: string, page: nat, bound: nat): (n: nat)
    requires 1 <= page <= bound && IsTerminal(source(id, bound))
    ensures page <= n <= bound && IsTerminal(source(id, n))
    ensures forall k :: page <= k < n ==> !IsTerminal(source(id, k))
    decreases bound - page
  {
    if IsTerminal(source(id, page)) then page else StopPage(source, id, page + 1, bound)
  }

  /** Everything `get_all_reviews(id)` returns. */
  function AllReviews(source: ReviewSource, id: string, bound: nat): (reviews: seq<Review>)
    requires 1 <= bound && IsTerminal(source(id, bound))
  {
    Harvest(source, id, 1, StopPage(source, id, 1, bound))
  }

  /**
   * The loop of `get_all_reviews`. `requested` is the sequence of page
   * numbers whose URL was fetched. `bound` is any page number whose reply is
   * terminal; the source has no such bound and loops for as long as it is
   * rate-limited.
   */
  method GetAllReviews(source: ReviewSource, id: string, ghost bound: nat)
    returns (reviews: seq<Review>, requested: seq<nat>)
    requires 1 <= bound && IsTerminal(source(id, bound))
    ensures |requested| == StopPage(source, id, 1, bound)
    ensures forall i :: 0 <= i < |requested| ==> requested[i] == i + 1
    ensures reviews == AllReviews(source, id, bound)
  {
    var page := 1;
    reviews, requested := [], [];
    while true
      invariant 1 <= page <= bound
      invariant |requested| == page - 1
      invariant forall i :: 0 <= i < |requested| ==> requested[i] == i + 1
      invariant forall k :: 1 <= k < page ==> !IsTerminal(source(id, k))
      invariant reviews == Harvest(source, id, 1, page)
      decreases bound - page
    {
      var response := source(id, page);
      requested := requested + [page];
      if response.Received? && response.status == TooManyRequests {
        assert Contribution(response) == [];
        page := page + 1;
        continue;
      }
      if response.RequestFailed? || RaisesForStatus(response.status) {
        StopPageIsFirstTerminal(source, id, bound, page);
        break;
      }
      var texts, ratings := response.body.texts, response.body.ratings;
      if |texts| > 0 && |ratings| > 0 {
        reviews := AppendPairs(reviews, texts, ratings);
        assert Zip(texts, ratings) == Contribution(response);
        page := page + 1;
      } else {
        StopPageIsFirstTerminal(source, id, bound, page);
        break;
      }
    }
  }

  /** The inner loop over `zip(review_texts, review_ratings)`, appending each pair. */
  method AppendPairs(reviews: seq<Review>, texts: seq<string>, ratings: seq<int>)
    returns (extended: seq<Review>)
    ensures extended == reviews + Zip(texts, ratings)
  {
    var pairs := Zip(texts, ratings);
    extended := reviews;
    for i := 0 to |pairs|
      invariant extended == reviews + pairs[..i]
    {
      extended := extended + [(texts[i], ratings[i])];
    }
    assert pairs[..|pairs|] == pairs;
  }

  /** The stop page is the first terminal page, whatever bound was used to find it. */
  lemma StopPageIsFirstTerminal(source: ReviewSource, id: string, bound: nat, n: nat)
    requires 1 <= n && 1 <= bound && IsTerminal(source(id, bound))
    requires IsTerminal(source(id, n)) && forall k :: 1 <= k < n ==> !IsTerminal(source(id, k))
    ensures StopPage(source, id, 1, bound) == n
  {
  }

  /** The pages of a range contribute in order: splitting the range splits the result. */
  lemma {:induction false} HarvestSplit(source: ReviewSource, id: string, a: nat, b: nat, c: nat)
    requires a <= b <= c
    ensures Harvest(source, id, a, c) == Harvest(source, id, a, b) + Harvest(source, id, b, c)
    decreases c
  {
    if b < c {
      HarvestSplit(source, id, a, b, c - 1);
    }
  }

  /**
   * A request error on page `n` stops the loop there and returns exactly the
   * pairs of the pages before it.
   */
  lemma ErrorKeepsEarlierReviews(source: ReviewSource, id: string, bound: nat, n: nat)
    requires 1 <= n && 1 <= bound && IsTerminal(source(id, bound))
    requires IsError(source(id, n)) && forall k :: 1 <= k < n ==> !IsTerminal(source(id, k))
    ensures AllReviews(source, id, bound) == Harvest(source, id, 1, n)
  {
    StopPageIsFirstTerminal(source, id, bound, n);
  }

  /**
   * `n` full pages followed by an empty page: exactly the pairs of those `n`
   * pages are returned, in page order, and page `n + 1` adds nothing.
   */
  lemma FullPagesThenEmpty(source: ReviewSource, id: string, bound: nat, n: nat)
    requires 1 <= bound && IsTerminal(source(id, bound))
    requires forall k :: 1 <= k <= n ==>
      (source(id, k).Received? && source(id, k).status == 200
       && |source(id, k).body.texts| > 0 && |source(id, k).body.ratings| > 0)
    requires IsExhausted(source(id, n + 1))
    ensures StopPage(source, id, 1, bound) == n + 1
    ensures AllReviews(source, id, bound) == Harvest(source, id, 1, n + 1)
    ensures forall k :: 1 <= k <= n ==>
      Contribution(source(id, k)) == Zip(source(id, k).body.texts, source(id, k).body.ratings)
  {
    StopPageIsFirstTerminal(source, id, bound, n + 1);
  }

  /** A rate-limited page adds nothing, and the page after it is requested next. */
  lemma RateLimitedPageSkipped(source: ReviewSource, id: string, bound: nat, k: nat)
    requires 1 <= k && 1 <= bound && IsTerminal(source(id, bound))
    requires IsRateLimited(source(id, k)) && forall j :: 1 <= j < k ==> !IsTerminal(source(id, j))
    ensures k < StopPage(source, id, 1, bound)
    ensures Harvest(source, id, 1, k + 1) == Harvest(source, id, 1, k)
  {
  }
}
