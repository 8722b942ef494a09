/**
 * The top-level crawl: for each year, fetch the listing, extract each
 * movie's id, skip up to and including the checkpoint, and for every later
 * movie append one row to `movies.csv` and, unless `reviews.csv` already has
 * rows for it, one row per fetched review to `reviews.csv`.
 */
module Crawl {

  import opened Wrappers
  import opened Http
  import opened Cleaning
  import opened MovieId
  import opened Pagination
  import opened Checkpoint

  /**
   * One `div.mc-title` of a listing page: the `href` of its first `<a>`
   * (`None` when there is no link or the link has no `href`) and the link text.
   */
  datatype Entry = Entry(href: Option<string>, title: string)

  /** The replies of the outside world, fixed for one run. */
  datatype Upstream = Upstream(
    listing: nat -> Response<seq<Entry>>,  // the listing page of a year
    reviewPage: ReviewSource,              // page n of the reviews of a movie
    cover: string -> Option<string>)       // `obtener_portada_url`

  /** A listing entry from which a movie id could be extracted. */
  datatype Item = Item(title: string, url: string, id: string, year: nat)

  /** `start_scraping` and the two files as they stand. */
  datatype CrawlState = CrawlState(scraping: bool, movies: seq<Row>, reviews: seq<Row>)

  const MoviesHeader: Row := ["Título", "Enlace", "ID", "Año", "Enlace de la Portada"]
  const ReviewsHeader: Row := ["ID", "Comentario", "Puntuación"]

  /**
   * `bound(id)` is a page whose reply ends the review loop of `id`. The
   * source loops for as long as the server answers 429; the model rules that out.
   */
  ghost predicate Terminates(up: Upstream, bound: string -> nat)
  {
    forall id :: 1 <= bound(id) && IsTerminal(up.reviewPage(id, bound(id)))
  }

  /** `1 if rating > 5 else 0`. */
  function Label(rating: int): (adjusted: int)
    ensures adjusted == 0 || adjusted == 1
    ensures adjusted == 1 <==> rating > 5
  {
    if rating > 5 then 1 else 0
  }

  function DigitChar(d: nat): (c: char)
    requires d < 10
    ensures IsDigit(c) && c as int - '0' as int == d
  {
    ('0' as int + d) as char
  }

  /** The number a string of decimal digits denotes, read left to right. */
  function DecimalValue(s: string): (v: nat)
    requires forall i :: 0 <= i < |s| ==> IsDigit(s[i])
  {
    if s == [] then 0
    else
      assert IsDigit(s[|s| - 1]);
      DecimalValue(s[..|s| - 1]) * 10 + (s[|s| - 1] as int - '0' as int)
  }

  /** `str(n)`, as `csv.writer` writes an integer cell: the digits of `n`, without leading zeros. */
  function DecimalString(n: nat): (s: string)
    ensures IsDigitString(s)
    ensures DecimalValue(s) == n
    ensures s[0] != '0' || s == "0"
    decreases n
  {
    if n < 10 then [DigitChar(n)]
    else
      var front := DecimalString(n / 10);
      var s := front + [DigitChar(n % 10)];
      assert s[..|s| - 1] == front;
      s
  }

  /** `[movie_title, movie_url, movie_id, year, portada_url]`; `None` is written as an empty cell. */
  function MovieRow(it: Item, cover: Option<string>): (row: Row)
    ensures |row| == 5 && row[0] == it.title && row[1] == it.url && row[2] == it.id
    ensures IsDigitString(row[3]) && DecimalValue(row[3]) == it.year
    ensures row[4] == if cover.Some? then cover.value else ""
  {
    [it.title, it.url, it.id, DecimalString(it.year), if cover.Some? then cover.value else ""]
  }

  /** `[movie_id, review_limpio, puntuacion_ajustada]`. */
  function ReviewRow(id: string, review: Review): (row: Row)
    ensures |row| == 3 && row[0] == id && row[1] == Clean(review.0)
    ensures row[2] == if review.1 > 5 then "1" else "0"
  {
    assert DecimalString(1) == "1" && DecimalString(0) == "0";
    [id, Clean(review.0), DecimalString(Label(review.1))]
  }

  /** One review row per fetched review, in fetch order. */
  function ReviewRows(id: string, reviews: seq<Review>): (rows: seq<Row>)
  {
    if reviews == [] then []
    else ReviewRows(id, reviews[..|reviews| - 1]) + [ReviewRow(id, reviews[|reviews| - 1])]
  }

  /** Each fetched review, in fetch order, gives exactly one review row. */
  lemma {:induction false} ReviewRowsInOrder(id: string, reviews: seq<Review>)
    ensures |ReviewRows(id, reviews)| == |reviews|
    ensures forall i :: 0 <= i < |reviews| ==> ReviewRows(id, reviews)[i] == ReviewRow(id, reviews[i])
    decreases |reviews|
  {
    if reviews != [] {
      ReviewRowsInOrder(id, reviews[..|reviews| - 1]);
    }
  }

  /** One movie row per item, in order. */
  function MovieRows(up: Upstream, items: seq<Item>): (rows: seq<Row>)
    ensures |rows| == |items|
    ensures forall i :: 0 <= i < |items| ==> rows[i] == MovieRow(items[i], up.cover(items[i].id))
  {
    if items == [] then []
    else MovieRows(up, items[..|items| - 1]) + [MovieRow(items[|items| - 1], up.cover(items[|items| - 1].id))]
  }

  /**
   * The entries of a year's listing, or `None` when the year is skipped: a
   * 429, a `RequestException` (from the call or from `raise_for_status`), or
   * any status other than 200.
   */
  function ListedEntries(r: Response<seq<Entry>>): (entries: Option<seq<Entry>>)
    ensures entries.Some? <==> r.Received? && r.status == 200
    ensures entries.Some? ==> entries.value == r.body
  {
    if r.RequestFailed? then None
    else if r.status == TooManyRequests then None
    else if RaisesForStatus(r.status) then None
    else if r.status == 200 then Some(r.body)
    else None
  }

  /** The item of an entry, unless it has no link or its link has no movie id. */
  function EntryItem(year: nat, e: Entry): (item: Option<Item>)
    ensures item.Some? <==> e.href.Some? && ExtractId(e.href.value).Some?
    ensures item.Some? ==> item.value == Item(e.title, e.href.value, ExtractId(e.href.value).value, year)
  {
    if e.href.None? then None
    else match ExtractId(e.href.value)
      case None => None
      case Some(id) => Some(Item(e.title, e.href.value, id, year))
  }

  function OptionToSeq(o: Option<Item>): (items: seq<Item>)
  {
    if o.Some? then [o.value] else []
  }

  /** The items of one listing page, in page order. */
  function YearItems(year: nat, entries: seq<Entry>): (items: seq<Item>)
    ensures forall i :: 0 <= i < |items| ==> IsDigitString(items[i].id)
  {
    if entries == [] then []
    else YearItems(year, entries[..|entries| - 1]) + OptionToSeq(EntryItem(year, entries[|entries| - 1]))
  }

  /** Every item the run meets: year order, then listing order. */
  function Items(up: Upstream, years: seq<nat>): (items: seq<Item>)
    ensures forall i :: 0 <= i < |items| ==> IsDigitString(items[i].id)
  {
    if years == [] then []
    else
      var year := years[|years| - 1];
      Items(up, years[..|years| - 1])
      + match ListedEntries(up.listing(year))
        case None => []
        case Some(entries) => YearItems(year, entries)
  }

  /**
   * What processing one movie adds: always its movie row; its review rows
   * only when `reviews.csv` has no row for its id yet.
   */
  function Process(up: Upstream, bound: string -> nat, it: Item, movies: seq<Row>, reviews: seq<Row>)
    : (written: (seq<Row>, seq<Row>))
    requires Terminates(up, bound)
  {
    (movies + [MovieRow(it, up.cover(it.id))],
     if HasRowFor(Some(reviews), it.id) then reviews
     else reviews + ReviewRows(it.id, AllReviews(up.reviewPage, it.id, bound(it.id))))
  }

  /** One item of the crawl: still skipping (and maybe reaching the checkpoint) or processing. */
  function Step(up: Upstream, bound: string -> nat, checkpoint: Option<string>, s: CrawlState, it: Item)
    : (t: CrawlState)
    requires Terminates(up, bound)
  {
    if !s.scraping then CrawlState(checkpoint == Some(it.id), s.movies, s.reviews)
    else
      var (movies, reviews) := Process(up, bound, it, s.movies, s.reviews);
      CrawlState(true, movies, reviews)
  }

  function Fold(up: Upstream, bound: string -> nat, checkpoint: Option<string>, s: CrawlState, items: seq<Item>)
    : (t: CrawlState)
    requires Terminates(up, bound)
  {
    if items == [] then s
    else Step(up, bound, checkpoint, Fold(up, bound, checkpoint, s, items[..|items| - 1]), items[|items| - 1])
  }

  /** Python truthiness of the checkpoint: `None` and `''` both mean "no checkpoint". */
  predicate Truthy(checkpoint: Option<string>)
  {
    checkpoint.Some? && checkpoint.value != ""
  }

  /** The rows of a file once it is open: its old rows, or just the header when it was new. */
  function InitialStore(file: Store, header: Row): (rows: seq<Row>)
  {
    if file.Some? then file.value else [header]
  }

  /**
   * The resume point, corrected: a final row equal to the header is not a
   * checkpoint. Otherwise it is `get_last_scraped_movie_id`.
   */
  function ResumePoint(reviews: seq<Row>): (checkpoint: Option<string>)
    ensures |reviews| > 0 && reviews[|reviews| - 1] == ReviewsHeader ==> checkpoint.None?
    ensures !(|reviews| > 0 && reviews[|reviews| - 1] == ReviewsHeader) ==>
      checkpoint == LastScrapedId(Some(reviews))
  {
    if |reviews| > 0 && reviews[|reviews| - 1] == ReviewsHeader then None else LastScrapedId(Some(reviews))
  }

  /**
   * What `get_last_scraped_movie_id` finds when the script calls it: the rows
   * of an existing `reviews.csv`, or, for a new one, an empty file, because
   * the header row just written is still in the writer's buffer.
   */
  function CheckpointOnDisk(reviewsFile: Store): (checkpoint: Option<string>)
  {
    LastScrapedId(if reviewsFile.None? then Some([]) else reviewsFile)
  }

  /** The whole run as the script performs it, from the files as they were before it. */
  function RunSpec(years: seq<nat>, up: Upstream, bound: string -> nat, moviesFile: Store, reviewsFile: Store)
    : (t: CrawlState)
    requires Terminates(up, bound)
  {
    var movies := InitialStore(moviesFile, MoviesHeader);
    var reviews := InitialStore(reviewsFile, ReviewsHeader);
    var checkpoint := CheckpointOnDisk(reviewsFile);
    Fold(up, bound, checkpoint, CrawlState(!Truthy(checkpoint), movies, reviews), Items(up, years))
  }

  /** The whole run with the corrected resume point: a final header row is not a checkpoint. */
  function RunSpecCorrected(years: seq<nat>, up: Upstream, bound: string -> nat, moviesFile: Store, reviewsFile: Store)
    : (t: CrawlState)
    requires Terminates(up, bound)
  {
    var movies := InitialStore(moviesFile, MoviesHeader);
    var reviews := InitialStore(reviewsFile, ReviewsHeader);
    var checkpoint := ResumePoint(reviews);
    Fold(up, bound, checkpoint, CrawlState(!Truthy(checkpoint), movies, reviews), Items(up, years))
  }

  /** The body of the item loop once the crawl is past the checkpoint. */
  method ProcessMovie(up: Upstream, ghost bound: string -> nat, it: Item, movies: seq<Row>, reviews: seq<Row>)
    returns (movies': seq<Row>, reviews': seq<Row>)
    requires Terminates(up, bound)
    ensures (movies', reviews') == Process(up, bound, it, movies, reviews)
  {
    var cover := up.cover(it.id);
    movies' := movies + [MovieRow(it, cover)];
    var known := ReviewsAlreadyScraped(Some(reviews), it.id);
    if known {
      reviews' := reviews;
      return;
    }
    var all, requested := GetAllReviews(up.reviewPage, it.id, bound(it.id));
    reviews' := reviews;
    if |all| > 0 {
      reviews' := WriteReviews(it.id, all, reviews);
    } else {
      assert reviews + ReviewRows(it.id, all) == reviews;
    }
  }

  /** The loop that cleans, labels and writes each fetched review. */
  method WriteReviews(id: string, all: seq<Review>, reviews: seq<Row>) returns (reviews': seq<Row>)
    ensures reviews' == reviews + ReviewRows(id, all)
  {
    reviews' := reviews;
    for i := 0 to |all|
      invariant reviews' == reviews + ReviewRows(id, all[..i])
    {
      assert all[..i + 1][..i] == all[..i];
      reviews' := reviews' + [ReviewRow(id, all[i])];
    }
    assert all[..|all|] == all;
  }

  /**
   * The script: open both files (a new file gets its header), read the
   * checkpoint, then walk the years and their listings.
   */
  method Run(years: seq<nat>, up: Upstream, ghost bound: string -> nat, moviesFile: Store, reviewsFile: Store)
    returns (movies: seq<Row>, reviews: seq<Row>)
    requires Terminates(up, bound)
    ensures movies == RunSpec(years, up, bound, moviesFile, reviewsFile).movies
    ensures reviews == RunSpec(years, up, bound, moviesFile, reviewsFile).reviews
  {
    movies := if moviesFile.Some? then moviesFile.value else [MoviesHeader];
    reviews := if reviewsFile.Some? then reviewsFile.value else [ReviewsHeader];
    var onDisk := if reviewsFile.Some? then reviewsFile else Some([]);
    var checkpoint := GetLastScrapedMovieId(onDisk);
    var scraping := !(checkpoint.Some? && checkpoint.value != "");
    movies, reviews := CrawlYears(years, up, bound, checkpoint, scraping, movies, reviews);
  }

  /** The script with the corrected resume point: a final header row does not count as a checkpoint. */
  method RunCorrected(years: seq<nat>, up: Upstream, ghost bound: string -> nat, moviesFile: Store, reviewsFile: Store)
    returns (movies: seq<Row>, reviews: seq<Row>)
    requires Terminates(up, bound)
    ensures movies == RunSpecCorrected(years, up, bound, moviesFile, reviewsFile).movies
    ensures reviews == RunSpecCorrected(years, up, bound, moviesFile, reviewsFile).reviews
  {
    movies := if moviesFile.Some? then moviesFile.value else [MoviesHeader];
    reviews := if reviewsFile.Some? then reviewsFile.value else [ReviewsHeader];
    var lastScraped := GetLastScrapedMovieId(Some(reviews));
    var checkpoint := if |reviews| > 0 && reviews[|reviews| - 1] == ReviewsHeader then None else lastScraped;
    var scraping := !(checkpoint.Some? && checkpoint.value != "");
    movies, reviews := CrawlYears(years, up, bound, checkpoint, scraping, movies, reviews);
  }

  /** The loop over the years: fetch each year's listing and crawl its entries. */
  method CrawlYears(years: seq<nat>, up: Upstream, ghost bound: string -> nat, checkpoint: Option<string>,
                    scraping: bool, movies: seq<Row>, reviews: seq<Row>)
    returns (movies': seq<Row>, reviews': seq<Row>)
    requires Terminates(up, bound)
    ensures movies' == Fold(up, bound, checkpoint, CrawlState(scraping, movies, reviews), Items(up, years)).movies
    ensures reviews' == Fold(up, bound, checkpoint, CrawlState(scraping, movies, reviews), Items(up, years)).reviews
  {
    ghost var init := CrawlState(scraping, movies, reviews);
    var scraping' := scraping;
    movies', reviews' := movies, reviews;
    for y := 0 to |years|
      invariant CrawlState(scraping', movies', reviews') == Fold(up, bound, checkpoint, init, Items(up, years[..y]))
    {
      var year := years[y];
      ghost var done := Items(up, years[..y]);
      assert years[..y + 1] == years[..y] + [year];
      ItemsSnoc(up, years[..y], year);
      var response := up.listing(year);
      if response.Received? && response.status == TooManyRequests {
        // skipped year
        assert Items(up, years[..y + 1]) == done;
      } else if response.RequestFailed? || RaisesForStatus(response.status) {
        // the exception handler of the year loop
        assert Items(up, years[..y + 1]) == done;
      } else if response.status == 200 {
        var entries := response.body;
        assert Items(up, years[..y + 1]) == done + YearItems(year, entries);
        FoldAppend(up, bound, checkpoint, init, done, YearItems(year, entries));
        scraping', movies', reviews' := CrawlListing(up, bound, checkpoint, year, entries, scraping', movies', reviews');
      } else {
        assert Items(up, years[..y + 1]) == done;
      }
    }
    assert years[..|years|] == years;
  }

  /** The loop over the entries of one listing page. */
  method CrawlListing(up: Upstream, ghost bound: string -> nat, checkpoint: Option<string>, year: nat,
                      entries: seq<Entry>, scraping: bool, movies: seq<Row>, reviews: seq<Row>)
    returns (scraping': bool, movies': seq<Row>, reviews': seq<Row>)
    requires Terminates(up, bound)
    ensures CrawlState(scraping', movies', reviews')
      == Fold(up, bound, checkpoint, CrawlState(scraping, movies, reviews), YearItems(year, entries))
  {
    ghost var s := CrawlState(scraping, movies, reviews);
    scraping', movies', reviews' := scraping, movies, reviews;
    for j := 0 to |entries|
      invariant CrawlState(scraping', movies', reviews') == Fold(up, bound, checkpoint, s, YearItems(year, entries[..j]))
    {
      ghost var before := YearItems(year, entries[..j]);
      assert entries[..j + 1][..j] == entries[..j];
      var entry := entries[j];
      assert YearItems(year, entries[..j + 1]) == before + OptionToSeq(EntryItem(year, entry));
      if entry.href.Some? {
        var url := entry.href.value;
        var found := ExtractId(url);
        if found.Some? {
          var id := found.value;
          var it := Item(entry.title, url, id, year);
          assert OptionToSeq(EntryItem(year, entry)) == [it];
          FoldSnoc(up, bound, checkpoint, s, before, it);
          if !scraping' {
            if checkpoint == Some(id) {
              scraping' := true;
            }
          } else {
            movies', reviews' := ProcessMovie(up, bound, it, movies', reviews');
          }
        } else {
          assert YearItems(year, entries[..j + 1]) == before;
        }
      } else {
        assert YearItems(year, entries[..j + 1]) == before;
      }
    }
    assert entries[..|entries|] == entries;
  }

  lemma ItemsSnoc(up: Upstream, years: seq<nat>, year: nat)
    ensures Items(up, years + [year]) == Items(up, years)
      + match ListedEntries(up.listing(year)) case None => [] case Some(entries) => YearItems(year, entries)
  {
    assert (years + [year])[..|years|] == years;
  }

  lemma FoldSnoc(up: Upstream, bound: string -> nat, checkpoint: Option<string>, s: CrawlState,
                 items: seq<Item>, it: Item)
    requires Terminates(up, bound)
    ensures Fold(up, bound, checkpoint, s, items + [it])
      == Step(up, bound, checkpoint, Fold(up, bound, checkpoint, s, items), it)
  {
    assert (items + [it])[..|items|] == items;
  }

  /** Folding over two item lists one after the other is folding over their concatenation. */
  lemma {:induction false} FoldAppend(up: Upstream, bound: string -> nat, checkpoint: Option<string>,
                                      s: CrawlState, a: seq<Item>, b: seq<Item>)
    requires Terminates(up, bound)
    ensures Fold(up, bound, checkpoint, s, a + b)
      == Fold(up, bound, checkpoint, Fold(up, bound, checkpoint, s, a), b)
    decreases |b|
  {
    if b == [] {
      assert a + b == a;
    } else {
      var b', x := b[..|b| - 1], b[|b| - 1];
      assert b == b' + [x];
      assert a + b == (a + b') + [x];
      FoldAppend(up, bound, checkpoint, s, a, b');
      FoldSnoc(up, bound, checkpoint, s, a + b', x);
      FoldSnoc(up, bound, checkpoint, Fold(up, bound, checkpoint, s, a), b', x);
    }
  }

  /** Both files are append-only: the rows present before the crawl are never changed. */
  lemma {:induction false} FoldAppendOnly(up: Upstream, bound: string -> nat, checkpoint: Option<string>,
                                          s: CrawlState, items: seq<Item>)
    requires Terminates(up, bound)
    ensures s.movies <= Fold(up, bound, checkpoint, s, items).movies
    ensures s.reviews <= Fold(up, bound, checkpoint, s, items).reviews
    decreases |items|
  {
    if items != [] {
      FoldAppendOnly(up, bound, checkpoint, s, items[..|items| - 1]);
    }
  }

  /** `start_scraping` never returns to false. */
  lemma {:induction false} ScrapingNeverResets(up: Upstream, bound: string -> nat, checkpoint: Option<string>,
                                               s: CrawlState, items: seq<Item>)
    requires Terminates(up, bound) && s.scraping
    ensures Fold(up, bound, checkpoint, s, items).scraping
    decreases |items|
  {
    if items != [] {
      ScrapingNeverResets(up, bound, checkpoint, s, items[..|items| - 1]);
    }
  }

  /** Once scraping, every item gets exactly one movie row, in order, whatever its reviews. */
  lemma {:induction false} ActiveCrawlWritesEveryMovie(up: Upstream, bound: string -> nat,
                                                       checkpoint: Option<string>, s: CrawlState, items: seq<Item>)
    requires Terminates(up, bound) && s.scraping
    ensures Fold(up, bound, checkpoint, s, items).movies == s.movies + MovieRows(up, items)
    decreases |items|
  {
    if items != [] {
      var front := items[..|items| - 1];
      ActiveCrawlWritesEveryMovie(up, bound, checkpoint, s, front);
      ScrapingNeverResets(up, bound, checkpoint, s, front);
    }
  }

  /** While skipping, items other than the checkpoint write nothing and leave the flag off. */
  lemma {:induction false} UnseenCheckpointWritesNothing(up: Upstream, bound: string -> nat,
                                                         checkpoint: Option<string>, s: CrawlState, items: seq<Item>)
    requires Terminates(up, bound) && !s.scraping
    requires forall i :: 0 <= i < |items| ==> checkpoint != Some(items[i].id)
    ensures Fold(up, bound, checkpoint, s, items) == s
    decreases |items|
  {
    if items != [] {
      UnseenCheckpointWritesNothing(up, bound, checkpoint, s, items[..|items| - 1]);
    }
  }

  /**
   * With checkpoint `items[k].id`, first met at `k`, the items up to and
   * including `k` write nothing and the crawl proceeds as a fresh one over the
   * items after `k`.
   */
  lemma ResumeSkipsThroughCheckpoint(up: Upstream, bound: string -> nat, checkpoint: Option<string>,
                                     s: CrawlState, items: seq<Item>, k: nat)
    requires Terminates(up, bound) && !s.scraping
    requires k < |items| && checkpoint == Some(items[k].id)
    requires forall i :: 0 <= i < k ==> items[i].id != items[k].id
    ensures Fold(up, bound, checkpoint, s, items)
      == Fold(up, bound, checkpoint, CrawlState(true, s.movies, s.reviews), items[k + 1..])
    ensures Fold(up, bound, checkpoint, s, items).movies == s.movies + MovieRows(up, items[k + 1..])
  {
    var before, rest := items[..k], items[k + 1..];
    assert items == before + ([items[k]] + rest);
    FoldAppend(up, bound, checkpoint, s, before, [items[k]] + rest);
    UnseenCheckpointWritesNothing(up, bound, checkpoint, s, before);
    FoldAppend(up, bound, checkpoint, s, [items[k]], rest);
    assert [items[k]][..0] == [];
    ActiveCrawlWritesEveryMovie(up, bound, checkpoint, CrawlState(true, s.movies, s.reviews), rest);
  }

  /** A year whose listing is not a 200 page adds no item, so it writes nothing. */
  lemma FailedListingAddsNoItems(up: Upstream, years: seq<nat>, year: nat)
    requires ListedEntries(up.listing(year)).None?
    ensures Items(up, years + [year]) == Items(up, years)
  {
    assert (years + [year])[..|years|] == years;
  }

  /**
   * An entry without a link, or whose link has no movie id, adds no item, so
   * it can neither be processed nor flip `start_scraping`; an entry with one
   * adds exactly its item.
   */
  lemma EntryItemsInOrder(year: nat, entries: seq<Entry>, e: Entry)
    ensures e.href.None? || ExtractId(e.href.value).None? ==>
      YearItems(year, entries + [e]) == YearItems(year, entries)
    ensures e.href.Some? && ExtractId(e.href.value).Some? ==>
      YearItems(year, entries + [e])
      == YearItems(year, entries) + [Item(e.title, e.href.value, ExtractId(e.href.value).value, year)]
  {
    assert (entries + [e])[..|entries|] == entries;
  }

  /**
   * A processed item adds one movie row, and then either nothing to
   * `reviews.csv` (when it already has a row for the id) or one row
   * `[id, cleaned text, "1" or "0"]` per fetched review, in fetch order.
   */
  lemma ProcessWritesEachReview(up: Upstream, bound: string -> nat, it: Item, movies: seq<Row>, reviews: seq<Row>)
    requires Terminates(up, bound)
    ensures Process(up, bound, it, movies, reviews).0 == movies + [MovieRow(it, up.cover(it.id))]
    ensures HasRowFor(Some(reviews), it.id) ==> Process(up, bound, it, movies, reviews).1 == reviews
    ensures !HasRowFor(Some(reviews), it.id) ==>
      var all, r := AllReviews(up.reviewPage, it.id, bound(it.id)), Process(up, bound, it, movies, reviews).1;
      |r| == |reviews| + |all| && r[..|reviews|] == reviews
      && forall i :: 0 <= i < |all| ==>
        r[|reviews| + i] == [it.id, Clean(all[i].0), if all[i].1 > 5 then "1" else "0"]
  {
    var all := AllReviews(up.reviewPage, it.id, bound(it.id));
    ReviewRowsInOrder(it.id, all);
    assert DecimalString(1) == "1" && DecimalString(0) == "0";
  }

  /** Processing a movie whose reviews were written adds no review row the second time. */
  lemma ReprocessingAddsNoReviews(up: Upstream, bound: string -> nat, it: Item, movies: seq<Row>, reviews: seq<Row>)
    requires Terminates(up, bound)
    requires HasRowFor(Some(reviews), it.id) || |AllReviews(up.reviewPage, it.id, bound(it.id))| > 0
    ensures var (movies1, reviews1) := Process(up, bound, it, movies, reviews);
      Process(up, bound, it, movies1, reviews1).1 == reviews1
  {
    var (movies1, reviews1) := Process(up, bound, it, movies, reviews);
    if !HasRowFor(Some(reviews), it.id) {
      var all := AllReviews(up.reviewPage, it.id, bound(it.id));
      var added := ReviewRows(it.id, all);
      ReviewRowsInOrder(it.id, all);
      assert added[0][0] == it.id;
      assert HasRowFor(Some(added), it.id);
      HasRowForAppend(reviews, added, it.id);
    }
  }

  /**
   * After a movie's reviews are written, the checkpoint a later run reads is
   * that movie's id.
   */
  lemma ProcessedItemBecomesCheckpoint(up: Upstream, bound: string -> nat, it: Item,
                                       movies: seq<Row>, reviews: seq<Row>)
    requires Terminates(up, bound) && !HasRowFor(Some(reviews), it.id)
    requires |AllReviews(up.reviewPage, it.id, bound(it.id))| > 0
    ensures LastScrapedId(Some(Process(up, bound, it, movies, reviews).1)) == Some(it.id)
    ensures ResumePoint(Process(up, bound, it, movies, reviews).1) == Some(it.id)
  {
    var all := AllReviews(up.reviewPage, it.id, bound(it.id));
    var added := ReviewRows(it.id, all);
    ReviewRowsInOrder(it.id, all);
    AppendMovesCheckpoint(reviews, added);
    var last := added[|added| - 1];
    assert last[2] == DecimalString(Label(all[|all| - 1].1));
    assert IsDigit(last[2][0]) && !IsDigit(ReviewsHeader[2][0]);
    assert (reviews + added)[|reviews + added| - 1] == last != ReviewsHeader;
  }

  /** With no checkpoint (none, or an empty first field), every item of every listed year is processed. */
  lemma NoCheckpointProcessesEveryItem(years: seq<nat>, up: Upstream, bound: string -> nat,
                                       moviesFile: Store, reviewsFile: Store)
    requires Terminates(up, bound)
    requires !Truthy(CheckpointOnDisk(reviewsFile))
    ensures RunSpec(years, up, bound, moviesFile, reviewsFile).movies
      == InitialStore(moviesFile, MoviesHeader) + MovieRows(up, Items(up, years))
  {
    ActiveCrawlWritesEveryMovie(up, bound, CheckpointOnDisk(reviewsFile),
      CrawlState(true, InitialStore(moviesFile, MoviesHeader), InitialStore(reviewsFile, ReviewsHeader)),
      Items(up, years));
  }

  /** Cold start: with no `reviews.csv`, the run processes every item it meets. */
  lemma ColdStartProcessesEveryItem(years: seq<nat>, up: Upstream, bound: string -> nat,
                                    moviesFile: Store, reviewsFile: Store)
    requires Terminates(up, bound)
    requires reviewsFile.None?
    ensures RunSpec(years, up, bound, moviesFile, reviewsFile).movies
      == InitialStore(moviesFile, MoviesHeader) + MovieRows(up, Items(up, years))
  {
    NoCheckpointProcessesEveryItem(years, up, bound, moviesFile, reviewsFile);
  }

  /**
   * As written, `get_last_scraped_movie_id` returns the header's `"ID"` for a
   * `reviews.csv` holding only its header. No movie id is `"ID"`, so the crawl
   * never starts: nothing is written to either file.
   */
  lemma HeaderRowStallsResume(years: seq<nat>, up: Upstream, bound: string -> nat, moviesFile: Store)
    requires Terminates(up, bound)
    ensures CheckpointOnDisk(Some([ReviewsHeader])) == Some("ID")
    ensures RunSpec(years, up, bound, moviesFile, Some([ReviewsHeader]))
      == CrawlState(false, InitialStore(moviesFile, MoviesHeader), [ReviewsHeader])
  {
    var items := Items(up, years);
    forall i | 0 <= i < |items| ensures Some("ID") != Some(items[i].id) {
      assert IsDigit(items[i].id[0]);
    }
    UnseenCheckpointWritesNothing(up, bound, Some("ID"),
      CrawlState(false, InitialStore(moviesFile, MoviesHeader), [ReviewsHeader]), items);
  }

  /**
   * Corrected: with no `reviews.csv`, or one holding only its header, the run
   * processes every item it meets.
   */
  lemma HeaderOnlyFileProcessesEveryItem(years: seq<nat>, up: Upstream, bound: string -> nat,
                                         moviesFile: Store, reviewsFile: Store)
    requires Terminates(up, bound)
    requires reviewsFile.None? || reviewsFile == Some([ReviewsHeader])
    ensures RunSpecCorrected(years, up, bound, moviesFile, reviewsFile).movies
      == InitialStore(moviesFile, MoviesHeader) + MovieRows(up, Items(up, years))
  {
    ActiveCrawlWritesEveryMovie(up, bound, None,
      CrawlState(true, InitialStore(moviesFile, MoviesHeader), InitialStore(reviewsFile, ReviewsHeader)),
      Items(up, years));
  }

  /** The correction changes the run only when `reviews.csv` exists and ends with its header row. */
  lemma CorrectionOnlyAffectsHeaderRow(years: seq<nat>, up: Upstream, bound: string -> nat,
                                       moviesFile: Store, reviewsFile: Store)
    requires Terminates(up, bound)
    requires !(reviewsFile.Some? && |reviewsFile.value| > 0
               && reviewsFile.value[|reviewsFile.value| - 1] == ReviewsHeader)
    ensures RunSpecCorrected(years, up, bound, moviesFile, reviewsFile)
      == RunSpec(years, up, bound, moviesFile, reviewsFile)
  {
    assert ResumePoint(InitialStore(reviewsFile, ReviewsHeader)) == CheckpointOnDisk(reviewsFile);
  }
}
