# Filmaffinity review crawler, modelled in Dafny

`main.py` crawls the yearly "top" listings of Filmaffinity. For every movie
past a resume checkpoint it appends one row to `movies.csv`. It then appends
one row per fetched review to `reviews.csv`, unless that file already has rows
for the movie. Each review row is the movie id, the cleaned review text and a
binary label (`1` when the rating is above 5).

This project models the decision logic of that script once the network, the
HTML parser and the file system are replaced by values:

- `Http`: a reply is `RequestFailed` (a `RequestException` raised by the call)
  or `Received(status, body)`. `raise_for_status` raises for the statuses
  400 to 599.
- `Cleaning`: `limpiar_comentario`. It removes every character outside the
  class `[a-zA-Z0-9\s.,!?]`, then applies `str.strip()`. Whitespace is the
  set of characters for which Python's `str.isspace()` holds, which is also
  the set that the regex `\s` matches.
- `MovieId`: `re.search(r'film(\d+)\.html', url).group(1)`, written as a
  left-to-right search for the leftmost match.
- `Pagination`: `get_all_reviews`. The reply for page `n` of a movie is a
  function of the movie id and `n`.
  - A 429 reply skips to the next page number.
  - Any other error stops the loop.
  - A page that lacks texts or ratings ends the loop.
  - Every other page contributes its texts and ratings zipped together.
- `Checkpoint`: `reviews_already_scraped` and `get_last_scraped_movie_id`.
  Each scans `reviews.csv`, which is modelled as `None` (absent) or its rows
  (each a sequence of strings) in file order.
- `Crawl`: the script body.
  - `Run` opens both files. A new file gets its header row. `Run` then
    reads the checkpoint as the script does, sets `start_scraping`, and
    walks the years. `RunCorrected` is the same run with the corrected
    resume point of the finding below.
  - `CrawlYears` and `CrawlListing` are the year loop and the entry loop.
  - `ProcessMovie` and `WriteReviews` handle one movie past the checkpoint.
  - Each method is proved against a function:
    - `WriteReviews` against `ReviewRows`;
    - `ProcessMovie` against `Process`;
    - `CrawlListing` and `CrawlYears` against `Fold`, which applies `Step`
      to each item the listings yield;
    - `Run` against `RunSpec`, which composes these;
    - `RunCorrected` against `RunSpecCorrected` in the same way.

    The lemmas about `Fold` state the resume behaviour and the append-only
    writes.

By design, the source's loop over review pages never ends while the server
keeps answering 429. So `GetAllReviews` takes a ghost page `bound` whose reply
is terminal. The driver takes a function `bound` that gives such a page for
every id string (`Crawl.Terminates`), not only for the ids the crawl meets.

Behaviours of the code that the model keeps:

- The item whose id equals the checkpoint is itself skipped (main.py:138-141).
  Only the items after it are processed.
- The checkpoint is tested by Python truthiness (main.py:113). An empty first
  field in the last row therefore means "no checkpoint", just as an absent
  file does.
- `reviews_already_scraped` ignores empty rows (main.py:58).
- A review page with a status other than 429 and below 400 is parsed like a
  200 page (main.py:32). Only the listing requires exactly 200 (main.py:124).

## Model

| member | source | states |
|---|---|---|
| Cleaning.Filter | main.py:90 | `re.sub` over the negated class: keeps the characters of the class in order; never longer than its input (FilterSpec states the rest) |
| Cleaning.TrimStart | main.py:91 | the left half of `strip()`: drops leading whitespace; never longer than its input (TrimStartSpec states the rest) |
| Cleaning.TrimEnd | main.py:91 | the right half of `strip()`: drops trailing whitespace; never longer than its input (TrimEndSpec states the rest) |
| Cleaning.Strip | main.py:91 | `str.strip()` as the right strip of the left strip; never longer than its input (StripFrame states the rest) |
| Cleaning.Clean | main.py:88-92 | `limpiar_comentario`: the filter, then the strip; never longer than the comment (CleanOnlyKept, CleanIsStripped, CleanIsSubsequence, CleanIdempotent state the rest) |
| Cleaning.FilterSpec | main.py:90 | the filtered text holds only characters of the class, and each of them exactly as often as the input |
| Cleaning.FilterIsSubsequence | main.py:90 | the filter only deletes characters: its result is a subsequence of the input |
| Cleaning.FilterKeepsKept | main.py:90 | a text made only of characters of the class passes the filter unchanged |
| Cleaning.TrimStartSpec | main.py:91 | the left strip keeps a suffix, removes only whitespace, and the kept part does not start with whitespace |
| Cleaning.TrimEndSpec | main.py:91 | the right strip keeps a prefix, removes only whitespace, and the kept part does not end with whitespace |
| Cleaning.StripFrame | main.py:91 | `strip()` keeps one contiguous slice, the parts cut on either side are whitespace, and the slice is stripped |
| Cleaning.StripFramedByWhitespace | main.py:91 | the input is whitespace, then the stripped text, then whitespace |
| Cleaning.StripIsSubsequence | main.py:91 | the stripped text is a subsequence of its input |
| Cleaning.CleanOnlyKept | main.py:88-92 | a cleaned comment holds only ASCII letters, digits, whitespace and `. , ! ?` |
| Cleaning.CleanIsStripped | main.py:88-92 | a cleaned comment neither starts nor ends with whitespace |
| Cleaning.CleanFramedByWhitespace | main.py:88-92 | the filtered comment is the cleaned one with only whitespace around it |
| Cleaning.CleanIsSubsequence | main.py:88-92 | a cleaned comment keeps the order of the original: it is a subsequence of it |
| Cleaning.CleanIdempotent | main.py:88-92 | cleaning a cleaned comment changes nothing |
| MovieId.MatchCapturesDigitRun | main.py:134 | a match at a position captures the whole digit run after `film` there |
| MovieId.MatchIsUnique | main.py:134 | at most one id can be captured at a given position |
| MovieId.MatchAt | main.py:134 | trying the pattern at one position gives the id of a match there, or none when no id matches there |
| MovieId.Search | main.py:134 | scanning from `p` gives the first position at or after `p` where the pattern matches, with its id, or none when it matches nowhere from `p` on |
| MovieId.ExtractId | main.py:134-136 | the extracted id is a non-empty digit string captured by the leftmost match; none means the pattern matches nowhere |
| Pagination.Zip | main.py:38 | `zip` pairs the texts and ratings index by index, up to the shorter length |
| Pagination.Harvest | main.py:37-42 | definition: the pairs that the pages of a range contribute, in page order; a 429 or terminal page contributes none (HarvestSplit, ErrorKeepsEarlierReviews and FullPagesThenEmpty state its properties) |
| Pagination.HarvestSplit | main.py:37-42 | splitting a page range splits the gathered pairs: the earlier pages' pairs come first |
| Pagination.AllReviews | main.py:19-49 | definition: the harvest of pages 1 up to the stop page, against which GetAllReviews is proved |
| Pagination.StopPage | main.py:23-47 | the page that ends the loop is the first page from the start whose reply is an error or an incomplete page |
| Pagination.GetAllReviews | main.py:19-49 | pages are requested as 1, 2, 3, … up to and including the stop page, and the result is the in-order concatenation of each full page's zipped pairs |
| Pagination.AppendPairs | main.py:37-41 | the inner loop appends the zipped pairs of one page, in order, to the gathered ones |
| Pagination.StopPageIsFirstTerminal | main.py:23-47 | the stop page is the first terminal page, whichever terminal bound was used to find it |
| Pagination.ErrorKeepsEarlierReviews | main.py:45-49 | a request error on page n returns exactly the pairs of the pages before n |
| Pagination.FullPagesThenEmpty | main.py:37-44 | n full 200 pages followed by an empty page: n + 1 is the stop page, the result is those n pages' pairs, and each full page contributes its zip |
| Pagination.RateLimitedPageSkipped | main.py:28-31 | a 429 page is not the stop page and adds nothing; the next page is requested after it |
| Checkpoint.ReviewsAlreadyScraped | main.py:51-60 | true exactly when the file exists and some non-empty row has the id in its first column |
| Checkpoint.LastScrapedId | main.py:69-73 | definition: the first field of the final row, or none; GetLastScrapedMovieId is proved against it and CheckpointHasRow states its property |
| Checkpoint.GetLastScrapedMovieId | main.py:62-73 | the first field of the final row; none when the file is absent, has no rows, or ends with an empty row |
| Checkpoint.CheckpointHasRow | main.py:62-73 | a checkpoint always names an id that the membership scan finds |
| Checkpoint.AppendMovesCheckpoint | main.py:62-73 | appending rows that end with a non-empty row moves the checkpoint to that row's id |
| Checkpoint.HasRowForAppend | main.py:51-60 | a row for an id is in appended rows exactly when it is in the old rows or in the added ones |
| Crawl.Label | main.py:158 | the label is 0 or 1, and it is 1 exactly when the rating is above 5 (5 gives 0, 6 gives 1) |
| Crawl.DecimalString | main.py:147 | an integer cell is `str(n)`: a non-empty digit string that denotes `n`, with no leading zero unless it is `"0"` |
| Crawl.MovieRow | main.py:147 | the movie row has five cells: title, url, id, the year written in decimal, and the cover link or an empty cell |
| Crawl.ReviewRow | main.py:156-159 | the review row has three cells: the id, the cleaned text, and `"1"` when the rating is above 5, else `"0"` |
| Crawl.ReviewRows | main.py:156-159 | definition: one review row per fetched review (ReviewRowsInOrder states its properties) |
| Crawl.EntryItem | main.py:130-136 | definition: an entry yields an item exactly when it has a link and the link has a movie id; the item carries the link text, the link, that id and the year (EntryItemsInOrder states its properties) |
| Crawl.ReviewRowsInOrder | main.py:156-159 | one review row per fetched review, the i-th being `[id, clean(text), label(rating)]` of the i-th review |
| Crawl.MovieRows | main.py:146-147 | one movie row per processed item, in order: title, url, id, year and cover (empty when there is none) |
| Crawl.ListedEntries | main.py:118-126 | a listing yields entries exactly when its reply is received with status 200; 429, errors and other statuses yield none |
| Crawl.YearItems | main.py:128-136 | every item of a listing carries a digit-string id |
| Crawl.Items | main.py:115-136 | every item the crawl meets, over all years, carries a digit-string id |
| Crawl.EntryItemsInOrder | main.py:129-136 | an entry without a link or without an id in its link adds no item; one with an id adds exactly its item |
| Crawl.Process | main.py:146-162 | definition: one movie row, then the review rows only when no row for the id exists (ProcessWritesEachReview states it) |
| Crawl.Step | main.py:138-162 | definition: while skipping, an item only turns the flag on when its id is the checkpoint; once scraping, an item is processed |
| Crawl.Fold | main.py:115-172 | definition: `Step` over the items in order (the Fold lemmas state its properties) |
| Crawl.CheckpointOnDisk | main.py:104-113 | definition: the checkpoint as the script reads it: from the existing file, or from an empty file when the header row is still buffered |
| Crawl.RunSpec | main.py:95-172 | definition: the whole run as written, against which Run is proved |
| Crawl.ResumePoint | main.py:112-113 | definition: the corrected checkpoint, none when the final row is the header, otherwise the first field of the final row (HeaderOnlyFileProcessesEveryItem, CorrectionOnlyAffectsHeaderRow and ProcessedItemBecomesCheckpoint state its properties) |
| Crawl.RunSpecCorrected | main.py:95-172 | definition: the whole run with the corrected checkpoint, against which RunCorrected is proved |
| Crawl.ProcessMovie | main.py:146-162 | processing a movie appends its movie row and then its review rows, unless the review store already has a row for its id |
| Crawl.WriteReviews | main.py:154-159 | the review loop appends exactly the review rows of the fetched reviews, in order |
| Crawl.CrawlListing | main.py:128-166 | the entry loop has the effect of folding `Step` over the listing's items |
| Crawl.CrawlYears | main.py:115-172 | the year loop has the effect of folding `Step` over every item of every listed year |
| Crawl.Run | main.py:95-172 | the whole script, as written, ends with the two stores that `RunSpec` gives for the initial files |
| Crawl.RunCorrected | main.py:95-172 | the script with the corrected checkpoint ends with the two stores that `RunSpecCorrected` gives |
| Crawl.FoldAppend | main.py:115-172 | the crawl over two item lists run one after the other is the crawl over their concatenation |
| Crawl.FoldAppendOnly | main.py:98-110 | both files are append-only: the rows present before the crawl are kept unchanged as a prefix |
| Crawl.ScrapingNeverResets | main.py:138-141 | once `start_scraping` is true it stays true |
| Crawl.ActiveCrawlWritesEveryMovie | main.py:138-147 | while scraping, every item gets exactly one movie row, in order, whether or not its reviews exist |
| Crawl.UnseenCheckpointWritesNothing | main.py:138-141 | while skipping, items other than the checkpoint write nothing and the flag stays false |
| Crawl.ResumeSkipsThroughCheckpoint | main.py:138-141 | with checkpoint X first met at item k, items up to and including k write nothing and every later item is processed |
| Crawl.FailedListingAddsNoItems | main.py:118-124 | a year whose listing is a 429, an error or not a 200 adds no item, so nothing is written for that year |
| Crawl.ProcessWritesEachReview | main.py:146-159 | a processed item adds one movie row, then nothing to reviews when its id already has a row, or else one `[id, cleaned text, "1" or "0"]` row per fetched review, in fetch order |
| Crawl.ReprocessingAddsNoReviews | main.py:149-151 | once a movie's reviews were written, processing it again adds no review row |
| Crawl.ProcessedItemBecomesCheckpoint | main.py:62-73 | after a movie's reviews are written, the checkpoint a later run reads is that movie's id |
| Crawl.NoCheckpointProcessesEveryItem | main.py:112-113 | with no checkpoint as the script reads it (none, or an empty first field), every item of every listed year gets a movie row |
| Crawl.ColdStartProcessesEveryItem | main.py:107-113 | as written, with no review file every item is processed |
| Crawl.HeaderRowStallsResume | main.py:110-113 | as written, a review file holding only its header yields the checkpoint `"ID"`, and the run then writes no movie or review row (a new `movies.csv` still gets its header) |
| Crawl.HeaderOnlyFileProcessesEveryItem | main.py:107-113 | corrected: with no review file, or one holding only its header, every item is processed |
| Crawl.CorrectionOnlyAffectsHeaderRow | main.py:112-113 | the corrected run equals the run as written unless the review file exists and ends with its header row |

## Left out

- HTTP requests and BeautifulSoup parsing are not modelled. A listing reply
  carries its `div.mc-title` entries, each reduced to the `href` of its first
  link (or none) and its link text. A review page carries its review texts and
  ratings.
- `obtener_portada_url` (main.py:75-86) needs the network and HTML lookup, so
  it is an opaque function from a movie id to an optional cover link.
- `get_text(strip=True)` is not modelled: the reply already holds the
  stripped texts.
- The uncaught `ValueError` of `int(...)` on a non-numeric rating
  (main.py:40) is not modelled. Ratings are integers by type.
- Pagination.GetAllReviews: requires a page whose reply ends the loop. The
  source loops forever when every page after some point answers 429.
- CSV quoting, encoding and file modes are not modelled. A row is read back
  exactly as it was written, and `None` is written as an empty cell.
  `os.path.isfile` becomes the absent/present distinction of a store.
- Write buffering is modelled in one place only. The header row of a new
  `reviews.csv` (main.py:110) is still in the writer's buffer when
  main.py:112 reads the checkpoint, so that read sees an empty file
  (`CheckpointOnDisk`). Every other write is taken to be visible to later
  reads. The real script may still have review rows in its buffer when
  `reviews_already_scraped` reads the file.
- `print` logging, the hard-coded URLs and the year range 2021-2024 are left
  out. The years are a parameter of `Run`.
- MovieId.ExtractId: `\d` is taken as the ASCII digits `0`-`9`. Python's
  `\d` on `str` patterns also matches other Unicode decimal digits.
- `KeyboardInterrupt` and I/O errors of the writers are not modelled.

## Findings

| source | as written | input that shows it | evidently intended | confidence | as-written member | corrected member |
|---|---|---|---|---|---|---|
| main.py:62-73, read at main.py:112-113 | `get_last_scraped_movie_id` returns the first field of the last row, even when that row is the header `ID, Comentario, Puntuación`. The result `"ID"` is truthy, so `start_scraping` starts false, and no extracted movie id (all digits) ever equals `"ID"`. | a `reviews.csv` that holds only its header row: every later run writes no movie or review row (a new `movies.csv` still gets its header) | a final header row is not a checkpoint, so the crawl starts from the beginning | not executed | Crawl.HeaderRowStallsResume | Crawl.RunSpecCorrected, with Crawl.HeaderOnlyFileProcessesEveryItem |
