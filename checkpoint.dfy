/**
 * The two read-only scans of `reviews.csv` that serve as the crawl's
 * checkpoint: `reviews_already_scraped` and `get_last_scraped_movie_id`.
 */
module Checkpoint {

  import opened Wrappers

  /** One CSV row as `csv.reader` yields it. */
  type Row = seq<string>

  /** A CSV file: `None` when it does not exist, otherwise its rows in file order. */
  type Store = Option<seq<Row>>

  /** Some non-empty row of the store has `id` in its first column. */
  predicate HasRowFor(store: Store, id: string)
  {
    store.Some? && exists i :: 0 <= i < |store.value| && |store.value[i]| > 0 && store.value[i][0] == id
  }

  /** `reviews_already_scraped(movie_id)`: a scan that stops at the first row for `id`. */
  method ReviewsAlreadyScraped(store: Store, id: string) returns (found: bool)
    ensures found <==> HasRowFor(store, id)
  {
    if store.None? {
      return false;
    }
    var rows := store.value;
    var i := 0;
    while i < |rows|
      invariant 0 <= i <= |rows|
      invariant forall k :: 0 <= k < i ==> !(|rows[k]| > 0 && rows[k][0] == id)
    {
      var row := rows[i];
      if |row| > 0 && row[0] == id {
        return true;
      }
      i := i + 1;
    }
    return false;
  }

  /**
   * The first field of the final row; `None` when the file is absent, has no
   * rows, or ends with an empty row.
   */
  function LastScrapedId(store: Store): (id: Option<string>)
  {
    if store.None? || |store.value| == 0 then None
    else
      var last := store.value[|store.value| - 1];
      if |last| == 0 then None else Some(last[0])
  }

  /** `get_last_scraped_movie_id`: a scan that remembers the row it saw last. */
  method GetLastScrapedMovieId(store: Store) returns (id: Option<string>)
    ensures id == LastScrapedId(store)
  {
    if store.None? {
      return None;
    }
    var rows := store.value;
    var lastRow: Option<Row> := None;
    for i := 0 to |rows|
      invariant lastRow == if i == 0 then None else Some(rows[i - 1])
    {
      lastRow := Some(rows[i]);
    }
    if lastRow.Some? && |lastRow.value| > 0 {
      return Some(lastRow.value[0]);
    }
    return None;
  }

  /** The checkpoint is always an id the store has a row for. */
  lemma CheckpointHasRow(store: Store)
    ensures LastScrapedId(store).Some? ==> HasRowFor(store, LastScrapedId(store).value)
  {
    if LastScrapedId(store).Some? {
      var rows := store.value;
      assert |rows[|rows| - 1]| > 0 && rows[|rows| - 1][0] == LastScrapedId(store).value;
    }
  }

  /** Appending rows whose last one is non-empty moves the checkpoint to that row's id. */
  lemma AppendMovesCheckpoint(rows: seq<Row>, added: seq<Row>)
    requires |added| > 0 && |added[|added| - 1]| > 0
    ensures LastScrapedId(Some(rows + added)) == Some(added[|added| - 1][0])
  {
  }

  /** A row for `id` is in the concatenation iff it is in one of the parts. */
  lemma HasRowForAppend(rows: seq<Row>, added: seq<Row>, id: string)
    ensures HasRowFor(Some(rows + added), id) <==> HasRowFor(Some(rows), id) || HasRowFor(Some(added), id)
  {
    var all := rows + added;
    if HasRowFor(Some(all), id) {
      var i :| 0 <= i < |all| && |all[i]| > 0 && all[i][0] == id;
      if i >= |rows| {
        assert added[i - |rows|] == all[i];
      }
    }
    if HasRowFor(Some(added), id) {
      var i :| 0 <= i < |added| && |added[i]| > 0 && added[i][0] == id;
      assert all[|rows| + i] == added[i];
    }
    if HasRowFor(Some(rows), id) {
      var i :| 0 <= i < |rows| && |rows[i]| > 0 && rows[i][0] == id;
      assert all[i] == rows[i];
    }
  }
}
