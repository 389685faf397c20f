/**
 What a whole run does: the row driver `handle_new_csv`, the `fetch`, `stop_scraping`,
 `reset` and `progress` actions, and the stop flag across all of them.
 */
module RunFacts {
  import opened Wrappers
  import opened Eta
  import opened Pipeline
  import opened ItemFacts

  // ---------------------------------------------------------------- handle_new_csv

  /** However the rows end, the driver finalizes: the log says so and the marker
      file is gone. */
  lemma {:induction false} HandleNewCsvFinalizes(w: World, s: State, rows: seq<CsvRow>, i: nat, today: string)
    requires i <= |rows|
    ensures var t := HandleNewCsv(w, s, rows, i, today);
      t.log == FinalizingLog && !t.marker
    decreases |rows| - i
  {
    if i < |rows| && !ScrapingStopped(s) {
      var row := rows[i];
      match RowLink(row.youtubeLink)
      case None =>
        HandleNewCsvFinalizes(w, s.(invalidLinks := s.invalidLinks + [Entry(Some(row.idTag), row.youtubeLink)]), rows, i + 1, today);
      case Some(link) =>
        var s1 := ScrapeYoutubeData(w, s, link, row.idTag, today).1.(current := i + 1);
        if !ScrapingStopped(s1) {
          HandleNewCsvFinalizes(w, s1, rows, i + 1, today);
        }
    }
  }

  /** A stop seen before a row ends the run there: no further row is looked at, no
      yt-dlp run or upload happens, and only the finalization is left behind. */
  lemma HandleNewCsvStopsAtOnce(w: World, s: State, rows: seq<CsvRow>, i: nat, today: string)
    requires i <= |rows| && ScrapingStopped(s)
    ensures HandleNewCsv(w, s, rows, i, today) == FinalizeScraping(s)
  {
  }

  /** The driver only extends the lists, the runs, the uploads and the bucket, never
      lowers the stop flag, and leaves `total` alone; `current` only moves forward and
      stays within the rows. */
  lemma {:induction false} HandleNewCsvGrows(w: World, s: State, rows: seq<CsvRow>, i: nat, today: string)
    requires i <= |rows| && s.current <= i
    ensures var t := HandleNewCsv(w, s, rows, i, today);
      Grows(s, t) && s.current <= t.current <= |rows|
    decreases |rows| - i
  {
    if i < |rows| && !ScrapingStopped(s) {
      var row := rows[i];
      if Scrapable(row) {
        var s1 := ScrapedRow(w, s, rows, i, today);
        if !ScrapingStopped(s1) {
          HandleNewCsvGrows(w, s1, rows, i + 1, today);
          GrowsTransitive(s, s1, HandleNewCsv(w, s1, rows, i + 1, today));
        }
      } else {
        var s1 := s.(invalidLinks := s.invalidLinks + [Entry(Some(row.idTag), row.youtubeLink)]);
        HandleNewCsvGrows(w, s1, rows, i + 1, today);
        GrowsTransitive(s, s1, HandleNewCsv(w, s1, rows, i + 1, today));
      }
    }
  }

  /** A row the driver hands to the item pipeline: its link converts (or needs no
      conversion). */
  predicate Scrapable(row: CsvRow)
  {
    RowLink(row.youtubeLink).Some?
  }

  /** A run that ends without the stop flag has handed every scrapable row to the item
      pipeline: `current` is past each of them. */
  lemma {:induction false} HandleNewCsvCoversRows(w: World, s: State, rows: seq<CsvRow>, i: nat, today: string)
    requires i <= |rows| && s.current <= i && StopConsistent(s)
    ensures var t := HandleNewCsv(w, s, rows, i, today);
      !t.stopped ==> forall k | i <= k < |rows| && Scrapable(rows[k]) :: k < t.current
    decreases |rows| - i
  {
    if i < |rows| && !ScrapingStopped(s) {
      var row := rows[i];
      if Scrapable(row) {
        var s1 := ScrapedRow(w, s, rows, i, today);
        if !ScrapingStopped(s1) {
          HandleNewCsvCoversRows(w, s1, rows, i + 1, today);
          HandleNewCsvGrows(w, s1, rows, i + 1, today);
        }
      } else {
        HandleNewCsvCoversRows(w, s.(invalidLinks := s.invalidLinks + [Entry(Some(row.idTag), row.youtubeLink)]), rows, i + 1, today);
      }
    }
  }

  /** `current` ends one past the last scrapable row the run reached, or unchanged when
      it reached none: rows whose short link does not convert never move it. */
  lemma {:induction false} HandleNewCsvLastRow(w: World, s: State, rows: seq<CsvRow>, i: nat, today: string)
    requires i <= |rows| && s.current <= i
    ensures var t := HandleNewCsv(w, s, rows, i, today);
      t.current == s.current || (i < t.current <= |rows| && Scrapable(rows[t.current - 1]))
    decreases |rows| - i
  {
    if i < |rows| && !ScrapingStopped(s) {
      var row := rows[i];
      if Scrapable(row) {
        var s1 := ScrapedRow(w, s, rows, i, today);
        if !ScrapingStopped(s1) {
          HandleNewCsvLastRow(w, s1, rows, i + 1, today);
        }
      } else {
        HandleNewCsvLastRow(w, s.(invalidLinks := s.invalidLinks + [Entry(Some(row.idTag), row.youtubeLink)]), rows, i + 1, today);
      }
    }
  }

  /** A scrapable row is run through the item pipeline with its converted link and id tag,
      `current` becomes one past it, and the driver goes on from there unless the flag or
      the marker is now up. */
  lemma ScrapableRow(w: World, s: State, rows: seq<CsvRow>, i: nat, today: string)
    requires i < |rows| && !ScrapingStopped(s) && Scrapable(rows[i])
    ensures var s1 := ScrapeYoutubeData(w, s, RowLink(rows[i].youtubeLink).value, rows[i].idTag, today).1.(current := i + 1);
      HandleNewCsv(w, s, rows, i, today)
      == if ScrapingStopped(s1) then FinalizeScraping(s1) else HandleNewCsv(w, s1, rows, i + 1, today)
  {
  }

  /** A row whose short link does not convert is listed in `invalid_links` under its own
      id tag and link, and the driver moves on to the next row without touching `current`
      or running the item pipeline. */
  lemma UnconvertibleRow(w: World, s: State, rows: seq<CsvRow>, i: nat, today: string)
    requires i < |rows| && !ScrapingStopped(s) && !Scrapable(rows[i])
    ensures HandleNewCsv(w, s, rows, i, today)
            == HandleNewCsv(w, s.(invalidLinks := s.invalidLinks + [Entry(Some(rows[i].idTag), rows[i].youtubeLink)]),
                            rows, i + 1, today)
  {
  }

  /** A run that ends without the stop flag has listed every row whose short link does
      not convert in `invalid_links`. */
  lemma {:induction false} HandleNewCsvListsUnconvertible(w: World, s: State, rows: seq<CsvRow>, i: nat, today: string)
    requires i <= |rows| && s.current <= i && StopConsistent(s)
    ensures var t := HandleNewCsv(w, s, rows, i, today);
      !t.stopped ==>
        forall k | i <= k < |rows| && !Scrapable(rows[k]) ::
          Entry(Some(rows[k].idTag), rows[k].youtubeLink) in t.invalidLinks
    decreases |rows| - i
  {
    if i < |rows| && !ScrapingStopped(s) {
      var row := rows[i];
      if Scrapable(row) {
        var s1 := ScrapedRow(w, s, rows, i, today);
        if !ScrapingStopped(s1) {
          HandleNewCsvListsUnconvertible(w, s1, rows, i + 1, today);
        }
      } else {
        var e := Entry(Some(row.idTag), row.youtubeLink);
        var s1 := s.(invalidLinks := s.invalidLinks + [e]);
        HandleNewCsvListsUnconvertible(w, s1, rows, i + 1, today);
        HandleNewCsvGrows(w, s1, rows, i + 1, today);
        var t := HandleNewCsv(w, s1, rows, i + 1, today);
        assert s1.invalidLinks[|s.invalidLinks|] == e;
        assert t.invalidLinks[|s.invalidLinks|] == e;
      }
    }
  }

  /** The state after a scrapable row: `current` is one past it, and the driver goes on
      from there unless a stop arrived. */
  lemma ScrapedRow(w: World, s: State, rows: seq<CsvRow>, i: nat, today: string) returns (s1: State)
    requires i < |rows| && !ScrapingStopped(s) && Scrapable(rows[i])
    ensures s1.current == i + 1 && Grows(s, s1)
    ensures HandleNewCsv(w, s, rows, i, today)
            == if ScrapingStopped(s1) then FinalizeScraping(s1) else HandleNewCsv(w, s1, rows, i + 1, today)
  {
    var row := rows[i];
    var link := RowLink(row.youtubeLink).value;
    ScrapeGrows(w, s, link, row.idTag, today);
    s1 := ScrapeYoutubeData(w, s, link, row.idTag, today).1.(current := i + 1);
  }

  // ---------------------------------------------------------------- fetch

  /** With the stop flag set, `fetch` answers "stopped" after finalizing, and touches
      neither `total` nor `current`. */
  lemma FetchWhenStopped(w: World, s: State, csv: Csv, today: string)
    requires s.stopped
    ensures Fetch(w, s, csv, today) == (StoppedReply, FinalizeScraping(s))
  {
  }

  /** Without the in-memory flag, `fetch` ignores the marker file: it deletes it along
      with the rest of `tmp/` before polling, so a stop that survived only as the
      file (across a restart) does not stop the next upload. */
  lemma FetchIgnoresMarker(w: World, s: State, csv: Csv, today: string)
    requires !s.stopped
    ensures Fetch(w, s, csv, today) == Fetch(w, s.(marker := !s.marker), csv, today)
    ensures Fetch(w, s, csv, today).0 != StoppedReply
  {
  }

  /** Without the stop flag, `fetch` rejects the file exactly when its headers are not
      `idTag,YoutubeLink`; a rejected file only sets `total` to its row count and
      `current` to zero (besides deleting the marker file). */
  lemma FetchHeaderCheck(w: World, s: State, csv: Csv, today: string)
    requires !s.stopped
    ensures var (r, t) := Fetch(w, s, csv, today);
      && r != StoppedReply
      && (r == InvalidCsvFormat <==> csv.headers != ExpectedHeaders)
      && (r == InvalidCsvFormat ==> t == s.(total := |csv.rows|, current := 0, marker := false))
  {
  }

  /** A processed file: `total` is its row count, `current` stays within it, the run is
      finalized, and if no stop arrived every scrapable row was handed to the item
      pipeline. */
  lemma FetchProcessed(w: World, s: State, csv: Csv, today: string)
    requires !s.stopped && csv.headers == ExpectedHeaders
    ensures var (r, t) := Fetch(w, s, csv, today);
      && r == RowsProcessed
      && t.total == |csv.rows| && t.current <= |csv.rows|
      && t.log == FinalizingLog && !t.marker
      && (!t.stopped ==> forall k | 0 <= k < |csv.rows| && Scrapable(csv.rows[k]) :: k < t.current)
  {
    var s4 := s.(marker := false, total := |csv.rows|, current := 0);
    HandleNewCsvFinalizes(w, s4, csv.rows, 0, today);
    HandleNewCsvGrows(w, s4, csv.rows, 0, today);
    HandleNewCsvCoversRows(w, s4, csv.rows, 0, today);
  }

  // ---------------------------------------------------------------- the stop flag

  /** Once `stop_scraping` has run, the flag is polled as set by every action until
      `reset`, and `reset` clears it. */
  lemma StoppedUntilReset(w: World, s: State, csv: Csv, rows: seq<CsvRow>, i: nat,
                          link: string, idTag: string, today: string, now: int)
    requires s.stopped && i <= |rows|
    ensures ScrapingStopped(StopScraping(s)) && StopScraping(s).stopped
    ensures ScrapingStopped(CheckScrapingStatus(s).1) && !CheckScrapingStatus(s).0
    ensures CheckScrapingStatus(s).1.stopped
    ensures ScrapingStopped(Fetch(w, s, csv, today).1) && Fetch(w, s, csv, today).0 == StoppedReply
    ensures Fetch(w, s, csv, today).1.stopped
    ensures ScrapingStopped(HandleNewCsv(w, s, rows, i, today)) && HandleNewCsv(w, s, rows, i, today).stopped
    ensures ScrapingStopped(ScrapeYoutubeData(w, s, link, idTag, today).1)
    ensures ScrapeYoutubeData(w, s, link, idTag, today).1.stopped
    ensures ScrapingStopped(Progress(s, now).1) && Progress(s, now).1.stopped
    ensures !ScrapingStopped(Reset(s))
  {
    ScrapeWhenStopped(w, s, link, idTag, today);
  }

  /** `stop_scraping` followed by `fetch`: the request is refused and the flag stays. */
  lemma FetchAfterStop(w: World, s: State, csv: Csv, today: string)
    ensures var (r, t) := Fetch(w, StopScraping(s), csv, today);
      r == StoppedReply && ScrapingStopped(t) && t.calls == s.calls && t.total == s.total
  {
  }

  /** The marker file never exists without the in-memory flag: every action keeps it so. */
  lemma StopConsistentKept(w: World, s: State, csv: Csv, link: string, idTag: string, today: string, now: int)
    requires StopConsistent(s)
    ensures StopConsistent(StopScraping(s)) && StopConsistent(Reset(s))
    ensures StopConsistent(FinalizeScraping(s)) && StopConsistent(CheckScrapingStatus(s).1)
    ensures StopConsistent(ScrapeYoutubeData(w, s, link, idTag, today).1)
    ensures StopConsistent(Fetch(w, s, csv, today).1)
    ensures StopConsistent(Progress(s, now).1)
  {
    ScrapeGrows(w, s, link, idTag, today);
    if !s.stopped && csv.headers == ExpectedHeaders {
      HandleNewCsvFinalizes(w, s.(marker := false, total := |csv.rows|, current := 0), csv.rows, 0, today);
    }
  }

  /** `reset` empties the progress record and clears the stop: the next `progress`
      report shows nothing done, nothing to do and no remaining time, while the bucket
      is kept. */
  lemma ResetClears(s: State, now: int)
    ensures var t := Reset(s);
      && !ScrapingStopped(t) && t.store == s.store
      && Progress(t, now).0 == Report(0, 0, 0, 0, 0, [], [], [], NoLog, 0, Hms(0, 0, 0))
  {
  }

  // ---------------------------------------------------------------- progress

  /** The start time is taken by the first `progress` after a reset and kept: a later
      report measures from it, and reporting changes nothing else. */
  lemma ProgressStartSticky(s: State, t1: int, t2: int)
    ensures var (r1, s1) := Progress(s, t1);
      var start := if s.startTime.Some? then s.startTime.value else t1;
      && s1 == s.(startTime := Some(start))
      && r1.elapsed == t1 - start
      && Progress(s1, t2).0.elapsed == t2 - start
      && Progress(s1, t2).1 == s1
  {
  }

  /** The reported remaining time is the elapsed time per finished row times the rows
      still to go, rounded down, split into hours, minutes and seconds. */
  lemma ProgressEta(s: State, now: int)
    requires s.startTime.None? || s.startTime.value <= now
    requires 0 < s.current < s.total
    ensures var r := Progress(s, now).0;
      && r.elapsed >= 0
      && 0 <= r.remaining.minutes < 60 && 0 <= r.remaining.seconds < 60
      && Seconds(r.remaining) * s.current <= r.elapsed * (s.total - s.current)
      && r.elapsed * (s.total - s.current) < (Seconds(r.remaining) + 1) * s.current
  {
    var r := Progress(s, now).0;
    RemainingTimeBounds(r.elapsed, s.current, s.total);
  }
}
