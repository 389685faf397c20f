/**
 The controller as it runs: one object whose fields are the class variables
 `@@progress`, `@@current_log` and `@@scraping_status`, the marker file, the
 bucket and the yt-dlp history, updated in place step by step. Each method is
 proved to leave exactly the state, and return exactly the value, that the
 matching function of `Pipeline` gives for the state it started from, so every
 property proved of those functions holds of the methods.
 */
module Controller {
  import opened Wrappers
  import opened Text
  import opened Links
  import opened Keys
  import opened ToolOutput
  import opened Eta
  import opened Pipeline

  class Scraper {
    const world: World
    var current: nat
    var total: nat
    var successful: seq<SuccessEntry>
    var unsuccessful: seq<Entry>
    var invalidLinks: seq<Entry>
    var startTime: Option<int>
    var currentLog: LogLine
    var stopped: bool
    var marker: bool
    var store: map<string, Blob>
    var calls: seq<ToolRequest>
    var uploads: seq<string>

    /** All of the controller's state as one value. */
    function Snapshot(): State
      reads this
    {
      State(current, total, successful, unsuccessful, invalidLinks, startTime,
            currentLog, stopped, marker, store, calls, uploads)
    }

    /** A freshly loaded controller: empty progress and an in-memory flag that is down,
        while the marker file and the bucket may be left over from earlier runs. */
    constructor(w: World, bucket: map<string, Blob>, markerFile: bool)
      ensures world == w
      ensures Snapshot() == State(0, 0, [], [], [], None, NoLog, false, markerFile, bucket, [], [])
    {
      world := w;
      current := 0;
      total := 0;
      successful := [];
      unsuccessful := [];
      invalidLinks := [];
      startTime := None;
      currentLog := NoLog;
      stopped := false;
      marker := markerFile;
      store := bucket;
      calls := [];
      uploads := [];
    }

    /** `scraping_stopped?`. */
    predicate ScrapingStopped()
      reads this
    {
      marker || stopped
    }

    /** `finalize_scraping`. */
    method FinalizeScraping()
      modifies this
      ensures Snapshot() == Pipeline.FinalizeScraping(old(Snapshot()))
    {
      currentLog := FinalizingLog;
      marker := false;
    }

    /** `check_scraping_status`. */
    method CheckScrapingStatus() returns (go: bool)
      modifies this
      ensures (go, Snapshot()) == Pipeline.CheckScrapingStatus(old(Snapshot()))
    {
      if ScrapingStopped() {
        FinalizeScraping();
        return false;
      }
      return true;
    }

    /** `stop_scraping`. */
    method StopScraping()
      modifies this
      ensures Snapshot() == Pipeline.StopScraping(old(Snapshot()))
    {
      marker := true;
      stopped := true;
      currentLog := StoppedByUserLog;
    }

    /** `clean_tmp_directory`. */
    method CleanTmpDirectory()
      modifies this
      ensures Snapshot() == Pipeline.CleanTmpDirectory(old(Snapshot()))
    {
      marker := false;
    }

    /** `reset_progress`. */
    method ResetProgress()
      modifies this
      ensures Snapshot() == Pipeline.ResetProgress(old(Snapshot()))
    {
      current := 0;
      total := 0;
      successful := [];
      unsuccessful := [];
      invalidLinks := [];
      startTime := None;
      currentLog := NoLog;
    }

    /** `reset`. */
    method Reset()
      modifies this
      ensures Snapshot() == Pipeline.Reset(old(Snapshot()))
    {
      CleanTmpDirectory();
      ResetProgress();
      stopped := false;
    }

    /** `s3_file_exists?`. */
    predicate S3FileExists(key: string)
      reads this
    {
      key in store && key !in world.probeErrors
    }

    /** `upload_to_s3`. */
    method UploadToS3(key: string, blob: Blob)
      modifies this
      ensures Snapshot() == Pipeline.UploadToS3(old(Snapshot()), key, blob)
    {
      store := store[key := blob];
      uploads := uploads + [key];
    }

    /** One yt-dlp run, and the stop request served while it blocked. */
    method RunYtDlp(req: ToolRequest) returns (run: ToolRun)
      modifies this
      ensures (run, Snapshot()) == Pipeline.RunYtDlp(world, old(Snapshot()), req)
    {
      run := world.tool(req, |calls|);
      calls := calls + [req];
      if run.stopRequested {
        StopScraping();
      }
    }

    /** `fetch_youtube_video`. */
    method FetchYoutubeVideo(link: string, relKey: string, today: string) returns (status: VideoStatus)
      modifies this
      ensures (status, Snapshot()) == Pipeline.FetchYoutubeVideo(world, old(Snapshot()), link, relKey, today)
    {
      var fullKey := BatchKey(today, relKey);
      var go := CheckScrapingStatus();
      if !go {
        currentLog := StoppedWhileDownloadingVideo(link);
        return VideoFailed;
      }
      if S3FileExists(fullKey) {
        currentLog := SkippingExistingVideo(link);
        return VideoOk;
      }
      currentLog := DownloadingVideo(link);
      var run := RunYtDlp(ToolRequest(link, DownloadVideo));
      if IsUnavailable(run.output) {
        currentLog := UnavailableLog(link, run.output);
        invalidLinks := invalidLinks + [Entry(VideoKeyTag(relKey), link)];
        return VideoUnavailable;
      }
      go := CheckScrapingStatus();
      if !go {
        currentLog := StoppedAfterVideo(link);
        return VideoFailed;
      }
      if run.file.None? {
        currentLog := VideoFileMissing(link);
        unsuccessful := unsuccessful + [Entry(VideoKeyTag(relKey), link)];
        return VideoFailed;
      }
      UploadToS3(fullKey, FileBytes(run.file.value));
      currentLog := VideoUploaded(link);
      return VideoOk;
    }

    /** `fetch_youtube_data` for the title, the description or the thumbnail. */
    method FetchYoutubeData(link: string, kind: ArtifactKind, relKey: string, today: string) returns (ok: bool)
      requires kind != Video
      modifies this
      ensures (ok, Snapshot()) == Pipeline.FetchYoutubeData(world, old(Snapshot()), link, kind, relKey, today)
    {
      var fullKey := BatchKey(today, relKey);
      var go := CheckScrapingStatus();
      if !go {
        currentLog := StoppedBeforeData(kind, link);
        return false;
      }
      var req := ToolRequest(link, ModeOf(kind));
      currentLog := FetchingData(kind, link);
      var run := RunYtDlp(req);
      go := CheckScrapingStatus();
      if !go {
        currentLog := StoppedAfterData(kind, link);
        return false;
      }
      if kind == Title {
        var title := FilterTitle(run.output);
        if title == [] {
          unsuccessful := unsuccessful + [Entry(DataKeyTag(relKey), link)];
          return false;
        }
        UploadToS3(fullKey, TitleText(title));
      } else {
        var run2 := RunYtDlp(req);
        var file := if run2.file.Some? then run2.file else run.file;
        if file.None? {
          unsuccessful := unsuccessful + [Entry(DataKeyTag(relKey), link)];
          return false;
        }
        UploadToS3(fullKey, FileBytes(file.value));
      }
      return true;
    }

    /** `existing_keys[kind] || fetch_youtube_data(...)`. */
    method FetchUnlessStored(stored: bool, link: string, idTag: string, kind: ArtifactKind, today: string) returns (ok: bool)
      requires kind != Video
      modifies this
      ensures (ok, Snapshot()) == Pipeline.FetchUnlessStored(world, old(Snapshot()), stored, link, idTag, kind, today)
    {
      if stored {
        return true;
      }
      ok := FetchYoutubeData(link, kind, RelativeKey(idTag, kind), today);
    }

    /** `scrape_youtube_data`. */
    method ScrapeYoutubeData(link: string, idTag: string, today: string) returns (outcome: ScrapeOutcome)
      modifies this
      ensures (outcome, Snapshot()) == Pipeline.ScrapeYoutubeData(world, old(Snapshot()), link, idTag, today)
    {
      if !IsWatchUrl(link) {
        invalidLinks := invalidLinks + [Entry(Some(idTag), link)];
        return InvalidLink;
      }
      var existing := Existing(S3FileExists(FullKey(today, idTag, Title)),
                               S3FileExists(FullKey(today, idTag, Description)),
                               S3FileExists(FullKey(today, idTag, Thumbnail)));
      assert existing == ExistingKeys(world, Snapshot(), idTag, today);
      var video := FetchYoutubeVideo(link, RelativeKey(idTag, Video), today);
      if video == VideoUnavailable {
        return SourceUnavailable;
      }
      ghost var s1 := Snapshot();
      var title := FetchUnlessStored(existing.title, link, idTag, Title, today);
      var description := FetchUnlessStored(existing.description, link, idTag, Description, today);
      var thumbnail := FetchUnlessStored(existing.thumbnail, link, idTag, Thumbnail, today);
      assert (title && description && thumbnail, Snapshot()) == FetchMetadata(world, s1, existing, link, idTag, today);
      if title && description && thumbnail && video == VideoOk {
        successful := successful + [SuccessEntry(idTag, link, SourceOf(existing.title, idTag, Title),
                                                 SourceOf(existing.description, idTag, Description),
                                                 SourceOf(existing.thumbnail, idTag, Thumbnail))];
        return Recorded;
      }
      return Incomplete;
    }

    /** `handle_new_csv`: the rows in order, polling the stop flag before and after each. */
    method HandleNewCsv(rows: seq<CsvRow>, today: string)
      modifies this
      ensures Snapshot() == Pipeline.HandleNewCsv(world, old(Snapshot()), rows, 0, today)
    {
      ghost var final := Pipeline.HandleNewCsv(world, Snapshot(), rows, 0, today);
      var i := 0;
      while i < |rows|
        invariant i <= |rows|
        invariant final == Pipeline.HandleNewCsv(world, Snapshot(), rows, i, today)
      {
        ghost var s := Snapshot();
        if ScrapingStopped() {
          FinalizeScraping();
          return;
        }
        var row := rows[i];
        var link := row.youtubeLink;
        if StartsWith(link, ShortPrefix) {
          var converted := ConvertShortToFullUrl(link);
          if !converted.Converted? {
            invalidLinks := invalidLinks + [Entry(Some(row.idTag), row.youtubeLink)];
            assert RowLink(row.youtubeLink) == None;
            i := i + 1;
            continue;
          }
          link := converted.url;
        }
        assert RowLink(row.youtubeLink) == Some(link);
        var outcome := ScrapeYoutubeData(link, row.idTag, today);
        current := i + 1;
        assert Snapshot() == Pipeline.ScrapeYoutubeData(world, s, link, row.idTag, today).1.(current := i + 1);
        if ScrapingStopped() {
          FinalizeScraping();
          return;
        }
        i := i + 1;
      }
      FinalizeScraping();
    }

    /** The `fetch` action. */
    method Fetch(csv: Csv, today: string) returns (reply: FetchReply)
      modifies this
      ensures (reply, Snapshot()) == Pipeline.Fetch(world, old(Snapshot()), csv, today)
    {
      CleanTmpDirectory();
      var go := CheckScrapingStatus();
      if !go {
        return StoppedReply;
      }
      total := 0;
      current := 0;
      go := CheckScrapingStatus();
      if !go {
        return StoppedReply;
      }
      total := |csv.rows|;
      if csv.headers == ExpectedHeaders {
        HandleNewCsv(csv.rows, today);
        reply := RowsProcessed;
      } else {
        reply := InvalidCsvFormat;
      }
    }

    /** The `progress` action at time `now`. */
    method Progress(now: int) returns (report: Report)
      modifies this
      ensures (report, Snapshot()) == Pipeline.Progress(old(Snapshot()), now)
    {
      if startTime.None? {
        startTime := Some(now);
      }
      var elapsed := now - startTime.value;
      var remaining := Hms(0, 0, 0);
      if 0 < current && current < total {
        var remainingSeconds := TruncDiv(elapsed * (total - current), current);
        remaining := Split(remainingSeconds);
      }
      report := Report(current, total, |successful|, |unsuccessful|, |invalidLinks|,
                       successful, unsuccessful, invalidLinks, currentLog, elapsed, remaining);
    }
  }
}
