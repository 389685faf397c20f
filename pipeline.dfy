/**
 The scraping controller as functions on its whole state: the progress record,
 the stop flag and its marker file, the current log line, the S3 bucket and the
 record of yt-dlp invocations. Each function takes the state before an action
 and yields what the action returns together with the state after it.

 The world outside the controller is a parameter: what yt-dlp prints and
 whether it leaves a file is chosen per invocation by `World.tool`, and
 `World.probeErrors` are the keys whose S3 existence check fails with a
 service error.
 */
module Pipeline {
  import opened Wrappers
  import opened Text
  import opened Links
  import opened Keys
  import opened ToolOutput
  import opened Eta

  // ---------------------------------------------------------------- the world

  /** What yt-dlp is asked to do: download the video, print the title, or write
      the description or the thumbnail to a file. */
  datatype ToolMode = DownloadVideo | PrintTitle | WriteDescription | WriteThumbnail

  datatype ToolRequest = ToolRequest(link: string, mode: ToolMode)

  /** One yt-dlp run: its combined stdout and stderr, the file it left behind, and
      whether a `stop_scraping` request was served while it ran. */
  datatype ToolRun = ToolRun(output: string, file: Option<seq<bv8>>, stopRequested: bool)

  /** The answer of the `n`-th yt-dlp run to a request, and the keys whose
      existence check raises `Aws::S3::Errors::ServiceError`. */
  datatype World = World(tool: (ToolRequest, nat) -> ToolRun, probeErrors: set<string>)

  // ---------------------------------------------------------------- the state

  /** An `{ idTag:, YoutubeLink: }` record; the tag is nil when it is derived from
      a key that `split` leaves nothing of. */
  datatype Entry = Entry(idTag: Option<string>, link: string)

  /** How an artifact of a successful item was obtained: the key string that
      `existing_keys` held, or `true` from a fresh fetch. */
  datatype Source = AlreadyStored(key: string) | Fetched

  datatype SuccessEntry = SuccessEntry(idTag: string, link: string,
                                       title: Source, description: Source, thumbnail: Source)

  datatype Blob = TitleText(text: string) | FileBytes(bytes: seq<bv8>)

  /** The messages the controller writes to `@@current_log`. */
  datatype LogLine =
    | NoLog
    | StoppedByUserLog
    | FinalizingLog
    | StoppedWhileDownloadingVideo(link: string)
    | SkippingExistingVideo(link: string)
    | DownloadingVideo(link: string)
    | UnavailableLog(link: string, output: string)
    | StoppedAfterVideo(link: string)
    | VideoFileMissing(link: string)
    | VideoUploaded(link: string)
    | StoppedBeforeData(kind: ArtifactKind, link: string)
    | FetchingData(kind: ArtifactKind, link: string)
    | StoppedAfterData(kind: ArtifactKind, link: string)

  /** `@@progress`, `@@current_log`, `@@scraping_status[:stopped]`, the
      `tmp/scraping_stopped` marker file, the bucket, and the history of yt-dlp
      requests and S3 uploads. */
  datatype State = State(
    current: nat,
    total: nat,
    successful: seq<SuccessEntry>,
    unsuccessful: seq<Entry>,
    invalidLinks: seq<Entry>,
    startTime: Option<int>,
    log: LogLine,
    stopped: bool,
    marker: bool,
    store: map<string, Blob>,
    calls: seq<ToolRequest>,
    uploads: seq<string>)

  /** The marker file is only ever written together with the in-memory flag. */
  predicate StopConsistent(s: State)
  {
    s.marker ==> s.stopped
  }

  // ---------------------------------------------------------------- stop flag

  /** `scraping_stopped?`: the marker file exists or the in-memory flag is set. */
  predicate ScrapingStopped(s: State)
  {
    s.marker || s.stopped
  }

  /** `finalize_scraping`: log the finalization and delete the marker file. */
  function FinalizeScraping(s: State): State
  {
    s.(log := FinalizingLog, marker := false)
  }

  /** `check_scraping_status`: false, after finalizing, when a stop is pending. */
  function CheckScrapingStatus(s: State): (bool, State)
  {
    if ScrapingStopped(s) then (false, FinalizeScraping(s)) else (true, s)
  }

  /** `stop_scraping`: write the marker file, raise the flag, log the stop. */
  function StopScraping(s: State): State
  {
    s.(marker := true, stopped := true, log := StoppedByUserLog)
  }

  /** `clean_tmp_directory`: of what `tmp/` holds only the marker file matters here. */
  function CleanTmpDirectory(s: State): State
  {
    s.(marker := false)
  }

  /** `reset_progress`: a fresh progress record (without a start time) and an empty log. */
  function ResetProgress(s: State): State
  {
    s.(current := 0, total := 0, successful := [], unsuccessful := [], invalidLinks := [],
       startTime := None, log := NoLog)
  }

  /** `reset`: delete the marker file, reset the progress, clear the flag. */
  function Reset(s: State): State
  {
    ResetProgress(CleanTmpDirectory(s)).(stopped := false)
  }

  // ---------------------------------------------------------------- S3 and yt-dlp

  /** `s3_file_exists?`: a service error counts as "does not exist". */
  predicate S3FileExists(w: World, s: State, key: string)
  {
    key in s.store && key !in w.probeErrors
  }

  /** `upload_to_s3`. */
  function UploadToS3(s: State, key: string, blob: Blob): State
  {
    s.(store := s.store[key := blob], uploads := s.uploads + [key])
  }

  /** One yt-dlp run: recorded, answered by the world, and followed by the stop
      request that arrived while it blocked, if any. */
  function RunYtDlp(w: World, s: State, req: ToolRequest): (ToolRun, State)
  {
    var run := w.tool(req, |s.calls|);
    var s1 := s.(calls := s.calls + [req]);
    (run, if run.stopRequested then StopScraping(s1) else s1)
  }

  /** The yt-dlp mode used for each artifact. */
  function ModeOf(k: ArtifactKind): ToolMode
  {
    match k
    case Title => PrintTitle
    case Description => WriteDescription
    case Thumbnail => WriteThumbnail
    case Video => DownloadVideo
  }

  // ---------------------------------------------------------------- one item

  /** `true`, `false` and `:video_unavailable` of `fetch_youtube_video`. */
  datatype VideoStatus = VideoOk | VideoFailed | VideoUnavailable

  /** `fetch_youtube_video(link, relKey, today)`. */
  function FetchYoutubeVideo(w: World, s: State, link: string, relKey: string, today: string): (VideoStatus, State)
  {
    var fullKey := BatchKey(today, relKey);
    var (go, s1) := CheckScrapingStatus(s);
    if !go then (VideoFailed, s1.(log := StoppedWhileDownloadingVideo(link)))
    else if S3FileExists(w, s1, fullKey) then (VideoOk, s1.(log := SkippingExistingVideo(link)))
    else
      var (run, s2) := RunYtDlp(w, s1.(log := DownloadingVideo(link)), ToolRequest(link, DownloadVideo));
      if IsUnavailable(run.output) then
        (VideoUnavailable, s2.(log := UnavailableLog(link, run.output),
                               invalidLinks := s2.invalidLinks + [Entry(VideoKeyTag(relKey), link)]))
      else
        var (go2, s3) := CheckScrapingStatus(s2);
        if !go2 then (VideoFailed, s3.(log := StoppedAfterVideo(link)))
        else if run.file.None? then
          (VideoFailed, s3.(log := VideoFileMissing(link),
                            unsuccessful := s3.unsuccessful + [Entry(VideoKeyTag(relKey), link)]))
        else (VideoOk, UploadToS3(s3, fullKey, FileBytes(run.file.value)).(log := VideoUploaded(link)))
  }

  /** `fetch_youtube_data(link, kind, relKey, today)` for the title, the description
      or the thumbnail. The title is read from the output; the two files are
      fetched by a second run of the same command (the `system` call), and the
      file of either run is taken. */
  function FetchYoutubeData(w: World, s: State, link: string, kind: ArtifactKind, relKey: string, today: string): (bool, State)
    requires kind != Video
  {
    var fullKey := BatchKey(today, relKey);
    var (go, s1) := CheckScrapingStatus(s);
    if !go then (false, s1.(log := StoppedBeforeData(kind, link)))
    else
      var req := ToolRequest(link, ModeOf(kind));
      var (run, s2) := RunYtDlp(w, s1.(log := FetchingData(kind, link)), req);
      var (go2, s3) := CheckScrapingStatus(s2);
      if !go2 then (false, s3.(log := StoppedAfterData(kind, link)))
      else if kind == Title then
        var title := FilterTitle(run.output);
        if title == [] then (false, s3.(unsuccessful := s3.unsuccessful + [Entry(DataKeyTag(relKey), link)]))
        else (true, UploadToS3(s3, fullKey, TitleText(title)))
      else
        var (run2, s4) := RunYtDlp(w, s3, req);
        var file := if run2.file.Some? then run2.file else run.file;
        if file.None? then (false, s4.(unsuccessful := s4.unsuccessful + [Entry(DataKeyTag(relKey), link)]))
        else (true, UploadToS3(s4, fullKey, FileBytes(file.value)))
  }

  /** `existing_keys[kind] || fetch_youtube_data(...)`. */
  function FetchUnlessStored(w: World, s: State, stored: bool, link: string, idTag: string, kind: ArtifactKind, today: string): (bool, State)
    requires kind != Video
  {
    if stored then (true, s) else FetchYoutubeData(w, s, link, kind, RelativeKey(idTag, kind), today)
  }

  /** Which metadata keys `existing_keys` found in the bucket. */
  datatype Existing = Existing(title: bool, description: bool, thumbnail: bool)

  function ExistingKeys(w: World, s: State, idTag: string, today: string): Existing
  {
    Existing(S3FileExists(w, s, FullKey(today, idTag, Title)),
             S3FileExists(w, s, FullKey(today, idTag, Description)),
             S3FileExists(w, s, FullKey(today, idTag, Thumbnail)))
  }

  /** Title, description and thumbnail in turn, each unless already stored; true when
      all three succeed. */
  function FetchMetadata(w: World, s: State, existing: Existing, link: string, idTag: string, today: string): (bool, State)
  {
    var (title, s1) := FetchUnlessStored(w, s, existing.title, link, idTag, Title, today);
    var (description, s2) := FetchUnlessStored(w, s1, existing.description, link, idTag, Description, today);
    var (thumbnail, s3) := FetchUnlessStored(w, s2, existing.thumbnail, link, idTag, Thumbnail, today);
    (title && description && thumbnail, s3)
  }

  /** What `scrape_youtube_data` returns: false for a rejected link or an
      unavailable video, true once recorded, and nil for an incomplete item. */
  datatype ScrapeOutcome = InvalidLink | SourceUnavailable | Recorded | Incomplete

  function SourceOf(stored: bool, idTag: string, k: ArtifactKind): Source
  {
    if stored then AlreadyStored(RelativeKey(idTag, k)) else Fetched
  }

  /** `scrape_youtube_data(link, idTag, today)`. */
  function ScrapeYoutubeData(w: World, s: State, link: string, idTag: string, today: string): (ScrapeOutcome, State)
  {
    if !IsWatchUrl(link) then (InvalidLink, s.(invalidLinks := s.invalidLinks + [Entry(Some(idTag), link)]))
    else
      var existing := ExistingKeys(w, s, idTag, today);
      var (video, s1) := FetchYoutubeVideo(w, s, link, RelativeKey(idTag, Video), today);
      if video == VideoUnavailable then (SourceUnavailable, s1)
      else
        var (complete, s2) := FetchMetadata(w, s1, existing, link, idTag, today);
        if complete && video == VideoOk then
          var entry := SuccessEntry(idTag, link, SourceOf(existing.title, idTag, Title),
                                    SourceOf(existing.description, idTag, Description),
                                    SourceOf(existing.thumbnail, idTag, Thumbnail));
          (Recorded, s2.(successful := s2.successful + [entry]))
        else (Incomplete, s2)
  }

  // ---------------------------------------------------------------- the rows

  datatype CsvRow = CsvRow(idTag: string, youtubeLink: string)

  datatype Csv = Csv(headers: seq<string>, rows: seq<CsvRow>)

  /** The link a row is scraped with: a short link is converted, and yields nothing
      when `convert_short_to_full_url` returns nil; any other link is kept. */
  function RowLink(link: string): Option<string>
  {
    if StartsWith(link, ShortPrefix) then
      var c := ConvertShortToFullUrl(link);
      if c.Converted? then Some(c.url) else None
    else Some(link)
  }

  /** `handle_new_csv` from row `i` on. */
  function HandleNewCsv(w: World, s: State, rows: seq<CsvRow>, i: nat, today: string): State
    requires i <= |rows|
    decreases |rows| - i
  {
    if i == |rows| then FinalizeScraping(s)
    else if ScrapingStopped(s) then FinalizeScraping(s)
    else
      var row := rows[i];
      match RowLink(row.youtubeLink)
      case None =>
        HandleNewCsv(w, s.(invalidLinks := s.invalidLinks + [Entry(Some(row.idTag), row.youtubeLink)]), rows, i + 1, today)
      case Some(link) =>
        var s1 := ScrapeYoutubeData(w, s, link, row.idTag, today).1.(current := i + 1);
        if ScrapingStopped(s1) then FinalizeScraping(s1) else HandleNewCsv(w, s1, rows, i + 1, today)
  }

  // ---------------------------------------------------------------- the actions

  const ExpectedHeaders: seq<string> := ["idTag", "YoutubeLink"]

  datatype FetchReply = StoppedReply | InvalidCsvFormat | RowsProcessed

  /** The `fetch` action on an uploaded CSV. It empties `tmp/` first, so a stop
      known only from the marker file is discarded before the flag is polled. */
  function Fetch(w: World, s: State, csv: Csv, today: string): (FetchReply, State)
  {
    var (go, s1) := CheckScrapingStatus(CleanTmpDirectory(s));
    if !go then (StoppedReply, s1)
    else
      var s2 := s1.(total := 0, current := 0);
      var (go2, s3) := CheckScrapingStatus(s2);
      if !go2 then (StoppedReply, s3)
      else
        var s4 := s3.(total := |csv.rows|);
        if csv.headers == ExpectedHeaders then (RowsProcessed, HandleNewCsv(w, s4, csv.rows, 0, today))
        else (InvalidCsvFormat, s4)
  }

  /** The JSON body of the `progress` action. */
  datatype Report = Report(current: nat, total: nat,
                           successfulCount: nat, unsuccessfulCount: nat, invalidLinksCount: nat,
                           successful: seq<SuccessEntry>, unsuccessful: seq<Entry>, invalidLinks: seq<Entry>,
                           log: LogLine, elapsed: int, remaining: Hms)

  /** The `progress` action at time `now` (whole seconds): the start time is set on
      the first call after a reset and kept afterwards. */
  function Progress(s: State, now: int): (Report, State)
  {
    var start := if s.startTime.Some? then s.startTime.value else now;
    var elapsed := now - start;
    (Report(s.current, s.total, |s.successful|, |s.unsuccessful|, |s.invalidLinks|,
            s.successful, s.unsuccessful, s.invalidLinks, s.log, elapsed,
            RemainingTime(elapsed, s.current, s.total)),
     s.(startTime := Some(start)))
  }
}
