# Batch scraping of YouTube trailers, modelled in Dafny

The Rails controller `YoutubeTrailersController` takes an uploaded CSV of `idTag,YoutubeLink`
rows. For every row it downloads the trailer video, title, description and thumbnail with
`yt-dlp` and uploads them to an S3 bucket under `<date>-Batch/<Folder>/<idTag>-<Suffix>`. It
keeps a class-level progress record (`current`, `total`, and the `successful`, `unsuccessful`
and `invalid_links` lists), a current log line, and a stop flag. The stop flag is an in-memory
boolean plus a marker file `tmp/scraping_stopped`. The flag is polled before every row and
after every row that reaches `scrape_youtube_data`; a short link that does not convert skips
the second poll. Each fetch polls it before and after its first `yt-dlp` run, except that
`fetch_youtube_video` returns on an "unavailable" output before its second poll; the second run of
a description or thumbnail fetch is followed by no poll.

This project models that controller in two layers.

- **`Pipeline`** (`pipeline.dfy`) gives every action as a pure function on the whole state:
  - the progress record and the log line;
  - the flag and the marker file;
  - the bucket (`map<string, Blob>`);
  - the histories of `yt-dlp` requests and S3 uploads.

  Each function returns the action's result together with the state after it. The outside
  world is a parameter, `World`:
  - `World.tool` picks the output text, the file left behind, and whether a `stop_scraping`
    request was served while the run blocked. It is chosen per request and per run number.
  - `World.probeErrors` are the keys whose existence check raises an S3 service error.
- **`Controller.Scraper`** (`controller.dfy`) is the controller as it runs: a class whose
  fields are that state, updated in place. Each method is proved to return the result of the
  matching `Pipeline` function, and to leave exactly the state it describes. `handle_new_csv`
  is a `while` loop with an invariant.

The properties are proved about the functions:

- **The small helpers:**
  - `Links`: the link pattern and `convert_short_to_full_url`;
  - `Keys`: the S3 key layout, and the id tags derived from keys;
  - `ToolOutput`: the title filter and the "unavailable" test;
  - `Eta`: the remaining-time estimate;
  - `Retry`: the `failure == "1"` filter of `retry_failed`.
- **One item:** `ItemFacts` covers `scrape_youtube_data`, `fetch_youtube_video` and
  `fetch_youtube_data`.
- **A run and the actions:** `RunFacts` covers `handle_new_csv`, `fetch`, `stop_scraping`,
  `reset` and `progress`.

`Text` holds the Ruby string operations they use: `include?`, `strip`, `lines`, `join`,
`File.basename` and `split(...).first`.

Behaviour of the code that the model keeps on purpose:

- An item that is not complete gets no entry under its own `idTag` from
  `scrape_youtube_data`. A failed title, description or thumbnail fetch adds only its own
  `unsuccessful` entry, tagged with the folder name, even after the video was stored; an item
  cut short by a stop is listed nowhere.
- A failed title, description or thumbnail is recorded with the S3 folder name as its `idTag`.
  The code takes `s3_key.split("/").first`.
- A video failure is recorded with `File.basename(key, ".*").split("-").first` as its `idTag`.
- A short link that does not convert goes to `invalid_links` and does not advance `current`.
- Description and thumbnail are fetched by running the same `yt-dlp` command twice: once in
  backticks, once with `system`. The file either run left is uploaded.
- `fetch` empties `tmp/` before polling the flag. A stop known only from the marker file, for
  example after a restart, is therefore discarded by the next upload.
- `s3_file_exists?` fails open. A service error counts as "absent", so the artifact is
  fetched again.

## Model

| member | source | states |
|---|---|---|
| Text.ContainsIffOccurs | app/controllers/youtube_trailers_controller.rb:339 | `include?` holds exactly when the pattern occurs at some index |
| Text.Strip | app/controllers/youtube_trailers_controller.rb:415 | `strip` is the slice of the input with only whitespace before and after it; it has no whitespace at either end, and is empty exactly for an all-whitespace string |
| Text.ConcatLines | app/controllers/youtube_trailers_controller.rb:415 | joining the `lines` of a string gives the string back |
| Text.ConcatAllSpace | app/controllers/youtube_trailers_controller.rb:415-417 | a join is blank exactly when every piece is blank |
| Text.BaseNameAppend | app/controllers/youtube_trailers_controller.rb:326 | `File.basename` of a concatenation: a '/' in the tail decides alone, otherwise the tail is appended |
| Links.WatchUrlIff | app/controllers/youtube_trailers_controller.rb:252 | a link passes the pattern exactly when it is `https://` + optional `www.` + `youtube.com/watch?v=` + 11 characters of `[A-Za-z0-9_-]` |
| Links.PathPart | app/controllers/youtube_trailers_controller.rb:515 | the URI path is the longest prefix of the text after the host with no `?` or `#` |
| Links.ConvertShortToFullUrl | app/controllers/youtube_trailers_controller.rb:510-526 | converts exactly the `https://youtu.be/` links whose remainder follows the path, query and fragment grammar of `URI.parse`; the result is the www watch prefix followed by the remainder up to its first `?` or `#` |
| Links.ShortLinkConverts | app/controllers/youtube_trailers_controller.rb:510-519 | `https://youtu.be/ID`, with an optional query or fragment, converts to `https://www.youtube.com/watch?v=ID`, which passes the pattern |
| Links.ConvertedIsWatchUrlIff | app/controllers/youtube_trailers_controller.rb:518 | a converted link passes the pattern exactly when its path is an 11-character video id |
| Keys.FullKeyInjective | app/controllers/youtube_trailers_controller.rb:262-267 | for one date, the S3 key determines the id tag and the artifact kind |
| Keys.KindOfRelativeKey | app/controllers/youtube_trailers_controller.rb:262-267 | the folder of a relative key names its artifact kind |
| Keys.FolderPrefixDecides | app/controllers/youtube_trailers_controller.rb:262-267 | two equal relative keys are for the same kind, whatever the id tags |
| Keys.FullKeyDateInjective | app/controllers/youtube_trailers_controller.rb:270 | keys of two dates of equal length differ unless the dates are equal |
| Keys.VideoKeyTagOf | app/controllers/youtube_trailers_controller.rb:342 | the tag of a video failure is the part of the id tag's base name before its first '-' |
| Keys.VideoKeyTagOfPlainId | app/controllers/youtube_trailers_controller.rb:356 | for an id tag with no '/' or '-', that tag is the id tag itself |
| Keys.DataKeyTagIsFolder | app/controllers/youtube_trailers_controller.rb:419 | the tag of a title, description or thumbnail failure is the S3 folder name |
| ToolOutput.IsUnavailableIff | app/controllers/youtube_trailers_controller.rb:339 | the unavailable test holds exactly when one of the two messages occurs in the output |
| ToolOutput.KeepLines | app/controllers/youtube_trailers_controller.rb:415 | the kept lines are no more than the input, none is a diagnostic, each is an input line |
| ToolOutput.KeepLinesMember | app/controllers/youtube_trailers_controller.rb:415 | a line is kept exactly when it is an input line and not a diagnostic |
| ToolOutput.KeepLinesAppend | app/controllers/youtube_trailers_controller.rb:415 | the filter distributes over concatenation, so the kept lines stay in input order |
| ToolOutput.FilterTitle | app/controllers/youtube_trailers_controller.rb:415 | the filtered title has no whitespace at either end |
| ToolOutput.FilterTitleOfCleanOutput | app/controllers/youtube_trailers_controller.rb:415 | output without diagnostic lines is only stripped |
| ToolOutput.FilterTitleEmptyIff | app/controllers/youtube_trailers_controller.rb:415-417 | the filter yields nothing exactly when every non-diagnostic line is blank |
| ToolOutput.FilterTitleSkipsNoiseLine | app/controllers/youtube_trailers_controller.rb:415 | a leading `WARNING:`/`ERROR:`/`HTTP Error` line leaves the title unchanged |
| ToolOutput.FilterTitleKeepsLine | app/controllers/youtube_trailers_controller.rb:415 | a leading ordinary line is joined in front of the rest of the title |
| Eta.TruncDiv | app/controllers/youtube_trailers_controller.rb:90-91 | `Float#to_i` of a quotient: rounds toward zero, so a non-negative quotient is the floor |
| Eta.Split | app/controllers/youtube_trailers_controller.rb:92-96 | hours·3600 + minutes·60 + seconds is the input, minutes and seconds in [0, 60), hours non-negative for a non-negative input |
| Eta.SplitSeconds | app/controllers/youtube_trailers_controller.rb:93-95 | Ruby's `/ 3600`, `% 3600 / 60`, `% 60` recombine to the input |
| Eta.RemainingTime | app/controllers/youtube_trailers_controller.rb:88-97 | zero unless `0 < current < total`; otherwise it splits `elapsed·(total − current) / current`, truncated |
| Eta.RemainingTimeBounds | app/controllers/youtube_trailers_controller.rb:89-91 | the remaining seconds are the largest r with r·current ≤ elapsed·(total − current) |
| Eta.HalfwayExample | app/controllers/youtube_trailers_controller.rb:88-97 | 5 of 10 rows in 50 s leaves 50 s |
| Retry.FailedRows | app/controllers/youtube_trailers_controller.rb:222 | the selected rows are exactly the ledger rows with `failure == "1"`, a sub-multiset |
| Retry.FailedRowsAppend | app/controllers/youtube_trailers_controller.rb:222 | the filter distributes over concatenation, so order is kept |
| Retry.FailedRowsIdempotent | app/controllers/youtube_trailers_controller.rb:222 | filtering twice is filtering once |
| Retry.RetryFailed | app/controllers/youtube_trailers_controller.rb:217-231 | no ledger ⇒ "no previous CSV"; no failed row ⇒ "all scraped"; otherwise a resubmission of exactly the failed rows |
| ItemFacts.KindOf | app/controllers/youtube_trailers_controller.rb:381-385 | every yt-dlp mode belongs to one artifact kind |
| ItemFacts.FetchYoutubeVideoEffects | app/controllers/youtube_trailers_controller.rb:308-370 | a run only when no stop is pending and the key is missing; unavailable exactly when the output says so, recorded in `invalid_links`; success stores the key; a pending stop changes nothing but log and marker |
| ItemFacts.FetchYoutubeVideoOutcome | app/controllers/youtube_trailers_controller.rb:308-364 | the video key is uploaded exactly when it was missing and the download succeeded; success exactly when no stop is pending and the video was found or uploaded; an `unsuccessful` entry exactly when the download ran without a stop, was not unavailable and left no file |
| ItemFacts.FetchYoutubeVideoSuccess | app/controllers/youtube_trailers_controller.rb:308-364 | success exactly when no stop is pending and either the video key already exists or the download run was not unavailable, asked for no stop and left a file; a success that was not found stored puts that file's bytes under the key and uploads it once |
| ItemFacts.VideoFailureTag | app/controllers/youtube_trailers_controller.rb:342-356 | a video failure entry carries the id tag's base name up to its first '-' |
| ItemFacts.FetchYoutubeDataEffects | app/controllers/youtube_trailers_controller.rb:372-451 | every run is for this artifact's mode; success uploads exactly its key; failure uploads nothing; a pending stop runs nothing |
| ItemFacts.FetchYoutubeDataFailure | app/controllers/youtube_trailers_controller.rb:372-446 | an `unsuccessful` entry exactly when the fetch fails with no stop pending before or arriving during its first run |
| ItemFacts.FetchYoutubeDataSuccess | app/controllers/youtube_trailers_controller.rb:372-449 | success exactly when no stop is pending and the first run asked for no stop and either (title) its filtered output is non-blank or (description, thumbnail) the second or the first run left a file; the bucket then holds the filtered title, or the second run's file if it left one and else the first's, under the key |
| ItemFacts.FetchTitleUploadsFilteredTitle | app/controllers/youtube_trailers_controller.rb:413-426 | the uploaded title is the filtered output of the title run; an empty filter result uploads nothing and fails |
| ItemFacts.DataFailureTag | app/controllers/youtube_trailers_controller.rb:419-435 | a failed title, description or thumbnail is recorded under the folder name |
| ItemFacts.FetchUnlessStoredEffects | app/controllers/youtube_trailers_controller.rb:281-283 | an artifact already stored counts as success with no run; otherwise its fetch's effects |
| ItemFacts.ScrapeRejectsIff | app/controllers/youtube_trailers_controller.rb:252-256 | rejected exactly when the link fails the pattern; then `invalid_links` gains this row and nothing else changes: no yt-dlp run, no upload, no log line |
| ItemFacts.FetchMetadataGrows | app/controllers/youtube_trailers_controller.rb:281-283 | the three metadata fetches only grow the state and never touch `successful` or `invalid_links` |
| ItemFacts.FetchMetadataWhenStopped | app/controllers/youtube_trailers_controller.rb:281-283 | with the flag up they run and record nothing |
| ItemFacts.FetchUnlessStoredUploads | app/controllers/youtube_trailers_controller.rb:281-283 | the bucket keeps its keys; the artifact's key is uploaded, once, exactly when the artifact was fetched rather than found stored |
| ItemFacts.FetchMetadataStored | app/controllers/youtube_trailers_controller.rb:281-286 | when all three succeed, each artifact is in the bucket or was found there |
| ItemFacts.FetchMetadataUploads | app/controllers/youtube_trailers_controller.rb:281-283 | the metadata fetches upload no video; all three succeed exactly when each artifact was found stored or has been uploaded by them |
| ItemFacts.FullKeysDistinct | app/controllers/youtube_trailers_controller.rb:262-267 | the four keys of one item are pairwise distinct |
| ItemFacts.FetchUnlessStoredCalls | app/controllers/youtube_trailers_controller.rb:270-283 | a fetch made "unless stored" runs yt-dlp only for an artifact found missing |
| ItemFacts.FetchMetadataCalls | app/controllers/youtube_trailers_controller.rb:270-283 | every metadata run is for an artifact whose key was missing when the item started |
| ItemFacts.ScrapeGrows | app/controllers/youtube_trailers_controller.rb:251-304 | an item only extends the lists, runs, uploads and bucket, and never lowers the flag |
| ItemFacts.ScrapeEffects | app/controllers/youtube_trailers_controller.rb:281-298 | recorded ⇒ all four keys are in the bucket and exactly one entry for this tag and link is appended; otherwise `successful` is unchanged; every run is for a missing artifact of this link |
| ItemFacts.ScrapeRecordedIff | app/controllers/youtube_trailers_controller.rb:251-298 | recorded exactly when the link passes, no stop is pending, and each of the four artifacts was found in the bucket or has been uploaded by the item |
| ItemFacts.ScrapeAllStored | app/controllers/youtube_trailers_controller.rb:270-297 | with all four keys present the item is recorded with no yt-dlp run and no upload, each artifact marked with its key |
| ItemFacts.ScrapeUnavailableIff | app/controllers/youtube_trailers_controller.rb:274-278 | unavailable exactly when the link passes, no stop is pending, the video is missing and the output says so; then one run, one `invalid_links` entry, and no metadata fetch |
| ItemFacts.ScrapeWhenStopped | app/controllers/youtube_trailers_controller.rb:311-315 | with the flag up an item runs and uploads nothing, is never recorded, and only an invalid link is listed |
| RunFacts.HandleNewCsvStopsAtOnce | app/controllers/youtube_trailers_controller.rb:531-535 | a stop seen before a row ends the run with only the finalization |
| RunFacts.HandleNewCsvFinalizes | app/controllers/youtube_trailers_controller.rb:528-575 | however the rows end, the log says "finalizing" and the marker file is gone |
| RunFacts.HandleNewCsvGrows | app/controllers/youtube_trailers_controller.rb:528-575 | the run only grows the state and keeps `total`; `current` only moves forward and stays within the rows |
| RunFacts.ScrapedRow | app/controllers/youtube_trailers_controller.rb:554-564 | after a scrapable row the state has only grown, `current` is one past the row, and the run continues from there unless a stop is seen |
| RunFacts.ScrapableRow | app/controllers/youtube_trailers_controller.rb:537-564 | a scrapable row is exactly `scrape_youtube_data` on its converted link and its id tag, then `current := index + 1`, then finalization if a stop is seen or the next row otherwise |
| RunFacts.UnconvertibleRow | app/controllers/youtube_trailers_controller.rb:543-549 | an unconvertible short link adds `{idTag, original link}` to `invalid_links` and the run goes on to the next row with nothing else changed |
| RunFacts.HandleNewCsvListsUnconvertible | app/controllers/youtube_trailers_controller.rb:529-573 | a run ending without the flag lists every unconvertible row from the start row on in `invalid_links` |
| RunFacts.HandleNewCsvCoversRows | app/controllers/youtube_trailers_controller.rb:529-573 | a run ending without the flag has `current` past every scrapable row from the start row on |
| RunFacts.HandleNewCsvLastRow | app/controllers/youtube_trailers_controller.rb:543-557 | `current` ends one past the last scrapable row reached, or unchanged; unconvertible short links never move it |
| RunFacts.FetchWhenStopped | app/controllers/youtube_trailers_controller.rb:186-190 | with the flag up, `fetch` answers "stopped" and only finalizes |
| RunFacts.FetchIgnoresMarker | app/controllers/youtube_trailers_controller.rb:184 | without the in-memory flag, `fetch` behaves the same with or without the marker file |
| RunFacts.FetchHeaderCheck | app/controllers/youtube_trailers_controller.rb:207-213 | the file is rejected exactly when the headers are not `idTag,YoutubeLink`; a rejected file only sets `total` and `current` |
| RunFacts.FetchProcessed | app/controllers/youtube_trailers_controller.rb:207-210 | a processed file sets `total` to its row count and finalizes; without a stop every scrapable row was reached |
| RunFacts.StoppedUntilReset | app/controllers/youtube_trailers_controller.rb:234-241 | once the flag is up every action still sees it, until `reset` clears it |
| RunFacts.FetchAfterStop | app/controllers/youtube_trailers_controller.rb:186-190 | `stop_scraping` then `fetch`: refused, with no run and `total` untouched |
| RunFacts.StopConsistentKept | app/controllers/youtube_trailers_controller.rb:501-508 | no action leaves the marker file without the in-memory flag |
| RunFacts.ResetClears | app/controllers/youtube_trailers_controller.rb:131-149 | after `reset` the flag is clear, the bucket is kept, and the next progress report is all zero |
| RunFacts.ProgressStartSticky | app/controllers/youtube_trailers_controller.rb:82-83 | the first report after a reset sets the start time and later reports measure from it |
| RunFacts.ProgressEta | app/controllers/youtube_trailers_controller.rb:82-97 | the reported remaining time is elapsed time per row times rows left, rounded down, in h/m/s |
| Controller.Scraper.constructor | app/controllers/youtube_trailers_controller.rb:9-17 | empty progress, the in-memory flag down, the marker file and the bucket as found |
| Controller.Scraper.FinalizeScraping | app/controllers/youtube_trailers_controller.rb:467-485 | sets the log and deletes the marker |
| Controller.Scraper.CheckScrapingStatus | app/controllers/youtube_trailers_controller.rb:487-499 | false after finalizing when stopped, true otherwise |
| Controller.Scraper.StopScraping | app/controllers/youtube_trailers_controller.rb:234-241 | writes the marker, raises the flag, logs the stop |
| Controller.Scraper.CleanTmpDirectory | app/controllers/youtube_trailers_controller.rb:159-180 | deletes the marker file |
| Controller.Scraper.ResetProgress | app/controllers/youtube_trailers_controller.rb:453-464 | a fresh progress record and an empty log |
| Controller.Scraper.Reset | app/controllers/youtube_trailers_controller.rb:131-149 | marker deleted, progress reset, flag cleared |
| Controller.Scraper.UploadToS3 | app/controllers/youtube_trailers_controller.rb:584-588 | the key is stored and the upload recorded |
| Controller.Scraper.RunYtDlp | app/controllers/youtube_trailers_controller.rb:335 | one recorded run, followed by any stop request it waited out |
| Controller.Scraper.FetchYoutubeVideo | app/controllers/youtube_trailers_controller.rb:308-370 | the state and status of `Pipeline.FetchYoutubeVideo` |
| Controller.Scraper.FetchYoutubeData | app/controllers/youtube_trailers_controller.rb:372-451 | the state and result of `Pipeline.FetchYoutubeData` |
| Controller.Scraper.FetchUnlessStored | app/controllers/youtube_trailers_controller.rb:281-283 | the state and result of `Pipeline.FetchUnlessStored` |
| Controller.Scraper.ScrapeYoutubeData | app/controllers/youtube_trailers_controller.rb:251-304 | the state and outcome of `Pipeline.ScrapeYoutubeData` |
| Controller.Scraper.HandleNewCsv | app/controllers/youtube_trailers_controller.rb:528-575 | the loop ends in the state `Pipeline.HandleNewCsv` gives for all the rows |
| Controller.Scraper.Fetch | app/controllers/youtube_trailers_controller.rb:182-214 | the reply and state of `Pipeline.Fetch` |
| Controller.Scraper.Progress | app/controllers/youtube_trailers_controller.rb:78-111 | the report and state of `Pipeline.Progress` |

## Left out

- `update_yt_dlp`, `show`, `generate_presigned_url`, `fetch_s3_file_contents` and `s3_client`
  are not modelled. They are shell, AWS SDK and view plumbing, and the scraping state does not
  depend on them.
- The `yt-dlp` and `brew` subprocesses are an oracle, `World.tool`. It gives the output text,
  the file left behind, and whether a stop request arrived meanwhile. Command lines, cookies
  and formats are not modelled.
- S3 is a map from key to blob. The AWS client, bucket names and credentials are not modelled.
  Only the fail-open rule of `s3_file_exists?` is kept (`World.probeErrors`).
- Filesystem work is reduced to the marker file, a boolean:
  - temporary files, `mkdir_p`, moves and deletes;
  - the uuid output names;
  - the leftovers `clean_tmp_directory` removes.
- CSV parsing is not modelled. `fetch` receives the headers and the rows already parsed.
  `nil` cells are not modelled.
- `Date.today` and `Time.now` are parameters: the date string, and the time in whole seconds.
- Eta.RemainingTime: the float division and `to_i` of lines 90-91 are computed exactly and
  truncated. A float result that rounds differently at a boundary is not modelled.
- Concurrent requests sharing the class variables are reduced to one thing: a stop request
  served while a `yt-dlp` run blocks (`ToolRun.stopRequested`). Other interleavings are not
  modelled.
- `handle_updated_csv` is not part of this model. `RetryFailed` yields the rows it would be
  given.
- Exceptions are not modelled:
  - failed uploads or file moves, with the rescues at lines 299-303, 366-370 and 447-450;
  - the `raise` for an unknown data type;
  - the per-row rescue at lines 565-569.

  No modelled path raises. In particular, every link starting with `https://youtu.be/` has
  host `youtu.be`. So the `ArgumentError` branch of `convert_short_to_full_url` cannot be
  reached from `handle_new_csv`, and `RowLink` folds it into "does not convert".
- Links.ConvertShortToFullUrl: decides the host by the `https://youtu.be/` prefix. After it,
  path and fragment characters must be RFC 3986 characters or percent escapes, the query (from
  the first `?` of the path) takes any ASCII character but `#`, at most one `#` is allowed, and
  a non-ASCII character anywhere is refused, as in the RFC 3986 parser of Ruby's `uri` library. Other `URI.parse` corner cases are not modelled.
- Text.BaseName: is `File.basename` for paths without a trailing '/', which is all the keys
  built here.
- The logger output and the JSON rendering of each action are left out. `Report` is the data
  the `progress` JSON carries.
- `check_scraping_status` writes an intermediate log line that `finalize_scraping` overwrites
  at once. The model keeps only the final line.
- The `is_file` argument of `fetch_youtube_data` is left out. Every caller that passes it
  already asks for a description or a thumbnail.
