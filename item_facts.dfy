/**
 What one item does to the controller's state: which list it lands in, what is
 uploaded, and which yt-dlp runs it makes.
 */
module ItemFacts {
  import opened Wrappers
  import opened Text
  import opened Links
  import opened Keys
  import opened ToolOutput
  import opened Pipeline

  /** The artifact a yt-dlp mode fetches. */
  function KindOf(m: ToolMode): (k: ArtifactKind)
    ensures ModeOf(k) == m
  {
    match m
    case DownloadVideo => Video
    case PrintTitle => Title
    case WriteDescription => Description
    case WriteThumbnail => Thumbnail
  }

  /** From `s` to `t` the lists, the run and upload history and the bucket only grow,
      the stop flag is never lowered, and the totals and start time are untouched. */
  predicate Grows(s: State, t: State)
  {
    && s.successful <= t.successful
    && s.unsuccessful <= t.unsuccessful
    && s.invalidLinks <= t.invalidLinks
    && s.calls <= t.calls
    && s.uploads <= t.uploads
    && s.store.Keys <= t.store.Keys
    && (s.stopped ==> t.stopped)
    && (StopConsistent(s) ==> StopConsistent(t))
    && t.total == s.total
    && t.startTime == s.startTime
  }

  lemma GrowsTransitive(s: State, m: State, t: State)
    requires Grows(s, m) && Grows(m, t)
    ensures Grows(s, t)
  {
  }

  /** Every yt-dlp run from index `from` on is for `link` and for an artifact whose
      key did not exist in state `s0`. */
  predicate CallsAvoidStored(w: World, s0: State, t: State, from: nat, link: string, idTag: string, today: string)
  {
    forall j | from <= j < |t.calls| ::
      t.calls[j].link == link && !S3FileExists(w, s0, FullKey(today, idTag, KindOf(t.calls[j].mode)))
  }

  lemma CallsAvoidStoredJoin(w: World, s0: State, m: State, t: State, from: nat, link: string, idTag: string, today: string)
    requires from <= |m.calls| && m.calls <= t.calls
    requires CallsAvoidStored(w, s0, m, from, link, idTag, today)
    requires CallsAvoidStored(w, s0, t, |m.calls|, link, idTag, today)
    ensures CallsAvoidStored(w, s0, t, from, link, idTag, today)
  {
    forall j | from <= j < |t.calls|
      ensures t.calls[j].link == link && !S3FileExists(w, s0, FullKey(today, idTag, KindOf(t.calls[j].mode)))
    {
      if j < |m.calls| {
        assert t.calls[j] == m.calls[j];
      }
    }
  }

  // ---------------------------------------------------------------- the video

  /** `fetch_youtube_video`: a run is made only when no stop is pending and the
      key is missing; the video is then unavailable exactly when the output says so;
      a success leaves the video in the bucket; a pending stop changes nothing but
      the log and the marker. */
  lemma FetchYoutubeVideoEffects(w: World, s: State, link: string, relKey: string, today: string)
    ensures var (r, t) := FetchYoutubeVideo(w, s, link, relKey, today);
      && Grows(s, t) && t.current == s.current && t.successful == s.successful
      && (t.calls == s.calls || t.calls == s.calls + [ToolRequest(link, DownloadVideo)])
      && (|t.calls| > |s.calls| <==> !ScrapingStopped(s) && !S3FileExists(w, s, BatchKey(today, relKey)))
      && (r == VideoUnavailable <==>
            && !ScrapingStopped(s) && !S3FileExists(w, s, BatchKey(today, relKey))
            && IsUnavailable(w.tool(ToolRequest(link, DownloadVideo), |s.calls|).output))
      && (r == VideoUnavailable ==>
            && t.invalidLinks == s.invalidLinks + [Entry(VideoKeyTag(relKey), link)]
            && t.unsuccessful == s.unsuccessful && t.store == s.store && t.uploads == s.uploads)
      && (r == VideoOk ==> BatchKey(today, relKey) in t.store && t.invalidLinks == s.invalidLinks
                           && t.unsuccessful == s.unsuccessful)
      && (r == VideoFailed ==> t.store == s.store && t.uploads == s.uploads && t.invalidLinks == s.invalidLinks)
      && (t.unsuccessful == s.unsuccessful || t.unsuccessful == s.unsuccessful + [Entry(VideoKeyTag(relKey), link)])
      && (ScrapingStopped(s) ==> r == VideoFailed && t.calls == s.calls && t.unsuccessful == s.unsuccessful)
  {
  }

  /** What `fetch_youtube_video` uploads and when it records a failure: the video key is
      uploaded exactly when the video was missing and the download produced a file, and
      the item lands in `unsuccessful` exactly when the download ran to the end, was not
      reported unavailable and produced no file. */
  lemma FetchYoutubeVideoOutcome(w: World, s: State, link: string, relKey: string, today: string)
    ensures var (r, t) := FetchYoutubeVideo(w, s, link, relKey, today);
      var key := BatchKey(today, relKey);
      var run := w.tool(ToolRequest(link, DownloadVideo), |s.calls|);
      && t.uploads == s.uploads + (if r == VideoOk && !S3FileExists(w, s, key) then [key] else [])
      && (r == VideoOk <==> !ScrapingStopped(s) && (S3FileExists(w, s, key) || t.uploads != s.uploads))
      && (t.unsuccessful == s.unsuccessful + [Entry(VideoKeyTag(relKey), link)] <==>
            && !ScrapingStopped(s) && !S3FileExists(w, s, key)
            && !IsUnavailable(run.output) && !run.stopRequested && run.file.None?)
  {
  }

  /** When `fetch_youtube_video` succeeds: with no stop pending, either the video is
      already in the bucket, or the download ran to the end without a stop request, was not
      reported unavailable and left a file, which is then what the bucket holds under the key. */
  lemma FetchYoutubeVideoSuccess(w: World, s: State, link: string, relKey: string, today: string)
    ensures var (r, t) := FetchYoutubeVideo(w, s, link, relKey, today);
      var key := BatchKey(today, relKey);
      var run := w.tool(ToolRequest(link, DownloadVideo), |s.calls|);
      && (r == VideoOk <==>
            && !ScrapingStopped(s)
            && (S3FileExists(w, s, key) || (!IsUnavailable(run.output) && !run.stopRequested && run.file.Some?)))
      && (r == VideoOk && !S3FileExists(w, s, key) ==>
            run.file.Some? && t.store == s.store[key := FileBytes(run.file.value)]
            && t.uploads == s.uploads + [key])
  {
  }

  /** A video that cannot be downloaded is recorded under the id tag's base name cut
      at its first '-', not under the id tag itself. */
  lemma VideoFailureTag(w: World, s: State, link: string, idTag: string, today: string)
    ensures var t := FetchYoutubeVideo(w, s, link, RelativeKey(idTag, Video), today).1;
      var e := Entry(Some(TakeUntil(BaseName(idTag), '-')), link);
      && (t.invalidLinks == s.invalidLinks || t.invalidLinks == s.invalidLinks + [e])
      && (t.unsuccessful == s.unsuccessful || t.unsuccessful == s.unsuccessful + [e])
  {
    FetchYoutubeVideoEffects(w, s, link, RelativeKey(idTag, Video), today);
    VideoKeyTagOf(idTag);
  }

  // ---------------------------------------------------------------- the metadata

  /** `fetch_youtube_data`: all runs are for this artifact's mode; a success uploads
      exactly its key, a failure uploads nothing; a pending stop changes nothing but
      the log and the marker. */
  lemma FetchYoutubeDataEffects(w: World, s: State, link: string, kind: ArtifactKind, relKey: string, today: string)
    requires kind != Video
    ensures var (ok, t) := FetchYoutubeData(w, s, link, kind, relKey, today);
      && Grows(s, t) && t.current == s.current && t.successful == s.successful
      && t.invalidLinks == s.invalidLinks
      && (forall j | |s.calls| <= j < |t.calls| :: t.calls[j] == ToolRequest(link, ModeOf(kind)))
      && (ok ==> t.uploads == s.uploads + [BatchKey(today, relKey)] && BatchKey(today, relKey) in t.store
                 && t.unsuccessful == s.unsuccessful)
      && (!ok ==> t.uploads == s.uploads && t.store == s.store)
      && (ScrapingStopped(s) ==> !ok && t.calls == s.calls && t.unsuccessful == s.unsuccessful)
      && (t.unsuccessful == s.unsuccessful || t.unsuccessful == s.unsuccessful + [Entry(DataKeyTag(relKey), link)])
  {
    var key := BatchKey(today, relKey);
    var req := ToolRequest(link, ModeOf(kind));
    var (go, s1) := CheckScrapingStatus(s);
    if go {
      var (run, s2) := RunYtDlp(w, s1.(log := FetchingData(kind, link)), req);
      var (go2, s3) := CheckScrapingStatus(s2);
      assert s2.calls == s.calls + [req];
      if go2 && kind != Title {
        var (run2, s4) := RunYtDlp(w, s3, req);
        assert s4.calls == s.calls + [req, req];
      }
    }
  }

  /** `fetch_youtube_data` lands the item in `unsuccessful` exactly when it fails after
      its first run without a stop request arriving during that run. */
  lemma FetchYoutubeDataFailure(w: World, s: State, link: string, kind: ArtifactKind, relKey: string, today: string)
    requires kind != Video
    ensures var (ok, t) := FetchYoutubeData(w, s, link, kind, relKey, today);
      t.unsuccessful == s.unsuccessful + [Entry(DataKeyTag(relKey), link)] <==>
        !ok && !ScrapingStopped(s) && !w.tool(ToolRequest(link, ModeOf(kind)), |s.calls|).stopRequested
  {
  }

  /** When `fetch_youtube_data` succeeds: with no stop pending before or arriving during
      the first run, a title succeeds when its filtered output is not blank, and a description
      or thumbnail when either run left a file (the second run's, if any, is taken); the bucket
      then holds that title or file under the key. */
  lemma FetchYoutubeDataSuccess(w: World, s: State, link: string, kind: ArtifactKind, relKey: string, today: string)
    requires kind != Video
    ensures var (ok, t) := FetchYoutubeData(w, s, link, kind, relKey, today);
      var key := BatchKey(today, relKey);
      var run := w.tool(ToolRequest(link, ModeOf(kind)), |s.calls|);
      var run2 := w.tool(ToolRequest(link, ModeOf(kind)), |s.calls| + 1);
      && (ok <==>
            && !ScrapingStopped(s) && !run.stopRequested
            && if kind == Title then FilterTitle(run.output) != [] else run2.file.Some? || run.file.Some?)
      && (ok && kind == Title ==> t.store == s.store[key := TitleText(FilterTitle(run.output))])
      && (ok && kind != Title ==>
            t.store == s.store[key := FileBytes(if run2.file.Some? then run2.file.value else run.file.value)])
  {
  }

  /** The title uploaded is the filtered output of the title run, never blank; and a
      run whose filtered output is empty uploads nothing. */
  lemma FetchTitleUploadsFilteredTitle(w: World, s: State, link: string, relKey: string, today: string)
    ensures var (ok, t) := FetchYoutubeData(w, s, link, Title, relKey, today);
      var title := FilterTitle(w.tool(ToolRequest(link, PrintTitle), |s.calls|).output);
      && (ok ==> title != [] && t.store[BatchKey(today, relKey)] == TitleText(title))
      && (title == [] ==> !ok)
  {
  }

  /** A failed title, description or thumbnail is recorded under the S3 folder name
      of the artifact instead of the item's id tag. */
  lemma DataFailureTag(w: World, s: State, link: string, idTag: string, kind: ArtifactKind, today: string)
    requires kind != Video
    ensures var t := FetchYoutubeData(w, s, link, kind, RelativeKey(idTag, kind), today).1;
      || t.unsuccessful == s.unsuccessful
      || t.unsuccessful == s.unsuccessful + [Entry(Some(Folder(kind)), link)]
  {
    FetchYoutubeDataEffects(w, s, link, kind, RelativeKey(idTag, kind), today);
    DataKeyTagIsFolder(idTag, kind);
  }

  lemma FetchUnlessStoredEffects(w: World, s: State, stored: bool, link: string, idTag: string, kind: ArtifactKind, today: string)
    requires kind != Video
    ensures var (ok, t) := FetchUnlessStored(w, s, stored, link, idTag, kind, today);
      && Grows(s, t) && t.current == s.current && t.successful == s.successful
      && t.invalidLinks == s.invalidLinks
      && (stored ==> ok && t == s)
      && (forall j | |s.calls| <= j < |t.calls| :: t.calls[j] == ToolRequest(link, ModeOf(kind)))
      && (ok ==> FullKey(today, idTag, kind) in t.store || stored)
      && (ScrapingStopped(s) ==> ok == stored && t.calls == s.calls && t.store == s.store
                                 && t.uploads == s.uploads && t.unsuccessful == s.unsuccessful)
  {
    if !stored {
      FetchYoutubeDataEffects(w, s, link, kind, RelativeKey(idTag, kind), today);
    }
  }

  // ---------------------------------------------------------------- the item

  /** A link is rejected exactly when it fails the watch-URL pattern; the rejected
      row is appended to `invalid_links` under its own id tag and nothing else changes:
      no yt-dlp run, no upload, no log line. */
  lemma ScrapeRejectsIff(w: World, s: State, link: string, idTag: string, today: string)
    ensures var (r, t) := ScrapeYoutubeData(w, s, link, idTag, today);
      && (r == InvalidLink <==> !IsWatchUrl(link))
      && (r == InvalidLink ==> t == s.(invalidLinks := s.invalidLinks + [Entry(Some(idTag), link)]))
  {
    if IsWatchUrl(link) {
      FetchYoutubeVideoEffects(w, s, link, RelativeKey(idTag, Video), today);
    }
  }

  /** The three metadata fetches together: the state only grows, and `successful`
      and `invalid_links` are untouched. */
  lemma FetchMetadataGrows(w: World, s: State, existing: Existing, link: string, idTag: string, today: string)
    ensures var t := FetchMetadata(w, s, existing, link, idTag, today).1;
      Grows(s, t) && t.current == s.current && t.successful == s.successful && t.invalidLinks == s.invalidLinks
  {
    var s1 := FetchUnlessStored(w, s, existing.title, link, idTag, Title, today).1;
    FetchUnlessStoredEffects(w, s, existing.title, link, idTag, Title, today);
    var s2 := FetchUnlessStored(w, s1, existing.description, link, idTag, Description, today).1;
    FetchUnlessStoredEffects(w, s1, existing.description, link, idTag, Description, today);
    var s3 := FetchUnlessStored(w, s2, existing.thumbnail, link, idTag, Thumbnail, today).1;
    FetchUnlessStoredEffects(w, s2, existing.thumbnail, link, idTag, Thumbnail, today);
    GrowsTransitive(s, s1, s2);
    GrowsTransitive(s, s2, s3);
  }

  /** With the stop flag raised the three fetches run nothing and record nothing. */
  lemma FetchMetadataWhenStopped(w: World, s: State, existing: Existing, link: string, idTag: string, today: string)
    requires s.stopped
    ensures var t := FetchMetadata(w, s, existing, link, idTag, today).1;
      t.stopped && t.calls == s.calls && t.store == s.store && t.uploads == s.uploads && t.unsuccessful == s.unsuccessful
  {
    var s1 := FetchUnlessStored(w, s, existing.title, link, idTag, Title, today).1;
    FetchUnlessStoredEffects(w, s, existing.title, link, idTag, Title, today);
    var s2 := FetchUnlessStored(w, s1, existing.description, link, idTag, Description, today).1;
    FetchUnlessStoredEffects(w, s1, existing.description, link, idTag, Description, today);
    FetchUnlessStoredEffects(w, s2, existing.thumbnail, link, idTag, Thumbnail, today);
  }

  /** A fetch made unless stored keeps the bucket's keys, and uploads its artifact's key
      exactly when it fetched the artifact rather than finding it stored. */
  lemma FetchUnlessStoredUploads(w: World, s: State, stored: bool, link: string, idTag: string, kind: ArtifactKind, today: string)
    requires kind != Video
    ensures var (ok, t) := FetchUnlessStored(w, s, stored, link, idTag, kind, today);
      && s.store.Keys <= t.store.Keys
      && (ok && !stored ==> FullKey(today, idTag, kind) in t.store)
      && t.uploads == s.uploads + (if ok && !stored then [FullKey(today, idTag, kind)] else [])
  {
    if !stored {
      FetchYoutubeDataEffects(w, s, link, kind, RelativeKey(idTag, kind), today);
    } else {
      assert s.uploads + [] == s.uploads;
    }
  }

  /** When all three succeed, each artifact is in the bucket or was found there. */
  lemma FetchMetadataStored(w: World, s: State, existing: Existing, link: string, idTag: string, today: string)
    ensures var (complete, t) := FetchMetadata(w, s, existing, link, idTag, today);
      complete ==>
        && (FullKey(today, idTag, Title) in t.store || existing.title)
        && (FullKey(today, idTag, Description) in t.store || existing.description)
        && (FullKey(today, idTag, Thumbnail) in t.store || existing.thumbnail)
  {
    var r1 := FetchUnlessStored(w, s, existing.title, link, idTag, Title, today);
    FetchUnlessStoredUploads(w, s, existing.title, link, idTag, Title, today);
    var r2 := FetchUnlessStored(w, r1.1, existing.description, link, idTag, Description, today);
    FetchUnlessStoredUploads(w, r1.1, existing.description, link, idTag, Description, today);
    FetchUnlessStoredUploads(w, r2.1, existing.thumbnail, link, idTag, Thumbnail, today);
  }

  /** `key` was uploaded between `s` and `t`. */
  predicate UploadedSince(s: State, t: State, key: string)
  {
    |s.uploads| <= |t.uploads| && key in t.uploads[|s.uploads|..]
  }

  /** The metadata fetches upload no video, and all three succeed exactly when each
      artifact was found stored or has been uploaded by them. */
  lemma FetchMetadataUploads(w: World, s: State, existing: Existing, link: string, idTag: string, today: string)
    ensures var (complete, t) := FetchMetadata(w, s, existing, link, idTag, today);
      && s.uploads <= t.uploads
      && FullKey(today, idTag, Video) !in t.uploads[|s.uploads|..]
      && (complete <==> && (existing.title || UploadedSince(s, t, FullKey(today, idTag, Title)))
                        && (existing.description || UploadedSince(s, t, FullKey(today, idTag, Description)))
                        && (existing.thumbnail || UploadedSince(s, t, FullKey(today, idTag, Thumbnail))))
  {
    var (ok1, s1) := FetchUnlessStored(w, s, existing.title, link, idTag, Title, today);
    FetchUnlessStoredUploads(w, s, existing.title, link, idTag, Title, today);
    var (ok2, s2) := FetchUnlessStored(w, s1, existing.description, link, idTag, Description, today);
    FetchUnlessStoredUploads(w, s1, existing.description, link, idTag, Description, today);
    var (ok3, s3) := FetchUnlessStored(w, s2, existing.thumbnail, link, idTag, Thumbnail, today);
    FetchUnlessStoredUploads(w, s2, existing.thumbnail, link, idTag, Thumbnail, today);
    FullKeysDistinct(today, idTag);
    ThreeUploads(s.uploads, s1.uploads, s2.uploads, s3.uploads,
                 FullKey(today, idTag, Title), FullKey(today, idTag, Description),
                 FullKey(today, idTag, Thumbnail), FullKey(today, idTag, Video),
                 ok1 && !existing.title, ok2 && !existing.description, ok3 && !existing.thumbnail);
  }

  /** Three steps that each append their own key or nothing: a key is among the new
      entries exactly when its step appended it, and a fourth key never is. */
  lemma ThreeUploads(u0: seq<string>, u1: seq<string>, u2: seq<string>, u3: seq<string>,
                     k1: string, k2: string, k3: string, other: string, b1: bool, b2: bool, b3: bool)
    requires k1 != k2 && k1 != k3 && k2 != k3 && other != k1 && other != k2 && other != k3
    requires u1 == u0 + (if b1 then [k1] else [])
    requires u2 == u1 + (if b2 then [k2] else [])
    requires u3 == u2 + (if b3 then [k3] else [])
    ensures u0 <= u3 && other !in u3[|u0|..]
    ensures (k1 in u3[|u0|..] <==> b1) && (k2 in u3[|u0|..] <==> b2) && (k3 in u3[|u0|..] <==> b3)
  {
    assert u3[|u0|..] == (if b1 then [k1] else []) + (if b2 then [k2] else []) + (if b3 then [k3] else []);
  }

  /** The four keys of an item are pairwise distinct. */
  lemma FullKeysDistinct(today: string, idTag: string)
    ensures forall k1, k2 | FullKey(today, idTag, k1) == FullKey(today, idTag, k2) :: k1 == k2
  {
    forall k1, k2 | FullKey(today, idTag, k1) == FullKey(today, idTag, k2) ensures k1 == k2 {
      FullKeyInjective(today, idTag, k1, idTag, k2);
    }
  }

  /** A fetch made unless stored runs yt-dlp only for an artifact found missing in `s0`. */
  lemma FetchUnlessStoredCalls(w: World, s0: State, s: State, stored: bool, link: string, idTag: string, kind: ArtifactKind, today: string)
    requires kind != Video && stored == S3FileExists(w, s0, FullKey(today, idTag, kind))
    ensures var t := FetchUnlessStored(w, s, stored, link, idTag, kind, today).1;
      s.calls <= t.calls && CallsAvoidStored(w, s0, t, |s.calls|, link, idTag, today)
  {
    FetchUnlessStoredEffects(w, s, stored, link, idTag, kind, today);
  }

  /** Every run of the three fetches is for an artifact whose key did not exist in `s0`. */
  lemma FetchMetadataCalls(w: World, s0: State, s: State, existing: Existing, link: string, idTag: string, today: string)
    requires existing == ExistingKeys(w, s0, idTag, today)
    ensures CallsAvoidStored(w, s0, FetchMetadata(w, s, existing, link, idTag, today).1, |s.calls|, link, idTag, today)
  {
    var s1 := FetchUnlessStored(w, s, existing.title, link, idTag, Title, today).1;
    FetchUnlessStoredCalls(w, s0, s, existing.title, link, idTag, Title, today);
    var s2 := FetchUnlessStored(w, s1, existing.description, link, idTag, Description, today).1;
    FetchUnlessStoredCalls(w, s0, s1, existing.description, link, idTag, Description, today);
    var s3 := FetchUnlessStored(w, s2, existing.thumbnail, link, idTag, Thumbnail, today).1;
    FetchUnlessStoredCalls(w, s0, s2, existing.thumbnail, link, idTag, Thumbnail, today);
    CallsAvoidStoredJoin(w, s0, s1, s2, |s.calls|, link, idTag, today);
    CallsAvoidStoredJoin(w, s0, s2, s3, |s.calls|, link, idTag, today);
  }

  /** An item only grows the state, and leaves `current` to the row driver. */
  lemma ScrapeGrows(w: World, s: State, link: string, idTag: string, today: string)
    ensures var t := ScrapeYoutubeData(w, s, link, idTag, today).1;
      Grows(s, t) && t.current == s.current
  {
    if IsWatchUrl(link) {
      var existing := ExistingKeys(w, s, idTag, today);
      var (video, s1) := FetchYoutubeVideo(w, s, link, RelativeKey(idTag, Video), today);
      FetchYoutubeVideoEffects(w, s, link, RelativeKey(idTag, Video), today);
      if video != VideoUnavailable {
        var s2 := FetchMetadata(w, s1, existing, link, idTag, today).1;
        FetchMetadataGrows(w, s1, existing, link, idTag, today);
        GrowsTransitive(s, s1, s2);
      }
    }
  }

  /** The item's overall effect: a recorded item has all four
      artifacts in the bucket and is the one entry appended to `successful`; any
      other outcome leaves `successful` alone; and every yt-dlp run it makes is for
      its link and for an artifact whose key did not exist when it started. */
  lemma ScrapeEffects(w: World, s: State, link: string, idTag: string, today: string)
    ensures var (r, t) := ScrapeYoutubeData(w, s, link, idTag, today);
      && (r == Recorded ==> forall k :: FullKey(today, idTag, k) in t.store)
      && (r == Recorded ==> |t.successful| == |s.successful| + 1 && t.successful[..|s.successful|] == s.successful
                            && t.successful[|s.successful|].idTag == idTag
                            && t.successful[|s.successful|].link == link)
      && (r != Recorded ==> t.successful == s.successful)
      && CallsAvoidStored(w, s, t, |s.calls|, link, idTag, today)
  {
    ScrapeStoresAll(w, s, link, idTag, today);
    ScrapeCallsAvoidStored(w, s, link, idTag, today);
    if IsWatchUrl(link) {
      var (video, s1) := FetchYoutubeVideo(w, s, link, RelativeKey(idTag, Video), today);
      FetchYoutubeVideoEffects(w, s, link, RelativeKey(idTag, Video), today);
      if video != VideoUnavailable {
        FetchMetadataGrows(w, s1, ExistingKeys(w, s, idTag, today), link, idTag, today);
      }
    }
  }

  /** A recorded item has all four artifacts in the bucket. */
  lemma ScrapeStoresAll(w: World, s: State, link: string, idTag: string, today: string)
    ensures var (r, t) := ScrapeYoutubeData(w, s, link, idTag, today);
      r == Recorded ==> forall k :: FullKey(today, idTag, k) in t.store
  {
    if IsWatchUrl(link) {
      var existing := ExistingKeys(w, s, idTag, today);
      var (video, s1) := FetchYoutubeVideo(w, s, link, RelativeKey(idTag, Video), today);
      FetchYoutubeVideoEffects(w, s, link, RelativeKey(idTag, Video), today);
      if video == VideoOk {
        var (complete, s2) := FetchMetadata(w, s1, existing, link, idTag, today);
        FetchMetadataGrows(w, s1, existing, link, idTag, today);
        FetchMetadataStored(w, s1, existing, link, idTag, today);
        if complete {
          forall k ensures FullKey(today, idTag, k) in s2.store {
            match k
            case Video => assert FullKey(today, idTag, k) in s1.store;
            case Title =>
            case Description =>
            case Thumbnail =>
          }
        }
      }
    }
  }

  /** Every yt-dlp run an item makes is for its link and for an artifact whose key did
      not exist when the item started. */
  lemma ScrapeCallsAvoidStored(w: World, s: State, link: string, idTag: string, today: string)
    ensures CallsAvoidStored(w, s, ScrapeYoutubeData(w, s, link, idTag, today).1, |s.calls|, link, idTag, today)
  {
    if IsWatchUrl(link) {
      var existing := ExistingKeys(w, s, idTag, today);
      var (video, s1) := FetchYoutubeVideo(w, s, link, RelativeKey(idTag, Video), today);
      FetchYoutubeVideoEffects(w, s, link, RelativeKey(idTag, Video), today);
      assert CallsAvoidStored(w, s, s1, |s.calls|, link, idTag, today);
      if video != VideoUnavailable {
        var (complete, s2) := FetchMetadata(w, s1, existing, link, idTag, today);
        FetchMetadataGrows(w, s1, existing, link, idTag, today);
        FetchMetadataCalls(w, s, s1, existing, link, idTag, today);
        CallsAvoidStoredJoin(w, s, s1, s2, |s.calls|, link, idTag, today);
      }
    }
  }

  /** An item is recorded exactly when its link passes the watch-URL pattern, scraping
      was not stopped when it started, and each of its four artifacts was either found
      in the bucket then or has been uploaded by it. */
  lemma ScrapeRecordedIff(w: World, s: State, link: string, idTag: string, today: string)
    ensures var (r, t) := ScrapeYoutubeData(w, s, link, idTag, today);
      r == Recorded <==>
        && IsWatchUrl(link) && !ScrapingStopped(s)
        && forall k :: S3FileExists(w, s, FullKey(today, idTag, k)) || UploadedSince(s, t, FullKey(today, idTag, k))
  {
    var (r, t) := ScrapeYoutubeData(w, s, link, idTag, today);
    if IsWatchUrl(link) {
      var kv := FullKey(today, idTag, Video);
      var existing := ExistingKeys(w, s, idTag, today);
      var (video, s1) := FetchYoutubeVideo(w, s, link, RelativeKey(idTag, Video), today);
      FetchYoutubeVideoOutcome(w, s, link, RelativeKey(idTag, Video), today);
      if video == VideoUnavailable {
        FetchYoutubeVideoEffects(w, s, link, RelativeKey(idTag, Video), today);
        assert !(S3FileExists(w, s, kv) || UploadedSince(s, t, kv));
      } else {
        var (complete, s2) := FetchMetadata(w, s1, existing, link, idTag, today);
        FetchMetadataUploads(w, s1, existing, link, idTag, today);
        assert t.uploads == s2.uploads;
        RecordedCore(w, s, s1, t, today, idTag, video, complete, existing);
      }
    }
  }

  /** The step of `ScrapeRecordedIff` past the video fetch, on the facts the video and
      metadata lemmas give. */
  lemma RecordedCore(w: World, s: State, s1: State, t: State, today: string, idTag: string,
                     video: VideoStatus, complete: bool, existing: Existing)
    requires existing == ExistingKeys(w, s, idTag, today)
    requires var kv := FullKey(today, idTag, Video);
      && s1.uploads == s.uploads + (if video == VideoOk && !S3FileExists(w, s, kv) then [kv] else [])
      && (video == VideoOk <==> !ScrapingStopped(s) && (S3FileExists(w, s, kv) || s1.uploads != s.uploads))
    requires s1.uploads <= t.uploads && FullKey(today, idTag, Video) !in t.uploads[|s1.uploads|..]
    requires complete <==> && (existing.title || UploadedSince(s1, t, FullKey(today, idTag, Title)))
                           && (existing.description || UploadedSince(s1, t, FullKey(today, idTag, Description)))
                           && (existing.thumbnail || UploadedSince(s1, t, FullKey(today, idTag, Thumbnail)))
    ensures complete && video == VideoOk <==>
      && !ScrapingStopped(s)
      && forall k :: S3FileExists(w, s, FullKey(today, idTag, k)) || UploadedSince(s, t, FullKey(today, idTag, k))
  {
    var kv := FullKey(today, idTag, Video);
    var vb := video == VideoOk && !S3FileExists(w, s, kv);
    FullKeysDistinct(today, idTag);
    forall k ensures UploadedSince(s, t, FullKey(today, idTag, k)) <==>
                     if k == Video then vb else UploadedSince(s1, t, FullKey(today, idTag, k)) {
      VideoThenMetadata(s.uploads, s1.uploads, t.uploads, kv, vb, FullKey(today, idTag, k));
    }
  }

  /** The video step appends the video key or nothing and the metadata steps never
      append it: the video key is new exactly when the video step added it, and any
      other key is new exactly when the metadata steps added it. */
  lemma VideoThenMetadata(u0: seq<string>, u1: seq<string>, u2: seq<string>, kv: string, vb: bool, k: string)
    requires u1 == u0 + (if vb then [kv] else [])
    requires u1 <= u2 && kv !in u2[|u1|..]
    ensures |u0| <= |u2|
    ensures k == kv ==> (k in u2[|u0|..] <==> vb)
    ensures k != kv ==> (k in u2[|u0|..] <==> k in u2[|u1|..])
  {
    assert u2[|u0|..] == (if vb then [kv] else []) + u2[|u1|..];
  }

  /** With every artifact already in the bucket, an item that is not stopped is
      recorded with no yt-dlp run and no upload, each metadata artifact marked as
      already stored under its key. */
  lemma ScrapeAllStored(w: World, s: State, link: string, idTag: string, today: string)
    requires IsWatchUrl(link) && !ScrapingStopped(s)
    requires forall k :: S3FileExists(w, s, FullKey(today, idTag, k))
    ensures var (r, t) := ScrapeYoutubeData(w, s, link, idTag, today);
      && r == Recorded
      && t.calls == s.calls && t.uploads == s.uploads && t.store == s.store
      && t.unsuccessful == s.unsuccessful && t.invalidLinks == s.invalidLinks
      && t.successful == s.successful + [SuccessEntry(idTag, link,
                                           AlreadyStored(RelativeKey(idTag, Title)),
                                           AlreadyStored(RelativeKey(idTag, Description)),
                                           AlreadyStored(RelativeKey(idTag, Thumbnail)))]
  {
    assert S3FileExists(w, s, FullKey(today, idTag, Title));
    assert S3FileExists(w, s, FullKey(today, idTag, Description));
    assert S3FileExists(w, s, FullKey(today, idTag, Thumbnail));
    assert S3FileExists(w, s, FullKey(today, idTag, Video));
  }

  /** The item ends as unavailable exactly when the link passes the pattern, no stop
      is pending, the video is not yet stored, and the download run reports the video
      unavailable. It is then appended to `invalid_links` only, after exactly that one
      run: title, description and thumbnail are never fetched. */
  lemma ScrapeUnavailableIff(w: World, s: State, link: string, idTag: string, today: string)
    ensures var (r, t) := ScrapeYoutubeData(w, s, link, idTag, today);
      && (r == SourceUnavailable <==>
            && IsWatchUrl(link) && !ScrapingStopped(s)
            && !S3FileExists(w, s, FullKey(today, idTag, Video))
            && IsUnavailable(w.tool(ToolRequest(link, DownloadVideo), |s.calls|).output))
      && (r == SourceUnavailable ==>
            && t.calls == s.calls + [ToolRequest(link, DownloadVideo)]
            && t.invalidLinks == s.invalidLinks + [Entry(VideoKeyTag(RelativeKey(idTag, Video)), link)]
            && t.successful == s.successful && t.unsuccessful == s.unsuccessful
            && t.store == s.store && t.uploads == s.uploads)
  {
    if IsWatchUrl(link) {
      FetchYoutubeVideoEffects(w, s, link, RelativeKey(idTag, Video), today);
    }
  }

  /** With the stop flag raised an item fetches and uploads nothing and is not
      recorded; at most its rejected link is noted. */
  lemma ScrapeWhenStopped(w: World, s: State, link: string, idTag: string, today: string)
    requires s.stopped
    ensures var (r, t) := ScrapeYoutubeData(w, s, link, idTag, today);
      && r != Recorded && t.stopped
      && t.calls == s.calls && t.uploads == s.uploads && t.store == s.store
      && t.successful == s.successful && t.unsuccessful == s.unsuccessful
      && t.invalidLinks == s.invalidLinks + (if IsWatchUrl(link) then [] else [Entry(Some(idTag), link)])
  {
    if IsWatchUrl(link) {
      var existing := ExistingKeys(w, s, idTag, today);
      var (video, s1) := FetchYoutubeVideo(w, s, link, RelativeKey(idTag, Video), today);
      FetchYoutubeVideoEffects(w, s, link, RelativeKey(idTag, Video), today);
      FetchMetadataGrows(w, s1, existing, link, idTag, today);
      FetchMetadataWhenStopped(w, s1, existing, link, idTag, today);
      assert s.invalidLinks + [] == s.invalidLinks;
    }
  }
}
