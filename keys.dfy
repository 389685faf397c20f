/**
 The S3 key layout `<date>-Batch/<Folder>/<idTag><Suffix>` built by
 `scrape_youtube_data`, and the id tags the controller derives back from a
 key when it records a failed artifact.
 */
module Keys {
  import opened Wrappers
  import opened Text

  datatype ArtifactKind = Title | Description | Thumbnail | Video

  function Folder(k: ArtifactKind): string
  {
    match k
    case Title => "Video_Title"
    case Description => "Video_Description"
    case Thumbnail => "Thumbnail_Image"
    case Video => "Video"
  }

  function Suffix(k: ArtifactKind): string
  {
    match k
    case Title => "-Title.txt"
    case Description => "-Description.txt"
    case Thumbnail => "-Image.jpg"
    case Video => "-Video.mp4"
  }

  /** The key of an artifact inside one batch, e.g. `Video_Title/<idTag>-Title.txt`. */
  function RelativeKey(idTag: string, k: ArtifactKind): string
  {
    Folder(k) + "/" + idTag + Suffix(k)
  }

  /** The bucket key of a batch-relative key: `<today>-Batch/<relKey>`. */
  function BatchKey(today: string, relKey: string): string
  {
    today + "-Batch/" + relKey
  }

  function FullKey(today: string, idTag: string, k: ArtifactKind): string
  {
    BatchKey(today, RelativeKey(idTag, k))
  }

  /** Within one batch the key determines the artifact and the id tag. */
  lemma FullKeyInjective(today: string, id1: string, k1: ArtifactKind, id2: string, k2: ArtifactKind)
    requires FullKey(today, id1, k1) == FullKey(today, id2, k2)
    ensures id1 == id2 && k1 == k2
  {
    var p := today + "-Batch/";
    var a := Folder(k1) + "/" + id1 + Suffix(k1);
    var b := Folder(k2) + "/" + id2 + Suffix(k2);
    assert FullKey(today, id1, k1) == p + a && FullKey(today, id2, k2) == p + b;
    assert a == (p + a)[|p|..] && b == (p + b)[|p|..];
    FolderPrefixDecides(id1, k1, id2, k2);
    var f := Folder(k1) + "/";
    var n := |Suffix(k1)|;
    assert id1 == a[|f|..|a| - n] && id2 == b[|f|..|b| - n];
  }

  /** Reads the artifact kind back from the folder part of a relative key. */
  function KindOfKey(relKey: string): ArtifactKind
  {
    if |relKey| > 5 && relKey[5] == '/' then Video
    else if |relKey| > 0 && relKey[0] == 'T' then Thumbnail
    else if |relKey| > 6 && relKey[6] == 'T' then Title
    else Description
  }

  lemma KindOfRelativeKey(idTag: string, k: ArtifactKind)
    ensures KindOfKey(RelativeKey(idTag, k)) == k
  {
    var f := Folder(k) + "/";
    var a := RelativeKey(idTag, k);
    assert a == f + (idTag + Suffix(k));
    assert a[..|f|] == f;
    match k
    case Video => assert a[5] == f[5] == '/';
    case Thumbnail => assert a[0] == 'T' && a[5] == 'n';
    case Title => assert a[0] == 'V' && a[5] == '_' && a[6] == 'T';
    case Description => assert a[0] == 'V' && a[5] == '_' && a[6] == 'D';
  }

  /** Relative keys of different kinds never coincide. */
  lemma FolderPrefixDecides(id1: string, k1: ArtifactKind, id2: string, k2: ArtifactKind)
    requires RelativeKey(id1, k1) == RelativeKey(id2, k2)
    ensures k1 == k2
  {
    KindOfRelativeKey(id1, k1);
    KindOfRelativeKey(id2, k2);
  }

  /** Keys of different batch dates of the same length never collide. */
  lemma FullKeyDateInjective(d1: string, d2: string, id1: string, id2: string, k1: ArtifactKind, k2: ArtifactKind)
    requires |d1| == |d2| && FullKey(d1, id1, k1) == FullKey(d2, id2, k2)
    ensures d1 == d2
  {
    assert d1 == FullKey(d1, id1, k1)[..|d1|];
    assert d2 == FullKey(d2, id2, k2)[..|d2|];
  }

  /** The id tag `fetch_youtube_video` records for its key:
      `File.basename(s3_key, ".*").split("-").first`. */
  function VideoKeyTag(relKey: string): Option<string>
  {
    SplitFirst(StripExtension(BaseName(relKey)), '-')
  }

  /** The id tag `fetch_youtube_data` records for its key: `s3_key.split("/").first`. */
  function DataKeyTag(relKey: string): Option<string>
  {
    SplitFirst(relKey, '/')
  }

  lemma BaseNameOfPlain(s: string)
    requires '/' !in s
    ensures BaseName(s) == s
  {
    BaseNameAppend([], s);
    assert [] + s == s;
  }

  lemma TakeUntilOfPlain(s: string, c: char)
    requires c !in s
    ensures TakeUntil(s, c) == s
  {
    TakeUntilAppend(s, [], c);
    assert s + [] == s;
  }

  /** An occurrence in the tail fixes the last index relative to the tail. */
  lemma {:induction false} LastIndexOfAppend(a: string, b: string, c: char)
    requires LastIndexOf(b, c) >= 0
    ensures LastIndexOf(a + b, c) == |a| + LastIndexOf(b, c)
  {
    var i := LastIndexOf(b, c);
    var j := LastIndexOf(a + b, c);
    assert (a + b)[|a| + i] == c;
    forall k | |a| + i < k < |a + b| ensures (a + b)[k] != c {
      assert (a + b)[k] == b[k - |a|];
    }
  }

  /** The base name of a video key: the id tag's own base name, then the video suffix. */
  lemma VideoKeyBaseName(idTag: string)
    ensures BaseName(RelativeKey(idTag, Video)) == BaseName(idTag) + "-Video.mp4"
  {
    var sfx := "-Video.mp4";
    assert RelativeKey(idTag, Video) == ("Video/" + idTag) + sfx;
    assert '/' !in sfx;
    BaseNameAppend("Video/" + idTag, sfx);
    BaseNameAppend("Video/", idTag);
    if '/' !in idTag {
      BaseNameOfPlain(idTag);
      assert BaseName("Video/") == [];
      assert [] + idTag == idTag;
    }
  }

  /** Dropping the extension of a video base name leaves `<tail>-Video`. */
  lemma VideoStem(tail: string)
    ensures StripExtension(tail + "-Video.mp4") == tail + "-Video"
  {
    var sfx := "-Video.mp4";
    assert sfx[6] == '.' && sfx[7] != '.' && sfx[8] != '.' && sfx[9] != '.';
    assert LastIndexOf(sfx, '.') == 6;
    LastIndexOfAppend(tail, sfx, '.');
    assert (tail + sfx)[..|tail| + 6] == tail + "-Video";
  }

  lemma FolderHasNoSlash(k: ArtifactKind)
    ensures '/' !in Folder(k)
  {
    var f := Folder(k);
    forall i | 0 <= i < |f| ensures f[i] != '/' {
      match k
      case Title => assert f == "Video_Title";
      case Description => assert f == "Video_Description";
      case Thumbnail => assert f == "Thumbnail_Image";
      case Video => assert f == "Video";
    }
  }

  /** The first '-'-field of `<tail>-Video` is the first '-'-field of `tail`. */
  lemma VideoStemTag(tail: string)
    ensures SplitFirst(tail + "-Video", '-') == Some(TakeUntil(tail, '-'))
  {
    var stem := tail + "-Video";
    assert stem[|tail| + 1] == 'V';
    TakeUntilAppend(tail, "-Video", '-');
    if '-' !in tail {
      assert TakeUntil("-Video", '-') == [];
      assert tail + [] == tail;
      TakeUntilOfPlain(tail, '-');
    }
  }

  /** The tag recorded for a video is the part of the id tag after its last '/' and before
      the first '-' that follows: not the id tag itself when it holds either character. */
  lemma VideoKeyTagOf(idTag: string)
    ensures VideoKeyTag(RelativeKey(idTag, Video)) == Some(TakeUntil(BaseName(idTag), '-'))
  {
    var tail := BaseName(idTag);
    VideoKeyBaseName(idTag);
    VideoStem(tail);
    VideoStemTag(tail);
  }

  /** An id tag without '/' or '-' is recorded unchanged for the video. */
  lemma VideoKeyTagOfPlainId(idTag: string)
    requires '/' !in idTag && '-' !in idTag
    ensures VideoKeyTag(RelativeKey(idTag, Video)) == Some(idTag)
  {
    VideoKeyTagOf(idTag);
    BaseNameOfPlain(idTag);
    TakeUntilOfPlain(idTag, '-');
  }

  /** A non-empty first field ends at the first separator. */
  lemma SplitFirstAt(f: string, rest: string, sep: char)
    requires f != [] && sep !in f && rest != [] && rest[0] == sep
    ensures SplitFirst(f + rest, sep) == Some(f)
  {
    assert (f + rest)[0] == f[0] != sep;
    TakeUntilAppend(f, rest, sep);
    TakeUntilOfPlain(f, sep);
    assert TakeUntil(rest, sep) == [];
    assert f + [] == f;
  }

  /** For title, description and thumbnail the recorded tag is the S3 folder name,
      whatever the id tag. */
  lemma DataKeyTagIsFolder(idTag: string, k: ArtifactKind)
    ensures DataKeyTag(RelativeKey(idTag, k)) == Some(Folder(k))
  {
    FolderHasNoSlash(k);
    var rest := "/" + idTag + Suffix(k);
    assert RelativeKey(idTag, k) == Folder(k) + rest;
    SplitFirstAt(Folder(k), rest, '/');
  }
}
