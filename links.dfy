/**
 The two link checks of the controller: the fixed watch-URL pattern that
 `scrape_youtube_data` applies before any work, and `convert_short_to_full_url`,
 which rewrites a `youtu.be` short link into a watch URL.
 */
module Links {
  import opened Text

  const WatchPrefix: string := "https://youtube.com/watch?v="
  const WwwWatchPrefix: string := "https://www.youtube.com/watch?v="
  const ShortPrefix: string := "https://youtu.be/"

  /** One character of `[\w\-]` (Ruby's `\w` is ASCII letters, digits and '_'). */
  predicate IsIdChar(c: char)
  {
    ('A' <= c <= 'Z') || ('a' <= c <= 'z') || ('0' <= c <= '9') || c == '_' || c == '-'
  }

  /** The 11-character video id token of the pattern. */
  predicate IsVideoId(t: string)
  {
    |t| == 11 && forall i | 0 <= i < |t| :: IsIdChar(t[i])
  }

  /** The regular expression `\Ahttps:\/\/(www\.)?youtube\.com\/watch\?v=[\w\-]{11}\z`. */
  predicate IsWatchUrl(s: string)
  {
    || (StartsWith(s, WatchPrefix) && IsVideoId(s[|WatchPrefix|..]))
    || (StartsWith(s, WwwWatchPrefix) && IsVideoId(s[|WwwWatchPrefix|..]))
  }

  /** The watch URL of a video id, with or without the `www.` host prefix. */
  function WatchUrl(www: bool, id: string): string
  {
    (if www then WwwWatchPrefix else WatchPrefix) + id
  }

  /** The pattern accepts exactly the watch URLs of 11-character ids. */
  lemma WatchUrlIff(s: string)
    ensures IsWatchUrl(s) <==> exists www: bool, id: string :: IsVideoId(id) && s == WatchUrl(www, id)
  {
    if StartsWith(s, WatchPrefix) && IsVideoId(s[|WatchPrefix|..]) {
      assert s == WatchUrl(false, s[|WatchPrefix|..]);
    }
    if StartsWith(s, WwwWatchPrefix) && IsVideoId(s[|WwwWatchPrefix|..]) {
      assert s == WatchUrl(true, s[|WwwWatchPrefix|..]);
    }
    forall www: bool, id: string | IsVideoId(id) && s == WatchUrl(www, id) ensures IsWatchUrl(s) {
      var p := if www then WwwWatchPrefix else WatchPrefix;
      assert s[..|p|] == p && s[|p|..] == id;
    }
  }

  predicate IsHexDigit(c: char)
  {
    ('0' <= c <= '9') || ('a' <= c <= 'f') || ('A' <= c <= 'F')
  }

  /** Characters allowed literally in the path and fragment of an RFC 3986 URI
      (unreserved, sub-delims, ':', '@', '/' and '?'). */
  predicate IsUriChar(c: char)
  {
    || ('A' <= c <= 'Z') || ('a' <= c <= 'z') || ('0' <= c <= '9')
    || c == '-' || c == '.' || c == '_' || c == '~'
    || c == '!' || c == '$' || c == '&' || c == '\'' || c == '(' || c == ')'
    || c == '*' || c == '+' || c == ',' || c == ';' || c == '='
    || c == ':' || c == '@' || c == '/' || c == '?'
  }

  /** Where `URI.parse` is in the text that follows the authority. */
  datatype UriPart = InPath | InQuery | InFragment

  /** `URI.parse` (the RFC 3986 parser of Ruby's `uri` library) accepts what follows the
      authority: path and fragment characters are the allowed ones or `%` with two hex digits,
      the first '?' of the path begins a query that takes any ASCII character but '#', and one
      '#' begins the fragment. A non-ASCII character is refused anywhere. */
  predicate UriTailOk(t: string, part: UriPart)
    decreases |t|
  {
    if t == [] then true
    else if t[0] == '#' then part != InFragment && UriTailOk(t[1..], InFragment)
    else if part == InQuery then t[0] < '\U{80}' && UriTailOk(t[1..], InQuery)
    else if t[0] == '?' && part == InPath then UriTailOk(t[1..], InQuery)
    else if t[0] == '%' then |t| >= 3 && IsHexDigit(t[1]) && IsHexDigit(t[2]) && UriTailOk(t[3..], part)
    else IsUriChar(t[0]) && UriTailOk(t[1..], part)
  }

  /** The path of a short link after its leading '/': everything before the query or fragment. */
  function PathPart(t: string): (p: string)
    ensures p <= t && '?' !in p && '#' !in p
    ensures |p| < |t| ==> t[|p|] == '?' || t[|p|] == '#'
    decreases |t|
  {
    if t == [] || t[0] == '?' || t[0] == '#' then [] else [t[0]] + PathPart(t[1..])
  }

  /** Outcome of `convert_short_to_full_url`: the full URL, nil after `URI::InvalidURIError`,
      or the `ArgumentError` raised for a host other than `youtu.be`. */
  datatype ConvertResult = Converted(url: string) | InvalidUri | NotShortHost

  /** `convert_short_to_full_url`. A short link becomes the `www` watch URL of its path;
      the query and fragment are dropped. */
  function ConvertShortToFullUrl(u: string): (r: ConvertResult)
    ensures r.Converted? <==> StartsWith(u, ShortPrefix) && UriTailOk(u[|ShortPrefix|..], InPath)
    ensures r.NotShortHost? <==> !StartsWith(u, ShortPrefix)
    ensures r.Converted? ==>
              exists p :: && r.url == WwwWatchPrefix + p && p <= u[|ShortPrefix|..] && '?' !in p && '#' !in p
                          && (|p| < |u| - |ShortPrefix| ==> u[|ShortPrefix|..][|p|] == '?' || u[|ShortPrefix|..][|p|] == '#')
  {
    if !StartsWith(u, ShortPrefix) then NotShortHost
    else
      var tail := u[|ShortPrefix|..];
      if !UriTailOk(tail, InPath) then InvalidUri
      else
        Converted(WwwWatchPrefix + PathPart(tail))
  }

  /** Characters of a video id pass the URI check one by one. */
  lemma {:induction false} IdCharsAreUriOk(id: string, rest: string, part: UriPart)
    requires forall i | 0 <= i < |id| :: IsIdChar(id[i])
    ensures UriTailOk(id + rest, part) == UriTailOk(rest, part)
    decreases |id|
  {
    if id != [] {
      assert (id + rest)[0] == id[0] && (id + rest)[1..] == id[1..] + rest;
      IdCharsAreUriOk(id[1..], rest, part);
    } else {
      assert id + rest == rest;
    }
  }

  lemma {:induction false} PathPartOfId(id: string, rest: string)
    requires forall i | 0 <= i < |id| :: IsIdChar(id[i])
    requires rest == [] || rest[0] == '?' || rest[0] == '#'
    ensures PathPart(id + rest) == id
    decreases |id|
  {
    if id != [] {
      assert (id + rest)[0] == id[0] && (id + rest)[1..] == id[1..] + rest;
      PathPartOfId(id[1..], rest);
    } else {
      assert id + rest == rest;
    }
  }

  /** `https://youtu.be/ID` with an optional query or fragment converts to the `www` watch URL
      of ID, which the watch-URL pattern then accepts, unless the fragment is malformed. */
  lemma ShortLinkConverts(id: string, rest: string)
    requires IsVideoId(id)
    requires rest == [] || rest[0] == '?' || rest[0] == '#'
    ensures ConvertShortToFullUrl(ShortPrefix + id + rest)
            == if UriTailOk(rest, InPath) then Converted(WwwWatchPrefix + id) else InvalidUri
    ensures IsWatchUrl(WwwWatchPrefix + id)
  {
    var u := ShortPrefix + id + rest;
    assert u[..|ShortPrefix|] == ShortPrefix;
    assert u[|ShortPrefix|..] == id + rest;
    IdCharsAreUriOk(id, rest, InPath);
    PathPartOfId(id, rest);
    var w := WwwWatchPrefix + id;
    assert w[..|WwwWatchPrefix|] == WwwWatchPrefix && w[|WwwWatchPrefix|..] == id;
  }

  /** A converted link passes the watch-URL pattern exactly when its path is a video id. */
  lemma ConvertedIsWatchUrlIff(u: string)
    requires ConvertShortToFullUrl(u).Converted?
    ensures IsWatchUrl(ConvertShortToFullUrl(u).url) <==> IsVideoId(PathPart(u[|ShortPrefix|..]))
  {
    var p := PathPart(u[|ShortPrefix|..]);
    var w := WwwWatchPrefix + p;
    assert w[..|WwwWatchPrefix|] == WwwWatchPrefix && w[|WwwWatchPrefix|..] == p;
    assert w[8] == 'w' && WatchPrefix[8] == 'y';
    assert !StartsWith(w, WatchPrefix);
  }
}
