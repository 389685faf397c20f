/**
 How the controller reads the text yt-dlp prints: the title filter of
 `fetch_youtube_data` and the "unavailable" test of `fetch_youtube_video`.
 */
module ToolOutput {
  import opened Text

  const UnavailableMarker: string := "Video unavailable"
  const MobileMarker: string := "This content can't be played on your mobile browser"

  /** The output reports a video that can never be downloaded. */
  predicate IsUnavailable(output: string)
  {
    Contains(output, UnavailableMarker) || Contains(output, MobileMarker)
  }

  /** The unavailable test holds exactly when one of the two messages occurs in the output. */
  lemma IsUnavailableIff(output: string)
    ensures IsUnavailable(output) <==>
            (exists i :: OccursAt(output, UnavailableMarker, i)) || (exists i :: OccursAt(output, MobileMarker, i))
  {
    ContainsIffOccurs(output, UnavailableMarker);
    ContainsIffOccurs(output, MobileMarker);
  }

  /** A diagnostic line: once stripped it starts with `WARNING:`, `ERROR:` or `HTTP Error`. */
  predicate IsNoiseLine(line: string)
  {
    var t := Strip(line);
    StartsWith(t, "WARNING:") || StartsWith(t, "ERROR:") || StartsWith(t, "HTTP Error")
  }

  /** `lines.reject { |line| ... }`: the lines that are not diagnostics, in order. */
  function KeepLines(ls: seq<string>): (r: seq<string>)
    ensures |r| <= |ls|
    ensures forall k | 0 <= k < |r| :: !IsNoiseLine(r[k]) && r[k] in ls
  {
    if ls == [] then []
    else
      var rest := KeepLines(ls[1..]);
      if IsNoiseLine(ls[0]) then rest else [ls[0]] + rest
  }

  /** The filter distributes over concatenation, so the kept lines stay in input order. */
  lemma {:induction false} KeepLinesAppend(a: seq<string>, b: seq<string>)
    ensures KeepLines(a + b) == KeepLines(a) + KeepLines(b)
  {
    if a == [] {
      assert a + b == b;
    } else {
      assert (a + b)[0] == a[0] && (a + b)[1..] == a[1..] + b;
      KeepLinesAppend(a[1..], b);
    }
  }

  /** The title written to S3: the output without its diagnostic lines, joined and stripped. */
  function FilterTitle(output: string): (t: string)
    ensures t != [] ==> !IsSpace(t[0]) && !IsSpace(t[|t| - 1])
  {
    Strip(Concat(KeepLines(Lines(output))))
  }

  lemma {:induction false} KeepLinesOfClean(ls: seq<string>)
    requires forall k {:trigger IsNoiseLine(ls[k])} | 0 <= k < |ls| :: !IsNoiseLine(ls[k])
    ensures KeepLines(ls) == ls
  {
    if ls != [] {
      KeepLinesOfClean(ls[1..]);
      assert ls == [ls[0]] + ls[1..];
    }
  }

  /** Output without any diagnostic line is only stripped. */
  lemma FilterTitleOfCleanOutput(output: string)
    requires forall k | 0 <= k < |Lines(output)| :: !IsNoiseLine(Lines(output)[k])
    ensures FilterTitle(output) == Strip(output)
  {
    KeepLinesOfClean(Lines(output));
    ConcatLines(output);
  }

  lemma {:induction false} KeepLinesMember(ls: seq<string>, l: string)
    ensures l in KeepLines(ls) <==> l in ls && !IsNoiseLine(l)
  {
    if ls != [] {
      KeepLinesMember(ls[1..], l);
      assert l in ls <==> l == ls[0] || l in ls[1..];
    }
  }

  /** The filter yields nothing, so nothing is uploaded, exactly when every line that is
      not a diagnostic is blank. */
  lemma FilterTitleEmptyIff(output: string)
    ensures FilterTitle(output) == [] <==>
            forall l | l in Lines(output) && !IsNoiseLine(l) :: AllSpace(l)
  {
    var kept := KeepLines(Lines(output));
    ConcatAllSpace(kept);
    forall l ensures l in kept <==> l in Lines(output) && !IsNoiseLine(l) {
      KeepLinesMember(Lines(output), l);
    }
    assert (forall k | 0 <= k < |kept| :: AllSpace(kept[k])) <==> (forall l | l in kept :: AllSpace(l));
  }

  /** A string that is exactly one line: it ends with its only newline. */
  predicate IsOneLine(w: string)
  {
    |w| > 0 && w[|w| - 1] == '\n' && forall i | 0 <= i < |w| - 1 :: w[i] != '\n'
  }

  lemma LinesAfterOneLine(w: string, rest: string)
    requires IsOneLine(w)
    ensures Lines(w + rest) == [w] + Lines(rest)
  {
    var s := w + rest;
    var n := FirstLineLength(s);
    assert s[|w| - 1] == '\n';
    assert n == |w|;
    assert s[..n] == w && s[n..] == rest;
  }

  /** A diagnostic line in front of the output (a yt-dlp warning, say) changes nothing
      in the title. */
  lemma FilterTitleSkipsNoiseLine(w: string, rest: string)
    requires IsOneLine(w) && IsNoiseLine(w)
    ensures FilterTitle(w + rest) == FilterTitle(rest)
  {
    LinesAfterOneLine(w, rest);
    var ls := [w] + Lines(rest);
    assert ls[0] == w && ls[1..] == Lines(rest);
  }

  /** A line that is kept is joined in front of the rest of the title text. */
  lemma FilterTitleKeepsLine(w: string, rest: string)
    requires IsOneLine(w) && !IsNoiseLine(w)
    ensures FilterTitle(w + rest) == Strip(w + Concat(KeepLines(Lines(rest))))
  {
    LinesAfterOneLine(w, rest);
    var ls := [w] + Lines(rest);
    assert ls[0] == w && ls[1..] == Lines(rest);
    var kept := [w] + KeepLines(Lines(rest));
    assert kept[0] == w && kept[1..] == KeepLines(Lines(rest));
  }
}
