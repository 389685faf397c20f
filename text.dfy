/**
 String operations of Ruby's core library that the controller relies on:
 `start_with?`, `include?`, `lines`, `join`, `strip`, `File.basename` and
 `split(sep).first`, each defined on `seq<char>`.
 */
module Text {
  import opened Wrappers

  /** `s.start_with?(prefix)`. */
  predicate StartsWith(s: string, prefix: string)
  {
    |prefix| <= |s| && s[..|prefix|] == prefix
  }

  /** `s.include?(sub)`, computed by trying every start position in turn. */
  predicate Contains(s: string, sub: string)
    decreases |s|
  {
    StartsWith(s, sub) || (s != [] && Contains(s[1..], sub))
  }

  /** `sub` occurs in `s` starting at index `i`. */
  ghost predicate OccursAt(s: string, sub: string, i: int)
  {
    0 <= i && i + |sub| <= |s| && s[i..i + |sub|] == sub
  }

  /** The search in `Contains` finds an occurrence exactly when there is one. */
  lemma {:induction false} ContainsIffOccurs(s: string, sub: string)
    ensures Contains(s, sub) <==> exists i :: OccursAt(s, sub, i)
    decreases |s|
  {
    if s == [] {
      if sub == [] {
        assert OccursAt(s, sub, 0);
      }
    } else {
      ContainsIffOccurs(s[1..], sub);
      if StartsWith(s, sub) {
        assert OccursAt(s, sub, 0);
      }
      if Contains(s[1..], sub) {
        var i :| OccursAt(s[1..], sub, i);
        assert s[1..][i..i + |sub|] == s[i + 1..i + 1 + |sub|];
        assert OccursAt(s, sub, i + 1);
      }
      forall i | OccursAt(s, sub, i) ensures Contains(s, sub) {
        if i == 0 {
          assert s[..|sub|] == s[i..i + |sub|];
        } else {
          assert s[1..][i - 1..i - 1 + |sub|] == s[i..i + |sub|];
          assert OccursAt(s[1..], sub, i - 1);
        }
      }
    }
  }

  /** The characters `String#strip` removes: NUL, tab, LF, VT, FF, CR and space. */
  predicate IsSpace(c: char)
  {
    c == '\0' || c == '\t' || c == '\n' || c == '\U{B}' || c == '\U{C}' || c == '\r' || c == ' '
  }

  predicate AllSpace(s: string)
  {
    forall i | 0 <= i < |s| :: IsSpace(s[i])
  }

  /** `s.lstrip`: the suffix of `s` left after its leading whitespace. */
  function LStrip(s: string): (r: string)
    ensures |r| <= |s| && r == s[|s| - |r|..]
    ensures AllSpace(s[..|s| - |r|])
    ensures r != [] ==> !IsSpace(r[0])
    decreases |s|
  {
    if s != [] && IsSpace(s[0]) then LStrip(s[1..]) else s
  }

  /** `s.rstrip`: the prefix of `s` left after its trailing whitespace. */
  function RStrip(s: string): (r: string)
    ensures |r| <= |s| && r == s[..|r|]
    ensures AllSpace(s[|r|..])
    ensures r != [] ==> !IsSpace(r[|r| - 1])
    decreases |s|
  {
    if s != [] && IsSpace(s[|s| - 1]) then RStrip(s[..|s| - 1]) else s
  }

  /** `s.strip`: the slice of `s` left after removing whitespace from both ends; it has no
      whitespace at either end, and is empty exactly for a blank `s`. */
  function Strip(s: string): (r: string)
    ensures r != [] ==> !IsSpace(r[0]) && !IsSpace(r[|r| - 1])
    ensures r == [] <==> AllSpace(s)
    ensures exists a, b :: 0 <= a <= b <= |s| && r == s[a..b] && AllSpace(s[..a]) && AllSpace(s[b..])
  {
    var l := LStrip(s);
    var r := RStrip(l);
    TrimmedSlice(s, l, r);
    TrimmedBlank(s, l, r);
    r
  }

  /** Trimming whitespace from the front and then from the back leaves a slice. */
  lemma TrimmedSlice(s: string, l: string, r: string)
    requires |l| <= |s| && l == s[|s| - |l|..] && AllSpace(s[..|s| - |l|])
    requires |r| <= |l| && r == l[..|r|] && AllSpace(l[|r|..])
    ensures var p := |s| - |l|; r == s[p..p + |r|] && AllSpace(s[..p]) && AllSpace(s[p + |r|..])
  {
    var p := |s| - |l|;
    assert s[p + |r|..] == l[|r|..];
  }

  /** Trimming leaves nothing exactly when `s` is blank. */
  lemma TrimmedBlank(s: string, l: string, r: string)
    requires |l| <= |s| && l == s[|s| - |l|..] && AllSpace(s[..|s| - |l|]) && (l != [] ==> !IsSpace(l[0]))
    requires |r| <= |l| && r == l[..|r|] && AllSpace(l[|r|..])
    ensures r == [] <==> AllSpace(s)
  {
    if r == [] {
      assert l[|r|..] == l;
      BlankTrim(s, l);
    } else {
      assert r[0] == l[0];
      NonBlankTrim(s, l, r);
    }
  }

  /** A non-whitespace character left after trimming comes from `s`. */
  lemma NonBlankTrim(s: string, l: string, r: string)
    requires |l| <= |s| && l == s[|s| - |l|..]
    requires r != [] && |r| <= |l| && r == l[..|r|] && !IsSpace(r[0])
    ensures !AllSpace(s)
  {
    assert s[|s| - |l|] == r[0];
  }

  /** Whitespace in front of whitespace is all whitespace. */
  lemma BlankTrim(s: string, l: string)
    requires |l| <= |s| && l == s[|s| - |l|..] && AllSpace(s[..|s| - |l|]) && AllSpace(l)
    ensures AllSpace(s)
  {
    var p := |s| - |l|;
    assert s[..p] + l == s;
    AllSpaceAppend(s[..p], l);
  }

  lemma AllSpaceAppend(a: string, b: string)
    requires AllSpace(a) && AllSpace(b)
    ensures AllSpace(a + b)
  {
    forall i | 0 <= i < |a + b| ensures IsSpace((a + b)[i]) {
      if i < |a| {
        assert (a + b)[i] == a[i];
      } else {
        assert (a + b)[i] == b[i - |a|];
      }
    }
  }

  /** Length of the first line of `s`, its terminating newline included. */
  function FirstLineLength(s: string): (n: nat)
    ensures s == [] ==> n == 0
    ensures s != [] ==> 1 <= n <= |s|
    ensures forall i | 0 <= i < n - 1 :: s[i] != '\n'
    ensures 0 < n < |s| ==> s[n - 1] == '\n'
    decreases |s|
  {
    if s == [] then 0 else if s[0] == '\n' then 1 else 1 + FirstLineLength(s[1..])
  }

  /** `s.lines`: the lines of `s`, each keeping its newline; none is empty. */
  function Lines(s: string): (ls: seq<string>)
    ensures forall k | 0 <= k < |ls| :: ls[k] != []
    decreases |s|
  {
    if s == [] then [] else
      var n := FirstLineLength(s);
      [s[..n]] + Lines(s[n..])
  }

  /** `ls.join`: the pieces one after the other. */
  function Concat(ls: seq<string>): string
  {
    if ls == [] then [] else ls[0] + Concat(ls[1..])
  }

  /** Joining the lines of `s` gives back `s`. */
  lemma {:induction false} ConcatLines(s: string)
    ensures Concat(Lines(s)) == s
    decreases |s|
  {
    if s != [] {
      var n := FirstLineLength(s);
      ConcatLines(s[n..]);
      var ls := Lines(s);
      assert ls[0] == s[..n] && ls[1..] == Lines(s[n..]);
      assert s == s[..n] + s[n..];
    }
  }

  lemma {:induction false} ConcatAppend(a: seq<string>, b: seq<string>)
    ensures Concat(a + b) == Concat(a) + Concat(b)
  {
    if a != [] {
      ConcatAppend(a[1..], b);
      assert (a + b)[0] == a[0] && (a + b)[1..] == a[1..] + b;
      calc {
        Concat(a + b);
        a[0] + Concat(a[1..] + b);
        a[0] + (Concat(a[1..]) + Concat(b));
        (a[0] + Concat(a[1..])) + Concat(b);
      }
    } else {
      assert a + b == b;
    }
  }

  /** The join is blank exactly when every piece is blank. */
  lemma {:induction false} ConcatAllSpace(ls: seq<string>)
    ensures AllSpace(Concat(ls)) <==> forall k | 0 <= k < |ls| :: AllSpace(ls[k])
  {
    if ls != [] {
      ConcatAllSpace(ls[1..]);
      var c := Concat(ls);
      assert c == ls[0] + Concat(ls[1..]);
      if AllSpace(c) {
        forall k | 0 <= k < |ls| ensures AllSpace(ls[k]) {
          if k == 0 {
            forall i | 0 <= i < |ls[0]| ensures IsSpace(ls[0][i]) { assert c[i] == ls[0][i]; }
          } else {
            assert ls[k] == ls[1..][k - 1];
            forall i | 0 <= i < |Concat(ls[1..])| ensures IsSpace(Concat(ls[1..])[i]) {
              assert c[|ls[0]| + i] == Concat(ls[1..])[i];
            }
          }
        }
      }
      if forall k | 0 <= k < |ls| :: AllSpace(ls[k]) {
        assert AllSpace(ls[0]);
        forall k | 0 <= k < |ls[1..]| ensures AllSpace(ls[1..][k]) { assert ls[1..][k] == ls[k + 1]; }
        assert AllSpace(Concat(ls[1..]));
      }
    }
  }

  /** The part of `p` after its last '/' (`File.basename` for a path without a trailing '/'). */
  function BaseName(p: string): (b: string)
    ensures |b| <= |p| && b == p[|p| - |b|..]
    ensures '/' !in b
    ensures |b| < |p| ==> p[|p| - |b| - 1] == '/'
    decreases |p|
  {
    if p == [] || p[|p| - 1] == '/' then [] else BaseName(p[..|p| - 1]) + [p[|p| - 1]]
  }

  /** The base name is the only suffix without '/' that is the whole path or follows a '/'. */
  lemma BaseNameUnique(p: string, q: string)
    requires |q| <= |p| && q == p[|p| - |q|..] && '/' !in q
    requires |q| < |p| ==> p[|p| - |q| - 1] == '/'
    ensures q == BaseName(p)
  {
  }

  /** A '/' in the tail decides the base name alone; otherwise the tail is appended to it. */
  lemma BaseNameAppend(a: string, b: string)
    ensures BaseName(a + b) == if '/' in b then BaseName(b) else BaseName(a) + b
  {
    var p := a + b;
    if '/' in b {
      var q := BaseName(b);
      assert p[|p| - |q|..] == b[|b| - |q|..];
      assert p[|p| - |q| - 1] == b[|b| - |q| - 1];
      BaseNameUnique(p, q);
    } else {
      var ba := BaseName(a);
      var q := ba + b;
      assert p[|p| - |q|..] == a[|a| - |ba|..] + b;
      if |q| < |p| {
        assert p[|p| - |q| - 1] == a[|a| - |ba| - 1];
      }
      BaseNameUnique(p, q);
    }
  }

  /** Index of the last `c` in `s`, or -1 when there is none. */
  function LastIndexOf(s: string, c: char): (i: int)
    ensures -1 <= i < |s|
    ensures 0 <= i ==> s[i] == c
    ensures forall j | i < j < |s| :: s[j] != c
    decreases |s|
  {
    if s == [] then -1 else if s[|s| - 1] == c then |s| - 1 else LastIndexOf(s[..|s| - 1], c)
  }

  /** `File.basename(name, ".*")` applied to a base name: drops the text from the last '.',
      unless that '.' is the first character. */
  function StripExtension(name: string): (r: string)
    ensures r <= name
  {
    var i := LastIndexOf(name, '.');
    if i > 0 then name[..i] else name
  }

  /** The prefix of `s` before its first `c`. */
  function TakeUntil(s: string, c: char): (r: string)
    ensures r <= s && c !in r
    ensures |r| < |s| ==> s[|r|] == c
    decreases |s|
  {
    if s == [] || s[0] == c then [] else [s[0]] + TakeUntil(s[1..], c)
  }

  lemma {:induction false} TakeUntilAppend(a: string, b: string, c: char)
    ensures TakeUntil(a + b, c) == if c in a then TakeUntil(a, c) else a + TakeUntil(b, c)
  {
    if a != [] {
      assert (a + b)[0] == a[0] && (a + b)[1..] == a[1..] + b;
      TakeUntilAppend(a[1..], b, c);
      assert c in a <==> a[0] == c || c in a[1..];
    } else {
      assert a + b == b;
    }
  }

  /** `s.split(sep).first`: nil when `s` holds nothing but separators, else the first field. */
  function SplitFirst(s: string, sep: char): (r: Option<string>)
    ensures r.None? <==> forall i | 0 <= i < |s| :: s[i] == sep
    ensures r.Some? ==> r.value <= s && sep !in r.value && (|r.value| < |s| ==> s[|r.value|] == sep)
  {
    if forall i | 0 <= i < |s| :: s[i] == sep then None else Some(TakeUntil(s, sep))
  }
}
