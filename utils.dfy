/**
 * Path normalisation and `osf://` URL building and parsing (dvc_osf/utils.py).
 *
 * A path is normalised by stripping `/` from both ends and then replacing
 * `//` by `/` until no `//` is left. Its meaning is given independently by
 * `Segments` (the non-empty `/`-separated parts of a string) and `Join`
 * (the parts glued with single `/`): the normal form of `p` is
 * `Join(Segments(p))`.
 */
module Utils {
  import opened Wrappers

  // ---------------------------------------------------------------------------
  // Segments of a path and their canonical spelling
  // ---------------------------------------------------------------------------

  /** No character of `s` is a `/`. */
  predicate SlashFree(s: string) {
    forall i :: 0 <= i < |s| ==> s[i] != '/'
  }

  /** Every segment is non-empty and holds no `/`. */
  predicate ProperSegments(segs: seq<string>) {
    forall k :: 0 <= k < |segs| ==> segs[k] != [] && SlashFree(segs[k])
  }

  /** Python's `"//" in s`. */
  predicate ContainsDoubleSlash(s: string)
    decreases |s|
  {
    |s| >= 2 && ((s[0] == '/' && s[1] == '/') || ContainsDoubleSlash(s[1..]))
  }

  /** `s` neither starts nor ends with `/`. */
  predicate NoEdgeSlash(s: string) {
    s == [] || (s[0] != '/' && s[|s| - 1] != '/')
  }

  /** A path in normal form: no `/` at its ends and no `//` inside. */
  predicate Clean(s: string) {
    NoEdgeSlash(s) && !ContainsDoubleSlash(s)
  }

  /**
   * The non-empty `/`-separated segments of `s`, in order: the maximal runs
   * of non-`/` characters. Computed one character at a time: a non-`/`
   * character either starts a new segment or extends the one that follows.
   */
  function Segments(s: string): (r: seq<string>)
    ensures ProperSegments(r)
    ensures s != [] && s[0] != '/' ==> r != [] && r[0][0] == s[0]
    decreases |s|
  {
    if s == [] then []
    else
      var rest := Segments(s[1..]);
      if s[0] == '/' then rest
      else if |s| > 1 && s[1] != '/' then [[s[0]] + rest[0]] + rest[1..]
      else [[s[0]]] + rest
  }

  /** Python's `"/".join(segs)`. */
  function Join(segs: seq<string>): (r: string)
    decreases |segs|
  {
    if segs == [] then ""
    else if |segs| == 1 then segs[0]
    else segs[0] + "/" + Join(segs[1..])
  }

  /** The normal form of a path: its segments joined by single slashes. */
  function CanonicalPath(p: string): (r: string) {
    Join(Segments(p))
  }

  // ---------------------------------------------------------------------------
  // The string operations `normalize_path` is built from
  // ---------------------------------------------------------------------------

  /** Python's `s.lstrip("/")`: the suffix left after every leading `/` is removed. */
  function LStripSlashes(s: string): (r: string)
    ensures |r| <= |s| && r == s[|s| - |r|..]
    ensures r == [] || r[0] != '/'
    decreases |s|
  {
    if s != [] && s[0] == '/' then
      var t := LStripSlashes(s[1..]);
      assert s[1..][|s| - 1 - |t|..] == s[|s| - |t|..];
      t
    else s
  }

  /** `s.lstrip("/")` cuts away nothing but `/`. */
  lemma {:induction false} LStripCutsOnlySlashes(s: string)
    ensures forall k :: 0 <= k < |s| - |LStripSlashes(s)| ==> s[k] == '/'
    decreases |s|
  {
    if s != [] && s[0] == '/' {
      LStripCutsOnlySlashes(s[1..]);
      forall k | 1 <= k < |s| - |LStripSlashes(s)| ensures s[k] == '/' {
        assert s[k] == s[1..][k - 1];
      }
    }
  }

  /** Python's `s.rstrip("/")`: the prefix left after every trailing `/` is removed. */
  function RStripSlashes(s: string): (r: string)
    ensures |r| <= |s| && r == s[..|r|]
    ensures forall k :: |r| <= k < |s| ==> s[k] == '/'
    ensures r == [] || r[|r| - 1] != '/'
    decreases |s|
  {
    if s != [] && s[|s| - 1] == '/' then RStripSlashes(s[..|s| - 1]) else s
  }

  /** `r` is the slice `s[i..i + |r|]` and every character of `s` outside it is a `/`. */
  predicate SliceBetweenSlashes(s: string, i: int, r: string) {
    && 0 <= i <= |s| - |r|
    && r == s[i..i + |r|]
    && (forall k :: 0 <= k < i ==> s[k] == '/')
    && (forall k :: i + |r| <= k < |s| ==> s[k] == '/')
  }

  /** Python's `s.strip("/")`: a slice of `s` with only `/` cut away on either side. */
  function StripSlashes(s: string): (r: string)
    ensures NoEdgeSlash(r)
    ensures exists i :: SliceBetweenSlashes(s, i, r)
  {
    var l := LStripSlashes(s);
    LStripCutsOnlySlashes(s);
    var r := RStripSlashes(l);
    var i := |s| - |l|;
    assert r == s[i..i + |r|] by {
      assert l == s[i..] && r == l[..|r|];
      assert s[i..][..|r|] == s[i..i + |r|];
    }
    assert forall k :: i + |r| <= k < |s| ==> s[k] == '/' by {
      forall k | i + |r| <= k < |s| ensures s[k] == '/' {
        assert s[k] == l[k - i];
      }
    }
    assert SliceBetweenSlashes(s, i, r);
    r
  }

  /**
   * Python's `s.replace("//", "/")`: scanning left to right, each
   * non-overlapping `//` becomes `/`.
   */
  function ReplaceDoubleSlash(s: string): (r: string)
    ensures |r| <= |s|
    ensures ContainsDoubleSlash(s) ==> |r| < |s|
    ensures !ContainsDoubleSlash(s) ==> r == s
    ensures (r == []) == (s == [])
    ensures s != [] ==> r[0] == s[0] && r[|r| - 1] == s[|s| - 1]
    decreases |s|
  {
    if |s| < 2 then s
    else if s[0] == '/' && s[1] == '/' then "/" + ReplaceDoubleSlash(s[2..])
    else [s[0]] + ReplaceDoubleSlash(s[1..])
  }

  /**
   * `normalize_path`: strip the edge slashes, then replace `//` by `/` for
   * as long as the path contains `//`. The result is the canonical path,
   * has no edge slash and no `//`, and keeps the segments of the input.
   */
  method NormalizePath(path: string) returns (r: string)
    ensures r == CanonicalPath(path)
    ensures Clean(r)
    ensures Segments(r) == Segments(path)
  {
    r := StripSlashes(path);
    StripPreservesSegments(path);
    while ContainsDoubleSlash(r)
      invariant NoEdgeSlash(r)
      invariant Segments(r) == Segments(path)
      decreases |r|
    {
      ReplacePreservesSegments(r);
      r := ReplaceDoubleSlash(r);
    }
    CleanIsJoinOfSegments(r);
  }

  // ---------------------------------------------------------------------------
  // Lemmas about segments
  // ---------------------------------------------------------------------------

  /** Prepending the same character to two strings that agree on segments and on their first character. */
  lemma SegmentsCons(c: char, x: string, y: string)
    requires (x == []) == (y == [])
    requires x != [] ==> x[0] == y[0]
    requires Segments(x) == Segments(y)
    ensures Segments([c] + x) == Segments([c] + y)
  {
    assert ([c] + x)[1..] == x;
    assert ([c] + y)[1..] == y;
  }

  /** A slash-free non-empty prefix followed by a `/` (or by nothing) is one segment. */
  lemma {:induction false} SegmentsOfSlashFreePrefix(a: string, b: string)
    requires a != [] && SlashFree(a)
    requires b == [] || b[0] == '/'
    ensures Segments(a + b) == [a] + Segments(b)
    decreases |a|
  {
    assert (a + b)[1..] == a[1..] + b;
    if |a| == 1 {
      assert a == [a[0]];
    } else {
      SegmentsOfSlashFreePrefix(a[1..], b);
      assert a == [a[0]] + a[1..];
    }
  }

  /** Segments are recovered from their join. */
  lemma {:induction false} SegmentsOfJoin(segs: seq<string>)
    requires ProperSegments(segs)
    ensures Segments(Join(segs)) == segs
    decreases |segs|
  {
    if |segs| == 1 {
      SegmentsOfSlashFreePrefix(segs[0], "");
      assert segs[0] + "" == segs[0];
    } else if |segs| > 1 {
      var tail := Join(segs[1..]);
      SegmentsOfJoin(segs[1..]);
      assert Join(segs) == segs[0] + ("/" + tail);
      SegmentsOfSlashFreePrefix(segs[0], "/" + tail);
      assert ("/" + tail)[1..] == tail;
      assert segs == [segs[0]] + segs[1..];
    }
  }

  /** `//` in a concatenation: inside either part, or across the seam. */
  lemma {:induction false} DoubleSlashInConcat(a: string, b: string)
    ensures ContainsDoubleSlash(a + b) <==>
      ContainsDoubleSlash(a) || ContainsDoubleSlash(b)
      || (a != [] && b != [] && a[|a| - 1] == '/' && b[0] == '/')
    decreases |a|
  {
    if a == [] {
      assert a + b == b;
    } else {
      DoubleSlashInConcat(a[1..], b);
      assert (a + b)[1..] == a[1..] + b;
    }
  }

  /** A string without `/` contains no `//`. */
  lemma {:induction false} SlashFreeHasNoDoubleSlash(s: string)
    requires SlashFree(s)
    ensures !ContainsDoubleSlash(s)
    decreases |s|
  {
    if |s| >= 2 {
      SlashFreeHasNoDoubleSlash(s[1..]);
    }
  }

  /** Joining proper segments gives a clean path, empty exactly when there are no segments. */
  lemma {:induction false} JoinIsClean(segs: seq<string>)
    requires ProperSegments(segs)
    ensures Clean(Join(segs))
    ensures Join(segs) == [] <==> segs == []
    decreases |segs|
  {
    if |segs| == 1 {
      SlashFreeHasNoDoubleSlash(segs[0]);
    } else if |segs| > 1 {
      var x, t := segs[0], Join(segs[1..]);
      JoinIsClean(segs[1..]);
      SlashFreeHasNoDoubleSlash(x);
      DoubleSlashInConcat("/", t);
      DoubleSlashInConcat(x, "/" + t);
      assert Join(segs) == x + ("/" + t);
    }
  }

  /** Joining after prepending a character to the first segment. */
  lemma JoinConsChar(c: char, segs: seq<string>)
    requires segs != []
    ensures Join([[c] + segs[0]] + segs[1..]) == [c] + Join(segs)
  {
    var x := [[c] + segs[0]] + segs[1..];
    if |segs| > 1 {
      assert x[1..] == segs[1..];
    }
  }

  /** A clean path is the join of its own segments. */
  lemma {:induction false} CleanIsJoinOfSegments(t: string)
    requires Clean(t)
    ensures Join(Segments(t)) == t
    decreases |t|
  {
    if |t| == 1 {
    } else if |t| > 1 && t[1] != '/' {
      var u := t[1..];
      assert Clean(u);
      CleanIsJoinOfSegments(u);
      JoinConsChar(t[0], Segments(u));
      assert t == [t[0]] + u;
    } else if |t| > 1 {
      var w := t[2..];
      assert t[1..][1..] == w;
      assert |t| > 2;
      assert w[0] != '/' by {
        if w[0] == '/' {
          assert ContainsDoubleSlash(t[1..]);
        }
      }
      assert !ContainsDoubleSlash(w) by {
        assert !ContainsDoubleSlash(t[1..]);
      }
      CleanIsJoinOfSegments(w);
      var s := Segments(w);
      assert Segments(t) == [[t[0]]] + s;
      assert ([[t[0]]] + s)[1..] == s;
      assert t == [t[0]] + "/" + w;
    }
  }

  /** Removing a trailing `/` keeps the segments. */
  lemma {:induction false} DropTrailingSlashKeepsSegments(s: string)
    requires s != [] && s[|s| - 1] == '/'
    ensures Segments(s[..|s| - 1]) == Segments(s)
    decreases |s|
  {
    if |s| == 2 {
      assert s[..1] == [s[0]];
      assert s[1..] == "/";
      assert Segments("/") == [];
    } else if |s| > 2 {
      var s' := s[1..];
      DropTrailingSlashKeepsSegments(s');
      assert s[..|s| - 1] == [s[0]] + s'[..|s'| - 1];
      SegmentsCons(s[0], s'[..|s'| - 1], s');
      assert s == [s[0]] + s';
    }
  }

  /** Stripping the leading slashes keeps the segments. */
  lemma {:induction false} LStripKeepsSegments(s: string)
    ensures Segments(LStripSlashes(s)) == Segments(s)
    decreases |s|
  {
    if s != [] && s[0] == '/' {
      LStripKeepsSegments(s[1..]);
    }
  }

  /** Stripping the trailing slashes keeps the segments. */
  lemma {:induction false} RStripKeepsSegments(s: string)
    ensures Segments(RStripSlashes(s)) == Segments(s)
    decreases |s|
  {
    if s != [] && s[|s| - 1] == '/' {
      RStripKeepsSegments(s[..|s| - 1]);
      DropTrailingSlashKeepsSegments(s);
    }
  }

  /** Stripping the slashes from both ends keeps the segments. */
  lemma StripPreservesSegments(s: string)
    ensures Segments(StripSlashes(s)) == Segments(s)
  {
    LStripKeepsSegments(s);
    RStripKeepsSegments(LStripSlashes(s));
  }

  /** One pass of `replace("//", "/")` keeps the segments. */
  lemma {:induction false} ReplacePreservesSegments(s: string)
    ensures Segments(ReplaceDoubleSlash(s)) == Segments(s)
    decreases |s|
  {
    if |s| < 2 {
    } else if s[0] == '/' && s[1] == '/' {
      ReplacePreservesSegments(s[2..]);
      var t := ReplaceDoubleSlash(s[2..]);
      assert ("/" + t)[1..] == t;
      assert s[1..][1..] == s[2..];
    } else {
      ReplacePreservesSegments(s[1..]);
      SegmentsCons(s[0], ReplaceDoubleSlash(s[1..]), s[1..]);
      assert s == [s[0]] + s[1..];
    }
  }

  /** A string has no segments exactly when it is made of slashes only. */
  lemma {:induction false} NoSegmentsIffAllSlashes(s: string)
    ensures Segments(s) == [] <==> forall i :: 0 <= i < |s| ==> s[i] == '/'
    decreases |s|
  {
    if s != [] {
      NoSegmentsIffAllSlashes(s[1..]);
      if s[0] == '/' {
        assert forall i :: 1 <= i < |s| ==> s[i] == s[1..][i - 1];
      }
    }
  }

  // ---------------------------------------------------------------------------
  // Properties of the normal form (what `normalize_path` promises)
  // ---------------------------------------------------------------------------

  /** The normal form has no `/` at either end and no `//`. */
  lemma CanonicalPathIsClean(p: string)
    ensures Clean(CanonicalPath(p))
  {
    JoinIsClean(Segments(p));
  }

  /** The normal form keeps the non-empty segments of the input, unchanged and in order. */
  lemma CanonicalPathKeepsSegments(p: string)
    ensures Segments(CanonicalPath(p)) == Segments(p)
  {
    SegmentsOfJoin(Segments(p));
  }

  /** Normalising twice is normalising once. */
  lemma CanonicalPathIdempotent(p: string)
    ensures CanonicalPath(CanonicalPath(p)) == CanonicalPath(p)
  {
    SegmentsOfJoin(Segments(p));
  }

  /** The fixed points of normalisation are exactly the clean paths. */
  lemma CanonicalPathFixedPoints(t: string)
    ensures CanonicalPath(t) == t <==> Clean(t)
  {
    if Clean(t) {
      CleanIsJoinOfSegments(t);
    } else {
      JoinIsClean(Segments(t));
    }
  }

  /** The empty path and every all-slash path normalise to "", and nothing else does. */
  lemma CanonicalPathEmpty(p: string)
    ensures CanonicalPath(p) == "" <==> forall i :: 0 <= i < |p| ==> p[i] == '/'
  {
    JoinIsClean(Segments(p));
    NoSegmentsIffAllSlashes(p);
  }

  // ---------------------------------------------------------------------------
  // The part of `urllib.parse.urlparse` that `parse_osf_url` relies on
  // ---------------------------------------------------------------------------

  /** The error `parse_osf_url` raises. */
  datatype ValueError = ValueError(message: string)

  /** The five components `urlparse` splits a URL into (params stay in the path for `osf`). */
  datatype SplitResult = SplitResult(scheme: string, netloc: string, path: string, query: string, fragment: string)

  /** The index of the first character of `s` that is in `cs`, or `|s|` when there is none (Python's `find`). */
  function IndexOfAny(s: string, cs: set<char>): (i: nat)
    ensures i <= |s|
    ensures forall k :: 0 <= k < i ==> s[k] !in cs
    ensures i < |s| ==> s[i] in cs
    decreases |s|
  {
    if s == [] || s[0] in cs then 0 else 1 + IndexOfAny(s[1..], cs)
  }

  /** No character of `s` is in `cs`. */
  predicate Avoids(s: string, cs: set<char>) {
    forall i :: 0 <= i < |s| ==> s[i] !in cs
  }

  /** The C0 control characters and the space, which `urlsplit` strips from the front of a URL. */
  predicate IsC0ControlOrSpace(c: char) {
    c <= ' '
  }

  /** The characters `urlsplit` deletes wherever they occur. */
  const UnsafeUrlChars: set<char> := {'\t', '\r', '\n'}

  /** `url.lstrip(_WHATWG_C0_CONTROL_OR_SPACE)`. */
  function LStripC0ControlOrSpace(s: string): (r: string)
    ensures |r| <= |s| && r == s[|s| - |r|..]
    ensures r == [] || !IsC0ControlOrSpace(r[0])
    ensures s != [] && !IsC0ControlOrSpace(s[0]) ==> r == s
    decreases |s|
  {
    if s != [] && IsC0ControlOrSpace(s[0]) then LStripC0ControlOrSpace(s[1..]) else s
  }

  /** Deleting every occurrence of the characters in `cs` (repeated `str.replace(c, "")`). */
  function RemoveChars(s: string, cs: set<char>): (r: string)
    ensures Avoids(r, cs)
    ensures Avoids(s, cs) ==> r == s
    decreases |s|
  {
    if s == [] then []
    else if s[0] in cs then RemoveChars(s[1..], cs)
    else [s[0]] + RemoveChars(s[1..], cs)
  }

  predicate IsAsciiLetter(c: char) {
    ('a' <= c <= 'z') || ('A' <= c <= 'Z')
  }

  /** `urllib.parse.scheme_chars`. */
  predicate IsSchemeChar(c: char) {
    IsAsciiLetter(c) || ('0' <= c <= '9') || c == '+' || c == '-' || c == '.'
  }

  /** `str.lower()` on ASCII text (a scheme is ASCII by construction). */
  function AsciiLower(s: string): (r: string)
    ensures |r| == |s|
    ensures forall i :: 0 <= i < |s| ==> r[i] == (if 'A' <= s[i] <= 'Z' then (s[i] as int + 32) as char else s[i])
    decreases |s|
  {
    if s == [] then []
    else [if 'A' <= s[0] <= 'Z' then (s[0] as int + 32) as char else s[0]] + AsciiLower(s[1..])
  }

  /**
   * The scheme split of `urlsplit`: text before the first `:` is the scheme
   * (lower-cased) when it is non-empty, starts with a letter and holds only
   * scheme characters; otherwise the scheme is empty and nothing is consumed.
   */
  function SplitScheme(url: string): (r: (string, string))
  {
    var i := IndexOfAny(url, {':'});
    if 0 < i < |url| && IsAsciiLetter(url[0]) && (forall k :: 0 <= k < i ==> IsSchemeChar(url[k]))
    then (AsciiLower(url[..i]), url[i + 1..])
    else ("", url)
  }

  /** Exactly one of `[` and `]` occurs in a network location. */
  predicate UnbalancedBrackets(netloc: string) {
    ('[' in netloc) != (']' in netloc)
  }

  /** The fragment (after the first `#`) and then the query (after the first `?`) are cut off the path. */
  function SplitQueryAndFragment(scheme: string, netloc: string, rest: string): (r: SplitResult)
    ensures r.scheme == scheme && r.netloc == netloc
    ensures Avoids(r.path, {'?', '#'})
    ensures Avoids(rest, {'?', '#'}) ==> r.path == rest && r.query == "" && r.fragment == ""
  {
    var h := IndexOfAny(rest, {'#'});
    var beforeHash := rest[..h];
    var fragment := if h < |rest| then rest[h + 1..] else "";
    var q := IndexOfAny(beforeHash, {'?'});
    var query := if q < |beforeHash| then beforeHash[q + 1..] else "";
    SplitResult(scheme, netloc, beforeHash[..q], query, fragment)
  }

  /**
   * `urllib.parse.urlparse(url)` for a URL whose scheme takes no `;params`.
   * After the scheme, a `//` introduces a network location that runs up to
   * the first `/`, `?` or `#`; a network location with an unbalanced
   * bracket raises `ValueError`.
   */
  function UrlParse(url: string): (r: Result<SplitResult, ValueError>)
    ensures r.Ok? ==> Avoids(r.value.netloc, {'/', '?', '#'}) && !UnbalancedBrackets(r.value.netloc)
    ensures r.Ok? ==> Avoids(r.value.path, {'?', '#'})
    ensures r.Err? ==> r.error == ValueError("Invalid IPv6 URL")
  {
    var (scheme, rest) := SplitScheme(Sanitize(url));
    if |rest| >= 2 && rest[..2] == "//" then
      var (netloc, remainder) := SplitNetloc(rest);
      if UnbalancedBrackets(netloc) then Err(ValueError("Invalid IPv6 URL"))
      else Ok(SplitQueryAndFragment(scheme, netloc, remainder))
    else Ok(SplitQueryAndFragment(scheme, "", rest))
  }

  /** The clean-up `urlsplit` does first: leading C0 controls and spaces go, then tabs, CRs and LFs anywhere. */
  function Sanitize(url: string): (r: string)
    ensures Avoids(r, UnsafeUrlChars)
  {
    RemoveChars(LStripC0ControlOrSpace(url), UnsafeUrlChars)
  }

  /** `_splitnetloc(rest, 2)`: the network location runs from after `//` to the first `/`, `?` or `#`. */
  function SplitNetloc(rest: string): (r: (string, string))
    requires |rest| >= 2
    ensures Avoids(r.0, {'/', '?', '#'})
    ensures rest == rest[..2] + r.0 + r.1
    ensures r.1 == [] || r.1[0] in {'/', '?', '#'}
  {
    var after := rest[2..];
    var d := IndexOfAny(after, {'/', '?', '#'});
    PrefixBeforeIndexAvoids(after, {'/', '?', '#'});
    assert rest == rest[..2] + after[..d] + after[d..];
    (after[..d], after[d..])
  }

  /** The text before the first character in `cs` avoids `cs`. */
  lemma PrefixBeforeIndexAvoids(s: string, cs: set<char>)
    ensures Avoids(s[..IndexOfAny(s, cs)], cs)
  {
    var i := IndexOfAny(s, cs);
    forall k | 0 <= k < i ensures s[..i][k] !in cs {
      assert s[..i][k] == s[k];
    }
  }

  // ---------------------------------------------------------------------------
  // parse_osf_url and build_osf_url
  // ---------------------------------------------------------------------------

  const OsfScheme: string := "osf"

  /** What `parse_osf_url` returns: the dictionary with keys `project_id` and `path`. */
  datatype OsfLocation = OsfLocation(projectId: string, path: string)

  /**
   * `parse_osf_url`: a URL whose scheme is not `osf` raises `ValueError`
   * naming the scheme; otherwise the network location, unvalidated and
   * possibly empty, is the project id and the path loses its leading `/`s.
   */
  function ParseOsfUrl(url: string): (r: Result<OsfLocation, ValueError>)
    ensures UrlParse(url).Ok? && UrlParse(url).value.scheme != OsfScheme ==>
      r == Err(ValueError("Invalid OSF URL scheme: " + UrlParse(url).value.scheme))
    ensures r.Ok? <==> UrlParse(url).Ok? && UrlParse(url).value.scheme == OsfScheme
    ensures r.Ok? ==> r.value.projectId == UrlParse(url).value.netloc
    ensures r.Ok? ==> Avoids(r.value.projectId, {'/', '?', '#'})
    ensures r.Ok? ==> Avoids(r.value.path, {'?', '#'}) && (r.value.path == [] || r.value.path[0] != '/')
    ensures r.Ok? ==> LeadingSlashesCut(UrlParse(url).value.path, r.value.path)
    ensures UrlParse(url).Err? ==> r == Err(UrlParse(url).error)
  {
    var parsed := UrlParse(url);
    if parsed.Err? then Err(parsed.error)
    else if parsed.value.scheme != OsfScheme then Err(ValueError("Invalid OSF URL scheme: " + parsed.value.scheme))
    else
      var path := LStripSlashes(parsed.value.path);
      StrippedPath(parsed.value.path, path);
      Ok(OsfLocation(parsed.value.netloc, path))
  }

  /** `t` is `p` with some leading characters cut, each of them a `/`. */
  predicate LeadingSlashesCut(p: string, t: string) {
    && |t| <= |p| && t == p[|p| - |t|..]
    && forall k :: 0 <= k < |p| - |t| ==> p[k] == '/'
  }

  /** What `lstrip("/")` leaves of a parsed path. */
  lemma StrippedPath(p: string, t: string)
    requires Avoids(p, {'?', '#'})
    requires t == LStripSlashes(p)
    ensures Avoids(t, {'?', '#'}) && (t == [] || t[0] != '/')
    ensures LeadingSlashesCut(p, t)
  {
    LStripCutsOnlySlashes(p);
    SuffixAvoids(p, t, {'?', '#'});
  }

  /** A suffix of a string that avoids some characters avoids them too. */
  lemma SuffixAvoids(s: string, t: string, cs: set<char>)
    requires Avoids(s, cs)
    requires |t| <= |s| && t == s[|s| - |t|..]
    ensures Avoids(t, cs)
  {
    forall i | 0 <= i < |t| ensures t[i] !in cs {
      assert t[i] == s[|s| - |t| + i];
    }
  }

  /**
   * `build_osf_url`: `osf://<project>`, followed, when the normalised path is
   * not empty, by `/` and that path. What follows the project id carries
   * exactly the segments of `path`, in normal form.
   */
  function BuildOsfUrl(projectId: string, path: string := ""): (url: string)
    ensures |url| >= 6 + |projectId| && url[..6 + |projectId|] == "osf://" + projectId
    ensures var rest := url[6 + |projectId|..];
      && (rest == [] <==> Segments(path) == [])
      && (rest != [] ==> rest[0] == '/' && Clean(rest[1..]) && Segments(rest) == Segments(path))
  {
    var p := CanonicalPath(path);
    JoinIsClean(Segments(path));
    CanonicalPathKeepsSegments(path);
    var prefix := "osf://" + projectId;
    if p != [] then
      assert ("/" + p)[1..] == p;
      assert (prefix + "/" + p)[|prefix|..] == "/" + p;
      prefix + "/" + p
    else
      prefix
  }

  // ---------------------------------------------------------------------------
  // Build, then parse
  // ---------------------------------------------------------------------------

  /** A concatenation avoids the characters both parts avoid. */
  lemma AvoidsConcat(a: string, b: string, cs: set<char>)
    requires Avoids(a, cs) && Avoids(b, cs)
    ensures Avoids(a + b, cs)
  {
    forall i | 0 <= i < |a + b| ensures (a + b)[i] !in cs {
      if i >= |a| {
        assert (a + b)[i] == b[i - |a|];
      }
    }
  }

  /** The segments of `s` are made of characters of `s`. */
  lemma {:induction false} SegmentsAvoid(s: string, cs: set<char>)
    requires Avoids(s, cs)
    ensures forall k :: 0 <= k < |Segments(s)| ==> Avoids(Segments(s)[k], cs)
    decreases |s|
  {
    if s != [] {
      assert Avoids(s[1..], cs) by {
        forall i | 0 <= i < |s[1..]| ensures s[1..][i] !in cs {
          assert s[1..][i] == s[i + 1];
        }
      }
      SegmentsAvoid(s[1..], cs);
      var rest := Segments(s[1..]);
      if s[0] != '/' && |s| > 1 && s[1] != '/' {
        AvoidsConcat([s[0]], rest[0], cs);
      }
    }
  }

  /** Joining with `/` adds only `/` characters. */
  lemma {:induction false} JoinAvoids(segs: seq<string>, cs: set<char>)
    requires '/' !in cs
    requires forall k :: 0 <= k < |segs| ==> Avoids(segs[k], cs)
    ensures Avoids(Join(segs), cs)
    decreases |segs|
  {
    if |segs| > 1 {
      JoinAvoids(segs[1..], cs);
      AvoidsConcat("/", Join(segs[1..]), cs);
      AvoidsConcat(segs[0], "/" + Join(segs[1..]), cs);
      assert Join(segs) == segs[0] + ("/" + Join(segs[1..]));
    }
  }

  /** Normalising a path introduces no character except `/`. */
  lemma CanonicalPathAvoids(p: string, cs: set<char>)
    requires '/' !in cs
    requires Avoids(p, cs)
    ensures Avoids(CanonicalPath(p), cs)
  {
    SegmentsAvoid(p, cs);
    JoinAvoids(Segments(p), cs);
  }

  /** Characters a project id must avoid to survive a round trip through a URL. */
  const ProjectIdExcluded: set<char> := {'/', '?', '#', '[', ']', '\t', '\r', '\n'}

  /** Characters a path must avoid to survive a round trip through a URL. */
  const PathExcluded: set<char> := {'?', '#', '\t', '\r', '\n'}

  /**
   * Every character is ASCII. `urlsplit` checks a non-ASCII network location
   * against its NFKC normal form, which is outside this model; an ASCII one
   * skips that check.
   */
  predicate IsAscii(s: string) {
    forall i :: 0 <= i < |s| ==> s[i] as int < 128
  }

  /** A URL that starts with `osf:` and contains none of the characters `urlsplit` deletes has scheme `osf`. */
  lemma SplitOsfScheme(rest: string)
    requires Avoids("osf:" + rest, UnsafeUrlChars)
    ensures Sanitize("osf:" + rest) == "osf:" + rest
    ensures SplitScheme("osf:" + rest) == ("osf", rest)
  {
    var url := "osf:" + rest;
    assert LStripC0ControlOrSpace(url) == url;
    assert url == "osf" + (":" + rest);
    IndexOfAnyAfterAvoiding("osf", ":" + rest, {':'});
    assert url[..3] == "osf";
    assert AsciiLower("osf") == "osf";
    assert url[4..] == rest;
  }

  /** The first delimiter in `a + b` is the first character of `b` when `a` has none. */
  lemma {:induction false} IndexOfAnyAfterAvoiding(a: string, b: string, cs: set<char>)
    requires Avoids(a, cs)
    requires b == [] || b[0] in cs
    ensures IndexOfAny(a + b, cs) == |a|
    decreases |a|
  {
    if a == [] {
      assert a + b == b;
    } else {
      assert (a + b)[1..] == a[1..] + b;
      IndexOfAnyAfterAvoiding(a[1..], b, cs);
    }
  }

  /** After `//`, a project id free of `/ ? #` and brackets, followed by `""` or a `/`, is the network location. */
  lemma SplitOsfNetloc(projectId: string, tail: string)
    requires Avoids(projectId, ProjectIdExcluded)
    requires tail == [] || tail[0] == '/'
    ensures SplitNetloc("//" + projectId + tail) == (projectId, tail)
    ensures !UnbalancedBrackets(projectId)
  {
    var rest := "//" + projectId + tail;
    assert rest[2..] == projectId + tail;
    assert Avoids(projectId, {'/', '?', '#'});
    IndexOfAnyAfterAvoiding(projectId, tail, {'/', '?', '#'});
    assert (projectId + tail)[..|projectId|] == projectId;
    assert (projectId + tail)[|projectId|..] == tail;
    assert '[' !in projectId && ']' !in projectId;
  }

  /** `urlparse` of `osf://<project><tail>` for an ASCII project id and a tail on the restricted domain. */
  lemma ParseBuiltUrl(projectId: string, tail: string)
    requires IsAscii(projectId)
    requires Avoids(projectId, ProjectIdExcluded)
    requires Avoids(tail, PathExcluded)
    requires tail == [] || tail[0] == '/'
    ensures UrlParse("osf://" + projectId + tail) == Ok(SplitResult("osf", projectId, tail, "", ""))
  {
    var rest := BuiltUrlParts(projectId, tail);
    assert Avoids(tail, {'?', '#'});
    UrlParseWithNetloc("osf://" + projectId + tail, "osf", rest, projectId, tail);
  }

  /** The scheme and network-location splits of `osf://<project><tail>`. */
  lemma BuiltUrlParts(projectId: string, tail: string) returns (rest: string)
    requires IsAscii(projectId)
    requires Avoids(projectId, ProjectIdExcluded)
    requires Avoids(tail, PathExcluded)
    requires tail == [] || tail[0] == '/'
    ensures SplitScheme(Sanitize("osf://" + projectId + tail)) == ("osf", rest)
    ensures |rest| >= 2 && rest[..2] == "//"
    ensures SplitNetloc(rest) == (projectId, tail)
    ensures !UnbalancedBrackets(projectId)
  {
    rest := "//" + projectId + tail;
    assert "osf://" + projectId + tail == "osf:" + rest;
    BuiltUrlIsSafe(projectId, tail);
    SplitOsfScheme(rest);
    SplitOsfNetloc(projectId, tail);
    assert rest[..2] == "//";
  }

  /** One unfolding of `UrlParse` for a URL with a network location. */
  lemma UrlParseWithNetloc(url: string, scheme: string, rest: string, netloc: string, remainder: string)
    requires SplitScheme(Sanitize(url)) == (scheme, rest)
    requires |rest| >= 2 && rest[..2] == "//"
    requires SplitNetloc(rest) == (netloc, remainder)
    requires !UnbalancedBrackets(netloc)
    ensures UrlParse(url) == Ok(SplitQueryAndFragment(scheme, netloc, remainder))
  {
  }

  /** A URL built from a safe project id and tail holds no tab, CR or LF. */
  lemma BuiltUrlIsSafe(projectId: string, tail: string)
    requires Avoids(projectId, ProjectIdExcluded)
    requires Avoids(tail, PathExcluded)
    ensures Avoids("osf:" + ("//" + projectId + tail), UnsafeUrlChars)
  {
    assert Avoids(projectId, UnsafeUrlChars);
    assert Avoids(tail, UnsafeUrlChars);
    AvoidsConcat(projectId, tail, UnsafeUrlChars);
    AvoidsConcat("osf://", projectId + tail, UnsafeUrlChars);
    assert "osf:" + ("//" + projectId + tail) == "osf://" + (projectId + tail);
  }

  /**
   * Parsing a built URL gives back the project id and the normalised path,
   * for an ASCII project id without `/ ? # [ ]` and a path without `? #`
   * (neither holding a tab, CR or LF, which `urlsplit` deletes).
   */
  lemma BuildThenParse(projectId: string, path: string)
    requires IsAscii(projectId)
    requires Avoids(projectId, ProjectIdExcluded)
    requires Avoids(path, PathExcluded)
    ensures ParseOsfUrl(BuildOsfUrl(projectId, path)) == Ok(OsfLocation(projectId, CanonicalPath(path)))
  {
    var p := CanonicalPath(path);
    CanonicalPathAvoids(path, PathExcluded);
    CanonicalPathIsClean(path);
    var tail := if p != [] then "/" + p else "";
    assert Avoids(tail, PathExcluded) by {
      if p != [] { AvoidsConcat("/", p, PathExcluded); }
    }
    assert BuildOsfUrl(projectId, path) == "osf://" + projectId + tail;
    ParseBuiltUrl(projectId, tail);
    if p != [] {
      assert ("/" + p)[1..] == p;
    }
  }
}
