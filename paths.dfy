/**
 * The path tokenizer and normaliser of router.go: `getPathParts` splits a
 * path into its non-empty `/`-separated segments, `normalizePath` supplies
 * a missing leading `/`.
 */
module Paths {

  predicate NoSlash(s: string) {
    forall i :: 0 <= i < |s| ==> s[i] != '/'
  }

  /** A segment as the tokenizer produces it: non-empty, without `/`. */
  predicate IsSegment(s: string) {
    s != "" && NoSlash(s)
  }

  predicate AllSegments(segs: seq<string>) {
    forall j :: 0 <= j < |segs| ==> IsSegment(segs[j])
  }

  /** The word collected so far, as a list of at most one segment. */
  function Flush(word: string): seq<string> {
    if word == "" then [] else [word]
  }

  /** Reference tokenization, read left to right: `word` is the run of
      non-`/` characters seen since the last `/`; each `/` ends it. */
  function Scan(s: string, word: string): seq<string> {
    if s == "" then Flush(word)
    else if s[0] == '/' then Flush(word) + Scan(s[1..], "")
    else Scan(s[1..], word + [s[0]])
  }

  /** The maximal runs of non-`/` characters of s, in order. */
  function Segments(s: string): seq<string> {
    Scan(s, "")
  }

  /** strings.Join(segs, "/") */
  function Join(segs: seq<string>): string {
    if segs == [] then ""
    else if |segs| == 1 then segs[0]
    else segs[0] + "/" + Join(segs[1..])
  }

  /** Every segment the tokenizer yields is non-empty and free of `/`. */
  lemma {:induction false} ScanAreSegments(s: string, word: string)
    requires NoSlash(word)
    ensures AllSegments(Scan(s, word))
  {
    if s != "" {
      if s[0] == '/' {
        ScanAreSegments(s[1..], "");
      } else {
        ScanAreSegments(s[1..], word + [s[0]]);
      }
    }
  }

  lemma SegmentsAreSegments(s: string)
    ensures AllSegments(Segments(s))
  {
    ScanAreSegments(s, "");
  }

  /** A slash-free stretch only lengthens the current word. */
  lemma {:induction false} ScanWord(a: string, s: string, word: string)
    requires NoSlash(a)
    ensures Scan(a + s, word) == Scan(s, word + a)
  {
    if a != "" {
      assert (a + s)[0] == a[0] && (a + s)[1..] == a[1..] + s;
      assert word + [a[0]] + a[1..] == word + a;
      ScanWord(a[1..], s, word + [a[0]]);
    } else {
      assert a + s == s && word + a == word;
    }
  }

  /** A leading slash (hence any run of them) produces no segment. */
  lemma LeadingSlash(s: string)
    ensures Segments("/" + s) == Segments(s)
  {
    assert ("/" + s)[1..] == s;
  }

  /** A trailing slash (hence any run of them) produces no segment. */
  lemma {:induction false} ScanTrailing(s: string, word: string)
    ensures Scan(s + "/", word) == Scan(s, word)
  {
    if s == "" {
      assert (s + "/")[1..] == "";
    } else {
      assert (s + "/")[0] == s[0] && (s + "/")[1..] == s[1..] + "/";
      if s[0] == '/' {
        ScanTrailing(s[1..], "");
      } else {
        ScanTrailing(s[1..], word + [s[0]]);
      }
    }
  }

  lemma TrailingSlash(s: string)
    ensures Segments(s + "/") == Segments(s)
  {
    ScanTrailing(s, "");
  }

  /** Doubling a separator changes nothing. */
  lemma {:induction false} ScanRepeated(a: string, b: string, word: string)
    ensures Scan(a + "//" + b, word) == Scan(a + "/" + b, word)
  {
    if a == "" {
      assert a + "//" + b == "/" + ("/" + b) && a + "/" + b == "/" + b;
      assert ("/" + ("/" + b))[1..] == "/" + b && ("/" + b)[1..] == b;
    } else {
      assert (a + "//" + b)[0] == a[0] && (a + "//" + b)[1..] == a[1..] + "//" + b;
      assert (a + "/" + b)[0] == a[0] && (a + "/" + b)[1..] == a[1..] + "/" + b;
      if a[0] == '/' {
        ScanRepeated(a[1..], b, "");
      } else {
        ScanRepeated(a[1..], b, word + [a[0]]);
      }
    }
  }

  lemma RepeatedSlash(a: string, b: string)
    ensures Segments(a + "//" + b) == Segments(a + "/" + b)
  {
    ScanRepeated(a, b, "");
  }

  /** Tokenizing a join of segments gives the segments back. */
  lemma {:induction false} SegmentsOfJoin(segs: seq<string>)
    requires AllSegments(segs)
    ensures Segments(Join(segs)) == segs
    ensures Segments("/" + Join(segs)) == segs
  {
    LeadingSlash(Join(segs));
    if segs == [] {
    } else if |segs| == 1 {
      ScanWord(segs[0], "", "");
      assert segs[0] + "" == segs[0] && "" + segs[0] == segs[0];
    } else {
      var a, rest := segs[0], Join(segs[1..]);
      assert a + "/" + rest == a + ("/" + rest);
      ScanWord(a, "/" + rest, "");
      assert "" + a == a;
      assert ("/" + rest)[1..] == rest;
      SegmentsOfJoin(segs[1..]);
    }
  }

  /** getPathParts (router.go): an index loop that appends each non-empty
      run between slashes. Equal to the reference tokenization. */
  method GetPathParts(path: string) returns (parts: seq<string>)
    ensures parts == Segments(path)
    ensures AllSegments(parts)
  {
    SegmentsAreSegments(path);
    parts := [];
    if path == "" || path == "/" {
      assert "/"[1..] == "";
      return;
    }
    var start := 0;
    if path[0] == '/' {
      start := 1;
    }
    assert path[0..] == path && path[start..start] == "";
    var i := start;
    while i < |path|
      invariant start <= i <= |path|
      invariant parts + Scan(path[i..], path[start..i]) == Segments(path)
    {
      assert path[i..][0] == path[i] && path[i..][1..] == path[i + 1..];
      if path[i] == '/' {
        assert Scan(path[i..], path[start..i]) == Flush(path[start..i]) + Scan(path[i + 1..], "");
        assert path[i + 1..i + 1] == "";
        if i > start {
          parts := parts + [path[start..i]];
        }
        start := i + 1;
      } else {
        assert path[start..i + 1] == path[start..i] + [path[i]];
      }
      i := i + 1;
    }
    assert path[i..] == "" && path[start..i] == path[start..];
    assert parts + Flush(path[start..]) == Segments(path);
    if start < |path| {
      parts := parts + [path[start..]];
    }
  }

  /** normalizePath (router.go): prefix a `/` unless the path has one. */
  function NormalizePath(path: string): (r: string)
    ensures r != "" && r[0] == '/'
    ensures r == if path != "" && path[0] == '/' then path else "/" + path
  {
    if path == "" then "/"
    else if path[0] != '/' then "/" + path
    else path
  }

  /** Normalising never strips anything: a trailing slash survives. */
  lemma NormalizeKeepsTrailingSlash(path: string)
    requires path != "" && path[|path| - 1] == '/'
    ensures var r := NormalizePath(path); r[|r| - 1] == '/' && |r| >= |path|
  {
  }

  lemma NormalizeIdempotent(path: string)
    ensures NormalizePath(NormalizePath(path)) == NormalizePath(path)
  {
  }

  /** Normalising does not change the segments a path tokenizes to. */
  lemma NormalizeKeepsSegments(path: string)
    ensures Segments(NormalizePath(path)) == Segments(path)
  {
    if path == "" || path[0] != '/' {
      LeadingSlash(path);
    }
  }
}
