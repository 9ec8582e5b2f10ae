/**
 * group.go: the prefix arithmetic of route groups. A group only computes
 * strings; registration itself is forwarded to the App (see the Group
 * class in zinc.dfy).
 */
module Groups {
  import opened Paths

  function TrimLeft(s: string): string {
    if s != "" && s[0] == '/' then TrimLeft(s[1..]) else s
  }

  function TrimRight(s: string): string {
    if s != "" && s[|s| - 1] == '/' then TrimRight(s[..|s| - 1]) else s
  }

  /** strings.Trim(s, "/"): every leading and trailing `/` removed. */
  function Trim(s: string): string {
    TrimRight(TrimLeft(s))
  }

  /** App.Group: the prefix of a top-level group. */
  function AppGroupPrefix(prefix: string): string {
    Trim(prefix)
  }

  /** Group.Group: the prefix of a nested group. */
  function SubgroupPrefix(parent: string, prefix: string): string {
    parent + "/" + Trim(prefix)
  }

  /** The path each Group verb registers. */
  function VerbPath(prefix: string, path: string): string {
    "/" + prefix + "/" + Trim(path)
  }

  lemma {:induction false} TrimLeftSlice(s: string)
    ensures var r := TrimLeft(s);
      && (r == "" || r[0] != '/')
      && (exists i :: 0 <= i <= |s| && r == s[i..] && (forall k :: 0 <= k < i ==> s[k] == '/'))
  {
    if s != "" && s[0] == '/' {
      TrimLeftSlice(s[1..]);
      var i :| 0 <= i <= |s[1..]| && TrimLeft(s[1..]) == s[1..][i..]
               && (forall k :: 0 <= k < i ==> s[1..][k] == '/');
      assert s[1..][i..] == s[i + 1..];
      assert forall k :: 0 <= k < i + 1 ==> s[k] == '/' by {
        forall k | 0 <= k < i + 1
          ensures s[k] == '/'
        {
          if k > 0 {
            assert s[k] == s[1..][k - 1];
          }
        }
      }
    } else {
      assert s[0..] == s;
    }
  }

  lemma {:induction false} TrimRightSlice(s: string)
    ensures var r := TrimRight(s);
      && (r == "" || r[|r| - 1] != '/')
      && (exists j :: 0 <= j <= |s| && r == s[..j] && (forall k :: j <= k < |s| ==> s[k] == '/'))
  {
    if s != "" && s[|s| - 1] == '/' {
      var t := s[..|s| - 1];
      TrimRightSlice(t);
      var j :| 0 <= j <= |t| && TrimRight(t) == t[..j] && (forall k :: j <= k < |t| ==> t[k] == '/');
      assert t[..j] == s[..j];
      assert forall k :: j <= k < |s| ==> s[k] == '/' by {
        forall k | j <= k < |s|
          ensures s[k] == '/'
        {
          if k < |t| {
            assert s[k] == t[k];
          }
        }
      }
    } else {
      assert s[..|s|] == s;
    }
  }

  /** The slices Trim keeps: s[i..j] with only slashes outside. */
  predicate TrimmedSlice(s: string, r: string, i: nat, j: nat) {
    i <= j <= |s| && r == s[i..j]
    && (forall k :: 0 <= k < i ==> s[k] == '/')
    && (forall k :: j <= k < |s| ==> s[k] == '/')
  }

  /** Trim keeps a contiguous stretch of s, removing only slashes around
      it, and what it keeps neither starts nor ends with `/`. */
  lemma TrimSpec(s: string)
    ensures exists i: nat, j: nat :: TrimmedSlice(s, Trim(s), i, j)
    ensures Trim(s) == "" || (Trim(s)[0] != '/' && Trim(s)[|Trim(s)| - 1] != '/')
  {
    var l := TrimLeft(s);
    TrimLeftSlice(s);
    var i :| 0 <= i <= |s| && l == s[i..] && (forall k :: 0 <= k < i ==> s[k] == '/');
    var j := TrimRightCut(l);
    SliceCompose(s, l, i, j);
    assert TrimmedSlice(s, Trim(s), i, i + j);
  }

  /** The cut TrimRight makes in l, and Trim(s) == "" or keeps its ends. */
  lemma TrimRightCut(l: string) returns (j: nat)
    requires l == "" || l[0] != '/'
    ensures j <= |l| && TrimRight(l) == l[..j]
    ensures forall k :: j <= k < |l| ==> l[k] == '/'
    ensures TrimRight(l) == "" || (TrimRight(l)[0] != '/' && TrimRight(l)[|TrimRight(l)| - 1] != '/')
  {
    TrimRightSlice(l);
    j :| 0 <= j <= |l| && TrimRight(l) == l[..j] && (forall k :: j <= k < |l| ==> l[k] == '/');
    if j > 0 {
      assert TrimRight(l)[0] == l[0];
    }
  }

  /** Trimming on the left and then on the right keeps one slice. */
  lemma SliceCompose(s: string, l: string, i: nat, j: nat)
    requires i <= |s| && l == s[i..] && j <= |l|
    requires forall k :: 0 <= k < i ==> s[k] == '/'
    requires forall k :: j <= k < |l| ==> l[k] == '/'
    ensures TrimmedSlice(s, l[..j], i, i + j)
  {
    assert l[..j] == s[i..i + j];
    forall k | i + j <= k < |s|
      ensures s[k] == '/'
    {
      assert s[k] == l[k - i];
    }
  }

  /** A string of slashes only trims to "". */
  lemma {:induction false} TrimSlashes(s: string)
    requires forall k :: 0 <= k < |s| ==> s[k] == '/'
    ensures Trim(s) == ""
  {
    TrimAllSlashes(s);
  }

  lemma {:induction false} TrimAllSlashes(s: string)
    requires forall k :: 0 <= k < |s| ==> s[k] == '/'
    ensures TrimLeft(s) == ""
  {
    if s != "" {
      assert forall k :: 0 <= k < |s[1..]| ==> s[1..][k] == s[k + 1];
      TrimAllSlashes(s[1..]);
    }
  }

  /** Trimming does not change the segments. */
  lemma {:induction false} TrimKeepsSegments(s: string)
    ensures Segments(Trim(s)) == Segments(s)
  {
    TrimLeftKeepsSegments(s);
    TrimRightKeepsSegments(TrimLeft(s));
  }

  lemma {:induction false} TrimLeftKeepsSegments(s: string)
    ensures Segments(TrimLeft(s)) == Segments(s)
  {
    if s != "" && s[0] == '/' {
      TrimLeftKeepsSegments(s[1..]);
      LeadingSlash(s[1..]);
      assert "/" + s[1..] == s;
    }
  }

  lemma {:induction false} TrimRightKeepsSegments(s: string)
    ensures Segments(TrimRight(s)) == Segments(s)
  {
    if s != "" && s[|s| - 1] == '/' {
      TrimRightKeepsSegments(s[..|s| - 1]);
      TrailingSlash(s[..|s| - 1]);
      assert s[..|s| - 1] + "/" == s;
    }
  }

  /** A `/` between two strings separates their segments. */
  lemma {:induction false} ScanAround(a: string, b: string, word: string)
    ensures Scan(a + "/" + b, word) == Scan(a, word) + Scan(b, "")
  {
    if a == "" {
      assert a + "/" + b == "/" + b && ("/" + b)[1..] == b;
    } else {
      assert (a + "/" + b)[0] == a[0] && (a + "/" + b)[1..] == a[1..] + "/" + b;
      if a[0] == '/' {
        ScanAround(a[1..], b, "");
      } else {
        ScanAround(a[1..], b, word + [a[0]]);
      }
    }
  }

  lemma SegmentsAround(a: string, b: string)
    ensures Segments(a + "/" + b) == Segments(a) + Segments(b)
  {
    ScanAround(a, b, "");
  }

  /** A group route begins with `/`, so registration stores it unchanged. */
  lemma VerbPathIsNormal(prefix: string, path: string)
    ensures VerbPath(prefix, path)[0] == '/'
    ensures NormalizePath(VerbPath(prefix, path)) == VerbPath(prefix, path)
  {
  }

  /** Registering `/` (or any run of slashes) on a group gives the prefix
      with a trailing slash. */
  lemma VerbPathOfRoot(prefix: string, path: string)
    requires forall k :: 0 <= k < |path| ==> path[k] == '/'
    ensures VerbPath(prefix, path) == "/" + prefix + "/"
  {
    TrimSlashes(path);
  }

  /** A group route tokenizes to the prefix's segments, then the path's. */
  lemma VerbPathSegments(prefix: string, path: string)
    ensures Segments(VerbPath(prefix, path)) == Segments(prefix) + Segments(path)
  {
    SegmentsAround("/" + prefix, Trim(path));
    LeadingSlash(prefix);
    TrimKeepsSegments(path);
  }

  /** Nesting concatenates: a subgroup's prefix tokenizes to the parent's
      segments followed by the new prefix's. */
  lemma SubgroupSegments(parent: string, prefix: string)
    ensures Segments(SubgroupPrefix(parent, prefix)) == Segments(parent) + Segments(prefix)
  {
    SegmentsAround(parent, Trim(prefix));
    TrimKeepsSegments(prefix);
  }

  /** Trim of a slash followed by a word without slashes. */
  lemma TrimOneSlash(w: string)
    requires w != "" && NoSlash(w)
    ensures Trim("/" + w) == w
  {
    assert ("/" + w)[1..] == w;
    assert TrimLeft(w) == w;
    assert w[|w| - 1] != '/';
  }

  /** Nested groups as the demo application builds them (`/api`, then
      `/v1`, then `/external-api`, with `/` registered on the innermost):
      for slash-free names the registered path is the names joined by `/`,
      with a leading and a trailing slash. */
  lemma NestedGroupPath(a: string, b: string, c: string)
    requires IsSegment(a) && IsSegment(b) && IsSegment(c)
    ensures VerbPath(SubgroupPrefix(SubgroupPrefix(AppGroupPrefix("/" + a), "/" + b), "/" + c), "/")
            == "/" + a + "/" + b + "/" + c + "/"
  {
    TrimOneSlash(a);
    TrimOneSlash(b);
    TrimOneSlash(c);
    TrimSlashes("/");
  }
}
