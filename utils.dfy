/** `joinPath`: route paths built from segments, skipping empty ones. */
module Utils {
  import Strings
  import Lists

  /** `segments.filter(Boolean)`: the non-empty segments, in their order. */
  function PresentSegments(segments: seq<string>): (r: seq<string>)
    ensures forall s :: s in r <==> s in segments && s != ""
    ensures multiset(r) == multiset(segments)["" := 0]
  {
    Lists.RemoveAll(segments, "")
  }

  /** Filtering keeps the order: the segments of two lists come out as the
    * first list's, then the second's. */
  lemma {:induction false} PresentSegmentsAppend(a: seq<string>, b: seq<string>)
    ensures PresentSegments(a + b) == PresentSegments(a) + PresentSegments(b)
  {
    if a != [] {
      var head := if a[0] == "" then [] else [a[0]];
      assert (a + b)[0] == a[0] && (a + b)[1..] == a[1..] + b;
      assert PresentSegments(a + b) == head + PresentSegments(a[1..] + b);
      assert PresentSegments(a) == head + PresentSegments(a[1..]);
      PresentSegmentsAppend(a[1..], b);
      assert head + (PresentSegments(a[1..]) + PresentSegments(b)) == (head + PresentSegments(a[1..])) + PresentSegments(b);
    } else {
      assert a + b == b;
    }
  }

  /** Segments that are all present are kept as they are. */
  lemma {:induction false} PresentSegmentsKeepsPresent(segments: seq<string>)
    requires forall k :: 0 <= k < |segments| ==> segments[k] != ""
    ensures PresentSegments(segments) == segments
  {
    if segments != [] {
      PresentSegmentsKeepsPresent(segments[1..]);
    }
  }

  /** `joinPath(segments, relative)`: the non-empty segments joined by `/`,
    * with a leading `/` unless `relative`. */
  function JoinPath(segments: seq<string>, relative: bool): (p: string)
    ensures relative ==> p == Strings.Join(PresentSegments(segments), "/")
    ensures !relative ==> |p| >= 1 && p[0] == '/' && p[1..] == Strings.Join(PresentSegments(segments), "/")
  {
    if relative then Strings.Join(PresentSegments(segments), "/")
    else "/" + Strings.Join(PresentSegments(segments), "/")
  }

  /** With no non-empty segment the path is `/` (or empty when relative). */
  lemma {:induction false} JoinNothing(segments: seq<string>)
    requires forall k :: 0 <= k < |segments| ==> segments[k] == ""
    ensures PresentSegments(segments) == []
    ensures JoinPath(segments, true) == ""
    ensures JoinPath(segments, false) == "/"
  {
    if segments != [] {
      JoinNothing(segments[1..]);
    }
  }

  /** A relative path starts with `/` only when its first non-empty segment does. */
  lemma RelativeLeadingSlash(segments: seq<string>)
    requires PresentSegments(segments) != []
    ensures Strings.StartsWith(JoinPath(segments, true), "/") <==>
            Strings.StartsWith(PresentSegments(segments)[0], "/")
  {
    var parts := PresentSegments(segments);
    var first := parts[0];
    assert first != "" by {
      assert first in parts;
    }
    if |parts| > 1 {
      assert Strings.Join(parts, "/") == first + "/" + Strings.Join(parts[1..], "/");
      assert Strings.Join(parts, "/")[..1] == first[..1];
    }
  }

  /** Segments without `/` come back, in order and without the empty ones,
    * when the relative path is split on `/`. */
  lemma PathSplitsIntoSegments(segments: seq<string>)
    requires forall k :: 0 <= k < |segments| ==> '/' !in segments[k]
    requires PresentSegments(segments) != []
    ensures Strings.Split(JoinPath(segments, true), '/') == PresentSegments(segments)
    ensures JoinPath(segments, false) == "/" + JoinPath(segments, true)
  {
    var parts := PresentSegments(segments);
    forall k | 0 <= k < |parts| ensures '/' !in parts[k] {
      assert parts[k] in parts;
      var j :| 0 <= j < |segments| && segments[j] == parts[k];
    }
    Strings.SplitJoin(parts, '/');
  }
}
