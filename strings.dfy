/** The JavaScript string operations the server and the client rely on:
  * `includes`, `startsWith`, `split` on one separator character, `join`
  * and `trim`. Strings are sequences of characters; the model does not
  * distinguish UTF-16 code units from code points. */
module Strings {
  import Lists

  /** `t` occurs in `s` at position `i`. */
  predicate OccursAt(s: string, t: string, i: int)
  {
    0 <= i && i + |t| <= |s| && s[i..i + |t|] == t
  }

  /** `s.includes(t)`. */
  predicate Contains(s: string, t: string)
  {
    exists i :: 0 <= i <= |s| - |t| && OccursAt(s, t, i)
  }

  /** A string occurs in any string built around it. */
  lemma ContainsInfix(a: string, t: string, b: string)
    ensures Contains(a + t + b, t)
  {
    var s := a + t + b;
    assert s[|a|..|a| + |t|] == t;
    assert OccursAt(s, t, |a|);
  }

  /** Each of the four values filled into a five-piece template occurs in the result. */
  lemma FillEmbeds(a: string, t1: string, b: string, t2: string, c: string, t3: string, d: string, t4: string, e: string)
    ensures var r := a + t1 + b + t2 + c + t3 + d + t4 + e;
      Contains(r, t1) && Contains(r, t2) && Contains(r, t3) && Contains(r, t4)
  {
    var r := a + t1 + b + t2 + c + t3 + d + t4 + e;
    assert r == a + t1 + (b + t2 + c + t3 + d + t4 + e);
    ContainsInfix(a, t1, b + t2 + c + t3 + d + t4 + e);
    assert r == (a + t1 + b) + t2 + (c + t3 + d + t4 + e);
    ContainsInfix(a + t1 + b, t2, c + t3 + d + t4 + e);
    assert r == (a + t1 + b + t2 + c) + t3 + (d + t4 + e);
    ContainsInfix(a + t1 + b + t2 + c, t3, d + t4 + e);
    ContainsInfix(a + t1 + b + t2 + c + t3 + d, t4, e);
  }

  /** `s.startsWith(p)`. */
  predicate StartsWith(s: string, p: string)
  {
    |p| <= |s| && s[..|p|] == p
  }

  /** `parts.join(sep)`: the empty array joins to the empty string. */
  function Join(parts: seq<string>, sep: string): string
  {
    if |parts| == 0 then ""
    else if |parts| == 1 then parts[0]
    else parts[0] + sep + Join(parts[1..], sep)
  }

  /** `s.split(sep)` for a one-character separator: the text between
    * consecutive separators, so `""` splits to `[""]` and `"a,"` to `["a", ""]`. */
  function Split(s: string, sep: char): (r: seq<string>)
    ensures |r| >= 1
    ensures forall k :: 0 <= k < |r| ==> sep !in r[k]
    decreases |s|
  {
    var i := Lists.IndexOf(s, sep);
    if i == -1 then [s] else [s[..i]] + Split(s[i + 1..], sep)
  }

  /** Splitting and joining with the same separator gives the string back. */
  lemma {:induction false} JoinSplit(s: string, sep: char)
    ensures Join(Split(s, sep), [sep]) == s
    decreases |s|
  {
    var i := Lists.IndexOf(s, sep);
    if i == -1 {
      assert Split(s, sep) == [s];
    } else {
      var rest := s[i + 1..];
      var tail := Split(rest, sep);
      assert Split(s, sep) == [s[..i]] + tail;
      JoinCons(s[..i], tail, [sep]);
      JoinSplit(rest, sep);
      assert s == s[..i] + [sep] + rest by {
        assert s[i] == sep;
      }
    }
  }

  /** Joining a part in front of a non-empty list puts one separator between them. */
  lemma JoinCons(a: string, tail: seq<string>, sep: string)
    requires |tail| >= 1
    ensures Join([a] + tail, sep) == a + sep + Join(tail, sep)
  {
    assert ([a] + tail)[1..] == tail;
  }

  /** Joining parts that do not contain the separator and splitting again gives the parts back. */
  lemma {:induction false} SplitJoin(parts: seq<string>, sep: char)
    requires |parts| >= 1
    requires forall k :: 0 <= k < |parts| ==> sep !in parts[k]
    ensures Split(Join(parts, [sep]), sep) == parts
    decreases |parts|
  {
    var p := parts[0];
    if |parts| == 1 {
      assert Lists.IndexOf(p, sep) == -1;
    } else {
      var rest := parts[1..];
      assert parts == [p] + rest;
      JoinCons(p, rest, [sep]);
      SplitAfterFirst(p, sep, Join(rest, [sep]));
      SplitJoin(rest, sep);
    }
  }

  /** Splitting `p + [sep] + t` for a `p` without the separator yields `p`
    * followed by the pieces of `t`. */
  lemma SplitAfterFirst(p: string, sep: char, t: string)
    requires sep !in p
    ensures Split(p + [sep] + t, sep) == [p] + Split(t, sep)
  {
    var s := p + [sep] + t;
    IndexOfAfterPrefix(p, sep, t);
    assert s[..|p|] == p && s[|p| + 1..] == t;
  }

  /** The first separator of `p + [sep] + t` sits just after `p` when `p` has none. */
  lemma IndexOfAfterPrefix(p: string, sep: char, t: string)
    requires sep !in p
    ensures Lists.IndexOf(p + [sep] + t, sep) == |p|
  {
    var s := p + [sep] + t;
    assert s[..|p|] == p;
    assert s[|p|] == sep;
  }

  /** JavaScript's `WhiteSpace` and `LineTerminator` characters, which `trim` strips. */
  predicate IsWhitespace(c: char)
  {
    c == '\t' || c == '\n' || c == '\U{000B}' || c == '\U{000C}' || c == '\r' || c == ' ' ||
    c == '\U{00A0}' || c == '\U{1680}' || ('\U{2000}' <= c <= '\U{200A}') ||
    c == '\U{2028}' || c == '\U{2029}' || c == '\U{202F}' || c == '\U{205F}' ||
    c == '\U{3000}' || c == '\U{FEFF}'
  }

  /** Leading whitespace dropped: the result is a suffix of `s` that starts with a non-blank. */
  function TrimStart(s: string): (r: string)
    ensures |r| <= |s| && r == s[|s| - |r|..]
    ensures forall k :: 0 <= k < |s| - |r| ==> IsWhitespace(s[k])
    ensures r == [] || !IsWhitespace(r[0])
  {
    if s != [] && IsWhitespace(s[0]) then TrimStart(s[1..]) else s
  }

  /** Trailing whitespace dropped: the result is a prefix of `s` that ends with a non-blank. */
  function TrimEnd(s: string): (r: string)
    ensures |r| <= |s| && r == s[..|r|]
    ensures forall k :: |r| <= k < |s| ==> IsWhitespace(s[k])
    ensures r == [] || !IsWhitespace(r[|r| - 1])
  {
    if s != [] && IsWhitespace(s[|s| - 1]) then TrimEnd(s[..|s| - 1]) else s
  }

  /** `s.trim()`. */
  function Trim(s: string): string
  {
    TrimEnd(TrimStart(s))
  }

  /** Where the text kept by `trim` starts: the number of leading blanks. */
  function TrimOffset(s: string): nat
  {
    |s| - |TrimStart(s)|
  }

  /** `trim` keeps a contiguous middle of `s` and leaves no blank at either end. */
  lemma TrimSpec(s: string)
    ensures TrimOffset(s) + |Trim(s)| <= |s|
    ensures Trim(s) == s[TrimOffset(s)..TrimOffset(s) + |Trim(s)|]
    ensures Trim(s) == [] || (!IsWhitespace(Trim(s)[0]) && !IsWhitespace(Trim(s)[|Trim(s)| - 1]))
  {
    var t := TrimStart(s);
    var r := TrimEnd(t);
    assert Trim(s) == r && TrimOffset(s) == |s| - |t|;
    TrimWindow(s, t, r);
  }

  /** What `trim` cuts from either end of `s` is whitespace. */
  lemma TrimCutsBlanks(s: string)
    ensures forall k :: 0 <= k < TrimOffset(s) ==> IsWhitespace(s[k])
    ensures forall k :: TrimOffset(s) + |Trim(s)| <= k < |s| ==> IsWhitespace(s[k])
  {
    var t := TrimStart(s);
    TrimWindow(s, t, TrimEnd(t));
  }

  /** A prefix `r` of a suffix `t` of `s` is the window of `s` that starts
    * where `t` does; what `t` leaves after `r` is what `s` leaves after it. */
  lemma TrimWindow(s: string, t: string, r: string)
    requires |t| <= |s| && t == s[|s| - |t|..]
    requires |r| <= |t| && r == t[..|r|]
    requires forall k :: |r| <= k < |t| ==> IsWhitespace(t[k])
    ensures r == s[|s| - |t|..|s| - |t| + |r|]
    ensures forall k :: |s| - |t| + |r| <= k < |s| ==> IsWhitespace(s[k])
    ensures r != [] ==> r[0] == t[0]
  {
    var i := |s| - |t|;
    forall k | i + |r| <= k < |s| ensures IsWhitespace(s[k]) {
      assert s[k] == t[k - i];
    }
  }

  /** Trimming twice is trimming once. */
  lemma TrimIdempotent(s: string)
    ensures Trim(Trim(s)) == Trim(s)
  {
    TrimSpec(s);
    var r := Trim(s);
    if r != [] {
      assert TrimStart(r) == r;
      assert TrimEnd(r) == r;
    }
  }

  /** `s.split(sep).map(x => x.trim())`. */
  function SplitTrim(s: string, sep: char): (r: seq<string>)
    ensures |r| == |Split(s, sep)|
    ensures forall k :: 0 <= k < |r| ==> r[k] == Trim(Split(s, sep)[k])
  {
    var parts := Split(s, sep);
    seq(|parts|, k requires 0 <= k < |parts| => Trim(parts[k]))
  }
}
