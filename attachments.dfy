/** The attachment sub-documents shared by posts, articles and comments:
  * how an upload becomes an attachment, the per-entity count ceilings and
  * the lookup by file name that removal relies on. */
module Attachments {
  import opened Common
  import FileUpload
  import Strings
  import Lists

  datatype Attachment = Attachment(filename: string, originalname: string, path: string, mimetype: string, size: nat)

  /** Posts and articles take at most three attachments, comments two. */
  const MAX_POST_ATTACHMENTS: nat := 3
  const MAX_ARTICLE_ATTACHMENTS: nat := 3
  const MAX_COMMENT_ATTACHMENTS: nat := 2

  /** The public URL path recorded for a stored upload: `/<directory>/<filename>`. */
  function Url(st: FileUpload.Storage, filename: string): string
  {
    "/" + FileUpload.Directory(st) + "/" + filename
  }

  /** The server-relative disk path of a stored file, `path.join('uploads/<dir>', name)`
    * for a name without `/`. */
  function DiskPath(st: FileUpload.Storage, filename: string): string
  {
    FileUpload.Directory(st) + "/" + filename
  }

  // ------------------------------------------------------- path.join

  /** A list of path segments in normal form: no empty or `.` segment, and
    * `..` only in a leading run (where there is nothing left to cancel). */
  predicate Canonical(segments: seq<string>)
  {
    (forall k :: 0 <= k < |segments| ==> segments[k] != "" && segments[k] != ".") &&
    (forall i, j :: 0 <= i < j < |segments| && segments[j] == ".." ==> segments[i] == "..")
  }

  /** The segment resolution of `path.normalize` on a relative path, read left
    * to right: empty and `.` segments vanish, `..` cancels the segment before
    * it, and a `..` with nothing to cancel is kept. */
  function Resolve(segments: seq<string>): (r: seq<string>)
    ensures Canonical(r)
    ensures |r| <= |segments|
  {
    if segments == [] then []
    else Step(Resolve(segments[..|segments| - 1]), segments[|segments| - 1])
  }

  /** One segment of `Resolve` added to the segments resolved so far. */
  function Step(front: seq<string>, last: string): seq<string>
  {
    if last == "" || last == "." then front
    else if last != ".." then front + [last]
    else if front != [] && front[|front| - 1] != ".." then front[..|front| - 1]
    else front + [".."]
  }

  /** A list already in normal form resolves to itself. */
  lemma {:induction false} ResolveCanonical(segments: seq<string>)
    requires Canonical(segments)
    ensures Resolve(segments) == segments
  {
    if segments != [] {
      var front := segments[..|segments| - 1];
      assert Canonical(front);
      ResolveCanonical(front);
      if segments[|segments| - 1] == ".." && front != [] {
        assert front[|front| - 1] == "..";
      }
      assert front + [segments[|segments| - 1]] == segments;
    }
  }

  /** Normalising twice is normalising once. */
  lemma ResolveIdempotent(segments: seq<string>)
    ensures Resolve(Resolve(segments)) == Resolve(segments)
  {
    ResolveCanonical(Resolve(segments));
  }

  /** `path.join('uploads/<dir>', filename)`, relative to the server root: the
    * joined text split on `/`, its segments resolved, `.` for nothing left,
    * and a trailing `/` of the name kept. */
  function JoinedPath(st: FileUpload.Storage, filename: string): (p: string)
    ensures p != []
  {
    var parts := Resolve(Strings.Split(DiskPath(st, filename), '/'));
    var body := if parts == [] then "." else Strings.Join(parts, "/");
    if filename != [] && filename[|filename| - 1] == '/' then body + "/" else body
  }

  /** A segment that `Resolve` keeps as it is. */
  predicate PlainSegment(s: string)
  {
    s != "" && s != "." && s != ".." && '/' !in s
  }

  /** The segments `path.join` sees: `uploads`, the storage directory, then
    * the pieces of the name between its slashes. */
  lemma JoinedSegments(st: FileUpload.Storage, filename: string)
    ensures Strings.Split(DiskPath(st, filename), '/') == ["uploads", FileUpload.Subdirectory(st)] + Strings.Split(filename, '/')
  {
    var d := FileUpload.Subdirectory(st);
    assert '/' !in "uploads";
    assert DiskPath(st, filename) == "uploads" + "/" + (d + "/" + filename);
    Strings.SplitAfterFirst("uploads", '/', d + "/" + filename);
    Strings.SplitAfterFirst(d, '/', filename);
  }

  /** `DiskPath` spelled out segment by segment. */
  lemma DiskPathText(st: FileUpload.Storage, filename: string)
    ensures DiskPath(st, filename) == "uploads" + "/" + FileUpload.Subdirectory(st) + "/" + filename
  {
  }

  /** The directory's two segments and one more, joined by `/`. */
  lemma JoinThree(dir: seq<string>, c: string)
    requires |dir| == 2
    ensures Strings.Join(dir + [c], "/") == dir[0] + "/" + dir[1] + "/" + c
  {
    var all := dir + [c];
    assert all[1..] == [dir[1], c] && [dir[1], c][1..] == [c];
    Strings.JoinCons(dir[0], [dir[1], c], "/");
    Strings.JoinCons(dir[1], [c], "/");
  }

  /** `JoinedPath` once the resolved segments are known and the name does not end in `/`. */
  lemma JoinedOf(st: FileUpload.Storage, filename: string, parts: seq<string>)
    requires Resolve(Strings.Split(DiskPath(st, filename), '/')) == parts
    requires parts != []
    requires filename != [] && filename[|filename| - 1] != '/'
    ensures JoinedPath(st, filename) == Strings.Join(parts, "/")
  {
  }

  /** The last character of a concatenation is that of its non-empty tail. */
  lemma LastOfConcat(a: string, b: string)
    requires b != []
    ensures (a + b)[|a + b| - 1] == b[|b| - 1]
  {
  }

  /** Moving a segment from one list of segments to the next. */
  lemma Regroup(a: string, b: string, c: string, e: string)
    ensures [a, b] + [c, e] == [a] + [b, c, e]
  {
  }

  /** A name without `/` is one segment. */
  lemma SplitPlain(filename: string)
    requires '/' !in filename
    ensures Strings.Split(filename, '/') == [filename]
  {
    assert Lists.IndexOf(filename, '/') == -1;
  }

  /** The pieces of `a/b/c` when none of the three holds `/`. */
  lemma SplitThree(a: string, b: string, c: string)
    requires '/' !in a && '/' !in b && '/' !in c
    ensures Strings.Split(a + "/" + b + "/" + c, '/') == [a, b, c]
  {
    assert a + "/" + b + "/" + c == a + "/" + (b + "/" + c);
    Strings.SplitAfterFirst(a, '/', b + "/" + c);
    Strings.SplitAfterFirst(b, '/', c);
    SplitPlain(c);
  }

  /** Resolving one more segment is one more `Step`. */
  lemma ResolveSnoc(segments: seq<string>, last: string)
    ensures Resolve(segments + [last]) == Step(Resolve(segments), last)
  {
    assert (segments + [last])[..|segments|] == segments;
  }

  /** A plain segment is appended as it is. */
  lemma ResolvePlain(segments: seq<string>, x: string)
    requires PlainSegment(x)
    ensures Resolve(segments + [x]) == Resolve(segments) + [x]
  {
    ResolveSnoc(segments, x);
  }

  /** A plain segment followed by `..` cancels out. */
  lemma ResolveCancels(segments: seq<string>, x: string)
    requires PlainSegment(x)
    ensures Resolve(segments + [x, ".."]) == Resolve(segments)
  {
    ResolveSnoc(segments, x);
    ResolveSnoc(segments + [x], "..");
    assert (segments + [x]) + [".."] == segments + [x, ".."];
    var r := Resolve(segments);
    assert (r + [x])[..|r|] == r;
  }

  /** `x/../f` after some segments resolves to those segments and then `f`. */
  lemma ResolveDetour(segments: seq<string>, x: string, f: string)
    requires PlainSegment(x) && PlainSegment(f)
    ensures Resolve(segments + [x, "..", f]) == Resolve(segments) + [f]
  {
    assert segments + [x, "..", f] == (segments + [x, ".."]) + [f];
    ResolvePlain(segments + [x, ".."], f);
    ResolveCancels(segments, x);
  }

  /** The storage directory's segments are already resolved. */
  lemma ResolveDirectory(st: FileUpload.Storage)
    ensures Resolve(["uploads", FileUpload.Subdirectory(st)]) == ["uploads", FileUpload.Subdirectory(st)]
  {
    var d := FileUpload.Subdirectory(st);
    ResolvePlain([], "uploads");
    ResolvePlain(["uploads"], d);
    assert [] + ["uploads"] == ["uploads"];
    assert ["uploads"] + [d] == ["uploads", d];
  }

  /** A generated name, with no `/`, `.` or `..` in it, is joined as written:
    * the file unlinked is the stored upload. */
  lemma JoinedPlainName(st: FileUpload.Storage, filename: string)
    requires PlainSegment(filename)
    ensures JoinedPath(st, filename) == DiskPath(st, filename)
  {
    var dir := ["uploads", FileUpload.Subdirectory(st)];
    JoinedSegments(st, filename);
    SplitPlain(filename);
    ResolvePlain(dir, filename);
    ResolveDirectory(st);
    JoinedOf(st, filename, dir + [filename]);
    JoinThree(dir, filename);
    DiskPathText(st, filename);
  }

  /** `x/../f` spelled out segment by segment. */
  lemma DetourText(x: string, f: string)
    ensures x + "/../" + f == x + "/" + ".." + "/" + f
  {
  }

  /** The resolved segments of `path.join('uploads/<dir>', 'x/../f')`. */
  lemma DetourSegments(st: FileUpload.Storage, x: string, filename: string)
    requires PlainSegment(x) && PlainSegment(filename)
    ensures Resolve(Strings.Split(DiskPath(st, x + "/../" + filename), '/')) ==
            ["uploads", FileUpload.Subdirectory(st)] + [filename]
  {
    var dir := ["uploads", FileUpload.Subdirectory(st)];
    DetourText(x, filename);
    JoinedSegments(st, x + "/../" + filename);
    SplitThree(x, "..", filename);
    ResolveDetour(dir, x, filename);
    ResolveDirectory(st);
  }

  /** A name that steps into some directory and back out designates the
    * storage directory's file of that name: `x/../A.pdf` is `A.pdf`. */
  lemma JoinedParentStep(st: FileUpload.Storage, x: string, filename: string)
    requires PlainSegment(x) && PlainSegment(filename)
    ensures JoinedPath(st, x + "/../" + filename) == DiskPath(st, filename)
  {
    var dir := ["uploads", FileUpload.Subdirectory(st)];
    var name := x + "/../" + filename;
    DetourSegments(st, x, filename);
    LastOfConcat(x + "/../", filename);
    JoinedOf(st, name, dir + [filename]);
    JoinThree(dir, filename);
    DiskPathText(st, filename);
  }

  /** The pieces of `a/b` when neither holds `/`. */
  lemma SplitTwo(a: string, b: string)
    requires '/' !in a && '/' !in b
    ensures Strings.Split(a + "/" + b, '/') == [a, b]
  {
    Strings.SplitAfterFirst(a, '/', b);
    SplitPlain(b);
  }

  /** A single plain segment is already resolved. */
  lemma ResolveSingle(x: string)
    requires PlainSegment(x)
    ensures Resolve([x]) == [x]
  {
    ResolvePlain([], x);
    assert [] + [x] == [x];
  }

  /** Two segments joined by `/`. */
  lemma JoinTwo(a: string, b: string)
    ensures Strings.Join([a] + [b], "/") == a + "/" + b
  {
    Strings.JoinCons(a, [b], "/");
  }

  /** `../f` spelled out segment by segment. */
  lemma EscapeText(f: string)
    ensures "../" + f == ".." + "/" + f
  {
  }

  /** `u/d/../f` resolves to `u/f`. */
  lemma ResolveEscape(u: string, d: string, f: string)
    requires PlainSegment(u) && PlainSegment(d) && PlainSegment(f)
    ensures Resolve([u, d] + ["..", f]) == [u] + [f]
  {
    Regroup(u, d, "..", f);
    ResolveDetour([u], d, f);
    ResolveSingle(u);
  }

  /** The resolved segments of `path.join('uploads/<dir>', '../f')`. */
  lemma EscapeSegments(st: FileUpload.Storage, filename: string)
    requires PlainSegment(filename)
    ensures Resolve(Strings.Split(DiskPath(st, "../" + filename), '/')) == ["uploads"] + [filename]
  {
    EscapeText(filename);
    JoinedSegments(st, "../" + filename);
    SplitTwo("..", filename);
    ResolveEscape("uploads", FileUpload.Subdirectory(st), filename);
  }

  /** A leading `..` leaves the storage directory: `../A.pdf` is `uploads/A.pdf`. */
  lemma JoinedLeavesDirectory(st: FileUpload.Storage, filename: string)
    requires PlainSegment(filename)
    ensures JoinedPath(st, "../" + filename) == "uploads" + "/" + filename
  {
    EscapeSegments(st, filename);
    LastOfConcat("../", filename);
    JoinedOf(st, "../" + filename, ["uploads"] + [filename]);
    JoinTwo("uploads", filename);
  }

  /** The file a deletion handler unlinks for an attachment: `path.join('uploads/<dir>', path.basename(filename))`. */
  function StoredFile(st: FileUpload.Storage, a: Attachment): string
  {
    DiskPath(st, FileUpload.LastComponent(a.filename))
  }

  /** The files a deletion handler unlinks, one per attachment, in order. */
  function StoredFiles(st: FileUpload.Storage, atts: seq<Attachment>): (r: seq<string>)
    ensures |r| == |atts|
    ensures forall k :: 0 <= k < |r| ==> r[k] == StoredFile(st, atts[k])
  {
    seq(|atts|, k requires 0 <= k < |atts| => StoredFile(st, atts[k]))
  }

  /** The record the controllers build from multer's file object. */
  function FromUpload(f: FileUpload.UploadedFile, st: FileUpload.Storage): (a: Attachment)
    ensures a.filename == f.filename && a.originalname == f.originalname
    ensures a.mimetype == f.mimetype && a.size == f.size
    ensures StripLeadingSlash(a.path) == DiskPath(st, f.filename)
  {
    Attachment(f.filename, f.originalname, Url(st, f.filename), f.mimetype, f.size)
  }

  /** `files.map(...)`: one attachment per upload, in upload order. */
  function FromUploads(fs: seq<FileUpload.UploadedFile>, st: FileUpload.Storage): (r: seq<Attachment>)
    ensures |r| == |fs|
    ensures forall k :: 0 <= k < |r| ==> r[k] == FromUpload(fs[k], st)
  {
    seq(|fs|, k requires 0 <= k < |fs| => FromUpload(fs[k], st))
  }

  /** `p.replace(/^\//, '')`. */
  function StripLeadingSlash(p: string): (r: string)
    ensures p != [] && p[0] == '/' ==> r == p[1..]
    ensures (p == [] || p[0] != '/') ==> r == p
  {
    if p != [] && p[0] == '/' then p[1..] else p
  }

  /** `attachments.findIndex(a => a.filename === filename)`. */
  function FindIndex(atts: seq<Attachment>, filename: string): (i: int)
    ensures -1 <= i < |atts|
    ensures i == -1 <==> forall k :: 0 <= k < |atts| ==> atts[k].filename != filename
    ensures 0 <= i ==> atts[i].filename == filename && forall k :: 0 <= k < i ==> atts[k].filename != filename
  {
    if atts == [] then -1
    else if atts[0].filename == filename then 0
    else
      var j := FindIndex(atts[1..], filename);
      if j == -1 then -1 else j + 1
  }

  /** The disk paths of a list of uploads, as multer reports them in `file.path`. */
  function UploadPaths(fs: seq<FileUpload.UploadedFile>): (r: seq<string>)
    ensures |r| == |fs|
    ensures forall k :: 0 <= k < |r| ==> r[k] == fs[k].path
  {
    if fs == [] then [] else [fs[0].path] + UploadPaths(fs[1..])
  }
}
