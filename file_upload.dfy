/** The upload pipeline: safe stored file names, the six disk storages with
  * their directories and name prefixes, the two MIME type filters and the
  * per-storage size limits. The clock and the random bytes are parameters. */
module FileUpload {
  import opened Common
  import Lists

  type Byte = x: int | 0 <= x < 256

  // ---------------------------------------------------------------- paths

  /** Node's POSIX `path.basename(p)`: the last component, ignoring trailing slashes. */
  function LastComponent(p: string): (c: string)
    ensures '/' !in c
    decreases |p|
  {
    if p != [] && p[|p| - 1] == '/' then LastComponent(p[..|p| - 1])
    else p[LastIndex(p, '/') + 1..]
  }

  /** Index of the last occurrence of `ch` in `s`, or -1. */
  function LastIndex(s: string, ch: char): (i: int)
    ensures -1 <= i < |s|
    ensures i >= 0 ==> s[i] == ch
    ensures forall k :: i < k < |s| ==> s[k] != ch
  {
    if s == [] then -1
    else if s[|s| - 1] == ch then |s| - 1
    else LastIndex(s[..|s| - 1], ch)
  }

  /** Node's POSIX `path.extname(p)`: from the last dot of the last component,
    * empty when there is no dot, when the dot starts the component, or for `..`. */
  function Extname(p: string): (e: string)
    ensures '/' !in e
    ensures e == [] || e[0] == '.'
  {
    var c := LastComponent(p);
    var k := LastIndex(c, '.');
    if k <= 0 || c == ".." then "" else c[k..]
  }

  /** `path.basename(p, path.extname(p))`: the last component without its extension. */
  function BaseName(p: string): (b: string)
    ensures b + Extname(p) == LastComponent(p)
  {
    var c := LastComponent(p);
    var k := LastIndex(c, '.');
    assert Extname(p) == if k <= 0 || c == ".." then "" else c[k..];
    if k <= 0 || c == ".." then c else assert c[..k] + c[k..] == c; c[..k]
  }

  // ------------------------------------------------------ safe file names

  /** The characters the name sanitiser keeps: ASCII letters, digits and Hangul syllables. */
  predicate IsSafeChar(ch: char)
  {
    ('a' <= ch <= 'z') || ('A' <= ch <= 'Z') || ('0' <= ch <= '9') || ('가' <= ch <= '힣')
  }

  /** Every character outside the kept set becomes `_`. */
  function Sanitize(s: string): (r: string)
    ensures |r| == |s|
    ensures forall k :: 0 <= k < |r| ==> r[k] == (if IsSafeChar(s[k]) then s[k] else '_')
  {
    if s == [] then [] else [if IsSafeChar(s[0]) then s[0] else '_'] + Sanitize(s[1..])
  }

  const MAX_BASE_LENGTH: nat := 50

  /** The sanitised base name, cut to its first fifty characters. */
  function SafeBase(originalname: string): string
  {
    var s := Sanitize(BaseName(originalname));
    if |s| <= MAX_BASE_LENGTH then s else s[..MAX_BASE_LENGTH]
  }

  /** The decimal digits of a millisecond timestamp. */
  function Decimal(n: nat): (r: string)
    ensures |r| >= 1
    ensures forall k :: 0 <= k < |r| ==> '0' <= r[k] <= '9'
  {
    if n < 10 then [Digit(n)] else Decimal(n / 10) + [Digit(n % 10)]
  }

  function Digit(d: nat): (c: char)
    requires d < 16
    ensures '0' <= c <= '9' || 'a' <= c <= 'f'
    ensures d < 10 ==> '0' <= c <= '9'
  {
    if d < 10 then '0' + d as char else 'a' + (d - 10) as char
  }

  predicate IsHexDigit(c: char)
  {
    '0' <= c <= '9' || 'a' <= c <= 'f'
  }

  /** `Buffer.toString('hex')`: two lower-case hex digits per byte. */
  function Hex(bytes: seq<Byte>): (r: string)
    ensures |r| == 2 * |bytes|
    ensures forall k :: 0 <= k < |r| ==> IsHexDigit(r[k])
  {
    if bytes == [] then [] else [Digit(bytes[0] / 16), Digit(bytes[0] % 16)] + Hex(bytes[1..])
  }

  const RANDOM_BYTES: nat := 8

  /** `generateSafeFilename`: sanitised base, upload time, random hex, original extension. */
  function SafeFilename(originalname: string, now: nat, random: seq<Byte>): string
  {
    SafeBase(originalname) + "_" + Decimal(now) + "_" + Hex(random) + Extname(originalname)
  }

  /** The sanitised base is at most fifty characters of kept characters and underscores,
    * so it holds no path separator and no dot. */
  lemma SafeBaseIsSafe(originalname: string)
    ensures |SafeBase(originalname)| <= MAX_BASE_LENGTH
    ensures forall k :: 0 <= k < |SafeBase(originalname)| ==>
      IsSafeChar(SafeBase(originalname)[k]) || SafeBase(originalname)[k] == '_'
    ensures '/' !in SafeBase(originalname) && '\\' !in SafeBase(originalname) && '.' !in SafeBase(originalname)
  {
    var b := SafeBase(originalname);
    var s := Sanitize(BaseName(originalname));
    assert b == s[..|b|];
    forall k | 0 <= k < |b| ensures IsSafeChar(b[k]) || b[k] == '_' {
      assert b[k] == s[k];
    }
    forall k | 0 <= k < |b| ensures b[k] != '/' && b[k] != '\\' && b[k] != '.' {
      assert IsSafeChar(b[k]) || b[k] == '_';
    }
  }

  /** A stored name keeps the original extension verbatim at its end, carries the
    * random part as sixteen hex digits just before it, and never contains `/`. */
  lemma SafeFilenameShape(originalname: string, now: nat, random: seq<Byte>)
    requires |random| == RANDOM_BYTES
    ensures var name := SafeFilename(originalname, now, random);
      var ext := Extname(originalname);
      |name| > |ext| + 16 &&
      name[|name| - |ext|..] == ext &&
      name[|name| - |ext| - 17] == '_' &&
      (forall k :: |name| - |ext| - 16 <= k < |name| - |ext| ==> IsHexDigit(name[k])) &&
      '/' !in name
  {
    var base, ts, hex, ext := SafeBase(originalname), Decimal(now), Hex(random), Extname(originalname);
    var front := base + "_" + ts + "_";
    assert SafeFilename(originalname, now, random) == front + hex + ext;
    SafeBaseIsSafe(originalname);
    assert '/' !in ts && '/' !in hex;
    NoSlashJoin(base, "_");
    NoSlashJoin(base + "_", ts);
    NoSlashJoin(base + "_" + ts, "_");
    NoSlashJoin(front, hex);
    NoSlashJoin(front + hex, ext);
    TailShape(front, hex, ext);
  }

  /** In `front + hex + ext` with sixteen hex digits and `front` ending in `_`,
    * the extension closes the name, the digits sit just before it and the
    * underscore just before them. */
  lemma TailShape(front: string, hex: string, ext: string)
    requires |front| >= 1 && front[|front| - 1] == '_'
    requires |hex| == 16 && forall k :: 0 <= k < |hex| ==> IsHexDigit(hex[k])
    ensures var name := front + hex + ext;
      |name| > |ext| + 16 &&
      name[|name| - |ext|..] == ext &&
      name[|name| - |ext| - 17] == '_' &&
      (forall k :: |name| - |ext| - 16 <= k < |name| - |ext| ==> IsHexDigit(name[k]))
  {
    var name := front + hex + ext;
    var h := |front|;
    assert name[h - 1] == front[h - 1];
    forall k | h <= k < h + 16 ensures IsHexDigit(name[k]) {
      assert name[k] == hex[k - h];
    }
  }

  /** Two uploads of the same file in the same millisecond get different
    * names whenever their random bytes differ. */
  lemma SafeFilenameUnique(originalname: string, now: nat, r1: seq<Byte>, r2: seq<Byte>)
    requires |r1| == RANDOM_BYTES && |r2| == RANDOM_BYTES && r1 != r2
    ensures SafeFilename(originalname, now, r1) != SafeFilename(originalname, now, r2)
  {
    var pre := SafeBase(originalname) + "_" + Decimal(now) + "_";
    var ext := Extname(originalname);
    var n1, n2 := SafeFilename(originalname, now, r1), SafeFilename(originalname, now, r2);
    assert n1 == pre + Hex(r1) + ext;
    assert n2 == pre + Hex(r2) + ext;
    if n1 == n2 {
      assert Hex(r1) == n1[|pre|..|pre| + 16];
      assert Hex(r2) == n2[|pre|..|pre| + 16];
      HexInjective(r1, r2);
    }
  }

  lemma {:induction false} HexInjective(a: seq<Byte>, b: seq<Byte>)
    requires |a| == |b| && Hex(a) == Hex(b)
    ensures a == b
  {
    if a != [] {
      var ha, hb := Hex(a), Hex(b);
      assert ha[0] == hb[0] && ha[1] == hb[1];
      DigitInjective(a[0] / 16, b[0] / 16);
      DigitInjective(a[0] % 16, b[0] % 16);
      assert Hex(a[1..]) == ha[2..] && Hex(b[1..]) == hb[2..];
      HexInjective(a[1..], b[1..]);
      assert a == [a[0]] + a[1..] && b == [b[0]] + b[1..];
    }
  }

  lemma DigitInjective(d1: nat, d2: nat)
    requires d1 < 16 && d2 < 16 && Digit(d1) == Digit(d2)
    ensures d1 == d2
  {
  }

  // ------------------------------------------------------------ storages

  /** The six multer disk storages. */
  datatype Storage = ProfileImage | PostImage | PostAttachment | CommentAttachment | ArticleImage | ArticleAttachment

  /** The directory under `uploads` that each storage writes to. */
  function Subdirectory(st: Storage): (d: string)
    ensures d != "" && d != "." && d != ".." && '/' !in d
  {
    match st
    case ProfileImage => "profile-images"
    case PostImage => "post-images"
    case PostAttachment => "post-attachments"
    case CommentAttachment => "comment-attachments"
    case ArticleImage => "article-images"
    case ArticleAttachment => "article-attachments"
  }

  /** The directory, relative to the server root, that each storage writes to. */
  function Directory(st: Storage): string
  {
    "uploads/" + Subdirectory(st)
  }

  /** The prefix each storage puts before the safe name; profile images carry the uploader's id. */
  function Prefix(st: Storage, userId: Id): string
  {
    match st
    case ProfileImage => "profile_" + userId + "_"
    case PostImage => "post_"
    case PostAttachment => "attachment_"
    case CommentAttachment => "comment_"
    case ArticleImage => "article_"
    case ArticleAttachment => "article_att_"
  }

  const IMAGE_MIMETYPES: seq<string> := ["image/jpeg", "image/png", "image/gif", "image/webp", "image/svg+xml"]

  const ATTACHMENT_MIMETYPES: seq<string> := IMAGE_MIMETYPES + [
    "application/pdf",
    "application/msword",
    "application/vnd.openxmlformats-officedocument.wordprocessingml.document",
    "application/vnd.ms-powerpoint",
    "application/vnd.openxmlformats-officedocument.presentationml.presentation",
    "application/vnd.ms-excel",
    "application/vnd.openxmlformats-officedocument.spreadsheetml.sheet",
    "text/plain"]

  predicate IsImageStorage(st: Storage)
  {
    st == ProfileImage || st == PostImage || st == ArticleImage
  }

  /** `imageFilter` for the three image storages, `attachmentFilter` for the others. */
  predicate Accepts(st: Storage, mimetype: string)
  {
    if IsImageStorage(st) then mimetype in IMAGE_MIMETYPES else mimetype in ATTACHMENT_MIMETYPES
  }

  const MB: nat := 1024 * 1024

  /** `limits.fileSize`: 2 MB for comment attachments, 5 MB everywhere else. */
  function MaxFileSize(st: Storage): (n: nat)
    ensures n == if st == CommentAttachment then 2 * MB else 5 * MB
    ensures n <= 5 * MB
  {
    if st == CommentAttachment then 2 * 1024 * 1024 else 5 * 1024 * 1024
  }

  /** Every image type is also an attachment type, so any storage accepts every image;
    * an attachment storage accepts exactly thirteen types, an image storage five. */
  lemma FiltersNested(st: Storage, mimetype: string)
    ensures mimetype in IMAGE_MIMETYPES ==> Accepts(st, mimetype)
    ensures Accepts(st, mimetype) ==> mimetype in ATTACHMENT_MIMETYPES
    ensures |IMAGE_MIMETYPES| == 5 && |ATTACHMENT_MIMETYPES| == 13
    ensures Lists.NoDuplicates(ATTACHMENT_MIMETYPES)
  {
  }

  /** multer's file object for one stored upload. */
  datatype UploadedFile = UploadedFile(filename: string, originalname: string, path: string, mimetype: string, size: nat)

  const FILTER_IMAGE_ERROR := "허용되지 않는 이미지 형식입니다. JPG, PNG, GIF, WebP, SVG 파일만 업로드 가능합니다."
  const FILTER_ATTACHMENT_ERROR := "허용되지 않는 파일 형식입니다. 이미지, PDF, 워드, 파워포인트, 엑셀 파일만 업로드 가능합니다."
  const FILE_TOO_LARGE := "File too large"

  /** One file through a storage: the filter first, then the size limit, then the stored name. */
  function Store(st: Storage, userId: Id, originalname: string, mimetype: string, size: nat,
                 now: nat, random: seq<Byte>): (r: Result<UploadedFile>)
    requires |random| == RANDOM_BYTES
    ensures r.Ok? <==> Accepts(st, mimetype) && size <= MaxFileSize(st)
    ensures !Accepts(st, mimetype) ==> r == Err(if IsImageStorage(st) then FILTER_IMAGE_ERROR else FILTER_ATTACHMENT_ERROR)
    ensures r.Ok? ==>
      var f := r.value;
      f.path == Directory(st) + "/" + f.filename &&
      f.filename == Prefix(st, userId) + SafeFilename(originalname, now, random) &&
      f.originalname == originalname && f.mimetype == mimetype && f.size == size
  {
    if !Accepts(st, mimetype) then
      Err(if IsImageStorage(st) then FILTER_IMAGE_ERROR else FILTER_ATTACHMENT_ERROR)
    else if size > MaxFileSize(st) then
      Err(FILE_TOO_LARGE)
    else
      var name := Prefix(st, userId) + SafeFilename(originalname, now, random);
      Ok(UploadedFile(name, originalname, Directory(st) + "/" + name, mimetype, size))
  }

  /** A stored name has no `/` (for a profile image, as long as the user id has none), so
    * it is its own base name and the stored file lies directly inside the storage directory. */
  lemma StoredNameIsFlat(st: Storage, userId: Id, originalname: string, now: nat, random: seq<Byte>)
    requires |random| == RANDOM_BYTES && '/' !in userId
    ensures var name := Prefix(st, userId) + SafeFilename(originalname, now, random);
      '/' !in name && LastComponent(name) == name
  {
    var safe := SafeFilename(originalname, now, random);
    var pre := Prefix(st, userId);
    assert '/' !in safe by {
      SafeFilenameShape(originalname, now, random);
    }
    PrefixHasNoSlash(st, userId);
    NoSlashJoin(pre, safe);
    FlatIsOwnComponent(pre + safe);
  }

  /** The storage prefixes have no `/`, the profile image's as long as the user id has none. */
  lemma PrefixHasNoSlash(st: Storage, userId: Id)
    requires '/' !in userId
    ensures '/' !in Prefix(st, userId)
  {
    if st == ProfileImage {
      NoSlashJoin("profile_", userId);
      NoSlashJoin("profile_" + userId, "_");
    }
  }

  /** Two strings without `/` make one without `/`. */
  lemma NoSlashJoin(a: string, b: string)
    requires '/' !in a && '/' !in b
    ensures '/' !in a + b
  {
    forall k | 0 <= k < |a + b| ensures (a + b)[k] != '/' {
      if k < |a| { assert (a + b)[k] == a[k]; } else { assert (a + b)[k] == b[k - |a|]; }
    }
  }

  /** A string without `/` is its own last component. */
  lemma FlatIsOwnComponent(name: string)
    requires '/' !in name
    ensures LastComponent(name) == name
  {
    if name != [] {
      assert name[|name| - 1] in name;
    }
    assert LastIndex(name, '/') == -1;
  }
}
