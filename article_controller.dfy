/** The community-board handlers: creating and editing articles, deletion,
  * likes, attachments and the popular-tag ranking. */
module ArticleController {
  import opened Common
  import Lists
  import Strings
  import FileUpload
  import Attachments
  import ArticleModel
  import opened Database

  const STORAGE: FileUpload.Storage := FileUpload.ArticleAttachment
  const POPULAR_TAG_LIMIT: nat := 10

  // ------------------------------------------------------ create / edit

  /** `createArticle`'s tags: an array as given, a non-empty string split on
    * `','` and trimmed, anything else (missing, empty) the empty list. */
  function CreateTags(tags: Field): (r: seq<string>)
    ensures tags.Items? ==> r == tags.items
    ensures tags.Missing? || tags == Csv("") ==> r == []
    ensures tags.Csv? && tags.text != "" ==> r == Strings.SplitTrim(tags.text, ',')
  {
    match tags
    case Missing => []
    case Csv(s) => if s != "" then Strings.SplitTrim(s, ',') else []
    case Items(xs) => xs
  }

  /** The document `createArticle` builds from the request body and the uploads. */
  function Created(title: Option<string>, content: Option<string>, author: Id, category: Option<string>,
                   tags: Field, files: seq<FileUpload.UploadedFile>): ArticleModel.Article
  {
    ArticleModel.New(title, content, author, category, Some(CreateTags(tags)),
                     Attachments.FromUploads(files, STORAGE))
  }

  /** `createArticle`: a failed `Article.create` unlinks every uploaded file
    * (errors ignored) and is re-thrown as a validation error. */
  method CreateArticle(db: Db, userId: Id, title: Option<string>, content: Option<string>,
                       category: Option<string>, tags: Field, files: seq<FileUpload.UploadedFile>,
                       newId: Id, ioFail: set<string>) returns (status: int)
    requires db.Valid() && newId !in db.articles
    requires |files| <= Attachments.MAX_ARTICLE_ATTACHMENTS
    modifies db
    ensures db.Valid()
    ensures var a := Created(title, content, userId, category, tags, files);
      if !ArticleModel.Valid(a) then
        status == BAD_REQUEST &&
        db.disk == old(db.disk) - (set f | f in Attachments.UploadPaths(files) && f !in ioFail) &&
        db.posts == old(db.posts) && db.articles == old(db.articles) && db.comments == old(db.comments) &&
        db.commentLog == old(db.commentLog) && db.users == old(db.users)
      else
        status == CREATED && db.articles == old(db.articles)[newId := a] &&
        db.posts == old(db.posts) && db.comments == old(db.comments) &&
        db.commentLog == old(db.commentLog) && db.users == old(db.users) && db.disk == old(db.disk)
  {
    var a := Created(title, content, userId, category, tags, files);
    if !ArticleModel.Valid(a) {
      db.UnlinkAll(Attachments.UploadPaths(files), ioFail);
      return BAD_REQUEST;
    }
    db.SaveArticle(newId, a);
    status := CREATED;
  }

  /** `updateArticle`'s changes: only truthy fields overwrite (the title through
    * its trim setter); an array of tags always counts as given. */
  function Edited(a: ArticleModel.Article, title: Option<string>, content: Option<string>,
                  category: Option<string>, tags: Field): (e: ArticleModel.Article)
    ensures e.title == if Truthy(title) then Strings.Trim(title.value) else a.title
    ensures e.content == if Truthy(content) then content.value else a.content
    ensures e.category == if Truthy(category) then category.value else a.category
    ensures e.tags == match tags
                      case Missing => a.tags
                      case Csv(s) => if s != "" then Strings.SplitTrim(s, ',') else a.tags
                      case Items(xs) => xs
    ensures e.(title := a.title, content := a.content, category := a.category, tags := a.tags) == a
  {
    var a1 := if Truthy(title) then a.(title := Strings.Trim(title.value)) else a;
    var a2 := if Truthy(content) then a1.(content := content.value) else a1;
    var a3 := if Truthy(category) then a2.(category := category.value) else a2;
    match tags
    case Missing => a3
    case Csv(s) => if s != "" then a3.(tags := Strings.SplitTrim(s, ',')) else a3
    case Items(xs) => a3.(tags := xs)
  }

  /** A request without any truthy field saves the article unchanged. */
  lemma EditNothing(a: ArticleModel.Article, title: Option<string>, content: Option<string>,
                    category: Option<string>, tags: Field)
    requires !Truthy(title) && !Truthy(content) && !Truthy(category)
    requires tags.Missing? || tags == Csv("")
    ensures Edited(a, title, content, category, tags) == a
  {
  }

  /** `updateArticle` on the article `checkOwnership` loaded. */
  method UpdateArticle(db: Db, id: Id, title: Option<string>, content: Option<string>,
                       category: Option<string>, tags: Field) returns (status: int)
    requires db.Valid() && id in db.articles
    modifies db
    ensures db.Valid()
    ensures var e := Edited(old(db.articles)[id], title, content, category, tags);
      if !ArticleModel.Valid(e) then status == BAD_REQUEST && unchanged(db)
      else
        status == OK && db.articles == old(db.articles)[id := e] &&
        db.posts == old(db.posts) && db.comments == old(db.comments) && db.users == old(db.users) &&
        db.commentLog == old(db.commentLog) && db.disk == old(db.disk)
  {
    var a := db.articles[id];
    if Truthy(title) {
      a := a.(title := Strings.Trim(title.value));
    }
    if Truthy(content) {
      a := a.(content := content.value);
    }
    if Truthy(category) {
      a := a.(category := category.value);
    }
    match tags {
      case Missing =>
      case Csv(s) =>
        if s != "" {
          a := a.(tags := Strings.SplitTrim(s, ','));
        }
      case Items(xs) =>
        a := a.(tags := xs);
    }
    assert a == Edited(db.articles[id], title, content, category, tags);
    if !ArticleModel.Valid(a) {
      return BAD_REQUEST;
    }
    db.SaveArticle(id, a);
    status := OK;
  }

  // ------------------------------------------------------------- delete

  /** The files `deleteArticle` unlinks: each attachment's recorded URL path
    * without its leading `/`, taken relative to the working directory. */
  function RecordedFiles(atts: seq<Attachments.Attachment>): (r: seq<string>)
    ensures |r| == |atts|
    ensures forall k :: 0 <= k < |r| ==> r[k] == Attachments.StripLeadingSlash(atts[k].path)
  {
    seq(|atts|, k requires 0 <= k < |atts| => Attachments.StripLeadingSlash(atts[k].path))
  }

  /** `deleteArticle`: best-effort unlinks, then the article goes; its comments
    * are left in place. */
  method DeleteArticle(db: Db, id: Id, ioFail: set<string>) returns (status: int)
    requires db.Valid()
    modifies db
    ensures db.Valid()
    ensures id !in old(db.articles) ==> status == NOT_FOUND && unchanged(db)
    ensures id in old(db.articles) ==>
      status == OK && db.articles == old(db.articles) - {id} &&
      db.disk == old(db.disk) - (set f | f in RecordedFiles(old(db.articles)[id].attachments) && f !in ioFail) &&
      db.comments == old(db.comments) && db.commentLog == old(db.commentLog) &&
      db.posts == old(db.posts) && db.users == old(db.users)
  {
    if id !in db.articles {
      return NOT_FOUND;
    }
    db.UnlinkAll(RecordedFiles(db.articles[id].attachments), ioFail);
    db.DeleteArticle(id);
    status := OK;
  }

  /** An attachment stored through the article upload has its file unlinked by the deletion. */
  lemma RecordedFileIsStored(f: FileUpload.UploadedFile)
    ensures RecordedFiles([Attachments.FromUpload(f, STORAGE)]) == [Attachments.DiskPath(STORAGE, f.filename)]
  {
  }

  // ---------------------------------------------------- likes and files

  /** `toggleLike` on an article. */
  method ToggleLike(db: Db, id: Id, userId: Id) returns (status: int)
    requires db.Valid()
    modifies db
    ensures db.Valid()
    ensures id !in old(db.articles) ==> status == NOT_FOUND && unchanged(db)
    ensures id in old(db.articles) ==>
      var a := old(db.articles)[id];
      status == OK && db.articles == old(db.articles)[id := a.(likes := Lists.Toggle(a.likes, userId))] &&
      db.posts == old(db.posts) && db.comments == old(db.comments) && db.users == old(db.users) &&
      db.commentLog == old(db.commentLog) && db.disk == old(db.disk)
  {
    if id !in db.articles {
      return NOT_FOUND;
    }
    var a := db.articles[id];
    assert ArticleModel.Valid(a);
    db.SaveArticle(id, a.(likes := Lists.Toggle(a.likes, userId)));
    status := OK;
  }

  /** `addAttachments`: new uploads go after the existing ones, at most three in all. */
  method AddAttachments(db: Db, id: Id, files: seq<FileUpload.UploadedFile>) returns (status: int)
    requires db.Valid()
    modifies db
    ensures db.Valid()
    ensures id !in old(db.articles) ==> status == NOT_FOUND && unchanged(db)
    ensures id in old(db.articles) && files == [] ==> status == BAD_REQUEST && unchanged(db)
    ensures id in old(db.articles) && files != [] ==>
      var a := old(db.articles)[id];
      if |a.attachments| + |files| > Attachments.MAX_ARTICLE_ATTACHMENTS then status == BAD_REQUEST && unchanged(db)
      else
        status == OK &&
        db.articles == old(db.articles)[id := a.(attachments := a.attachments + Attachments.FromUploads(files, STORAGE))] &&
        db.posts == old(db.posts) && db.comments == old(db.comments) && db.users == old(db.users) &&
        db.commentLog == old(db.commentLog) && db.disk == old(db.disk)
  {
    if id !in db.articles {
      return NOT_FOUND;
    }
    if files == [] {
      return BAD_REQUEST;
    }
    var a := db.articles[id];
    assert ArticleModel.Valid(a);
    if |a.attachments| + |files| > Attachments.MAX_ARTICLE_ATTACHMENTS {
      return BAD_REQUEST;
    }
    db.SaveArticle(id, a.(attachments := a.attachments + Attachments.FromUploads(files, STORAGE)));
    status := OK;
  }

  /** `removeAttachment`: best-effort unlink of `path.join('uploads/article-attachments', filename)`,
    * the normalised path, then the first attachment with that name is spliced out. */
  method RemoveAttachment(db: Db, id: Id, filename: string, ioFail: set<string>) returns (status: int)
    requires db.Valid()
    modifies db
    ensures db.Valid()
    ensures id !in old(db.articles) ==> status == NOT_FOUND && unchanged(db)
    ensures id in old(db.articles) ==>
      var a := old(db.articles)[id];
      var i := Attachments.FindIndex(a.attachments, filename);
      var path := Attachments.JoinedPath(STORAGE, filename);
      if i == -1 then status == NOT_FOUND && unchanged(db)
      else
        status == OK &&
        db.articles == old(db.articles)[id := a.(attachments := Lists.RemoveAt(a.attachments, i))] &&
        db.disk == (if path in ioFail then old(db.disk) else old(db.disk) - {path}) &&
        db.posts == old(db.posts) && db.comments == old(db.comments) && db.users == old(db.users) &&
        db.commentLog == old(db.commentLog)
  {
    if id !in db.articles {
      return NOT_FOUND;
    }
    var a := db.articles[id];
    assert ArticleModel.Valid(a);
    var i := Attachments.FindIndex(a.attachments, filename);
    if i == -1 {
      return NOT_FOUND;
    }
    db.Unlink(Attachments.JoinedPath(STORAGE, filename), ioFail);
    db.SaveArticle(id, a.(attachments := Lists.RemoveAt(a.attachments, i)));
    status := OK;
  }

  // ------------------------------------------------------- popular tags

  /** One `$group` result: a tag and the number of article tag entries equal to it. */
  datatype TagCount = TagCount(tag: string, count: nat)

  predicate SortedByCount(s: seq<TagCount>)
  {
    forall i, j :: 0 <= i < j < |s| ==> s[i].count >= s[j].count
  }

  /** Inserts `x` into a list sorted by descending count. */
  function Insert(x: TagCount, s: seq<TagCount>): (r: seq<TagCount>)
    requires SortedByCount(s)
    ensures SortedByCount(r)
    ensures multiset(r) == multiset(s) + multiset{x}
    ensures |r| == |s| + 1
    ensures r[0] == x || (s != [] && r[0] == s[0])
  {
    if s == [] || x.count >= s[0].count then
      ConsSorted(x, s);
      [x] + s
    else
      var rest := Insert(x, s[1..]);
      assert multiset(s) == multiset{s[0]} + multiset(s[1..]) by {
        assert s == [s[0]] + s[1..];
      }
      ConsSorted(s[0], rest);
      [s[0]] + rest
  }

  /** A group counting at least as much as the head of a descending list can go in front of it. */
  lemma ConsSorted(a: TagCount, s: seq<TagCount>)
    requires SortedByCount(s) && (s == [] || a.count >= s[0].count)
    ensures SortedByCount([a] + s)
  {
    var r := [a] + s;
    forall i, j | 0 <= i < j < |r| ensures r[i].count >= r[j].count {
      if i == 0 && j > 1 {
        assert r[j] == s[j - 1];
        assert s[0].count >= s[j - 1].count;
      }
    }
  }

  /** `{ $sort: { count: -1 } }`. */
  function SortByCount(s: seq<TagCount>): (r: seq<TagCount>)
    ensures SortedByCount(r)
    ensures multiset(r) == multiset(s)
    ensures |r| == |s|
  {
    if s == [] then []
    else
      assert s == [s[0]] + s[1..];
      Insert(s[0], SortByCount(s[1..]))
  }

  /** `getPopularTags` after the `$unwind` / `$group` stages: sort by descending count, keep ten. */
  function PopularTags(groups: seq<TagCount>): seq<TagCount>
  {
    var sorted := SortByCount(groups);
    if |sorted| <= POPULAR_TAG_LIMIT then sorted else sorted[..POPULAR_TAG_LIMIT]
  }

  /** Whatever a prefix of a descending list leaves out counts no more than anything it keeps. */
  lemma PrefixDominates(s: seq<TagCount>, n: nat, g: TagCount, k: nat)
    requires SortedByCount(s) && n <= |s| && k < n
    requires g in multiset(s) - multiset(s[..n])
    ensures g.count <= s[k].count
  {
    assert s == s[..n] + s[n..];
    assert multiset(s) == multiset(s[..n]) + multiset(s[n..]);
    assert g in multiset(s[n..]);
    var j :| n <= j < |s| && s[j] == g;
  }

  /** At most ten groups come back, by descending count, taken from the input. */
  lemma PopularTagsSpec(groups: seq<TagCount>)
    ensures var r := PopularTags(groups);
      |r| == if |groups| <= POPULAR_TAG_LIMIT then |groups| else POPULAR_TAG_LIMIT
    ensures SortedByCount(PopularTags(groups))
    ensures multiset(PopularTags(groups)) <= multiset(groups)
  {
    var sorted := SortByCount(groups);
    var r := PopularTags(groups);
    var n := |r|;
    assert sorted == r + sorted[n..];
    assert multiset(sorted) == multiset(r) + multiset(sorted[n..]);
  }

  /** Every group left out of the ranking has a count no greater than any group kept. */
  lemma PopularTagsAreTop(groups: seq<TagCount>)
    ensures forall g, k :: g in multiset(groups) - multiset(PopularTags(groups)) && 0 <= k < |PopularTags(groups)| ==>
      g.count <= PopularTags(groups)[k].count
  {
    var sorted := SortByCount(groups);
    var r := PopularTags(groups);
    var n := |r|;
    assert r == sorted[..n];
    forall g, k | g in multiset(groups) - multiset(r) && 0 <= k < |r|
      ensures g.count <= r[k].count
    {
      PrefixDominates(sorted, n, g, k);
    }
  }
}
