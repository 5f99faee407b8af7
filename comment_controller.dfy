/** The comment thread handlers: creating comments and replies on a post or
  * an article, editing, soft deletion, likes, attachment removal and the
  * paged listing of a thread. Each handler works on the database `db`; the
  * id a new document gets and the set of paths whose unlink fails are
  * parameters. */
module CommentController {
  import opened Common
  import Lists
  import Paging
  import FileUpload
  import Attachments
  import CommentModel
  import ErrorHandler
  import opened Database

  const STORAGE: FileUpload.Storage := FileUpload.CommentAttachment

  // ------------------------------------------------------------- targets

  /** `if (postId) … else if (articleId) … else 400`: the post wins when both are given. */
  function TargetOf(postId: Option<Id>, articleId: Option<Id>): (t: Option<Target>)
    ensures t.None? <==> !Truthy(postId) && !Truthy(articleId)
    ensures Truthy(postId) ==> t == Some(OnPost(postId.value))
    ensures !Truthy(postId) && Truthy(articleId) ==> t == Some(OnArticle(articleId.value))
  {
    if Truthy(postId) then Some(OnPost(postId.value))
    else if Truthy(articleId) then Some(OnArticle(articleId.value))
    else None
  }

  /** The entity a stored comment hangs under: its post if it has one, else its article. */
  function Owner(c: CommentModel.Comment): (t: Option<Target>)
    ensures t.None? <==> !CommentModel.BelongsToContent(c)
    ensures t.Some? && t.value.OnPost? ==> c.post == Some(t.value.id)
    ensures t.Some? && t.value.OnArticle? ==> c.post.None? && c.article == Some(t.value.id)
  {
    if c.post.Some? then Some(OnPost(c.post.value))
    else if c.article.Some? then Some(OnArticle(c.article.value))
    else None
  }

  /** Whether `c` is a top-level comment of `t`: `{ post: id, parent: null }` (or `article`). */
  predicate IsTopLevelOf(c: CommentModel.Comment, t: Target)
  {
    c.parent.None? &&
    match t
    case OnPost(id) => c.post == Some(id)
    case OnArticle(id) => c.article == Some(id)
  }

  /** The comment `createComment` builds for target `t`: exactly one of `post`/`article` set, no parent. */
  function TopLevelComment(t: Target, content: Option<string>, author: Id,
                           files: seq<FileUpload.UploadedFile>): (c: CommentModel.Comment)
    ensures Owner(c) == Some(t) && IsTopLevelOf(c, t)
    ensures t.OnPost? ==> c.article.None?
    ensures c.attachments == Attachments.FromUploads(files, STORAGE) && !c.isAIGenerated
  {
    CommentModel.New(content, author,
                     if t.OnPost? then Some(t.id) else None,
                     if t.OnArticle? then Some(t.id) else None,
                     None, Attachments.FromUploads(files, STORAGE), false)
  }

  /** The reply `createReply` builds: parent set, and the parent's post (or else its article) inherited. */
  function ReplyTo(parent: CommentModel.Comment, parentId: Id, content: Option<string>, author: Id,
                   files: seq<FileUpload.UploadedFile>): (r: CommentModel.Comment)
    ensures r.parent == Some(parentId) && Owner(r) == Owner(parent)
    ensures parent.post.Some? ==> r.article.None?
    ensures r.attachments == Attachments.FromUploads(files, STORAGE) && !r.isAIGenerated
  {
    CommentModel.New(content, author,
                     parent.post,
                     if parent.post.None? then parent.article else None,
                     Some(parentId), Attachments.FromUploads(files, STORAGE), false)
  }

  /** The soft-deleted form of a comment: flagged, tombstone text, no attachments. */
  function Tombstone(c: CommentModel.Comment): (d: CommentModel.Comment)
    ensures d.isDeleted && d.content == CommentModel.DELETED_TEXT && d.attachments == []
    ensures d.post == c.post && d.article == c.article && d.parent == c.parent
    ensures d.author == c.author && d.likes == c.likes
    ensures CommentModel.Valid(c) ==> CommentModel.Valid(d)
  {
    c.(isDeleted := true, content := CommentModel.DELETED_TEXT, attachments := [])
  }

  // ------------------------------------------------------------ handlers

  /** `createComment`. */
  method CreateComment(db: Db, userId: Id, content: Option<string>, postId: Option<Id>, articleId: Option<Id>,
                       files: seq<FileUpload.UploadedFile>, newId: Id) returns (status: int)
    requires db.Valid() && newId !in db.comments
    requires |files| <= Attachments.MAX_COMMENT_ATTACHMENTS
    modifies db
    ensures db.Valid()
    ensures TargetOf(postId, articleId).None? ==> status == BAD_REQUEST && unchanged(db)
    ensures TargetOf(postId, articleId).Some? && !old(db.Has(TargetOf(postId, articleId).value)) ==>
      status == NOT_FOUND && unchanged(db)
    ensures TargetOf(postId, articleId).Some? && old(db.Has(TargetOf(postId, articleId).value)) ==>
      var t := TargetOf(postId, articleId).value;
      var c := TopLevelComment(t, content, userId, files);
      if !CommentModel.Valid(c) then status == BAD_REQUEST && unchanged(db)
      else
        status == CREATED &&
        db.comments == old(db.comments)[newId := c] && db.commentLog == old(db.commentLog) + [newId] &&
        db.Has(t) && db.CommentsOf(t) == old(db.CommentsOf(t)) + [newId] &&
        db.posts == PostComments(old(db.posts), t, s => s + [newId]) &&
        db.articles == ArticleComments(old(db.articles), t, s => s + [newId]) &&
        db.users == old(db.users) && db.disk == old(db.disk)
  {
    var target := TargetOf(postId, articleId);
    if target.None? {
      return BAD_REQUEST;
    }
    var t := target.value;
    if !db.Has(t) {
      return NOT_FOUND;
    }
    var c := TopLevelComment(t, content, userId, files);
    var v := CommentModel.Validate(c);
    if v != Passed {
      return ErrorHandler.ValidationStatus(v);
    }
    db.InsertComment(newId, c);
    db.PushComment(t, newId);
    status := CREATED;
  }

  /** `createReply`: the reply is stored even when the inherited target no longer
    * exists; its id is pushed to the target's list only when the target exists. */
  method CreateReply(db: Db, userId: Id, content: Option<string>, commentId: Id,
                     files: seq<FileUpload.UploadedFile>, newId: Id) returns (status: int)
    requires db.Valid() && newId !in db.comments
    requires |files| <= Attachments.MAX_COMMENT_ATTACHMENTS
    modifies db
    ensures db.Valid()
    ensures commentId !in old(db.comments) ==> status == NOT_FOUND && unchanged(db)
    ensures commentId in old(db.comments) ==>
      var parent := old(db.comments)[commentId];
      var r := ReplyTo(parent, commentId, content, userId, files);
      var t := Owner(parent).value;
      if !CommentModel.Valid(r) then status == BAD_REQUEST && unchanged(db)
      else
        status == CREATED &&
        db.comments == old(db.comments)[newId := r] && db.commentLog == old(db.commentLog) + [newId] &&
        (old(db.Has(t)) ==> db.Has(t) && db.CommentsOf(t) == old(db.CommentsOf(t)) + [newId]) &&
        db.posts == PostComments(old(db.posts), t, s => s + [newId]) &&
        db.articles == ArticleComments(old(db.articles), t, s => s + [newId]) &&
        db.users == old(db.users) && db.disk == old(db.disk)
  {
    if commentId !in db.comments {
      return NOT_FOUND;
    }
    var parent := db.comments[commentId];
    var r := ReplyTo(parent, commentId, content, userId, files);
    var v := CommentModel.Validate(r);
    if v != Passed {
      return ErrorHandler.ValidationStatus(v);
    }
    db.AddComment(Owner(parent).value, newId, r);
    status := CREATED;
  }

  /** `updateComment`: the content is replaced (through the trim setter) and new
    * uploads are appended after the existing attachments, unless that would
    * exceed two attachments. */
  method UpdateComment(db: Db, id: Id, content: Option<string>, files: seq<FileUpload.UploadedFile>)
    returns (status: int)
    requires db.Valid()
    modifies db
    ensures db.Valid()
    ensures id !in old(db.comments) ==> status == NOT_FOUND && unchanged(db)
    ensures id in old(db.comments) ==>
      var c := old(db.comments)[id];
      var u := c.(content := CommentModel.TrimmedContent(content),
                  attachments := c.attachments + Attachments.FromUploads(files, STORAGE));
      if |files| > 0 && |c.attachments| + |files| > Attachments.MAX_COMMENT_ATTACHMENTS then
        status == BAD_REQUEST && unchanged(db)
      else if !CommentModel.Valid(u) then status == BAD_REQUEST && unchanged(db)
      else
        status == OK && db.comments == old(db.comments)[id := u] &&
        db.posts == old(db.posts) && db.articles == old(db.articles) && db.users == old(db.users) &&
        db.commentLog == old(db.commentLog) && db.disk == old(db.disk)
  {
    if id !in db.comments {
      return NOT_FOUND;
    }
    var c := db.comments[id];
    var u := c.(content := CommentModel.TrimmedContent(content));
    if |files| > 0 {
      if |u.attachments| + |files| > Attachments.MAX_COMMENT_ATTACHMENTS {
        return BAD_REQUEST;
      }
      u := u.(attachments := u.attachments + Attachments.FromUploads(files, STORAGE));
    }
    assert files == [] ==> u.attachments == c.attachments + Attachments.FromUploads(files, STORAGE);
    var v := CommentModel.Validate(u);
    if v != Passed {
      return ErrorHandler.ValidationStatus(v);
    }
    db.SaveComment(id, u);
    status := OK;
  }

  /** `deleteComment`: best-effort unlink of every attachment file, then the
    * soft delete (the row stays), then the id leaves its owner's `comments`. */
  method DeleteComment(db: Db, id: Id, ioFail: set<string>) returns (status: int)
    requires db.Valid()
    modifies db
    ensures db.Valid()
    ensures id !in old(db.comments) ==> status == NOT_FOUND && unchanged(db)
    ensures id in old(db.comments) ==>
      var c := old(db.comments)[id];
      var t := Owner(c).value;
      status == OK &&
      db.comments == old(db.comments)[id := Tombstone(c)] && db.commentLog == old(db.commentLog) &&
      db.disk == old(db.disk) - (set p | p in Attachments.StoredFiles(STORAGE, c.attachments) && p !in ioFail) &&
      (old(db.Has(t)) ==> db.Has(t) && db.CommentsOf(t) == Lists.RemoveAll(old(db.CommentsOf(t)), id)) &&
      db.posts == PostComments(old(db.posts), t, s => Lists.RemoveAll(s, id)) &&
      db.articles == ArticleComments(old(db.articles), t, s => Lists.RemoveAll(s, id)) &&
      db.users == old(db.users)
  {
    if id !in db.comments {
      return NOT_FOUND;
    }
    var c := db.comments[id];
    db.UnlinkAll(Attachments.StoredFiles(STORAGE, c.attachments), ioFail);
    db.SaveComment(id, Tombstone(c));
    db.RemoveComment(Owner(c).value, id);
    status := OK;
  }

  /** `toggleLike` on a comment: `includes` then `filter` or `push`. */
  method ToggleLike(db: Db, id: Id, userId: Id) returns (status: int)
    requires db.Valid()
    modifies db
    ensures db.Valid()
    ensures id !in old(db.comments) ==> status == NOT_FOUND && unchanged(db)
    ensures id in old(db.comments) ==>
      var c := old(db.comments)[id];
      status == OK && db.comments == old(db.comments)[id := c.(likes := Lists.Toggle(c.likes, userId))] &&
      db.posts == old(db.posts) && db.articles == old(db.articles) && db.users == old(db.users) &&
      db.commentLog == old(db.commentLog) && db.disk == old(db.disk)
  {
    if id !in db.comments {
      return NOT_FOUND;
    }
    var c := db.comments[id];
    db.SaveComment(id, c.(likes := Lists.Toggle(c.likes, userId)));
    status := OK;
  }

  /** `removeAttachment`: the first attachment with that file name is spliced out
    * after a best-effort unlink of `path.join('uploads/comment-attachments', filename)`,
    * the normalised path. */
  method RemoveAttachment(db: Db, id: Id, filename: string, ioFail: set<string>) returns (status: int)
    requires db.Valid()
    modifies db
    ensures db.Valid()
    ensures id !in old(db.comments) ==> status == NOT_FOUND && unchanged(db)
    ensures id in old(db.comments) ==>
      var c := old(db.comments)[id];
      var i := Attachments.FindIndex(c.attachments, filename);
      var path := Attachments.JoinedPath(STORAGE, filename);
      if i == -1 then status == NOT_FOUND && unchanged(db)
      else
        status == OK &&
        db.comments == old(db.comments)[id := c.(attachments := Lists.RemoveAt(c.attachments, i))] &&
        db.disk == (if path in ioFail then old(db.disk) else old(db.disk) - {path}) &&
        db.posts == old(db.posts) && db.articles == old(db.articles) && db.users == old(db.users) &&
        db.commentLog == old(db.commentLog)
  {
    if id !in db.comments {
      return NOT_FOUND;
    }
    var c := db.comments[id];
    var i := Attachments.FindIndex(c.attachments, filename);
    if i == -1 {
      return NOT_FOUND;
    }
    db.Unlink(Attachments.JoinedPath(STORAGE, filename), ioFail);
    db.SaveComment(id, c.(attachments := Lists.RemoveAt(c.attachments, i)));
    status := OK;
  }

  // ------------------------------------------------------------- listing

  /** The top-level comments of `t`, oldest first: `find({ post: id, parent: null }).sort('createdAt')`. */
  function TopLevel(comments: map<Id, CommentModel.Comment>, log: seq<Id>, t: Target): (r: seq<Id>)
    ensures forall id :: id in r ==> id in log && id in comments && IsTopLevelOf(comments[id], t)
    ensures forall id :: id in log && id in comments && IsTopLevelOf(comments[id], t) ==> id in r
    ensures |r| <= |log|
  {
    if log == [] then []
    else
      var rest := TopLevel(comments, log[1..], t);
      if log[0] in comments && IsTopLevelOf(comments[log[0]], t) then [log[0]] + rest else rest
  }

  /** The listing keeps creation order: an earlier entry was created earlier. */
  lemma {:induction false} TopLevelOldestFirst(comments: map<Id, CommentModel.Comment>, log: seq<Id>, t: Target)
    requires Lists.NoDuplicates(log)
    ensures var r := TopLevel(comments, log, t);
      Lists.NoDuplicates(r) &&
      forall i, j :: 0 <= i < j < |r| ==> Lists.IndexOf(log, r[i]) < Lists.IndexOf(log, r[j])
  {
    if log != [] {
      var rest := TopLevel(comments, log[1..], t);
      assert Lists.NoDuplicates(log[1..]);
      TopLevelOldestFirst(comments, log[1..], t);
      forall x | x in rest
        ensures log[0] != x && Lists.IndexOf(log, x) == Lists.IndexOf(log[1..], x) + 1
      {
        IndexOfTail(log, x);
      }
    }
  }

  lemma IndexOfTail(log: seq<Id>, x: Id)
    requires Lists.NoDuplicates(log) && log != [] && x in log[1..]
    ensures log[0] != x
    ensures Lists.IndexOf(log, x) == Lists.IndexOf(log[1..], x) + 1
  {
    assert log[0] != x by {
      var k := Lists.IndexOf(log[1..], x);
      assert log[1..][k] == log[k + 1];
    }
  }

  /** What a listing request ends in. */
  datatype Listing =
    | TargetMissing
    | SkipRejected
    | Page(ids: seq<Id>, replies: seq<seq<Id>>, totalPages: Option<int>, currentPage: int, totalResults: nat)

  /** The status a listing is answered with. */
  function ListingStatus(r: Listing): int
  {
    match r
    case TargetMissing => NOT_FOUND
    case SkipRejected => SERVER_ERROR
    case Page(_, _, _, _, _) => OK
  }

  /** The page of replies of each listed comment, in creation order. */
  function RepliesOf(comments: map<Id, CommentModel.Comment>, log: seq<Id>, ids: seq<Id>): (r: seq<seq<Id>>)
    ensures |r| == |ids|
    ensures forall k :: 0 <= k < |ids| ==> r[k] == CommentModel.Replies(comments, log, ids[k])
  {
    if ids == [] then [] else [CommentModel.Replies(comments, log, ids[0])] + RepliesOf(comments, log, ids[1..])
  }

  /** `getPostComments` / `getArticleComments` with `page` and `limit` already
    * parsed (defaults 1 and 20): 404 for a missing entity, a MongoDB error for
    * a negative skip, otherwise the window of top-level comments. */
  function ListComments(comments: map<Id, CommentModel.Comment>, log: seq<Id>, targetExists: bool, t: Target,
                        page: int, limit: int): (r: Listing)
    ensures !targetExists <==> r.TargetMissing?
    ensures r.SkipRejected? <==> targetExists && Paging.StartIndex(page, limit) < 0
    ensures r.Page? ==>
      var top := TopLevel(comments, log, t);
      var start := Paging.StartIndex(page, limit);
      start >= 0 && r.totalResults == |top| && r.currentPage == page &&
      r.totalPages == Paging.TotalPages(|top|, limit) &&
      |r.ids| == Paging.WindowSize(|top|, start, limit) && |r.replies| == |r.ids| &&
      (forall k :: 0 <= k < |r.ids| ==> r.ids[k] == top[start + k]) &&
      (forall k :: 0 <= k < |r.ids| ==>
        r.ids[k] in comments && IsTopLevelOf(comments[r.ids[k]], t) &&
        forall x :: x in r.replies[k] <==> x in log && x in comments && comments[x].parent == Some(r.ids[k]))
  {
    if !targetExists then TargetMissing
    else
      var start := Paging.StartIndex(page, limit);
      if start < 0 then SkipRejected
      else
        var top := TopLevel(comments, log, t);
        var ids := Paging.Window(top, start, limit);
        assert forall k :: 0 <= k < |ids| ==> ids[k] in top;
        Page(ids, RepliesOf(comments, log, ids), Paging.TotalPages(|top|, limit), page, |top|)
  }

  /** With the defaults, a thread's first page holds its first twenty top-level comments. */
  lemma DefaultFirstPage(comments: map<Id, CommentModel.Comment>, log: seq<Id>, t: Target)
    ensures var r := ListComments(comments, log, true, t, 1, 20);
      var top := TopLevel(comments, log, t);
      r.Page? && r.ids == top[..Paging.Min(20, |top|)]
  {
    var r := ListComments(comments, log, true, t, 1, 20);
    var top := TopLevel(comments, log, t);
    assert r.ids == top[..Paging.Min(20, |top|)];
  }
}
