/** The MongoDB collections the controllers read and write, as maps from id
  * to document, together with the upload directories as a set of stored
  * file paths. `commentLog` lists comment ids in creation order, which is the
  * order `sort('createdAt')` returns them in. */
module Database {
  import opened Common
  import Lists
  import CommentModel
  import PostModel
  import ArticleModel
  import UserModel

  /** The content entity a comment hangs under. */
  datatype Target = OnPost(id: Id) | OnArticle(id: Id)

  /** The creation log names each stored comment exactly once. */
  predicate LogMatches(comments: map<Id, CommentModel.Comment>, log: seq<Id>)
  {
    Lists.NoDuplicates(log) &&
    (forall k :: 0 <= k < |log| ==> log[k] in comments) &&
    (forall id :: id in comments ==> id in log)
  }

  /** The unique indexes on `username` and `email`. */
  predicate DistinctAccounts(users: map<Id, UserModel.User>)
  {
    forall a, b :: a in users && b in users && a != b ==>
      users[a].username != users[b].username && users[a].email != users[b].email
  }

  /** The posts after the target post's `comments` list (if the target is an existing post) goes through `f`. */
  function PostComments(posts: map<Id, PostModel.Post>, t: Target, f: seq<Id> -> seq<Id>): (r: map<Id, PostModel.Post>)
    ensures r.Keys == posts.Keys
    ensures forall id :: id in posts && !(t.OnPost? && t.id == id) ==> r[id] == posts[id]
  {
    if t.OnPost? && t.id in posts then posts[t.id := posts[t.id].(comments := f(posts[t.id].comments))] else posts
  }

  /** The articles after the target article's `comments` list (if the target is an existing article) goes through `f`. */
  function ArticleComments(articles: map<Id, ArticleModel.Article>, t: Target, f: seq<Id> -> seq<Id>): (r: map<Id, ArticleModel.Article>)
    ensures r.Keys == articles.Keys
    ensures forall id :: id in articles && !(t.OnArticle? && t.id == id) ==> r[id] == articles[id]
  {
    if t.OnArticle? && t.id in articles then articles[t.id := articles[t.id].(comments := f(articles[t.id].comments))] else articles
  }

  /** The comments `Comment.deleteMany({ post: postId })` leaves behind. */
  function CommentsNotOnPost(comments: map<Id, CommentModel.Comment>, postId: Id): (r: map<Id, CommentModel.Comment>)
    ensures forall id :: id in r <==> id in comments && comments[id].post != Some(postId)
    ensures forall id :: id in r ==> r[id] == comments[id]
  {
    map id | id in comments && comments[id].post != Some(postId) :: comments[id]
  }

  /** Replacing an account by one with the same username and email keeps the accounts distinct. */
  lemma SameAccountStaysDistinct(users: map<Id, UserModel.User>, id: Id, u: UserModel.User)
    requires DistinctAccounts(users) && id in users
    requires u.username == users[id].username && u.email == users[id].email
    ensures DistinctAccounts(users[id := u])
  {
  }

  /** The account with the given username, if there is one. */
  ghost function UserByName(users: map<Id, UserModel.User>, username: string): (r: Option<Id>)
    requires DistinctAccounts(users)
    ensures r.None? <==> forall u :: u in users ==> users[u].username != username
    ensures r.Some? ==> r.value in users && users[r.value].username == username
    ensures forall u :: u in users && users[u].username == username ==> r == Some(u)
  {
    if exists u :: u in users && users[u].username == username then
      var u :| u in users && users[u].username == username; Some(u)
    else None
  }

  /** The account with the given email, if there is one. */
  ghost function UserByEmail(users: map<Id, UserModel.User>, email: string): (r: Option<Id>)
    requires DistinctAccounts(users)
    ensures r.None? <==> forall u :: u in users ==> users[u].email != email
    ensures r.Some? ==> r.value in users && users[r.value].email == email
    ensures forall u :: u in users && users[u].email == email ==> r == Some(u)
  {
    if exists u :: u in users && users[u].email == email then
      var u :| u in users && users[u].email == email; Some(u)
    else None
  }

  /** Whether the account holds the given hashed reset token and it has not expired. */
  predicate ResetMatches(u: UserModel.User, hashedToken: string, now: int)
  {
    u.resetPasswordToken == Some(hashedToken) && u.resetPasswordExpire.Some? && u.resetPasswordExpire.value > now
  }

  class Db {
    var posts: map<Id, PostModel.Post>
    var articles: map<Id, ArticleModel.Article>
    var comments: map<Id, CommentModel.Comment>
    var commentLog: seq<Id>
    var users: map<Id, UserModel.User>
    var disk: set<string>

    /** Every stored document passes its schema's validation, the creation log
      * matches the comments, and no two accounts share a username or an email. */
    ghost predicate Valid()
      reads this
    {
      LogMatches(comments, commentLog) &&
      (forall id {:trigger PostModel.Valid(posts[id])} :: id in posts ==> PostModel.Valid(posts[id])) &&
      (forall id {:trigger ArticleModel.Valid(articles[id])} :: id in articles ==> ArticleModel.Valid(articles[id])) &&
      (forall id :: id in comments ==> CommentModel.Valid(comments[id])) &&
      (forall id {:trigger UserModel.Valid(users[id])} :: id in users ==> UserModel.Valid(users[id])) &&
      DistinctAccounts(users)
    }

    constructor ()
      ensures Valid()
      ensures posts == map[] && articles == map[] && comments == map[] && users == map[]
      ensures commentLog == [] && disk == {}
    {
      posts, articles, comments, users := map[], map[], map[], map[];
      commentLog, disk := [], {};
    }

    /** Whether the target entity exists. */
    predicate Has(t: Target)
      reads this
    {
      match t
      case OnPost(id) => id in posts
      case OnArticle(id) => id in articles
    }

    /** The target entity's `comments` list. */
    function CommentsOf(t: Target): seq<Id>
      reads this
      requires Has(t)
    {
      match t
      case OnPost(id) => posts[id].comments
      case OnArticle(id) => articles[id].comments
    }

    /** `target.comments.push(commentId); await target.save()`. */
    method PushComment(t: Target, commentId: Id)
      requires Valid() && Has(t)
      modifies this
      ensures Valid()
      ensures Has(t) && CommentsOf(t) == old(CommentsOf(t)) + [commentId]
      ensures posts == PostComments(old(posts), t, s => s + [commentId])
      ensures articles == ArticleComments(old(articles), t, s => s + [commentId])
      ensures comments == old(comments) && commentLog == old(commentLog) && users == old(users) && disk == old(disk)
    {
      match t
      case OnPost(id) =>
        var p := posts[id];
        assert PostModel.Valid(p);
        posts := posts[id := p.(comments := p.comments + [commentId])];
      case OnArticle(id) =>
        var a := articles[id];
        assert ArticleModel.Valid(a);
        articles := articles[id := a.(comments := a.comments + [commentId])];
    }

    /** `target.comments = target.comments.filter(id => id !== commentId); await target.save()`,
      * done only when the target exists. */
    method RemoveComment(t: Target, commentId: Id)
      requires Valid()
      modifies this
      ensures Valid()
      ensures old(Has(t)) ==> Has(t) && CommentsOf(t) == Lists.RemoveAll(old(CommentsOf(t)), commentId)
      ensures posts == PostComments(old(posts), t, s => Lists.RemoveAll(s, commentId))
      ensures articles == ArticleComments(old(articles), t, s => Lists.RemoveAll(s, commentId))
      ensures comments == old(comments) && commentLog == old(commentLog) && users == old(users) && disk == old(disk)
    {
      match t
      case OnPost(id) => RemovePostComment(id, commentId);
      case OnArticle(id) => RemoveArticleComment(id, commentId);
    }

    /** `RemoveComment` on a post. */
    method RemovePostComment(id: Id, commentId: Id)
      requires Valid()
      modifies this
      ensures Valid()
      ensures posts == PostComments(old(posts), OnPost(id), s => Lists.RemoveAll(s, commentId))
      ensures articles == old(articles) && comments == old(comments) && commentLog == old(commentLog)
      ensures users == old(users) && disk == old(disk)
    {
      if id in posts {
        var p := posts[id];
        var q := p.(comments := Lists.RemoveAll(p.comments, commentId));
        assert PostModel.Valid(q) by { assert PostModel.Valid(p); }
        posts := posts[id := q];
      }
    }

    /** `RemoveComment` on an article. */
    method RemoveArticleComment(id: Id, commentId: Id)
      requires Valid()
      modifies this
      ensures Valid()
      ensures articles == ArticleComments(old(articles), OnArticle(id), s => Lists.RemoveAll(s, commentId))
      ensures posts == old(posts) && comments == old(comments) && commentLog == old(commentLog)
      ensures users == old(users) && disk == old(disk)
    {
      if id in articles {
        var a := articles[id];
        var b := a.(comments := Lists.RemoveAll(a.comments, commentId));
        assert ArticleModel.Valid(b) by { assert ArticleModel.Valid(a); }
        articles := articles[id := b];
      }
    }

    /** Stores a newly created comment at the end of the creation order. */
    method InsertComment(commentId: Id, c: CommentModel.Comment)
      requires Valid() && commentId !in comments && CommentModel.Valid(c)
      modifies this
      ensures Valid()
      ensures comments == old(comments)[commentId := c] && commentLog == old(commentLog) + [commentId]
      ensures posts == old(posts) && articles == old(articles) && users == old(users) && disk == old(disk)
    {
      assert commentId !in commentLog;
      comments := comments[commentId := c];
      commentLog := commentLog + [commentId];
      assert LogMatches(comments, commentLog) by {
        forall i, j | 0 <= i < j < |commentLog| ensures commentLog[i] != commentLog[j] {
          if j < |commentLog| - 1 {
            assert commentLog[i] == old(commentLog)[i] && commentLog[j] == old(commentLog)[j];
          } else {
            assert commentLog[i] in old(commentLog);
          }
        }
      }
    }

    /** `Comment.create(c)` followed by a push of its id to the target's
      * `comments` when the target exists. */
    method AddComment(t: Target, commentId: Id, c: CommentModel.Comment)
      requires Valid() && commentId !in comments && CommentModel.Valid(c)
      modifies this
      ensures Valid()
      ensures comments == old(comments)[commentId := c] && commentLog == old(commentLog) + [commentId]
      ensures old(Has(t)) ==> Has(t) && CommentsOf(t) == old(CommentsOf(t)) + [commentId]
      ensures posts == PostComments(old(posts), t, s => s + [commentId])
      ensures articles == ArticleComments(old(articles), t, s => s + [commentId])
      ensures users == old(users) && disk == old(disk)
    {
      InsertComment(commentId, c);
      if Has(t) {
        PushComment(t, commentId);
      }
    }

    /** `comment.save()` of an existing comment that passes validation. */
    method SaveComment(id: Id, c: CommentModel.Comment)
      requires Valid() && id in comments && CommentModel.Valid(c)
      modifies this
      ensures Valid()
      ensures comments == old(comments)[id := c]
      ensures posts == old(posts) && articles == old(articles) && users == old(users)
      ensures commentLog == old(commentLog) && disk == old(disk)
    {
      comments := comments[id := c];
    }

    /** `post.save()` (or `Post.create`) of a post that passes validation. */
    method SavePost(id: Id, p: PostModel.Post)
      requires Valid() && PostModel.Valid(p)
      modifies this
      ensures Valid()
      ensures posts == old(posts)[id := p]
      ensures articles == old(articles) && comments == old(comments) && users == old(users)
      ensures commentLog == old(commentLog) && disk == old(disk)
    {
      posts := posts[id := p];
    }

    /** `article.save()` (or `Article.create`) of an article that passes validation. */
    method SaveArticle(id: Id, a: ArticleModel.Article)
      requires Valid() && ArticleModel.Valid(a)
      modifies this
      ensures Valid()
      ensures articles == old(articles)[id := a]
      ensures posts == old(posts) && comments == old(comments) && users == old(users)
      ensures commentLog == old(commentLog) && disk == old(disk)
    {
      articles := articles[id := a];
    }

    /** `Comment.deleteMany({ post: postId })` then `post.deleteOne()`: the post and
      * every comment on it, replies included, are gone; nothing else changes. */
    method DeletePost(postId: Id)
      requires Valid()
      modifies this
      ensures Valid()
      ensures posts == old(posts) - {postId}
      ensures comments == CommentsNotOnPost(old(comments), postId)
      ensures commentLog == Lists.Keep(old(commentLog), comments.Keys)
      ensures articles == old(articles) && users == old(users) && disk == old(disk)
    {
      comments := CommentsNotOnPost(comments, postId);
      Lists.KeepNoDuplicates(commentLog, comments.Keys);
      commentLog := Lists.Keep(commentLog, comments.Keys);
      posts := posts - {postId};
    }

    /** `user.save()` (or `User.create`) of a user that passes validation and
      * clashes with no other account's username or email. */
    method SaveUser(id: Id, u: UserModel.User)
      requires Valid() && UserModel.Valid(u) && DistinctAccounts(users[id := u])
      modifies this
      ensures Valid()
      ensures users == old(users)[id := u]
      ensures posts == old(posts) && articles == old(articles) && comments == old(comments)
      ensures commentLog == old(commentLog) && disk == old(disk)
    {
      users := users[id := u];
    }

    /** `user.save()` after only the saved-item lists changed. */
    method SaveSavedItems(id: Id, saved: UserModel.SavedItems)
      requires Valid() && id in users
      modifies this
      ensures Valid()
      ensures users == old(users)[id := old(users)[id].(savedItems := Some(saved))]
      ensures posts == old(posts) && articles == old(articles) && comments == old(comments)
      ensures commentLog == old(commentLog) && disk == old(disk)
    {
      var u := users[id].(savedItems := Some(saved));
      UserModel.ValidIgnoresSavedItems(users[id], Some(saved));
      SameAccountStaysDistinct(users, id, u);
      users := users[id := u];
    }

    /** `User.findByIdAndUpdate(id, { profileImage })`. */
    method SetProfileImage(id: Id, image: string)
      requires Valid() && id in users
      modifies this
      ensures Valid()
      ensures users == old(users)[id := old(users)[id].(profileImage := image)]
      ensures posts == old(posts) && articles == old(articles) && comments == old(comments)
      ensures commentLog == old(commentLog) && disk == old(disk)
    {
      var u := users[id].(profileImage := image);
      UserModel.ValidIgnoresBookkeeping(users[id], u);
      SameAccountStaysDistinct(users, id, u);
      users := users[id := u];
    }

    /** `user.deleteOne()`. */
    method DeleteUser(id: Id)
      requires Valid()
      modifies this
      ensures Valid()
      ensures users == old(users) - {id}
      ensures posts == old(posts) && articles == old(articles) && comments == old(comments)
      ensures commentLog == old(commentLog) && disk == old(disk)
    {
      users := users - {id};
    }

    /** `article.deleteOne()`: its comments stay. */
    method DeleteArticle(articleId: Id)
      requires Valid()
      modifies this
      ensures Valid()
      ensures articles == old(articles) - {articleId}
      ensures posts == old(posts) && comments == old(comments) && commentLog == old(commentLog)
      ensures users == old(users) && disk == old(disk)
    {
      articles := articles - {articleId};
    }

    /** `User.findOne({ username })`; the unique index leaves at most one candidate. */
    method FindUserByName(username: string) returns (id: Option<Id>)
      requires Valid()
      ensures id == UserByName(users, username)
    {
      if u :| u in users && users[u].username == username {
        id := Some(u);
      } else {
        id := None;
      }
    }

    /** `fs.unlink(path)` whose error is caught: the file goes unless the unlink
      * fails with an I/O error (`ioFail`); a missing file stays missing. */
    method Unlink(path: string, ioFail: set<string>)
      requires Valid()
      modifies this`disk
      ensures Valid()
      ensures disk == if path in ioFail then old(disk) else old(disk) - {path}
      ensures posts == old(posts) && articles == old(articles) && comments == old(comments)
      ensures commentLog == old(commentLog) && users == old(users)
    {
      if path !in ioFail {
        disk := disk - {path};
      }
    }

    /** `User.findOne({ email })`; the unique index leaves at most one candidate. */
    method FindUserByEmail(email: string) returns (id: Option<Id>)
      requires Valid()
      ensures id == UserByEmail(users, email)
    {
      if u :| u in users && users[u].email == email {
        id := Some(u);
      } else {
        id := None;
      }
    }

    /** `User.findOne({ resetPasswordToken, resetPasswordExpire: { $gt: now } })`:
      * some account holding that unexpired token, if any does. */
    method FindResetUser(hashedToken: string, now: int) returns (id: Option<Id>)
      ensures id.None? <==> forall u :: u in users ==> !ResetMatches(users[u], hashedToken, now)
      ensures id.Some? ==> id.value in users && ResetMatches(users[id.value], hashedToken, now)
    {
      if u :| u in users && ResetMatches(users[u], hashedToken, now) {
        id := Some(u);
      } else {
        id := None;
      }
    }

    /** A loop of best-effort unlinks: each failure is swallowed and the loop goes on. */
    method UnlinkAll(paths: seq<string>, ioFail: set<string>)
      requires Valid()
      modifies this`disk
      ensures Valid()
      ensures disk == old(disk) - (set p | p in paths && p !in ioFail)
      ensures posts == old(posts) && articles == old(articles) && comments == old(comments)
      ensures commentLog == old(commentLog) && users == old(users)
    {
      for i := 0 to |paths|
        invariant Valid()
        invariant disk == old(disk) - (set p | p in paths[..i] && p !in ioFail)
      {
        Unlink(paths[i], ioFail);
        assert paths[..i + 1] == paths[..i] + [paths[i]];
      }
      assert paths[..|paths|] == paths;
    }
  }
}
