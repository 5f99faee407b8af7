/** The Article schema (a community board post): field constraints,
  * defaults and the `likeCount` / `commentCount` virtuals. */
module ArticleModel {
  import opened Common
  import Strings
  import Attachments
  import Lists

  datatype Article = Article(
    title: string,
    content: string,
    author: Id,
    category: string,
    tags: seq<string>,
    attachments: seq<Attachments.Attachment>,
    viewCount: int,
    likes: seq<Id>,
    comments: seq<Id>)

  const ARTICLE_CATEGORIES: seq<string> := ["질문", "정보", "모집", "후기", "기타"]
  const MAX_TITLE: nat := 100
  const MAX_TAGS: nat := 5

  /** A new article document: the title trimmed, `category` defaulting to `'기타'` and `tags` to `[]`. */
  function New(title: Option<string>, content: Option<string>, author: Id, category: Option<string>,
               tags: Option<seq<string>>, attachments: seq<Attachments.Attachment>): Article
  {
    Article(if title.Some? then Strings.Trim(title.value) else "",
            if content.Some? then content.value else "",
            author,
            if category.Some? then category.value else OTHER_CATEGORY,
            if tags.Some? then tags.value else [],
            attachments, 0, [], [])
  }

  /** The schema validators: title and content required, the title at most
    * 100 characters, the category from the five-value enum, at most five tags. */
  predicate Valid(a: Article)
  {
    a.title != "" && |a.title| <= MAX_TITLE && a.content != "" &&
    a.category in ARTICLE_CATEGORIES && |a.tags| <= MAX_TAGS
  }

  function Validate(a: Article): (v: Validation)
    ensures v == Passed <==> Valid(a)
    ensures !v.HookFailed?
  {
    if Valid(a) then Passed else ValidationFailed
  }

  /** A new article starts unviewed without likes or comments; when the
    * category is not given it is `'기타'`, which the enum accepts. */
  lemma NewArticleDefaults(title: Option<string>, content: Option<string>, author: Id,
                           tags: Option<seq<string>>, attachments: seq<Attachments.Attachment>)
    ensures var a := New(title, content, author, None, tags, attachments);
      a.viewCount == 0 && a.likes == [] && a.comments == [] && a.category == OTHER_CATEGORY &&
      (Valid(a) <==> title.Some? && 0 < |Strings.Trim(title.value)| <= MAX_TITLE &&
                     content.Some? && content.value != "" && (tags.None? || |tags.value| <= MAX_TAGS))
  {
  }

  /** The `likeCount` virtual. */
  function LikeCount(a: Article): nat
  {
    |a.likes|
  }

  /** The `commentCount` virtual. */
  function CommentCount(a: Article): nat
  {
    |a.comments|
  }

  /** A like toggle on duplicate-free likes moves `likeCount` by exactly one
    * and leaves `commentCount` alone. */
  lemma ToggleLikeCounts(a: Article, userId: Id)
    requires Lists.NoDuplicates(a.likes)
    ensures var t := a.(likes := Lists.Toggle(a.likes, userId));
      LikeCount(t) == (if userId in a.likes then LikeCount(a) - 1 else LikeCount(a) + 1) &&
      CommentCount(t) == CommentCount(a)
  {
    Lists.ToggleCount(a.likes, userId);
  }
}
