/** The Comment schema: field constraints and defaults, the rule that a
  * comment belongs to a post or an article, and the two virtuals. */
module CommentModel {
  import opened Common
  import Strings
  import Attachments
  import Lists

  datatype Comment = Comment(
    content: string,
    author: Id,
    post: Option<Id>,
    article: Option<Id>,
    parent: Option<Id>,
    attachments: seq<Attachments.Attachment>,
    likes: seq<Id>,
    isDeleted: bool,
    isAIGenerated: bool)

  const MAX_CONTENT: nat := 2000
  const DELETED_TEXT: string := "삭제된 댓글입니다"
  const OWNER_ERROR: string := "댓글은 post 또는 article에 속해야 합니다."

  /** The `trim` setter of `content`; a missing content is stored as the empty
    * string, which the `required` validator rejects just like `undefined`. */
  function TrimmedContent(content: Option<string>): string
  {
    if content.Some? then Strings.Trim(content.value) else ""
  }

  /** A new comment document: content trimmed, no likes, and `isDeleted` false. */
  function New(content: Option<string>, author: Id, post: Option<Id>, article: Option<Id>,
               parent: Option<Id>, attachments: seq<Attachments.Attachment>, isAIGenerated: bool): Comment
  {
    Comment(TrimmedContent(content), author, post, article, parent, attachments, [], false, isAIGenerated)
  }

  /** The `pre('validate')` hook: a comment must reference a post or an article. */
  predicate BelongsToContent(c: Comment)
  {
    c.post.Some? || c.article.Some?
  }

  /** The schema validators: content required and at most 2000 characters. */
  predicate FieldsValid(c: Comment)
  {
    c.content != "" && |c.content| <= MAX_CONTENT
  }

  /** `validate()`: the hook runs before the schema validators. */
  function Validate(c: Comment): (v: Validation)
    ensures v == Passed <==> BelongsToContent(c) && FieldsValid(c)
    ensures v.HookFailed? <==> c.post.None? && c.article.None?
    ensures v.HookFailed? ==> v.message == OWNER_ERROR
  {
    if !BelongsToContent(c) then HookFailed(OWNER_ERROR)
    else if !FieldsValid(c) then ValidationFailed
    else Passed
  }

  /** A stored comment passes validation. */
  predicate Valid(c: Comment)
  {
    Validate(c) == Passed
  }

  /** A new comment is accepted exactly when it references a post or an article (both at
    * once are accepted too) and its trimmed content has 1 to 2000 characters; it starts
    * with no likes, not deleted, and top-level unless a parent is given. */
  lemma NewCommentValidation(content: Option<string>, author: Id, post: Option<Id>, article: Option<Id>,
                             parent: Option<Id>, attachments: seq<Attachments.Attachment>, isAIGenerated: bool)
    ensures var c := New(content, author, post, article, parent, attachments, isAIGenerated);
      (Valid(c) <==> (post.Some? || article.Some?) && content.Some? &&
                     0 < |Strings.Trim(content.value)| <= MAX_CONTENT) &&
      c.likes == [] && !c.isDeleted && (parent.None? ==> c.parent.None?)
  {
  }

  /** The `likeCount` virtual. */
  function LikeCount(c: Comment): nat
  {
    |c.likes|
  }

  /** A like toggle on a comment whose likes hold each user once moves `likeCount` by one. */
  lemma ToggleLikeCount(c: Comment, userId: Id)
    requires Lists.NoDuplicates(c.likes)
    ensures var t := c.(likes := Lists.Toggle(c.likes, userId));
      LikeCount(t) == if userId in c.likes then LikeCount(c) - 1 else LikeCount(c) + 1
  {
    Lists.ToggleCount(c.likes, userId);
  }

  /** The `replies` virtual: the ids, among `ids`, of comments whose parent is `id`, in the order of `ids`. */
  function Replies(comments: map<Id, Comment>, ids: seq<Id>, id: Id): (r: seq<Id>)
    ensures forall x :: x in r ==> x in ids && x in comments && comments[x].parent == Some(id)
    ensures forall x :: x in ids && x in comments && comments[x].parent == Some(id) ==> x in r
  {
    if ids == [] then []
    else
      var rest := Replies(comments, ids[1..], id);
      if ids[0] in comments && comments[ids[0]].parent == Some(id) then [ids[0]] + rest else rest
  }
}
