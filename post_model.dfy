/** The Post schema (a question in the academic board): field constraints,
  * defaults and the `likeCount` / `commentCount` virtuals. */
module PostModel {
  import opened Common
  import Strings
  import Attachments
  import Lists

  datatype Post = Post(
    title: string,
    content: string,
    author: Id,
    categories: seq<string>,
    tags: seq<string>,
    attachments: seq<Attachments.Attachment>,
    viewCount: int,
    likes: seq<Id>,
    comments: seq<Id>,
    isSolved: bool,
    aiResponse: Option<string>,
    aiResponseCreatedAt: Option<int>)

  const MAX_TITLE: nat := 100
  const MAX_TAGS: nat := 5

  /** A new post document: the title trimmed, `categories` defaulting to
    * `['기타']` and `tags` to `[]`, and the remaining defaults. */
  function New(title: Option<string>, content: Option<string>, author: Id,
               categories: Option<seq<string>>, tags: Option<seq<string>>,
               attachments: seq<Attachments.Attachment>): Post
  {
    Post(if title.Some? then Strings.Trim(title.value) else "",
         if content.Some? then content.value else "",
         author,
         if categories.Some? then categories.value else [OTHER_CATEGORY],
         if tags.Some? then tags.value else [],
         attachments, 0, [], [], false, None, None)
  }

  /** The schema validators: title and content required, the title at most
    * 100 characters, every category from the enum, at most five tags. */
  predicate Valid(p: Post)
  {
    p.title != "" && |p.title| <= MAX_TITLE && p.content != "" &&
    (forall c :: c in p.categories ==> c in MAJOR_CATEGORIES) &&
    |p.tags| <= MAX_TAGS
  }

  function Validate(p: Post): (v: Validation)
    ensures v == Passed <==> Valid(p)
    ensures !v.HookFailed?
  {
    if Valid(p) then Passed else ValidationFailed
  }

  /** A new post starts unviewed, unsolved, without likes, comments or AI
    * response; with the default categories and tags it is valid exactly
    * when its trimmed title has 1 to 100 characters and its content is non-empty. */
  lemma NewPostDefaults(title: Option<string>, content: Option<string>, author: Id,
                        attachments: seq<Attachments.Attachment>)
    ensures var p := New(title, content, author, None, None, attachments);
      p.viewCount == 0 && !p.isSolved && p.aiResponse.None? && p.aiResponseCreatedAt.None? &&
      p.likes == [] && p.comments == [] && p.categories == [OTHER_CATEGORY] && p.tags == [] &&
      (Valid(p) <==> title.Some? && 0 < |Strings.Trim(title.value)| <= MAX_TITLE &&
                     content.Some? && content.value != "")
  {
  }

  /** `post.categories[0] || '기타'`: the category the AI prompts are chosen by. */
  function PrimaryCategory(categories: seq<string>): (c: string)
    ensures categories != [] && categories[0] != "" ==> c == categories[0]
    ensures categories == [] || categories[0] == "" ==> c == OTHER_CATEGORY
    ensures (forall x :: x in categories ==> x in MAJOR_CATEGORIES) ==> c in MAJOR_CATEGORIES
  {
    if categories != [] && categories[0] != "" then categories[0] else OTHER_CATEGORY
  }

  /** The `likeCount` virtual. */
  function LikeCount(p: Post): nat
  {
    |p.likes|
  }

  /** The `commentCount` virtual. */
  function CommentCount(p: Post): nat
  {
    |p.comments|
  }

  /** A like toggle on duplicate-free likes moves `likeCount` by exactly one
    * and leaves `commentCount` alone. */
  lemma ToggleLikeCounts(p: Post, userId: Id)
    requires Lists.NoDuplicates(p.likes)
    ensures var t := p.(likes := Lists.Toggle(p.likes, userId));
      LikeCount(t) == (if userId in p.likes then LikeCount(p) - 1 else LikeCount(p) + 1) &&
      CommentCount(t) == CommentCount(p)
  {
    Lists.ToggleCount(p.likes, userId);
  }
}
