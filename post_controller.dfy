/** The question-board handlers: list query options, reading a post (with
  * the optional AI answer and the view count), creating a post (with the
  * clean-up of its uploads and the AI comment job), attachments, field
  * updates, deletion, likes and the solved flag. The OpenAI endpoint is the
  * parameter `send`; the clock is `now`. */
module PostController {
  import opened Common
  import Lists
  import Strings
  import FileUpload
  import Attachments
  import PostModel
  import CommentModel
  import OpenAI
  import opened Database

  const STORAGE: FileUpload.Storage := FileUpload.PostAttachment
  const DEFAULT_LIMIT: int := 10
  const AI_USERNAME: string := "ai-assistant"

  // -------------------------------------------------------- list filter

  /** The `isSolved` condition of the query: `solved` and `unsolved` only. */
  function StatusFilter(status: Option<string>): (r: Option<bool>)
    ensures r.Some? <==> status == Some("solved") || status == Some("unsolved")
    ensures r == Some(true) <==> status == Some("solved")
  {
    if status == Some("solved") then Some(true)
    else if status == Some("unsolved") then Some(false)
    else None
  }

  /** The status name a board link uses for a solved flag. */
  function StatusName(solved: bool): string
  {
    if solved then "solved" else "unsolved"
  }

  /** Filtering by a flag's own name selects exactly that flag. */
  lemma StatusFilterRoundTrip(solved: bool)
    ensures StatusFilter(Some(StatusName(solved))) == Some(solved)
  {
    if !solved {
      assert StatusName(solved) != "solved";
    }
  }

  // ------------------------------------------------------------ getPost

  /** The answer `getPost` asks OpenAI for, about the post's content, title,
    * primary category and tags. */
  function GenerateFor(p: PostModel.Post, apiKey: Option<string>, send: OpenAI.ChatRequest -> OpenAI.ApiReply): Result<string>
  {
    OpenAI.GenerateResponse(apiKey, p.content, p.title, PostModel.PrimaryCategory(p.categories), p.tags, send)
  }

  /** The post `getPost` stores: an AI answer (with its time) only when it had
    * none, generation is switched on and succeeds, and one more view. */
  function Viewed(p: PostModel.Post, autoGenerate: bool, generated: Result<string>, now: nat): (q: PostModel.Post)
    ensures q.viewCount == p.viewCount + 1
    ensures Truthy(p.aiResponse) || !autoGenerate || generated.Err? ==>
      q.aiResponse == p.aiResponse && q.aiResponseCreatedAt == p.aiResponseCreatedAt
    ensures !Truthy(p.aiResponse) && autoGenerate && generated.Ok? ==>
      q.aiResponse == Some(generated.value) && q.aiResponseCreatedAt == Some(now)
    ensures q.(aiResponse := p.aiResponse, aiResponseCreatedAt := p.aiResponseCreatedAt, viewCount := p.viewCount) == p
  {
    var withAi := if !Truthy(p.aiResponse) && autoGenerate && generated.Ok?
                   then p.(aiResponse := Some(generated.value), aiResponseCreatedAt := Some(now))
                   else p;
    withAi.(viewCount := withAi.viewCount + 1)
  }

  /** An existing answer is never replaced, whatever the API would say. */
  lemma ViewedKeepsAnswer(p: PostModel.Post, autoGenerate: bool, generated: Result<string>, now: nat)
    requires Truthy(p.aiResponse)
    ensures Viewed(p, autoGenerate, generated, now) == p.(viewCount := p.viewCount + 1)
  {
  }

  /** `getPost`: both saves skip validation; a failed generation is swallowed. */
  method GetPost(db: Db, id: Id, autoGenerate: bool, apiKey: Option<string>,
                 send: OpenAI.ChatRequest -> OpenAI.ApiReply, now: nat) returns (status: int)
    requires db.Valid()
    modifies db
    ensures db.Valid()
    ensures id !in old(db.posts) ==> status == NOT_FOUND && unchanged(db)
    ensures id in old(db.posts) ==>
      var p := old(db.posts)[id];
      status == OK && db.posts == old(db.posts)[id := Viewed(p, autoGenerate, GenerateFor(p, apiKey, send), now)] &&
      db.articles == old(db.articles) && db.comments == old(db.comments) && db.users == old(db.users) &&
      db.commentLog == old(db.commentLog) && db.disk == old(db.disk)
  {
    if id !in db.posts {
      return NOT_FOUND;
    }
    var original := db.posts[id];
    assert PostModel.Valid(original);
    var p := original;
    var generated := GenerateFor(p, apiKey, send);
    if !Truthy(p.aiResponse) && autoGenerate {
      if generated.Ok? {
        p := p.(aiResponse := Some(generated.value), aiResponseCreatedAt := Some(now));
        db.SavePost(id, p);
      }
    }
    p := p.(viewCount := p.viewCount + 1);
    assert p == Viewed(original, autoGenerate, generated, now);
    db.SavePost(id, p);
    status := OK;
  }

  // --------------------------------------------------------- createPost

  /** `Array.isArray(v) ? v : v.split(',').map(s => s.trim())`; `None` when the
    * field is missing, where `split` throws a `TypeError`. */
  function ParseList(f: Field): (r: Option<seq<string>>)
    ensures r.None? <==> f.Missing?
    ensures f.Items? ==> r == Some(f.items)
    ensures f.Csv? ==> |r.value| >= 1 && forall k :: 0 <= k < |r.value| ==> ',' !in r.value[k]
  {
    match f
    case Missing => None
    case Csv(s) => Some(Strings.SplitTrim(s, ','))
    case Items(xs) => Some(xs)
  }

  /** What the background job is handed: the new post's id and its fields. */
  datatype AiJob = AiJob(postId: Id, content: string, title: string, categories: seq<string>, tags: seq<string>)

  /** `createPost`: parse the lists, build and validate the post. Any failure
    * unlinks every uploaded file (errors ignored) and is re-thrown: a missing
    * list ends in 500, a validation failure in 400. On success the 201 goes out
    * before the AI comment job, which is returned for the caller to run. */
  method CreatePost(db: Db, userId: Id, title: Option<string>, content: Option<string>,
                    categories: Field, tags: Field, files: seq<FileUpload.UploadedFile>,
                    newId: Id, aiComments: bool, ioFail: set<string>) returns (status: int, job: Option<AiJob>)
    requires db.Valid() && newId !in db.posts
    requires |files| <= Attachments.MAX_POST_ATTACHMENTS
    modifies db
    ensures db.Valid()
    ensures var cats := ParseList(categories);
      var tgs := ParseList(tags);
      var p := PostModel.New(title, content, userId, cats, tgs, Attachments.FromUploads(files, STORAGE));
      var cleaned := old(db.disk) - (set f | f in Attachments.UploadPaths(files) && f !in ioFail);
      if cats.None? || tgs.None? || !PostModel.Valid(p) then
        status == (if cats.None? || tgs.None? then SERVER_ERROR else BAD_REQUEST) && job.None? &&
        db.disk == cleaned && db.posts == old(db.posts) && db.articles == old(db.articles) &&
        db.comments == old(db.comments) && db.commentLog == old(db.commentLog) && db.users == old(db.users)
      else
        status == CREATED && db.posts == old(db.posts)[newId := p] &&
        job == (if aiComments then Some(AiJob(newId, p.content, p.title, p.categories, p.tags)) else None) &&
        db.articles == old(db.articles) && db.comments == old(db.comments) &&
        db.commentLog == old(db.commentLog) && db.users == old(db.users) && db.disk == old(db.disk)
  {
    var cats := ParseList(categories);
    var tgs := ParseList(tags);
    job := None;
    if cats.None? || tgs.None? {
      db.UnlinkAll(Attachments.UploadPaths(files), ioFail);
      return SERVER_ERROR, None;
    }
    var p := PostModel.New(title, content, userId, cats, tgs, Attachments.FromUploads(files, STORAGE));
    if !PostModel.Valid(p) {
      db.UnlinkAll(Attachments.UploadPaths(files), ioFail);
      return BAD_REQUEST, None;
    }
    db.SavePost(newId, p);
    status := CREATED;
    if aiComments {
      job := Some(AiJob(newId, p.content, p.title, p.categories, p.tags));
    }
  }

  /** The comment the job posts: authored by the AI account, on the post, flagged as AI-generated. */
  function AiComment(postId: Id, text: string, author: Id): (c: CommentModel.Comment)
    ensures c.isAIGenerated && c.author == author && c.post == Some(postId) && c.article.None? && c.parent.None?
    ensures CommentModel.Valid(c) <==> 0 < |Strings.Trim(text)| <= CommentModel.MAX_CONTENT
  {
    CommentModel.New(Some(text), author, Some(postId), None, None, [], true)
  }

  /** The AI comment job: generate, find the `ai-assistant` account, create the
    * comment and push its id to the post if the post still exists. Every
    * failure (generation, missing account, invalid comment) is logged and the
    * database is left as it was. */
  method RunAiCommentJob(db: Db, job: AiJob, apiKey: Option<string>,
                         send: OpenAI.ChatRequest -> OpenAI.ApiReply, newId: Id)
    requires db.Valid() && newId !in db.comments
    modifies db
    ensures db.Valid()
    ensures var g := OpenAI.GenerateResponse(apiKey, job.content, job.title,
                                             PostModel.PrimaryCategory(job.categories), job.tags, send);
      var aiUser := UserByName(old(db.users), AI_USERNAME);
      if g.Err? || aiUser.None? || !CommentModel.Valid(AiComment(job.postId, g.value, aiUser.value)) then
        unchanged(db)
      else
        var c := AiComment(job.postId, g.value, aiUser.value);
        db.comments == old(db.comments)[newId := c] && db.commentLog == old(db.commentLog) + [newId] &&
        db.posts == PostComments(old(db.posts), OnPost(job.postId), s => s + [newId]) &&
        db.articles == old(db.articles) && db.users == old(db.users) && db.disk == old(db.disk)
  {
    var g := OpenAI.GenerateResponse(apiKey, job.content, job.title,
                                     PostModel.PrimaryCategory(job.categories), job.tags, send);
    if g.Err? {
      return;
    }
    var aiUser := db.FindUserByName(AI_USERNAME);
    if aiUser.None? {
      return;
    }
    var c := AiComment(job.postId, g.value, aiUser.value);
    if !CommentModel.Valid(c) {
      return;
    }
    db.AddComment(OnPost(job.postId), newId, c);
  }

  // -------------------------------------------------------- attachments

  /** `addAttachments`: new uploads go after the existing ones, at most three in all. */
  method AddAttachments(db: Db, id: Id, files: seq<FileUpload.UploadedFile>) returns (status: int)
    requires db.Valid()
    modifies db
    ensures db.Valid()
    ensures id !in old(db.posts) ==> status == NOT_FOUND && unchanged(db)
    ensures id in old(db.posts) && files == [] ==> status == BAD_REQUEST && unchanged(db)
    ensures id in old(db.posts) && files != [] ==>
      var p := old(db.posts)[id];
      if |p.attachments| + |files| > Attachments.MAX_POST_ATTACHMENTS then status == BAD_REQUEST && unchanged(db)
      else
        status == OK &&
        db.posts == old(db.posts)[id := p.(attachments := p.attachments + Attachments.FromUploads(files, STORAGE))] &&
        db.articles == old(db.articles) && db.comments == old(db.comments) && db.users == old(db.users) &&
        db.commentLog == old(db.commentLog) && db.disk == old(db.disk)
  {
    if id !in db.posts {
      return NOT_FOUND;
    }
    if files == [] {
      return BAD_REQUEST;
    }
    var p := db.posts[id];
    assert PostModel.Valid(p);
    if |p.attachments| + |files| > Attachments.MAX_POST_ATTACHMENTS {
      return BAD_REQUEST;
    }
    db.SavePost(id, p.(attachments := p.attachments + Attachments.FromUploads(files, STORAGE)));
    status := OK;
  }

  /** `removeAttachment`: best-effort unlink of `path.join('uploads/post-attachments', filename)`,
    * the normalised path, then the first attachment with that name is spliced out. */
  method RemoveAttachment(db: Db, id: Id, filename: string, ioFail: set<string>) returns (status: int)
    requires db.Valid()
    modifies db
    ensures db.Valid()
    ensures id !in old(db.posts) ==> status == NOT_FOUND && unchanged(db)
    ensures id in old(db.posts) ==>
      var p := old(db.posts)[id];
      var i := Attachments.FindIndex(p.attachments, filename);
      var path := Attachments.JoinedPath(STORAGE, filename);
      if i == -1 then status == NOT_FOUND && unchanged(db)
      else
        status == OK &&
        db.posts == old(db.posts)[id := p.(attachments := Lists.RemoveAt(p.attachments, i))] &&
        db.disk == (if path in ioFail then old(db.disk) else old(db.disk) - {path}) &&
        db.articles == old(db.articles) && db.comments == old(db.comments) && db.users == old(db.users) &&
        db.commentLog == old(db.commentLog)
  {
    if id !in db.posts {
      return NOT_FOUND;
    }
    var p := db.posts[id];
    assert PostModel.Valid(p);
    var i := Attachments.FindIndex(p.attachments, filename);
    if i == -1 {
      return NOT_FOUND;
    }
    db.Unlink(Attachments.JoinedPath(STORAGE, filename), ioFail);
    db.SavePost(id, p.(attachments := Lists.RemoveAt(p.attachments, i)));
    status := OK;
  }

  // --------------------------------------------------------- updatePost

  /** A value of the request body, as `express.json` hands it over: a string,
    * an array of strings, a boolean, an integer, or an array of attachment objects. */
  datatype BodyValue =
    | Text(text: string)
    | List(items: seq<string>)
    | Flag(flag: bool)
    | Number(number: int)
    | Files(files: seq<Attachments.Attachment>)

  /** The keys `updatePost` refuses to copy. */
  const PROTECTED_KEYS: seq<string> := ["author", "likes", "comments", "viewCount"]

  /** `String(n)` for an integer: a minus sign for a negative value, then the
    * decimal digits without leading zeros. */
  function DecimalText(n: int): (r: string)
    ensures r != [] && (r[0] == '-' <==> n < 0)
  {
    if n < 0 then "-" + Digits(-n) else Digits(n)
  }

  /** The decimal digits of a natural number, most significant first. */
  function Digits(n: nat): (r: string)
    ensures r != [] && '0' <= r[0] <= '9'
  {
    if n < 10 then [(48 + n) as char] else Digits(n / 10) + [(48 + n % 10) as char]
  }

  /** Mongoose's String cast: a string as it is, a number or a boolean as its
    * text; an array is a cast error. */
  function AsText(v: BodyValue): Option<string>
  {
    match v
    case Text(s) => Some(s)
    case Number(n) => Some(DecimalText(n))
    case Flag(b) => Some(if b then "true" else "false")
    case List(_) => None
    case Files(_) => None
  }

  /** Mongoose's cast to an array of strings: an array of strings as it is, a
    * scalar wrapped into a one-element array; attachment objects are a cast error. */
  function AsList(v: BodyValue): Option<seq<string>>
  {
    match v
    case List(xs) => Some(xs)
    case Files(atts) => if atts == [] then Some([]) else None
    case _ => Some([AsText(v).value])
  }

  /** Mongoose's boolean cast. */
  function AsFlag(v: BodyValue): Option<bool>
  {
    match v
    case Flag(b) => Some(b)
    case Text(s) =>
      if s == "true" || s == "1" || s == "yes" then Some(true)
      else if s == "false" || s == "0" || s == "no" then Some(false)
      else None
    case Number(n) => if n == 1 then Some(true) else if n == 0 then Some(false) else None
    case _ => None
  }

  /** Mongoose's cast to an attachment array: the objects as given, and an
    * empty array; anything else is a cast error. */
  function AsAttachments(v: BodyValue): Option<seq<Attachments.Attachment>>
  {
    match v
    case Files(atts) => Some(atts)
    case List(xs) => if xs == [] then Some([]) else None
    case _ => None
  }

  /** Mongoose's Date cast: `''` clears the date, a number is a time in
    * milliseconds, another string goes through the date parser `parseDate`
    * (`None` for an invalid date), and a boolean or an array is a cast error. */
  function AsDate(v: BodyValue, parseDate: string -> Option<int>): Option<Option<int>>
  {
    match v
    case Text(s) => if s == "" then Some(None) else if parseDate(s).Some? then Some(parseDate(s)) else None
    case Number(n) => Some(Some(n))
    case _ => None
  }

  /** `post[key] = value` on the post's unprotected schema paths, each through
    * its cast (the title also through its trim setter); `None` records a cast
    * failure, which makes the next `save()` fail. Keys outside these paths
    * change nothing. */
  function Assign(p: PostModel.Post, key: string, v: BodyValue, parseDate: string -> Option<int>): Option<PostModel.Post>
  {
    if key == "title" then (if AsText(v).Some? then Some(p.(title := Strings.Trim(AsText(v).value))) else None)
    else if key == "content" then (if AsText(v).Some? then Some(p.(content := AsText(v).value)) else None)
    else if key == "categories" then (if AsList(v).Some? then Some(p.(categories := AsList(v).value)) else None)
    else if key == "tags" then (if AsList(v).Some? then Some(p.(tags := AsList(v).value)) else None)
    else if key == "attachments" then (if AsAttachments(v).Some? then Some(p.(attachments := AsAttachments(v).value)) else None)
    else if key == "isSolved" then (if AsFlag(v).Some? then Some(p.(isSolved := AsFlag(v).value)) else None)
    else if key == "aiResponse" then (if AsText(v).Some? then Some(p.(aiResponse := AsText(v))) else None)
    else if key == "aiResponseCreatedAt" then
      (if AsDate(v, parseDate).Some? then Some(p.(aiResponseCreatedAt := AsDate(v, parseDate).value)) else None)
    else Some(p)
  }

  /** The `forEach` over the body keys, in order, skipping the protected ones. */
  function ApplyBody(p: PostModel.Post, body: seq<(string, BodyValue)>, parseDate: string -> Option<int>): Option<PostModel.Post>
    decreases |body|
  {
    if body == [] then Some(p)
    else
      var prev := ApplyBody(p, body[..|body| - 1], parseDate);
      var (key, value) := body[|body| - 1];
      if prev.None? then None
      else if key in PROTECTED_KEYS then prev
      else Assign(prev.value, key, value, parseDate)
  }

  /** The string fields take any scalar, cast to its text, and refuse arrays;
    * the string-array fields take anything but attachment objects, a scalar
    * becoming a one-element list. */
  lemma SingleKeyCasts(p: PostModel.Post, key: string, v: BodyValue, parseDate: string -> Option<int>)
    ensures key == "title" || key == "content" || key == "aiResponse" ==>
      (ApplyBody(p, [(key, v)], parseDate).Some? <==> v.Text? || v.Number? || v.Flag?)
    ensures key == "title" && v.Number? ==>
      ApplyBody(p, [(key, v)], parseDate) == Some(p.(title := Strings.Trim(DecimalText(v.number))))
    ensures key == "categories" || key == "tags" ==>
      (ApplyBody(p, [(key, v)], parseDate).Some? <==> !v.Files? || v.files == [])
    ensures key == "tags" && v.Number? ==>
      ApplyBody(p, [(key, v)], parseDate) == Some(p.(tags := [DecimalText(v.number)]))
  {
    assert [(key, v)][..0] == [];
  }

  /** The owner can replace the attachment list with entries of their own
    * making; `deletePost` then unlinks, in the post-attachment directory, the
    * file each entry's name designates, whoever uploaded it. */
  lemma AttachmentsOverwritten(p: PostModel.Post, atts: seq<Attachments.Attachment>, parseDate: string -> Option<int>)
    ensures var r := ApplyBody(p, [("attachments", Files(atts))], parseDate);
      r == Some(p.(attachments := atts)) &&
      forall k :: 0 <= k < |atts| ==>
        Attachments.StoredFiles(STORAGE, r.value.attachments)[k] ==
        Attachments.DiskPath(STORAGE, FileUpload.LastComponent(atts[k].filename))
  {
    assert [("attachments", Files(atts))][..0] == [];
  }

  /** An update never touches the author, the likes, the comments or the view count. */
  lemma {:induction false} ApplyBodyKeepsProtected(p: PostModel.Post, body: seq<(string, BodyValue)>,
                                                   parseDate: string -> Option<int>)
    ensures var r := ApplyBody(p, body, parseDate);
      r.Some? ==> r.value.author == p.author && r.value.likes == p.likes &&
                  r.value.comments == p.comments && r.value.viewCount == p.viewCount
    decreases |body|
  {
    if body != [] {
      ApplyBodyKeepsProtected(p, body[..|body| - 1], parseDate);
    }
  }

  /** A body that only names protected keys leaves the post as it was. */
  lemma {:induction false} ApplyProtectedOnly(p: PostModel.Post, body: seq<(string, BodyValue)>,
                                              parseDate: string -> Option<int>)
    requires forall k :: 0 <= k < |body| ==> body[k].0 in PROTECTED_KEYS
    ensures ApplyBody(p, body, parseDate) == Some(p)
    decreases |body|
  {
    if body != [] {
      ApplyProtectedOnly(p, body[..|body| - 1], parseDate);
    }
  }

  /** `updatePost` on the post `checkOwnership` loaded: copy the body's
    * unprotected keys one by one, then `save()` validates. */
  method UpdatePost(db: Db, id: Id, body: seq<(string, BodyValue)>, parseDate: string -> Option<int>)
    returns (status: int)
    requires db.Valid() && id in db.posts
    modifies db
    ensures db.Valid()
    ensures var r := ApplyBody(old(db.posts)[id], body, parseDate);
      if r.None? || !PostModel.Valid(r.value) then status == BAD_REQUEST && unchanged(db)
      else
        status == OK && db.posts == old(db.posts)[id := r.value] &&
        db.articles == old(db.articles) && db.comments == old(db.comments) && db.users == old(db.users) &&
        db.commentLog == old(db.commentLog) && db.disk == old(db.disk)
  {
    var original := db.posts[id];
    var p := original;
    var castFailed := false;
    for i := 0 to |body|
      invariant ApplyBody(original, body[..i], parseDate) == if castFailed then None else Some(p)
    {
      assert body[..i + 1][..i] == body[..i];
      var (key, value) := body[i];
      if key !in PROTECTED_KEYS {
        var r := Assign(p, key, value, parseDate);
        if r.None? {
          castFailed := true;
        } else {
          p := r.value;
        }
      }
    }
    assert body[..|body|] == body;
    if castFailed || !PostModel.Valid(p) {
      return BAD_REQUEST;
    }
    db.SavePost(id, p);
    status := OK;
  }

  // --------------------------------------------------- delete and flags

  /** `deletePost`: best-effort unlink of every attachment, then the post and all
    * its comments go. */
  method DeletePost(db: Db, id: Id, ioFail: set<string>) returns (status: int)
    requires db.Valid()
    modifies db
    ensures db.Valid()
    ensures id !in old(db.posts) ==> status == NOT_FOUND && unchanged(db)
    ensures id in old(db.posts) ==>
      status == OK && db.posts == old(db.posts) - {id} &&
      db.comments == CommentsNotOnPost(old(db.comments), id) &&
      db.commentLog == Lists.Keep(old(db.commentLog), db.comments.Keys) &&
      db.disk == old(db.disk) - (set f | f in Attachments.StoredFiles(STORAGE, old(db.posts)[id].attachments) && f !in ioFail) &&
      db.articles == old(db.articles) && db.users == old(db.users)
  {
    if id !in db.posts {
      return NOT_FOUND;
    }
    db.UnlinkAll(Attachments.StoredFiles(STORAGE, db.posts[id].attachments), ioFail);
    db.DeletePost(id);
    status := OK;
  }

  /** `toggleLike` on a post. */
  method ToggleLike(db: Db, id: Id, userId: Id) returns (status: int)
    requires db.Valid()
    modifies db
    ensures db.Valid()
    ensures id !in old(db.posts) ==> status == NOT_FOUND && unchanged(db)
    ensures id in old(db.posts) ==>
      var p := old(db.posts)[id];
      status == OK && db.posts == old(db.posts)[id := p.(likes := Lists.Toggle(p.likes, userId))] &&
      db.articles == old(db.articles) && db.comments == old(db.comments) && db.users == old(db.users) &&
      db.commentLog == old(db.commentLog) && db.disk == old(db.disk)
  {
    if id !in db.posts {
      return NOT_FOUND;
    }
    var p := db.posts[id];
    assert PostModel.Valid(p);
    db.SavePost(id, p.(likes := Lists.Toggle(p.likes, userId)));
    status := OK;
  }

  /** `toggleStatus` on the post `checkOwnership` loaded. */
  method ToggleStatus(db: Db, id: Id) returns (status: int)
    requires db.Valid() && id in db.posts
    modifies db
    ensures db.Valid()
    ensures var p := old(db.posts)[id];
      status == OK && db.posts == old(db.posts)[id := p.(isSolved := !p.isSolved)] &&
      db.articles == old(db.articles) && db.comments == old(db.comments) && db.users == old(db.users) &&
      db.commentLog == old(db.commentLog) && db.disk == old(db.disk)
  {
    var p := db.posts[id];
    assert PostModel.Valid(p);
    db.SavePost(id, p.(isSolved := !p.isSolved));
    status := OK;
  }
}
