# followUp, modelled in Dafny

followUp is a study community. Students post problems with attachments, and
other users comment on them. Posts can be marked solved, and an AI assistant
answers posts through the OpenAI chat API. A separate community board holds
articles with popular tags. Users save posts and articles, like them, and keep
a profile.

The server is Express with Mongoose. The client is React, with a zustand auth
store and a `ky` HTTP instance.

This project models the domain logic of both sides:

- **Server documents and database.** The post, article, comment and user
  documents, with their schema rules, defaults and virtuals. The database is a
  `Database.Db` object holding one map per collection plus the set of stored
  upload files.
- **Server controllers.** The comment, post, article, saved-item, AI, user and
  account controllers, as methods on that object. Each method says which
  status it answers and what the collections hold afterwards.
- **Uploads.** Safe stored names, the six disk storages, the MIME type filters
  and the size limits.
- **Middleware.** The authentication middleware (`protect`, `authorize`,
  `checkOwnership`) and the error middleware.
- **Paging.** The shared paging and sort arithmetic.
- **OpenAI client.** The prompt builders and the checks around the API call.
- **Client helpers.**
  - The auth store and the HTTP instance whose default header it changes.
  - The `useRequireAuth` redirect decision.
  - The problem filter of `useFilter`.
  - The sidebar's tag click.
  - `joinPath`.

External services are parameters of the operations that use them:

- the clock;
- random bytes;
- password hashing and checking;
- the SHA-256 digest of a reset token;
- JWT verification;
- the OpenAI HTTP call (`send`).

A file deletion is best-effort. It takes a set `ioFail` of paths whose unlink
fails. Those files stay and the operation goes on.

Shared helpers:

- `Common`: `Option`, `Result`, ids, status codes.
- `Lists`: toggle, remove-all, index-of.
- `Strings`: split, join, trim, containment, with their round-trip lemmas.

## Model

| member | source | states |
|---|---|---|
| CommentModel.Validate | server/models/Comment.js:185-191 | validation passes iff the comment references a post or an article and its content has 1 to 2000 characters; the hook fails, with its message, exactly when both references are absent, so both at once is accepted |
| CommentModel.NewCommentValidation | server/models/Comment.js:110-174 | a new comment is valid iff it references content and its trimmed content has 1 to 2000 characters; it starts with no likes, not deleted and top-level unless a parent is given |
| CommentModel.ToggleLikeCount | server/models/Comment.js:194-196 | `likeCount` is the length of `likes`, and a like toggle on duplicate-free likes moves it by exactly one |
| CommentModel.Replies | server/models/Comment.js:199-203 | the replies are exactly the listed comments whose parent is this comment |
| CommentController.TargetOf | server/controllers/commentController.js:18-31 | the post wins when both ids are given; neither id yields no target (400) |
| CommentController.TopLevelComment | server/controllers/commentController.js:43-62 | the created comment has exactly the target's reference set, no parent, and the uploads as attachments |
| CommentController.CreateComment | server/controllers/commentController.js:12-78 | no target is 400 and a missing target is 404, both with nothing written; otherwise the comment is stored and its id appended to the end of the target's `comments`, every other list unchanged |
| CommentController.ReplyTo | server/controllers/commentController.js:365-377 | the reply's parent is the comment, and it inherits the parent's post or else its article |
| CommentController.CreateReply | server/controllers/commentController.js:341-404 | a missing parent is 404; otherwise the reply is stored and its id appended to the owning post's or article's `comments` (when that still exists), never to the parent comment |
| CommentController.UpdateComment | server/controllers/commentController.js:113-163 | more than two attachments in total is 400 with nothing saved; otherwise the content is replaced and the new attachments follow the existing ones in order |
| CommentController.Tombstone | server/controllers/commentController.js:193-197 | a soft-deleted comment is flagged, carries the tombstone text and no attachments, and keeps its references, author and likes |
| CommentController.DeleteComment | server/controllers/commentController.js:168-222 | the attachment files are unlinked best-effort (failed unlinks leave their files), the row stays as a tombstone, and the id leaves the owner's `comments` |
| CommentController.ToggleLike | server/controllers/commentController.js:409-438 | an absent user id is appended, a present one removed with all its occurrences; nothing else changes |
| CommentController.RemoveAttachment | server/controllers/commentController.js:443-492 | an unknown file name is 404; otherwise exactly the first entry with that name is spliced out, the rest kept in order, whether or not the unlink of the `path.join`-normalised path succeeds |
| CommentController.TopLevel | server/controllers/commentController.js:241-251 | the listed ids are exactly the top-level comments of the entity |
| CommentController.TopLevelOldestFirst | server/controllers/commentController.js:251 | the top-level comments come oldest first, each once |
| CommentController.RepliesOf | server/controllers/commentController.js:258-264 | each listed comment carries exactly its replies |
| CommentController.ListComments | server/controllers/commentController.js:227-336 | a missing entity is 404; otherwise the page is the window of top-level comments starting at `(page-1)*limit`, `total` counts top-level comments only and `totalPages` is `ceil(total/limit)` |
| CommentController.DefaultFirstPage | server/controllers/commentController.js:228 | with the defaults page 1 and limit 20 the page holds the first twenty top-level comments |
| PostModel.Validate | server/models/Post.js:129-159 | validation passes iff title and content are present, the title has at most 100 characters, every category is one of the twelve and there are at most five tags |
| PostModel.NewPostDefaults | server/models/Post.js:129-214 | a new post has `viewCount` 0, `isSolved` false, no AI answer or time, no likes or comments, categories `['기타']` and no tags; it is valid iff its trimmed title has 1 to 100 characters and its content is non-empty |
| PostModel.PrimaryCategory | server/controllers/aiController.js:35-41 | the first category when there is a non-empty one, `'기타'` otherwise, and always one of the twelve for a valid post |
| PostModel.ToggleLikeCounts | server/models/Post.js:224-231 | `likeCount` is the length of `likes` and moves by exactly one under a like toggle, while `commentCount`, the length of `comments`, stays |
| ArticleModel.Validate | server/models/Article.js:120-149 | validation passes iff title and content are present, the title has at most 100 characters, the category is one of the five and there are at most five tags |
| ArticleModel.NewArticleDefaults | server/models/Article.js:120-191 | a new article has no views, likes or comments and category `'기타'`; it is valid iff its trimmed title has 1 to 100 characters, its content is non-empty and it has at most five tags |
| ArticleModel.ToggleLikeCounts | server/models/Article.js:200-208 | `likeCount` moves by exactly one under a like toggle and `commentCount` stays |
| PostController.StatusFilter | server/controllers/postController.js:55-59 | `solved` filters on `isSolved` true, `unsolved` on false, anything else adds no filter |
| PostController.StatusFilterRoundTrip | server/controllers/postController.js:55-59 | filtering by a flag's own status name selects exactly that flag |
| PostController.Viewed | server/controllers/postController.js:148-172 | the view count grows by exactly one; an answer and its time are added only when the post has none, generation is switched on and succeeds; nothing else changes |
| PostController.ViewedKeepsAnswer | server/controllers/postController.js:149 | an existing answer is never replaced |
| PostController.GetPost | server/controllers/postController.js:121-186 | a missing post is 404; otherwise the stored post is the viewed post, a failed generation being swallowed |
| PostController.ParseList | server/controllers/postController.js:196-203 | an array is kept, a string is split on `,` and trimmed, and a missing value fails |
| PostController.CreatePost | server/controllers/postController.js:191-303 | a failed parse (500) or validation (400) unlinks every upload best-effort and stores nothing; otherwise the post is stored and 201 is answered before the AI job, which is handed back only when switched on |
| PostController.AiComment | server/controllers/postController.js:260-268 | the job's comment is AI-generated, authored by the AI account, on the post, top-level, and valid iff its trimmed text has 1 to 2000 characters |
| PostController.RunAiCommentJob | server/controllers/postController.js:231-288 | a failed generation, a missing `ai-assistant` account or an invalid comment leaves the database unchanged; otherwise the comment is stored and its id pushed to the post |
| PostController.AddAttachments | server/controllers/postController.js:309-358 | no files is 400; more than three in total is 400 with the post unchanged; otherwise the new attachments follow the existing ones in order |
| PostController.RemoveAttachment | server/controllers/postController.js:363-411 | an unknown file name is 404; otherwise only the first entry with that name is removed, and the file unlinked is the `path.join`-normalised path of the name, which for an owner-written name with `..` can be another post's upload (`Attachments.JoinedParentStep`), whether or not the unlink succeeds |
| PostController.ApplyBodyKeepsProtected | server/controllers/postController.js:443-448 | copying the body never changes the author, likes, comments or view count |
| PostController.ApplyProtectedOnly | server/controllers/postController.js:445 | a body naming only protected keys leaves the post as it was |
| PostController.SingleKeyCasts | server/controllers/postController.js:443-448 | through Mongoose's casts the title, content and AI answer take any string, number or boolean (a number as its decimal text) and refuse arrays; categories and tags take anything but attachment objects, a scalar becoming a one-element list |
| PostController.AttachmentsOverwritten | server/controllers/postController.js:443-448 | a body naming `attachments` replaces the whole list with the given entries, and each entry's file name then designates the file `deletePost` unlinks in the post-attachment directory |
| PostController.UpdatePost | server/controllers/postController.js:438-456 | the post becomes the body applied key by key to it (every unprotected schema path, `attachments` and `aiResponseCreatedAt` included, through its cast), saved only when every cast and the validation pass (400 otherwise) |
| PostController.DeletePost | server/controllers/postController.js:462-496 | a missing post is 404; otherwise its files are unlinked best-effort, and the post and all its comments are deleted |
| PostController.ToggleLike | server/controllers/postController.js:501-530 | a missing post is 404; otherwise the user id's membership in `likes` flips and nothing else changes |
| PostController.ToggleStatus | server/controllers/postController.js:770-783 | `isSolved` is negated and nothing else changes |
| ArticleController.CreateTags | server/controllers/articleController.js:159-161 | an array of tags is kept, a non-empty string is split on `,` and trimmed, and a missing or empty value gives no tags |
| ArticleController.CreateArticle | server/controllers/articleController.js:154-201 | an article that fails validation is 400 with every upload unlinked best-effort and nothing stored; otherwise it is stored (201) with the parsed tags and the uploads as attachments |
| ArticleController.Edited | server/controllers/articleController.js:206-223 | only truthy fields overwrite, the title through its trim setter; a tags string is split and trimmed and an array is kept; no other field changes |
| ArticleController.EditNothing | server/controllers/articleController.js:212-223 | any request whose title, content and category are falsy and whose tags are missing or empty leaves the article as it was |
| ArticleController.UpdateArticle | server/controllers/articleController.js:206-231 | the article becomes the edited article when that validates (200), and is unchanged otherwise (400) |
| ArticleController.RecordedFiles | server/controllers/articleController.js:256-266 | one file per attachment: its recorded URL path without the leading `/` |
| ArticleController.RecordedFileIsStored | server/controllers/articleController.js:166 | the file recorded for an upload is the file the upload stored |
| ArticleController.DeleteArticle | server/controllers/articleController.js:237-289 | a missing article is 404; otherwise its files are unlinked best-effort and the article is deleted, its comments left in place |
| ArticleController.ToggleLike | server/controllers/articleController.js:294-323 | a missing article is 404; otherwise the user id's membership in `likes` flips and nothing else changes |
| ArticleController.AddAttachments | server/controllers/articleController.js:560-609 | no files is 400; more than three in total is 400 with the article unchanged; otherwise the new attachments follow the existing ones in order |
| ArticleController.RemoveAttachment | server/controllers/articleController.js:614-662 | an unknown file name is 404; otherwise only that entry is removed, whether or not the unlink of the `path.join`-normalised path succeeds |
| ArticleController.SortByCount | server/controllers/articleController.js:547 | the groups are reordered by descending count, none lost or added |
| ArticleController.PopularTagsSpec | server/controllers/articleController.js:537-553 | the result holds the first `min(n, 10)` groups, ordered by descending count, drawn from the groups |
| ArticleController.PopularTagsAreTop | server/controllers/articleController.js:547-548 | no group left out has a higher count than any group returned |
| UserModel.NewUserDefaults | server/models/User.js:99-169 | a new account gets the default profile image, major `'기타'` and, unless given, role `'user'`; it is valid iff the trimmed username has 3 to 20 characters, the email is present and matches the pattern, the nickname has 1 to 30 characters and the role is one of the three |
| UserModel.WithCollection | server/models/User.js:289 | `post` writes the posts list and any other type the articles list, leaving the other list alone |
| UserModel.ToggledItemsSpec | server/models/User.js:287-310 | an absent id is appended at the end; a present id loses exactly its first occurrence, the list becoming the part before it followed by the part after it; the other list is untouched |
| UserModel.ToggleFlips | server/models/User.js:297-309 | on duplicate-free lists the toggle flips whether the id is saved and keeps the list duplicate-free |
| UserModel.ToggleTwiceRestores | server/models/User.js:287-310 | toggling an unsaved item twice restores the saved items exactly |
| UserModel.ValidIgnoresBookkeeping | server/models/User.js:99-199 | validation depends only on the profile fields, not on the password hash, the reset token and expiry, the image or the saved lists |
| UserModel.UserDocument.ToggleSavedItem | server/models/User.js:287-310 | the call returns true iff the item was not saved before, and the document's saved items become the toggled lists |
| UserModel.UserDocument.IsItemSaved | server/models/User.js:313-324 | false without saved items; otherwise whether the chosen list holds the id; it reads the document and changes nothing |
| UserModel.CheckAfterToggle | server/models/User.js:287-324 | right after a toggle on duplicate-free lists, `isItemSaved` answers the opposite of before |
| SavedItemsController.ToggleMessage | server/controllers/savedItemsController.js:92-98 | the saved message is chosen iff the item is now saved, the unsaved one otherwise |
| SavedItemsController.ToggleSavedItem | server/controllers/savedItemsController.js:59-99 | a missing `itemId` or a type other than `post`/`article` is 400 before any lookup; a missing user or item is 404 with nothing toggled; otherwise the user's lists are toggled and `isSaved` and the message report the model's result |
| SavedItemsController.CheckSavedItem | server/controllers/savedItemsController.js:106-134 | the same input check and user lookup, then exactly whether the chosen list holds the id; nothing is written |
| SavedItemsController.CheckAgreesWithToggle | server/controllers/savedItemsController.js:92-134 | checking right after a successful toggle answers exactly what the toggle reported |
| SavedItemsController.GetSavedItems | server/controllers/savedItemsController.js:13-52 | an unknown user is answered as such; missing saved lists count as two empty lists; the listed posts and articles are exactly the saved ids that still exist |
| FileUpload.Extname | server/utils/fileUpload.js:29 | the extension is empty or starts with `.` and holds no `/` |
| FileUpload.BaseName | server/utils/fileUpload.js:32 | the base name followed by the extension is exactly the last path component |
| FileUpload.Sanitize | server/utils/fileUpload.js:33 | same length; every character outside ASCII letters, digits and Hangul syllables becomes `_`, the others stay |
| FileUpload.Hex | server/utils/fileUpload.js:31 | two lower-case hex digits per byte |
| FileUpload.SafeBaseIsSafe | server/utils/fileUpload.js:32-34 | the safe base has at most 50 characters, each a kept character or `_`, so no `/`, `\` or `.` |
| FileUpload.SafeFilenameShape | server/utils/fileUpload.js:28-36 | the stored name ends with the original extension verbatim, preceded by `_` and sixteen hex digits, and contains no `/` |
| FileUpload.SafeFilenameUnique | server/utils/fileUpload.js:31-35 | the same file in the same millisecond with different random bytes gets a different name |
| FileUpload.MaxFileSize | server/utils/fileUpload.js:139-175 | 2 MB for comment attachments, 5 MB for every other storage |
| FileUpload.FiltersNested | server/utils/fileUpload.js:105-136 | the image list has five types and the attachment list thirteen distinct ones; every storage accepts every image type and nothing outside the attachment list |
| FileUpload.Store | server/utils/fileUpload.js:39-175 | a rejected type gives the storage's filter message and an oversized file the size error; otherwise the file is stored in the storage's directory under the storage prefix followed by the safe name |
| FileUpload.StoredNameIsFlat | server/utils/fileUpload.js:45-100 | for a user id without `/`, the prefixed stored name has no `/`, so the file lies directly in its directory |
| Attachments.FromUpload | server/controllers/postController.js:341-347 | the attachment keeps the upload's name, original name, type and size, and its URL path without the leading `/` is the stored file's path |
| Attachments.FromUploads | server/controllers/postController.js:341-347 | one attachment per upload, in upload order |
| Attachments.FindIndex | server/controllers/postController.js:385 | -1 iff no entry has the name; otherwise the first entry with that name |
| Attachments.StoredFiles | server/controllers/postController.js:476-484 | one unlinked path per attachment, in order, built from the base name of the stored file name |
| Attachments.Resolve | server/controllers/postController.js:396 | `path.join`'s segment resolution leaves no empty or `.` segment, and `..` only in a leading run it cannot cancel |
| Attachments.ResolveCanonical | server/controllers/postController.js:396 | segments already in that normal form resolve to themselves |
| Attachments.ResolveIdempotent | server/controllers/postController.js:396 | resolving twice is resolving once |
| Attachments.ResolveCancels | server/controllers/postController.js:396 | a plain segment followed by `..` cancels out, whatever comes before |
| Attachments.JoinedPath | server/controllers/postController.js:396 | the joined storage path is never empty (`.` when everything cancels) |
| Attachments.JoinedPlainName | server/controllers/postController.js:396 | a name without `/`, `.` or `..`, as multer generates, is joined as the plain `uploads/<dir>/<name>` |
| Attachments.JoinedParentStep | server/controllers/postController.js:396 | `x/../A.pdf` is joined to the storage directory's `A.pdf` |
| Attachments.JoinedLeavesDirectory | server/controllers/postController.js:396 | `../A.pdf` is joined to `uploads/A.pdf`, outside the storage directory |
| OpenAI.SystemPrompt | server/utils/openai.js:94-113 | the base prompt and a space, followed by the category's text for a mapped category and by nothing for any other |
| OpenAI.CategoryPromptsCoverMajors | server/utils/openai.js:98-110 | exactly the eleven categories other than `기타` have a specific prompt |
| OpenAI.OtherCategoryPrompt | server/utils/openai.js:112 | the fallback category `기타` gets the base prompt with an empty category text |
| OpenAI.UserPromptEmbeds | server/utils/openai.js:123-134 | the user prompt contains the title, the category, the tags joined by `, ` and the content |
| OpenAI.Request | server/utils/openai.js:37-55 | the request carries the model `gpt-3.5-turbo`, the 500-token limit, the bearer key and the post the prompts are built from |
| OpenAI.Messages | server/utils/openai.js:29-45 | the messages are the system prompt (the base prompt, a space and the category's text) and then the user prompt, which contains the post's title and content |
| OpenAI.GenerateResponse | server/utils/openai.js:22-87 | a missing or placeholder key fails before any request; a reply without choices and a transport error fail; every failure carries the common prefix; success is the first choice's text |
| OpenAI.NoRequestWithoutKey | server/utils/openai.js:25-27 | without a usable key the outcome does not depend on the API |
| AuthMiddleware.TokenOf | server/middleware/auth.js:9-19 | a `Bearer` header wins and gives its second space-separated word; otherwise the cookie token |
| AuthMiddleware.BearerHeaderWins | server/middleware/auth.js:9-15 | a `Bearer <token>` header with a token free of spaces yields that token whatever the cookie holds |
| AuthMiddleware.Protect | server/middleware/auth.js:5-50 | no token is 401; a token that fails verification or names no account is 401; otherwise the request passes as the verified account |
| AuthMiddleware.Authorize | server/middleware/auth.js:53-71 | no user is 401, a role outside the list 403, otherwise the user passes |
| AuthMiddleware.OwnerOf | server/middleware/auth.js:99 | the author when present, the user field otherwise |
| AuthMiddleware.CheckOwnership | server/middleware/auth.js:75-134 | a missing resource is 404; an admin always passes; no owner is 400; an owner other than the caller is 403; otherwise the resource passes |
| AuthMiddleware.AuthorOverridesUser | server/middleware/auth.js:99 | when the author is set, the user field plays no part in the decision |
| ErrorHandler.Reply | server/middleware/errorHandler.js:2-45 | the reply is never a success and shows the stack only in development; a validation error is 400 with its validator messages, a token error 401, and any status is 400, 401, 404, 500 or the error's own |
| ErrorHandler.HandleError | server/middleware/errorHandler.js:2-45 | the sequence of reassignments ends in the reply the priority rules give |
| ErrorHandler.DuplicateAndCast | server/middleware/errorHandler.js:9-19 | a duplicate key names the first key and is 400, a cast error is 404 with the not-found message, and an unrecognised error without status is 500 |
| ErrorHandler.ValidationStatus | server/middleware/errorHandler.js:22-44 | a schema validation failure ends in 400 and a failed pre-validate hook in 500 |
| ErrorHandler.AsyncHandler | server/middleware/errorHandler.js:48-49 | a rejection, and only a rejection, is forwarded to `next` with its error |
| Paging.ParseInt | server/controllers/postController.js:14-15 | `NaN` exactly when, after leading blanks and an optional sign, no digit follows |
| Paging.ParseIntOr | server/controllers/postController.js:14-15 | a missing parameter, `NaN` and 0 give the default; any other parse is kept |
| Paging.Window | server/controllers/postController.js:71-73 | the `skip`/`limit` window: the documents from `skip` on, as many as the limit allows |
| Paging.TotalPages | server/controllers/postController.js:99 | undefined for a zero limit; otherwise the least page count covering `total` |
| Paging.LinksMatchPages | server/controllers/postController.js:83-99 | for page ≥ 1 and a positive limit, `next` appears iff the page is before the last, `prev` iff it is after the first |
| Paging.Paginate | server/controllers/postController.js:12-101 | a negative skip fails; otherwise the count is the window size and `next`/`prev` exist iff `startIndex + count < total` / `startIndex > 0`, pointing at the neighbouring pages, with `totalPages = ceil(total/limit)` |
| Paging.PaginateLinks | server/controllers/articleController.js:13-16 | the links agree with the page count for a positive page and limit |
| Paging.PaginateDefaults | server/controllers/postController.js:14-16 | without parameters the first page, with no `prev` and a `next` iff more documents matched than the default limit |
| Paging.SortOption | server/controllers/postController.js:22-27 | `popular` becomes `-likeCount`, `comments` `-commentCount`, a missing or empty key `-createdAt`; any other passes through |
| Paging.SortOptionIdempotent | server/controllers/postController.js:22-27 | a rewritten key is passed through unchanged |
| AiController.GenerateAiResponse | server/controllers/aiController.js:14-52 | a missing post is 404 with nothing written; an existing answer is returned and nothing is generated; otherwise a generated answer for the primary category is stored, and a failed generation writes nothing |
| AiController.DeleteAiResponse | server/controllers/aiController.js:59-85 | a missing post is 404; a caller neither author nor admin is 403 with the post unchanged; otherwise the answer is cleared |
| AiController.StoredAnswerIsFinal | server/controllers/aiController.js:25-32 | once an answer is stored, reading the post never replaces it |
| UserController.GetUser | server/controllers/userController.js:25-39 | an unknown id is 404, otherwise the stored account |
| UserController.RoleOrDefault | server/controllers/userController.js:55 | a missing or empty role gives `user`, any other is kept |
| UserController.CreatedRoleDefault | server/controllers/userController.js:55 | an account created without a role is a plain user |
| UserController.CreateUser | server/controllers/userController.js:46-62 | failed validation or a taken username or email is 400 with nothing written; otherwise the account is stored with its password hashed |
| UserController.StripUndefined | server/controllers/userController.js:81-83 | exactly the listed keys with undefined values are removed, every other entry kept as it was |
| UserController.StrippedSameUpdate | server/controllers/userController.js:73-90 | after stripping, every sent field is defined, and neither validation nor the written account changes |
| UserController.UpdatedStaysValid | server/controllers/userController.js:86-90 | a valid account stays valid when fields passing the update validators are written |
| UserController.UpdateUser | server/controllers/userController.js:69-103 | failed validators are 400, an unknown id 404, a taken username or email 400, all with nothing written; otherwise only the defined fields change |
| UserController.DeleteUser | server/controllers/userController.js:110-134 | an unknown id is 404, an admin account 400 and kept; otherwise only that account is removed |
| AuthController.Login | server/controllers/authController.js:28-62 | a missing email or password is 400 before any lookup; an unknown email and a wrong password get the same 401; otherwise the account signs in |
| AuthController.BuildDetails | server/controllers/authController.js:98-119 | nickname and email always, bio, major and website as given, and `socialLinks` only when sent, with only its defined sub-keys |
| AuthController.WithDetails | server/controllers/authController.js:121-124 | every given key is written and a sent `socialLinks` replaces the nested object; username, role, password, image and saved items stay |
| AuthController.NoDetailsNoChange | server/controllers/authController.js:98-124 | a request with no fields leaves the account unchanged |
| AuthController.UpdateDetails | server/controllers/authController.js:95-130 | failed validators or a taken email are 400 with nothing written; otherwise the account becomes the account with the details written |
| AuthController.UpdateProfileImage | server/controllers/authController.js:135-174 | no file is 400; otherwise a non-default previous image is unlinked best-effort and the account points at `/uploads/profile-images/<filename>` |
| AuthController.NextUpdateDeletesStoredImage | server/controllers/authController.js:148-161 | the image one update stores is the file the next update unlinks, unless its URL contains `default` |
| AuthController.DefaultNamedImageIsKept | server/controllers/authController.js:148 | an uploaded image whose name contains `default` is never unlinked by a later update |
| AuthController.UpdatePassword | server/controllers/authController.js:179-197 | a confirmation that differs is 400 with the password unchanged, as is an invalid new password; otherwise the new hash is stored |
| AuthController.Forgotten | server/controllers/authController.js:216-222 | the account holds the digest of the token and an expiry one hour from now; the profile and password stay |
| AuthController.PasswordReset | server/controllers/authController.js:257-259 | the new hash is stored and the token and expiry are cleared; the profile stays |
| AuthController.ForgotPassword | server/controllers/authController.js:202-231 | an unknown email is 404 with nothing written; otherwise the account becomes the forgotten account and the plain token is returned |
| AuthController.ResetPassword | server/controllers/authController.js:236-263 | an account holding the token's digest unexpired is found exactly when one exists; none is 400; an invalid password is 400 with the token kept; otherwise the found account is reset |
| AuthController.ResetTokenLifecycle | server/controllers/authController.js:216-259 | the token opens the account exactly while the clock is before the issue time plus one hour, and once used it opens nothing |
| KyInstance.PublicRoutes | client/src/lib/kyInstance.ts:4-9 | exactly the login, register, forgot-password and reset-password paths |
| KyInstance.IsPublicRoute | client/src/lib/kyInstance.ts:11-13 | holds iff some listed route is a substring of the url |
| KyInstance.GetAuthData | client/src/lib/kyInstance.ts:15-18 | the stored token when there is a non-empty one, `''` otherwise |
| KyInstance.HookAuthorization | client/src/lib/kyInstance.ts:25-32 | `Bearer <token>` iff the token is non-empty and the url is not public; otherwise the header is left alone |
| KyInstance.SentAuthorization | client/src/lib/kyInstance.ts:20-43 | the hook's header, when it sets one, overrides the instance's default header |
| KyInstance.Client.constructor | client/src/lib/kyInstance.ts:20-35 | the instance starts with the hook and no default header |
| KyInstance.Client.PushTokenToHeader | client/src/lib/kyInstance.ts:37-43 | the default header becomes `Bearer <token>` and the hook stays |
| KyInstance.Client.RemoveTokenFromHeader | client/src/lib/kyInstance.ts:45-50 | the new instance has neither a default header nor the hook |
| KyInstance.FreshInstanceSendsStoredToken | client/src/lib/kyInstance.ts:25-32 | on a fresh instance a request carries the stored token iff it is non-empty and the url is not public |
| KyInstance.PushedTokenReachesPublicRoutes | client/src/lib/kyInstance.ts:29-40 | a pushed token is sent to public routes too |
| KyInstance.RemovedInstanceSendsNothing | client/src/lib/kyInstance.ts:45-50 | after removal no request carries an `Authorization` header |
| AuthStore.PersistedTokenReadBack | client/src/store/useAuthStore.ts:68-74 | the request hook reads back exactly the persisted token, `''` in the initial state |
| AuthStore.Store.Persisted | client/src/store/useAuthStore.ts:70-74 | exactly the token, the user and the flag are persisted |
| AuthStore.Store.constructor | client/src/store/useAuthStore.ts:22-31 | the store starts with no token, no user and not authenticated |
| AuthStore.Store.SetToken | client/src/store/useAuthStore.ts:33-40 | the token is pushed to the header and stored, the flag becomes whether it is non-empty, the user stays |
| AuthStore.Store.SetUser | client/src/store/useAuthStore.ts:42-47 | the user is stored, the flag becomes whether there is both a user and a token, the token stays |
| AuthStore.Store.Login | client/src/store/useAuthStore.ts:49-56 | token and user are stored and the flag is set whatever the token |
| AuthStore.Store.Logout | client/src/store/useAuthStore.ts:58-61 | the header and the hook go and the store is back in its initial state |
| AuthStore.Store.ClearAuth | client/src/store/useAuthStore.ts:63-66 | the same transition as logout |
| AuthStore.LogoutForgetsToken | client/src/store/useAuthStore.ts:49-61 | after login and logout no request carries a header and storage yields no token |
| AuthStore.LoginSendsToken | client/src/store/useAuthStore.ts:49-56 | after a login with a non-empty token every request carries `Bearer <token>` |
| RequireAuth.RedirectTarget | client/src/hooks/useRequireAuth.ts:13 | `redirectTo` when given, the login route otherwise |
| RequireAuth.Decide | client/src/hooks/useRequireAuth.ts:17-26 | a signed-out visitor goes to the redirect target; a signed-in one goes home iff the self check is asked for with a non-empty `selfId` the user's id differs from, and stays otherwise |
| RequireAuth.UseRequireAuth | client/src/hooks/useRequireAuth.ts:12-29 | the flag and the user come back as read, with the decided navigation |
| RequireAuth.DefaultOptions | client/src/hooks/useRequireAuth.ts:13-21 | with no options a signed-out visitor goes to the login route and a signed-in one stays |
| RequireAuth.LoggedInSelfCheck | client/src/hooks/useRequireAuth.ts:23-25 | after login, the own page stays and anyone else's sends home |
| RequireAuth.SignedOutRedirects | client/src/hooks/useRequireAuth.ts:18-21 | signed out, every protected page redirects whatever the self check asks |
| UseFilter.Flip | client/src/query/_common/useFilter.ts:16-23 | the value's membership flips and every other value keeps its own |
| UseFilter.FlipTwice | client/src/query/_common/useFilter.ts:15-25 | flipping a value twice gives the set back |
| UseFilter.FlipCommutes | client/src/query/_common/useFilter.ts:15-37 | flips of two values commute |
| UseFilter.SingleCategory | client/src/query/_common/useFilter.ts:39-47 | `전체` gives the empty set, any other category the set of just that one |
| UseFilter.Filter.constructor | client/src/query/_common/useFilter.ts:11-13 | status `all`, no tags, no categories |
| UseFilter.Filter.SetStatus | client/src/query/_common/useFilter.ts:11 | the status changes and the selections stay |
| UseFilter.Filter.ToggleTag | client/src/query/_common/useFilter.ts:15-25 | the tag flips on a copy that replaces the set; status and categories stay |
| UseFilter.Filter.ToggleCategory | client/src/query/_common/useFilter.ts:27-37 | the category flips on a copy that replaces the set; status and tags stay |
| UseFilter.Filter.SetSingleCategory | client/src/query/_common/useFilter.ts:39-47 | the categories become the single-category selection; status and tags stay |
| UseFilter.ToggleTagTwice | client/src/query/_common/useFilter.ts:15-25 | toggling a tag twice restores the whole filter |
| SideSection.CurrentTags | client/src/page/CommunityPage/SideSection.tsx:20 | a missing parameter gives no tags; a present one a non-empty list that joins back to it |
| SideSection.NewTags | client/src/page/CommunityPage/SideSection.tsx:21 | a present tag leaves with all its occurrences, the rest in order; an absent one is appended |
| SideSection.SearchParams.Set | client/src/page/CommunityPage/SideSection.tsx:22-23 | the key is set to the value and every other entry stays |
| SideSection.SearchParams.OnTagClick | client/src/page/CommunityPage/SideSection.tsx:18-26 | `tags` becomes the comma-join of the toggled list and `page` becomes `1`; other parameters stay |
| SideSection.BlankTagAfterLastDeselected | client/src/page/CommunityPage/SideSection.tsx:20-22 | deselecting the last tag writes an empty parameter, and the next click reads it as a blank tag and writes `,b` |
| SideSection.IntendedTags | client/src/page/CommunityPage/SideSection.tsx:20 | a missing or empty parameter gives no tags; any other is read as written |
| SideSection.IntendedRoundTrip | client/src/page/CommunityPage/SideSection.tsx:20-22 | under the intended reading, every list of non-empty comma-free tags, the empty one included, reads back from its join |
| SideSection.ClickKeepsListable | client/src/page/CommunityPage/SideSection.tsx:21 | a click keeps the list free of empty and comma-carrying tags |
| SideSection.IntendedClick | client/src/page/CommunityPage/SideSection.tsx:18-23 | under the intended reading each click acts on the list the previous one wrote |
| Utils.PresentSegments | client/src/lib/utils.ts:10 | exactly the non-empty segments, each as often as in the input |
| Utils.PresentSegmentsAppend | client/src/lib/utils.ts:10 | the filter keeps order: filtering two lists one after the other is filtering their concatenation |
| Utils.PresentSegmentsKeepsPresent | client/src/lib/utils.ts:10 | segments that are all non-empty come back unchanged |
| Utils.JoinPath | client/src/lib/utils.ts:8-13 | relative: the non-empty segments joined by `/`; otherwise `/` followed by that join |
| Utils.JoinNothing | client/src/lib/utils.ts:8-13 | with no non-empty segment the path is `/`, or empty when relative |
| Utils.RelativeLeadingSlash | client/src/lib/utils.ts:9-11 | a relative path starts with `/` only when its first non-empty segment does |
| Utils.PathSplitsIntoSegments | client/src/lib/utils.ts:8-13 | segments without `/` come back, in order and without the empty ones, when the path is split on `/`; the absolute path is `/` plus the relative one |

## Left out

- **Routing and wiring.** Express routes, swagger, CORS, static serving and server start-up are wiring only and are not modelled. The route-level multer count caps (`.array('files', 3)` for posts and articles, `.array('files', 2)` for comments and replies) are the constants `Attachments.MAX_POST_ATTACHMENTS`, `Attachments.MAX_ARTICLE_ATTACHMENTS` and `Attachments.MAX_COMMENT_ATTACHMENTS`. They are preconditions of the create handlers, since multer rejects a larger upload before the handler runs, and bounds checked by the handlers that add attachments. `server/routes/*.js` is not part of this model.
- **Query semantics.** Mongoose queries are lookups and updates on the id-keyed maps of `Database.Db`. The model leaves out the details of `populate`, regular-expression search, `countDocuments`, `aggregate` and projections.
  - Comment listing order is a creation log (`commentLog`).
  - `ArticleController.PopularTags` takes the output of the `$unwind`/`$group` stages (one tag with its count per group) as its input. Only the `$sort` and `$limit` stages are modelled; the per-tag counting is not.
- **Non-core endpoints.** These handlers are not modelled, being outside the core:
  - posts: the search, user, category and statistics listings, and `uploadImage`;
  - articles: the search, user and category listings;
  - accounts: `register`, `logout`, `getMe`, `refreshToken`;
  - users: `getUsers`.
- **List filters.** `getPosts` and `getArticles` are modelled for their paging, sort and status filter only. The category, tag and search filters are query building and are left out.
- **Unparsable comment paging.** Comment listing takes `page` and `limit` already parsed. `parseInt` of a malformed value there (`NaN`) is not modelled.
- **Filesystem.** The filesystem is the set `disk` of stored paths.
  - Directory creation at start-up is I/O and is not modelled.
  - Multer's streaming of files to disk is not modelled.
  - The `fs.access` probe before a profile image is deleted is folded into the unlink's failure set.
  - Download routes are not modelled.
  - The source builds unlink paths from two roots: the working directory (`process.cwd()` in the post and article handlers and in the comment `removeAttachment`) and the server directory (`__dirname/..` in every multer storage destination, so in the upload paths the create handlers unlink on failure, and in `deleteComment` and `updateProfileImage`). The model has one root, so it assumes the server is started from its own directory.
  - The `removeAttachment` handlers unlink `path.join(root, 'uploads/<dir>', filename)`, modelled by `Attachments.JoinedPath` over paths relative to the root: a `..` that climbs above the root is kept as a leading `..` segment instead of being resolved against the root's own parent directories, and `\` is not a separator (POSIX paths).
- Attachments.StoredFiles: the base name is joined as plain text, without `path.join`'s normalisation. The two differ only for a base name of `.`, `..` or the empty name; there the source names a directory, which `unlink` cannot remove, and the model's text names no stored file, so neither removes anything.
- **External calls.**
  - The OpenAI HTTP request is the parameter `send`. It maps the request to the reply. The request's `temperature` (0.7), its endpoint URL and its `Content-Type` header are fixed constants the model leaves out; no property here is about them.
  - Console logging is left out.
  - JWT signing, bcrypt, `crypto.randomBytes`, SHA-256 and `Date.now` are parameters or uninterpreted functions.
  - `sendTokenResponse` (token and cookie issuing) is left out.
- **The AI comment job.** The job `createPost` starts in the background is modelled as a separate sequential step after the 201 answer. Interleavings with other requests are not modelled.
  - Neither AI path takes a lock between the `aiResponse` check and the store.
  - The on-create job never checks for an existing AI comment.
  - So nothing is claimed about exactly-once generation.
- **Ids.** Ids are strings compared with `==`. ObjectId generation is a fresh-id parameter, and ObjectId casting is not modelled.
- **Numbers.** Integers are unbounded, and JavaScript number overflow and floating point are not modelled.
  - `Math.ceil(total / limit)` is computed on integers.
  - A zero limit gives no page count (`None`) instead of JavaScript's `Infinity`/`NaN`.
- **String lengths.** Mongoose's `maxlength` and `minlength` check JavaScript's `String.length`, which counts UTF-16 code units; the model's `|s|` counts Unicode scalar values. A character outside the Basic Multilingual Plane (an emoji, say) counts two in the source and one here, so a post title of 60 emoji (120 code units) is rejected by the source but accepted by the model. The members whose contracts inherit this:
- CommentModel.Validate: the 2000-character content limit counts Unicode scalar values, not UTF-16 code units.
- CommentModel.NewCommentValidation: the 1-to-2000-character bound on the trimmed content counts Unicode scalar values, not UTF-16 code units.
- PostModel.Validate: the 100-character title limit counts Unicode scalar values, not UTF-16 code units.
- PostModel.NewPostDefaults: the 1-to-100-character bound on the trimmed title counts Unicode scalar values, not UTF-16 code units.
- ArticleModel.Validate: the 100-character title limit counts Unicode scalar values, not UTF-16 code units.
- ArticleModel.NewArticleDefaults: the 1-to-100-character bound on the trimmed title counts Unicode scalar values, not UTF-16 code units.
- UserModel.NewUserDefaults: the trimmed username (3 to 20) and nickname (at most 30) lengths count Unicode scalar values, not UTF-16 code units; so do the password (at least 6) and bio (at most 500) lengths that `UserModel.Valid` and `UserModel.PasswordValid` check.
- PostController.AiComment: the 1-to-2000-character bound on the trimmed answer counts Unicode scalar values, not UTF-16 code units.
- FileUpload.Sanitize: works on Unicode scalar values, whereas JavaScript's regular expression and `substring(0, 50)` work on UTF-16 code units. A character outside the Basic Multilingual Plane becomes one `_` here but two in the source, and the 50-character cut counts it once.
- **Validation.** Mongoose validation is the `Valid` predicate of each document module.
  - Validators written as regular expressions (the email pattern, the social-link checks) are stated as explicit predicates.
  - Type casting of request values is modelled only where a handler copies them onto a document unchecked (`updatePost`'s body values): the String, string-array, Boolean, attachment-array and Date casts of `PostController.AsText`, `AsList`, `AsFlag`, `AsAttachments` and `AsDate`.
- **`updatePost` body keys.** Every unprotected schema path of a post is written, `attachments` and `aiResponseCreatedAt` included. Body keys outside the schema paths are ignored, as Mongoose's strict mode ignores them.
- PostController.UpdatePost: body values are strings, integers, booleans, arrays of strings and arrays of complete attachment objects. JSON `null`, non-integer numbers, nested objects, arrays of numbers and attachment objects with missing fields are not modelled. The date parser for a non-empty date string is the parameter `parseDate`, and JavaScript's date range limit is not modelled. Writes to `_id`, the timestamps and the virtuals are not modelled either.
- **Malformed auth storage.** `JSON.parse` of a malformed `auth-storage` item throws in `getAuthData`. The model reads the item as already parsed and leaves that error out.
- **The API paths and routes files.** `client/src/lib/api/api-paths.ts` and the client routes file are not part of this model. Their paths are the fields of `KyInstance.ApiPaths` and `RequireAuth.Routes`.
- **React and zustand machinery.** The model leaves out:
  - React rendering, effect scheduling and state batching;
  - the zustand persistence timing (hydration);
  - the ky request object.
  - What is modelled is the state each action leaves and the header each request carries.
- **Non-core parts of `SideSection`.** The zod parse of the search parameters and the popular-tags query are library code and are not modelled. Only `onTagClick` is.

## Findings

| source | as written | input that shows it | evidently intended | confidence | as-written member | corrected member |
|---|---|---|---|---|---|---|
| client/src/page/CommunityPage/SideSection.tsx:20-22 | the current tags fall back to an empty list only when `tags` is missing, so an empty `tags` parameter splits into one blank tag. Deselecting the last tag writes exactly such an empty parameter. | select `a`, deselect `a` (`tags=`), then click `b`: the parameter becomes `,b`, which reads back as `['', 'b']` | an empty parameter means no tags, so the click writes `b` | not executed | SideSection.BlankTagAfterLastDeselected | SideSection.IntendedRoundTrip |
