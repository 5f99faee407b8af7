/** The AI-answer handlers: generating a post's answer on demand (once the
  * post has one, it is returned as it is) and deleting it. The OpenAI
  * endpoint is the parameter `send`; the client's key is `apiKey`. */
module AiController {
  import opened Common
  import OpenAI
  import PostModel
  import PostController
  import opened Database

  const ADMIN_ROLE: string := "admin"

  /** `generateAIResponse`: 404 for a missing post; a post that already has an
    * answer gets it back with no request and no write; otherwise the answer
    * generated from the post is stored, and a failed generation ends in 500
    * with nothing stored. */
  method GenerateAiResponse(db: Db, postId: Id, apiKey: Option<string>,
                            send: OpenAI.ChatRequest -> OpenAI.ApiReply) returns (status: int, answer: Option<string>)
    requires db.Valid()
    modifies db
    ensures db.Valid()
    ensures postId !in old(db.posts) ==> status == NOT_FOUND && answer.None? && unchanged(db)
    ensures postId in old(db.posts) && Truthy(old(db.posts)[postId].aiResponse) ==>
      status == OK && answer == old(db.posts)[postId].aiResponse && unchanged(db)
    ensures postId in old(db.posts) && !Truthy(old(db.posts)[postId].aiResponse) ==>
      var p := old(db.posts)[postId];
      var generated := PostController.GenerateFor(p, apiKey, send);
      if generated.Err? then status == SERVER_ERROR && answer.None? && unchanged(db)
      else
        status == OK && answer == Some(generated.value) &&
        db.posts == old(db.posts)[postId := p.(aiResponse := Some(generated.value))] &&
        db.articles == old(db.articles) && db.comments == old(db.comments) && db.users == old(db.users) &&
        db.commentLog == old(db.commentLog) && db.disk == old(db.disk)
  {
    if postId !in db.posts {
      return NOT_FOUND, None;
    }
    var p := db.posts[postId];
    assert PostModel.Valid(p);
    if Truthy(p.aiResponse) {
      return OK, p.aiResponse;
    }
    var generated := PostController.GenerateFor(p, apiKey, send);
    if generated.Err? {
      return SERVER_ERROR, None;
    }
    db.SavePost(postId, p.(aiResponse := Some(generated.value)));
    status, answer := OK, Some(generated.value);
  }

  /** Whether the caller may delete the answer: the post's author or an admin. */
  predicate MayDelete(p: PostModel.Post, userId: Id, role: string)
  {
    p.author == userId || role == ADMIN_ROLE
  }

  /** `deleteAIResponse`: 404 for a missing post, 403 for a caller who is
    * neither its author nor an admin (the post unchanged); otherwise the
    * answer is cleared and nothing else about the post changes. */
  method DeleteAiResponse(db: Db, postId: Id, userId: Id, role: string) returns (status: int)
    requires db.Valid()
    modifies db
    ensures db.Valid()
    ensures postId !in old(db.posts) ==> status == NOT_FOUND && unchanged(db)
    ensures postId in old(db.posts) && !MayDelete(old(db.posts)[postId], userId, role) ==>
      status == FORBIDDEN && unchanged(db)
    ensures postId in old(db.posts) && MayDelete(old(db.posts)[postId], userId, role) ==>
      status == OK && db.posts == old(db.posts)[postId := old(db.posts)[postId].(aiResponse := None)] &&
      db.articles == old(db.articles) && db.comments == old(db.comments) && db.users == old(db.users) &&
      db.commentLog == old(db.commentLog) && db.disk == old(db.disk)
  {
    if postId !in db.posts {
      return NOT_FOUND;
    }
    var p := db.posts[postId];
    assert PostModel.Valid(p);
    if !MayDelete(p, userId, role) {
      return FORBIDDEN;
    }
    db.SavePost(postId, p.(aiResponse := None));
    status := OK;
  }

  /** Once a non-empty answer is stored, neither this handler nor `getPost`
    * replaces it, whatever a later request to the API would return. */
  lemma StoredAnswerIsFinal(p: PostModel.Post, text: string, autoGenerate: bool, later: Result<string>, now: nat)
    requires text != ""
    ensures Truthy(p.(aiResponse := Some(text)).aiResponse)
    ensures PostController.Viewed(p.(aiResponse := Some(text)), autoGenerate, later, now).aiResponse == Some(text)
  {
  }
}
