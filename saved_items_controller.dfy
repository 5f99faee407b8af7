/** The saved-items handlers: toggling a post or article in the user's saved
  * lists, asking whether one is saved, and listing what is saved. */
module SavedItemsController {
  import opened Common
  import Lists
  import UserModel
  import opened Database

  const SAVED_MESSAGE: string := "항목이 저장되었습니다"
  const UNSAVED_MESSAGE: string := "항목 저장이 취소되었습니다"

  /** The input check both handlers run first: a truthy `itemId` and an
    * `itemType` of `post` or `article`. */
  predicate ValidRequest(itemId: Option<string>, itemType: Option<string>)
  {
    Truthy(itemId) && (itemType == Some("post") || itemType == Some("article"))
  }

  /** Whether the referenced post or article exists. */
  predicate ItemExists(posts: set<Id>, articles: set<Id>, itemId: Id, itemType: string)
  {
    if itemType == "post" then itemId in posts else itemId in articles
  }

  /** The response message chosen from the toggle's result. */
  function ToggleMessage(isSaved: bool): (m: string)
    ensures m == SAVED_MESSAGE <==> isSaved
    ensures m == UNSAVED_MESSAGE <==> !isSaved
  {
    if isSaved then SAVED_MESSAGE else UNSAVED_MESSAGE
  }

  /** `toggleSavedItem`: 400 on a bad request before any lookup, 404 for a
    * missing user or item with nothing toggled; otherwise the user document
    * toggles the item and the response reports its result. */
  method ToggleSavedItem(db: Db, userId: Id, itemId: Option<string>, itemType: Option<string>)
    returns (status: int, isSaved: bool, message: string)
    requires db.Valid()
    modifies db
    ensures db.Valid()
    ensures !ValidRequest(itemId, itemType) ==> status == BAD_REQUEST && unchanged(db)
    ensures ValidRequest(itemId, itemType) && userId !in old(db.users) ==> status == NOT_FOUND && unchanged(db)
    ensures ValidRequest(itemId, itemType) && userId in old(db.users) &&
            !ItemExists(old(db.posts).Keys, old(db.articles).Keys, itemId.value, itemType.value) ==>
      status == NOT_FOUND && unchanged(db)
    ensures ValidRequest(itemId, itemType) && userId in old(db.users) &&
            ItemExists(old(db.posts).Keys, old(db.articles).Keys, itemId.value, itemType.value) ==>
      var u := old(db.users)[userId];
      status == OK &&
      isSaved == !UserModel.IsSaved(u, itemId.value, itemType.value) &&
      message == ToggleMessage(isSaved) &&
      db.users == old(db.users)[userId := u.(savedItems := Some(UserModel.ToggledItems(u.savedItems, itemId.value, itemType.value)))] &&
      db.posts == old(db.posts) && db.articles == old(db.articles) && db.comments == old(db.comments) &&
      db.commentLog == old(db.commentLog) && db.disk == old(db.disk)
  {
    isSaved, message := false, "";
    if !ValidRequest(itemId, itemType) {
      return BAD_REQUEST, isSaved, message;
    }
    if userId !in db.users {
      return NOT_FOUND, isSaved, message;
    }
    if !ItemExists(db.posts.Keys, db.articles.Keys, itemId.value, itemType.value) {
      return NOT_FOUND, isSaved, message;
    }
    var doc := new UserModel.UserDocument(db.users[userId]);
    isSaved := doc.ToggleSavedItem(itemId.value, itemType.value);
    db.SaveSavedItems(userId, doc.user.savedItems.value);
    status, message := OK, ToggleMessage(isSaved);
  }

  /** The outcome of `checkSavedItem`. */
  datatype Check = Rejected | UserMissing | Answer(isSaved: bool)

  /** `checkSavedItem`: the same input check, a user lookup, then `isItemSaved`. */
  function CheckSavedItem(users: map<Id, UserModel.User>, userId: Id, itemId: Option<string>,
                          itemType: Option<string>): (r: Check)
    ensures r.Rejected? <==> !ValidRequest(itemId, itemType)
    ensures r.UserMissing? <==> ValidRequest(itemId, itemType) && userId !in users
    ensures r.Answer? ==>
      (r.isSaved <==>
        users[userId].savedItems.Some? &&
        itemId.value in (if itemType == Some("post") then users[userId].savedItems.value.posts
                         else users[userId].savedItems.value.articles))
  {
    if !ValidRequest(itemId, itemType) then Rejected
    else if userId !in users then UserMissing
    else Answer(UserModel.IsSaved(users[userId], itemId.value, itemType.value))
  }

  /** On duplicate-free saved lists, checking right after a successful toggle
    * answers exactly what the toggle reported. */
  lemma CheckAgreesWithToggle(users: map<Id, UserModel.User>, userId: Id, itemId: string, itemType: string)
    requires userId in users && (itemType == "post" || itemType == "article") && itemId != ""
    requires users[userId].savedItems.Some? ==>
      Lists.NoDuplicates(UserModel.Collection(users[userId].savedItems.value, itemType))
    ensures var u := users[userId];
      var after := users[userId := u.(savedItems := Some(UserModel.ToggledItems(u.savedItems, itemId, itemType)))];
      CheckSavedItem(after, userId, Some(itemId), Some(itemType)) == Answer(!UserModel.IsSaved(u, itemId, itemType))
  {
    UserModel.CheckAfterToggle(users[userId], itemId, itemType);
  }

  /** The outcome of `getSavedItems`; `find({ _id: { $in: ids } })` returns the
    * existing documents among the ids, in no promised order. */
  datatype SavedListing = NoUser | Saved(posts: set<Id>, articles: set<Id>)

  /** `getSavedItems`: missing saved lists count as two empty lists; ids of
    * deleted documents drop out. */
  function GetSavedItems(users: map<Id, UserModel.User>, posts: set<Id>, articles: set<Id>, userId: Id): (r: SavedListing)
    ensures r.NoUser? <==> userId !in users
    ensures r.Saved? && users[userId].savedItems.None? ==> r.posts == {} && r.articles == {}
    ensures r.Saved? ==> forall id :: id in r.posts <==>
      id in posts && UserModel.IsSaved(users[userId], id, "post")
    ensures r.Saved? ==> forall id :: id in r.articles <==>
      id in articles && UserModel.IsSaved(users[userId], id, "article")
  {
    if userId !in users then NoUser
    else
      var s := if users[userId].savedItems.Some? then users[userId].savedItems.value else UserModel.SavedItems([], []);
      Saved(set id | id in s.posts && id in posts, set id | id in s.articles && id in articles)
  }
}
