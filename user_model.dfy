/** The User schema: validators and defaults, and the saved-items
  * bookkeeping (`toggleSavedItem`, `isItemSaved`) on a loaded user document. */
module UserModel {
  import opened Common
  import Strings
  import Lists

  datatype SavedItems = SavedItems(posts: seq<Id>, articles: seq<Id>)
  datatype SocialLinks = SocialLinks(github: Option<string>, twitter: Option<string>)

  datatype User = User(
    username: string,
    email: string,
    password: string,
    nickname: string,
    profileImage: string,
    bio: Option<string>,
    major: string,
    website: Option<string>,
    socialLinks: SocialLinks,
    role: string,
    resetPasswordToken: Option<string>,
    resetPasswordExpire: Option<int>,
    savedItems: Option<SavedItems>)

  const ROLES: seq<string> := ["user", "admin", "system"]
  const DEFAULT_ROLE: string := "user"
  const ADMIN: string := "admin"
  const DEFAULT_PROFILE_IMAGE: string := "default-profile.jpg"
  const MIN_USERNAME: nat := 3
  const MAX_USERNAME: nat := 20
  const MIN_PASSWORD: nat := 6
  const MAX_NICKNAME: nat := 30
  const MAX_BIO: nat := 500

  // ------------------------------------------------------------ validators

  /** `\w`: ASCII letters, digits and `_`. */
  predicate IsWordChar(c: char)
  {
    ('a' <= c <= 'z') || ('A' <= c <= 'Z') || ('0' <= c <= '9') || c == '_'
  }

  predicate IsLabel(s: string)
  {
    forall k :: 0 <= k < |s| ==> IsWordChar(s[k]) || s[k] == '-'
  }

  /** The email pattern `^([\w-\.]+@([\w-]+\.)+[\w-]{2,4})?$`: empty, or a
    * non-empty local part of word characters, `-` and `.`, one `@`, and a
    * domain of at least two dot-separated labels. */
  predicate EmailMatches(e: string)
  {
    e == "" ||
    (var at := Lists.IndexOf(e, '@');
     at > 0 && LocalPartMatches(e[..at]) && DomainMatches(e[at + 1..]))
  }

  /** `[\w-\.]+`. */
  predicate LocalPartMatches(s: string)
  {
    forall k :: 0 <= k < |s| ==> IsWordChar(s[k]) || s[k] == '-' || s[k] == '.'
  }

  /** `([\w-]+\.)+[\w-]{2,4}`: labels of word characters and `-`, every one
    * but the last non-empty, the last of 2 to 4 characters. */
  predicate DomainMatches(d: string)
  {
    var labels := Strings.Split(d, '.');
    |labels| >= 2 &&
    (forall k :: 0 <= k < |labels| ==> IsLabel(labels[k])) &&
    (forall k :: 0 <= k < |labels| - 1 ==> labels[k] != "") &&
    2 <= |labels[|labels| - 1]| <= 4
  }

  /** The social link validators: empty, or containing the site's URL fragment. */
  predicate LinkMatches(v: Option<string>, fragment: string)
  {
    !Truthy(v) || Strings.Contains(v.value, fragment)
  }

  predicate UsernameValid(username: string)
  {
    MIN_USERNAME <= |username| <= MAX_USERNAME
  }

  predicate NicknameValid(nickname: string)
  {
    nickname != "" && |nickname| <= MAX_NICKNAME
  }

  /** `required` and `minlength` of the password, checked on the plain text before it is hashed. */
  predicate PasswordValid(password: Option<string>)
  {
    password.Some? && password.value != "" && |password.value| >= MIN_PASSWORD
  }

  /** Every validator except the password's, which is checked on the plain text only when the password changes. */
  predicate Valid(u: User)
  {
    UsernameValid(u.username) &&
    u.email != "" && EmailMatches(u.email) &&
    NicknameValid(u.nickname) &&
    (u.bio.None? || |u.bio.value| <= MAX_BIO) &&
    u.major in MAJOR_CATEGORIES &&
    LinkMatches(u.socialLinks.github, "github.com/") &&
    LinkMatches(u.socialLinks.twitter, "twitter.com/") &&
    u.role in ROLES
  }

  /** A new user document before the password is hashed: username trimmed, defaults for the rest. */
  function New(username: Option<string>, email: Option<string>, password: Option<string>,
               nickname: Option<string>, role: Option<string>): User
  {
    User(if username.Some? then Strings.Trim(username.value) else "",
         if email.Some? then email.value else "",
         if password.Some? then password.value else "",
         if nickname.Some? then nickname.value else "",
         DEFAULT_PROFILE_IMAGE, None, OTHER_CATEGORY, None, SocialLinks(None, None),
         if role.Some? then role.value else DEFAULT_ROLE,
         None, None, None)
  }

  /** A new user gets the default profile image, major `'기타'` and, unless given, role `'user'`;
    * it is valid exactly when the trimmed username has 3 to 20 characters, the email matches,
    * the nickname has 1 to 30 characters and the role is one of the three. */
  lemma NewUserDefaults(username: Option<string>, email: Option<string>, password: Option<string>,
                        nickname: Option<string>, role: Option<string>)
    ensures var u := New(username, email, password, nickname, role);
      u.profileImage == DEFAULT_PROFILE_IMAGE && u.major == OTHER_CATEGORY &&
      (role.None? ==> u.role == DEFAULT_ROLE) &&
      (Valid(u) <==> username.Some? && MIN_USERNAME <= |Strings.Trim(username.value)| <= MAX_USERNAME &&
                     email.Some? && email.value != "" && EmailMatches(email.value) &&
                     nickname.Some? && NicknameValid(nickname.value) &&
                     (role.None? || role.value in ROLES))
  {
    var u := New(username, email, password, nickname, role);
    assert u.major in MAJOR_CATEGORIES by {
      assert MAJOR_CATEGORIES[|MAJOR_CATEGORIES| - 1] == OTHER_CATEGORY;
    }
    assert role.None? ==> u.role in ROLES by {
      assert ROLES[0] == DEFAULT_ROLE;
    }
    assert LinkMatches(u.socialLinks.github, "github.com/") && LinkMatches(u.socialLinks.twitter, "twitter.com/");
  }

  // ----------------------------------------------------------- saved items

  /** `itemType === 'post' ? 'posts' : 'articles'`. */
  function Collection(s: SavedItems, itemType: string): seq<Id>
  {
    if itemType == "post" then s.posts else s.articles
  }

  function WithCollection(s: SavedItems, itemType: string, ids: seq<Id>): (r: SavedItems)
    ensures Collection(r, itemType) == ids
    ensures itemType == "post" ==> r.articles == s.articles
    ensures itemType != "post" ==> r.posts == s.posts
  {
    if itemType == "post" then s.(posts := ids) else s.(articles := ids)
  }

  /** `isItemSaved`: false without saved items, otherwise whether the chosen list holds the id. */
  function IsSaved(u: User, itemId: Id, itemType: string): bool
  {
    u.savedItems.Some? && itemId in Collection(u.savedItems.value, itemType)
  }

  /** The saved items after a toggle: missing lists start empty; an absent id is
    * appended, a present one is spliced out at its first position. */
  function ToggledItems(saved: Option<SavedItems>, itemId: Id, itemType: string): SavedItems
  {
    var s := if saved.Some? then saved.value else SavedItems([], []);
    var ids := Collection(s, itemType);
    WithCollection(s, itemType, if itemId in ids then Lists.RemoveAt(ids, Lists.IndexOf(ids, itemId)) else ids + [itemId])
  }

  /** A toggle appends an absent id at the end, removes a present id's first
    * occurrence keeping the others in order, and never touches the other list. */
  lemma ToggledItemsSpec(saved: Option<SavedItems>, itemId: Id, itemType: string)
    ensures var s := if saved.Some? then saved.value else SavedItems([], []);
      var before := Collection(s, itemType);
      var after := Collection(ToggledItems(saved, itemId, itemType), itemType);
      (itemId !in before ==> after == before + [itemId]) &&
      (itemId in before ==> multiset(after) == multiset(before) - multiset{itemId} &&
                            |after| == |before| - 1) &&
      (itemId in before ==>
         exists i :: 0 <= i < |before| && before[i] == itemId && itemId !in before[..i] &&
                     after == before[..i] + before[i + 1..]) &&
      (itemType == "post" ==> ToggledItems(saved, itemId, itemType).articles == s.articles) &&
      (itemType != "post" ==> ToggledItems(saved, itemId, itemType).posts == s.posts)
  {
    var s := if saved.Some? then saved.value else SavedItems([], []);
    var before := Collection(s, itemType);
    if itemId in before {
      var i := Lists.IndexOf(before, itemId);
      assert Collection(ToggledItems(saved, itemId, itemType), itemType) == before[..i] + before[i + 1..];
    }
  }

  /** On lists that hold each id once, a toggle flips whether the id is saved and keeps the lists duplicate-free. */
  lemma ToggleFlips(saved: Option<SavedItems>, itemId: Id, itemType: string)
    requires saved.Some? ==> Lists.NoDuplicates(Collection(saved.value, itemType))
    ensures var before := saved.Some? && itemId in Collection(saved.value, itemType);
      var after := Collection(ToggledItems(saved, itemId, itemType), itemType);
      (itemId in after <==> !before) && Lists.NoDuplicates(after)
  {
    var s := if saved.Some? then saved.value else SavedItems([], []);
    var ids := Collection(s, itemType);
    if itemId in ids {
      Lists.RemoveFirstOccurrence(ids, itemId);
      Lists.RemoveAllNoDuplicates(ids, itemId);
    } else {
      forall i, j | 0 <= i < j < |ids + [itemId]| ensures (ids + [itemId])[i] != (ids + [itemId])[j] {
        if j == |ids| { assert (ids + [itemId])[i] == ids[i]; }
      }
    }
  }

  /** Toggling an unsaved item twice restores the saved items exactly (once the lists exist). */
  lemma ToggleTwiceRestores(s: SavedItems, itemId: Id, itemType: string)
    requires itemId !in Collection(s, itemType)
    ensures ToggledItems(Some(ToggledItems(Some(s), itemId, itemType)), itemId, itemType) == s
  {
    var ids := Collection(s, itemType);
    var once := ids + [itemId];
    assert Lists.IndexOf(once, itemId) == |ids| by {
      Lists.RemoveAllAbsent(ids, itemId);
    }
    assert Lists.RemoveAt(once, |ids|) == ids;
  }

  /** Two versions of an account that agree on every validated field. */
  predicate SameProfile(u: User, v: User)
  {
    v.username == u.username && v.email == u.email && v.nickname == u.nickname && v.bio == u.bio &&
    v.major == u.major && v.socialLinks == u.socialLinks && v.role == u.role
  }

  /** Validation looks only at the profile fields: the password hash, the
    * reset token, its expiry, the image and the saved lists play no part. */
  lemma ValidIgnoresBookkeeping(u: User, v: User)
    requires Valid(u) && SameProfile(u, v)
    ensures Valid(v)
  {
  }

  /** The saved lists play no part in validation. */
  lemma ValidIgnoresSavedItems(u: User, saved: Option<SavedItems>)
    requires Valid(u)
    ensures Valid(u.(savedItems := saved))
  {
    ValidIgnoresBookkeeping(u, u.(savedItems := saved));
  }

  /** A loaded user document, which `toggleSavedItem` changes in place. */
  class UserDocument {
    var user: User

    constructor (u: User)
      ensures user == u
    {
      user := u;
    }

    /** `user.toggleSavedItem(itemId, itemType)`: reports whether the item is saved afterwards. */
    method ToggleSavedItem(itemId: Id, itemType: string) returns (saved: bool)
      modifies this
      ensures saved <==> !IsSaved(old(user), itemId, itemType)
      ensures user == old(user).(savedItems := Some(ToggledItems(old(user).savedItems, itemId, itemType)))
    {
      var collection := if itemType == "post" then "posts" else "articles";
      if user.savedItems.None? {
        user := user.(savedItems := Some(SavedItems([], [])));
      }
      var items := user.savedItems.value;
      var ids := if collection == "posts" then items.posts else items.articles;
      var index := Lists.IndexOf(ids, itemId);
      if index == -1 {
        ids := ids + [itemId];
        saved := true;
      } else {
        ids := Lists.RemoveAt(ids, index);
        saved := false;
      }
      user := user.(savedItems := Some(if collection == "posts" then items.(posts := ids) else items.(articles := ids)));
    }

    /** `user.isItemSaved(itemId, itemType)`; it reads the document and changes nothing. */
    function IsItemSaved(itemId: Id, itemType: string): (r: bool)
      reads this
      ensures r ==> user.savedItems.Some?
    {
      IsSaved(user, itemId, itemType)
    }
  }

  /** After a toggle on duplicate-free lists, `isItemSaved` answers what the toggle returned. */
  lemma CheckAfterToggle(u: User, itemId: Id, itemType: string)
    requires u.savedItems.Some? ==> Lists.NoDuplicates(Collection(u.savedItems.value, itemType))
    ensures IsSaved(u.(savedItems := Some(ToggledItems(u.savedItems, itemId, itemType))), itemId, itemType)
            == !IsSaved(u, itemId, itemType)
  {
    ToggleFlips(u.savedItems, itemId, itemType);
  }
}
