/** The account handlers: logging in, editing one's own details, the profile
  * image, the password, and the forgotten-password token cycle. Password
  * hashing (`hash`), password checking (`matches`), the SHA-256 digest of a
  * reset token (`digest`), the random reset token and the clock are parameters. */
module AuthController {
  import opened Common
  import Strings
  import FileUpload
  import Attachments
  import UserModel
  import opened Database

  const MISSING_CREDENTIALS: string := "이메일과 비밀번호를 입력해주세요"
  const INVALID_CREDENTIALS: string := "유효하지 않은 인증 정보입니다"
  const DEFAULT_IMAGE_MARK: string := "default"
  /** One hour, in milliseconds. */
  const RESET_WINDOW: int := 3600000

  // -------------------------------------------------------------- login

  /** `login`: both fields are required (400, before any lookup); an unknown
    * email and a wrong password get the very same 401; otherwise the account
    * signs in. Nothing is written. */
  method Login(db: Db, email: Option<string>, password: Option<string>, matches: (string, string) -> bool)
    returns (status: int, message: string, user: Option<Id>)
    requires db.Valid()
    ensures !Truthy(email) || !Truthy(password) ==> status == BAD_REQUEST && message == MISSING_CREDENTIALS && user.None?
    ensures Truthy(email) && Truthy(password) ==>
      var found := UserByEmail(db.users, email.value);
      if found.None? || !matches(password.value, db.users[found.value].password) then
        status == UNAUTHORIZED && message == INVALID_CREDENTIALS && user.None?
      else
        status == OK && user == found
  {
    user := None;
    if !Truthy(email) || !Truthy(password) {
      return BAD_REQUEST, MISSING_CREDENTIALS, user;
    }
    var found := db.FindUserByEmail(email.value);
    if found.None? {
      return UNAUTHORIZED, INVALID_CREDENTIALS, user;
    }
    if !matches(password.value, db.users[found.value].password) {
      return UNAUTHORIZED, INVALID_CREDENTIALS, user;
    }
    status, message, user := OK, "", found;
  }

  // ------------------------------------------------------ updateDetails

  /** The `socialLinks` object of a request body; `None` is `undefined`. */
  datatype Links = Links(github: Option<string>, twitter: Option<string>)

  /** `fieldsToUpdate` of `updateDetails`; `None` is a key left out. */
  datatype Details = Details(nickname: Option<string>, email: Option<string>, bio: Option<string>,
                             major: Option<string>, website: Option<string>, socialLinks: Option<Links>)

  /** Builds `fieldsToUpdate` key by key: `nickname` and `email` always (an
    * `undefined` value is not written), `bio`, `major` and `website` when
    * defined, and `socialLinks` with only its defined sub-keys when the body has one. */
  method BuildDetails(nickname: Option<string>, email: Option<string>, bio: Option<string>, major: Option<string>,
                      website: Option<string>, socialLinks: Option<Links>) returns (d: Details)
    ensures d.nickname == nickname && d.email == email
    ensures d.bio == bio && d.major == major && d.website == website
    ensures socialLinks.None? <==> d.socialLinks.None?
    ensures socialLinks.Some? ==> d.socialLinks.value.github == socialLinks.value.github
    ensures socialLinks.Some? ==> d.socialLinks.value.twitter == socialLinks.value.twitter
    ensures d == Details(nickname, email, bio, major, website, socialLinks)
  {
    d := Details(nickname, email, None, None, None, None);
    if bio.Some? {
      d := d.(bio := bio);
    }
    if major.Some? {
      d := d.(major := major);
    }
    if website.Some? {
      d := d.(website := website);
    }
    if socialLinks.Some? {
      var links := Links(None, None);
      if socialLinks.value.github.Some? {
        links := links.(github := socialLinks.value.github);
      }
      if socialLinks.value.twitter.Some? {
        links := links.(twitter := socialLinks.value.twitter);
      }
      d := d.(socialLinks := Some(links));
    }
  }

  /** The account after `findByIdAndUpdate` writes the details: every given
    * key is set, and a given `socialLinks` replaces the whole nested object. */
  function WithDetails(u: UserModel.User, d: Details): (v: UserModel.User)
    ensures v.nickname == if d.nickname.Some? then d.nickname.value else u.nickname
    ensures v.email == if d.email.Some? then d.email.value else u.email
    ensures v.bio == if d.bio.Some? then d.bio else u.bio
    ensures v.major == if d.major.Some? then d.major.value else u.major
    ensures v.website == if d.website.Some? then d.website else u.website
    ensures v.socialLinks == if d.socialLinks.Some? then UserModel.SocialLinks(d.socialLinks.value.github, d.socialLinks.value.twitter)
                             else u.socialLinks
    ensures v.username == u.username && v.role == u.role && v.password == u.password
    ensures v.profileImage == u.profileImage && v.savedItems == u.savedItems
  {
    u.(nickname := if d.nickname.Some? then d.nickname.value else u.nickname,
       email := if d.email.Some? then d.email.value else u.email,
       bio := if d.bio.Some? then d.bio else u.bio,
       major := if d.major.Some? then d.major.value else u.major,
       website := if d.website.Some? then d.website else u.website,
       socialLinks := if d.socialLinks.Some? then UserModel.SocialLinks(d.socialLinks.value.github, d.socialLinks.value.twitter)
                      else u.socialLinks)
  }

  /** A request with no fields at all leaves the account as it is. */
  lemma NoDetailsNoChange(u: UserModel.User)
    ensures WithDetails(u, Details(None, None, None, None, None, None)) == u
  {
  }

  /** Whether the account with the details written passes the validators
    * and keeps every email and username unique. */
  predicate Writable(users: map<Id, UserModel.User>, userId: Id, v: UserModel.User)
  {
    UserModel.Valid(v) && DistinctAccounts(users[userId := v])
  }

  /** `updateDetails` for the signed-in account: the validators run on the
    * written paths (400), a taken email is 400, otherwise the details are written. */
  method UpdateDetails(db: Db, userId: Id, nickname: Option<string>, email: Option<string>, bio: Option<string>,
                       major: Option<string>, website: Option<string>, socialLinks: Option<Links>) returns (status: int)
    requires db.Valid() && userId in db.users
    modifies db
    ensures db.Valid()
    ensures var v := WithDetails(old(db.users)[userId], Details(nickname, email, bio, major, website, socialLinks));
      if !Writable(old(db.users), userId, v) then status == BAD_REQUEST && unchanged(db)
      else
        status == OK && db.users == old(db.users)[userId := v] &&
        db.posts == old(db.posts) && db.articles == old(db.articles) && db.comments == old(db.comments) &&
        db.commentLog == old(db.commentLog) && db.disk == old(db.disk)
  {
    var d := BuildDetails(nickname, email, bio, major, website, socialLinks);
    var v := WithDetails(db.users[userId], d);
    if !Writable(db.users, userId, v) {
      return BAD_REQUEST;
    }
    db.SaveUser(userId, v);
    status := OK;
  }

  // ------------------------------------------------- updateProfileImage

  /** Whether `updateProfileImage` tries to delete the previous image: a
    * non-empty path other than the default image that does not contain `default`. */
  predicate DeletesPrevious(previous: string)
  {
    previous != "" && previous != UserModel.DEFAULT_PROFILE_IMAGE && !Strings.Contains(previous, DEFAULT_IMAGE_MARK)
  }

  /** `updateProfileImage`: no file is 400; otherwise the previous image is
    * unlinked (best effort) unless it is a default one, and the account points
    * at `/uploads/profile-images/<filename>`. */
  method UpdateProfileImage(db: Db, userId: Id, file: Option<FileUpload.UploadedFile>, ioFail: set<string>)
    returns (status: int)
    requires db.Valid() && userId in db.users
    modifies db
    ensures db.Valid()
    ensures file.None? ==> status == BAD_REQUEST && unchanged(db)
    ensures file.Some? ==>
      var u := old(db.users)[userId];
      var gone := Attachments.StripLeadingSlash(u.profileImage);
      status == OK &&
      db.users == old(db.users)[userId := u.(profileImage := Attachments.Url(FileUpload.ProfileImage, file.value.filename))] &&
      db.disk == (if DeletesPrevious(u.profileImage) && gone !in ioFail then old(db.disk) - {gone} else old(db.disk)) &&
      db.posts == old(db.posts) && db.articles == old(db.articles) && db.comments == old(db.comments) &&
      db.commentLog == old(db.commentLog)
  {
    if file.None? {
      return BAD_REQUEST;
    }
    var u := db.users[userId];
    if DeletesPrevious(u.profileImage) {
      db.Unlink(Attachments.StripLeadingSlash(u.profileImage), ioFail);
    }
    db.SetProfileImage(userId, Attachments.Url(FileUpload.ProfileImage, file.value.filename));
    status := OK;
  }

  /** The image stored by one update is the file the next update deletes,
    * unless its URL contains `default`. */
  lemma NextUpdateDeletesStoredImage(filename: string)
    ensures var url := Attachments.Url(FileUpload.ProfileImage, filename);
      Attachments.StripLeadingSlash(url) == Attachments.DiskPath(FileUpload.ProfileImage, filename) &&
      (DeletesPrevious(url) <==> !Strings.Contains(url, DEFAULT_IMAGE_MARK))
  {
    var url := Attachments.Url(FileUpload.ProfileImage, filename);
    var path := Attachments.DiskPath(FileUpload.ProfileImage, filename);
    assert url == "/" + path;
    assert url[1..] == path;
    assert url != UserModel.DEFAULT_PROFILE_IMAGE by {
      assert url[0] != UserModel.DEFAULT_PROFILE_IMAGE[0];
    }
  }

  /** An uploaded image whose stored name contains `default` is never deleted by a later update. */
  lemma DefaultNamedImageIsKept(filename: string)
    requires Strings.Contains(filename, DEFAULT_IMAGE_MARK)
    ensures !DeletesPrevious(Attachments.Url(FileUpload.ProfileImage, filename))
  {
    var i :| 0 <= i <= |filename| - |DEFAULT_IMAGE_MARK| && Strings.OccursAt(filename, DEFAULT_IMAGE_MARK, i);
    var prefix := "/" + FileUpload.Directory(FileUpload.ProfileImage) + "/";
    var url := Attachments.Url(FileUpload.ProfileImage, filename);
    assert url == prefix + filename;
    assert url[|prefix| + i..|prefix| + i + |DEFAULT_IMAGE_MARK|] == filename[i..i + |DEFAULT_IMAGE_MARK|];
    assert Strings.OccursAt(url, DEFAULT_IMAGE_MARK, |prefix| + i);
  }

  // ----------------------------------------------------- updatePassword

  /** `updatePassword` for the signed-in account: a confirmation that differs
    * (`!==`, so two missing values agree) is 400, a new password that fails
    * its validators is 400; otherwise the hash of the new password is stored.
    * The current password is not asked for. */
  method UpdatePassword(db: Db, userId: Id, newPassword: Option<string>, confirmPassword: Option<string>,
                        hash: string -> string) returns (status: int)
    requires db.Valid() && userId in db.users
    modifies db
    ensures db.Valid()
    ensures newPassword != confirmPassword ==> status == BAD_REQUEST && unchanged(db)
    ensures newPassword == confirmPassword && !UserModel.PasswordValid(newPassword) ==> status == BAD_REQUEST && unchanged(db)
    ensures newPassword == confirmPassword && UserModel.PasswordValid(newPassword) ==>
      status == OK && db.users == old(db.users)[userId := old(db.users)[userId].(password := hash(newPassword.value))] &&
      db.posts == old(db.posts) && db.articles == old(db.articles) && db.comments == old(db.comments) &&
      db.commentLog == old(db.commentLog) && db.disk == old(db.disk)
  {
    if newPassword != confirmPassword {
      return BAD_REQUEST;
    }
    if !UserModel.PasswordValid(newPassword) {
      return BAD_REQUEST;
    }
    var u := db.users[userId];
    var v := u.(password := hash(newPassword.value));
    UserModel.ValidIgnoresBookkeeping(u, v);
    SameAccountStaysDistinct(db.users, userId, v);
    db.SaveUser(userId, v);
    status := OK;
  }

  // ------------------------------------------- forgot / reset password

  /** The account after `forgotPassword`: the digest of the token, valid for one hour. */
  function Forgotten(u: UserModel.User, digested: string, now: int): (v: UserModel.User)
    ensures v.resetPasswordToken == Some(digested) && v.resetPasswordExpire == Some(now + RESET_WINDOW)
    ensures UserModel.SameProfile(u, v) && v.password == u.password
  {
    u.(resetPasswordToken := Some(digested), resetPasswordExpire := Some(now + RESET_WINDOW))
  }

  /** The account after `resetPassword`: the new hash, the token and expiry cleared. */
  function PasswordReset(u: UserModel.User, hashed: string): (v: UserModel.User)
    ensures v.password == hashed && v.resetPasswordToken.None? && v.resetPasswordExpire.None?
    ensures UserModel.SameProfile(u, v)
  {
    u.(password := hashed, resetPasswordToken := None, resetPasswordExpire := None)
  }

  /** `forgotPassword`: 404 for an unknown email; otherwise the account keeps
    * the digest of a fresh token, written without validation, and the plain
    * token is returned. */
  method ForgotPassword(db: Db, email: string, resetToken: string, digest: string -> string, now: int)
    returns (status: int, token: Option<string>)
    requires db.Valid()
    modifies db
    ensures db.Valid()
    ensures UserByEmail(old(db.users), email).None? ==> status == NOT_FOUND && token.None? && unchanged(db)
    ensures UserByEmail(old(db.users), email).Some? ==>
      var id := UserByEmail(old(db.users), email).value;
      status == OK && token == Some(resetToken) &&
      db.users == old(db.users)[id := Forgotten(old(db.users)[id], digest(resetToken), now)] &&
      db.posts == old(db.posts) && db.articles == old(db.articles) && db.comments == old(db.comments) &&
      db.commentLog == old(db.commentLog) && db.disk == old(db.disk)
  {
    var found := db.FindUserByEmail(email);
    if found.None? {
      return NOT_FOUND, None;
    }
    var id := found.value;
    var v := Forgotten(db.users[id], digest(resetToken), now);
    UserModel.ValidIgnoresBookkeeping(db.users[id], v);
    SameAccountStaysDistinct(db.users, id, v);
    db.SaveUser(id, v);
    status, token := OK, Some(resetToken);
  }

  /** `resetPassword`: no account holding the token's digest unexpired is 400;
    * a new password that fails its validators is 400 with the token kept;
    * otherwise the new hash is stored and the token cleared. */
  method ResetPassword(db: Db, resetToken: string, password: Option<string>, digest: string -> string,
                       hash: string -> string, now: int) returns (status: int, user: Option<Id>)
    requires db.Valid()
    modifies db
    ensures db.Valid()
    ensures (forall u :: u in old(db.users) ==> !ResetMatches(old(db.users)[u], digest(resetToken), now)) ==>
      status == BAD_REQUEST && user.None? && unchanged(db)
    ensures (exists u :: u in old(db.users) && ResetMatches(old(db.users)[u], digest(resetToken), now)) ==> user.Some?
    ensures user.Some? ==> user.value in old(db.users) && ResetMatches(old(db.users)[user.value], digest(resetToken), now)
    ensures user.Some? && !UserModel.PasswordValid(password) ==> status == BAD_REQUEST && unchanged(db)
    ensures user.Some? && UserModel.PasswordValid(password) ==>
      status == OK &&
      db.users == old(db.users)[user.value := PasswordReset(old(db.users)[user.value], hash(password.value))] &&
      db.posts == old(db.posts) && db.articles == old(db.articles) && db.comments == old(db.comments) &&
      db.commentLog == old(db.commentLog) && db.disk == old(db.disk)
    ensures user.None? ==> status == BAD_REQUEST && unchanged(db)
  {
    user := db.FindResetUser(digest(resetToken), now);
    if user.None? {
      return BAD_REQUEST, user;
    }
    if !UserModel.PasswordValid(password) {
      return BAD_REQUEST, user;
    }
    var id := user.value;
    var v := PasswordReset(db.users[id], hash(password.value));
    UserModel.ValidIgnoresBookkeeping(db.users[id], v);
    SameAccountStaysDistinct(db.users, id, v);
    db.SaveUser(id, v);
    status := OK;
  }

  /** A token handed out at `issued` opens the account exactly while the clock
    * is before `issued` plus one hour; once used, it opens nothing. */
  lemma ResetTokenLifecycle(u: UserModel.User, token: string, digest: string -> string,
                                               issued: int, now: int, hashed: string, other: string)
    ensures ResetMatches(Forgotten(u, digest(token), issued), digest(token), now) <==> now < issued + RESET_WINDOW
    ensures !ResetMatches(PasswordReset(Forgotten(u, digest(token), issued), hashed), other, now)
  {
  }
}
