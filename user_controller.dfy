/** The administrators' user handlers: reading, creating, updating and
  * deleting accounts. Password hashing is the parameter `hash`. */
module UserController {
  import opened Common
  import Strings
  import UserModel
  import opened Database

  const ADMIN_ROLE: string := "admin"

  /** `getUser`: 404 for an unknown id. */
  function GetUser(users: map<Id, UserModel.User>, id: Id): (r: Option<UserModel.User>)
    ensures r.None? <==> id !in users
    ensures r.Some? ==> r.value == users[id]
  {
    if id in users then Some(users[id]) else None
  }

  /** `role || 'user'`. */
  function RoleOrDefault(role: Option<string>): (r: string)
    ensures Truthy(role) ==> r == role.value
    ensures !Truthy(role) ==> r == UserModel.DEFAULT_ROLE
  {
    if Truthy(role) then role.value else UserModel.DEFAULT_ROLE
  }

  /** The account `createUser` builds, before its password is hashed. */
  function NewAccount(username: Option<string>, email: Option<string>, password: Option<string>,
                      nickname: Option<string>, role: Option<string>): UserModel.User
  {
    UserModel.New(username, email, password, nickname, Some(RoleOrDefault(role)))
  }

  /** The account `createUser` stores: the pre-save hook replaces the password by its hash. */
  function StoredAccount(username: Option<string>, email: Option<string>, password: Option<string>,
                         nickname: Option<string>, role: Option<string>, hash: string -> string): UserModel.User
  {
    NewAccount(username, email, password, nickname, role).(password := hash(if password.Some? then password.value else ""))
  }

  /** An account created without a role, or with an empty one, is a plain user. */
  lemma CreatedRoleDefault(username: Option<string>, email: Option<string>, password: Option<string>, nickname: Option<string>)
    ensures NewAccount(username, email, password, nickname, None).role == UserModel.DEFAULT_ROLE
    ensures NewAccount(username, email, password, nickname, Some("")).role == UserModel.DEFAULT_ROLE
  {
  }

  /** `createUser`: a failed validation (the password checked as typed) or a
    * taken username or email is 400; otherwise the account is stored with its
    * password hashed. */
  method CreateUser(db: Db, username: Option<string>, email: Option<string>, password: Option<string>,
                    nickname: Option<string>, role: Option<string>, newId: Id, hash: string -> string)
    returns (status: int)
    requires db.Valid() && newId !in db.users
    modifies db
    ensures db.Valid()
    ensures var u := StoredAccount(username, email, password, nickname, role, hash);
      if !UserModel.Valid(u) || !UserModel.PasswordValid(password) || !DistinctAccounts(old(db.users)[newId := u]) then
        status == BAD_REQUEST && unchanged(db)
      else
        status == CREATED && db.users == old(db.users)[newId := u] &&
        db.posts == old(db.posts) && db.articles == old(db.articles) && db.comments == old(db.comments) &&
        db.commentLog == old(db.commentLog) && db.disk == old(db.disk)
  {
    var u := StoredAccount(username, email, password, nickname, role, hash);
    if !UserModel.Valid(u) || !UserModel.PasswordValid(password) || !DistinctAccounts(db.users[newId := u]) {
      return BAD_REQUEST;
    }
    db.SaveUser(newId, u);
    status := CREATED;
  }

  // --------------------------------------------------------- updateUser

  /** The keys of `fieldsToUpdate`, in the order `Object.keys` lists them. */
  const UPDATE_KEYS: seq<string> := ["username", "email", "nickname", "role"]

  /** The body fields `updateUser` reads; `None` is `undefined`. */
  function UpdateFields(username: Option<string>, email: Option<string>, nickname: Option<string>,
                        role: Option<string>): (m: map<string, Option<string>>)
    ensures m.Keys == {"username", "email", "nickname", "role"}
  {
    map["username" := username, "email" := email, "nickname" := nickname, "role" := role]
  }

  /** The `forEach` that deletes every key whose value is `undefined`. */
  method StripUndefined(fields: map<string, Option<string>>, keys: seq<string>) returns (r: map<string, Option<string>>)
    ensures forall k :: k in r <==> k in fields && (k !in keys || fields[k].Some?)
    ensures forall k :: k in r ==> r[k] == fields[k]
  {
    r := fields;
    for i := 0 to |keys|
      invariant forall k :: k in r <==> k in fields && (k !in keys[..i] || fields[k].Some?)
      invariant forall k :: k in r ==> r[k] == fields[k]
    {
      if keys[i] in r && r[keys[i]].None? {
        r := r - {keys[i]};
      }
      assert keys[..i + 1] == keys[..i] + [keys[i]];
    }
    assert keys[..|keys|] == keys;
  }

  /** Stripping the undefined fields changes neither what is validated nor what is written. */
  lemma StrippedSameUpdate(fields: map<string, Option<string>>, r: map<string, Option<string>>)
    requires fields.Keys == set k | k in UPDATE_KEYS
    requires forall k :: k in r <==> k in fields && (k !in UPDATE_KEYS || fields[k].Some?)
    requires forall k :: k in r ==> r[k] == fields[k]
    ensures forall k :: k in r ==> r[k].Some?
    ensures UpdateValid(r) <==> UpdateValid(fields)
    ensures forall u :: Updated(u, r) == Updated(u, fields)
  {
    assert UPDATE_KEYS[0] == "username" && UPDATE_KEYS[1] == "email";
    assert UPDATE_KEYS[2] == "nickname" && UPDATE_KEYS[3] == "role";
    forall u ensures Updated(u, r) == Updated(u, fields) {
    }
  }

  /** The update validators, run on the written paths only: the username is
    * trimmed by its setter before its length check. */
  predicate UpdateValid(f: map<string, Option<string>>)
  {
    ("username" in f && f["username"].Some? ==> UserModel.UsernameValid(Strings.Trim(f["username"].value))) &&
    ("email" in f && f["email"].Some? ==> f["email"].value != "" && UserModel.EmailMatches(f["email"].value)) &&
    ("nickname" in f && f["nickname"].Some? ==> UserModel.NicknameValid(f["nickname"].value)) &&
    ("role" in f && f["role"].Some? ==> f["role"].value in UserModel.ROLES)
  }

  /** The account after the defined fields are written. */
  function Updated(u: UserModel.User, f: map<string, Option<string>>): (v: UserModel.User)
    ensures v.username == if "username" in f && f["username"].Some? then Strings.Trim(f["username"].value) else u.username
    ensures v.email == if "email" in f && f["email"].Some? then f["email"].value else u.email
    ensures v.nickname == if "nickname" in f && f["nickname"].Some? then f["nickname"].value else u.nickname
    ensures v.role == if "role" in f && f["role"].Some? then f["role"].value else u.role
    ensures v.(username := u.username, email := u.email, nickname := u.nickname, role := u.role) == u
  {
    u.(username := if "username" in f && f["username"].Some? then Strings.Trim(f["username"].value) else u.username,
       email := if "email" in f && f["email"].Some? then f["email"].value else u.email,
       nickname := if "nickname" in f && f["nickname"].Some? then f["nickname"].value else u.nickname,
       role := if "role" in f && f["role"].Some? then f["role"].value else u.role)
  }

  /** A valid account stays valid when fields that pass the update validators are written. */
  lemma UpdatedStaysValid(u: UserModel.User, f: map<string, Option<string>>)
    requires UserModel.Valid(u) && UpdateValid(f)
    ensures UserModel.Valid(Updated(u, f))
  {
  }

  /** `updateUser`: the update validators run before the lookup (400), an
    * unknown id is 404, a taken username or email is 400; otherwise only the
    * defined fields are written. */
  method UpdateUser(db: Db, id: Id, username: Option<string>, email: Option<string>,
                    nickname: Option<string>, role: Option<string>) returns (status: int)
    requires db.Valid()
    modifies db
    ensures db.Valid()
    ensures var f := UpdateFields(username, email, nickname, role);
      if !UpdateValid(f) then status == BAD_REQUEST && unchanged(db)
      else if id !in old(db.users) then status == NOT_FOUND && unchanged(db)
      else if !DistinctAccounts(old(db.users)[id := Updated(old(db.users)[id], f)]) then status == BAD_REQUEST && unchanged(db)
      else
        status == OK && db.users == old(db.users)[id := Updated(old(db.users)[id], f)] &&
        db.posts == old(db.posts) && db.articles == old(db.articles) && db.comments == old(db.comments) &&
        db.commentLog == old(db.commentLog) && db.disk == old(db.disk)
  {
    var all := UpdateFields(username, email, nickname, role);
    var f := StripUndefined(all, UPDATE_KEYS);
    StrippedSameUpdate(all, f);
    if !UpdateValid(f) {
      return BAD_REQUEST;
    }
    if id !in db.users {
      return NOT_FOUND;
    }
    var u := Updated(db.users[id], f);
    UpdatedStaysValid(db.users[id], f);
    if !DistinctAccounts(db.users[id := u]) {
      return BAD_REQUEST;
    }
    db.SaveUser(id, u);
    status := OK;
  }

  /** `deleteUser`: 404 for an unknown id; an admin account is never deleted (400). */
  method DeleteUser(db: Db, id: Id) returns (status: int)
    requires db.Valid()
    modifies db
    ensures db.Valid()
    ensures id !in old(db.users) ==> status == NOT_FOUND && unchanged(db)
    ensures id in old(db.users) && old(db.users)[id].role == ADMIN_ROLE ==> status == BAD_REQUEST && unchanged(db)
    ensures id in old(db.users) && old(db.users)[id].role != ADMIN_ROLE ==>
      status == OK && db.users == old(db.users) - {id} &&
      db.posts == old(db.posts) && db.articles == old(db.articles) && db.comments == old(db.comments) &&
      db.commentLog == old(db.commentLog) && db.disk == old(db.disk)
  {
    if id !in db.users {
      return NOT_FOUND;
    }
    if db.users[id].role == ADMIN_ROLE {
      return BAD_REQUEST;
    }
    db.DeleteUser(id);
    status := OK;
  }
}
