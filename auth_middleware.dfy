/** The route guards: `protect` (who is calling), `authorize` (which roles
  * may pass) and `checkOwnership` (whether the caller owns the resource).
  * Each is a decision: let the request through, with what it attaches to
  * the request, or answer it with a status and message. JWT verification
  * is the parameter `verify`, which yields the token's user id or fails. */
module AuthMiddleware {
  import opened Common
  import Strings
  import UserModel

  const BEARER: string := "Bearer"
  const ADMIN_ROLE: string := "admin"
  const NO_TOKEN: string := "이 리소스에 접근하려면 로그인이 필요합니다"
  const NO_SUCH_USER: string := "이 토큰에 해당하는 사용자를 찾을 수 없습니다"
  const AUTH_FAILED: string := "인증에 실패했습니다"
  const NOT_AUTHENTICATED: string := "인증이 필요합니다"
  const ROLE_FORBIDDEN: string := "이 리소스에 대한 접근 권한이 없습니다"
  const RESOURCE_MISSING: string := "리소스를 찾을 수 없습니다"
  const NO_OWNER: string := "리소스에 소유자 정보가 없습니다"
  const NOT_OWNER: string := "이 리소스에 대한 권한이 없습니다"

  /** A guard's verdict: `next()` with the id it attaches, or a response. */
  datatype Gate = Pass(id: Id) | Deny(status: int, message: string)

  // ------------------------------------------------------------ protect

  /** The token `protect` reads: from an `Authorization` header starting with
    * `Bearer`, the second space-separated word (absent when there is none);
    * otherwise a truthy `token` cookie. */
  function TokenOf(authorization: Option<string>, cookie: Option<string>): (t: Option<string>)
    ensures Truthy(authorization) && Strings.StartsWith(authorization.value, BEARER) ==>
      t == (var words := Strings.Split(authorization.value, ' ');
            if |words| >= 2 then Some(words[1]) else None)
    ensures !(Truthy(authorization) && Strings.StartsWith(authorization.value, BEARER)) ==>
      t == (if Truthy(cookie) then cookie else None)
  {
    if Truthy(authorization) && Strings.StartsWith(authorization.value, BEARER) then
      var words := Strings.Split(authorization.value, ' ');
      if |words| >= 2 then Some(words[1]) else None
    else if Truthy(cookie) then cookie
    else None
  }

  /** A well-formed bearer header wins over any cookie. */
  lemma BearerHeaderWins(token: string, cookie: Option<string>)
    requires ' ' !in token
    ensures TokenOf(Some(BEARER + " " + token), cookie) == Some(token)
  {
    var header := BEARER + " " + token;
    assert Strings.Join([BEARER, token], [' ']) == header by {
      assert [BEARER, token][1..] == [token];
    }
    Strings.SplitJoin([BEARER, token], ' ');
    assert header[..|BEARER|] == BEARER;
  }

  /** `protect`: no token is 401; a token that fails verification, or names
    * no stored user, is 401 too; otherwise the request carries that user. */
  function Protect(authorization: Option<string>, cookie: Option<string>,
                   verify: string -> Option<Id>, users: map<Id, UserModel.User>): (g: Gate)
    ensures !Truthy(TokenOf(authorization, cookie)) ==> g == Deny(UNAUTHORIZED, NO_TOKEN)
    ensures g.Deny? ==> g.status == UNAUTHORIZED
    ensures g.Pass? <==> Truthy(TokenOf(authorization, cookie)) &&
                         verify(TokenOf(authorization, cookie).value).Some? &&
                         verify(TokenOf(authorization, cookie).value).value in users
    ensures g.Pass? ==> g.id == verify(TokenOf(authorization, cookie).value).value
  {
    var token := TokenOf(authorization, cookie);
    if !Truthy(token) then Deny(UNAUTHORIZED, NO_TOKEN)
    else match verify(token.value)
      case None => Deny(UNAUTHORIZED, AUTH_FAILED)
      case Some(id) => if id in users then Pass(id) else Deny(UNAUTHORIZED, NO_SUCH_USER)
  }

  // ---------------------------------------------------------- authorize

  /** `authorize(...roles)`: 401 without a user, 403 for a role outside the list. */
  function Authorize(roles: seq<string>, user: Option<Id>, role: string): (g: Gate)
    ensures user.None? ==> g == Deny(UNAUTHORIZED, NOT_AUTHENTICATED)
    ensures user.Some? && role !in roles ==> g == Deny(FORBIDDEN, ROLE_FORBIDDEN)
    ensures g.Pass? <==> user.Some? && role in roles
    ensures g.Pass? ==> g.id == user.value
  {
    if user.None? then Deny(UNAUTHORIZED, NOT_AUTHENTICATED)
    else if role !in roles then Deny(FORBIDDEN, ROLE_FORBIDDEN)
    else Pass(user.value)
  }

  // ----------------------------------------------------- checkOwnership

  /** What `checkOwnership` looks at in the loaded document. */
  datatype Resource = Resource(id: Id, author: Option<Id>, user: Option<Id>)

  /** `resource.author || resource.user`. */
  function OwnerOf(r: Resource): (o: Option<Id>)
    ensures Truthy(r.author) ==> o == r.author
    ensures !Truthy(r.author) ==> o == r.user
  {
    if Truthy(r.author) then r.author else r.user
  }

  /** `checkOwnership`: 404 for a missing resource; an admin passes whoever
    * owns it; a resource without an owner is 400; an owner other than the
    * caller is 403. Passing attaches the resource. */
  function CheckOwnership(resource: Option<Resource>, userId: Id, role: string): (g: Gate)
    ensures resource.None? ==> g == Deny(NOT_FOUND, RESOURCE_MISSING)
    ensures resource.Some? && role == ADMIN_ROLE ==> g == Pass(resource.value.id)
    ensures resource.Some? && role != ADMIN_ROLE && !Truthy(OwnerOf(resource.value)) ==> g == Deny(BAD_REQUEST, NO_OWNER)
    ensures g.Pass? <==> resource.Some? && (role == ADMIN_ROLE || (OwnerOf(resource.value) == Some(userId) && userId != ""))
    ensures g.Pass? ==> g.id == resource.value.id
    ensures g.Deny? && g.status == FORBIDDEN <==>
      resource.Some? && role != ADMIN_ROLE && Truthy(OwnerOf(resource.value)) && OwnerOf(resource.value) != Some(userId)
  {
    if resource.None? then Deny(NOT_FOUND, RESOURCE_MISSING)
    else if role == ADMIN_ROLE then Pass(resource.value.id)
    else
      var owner := OwnerOf(resource.value);
      if !Truthy(owner) then Deny(BAD_REQUEST, NO_OWNER)
      else if owner.value != userId then Deny(FORBIDDEN, NOT_OWNER)
      else Pass(resource.value.id)
  }

  /** The author decides ownership whenever there is one: the `user` field is
    * then irrelevant, for the author and for anyone else. */
  lemma AuthorOverridesUser(id: Id, author: Id, user1: Option<Id>, user2: Option<Id>, userId: Id, role: string)
    requires author != ""
    ensures CheckOwnership(Some(Resource(id, Some(author), user1)), userId, role)
         == CheckOwnership(Some(Resource(id, Some(author), user2)), userId, role)
  {
  }
}
