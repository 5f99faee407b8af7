/** The client's HTTP instance: which requests carry the stored token in an
  * `Authorization` header, and how logging in and out reconfigures the
  * instance. The API paths file is not part of this model: its four
  * authentication paths are the fields of `ApiPaths`. */
module KyInstance {
  import opened Common
  import Strings

  const BEARER_PREFIX: string := "Bearer "

  /** `API_PATHS.AUTH.LOGIN`, `.REGISTER`, `.FORGOT_PASSWORD` and `.RESET_PASSWORD`. */
  datatype ApiPaths = ApiPaths(login: string, register: string, forgotPassword: string, resetPassword: string)

  /** `PUBLIC_ROUTES`: exactly the four authentication paths, in this order. */
  function PublicRoutes(paths: ApiPaths): (r: seq<string>)
    ensures |r| == 4
    ensures forall route :: route in r <==>
      route == paths.login || route == paths.register || route == paths.forgotPassword || route == paths.resetPassword
  {
    [paths.login, paths.register, paths.forgotPassword, paths.resetPassword]
  }

  /** `isPublicRoute(url)`: `routes.some(route => url.includes(route))`. */
  function IsPublicRoute(url: string, routes: seq<string>): (b: bool)
    ensures b <==> exists k :: 0 <= k < |routes| && Strings.Contains(url, routes[k])
  {
    if routes == [] then false
    else if Strings.Contains(url, routes[0]) then true
    else
      var rest := IsPublicRoute(url, routes[1..]);
      assert rest <==> exists k :: 1 <= k < |routes| && Strings.Contains(url, routes[k]) by {
        forall k | 1 <= k < |routes| ensures routes[k] == routes[1..][k - 1] { }
        if rest {
          var j :| 0 <= j < |routes[1..]| && Strings.Contains(url, routes[1..][j]);
          assert routes[j + 1] == routes[1..][j];
        }
      }
      rest
  }

  /** The `auth-storage` item as `getAuthData` reads it after `JSON.parse`:
    * `state` and `state.token` may each be absent. */
  datatype StoredState = StoredState(token: Option<string>)
  datatype StoredAuth = StoredAuth(state: Option<StoredState>)

  /** `getAuthData`: `state.token`, or `''` when nothing is stored (a missing
    * or empty item parses as `{}`), when there is no state, or when the
    * token is missing or empty. */
  function GetAuthData(item: Option<StoredAuth>): (t: string)
    ensures t != "" <==> item.Some? && item.value.state.Some? && Truthy(item.value.state.value.token)
    ensures t != "" ==> t == item.value.state.value.token.value
  {
    if item.Some? && item.value.state.Some? && Truthy(item.value.state.value.token) then
      item.value.state.value.token.value
    else ""
  }

  /** The `beforeRequest` hook's decision: `Bearer <token>` exactly when the
    * token is non-empty and the url is not public; otherwise the hook
    * leaves the header alone. */
  function HookAuthorization(token: string, url: string, routes: seq<string>): (h: Option<string>)
    ensures h.Some? <==> token != "" && !IsPublicRoute(url, routes)
    ensures h.Some? ==> h.value == BEARER_PREFIX + token
  {
    if token != "" && !IsPublicRoute(url, routes) then Some(BEARER_PREFIX + token) else None
  }

  /** The header a request finally goes out with: the hook (when installed)
    * overrides the instance's default header. */
  function SentAuthorization(hooked: bool, defaultAuthorization: Option<string>, item: Option<StoredAuth>,
                             url: string, routes: seq<string>): (h: Option<string>)
    ensures hooked && HookAuthorization(GetAuthData(item), url, routes).Some? ==>
      h == HookAuthorization(GetAuthData(item), url, routes)
    ensures !(hooked && HookAuthorization(GetAuthData(item), url, routes).Some?) ==> h == defaultAuthorization
  {
    var hook := if hooked then HookAuthorization(GetAuthData(item), url, routes) else None;
    if hook.Some? then hook else defaultAuthorization
  }

  /** The module-level `kyInstance`, which `pushTokenToHeader` and
    * `removeTokenFromHeader` replace. */
  class Client {
    /** The `Authorization` header every request carries by default. */
    var defaultAuthorization: Option<string>
    /** Whether the `beforeRequest` hook is installed. */
    var hooked: bool

    /** `ky.create` with the hook and no default header. */
    constructor ()
      ensures hooked && defaultAuthorization.None?
    {
      hooked := true;
      defaultAuthorization := None;
    }

    /** `pushTokenToHeader`: `extend` keeps the hook and adds the header. */
    method PushTokenToHeader(token: string)
      modifies this
      ensures defaultAuthorization == Some(BEARER_PREFIX + token)
      ensures hooked == old(hooked)
    {
      defaultAuthorization := Some(BEARER_PREFIX + token);
    }

    /** `removeTokenFromHeader`: a fresh `ky.create` without any hook. */
    method RemoveTokenFromHeader()
      modifies this
      ensures defaultAuthorization.None? && !hooked
    {
      defaultAuthorization := None;
      hooked := false;
    }

    /** The `Authorization` header of a request to `url` while storage holds `item`. */
    function Authorization(item: Option<StoredAuth>, url: string, routes: seq<string>): (h: Option<string>)
      reads this
      ensures h == SentAuthorization(hooked, defaultAuthorization, item, url, routes)
    {
      SentAuthorization(hooked, defaultAuthorization, item, url, routes)
    }
  }

  /** On the instance as first created, a request carries the stored token
    * exactly when the token is non-empty and the url is not public. */
  lemma FreshInstanceSendsStoredToken(item: Option<StoredAuth>, url: string, routes: seq<string>)
    ensures var h := SentAuthorization(true, None, item, url, routes);
      (h.Some? <==> GetAuthData(item) != "" && !IsPublicRoute(url, routes)) &&
      (h.Some? ==> h.value == BEARER_PREFIX + GetAuthData(item))
  {
  }

  /** A pushed token reaches every request, public routes included. */
  lemma PushedTokenReachesPublicRoutes(token: string, item: Option<StoredAuth>, url: string, routes: seq<string>)
    requires IsPublicRoute(url, routes)
    ensures SentAuthorization(true, Some(BEARER_PREFIX + token), item, url, routes) == Some(BEARER_PREFIX + token)
  {
  }

  /** Once the token is removed, no request carries an `Authorization`
    * header, whatever storage holds, until a token is pushed again. */
  lemma RemovedInstanceSendsNothing(item: Option<StoredAuth>, url: string, routes: seq<string>)
    ensures SentAuthorization(false, None, item, url, routes).None?
  {
  }
}
