/** `useRequireAuth`: the redirect a protected page makes, decided from the
  * auth store's state and the hook's options. The routes file is not part
  * of this model: the login and home routes are the fields of `Routes`. */
module RequireAuth {
  import opened Common
  import AuthStore

  /** `ROUTES.AUTH.LOGIN` and `ROUTES.HOME`. */
  datatype Routes = Routes(login: string, home: string)

  /** The hook's options; `None` is an option left out. */
  datatype Options = Options(requireSelf: Option<bool>, selfId: Option<string>, redirectTo: Option<string>)

  /** The navigation the effect performs, if any. */
  datatype Navigation = Stay | Navigate(route: string)

  /** What the hook returns, and where its effect navigates. */
  datatype Outcome = Outcome(isAuthenticated: bool, user: Option<AuthStore.AuthUser>, navigation: Navigation)

  /** The destructuring defaults: `requireSelf = false`, `redirectTo = ROUTES.AUTH.LOGIN`. */
  function RedirectTarget(options: Options, routes: Routes): (r: string)
    ensures options.redirectTo.None? ==> r == routes.login
    ensures options.redirectTo.Some? ==> r == options.redirectTo.value
  {
    if options.redirectTo.Some? then options.redirectTo.value else routes.login
  }

  /** The effect: an unauthenticated visitor goes to the redirect target and
    * the self check is skipped; an authenticated one asked to be a given,
    * non-empty `selfId` goes home unless the stored user has that id. */
  function Decide(options: Options, routes: Routes, isAuthenticated: bool, user: Option<AuthStore.AuthUser>): (n: Navigation)
    ensures !isAuthenticated ==> n == Navigate(RedirectTarget(options, routes))
    ensures isAuthenticated ==> (n.Stay? || n == Navigate(routes.home))
    ensures isAuthenticated ==>
      (n.Navigate? <==> options.requireSelf == Some(true) && Truthy(options.selfId) &&
                        (user.None? || user.value.id != options.selfId.value))
  {
    if !isAuthenticated then Navigate(RedirectTarget(options, routes))
    else if options.requireSelf == Some(true) && Truthy(options.selfId) &&
            (user.None? || user.value.id != options.selfId.value) then Navigate(routes.home)
    else Stay
  }

  /** `useRequireAuth(options)` over the store's state: it returns
    * `isAuthenticated` and `user` as read. */
  function UseRequireAuth(options: Options, routes: Routes, state: AuthStore.Snapshot): (r: Outcome)
    ensures r.isAuthenticated == state.isAuthenticated && r.user == state.user
    ensures r.navigation == Decide(options, routes, state.isAuthenticated, state.user)
  {
    Outcome(state.isAuthenticated, state.user, Decide(options, routes, state.isAuthenticated, state.user))
  }

  /** With no options, a signed-out visitor is sent to the login route and a
    * signed-in one stays. */
  lemma DefaultOptions(routes: Routes, state: AuthStore.Snapshot)
    ensures var r := UseRequireAuth(Options(None, None, None), routes, state);
      r.navigation == if state.isAuthenticated then Stay else Navigate(routes.login)
  {
  }

  /** After `login(token, user)`, the user's own page with `requireSelf`
    * keeps them, and anyone else's sends them home. */
  lemma LoggedInSelfCheck(routes: Routes, token: string, u: AuthStore.AuthUser, selfId: string, redirectTo: Option<string>)
    requires selfId != ""
    ensures var r := UseRequireAuth(Options(Some(true), Some(selfId), redirectTo), routes, AuthStore.Snapshot(token, Some(u), true));
      r.navigation == if u.id == selfId then Stay else Navigate(routes.home)
  {
  }

  /** In the initial (or logged-out) state every protected page redirects,
    * whatever the self check asks for. */
  lemma SignedOutRedirects(options: Options, routes: Routes)
    ensures UseRequireAuth(options, routes, AuthStore.INITIAL).navigation == Navigate(RedirectTarget(options, routes))
  {
  }
}
