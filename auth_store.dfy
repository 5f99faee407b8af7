/** The client's persisted authentication store: the token, the signed-in
  * user and the `isAuthenticated` flag, the actions that change them, and
  * their effect on the HTTP instance's default header. */
module AuthStore {
  import opened Common
  import KyInstance

  /** `ResAuthUser`, the user the server returns on login. */
  datatype AuthUser = AuthUser(email: string, id: Id, nickname: string, role: string, username: string)

  /** The store's state, which `partialize` persists as it is. */
  datatype Snapshot = Snapshot(token: string, user: Option<AuthUser>, isAuthenticated: bool)

  /** `initialState`. */
  const INITIAL: Snapshot := Snapshot("", None, false)

  /** A state that claims authentication has a token. */
  predicate Consistent(s: Snapshot)
  {
    s.isAuthenticated ==> s.token != ""
  }

  /** The `auth-storage` item the persisted state parses back into, seen
    * through what `getAuthData` reads. */
  function StorageItem(s: Snapshot): KyInstance.StoredAuth
  {
    KyInstance.StoredAuth(Some(KyInstance.StoredState(Some(s.token))))
  }

  /** The request hook reads back exactly the token the store persisted
    * (empty after `logout`). */
  lemma PersistedTokenReadBack(s: Snapshot)
    ensures KyInstance.GetAuthData(Some(StorageItem(s))) == s.token
    ensures s == INITIAL ==> KyInstance.GetAuthData(Some(StorageItem(s))) == ""
  {
  }

  class Store {
    var token: string
    var user: Option<AuthUser>
    var isAuthenticated: bool

    /** The state as `partialize` persists it: exactly the three fields. */
    function Persisted(): (s: Snapshot)
      reads this
      ensures s.token == token && s.user == user && s.isAuthenticated == isAuthenticated
    {
      Snapshot(token, user, isAuthenticated)
    }

    /** The store starts from `initialState`. */
    constructor ()
      ensures Persisted() == INITIAL
    {
      token, user, isAuthenticated := "", None, false;
    }

    /** `setToken`: pushes the token to the instance's header, stores it,
      * and authenticates exactly when it is non-empty; the user stays. */
    method SetToken(client: KyInstance.Client, t: string)
      modifies this, client
      ensures token == t && user == old(user) && isAuthenticated == (t != "")
      ensures client.defaultAuthorization == Some(KyInstance.BEARER_PREFIX + t) && client.hooked == old(client.hooked)
      ensures Consistent(Persisted())
    {
      client.PushTokenToHeader(t);
      token, isAuthenticated := t, t != "";
    }

    /** `setUser`: stores the user and authenticates exactly when there is
      * both a user and a token; the token stays. */
    method SetUser(u: Option<AuthUser>)
      modifies this
      ensures user == u && token == old(token) && isAuthenticated == (u.Some? && old(token) != "")
      ensures Consistent(Persisted())
    {
      user, isAuthenticated := u, u.Some? && token != "";
    }

    /** `login`: pushes the token and stores token and user, authenticated
      * whatever the token is. */
    method Login(client: KyInstance.Client, t: string, u: AuthUser)
      modifies this, client
      ensures Persisted() == Snapshot(t, Some(u), true)
      ensures client.defaultAuthorization == Some(KyInstance.BEARER_PREFIX + t) && client.hooked == old(client.hooked)
      ensures t != "" ==> Consistent(Persisted())
    {
      client.PushTokenToHeader(t);
      token, user, isAuthenticated := t, Some(u), true;
    }

    /** `logout`: drops the header (and the request hook) and returns to the initial state. */
    method Logout(client: KyInstance.Client)
      modifies this, client
      ensures Persisted() == INITIAL
      ensures client.defaultAuthorization.None? && !client.hooked
    {
      client.RemoveTokenFromHeader();
      token, user, isAuthenticated := INITIAL.token, INITIAL.user, INITIAL.isAuthenticated;
    }

    /** `clearAuth`: the same transition as `logout`. */
    method ClearAuth(client: KyInstance.Client)
      modifies this, client
      ensures Persisted() == INITIAL
      ensures client.defaultAuthorization.None? && !client.hooked
    {
      client.RemoveTokenFromHeader();
      token, user, isAuthenticated := INITIAL.token, INITIAL.user, INITIAL.isAuthenticated;
    }
  }

  /** After logging in and out again, no request carries an `Authorization`
    * header, and the hook would find no token in storage either. */
  method LogoutForgetsToken(t: string, u: AuthUser, url: string, routes: seq<string>)
    returns (sent: Option<string>, stored: string)
    ensures sent.None? && stored == ""
  {
    var client := new KyInstance.Client();
    var store := new Store();
    store.Login(client, t, u);
    store.Logout(client);
    PersistedTokenReadBack(store.Persisted());
    stored := KyInstance.GetAuthData(Some(StorageItem(store.Persisted())));
    sent := client.Authorization(Some(StorageItem(store.Persisted())), url, routes);
  }

  /** A login with a non-empty token sends that token on every request
    * (public routes included, through the pushed header). */
  method LoginSendsToken(t: string, u: AuthUser, url: string, routes: seq<string>)
    returns (sent: Option<string>)
    requires t != ""
    ensures sent == Some(KyInstance.BEARER_PREFIX + t)
  {
    var client := new KyInstance.Client();
    var store := new Store();
    store.Login(client, t, u);
    PersistedTokenReadBack(store.Persisted());
    sent := client.Authorization(Some(StorageItem(store.Persisted())), url, routes);
  }
}
