/** The user store: the session token and the signed-in user, kept both in
    the store and in the browser's storage. */
module UserStore {
  import opened Common
  import opened Types
  import opened Storage

  /** Login state from a token and a user: `!!token && !!user`. */
  function LoggedIn(token: string, user: Option<User>): (b: bool)
    ensures b <==> |token| > 0 && user != None
  {
    token != "" && user.Some?
  }

  class Store {
    var token: string
    var user: Option<User>
    const storage: LocalStorage

    /** The store and the storage say the same thing about the session. */
    predicate Synced()
      reads this, storage
    {
      StoredToken(storage.items) == token && StoredUser(storage.items) == user
    }

    /** The store starts from what the storage holds. */
    constructor(storage: LocalStorage)
      ensures this.storage == storage
      ensures token == StoredToken(storage.items) && user == StoredUser(storage.items)
      ensures Synced()
    {
      this.storage := storage;
      token := StoredToken(storage.items);
      user := StoredUser(storage.items);
    }

    /** `isLoggedIn`. */
    function IsLoggedIn(): (b: bool)
      reads this, storage
      ensures b <==> token != "" && user.Some?
      ensures Synced() ==> (b <==> LoggedIn(StoredToken(storage.items), StoredUser(storage.items)))
    {
      LoggedIn(token, user)
    }

    /** Writes a session the server handed out: storage first, then the
        store (the delay between the two is a timing detail only). */
    method StartSession(res: LoginResponse)
      modifies this, storage
      ensures token == res.token && user == Some(res.user)
      ensures storage.items == old(storage.items)[TokenKey := Text(res.token)][UserKey := UserJson(res.user)]
    {
      storage.SetItem(TokenKey, Text(res.token));
      storage.SetItem(UserKey, UserJson(res.user));
      token := res.token;
      user := Some(res.user);
    }

    /** `login(data)`: a failed call changes nothing and is rethrown. */
    method Login(data: LoginRequest, api: Outcome<LoginResponse>) returns (r: Outcome<LoginResponse>)
      modifies this, storage
      ensures r == api
      ensures api.Success? ==>
        && token == api.value.token && user == Some(api.value.user)
        && storage.items == old(storage.items)[TokenKey := Text(api.value.token)][UserKey := UserJson(api.value.user)]
        && Synced()
      ensures api.Failure? ==>
        token == old(token) && user == old(user) && storage.items == old(storage.items)
    {
      if api.Success? {
        StartSession(api.value);
      }
      r := api;
    }

    /** `register(data)`: the same local effect as a login. */
    method Register(data: RegisterRequest, api: Outcome<LoginResponse>) returns (r: Outcome<LoginResponse>)
      modifies this, storage
      ensures r == api
      ensures api.Success? ==>
        && token == api.value.token && user == Some(api.value.user)
        && storage.items == old(storage.items)[TokenKey := Text(api.value.token)][UserKey := UserJson(api.value.user)]
        && Synced()
      ensures api.Failure? ==>
        token == old(token) && user == old(user) && storage.items == old(storage.items)
    {
      if api.Success? {
        StartSession(api.value);
      }
      r := api;
    }

    /** `logout`: whatever the server answers, the session is cleared in
        the store and in the storage, and the promise resolves. */
    method Logout(api: Outcome<()>) returns (r: Outcome<()>)
      modifies this, storage
      ensures r == Success(())
      ensures token == "" && user == None
      ensures storage.items == old(storage.items) - {TokenKey, UserKey}
      ensures !IsLoggedIn() && Synced()
    {
      token := "";
      user := None;
      storage.RemoveItem(TokenKey);
      storage.RemoveItem(UserKey);
      r := Success(());
    }

    /** `updateUser(newUser)`: replaces the user only. */
    method UpdateUser(newUser: User)
      modifies this, storage
      ensures user == Some(newUser) && token == old(token)
      ensures storage.items == old(storage.items)[UserKey := UserJson(newUser)]
      ensures old(Synced()) ==> Synced()
    {
      user := Some(newUser);
      storage.SetItem(UserKey, UserJson(newUser));
    }

    /** `fetchUserInfo`: on success the same effect as `updateUser`; a
        failure changes nothing and is rethrown. */
    method FetchUserInfo(api: Outcome<User>) returns (r: Outcome<User>)
      modifies this, storage
      ensures r == api
      ensures token == old(token)
      ensures api.Success? ==>
        user == Some(api.value) && storage.items == old(storage.items)[UserKey := UserJson(api.value)]
      ensures api.Failure? ==> user == old(user) && storage.items == old(storage.items)
      ensures old(Synced()) ==> Synced()
    {
      if api.Success? {
        UpdateUser(api.value);
      }
      r := api;
    }

    /** `checkAuth`: true exactly when a non-empty token and a user are held. */
    method CheckAuth() returns (ok: bool)
      ensures ok == IsLoggedIn()
      ensures ok <==> token != "" && user.Some?
    {
      ok := IsLoggedIn();
    }
  }

  /** A signed-in session whose token is non-empty reads as logged in, both
      from the store and from the storage it wrote. */
  lemma SessionIsLoggedIn(items: map<string, Item>, res: LoginResponse)
    requires res.token != ""
    ensures var after := items[TokenKey := Text(res.token)][UserKey := UserJson(res.user)];
      && LoggedIn(res.token, Some(res.user))
      && StoredToken(after) == res.token && StoredUser(after) == Some(res.user)
  {
    var after := items[TokenKey := Text(res.token)][UserKey := UserJson(res.user)];
    assert TokenKey != UserKey;
    assert after[TokenKey] == Text(res.token);
  }

  /** Storage with the session keys removed reads back as no session. */
  lemma ClearedStorageIsLoggedOut(items: map<string, Item>)
    ensures var after := items - {TokenKey, UserKey};
      StoredToken(after) == "" && StoredUser(after) == None
      && !LoggedIn(StoredToken(after), StoredUser(after))
  {
  }
}
