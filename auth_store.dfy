/**
 * The sign-in store: the session token and the signed-in user, mirrored into the
 * browser's local storage under two keys so that a reload starts signed in.
 *
 * The user object is kept as its JSON text: `Some(text)` for a non-null value, `None`
 * for null.
 */
module AuthStore {
  import opened Wrappers

  const TokenKey := "auth_token"
  const UserKey := "auth_user"

  /** The browser's local storage: a map from keys to stored strings. */
  class LocalStorage {
    var items: map<string, string>

    constructor(initial: map<string, string>)
      ensures items == initial
    {
      items := initial;
    }
  }

  /** JSON text as `JSON.stringify` writes it for a non-null value: never empty and never "null". */
  predicate StoredUserText(user: Option<string>) {
    user.Some? ==> user.value != "" && user.value != "null"
  }

  /** The token found in storage at start-up: the stored string, or null when the key is missing. */
  function LoadToken(items: map<string, string>): (t: Option<string>)
    ensures t.Some? <==> TokenKey in items
    ensures t.Some? ==> t.value == items[TokenKey]
  {
    if TokenKey in items then Some(items[TokenKey]) else None
  }

  /** The user found in storage at start-up: a missing or empty entry reads as the JSON text "null". */
  function LoadUser(items: map<string, string>): (u: Option<string>)
    ensures StoredUserText(u)
    ensures u.Some? ==> UserKey in items && u.value == items[UserKey]
    ensures UserKey in items && items[UserKey] != "" && items[UserKey] != "null" ==> u == Some(items[UserKey])
  {
    var text := if UserKey in items && items[UserKey] != "" then items[UserKey] else "null";
    if text == "null" then None else Some(text)
  }

  /** The storage after a sign-in. */
  function SaveLogin(items: map<string, string>, token: string, user: Option<string>): (r: map<string, string>)
    ensures TokenKey in r && r[TokenKey] == token
    ensures UserKey in r && r[UserKey] == (if user.Some? then user.value else "null")
  {
    items[TokenKey := token][UserKey := if user.Some? then user.value else "null"]
  }

  /** The storage after a sign-out. */
  function ClearLogin(items: map<string, string>): (r: map<string, string>)
    ensures TokenKey !in r && UserKey !in r
  {
    items - {TokenKey, UserKey}
  }

  /** Signing in or out leaves every other key of storage as it was. */
  lemma OtherKeysKept(items: map<string, string>, token: string, user: Option<string>, k: string)
    requires k != TokenKey && k != UserKey
    ensures k in SaveLogin(items, token, user) <==> k in items
    ensures k in ClearLogin(items) <==> k in items
    ensures k in items ==> SaveLogin(items, token, user)[k] == items[k] && ClearLogin(items)[k] == items[k]
  {
  }

  /** A store started after a sign-in finds the same token and user again. */
  lemma ReloadAfterLogin(items: map<string, string>, token: string, user: Option<string>)
    requires StoredUserText(user)
    ensures LoadToken(SaveLogin(items, token, user)) == Some(token)
    ensures LoadUser(SaveLogin(items, token, user)) == user
  {
  }

  /** A store started after a sign-out finds no token and no user. */
  lemma ReloadAfterLogout(items: map<string, string>)
    ensures LoadToken(ClearLogin(items)) == None && LoadUser(ClearLogin(items)) == None
  {
  }

  /** Signing out twice is signing out once. */
  lemma LogoutIdempotent(items: map<string, string>)
    ensures ClearLogin(ClearLogin(items)) == ClearLogin(items)
  {
  }

  class Store {
    var token: Option<string>
    var user: Option<string>
    const storage: LocalStorage

    /** The store as it starts: token and user read back from storage. */
    constructor(storage: LocalStorage)
      ensures this.storage == storage
      ensures token == LoadToken(storage.items) && user == LoadUser(storage.items)
    {
      this.storage := storage;
      token := LoadToken(storage.items);
      user := LoadUser(storage.items);
    }

    /** Signs in: keeps the token and user and writes both to storage. */
    method Login(newToken: string, userInfo: Option<string>)
      modifies this, storage
      ensures token == Some(newToken) && user == userInfo
      ensures storage.items == SaveLogin(old(storage.items), newToken, userInfo)
    {
      token := Some(newToken);
      user := userInfo;
      storage.items := storage.items[TokenKey := newToken];
      storage.items := storage.items[UserKey := if userInfo.Some? then userInfo.value else "null"];
    }

    /** Signs out: forgets the token and user and removes both keys from storage. */
    method Logout()
      modifies this, storage
      ensures token == None && user == None
      ensures storage.items == ClearLogin(old(storage.items))
    {
      token := None;
      user := None;
      storage.items := storage.items - {TokenKey};
      storage.items := storage.items - {UserKey};
    }
  }
}
