/** The browser's key/value storage (`localStorage`), shared by the user
    store and the request interceptors. Values are kept as abstract items
    instead of serialised text. */
module Storage {
  import opened Common
  import opened Types

  /** A stored value: plain text (the token) or a user record (kept where
      the client stores the user's JSON text). */
  datatype Item = Text(text: string) | UserJson(user: User)

  const TokenKey: string := "token"
  const UserKey: string := "user"

  class LocalStorage {
    var items: map<string, Item>

    constructor(initial: map<string, Item>)
      ensures items == initial
    {
      items := initial;
    }

    function GetItem(key: string): (r: Option<Item>)
      reads this
      ensures r.Some? <==> key in items
      ensures r.Some? ==> r.value == items[key]
    {
      if key in items then Some(items[key]) else None
    }

    method SetItem(key: string, value: Item)
      modifies this
      ensures items == old(items)[key := value]
    {
      items := items[key := value];
    }

    method RemoveItem(key: string)
      modifies this
      ensures items == old(items) - {key}
    {
      items := items - {key};
    }
  }

  /** The token as the client reads it back: `getItem('token') || ''`;
      an item that is not text was never written under this key and reads as
      no token. */
  function StoredToken(items: map<string, Item>): (t: string)
    ensures TokenKey in items && items[TokenKey].Text? ==> t == items[TokenKey].text
    ensures t != "" ==> TokenKey in items && items[TokenKey] == Text(t)
    ensures TokenKey !in items ==> t == ""
  {
    if TokenKey in items && items[TokenKey].Text? then items[TokenKey].text else ""
  }

  /** The user as the client reads it back: `JSON.parse(getItem('user') || 'null')`. */
  function StoredUser(items: map<string, Item>): (u: Option<User>)
    ensures u.Some? <==> UserKey in items && items[UserKey].UserJson?
    ensures u.Some? ==> items[UserKey] == UserJson(u.value)
  {
    if UserKey in items && items[UserKey].UserJson? then Some(items[UserKey].user) else None
  }
}
