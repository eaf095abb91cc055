/** The browser's `localStorage` as the session uses it: a string-to-string map shared by
    the auth provider and the HTTP interceptors. */
module LocalStorage {
  import opened Wrappers

  const TokenKey := "@goold:token"
  const UserKey := "@goold:user"

  class Storage {
    var items: map<string, string>

    constructor(initial: map<string, string>)
      ensures items == initial
    {
      items := initial;
    }

    /** `getItem`: `null` for a missing key. */
    function GetItem(key: string): (r: Option<string>)
      reads this
      ensures r.Some? <==> key in items
      ensures r.Some? ==> r.value == items[key]
    {
      if key in items then Some(items[key]) else None
    }

    method SetItem(key: string, value: string)
      modifies this
      ensures items == old(items)[key := value]
    {
      items := items[key := value];
    }

    method RemoveItem(key: string)
      modifies this
      ensures items == old(items) - {key}
    {
      items := items - {key};
    }

    /** Removing both session keys, as logout and a 401 answer do. */
    method ClearSession()
      modifies this
      ensures items == old(items) - {TokenKey, UserKey}
      ensures TokenKey !in items && UserKey !in items
      ensures forall k :: k in old(items) && k != TokenKey && k != UserKey ==> k in items && items[k] == old(items)[k]
    {
      RemoveItem(TokenKey);
      RemoveItem(UserKey);
    }
  }
}
