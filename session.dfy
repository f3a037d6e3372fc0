/** The browser tab the client runs in: its session storage (string keys to string values),
    its current location, and the ordered trace of the effects the client has had on them. */
module Session {
  import opened Wrappers

  const AccessTokenKey := "accessToken"
  const RefreshTokenKey := "refreshToken"
  const UserTypeKey := "type"
  const LoginPath := "/login"

  /** One observable effect on the tab. */
  datatype Effect =
    | StoreItem(key: string, value: string)   // sessionStorage.setItem
    | ClearItems                              // sessionStorage.clear()
    | SetHref(href: string)                   // window.location.href = ...
    | PushRoute(path: string)                 // client-side navigation (router.push)

  /** `sessionStorage.getItem(key)`: the stored string, or `null`. */
  function GetItem(storage: map<string, string>, key: string): Option<string>
  {
    if key in storage then Some(storage[key]) else None
  }

  /** JavaScript truthiness of `getItem(key)`: present and not the empty string. */
  predicate HasNonEmpty(storage: map<string, string>, key: string)
  {
    key in storage && storage[key] != ""
  }

  class Browser {
    var storage: map<string, string>
    var location: string
    var trace: seq<Effect>

    constructor (storage0: map<string, string>, location0: string)
      ensures storage == storage0 && location == location0 && trace == []
    {
      storage, location, trace := storage0, location0, [];
    }

    method SetItem(key: string, value: string)
      modifies this
      ensures storage == old(storage)[key := value]
      ensures location == old(location)
      ensures trace == old(trace) + [StoreItem(key, value)]
    {
      storage := storage[key := value];
      trace := trace + [StoreItem(key, value)];
    }

    method Clear()
      modifies this
      ensures storage == map[] && location == old(location)
      ensures trace == old(trace) + [ClearItems]
    {
      storage := map[];
      trace := trace + [ClearItems];
    }

    method AssignLocation(href: string)
      modifies this
      ensures location == href && storage == old(storage)
      ensures trace == old(trace) + [SetHref(href)]
    {
      location := href;
      trace := trace + [SetHref(href)];
    }

    method RouterPush(path: string)
      modifies this
      ensures location == path && storage == old(storage)
      ensures trace == old(trace) + [PushRoute(path)]
    {
      location := path;
      trace := trace + [PushRoute(path)];
    }
  }

  /** The header's sign-out button: clear the session, then navigate to the login page. */
  method SignOut(b: Browser)
    modifies b
    ensures b.storage == map[] && b.location == LoginPath
    ensures b.trace == old(b.trace) + [ClearItems, PushRoute(LoginPath)]
  {
    b.Clear();
    b.RouterPush(LoginPath);
  }
}
