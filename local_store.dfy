/** The browser's `localStorage` as both the storage service and the app use
    it, and the key layout they share. JSON serialisation is the identity:
    a value is stored as the string it was given or as the serialised list or
    user itself. */
module LocalStore {
  import opened Wrappers
  import opened Types

  /** A stored value. `Text` is a plain string (a PIN); `EventsJson` and
      `UserJson` are `JSON.stringify` of an event list and of a user. */
  datatype Stored = Text(text: string) | EventsJson(events: seq<CourseEvent>) | UserJson(user: User)

  /** `getItem` returns a string and the code tests it with `if (...)`: only
      the empty string is falsy, and a serialised value never is. */
  predicate Truthy(v: Stored) {
    !(v.Text? && v.text == "")
  }

  const AuthPrefix: string := "planner_auth_"
  const DataPrefix: string := "planner_data_"
  const SessionKey: string := "planner_current_session"

  /** Where a user's PIN is kept: `planner_auth_{username}`. */
  function AuthKey(username: string): (k: string)
    ensures AuthPrefix <= k && k[|AuthPrefix|..] == username
  {
    AuthPrefix + username
  }

  /** Where a user's event list is kept: `planner_data_{username}`. */
  function DataKey(username: string): (k: string)
    ensures DataPrefix <= k && k[|DataPrefix|..] == username
  {
    DataPrefix + username
  }

  /** A PIN is registered for the user: the auth key holds a non-empty value. */
  predicate HasStoredPin(items: map<string, Stored>, username: string) {
    AuthKey(username) in items && Truthy(items[AuthKey(username)])
  }

  /** The three kinds of key never collide, and each user has keys of their
      own: a write under one user's key leaves every other key alone. */
  lemma KeysDistinct(u: string, v: string)
    ensures AuthKey(u) != DataKey(v)
    ensures AuthKey(u) != SessionKey && DataKey(u) != SessionKey
    ensures AuthKey(u) == AuthKey(v) <==> u == v
    ensures DataKey(u) == DataKey(v) <==> u == v
  {
    assert AuthKey(u)[8] == 'a' && DataKey(v)[8] == 'd' && SessionKey[8] == 'c';
    assert DataKey(u)[8] == 'd';
  }

  /** `window.localStorage`: a map from keys to stored values. A write the
      browser refuses for lack of space (`QuotaExceededError`) changes nothing. */
  class LocalStorage {
    var items: map<string, Stored>

    constructor (initial: map<string, Stored>)
      ensures items == initial
    {
      items := initial;
    }

    /** `getItem(key)`: the stored value, or null when the key is absent. */
    method GetItem(key: string) returns (v: Option<Stored>)
      ensures key in items ==> v == Some(items[key])
      ensures key !in items ==> v == None
    {
      v := if key in items then Some(items[key]) else None;
    }

    /** `setItem(key, value)`; `full` says the browser's quota would be
        exceeded by this write, which then throws and stores nothing. */
    method SetItem(key: string, value: Stored, full: bool) returns (r: Result<(), Error>)
      modifies this
      ensures full ==> r == Err(QuotaExceeded) && items == old(items)
      ensures !full ==> r == Ok(()) && items == old(items)[key := value]
    {
      if full {
        r := Err(QuotaExceeded);
      } else {
        items := items[key := value];
        r := Ok(());
      }
    }

    /** `removeItem(key)`. */
    method RemoveItem(key: string)
      modifies this
      ensures items == old(items) - {key}
    {
      items := items - {key};
    }
  }
}
