/** The storage service of lib/storage.ts: sign-in with registration on first
    login, and loading and saving a user's event list, each trying the remote
    `users` table first and falling back to the browser's local storage. */
module Storage {
  import opened Wrappers
  import opened Types
  import opened Strings
  import opened LocalStore

  /** A row of the remote `users` table, keyed by username. */
  datatype Row = Row(pin: string, events: Option<seq<CourseEvent>>)

  /** How the remote answers one call: whether it can be reached at all, and
      the message of the error an `insert` would report, if any. */
  datatype Network = Network(reachable: bool, insertFailure: Option<string>)

  /** What `select ... .eq('username', u).single()` reports: the row, no row
      (error code `PGRST116`), or any other error. */
  datatype Lookup = Found(row: Row) | NotFound | TransportError

  /** An `update({ events }).eq('username', u)` issued and not awaited. */
  datatype Update = Update(username: string, events: seq<CourseEvent>)

  const RemotePinMessage: string := "รหัสผ่าน (PIN) ไม่ถูกต้อง"
  const LocalPinMessage: string := "รหัสผ่าน (PIN) ไม่ถูกต้อง (Local)"
  const ConnectionMessage: string := "Database Connection Error"

  /** The lookup of one username in the remote table. */
  function Select(table: map<string, Row>, username: string, reachable: bool): (o: Lookup)
    ensures o.TransportError? <==> !reachable
    ensures o.Found? <==> reachable && username in table
    ensures o.Found? ==> o.row == table[username]
  {
    if !reachable then TransportError
    else if username in table then Found(table[username])
    else NotFound
  }

  /** The test in login's catch block: an error whose message mentions `PIN`
      is thrown on; any other error sends login to local storage. */
  predicate RethrownByCatch(message: string) {
    Contains(message, "PIN")
  }

  /** The remote PIN mismatch is thrown on. */
  lemma PinMismatchIsRethrown()
    ensures RethrownByCatch(RemotePinMessage)
  {
    var m := RemotePinMessage;
    assert m[10] == 'P' && m[11] == 'I' && m[12] == 'N';
    assert "PIN" <= m[10..];
  }

  /** A connection error is not thrown on: login falls back to local storage. */
  lemma ConnectionErrorFallsBack()
    ensures !RethrownByCatch(ConnectionMessage)
  {
    var m := ConnectionMessage;
    assert forall i :: 0 <= i < |m| ==> m[i] != 'P';
    NotContainsWithoutFirst(m, "PIN");
  }

  /** Login's catch block for an error with `message`: thrown on to the
      caller (Some) or swallowed, so that login goes on locally (None). */
  function Catch(message: string): (answer: Option<Result<User, Error>>)
    ensures answer.Some? <==> RethrownByCatch(message)
    ensures answer.Some? ==> answer.value == Err(Thrown(message))
  {
    if RethrownByCatch(message) then Some(Err(Thrown(message))) else None
  }

  /** True when login leaves the remote path and checks local storage: no
      remote, an unreachable remote, or a failed registration whose error
      does not mention `PIN`. */
  predicate FallsBackToLocal(remote: Option<map<string, Row>>, username: string, net: Network) {
    || remote.None?
    || !net.reachable
    || (username !in remote.value && net.insertFailure.Some?
        && !RethrownByCatch(net.insertFailure.value))
  }

  /** The event list `loadEvents` reads from local storage: none stored (or an
      empty string) gives `[]`, a serialised list gives that list, and any
      other value makes `JSON.parse` throw. */
  function LocalEvents(items: map<string, Stored>, username: string): (r: Result<seq<CourseEvent>, Error>)
    ensures DataKey(username) !in items ==> r == Ok([])
    ensures DataKey(username) in items && !Truthy(items[DataKey(username)]) ==> r == Ok([])
    ensures DataKey(username) in items && items[DataKey(username)].EventsJson? ==>
              r == Ok(items[DataKey(username)].events)
    ensures DataKey(username) in items && Truthy(items[DataKey(username)])
              && !items[DataKey(username)].EventsJson? ==>
                r == Err(Unparseable)
    ensures r.Err? ==> r.error == Unparseable
    ensures r.Ok? && DataKey(username) in items && Truthy(items[DataKey(username)]) ==>
              items[DataKey(username)] == EventsJson(r.value)
  {
    var key := DataKey(username);
    if key !in items || !Truthy(items[key]) then Ok([])
    else if items[key].EventsJson? then Ok(items[key].events)
    else Err(Unparseable)
  }

  /** What a delivered update does to the remote table: the user's row, if
      there is one, gets the new events; without a row nothing changes. */
  function ApplyUpdate(table: map<string, Row>, u: Update): (t: map<string, Row>)
    ensures t.Keys == table.Keys
    ensures forall name :: name in t && name != u.username ==> t[name] == table[name]
    ensures u.username in t ==> t[u.username] == table[u.username].(events := Some(u.events))
  {
    if u.username in table then table[u.username := table[u.username].(events := Some(u.events))]
    else table
  }

  class StorageService {
    const store: LocalStorage
    /** The remote `users` table; None when no remote is configured. */
    var remote: Option<map<string, Row>>
    /** Remote updates issued by saveEvents that have not settled yet. */
    var outbox: seq<Update>

    /** Updates are only ever issued to a configured remote. */
    ghost predicate Valid()
      reads this
    {
      remote.None? ==> outbox == []
    }

    constructor (store: LocalStorage, remote: Option<map<string, Row>>)
      ensures Valid()
      ensures this.store == store && this.remote == remote && outbox == []
    {
      this.store := store;
      this.remote := remote;
      outbox := [];
    }

    /** `login(username, pin)`. `now` is the login time stamp; `full` says the
        browser refuses a local write. */
    method Login(username: string, pin: string, now: string, net: Network, full: bool)
      returns (r: Result<User, Error>)
      requires Valid()
      modifies this, store
      ensures Valid() && outbox == old(outbox)
      // A remote row with the same PIN: signed in, nothing written.
      ensures old(remote).Some? && net.reachable && username in old(remote).value
              && old(remote).value[username].pin == pin ==>
                r == Ok(User(username, Some(now)))
                && remote == old(remote) && store.items == old(store.items)
      // A remote row with another PIN: the error reaches the caller and
      // local storage is never consulted.
      ensures old(remote).Some? && net.reachable && username in old(remote).value
              && old(remote).value[username].pin != pin ==>
                r == Err(Thrown(RemotePinMessage))
                && remote == old(remote) && store.items == old(store.items)
      // No remote row: exactly one row is inserted.
      ensures old(remote).Some? && net.reachable && username !in old(remote).value
              && net.insertFailure.None? ==>
                r == Ok(User(username, Some(now)))
                && remote == Some(old(remote).value[username := Row(pin, Some([]))])
                && store.items == old(store.items)
      // A failed insert whose message mentions PIN is thrown on.
      ensures old(remote).Some? && net.reachable && username !in old(remote).value
              && net.insertFailure.Some? && RethrownByCatch(net.insertFailure.value) ==>
                r == Err(Thrown(net.insertFailure.value))
                && remote == old(remote) && store.items == old(store.items)
      // Local fallback, keyed by planner_auth_{username}.
      ensures FallsBackToLocal(old(remote), username, net) ==> remote == old(remote)
      ensures FallsBackToLocal(old(remote), username, net)
              && HasStoredPin(old(store.items), username) ==>
                store.items == old(store.items)
                && r == if old(store.items)[AuthKey(username)] == Text(pin)
                        then Ok(User(username, Some(now)))
                        else Err(Thrown(LocalPinMessage))
      ensures FallsBackToLocal(old(remote), username, net)
              && !HasStoredPin(old(store.items), username) ==>
                if full then r == Err(QuotaExceeded) && store.items == old(store.items)
                else r == Ok(User(username, Some(now)))
                     && store.items == old(store.items)[AuthKey(username) := Text(pin)]
    {
      var answer := TryRemote(username, pin, now, net);
      if answer.Some? {
        return answer.value;
      }
      r := LocalLogin(username, pin, now, full);
    }

    /** The remote half of login (lib/storage.ts:13-47): Some(result) when the
        remote decides, None when login goes on to local storage. */
    method TryRemote(username: string, pin: string, now: string, net: Network)
      returns (answer: Option<Result<User, Error>>)
      modifies this
      ensures outbox == old(outbox)
      ensures answer.None? <==> FallsBackToLocal(old(remote), username, net)
      ensures answer.None? ==> remote == old(remote)
      ensures answer.Some? ==> old(remote).Some? && net.reachable
      ensures answer.Some? && username in old(remote).value ==>
                remote == old(remote)
                && answer.value == if old(remote).value[username].pin == pin
                                   then Ok(User(username, Some(now)))
                                   else Err(Thrown(RemotePinMessage))
      ensures answer.Some? && username !in old(remote).value ==>
                if net.insertFailure.None?
                then answer.value == Ok(User(username, Some(now)))
                     && remote == Some(old(remote).value[username := Row(pin, Some([]))])
                else answer.value == Err(Thrown(net.insertFailure.value)) && remote == old(remote)
    {
      if remote.None? {
        return None;
      }
      // The try block; each error it throws goes to the catch block.
      match Select(remote.value, username, net.reachable) {
        case TransportError =>
          ConnectionErrorFallsBack();
          answer := Catch(ConnectionMessage);
        case Found(row) =>
          if row.pin != pin {
            PinMismatchIsRethrown();
            answer := Catch(RemotePinMessage);
          } else {
            answer := Some(Ok(User(username, Some(now))));
          }
        case NotFound =>
          if net.insertFailure.Some? {
            answer := Catch(net.insertFailure.value);
          } else {
            remote := Some(remote.value[username := Row(pin, Some([]))]);
            answer := Some(Ok(User(username, Some(now))));
          }
      }
    }

    /** The local half of login (lib/storage.ts:50-60): a stored PIN must
        match; without one (or with an empty one) the PIN is registered. */
    method LocalLogin(username: string, pin: string, now: string, full: bool)
      returns (r: Result<User, Error>)
      modifies store
      ensures HasStoredPin(old(store.items), username) ==>
                store.items == old(store.items)
                && r == if old(store.items)[AuthKey(username)] == Text(pin)
                        then Ok(User(username, Some(now)))
                        else Err(Thrown(LocalPinMessage))
      ensures !HasStoredPin(old(store.items), username) ==>
                if full then r == Err(QuotaExceeded) && store.items == old(store.items)
                else r == Ok(User(username, Some(now)))
                     && store.items == old(store.items)[AuthKey(username) := Text(pin)]
    {
      var key := AuthKey(username);
      var storedPin := store.GetItem(key);
      if storedPin.Some? && Truthy(storedPin.value) {
        if storedPin.value != Text(pin) {
          return Err(Thrown(LocalPinMessage));
        }
      } else {
        var written := store.SetItem(key, Text(pin), full);
        if written.Err? {
          return Err(written.error);
        }
      }
      r := Ok(User(username, Some(now)));
    }

    /** `loadEvents(username)`: the remote row's events when it has them (an
        empty list included), otherwise the local list. The remote's errors
        are not inspected: an unreachable remote reads as no data. */
    method LoadEvents(username: string, reachable: bool) returns (r: Result<seq<CourseEvent>, Error>)
      ensures remote.Some? && reachable && username in remote.value
              && remote.value[username].events.Some? ==>
                r == Ok(remote.value[username].events.value)
      ensures !(remote.Some? && reachable && username in remote.value
                && remote.value[username].events.Some?) ==>
                r == LocalEvents(store.items, username)
    {
      if remote.Some? {
        var lookup := Select(remote.value, username, reachable);
        if lookup.Found? && lookup.row.events.Some? {
          return Ok(lookup.row.events.value);
        }
      }
      r := LocalEvents(store.items, username);
    }

    /** `saveEvents(username, events)`: the local write comes first; only if
        it succeeds is the remote update issued, and it is not awaited, so
        the remote table is unchanged when the call returns. */
    method SaveEvents(username: string, events: seq<CourseEvent>, full: bool) returns (r: Result<(), Error>)
      requires Valid()
      modifies this, store
      ensures Valid() && remote == old(remote)
      ensures full ==> r == Err(QuotaExceeded) && store.items == old(store.items)
                       && outbox == old(outbox)
      ensures !full ==> r == Ok(())
                        && store.items == old(store.items)[DataKey(username) := EventsJson(events)]
                        && outbox == old(outbox) + (if remote.Some? then [Update(username, events)] else [])
    {
      r := store.SetItem(DataKey(username), EventsJson(events), full);
      if r.Err? {
        return;
      }
      if remote.Some? {
        outbox := outbox + [Update(username, events)];
      }
    }

    /** One issued update settles, in whatever order they complete. A failed
        update is only logged; a delivered one reaches the remote table. */
    method SettleSync(i: nat, delivered: bool)
      requires Valid() && i < |outbox|
      modifies this
      ensures Valid() && remote.Some?
      ensures outbox == old(outbox)[..i] + old(outbox)[i + 1..]
      ensures remote == if delivered then Some(ApplyUpdate(old(remote).value, old(outbox)[i]))
                        else old(remote)
    {
      if delivered {
        remote := Some(ApplyUpdate(remote.value, outbox[i]));
      }
      outbox := outbox[..i] + outbox[i + 1..];
    }
  }

  /** A saved list is what a later local-only load returns. */
  lemma SavedListLoadsLocally(items: map<string, Stored>, username: string, events: seq<CourseEvent>)
    ensures LocalEvents(items[DataKey(username) := EventsJson(events)], username) == Ok(events)
  {
  }

  /** A save for one user changes nothing another user loads locally. */
  lemma SaveLeavesOtherUsers(items: map<string, Stored>, u: string, v: string, events: seq<CourseEvent>)
    requires u != v
    ensures LocalEvents(items[DataKey(u) := EventsJson(events)], v) == LocalEvents(items, v)
  {
    KeysDistinct(u, v);
  }

  /** Registration on first login, with the remote reachable on both logins
      or with no remote: a username never seen before gets in with any
      non-empty PIN, and the next login with another PIN is refused, by the
      remote when there is one and locally otherwise. */
  method FirstLoginRegisters(username: string, pin: string, other: string, now: string,
                             remote: Option<map<string, Row>>)
    returns (first: Result<User, Error>, second: Result<User, Error>)
    requires pin != "" && other != pin
    requires remote.Some? ==> username !in remote.value
    ensures first == Ok(User(username, Some(now)))
    ensures second == Err(Thrown(if remote.Some? then RemotePinMessage else LocalPinMessage))
  {
    var store := new LocalStorage(map[]);
    var service := new StorageService(store, remote);
    var online := Network(true, None);
    first := service.Login(username, pin, now, online, false);
    second := service.Login(username, other, now, online, false);
  }

  /** A PIN registered remotely is not known locally: when the remote cannot
      be reached on the next login, the local path finds no PIN and lets
      another one in (and stores it). */
  method RemoteOutageAdmitsOtherPin(username: string, pin: string, other: string, now: string,
                                    table: map<string, Row>)
    returns (first: Result<User, Error>, second: Result<User, Error>)
    requires pin != "" && other != pin && username !in table
    ensures first == Ok(User(username, Some(now)))
    ensures second == Ok(User(username, Some(now)))
  {
    var store := new LocalStorage(map[]);
    var service := new StorageService(store, Some(table));
    first := service.Login(username, pin, now, Network(true, None), false);
    second := service.Login(username, other, now, Network(false, None), false);
  }

  /** A PIN registered locally during an outage is not known remotely: once
      the remote is back, it has no row and registers another PIN. */
  method LocalRegistrationAdmitsOtherPinRemotely(username: string, pin: string, other: string, now: string,
                                                 table: map<string, Row>)
    returns (first: Result<User, Error>, second: Result<User, Error>)
    requires pin != "" && other != pin && username !in table
    ensures first == Ok(User(username, Some(now)))
    ensures second == Ok(User(username, Some(now)))
  {
    var store := new LocalStorage(map[]);
    var service := new StorageService(store, Some(table));
    first := service.Login(username, pin, now, Network(false, None), false);
    second := service.Login(username, other, now, Network(true, None), false);
  }

  /** With the remote unreachable, a load returns the list last saved. */
  method SaveThenLoadOffline(username: string, events: seq<CourseEvent>, remote: Option<map<string, Row>>)
    returns (saved: Result<(), Error>, loaded: Result<seq<CourseEvent>, Error>)
    ensures saved == Ok(())
    ensures loaded == Ok(events)
  {
    var store := new LocalStorage(map[]);
    var service := new StorageService(store, remote);
    saved := service.SaveEvents(username, events, false);
    loaded := service.LoadEvents(username, false);
  }
}
