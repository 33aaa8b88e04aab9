/** The session and event controller of App.tsx: who is signed in, the
    in-memory event list, and the flags that keep the list from being saved
    before it has been loaded. React's effects and the load timer's callback
    are methods of their own, called in the order React would run them. */
module App {
  import opened Wrappers
  import opened Types
  import opened Seqs
  import opened LocalStore

  const InvalidCredentialsMessage: string := "Invalid credentials"

  /** `prev.map(e => e.id === saved.id ? saved : e)`: every event with the
      saved event's id is replaced, every other event stays where it was. */
  function ReplaceById(events: seq<CourseEvent>, saved: CourseEvent): (r: seq<CourseEvent>)
    ensures |r| == |events|
    ensures forall i :: 0 <= i < |r| && events[i].id == saved.id ==> r[i] == saved
    ensures forall i :: 0 <= i < |r| && events[i].id != saved.id ==> r[i] == events[i]
    ensures (forall e :: e in events ==> e.id != saved.id) ==> r == events
  {
    seq(|events|, i requires 0 <= i < |events| => if events[i].id == saved.id then saved else events[i])
  }

  /** `prev.filter(e => e.id !== id)`. */
  function WithoutEvent(events: seq<CourseEvent>, id: string): (r: seq<CourseEvent>)
    ensures forall e :: e in r <==> e in events && e.id != id
    ensures forall e: CourseEvent :: e.id != id ==> multiset(r)[e] == multiset(events)[e]
    ensures (forall e :: e in events ==> e.id != id) ==> r == events
  {
    var keep := (e: CourseEvent) => e.id != id;
    if forall e :: e in events ==> keep(e) then
      FilterKeepsAll(events, keep);
      Filter(events, keep)
    else Filter(events, keep)
  }

  /** No two events of the list share an id. Ids come from `uuidv4()`, so a
      new event's id is taken to be absent from the list it joins. */
  predicate UniqueIds(events: seq<CourseEvent>) {
    forall i, j :: 0 <= i < j < |events| ==> events[i].id != events[j].id
  }

  /** Appending an event with a new id keeps ids unique. */
  lemma AppendFreshKeepsUniqueIds(events: seq<CourseEvent>, saved: CourseEvent)
    requires UniqueIds(events)
    requires forall e :: e in events ==> e.id != saved.id
    ensures UniqueIds(events + [saved])
  {
    var r := events + [saved];
    forall i, j | 0 <= i < j < |r|
      ensures r[i].id != r[j].id
    {
      if j == |events| {
        assert r[i] in events;
      }
    }
  }

  /** Replacing by id keeps ids unique, since a replaced event has the id it
      replaces. */
  lemma ReplaceByIdKeepsUniqueIds(events: seq<CourseEvent>, saved: CourseEvent)
    requires UniqueIds(events)
    ensures UniqueIds(ReplaceById(events, saved))
  {
  }

  /** With unique ids an update replaces exactly the one event with its id. */
  lemma {:induction false} ReplaceByIdReplacesOne(events: seq<CourseEvent>, saved: CourseEvent, k: nat)
    requires UniqueIds(events) && k < |events| && events[k].id == saved.id
    ensures ReplaceById(events, saved) == events[k := saved]
  {
    var r := ReplaceById(events, saved);
    forall i | 0 <= i < |r|
      ensures r[i] == events[k := saved][i]
    {
      if i != k {
        assert events[i].id != saved.id by {
          if i < k {
            assert events[i].id != events[k].id;
          } else {
            assert events[k].id != events[i].id;
          }
        }
      }
    }
  }

  /** Deleting keeps ids unique. */
  lemma WithoutEventKeepsUniqueIds(events: seq<CourseEvent>, id: string)
    ensures UniqueIds(events) ==> UniqueIds(WithoutEvent(events, id))
  {
    if !UniqueIds(events) {
      return;
    }
    var keep := (e: CourseEvent) => e.id != id;
    var key := (e: CourseEvent) => e.id;
    assert DistinctKeys(events, key);
    FilterKeepsDistinctKeys(events, keep, key);
    if forall e :: e in events ==> keep(e) {
      FilterKeepsAll(events, keep);
    }
    var r := WithoutEvent(events, id);
    assert r == Filter(events, keep);
    assert DistinctKeys(r, key);
  }

  /** `events.filter(e => e.date === selectedDateStr)`: the day's events. */
  function OnDay(events: seq<CourseEvent>, day: string): (r: seq<CourseEvent>)
    ensures forall e :: e in r <==> e in events && e.date == day
    ensures forall e: CourseEvent :: e.date == day ==> multiset(r)[e] == multiset(events)[e]
  {
    Filter(events, (e: CourseEvent) => e.date == day)
  }

  /** The day's events keep their relative order: the events of a list made
      of two parts are those of the first part followed by those of the
      second. */
  lemma OnDayKeepsOrder(first: seq<CourseEvent>, second: seq<CourseEvent>, day: string)
    ensures OnDay(first + second, day) == OnDay(first, day) + OnDay(second, day)
  {
    FilterAppend(first, second, (e: CourseEvent) => e.date == day);
  }

  /** Deleting keeps the other events in their order, in the same sense. */
  lemma WithoutEventKeepsOrder(first: seq<CourseEvent>, second: seq<CourseEvent>, id: string)
    ensures WithoutEvent(first + second, id) == WithoutEvent(first, id) + WithoutEvent(second, id)
  {
    var keep := (e: CourseEvent) => e.id != id;
    FilterAppend(first, second, keep);
    if forall e :: e in first + second ==> keep(e) {
      FilterKeepsAll(first + second, keep);
      FilterKeepsAll(first, keep);
      FilterKeepsAll(second, keep);
    }
  }

  /** What the load timer reads for a user: the stored list, or `[]` when
      nothing (or an empty string) is stored or the value does not parse. */
  function StoredEvents(items: map<string, Stored>, username: string): (r: seq<CourseEvent>)
    ensures DataKey(username) in items && items[DataKey(username)].EventsJson? ==>
              r == items[DataKey(username)].events
    ensures !(DataKey(username) in items && items[DataKey(username)].EventsJson?) ==> r == []
  {
    var key := DataKey(username);
    if key in items && Truthy(items[key]) && items[key].EventsJson? then items[key].events else []
  }

  /** What the side panel shows. */
  datatype Panel = Spinner | Form | List

  class Planner {
    const store: LocalStorage
    var user: Option<User>
    var events: seq<CourseEvent>
    var isAddingEvent: bool
    var editingEvent: Option<CourseEvent>
    var loadingData: bool
    var isDataLoaded: bool
    /** The selected day as its `yyyy-MM-dd` key. */
    var selectedDay: string
    /** The username the load timer captured, while the timer has not fired. */
    var pendingLoad: Option<string>
    /** The user the load effect last ran with: React runs it again only when
        `user` differs from this. */
    var effectUser: Option<User>
    /** The user whose stored list `events` was last loaded from. */
    ghost var loadedFor: Option<string>

    /** The phase flags agree with the timer: a load is in progress exactly
        while the timer is pending, the list counts as loaded only when no
        load is in progress, a pending load belongs to the signed-in user,
        and a loaded list was loaded for that same user. */
    ghost predicate Valid()
      reads this
    {
      && (loadingData <==> pendingLoad.Some?)
      && (isDataLoaded ==> !loadingData)
      && (pendingLoad.Some? && user.Some? ==>
            user == effectUser && pendingLoad.value == user.value.username)
      && (isDataLoaded && user.Some? ==> loadedFor == Some(user.value.username))
    }

    /** Mounting: the initial state, then the restore effect. A session key
        holding a serialised user signs that user in again; any other
        non-empty value does not parse and is removed. */
    constructor Mount(store: LocalStorage, today: string)
      modifies store
      ensures Valid() && this.store == store
      ensures events == [] && !isDataLoaded && !loadingData && pendingLoad.None?
      ensures !isAddingEvent && editingEvent.None? && effectUser.None? && selectedDay == today
      ensures SessionKey in old(store.items) && old(store.items)[SessionKey].UserJson? ==>
                user == Some(old(store.items)[SessionKey].user) && store.items == old(store.items)
      ensures SessionKey in old(store.items) && Truthy(old(store.items)[SessionKey])
              && !old(store.items)[SessionKey].UserJson? ==>
                user.None? && store.items == old(store.items) - {SessionKey}
      ensures (SessionKey !in old(store.items) || !Truthy(old(store.items)[SessionKey])) ==>
                user.None? && store.items == old(store.items)
    {
      this.store := store;
      user := None;
      events := [];
      isAddingEvent, editingEvent := false, None;
      loadingData, isDataLoaded := false, false;
      selectedDay := today;
      pendingLoad, effectUser := None, None;
      loadedFor := None;
      new;
      var savedSession := store.GetItem(SessionKey);
      if savedSession.Some? && Truthy(savedSession.value) {
        if savedSession.value.UserJson? {
          user := Some(savedSession.value.user);
        } else {
          store.RemoveItem(SessionKey);
        }
      }
    }

    /** `handleLogin`, only reachable from the login form, so with nobody
        signed in. The form waits 800 ms before calling it and the load
        timer fires after 500 ms, so no load is pending either. */
    method Login(username: string, pin: string, now: string, pinFull: bool, sessionFull: bool)
      returns (r: Result<User, Error>)
      requires Valid() && user.None? && pendingLoad.None?
      modifies this, store
      ensures Valid()
      ensures loadingData == old(loadingData) && pendingLoad == old(pendingLoad) && effectUser == old(effectUser)
      ensures isAddingEvent == old(isAddingEvent) && editingEvent == old(editingEvent)
      ensures selectedDay == old(selectedDay)
      // A stored PIN that differs: refused, nothing changes.
      ensures HasStoredPin(old(store.items), username)
              && old(store.items)[AuthKey(username)] != Text(pin) ==>
                r == Err(Thrown(InvalidCredentialsMessage))
                && user == old(user) && events == old(events) && isDataLoaded == old(isDataLoaded)
                && store.items == old(store.items)
      // A new user whose PIN cannot be stored: refused, nothing changes.
      ensures !HasStoredPin(old(store.items), username) && pinFull ==>
                r == Err(QuotaExceeded)
                && user == old(user) && events == old(events) && isDataLoaded == old(isDataLoaded)
                && store.items == old(store.items)
      // Otherwise the state is reset before the user is set, whether or not
      // the session record is then written.
      ensures (!HasStoredPin(old(store.items), username) && !pinFull)
              || (HasStoredPin(old(store.items), username) && old(store.items)[AuthKey(username)] == Text(pin)) ==>
                user == Some(User(username, Some(now))) && events == [] && !isDataLoaded
                && r == (if sessionFull then Err(QuotaExceeded) else Ok(User(username, Some(now))))
      // Registration, and the session record when it fits.
      ensures !HasStoredPin(old(store.items), username) && !pinFull ==>
                store.items == if sessionFull then old(store.items)[AuthKey(username) := Text(pin)]
                               else old(store.items)[AuthKey(username) := Text(pin)]
                                                    [SessionKey := UserJson(User(username, Some(now)))]
      ensures HasStoredPin(old(store.items), username) && old(store.items)[AuthKey(username)] == Text(pin) ==>
                store.items == if sessionFull then old(store.items)
                               else old(store.items)[SessionKey := UserJson(User(username, Some(now)))]
    {
      var authKey := AuthKey(username);
      var storedPin := store.GetItem(authKey);
      if storedPin.Some? && Truthy(storedPin.value) {
        if storedPin.value != Text(pin) {
          return Err(Thrown(InvalidCredentialsMessage));
        }
      } else {
        var registered := store.SetItem(authKey, Text(pin), pinFull);
        if registered.Err? {
          return Err(registered.error);
        }
      }
      var userData := User(username, Some(now));
      events := [];
      isDataLoaded := false;
      user := Some(userData);
      var recorded := store.SetItem(SessionKey, UserJson(userData), sessionFull);
      if recorded.Err? {
        return Err(recorded.error);
      }
      r := Ok(userData);
    }

    /** `handleLogout`. A load in progress is not cancelled. */
    method Logout()
      requires Valid()
      modifies this, store
      ensures Valid()
      ensures store.items == old(store.items) - {SessionKey}
      ensures user.None? && events == [] && !isDataLoaded && !isAddingEvent && editingEvent.None?
      ensures loadingData == old(loadingData) && pendingLoad == old(pendingLoad)
      ensures effectUser == old(effectUser) && selectedDay == old(selectedDay)
    {
      store.RemoveItem(SessionKey);
      isDataLoaded := false;
      events := [];
      isAddingEvent := false;
      editingEvent := None;
      user := None;
    }

    /** The load effect (dependency `[user]`). With a user it marks the list
        as loading and not loaded and starts the timer; without one it
        empties the list. */
    method LoadEffect()
      requires Valid()
      modifies this
      ensures Valid() && effectUser == user && user == old(user)
      ensures old(user) == old(effectUser) ==> unchanged(this)
      ensures old(user) != old(effectUser) && user.Some? ==>
                loadingData && !isDataLoaded && pendingLoad == Some(user.value.username)
                && events == old(events)
      ensures old(user) != old(effectUser) && user.None? ==>
                events == [] && !isDataLoaded
                && loadingData == old(loadingData) && pendingLoad == old(pendingLoad)
      ensures isAddingEvent == old(isAddingEvent) && editingEvent == old(editingEvent)
      ensures selectedDay == old(selectedDay)
    {
      if user == effectUser {
        return;
      }
      effectUser := user;
      if user.Some? {
        loadingData := true;
        isDataLoaded := false;
        pendingLoad := Some(user.value.username);
      } else {
        events := [];
        isDataLoaded := false;
      }
    }

    /** The load timer fires: the list stored for the captured user replaces
        the in-memory list, and saving is allowed again. */
    method CompleteLoad()
      requires Valid() && pendingLoad.Some?
      modifies this
      ensures Valid()
      ensures events == StoredEvents(store.items, old(pendingLoad).value)
      ensures isDataLoaded && !loadingData && pendingLoad.None?
      ensures loadedFor == old(pendingLoad)
      ensures user == old(user) && effectUser == old(effectUser)
      ensures isAddingEvent == old(isAddingEvent) && editingEvent == old(editingEvent)
      ensures selectedDay == old(selectedDay)
    {
      var username := pendingLoad.value;
      events := StoredEvents(store.items, username);
      isDataLoaded := true;
      loadingData := false;
      pendingLoad := None;
      loadedFor := Some(username);
    }

    /** The save effect. It writes only with a user, a loaded list and no
        load in progress, and then only the list loaded for that same user
        (as edited since); a write the browser refuses is reported and
        dropped. */
    method SaveEffect(full: bool) returns (wrote: bool)
      requires Valid()
      modifies store
      ensures wrote <==> user.Some? && isDataLoaded && !loadingData && !full
      ensures wrote ==> pendingLoad.None? && loadedFor == Some(user.value.username)
                        && store.items == old(store.items)[DataKey(user.value.username) := EventsJson(events)]
      ensures !wrote ==> store.items == old(store.items)
      ensures loadingData ==> store.items == old(store.items)
    {
      wrote := false;
      if user.Some? && isDataLoaded && !loadingData {
        var written := store.SetItem(DataKey(user.value.username), EventsJson(events), full);
        wrote := written.Ok?;
      }
    }

    /** `handleSaveEvent`: an edit replaces the events with the saved id, a
        new event is appended; the form closes. */
    method SaveEvent(saved: CourseEvent)
      requires Valid()
      modifies this
      ensures Valid()
      ensures old(editingEvent).Some? ==> events == ReplaceById(old(events), saved)
      ensures old(editingEvent).None? ==> events == old(events) + [saved]
      ensures UniqueIds(old(events))
              && (old(editingEvent).Some? || forall e :: e in old(events) ==> e.id != saved.id) ==>
                UniqueIds(events)
      ensures !isAddingEvent && editingEvent.None?
      ensures user == old(user) && loadingData == old(loadingData) && isDataLoaded == old(isDataLoaded)
      ensures pendingLoad == old(pendingLoad) && effectUser == old(effectUser)
      ensures selectedDay == old(selectedDay)
    {
      if editingEvent.Some? {
        if UniqueIds(events) {
          ReplaceByIdKeepsUniqueIds(events, saved);
        }
        events := ReplaceById(events, saved);
      } else {
        if UniqueIds(events) && forall e :: e in events ==> e.id != saved.id {
          AppendFreshKeepsUniqueIds(events, saved);
        }
        events := events + [saved];
      }
      isAddingEvent := false;
      editingEvent := None;
    }

    /** `handleEditEvent`: open the form on an event. */
    method EditEvent(e: CourseEvent)
      requires Valid()
      modifies this
      ensures Valid()
      ensures editingEvent == Some(e) && isAddingEvent
      ensures events == old(events) && user == old(user) && loadingData == old(loadingData)
      ensures isDataLoaded == old(isDataLoaded) && pendingLoad == old(pendingLoad)
      ensures effectUser == old(effectUser) && selectedDay == old(selectedDay)
    {
      editingEvent := Some(e);
      isAddingEvent := true;
    }

    /** The add button opens the form for a new event. */
    method OpenAddForm()
      requires Valid()
      modifies this
      ensures Valid()
      ensures isAddingEvent && editingEvent == old(editingEvent)
      ensures events == old(events) && user == old(user) && loadingData == old(loadingData)
      ensures isDataLoaded == old(isDataLoaded) && pendingLoad == old(pendingLoad)
      ensures effectUser == old(effectUser) && selectedDay == old(selectedDay)
    {
      isAddingEvent := true;
    }

    /** The form's cancel button. */
    method CancelForm()
      requires Valid()
      modifies this
      ensures Valid()
      ensures !isAddingEvent && editingEvent.None?
      ensures events == old(events) && user == old(user) && loadingData == old(loadingData)
      ensures isDataLoaded == old(isDataLoaded) && pendingLoad == old(pendingLoad)
      ensures effectUser == old(effectUser) && selectedDay == old(selectedDay)
    {
      isAddingEvent := false;
      editingEvent := None;
    }

    /** `handleDateClick`: select a day and close the form. */
    method SelectDay(day: string)
      requires Valid()
      modifies this
      ensures Valid()
      ensures selectedDay == day && !isAddingEvent && editingEvent.None?
      ensures events == old(events) && user == old(user) && loadingData == old(loadingData)
      ensures isDataLoaded == old(isDataLoaded) && pendingLoad == old(pendingLoad)
      ensures effectUser == old(effectUser)
    {
      selectedDay := day;
      isAddingEvent := false;
      editingEvent := None;
    }

    /** `handleDeleteEvent`: once confirmed, every event with the id goes; an
        edit of that event is abandoned. Declining changes nothing. */
    method DeleteEvent(id: string, confirmed: bool)
      requires Valid()
      modifies this
      ensures Valid()
      ensures !confirmed ==> unchanged(this)
      ensures confirmed ==> events == WithoutEvent(old(events), id)
      ensures UniqueIds(old(events)) ==> UniqueIds(events)
      ensures confirmed && old(editingEvent).Some? && old(editingEvent).value.id == id ==>
                editingEvent.None? && !isAddingEvent
      ensures !(old(editingEvent).Some? && old(editingEvent).value.id == id) ==>
                editingEvent == old(editingEvent) && isAddingEvent == old(isAddingEvent)
      ensures user == old(user) && loadingData == old(loadingData) && isDataLoaded == old(isDataLoaded)
      ensures pendingLoad == old(pendingLoad) && effectUser == old(effectUser)
      ensures selectedDay == old(selectedDay)
    {
      if confirmed {
        WithoutEventKeepsUniqueIds(events, id);
        events := WithoutEvent(events, id);
        if editingEvent.Some? && editingEvent.value.id == id {
          editingEvent := None;
          isAddingEvent := false;
        }
      }
    }

    /** The events listed for the selected day. */
    function VisibleEvents(): (r: seq<CourseEvent>)
      reads this
      ensures forall e :: e in r <==> e in events && e.date == selectedDay
    {
      OnDay(events, selectedDay)
    }

    /** The side panel: a spinner while loading, else the form when adding or
        editing, else the day's list. */
    function SidePanel(): (p: Panel)
      reads this
      ensures p == Spinner <==> loadingData
      ensures p == Form <==> !loadingData && (isAddingEvent || editingEvent.Some?)
    {
      if loadingData then Spinner
      else if isAddingEvent || editingEvent.Some? then Form
      else List
    }
  }

  /** A slow load does not overwrite the stored list: while the timer is
      pending the save effect writes nothing, and the load then brings back
      exactly what was stored. */
  method SlowLoadKeepsStoredList(username: string, pin: string, stored: seq<CourseEvent>,
                                 now: string, today: string)
    returns (wroteWhileLoading: bool, loaded: seq<CourseEvent>, wroteAfterLoad: bool,
             kept: map<string, Stored>)
    ensures !wroteWhileLoading
    ensures loaded == stored
    ensures wroteAfterLoad
    ensures DataKey(username) in kept && kept[DataKey(username)] == EventsJson(stored)
  {
    KeysDistinct(username, username);
    var store := new LocalStorage(map[DataKey(username) := EventsJson(stored)]);
    var app := new Planner.Mount(store, today);
    var signedIn := app.Login(username, pin, now, false, false);
    app.LoadEffect();
    wroteWhileLoading := app.SaveEffect(false);
    app.CompleteLoad();
    loaded := app.events;
    wroteAfterLoad := app.SaveEffect(false);
    kept := store.items;
  }

  /** Register, add one event, reload the page: the reloaded list is exactly
      that event, and the user is signed in again from the session record. */
  method AddEventThenReload(e: CourseEvent, now: string, today: string)
    returns (restored: Option<User>, reloaded: seq<CourseEvent>)
    ensures restored == Some(User("ann", Some(now)))
    ensures reloaded == [e]
  {
    KeysDistinct("ann", "ann");
    var store := new LocalStorage(map[]);
    var app := new Planner.Mount(store, today);
    var signedIn := app.Login("ann", "1234", now, false, false);
    app.LoadEffect();
    app.CompleteLoad();
    app.OpenAddForm();
    app.SaveEvent(e);
    var wrote := app.SaveEffect(false);
    var again := new Planner.Mount(store, today);
    restored := again.user;
    again.LoadEffect();
    again.CompleteLoad();
    reloaded := again.events;
  }
}
