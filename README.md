# Student planner: persistence, session and event logic

A Dafny model of the core of a small student-planner web app. Users sign in with a username and a PIN, then create, edit and delete course events on a calendar; events can carry file and link attachments. The model covers:

- **the storage service** (`lib/storage.ts`). Sign-in registers a user on their first login against an optional remote `users` table and falls back to the browser's local storage when the remote is absent or failing. The exception is a PIN mismatch, which the remote reports to the caller. The service also loads and saves a user's event list, remote first and local second. A save writes locally first and then issues an un-awaited remote update.
- **the session/event controller** (`App.tsx`), a state machine over `user`, `events`, `isDataLoaded`, `loadingData` and the form flags. Its React effects and the load timer's callback are separate methods. The class invariant `Planner.Valid` ties the phase flags to the pending load timer. `Planner.SaveEffect` states that nothing is written while a load is in progress, and that whatever is written is the list loaded for the signed-in user.
- **the event form** (`components/EventForm.tsx`): its initial values, the event it submits, URL normalisation, the file-size limit, and adding and removing attachments.
- **the event list** (`components/EventList.tsx`): the sorted copy by start time, and the colour theme with its fallback.

Local storage is a class (`LocalStore.LocalStorage`) holding a map from keys to stored values. JSON serialisation is the identity: a value is stored as a plain string (a PIN), a serialised event list or a serialised user. The remote is `Option<map<string, Row>>`; `None` means no remote is configured. Its answers are given per call: whether it can be reached, and the error an insert would report. Clocks (`lastLogin`), generated ids, the confirmation dialog and the browser's storage quota are parameters too.

Behaviours worth noting, modelled as the code has them:
- The keys are `planner_auth_{username}`, `planner_data_{username}` and `planner_current_session`.
- `App.tsx` never calls the storage service. It repeats the local login and the load/save against local storage, and both are modelled as written.
- When `App.tsx`'s save is refused for lack of space, it only alerts the user. `saveEvents`, in contrast, rejects its promise.
- An edit that arrives while a load is in progress is not rejected. The load's completion replaces the list, and only then may a save happen.
- An update whose id is missing is a silent no-op (`ReplaceById`).
- A PIN is checked only in the store it was registered in. Registration on a reachable remote writes only the remote table, and the local fallback checks only local storage. So if the remote is unreachable on the next login, any other PIN is accepted and stored locally. A PIN registered locally during an outage is likewise unknown to the remote once it is back, which registers another one (`RemoteOutageAdmitsOtherPin`, `LocalRegistrationAdmitsOtherPinRemotely`).

## Model

| member | source | states |
|---|---|---|
| `LocalStore.Truthy` | lib/storage.ts:54 | the `if (value)` test on what `getItem` returned: only the empty string is falsy (also App.tsx:33, :57, :97) |
| `LocalStore.AuthKey` | lib/storage.ts:51 | the PIN key is `planner_auth_` followed by the username |
| `LocalStore.DataKey` | lib/storage.ts:81 | the event-list key is `planner_data_` followed by the username |
| `LocalStore.KeysDistinct` | lib/storage.ts:51-89 | auth, data and session keys never collide, and each user's keys are their own |
| `LocalStore.LocalStorage.GetItem` | lib/storage.ts:52 | `getItem` gives the stored value, or null for an absent key |
| `LocalStore.LocalStorage.SetItem` | App.tsx:79-86 | `setItem` stores the value, or throws `QuotaExceeded` and stores nothing |
| `LocalStore.LocalStorage.RemoveItem` | App.tsx:119 | `removeItem` drops exactly that key |
| `Strings.Contains` | lib/storage.ts:45 | `includes`: the searched string occurs at some position |
| `Strings.ContainsInfix` | lib/storage.ts:45 | any string built around the searched string contains it |
| `Strings.OrElse` | components/EventForm.tsx:35-38 | JavaScript's or-operator on strings: the empty string gives the fallback, any other string itself |
| `Storage.Select` | lib/storage.ts:16-22 | the lookup reports the row, no row (`PGRST116`) or another error, from reachability and the table |
| `Storage.Catch` | lib/storage.ts:42-46 | the catch block rethrows exactly the errors whose message contains `PIN`, otherwise login goes on locally |
| `Storage.PinMismatchIsRethrown` | lib/storage.ts:29-45 | the remote PIN-mismatch message contains `PIN`, so it reaches the caller |
| `Storage.ConnectionErrorFallsBack` | lib/storage.ts:22-45 | the connection-error message does not contain `PIN`, so login falls back to local storage |
| `Storage.LocalEvents` | lib/storage.ts:80-83 | local read: an absent key or an empty string gives `[]`, a stored list gives exactly that list, any other non-empty value fails to parse |
| `Storage.ApplyUpdate` | lib/storage.ts:95-98 | a delivered update replaces the user's row's events and leaves every other row alone; no row, no change |
| `Storage.StorageService.constructor` | lib/supabaseClient.ts:8-10 | the service starts with the given local store, the remote or none, and no pending update |
| `Storage.StorageService.Login` | lib/storage.ts:9-61 | a remote row with an equal PIN returns the user and writes nothing; a different PIN fails without trying local storage; no row inserts exactly `{username, pin, events: []}`; every other remote failure falls back to the local PIN check, registration or refusal |
| `Storage.StorageService.TryRemote` | lib/storage.ts:13-47 | the remote half of login gives no answer exactly when login falls back to local storage: no remote, an unreachable remote, or a failed registration whose message lacks `PIN`; otherwise it returns the found user, the PIN refusal, the newly inserted user or the rethrown insert error |
| `Storage.StorageService.LocalLogin` | lib/storage.ts:49-60 | a stored PIN that differs fails and the store is unchanged; an equal one writes nothing; no stored PIN stores the PIN under `planner_auth_{username}` |
| `Storage.StorageService.LoadEvents` | lib/storage.ts:64-84 | the remote row's events exactly as stored when present, an empty list included; otherwise the local list |
| `Storage.StorageService.SaveEvents` | lib/storage.ts:87-104 | the list is written under `planner_data_{username}` and no other key changes; only then is one remote update issued, not awaited; a refused local write fails and issues nothing |
| `Storage.StorageService.SettleSync` | lib/storage.ts:95-102 | an issued update settles in any order; a failure is dropped and never reaches the save's caller |
| `Storage.SavedListLoadsLocally` | lib/storage.ts:81-90 | after a save, a local-only load returns the same list |
| `Storage.SaveLeavesOtherUsers` | lib/storage.ts:89-90 | one user's save changes nothing that another user loads locally |
| `Storage.FirstLoginRegisters` | lib/storage.ts:9-60 | from an empty local store, with the remote reachable on both logins or with no remote: a new username gets in with any non-empty PIN, and the next login with another PIN is refused, remotely or locally |
| `Storage.RemoteOutageAdmitsOtherPin` | lib/storage.ts:22-58 | a PIN registered remotely is unknown locally: with the remote unreachable on the next login, another PIN gets in |
| `Storage.LocalRegistrationAdmitsOtherPinRemotely` | lib/storage.ts:34-58 | a PIN registered locally during an outage is unknown remotely: once the remote is back, another PIN gets in |
| `Storage.SaveThenLoadOffline` | lib/storage.ts:64-90 | with the remote unreachable, a load returns the list last saved |
| `Seqs.Filter` | App.tsx:168 | `filter` keeps exactly the accepted elements, with their multiplicities |
| `Seqs.FilterAppend` | App.tsx:183 | filtering distributes over concatenation, so kept elements keep their order |
| `Seqs.FilterKeepsAll` | App.tsx:168 | when every element is kept the list is unchanged |
| `Seqs.FilterKeepsDistinctKeys` | App.tsx:168 | filtering a list whose keys are distinct leaves them distinct |
| `EventList.LexLe` | components/EventList.tsx:17 | the comparison the sort uses: a prefix first, otherwise the first differing character decides |
| `EventList.LexLePrefix` | components/EventList.tsx:17 | a string comes before every string it is a prefix of |
| `EventList.LexLeAntisymmetric` | components/EventList.tsx:17 | two strings each ordered before the other are equal |
| `EventList.LexLeTotal` | components/EventList.tsx:17 | the start-time comparison orders any two strings |
| `EventList.LexLeTransitive` | components/EventList.tsx:17 | the start-time comparison is transitive |
| `EventList.ClockOrder` | types.ts:14 | on zero-padded `HH:mm` times, string order is clock order |
| `EventList.InsertByStart` | components/EventList.tsx:17 | inserting into a sorted list keeps it sorted and adds exactly that event |
| `EventList.SortByStart` | components/EventList.tsx:17 | the sorted copy is non-decreasing by start time and a permutation of the events (same multiset, same length) |
| `Constants.CourseColorIds` | constants.ts:3-52 | the palette `CourseColors` has six colours, `red` first, and no id twice |
| `EventList.FindColor` | components/EventList.tsx:45 | `find` returns the first palette entry with the id, or nothing when none has it |
| `EventList.ColorTheme` | components/EventList.tsx:45 | the theme is the palette entry for the event's colour, or `COURSE_COLORS[0]` when none matches |
| `EventList.HasAttachments` | components/EventList.tsx:46 | the attachment section shows iff the event has at least one attachment |
| `EventForm.HasHttpScheme` | components/EventForm.tsx:82 | the test `/^https?:\/\//i`: the URL starts with `http://` or `https://`, letters compared without case |
| `EventForm.HasHttpSchemeCases` | components/EventForm.tsx:82 | upper- and mixed-case schemes pass; a bare host and `https:/` fail |
| `EventForm.NormalizeUrl` | components/EventForm.tsx:80-84 | the stored URL always starts with `http://` or `https://` (any case); one that did is kept, otherwise `https://` is put in front |
| `EventForm.NormalizeUrlIdempotent` | components/EventForm.tsx:81-84 | normalising an already normalised URL changes nothing |
| `EventForm.LinkAttachment` | components/EventForm.tsx:86-91 | a link attachment has the normalised URL as its path, and `linkName` as its name, or the URL when the name is empty |
| `EventForm.FileAttachment` | components/EventForm.tsx:62-68 | a file attachment carries the file's name, size and encoded content |
| `EventForm.WithoutAttachment` | components/EventForm.tsx:99-101 | removes exactly the attachments with the id and keeps the others' multiplicities; a missing id changes nothing |
| `EventForm.WithoutAttachmentKeepsOrder` | components/EventForm.tsx:99-101 | the attachments that remain keep their order |
| `EventForm.BuildEvent` | components/EventForm.tsx:34-43 | an edit keeps the edited event's id and date, a new event gets the fresh id and the selected day; title, place, times, colour and attachments are the form's |
| `EventForm.EventFormState.constructor` | components/EventForm.tsx:15-25 | a new event starts at `09:00`-`11:00`, colour `red` (`COURSE_COLORS[0]`), no attachments; an edit starts from the event's non-empty values |
| `EventForm.EventFormState.EnterDetails` | components/EventForm.tsx:126-186 | the inputs set title, place, times and colour and nothing else |
| `EventForm.EventFormState.EnterLink` | components/EventForm.tsx:218-251 | the link inputs set visibility, URL and name and nothing else |
| `EventForm.EventFormState.Submit` | components/EventForm.tsx:30-46 | an empty title submits nothing; otherwise the built event, with start and end times not checked against each other |
| `EventForm.EventFormState.SelectFile` | components/EventForm.tsx:48-57 | a file over 1572864 bytes, or none, is refused and the attachments are unchanged; an accepted file starts being read |
| `EventForm.EventFormState.FileLoaded` | components/EventForm.tsx:59-71 | a finished read leaves the list of pending reads; a non-empty result appends exactly one file attachment, within the size limit, carrying its size; an empty result appends nothing |
| `EventForm.EventFormState.AddLink` | components/EventForm.tsx:77-97 | an empty URL changes nothing; otherwise exactly one link attachment is appended and the link inputs are cleared |
| `EventForm.EventFormState.RemoveAttachment` | components/EventForm.tsx:99-101 | the attachments become those without the id, in order |
| `App.ReplaceById` | App.tsx:150 | every event with the saved id is replaced, the others and the length are unchanged; no match, no change |
| `App.ReplaceByIdReplacesOne` | App.tsx:150 | with unique ids, an update replaces exactly the one event that has its id |
| `App.ReplaceByIdKeepsUniqueIds` | App.tsx:150 | an update keeps the ids unique |
| `App.AppendFreshKeepsUniqueIds` | App.tsx:153 | appending an event with a new id keeps the ids unique |
| `App.WithoutEventKeepsUniqueIds` | App.tsx:168 | deleting keeps the ids unique |
| `App.WithoutEvent` | App.tsx:168 | removes every event with the id and keeps the others; a missing id changes nothing |
| `App.WithoutEventKeepsOrder` | App.tsx:168 | the events that remain keep their order |
| `App.OnDay` | App.tsx:182-183 | the day's list holds exactly the events whose date is the selected day key |
| `App.OnDayKeepsOrder` | App.tsx:183 | the day's events keep their original order |
| `App.StoredEvents` | App.tsx:53-63 | the load reads the stored list, or `[]` when none is stored or it does not parse |
| `App.Planner.Mount` | App.tsx:31-42 | a stored session signs its user in again; an unparsable one is removed; the list starts empty and not loaded |
| `App.Planner.Login` | App.tsx:92-115 | a stored PIN that differs is refused and nothing changes; a new username whose PIN cannot be stored is refused and nothing changes; otherwise the PIN is registered if new, the list is emptied and `isDataLoaded` cleared before the user is set, and the session is recorded; a refused session write still leaves the user signed in and rejects the call |
| `App.Planner.Logout` | App.tsx:117-127 | the session key goes, and the user, list, loaded flag and form are cleared |
| `App.Planner.LoadEffect` | App.tsx:45-73 | with a new user: loading and not loaded, and the timer starts; without a user: empty list, not loaded; unchanged dependency: nothing |
| `App.Planner.CompleteLoad` | App.tsx:52-68 | the stored list, or `[]`, replaces the list; then loaded and not loading |
| `App.Planner.SaveEffect` | App.tsx:76-88 | writes only with a user, a loaded list and no load in progress, and then the list loaded for that user; never while loading |
| `App.Planner.SaveEvent` | App.tsx:147-159 | an edit replaces by id, a new event is appended; the form closes; unique ids stay unique, given that a new event's id is not already in the list |
| `App.Planner.EditEvent` | App.tsx:161-164 | the form opens on the event |
| `App.Planner.OpenAddForm` | App.tsx:263 | the form opens for a new event |
| `App.Planner.CancelForm` | App.tsx:252-255 | the form closes |
| `App.Planner.SelectDay` | App.tsx:129-134 | the day is selected and the form closes |
| `App.Planner.DeleteEvent` | App.tsx:166-174 | once confirmed, every event with the id goes and an edit of it is abandoned; declining changes nothing; unique ids stay unique |
| `App.Planner.VisibleEvents` | App.tsx:182-183 | the listed events are those of the selected day |
| `App.Planner.SidePanel` | App.tsx:242-265 | a spinner exactly while loading, else the form when adding or editing, else the list |
| `App.SlowLoadKeepsStoredList` | App.tsx:45-88 | during a slow load nothing is saved, and the load brings back exactly the stored list |
| `App.AddEventThenReload` | App.tsx:31-114 | register, add an event, reload: the user is restored and the list is exactly that event |

## Left out

- `components/AIChatWindow.tsx`, `components/LoginForm.tsx`, `components/CalendarGrid.tsx`, `lib/supabaseClient.ts` and `vite-env.d.ts` are not part of this model. They are the external text-generation client, the login screen, the month grid built from `date-fns`, and configuration.
- Delays (`delay`, the 800 ms in the login screen), `new Date()`, uuid generation, `window.confirm`, `alert` and console logging are not modelled. The time stamp, the fresh id and the confirmation are parameters, and logging is dropped.
- JSON is the identity. A stored value that is not the expected kind counts as a parse failure; parsing arbitrary text is not modelled.
- The browser's quota is a per-write flag (`full`; `pinFull` and `sessionFull` for the two writes of `App.Planner.Login`), not a size computation.
- `FileReader` encoding is not modelled. The read's result is a string parameter, and a read error simply never appends.
- Asynchrony: the remote push is an entry in `outbox` that settles later. React's state batching is a single atomic step per handler, effect or timer callback.
- `App.Planner.Login`: requires that no load timer is pending, which is not a check in the code. The login screen waits 800 ms before calling it (components/LoginForm.tsx:25), while the load timer fires after 500 ms (App.tsx:68), so the previous user's load has always completed.
- `EventList.SortByStart`: does not state stability (equal start times keep their input order), although `InsertByStart` is written to be stable, as `Array.prototype.sort` is.
- `EventList.LexLeTotal`: `localeCompare` is modelled as code-point lexicographic order; locale collation is not modelled.
- `App.Planner.SaveEffect`: React runs it only when a dependency changed. The model lets it run at any time, which is harmless because a repeated write stores the same value.
- `App.Planner.SaveEvent`: a new event's id comes from `uuidv4()` (components/EventForm.tsx:35), whose output is not modelled. Uniqueness of ids is promised only under the hypothesis that this id is not yet in the list.
- Date formatting (`format(selectedDate, 'yyyy-MM-dd')`) is not modelled. The selected day is kept as its key.
