# Cricket frontend core, modelled in Dafny

Cricket is an English-learning site. Learners browse "rooms" (themed
courses), open a room to see its lessons, and mark lessons as completed once
logged in. This project models the decisions the browser frontend makes and
proves properties about them:

- **Formatting helpers:** `formatDuration`, `capitalize`, `validateEmail`
  and `getRoomClassName`.
- **`AuthManager` session machine:**
  - the current user and the `localStorage` items `user` and `token`;
  - login, register, logout, loading from storage;
  - per-room progress lookup;
  - the password-confirmation guard of the register form.
- **`RoomsManager`:**
  - the held room list and current room, which change only on a successful
    server reply;
  - the search filter;
  - what a room card and a lesson card show;
  - the logged-in guard of starting a lesson.
- **Page visibility and viewport:** the five-minute staleness rule that
  triggers a rooms reload, and the viewport categories.
- **To-do script:** `update` and `delete` over a shared task list.

Server replies, the window width, the clock and stored items are parameters
of the model. Stateful objects are classes whose methods are proved equal to
pure transition functions. The properties are lemmas about those functions.

Files:

| file | contents |
|---|---|
| `wrappers.dfy` | `Option` and `Result` |
| `text.dfy` | the JavaScript string operations the core uses, on ASCII: `toLowerCase`/`toUpperCase`, `includes`, `trim`, decimal printing and digit runs |
| `entities.dfy` | rooms, lessons, progress records, users |
| `utils.dfy` | the `Utils` helpers, and `getRoomClassName` as written |
| `app.dfy` | `getScreenSize`, `isMobile`, `parseInt` and the staleness decision |
| `session_codec.dfy` | the text form of a user kept under the `user` item |
| `auth.dfy` | the `AuthManager` object and its transition functions |
| `rooms.dfy` | the `RoomsManager` object, search, room and lesson cards |
| `tasks.dfy` | the to-do list of `Cricket.py` |

## Model

| member | source | states |
|---|---|---|
| Utils.FormatDurationRoundTrip | cricket/cricket-frontend/js/utils.js:4-11 | every duration label reads back as the minutes it was printed from: "m min" below an hour, "Hh" on whole hours, "Hh Mm" with 0 < M < 60 otherwise, so hours*60+mins recovers the input |
| Utils.FormatDuration | cricket/cricket-frontend/js/utils.js:4-11 | the label ends in " min" exactly when the duration is under an hour |
| Utils.FormatDurationInjective | cricket/cricket-frontend/js/utils.js:4-11 | two different minute counts never print the same label |
| Utils.FormatDurationMinutes | cricket/cricket-frontend/js/utils.js:5-6 | below 60 the label is the decimal number followed by " min" |
| Utils.Capitalize | cricket/cricket-frontend/js/utils.js:15-17 | same length as the input; first character upper-cased; every other character lower-cased ("" stays "") |
| Utils.CapitalizeIdempotent | cricket/cricket-frontend/js/utils.js:15-17 | capitalizing twice equals capitalizing once |
| Utils.ValidateEmail | cricket/cricket-frontend/js/utils.js:101-103 | the pattern `^[^\s@]+@[^\s@]+\.[^\s@]+$`: the address splits at an '@' and a later '.' into three non-empty runs without white space or '@' (its meaning is stated by `ValidateEmailCharacterization`) |
| Utils.ValidateEmailCharacterization | cricket/cricket-frontend/js/utils.js:101-103 | the pattern `^[^\s@]+@[^\s@]+\.[^\s@]+$` matches exactly when the address has no white space, exactly one '@', not first, and a '.' in the domain that is neither its first nor last character |
| Utils.ValidEmailIsWellFormed | cricket/cricket-frontend/js/utils.js:101-103 | every address the pattern accepts is well formed |
| Utils.WellFormedEmailIsValid | cricket/cricket-frontend/js/utils.js:101-103 | every well-formed address is accepted by the pattern |
| Utils.MatchedEmailIsWellFormed | cricket/cricket-frontend/js/utils.js:101-103 | a match of the pattern's three runs yields the well-formedness conditions |
| Utils.WellFormedEmailMatches | cricket/cricket-frontend/js/utils.js:101-103 | a well-formed address is matched by the pattern |
| Utils.FirstWord | cricket/cricket-frontend/js/utils.js:131 | `split(' ')[0]`: the longest prefix without a space, followed by a space or the end |
| Utils.RoomKey | cricket/cricket-frontend/js/utils.js:131 | the key is a prefix of the lower-cased name with no space in it, ending where the name has a space or ends |
| Utils.GetRoomClassName | cricket/cricket-frontend/js/utils.js:107-132 | the class is always one of the table's values; the table's entry for the lower-cased first word when it is a key, 'business' otherwise |
| Utils.RoomClassOfKey | cricket/cricket-frontend/js/utils.js:108-132 | a name whose first word lower-cases to a table key, followed by a space or nothing, gets that key's class in any letter case, e.g. 'Technology' gives 'tech' |
| Utils.FirstWordOfKey | cricket/cricket-frontend/js/utils.js:131 | a word of letters followed by a space or nothing yields its lower-cased self as the lookup key |
| Utils.RoomClassDependsOnKey | cricket/cricket-frontend/js/utils.js:131 | names with the same lower-cased first word get the same class |
| Utils.RoomClassIgnoresCase | cricket/cricket-frontend/js/utils.js:131 | the class does not depend on how the room name is capitalised |
| Utils.GetRoomClassNameAsWritten | cricket/cricket-frontend/js/utils.js:131-132 | as written, the lookup never yields `undefined`; a string result is one of the table's values; the result is not a string exactly when the first word is "constructor" or "__proto__" |
| Utils.AsWrittenAgreesOffPrototypeNames | cricket/cricket-frontend/js/utils.js:131-132 | the object-literal lookup as written agrees with the corrected one for every first word except "constructor" and "__proto__" |
| Utils.ConstructorRoomKey | cricket/cricket-frontend/js/utils.js:131 | the lookup key of "Constructor Basics" is "constructor" |
| Utils.AsWrittenConstructorRoom | cricket/cricket-frontend/js/utils.js:131-132 | as written, "Constructor Basics" yields the inherited `Object` function instead of a class name; the corrected lookup gives 'business' |
| JsText.Includes | cricket/cricket-frontend/js/room.js:351-353 | `hay.includes(needle)` holds exactly when the needle occurs at some position of the haystack |
| JsText.TrimEmptyIffAllSpace | cricket/cricket-frontend/js/room.js:345 | `trim()` is empty exactly when the string is all white space |
| App.GetScreenSize | cricket/cricket-frontend/js/app.js:134-141 | the category's rank is the number of breakpoints 576, 768, 992, 1200 the width has reached: xs below 576, sm to 767, md to 991, lg to 1199, xl from 1200 |
| App.GetScreenSizeMonotone | cricket/cricket-frontend/js/app.js:134-141 | a wider window never gets a narrower category |
| App.MobileAgainstScreenSize | cricket/cricket-frontend/js/app.js:129-131 | `isMobile` (width <= 768) holds for every xs and sm width and no lg or xl width; among md widths only 768 is mobile |
| App.IsMobile | cricket/cricket-frontend/js/app.js:129-131 | mobile is a width of at most 768 (related to the categories by `MobileAgainstScreenSize`) |
| App.ParseInt | cricket/cricket-frontend/js/app.js:111 | a blank string reads as NaN, and a negative number needs a leading '-' after the white space |
| App.ParseIntOfNatToString | cricket/cricket-frontend/js/app.js:111 | `parseInt` reads a decimal timestamp back exactly |
| App.ShouldReloadRooms | cricket/cricket-frontend/js/app.js:106-114 | reload when no time is stored, the stored time is empty, or `now - parseInt(stored) > 300000`; a NaN comparison never reloads (its cases are stated by the lemmas below) |
| App.ReloadWhenStale | cricket/cricket-frontend/js/app.js:106-114 | with a stored decimal timestamp t, rooms reload exactly when now - t > 300000 |
| App.NoReloadAtExactlyFiveMinutes | cricket/cricket-frontend/js/app.js:111 | exactly 300000 ms after the stored time does not reload; one more millisecond does |
| App.ReloadWithoutTimestamp | cricket/cricket-frontend/js/app.js:108-112 | no stored time, or an empty one, always reloads |
| App.NoReloadOnNaN | cricket/cricket-frontend/js/app.js:111 | every non-empty stored value that `parseInt` reads as NaN never reloads, whatever the time |
| App.NeverReadsAsNaN | cricket/cricket-frontend/js/app.js:111 | a stored word such as "never" reads as NaN |
| SessionCodec.ParseStringify | cricket/cricket-frontend/js/auth.js:17 | the stored text form of a user parses back to that user |
| SessionCodec.DecodeStringifiedUser | cricket/cricket-frontend/js/auth.js:17 | decoding a stored user consumes the whole text and yields the user |
| SessionCodec.ParseRejectsGarbage | cricket/cricket-frontend/js/auth.js:16-21 | malformed text such as "{" is rejected, which is what sends loading to its logout branch |
| SessionCodec.Stringify | cricket/cricket-frontend/js/auth.js:28 | the stored text of a user is never empty, so loading always tries to parse it (its round trip is `ParseStringify`) |
| SessionCodec.Parse | cricket/cricket-frontend/js/auth.js:17 | empty text does not parse to a user |
| Auth.FindProgress | cricket/cricket-frontend/js/auth.js:89-91 | `find`: no result exactly when no record has the room; otherwise the first record of the room |
| Auth.RoomProgressWithoutRecord | cricket/cricket-frontend/js/auth.js:84-94 | `getRoomProgress` is 0 when nobody is logged in, the user has no progress list, or no record has the room |
| Auth.RoomProgressOfFirstRecord | cricket/cricket-frontend/js/auth.js:89-93 | otherwise `getRoomProgress` is the progress of the first record of the room |
| Auth.RoomProgress | cricket/cricket-frontend/js/auth.js:84-94 | a non-zero progress belongs to a logged-in user with a progress list, and is the progress of the first record of the room |
| Auth.Saved | cricket/cricket-frontend/js/auth.js:26-29 | `saveUser(u)` holds u, adds 'user' and 'token' to the stored keys and removes none, and stores u's token |
| Auth.LoggedOut | cricket/cricket-frontend/js/auth.js:70-74 | `logout()` holds no user and removes exactly 'user' and 'token' from the stored keys |
| Auth.Answered | cricket/cricket-frontend/js/auth.js:34-67 | a login or register reply never logs a held user out and never removes a stored item |
| Auth.Loaded | cricket/cricket-frontend/js/auth.js:13-23 | loading never writes storage: it either keeps it or logs out; it logs in only from a stored 'user' item |
| Auth.LogoutEndsSession | cricket/cricket-frontend/js/auth.js:70-74 | after logout nobody is logged in, 'user' and 'token' are gone, every other item is kept, and logging out again changes nothing |
| Auth.SavedUserFrame | cricket/cricket-frontend/js/auth.js:26-29 | `saveUser(u)` holds u, stores u's token under 'token' and a text under 'user' that parses back to u, and keeps every other item |
| Auth.AnswerTransitions | cricket/cricket-frontend/js/auth.js:34-67 | after a login/register reply the session is logged in exactly when the reply succeeded or it already was; success holds the returned user; failure changes nothing and fails with the reply's message |
| Auth.LoadAfterSave | cricket/cricket-frontend/js/auth.js:13-29 | loading right after saving changes nothing |
| Auth.ReloadRestoresSession | cricket/cricket-frontend/js/auth.js:13-29 | from the storage alone, loading restores the saved session |
| Auth.CorruptUserLogsOut | cricket/cricket-frontend/js/auth.js:16-21 | an unreadable 'user' item is treated as a logout |
| Auth.LoadWithoutUserItem | cricket/cricket-frontend/js/auth.js:14-15 | without a non-empty 'user' item, loading changes nothing |
| Auth.FailedThenSuccessfulLogin | cricket/cricket-frontend/js/auth.js:34-49 | a rejected login leaves an anonymous session anonymous with message "Invalid credentials"; the next successful login holds the user, and a reload finds it |
| Auth.AuthManager.IsLoggedIn | cricket/cricket-frontend/js/auth.js:79-81 | logged in exactly when a user is held |
| Auth.AuthManager.GetRoomProgress | cricket/cricket-frontend/js/auth.js:84-94 | 0 when nobody is logged in; otherwise the held user's progress for the room |
| Auth.AuthManager.constructor | cricket/cricket-frontend/js/auth.js:2-3 | starts with no user over the given storage |
| Auth.AuthManager.SaveUser | cricket/cricket-frontend/js/auth.js:26-29 | the new state is the `saveUser` transition of the old one |
| Auth.AuthManager.Logout | cricket/cricket-frontend/js/auth.js:70-74 | the new state is the logout transition of the old one |
| Auth.AuthManager.Login | cricket/cricket-frontend/js/auth.js:34-49 | the new state is the answered transition for the reply; the result is the user or the reply's message |
| Auth.AuthManager.Register | cricket/cricket-frontend/js/auth.js:52-67 | as `Login`, for the register endpoint's reply |
| Auth.AuthManager.LoadUserFromStorage | cricket/cricket-frontend/js/auth.js:13-23 | the new state is the load transition of the old one |
| Auth.AuthManager.SubmitRegisterForm | cricket/cricket-frontend/js/auth.js:159-169 | differing password and confirmation leave the state unchanged and report the mismatch; otherwise register runs |
| Rooms.AnyTopicIncludes | cricket/cricket-frontend/js/room.js:353 | holds exactly when some topic, lower-cased, contains the query |
| Rooms.FilterRooms | cricket/cricket-frontend/js/room.js:350-354 | the result is a subsequence of the rooms, in their order; each room occurs as often as in the list when it matches and not at all otherwise |
| Rooms.SearchResults | cricket/cricket-frontend/js/room.js:344-354 | the listed rooms are a subsequence of the held rooms, none more often than held |
| Rooms.RenderRooms | cricket/cricket-frontend/js/room.js:43-55 | "no rooms available" exactly when the list is empty; otherwise a card per held room in order |
| Rooms.SearchView | cricket/cricket-frontend/js/room.js:344-359 | cards only for a non-empty subsequence of the rooms; "no rooms found" only for a non-blank query; "no rooms available" only for an empty list; never the load-failure text |
| Rooms.BlankSearchShowsAllRooms | cricket/cricket-frontend/js/room.js:344-348 | a white-space-only query shows the full list in its original order |
| Rooms.NonBlankSearchFilters | cricket/cricket-frontend/js/room.js:350-359 | a non-blank query shows exactly the rooms whose lower-cased name, description or some topic contains the lower-cased query, in order, or "no rooms found" when there are none |
| Rooms.SearchIgnoresQueryCase | cricket/cricket-frontend/js/room.js:345-353 | queries that differ only in letter case give the same result |
| Rooms.TopicTags | cricket/cricket-frontend/js/room.js:81-86 | up to four topics are shown unchanged; with n > 4 the first four are followed by exactly one "+(n-4) more" tag |
| Rooms.TopicTagsCountAllTopics | cricket/cricket-frontend/js/room.js:81-86 | the number of topics can be read back from the tags |
| Rooms.FiveTopicsShowFourTags | cricket/cricket-frontend/js/room.js:81-86 | five topics show as the first four and "+1 more" |
| Rooms.BusinessBasicsKey | cricket/cricket-frontend/js/room.js:67 | the lookup key of "Business Basics" is "business" |
| Rooms.BusinessBasicsClass | cricket/cricket-frontend/js/room.js:67 | the "Business Basics" room gets the 'business' class |
| Rooms.BusinessBasicsCard | cricket/cricket-frontend/js/room.js:67-86 | the "Business Basics" card with five topics shows four tags and "+1 more", the 'business' class and the default 'fa-book' icon |
| Rooms.RoomCardProgressBlock | cricket/cricket-frontend/js/room.js:68-111 | the progress block is shown exactly when `getRoomProgress` is positive, with that value, and never for an anonymous visitor |
| Rooms.RoomCardDuration | cricket/cricket-frontend/js/room.js:95-98 | the card's duration label reads back as the estimated hours times 60 |
| Rooms.CreateRoomCard | cricket/cricket-frontend/js/room.js:66-111 | the class is one of the table's values, the icon is never empty ('fa-book' by default), the difficulty is the room's, at most five topic tags, and the progress block only for a positive progress |
| Rooms.DefaultedRoomCard | cricket/cricket-backend/models/Room.js:20-28 | a room stored with the backend's defaults shows "beginner" and "10h" |
| Rooms.AnyCompletes | cricket/cricket-frontend/js/room.js:223-226 | holds exactly when some progress record of the room lists the lesson as completed |
| Rooms.IsCompleted | cricket/cricket-frontend/js/room.js:222-226 | a lesson is completed when a user is held, has a progress list, and some record of the open room lists it |
| Rooms.CreateLessonCard | cricket/cricket-frontend/js/room.js:221-252 | the card keeps the lesson's id; the completed badge needs a logged-in user; the button reads "Review Lesson" exactly when the badge shows, "Start Lesson" otherwise |
| Rooms.LessonCardCompletion | cricket/cricket-frontend/js/room.js:221-252 | a lesson is completed, and its button reads "Review Lesson", exactly when a user is logged in and one of their records for the open room lists the lesson; otherwise the button reads "Start Lesson" |
| Rooms.LevelLabel | cricket/cricket-frontend/js/room.js:240 | the label of a level is its lower-case name with the first letter upper-cased |
| Rooms.LevelLabels | cricket/cricket-frontend/js/room.js:240 | the level label is the capitalized level: Beginner, Intermediate, Advanced |
| Rooms.LessonCards | cricket/cricket-frontend/js/room.js:212-218 | one card per lesson, in the lessons' order |
| Rooms.RoomsManager.constructor | cricket/cricket-frontend/js/room.js:2-4 | starts with no rooms and no current room |
| Rooms.RoomsManager.LoadRooms | cricket/cricket-frontend/js/room.js:13-55 | the list is replaced only by a successful reply and kept on failure; the grid shows the rooms, "no rooms available", or the failure text |
| Rooms.RoomsManager.OpenRoomModal | cricket/cricket-frontend/js/room.js:118-156 | the current room is set to the reply's room, with its lesson cards, only on success; on failure it is kept and the modal closes |
| Rooms.RoomsManager.SearchRooms | cricket/cricket-frontend/js/room.js:344-367 | leaves the held list unchanged and shows the search view of it; a blank query shows `renderRooms` |
| Rooms.RoomsManager.StartLesson | cricket/cricket-frontend/js/room.js:275-299 | logged out: no request, login modal, session unchanged; otherwise the completion request, then the current-user request, then the returned user is saved and the room reopens; a failed request leaves the session unchanged |
| Tasks.UpdatedTask | Cricket.py:8-11 | the title is replaced only by a non-empty string; the subtasks are replaced by any list that is given, including an empty one |
| Tasks.Updated | Cricket.py:6-11 | same length; entries other than the index unchanged; an out-of-range index changes nothing; an in-range entry becomes the updated record |
| Tasks.Removed | Cricket.py:13-15 | in range: one shorter, entries before the index kept, entries after it shifted down by one, and the multiset loses exactly the removed entry; out of range (negative included): unchanged |
| Tasks.TaskList.Update | Cricket.py:6-11 | the new list is `Updated` of the old one |
| Tasks.TaskList.Delete | Cricket.py:13-15 | the new list is `Removed` of the old one |
| Tasks.UpdateWithNothingIsNoOp | Cricket.py:8-11 | a falsy title (None or "") with no subtasks changes nothing |
| Tasks.UpdateClearsSubtasks | Cricket.py:10-11 | an empty subtask list replaces the old one and keeps the title |
| Tasks.UpdateIdempotent | Cricket.py:6-11 | repeating an update changes nothing more |
| Tasks.UpdatesOfDistinctEntriesCommute | Cricket.py:6-11 | updates of two different indices commute |
| Tasks.DeleteForgetsUpdate | Cricket.py:6-15 | deleting an entry after updating it equals deleting it directly |
| Tasks.DeleteOutOfRangeIsNoOp | Cricket.py:14 | deleting a negative or too-large index changes nothing |
| Tasks.ScriptCalls | Cricket.py:21-22 | the script's `update(1, subtasks=[...])` then `delete(0)` leaves only "Study Python" with the new subtasks |

## Left out

- Rendering: HTML, CSS classes on DOM nodes, event listeners, notifications,
  `updateUI` and the modal plumbing of `modal.js`. The cards are reduced to
  the values they show.
- `Utils.debounce`, `Utils.showNotification` and the timer in
  `showWelcomeMessage`: timers and DOM creation.
- `api.js`, the `fetch`-based client. Each server reply is an input to the
  operation that awaits it. In `login`, `register`, `loadRooms` and
  `openRoomModal`, a request that throws and a reply with `success: false`
  lead to the same branch, and both are modelled as the failure input.
  `startLesson` does not look at `success`. There, only a request that
  throws counts as failed.
- Interleaving of asynchronous operations, for example a search typed while
  rooms are loading. Each operation runs to completion.
- JSON. `JSON.stringify`/`JSON.parse` of the stored user are replaced by
  `SessionCodec`, an exact text form with a proved round trip. Stored text
  that parses as JSON but not as a user object (for example "null" or "42")
  is treated like unreadable text.
- Rooms.RoomsManager.StartLesson: a successful current-user reply without a
  `data` field is not modelled. The source would then call
  `saveUser(undefined)`. That sets the held user to `undefined`, which
  `isLoggedIn` (a `!== null` test) still counts as logged in. It stores the
  text "undefined" under 'user', and then throws reading `token`.
- Rooms.CreateRoomCard: the card's class comes from the corrected lookup
  `Utils.GetRoomClassName` of the Findings row. The source calls the lookup
  as written, so for a first word "constructor" or "__proto__" its card
  class differs (`Utils.GetRoomClassNameAsWritten`).
- Rooms.RoomsManager.StartLesson: the reopened room is reported as
  `ReopenRoom(currentRoom)`. The following `openRoomModal` call is a separate
  operation (`OpenRoomModal`).
- Text is ASCII. `toLowerCase`, `toUpperCase`, `trim` and the `\s` class of
  the email pattern are modelled for ASCII letters and the ASCII
  white-space characters only.
- Utils.FormatDuration: modelled on natural numbers only. A fractional
  `estimatedHours * 60` or a negative duration is not modelled.
- App.ParseInt: numbers are unbounded integers. Floating-point rounding of
  very long digit runs is not modelled.
- Backend: the Express server, the lessons route and the Mongoose schemas
  are not part of this model. They serve only to shape the entities and
  their defaults (difficulty 'beginner', 10 estimated hours).
- `read()` and the script's top-level calls in `Cricket.py`: printing, and
  calls to a `create` the file never defines. `ScriptCalls` replays the two
  calls that use the modelled functions.
- Tasks: task records are values. The script mutates shared dicts, so
  aliasing between list entries is not modelled. Python truthiness is
  modelled for a string-or-None title only.
- `handlePageVisible` reads 'roomsLastUpdate', but none of the frontend
  scripts writes that item. Unless something else stores it, every visit
  reloads (`ReloadWithoutTimestamp`). Who writes the item is not modelled.

## Findings

| source | as written | input that shows it | evidently intended | confidence | as-written member | corrected member |
|---|---|---|---|---|---|---|
| cricket/cricket-frontend/js/utils.js:131-132 | `roomMap[key] \|\| 'business'` looks the key up on a plain object literal, so inherited names of `Object.prototype` are found too | a room named "Constructor Basics" (key "constructor") yields the `Object` function; "__proto__ ..." yields the prototype object; neither is a class name | only the 20 listed keys map to classes, everything else falls back to 'business' | not executed | Utils.GetRoomClassNameAsWritten, Utils.AsWrittenConstructorRoom | Utils.GetRoomClassName |
