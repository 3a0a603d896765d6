# Breaking Math club website — verified model of its logic

This project is a Dafny model of the logic inside the Breaking Math club website, with proofs about that model. The website is a React single-page application backed by a hosted Postgres service, plus one serverless forwarding function. The modelled parts are:

- **Request-forwarding function** (`proxy.js`). Its `handler` is a pure function of three inputs:
  - the inbound event;
  - what `JSON.parse` makes of its body;
  - what the upstream call returns.

  Module `Proxy` covers the handler and module `Json` covers the JSON values it passes around.
- **Authorization context** (`AuthProvider.tsx`).
  - It has six state fields.
  - Two entry points write them: the session-change listener and the initial session check.
  - A lookup round applies the two role-procedure answers and the display-name lookup as one atomic step.
  - This is class `Auth.AuthProvider`, specified by the functions `SessionChanged`, `InitialSession` and `Resolve`.
- **Overseer's user list** (`UserManagement.tsx`).
  - The `fetchUsers` merge folds profile rows and role rows into an insertion-ordered map. Here it is an imperative fold whose loops are proved against a reference function `Expected`.
  - Around it sit the badge, the role-option and the display rules.
- **Countdown arithmetic** (`CountdownBanner.tsx`, `EventsSection.tsx`).
  - The decomposition of a positive millisecond difference.
  - Its two-digit display.
  - The banner's "hide for good" rule and the event timer's "freeze at the last positive reading" rule.
- **Form state machines and record builders.**
  - The announcements tab (`AdminPanel.tsx`) and the events tab (`EventManagement.tsx`): validation, record construction, insert versus update, edit, reset.
  - The profile tab (`ProfileSettings.tsx`): saved name versus edit buffer.
  - The join dialog (`HeroSection.tsx`): the interest toggle.
- **Small string rules.**
  - `AnnouncementsSection.tsx`: newline replacement, title and date fallbacks, and the static examples.
  - `AboutSection.tsx`: avatar initials.
  - Module `JsString` holds the JavaScript string built-ins these use: `trim`, `||`, `padStart`, `slice`, `split`/`join`, `String(n)`.

**Backend calls are parameters.** Every query to the hosted database, remote procedure call, upsert and upstream fetch is an input to the operation that awaits it:

- `Reply<T>` is a settled `{ data, error }` pair;
- `Call<T>` is a reply, or a throw;
- `WriteResult` is a write that succeeded or failed;
- `UpstreamReply` is the proxy's fetch.

**The clock is a parameter too:** a millisecond difference, or `Date.now()` together with its ISO rendering.

**Components with state are classes.** Each component that updates state is a `class` with those fields. Its methods are proved against a pure function of the old state and the inputs, for example `ensures State() == Fetched(old(State()), call)`. The properties are lemmas about those functions.

## Model

Source paths are relative to the repository root.

| member | source | states |
|---|---|---|
| Proxy.PreflightShortCircuit | public/netlify/functions/proxy.js:4-14 | An OPTIONS request gets 204, an empty body and the three CORS headers, whatever its body holds, and no upstream request is made |
| Proxy.AbsentBodyIsEmptyEnvelope | public/netlify/functions/proxy.js:18 | A missing or empty event body is read as `{}` (so it is then rejected for lacking an endpoint) |
| Proxy.EnvelopeDefaults | public/netlify/functions/proxy.js:19 | For every envelope with a truthy endpoint: without `method` the request is a GET with no body; without `headers` it carries exactly the three default headers |
| Json.Property | public/netlify/functions/proxy.js:19 | Destructuring reads a property only from an object; a key some member names always reads as defined, and its value is that of the last member with that key |
| Proxy.MissingEndpointRejected | public/netlify/functions/proxy.js:21-30 | An envelope whose `endpoint` is missing or falsy gets 400 with body `{"error":"Missing endpoint parameter"}`, and no upstream request is made |
| Proxy.MissingEndpointBody | public/netlify/functions/proxy.js:28 | The serialised `{ error: "Missing endpoint parameter" }` is exactly that literal JSON text |
| Json.ErrorObjectPlainText | public/netlify/functions/proxy.js:28 | A message with no character to escape serialises verbatim inside `{"error":"…"}` |
| Proxy.UrlIsConcatenation | public/netlify/functions/proxy.js:33 | The outbound URL is the base URL followed by the endpoint string, unmodified |
| Json.TemplateString | public/netlify/functions/proxy.js:33 | A string interpolated into the template literal is inserted as it is |
| Proxy.Overlay | public/netlify/functions/proxy.js:36-41 | The merged header object has exactly the default keys plus the caller's keys |
| Proxy.OverlayWins | public/netlify/functions/proxy.js:36-41 | For any key, the last caller entry naming it decides its value, whatever other keys follow it |
| Proxy.OverlayKeeps | public/netlify/functions/proxy.js:36-41 | A default key the caller does not mention survives the spread with its default value |
| Proxy.CallerHeadersWin | public/netlify/functions/proxy.js:36-41 | For caller headers with distinct keys, every caller value replaces the default on its key and every other default stays |
| Proxy.BodyForwardingRule | public/netlify/functions/proxy.js:49-51 | A body is forwarded iff it is truthy and the method is exactly POST, PUT or PATCH; a string is sent unchanged, any other value as its JSON text; GET and DELETE never carry one |
| Proxy.ReplyRelayed | public/netlify/functions/proxy.js:53-64 | The upstream status and raw text are returned unchanged with the JSON content type, and the request sent is the one the envelope describes |
| Proxy.ExceptionsBecome500 | public/netlify/functions/proxy.js:65-74 | Malformed JSON in the event body, or a failing upstream call, gives 500 whose body is `{"error":` + the quoted message + `}`, and the quoted message reads back to the message |
| Json.UnquoteQuote | public/netlify/functions/proxy.js:72 | `JSON.stringify` of a string is a literal that decodes back to the same string |
| Json.UnescapeEscape | public/netlify/functions/proxy.js:72 | Escaping a string's characters and decoding the escapes gives the string back |
| Json.ErrorObjectText | public/netlify/functions/proxy.js:72 | `{ error: m }` serialises as `{"error":` followed by the quoted, escaped `m` and `}` |
| Auth.AuthProvider.constructor | src/components/AuthProvider.tsx:32-37 | The context starts with no user or session, both flags false, loading true and no display name |
| Auth.SessionChanged | src/components/AuthProvider.tsx:43-78 | A session change sets `session` and `user` first; with no user it clears both flags and the name and ends loading, otherwise it leaves them for the lookup round |
| Auth.AuthProvider.OnAuthStateChange | src/components/AuthProvider.tsx:42-79 | The listener's new state is `SessionChanged` of the old one, and a lookup round is scheduled iff the session has a user |
| Auth.InitialSession | src/components/AuthProvider.tsx:84-116 | The initial check sets `session` and `user`; with no user it only ends loading and keeps both flags and the name |
| Auth.AuthProvider.OnInitialSession | src/components/AuthProvider.tsx:83-117 | The handler's new state is `InitialSession` of the old one, and a lookup round is scheduled iff a user was found |
| Auth.Resolve | src/components/AuthProvider.tsx:48-72 | A lookup round sets each flag from its reply (null read as false) only when that reply has no error, sets the name only from an error-free reply holding a row, clears both flags and the name on a throw, and always ends loading |
| Auth.AuthProvider.ApplyLookups | src/components/AuthProvider.tsx:89-113 | The deferred round's new state is `Resolve` of the old one |
| Auth.PartialFailureTolerated | src/components/AuthProvider.tsx:56-64 | An erroring admin lookup leaves `isAdmin` as it was while the overseer answer and the name are still applied |
| Auth.LoadingUntilSettled | src/components/AuthProvider.tsx:36-116 | After any sequence of events `loading` is true iff it was true before and no event was a finished lookup round or an entry point that found no user |
| Auth.LoadingNeverResumes | src/components/AuthProvider.tsx:36-116 | Once `loading` is false no event sets it back to true |
| Auth.RunKeepsCoherent | src/components/AuthProvider.tsx:43-85 | `user` always equals the user of `session`, across any sequence of events |
| Auth.EntryPointsCompared | src/components/AuthProvider.tsx:73-116 | With a user both entry points have the same immediate effect; with no user and a flag set, only the listener resets the flags |
| AdminPanel.GateDecides | src/pages/AdminPanel.tsx:47-57 | Nobody is redirected while loading; once loading is over a viewer is redirected iff the announcements are not fetched for them |
| AdminPanel.SignOutOrFailureRedirects | src/pages/AdminPanel.tsx:47-51 | Signing out, or a lookup round that throws, makes the page redirect to sign-in |
| AdminPanel.ErroredLookupKeepsPreviousAdmin | src/pages/AdminPanel.tsx:47-57 | After a switch from an admin's session to another user whose admin lookup errors, the new user passes the gate on the stale flag |
| AdminPanel.AnnouncementsTab.constructor | src/pages/AdminPanel.tsx:37-43 | The tab starts with no announcements, an empty form, no row being edited, the dialog closed and not submitting |
| AdminPanel.AnnouncementsTab.FetchAnnouncements | src/pages/AdminPanel.tsx:59-74 | An error reply keeps the list; otherwise the list becomes the rows, or empty for null data; the form is untouched |
| AdminPanel.BlankTextRejected | src/pages/AdminPanel.tsx:78-85 | A submit writes nothing iff the text is all whitespace, and then the form, including `submitting`, is unchanged and nothing is refetched |
| AdminPanel.SubmitBuildsThenWrites | src/pages/AdminPanel.tsx:86-103 | A submit with non-blank text builds the announcement record and then writes it |
| AdminPanel.BuildAnnouncement | src/pages/AdminPanel.tsx:96-103 | The record carries `classroom_id` 'admin-created', the clock-derived id, the trimmed text, the title trimmed or null when blank, the creator-name fallback and the clock's ISO time |
| AdminPanel.StoredTextTrimmed | src/pages/AdminPanel.tsx:99-100 | The stored text and title never have surrounding whitespace |
| AdminPanel.AnnouncementId | src/pages/AdminPanel.tsx:98 | The announcement id is `admin-` followed by the decimal digits of the clock reading |
| AdminPanel.CreatorName | src/pages/AdminPanel.tsx:101 | The creator name is never empty and is the first non-empty of: the profile display name, the trimmed typed name, the user's email, 'Admin' |
| AdminPanel.WriteOf | src/pages/AdminPanel.tsx:105-144 | The write is an update of exactly the edited row iff an id is being edited, else an insert, and it carries the built record |
| AdminPanel.SubmitWritesBuiltRecord | src/pages/AdminPanel.tsx:105-144 | A valid submit issues an update of the edited row, or an insert, of the built record |
| AdminPanel.SubmitOutcome | src/pages/AdminPanel.tsx:105-146 | On success the form is reset and the list refetched; on failure the form is kept; `submitting` ends false either way |
| AdminPanel.AnnouncementsTab.Commit | src/pages/AdminPanel.tsx:105-146 | After the record is built, the tab's new state, write and refetch are `Written` of the form |
| AdminPanel.AnnouncementsTab.HandleSubmit | src/pages/AdminPanel.tsx:76-147 | The tab's new form, the write and the refetch are `Submit` of the old form, and the list is untouched |
| AdminPanel.Edit | src/pages/AdminPanel.tsx:149-155 | Editing copies the row's title, text and creator name (null read as empty), sets the row's id as the one being edited and opens the dialog |
| AdminPanel.AnnouncementsTab.HandleEdit | src/pages/AdminPanel.tsx:149-155 | The tab's new form is `Edit` of the old one |
| AdminPanel.EditThenSubmitUpdatesRow | src/pages/AdminPanel.tsx:105-109 | Editing a row with non-blank text and submitting writes an update of that row with its trimmed text |
| AdminPanel.Reset | src/pages/AdminPanel.tsx:178-184 | Reset clears title, text and creator name, clears the edited id and closes the dialog, leaving `submitting` |
| AdminPanel.AnnouncementsTab.ResetForm | src/pages/AdminPanel.tsx:178-184 | The tab's new form is `Reset` of the old one and the list is untouched |
| EventManagement.EventsTab.constructor | src/components/EventManagement.tsx:34-43 | The tab starts with no events, six empty fields, no row being edited, the dialog closed and not submitting |
| EventManagement.EventsTab.FetchEvents | src/components/EventManagement.tsx:50-65 | An error reply keeps the list; otherwise the list becomes the rows, or empty for null data |
| EventManagement.CompleteIffNoBlankField | src/components/EventManagement.tsx:69 | A form passes the guard iff name, location and participants are not all whitespace and date and time are non-empty |
| EventManagement.IncompleteRejected | src/components/EventManagement.tsx:69-76 | A submit writes nothing iff the form is incomplete, and then the form is unchanged |
| EventManagement.SubmitBuildsThenWrites | src/components/EventManagement.tsx:78-88 | A complete form builds the event record and then writes it |
| EventManagement.BuildEvent | src/components/EventManagement.tsx:80-88 | The record has trimmed name, location and participants, the description trimmed or null when blank, date and time as entered, and `created_by` the user's id |
| EventManagement.BuiltEventRequiredFields | src/components/EventManagement.tsx:80-88 | From a complete form every required field of the record is non-empty and the text fields are their own trim |
| EventManagement.EditedRowRebuilds | src/components/EventManagement.tsx:80-88 | Rebuilding a freshly edited, already trimmed row gives back the row's own values |
| EventManagement.SubmitOutcome | src/components/EventManagement.tsx:90-131 | A complete form updates the edited row, or inserts; success resets the form and refetches, failure keeps it; `submitting` ends false |
| EventManagement.EventsTab.Commit | src/components/EventManagement.tsx:90-131 | After the record is built, the tab's new state, write and refetch are `Written` of the form |
| EventManagement.EventsTab.HandleSubmit | src/components/EventManagement.tsx:67-132 | The tab's new form, the write and the refetch are `Submit` of the old form, and the list is untouched |
| EventManagement.Edit | src/components/EventManagement.tsx:134-143 | Editing copies all six fields (a null description read as empty), sets the row's id and opens the dialog |
| EventManagement.EventsTab.HandleEdit | src/components/EventManagement.tsx:134-143 | The tab's new form is `Edit` of the old one |
| EventManagement.EditThenSubmitRoundTrip | src/components/EventManagement.tsx:134-143 | Editing a stored, trimmed row and submitting it unchanged updates that row with its own values |
| EventManagement.Reset | src/components/EventManagement.tsx:166-175 | Reset empties all six fields, clears the edited id and closes the dialog |
| EventManagement.EventsTab.ResetForm | src/components/EventManagement.tsx:166-175 | The tab's new form is `Reset` of the old one |
| UserManagement.UserList.constructor | src/components/UserManagement.tsx:27-29 | The list starts empty, loading, and with the viewer not an overseer |
| UserManagement.UserList.CheckOverseerStatus | src/components/UserManagement.tsx:39-48 | The viewer's overseer flag becomes the answer (null read as false) only for an error-free reply, and is kept on an error or a throw |
| UserManagement.LastProfile | src/components/UserManagement.tsx:74-85 | An id has a profile entry iff some profile row has that id, and the entry carries that id |
| UserManagement.LastProfileIsLastRow | src/components/UserManagement.tsx:74-85 | The entry of an id is the last profile row with that id: a later `Map.set` on the key replaces the earlier one |
| UserManagement.AddProfileRow | src/components/UserManagement.tsx:74-85 | Setting one profile row keeps the key order equal to the first appearances of the ids so far, each entry built from its id's last row with no roles |
| UserManagement.IndexProfiles | src/components/UserManagement.tsx:74-85 | After the profile loop the keys are the profile ids in first-appearance order, each with no roles and all three flags false |
| UserManagement.ExpectedSnoc | src/components/UserManagement.tsx:88-94 | Folding in one role row appends its role to that user's role list, raises the matching flag, and changes no other user's entry |
| UserManagement.ExtendEntry | src/components/UserManagement.tsx:89-94 | A role row for a known user pushes the role and raises its flag, so every entry again matches the rows folded so far |
| UserManagement.CreateEntry | src/components/UserManagement.tsx:95-107 | A role row for an unknown user adds an entry with null names, that one role and its flag, so every entry again matches the rows folded so far |
| UserManagement.FoldRole | src/components/UserManagement.tsx:89-107 | One role row adds at most its user's key, and afterwards every entry matches the rows folded so far |
| UserManagement.AddRoleRow | src/components/UserManagement.tsx:88-107 | One iteration of the role loop keeps the key order equal to the first appearances, and every entry equal to its reference value |
| UserManagement.RowFolded | src/components/UserManagement.tsx:88-108 | A role row changes only its own user's entry, so with that entry correct all entries match the rows folded so far |
| UserManagement.FirstAppearances | src/components/UserManagement.tsx:71-110 | The map's key order lists every id of the input once, and nothing else |
| UserManagement.FirstAppearancesOrdered | src/components/UserManagement.tsx:71-110 | The keys are listed in the order of their first occurrence in the input, the insertion order of a `Map` |
| UserManagement.FirstAppearancesPrefix | src/components/UserManagement.tsx:71-110 | Ids set later never reorder earlier keys: the keys of the profile pass stay at the head, and the keys added after them come only from the later rows |
| UserManagement.MergedOrder | src/components/UserManagement.tsx:71-110 | The merged list starts with the profile users in first-appearance order; every user after them has role rows and no profile row |
| UserManagement.MergeUsers | src/components/UserManagement.tsx:71-110 | The list is one entry per distinct id: profile ids first, then role-only ids by first appearance. Each entry has email = id, its roles in row order, flags that agree with its roles, and names from its last profile row or null |
| UserManagement.UserList.FetchUsers | src/components/UserManagement.tsx:50-121 | A settled fetch replaces the list with the full merge of the rows each reply carries (`data ?? []`; an error is only logged); a throw keeps the old list; loading ends either way |
| UserManagement.UserList.UpdateDisplayName | src/components/UserManagement.tsx:124-130 | The disabled display-name handler changes no state |
| UserManagement.BadgeVariantsDistinguishRoles | src/components/UserManagement.tsx:166-173 | Overseer, admin and editor get three different badges, and only the plain user role gets the outline badge |
| UserManagement.NameLine | src/components/UserManagement.tsx:238 | The name line is the full name if non-empty, else the display name if non-empty, else exactly 'No name set' |
| UserManagement.SecondaryLine | src/components/UserManagement.tsx:243 | The secondary line is the email when it contains '@', else `ID: ` plus at most eight characters of the id plus `...` |
| UserManagement.MergedSecondaryLine | src/components/UserManagement.tsx:243 | For any merged list, since the merge copies the id into `email`, an id without '@' is always shown truncated to its first eight characters |
| UserManagement.AddOptionsAreMissingRoles | src/components/UserManagement.tsx:266-268 | For a merged entry the add options are exactly the elevated roles the user lacks, each once, never the plain user role |
| UserManagement.RemoveOptionsAreHeldRoles | src/components/UserManagement.tsx:272-285 | The remove options are exactly the user's roles, and there is no selector when it has none |
| Countdown.Decompose | src/components/CountdownBanner.tsx:25-28 | For d > 0 the parts are in range (hours < 24, minutes < 60, seconds < 60) and reconstruct d to within one second: sum ≤ d < sum + 1000 |
| Countdown.NestedRemainders | src/components/CountdownBanner.tsx:26-28 | Taking the remainder by a day, an hour or a minute first does not change the next smaller remainder |
| Countdown.DecomposeUnique | src/components/CountdownBanner.tsx:25-28 | The range and reconstruction bounds determine the parts: any in-range parts within one second of d are the decomposition |
| Countdown.Pad2 | src/components/CountdownBanner.tsx:56 | The displayed number has at least two decimal digits and denotes the value; below 10 it is '0' and the digit, otherwise `String(n)` |
| Countdown.Pad2Wide | src/components/CountdownBanner.tsx:56 | A value of 100 or more prints in full, with three or more digits and no leading zero |
| Countdown.Display | src/components/CountdownBanner.tsx:56-83 | The four displayed numbers show days, hours, minutes and seconds, each with at least two digits |
| Countdown.DisplayInRange | src/components/CountdownBanner.tsx:65-83 | Within range, hours, minutes and seconds show exactly two digits |
| CountdownBanner.Banner.constructor | src/components/CountdownBanner.tsx:5-12 | The banner starts visible at all zeros |
| CountdownBanner.TickState | src/components/CountdownBanner.tsx:23-32 | A positive difference sets the decomposition and keeps visibility; otherwise the reading is kept and the banner hides |
| CountdownBanner.Banner.Tick | src/components/CountdownBanner.tsx:18-33 | The interval callback's new state is `TickState` of the old one |
| CountdownBanner.Render | src/components/CountdownBanner.tsx:38-83 | A hidden banner renders nothing; a visible one renders the four padded numbers |
| CountdownBanner.HiddenStaysHidden | src/components/CountdownBanner.tsx:31-38 | Once hidden the banner stays hidden and renders nothing, whatever later readings are |
| CountdownBanner.VisibleIffAllPositive | src/components/CountdownBanner.tsx:23-32 | After any run of ticks the banner is visible iff every reading was positive |
| CountdownBanner.VisibleShowsLatest | src/components/CountdownBanner.tsx:23-32 | A visible banner shows the decomposition of the latest reading |
| EventsSection.Timer.constructor | src/components/EventsSection.tsx:45-50 | An event timer starts at all zeros |
| EventsSection.TimerTick | src/components/EventsSection.tsx:58-65 | A positive difference sets the decomposition; a non-positive one leaves the reading unchanged |
| EventsSection.Timer.Tick | src/components/EventsSection.tsx:53-66 | The interval callback's new reading is `TimerTick` of the old one |
| EventsSection.TimerShowsLastPositive | src/components/EventsSection.tsx:45-65 | After any run of ticks the timer shows zeros if no reading was positive, else the decomposition of the last positive reading |
| EventsSection.CardKeys | src/components/EventsSection.tsx:107 | The cards come out in the list's order, one per event |
| EventsSection.DeclaredOrderIsNotDateOrder | src/components/EventsSection.tsx:5-42 | The cards render as 1, 2, 3, 4, which is not date order, since the March event precedes the February one |
| HeroSection.JoinDialog.constructor | src/components/HeroSection.tsx:19-27 | The dialog starts closed with every field empty |
| HeroSection.Without | src/components/HeroSection.tsx:55 | Filtering removes every copy of the interest and keeps every other element with its multiplicity; a duplicate-free list stays duplicate-free |
| HeroSection.ToggleInterest | src/components/HeroSection.tsx:54-56 | A present interest is removed (every copy), an absent one appended at the end, so it is in the result iff it was not in the input |
| HeroSection.Toggle | src/components/HeroSection.tsx:51-58 | A toggle changes only `interests` and leaves every other field unchanged |
| HeroSection.JoinDialog.HandleInterestChange | src/components/HeroSection.tsx:51-58 | The handler's new form is `Toggle` of the old one and the dialog state is unchanged |
| HeroSection.ToggleKeepsDistinct | src/components/HeroSection.tsx:54-56 | Toggling never introduces a duplicate |
| HeroSection.ToggleTwiceAbsent | src/components/HeroSection.tsx:54-56 | Toggling an absent interest twice gives back the original list |
| HeroSection.ToggleTwicePresent | src/components/HeroSection.tsx:54-56 | Toggling a present interest twice drops its extra copies and moves it to the end |
| HeroSection.ToggleStaysWithinOptions | src/components/HeroSection.tsx:181-186 | Toggled from the six offered interests, the list only ever holds offered interests |
| HeroSection.SetField | src/components/HeroSection.tsx:145-212 | Each input sets its own field and leaves the others, and the interests, unchanged |
| HeroSection.JoinDialog.Edit | src/components/HeroSection.tsx:145-212 | An input's new form is `SetField` of the old one and the dialog state is unchanged |
| HeroSection.JoinDialog.SetOpen | src/components/HeroSection.tsx:129 | Opening or closing the dialog leaves the form unchanged |
| HeroSection.JoinDialog.HandleSubmit | src/components/HeroSection.tsx:30-49 | Submit resets every field to empty and closes the dialog, whatever was entered |
| AnnouncementsSection.AnnouncementsList.constructor | src/components/AnnouncementsSection.tsx:14-15 | The section starts with no announcements, loading |
| AnnouncementsSection.AnnouncementsList.FetchAnnouncements | src/components/AnnouncementsSection.tsx:19-47 | An error reply or a throw keeps the list; otherwise the list becomes the rows, or empty for null data; loading ends on every path |
| AnnouncementsSection.FormatDate | src/components/AnnouncementsSection.tsx:51-58 | A null or empty date gives 'Unknown date'; any other is passed to the locale formatter |
| AnnouncementsSection.LookOf | src/components/AnnouncementsSection.tsx:83-106 | Only 'success', 'info' and 'announcement' get a specific look; any other or absent type gets the default |
| AnnouncementsSection.LooksDistinct | src/components/AnnouncementsSection.tsx:83-106 | The four looks have four different style classes and four different icon colours |
| AnnouncementsSection.Render | src/components/AnnouncementsSection.tsx:122-157 | Loading shows the spinner; after loading, an empty list shows the three static examples, and a non-empty list shows one card per row in order |
| AnnouncementsSection.ExampleLooks | src/components/AnnouncementsSection.tsx:138-162 | The three examples get the success, info and announcement looks, while every database card gets the default look |
| AnnouncementsSection.CardOf | src/components/AnnouncementsSection.tsx:160-184 | A card's title falls back to 'Announcement'; its date is `creation_time` if non-empty, else `created_at`; its text is newline-replaced or 'No content'; the creator line appears only for a non-empty name |
| AnnouncementsSection.KnownDateWhenCreatedAtPresent | src/components/AnnouncementsSection.tsx:171 | A row with a non-empty `created_at` always shows a date, never 'Unknown date' |
| AnnouncementsSection.ReplaceNewlines | src/components/AnnouncementsSection.tsx:176 | No newline remains, and the text grows by five characters per newline |
| AnnouncementsSection.ReplaceConcat | src/components/AnnouncementsSection.tsx:176 | Replacing newlines in a concatenation concatenates the two replacements |
| AnnouncementsSection.ReplaceWithoutNewlines | src/components/AnnouncementsSection.tsx:176 | Text without newlines renders unchanged |
| AnnouncementsSection.ReplaceIsJoinOfLines | src/components/AnnouncementsSection.tsx:176 | The replacement equals splitting the text into lines and joining them with `<br />`, so every other character keeps its order |
| AboutSection.FirstChar | src/components/AboutSection.tsx:102 | A word contributes its first character, and an empty word contributes nothing |
| AboutSection.WordStarts | src/components/AboutSection.tsx:102 | The word-start characters are non-space characters of the name |
| AboutSection.HeadsSplit | src/components/AboutSection.tsx:102 | Splitting on spaces and taking each word's first character yields exactly the word-start characters, in order |
| AboutSection.Initials | src/components/AboutSection.tsx:102 | The initials have at most two characters, and are the first two word starts of the name |
| AboutSection.DoubleSpaceIgnored | src/components/AboutSection.tsx:102 | An extra space between words does not change the initials |
| AboutSection.ThreeWords | src/components/AboutSection.tsx:102 | A name of three words shows the initials of the first two words only |
| AboutSection.ThreeWordName | src/components/AboutSection.tsx:6 | "Abdul Rahman Rahimi" shows "AR" |
| AboutSection.TeamCards | src/components/AboutSection.tsx:99-108 | One card per member, in declared order, keyed by index, with that member's initials |
| ProfileSettings.ProfileTab.constructor | src/components/ProfileSettings.tsx:13-16 | The tab starts with no saved name, an empty buffer, not editing, loading |
| ProfileSettings.ProfileTab.OnUser | src/components/ProfileSettings.tsx:19-23 | A fetch starts iff a user is present |
| ProfileSettings.Fetched | src/components/ProfileSettings.tsx:25-44 | A throw or an error other than not-found keeps the saved name and buffer. Otherwise the saved name becomes the row's name, or null, and the buffer mirrors it. Loading ends on every path |
| ProfileSettings.ProfileTab.FetchProfile | src/components/ProfileSettings.tsx:25-44 | The tab's new state is `Fetched` of the old one |
| ProfileSettings.MissingProfileLoadsEmpty | src/components/ProfileSettings.tsx:33-38 | The not-found error loads as no name and an empty buffer |
| ProfileSettings.FetchAndCancelSync | src/components/ProfileSettings.tsx:36-37 | After a fetch that is not a real error, and after a cancel, the buffer mirrors the saved name |
| ProfileSettings.UpsertOf | src/components/ProfileSettings.tsx:50-52 | The upserted row is keyed by the user's id and carries the trimmed buffer, or null when blank |
| ProfileSettings.Saved | src/components/ProfileSettings.tsx:46-74 | A successful save stores the trimmed buffer (or null) and stops editing; a failed one changes nothing |
| ProfileSettings.ProfileTab.UpdateProfile | src/components/ProfileSettings.tsx:46-74 | The row sent is `UpsertOf` the old state and the new state is `Saved` of it |
| ProfileSettings.FailedSaveKeepsEditing | src/components/ProfileSettings.tsx:66-72 | A failed save keeps the user editing with the typed text |
| ProfileSettings.SaveThenCancel | src/components/ProfileSettings.tsx:52-65 | After a save the field shows the trimmed name or the placeholder, and a cancel puts the trimmed name in the buffer |
| ProfileSettings.Cancelled | src/components/ProfileSettings.tsx:127-130 | Cancel stops editing and restores the buffer from the saved name, or empty |
| ProfileSettings.ProfileTab.Cancel | src/components/ProfileSettings.tsx:127-130 | The tab's new state is `Cancelled` of the old one |
| ProfileSettings.Shown | src/components/ProfileSettings.tsx:138 | The read-only field shows the saved name when non-empty, else exactly 'No display name set' |
| ProfileSettings.ProfileTab.StartEditing | src/components/ProfileSettings.tsx:145 | The edit button turns editing on and changes nothing else |
| ProfileSettings.ProfileTab.EditBuffer | src/components/ProfileSettings.tsx:117 | Typing replaces the buffer and changes nothing else |
| JsString.TrimStart | src/pages/AdminPanel.tsx:78 | The result is a suffix whose removed prefix is all whitespace and which does not start with whitespace |
| JsString.TrimEnd | src/pages/AdminPanel.tsx:78 | The result is a prefix whose removed suffix is all whitespace and which does not end with whitespace |
| JsString.Trim | src/pages/AdminPanel.tsx:78 | The trim is a slice of the input with only whitespace cut from both ends, and it neither starts nor ends with whitespace |
| JsString.TrimEmptyIffBlank | src/pages/AdminPanel.tsx:78 | A string trims to empty iff all its characters are whitespace |
| JsString.TrimIdempotent | src/pages/AdminPanel.tsx:100 | Trimming twice is trimming once |
| JsString.TrimmedOrNull | src/pages/AdminPanel.tsx:99 | `s.trim() \|\| null` is null iff `s` is blank, else the non-empty trim |
| JsString.Or | src/components/UserManagement.tsx:238 | `a \|\| b` is `a` when `a` is non-empty, else `b` |
| JsString.NatToString | src/components/CountdownBanner.tsx:56 | `String(n)` is a non-empty digit string without a leading zero whose value is `n` |
| JsString.NumeralLength | src/components/CountdownBanner.tsx:56 | `String(n)` has one digit below 10, two below 100, and at least three from 100 |
| JsString.PadStart | src/components/CountdownBanner.tsx:56 | Padding leaves a long enough string alone and otherwise prefixes pad characters up to the width |
| JsString.PadZeros | src/components/CountdownBanner.tsx:56 | Padding a numeral with '0' keeps its value |
| JsString.Take | src/components/UserManagement.tsx:243 | `slice(0, n)` is the first `n` characters, or the whole string when shorter |
| JsString.Split | src/components/AboutSection.tsx:102 | Splitting yields at least one piece and no piece contains the separator |
| JsString.JoinSplit | src/components/AboutSection.tsx:102 | Joining the pieces of a split with the separator gives back the string |

## Left out

- **Network, environment and host I/O.** The proxy's `fetch`, `response.text()`, `process.env`, `JSON.parse` and the function runtime are not modelled. Instead:
  - the parse result, the upstream reply, the base URL and the key are inputs;
  - an unset environment variable, which JavaScript would render as the text "undefined", is not distinguished from a set one.
- **Case-insensitive header names.** The outbound header object is a map keyed by exact name. The case-insensitive merging that the `Headers` class of `fetch` performs is not modelled.
- **Runtime error wording.** `NullEnvelopeMessage` approximates the message the engine gives when destructuring a `null` envelope. The wording is the engine's own and is not part of this model.
- **JSON numbers.** Numbers are integers only. Floating-point values, their serialisation and `JSON.parse` of them are not modelled.
- **Supabase backend semantics.** Table queries, server-side `.order`, the `is_admin`/`is_overseer` procedures, sign-in/sign-up/OTP and upsert conflict handling run server-side. Each appears only as its outcome, passed in as a parameter.
- **Timing and concurrency.**
  - `setTimeout` and `setInterval` are not modelled.
  - `Promise.all` is not modelled.
  - The race between the two auth entry points is not modelled.
  - A lookup round is one atomic step, applied whenever the caller chooses.
  - The refetch after a successful write is reported as `refetch`, not performed.
- **Clock and locale formatting.** `Date.now()`, `new Date(...)`, `getTime` and `toLocaleDateString` are not modelled. The countdowns take the millisecond difference as an integer, the announcement id and time take the clock reading and its ISO text, and `formatDate` leaves the locale text abstract (`Localized`).
- **Rendering and side effects.** JSX markup, CSS, icons, toasts and the `navigate` call are not modelled. Navigation appears only as the redirect predicate `MustRedirect`.
- **Delete and role-change handlers.** `handleDelete` (announcements and events) and `updateUserRole` (user list) each only issue a backend call, show a toast and refetch. No state of the model depends on them.
- **Unhandled throws in the admin forms.** The admin forms' `handleSubmit` has no `try`. A write that throws, rather than answering with an error, would leave `submitting` true. The model's `WriteResult` covers only answered writes.
- **Admin-form input handlers.** The per-field `onChange` setters of the announcement and event forms are plain field assignments and are not modelled.
- **Browser `required` validation.** The browser-side validation of the join dialog's inputs runs before `handleSubmit` and is not modelled.
- **Profile lookup in the announcements tab.** Its error is ignored by the source. The lookup's data is passed to `AdminPanel.Submit` as an `Option`.
- **UTF-16 code units.** `slice`, `n[0]` and `padStart` count UTF-16 code units. The model counts Dafny characters, so it differs only for characters outside the Basic Multilingual Plane.
- **Supervisor cards.** They are rendered by a `map` in declared order with no derived field. No function models them beyond the `Supervisors` list.
- **HTML injection.** The effect of `dangerouslySetInnerHTML` on the injected text is not modelled. Only the string replacement is.
- **Out-of-scope pages and components.** `Auth.tsx`, `AdminAuth.tsx`, `Header.tsx`, the generated database types, the static sections and the page shells are not part of this model.
- **Weaker contracts:**
  - `Proxy.Overlay`: its `ensures` gives only the merged keys. The values are stated by the lemmas `Proxy.OverlayWins`, `Proxy.OverlayKeeps` and `Proxy.CallerHeadersWin`.
  - `Json.TemplateString`: its `ensures` covers only string values, the case `Proxy.UrlIsConcatenation` relies on. Other values are specified by the function body alone.
