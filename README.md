# NeighborGuard web client — a verified model

NeighborGuard is a neighbourhood-watch app. Residents of a home ("circle") and their neighbours report events (a doorbell camera clip, a suspicious person), talk about them in notes, and close them with a resolution note. This project models the browser client's logic in Dafny:

- the API helpers in `src/api.ts`:
  - the API origin and media-URL rules;
  - the dev "current user" kept in local storage;
  - the client-side fallback that rebuilds `/home/tasks` from other endpoints;
  - the three ways an event is created (JSON, multipart, or upload then JSON);
  - the notification query string.
- the page and component state behind the guard home page, a circle's event list, the notification bell, the event detail page, the circle dashboard and the reusable create-event form.

Every remote call is an input to the model. A call that succeeds or fails is an `Outcome` (`Ok(value)` or `Err(message)`). A per-circle or per-event fetch whose failure is swallowed is a total function from id to `Option`. An asynchronous handler is modelled as one step, from the click to the settled state. Each page is a `class` whose fields are the component's state variables. Each handler is a method whose postcondition states the complete new state.

The modules:

- `Base`: `Option`, `Outcome` and the loading state.
- `Text`: ECMAScript white space, `trim`, `startsWith`/`endsWith`/`includes`, and decimal printing.
- `Ordering`: `filter`, and the newest-first sort used by every list.
- `Domain`: the response and request types.
- `Api`, `DevIdentity`, `HomeTasks` and `EventCreation`: `src/api.ts`.
- `GuardHome`, `CircleEvents`, `NotificationBell`, `EventDetail`, `CircleDashboard` and `CreateEventForm`: one per page or component.

Where the code and its comments disagree, the model follows the code:

- The fallback's `pendingEvents` filters on status only, although a comment mentions `canChangeResolution`.
- The "mine" filter needs a truthy (non-empty) current user id.
- `reloadTasks` does not clear an earlier error.
- `handleCloseEvent` itself does not check `canChangeResolution`; only the disabled button does.
- `handleAddMember` does not check ownership; only the form's rendering does.

## Model

| member | source | states |
|---|---|---|
| Api.ApiBaseUrl | src/api.ts:3 | the configured base URL when one is set, otherwise `http://localhost:3000/api` |
| Api.ApiOrigin | src/api.ts:4 | the origin is a prefix of the base, equal to it exactly when the base does not end in `/api` or `/api/`, and otherwise what is cut is exactly that suffix |
| Api.DefaultOrigin | src/api.ts:3-4 | with no configured base the origin is `http://localhost:3000` |
| Api.ToMediaUrl | src/api.ts:6-11 | a missing or empty URL gives ""; an `http://` or `https://` URL is returned as is; any other URL gives the origin, then `/`, then the URL without its first character when that is `/` (so a URL starting with `/` is appended as is, and one starting with `//` keeps a double slash) |
| Api.MediaUrlAbsolute | src/api.ts:6-11 | with an absolute origin, every non-empty result is an absolute URL |
| Api.MediaUrlIdempotent | src/api.ts:6-11 | applying the rewrite to its own result changes nothing |
| Api.FetchErrorMessage | src/api.ts:221-224 | a failed response's error is the status and status text, and exactly that when the body is empty; otherwise they are followed by ` - ` and the body |
| Api.MissingRouteBodyTriggersFallback | src/api.ts:221-245 | a response body naming the missing `/home/tasks` route triggers the fallback, whatever the status |
| Api.IsFallbackTrigger | src/api.ts:243-245 | the fallback is chosen exactly when the message contains "Cannot GET /home/tasks" or "404" |
| Api.NotFoundTriggersFallback | src/api.ts:221-249 | every 404 response error triggers the fallback, whatever its text and body |
| Api.NotificationsPath | src/api.ts:481-486 | exactly `/notifications` when all notifications are asked for, and exactly `/notifications?unreadOnly=true` when only unread ones are |
| DevIdentity.FirstSet | src/api.ts:192-201 | no user exactly when every key is missing or empty; otherwise the value of a set key with all earlier keys unset |
| DevIdentity.DevStorage.constructor | src/api.ts:177-201 | the storage holds exactly the entries it is opened with |
| DevIdentity.DevStorage.GetUserId | src/api.ts:192-201 | the key loop returns the first non-empty value in the order `dev.currentUserId`, `x-user-id`, `ng_current_user_id`, `ngUserEmail` |
| DevIdentity.DevStorage.SetUserId | src/api.ts:177-190 | a missing or empty id removes all four keys; any other id writes the two current keys; the loop leaves nothing else changed |
| DevIdentity.SetThenGet | src/api.ts:177-201 | after setting an id, reading gives it back, or no user when it was missing or empty |
| DevIdentity.SetUserIdFrame | src/api.ts:177-190 | storing a user touches no key outside the four identity keys, and a non-empty id adds exactly the two current keys |
| DevIdentity.PageSyncIsSetUserId | src/pages/GuardHomePage.tsx:105-110 | the page's extra write of `dev.currentUserId` before `setUserId` makes no difference to the stored result |
| HomeTasks.FallbackRole | src/api.ts:260 | "owner" exactly when the owner id and the caller's id are both non-empty and equal, otherwise "neighbor" |
| HomeTasks.Summarize | src/api.ts:256-261 | a circle keeps its id and address, a missing name becomes "Unnamed place", and the role is derived as above |
| HomeTasks.MyCircles | src/api.ts:256-261 | one summary per circle of `/me`, in order |
| HomeTasks.AllEventsMember | src/api.ts:264-273 | an event is gathered exactly when some circle's fetch succeeded and returned it; a failed fetch contributes nothing and aborts nothing |
| HomeTasks.AllEventsAppend | src/api.ts:264-273 | the gathered list is the circles' lists concatenated in circle order |
| HomeTasks.CreatedEventIds | src/api.ts:287-289 | the ids are exactly those of `event_created` notifications that carry an event id, at most one per notification |
| HomeTasks.CreatedEventIdsAppend | src/api.ts:287-289 | the ids of two inbox segments are those of the first followed by those of the second, so ids keep inbox order |
| HomeTasks.Dedup | src/api.ts:291-299 | the ids kept are the same set as the input, with no repeats |
| HomeTasks.DedupFirstSeen | src/api.ts:291-299 | the de-duplicated ids appear in the order of their first occurrence |
| HomeTasks.FetchAll | src/api.ts:303-313 | the fetched events are exactly the successful fetches of the ids, at most one per id, failures dropped |
| HomeTasks.FetchAllAppend | src/api.ts:303-313 | fetching a concatenation of ids gives the fetches of the first part followed by those of the second |
| HomeTasks.FetchAllOrder | src/api.ts:303-313 | two ids that both fetch an event yield their events in the order of the ids |
| HomeTasks.BuildHomeTasksFallback | src/api.ts:252-329 | the loop with its seen-set and push builds the same result as the fallback's specification |
| HomeTasks.GetHomeTasks | src/api.ts:239-250 | a successful primary call is returned; a triggering error switches to the fallback; any other error propagates unchanged |
| HomeTasks.FallbackErrors | src/api.ts:252-329 | the fallback fails exactly when `/me` or the unread-notification list fails, with that error |
| HomeTasks.FallbackPending | src/api.ts:275-280 | `pendingEvents` is exactly the open gathered events, in circle-then-list order |
| HomeTasks.FallbackNewEvents | src/api.ts:301-321 | with notified ids, the new events are exactly the fetches of the de-duplicated ids in first-seen order, failures dropped; without any, the pending events less than a day older than `now`, in their pending order |
| HomeTasks.FallbackIdsDistinct | src/api.ts:287-299 | every notified event id is fetched, and no id is fetched twice |
| EventCreation.FormFieldsExact | src/api.ts:365-367 | a field is in the multipart form exactly when the payload has that key with a value other than undefined, null or "" |
| EventCreation.BuildMultipartForm | src/api.ts:360-374 | the `forEach` builds the payload's fields in entry order, then the file part when there is a file |
| EventCreation.CreateEvent | src/api.ts:377-389 | with no file only the JSON request is made; with a file the requests are exactly: the multipart post alone when it succeeds; the multipart post and the upload when the upload fails; the multipart post, the upload and the JSON post carrying the uploaded video id otherwise; the result follows the request that settled |
| GuardHome.InitialUserId | src/pages/GuardHomePage.tsx:72-77 | the stored `dev.currentUserId`, else `x-user-id`, else the first dev user; never empty |
| GuardHome.CurrentDevUser | src/pages/GuardHomePage.tsx:85-88 | the dev user with the current id, or the first dev user for an unknown id |
| GuardHome.InitialUserAfterSet | src/pages/GuardHomePage.tsx:72-110 | a user stored by selecting it is the one selected when the page next opens |
| GuardHome.FindFirst | src/pages/GuardHomePage.tsx:57-63 | the index of the first circle matching the predicate, or none when no circle matches |
| GuardHome.PickDefaultCircleId | src/pages/GuardHomePage.tsx:53-68 | "" for an empty list; otherwise the id of a circle in the list, so when no circle id is empty the result is "" exactly for the empty list |
| GuardHome.PickDefaultPriority | src/pages/GuardHomePage.tsx:57-67 | the first owned circle wins, else the first resident or co-resident one, else the first circle |
| GuardHome.CreateRejection | src/pages/GuardHomePage.tsx:182-194 | the form is submitted exactly when a place is chosen, the request text has a non-space character and the video is at most 50 MiB; otherwise "Please choose a place.", "Please describe what happened / your request." or "Video is too large (max 50MB).", checked in that order |
| GuardHome.HomePayload | src/pages/GuardHomePage.tsx:196-205 | the posted request text is the trimmed text, non-empty with no white space at either end when the text was not blank |
| GuardHome.RemoveByIdExact | src/pages/GuardHomePage.tsx:222-226 | removing a read notification keeps exactly the entries with other ids |
| GuardHome.GuardHomePage.SelectUser | src/pages/GuardHomePage.tsx:105-110 | choosing a user stores it as `setUserId` would, and changes no other page state |
| GuardHome.GuardHomePage.constructor | src/pages/GuardHomePage.tsx:79-102 | the initial user from storage; no tasks, idle, no error; an empty inbox; no circle chosen, the "front-door" zone, a suspicious-person event of medium severity, no text, no video |
| GuardHome.GuardHomePage.LoadTasks | src/pages/GuardHomePage.tsx:113-130 | a successful load stores the tasks and picks the default circle; a failure records the error and keeps the circle; the inbox, the selections and the draft are untouched |
| GuardHome.GuardHomePage.ReloadTasks | src/pages/GuardHomePage.tsx:166-178 | the tasks as fetched, an earlier error kept on success, the error recorded on failure; a reload never changes the chosen circle, the inbox, the selections or the draft |
| GuardHome.GuardHomePage.LoadUnreadNotifications | src/pages/GuardHomePage.tsx:135-149 | the unread list is stored newest first; a failure keeps the old list and records the error; the tasks, the circle, the selections and the draft are untouched |
| GuardHome.GuardHomePage.MarkNotificationReadOptimistic | src/pages/GuardHomePage.tsx:222-226 | the entries with that id leave the unread list, the others stay in order; nothing else changes |
| GuardHome.GuardHomePage.MarkAllRead | src/pages/GuardHomePage.tsx:413-416 | the unread list is emptied whether or not the server call succeeds; nothing else changes |
| GuardHome.GuardHomePage.HandleCreateEvent | src/pages/GuardHomePage.tsx:180-220 | a rejected form makes no request and changes nothing; otherwise the requests are those of event creation with the trimmed text; success clears the text and video and leaves the tasks and inbox (with their load states) as the two reloads answered; failure alerts and leaves everything but the busy flag as it was; `creating` ends false; the circle, user, zone, type and severity never change |
| GuardHome.GuardHomePage.Submit | src/pages/GuardHomePage.tsx:207-219 | the `try` block: the create call, then the form reset and both reloads with their load states, or the alert with tasks and inbox untouched |
| CircleEvents.FilteredMember | src/pages/CircleEventsPage.tsx:69-86 | an event is shown exactly when it is in the list and the chosen filter keeps it |
| CircleEvents.FilteredOrder | src/pages/CircleEventsPage.tsx:69-86 | the shown events are newest first, and each event appears as many times as in the list when the filter keeps it and not at all otherwise (so under "all" they are a permutation of it) |
| CircleEvents.FilteredEventsSpec | src/pages/CircleEventsPage.tsx:71-80 | "unresolved" keeps exactly the open events; "mine" those marked mine or created by the non-empty current user; "neighbors" those created by a neighbour |
| CircleEvents.CircleEventsPage.constructor | src/pages/CircleEventsPage.tsx:17-25 | the page starts loading, empty, with the "unresolved" filter |
| CircleEvents.CircleEventsPage.LoadMeta | src/pages/CircleEventsPage.tsx:27-46 | the current user and the circle's name and address come from `/me`; an unknown circle reads "Unknown place"; a failed load also reads "Unknown place" and keeps the address |
| CircleEvents.CircleEventsPage.Visible | src/pages/CircleEventsPage.tsx:69-86 | the listed events are newest first and are exactly the stored events the chosen filter keeps, each with its stored multiplicity |
| CircleEvents.FilteredMembers | src/pages/CircleEventsPage.tsx:69-86 | the membership rule above, for every event at once |
| CircleEvents.CircleEventsPage.ReloadEvents | src/pages/CircleEventsPage.tsx:48-63 | the stored list is replaced as fetched and never reordered; a failure keeps it |
| CircleEvents.CircleEventsPage.SetFilter | src/pages/CircleEventsPage.tsx:25 | choosing a filter changes nothing else |
| NotificationBell.Decremented | src/components/NotificationBell.tsx:70 | the counter drops by one and never below zero |
| NotificationBell.MarkedRead | src/components/NotificationBell.tsx:69 | same length and order; the entries with that id become read; every other entry is unchanged |
| NotificationBell.MarkedReadUnread | src/components/NotificationBell.tsx:69 | marking an id read removes exactly that id from the unread ids |
| NotificationBell.BadgeText | src/components/NotificationBell.tsx:91-111 | no badge at zero or below; from 1 to 99 the count in decimal, all digits, no leading zero, reading back as the count; "99+" above |
| NotificationBell.LinkTarget | src/components/NotificationBell.tsx:163-166 | a notification naming an event links to `/events/` plus its id, otherwise to "#" |
| NotificationBell.ClickIdempotent | src/components/NotificationBell.tsx:172-175 | clicking the same notification twice has the effect of clicking it once |
| NotificationBell.ClicksBounded | src/components/NotificationBell.tsx:68-72 | over any sequence of clicks the counter drops by at most the number of distinct unread notifications |
| NotificationBell.NotificationBellWidget.constructor | src/components/NotificationBell.tsx:13-18 | the bell starts closed, idle, empty, at zero |
| NotificationBell.NotificationBellWidget.RefreshUnread | src/components/NotificationBell.tsx:20-27 | a missing count reads 0; a failed poll leaves the counter unchanged |
| NotificationBell.NotificationBellWidget.LoadList | src/components/NotificationBell.tsx:29-44 | the list is stored newest first; a failure keeps the old list and records the error |
| NotificationBell.NotificationBellWidget.HandleToggle | src/components/NotificationBell.tsx:62-66 | the drop-down flips; the list is loaded when opening and not when closing |
| NotificationBell.NotificationBellWidget.MarkReadOptimistic | src/components/NotificationBell.tsx:68-72 | the entry is shown read and the counter is decremented at once |
| NotificationBell.NotificationBellWidget.ClickNotification | src/components/NotificationBell.tsx:172-175 | an unread entry is marked read, a read one changes nothing, and the drop-down closes |
| EventDetail.InitialResolutionNote | src/pages/EventDetailPage.tsx:43 | the note, else the resolution, else "" (an empty note is kept) |
| EventDetail.ResolutionText | src/pages/EventDetailPage.tsx:378-380 | a resolved event shows its note when that has a non-space character, otherwise "No resolution note." |
| EventDetail.CloseRejectionSpec | src/pages/EventDetailPage.tsx:75-86 | closing proceeds exactly for an open event whose note has a non-space character; a resolved event is refused as locked before the note is checked |
| EventDetail.NoteFormUnlessLocked | src/pages/EventDetailPage.tsx:324-358 | on a rendered event the note form is shown exactly when closing would not refuse the event as locked; a resolved event never shows it |
| EventDetail.EnabledCloseIsSent | src/pages/EventDetailPage.tsx:179-180 | when the close button is enabled and the note is not blank, the close reaches the server |
| EventDetail.NoteBodySpec | src/pages/EventDetailPage.tsx:110-111 | a note is sent exactly when the input has a non-space character, and what is sent is a piece of the input with no white space at either end |
| EventDetail.EventDetailPage.constructor | src/pages/EventDetailPage.tsx:19-31 | both loads pending, empty inputs, no save in flight |
| EventDetail.EventDetailPage.LoadEvent | src/pages/EventDetailPage.tsx:34-51 | a loaded event also seeds the resolution form, and the note form is then shown exactly when it is not resolved; a failure keeps both |
| EventDetail.EventDetailPage.LoadNotes | src/pages/EventDetailPage.tsx:54-70 | the notes are stored as fetched; a failure keeps them |
| EventDetail.EventDetailPage.HandleCloseEvent | src/pages/EventDetailPage.tsx:72-104 | without an id or an event nothing happens; a refused close alerts and sends nothing; otherwise the close is sent as below, and once the server returns the event resolved the note form is hidden |
| EventDetail.EventDetailPage.SendResolution | src/pages/EventDetailPage.tsx:88-103 | status "resolved" is sent with the untrimmed note; the server's event and its note replace the shown ones, or the failure is alerted; the saving flag ends false |
| EventDetail.EventDetailPage.HandleAddNote | src/pages/EventDetailPage.tsx:106-129 | a blank note is dropped silently; otherwise the trimmed body is sent as below |
| EventDetail.EventDetailPage.SendNote | src/pages/EventDetailPage.tsx:113-128 | the body goes out as a "comment"; success appends the created note and clears the input, failure alerts and keeps both; the adding flag ends false |
| Domain.FindCircle | src/pages/CircleDashboardPage.tsx:54 | the first circle with that id, or none exactly when no circle has it |
| CircleDashboard.MetaFor | src/pages/CircleDashboardPage.tsx:53-68 | an unknown circle gets "Unknown place", empty address and house type, no zones, not owner; a known one's missing fields take their defaults |
| CircleDashboard.OwnerIffListedOwner | src/pages/CircleDashboardPage.tsx:67 | the viewer is owner exactly when the circle with that id names them as its owner |
| CircleDashboard.RemoveButtonGate | src/pages/CircleDashboardPage.tsx:287 | Remove appears exactly for a non-owner member when the viewer is the circle's listed owner |
| CircleDashboard.ShownEvents | src/pages/CircleDashboardPage.tsx:371 | at most five events, the leading ones of the list |
| CircleDashboard.ShownAreNewest | src/pages/CircleDashboardPage.tsx:145-154 | no event left out of the five is newer than any event shown |
| CircleDashboard.ShownOrdered | src/pages/CircleDashboardPage.tsx:145-154 | the shown events are at most five, newest first |
| CircleDashboard.AddMemberStep | src/pages/CircleDashboardPage.tsx:102-115 | refused with "Please enter member email." exactly when the email is blank; otherwise the trimmed email, and the trimmed name or nothing when it is blank |
| CircleDashboard.CircleDashboardPage.constructor | src/pages/CircleDashboardPage.tsx:21-44 | everything loading, an empty form with the neighbour role |
| CircleDashboard.CircleDashboardPage.LoadMeta | src/pages/CircleDashboardPage.tsx:47-76 | the overview is the lookup's result; a failure keeps the placeholder and records the error |
| CircleDashboard.CircleDashboardPage.ReloadMembers | src/pages/CircleDashboardPage.tsx:79-94 | the members are stored as fetched; a failure keeps them |
| CircleDashboard.CircleDashboardPage.LoadEvents | src/pages/CircleDashboardPage.tsx:141-162 | the events are stored newest first; a failure keeps them |
| CircleDashboard.CircleDashboardPage.HandleAddMember | src/pages/CircleDashboardPage.tsx:100-125 | without a circle or with a blank email (which alerts) nothing is sent and the members and form are untouched; otherwise the add is sent as below; the overview and events never change |
| CircleDashboard.CircleDashboardPage.SendAddMember | src/pages/CircleDashboardPage.tsx:108-124 | success resets the form to empty fields and the neighbour role and leaves the members as the reload answered; failure alerts and keeps the form and members; the busy flag ends false |
| CircleDashboard.CircleDashboardPage.HandleRemoveMember | src/pages/CircleDashboardPage.tsx:127-138 | nothing is sent without confirmation; success leaves the members as the reload answered, failure alerts and keeps them; the overview, events and form never change |
| CreateEventForm.TooLargeMessageText | src/components/CreateEventForm.tsx:5-26 | the size error reads "Video is too large. Max is 50MB." |
| CreateEventForm.FormPayload | src/components/CreateEventForm.tsx:30-37 | the request text is sent as typed, untrimmed, with the chosen severity |
| CreateEventForm.CreateEventFormState.constructor | src/components/CreateEventForm.tsx:11-17 | a doorbell event at the front zone, medium severity, nothing typed |
| CreateEventForm.CreateEventFormState.OnSubmit | src/components/CreateEventForm.tsx:21-66 | an empty request text never submits (the textarea is required) and changes nothing; otherwise the error is cleared first; a file over 50 MiB is refused before any request; success hands the created event on and clears the text and file; failure shows its message; `busy` ends false |
| Ordering.Filter | src/pages/CircleEventsPage.tsx:70-80 | the kept elements pass the test and come from the list, and every passing element is kept |
| Ordering.FilterSubMultiset | src/pages/CircleEventsPage.tsx:70-80 | filtering never adds or duplicates an element |
| Ordering.FilterCount | src/pages/CircleEventsPage.tsx:70-80 | every copy of a passing element is kept, and no copy of a failing one |
| Ordering.FilterKeepsAll | src/pages/CircleEventsPage.tsx:79 | a test every element passes keeps the whole list |
| Ordering.FilterIdempotent | src/api.ts:275-280 | filtering twice by the same test is filtering once |
| Ordering.SortNewestFirstCorrect | src/pages/GuardHomePage.tsx:141 | the sort is a permutation of its input, ordered by `createdAt` descending |
| Text.Trim | src/pages/GuardHomePage.tsx:186 | the trimmed text has no white space at either end and occurs in the input with only white space before and after it |
| Text.BlankIffAllSpace | src/pages/GuardHomePage.tsx:186 | a text trims to "" exactly when it is all white space |
| Text.ContainsIff | src/api.ts:245 | `includes` holds exactly when the substring occurs at some position |
| Text.DecimalRoundTrip | src/components/NotificationBell.tsx:109 | reading back the printed digits of a count gives the count |

## Left out

- HTTP through `fetch`, `FormData`, response decoding and the backend: each remote result is an input `Outcome` or `Option`.
- The `x-user-id` request header that `apiFetch` adds is not modelled; the identity it reads is.
- `Promise.all` runs concurrently in the source. The model runs the fetches in order, which gives the same result because results keep input order.
- The polling timers (10 s and 15 s), focus and visibility listeners and effect scheduling are left out. `RefreshUnread` and `LoadUnreadNotifications` are what one poll does.
- Date parsing, `Date.now()` and `toLocaleString`: timestamps are integer milliseconds and `now` is a parameter.
- JSX rendering and styles are left out. Only the rules that decide what is shown are modelled: badge, link target, Remove button, five newest events, note form, resolution text.
- The owner-only rendering of the add-member form is not modelled separately. `isOwner` is modelled by `CircleDashboard.MetaFor`.
- `window.alert` and `window.confirm` are modelled as a returned alert text and a `confirmed` input.
- The transient "loading" state inside one handler is not modelled, because a handler is one step. The `silent` flag of `loadUnreadNotifications` only affects that transient state.
- Ordering.SortNewestFirstCorrect: the order among events with equal timestamps is not stated. The sort used is stable, like `Array.prototype.sort`, but no lemma says so.
- `loadUnreadNotifications` sorts the fetched array in place. It is modelled on values: the array is fresh and shared with nothing, so nothing is lost.
- Local storage is always available. The early return when `window.localStorage` is missing is not modelled.
- Timestamps are assumed valid (never NaN), and `eventId` is a string, so `String(...)` of it is the identity.
- `/me` circles are always a list. The fallback's `me.circles ?? []` guard for a missing list is not modelled.
- `src/pages/LoginPage.tsx` and `src/App.tsx` are not part of this model. One only writes storage and navigates; the other is a route table.
- Authorization is computed server-side and arrives as `canChangeResolution` and `isMine`.
- Fields the client only displays (titles, messages, names, video URLs) are not in the data model.
