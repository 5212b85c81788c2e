# EventEase client: notification store, navigation and event lists

This project models the client-side logic of the EventEase event-management
web client and proves properties of it:

- **Notification store** (`NotificationProvider`). It caches the user's
  notifications. `markRead` / `markUnread` set the read flag of every entry
  with a given id. `setNotifications` replaces the whole list. The store is
  a class, `NotificationStore.NotificationProvider`, with a
  `seq<Notification>` field and one method per operation.
- **Notification list view**. It shows an empty state or one row per
  notification. A row's button dispatches `markUnread` on a read row and
  `markRead` on an unread one.
- **Navigation bar**. It holds the unread count and badge, the links each
  visitor sees by role, the avatar initial, and the "name, else e-mail prefix
  before `@`" display name.
- **Event pages**. Search is case-insensitive over the title and the nullable
  description. The admin page adds a status filter and keeps status counts.
  Delete removes events by id. The admin toggle switches between active and
  cancelled. The organizer page computes the attendee total and decides who
  may use it. The admin and organizer pages hold their event list in a
  class whose methods are the page's handlers.

Layout: `models.dfy` (records), `lists.dfy` (`Array.prototype.filter` and
order-preserving subsequences), `text.dfy` (ASCII `toLowerCase` /
`toUpperCase`, `String.prototype.includes`, `split(c)[0]`),
`notification_store.dfy`, `notification_list.dfy`, `navbar.dfy`,
`event_lists.dfy` (the search predicate and delete filter shared by the event
pages), `public_events.dfy`, `admin_events.dfy`, `organizer_events.dfy`.

Inputs from outside the client are parameters. The outcome of each HTTP call
is a boolean `apiSucceeded`, or an `Option<seq<Event>>` response where `None`
means the request failed. The user's answer to the confirmation dialog is a
boolean `confirmed`. The signed-in user is an `Option<User>`.

Two details of the code that the model keeps:

- `markRead` and `markUnread` set the read flag rather than flip it, and they
  set it on every entry with the id, not only the first one.
- JavaScript truthiness is modelled literally. An empty description is as
  falsy as a null one. An empty name falls back to the e-mail. An empty
  status is passed to the toggle as `"active"`.

## Model

| member | source | states |
|---|---|---|
| NotificationStore.WithReadFlag | src/context/NotificationContext.tsx:19-28 | the update keeps length and order; entries with the id change only `is_read`, every other entry is identical |
| NotificationStore.WithReadFlagUnchangedIff | src/context/NotificationContext.tsx:21-26 | an update leaves the list unchanged if and only if every entry with that id already has the flag |
| NotificationStore.AbsentIdUnchanged | src/context/NotificationContext.tsx:19-28 | `markRead` / `markUnread` with an id not in the list leave it unchanged |
| NotificationStore.LastUpdateWins | src/context/NotificationContext.tsx:19-28 | two updates on one id equal the second update alone |
| NotificationStore.UpdateIdempotent | src/context/NotificationContext.tsx:19-28 | `markRead` is idempotent, and so is `markUnread` |
| NotificationStore.MarkUnreadUndoesMarkRead | src/context/NotificationContext.tsx:24-28 | `markUnread` after `markRead` on an id whose entries were all unread restores the original list |
| NotificationStore.NotificationProvider.constructor | src/context/NotificationContext.tsx:17 | the store starts as the empty list |
| NotificationStore.NotificationProvider.MarkRead | src/context/NotificationContext.tsx:19-23 | the new list is the old one with the id's entries marked read; every entry with the id is read |
| NotificationStore.NotificationProvider.MarkUnread | src/context/NotificationContext.tsx:24-28 | the new list is the old one with the id's entries marked unread; every entry with the id is unread |
| NotificationStore.NotificationProvider.SetNotifications | src/context/NotificationContext.tsx:17 | the list is replaced by the argument, with no merge |
| NotificationView.Render | src/components/NotificationList.tsx:19-35 | empty state if and only if the store is empty; otherwise one row per notification, in store order, each rendered by `RenderRow` from that notification |
| NotificationView.RenderRow | src/components/NotificationList.tsx:53-85 | the label is "Mark Unread" exactly when the notification is read, "Mark Read" exactly when unread; the unread dot shows exactly when unread |
| NotificationView.ToggleCall | src/components/NotificationList.tsx:74-78 | the button calls `markUnread` exactly on a read row, `markRead` otherwise, with the row's id |
| NotificationView.ClickRow | src/components/NotificationList.tsx:74-78 | one click gives the row, and every entry sharing its id, the opposite of the row's flag; other entries are unchanged |
| NotificationView.ClickTwiceRestoresIff | src/components/NotificationList.tsx:74-78 | a second click restores the list if and only if all entries sharing the row's id had the row's flag |
| NotificationView.Click | src/components/NotificationList.tsx:74-78 | dispatching a click through the store yields the list `ClickRow` describes |
| Navbar.UnreadCount | src/components/Navbar.tsx:13 | the unread count is at most the list length, and is zero exactly when every notification is read |
| Navbar.ShowsBadge | src/components/Navbar.tsx:50 | the badge shows exactly when some notification is unread |
| Navbar.MarkReadUnreadCount | src/components/Navbar.tsx:13 | after `markRead(id)` the unread count drops by exactly the number of unread entries with that id |
| Navbar.MarkUnreadUnreadCount | src/components/Navbar.tsx:13 | after `markUnread(id)` the unread count rises by exactly the number of read entries with that id |
| Navbar.TwoNotificationScenario | src/components/Navbar.tsx:13 | for one unread and one read notification the count is 1, then 0 after marking the first read, then 1 after marking the second unread |
| Navbar.FirstUpper | src/components/Navbar.tsx:80-81 | `charAt(0).toUpperCase()` is empty exactly for the empty string, otherwise one character that is not a lower-case letter and equals the first character up to case |
| Navbar.Badge | src/components/Navbar.tsx:50-54 | the badge is present exactly when some notification is unread, and then shows the unread count, which is positive |
| Navbar.AvatarInitial | src/components/Navbar.tsx:80-81 | at most one character, never a lower-case letter; it is the first character of a non-empty name, else of the e-mail; empty only when both are empty |
| Navbar.DisplayName | src/components/Navbar.tsx:85 | a non-empty name is shown as is; otherwise the e-mail's prefix up to its first '@', or the whole e-mail when it has no '@' |
| Navbar.SignedInLinks | src/components/Navbar.tsx:28-111 | a signed-in menu starts with Events, holds Tickets, the notifications link and the user menu but neither Sign In nor Get Started, and holds Organizer or Admin exactly for that role |
| Navbar.NavLinks | src/components/Navbar.tsx:28-111 | Events always comes first. Signed out: exactly Events, Sign In, Get Started. Tickets and Notifications need a user. Organizer appears exactly for role organizer, Admin exactly for role admin. The notifications link carries `Badge` of the notifications. A signed-in user sees the user menu with `AvatarInitial` and `DisplayName`, and no other user menu |
| Lists.Filter | src/app/events/page.tsx:28-33 | `Array.prototype.filter` keeps exactly the elements satisfying the predicate, each as often as in the input, and never grows the list |
| Lists.FilterAppend | src/app/events/page.tsx:28-33 | filtering a concatenation is the concatenation of the filtered parts |
| Text.Lower | src/app/events/page.tsx:30 | `toLowerCase` keeps the length and folds each ASCII capital to its lower-case letter |
| Text.UpperChar | src/components/Navbar.tsx:80-81 | `toUpperCase` on one character gives no lower-case letter; it shifts an ASCII lower-case letter to its capital and keeps every other character |
| Text.Includes | src/app/events/page.tsx:30 | `includes` fails when the needle is longer than the string, and holds when the needle is a prefix of it, in particular when it is empty |
| Text.IncludesIff | src/app/events/page.tsx:30 | `includes` holds exactly when the needle occurs at some position of the string |
| Text.IncludesPrefix | src/app/events/page.tsx:29-32 | a string that contains a needle contains each prefix of it |
| Text.BeforeFirst | src/components/Navbar.tsx:85 | `split("@")[0]` is a prefix without '@', followed in the string by '@' when shorter than it |
| EventLists.ContainsFolded | src/app/events/page.tsx:30 | the lower-cased string contains the lower-cased term exactly when it occurs at some position; the term is then no longer than the string |
| EventLists.MatchesSearch | src/app/events/page.tsx:29-32 | a title match suffices; with a null or empty description only the title counts; a match without a title match comes from an occurrence in the description; a non-empty description containing the term makes the event match |
| EventLists.EmptyTermMatches | src/app/events/page.tsx:30 | the empty search term matches every event |
| EventLists.NullDescriptionMatchesByTitle | src/app/events/page.tsx:31 | an event with a null description matches exactly when its title does |
| EventLists.LongerTermMatchesLess | src/app/events/page.tsx:29-32 | an event matching a term also matches every prefix of that term |
| EventLists.TermCaseIrrelevant | src/app/events/page.tsx:29-32 | lower-casing the search term does not change whether an event matches |
| EventLists.RemoveEvent | src/app/admin/events/page.tsx:41 | the result is an order-preserving subsequence; it holds no event with the id and every other event as often as the input does, and it is shorter by exactly the number of events with the id |
| PublicEvents.SearchEvents | src/app/events/page.tsx:28-33 | the result is an order-preserving subsequence of the events; an event is in it if and only if it matches the term, and a matching event occurs as often as in the input |
| PublicEvents.EmptyTermKeepsAll | src/app/events/page.tsx:28-33 | the empty term keeps every event |
| PublicEvents.LongerTermNarrows | src/app/events/page.tsx:28-33 | when `t` extends `s`, the results for `t` are a subsequence of the results for `s` |
| PublicEvents.SearchCaseInsensitive | src/app/events/page.tsx:28-33 | searching for the lower-cased term gives the same results |
| PublicEvents.EmptyHint | src/app/events/page.tsx:78-80 | the hint is "Try adjusting your search terms" exactly when the term is non-empty, else "No events are currently available" |
| PublicEvents.View | src/app/events/page.tsx:66-89 | spinner exactly while loading; "No events found" with that hint exactly when loaded and nothing matches; otherwise the matching events |
| AdminEvents.FilteredEvents | src/app/admin/events/page.tsx:63-71 | an order-preserving subsequence; an event is kept if and only if it matches the term and the filter is "all" or equals its status, and a kept event occurs as often as in the input |
| AdminEvents.IsAdmin | src/app/admin/events/page.tsx:28 | only a signed-in user who is neither attendee nor organizer is an admin |
| AdminEvents.MatchesStatus | src/app/admin/events/page.tsx:68-69 | "all" accepts every event; any other filter accepts exactly the events with that status; an event without a status passes only "all" |
| AdminEvents.NoFilterKeepsAll | src/app/admin/events/page.tsx:63-71 | an empty term with status "all" keeps every event |
| AdminEvents.SingleActiveEventScenario | src/app/admin/events/page.tsx:63-71 | one active event, empty term and filter "active" list exactly that event |
| AdminEvents.NextStatus | src/app/admin/events/page.tsx:52 | the new status is "active" or "cancelled", and it is "cancelled" exactly when the current status is "active" |
| AdminEvents.NextStatusInvolution | src/app/admin/events/page.tsx:52 | applying the rule twice gives back the status exactly for "active" and "cancelled" |
| AdminEvents.ToggleArgument | src/app/admin/events/page.tsx:367 | the button passes the event's status, or "active" when the status is missing or empty |
| AdminEvents.MissingStatusGetsCancelled | src/app/admin/events/page.tsx:364-368 | an event without a status is toggled to "cancelled" |
| AdminEvents.WithStatus | src/app/admin/events/page.tsx:55-57 | the update keeps length and order; events with the id change only their status, all others are identical |
| AdminEvents.ClickToggle | src/app/admin/events/page.tsx:48-61 | a click gives the clicked event, and every event sharing its id, the status that follows the one its button passed, with all other fields kept; every other event is unchanged |
| AdminEvents.ToggleTwiceRestoresIff | src/app/admin/events/page.tsx:48-61 | two clicks restore the list if and only if the event is "active" or "cancelled" and every event sharing its id has the same status |
| AdminEvents.CountStatus | src/app/admin/events/page.tsx:75-77 | a status count is at most the list length; it is zero exactly when no event has the status and the length exactly when every event has it |
| AdminEvents.CountStatusAppend | src/app/admin/events/page.tsx:75-77 | the count over a concatenation is the sum of the counts of its parts |
| AdminEvents.CountStatusSingle | src/app/admin/events/page.tsx:75-77 | one event counts 1 exactly when it has the status, otherwise 0; with `CountStatusAppend` this makes the count the number of events with the status |
| AdminEvents.Stats | src/app/admin/events/page.tsx:73-78 | total is the list length; active and cancelled are the status counts of "active" and "cancelled"; each is at most the total, and so is their sum |
| AdminEvents.AdminEventsPage.constructor | src/app/admin/events/page.tsx:10-14 | the page starts with no events and loading |
| AdminEvents.AdminEventsPage.LoadEvents | src/app/admin/events/page.tsx:16-31 | it fetches exactly for an admin; a successful response replaces the list; loading ends only when a fetch ran |
| AdminEvents.AdminEventsPage.DeleteEvent | src/app/admin/events/page.tsx:33-46 | only a confirmed delete whose API call succeeded changes the list, to `RemoveEvent` of it; then no event with that id remains |
| AdminEvents.AdminEventsPage.ToggleEventStatus | src/app/admin/events/page.tsx:48-61 | on API success the events with the id take the next status; on failure the list is unchanged |
| AdminEvents.AdminEventsPage.View | src/app/admin/events/page.tsx:80-411 | "Access Denied" exactly for non-admins; spinner exactly for an admin while loading; otherwise the stats, the filtered events, and "No events found" exactly when none is shown |
| OrganizerEvents.AccessDecision | src/app/organizer/events/page.tsx:16-39 | no user goes to "/auth/login"; an attendee goes to "/events"; the page fetches exactly for an organizer or admin |
| OrganizerEvents.CanManage | src/app/organizer/events/page.tsx:22 | only a signed-in user who is not an attendee may use the page |
| OrganizerEvents.AttendeeCount | src/app/organizer/events/page.tsx:99 | an event counts zero exactly when its attendee list is missing or empty, otherwise the list's length |
| OrganizerEvents.SumAttendees | src/app/organizer/events/page.tsx:98-101 | the fold from `acc` is at least `acc`, and at least `acc` plus the count of each event in the list |
| OrganizerEvents.SumAttendeesShift | src/app/organizer/events/page.tsx:98-101 | the attendee fold from any start value is that value plus the fold from 0 |
| OrganizerEvents.TotalAttendees | src/app/organizer/events/page.tsx:98-101 | the attendee total is never negative and is at least each event's attendee count (a missing list counts 0) |
| OrganizerEvents.TotalAttendeesSingle | src/app/organizer/events/page.tsx:98-101 | one event's total is its attendee count |
| OrganizerEvents.TotalAttendeesAppend | src/app/organizer/events/page.tsx:98-101 | the total over a concatenation is the sum of the totals; with `TotalAttendeesSingle` this makes the total the sum of the attendee counts |
| OrganizerEvents.RemoveEventAttendees | src/app/organizer/events/page.tsx:41-50 | deleting events never raises the attendee total |
| OrganizerEvents.OrganizerEventsPage.constructor | src/app/organizer/events/page.tsx:11-13 | the page starts with no events and loading |
| OrganizerEvents.OrganizerEventsPage.Mount | src/app/organizer/events/page.tsx:16-39 | it returns the access decision; only a fetching page replaces the list with a successful response and ends loading |
| OrganizerEvents.OrganizerEventsPage.DeleteEvent | src/app/organizer/events/page.tsx:41-50 | only a confirmed delete whose API call succeeded changes the list, to `RemoveEvent` of it; the attendee total does not rise |
| OrganizerEvents.OrganizerEventsPage.View | src/app/organizer/events/page.tsx:52-158 | nothing is rendered unless the user is organizer or admin; otherwise Total Events is the list length and Total Attendees the attendee total; "No events yet" exactly when loaded and empty |

## Left out

- HTTP calls, `async`/`await` and logging. Each call's outcome is an input.
- The session store (`AuthContext`: login, logout, token handling). It is not part of this model; the signed-in user is an input.
- The "completed" and "upcoming" counts and the Upcoming/Past badge. They depend on the wall clock and on date parsing.
- Date formatting (`toLocaleDateString`). It is locale-dependent library code.
- Full Unicode case mapping. `toLowerCase` and `toUpperCase` are modelled on ASCII letters only; strings are sequences of characters, not UTF-16 code units.
- React mechanics: hooks, re-render timing, router navigation (a redirect is returned as a path), `window.confirm` (an input), the missing-provider exception, and the mobile-menu toggle.
- Navbar.NavLinks: one list models both the desktop and the mobile menu. The two differ only in captions and markup: "Organizer" on the desktop and "Organizer Dashboard" on the mobile menu, "Admin" and "Admin Dashboard" likewise.
- AdminEvents.AdminEventsPage.DeleteEvent, AdminEvents.AdminEventsPage.ToggleEventStatus, OrganizerEvents.OrganizerEventsPage.DeleteEvent: the page builds the new list from the `events` it rendered with, not from the latest state, so of two such requests in flight at once the second overwrites the first one's update. The methods apply each update to the current list, one at a time.
- Event fields the core never reads (`organizer`, `comments`, `price`, `max_attendees`, `category`, `current_attendees`, `registrations`). The spread copies them unchanged, like the modelled fields.
- The admin dashboard (src/app/admin/page.tsx), event creation, registration, tickets, the home and notifications pages, the event card and the sidebar. They fetch and render.
