# Rental marketplace front end — decision logic in Dafny

This project models the decision logic inside three React components of a
short-term-rental marketplace front end, without the rendering and without
the network:

- **The chat widget** (`ChatBox`). It has an access guard: the login prompt,
  or "this is your listing" for the host unless `allowHostChat` is set. It
  resolves the conversation id, either taken from a prop or obtained by a
  find-or-create request. It polls the message log, and a teardown makes
  late results harmless. It sends messages, appending locally only after
  the POST succeeds. It derives the rendered transcript, where each entry
  carries a "mine" flag and a "first message of its local day" flag.
- **The date-range picker** of the mobile search form (`CompactCalendar` in
  `MobileNavbar`). This covers the month grid with its leading blanks and
  per-day flags, the click rules that move between "no check-in",
  "check-in only" and "both dates", the hover preview, month navigation,
  and the form's `onChange`, which closes the picker once both dates are
  chosen.
- **The guest's bookings page.** This covers the sidebar's split of
  bookings by status, the local status update after a cancellation, the
  five-rating-plus-comment host review wizard, the lookup of a review the
  guest already wrote, the set of reviewed bookings, and the listing image
  gallery with its `/uploads/` URL rewriting.

Files:

- `wrappers.dfy` holds `Option`.
- `text.dfy` holds JavaScript's `trim`, `startsWith` and string truthiness.
- `auth.dfy` holds the signed-in user and the "id only if it is a string"
  rule.
- `chat_box.dfy`, `mobile_navbar.dfy` and `bookings_page.dfy` model the
  three components.
- `gregorian.dfy` does the calendar arithmetic the picker relies on: days
  per month, day numbers and weekdays.
- `seqs.dfy` defines order-preserving subsequences.

Component state is a class per component. Its methods are the event
handlers and effects, and their frames name exactly the state they may
change. The handlers whose outcome other events can overtake are split at
their `await`: `BeginSend`/`FinishSend` for a chat message,
`BeginResolve`/`FinishResolve` for the conversation lookup,
`BeginOpenReview`/`FinishOpenReview` for the existing-review lookup and
`BeginSubmitReview`/`FinishSubmitReview` for a review submission. What the
source's closure captured before the `await` (the booking, the edit mode,
the form) is carried from the first half to the second. This lets polls,
sends, star clicks and teardowns interleave with the requests in any order.
The cancellation submit and the data-loading effects are single events at
the moment their response settles. A poll closure is named by a
token, the number of times the polling effect has subscribed; it is live
while it is the latest closure and the component is mounted. Network
outcomes are parameters: `Fetched` (a body or a thrown error) and `Json`
(an array, another JSON value, or a thrown error).

The chat code behaves as follows, and the model does the same:

- A successful poll replaces the whole log with the server's response as
  it comes. Nothing sorts it, deduplicates it, or merges it with local
  entries.
- A sent message is appended only after the POST returns ok. Until the next
  poll replaces the log, it stays an unreconciled local entry.
- A failed poll keeps the log but the pane shows the error text instead of
  the messages. A later successful poll does not clear `error`, so the
  error view stays.
- `conversationId`, `userId` and the prop are tested for JavaScript
  truthiness, so an empty string counts as absent. The "mine" flag uses
  the same truthiness.

## Model

| member | source | states |
|---|---|---|
| Text.Trim | frontend/src/components/ChatBox.tsx:97 | The trimmed input neither begins nor ends with whitespace, and it is empty exactly when the input is blank |
| Text.TrimSlice | frontend/src/components/ChatBox.tsx:97 | The trimmed input is the slice of the input that starts after its leading whitespace, and the cut-off ends on both sides are all whitespace |
| Text.TrimIdempotent | frontend/src/components/ChatBox.tsx:106 | Trimming the already trimmed body changes nothing |
| ChatBox.Guard | frontend/src/components/ChatBox.tsx:127-142 | No user gets the login prompt whatever the flag; a user whose id is the host's is turned away exactly when `allowHostChat` is off; every other user reaches the chat |
| ChatBox.GuardFlagOnlyHelpsHost | frontend/src/components/ChatBox.tsx:135-142 | Setting `allowHostChat` never turns anyone away, and it changes the outcome only for the host |
| ChatBox.Transcript | frontend/src/components/ChatBox.tsx:170-177 | The transcript has one entry per log message, in log order, each carrying its message |
| ChatBox.TranscriptFlags | frontend/src/components/ChatBox.tsx:171-177 | An entry is "mine" iff the viewer id is present, non-empty and equal to the sender; entry 0 starts a day; entry i > 0 starts a day iff its local day differs from the previous message's |
| ChatBox.Runs | frontend/src/components/ChatBox.tsx:176-177 | The runs of equal consecutive local days are non-empty, there are none only for an empty log, and the last run ends with the last day |
| ChatBox.RunsFlatten | frontend/src/components/ChatBox.tsx:176-177 | Concatenating the day runs gives back the sequence of days |
| ChatBox.RunsMaximal | frontend/src/components/ChatBox.tsx:176-177 | Each run is constant and neighbouring runs differ, so the runs are maximal |
| ChatBox.SeparatorsCountDayRuns | frontend/src/components/ChatBox.tsx:176-193 | The transcript shows exactly as many date headers as there are maximal runs of messages on the same local day |
| ChatBox.ShowPane | frontend/src/components/ChatBox.tsx:163-170 | "Loading chat..." shows iff loading; otherwise a truthy error shows its text in place of the messages; otherwise the empty notice shows iff the log is empty, and the transcript iff it is not |
| ChatBox.PostableIsTrimmed | frontend/src/components/ChatBox.tsx:97-106 | A body is postable (non-empty, no whitespace at either end) iff it is a non-empty fixed point of `trim` |
| ChatBox.Chat.constructor | frontend/src/components/ChatBox.tsx:25-31 | First render: the conversation id is the prop when truthy, else none; empty log and input; loading; no error |
| ChatBox.Chat.BeginResolve | frontend/src/components/ChatBox.tsx:42-51 | A truthy prop id is adopted with no request and loading ends; with no prop and no user nothing happens; otherwise a request is issued, loading set and the error cleared |
| ChatBox.Chat.FinishResolve | frontend/src/components/ChatBox.tsx:62-68 | A response's id becomes the conversation id; a failure sets "Failed to load conversation." and keeps the id; loading ends either way |
| ChatBox.Chat.Subscribe | frontend/src/components/ChatBox.tsx:74-76 | The previous closure is torn down; a new live closure subscribes exactly when there is a truthy conversation id |
| ChatBox.Chat.Live | frontend/src/components/ChatBox.tsx:76-90 | A poll closure is live only while the component is mounted and only if it is the latest subscription; a superseded closure is never live |
| ChatBox.Chat.Teardown | frontend/src/components/ChatBox.tsx:89-92 | After teardown no closure is live |
| ChatBox.Chat.PollSettled | frontend/src/components/ChatBox.tsx:77-85 | For a live closure a body replaces the whole log and a failure only sets "Failed to load messages."; for a torn-down closure nothing changes at all; the log is always the last poll plus this viewer's own posts |
| ChatBox.Chat.Type | frontend/src/components/ChatBox.tsx:219 | The input becomes the typed text, nothing else changes |
| ChatBox.Chat.BeginSend | frontend/src/components/ChatBox.tsx:95-108 | No request and no change iff the input trims to empty or the conversation or user id is missing; otherwise `sending` is set and the request carries the conversation, the viewer and the trimmed input |
| ChatBox.Chat.FinishSend | frontend/src/components/ChatBox.tsx:109-124 | On ok the input is cleared and exactly one entry (the viewer, the trimmed body) is appended after the unchanged log; otherwise log and input stay; `sending` ends either way |
| ChatBox.LocalEntriesAreMine | frontend/src/components/ChatBox.tsx:112-120 | Every entry appended by a send since the last poll is rendered as the viewer's own |
| Gregorian.DaysInMonth | frontend/src/components/MobileNavbar.tsx:409-410 | A month has 28 to 31 days, and 29 exactly for February of a leap year |
| Gregorian.DayInYear | frontend/src/components/MobileNavbar.tsx:415 | The day number of a real date of year y (`new Date(y, m, d)`) falls on or after 1 January of y and before 1 January of y + 1 |
| Gregorian.Weekday | frontend/src/components/MobileNavbar.tsx:411 | The weekday of a day number is in 0..6, Sunday to Saturday |
| Gregorian.EpochIsThursday | frontend/src/components/MobileNavbar.tsx:411 | The day numbering puts 1 January 1970 on a Thursday, as `getDay` does |
| Gregorian.YearLength | frontend/src/components/MobileNavbar.tsx:409-410 | The twelve month lengths add up to the year's length: 366 days in a leap year, else 365 |
| Gregorian.NextMonth | frontend/src/components/MobileNavbar.tsx:482-489 | The month after a valid month is a valid month |
| Gregorian.PrevMonth | frontend/src/components/MobileNavbar.tsx:474-481 | The month before a valid month is a valid month |
| Gregorian.PrevNextInverse | frontend/src/components/MobileNavbar.tsx:474-489 | Going back one month undoes going forward one month, and the other way round |
| Gregorian.DaysConsecutive | frontend/src/components/MobileNavbar.tsx:414-415 | Day d+1 of a month is the day after day d |
| Gregorian.NextMonthFollows | frontend/src/components/MobileNavbar.tsx:409-415 | The 1st of the next month is the day after the last day of this month |
| MobileNavbar.Selected | frontend/src/components/MobileNavbar.tsx:428-433 | A highlighted day always has a check-in on or before it |
| MobileNavbar.SelectionFlag | frontend/src/components/MobileNavbar.tsx:428-433 | Without a check-in nothing is selected; with both dates a day is selected iff check-in ≤ day ≤ check-out; with a check-in only iff check-in < day ≤ hovered day |
| MobileNavbar.Cell | frontend/src/components/MobileNavbar.tsx:415-441 | A grid day carries its day number and date; it is available iff it is not before today, selected iff `Selected` holds for its date, the start date iff it is the check-in and the end date iff it is the check-out |
| MobileNavbar.Click | frontend/src/components/MobileNavbar.tsx:444-460 | A click emits a range iff the day is available; a complete range only comes from a lone check-in and a day on or after it, keeping that check-in; otherwise the clicked day becomes the lone check-in; an emitted range is ordered |
| MobileNavbar.ClickCompletes | frontend/src/components/MobileNavbar.tsx:450-455 | A click completes a range exactly when the day is available, there is a check-in but no check-out, and the day is not before the check-in |
| MobileNavbar.TwoClicksSelectRange | frontend/src/components/MobileNavbar.tsx:444-460 | From an empty or complete range, two clicks on available days in order select exactly the range between them |
| MobileNavbar.Hover | frontend/src/components/MobileNavbar.tsx:462-468 | The hover date changes only to the entered day, and only for an available day after a lone check-in |
| MobileNavbar.PreviewMatchesClick | frontend/src/components/MobileNavbar.tsx:431-433 | After hovering a day past a lone check-in, the preview plus the check-in day is exactly the range that clicking that day selects |
| MobileNavbar.Calendar.constructor | frontend/src/components/MobileNavbar.tsx:400-406 | The picker opens on the check-in's month, or on today's month without a check-in, with no hover |
| MobileNavbar.Calendar.FirstWeekday | frontend/src/components/MobileNavbar.tsx:411 | The weekday of the 1st is in 0..6 |
| MobileNavbar.Calendar.Grid | frontend/src/components/MobileNavbar.tsx:412-442 | The grid is exactly one blank per weekday before the 1st, followed by the cells of days 1..n in order |
| MobileNavbar.Calendar.PrevDisabled | frontend/src/components/MobileNavbar.tsx:494 | The "<" button is disabled on today's month, and then every day of the month it would show lies before the 1st of today's month |
| MobileNavbar.Calendar.MouseEnter | frontend/src/components/MobileNavbar.tsx:462-468 | The hover date becomes what `Hover` gives |
| MobileNavbar.Calendar.MouseLeave | frontend/src/components/MobileNavbar.tsx:470-472 | The hover preview is cleared |
| MobileNavbar.Calendar.PrevMonthClick | frontend/src/components/MobileNavbar.tsx:474-481 | Month and year become the previous month (January wraps to December of the year before); reachable only off today's month, as the "<" button is disabled there |
| MobileNavbar.Calendar.NextMonthClick | frontend/src/components/MobileNavbar.tsx:482-489 | Month and year become the next month (December wraps to January of the next year); the month stays in 0..11 |
| MobileNavbar.SearchForm.constructor | frontend/src/components/MobileNavbar.tsx:61 | The form holds the given range and the picker starts closed |
| MobileNavbar.SearchForm.ToggleCalendar | frontend/src/components/MobileNavbar.tsx:334 | Clicking a date box toggles the picker |
| MobileNavbar.SearchForm.OnCalendarChange | frontend/src/components/MobileNavbar.tsx:361-371 | The emitted range is stored; the picker closes when both dates are present and otherwise stays as it was |
| MobileNavbar.SearchForm.ClickDay | frontend/src/components/MobileNavbar.tsx:356-371 | An inert click changes nothing; otherwise the form holds the emitted range; the picker only ever closes, and only on completing a range, which is then ordered |
| MobileNavbar.GridDatesConsecutive | frontend/src/components/MobileNavbar.tsx:414-415 | Consecutive grid days are consecutive dates, and the next month's grid starts the day after this one ends |
| BookingsPage.WithStatus | frontend/src/app/bookings/page.tsx:290-293 | A section is an order-preserving subsequence of the bookings, holding exactly the bookings whose status it accepts |
| BookingsPage.SectionsPartition | frontend/src/app/bookings/page.tsx:290-293 | The four sections and the bookings with any other status together hold every booking exactly as often as the list does |
| BookingsPage.SectionsDisjoint | frontend/src/app/bookings/page.tsx:290-293 | No booking is in two sections, and a booking whose status is none of the five strings is in no section |
| BookingsPage.CancelLocally | frontend/src/app/bookings/page.tsx:232-234 | After a cancellation the list has the same length; bookings with the cancelled id have status "cancelled" and nothing else changed; all others are unchanged |
| BookingsPage.CancelLeavesSection | frontend/src/app/bookings/page.tsx:232-234 | Every section other than "Cancelled" loses exactly the cancelled booking and keeps its order |
| BookingsPage.CancelJoinsCancelled | frontend/src/app/bookings/page.tsx:232-234 | The cancelled booking appears in the "Cancelled" section |
| BookingsPage.CancelIdempotent | frontend/src/app/bookings/page.tsx:232-234 | Cancelling the same booking twice gives what cancelling it once gives |
| BookingsPage.ReviewedBookings | frontend/src/app/bookings/page.tsx:281-283 | A booking id is in the reviewed set iff some review by this user names that booking |
| BookingsPage.FirstReviewAt | frontend/src/app/bookings/page.tsx:168-172 | The position found holds a review of the booking by the user about the host, and no earlier review matches; none is found only when no review matches |
| BookingsPage.FindReview | frontend/src/app/bookings/page.tsx:168-172 | The review found matches booking, reviewer and host, and is the first match in the list; nothing is found iff no review matches |
| BookingsPage.WithRating | frontend/src/app/bookings/page.tsx:78-79 | Only the rating of the current step changes; the other ratings and the comment stay |
| BookingsPage.Rate | frontend/src/app/bookings/page.tsx:77-87 | A star click records the rating for the current step and advances by exactly one step, steps 0..3 to the next rating and step 4 to the comment step 5 |
| BookingsPage.RateAllFills | frontend/src/app/bookings/page.tsx:77-87 | A run of star clicks fills the ratings of the steps it is made on, in order, reaches the step after them, and leaves the other ratings and the comment alone |
| BookingsPage.FullPass | frontend/src/app/bookings/page.tsx:69-87 | Five clicks from the first step reach the comment step with exactly those five ratings |
| BookingsPage.ImageSrc | frontend/src/app/bookings/page.tsx:551 | A URL beginning `/uploads/` becomes `http://localhost:4000` followed by the URL, and any other URL is kept as it is; the result ends with the URL and never begins with `/uploads/` |
| BookingsPage.ImageSrcIdempotent | frontend/src/app/bookings/page.tsx:668 | Rewriting a rewritten URL changes nothing |
| BookingsPage.Gallery | frontend/src/app/bookings/page.tsx:548-587 | No images gives the stock photo; an index past the end breaks the render; otherwise the rewritten image at the index is shown, "<" iff the index is past 0, ">" iff it is before the last, and the counter "i / n" iff there are several images |
| BookingsPage.ArrowsStayInGallery | frontend/src/app/bookings/page.tsx:555-574 | Following an arrow that is shown, or starting at 0, always lands on a rendered image |
| BookingsPage.Page.constructor | frontend/src/app/bookings/page.tsx:39-67 | First render: no bookings and loading, no selection, wizard closed on step 0 with a blank form, nothing reviewed, no cancellation |
| BookingsPage.Page.BookingsLoaded | frontend/src/app/bookings/page.tsx:259-272 | Without a truthy user id nothing changes; otherwise loading ends and the list is the response when it is an array, else empty |
| BookingsPage.Page.ReviewsLoaded | frontend/src/app/bookings/page.tsx:275-287 | Without a user id nothing changes; an array gives exactly the booking ids this user reviewed; a non-array changes nothing; an error empties the set |
| BookingsPage.Page.Select | frontend/src/app/bookings/page.tsx:296-324 | The booking becomes the selection; a change of selection puts the gallery back on image 0, clearing the selection drops listing and host, and otherwise listing and host stay |
| BookingsPage.Page.ListingLoaded | frontend/src/app/bookings/page.tsx:302-318 | The arriving listing's images replace the old ones and the gallery index is kept; a failed listing request drops listing and host |
| BookingsPage.Page.HostLoaded | frontend/src/app/bookings/page.tsx:306-313 | The host is present exactly when its record arrived |
| BookingsPage.Page.View | frontend/src/app/bookings/page.tsx:548-588 | With the details panel shown, the gallery is the stock photo iff the listing has no images, and it renders an image iff the index is within the listing's images |
| BookingsPage.Page.PrevImage | frontend/src/app/bookings/page.tsx:555-564 | The "<" arrow, shown only in the details panel (selection, listing and host all present) on a slide past image 0, moves back one image and the gallery still renders |
| BookingsPage.Page.NextImage | frontend/src/app/bookings/page.tsx:565-574 | The ">" arrow, shown only in the details panel on a slide before the last image, moves on one image and the gallery still renders |
| BookingsPage.Page.BeginOpenReview | frontend/src/app/bookings/page.tsx:155-165 | The wizard opens on step 0 for the booking, not editing and with no existing review; the lookup is requested exactly when there is a user |
| BookingsPage.Page.FinishOpenReview | frontend/src/app/bookings/page.tsx:166-206 | A matching review in an ok array response is loaded for editing; no match, a non-array body or a thrown error blanks the form; a non-ok response changes nothing; the step is not touched |
| BookingsPage.Page.ReviewStep | frontend/src/app/bookings/page.tsx:346-355 | A star click on a rating step does what `Rate` gives, and the step stays in 0..5 |
| BookingsPage.Page.BackStep | frontend/src/app/bookings/page.tsx:89-93 | "Back" moves one step back and never below step 0 |
| BookingsPage.Page.EditComment | frontend/src/app/bookings/page.tsx:377 | Typing changes only the comment |
| BookingsPage.Page.BeginSubmitReview | frontend/src/app/bookings/page.tsx:95-123 | Nothing is sent without a booking under review or a user; in edit mode with an existing review that review is updated, otherwise a review of the booking's host is created; the request carries the user and the current form, and the booking and edit mode are captured |
| BookingsPage.Page.FinishSubmitReview | frontend/src/app/bookings/page.tsx:125-153 | On success the wizard closes and resets, and the captured booking joins the reviewed set iff the captured mode was not editing; a failure changes nothing |
| BookingsPage.Page.CancelSelected | frontend/src/app/bookings/page.tsx:599-602 | "Cancel Booking", offered only in the details panel of a confirmed selection, opens the form for that booking |
| BookingsPage.Page.SubmitCancellation | frontend/src/app/bookings/page.tsx:215-251 | Without a booking being cancelled nothing is sent; on success the bookings with its id become cancelled and the form closes; if the selection was that booking it is cleared, the gallery goes back to image 0 and listing and host are dropped, otherwise selection, gallery index, listing and host stay; a failure changes nothing |
| BookingsPage.Page.CloseCancellation | frontend/src/app/bookings/page.tsx:253-257 | Closing the form drops the booking being cancelled |

## Left out

- Network requests, their URLs and their bodies are not modelled. Each response is an event parameter: ok or not, and a body that may be an array, another JSON value, or a thrown error.
- The 3-second poll timer is not modelled. A poll is an event, and the model allows any interleaving of polls, sends and teardowns.
- Scrolling to the newest message is left out because it is a DOM side effect.
- The Places autocomplete, the click-outside listeners, the collapse and expand of the search form, and the page-specific header variants are left out because they are browser and library plumbing.
- Locale formatting is left out. This covers `toDateString`, `toLocaleDateString`, `toLocaleTimeString` and the time zone. The viewer's local calendar day is a function parameter `localDay`, and timestamps are integers.
- Message ids come from `Math.random()` in the source. They are a parameter of `FinishSend`, and so is the local clock.
- Alerts and `console.error` are left out because they are output only.
- Calendar dates are day numbers, and every grid date is a local midnight. The range's check-in and check-out, which come from the search form's `dateRange`, are day numbers too: the source compares them with the grid's dates by `getTime()`, so a check-in carrying a time of day matches no grid day there, while in the model every check-in falls on a grid day. The conversion from today's date and from the check-in date to a year and month is done by the caller of `MobileNavbar.Calendar.constructor`.
- Two-digit years, which `new Date(y, m, d)` maps into 1900..1999, are not modelled. The day numbers are proleptic Gregorian for every year.
- `MobileNavbar.Calendar.FirstWeekday`: its contract only bounds the weekday of the 1st to 0..6. Agreement with `getDay` is anchored by `Gregorian.EpochIsThursday` and by consecutive day numbers, not proved day by day.
- `Gregorian.Weekday`: the same bound, 0..6, for the same reason.
- `cancellationLoading` only disables the form's buttons and is not modelled; `sending` is kept.
- The host record is reduced to the `host` flag, which gates the details panel and the chat panel together with the selection and the listing. Its name, avatar and id, which the chat panel shows and passes to the chat widget, are not modelled.
- `BookingsPage.Page.SubmitCancellation` is a single event when the response settles. The source compares the selection captured when the handler was created, and its spinner state `cancellationLoading` is not modelled.
- The signed-in user and the chat widget's props are fixed for the lifetime of a component: `ChatBox.Chat.userId`, `ChatBox.Chat.listingId`, `ChatBox.Chat.hostId`, `ChatBox.Chat.propConversationId` and `BookingsPage.Page.user` are constants. The source re-runs its effects when the user id or a prop changes (ChatBox.tsx:71, page.tsx:272 and 287), and on the bookings page the chat widget stays mounted while its listing and host change with the selection (page.tsx:515-518); a change of user or of props is not modelled.
- `BookingsPage.Page.FinishOpenReview` leaves the step where it is, so star clicks made while the lookup is in flight are kept in the step but their ratings are overwritten by the loaded or blank form, as in the source.
- `BookingsPage.Page.BeginSubmitReview` changes no state, as the submit button stays enabled; two clicks send two requests.
- The source compares the selection by object identity in `[selected]`. The model compares it by value: selecting an equal copy of the selected booking does not reset the gallery in the model, but it does in the source.
- A listing that arrives after another booking was selected keeps the gallery index, so an index past its last image makes `BookingsPage.Gallery` return `RenderError`. The model exposes this and does not prevent it.
- The sidebar's nested listing fetch per booking, the map and the date formatting of the booking details are left out because they are rendering.
- A `MobileNavbar.Calendar` object stands for one opening of the picker. The search form mounts the picker only while it is open, so each reopening starts again on the check-in's month with no hover; nothing ties a `Calendar` object's lifetime to `MobileNavbar.SearchForm.showCalendar`.
- `ChatBox.Chat.Teardown` models only the poll closure's `isMounted` flag. After it, `FinishSend` and `FinishResolve` still update the log, the input, `sending`, `loading` and `error`, whereas the source discards state updates on an unmounted component; nothing in the model observes the difference.
- `ChatBox.Chat.PollSettled`: a body that is not an array would replace the log in the source and break the render. The model takes every body to be a message list.
