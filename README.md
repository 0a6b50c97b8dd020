# eventra: a verified model of the event and seating core

eventra is an event-ticketing web application. Organisations create events and lay out seats
on a stage. The seat monitor shows live seat status and an activity feed. Visitors register,
sign in and browse public events. This project models in Dafny the parts of the application
whose logic can be checked against its source:

- the per-row seat arithmetic of a stage layout, and the live preview built on it;
- the seat monitor's activity feed, a stateful component (class `SeatMonitor.Monitor`);
- the seat statistics;
- the row grouping and ordering of the seat grids;
- the four database collections — seats, reservations, users and events. Each is a
  store class whose `Insert` validates the document, enforces the collection's unique
  index and leaves the store unchanged on failure;
- the request rules:
  - the event input schema;
  - registration;
  - the event creation guard chain;
  - the three event listings;
  - the routing middleware.

Numbers are exact reals or unbounded integers. `Math.round(x)` is `Floor(x + 1/2)`.
`String.fromCharCode` reduces its argument modulo 2^16, as JavaScript does. A handful of
library behaviours are parameters: `Date.parse`, the ObjectId cast of a string, and
`bcrypt.hash`. An HTTP reply is a status together with a JSON value, an error body, or
`Unhandled` for an exception the framework answers itself.

Modules and files:

| file | module | models |
|---|---|---|
| common.dfy | Wrappers, Ids, JsNumbers, Http, Strings, Sessions, Json | shared option/result types, JavaScript number helpers, replies, sessions, JSON bodies |
| sorting.dfy | Sorting | `Array.prototype.sort` and Mongo `.sort` as a stable sort on a total preorder; `filter`, `map` |
| numerals.dfy | Numerals | `String(n)` for integers |
| stage_layout.dfy | StageLayout | `getSeatsForRow` |
| live_layout_preview.dfy | LiveLayoutPreview | row labels and cell counts of the live preview |
| client_types.dfy | ClientTypes | the seat as the client sees it |
| seat_monitor.dfy | SeatMonitor | the snapshot diff and the activity log; event selection |
| stats_bar.dfy | StatsBar | counts, revenue and percentages |
| seat_grid.dfy | SeatGrid | grouping seats by row, ordering rows and seats |
| seat_grid_preview.dfy | SeatGridPreview | the set-up page preview: colours, displayed shape |
| documents.dfy | Documents | Mongoose `required` validation and its errors |
| seat_model.dfy, reservation_model.dfy, user_model.dfy, event_model.dfy | SeatModel, ReservationModel, UserModel, EventModel | the schemas and their stores |
| event_validation.dfy | EventValidation | `eventSchema.safeParse` |
| event_queries.dfy | EventQueries | the filters and orders of the event listings |
| event_route.dfy | EventRoute | `POST` and `GET /api/event` |
| public_events_route.dfy | PublicEventsRoute | `GET /api/events` |
| org_events_route.dfy | OrgEventsRoute | `GET /api/org/events` |
| event_actions.dfy | EventActions | the server action `getOrgEvents` |
| register_route.dfy | RegisterRoute | `POST /api/auth/register` |
| middleware.dfy | Middleware | the redirect decision and the matcher |

Where the repository's description and its code differ, the model follows the code:

- GET /api/org/events answers 401 to a signed-in caller whose role is not "org". It
  does not answer 403.
- A session without a user object makes that route, and `getOrgEvents`, fail on
  `session.user.role`. The route answers 500; the action throws a TypeError.
- A seat's number is any number the schema accepts. The schema does not require it
  to be a positive integer.

## Model

| member | source | states |
|---|---|---|
| JsNumbers.Round | src/lib/actions/stage.ts:57 | Math.round gives the integer n with n - 1/2 <= x < n + 1/2 |
| StageLayout.SeatsForRow | src/lib/actions/stage.ts:46-71 | rectangle and any unrecognised shape return the base count unchanged; every curved shape returns at least 2 |
| StageLayout.RatioInUnitInterval | src/lib/actions/stage.ts:52 | with the denominator clamped to at least 1, every row 0 .. totalRows - 1 has a ratio between 0 and 1 |
| StageLayout.RatioMonotone | src/lib/actions/stage.ts:52 | the ratio never decreases with the row index |
| StageLayout.MultiplierAtMostOne | src/lib/actions/stage.ts:56-67 | on a ratio in [0, 1] the thrust, semicircle, diamond and amphitheater factors all lie in [0, 1] |
| StageLayout.ScaledRoundAtMost | src/lib/actions/stage.ts:57-66 | rounding base × m with m in [0, 1] never exceeds base |
| StageLayout.SeatsForRowAtMost | src/lib/actions/stage.ts:52-67 | for base >= 0 and a row inside the layout no shape gives more than max(2, base) seats |
| StageLayout.ScaledSeatsMonotone | src/lib/actions/stage.ts:57-66 | max(2, round(base × m)) never decreases as m grows, for base >= 0 |
| StageLayout.CountFollowsMultiplier | src/lib/actions/stage.ts:56-67 | a curved shape gives a row at least as many seats as any row whose factor is no larger |
| StageLayout.WidensTowardsBack | src/lib/actions/stage.ts:56-59 | thrust and semicircle counts never decrease with the row index |
| StageLayout.AmphitheaterNarrowsTowardsBack | src/lib/actions/stage.ts:63-67 | amphitheater counts never increase with the row index |
| StageLayout.DiamondSymmetric | src/lib/actions/stage.ts:60-62 | a diamond gives row i and row totalRows - 1 - i the same count |
| StageLayout.SingleRowThrust | src/lib/actions/stage.ts:52-57 | with one row, row 0 has ratio 0 and a thrust row gets max(2, round(0.4 × base)) |
| StageLayout.FullRows | src/lib/actions/stage.ts:52-67 | with two or more rows the last thrust and semicircle rows and the first amphitheater row get max(2, base) |
| JsNumbers.ArrayLength | src/components/stage/LiveLayoutPreview.tsx:34 | Array.from({ length: n }) with n >= 0 has exactly n elements |
| LiveLayoutPreview.RowLabelCode | src/components/stage/LiveLayoutPreview.tsx:16 | the label's code is a 16-bit code unit |
| LiveLayoutPreview.RowLabels | src/components/stage/LiveLayoutPreview.tsx:15-17 | exactly `rows` labels are produced, for rows >= 0 |
| LiveLayoutPreview.LabelsAreLetterCodes | src/components/stage/LiveLayoutPreview.tsx:15-17 | row i is labelled with code 65 + i, in index order, below the 16-bit wrap-around |
| LiveLayoutPreview.LabelsStrictlyIncrease | src/components/stage/LiveLayoutPreview.tsx:15-17 | labels strictly increase with the row index, so no two rows share one |
| LiveLayoutPreview.NoWrapAfterZ | src/components/stage/LiveLayoutPreview.tsx:16 | row 25 is 'Z' (90) and row 26 gets code 91, not 'A' |
| LiveLayoutPreview.LabelsRepeatPastCodeUnitRange | src/components/stage/LiveLayoutPreview.tsx:16 | row 65536 gets the same code as row 0 |
| LiveLayoutPreview.RowCells | src/components/stage/LiveLayoutPreview.tsx:26-34 | one cell count per label |
| LiveLayoutPreview.CellsFollowShape | src/components/stage/LiveLayoutPreview.tsx:26-34 | row i shows exactly getSeatsForRow(i, rows, seatsPerRow, shape) cells |
| LiveLayoutPreview.RectangleTotal | src/components/stage/LiveLayoutPreview.tsx:26-34 | a rectangle preview draws rows × seatsPerRow cells in all |
| Numerals.NatToString | src/app/dashboard/org/stages/page.tsx:79 | String(n) is a non-empty string of digits |
| Numerals.ParseNatToString | src/app/dashboard/org/stages/page.tsx:79 | reading the digits of String(n) back gives n |
| Numerals.NatToStringInjective | src/app/dashboard/org/stages/page.tsx:79 | distinct counters give distinct activity ids |
| Numerals.IntToString | src/app/dashboard/org/stages/page.tsx:63 | a seat number prints as digits, with a leading '-' exactly when it is negative |
| Numerals.IntToStringInjective | src/app/dashboard/org/stages/page.tsx:63 | distinct seat numbers print differently |
| SeatMonitor.Describe | src/app/dashboard/org/stages/page.tsx:63-76 | the activity type is "reserved" iff the new status is "reserved", "locked" iff "locked", and "released" otherwise |
| SeatMonitor.MessageNamesSeat | src/app/dashboard/org/stages/page.tsx:63-76 | every message starts with "Seat " and the row followed by the number |
| SeatMonitor.ReserverNamed | src/app/dashboard/org/stages/page.tsx:68 | a reserved seat's message is "… was reserved" followed by " by " and reservedBy when reservedBy is truthy, and nothing more otherwise |
| SeatMonitor.IndexById | src/app/dashboard/org/stages/page.tsx:56 | the map's keys are the ids of the previous snapshot, each mapped to a seat of that snapshot with that id |
| SeatMonitor.IndexByIdLast | src/app/dashboard/org/stages/page.tsx:56 | for a repeated id the map keeps the last seat |
| SeatMonitor.UnchangedSeatsSilent | src/app/dashboard/org/stages/page.tsx:59-61 | a seat absent from the previous snapshot, or with its old status, emits nothing |
| SeatMonitor.ChangedSeatsReported | src/app/dashboard/org/stages/page.tsx:58-61 | every seat of the snapshot whose status changed emits an activity |
| SeatMonitor.Activity | src/app/dashboard/org/stages/page.tsx:78-83 | an activity carries String(counter) as its id and the description of the seat |
| SeatMonitor.BatchActivities | src/app/dashboard/org/stages/page.tsx:58-85 | a batch yields one activity per changed seat |
| SeatMonitor.BatchEntry | src/app/dashboard/org/stages/page.tsx:58-85 | newest first: entry k of a batch of n describes the k-th changed seat from the end, with the counter value firstId + n - 1 - k as its id |
| SeatMonitor.ChangeLoggedInBatch | src/app/dashboard/org/stages/page.tsx:58-85 | every snapshot seat whose status changed has its activity in the batch: the j-th changed seat, with id firstId + j |
| SeatMonitor.Window | src/app/dashboard/org/stages/page.tsx:85 | the log keeps its first min(length, 50) entries and nothing else |
| SeatMonitor.WindowPrepend | src/app/dashboard/org/stages/page.tsx:85 | truncating after every prepend equals truncating once at the end |
| SeatMonitor.NewestFirstIdsDistinct | src/app/dashboard/org/stages/page.tsx:79 | in a newest-first log no two activities share an id |
| SeatMonitor.PrependNewest | src/app/dashboard/org/stages/page.tsx:79-85 | prepending the activity numbered by the counter keeps ids strictly decreasing and below the counter |
| SeatMonitor.WindowNewestFirst | src/app/dashboard/org/stages/page.tsx:85 | truncating a newest-first log keeps it newest first |
| SeatMonitor.BatchNewestFirst | src/app/dashboard/org/stages/page.tsx:58-85 | a whole batch put in front keeps the log newest first with the counter moved on by the batch size |
| SeatMonitor.LogStaysNewestFirst | src/app/dashboard/org/stages/page.tsx:58-88 | the truncated log after a batch is newest first |
| SeatMonitor.FeedClosedForm | src/app/dashboard/org/stages/page.tsx:58-86 | the forEach leaves the changed seats' activities, newest first and numbered on from the counter, in front of the old log, truncated to 50 |
| SeatMonitor.Monitor.OnSeats | src/app/dashboard/org/stages/page.tsx:49-89 | with either snapshot empty only the snapshot is stored; otherwise the log becomes the truncated batch in front of the old log, the counter moves on by the number of changed seats, and the snapshot becomes the new seats; the log stays at most 50 entries and newest first |
| SeatMonitor.Monitor.SelectEvent | src/app/dashboard/org/stages/page.tsx:147-151 | selecting an event clears the log and the snapshot and keeps the counter |
| StatsBar.Summarise | src/components/seat-management/StatsBar.tsx:6-9 | the total is the number of seats and each status count is at most the total |
| StatsBar.CountsPartitionSeats | src/components/seat-management/StatsBar.tsx:6-9 | when every status is one of the three schema values, reserved + locked + available = total |
| StatsBar.RevenueSnoc | src/components/seat-management/StatsBar.tsx:10-12 | a seat adds its price to the revenue exactly when it is reserved |
| StatsBar.RevenueIgnoresUnreserved | src/components/seat-management/StatsBar.tsx:10-12 | changing the price of a seat that is not reserved leaves the revenue unchanged |
| StatsBar.NoReservationsNoRevenue | src/components/seat-management/StatsBar.tsx:10-12 | with no reserved seat the revenue is 0 |
| StatsBar.RevenueBounded | src/components/seat-management/StatsBar.tsx:10-12 | with non-negative prices the revenue lies between 0 and the sum of all prices |
| StatsBar.Pct | src/components/seat-management/StatsBar.tsx:14 | pct is 0 when there are no seats, and between 0 and 100 for a count within the total |
| Sorting.InsertBy | src/components/seat-management/SeatGrid.tsx:12 | inserting into a sorted sequence keeps it sorted and adds exactly the element |
| Sorting.SortBy | src/components/seat-management/SeatGrid.tsx:12 | the sort result is sorted by the order and a permutation of the input |
| Sorting.LexLeqIsTotalPreorder | src/components/seat-management/SeatGrid.tsx:12 | the default string order is total and transitive |
| Sorting.SortedDistinctStrictly | src/components/seat-management/SeatGrid.tsx:12 | sorted distinct row keys strictly ascend |
| Sorting.Filter | src/components/seat-management/StatsBar.tsx:7 | filter never lengthens its input |
| Sorting.FilterCounts | src/components/seat-management/StatsBar.tsx:7-9 | filter keeps every occurrence of a matching element and none of the others |
| Sorting.FilterMembers | src/app/api/events/route.ts:10 | an element is in the filtered sequence iff it is in the input and matches |
| Sorting.MapSeq | src/app/api/events/route.ts:14-24 | map keeps the length and applies the function at every index |
| Sorting.MapSeqPermutation | src/app/api/event/route.ts:10-12 | mapping two permutations of each other gives permutations of each other |
| Sorting.DistinctPermutation | src/components/seat-management/SeatGrid.tsx:12 | a permutation of a duplicate-free sequence is duplicate-free |
| SeatGrid.ByNumberIsTotalPreorder | src/components/seat-management/SeatGrid.tsx:25 | the comparator a.number - b.number is a total preorder |
| SeatGrid.SortRows | src/components/seat-management/SeatGrid.tsx:12 | the row keys come out in ascending string order, the same keys |
| SeatGrid.SortByNumber | src/components/seat-management/SeatGrid.tsx:24-25 | a row's seats come out in ascending number order, the same seats |
| SeatGrid.GroupedSnoc | src/components/seat-management/SeatGrid.tsx:8-11 | pushing a seat onto its row keeps the grouping exact |
| SeatGrid.GroupByRow | src/components/seat-management/SeatGrid.tsx:7-11 | every row of the input is a key, each key's entry holds exactly that row's seats in input order, and the keys are distinct |
| SeatGrid.RowsPartitionSeats | src/components/seat-management/SeatGrid.tsx:8-11 | distinct rows covering every seat's row hold all the seats between them |
| SeatGrid.GroupsHoldAllSeats | src/components/seat-management/SeatGrid.tsx:8-11 | the groups' sizes sum to the number of seats |
| SeatGrid.SortedKeysFacts | src/components/seat-management/SeatGrid.tsx:12 | the sorted keys are strictly ascending, distinct, and the same rows |
| SeatGrid.Arrange | src/components/seat-management/SeatGrid.tsx:18-25 | the drawn rows follow the sorted keys, each with its seats sorted by number |
| SeatGrid.ArrangeFacts | src/components/seat-management/SeatGrid.tsx:12-25 | the drawn rows strictly ascend, cover exactly the input's rows, hold each row's seats, and hold every seat once |
| SeatGrid.Layout | src/components/seat-management/SeatGrid.tsx:7-25 | rows strictly ascending; the keys are exactly the input's rows; each row holds a permutation of its seats sorted by number; the sizes sum to the number of seats |
| SeatGridPreview.StatusColor | src/components/stage/SeatGridPreview.tsx:28-33 | red iff "reserved", amber iff "locked", green for every other value |
| SeatGridPreview.CellColor | src/components/stage/SeatGridPreview.tsx:87-88 | a seat is red iff reserved and amber iff locked; a seat without a status is drawn as available |
| SeatGridPreview.DisplayShape | src/components/stage/SeatGridPreview.tsx:35 | the pending shape while the shape is dirty, the saved shape otherwise |
| SeatGridPreview.Preview | src/components/stage/SeatGridPreview.tsx:21-88 | the preview has the grid layout's rows, and each drawn seat has its cell colour |
| Documents.Failing | src/models/Seat.ts:15-30 | validation fails iff some required check fails, and reports exactly the failing paths |
| SeatModel.ParseSeatStatus | src/models/Seat.ts:21-25 | the status path accepts exactly "available", "locked" and "reserved" |
| SeatModel.SeatStatusRoundTrip | src/models/Seat.ts:3 | a status survives being written and read back |
| SeatModel.NewSeat | src/models/Seat.ts:15-30 | a draft validates iff eventId, a non-empty row, number and price are present and the status is valid or missing; the seat copies them, status defaults to available, lockedBy and lockExpiresAt are optional copies |
| SeatModel.TryInsert | src/models/Seat.ts:32 | an insert succeeds iff the draft validates and its (eventId, row, number) is unused; a duplicate fails on the index |
| SeatModel.InsertKeepsKeysUnique | src/models/Seat.ts:32 | a successful insert keeps (eventId, row, number) unique |
| SeatModel.SeatStore.Insert | src/models/Seat.ts:32 | Seat.create on the store: the stored seats grow by the new seat on success and are unchanged on failure; the keys stay unique |
| ReservationModel.ParseReservationStatus | src/models/Reservation.ts:17-21 | the status path accepts exactly "pending" and "confirmed" |
| ReservationModel.NewReservation | src/models/Reservation.ts:12-24 | a draft validates iff userId, eventId and seatId are present and the status is valid or missing; status defaults to confirmed |
| ReservationModel.TryInsert | src/models/Reservation.ts:26 | an insert succeeds iff the draft validates and the seat has no reservation; a reserved seat fails on the index |
| ReservationModel.InsertKeepsOnePerSeat | src/models/Reservation.ts:26 | a successful insert keeps one reservation per seat |
| ReservationModel.ReservationLedger.Insert | src/models/Reservation.ts:26 | Reservation.create on the ledger: grows by the reservation on success, unchanged on failure, one reservation per seat |
| UserModel.ParseRole | src/models/User.ts:17 | the role path accepts exactly "admin", "org" and "client" |
| UserModel.NewUser | src/models/User.ts:12-20 | a draft validates iff name, email and password are non-empty and the role is valid or missing; role defaults to client |
| UserModel.FindByEmail | src/app/api/auth/register/route.ts:22 | findOne({ email }) finds a user iff the email is registered, and the user found holds it |
| UserModel.FindById | src/app/api/events/route.ts:11 | the populated organizer is found iff a user has that id, and it is that user |
| UserModel.FindByEmailIsTheOwner | src/models/User.ts:15 | with unique emails the user found by email is the one holding it |
| UserModel.TryInsert | src/models/User.ts:15 | an insert succeeds iff the draft validates and the email is unused; a duplicate email fails on the index |
| UserModel.InsertKeepsEmailsUnique | src/models/User.ts:15 | a successful insert keeps emails unique |
| UserModel.UserRegistry.Insert | src/models/User.ts:15 | User.create on the registry: grows by the user on success, unchanged on failure, emails unique |
| EventModel.ParseEventType | src/models/Event.ts:22 | the type path accepts exactly "public" and "private" |
| EventModel.EventTypeRoundTrip | src/models/Event.ts:3 | a type survives being written and read back |
| EventModel.NewEvent | src/models/Event.ts:15-26 | a draft validates iff title, date, location, organizer, availableSeats and a valid type are present; stage is an optional copy |
| EventModel.SameDraftTwice | src/models/Event.ts:15-26 | without a unique index the same draft is accepted twice, the two events differing only in id |
| EventModel.EventStore.Insert | src/models/Event.ts:15-26 | Event.create on the store: grows by the event on success, unchanged on failure |
| EventValidation.MinLengthIssues | src/lib/validations/event.ts:4 | no issue iff the value is a string of at least the minimum length; otherwise one issue on that path |
| EventValidation.DateIssues | src/lib/validations/event.ts:5-7 | no issue iff the value is a string that Date.parse accepts |
| EventValidation.MinNumberIssues | src/lib/validations/event.ts:9 | no issue iff the value is a number of at least the minimum, integer or not |
| EventValidation.EnumIssues | src/lib/validations/event.ts:10 | no issue iff the value is "public" or "private" |
| EventValidation.OptionalStringIssues | src/lib/validations/event.ts:11 | no issue iff the value is missing or a string |
| EventValidation.FieldIssues | src/lib/validations/event.ts:3-12 | no issues iff every field rule holds |
| EventValidation.SafeParse | src/lib/validations/event.ts:3-12 | success iff the body is an object and every field rule holds; the data are the body's fields; failure reports at least one issue |
| EventValidation.StageNeverDecides | src/lib/validations/event.ts:11 | a string stage, or none, never changes the verdict |
| EventQueries.NewestFirst | src/app/api/event/route.ts:12 | the events sorted by createdAt descending, the same events |
| EventQueries.EarliestFirst | src/app/api/events/route.ts:12 | the events sorted by date ascending, the same events |
| EventQueries.PublicEvents | src/app/api/events/route.ts:10 | an event is listed iff it is stored and public |
| EventQueries.EventsOf | src/app/api/org/events/route.ts:16 | an event is listed iff it is stored and the owner organised it |
| EventQueries.OwnEventsNewestFirst | src/app/api/org/events/route.ts:16-18 | exactly the owner's events, newest createdAt first |
| EventRoute.DraftOf | src/app/api/event/route.ts:53-56 | the create call fails on the cast exactly when a stage is given that is not an ObjectId |
| EventRoute.Decide | src/app/api/event/route.ts:24-66 | no session or user gives 401; a non-org caller 403; a body that is not JSON 500; an invalid body 400 with the issue paths; a stage that does not cast 500; the checks run in that order and only a request passing all of them creates |
| EventRoute.CreatedEventIsTheBody | src/app/api/event/route.ts:53-56 | a body that passed the schema always passes the Event schema; the event holds the validated fields and the caller as organizer |
| EventRoute.Post | src/app/api/event/route.ts:24-66 | a rejected request replies as decided and creates nothing; an accepted one adds exactly one event and replies 201 with it |
| EventRoute.Populate | src/app/api/event/route.ts:11 | the organizer is populated with name and email when the user exists, and null otherwise |
| EventRoute.ListEvents | src/app/api/event/route.ts:10-12 | GET lists every event exactly once, newest createdAt first, each with its organizer populated |
| PublicEventsRoute.OrganizerName | src/app/api/events/route.ts:21-23 | the organizer's name, or "Unknown" when the user or its name is missing or empty |
| PublicEventsRoute.ListedEvents | src/app/api/events/route.ts:10-12 | exactly the public events, date ascending |
| PublicEventsRoute.PublicListing | src/app/api/events/route.ts:14-24 | one entry per listed event, with id, title, date, location, availableSeats and type copied and the organizer's name |
| PublicEventsRoute.PublicListingShowsPublicEvents | src/app/api/events/route.ts:10-24 | every entry is public, dates ascend, every public event is listed and every entry is a public event |
| PublicEventsRoute.NoPrivateEventListed | src/app/api/events/route.ts:10 | no private event appears |
| OrgEventsRoute.Get | src/app/api/org/events/route.ts:6-35 | no session or a non-org role gives 401; a session without a user 500; otherwise 200 with one row per own event, newest first |
| OrgEventsRoute.RowsAreTheCallersEvents | src/app/api/org/events/route.ts:16-25 | the rows are exactly the caller's events, as id, name = title, date and venue = location |
| EventActions.GetOrgEvents | src/lib/actions/event.ts:5-27 | no session or a non-org role throws "Unauthorized"; a session without a user throws a TypeError; otherwise one summary per own event, newest first |
| EventActions.SummariesAreTheCallersEvents | src/lib/actions/event.ts:13-26 | the summaries are exactly the caller's events, with title as name, location, availableSeats and type copied and no stageShape |
| EventActions.ActionAgreesWithRoute | src/lib/actions/event.ts:5-27 | the action succeeds iff GET /api/org/events answers 200, and both list the same events in the same order |
| RegisterRoute.NormaliseRole | src/app/api/auth/register/route.ts:17-18 | "org" is kept and anything else, "admin" included, becomes "client" |
| RegisterRoute.Refusal | src/app/api/auth/register/route.ts:10-28 | a missing or empty name, email or password gives 400 before the email is looked up; a registered email gives 409; otherwise the request goes on |
| RegisterRoute.CreateStoresHashedUser | src/app/api/auth/register/route.ts:30-31 | after the guards the new user has the given name and email, hash(password) as password and the normalised role; only an empty hash fails |
| RegisterRoute.Post | src/app/api/auth/register/route.ts:7-34 | a refused request replies 400 or 409 and changes nothing; otherwise exactly one user is added and the reply is "Registered successfully", or the create throws and nothing changes |
| Middleware.Decide | src/middleware.ts:11-26 | "/" redirects to /dashboard or /login; a dashboard path without a session goes to /login; /login and /register with one go to /dashboard; every other request passes |
| Middleware.MatchedDecisions | src/middleware.ts:29-31 | the matcher never lets "/" through, and a matched request is redirected exactly in the dashboard and login/register cases |
| Middleware.RedirectsSettle | src/middleware.ts:11-26 | the target of a redirect lets the same visitor through |

## Left out

- Seat locking, confirming, releasing and provisioning routes: their handlers are not part of this model, so only the seat and reservation store constraints are modelled.
- Concurrency: request interleaving, database atomicity and the monitor's polling interval. The model is sequential.
- Rendering: JSX, class names other than the seat colours, toasts, query plumbing and the pages not named above.
- I/O: database connections, `fetch` wrappers and `console.error`.
- Foreign libraries, which are parameters or inputs: NextAuth sessions, `bcrypt.hash`, `Date.parse`, and the ObjectId cast of the stage string. `toString` and `toISOString` are formatting and are not modelled: ids and dates keep their model values.
- Activity time stamps come from the clock and are not modelled.
- IEEE-754 arithmetic: numbers are exact reals, so rounding ties and float error in `getSeatsForRow` and `pct` are not captured.
- String order and lengths are taken over Dafny characters, not UTF-16 code units.
- The tie order of Mongo's sort is not modelled: equal keys keep their stored order.
- StatsBar.Pct: only its range is stated; the rounding of each percentage is not.
- SeatModel.NewSeat: the number is an integer, where the schema takes any JavaScript number and casts numeric strings.
- EventModel.NewEvent: the Mongoose casts of numbers and date strings are not modelled. The date string of POST /api/event is cast by `Date.parse` in EventRoute.DraftOf before the draft reaches it.
- RegisterRoute.Post: body fields are optional strings. A non-JSON body, and values of other JSON types, are not modelled.
- EventValidation.SafeParse: issues carry paths and rules, not zod's wording; `CustomMessage` gives the schema's own messages.
- StageLayout.SeatsForRow: the row count and the base count are integers. The set-up page's number inputs can give fractions, which `Math.max(totalRows - 1, 1)` and a rectangle row use as they are; those are not modelled.
- LiveLayoutPreview.RowLabels: the row count is an integer; a fractional count, which `Array.from` truncates, is not modelled.
- LiveLayoutPreview.RowCells: the row and seat counts are integers; fractional counts, which `Array.from` truncates, are not modelled.
- EventRoute.Post and the listings: a database failure answering 500 is not modelled (the store never fails), and neither is a CastError from a caller id that is not an ObjectId.
- Record key quirks of `seatsByRow` (a row named like an Object.prototype member) are not modelled.
- OccupancyBar and the other percentages used only for CSS widths are not modelled.
