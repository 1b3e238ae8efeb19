# brahma check-in core, modelled in Dafny

brahma is the event platform of the BRAHMA fest. Students register and log in. Coordinators issue tickets, scan them at the door and mark attendance. The event coordinator's dashboard and the main coordinator's overview count registrations, participants and check-ins. The authoritative store is Appwrite (the primary); Firebase serves as a read replica (the secondary) for the dual-source read path. A legacy Express server (`server.js`) implements an older one-shot check-in flow over its own store.

This project models the platform's check-in and access layer. Every module below is one source file.

**Access and rate limiting**
- `RateLimiter` is the per-IP login rate limiter: a class holding the attempt map, plus the periodic sweep.
- `MainLogin` is the main-coordinator login pipeline: client IP, rate limit, Origin check, uniform credential check, cookies.
- `CoordinatorLogin` is the event-coordinator login.
- `Proxy` is the routing decision in front of the coordinator pages.

**Reads and check-in**
- `DataFetcher` is the read path that prefers the secondary and falls back to the primary.
- `CloseTicket`, `MarkAttendance`, `MarkAttendence`, `Generate` and `Scan` are the ticket and attendance lifecycle. Close and the two check-in variants are methods on the primary store, the class `Entities.Backend`; scan is a read-only function.
- `IssuanceCheckIn` relates ticket issuance to scan and check-in.
- `LegacyServer` is the legacy server's login, count, one-shot scan and attendance report.

**Coordinator reports**
- `AllEvents`, `EventParticipants`, `Participants` and `Dashboard` are the coordinator reports.
- These reports read a ticket's `stud_id` membership field, which may hold a list or a scalar or be absent. `Entities.StudField` states each handler's rule for it.

**Event settings and public routes**
- `UpdateEvent` and `Winners` are the event settings and winners routes.
- `EventsList`, `Register`, `StudentLogin` and `ProfileUpdate` are the public routes.
- `Schemas` holds the request schemas.
- `Json` models JSON values, `JSON.stringify`, and a parser proved to invert it.
- `JsObject` models the object JavaScript builds from parsed JSON text: one property per key, holding the last value, with array-index keys first. The winners route stores and echoes that object.

**Client-side logic**
- `CoordinatorPage` and `OverviewPage` are the data logic of the two coordinator pages: grouping, sorting, filtering, toggling, totals and the winners payload. `Ordering` supplies the string order they use.
- `Countdown` is the launch countdown.
- `Notify` is the launch-notification sign-up, in both the React form and the static page.

**Modelling conventions**
- Handlers that write are methods on the primary store class `Entities.Backend`, or on the class the source mutates (`LegacyStore`, `LoginLimiter`, `TeamPanel`, `Overview`, `Counter`, `NotifyForm`, `NotifySection`). Each such method is proved equal to a pure specification function over the old state, and the properties are lemmas about that function.
- Read-only handlers are functions over store snapshots. Where the source builds a result by a loop with pushes, that loop is a method proved against the function.
- The following are parameters: the clock (`now`, in milliseconds), fresh ids and tokens, the password hash and its check, and the schema library's e-mail test.

Several behaviours of the code are modelled as written and stated as lemmas, because they matter to anyone using the system:
- Right after issuance every member of a ticket reads as present, because issuance writes `present: false` placeholders and scan counts any record as presence (`IssuanceCheckIn`).
- The "close event" button of the coordinator page posts `{completed: true}` to the update-event route. That route accepts only venue, date, time and slot, so it answers 400 "No fields to update" (`UpdateEvent.CompletedFlagIsNotAField`).
- Registration stores the trimmed, lower-cased email, but login compares the email exactly as typed. A user who registered with capitals therefore gets 404 (`StudentLogin.RegisteredCaseIsNotFound`).
- The reports disagree about a scalar `stud_id`:
  - the all-events report counts it as one participant;
  - the dashboard counts its string length in UTF-16 code units;
  - the participants route iterates its characters;
  - the event-participants route lists the id but emits no row for it.
- The "not checked in" counts have no floor at zero (`AllEvents.NotCheckedInCanBeNegative`).
- The overview's team toggle keys `${event.$id}-${teamName}` can collide when an id contains '-' (`OverviewPage.TeamKeysCanCollide`).
- Closing an event marks it completed before it deactivates the tickets. If a later store call fails, the reply is 500, some tickets stay active, and every retry answers "Event already completed" without writing (`CloseTicket.FailedCloseIsStranded`).
- The main login's Origin check is a prefix test, so `https://<host>.attacker.example` passes it (`MainLogin.PrefixAdmitsLookalike`).

Where the written specification of the system and the code disagree, the model follows the code:
- An empty attendance list from the secondary is returned as it is, with no fallback to the primary. An empty ticket list does fall back.
- The sweep drops entries idle for more than 15 minutes, whatever window callers pass.
- The event-coordinator login tells an unknown event (404) apart from a wrong password (401).
- Issuance never stores the team name and never checks whether the event is completed.

## Model

| member | source | states |
|---|---|---|
| Entities.GetTicket | app/api/tickets/scan/route.ts:20-24 | `getDocument` finds a ticket exactly when one has that document id, and returns a stored ticket with that id |
| Entities.GetEvent | app/api/coordinator/participants/route.ts:18-22 | `getDocument` finds an event exactly when one has that document id |
| Entities.EventByEqual | app/api/coordinator/login/route.ts:32-45 | `Query.equal("event_id", v)` then `documents[0]` for a request value of any type: a string finds exactly the event with that business id; otherwise the result is a stored event whose id is one of the values sent, and none exactly when no stored id is |
| Entities.EventByBusinessId | app/api/coordinator/winners/route.ts:35-39 | The equality query on event_id finds an event exactly when one carries that business id, and returns a stored one |
| Entities.TicketsOf | app/api/coordinator/participants/route.ts:34-38 | The equality query returns only stored tickets of the event, and every stored ticket of the event |
| Entities.AttendanceOf | app/api/coordinator/participants/route.ts:41-45 | The equality query returns only stored records of the event, and every stored record of the event |
| Entities.CheckedInIds | app/api/coordinator/participants/route.ts:47-50 | A student is in the checked-in set exactly when some record carries its id |
| RateLimiter.LoginLimiter.constructor | lib/rate-limiter.ts:12 | The limiter starts with no entries |
| RateLimiter.Check | lib/rate-limiter.ts:33-72 | An unknown IP or a window older than `windowMs` gets a fresh count-1 entry and is allowed; otherwise the call is allowed exactly when count < maxAttempts, and an allowed call in an open window adds one to the count and keeps firstAttempt; a refusal keeps count and firstAttempt; only the caller's entry changes, and its lastAttempt becomes `now` |
| RateLimiter.Remaining | lib/rate-limiter.ts:80-86 | maxAttempts for an unknown IP, else max(0, maxAttempts - count), which lies in [0, maxAttempts] |
| RateLimiter.ResetTime | lib/rate-limiter.ts:94-103 | 0 for an unknown IP; never negative; at most windowMs once the clock has passed firstAttempt; a positive value ends exactly at firstAttempt + windowMs |
| RateLimiter.Swept | lib/rate-limiter.ts:15-24 | The sweep keeps exactly the entries idle for at most fifteen minutes, unchanged |
| RateLimiter.CheckKeepsInvariants | lib/rate-limiter.ts:41-71 | Every check keeps the table well formed and, for maxAttempts >= 1, keeps every count at or below maxAttempts |
| RateLimiter.Run | lib/rate-limiter.ts:33-72 | A run of calls allows at most as many calls as it makes |
| RateLimiter.AtMostMaxPerWindow | lib/rate-limiter.ts:52-71 | Calls from one IP inside one window opened by the first of them are allowed exactly min(n, maxAttempts) times, and the count ends at that number |
| RateLimiter.SweepPreservesVerdicts | lib/rate-limiter.ts:15-60 | With a window of at most fifteen minutes, the sweep never changes whether a later check is allowed |
| RateLimiter.SweepLiftsLongWindowBlock | lib/rate-limiter.ts:15-66 | With a one-hour window, a blocked IP becomes allowed again once the sweep has removed its entry, because the sweep ignores the caller's window |
| RateLimiter.LoginLimiter.CheckRateLimit | lib/rate-limiter.ts:33-72 | The `loginAttempts` map and the verdict become those of `Check` |
| RateLimiter.LoginLimiter.RemainingAttempts | lib/rate-limiter.ts:80-86 | The live map is read through `Remaining`: maxAttempts for an unknown IP, otherwise max(0, maxAttempts - count) |
| RateLimiter.LoginLimiter.GetResetTime | lib/rate-limiter.ts:94-103 | The live map is read through `ResetTime`: 0 for an unknown IP, never negative, and a positive wait ends exactly when the window does |
| RateLimiter.LoginLimiter.ClearRateLimit | lib/rate-limiter.ts:109-111 | Deletes only the given IP's entry, so its next check is allowed whatever the limits |
| RateLimiter.LoginLimiter.Sweep | lib/rate-limiter.ts:15-24 | The map becomes `Swept` of the old map |
| DataFetcher.CheckFirebaseAvailable | lib/data-fetcher.ts:39-48 | The probe succeeds exactly when the secondary store is reachable |
| DataFetcher.FetchEvent | lib/data-fetcher.ts:51-94 | success iff the source is not 'error'; the secondary copy, with its id set to the requested key, exactly when the probe and the secondary read succeed and the document exists there; otherwise the primary document tagged 'appwrite'; 'error' with no document exactly when neither has it |
| DataFetcher.FetchTicket | lib/data-fetcher.ts:154-196 | The same secondary-then-primary rule for a ticket |
| DataFetcher.FetchTicketsForEvent | lib/data-fetcher.ts:97-151 | A non-empty secondary list is returned with total equal to its length; an empty or failed secondary answer falls back to the primary list; 'error' comes with an empty list and total 0, and only when the primary store fails |
| DataFetcher.FetchAttendanceForEvent | lib/data-fetcher.ts:199-248 | Any secondary answer, even an empty one, is returned; only a failed or unavailable secondary reaches the primary; 'error' only when both fail |
| DataFetcher.UsersWithIds | lib/data-fetcher.ts:260-265 | Keeps exactly the users whose id is requested |
| DataFetcher.FetchUsers | lib/data-fetcher.ts:251-302 | An empty id list gives [] with success and source 'appwrite' without a query; every user returned has a requested id; 'error' only when both stores fail |
| DataFetcher.EmptySecondaryAsymmetry | lib/data-fetcher.ts:113-219 | With both stores up and nothing for the event in the secondary, tickets come from the primary while attendance is reported empty from the secondary |
| DataFetcher.StaleReplicaTicketsComeFromPrimary | lib/data-fetcher.ts:113-140 | A replica missing an event's three tickets still yields the primary's three tickets with total 3 |
| DataFetcher.UnreachableReplicaFallsBack | lib/data-fetcher.ts:39-237 | An unreachable secondary never blocks a read the primary can serve |
| CloseTicket.QueriedIds | app/api/tickets/close-ticket/route.ts:46-58 | With distinct ticket ids, a ticket is among those the event query returns exactly when it belongs to the event |
| CloseTicket.Close | app/api/tickets/close-ticket/route.ts:6-78 | A non-JSON body gives 500 and an invalid one 400 with the first issue (500 from the catch when the validation error lacks the `errors` alias), both without writes; an unknown event gives 500; an already completed event gives ok "Event already completed" without writes; a failing event write gives 500 without writes; a failing ticket listing gives 500 with the event completed and no ticket touched; failing ticket updates give 500 with the event completed and only the updates that took effect applied; without a fault the event is completed, exactly its tickets become inactive, tickets_closed is their number; attendance and users are never touched |
| CloseTicket.ClosedEventHasNoActiveTicket | app/api/tickets/close-ticket/route.ts:52-62 | After a close without a fault no ticket of the event is active, and every other ticket is unchanged |
| CloseTicket.DeactivateIdempotent | app/api/tickets/close-ticket/route.ts:52-62 | Deactivating an event's tickets twice equals deactivating them once |
| CloseTicket.CompletionIsOneWay | app/api/tickets/close-ticket/route.ts:27-43 | A close never un-completes an event, completes the closed one, and changes nothing else about any event |
| CloseTicket.ReclosingFindsCompleted | app/api/tickets/close-ticket/route.ts:21-33 | After a close the lookup of a second close finds the event completed, so the second close writes nothing |
| CloseTicket.CloseExample | app/api/tickets/close-ticket/route.ts:46-68 | Of three tickets, the two of the event are deactivated, the third is untouched, and two are counted |
| CloseTicket.CloseTickets | app/api/tickets/close-ticket/route.ts:45-62 | The tickets become `AfterCascade` of the old ones: every ticket of the event whose update takes effect becomes inactive, every other ticket is unchanged, the other collections are untouched, and the count is the number of tickets the query found |
| CloseTicket.FailedCloseIsStranded | app/api/tickets/close-ticket/route.ts:27-76 | After a close that fails once the event is written, the event is found completed, so every later close answers "Event already completed" without writes, while a ticket of the event that was not updated stays active |
| CloseTicket.CascadeOnlyOmits | app/api/tickets/close-ticket/route.ts:52-62 | Without a fault the cascade deactivates exactly the event's tickets; with one, each ticket is either untouched or as the full cascade leaves it |
| MarkAttendance.Mark | app/api/tickets/mark-attendance/route.ts:6-81 | The reply is one of 200, 400, 403 or 500 and ok holds exactly on 200; 400 exactly for a refused body when the validation error carries the `errors` alias; the collection is either unchanged or, on a 200, grows by one record appended at the end (the outcome of each branch is stated by the five lemmas below) |
| MarkAttendance.Post | app/api/tickets/mark-attendance/route.ts:6-81 | The reply and the attendance collection become those of `Mark`; events, tickets and users are untouched |
| MarkAttendance.WritesOnlyNewTriple | app/api/tickets/mark-attendance/route.ts:9-65 | A write happens only for a valid body naming a known ticket of the requested event with no record for the triple yet, and appends exactly {event_id, ticket_id, stud_id} with "Attendance marked successfully" |
| MarkAttendance.OwnedNewTripleIsRecorded | app/api/tickets/mark-attendance/route.ts:36-71 | For every valid body naming a ticket of the requested event whose triple has no record, the record {event_id, ticket_id, stud_id} is appended and the reply is 200 "Attendance marked successfully" |
| MarkAttendance.RecordedTripleIsAlreadyPresent | app/api/tickets/mark-attendance/route.ts:36-53 | For every valid owned request whose triple already has a record, the reply is 200 "Already marked present" and nothing is written |
| MarkAttendance.ForeignTicketIsForbidden | app/api/tickets/mark-attendance/route.ts:21-33 | For every valid request whose ticket belongs to another event, the reply is 403 "Ticket does not belong to this event" and nothing is written |
| MarkAttendance.UnknownTicketFails | app/api/tickets/mark-attendance/route.ts:21-80 | A body that is not JSON, or a valid request naming no stored ticket, gives 500 "Failed to mark attendance" and nothing is written |
| MarkAttendance.InvalidBodyIsRejected | app/api/tickets/mark-attendance/route.ts:9-78 | A body the schema refuses gives 400 with the schema's first issue when the validation error carries the `errors` alias, and otherwise the catch's 500; nothing is written either way |
| MarkAttendance.KeepsOnePerTriple | app/api/tickets/mark-attendance/route.ts:36-65 | Requests keep at most one record per (ticket, student, event) triple |
| MarkAttendance.RepeatIsIdempotent | app/api/tickets/mark-attendance/route.ts:46-53 | Repeating a successful request answers "Already marked present" and writes nothing |
| MarkAttendance.NonMemberIsRecorded | app/api/tickets/mark-attendance/route.ts:18-65 | A student not on the ticket's list is still recorded, since the list is never consulted |
| MarkAttendence.FirstMatch | app/api/tickets/mark-attendence/route.ts:33-49 | The first record whose ticket and student ids each equal the request value or one of its items when it is an array, or none exactly when no record matches |
| MarkAttendence.Mark | app/api/tickets/mark-attendence/route.ts:5-84 | The reply is 200, 400, 403, 404 or 500; the collection keeps its length, so this variant never creates or deletes records, and is unchanged unless the reply is 200 (the outcome of each branch is stated by the lemmas below) |
| MarkAttendence.Post | app/api/tickets/mark-attendence/route.ts:5-84 | The reply and the attendance collection become those of `Mark`; events, tickets and users are untouched |
| MarkAttendence.OnlyFirstMatchTurnsPresent | app/api/tickets/mark-attendence/route.ts:49-68 | The only record that can change is the first match of the query, and only from not-present to present=true |
| MarkAttendence.PresentIsNeverCleared | app/api/tickets/mark-attendence/route.ts:52-68 | A present record stays present |
| MarkAttendence.RepeatConverges | app/api/tickets/mark-attendence/route.ts:52-58 | After one successful request the same request answers "Already marked present" and writes nothing |
| MarkAttendence.NoPlaceholderNoCheckIn | app/api/tickets/mark-attendence/route.ts:42-47 | Without a record for (ticket_id, stud_id) nothing is written and the request is refused |
| MarkAttendence.MismatchIsForbidden | app/api/tickets/mark-attendence/route.ts:17-30 | For every request with the three fields present that names a stored ticket of another event, the reply is 403 "Ticket does not belong to this event" and nothing is written |
| MarkAttendence.NoRecordIsNotFound | app/api/tickets/mark-attendence/route.ts:32-47 | For every owned request the attendance query finds no record for, the reply is 404 "Attendance record not found" and nothing is written |
| MarkAttendence.FirstMatchIsSetPresent | app/api/tickets/mark-attendence/route.ts:49-74 | For every owned request whose first matching record is not present, exactly that record becomes present=true and the reply is 200 "Attendance marked successfully" |
| MarkAttendence.PresentMatchIsAlreadyPresent | app/api/tickets/mark-attendence/route.ts:49-58 | For every owned request whose first matching record is present, the reply is 200 "Already marked present" and nothing is written |
| MarkAttendence.ArrayStudIdMatchesAnyItem | app/api/tickets/mark-attendence/route.ts:33-40 | An array stud_id matches a record of the ticket for any listed student, so such a request succeeds |
| Generate.Issue | app/api/tickets/generate/route.ts:6-92 | A non-JSON or invalid body writes nothing, and the reply is 400 exactly for a refused body when the validation error carries the `errors` alias; a valid one appends the ticket {event_id, stud_id = the list in order, active=true}, one placeholder per listed student and the ticket id to each listed user; the reply is 200 with the new id exactly when every listed user exists |
| Generate.Post | app/api/tickets/generate/route.ts:6-92 | The reply and the three collections become those of `Issue`; events are untouched |
| Generate.CreatePlaceholders | app/api/tickets/generate/route.ts:34-49 | Appends the placeholders for the listed students, in list order, and touches nothing else |
| Generate.AppendToUsers | app/api/tickets/generate/route.ts:51-75 | Performs every append; reports a failure exactly when some listed user has no document; user ids stay distinct |
| Generate.HasUserKept | app/api/tickets/generate/route.ts:51-75 | The appends create and remove no user |
| Generate.AppendAllEffect | app/api/tickets/generate/route.ts:60-71 | With a duplicate-free list, each listed user's tickets becomes its old array (or [] if it was not one) with the new id at the end; other users are unchanged |
| Generate.IssuedTicketShape | app/api/tickets/generate/route.ts:20-32 | The new ticket carries the requested list in order, the event id and active=true, and no team name even when one is sent |
| Generate.OnePlaceholderPerEntry | app/api/tickets/generate/route.ts:35-47 | Each student gets as many placeholders as list entries, each with present=false and the new ticket id |
| Generate.FailureKeepsEarlierWrites | app/api/tickets/generate/route.ts:23-91 | A missing user gives the failure reply, yet the ticket and all placeholders remain written |
| IssuanceCheckIn.NewTicketFound | app/api/tickets/generate/route.ts:23-32 | After issuance a lookup of the new id returns the new ticket |
| IssuanceCheckIn.PlaceholderIsRecord | app/api/tickets/generate/route.ts:35-49 | Every member of the new ticket has a record for the ticket and event |
| IssuanceCheckIn.ScanSeesPlaceholders | app/api/tickets/scan/route.ts:37-55 | A scan of a ticket whose placeholders were written reports every member present |
| IssuanceCheckIn.IssuedTicketScansAllPresent | app/api/tickets/generate/route.ts:35-49 | Right after issuance, scanning the new ticket succeeds and reports every member present although nobody has checked in |
| IssuanceCheckIn.IssuedMemberAlreadyPresent | app/api/tickets/mark-attendance/route.ts:35-53 | Right after issuance, checking in any member answers "Already marked present" and writes nothing |
| Scan.MemberIds | app/api/tickets/scan/route.ts:34-38 | An absent stud_id gives [], a list gives itself, and a non-empty scalar makes `map` throw |
| Scan.Statuses | app/api/tickets/scan/route.ts:37-55 | One entry per member in member order, present exactly when a record matches (stud_id, ticket_id, event_id) |
| Scan.Scan | app/api/tickets/scan/route.ts:6-70 | 400 exactly for a refused body when the validation error carries the `errors` alias (otherwise the catch's 500); 200 exactly for a valid body naming a known ticket of the requested event whose members can be listed; then it echoes ticket.active and event_id and reports each member's presence; 403 carries the ownership message; any failure returns no members |
| Scan.ScalarMemberFails | app/api/tickets/scan/route.ts:34-69 | A ticket stored with one non-empty scalar member cannot be scanned: the answer is 500 |
| AllEvents.CountParticipants | app/api/coordinator/all-events/route.ts:62-79 | The accumulator loop adds, per ticket, the array length, 1 for a truthy scalar and 0 otherwise |
| AllEvents.Stats | app/api/coordinator/all-events/route.ts:53-106 | Registrations are the event's tickets, participants their headcount, checked-in the event's attendance records; remaining slots are max(0, slots - registrations) with missing slots as 0, so they lie in [0, slots]; not-checked-in is participants minus checked-in with no floor |
| AllEvents.Get | app/api/coordinator/all-events/route.ts:12-114 | No truthy session cookie gives 401 and no rows; any session gives 200 and one row per event of `Listed`, the newest 100 events newest first, in that order, computed over the first 1000 tickets and 2000 records |
| AllEvents.ParticipantsAppend | app/api/coordinator/all-events/route.ts:66-79 | The participant total is additive over ticket lists |
| AllEvents.NotCheckedInCanBeNegative | app/api/coordinator/all-events/route.ts:104 | One single-member ticket with two check-in records reports -1 not checked in |
| AllEvents.Listed | app/api/coordinator/all-events/route.ts:27-32 | `limit(100)` with `orderDesc('$createdAt')` over a collection kept oldest first: at most 100 events, the i-th being the i-th newest |
| AllEvents.NewestOnly | app/api/coordinator/all-events/route.ts:27-32 | With at least 100 events the listing is exactly the newest 100 reversed, so every older event is left out |
| EventParticipants.NonEmpty | app/api/coordinator/event-participants/route.ts:76-78 | Keeps exactly the non-empty list entries |
| EventParticipants.Contributed | app/api/coordinator/event-participants/route.ts:72-81 | A ticket contributes its non-empty list entries, or its non-empty scalar id |
| EventParticipants.Dedup | app/api/coordinator/event-participants/route.ts:69-90 | Reading the set back gives each collected id once, and nothing else |
| EventParticipants.AddListIds | app/api/coordinator/event-participants/route.ts:75-78 | The inner loop adds the list's non-empty entries to the set in order |
| EventParticipants.CollectUnique | app/api/coordinator/event-participants/route.ts:69-90 | The collection loop yields the deduplicated ids of all tickets in first-insertion order |
| EventParticipants.InfoOf | app/api/coordinator/event-participants/route.ts:103-108 | Name defaults to "Unknown"; phone is phone, else phno, else "" |
| EventParticipants.InfoMap | app/api/coordinator/event-participants/route.ts:101-109 | The map holds exactly the returned users' ids, each mapped to the info of a user with that id |
| EventParticipants.Batches | app/api/coordinator/event-participants/route.ts:94-96 | Every batch is non-empty and holds at most 100 ids |
| EventParticipants.AddInfos | app/api/coordinator/event-participants/route.ts:101-109 | The inner loop stores every returned user in order |
| EventParticipants.BatchLookup | app/api/coordinator/event-participants/route.ts:92-110 | The batch loop gives the map of all users the batch queries return |
| EventParticipants.FirstMatchId | app/api/coordinator/event-participants/route.ts:124-138 | The first collected id equal to the user's $id, email, phone or stud_id; none exactly when no id matches |
| EventParticipants.FallbackMap | app/api/coordinator/event-participants/route.ts:116-144 | Only collected ids become keys; each key holds the info of a user whose first match it is; every user with a match is stored under it |
| EventParticipants.FallbackLookup | app/api/coordinator/event-participants/route.ts:116-144 | The fallback loop over the table gives `FallbackMap` |
| EventParticipants.BuildRows | app/api/coordinator/event-participants/route.ts:147-182 | The row loop gives `Rows` of the tickets |
| EventParticipants.Get | app/api/coordinator/event-participants/route.ts:12-189 | Guards in order: no session 401, no event_id 400, unknown event 404; otherwise 200 with the event name, one row per list entry of the first 500 tickets, the check-in set of the first 500 records, and the user map from the batched lookup, with the full-table fallback only when the batches matched nobody |
| EventParticipants.CollectedIds | app/api/coordinator/event-participants/route.ts:69-82 | The collected ids are exactly the non-empty list entries and non-empty scalar ids |
| EventParticipants.BatchesCoverIds | app/api/coordinator/event-participants/route.ts:94-100 | Concatenated in order the batches give back the id list, so every id is looked up exactly once |
| EventParticipants.RowsFollowListIds | app/api/coordinator/event-participants/route.ts:158-181 | One row per list entry in order, checked in exactly when the id is in the check-in set; an unresolved id shows "Unknown" and empty strings |
| EventParticipants.ScalarIdListedButNoRow | app/api/coordinator/event-participants/route.ts:79-163 | A non-empty scalar id is looked up but gets no row |
| EventParticipants.MatchingId | app/api/coordinator/event-participants/route.ts:124-139 | The inner loop stops at the first collected id the user matches by $id, email, phone or stud_id, and finds none when no id matches |
| Participants.Visited | app/api/coordinator/participants/route.ts:55-82 | `for..of` over `stud_id ?? []` visits nothing when absent, the list entries for a list, and one one-character id per character of a scalar |
| Participants.Queried | app/api/coordinator/participants/route.ts:61-65 | The query returns only users whose id is in the id set |
| Participants.NameMap | app/api/coordinator/participants/route.ts:67-70 | The map holds exactly the returned users' ids, each mapped to the name of a user with that id |
| Participants.CollectCheckedIn | app/api/coordinator/participants/route.ts:47-50 | The check-in set is exactly the stud_id values of the event's records |
| Participants.CollectIds | app/api/coordinator/participants/route.ts:52-58 | The id set is exactly the ids the loop visits |
| Participants.CollectNames | app/api/coordinator/participants/route.ts:67-70 | The map loop gives `NameMap` |
| Participants.BuildRows | app/api/coordinator/participants/route.ts:72-89 | The nested row loop gives `Rows` of the tickets |
| Participants.Get | app/api/coordinator/participants/route.ts:5-95 | A missing x-event-id gives 401; an unknown event gives 500 because the lookup throws; an event whose tickets have no members gives 500, because the user query then has no values and the store refuses it; otherwise 200 with rows over the event's tickets, its check-in set and the names of the queried users |
| Participants.RowsFollowVisitedIds | app/api/coordinator/participants/route.ts:79-89 | One row per visited id in order, checked in exactly when the id is in the check-in set, named through the user map |
| Participants.KnownStudentName | app/api/coordinator/participants/route.ts:67-85 | A member that is a user gets that user's name, or "Unknown" when the user has none |
| Participants.UnknownStudentName | app/api/coordinator/participants/route.ts:85 | A member id that is no user's id is listed as "Unknown" |
| Participants.ScalarIdSplitsIntoCharacters | app/api/coordinator/participants/route.ts:55-82 | A ticket with the scalar id "ab" yields the ids "a" and "b" |
| Dashboard.SumLengths | app/api/coordinator/dashboard/route.ts:43-46 | The accumulator loop adds `stud_id?.length ?? 0` per ticket: a list counts its entries, a scalar id its UTF-16 code units |
| Dashboard.AstralScalarCountsTwo | app/api/coordinator/dashboard/route.ts:45 | A scalar id of one character above U+FFFF counts two participants |
| Dashboard.Get | app/api/coordinator/dashboard/route.ts:5-72 | A missing x-event-id gives 401; no event with that business id gives 404; otherwise 200 with the event's business id, name and completed flag, its ticket count, the summed lengths, its attendance count and their difference |
| Dashboard.AgreesWithoutScalars | app/api/coordinator/dashboard/route.ts:43-46 | Without scalar ids the dashboard and the all-events overview count the same participants |
| Dashboard.ScalarCountsDiffer | app/api/coordinator/dashboard/route.ts:45 | The scalar id "abc" counts 3 here and 1 in the all-events overview |
| Participants.NoIdsNoMembers | app/api/coordinator/participants/route.ts:52-65 | The queried id set is empty exactly when no member id was visited |
| MainLogin.FirstField | app/api/coordinator/main-login/route.ts:10 | `split(",")[0]`: the longest comma-free prefix, ended by a comma or the end of the text |
| MainLogin.ClientIp | app/api/coordinator/main-login/route.ts:9-12 | The first x-forwarded-for entry with all JavaScript white space trimmed when that header is non-empty, else x-real-ip when non-empty, else "unknown" |
| MainLogin.AllowedOrigins | app/api/coordinator/main-login/route.ts:34-40 | The list always holds both localhost prefixes, holds no empty entry, and holds the site URL (five entries) exactly when one is configured |
| MainLogin.ReadField | app/api/coordinator/main-login/route.ts:50-53 | `field?.trim()`: a usable field is a string that is not blank once all JavaScript white space (Unicode spaces included) is trimmed; a present non-null non-string value makes `trim` throw |
| MainLogin.TooMany | app/api/coordinator/main-login/route.ts:15-26 | 429 with retryAfter equal to the reset time and the wait in minutes rounded up |
| MainLogin.Success | app/api/coordinator/main-login/route.ts:88-125 | 200 with expiry seven days after `now` |
| MainLogin.Post | app/api/coordinator/main-login/route.ts:6-133 | The response and the limiter table become those of `Login` over the live table |
| MainLogin.RateLimitPrecedesBody | app/api/coordinator/main-login/route.ts:14-27 | A refused IP gets 429 whatever body it sends |
| MainLogin.RejectionsAreUniform | app/api/coordinator/main-login/route.ts:52-86 | A blank id, a blank password, a wrong id and a wrong password all give the same 401 "Invalid credentials" |
| MainLogin.SuccessNeedsBothCredentials | app/api/coordinator/main-login/route.ts:61-123 | Success needs the configured id (default "admin") given exactly and a password valid against the configured or built-in hash; it sets the coord_session and coord_type=main cookies for seven days |
| MainLogin.BothCredentialsSucceed | app/api/coordinator/main-login/route.ts:61-103 | Conversely the configured id with a valid password logs in |
| MainLogin.OnlySuccessClears | app/api/coordinator/main-login/route.ts:88-89 | Only a successful login deletes the IP's limiter entry; every other outcome leaves the table as the rate-limit check left it |
| MainLogin.OriginRule | app/api/coordinator/main-login/route.ts:29-42 | For any Host header and site URL, a present Origin passes exactly when it starts with https:// or http:// plus the host, with one of the two localhost origins, or with the configured site URL; an absent or empty Origin passes |
| MainLogin.BadOriginIff | app/api/coordinator/main-login/route.ts:29-47 | For every request the rate limit lets through, the reply is 403 "Invalid request origin" exactly when the Origin check fails |
| MainLogin.DecideNeverForbids | app/api/coordinator/main-login/route.ts:52-125 | The credential part answers only 200, 401 or 500, never 403 |
| MainLogin.PrefixAdmitsLookalike | app/api/coordinator/main-login/route.ts:42 | Since the test is a prefix test, https://<host>.attacker.example passes for any host |
| MainLogin.UnicodeSpaceIsBlank | app/api/coordinator/main-login/route.ts:53 | A field of a no-break space and an ideographic space is blank, so it gets 401 |
| MainLogin.UnicodeSpaceTrimmedFromIp | app/api/coordinator/main-login/route.ts:10 | A byte-order mark and a line separator around the forwarded address are trimmed away |
| MainLogin.MinutesWording | app/api/coordinator/main-login/route.ts:17-22 | 60000 ms reads "1 minute" and 60001 ms "2 minutes" |
| CoordinatorLogin.Login | app/api/coordinator/login/route.ts:9-73 | Statuses are 200, 400, 401, 404 or 500; 200 exactly when a token and a coordinator are returned, and the token is the fresh one |
| CoordinatorLogin.SuccessIffStoredPassword | app/api/coordinator/login/route.ts:31-65 | A login succeeds exactly when the first event with the business id stores the given password as plain text, and the response names that event |
| CoordinatorLogin.UnknownEventIsNotFound | app/api/coordinator/login/route.ts:31-43 | For any event list, a present id and password whose id the query matches in no stored event give 404 "Event not found" |
| CoordinatorLogin.WrongPasswordIsInvalid | app/api/coordinator/login/route.ts:45-53 | For any event list, a known business id with a password other than the stored one gives 401 "Invalid password", distinguishable from the 404 |
| CoordinatorLogin.ArrayIdMatchesAnyItem | app/api/coordinator/login/route.ts:32-53 | An array event_id is a list of alternatives: when any listed id is stored the login is not refused with 404, and a success names an event whose id is in the list |
| CoordinatorLogin.MissingFieldIsBadRequest | app/api/coordinator/login/route.ts:23-29 | A missing password is refused with 400 before any lookup |
| Proxy.Decide | proxy.ts:4-68 | A redirect goes only to the overview, the event dashboard or the login page, and only the redirect to the login page deletes cookies, all three session cookies |
| Proxy.Route | proxy.ts:70-72 | A path outside the matcher always passes |
| Proxy.RootRedirects | proxy.ts:9-19 | "/" always redirects: to the overview for a main session, to the event dashboard for any other session, to the login page without one |
| Proxy.LoginPagesAlwaysPass | proxy.ts:21-65 | Both login pages always pass, so the later redirects away from them never fire |
| Proxy.NoSessionIsSentToLogin | proxy.ts:26-35 | Without a session every other matched page redirects to the login page and deletes coord_session, coord_event and coord_type |
| Proxy.SessionRedirects | proxy.ts:37-50 | With a session exactly two cases redirect: a main coordinator on /coordinator goes to the overview, any other coordinator on the overview goes to /coordinator |
| Proxy.NoRedirectChains | proxy.ts:4-72 | The target of every redirect passes with the cookies the redirect leaves |
| UpdateEvent.ParseSettings | app/api/coordinator/update-event/route.ts:6-35 | The schema accepts exactly an object whose venue, if present, is a string of length at least 1 and whose date, time and slot, if present, are strings; each accepted field is provided exactly when the body has it |
| UpdateEvent.Patch | app/api/coordinator/update-event/route.ts:39-44 | The patch has a key for exactly the provided fields, each holding the value sent |
| UpdateEvent.Apply | app/api/coordinator/update-event/route.ts:53-59 | The update changes exactly the patched fields of the document |
| UpdateEvent.Patched | app/api/coordinator/update-event/route.ts:53-59 | Only the cookie's event is patched |
| UpdateEvent.Update | app/api/coordinator/update-event/route.ts:13-74 | Every refusal (401 without the coord_event cookie, 400 for an invalid body or an empty patch, 500 for a non-JSON body or an unknown event) leaves the events and reports no update |
| UpdateEvent.Post | app/api/coordinator/update-event/route.ts:13-74 | The reply, the echoed patch and the events become those of `Update`; other collections are untouched |
| UpdateEvent.Read | app/api/coordinator/update-event/route.ts:76-113 | 200 with details exactly when the cookie names a known event; each field is its stored value or "" |
| UpdateEvent.WritesOnlyProvidedFields | app/api/coordinator/update-event/route.ts:37-65 | A successful update writes exactly the provided fields, as sent, to the cookie's event, leaves everything else, and echoes the patch |
| UpdateEvent.CompletedFlagIsNotAField | app/api/coordinator/update-event/route.ts:39-51 | The body `{completed: true}` is refused with "No fields to update" and completes nothing |
| UpdateEvent.EmptyVenueRefused | app/api/coordinator/update-event/route.ts:7-35 | An empty venue is refused with "Venue is required" while an empty date is accepted |
| UpdateEvent.ReadAfterUpdate | app/api/coordinator/update-event/route.ts:53-104 | Reading after a successful update returns each provided field as sent and every other field as before |
| Winners.Validate | app/api/coordinator/winners/route.ts:24-32 | The loop accepts exactly when every winner has a truthy position and name |
| Winners.FirstIncomplete | app/api/coordinator/winners/route.ts:25-31 | A refusal is decided by the first incomplete winner: 500 exactly when it is null, every earlier winner being complete |
| Winners.CheckWinners | app/api/coordinator/winners/route.ts:24-32 | The loop with its early return computes `Validate` |
| Winners.WithWinners | app/api/coordinator/winners/route.ts:55-62 | Only the found event's winners text changes |
| Winners.Save | app/api/coordinator/winners/route.ts:5-82 | Statuses are 200, 400, 404 or 500, and every refusal leaves the events unchanged; a success stores and echoes the winners as JavaScript built them from the request (`JsObject.Canonical`) |
| Winners.Post | app/api/coordinator/winners/route.ts:5-82 | The reply, the echoed winners and the events become those of `Save` |
| Winners.Read | app/api/coordinator/winners/route.ts:84-124 | 200 exactly when the header names a known business id; the winners are the parsed stored text, or [] when none is stored or it does not parse |
| Winners.SavedIff | app/api/coordinator/winners/route.ts:7-74 | Saving succeeds exactly for an object with a truthy event_id (an array one with at least one item), an array of complete winners and an event the query finds; a failed write still answers 200 and stores nothing |
| Winners.SaveThenRead | app/api/coordinator/winners/route.ts:55-118 | What GET returns after a successful save is the array POST received, as JavaScript built it from the request text |
| Winners.ReadBackAnswers | app/api/coordinator/winners/route.ts:7-118 | Read back after a save, each winner answers every key with the value last given for it in the request, and holds each key once |
| Winners.RepeatedNameKeepsLast | app/api/coordinator/winners/route.ts:7-118 | A winner sent with its name twice is read back with only the second name, in the first name's place |
| Winners.SaveStores | app/api/coordinator/winners/route.ts:55-62 | A successful save stores the stringified built array on the found event |
| Winners.StoredIsFound | app/api/coordinator/winners/route.ts:96-109 | The business-id lookup finds the written event with its new text |
| Winners.NullWinnerThrows | app/api/coordinator/winners/route.ts:26-80 | A null winner makes the property access throw: the reply is the generic 500 |
| Winners.UnparsableReadsEmpty | app/api/coordinator/winners/route.ts:112-118 | Stored text that does not parse reads back as [] |
| EventsList.HexSpan | app/api/events/route.ts:13-14 | The longest prefix of hexadecimal digits, as `parseInt` reads after a 0x prefix |
| EventsList.Magnitude | app/api/events/route.ts:13-14 | `parseInt` gives NaN exactly when no digit follows the optional 0x prefix |
| EventsList.PageOf | app/api/events/route.ts:13 | A page that parses is at least 1 |
| EventsList.LimitOf | app/api/events/route.ts:14 | A limit that parses lies between 1 and 100 |
| EventsList.OffsetOf | app/api/events/route.ts:20 | The offset is a number exactly when page and limit are, and it is non-negative and leaves room for one page before page*limit |
| EventsList.SearchClause | app/api/events/route.ts:25-27 | At most one search clause is added |
| EventsList.CategoryClause | app/api/events/route.ts:29-31 | At most one category clause is added |
| EventsList.CompletedClause | app/api/events/route.ts:33-35 | At most one completed clause is added |
| EventsList.BuildQueries | app/api/events/route.ts:18-35 | The conditional pushes build the query list of `Queries`, which holds between four and seven clauses |
| EventsList.TotalPages | app/api/events/route.ts:48 | `ceil(total / limit)`: the fewest pages of `limit` documents that hold `total` |
| EventsList.List | app/api/events/route.ts:9-72 | A listing exactly when the store answers, carrying its documents and total with the parsed page and limit; a store exception keeps its code (500 when it has none), anything else is 500 |
| EventsList.ParseIntOfDecimal | app/api/events/route.ts:13-14 | `parseInt` reads back the decimal text of any natural number, whatever non-digit follows |
| EventsList.Defaults | app/api/events/route.ts:13-14 | Absent or empty parameters give page 1 and limit 10 |
| EventsList.NumericPaging | app/api/events/route.ts:13-14 | A numeric page becomes max(1, n) and a numeric limit is clamped to [1, 100] |
| EventsList.SearchClauseIff | app/api/events/route.ts:18-27 | The query always orders by creation and filters on the fest, and searches the name exactly when the search text is non-empty once all JavaScript white space is trimmed |
| EventsList.CategoryClauseIff | app/api/events/route.ts:29-31 | The category is filtered exactly when one other than "all" is given |
| EventsList.CompletedClauseIff | app/api/events/route.ts:33-35 | completed is filtered exactly when the parameter is present, to true only for the text "true" |
| EventsList.NonNumericPage | app/api/events/route.ts:13-14 | A page or limit that does not start with a digit is NaN |
| Register.ToPublic | app/api/auth/register/route.ts:13-21 | The public view has the user's id, name and email, and its tickets and certificates with absent lists read as empty |
| Register.ValidationMessage | app/api/auth/register/route.ts:34 | The validation reply always has a message |
| Register.WithEmail | app/api/auth/register/route.ts:43-47 | The equality query returns only stored users with exactly that email, and none exactly when no user has it |
| Register.Registered | app/api/auth/register/route.ts:23-84 | Statuses are 200, 400, 409 or 500; a user is returned exactly on 200; every refusal leaves the users unchanged |
| Register.Post | app/api/auth/register/route.ts:23-84 | The reply and the new users become those of `Registered`; other collections are untouched |
| Register.StoresNormalisedUser | app/api/auth/register/route.ts:39-78 | A success appends exactly one user with the trimmed, lower-cased email, the name as sent, the hash and empty lists, no earlier user having that email, and replies with its public view |
| Register.DuplicateIsConflict | app/api/auth/register/route.ts:42-54 | An email whose normalised form is stored is a 409 conflict with nothing written |
| Register.KeepsUsersDistinct | app/api/auth/register/route.ts:42-71 | Registration keeps emails distinct and, with a fresh id, ids distinct |
| Register.PublicViewHidesPassword | app/api/auth/register/route.ts:13-21 | The public view does not depend on the password hash |
| StudentLogin.Login | app/api/auth/login/route.ts:22-76 | Statuses are 200, 400, 401, 404 or 500; a token and a user are returned exactly on 200, and the token is the fresh one |
| StudentLogin.SuccessIff | app/api/auth/login/route.ts:38-72 | With distinct emails, a well-formed login succeeds exactly when a user stores that exact email and the password verifies against its hash; a wrong password is 401, and a success returns that user's public view |
| StudentLogin.UnknownEmailNotFound | app/api/auth/login/route.ts:41-52 | An email no user stores exactly gives 404 "User not found" |
| StudentLogin.RegisteredCaseIsNotFound | app/api/auth/login/route.ts:41-52 | A user who registers with an email that normalisation changes, then logs in with it exactly as typed, gets 404, because only the normalised form was stored |
| StudentLogin.RegistrationAppends | app/api/auth/register/route.ts:42-71 | Registering a well-formed new email appends exactly the new user |
| ProfileUpdate.PatchOf | app/api/profile/update/route.ts:11-17 | The patch has name and email as sent, and a hash exactly for a truthy password; a truthy non-string password throws |
| ProfileUpdate.Assign | app/api/profile/update/route.ts:19-24 | An absent key keeps the attribute, a string replaces it, null clears it, and any other value is refused |
| ProfileUpdate.Patched | app/api/profile/update/route.ts:19-24 | Only name, email and hash change, and the hash is the new one exactly when the patch has one |
| ProfileUpdate.Replaced | app/api/profile/update/route.ts:19-24 | Only the document with that id is replaced |
| ProfileUpdate.GetUser | app/api/profile/update/route.ts:19-24 | The first stored user with the id, or none exactly when no user has it |
| ProfileUpdate.Update | app/api/profile/update/route.ts:9-33 | The status is always 200, and a failure leaves the users unchanged |
| ProfileUpdate.Post | app/api/profile/update/route.ts:9-33 | The reply and the users become those of `Update`; other collections are untouched |
| ProfileUpdate.WritesAsSent | app/api/profile/update/route.ts:11-29 | A success updates the user whose id is the text of the sent `id`; it writes name and email as sent (an absent key keeps the value), replaces the hash only for a truthy password, leaves other fields and users alone, and echoes the stored id, name and email |
| ProfileUpdate.NoSchemaCheck | app/api/profile/update/route.ts:11-24 | With no schema check, a one-letter name is stored |
| ProfileUpdate.UnknownIdFails | app/api/profile/update/route.ts:19-31 | An id of any type whose text (`String(id)`) names no user answers 200 with success false, and nothing is written |
| ProfileUpdate.ArrayIdUpdatesItsUser | app/api/profile/update/route.ts:19-24 | A non-string id is turned into path text: `["u1"]` updates user u1 |
| Schemas.RequiredString | lib/validations/schemas.ts:9 | Accepts exactly a present string of at least n UTF-16 code units, returning it; otherwise the issue is at that key (missing, not a string, or too short with the schema's message) |
| Schemas.RequiredEmail | lib/validations/schemas.ts:4 | Accepts exactly a present string that passes the e-mail test, returning it; otherwise the issue is at that key |
| Schemas.OptionalString | lib/validations/schemas.ts:16 | Accepts an absent key or a string of at least n UTF-16 code units; only an absent key gives no value |
| Schemas.OptionalEmail | lib/validations/schemas.ts:17 | Accepts an absent key or a string that passes the e-mail test |
| Schemas.JStrs | lib/validations/schemas.ts:23 | The JSON elements holding the given strings, element for element |
| Schemas.Strings | lib/validations/schemas.ts:23 | The strings held by an all-string array, element for element |
| Schemas.RequiredStringArray | lib/validations/schemas.ts:23 | Accepts exactly an array of at least n strings, returning them in order |
| Schemas.ParseLogin | lib/validations/schemas.ts:3-6 | Accepts exactly an object with an email that passes the test and a password of at least 6 characters, returning both as sent; a non-object is refused as such |
| Schemas.ParseRegister | lib/validations/schemas.ts:8-12 | Accepts exactly an object with a name of at least 2 characters, an email that passes the test and a password of at least 6, returning them as sent |
| Schemas.ParseProfileUpdate | lib/validations/schemas.ts:14-19 | Accepts exactly an object with a non-empty id whose optional name, email and password, when present, meet their rules |
| Schemas.ParseGenerateTicket | lib/validations/schemas.ts:21-25 | Accepts exactly an object with a non-empty event id, at least one string student id and an optional string team name, returning them as sent |
| Schemas.ParseScanTicket | lib/validations/schemas.ts:27-30 | Accepts exactly an object with non-empty ticket and event ids |
| Schemas.ParseMarkAttendance | lib/validations/schemas.ts:32-36 | Accepts exactly an object with non-empty ticket, student and event ids, returning them as sent |
| Schemas.ParseCloseTicket | lib/validations/schemas.ts:38-40 | Accepts exactly an object with a non-empty event id; otherwise the issue is at event_id |
| Schemas.EmptyEventIdMessage | lib/validations/schemas.ts:39 | An empty event id is refused with "Event ID is required" |
| Schemas.EmptyStudentIdAccepted | lib/validations/schemas.ts:21-25 | A list holding one empty student id is accepted |
| Schemas.IdAloneIsAProfileUpdate | lib/validations/schemas.ts:14-19 | A profile update may carry the id alone |
| Schemas.NullIsNotAbsent | lib/validations/schemas.ts:16 | An optional field sent as null is a type error, not an absence |
| Schemas.AstralNamePassesMinimum | lib/validations/schemas.ts:9 | A name of one character above U+FFFF passes min(2) as two code units, while a one-letter name fails |
| Common.Utf16Length | lib/validations/schemas.ts:9 | `.length` of a string lies between its character count and twice it, and equals the character count when no character is above U+FFFF |
| Schemas.Refused | app/api/tickets/close-ticket/route.ts:11-16 | A refused body answers 400 with the first issue's message when the validation error carries the `errors` alias; otherwise reading `errors[0]` throws and the reply is the handler's catch reply |
| LegacyServer.LegacyStore.constructor | server.js:1-18 | The store starts with the given events and tickets |
| LegacyServer.LegacyStore.Scan | server.js:99-149 | The reply and the new tickets are those of `Scanned`; the events are untouched |
| LegacyServer.Login | server.js:26-74 | Success exactly on a 200 that names an event; the only statuses are 200 and 400 |
| LegacyServer.OfEvent | server.js:182-197 | The tickets whose event_id is the parameter: each is stored, and every stored ticket of the event is among them |
| LegacyServer.Count | server.js:79-94 | The count never exceeds the number of tickets |
| LegacyServer.TicketMatch | server.js:111-126 | The first ticket matching both ids, or none exactly when no ticket matches both |
| LegacyServer.Scanned | server.js:99-149 | A refusal writes nothing; an admission needs both ids given and an unused first match, sets only that ticket's usage to true and returns its student name |
| LegacyServer.Report | server.js:154-176 | A name is reported exactly when some used ticket of the event carries it (null for a missing name) |
| LegacyServer.Attendance | server.js:154-176 | The push loop builds `Report` |
| LegacyServer.TicketList | server.js:182-197 | The push loop builds the event's ticket list, whose length is the count |
| LegacyServer.LoginIff | server.js:26-66 | With both fields given, login succeeds exactly when the first event with the id stores the same password, then answers the id as sent and the stored name; otherwise "Event not found" or "Wrong password" |
| LegacyServer.ScanAdmitsIff | server.js:99-141 | A scan admits exactly when both ids are given, a ticket matches both, and the first match is not used yet |
| LegacyServer.ScanIsOneShot | server.js:127-134 | Repeating a successful scan is refused with "Ticket already used" |
| LegacyServer.ScanThenReport | server.js:134-166 | An admitted ticket's name appears in its event's attendance report |
| LegacyServer.CountIsListLength | server.js:79-192 | The count is the ticket list's length, and it is zero exactly when no ticket belongs to the event |
| Json.Lookup | app/api/coordinator/winners/route.ts:8-17 | A key read from a parsed object is absent exactly when no member has that key; otherwise it is the value of the last member with that key |
| Json.Get | app/api/coordinator/winners/route.ts:8-17 | Reading a property gives undefined on anything but an object, and the member's value on an object |
| Json.Parse | app/api/coordinator/winners/route.ts:112-118 | `JSON.parse` succeeds only on non-empty text |
| Json.ParseStringify | app/api/coordinator/winners/route.ts:60-114 | `JSON.parse(JSON.stringify(v))` gives back v for every value |
| Ordering.LocaleCompare | app/coordinator/page.tsx:132-136 | Negative exactly when a sorts before b, positive exactly when b sorts before a, zero exactly when they are equal |
| Ordering.LessTotal | app/coordinator/page.tsx:132-136 | Any two different names compare one way or the other |
| Ordering.LessTransitive | app/coordinator/overview/page.tsx:151-173 | The comparison is transitive, so sorting by it is well defined |
| Ordering.SortDistinct | app/coordinator/page.tsx:120-136 | The sorted names are the same names, in strictly ascending order |
| Ordering.SortedUnique | app/coordinator/page.tsx:132-136 | Two strictly sorted lists with the same elements are equal, so the order shown does not depend on the store order |
| Json.ToText | app/api/profile/update/route.ts:19-24 | `String(v)` as the store client puts an id into the request path: a string is itself, a one-string array is that string, an empty array is empty text |
| JsObject.FirstKeys | app/api/coordinator/winners/route.ts:7-8 | The keys of an object's members, each once: a key is listed exactly when a lookup of it finds a member |
| JsObject.LastIndex | app/api/coordinator/winners/route.ts:7-8 | The position of the member a lookup reads, absent exactly when no member has the key |
| JsObject.SortIndices | app/api/coordinator/winners/route.ts:60 | Array-index keys come out in ascending numeric order, the same keys, each once when they came in once |
| JsObject.KeyOrder | app/api/coordinator/winners/route.ts:60 | The built object's keys are distinct, and are exactly the keys a lookup finds |
| JsObject.Canonical | app/api/coordinator/winners/route.ts:7-8 | The built value keeps its kind and array length; each array item is built in turn, and an object's keys follow `KeyOrder` |
| JsObject.CanonicalKeysDistinct | app/api/coordinator/winners/route.ts:7-8 | A built object holds each key once |
| JsObject.CanonicalGet | app/api/coordinator/winners/route.ts:7-26 | Reading a property from the built object gives the built form of what reading it from the text gives, so every check the handlers make reads the same |
| JsObject.CanonicalMemberAt | app/api/coordinator/winners/route.ts:7-8 | Each position of the built object holds its key with the last value given for that key |
| JsObject.KeyOrderShape | app/api/coordinator/winners/route.ts:60 | Array-index keys come first in ascending order; the other keys keep the order in which they first appear |
| JsObject.FirstKeysOfDistinct | app/api/coordinator/winners/route.ts:7-8 | Without a repeated key, the first-seen keys are the keys in their order |
| JsObject.KeptAsWritten | app/api/coordinator/winners/route.ts:7-8 | An object with no repeated key and no array-index key, whose values are already built, is kept as written |
| JsObject.KeptItems | app/api/coordinator/winners/route.ts:7-8 | An array of built values is kept as it is |
| JsObject.DuplicateKeyKeepsLast | app/api/coordinator/winners/route.ts:7-60 | `{"position":1,"name":"a","name":"b"}` is built as `{"position":1,"name":"b"}` |
| JsObject.IndexKeyComesFirst | app/api/coordinator/winners/route.ts:7-60 | `{"name":"x","1":"y"}` is built as `{"1":"y","name":"x"}` |
| CoordinatorPage.TeamOf | app/coordinator/page.tsx:124 | A participant's group is its truthy team name, or "Individual Participants" when it has none; never empty |
| CoordinatorPage.NamedTeams | app/coordinator/page.tsx:114-119 | The truthy team names, each once, and exactly those some participant carries |
| CoordinatorPage.UniqueTeams | app/coordinator/page.tsx:114-120 | Every truthy team name once, in strictly ascending order, none empty |
| CoordinatorPage.Members | app/coordinator/page.tsx:123-130 | The participants of a group, all of that group; non-empty exactly when the group exists |
| CoordinatorPage.Groups | app/coordinator/page.tsx:123-130 | The group names without repetition, exactly those some participant falls into |
| CoordinatorPage.GroupByTeam | app/coordinator/page.tsx:123-130 | The reduce yields a key exactly for each group present, holding that group's participants in input order, never empty |
| CoordinatorPage.GroupStep | app/coordinator/page.tsx:124-128 | One more participant joins its own group and no other |
| CoordinatorPage.GroupsPartition | app/coordinator/page.tsx:123-130 | Every participant lands in exactly one group: the group sizes add up to the participant count, and each participant is in its own group |
| CoordinatorPage.MembersKeepOrder | app/coordinator/page.tsx:123-130 | A group's list is the participants filtered by group, in input order |
| CoordinatorPage.Without | app/coordinator/page.tsx:132-136 | The distinct list minus one name |
| CoordinatorPage.TeamNames | app/coordinator/page.tsx:132-136 | The same names, ascending by the comparator, with "Individual Participants" last when present |
| CoordinatorPage.NamedLength | app/coordinator/page.tsx:132-136 | Removing the individuals' group shortens the list by one exactly when it is present |
| CoordinatorPage.DistinctLength | app/coordinator/page.tsx:132-136 | Two duplicate-free lists with the same elements have the same length |
| CoordinatorPage.TeamNamesOrderFree | app/coordinator/page.tsx:132-136 | The team order does not depend on the key order the object hands back |
| CoordinatorPage.CheckedIn | app/coordinator/page.tsx:948 | The checked-in count is at most the list size, and equal to it exactly when everyone is checked in |
| CoordinatorPage.TeamCheckedInBounded | app/coordinator/page.tsx:948 | A team's checked-in count is at most its size and at most the whole event's count |
| CoordinatorPage.CheckedInSnoc | app/coordinator/page.tsx:948 | One more participant adds one to the count exactly when checked in |
| CoordinatorPage.Toggled | app/coordinator/page.tsx:139-149 | The name flips membership and no other name changes |
| CoordinatorPage.ToggleTwice | app/coordinator/page.tsx:139-149 | Toggling the same team twice restores the expanded set |
| CoordinatorPage.ToggleCommutes | app/coordinator/page.tsx:139-149 | Toggles of two teams commute |
| CoordinatorPage.TeamPanel.constructor | app/coordinator/page.tsx:105 | No team is expanded at first |
| CoordinatorPage.TeamPanel.ToggleTeam | app/coordinator/page.tsx:139-149 | The expanded set becomes `Toggled` of the old one |
| CoordinatorPage.EntryFields | app/coordinator/page.tsx:291-293 | An entry carries its position and name, and is complete exactly when both are set |
| CoordinatorPage.Payload | app/coordinator/page.tsx:290-293 | Holds the entry for a place exactly when that place is chosen, in ascending position, and always passes the route's winner check |
| CoordinatorPage.SaveWinnersPayload | app/coordinator/page.tsx:290-293 | The conditional pushes build `Payload` |
| CoordinatorPage.PayloadAccepted | app/coordinator/page.tsx:290-302 | The page's request is saved when the event is found and refused with 404 otherwise, never with 400, and the saved list is the one sent |
| CoordinatorPage.SaveAccepts | app/api/coordinator/winners/route.ts:7-74 | Any complete list under a non-empty event id is saved exactly when the event exists, and the echoed list is the one JavaScript built |
| CoordinatorPage.PayloadKept | app/coordinator/page.tsx:290-302 | The page's entries (keys position and name, once each) are built and stored exactly as sent |
| CoordinatorPage.EntryKept | app/coordinator/page.tsx:290-302 | One entry is built exactly as the page writes it |
| OverviewPage.SumAppend | app/coordinator/overview/page.tsx:136-138 | The reduce over two lists joined is the sum of the two reduces |
| OverviewPage.OverallTotals | app/coordinator/overview/page.tsx:134-138 | The total is the number of events, the active count is at most that and zero exactly when every event is completed, and the sums are non-negative |
| OverviewPage.NonNegativeSum | app/coordinator/overview/page.tsx:136-138 | A sum of non-negative per-event figures is non-negative |
| OverviewPage.TotalsAdd | app/coordinator/overview/page.tsx:134-138 | The header totals of two event lists joined are the totals of each added up |
| OverviewPage.PendingIsSumOfEvents | app/coordinator/overview/page.tsx:137-138 | Overall participants minus overall checked-in is the sum of each event's not-checked-in figure |
| OverviewPage.Filtered | app/coordinator/overview/page.tsx:141-148 | Exactly the events whose name, category or venue contains the lower-cased query, in their original order |
| OverviewPage.FilterSubsequence | app/coordinator/overview/page.tsx:141-148 | Filtering keeps the remaining events in order |
| OverviewPage.EmptyQueryKeepsAll | app/coordinator/overview/page.tsx:141-148 | An empty search shows every event |
| OverviewPage.SearchIgnoresCase | app/coordinator/overview/page.tsx:142 | The search gives the same events for a query and its lower-cased form |
| OverviewPage.ComparatorAntisymmetric | app/coordinator/overview/page.tsx:151-173 | Swapping two events negates the comparator, in either direction and for every field |
| OverviewPage.ComparatorTransitive | app/coordinator/overview/page.tsx:151-173 | The comparator is transitive, so the sort is well defined |
| OverviewPage.Insert | app/coordinator/overview/page.tsx:151-173 | Inserting into a sorted list adds exactly that event and keeps it sorted |
| OverviewPage.SortedEvents | app/coordinator/overview/page.tsx:151-173 | The sorted events are a rearrangement of the filtered ones, ordered by the chosen field and direction |
| OverviewPage.InsertKeepsTieOrder | app/coordinator/overview/page.tsx:151-173 | Inserting an event into a sorted list passes over no event that ties with it, so the events tied on the sort field stay in the order they have with the new one in front |
| OverviewPage.SortedEventsStable | app/coordinator/overview/page.tsx:151-173 | The sort is stable, as `Array.prototype.sort` must be: the events that compare equal on the chosen field appear in the same order as in the filtered list |
| Common.Reverse | app/coordinator/overview/page.tsx:172 | The list read backwards: the k-th element is the k-th from the end |
| OverviewPage.DescendingIsReversedAscending | app/coordinator/overview/page.tsx:172 | A list is sorted descending exactly when its reverse is sorted ascending |
| OverviewPage.Fetch | app/coordinator/overview/page.tsx:86-110 | A request is made exactly when the event is not cached, and the team expansions are untouched |
| OverviewPage.CachedOnlyToggles | app/coordinator/overview/page.tsx:86-110 | A cached event only flips its expansion; an uncached one is cached and expanded on success, and a failure changes neither the cache nor the expansion |
| OverviewPage.SecondClickCollapses | app/coordinator/overview/page.tsx:86-91 | Clicking an event opened by a fetch again closes it without a second request |
| OverviewPage.TeamKeysDistinct | app/coordinator/overview/page.tsx:454 | With event ids free of '-', different events or teams never share a toggle key |
| OverviewPage.TeamKeysCanCollide | app/coordinator/overview/page.tsx:454 | An event id containing '-' can make two different toggle keys equal |
| OverviewPage.ToggleIsPerEvent | app/coordinator/overview/page.tsx:112-122 | Toggling one event's team leaves every other event's teams as they were |
| OverviewPage.Overview.constructor | app/coordinator/overview/page.tsx:60-61 | Nothing is cached, expanded or loading at first |
| OverviewPage.Overview.FetchEventParticipants | app/coordinator/overview/page.tsx:86-110 | The new state and the request flag are those of `Fetch` |
| OverviewPage.Overview.ToggleTeam | app/coordinator/overview/page.tsx:112-122 | The team set becomes `Toggled` of the old one; nothing else changes |
| Countdown.JsRem | src/components/Countdown.jsx:23-25 | JavaScript's `%`: Dafny's remainder for a non-negative left operand, and always strictly between -b and b |
| Countdown.PartsBounds | src/components/Countdown.jsx:22-25 | For a non-negative distance the days are non-negative, the hours below 24, and the minutes and seconds below 60 |
| Countdown.PartsRecompose | src/components/Countdown.jsx:22-25 | Days, hours, minutes and seconds add back up to the distance less its milliseconds |
| Countdown.SplitCompose | src/components/Countdown.jsx:22-25 | Splitting inverts composing: a clock-bounded time plus fewer than 1000 ms splits back into the same parts |
| Countdown.DivRemUnique | src/components/Countdown.jsx:22-25 | Quotient and remainder are determined by the division identity |
| Countdown.Tick | src/components/Countdown.jsx:16-28 | After the launch a tick keeps the state; before it, the new parts are clock-bounded and compose to the distance less its milliseconds |
| Countdown.StaysAfterLaunch | src/components/Countdown.jsx:20-31 | Once the distance is no longer positive every further tick leaves the state shown |
| Countdown.PadStart | script.js:542-545 | Two or more characters stay as they are; a shorter text is padded on the left with '0' to length 2 |
| Countdown.FormatNumber | src/components/Countdown.jsx:36 | At least two characters, exactly two below 100, all digits for a non-negative number |
| Countdown.FormatKeepsValue | src/components/Countdown.jsx:36 | The padded digits read back as the number |
| Countdown.LeadingZero | src/components/Countdown.jsx:36 | A leading zero does not change the value read |
| Countdown.Display | script.js:525-553 | After the launch every field shows "00"; before it, each shows its padded part |
| Countdown.DisplayReadsBack | script.js:532-545 | Before the launch hours, minutes and seconds show two digits, and every field reads back as its clock part |
| Countdown.Counter.constructor | script.js:536-539 | The counter elements start empty |
| Countdown.Counter.UpdateCountdown | script.js:525-553 | The four elements hold `Display` of the distance |
| Notify.ValidEmailIffPattern | script.js:572-573 | The direct test (no white space, one '@' not first, a '.' with a character on either side after it) accepts exactly what `/^[^\s@]+@[^\s@]+\.[^\s@]+$/` matches |
| Notify.PatternIsValid | src/components/NotifyForm.jsx:15-16 | Every address the pattern matches passes the direct test |
| Notify.ValidIsPattern | src/components/NotifyForm.jsx:15-16 | Every address that passes the direct test matches the pattern |
| Notify.FirstIndexAt | src/components/NotifyForm.jsx:15-16 | The first '@' is found where it is |
| Notify.Subscribe | src/components/NotifyForm.jsx:29-34 | The address is listed afterwards, nothing else is added, earlier entries keep their places, and the list grows by one exactly when the address was new |
| Notify.SubscribeKeepsDistinct | src/components/NotifyForm.jsx:29-34 | A duplicate-free list stays duplicate-free |
| Notify.SubscribeIdempotent | src/components/NotifyForm.jsx:29-31 | Subscribing an address twice equals subscribing it once |
| Notify.Encode | src/components/NotifyForm.jsx:34 | The stored array holds the addresses as strings, in order |
| Notify.StoredListReadsBack | src/components/NotifyForm.jsx:27-34 | The text stored in local storage parses back to the list written |
| Notify.Submitted | src/components/NotifyForm.jsx:11-22 | A malformed address only sets the error message and schedules nothing; a valid one sets the form to submitting and schedules itself |
| Notify.Delivered | src/components/NotifyForm.jsx:25-40 | The list becomes `Subscribe` of the old one and submitting ends; a listed address only changes the message, and a new one clears the field and reports success |
| Notify.SubmitThenDeliver | src/components/NotifyForm.jsx:11-47 | A malformed address never reaches the list; a valid one is listed once afterwards, the list stays duplicate-free, and the form is no longer submitting |
| Notify.NotifyForm.constructor | src/components/NotifyForm.jsx:6-9 | The form starts empty and idle, over the stored list |
| Notify.NotifyForm.HandleSubmit | src/components/NotifyForm.jsx:11-22 | The new form state and the scheduled address are those of `Submitted` |
| Notify.NotifyForm.Deliver | src/components/NotifyForm.jsx:25-40 | The new form state is `Delivered` of the old one |
| Notify.NotifyForm.ClearMessage | src/components/NotifyForm.jsx:43-46 | Only the message and its type are cleared |
| Notify.PageSubmitted | script.js:562-581 | A malformed address only shows the error and schedules nothing; a valid one disables the button and schedules itself |
| Notify.PageDelivered | script.js:584-600 | The list becomes `Subscribe` of the old one and the button is re-enabled as "NOTIFY ME"; only a new address clears the input and shows success |
| Notify.PageAgreesWithForm | script.js:572-597 | The static page and the React form accept the same addresses and store the same lists |
| Notify.NotifySection.constructor | script.js:560-568 | The section starts with an empty input and message and an enabled "NOTIFY ME" button |
| Notify.NotifySection.Submit | script.js:562-581 | The new page state and the scheduled address are those of `PageSubmitted` |
| Notify.NotifySection.Deliver | script.js:584-600 | The new page state is `PageDelivered` of the old one |
| Notify.NotifySection.ClearMessage | script.js:603-606 | Only the message text and its class are reset |

## Left out

- Network and store clients: the Appwrite and Firebase clients are replaced by sequences of documents. How the stores are wired up (`lib/appwrite/backend.ts`, `firebase.js`) is not part of this model.
- Store failures: a read that finds no document (an unknown ticket, event or user) becomes the handler's explicit error branch. Failing writes are modelled only for the winners update (`Winners.Save`'s `writeOk`) and for closing an event (`CloseTicket.Close`'s `fault`).
- Register.Post, Generate.Post, UpdateEvent.Post, ProfileUpdate.Post, MarkAttendance.Post and MarkAttendence.Post: their writes always succeed. A write that throws would answer 500; for issuance it could also leave a ticket without all of its placeholders or user links.
- Page size: the listing calls the handlers make without `Query.limit` are taken to return every matching document, although Appwrite's default page size would cut them short. The explicit limits (100 events, 1000 tickets, 2000 attendance records, 500 per event, batches of 100, a fallback scan of 1000 users) are modelled as truncation.
- Hashing and crypto: bcrypt hashing and verification, `crypto.randomUUID` and `ID.unique` are parameters. Their properties are not modelled.
- The e-mail check of the schema library: it is a parameter. The texts of the library's type errors are not modelled; only the schema's own messages are.
- Clocks and timers: the clock is a parameter. The rate limiter's 30-minute `setInterval`, the countdown's one-second interval, and the 1.5-second and 5-second `setTimeout`s of the sign-up form are separate methods or functions that the caller runs in order.
- Concurrency: the `Promise.all` fan-outs of generate and scan run one request after another in list order. For close-ticket only the set of ticket updates that took effect matters, and a failed cascade may leave any subset. Races between a check and the write that follows it are not modelled.
- Validation errors: the installed version of the schema library decides whether a refused parse's error carries the `errors` alias of its issue list. The model takes this as the parameter `exposesErrors` (`Schemas.Refused`). Register and student login read the alias with optional chaining and fall back to "Validation Error". The four ticket routes (close-ticket, mark-attendance, scan, generate) read `errors[0]` directly, so without the alias they throw and answer their catch's 500.
- FetchEvent: the fetchers build each secondary-store result as `{ $id: doc.id, ...data }`, so a `$id` field stored inside a document's data would replace the document key. Stored documents are taken to carry no such field, and every result's id is the document key. The same holds for FetchTicket, FetchTicketsForEvent, FetchAttendanceForEvent and FetchUsers.
- LegacyServer.Login and LegacyServer.TicketMatch: the password test compares values structurally, whereas `!==` compares arrays and objects by reference, so in the source an array or object password never matches. The first match follows the order of the sequence; Firestore returns query results ordered by document id, so the sequence is taken to be in that order.
- Exception texts: replies that carry `err.message` or `error.message` carry an empty or fixed message, and console logging is left out.
- Unreachable branches: student login's "total > 0 but no documents" 500 cannot arise, because a listing's total is its length. The participants route's `!eventDoc` 404 cannot arise either, because a missing document throws and gives 500. Neither branch is modelled.
- Legacy server wiring: its 500 replies for store exceptions are left out, and so is the fact that `firebase.js` exports no `db`. The handlers' intended logic is modelled over the store class.
- Numbers: they are unbounded integers. `parseInt` beyond 2^53, fractional values and floating point are not modelled; NaN is `None`.
- Ordering.Less and Ordering.LocaleCompare: strings are compared in code-point order. The default sort compares UTF-16 code units instead; the two differ when a character above U+FFFF meets one in U+E000..U+FFFF at the first difference. The locale collation of `localeCompare` is not modelled either.
- Strings: a string is a sequence of Unicode characters. `.length` is counted in UTF-16 code units where a handler's result depends on it (the schema minimums and the dashboard's scalar ids); `trim`, `parseInt` and `\s` use the full JavaScript white-space set. Other positions (`split`, indexing) count characters, which agrees with JavaScript only below U+10000.
- Query values: `Query.equal` with an array matches any of its items, as `Entities.EqualMatches` states. A value of another type than the stored attribute is taken to match nothing, and a query with no values (an empty array) is taken to be refused by the store, so it answers 500; the store's exact behaviour for these two cases is not part of this model.
- Document ids in request paths: the store client puts `String(id)` into the path (`Json.ToText`). The special `$` patterns of `String.prototype.replace` inside that text, and characters that change the URL, are not modelled.
- AllEvents.Get: `$createdAt` is modelled by the position in the collection, which is kept oldest first; documents created in the same millisecond, which the store may order either way, are not distinguished.
- Case conversion: `toLowerCase` lower-cases ASCII letters only.
- Team-name keys: team names that clash with `Object.prototype` members (such as "constructor") are not modelled; the grouping accumulator is treated as a plain map.
- Unreported set: the all-events route builds a set of all student ids that it never reports, and the model leaves it out.
- Pages and DOM: rendering, animation, the QR camera scanner, the login form pages and the DOM null checks of `script.js` are left out. Cookies are recorded by which ones a handler sets or deletes, not by their attributes. HTTP headers such as `Cache-Control` are left out.
- Other routes: logout, debug and test-backend are not modelled, nor are the Firebase and Appwrite connection tests.
- Json.Parse: its own contract states only that accepted text is non-empty. Its meaning comes from `Json.ParseStringify`, which covers exactly the text `JSON.stringify` produces, the only text the routes store. The model's parser refuses fractions and exponents, because numbers are integers here. For other text it is not proved to agree with `JSON.parse`.
