# Booking conflict rule of a travel-booking server

This project models the booking store of a small travel-booking REST server
(`index.js`) and proves properties of it in Dafny. The model covers three
endpoints:

- `POST /api/bookings` creates a booking. Before saving, it asks the database
  whether the same user already has a trip matching one of three patterns.
  Each pattern looks at the existing trip's start and end against the
  requested `[start, end]`:
  1. the existing trip starts in `[start, end)`;
  2. it ends in `(start, end]`;
  3. it covers `[start, end]`.
- `GET /api/bookings/:userId` lists a user's bookings by ascending start date.
- `DELETE /api/bookings/:id` cancels a booking by identifier.

The store is an immutable sequence of `Booking` records together with the
identifier to hand out next. Dates are whole day numbers, and a trip's end
day is `start + duration`.

Modules:
- `Bookings` (`bookings.dfy`): the booking record and the end-date arithmetic.
- `Conflict` (`conflict.dfy`): the three patterns, half-open overlap, and how the two relate.
- `BookingStore` (`store.dfy`): creation, cancellation, the store invariant, and sequences of requests.
- `Listing` (`listing.dfy`): a user's bookings in start order.
- `Scenarios` (`scenarios.dfy`): concrete boundary cases.

**Touching trips are accepted.** A trip that starts on the day another trip
ends is accepted: [1, 5] followed by [5, 9] matches none of the three
patterns at index.js:163-165, so the rule is not an inclusive-range rule
(`TouchingIsNoConflict`, `Scenarios.BackToBackTripsAccepted`). The invariant
the store keeps is therefore stated with half-open ranges: for each user, no
two trips `[s1, e1)` and `[s2, e2)` overlap.

Two facts about the rule are proved:
- Half-open overlap always trips one of the three patterns, whatever the
  durations. So creation keeps the invariant without any assumption.
- The converse needs both trips to last at least one day. Zero-day and
  negative-duration bookings are not rejected anywhere. With them, the
  patterns refuse requests that do not overlap any trip. Lemmas in
  `Conflict` give concrete inputs for this.

## Model

| member | source | states |
|---|---|---|
| Conflict.AnyConflict | index.js:160-167 | the query finds a booking exactly when some booking of the same user matches one of the three patterns; the tour is not consulted |
| Conflict.OverlapIsConflict | index.js:163-165 | any existing trip overlapping the request as a half-open range matches one of the three patterns, for all durations |
| Conflict.ConflictIffOverlap | index.js:163-165 | when both trips last at least one day, the three patterns hold exactly when the half-open ranges overlap |
| Conflict.TouchingIsNoConflict | index.js:163-165 | a request starting on an existing trip's end day, or ending on its start day, matches no pattern (both trips at least one day long) |
| Conflict.ZeroDayBookingBlocksWithoutOverlap | index.js:163 | a zero-day booking on day 5 blocks [5, 9] through the first pattern although the ranges do not overlap |
| Conflict.ZeroDayRequestOnEndDayConflicts | index.js:165 | a zero-day request on the end day of [1, 5] is refused by the covering pattern, while [5, 9] is accepted |
| Conflict.NegativeRequestCoveredWithoutOverlap | index.js:158-165 | a negative-duration request [8, 3] is refused by the covering pattern alone, with no half-open overlap |
| BookingStore.CreateBooking | index.js:151-185 | conflict exactly when a same-user booking matches a pattern, and then the store is unchanged; otherwise exactly one booking is appended with the next id, the given user, tour, title and image, start = requested start, end - start = duration, totalPrice = price, status "Confirmed", and every earlier booking is unchanged |
| BookingStore.CancelBooking | index.js:204-207 | the store keeps exactly the bookings whose id differs from the cancelled one; the call always succeeds |
| BookingStore.OnlySameUserBlocks | index.js:160-167 | two stores holding the same bookings for the user give the same answer, whatever the other users' bookings and whichever tour is requested |
| BookingStore.FirstBookingConfirmed | index.js:160-186 | a user with no saved bookings is never refused |
| BookingStore.ConflictExactlyOnOverlap | index.js:160-173 | when every saved trip and the request last at least one day, the request is refused exactly when it overlaps one of the user's trips as half-open ranges |
| BookingStore.ConfirmedNeverOverlaps | index.js:160-185 | a confirmed request overlaps none of the user's existing trips, for all durations |
| BookingStore.CreatePreservesValid | index.js:151-185 | creation keeps booking ids unique and below the counter, and keeps each user's trips pairwise non-overlapping |
| BookingStore.CreatePreservesPositive | index.js:156-158 | a request of at least one day keeps every saved trip at least one day long |
| BookingStore.CancelMissingIsNoop | index.js:204-207 | cancelling an id that is not saved leaves the store unchanged |
| BookingStore.CancelIdempotent | index.js:204-207 | cancelling twice gives the same store as cancelling once |
| BookingStore.CancelRemovesExactlyOne | index.js:205 | in a valid store, cancelling a saved id removes exactly one booking |
| BookingStore.CancelPreservesValid | index.js:204-207 | cancellation keeps the store invariant |
| BookingStore.RunPreservesValid | index.js:151-207 | any sequence of create and cancel requests, served one at a time, keeps the store invariant |
| BookingStore.ReachableStoresValid | index.js:151-207 | every store reached from the empty store satisfies the invariant: no user ever holds two overlapping trips |
| Listing.ForUser | index.js:195 | the result holds exactly the stored bookings of the user, each as many times as it is stored, and is no longer than the store |
| Listing.InsertByStart | index.js:195-197 | inserting into a start-ordered list gives a start-ordered list with exactly one more occurrence of the inserted booking |
| Listing.SortByStart | index.js:195-197 | the result is ordered by non-decreasing start and is a permutation of its input |
| Listing.ListBookings | index.js:193-202 | the listing is ordered by non-decreasing start and is a permutation of the user's bookings; a booking is listed exactly when it is stored and belongs to the user |
| Listing.SortOfSortedIsIdentity | index.js:195-197 | a list already in start order is returned unchanged |
| Listing.ConfirmedIsListed | index.js:185-197 | a newly confirmed booking appears in its user's listing |
| Listing.CancelledIsNotListed | index.js:195-205 | after a cancellation, no listed booking carries the cancelled id |
| Scenarios.BackToBackTripsAccepted | index.js:163-165 | with [1, 5] saved, the same user's request for [5, 9] is confirmed |
| Scenarios.NestedTripRefused | index.js:165 | with [1, 10] saved, the same user's request for [3, 6] is refused |
| Scenarios.OtherUserSameDatesAccepted | index.js:161 | another user may book the very same dates |
| Scenarios.SevenDayTripEndDate | index.js:156-158 | a seven-day trip from 1 June 2024 (day 153) ends on 8 June (day 160) with status "Confirmed" |
| Scenarios.ThreeTripsCreated | index.js:151-185 | three creation requests of one user starting 5 March, 1 January and 10 February, served from the empty store, are all confirmed and saved in that order |
| Scenarios.ListOrderedByStart | index.js:151-197 | trips created in the order 5 March, 1 January, 10 February are listed as 1 January, 10 February, 5 March |

## Left out

- HTTP plumbing: Express, CORS, JSON parsing, `app.listen`, response bodies and status codes (index.js:1-22, 570). Only the confirmed/conflict outcome is modelled; the 500 error paths (index.js:187-190, 199-201) are not.
- MongoDB connection and model registry (index.js:24-29, 64-65). They are replaced by the in-memory `Store`.
- Storage-assigned identifiers. ObjectIds are modelled as a counter (`Store.nextId`). A malformed id string in the cancel request, which makes the database cast fail, is not modelled.
- The clock. The `createdAt` default (`Date.now`) becomes the parameter `now`.
- JavaScript `Date` semantics: month rollover of `setDate`, time zones, daylight saving, the time of day, invalid dates and a `NaN` from `parseInt` (index.js:156-158). Dates are whole day numbers and the duration is an integer.
- Floating-point prices. `price` is an integer.
- The non-atomic gap between the conflict query and the save (index.js:160, 185). Creation is one sequential step, so the race that can admit two overlapping trips is outside the model.
- Login, registration, password hashing (index.js:67-112), tour CRUD (index.js:114-149), user profile endpoints (index.js:209-231) and the seed fixture (index.js:233-569). They do not touch the booking store.
- BookingStore.CancelBooking: removes every booking carrying the id, where the database deletes at most one. The two agree whenever ids are unique, and `Valid` guarantees that.
- Listing.SortByStart: the database does not fix an order for equal start dates. The model keeps store order for ties, which is one of the orders the database may return.
