# ExoBooking core: a verified model of slot reservation

ExoBooking is a WordPress plugin that sells places on tours ("passeios").
Each passeio has an inventory row per date, holding the total number of
places and the number still available. Bookings are appended to a ledger.
This project models that core in Dafny as immutable values and pure
transition functions:

- **Store** (`Database`): the inventory is a map from `(passeio_id, date)` to
  `(total, available)`. The table's unique key makes it a map. The ledger is
  a sequence of bookings. The module also holds the schema defaults, the test
  data seeded on activation, and the capacity invariant `Consistent`: for
  every slot, `0 <= available <= total`, and `total - available` equals the
  sum of the confirmed bookings on it.
- **Booking** (`Api.CreateBooking`): the `POST exobooking/v1/bookings`
  handler. It coerces the quantity, checks the date, then runs one
  transaction (`Txn`: a snapshot plus pending writes). The transaction takes
  the slot's row lock, refuses a missing slot (404) or a short one (409),
  decrements the slot, appends a `confirmed` booking, and commits. The
  `Faults` input says which statements the database fails. A failed locked
  read (lock-wait timeout or deadlock) makes `get_row` return null, so the
  handler answers 404 even for an existing slot. A failed write answers 500.
  Every failure rolls back to the snapshot.
- **Serialised requests** (`Serial`): the row lock lets same-key requests
  through one at a time. Any such order is a sequence of calls, and `Run`
  folds the handler over it. For N single-place requests against K free
  places, exactly `min(K, N)` are booked, with `K-1, K-2, …` remaining. Every
  later request gets 409. For K = 3 and N = 5 this gives three bookings and
  two refusals, as the concurrency harness expects.
- **Listing** (`Listing.ListInventory`): `GET exobooking/v1/inventory`
  returns every slot once, ordered by date ascending.
- **Provisioning** (`MetaBox.Save`): the passeio edit screen's meta box, as
  its class is written; the plugin does not register it yet. Its save is a
  silent no-op unless the nonce, autosave, post type, capability and
  field checks all pass. Otherwise it upserts the slot: an insert sets
  `available = total`, and an update replaces only `total`. The module also
  models the "Reservadas" column, computed as `total - available`.
- **Lifecycle**: activation, provisioning and booking as one state machine.
  With the corrected provisioning `MetaBox.SaveAdjusted`, every reachable
  state keeps the capacity invariant. The plugin's main file
  (exobooking-core.php:16-19) never loads the meta box class, so as shipped
  no provisioning step happens. Activation and booking alone keep the
  invariant even with the save as written, so the overbooking below stays
  latent until the meta box is hooked up.

Where the code and the capacity invariant part ways, the model follows the
code. `MetaBox.Save` replaces only the total of an existing date, as the code
does. The resulting overbooking is logged under "## Findings", next to a
corrected save that keeps the invariant.

## Model

| member | source | states |
|---|---|---|
| Api.EffectiveQuantity | wp-content/plugins/exobooking-core/includes/class-api.php:44-46 | the booked quantity is always at least 1; a numeric quantity of 1 or more passes unchanged; zero, negative or missing quantities become 1, and so would non-numeric text, which the route's integer type check refuses first |
| Api.CreateBooking | wp-content/plugins/exobooking-core/includes/class-api.php:36-143 | 400 exactly when the date does not parse; 404 exactly when no slot exists or the locked read fails; 409 exactly when the read succeeds and fewer places are free than requested, reporting the free count; 500 exactly when a write fails after the checks pass; every rejection leaves inventory and ledger unchanged; on success the slot alone loses exactly the quantity, never going below 0, `remaining` is the new free count, and exactly one confirmed booking with the request's passeio, date, customer and quantity is appended |
| Api.RetryAfterRejection | wp-content/plugins/exobooking-core/includes/class-api.php:74-91 | a 400, 404 or 409 leaves the store unchanged, so a retry whose locked read succeeds gets the same rejection, whatever writes would fail |
| Api.ErrorCodesByStatus | wp-content/plugins/exobooking-core/includes/class-api.php:51-131 | each WP_Error code goes with one status: invalid_date 400, not_found 404, no_availability 409, db_error 500 |
| Api.BookingMovesCapacity | wp-content/plugins/exobooking-core/includes/class-api.php:93-135 | for every slot and any request or failure, the confirmed quantity in the ledger grows by exactly what the slot's available count loses, and its total is unchanged |
| Api.BookingKeepsAvailableNonNegative | wp-content/plugins/exobooking-core/includes/class-api.php:84-100 | a booking never drives any slot's available count below zero |
| Api.BookingKeepsConsistent | wp-content/plugins/exobooking-core/includes/class-api.php:61-135 | every booking request, accepted, refused or rolled back, preserves the capacity invariant |
| Api.BookingIdIsFresh | wp-content/plugins/exobooking-core/includes/class-api.php:137-142 | the booking id in a successful response differs from every earlier booking's id |
| Serial.NoOverbooking | wp-content/plugins/exobooking-core/includes/class-api.php:84-135 | for any requests in any order with any storage failures, the capacity newly confirmed on a slot equals the drop in its available count and never exceeds the places free at the start |
| Serial.RunKeepsConsistent | wp-content/plugins/exobooking-core/includes/class-api.php:61-135 | any sequence of serialised requests preserves the capacity invariant |
| Serial.SerialisedUnitBookings | wp-content/plugins/exobooking-core/includes/class-api.php:84-141 | N single-place requests against K free places: exactly min(K, N) are booked, the i-th with K-1-i remaining; all later ones get 409 reporting 0 free; K-min(K, N) places stay free |
| Serial.HarnessScenario | tests/concurrency-test.php:61-131 | after seeding, five single-place requests for passeio 1 on 2026-03-20 give three bookings with 2, 1 and 0 remaining, then two 409 responses |
| Listing.InsertByDateSorted | wp-content/plugins/exobooking-core/includes/class-api.php:155 | inserting a row into a date-ordered listing keeps it date-ordered |
| Listing.ListInventory | wp-content/plugins/exobooking-core/includes/class-api.php:151-156 | the listing holds every inventory slot exactly once with its current counts, ordered by date ascending |
| Database.InsertSlot | wp-content/plugins/exobooking-core/includes/class-database.php:16-25 | an inventory insert is refused when the (passeio_id, date) key already has a row; otherwise it adds exactly that row, and omitted counts are 0 |
| Database.InsertBooking | wp-content/plugins/exobooking-core/includes/class-database.php:28-40 | a ledger insert appends one row with a fresh id, leaving earlier rows in place; omitted quantity is 1 and omitted status is confirmed |
| Database.SeedTestData | wp-content/plugins/exobooking-core/includes/class-database.php:52-75 | seeding adds passeio 1 on 2026-03-20 with 3 of 3 places free when it is absent; if the row exists, even with other counts, nothing changes; bookings and other slots are untouched |
| Database.SeedIdempotent | wp-content/plugins/exobooking-core/includes/class-database.php:58-63 | seeding twice equals seeding once |
| Database.SeedKeepsConsistent | wp-content/plugins/exobooking-core/includes/class-database.php:57-73 | seeding preserves the capacity invariant |
| MetaBox.Save | wp-content/plugins/exobooking-core/admin/class-meta-box.php:138-194 | inventory unchanged unless nonce, autosave, post type, capability, non-empty date, slots >= 1 and date format all pass; then, for a new (post, date), exactly one slot is inserted with total = available = slots; for an existing one only its total is replaced; no available count ever changes; other slots are untouched |
| MetaBox.SaveIdempotent | wp-content/plugins/exobooking-core/admin/class-meta-box.php:164-193 | saving the same form twice gives the same inventory as saving it once |
| MetaBox.ReservedColumnCountsBookings | wp-content/plugins/exobooking-core/admin/class-meta-box.php:76-77 | while the capacity invariant holds, the reserved column shows exactly the confirmed places, between 0 and the total |
| MetaBox.SaveInsertKeepsConsistent | wp-content/plugins/exobooking-core/admin/class-meta-box.php:181-192 | a save that inserts a new date or changes nothing preserves the capacity invariant |
| MetaBox.SaveUpdateKeepsConsistentIff | wp-content/plugins/exobooking-core/admin/class-meta-box.php:172-180 | a save that updates an existing date preserves the capacity invariant exactly when the new total equals the old one |
| MetaBox.LoweringTotalBreaksInvariant | wp-content/plugins/exobooking-core/admin/class-meta-box.php:172-180 | lowering the seeded date's total from 3 to 1 leaves 3 places free, so the reserved column shows -2 and the invariant breaks |
| MetaBox.SaveAdjusted | wp-content/plugins/exobooking-core/admin/class-meta-box.php:172-180 | corrected update: the available count moves with the total, so the reserved count is kept, and a total below the reserved places is refused |
| MetaBox.SaveAdjustedKeepsConsistent | wp-content/plugins/exobooking-core/admin/class-meta-box.php:164-193 | the corrected save preserves the capacity invariant for every request |
| MetaBox.SaveAdjustedAgreesWhenTotalKept | wp-content/plugins/exobooking-core/admin/class-meta-box.php:164-193 | when the total of an existing date is unchanged and its available count is not negative, as in every state that keeps the capacity invariant, the corrected save and the save as written agree |
| Lifecycle.AdjustedReplayKeepsConsistent | wp-content/plugins/exobooking-core/admin/class-meta-box.php:164-193 | with corrected provisioning, any mix of activations, provisioning and booking requests preserves the capacity invariant, so no slot ever holds more confirmed places than its total |
| Lifecycle.AsWrittenWithoutMetaBoxConsistent | wp-content/plugins/exobooking-core/exobooking-core.php:16-27 | the plugin as shipped loads no meta box, and any mix of activations and booking requests without a provisioning step preserves the capacity invariant, with the save as written |
| Lifecycle.ReachableStatesConsistent | wp-content/plugins/exobooking-core/exobooking-core.php:25-27 | every state reachable from the empty tables satisfies the capacity invariant under corrected provisioning |
| Lifecycle.LoweredTotalIsOverbooked | wp-content/plugins/exobooking-core/admin/class-meta-box.php:172-180 | as written, after lowering the seeded date's total to 1, three single-place requests are all booked: 3 places are confirmed against a total of 1 |
| Lifecycle.AdjustedLoweringKeepsCapacity | wp-content/plugins/exobooking-core/admin/class-meta-box.php:172-180 | with corrected provisioning, the same lowering leaves one place free out of one |

## Findings

| source | as written | input that shows it | evidently intended | confidence | as-written member | corrected member |
|---|---|---|---|---|---|---|
| wp-content/plugins/exobooking-core/admin/class-meta-box.php:172-180 | saving an existing date replaces `total_slots` only, so `available_slots` keeps its old value | seeded slot (1, 2026-03-20) with 3 of 3 free; save 1 place for that date; then three single-place booking requests | the available count moves by the change in total, and a total below the booked places is refused, so `total - available` stays the confirmed count | medium, not executed; latent in the plugin as shipped, whose main file (exobooking-core.php:16-19) never loads the meta box class, so this input needs the meta box to be registered first (the comment at line 173 leaves `available_slots` alone on purpose, but three things in the source show the resulting overbooking is not wanted: the "Reservadas" column at line 77 reads `total_slots - available_slots` as booked places and shows -2; the plugin describes itself as an anti-overbooking system at exobooking-core.php:4; and the note at line 127 sends edits of existing dates to another screen, so this path was not designed as a capacity edit) | Lifecycle.LoweredTotalIsOverbooked | MetaBox.SaveAdjusted |

## Left out

- The real MySQL transaction and row lock are not modelled. The locked block is one atomic step, and concurrency is modelled as every serial order of those steps.
- WordPress plumbing is not modelled: route and hook registration, activation options, rewrite flushing, the custom post type, the admin bookings page, and the meta box's HTML.
- `create_tables` and `dbDelta` are not modelled as operations. Their effect is the shape of `Store`, the uniqueness of keys, and the defaults in `Database.InsertSlot` and `Database.InsertBooking`.
- `sanitize_text_field` and `sanitize_email` are taken as the identity. The route's required-field and type checks are WordPress's and are not modelled.
- `intval` is reduced to `Php.Param`: a number, non-numeric text (read as 0), or a missing field.
- `DateTime::createFromFormat` leniency is not modelled. `Php.ParsesAsYmd` checks the shape `dddd-dd-dd`. The `date` column is a DATE inside the unique key, but MySQL's normalisation of DATE values is not modelled, so a slot is identified by the date string the lookup is given.
- Integer column widths (INT, BIGINT UNSIGNED) are not modelled. Counts are unbounded integers. The form's `max="9999"` is only a browser hint.
- AUTO_INCREMENT is abstracted as "the i-th booking has id i + 1". Ids consumed by rolled-back inserts, `created_at` timestamps, and the listing's `passeio_name` join are not modelled. The slot table's surrogate `id` is replaced by the key.
- Storage failures are inputs only for the locked read and the two writes in the booking transaction. The inserts and updates in `save` and `seed_test_data` ignore their return values, so the model treats them as succeeding.
- Listing.ListInventory: rows that share a date come in no fixed order, as with SQL's ORDER BY on one column.
- The meta box's per-passeio slot table is not modelled beyond its reserved column.
- Cancellation is not modelled: no code sets a booking to `cancelled`. A lock-wait timeout is modelled only by its outcome, a failed locked read; the wait itself is not.
- Api.RetryAfterRejection: promises the same rejection only when both locked reads succeed, because a retry whose read fails answers 404 whatever the first answer was, and a first 404 from a failed read says nothing about the retry.
