/**
 * The two tables the plugin creates on activation and the test data it
 * seeds: the inventory of slots per (passeio, date) and the bookings ledger.
 */
module Database {
  import opened Common

  /** The inventory table's unique key: a passeio and the date string it is looked up by. */
  datatype SlotKey = SlotKey(passeioId: int, date: string)

  /** One inventory row: capacity configured for the day and capacity still free. */
  datatype Slot = Slot(total: int, available: int)

  datatype Status = Confirmed | Cancelled

  /** One row of the bookings table. */
  datatype Booking = Booking(
    id: nat,
    passeioId: int,
    customerName: string,
    customerEmail: string,
    bookingDate: string,
    quantity: int,
    status: Status)
  {
    /** The inventory slot this booking consumed. */
    function Key(): SlotKey {
      SlotKey(passeioId, bookingDate)
    }
  }

  /**
   * The inventory table. The UNIQUE KEY on (passeio_id, date) admits at most
   * one row per key, so the table is a finite map; the surrogate `id` column
   * is left out because the key already identifies the row.
   */
  type Inventory = map<SlotKey, Slot>

  /** Everything the plugin persists. */
  datatype Store = Store(inventory: Inventory, bookings: seq<Booking>)

  const EmptyStore := Store(map[], [])

  datatype InsertError = DuplicateKey

  /**
   * An INSERT into the inventory table. A column left out takes its schema
   * default of 0, and the unique key refuses a second row for the same key.
   */
  function InsertSlot(inv: Inventory, key: SlotKey, total: Option<int>, available: Option<int>)
    : (r: Result<Inventory, InsertError>)
    ensures r.Failure? <==> key in inv
    ensures r.Success? ==> r.value.Keys == inv.Keys + {key}
    ensures r.Success? ==> forall k :: k in inv ==> r.value[k] == inv[k]
    ensures r.Success? && total.None? ==> r.value[key].total == 0
    ensures r.Success? && available.None? ==> r.value[key].available == 0
    ensures r.Success? && total.Some? ==> r.value[key].total == total.value
    ensures r.Success? && available.Some? ==> r.value[key].available == available.value
  {
    if key in inv then Failure(DuplicateKey)
    else Success(inv[key := Slot(total.GetOr(0), available.GetOr(0))])
  }

  /** AUTO_INCREMENT ids: the i-th row of the ledger carries id i + 1. */
  predicate WellNumbered(ledger: seq<Booking>) {
    forall i :: 0 <= i < |ledger| ==> ledger[i].id == i + 1
  }

  /**
   * An INSERT into the bookings table. The new row gets a fresh id; a
   * quantity left out defaults to 1 and a status left out to `confirmed`.
   */
  function InsertBooking(
    ledger: seq<Booking>, passeioId: int, customerName: string, customerEmail: string,
    bookingDate: string, quantity: Option<int>, status: Option<Status>)
    : (r: seq<Booking>)
    ensures |r| == |ledger| + 1 && r[..|ledger|] == ledger
    ensures r[|ledger|].Key() == SlotKey(passeioId, bookingDate)
    ensures r[|ledger|].customerName == customerName && r[|ledger|].customerEmail == customerEmail
    ensures quantity.None? ==> r[|ledger|].quantity == 1
    ensures status.None? ==> r[|ledger|].status == Confirmed
    ensures quantity.Some? ==> r[|ledger|].quantity == quantity.value
    ensures status.Some? ==> r[|ledger|].status == status.value
    ensures WellNumbered(ledger) ==> WellNumbered(r)
    ensures WellNumbered(ledger) ==> forall i :: 0 <= i < |ledger| ==> ledger[i].id != r[|ledger|].id
  {
    var row := Booking(|ledger| + 1, passeioId, customerName, customerEmail, bookingDate,
                       quantity.GetOr(1), status.GetOr(Confirmed));
    ledger + [row]
  }

  /** What one booking contributes to the capacity held on `key`. */
  function Share(b: Booking, key: SlotKey): int {
    if b.status == Confirmed && b.Key() == key then b.quantity else 0
  }

  /** Sum of the quantities of the confirmed bookings on `key`. */
  function Reserved(ledger: seq<Booking>, key: SlotKey): int
    decreases |ledger|
  {
    if |ledger| == 0 then 0
    else Reserved(ledger[..|ledger| - 1], key) + Share(ledger[|ledger| - 1], key)
  }

  lemma ReservedAppend(ledger: seq<Booking>, b: Booking, key: SlotKey)
    ensures Reserved(ledger + [b], key) == Reserved(ledger, key) + Share(b, key)
  {
    assert (ledger + [b])[..|ledger|] == ledger;
  }

  /** A key no booking refers to holds no reserved capacity. */
  lemma {:induction false} ReservedUnreferenced(ledger: seq<Booking>, key: SlotKey)
    requires forall i :: 0 <= i < |ledger| ==> ledger[i].Key() != key
    ensures Reserved(ledger, key) == 0
    decreases |ledger|
  {
    if |ledger| > 0 {
      ReservedUnreferenced(ledger[..|ledger| - 1], key);
    }
  }

  /** The capacity invariant for one slot: counts in range, and the used part is what the ledger holds. */
  predicate SlotConsistent(s: Store, key: SlotKey)
    requires key in s.inventory
  {
    var slot := s.inventory[key];
    && 0 <= slot.available <= slot.total
    && slot.total - slot.available == Reserved(s.bookings, key)
  }

  /**
   * The state the plugin is meant to keep: every slot consistent with the
   * ledger, and every booking a positive quantity on an existing slot.
   */
  predicate Consistent(s: Store) {
    && (forall k :: k in s.inventory ==> SlotConsistent(s, k))
    && (forall i :: 0 <= i < |s.bookings| ==> s.bookings[i].Key() in s.inventory && s.bookings[i].quantity >= 1)
    && WellNumbered(s.bookings)
  }

  lemma EmptyStoreConsistent()
    ensures Consistent(EmptyStore)
  {
  }

  /** The row the test-data seed provisions: passeio 1 on 2026-03-20. */
  const SeedKey := SlotKey(1, "2026-03-20")
  const SeedCapacity := 3

  /** Inserts three slots for passeio 1 on 2026-03-20 unless that row already exists. */
  function SeedTestData(s: Store): (s': Store)
    ensures s'.bookings == s.bookings
    ensures s'.inventory.Keys == s.inventory.Keys + {SeedKey}
    ensures SeedKey in s.inventory ==> s' == s
    ensures SeedKey !in s.inventory ==> s'.inventory[SeedKey] == Slot(SeedCapacity, SeedCapacity)
    ensures forall k :: k in s.inventory ==> s'.inventory[k] == s.inventory[k]
  {
    if SeedKey in s.inventory then s
    else s.(inventory := InsertSlot(s.inventory, SeedKey, Some(SeedCapacity), Some(SeedCapacity)).value)
  }

  /** Seeding twice is seeding once. */
  lemma SeedIdempotent(s: Store)
    ensures SeedTestData(SeedTestData(s)) == SeedTestData(s)
  {
  }

  /** Seeding keeps the capacity invariant: a fresh seed row has no bookings against it. */
  lemma SeedKeepsConsistent(s: Store)
    requires Consistent(s)
    ensures Consistent(SeedTestData(s))
  {
    if SeedKey !in s.inventory {
      ReservedUnreferenced(s.bookings, SeedKey);
    }
  }
}
