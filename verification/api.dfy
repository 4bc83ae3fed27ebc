/**
 * The REST endpoint `POST exobooking/v1/bookings`: the booking decision made
 * inside one database transaction that holds the slot's row lock.
 */
module Api {
  import opened Common
  import opened Php
  import opened Database

  /** The request body after `intval` and sanitisation. */
  datatype Request = Request(
    passeioId: int,
    customerName: string,
    customerEmail: string,
    bookingDate: string,
    quantity: Param)
  {
    /** The slot the request is looked up by: the raw date string, not a normalised date. */
    function Key(): SlotKey {
      SlotKey(passeioId, bookingDate)
    }
  }

  /**
   * Which statements inside the transaction the database fails: the locked
   * read (a lock-wait timeout or a deadlock, after which `get_row` returns
   * null), the decrement, or the booking insert.
   */
  datatype Faults = Faults(selectFails: bool, updateFails: bool, insertFails: bool)

  const NoFaults := Faults(false, false, false)

  datatype FailedWrite = DecrementFailed | InsertFailed

  datatype Rejection =
    | InvalidDate
    | NotFound
    | NoAvailability(available: int)
    | DbError(write: FailedWrite)

  datatype Response = Booked(bookingId: nat, remaining: int) | Rejected(reason: Rejection)

  /** The WP_Error code of a rejection. */
  function ErrorCode(r: Rejection): string {
    match r
    case InvalidDate => "invalid_date"
    case NotFound => "not_found"
    case NoAvailability(_) => "no_availability"
    case DbError(_) => "db_error"
  }

  /** Each WP_Error code goes with exactly one HTTP status. */
  lemma ErrorCodesByStatus(r: Rejection)
    ensures ErrorCode(r) == "invalid_date" <==> HttpStatus(Rejected(r)) == 400
    ensures ErrorCode(r) == "not_found" <==> HttpStatus(Rejected(r)) == 404
    ensures ErrorCode(r) == "no_availability" <==> HttpStatus(Rejected(r)) == 409
    ensures ErrorCode(r) == "db_error" <==> HttpStatus(Rejected(r)) == 500
  {
  }

  /** The HTTP status the response is sent with. */
  function HttpStatus(r: Response): int {
    match r
    case Booked(_, _) => 200
    case Rejected(InvalidDate) => 400
    case Rejected(NotFound) => 404
    case Rejected(NoAvailability(_)) => 409
    case Rejected(DbError(_)) => 500
  }

  /** The quantity the route hands over: its declared default of 1 when the field is missing. */
  function QuantityField(p: Param): int {
    if p.Absent? then 1 else IntVal(p)
  }

  /** The quantity actually booked: the field's `intval`, raised to 1 when it is below 1. */
  function EffectiveQuantity(p: Param): (q: int)
    ensures q >= 1
    ensures p.Numeric? && p.n >= 1 ==> q == p.n
    ensures p.Numeric? && p.n < 1 ==> q == 1
    ensures p.NonNumeric? || p.Absent? ==> q == 1
  {
    var q := QuantityField(p);
    if q < 1 then 1 else q
  }

  /**
   * A transaction: the state at START TRANSACTION and the writes made since.
   * Only COMMIT makes the pending state the store; ROLLBACK restores the snapshot.
   */
  datatype Txn = Txn(snapshot: Store, pending: Store)

  function Begin(s: Store): Txn {
    Txn(s, s)
  }

  function Rollback(t: Txn): Store {
    t.snapshot
  }

  function Commit(t: Txn): Store {
    t.pending
  }

  /** The UPDATE of one slot's available count inside the transaction. */
  function SetAvailable(t: Txn, key: SlotKey, available: int): Txn
    requires key in t.pending.inventory
  {
    var row := t.pending.inventory[key];
    t.(pending := t.pending.(inventory := t.pending.inventory[key := row.(available := available)]))
  }

  /** The INSERT of a confirmed booking inside the transaction. */
  function AppendConfirmed(t: Txn, req: Request, quantity: int): Txn {
    var ledger := InsertBooking(t.pending.bookings, req.passeioId, req.customerName,
                                req.customerEmail, req.bookingDate, Some(quantity), Some(Confirmed));
    t.(pending := t.pending.(bookings := ledger))
  }

  datatype Outcome = Outcome(response: Response, store: Store)

  /**
   * One booking request, from input validation to COMMIT or ROLLBACK. The row
   * lock serialises requests for one key, so the transaction is one step.
   */
  function CreateBooking(s: Store, req: Request, faults: Faults): (out: Outcome)
    ensures out.response.Rejected? ==> out.store == s
    ensures HttpStatus(out.response) == 400 <==> !ParsesAsYmd(req.bookingDate)
    ensures HttpStatus(out.response) == 404 <==>
      ParsesAsYmd(req.bookingDate) && (req.Key() !in s.inventory || faults.selectFails)
    ensures HttpStatus(out.response) == 409 <==>
      && ParsesAsYmd(req.bookingDate) && req.Key() in s.inventory && !faults.selectFails
      && s.inventory[req.Key()].available < EffectiveQuantity(req.quantity)
    ensures out.response.Rejected? && out.response.reason.NoAvailability? ==>
      out.response.reason.available == s.inventory[req.Key()].available
    ensures HttpStatus(out.response) == 500 <==>
      && ParsesAsYmd(req.bookingDate) && req.Key() in s.inventory && !faults.selectFails
      && s.inventory[req.Key()].available >= EffectiveQuantity(req.quantity)
      && (faults.updateFails || faults.insertFails)
    ensures out.response == Rejected(DbError(DecrementFailed)) ==> faults.updateFails
    ensures out.response == Rejected(DbError(InsertFailed)) ==> !faults.updateFails && faults.insertFails
    ensures out.response.Booked? <==>
      && ParsesAsYmd(req.bookingDate) && req.Key() in s.inventory && !faults.selectFails
      && s.inventory[req.Key()].available >= EffectiveQuantity(req.quantity)
      && !faults.updateFails && !faults.insertFails
    ensures out.response.Booked? ==>
      var key := req.Key();
      var q := EffectiveQuantity(req.quantity);
      && 0 <= out.response.remaining == s.inventory[key].available - q
      && out.store.inventory == s.inventory[key := Slot(s.inventory[key].total, out.response.remaining)]
      && |out.store.bookings| == |s.bookings| + 1
      && out.store.bookings[..|s.bookings|] == s.bookings
      && out.store.bookings[|s.bookings|] ==
         Booking(out.response.bookingId, req.passeioId, req.customerName, req.customerEmail,
                 req.bookingDate, q, Confirmed)
      && out.response.bookingId == |s.bookings| + 1
  {
    var q := EffectiveQuantity(req.quantity);
    if !ParsesAsYmd(req.bookingDate) then Outcome(Rejected(InvalidDate), s)
    else
      var t := Begin(s);
      var key := req.Key();
      if key !in t.pending.inventory || faults.selectFails then Outcome(Rejected(NotFound), Rollback(t))
      else
        var row := t.pending.inventory[key];
        if row.available < q then Outcome(Rejected(NoAvailability(row.available)), Rollback(t))
        else if faults.updateFails then Outcome(Rejected(DbError(DecrementFailed)), Rollback(t))
        else
          var t1 := SetAvailable(t, key, row.available - q);
          if faults.insertFails then Outcome(Rejected(DbError(InsertFailed)), Rollback(t1))
          else
            var t2 := AppendConfirmed(t1, req, q);
            var ledger := t2.pending.bookings;
            Outcome(Booked(ledger[|ledger| - 1].id, row.available - q), Commit(t2))
  }

  /**
   * A 400, 404 or 409 leaves the store as it was, so a retry whose locked read
   * succeeds is rejected again in the same way, whatever writes would fail.
   */
  lemma RetryAfterRejection(s: Store, req: Request, faults: Faults, retryFaults: Faults)
    requires CreateBooking(s, req, faults).response.Rejected?
    requires !CreateBooking(s, req, faults).response.reason.DbError?
    requires !faults.selectFails && !retryFaults.selectFails
    ensures CreateBooking(CreateBooking(s, req, faults).store, req, retryFaults) == CreateBooking(s, req, faults)
  {
  }

  /**
   * Whatever the request and the storage failures, the capacity reserved in
   * the ledger on any slot grows by exactly what its available count loses,
   * and the total is untouched.
   */
  lemma BookingMovesCapacity(s: Store, req: Request, faults: Faults, key: SlotKey)
    requires key in s.inventory
    ensures var s' := CreateBooking(s, req, faults).store;
      && key in s'.inventory
      && s'.inventory[key].total == s.inventory[key].total
      && Reserved(s'.bookings, key) - Reserved(s.bookings, key)
         == s.inventory[key].available - s'.inventory[key].available
  {
    var out := CreateBooking(s, req, faults);
    if out.response.Booked? {
      ReservedAppend(s.bookings, out.store.bookings[|s.bookings|], key);
      assert out.store.bookings == s.bookings + [out.store.bookings[|s.bookings|]];
    }
  }

  /** A booking never leaves a slot with a negative available count. */
  lemma BookingKeepsAvailableNonNegative(s: Store, req: Request, faults: Faults, key: SlotKey)
    requires key in s.inventory && s.inventory[key].available >= 0
    ensures var s' := CreateBooking(s, req, faults).store;
      key in s'.inventory && s'.inventory[key].available >= 0
  {
  }

  /** Every booking request, accepted or not, keeps the capacity invariant. */
  lemma BookingKeepsConsistent(s: Store, req: Request, faults: Faults)
    requires Consistent(s)
    ensures Consistent(CreateBooking(s, req, faults).store)
  {
    var out := CreateBooking(s, req, faults);
    if out.response.Booked? {
      var s' := out.store;
      forall k | k in s'.inventory
        ensures SlotConsistent(s', k)
      {
        BookingMovesCapacity(s, req, faults, k);
      }
      forall i | 0 <= i < |s'.bookings|
        ensures s'.bookings[i].Key() in s'.inventory && s'.bookings[i].quantity >= 1
      {
        if i < |s.bookings| {
          assert s'.bookings[i] == s.bookings[i];
        }
      }
      assert WellNumbered(s'.bookings) by {
        forall i | 0 <= i < |s'.bookings|
          ensures s'.bookings[i].id == i + 1
        {
          if i < |s.bookings| {
            assert s'.bookings[i] == s.bookings[i];
          }
        }
      }
    }
  }

  /** The id returned to a booked request is not the id of any earlier booking. */
  lemma BookingIdIsFresh(s: Store, req: Request, faults: Faults)
    requires WellNumbered(s.bookings)
    requires CreateBooking(s, req, faults).response.Booked?
    ensures forall i :: 0 <= i < |s.bookings| ==>
      s.bookings[i].id != CreateBooking(s, req, faults).response.bookingId
  {
  }
}
