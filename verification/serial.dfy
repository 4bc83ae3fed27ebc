/**
 * Concurrent booking requests as the row lock lets them through: one after
 * the other, in the order they obtain the lock. Any such order is a sequence
 * of calls, and `Run` folds `CreateBooking` over it.
 */
module Serial {
  import opened Php
  import opened Database
  import opened Api

  /** One request together with the storage failures it meets. */
  datatype Call = Call(req: Request, faults: Faults)

  datatype Trace = Trace(responses: seq<Response>, store: Store)

  /** The responses of the calls in lock order, and the store after the last commit. */
  function Run(s: Store, calls: seq<Call>): (out: Trace)
    ensures |out.responses| == |calls|
    decreases |calls|
  {
    if |calls| == 0 then Trace([], s)
    else
      var first := CreateBooking(s, calls[0].req, calls[0].faults);
      var rest := Run(first.store, calls[1..]);
      Trace([first.response] + rest.responses, rest.store)
  }

  /** Number of accepted responses. */
  function CountBooked(rs: seq<Response>): nat
    decreases |rs|
  {
    if |rs| == 0 then 0 else (if rs[0].Booked? then 1 else 0) + CountBooked(rs[1..])
  }

  function Min(a: int, b: int): int {
    if a <= b then a else b
  }

  /**
   * No overbooking, for any requests in any order and any storage failures:
   * the capacity newly reserved in the ledger on a slot is exactly what its
   * available count lost, and the available count stays non-negative, so no
   * more than the initially available capacity is ever booked.
   */
  lemma {:induction false} NoOverbooking(s: Store, calls: seq<Call>, key: SlotKey)
    requires key in s.inventory && s.inventory[key].available >= 0
    ensures var end := Run(s, calls).store;
      && key in end.inventory
      && 0 <= end.inventory[key].available
      && end.inventory[key].total == s.inventory[key].total
      && Reserved(end.bookings, key) - Reserved(s.bookings, key)
         == s.inventory[key].available - end.inventory[key].available
      && Reserved(end.bookings, key) - Reserved(s.bookings, key) <= s.inventory[key].available
    decreases |calls|
  {
    if |calls| > 0 {
      var first := CreateBooking(s, calls[0].req, calls[0].faults);
      BookingMovesCapacity(s, calls[0].req, calls[0].faults, key);
      BookingKeepsAvailableNonNegative(s, calls[0].req, calls[0].faults, key);
      NoOverbooking(first.store, calls[1..], key);
    }
  }

  /** Every request of a run keeps the capacity invariant, so the whole run does. */
  lemma {:induction false} RunKeepsConsistent(s: Store, calls: seq<Call>)
    requires Consistent(s)
    ensures Consistent(Run(s, calls).store)
    decreases |calls|
  {
    if |calls| > 0 {
      BookingKeepsConsistent(s, calls[0].req, calls[0].faults);
      RunKeepsConsistent(CreateBooking(s, calls[0].req, calls[0].faults).store, calls[1..]);
    }
  }

  /** A well-formed request for one place on `key` that meets no storage failure. */
  predicate UnitCall(c: Call, key: SlotKey) {
    && c.req.Key() == key
    && ParsesAsYmd(c.req.bookingDate)
    && EffectiveQuantity(c.req.quantity) == 1
    && c.faults == NoFaults
  }

  /**
   * N single-place requests for a slot with K places available, in any lock
   * order: exactly min(K, N) are booked, the i-th of them reporting K-1-i
   * places remaining, and every later one is refused with 409 reporting 0
   * places available.
   */
  lemma {:induction false} SerialisedUnitBookings(s: Store, calls: seq<Call>, key: SlotKey)
    requires key in s.inventory && s.inventory[key].available >= 0
    requires forall i :: 0 <= i < |calls| ==> UnitCall(calls[i], key)
    ensures var k := s.inventory[key].available;
      var n := |calls|;
      var out := Run(s, calls);
      && CountBooked(out.responses) == Min(k, n)
      && (forall i :: 0 <= i < Min(k, n) ==>
            out.responses[i].Booked? && out.responses[i].remaining == k - 1 - i)
      && (forall i :: Min(k, n) <= i < n ==> out.responses[i] == Rejected(NoAvailability(0)))
      && key in out.store.inventory
      && out.store.inventory[key].available == k - Min(k, n)
    decreases |calls|
  {
    var k := s.inventory[key].available;
    if |calls| > 0 {
      var first := CreateBooking(s, calls[0].req, calls[0].faults);
      var rest := Run(first.store, calls[1..]);
      var out := Run(s, calls);
      assert out.responses == [first.response] + rest.responses;
      assert out.responses[1..] == rest.responses;
      SerialisedUnitBookings(first.store, calls[1..], key);
      if k == 0 {
        assert first.response == Rejected(NoAvailability(0));
      } else {
        assert first.response.Booked? && first.response.remaining == k - 1;
        assert first.store.inventory[key].available == k - 1;
      }
    }
  }

  /**
   * The concurrency harness's scenario: after seeding an empty store, five
   * single-place requests for passeio 1 on 2026-03-20 give three bookings,
   * with 2, 1 and 0 places remaining, and two 409 refusals.
   */
  lemma HarnessScenario(calls: seq<Call>)
    requires |calls| == 5
    requires forall i :: 0 <= i < 5 ==> UnitCall(calls[i], SeedKey)
    ensures var out := Run(SeedTestData(EmptyStore), calls).responses;
      && CountBooked(out) == 3
      && out[0].Booked? && out[0].remaining == 2
      && out[1].Booked? && out[1].remaining == 1
      && out[2].Booked? && out[2].remaining == 0
      && HttpStatus(out[3]) == 409 && HttpStatus(out[4]) == 409
  {
    SerialisedUnitBookings(SeedTestData(EmptyStore), calls, SeedKey);
  }
}
