/**
 * The plugin's state over its whole life: activation seeds the test slot,
 * the meta box provisions capacity, and booking requests go through the REST
 * endpoint, one transaction at a time. The plugin's main file never loads
 * the meta box class, so as shipped no `Provision` step happens: the
 * overbooking it allows stays latent until the meta box is hooked up.
 */
module Lifecycle {
  import opened Common
  import opened Php
  import opened Database
  import opened Api
  import opened Serial
  import opened MetaBox

  datatype Op =
    | Activate
    | Provision(postId: int, req: SaveRequest)
    | Book(call: Call)

  /** Which meta-box save provisioning goes through. */
  datatype Provisioning = AsWritten | Adjusted

  function Step(s: Store, op: Op, p: Provisioning): Store {
    match op
    case Activate => SeedTestData(s)
    case Provision(postId, req) =>
      var inv := if p == AsWritten then Save(s.inventory, postId, req).inventory
                 else SaveAdjusted(s.inventory, postId, req).inventory;
      s.(inventory := inv)
    case Book(call) => CreateBooking(s, call.req, call.faults).store
  }

  function Replay(s: Store, ops: seq<Op>, p: Provisioning): Store
    decreases |ops|
  {
    if |ops| == 0 then s else Replay(Step(s, ops[0], p), ops[1..], p)
  }

  /**
   * With adjusted provisioning, every state reachable from the empty store
   * keeps the capacity invariant: for every slot, total minus available is
   * the sum of the confirmed bookings on it, and no slot is overbooked.
   */
  lemma {:induction false} AdjustedReplayKeepsConsistent(s: Store, ops: seq<Op>)
    requires Consistent(s)
    ensures var end := Replay(s, ops, Adjusted);
      && Consistent(end)
      && forall k :: k in end.inventory ==> Reserved(end.bookings, k) <= end.inventory[k].total
    decreases |ops|
  {
    if |ops| > 0 {
      match ops[0] {
        case Activate => SeedKeepsConsistent(s);
        case Provision(postId, req) => SaveAdjustedKeepsConsistent(s, postId, req);
        case Book(call) => BookingKeepsConsistent(s, call.req, call.faults);
      }
      AdjustedReplayKeepsConsistent(Step(s, ops[0], Adjusted), ops[1..]);
    } else {
      forall k | k in s.inventory
        ensures Reserved(s.bookings, k) <= s.inventory[k].total
      {
        assert SlotConsistent(s, k);
      }
    }
  }

  predicate NoProvisioning(ops: seq<Op>) {
    forall i :: 0 <= i < |ops| ==> !ops[i].Provision?
  }

  /**
   * As shipped, with the meta box never registered, activations and booking
   * requests alone keep the capacity invariant, even with the save as written.
   */
  lemma {:induction false} AsWrittenWithoutMetaBoxConsistent(s: Store, ops: seq<Op>)
    requires Consistent(s)
    requires NoProvisioning(ops)
    ensures Consistent(Replay(s, ops, AsWritten))
    decreases |ops|
  {
    if |ops| > 0 {
      match ops[0] {
        case Activate => SeedKeepsConsistent(s);
        case Provision(_, _) => assert false;
        case Book(call) => BookingKeepsConsistent(s, call.req, call.faults);
      }
      assert NoProvisioning(ops[1..]) by {
        forall i | 0 <= i < |ops[1..]|
          ensures !ops[1..][i].Provision?
        {
          assert ops[1..][i] == ops[i + 1];
        }
      }
      AsWrittenWithoutMetaBoxConsistent(Step(s, ops[0], AsWritten), ops[1..]);
    }
  }

  lemma ReachableStatesConsistent(ops: seq<Op>)
    ensures Consistent(Replay(EmptyStore, ops, Adjusted))
  {
    EmptyStoreConsistent();
    AdjustedReplayKeepsConsistent(EmptyStore, ops);
  }

  /**
   * As written, the meta box lets the seeded date be overbooked: after
   * activation, lowering its total from 3 to 1 and then three single-place
   * requests, all three are booked against a total of one place.
   */
  lemma LoweredTotalIsOverbooked(calls: seq<Call>)
    requires |calls| == 3
    requires forall i :: 0 <= i < 3 ==> UnitCall(calls[i], SeedKey)
    ensures var lowered := Step(SeedTestData(EmptyStore), Provision(1, EditorSave("2026-03-20", 1)), AsWritten);
      var out := Run(lowered, calls);
      && CountBooked(out.responses) == 3
      && SeedKey in out.store.inventory
      && out.store.inventory[SeedKey].total == 1
      && Reserved(out.store.bookings, SeedKey) == 3
  {
    LoweringTotalBreaksInvariant();
    var lowered := Step(SeedTestData(EmptyStore), Provision(1, EditorSave("2026-03-20", 1)), AsWritten);
    assert lowered.inventory[SeedKey] == Slot(1, 3);
    assert lowered.bookings == [];
    SerialisedUnitBookings(lowered, calls, SeedKey);
    NoOverbooking(lowered, calls, SeedKey);
  }

  /** With adjusted provisioning the same lowering also lowers the free places, from 3 to 1. */
  lemma AdjustedLoweringKeepsCapacity()
    ensures var s := SeedTestData(EmptyStore);
      var out := SaveAdjusted(s.inventory, 1, EditorSave("2026-03-20", 1));
      && out.outcome == TotalUpdated
      && out.inventory[SeedKey] == Slot(1, 1)
  {
    assert EditorSave("2026-03-20", 1).Date() == "2026-03-20";
    assert ParsesAsYmd("2026-03-20");
  }
}
