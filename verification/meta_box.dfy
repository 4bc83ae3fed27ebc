/**
 * The "Disponibilidade de Vagas" meta box on the passeio edit screen: saving
 * it provisions capacity for one date, and its table shows reserved places.
 * The plugin's main file does not load this class, so its save is not yet
 * attached to `save_post`; the model describes it as the class is written.
 */
module MetaBox {
  import opened Common
  import opened Php
  import opened Database

  /**
   * What `save` reads from the request and from WordPress: whether the nonce
   * field was posted and verifies, the autosave flag, the post's type, the
   * editor's `edit_post` capability, and the two form fields.
   */
  datatype SaveRequest = SaveRequest(
    nonceSent: bool,
    nonceVerifies: bool,
    doingAutosave: bool,
    postType: string,
    canEditPost: bool,
    newDate: Option<string>,
    newSlots: Param)
  {
    /** The date field, or "" when it was not posted. */
    function Date(): string {
      newDate.GetOr("")
    }

    /** `intval` of the slots field, 0 when it was not posted. */
    function Slots(): int {
      IntVal(newSlots)
    }
  }

  datatype SkipReason =
    | MissingNonce
    | InvalidNonce
    | Autosave
    | NotPasseio
    | CannotEdit
    | EmptyFields
    | InvalidDate
    | BelowCommitted

  datatype SaveOutcome = Skipped(reason: SkipReason) | Inserted | TotalUpdated

  datatype Saved = Saved(outcome: SaveOutcome, inventory: Inventory)

  /** The first of the checks at the top of `save` that fails, if any. */
  function FirstFailedCheck(req: SaveRequest): Option<SkipReason> {
    if !req.nonceSent then Some(MissingNonce)
    else if !req.nonceVerifies then Some(InvalidNonce)
    else if req.doingAutosave then Some(Autosave)
    else if req.postType != "passeio" then Some(NotPasseio)
    else if !req.canEditPost then Some(CannotEdit)
    else if IsEmpty(req.Date()) || req.Slots() < 1 then Some(EmptyFields)
    else if !ParsesAsYmd(req.Date()) then Some(InvalidDate)
    else None
  }

  /** Every check passes: a posted, verified nonce from a real edit of a passeio, and usable fields. */
  predicate Accepted(req: SaveRequest) {
    && req.nonceSent && req.nonceVerifies
    && !req.doingAutosave
    && req.postType == "passeio"
    && req.canEditPost
    && !IsEmpty(req.Date()) && req.Slots() >= 1
    && ParsesAsYmd(req.Date())
  }

  /**
   * Saving the meta box as the plugin does it: a silent no-op unless every
   * check passes; otherwise an insert of a new slot with all places free,
   * or, when the slot exists, a replacement of its total alone.
   */
  function Save(inv: Inventory, postId: int, req: SaveRequest): (out: Saved)
    ensures out.outcome.Skipped? <==> !Accepted(req)
    ensures out.outcome.Skipped? ==> out.inventory == inv && out.outcome.reason != BelowCommitted
    ensures out.outcome == Inserted <==> Accepted(req) && SlotKey(postId, req.Date()) !in inv
    ensures out.outcome == TotalUpdated <==> Accepted(req) && SlotKey(postId, req.Date()) in inv
    ensures out.outcome == Inserted ==>
      out.inventory == inv[SlotKey(postId, req.Date()) := Slot(req.Slots(), req.Slots())]
    ensures out.outcome == TotalUpdated ==>
      var key := SlotKey(postId, req.Date());
      key in out.inventory && out.inventory[key].total == req.Slots() && out.inventory.Keys == inv.Keys
    ensures forall k :: k in inv ==> k in out.inventory && out.inventory[k].available == inv[k].available
    ensures forall k :: k in inv && k != SlotKey(postId, req.Date()) ==> out.inventory[k] == inv[k]
  {
    var failed := FirstFailedCheck(req);
    if failed.Some? then Saved(Skipped(failed.value), inv)
    else
      var key := SlotKey(postId, req.Date());
      var n := req.Slots();
      if key in inv then Saved(TotalUpdated, inv[key := inv[key].(total := n)])
      else Saved(Inserted, InsertSlot(inv, key, Some(n), Some(n)).value)
  }

  /** Saving the same form twice leaves the inventory as saving it once. */
  lemma SaveIdempotent(inv: Inventory, postId: int, req: SaveRequest)
    ensures Save(Save(inv, postId, req).inventory, postId, req).inventory == Save(inv, postId, req).inventory
  {
  }

  /** The "Reservadas" column of the meta box's table: total places minus available places. */
  function ReservedColumn(slot: Slot): int {
    slot.total - slot.available
  }

  /**
   * While the capacity invariant holds, the reserved column shows the places
   * held by confirmed bookings, and is never negative.
   */
  lemma ReservedColumnCountsBookings(s: Store, key: SlotKey)
    requires Consistent(s) && key in s.inventory
    ensures ReservedColumn(s.inventory[key]) == Reserved(s.bookings, key)
    ensures 0 <= ReservedColumn(s.inventory[key]) <= s.inventory[key].total
  {
  }

  /** Provisioning a new date keeps the capacity invariant: nothing is booked on it yet. */
  lemma SaveInsertKeepsConsistent(s: Store, postId: int, req: SaveRequest)
    requires Consistent(s)
    requires Save(s.inventory, postId, req).outcome != TotalUpdated
    ensures Consistent(s.(inventory := Save(s.inventory, postId, req).inventory))
  {
    var key := SlotKey(postId, req.Date());
    if Save(s.inventory, postId, req).outcome == Inserted {
      ReservedUnreferenced(s.bookings, key);
    }
  }

  /**
   * Changing the total of an existing date keeps the capacity invariant
   * exactly when the new total equals the old one.
   */
  lemma SaveUpdateKeepsConsistentIff(s: Store, postId: int, req: SaveRequest)
    requires Consistent(s)
    requires Save(s.inventory, postId, req).outcome == TotalUpdated
    ensures Consistent(s.(inventory := Save(s.inventory, postId, req).inventory))
        <==> req.Slots() == s.inventory[SlotKey(postId, req.Date())].total
  {
    var key := SlotKey(postId, req.Date());
    var s' := s.(inventory := Save(s.inventory, postId, req).inventory);
    if req.Slots() == s.inventory[key].total {
      assert s'.inventory == s.inventory;
    } else {
      assert !SlotConsistent(s', key);
    }
  }

  /** A save request that passes every check, for `date` with `slots` places. */
  function EditorSave(date: string, slots: int): SaveRequest {
    SaveRequest(true, true, false, "passeio", true, Some(date), Numeric(slots))
  }

  /**
   * As written, lowering the total of the seeded date from 3 to 1 leaves 3
   * places available: the reserved column shows -2 and the capacity
   * invariant is broken before any booking is made.
   */
  lemma LoweringTotalBreaksInvariant()
    ensures var s := SeedTestData(EmptyStore);
      var out := Save(s.inventory, 1, EditorSave("2026-03-20", 1));
      && out.outcome == TotalUpdated
      && out.inventory[SeedKey] == Slot(1, 3)
      && ReservedColumn(out.inventory[SeedKey]) == -2
      && !Consistent(s.(inventory := out.inventory))
  {
    var s := SeedTestData(EmptyStore);
    var out := Save(s.inventory, 1, EditorSave("2026-03-20", 1));
    assert EditorSave("2026-03-20", 1).Date() == "2026-03-20";
    assert ParsesAsYmd("2026-03-20");
    assert !SlotConsistent(s.(inventory := out.inventory), SeedKey);
  }

  /**
   * Saving as the capacity invariant requires: a new total for an existing
   * date moves the available count by the same amount, and a total below the
   * places already booked is refused.
   */
  function SaveAdjusted(inv: Inventory, postId: int, req: SaveRequest): (out: Saved)
    ensures out.outcome.Skipped? ==> out.inventory == inv
    ensures out.outcome.Skipped? && out.outcome.reason != BelowCommitted <==> !Accepted(req)
    ensures out.outcome == TotalUpdated <==>
      var key := SlotKey(postId, req.Date());
      Accepted(req) && key in inv && req.Slots() >= ReservedColumn(inv[key])
    ensures out.outcome == Inserted <==> Save(inv, postId, req).outcome == Inserted
    ensures out.outcome == Inserted ==> out.inventory == Save(inv, postId, req).inventory
    ensures out.outcome == TotalUpdated ==>
      var key := SlotKey(postId, req.Date());
      && key in inv && key in out.inventory
      && out.inventory == inv[key := Slot(req.Slots(), out.inventory[key].available)]
      && ReservedColumn(out.inventory[key]) == ReservedColumn(inv[key])
    ensures out.outcome == Skipped(BelowCommitted) <==>
      var key := SlotKey(postId, req.Date());
      Accepted(req) && key in inv && req.Slots() < ReservedColumn(inv[key])
  {
    var failed := FirstFailedCheck(req);
    if failed.Some? then Saved(Skipped(failed.value), inv)
    else
      var key := SlotKey(postId, req.Date());
      var n := req.Slots();
      if key !in inv then Saved(Inserted, InsertSlot(inv, key, Some(n), Some(n)).value)
      else
        var row := inv[key];
        if n < ReservedColumn(row) then Saved(Skipped(BelowCommitted), inv)
        else Saved(TotalUpdated, inv[key := Slot(n, row.available + (n - row.total))])
  }

  /** The adjusted save keeps the capacity invariant for every request. */
  lemma SaveAdjustedKeepsConsistent(s: Store, postId: int, req: SaveRequest)
    requires Consistent(s)
    ensures Consistent(s.(inventory := SaveAdjusted(s.inventory, postId, req).inventory))
  {
    var out := SaveAdjusted(s.inventory, postId, req);
    var s' := s.(inventory := out.inventory);
    var key := SlotKey(postId, req.Date());
    if out.outcome == Inserted {
      ReservedUnreferenced(s.bookings, key);
    }
    if out.outcome == TotalUpdated {
      assert SlotConsistent(s, key);
      forall k | k in s'.inventory
        ensures SlotConsistent(s', k)
      {
        if k != key {
          assert SlotConsistent(s, k);
        }
      }
    }
  }

  /** Where the plugin's save keeps the invariant, the adjusted save does the same thing. */
  lemma SaveAdjustedAgreesWhenTotalKept(inv: Inventory, postId: int, req: SaveRequest)
    requires var key := SlotKey(postId, req.Date());
      key in inv ==> req.Slots() == inv[key].total && inv[key].available >= 0
    ensures SaveAdjusted(inv, postId, req) == Save(inv, postId, req)
  {
  }
}
