/**
 * An in-memory stand-in for the hosted tables the checkout writes to: the
 * bookings it inserts, the promo rows it reads and updates, and the slots
 * whose `available_spots` it only ever reads.
 */
module BookingStore {
  import opened Opt
  import opened Records
  import opened PromoRules

  /**
   * The table after `.update({ current_uses: uses }).eq("id", id)`: every row
   * with that id gets the new count, every other row is left as it was.
   */
  function WithUses(rows: seq<PromoCode>, id: string, uses: int): (r: seq<PromoCode>)
    ensures |r| == |rows|
    ensures forall i :: 0 <= i < |rows| && rows[i].id != id ==> r[i] == rows[i]
    ensures forall i :: 0 <= i < |rows| && rows[i].id == id ==> r[i] == rows[i].(currentUses := Some(uses))
  {
    seq(|rows|, i requires 0 <= i < |rows| => if rows[i].id == id then rows[i].(currentUses := Some(uses)) else rows[i])
  }

  /**
   * The count the checkout writes for an applied promo: the count of the
   * snapshot taken when the promo was applied, plus one; the row's current
   * count is not read again.
   */
  function NextUses(applied: PromoCode): int {
    Uses(applied) + 1
  }

  /**
   * The written count depends only on the snapshot: when the stored row has
   * moved on since the promo was applied (another booking used it), the
   * update sets it back to the snapshot's count plus one, and the uses
   * recorded in between are lost.
   */
  lemma {:induction false} StaleSnapshotLosesUses(rows: seq<PromoCode>, applied: PromoCode, i: int)
    requires 0 <= i < |rows| && rows[i].id == applied.id
    requires Uses(rows[i]) >= Uses(applied) + 1
    ensures Uses(WithUses(rows, applied.id, NextUses(applied))[i]) <= Uses(rows[i])
  {
    var r := WithUses(rows, applied.id, NextUses(applied));
    assert r[i].currentUses == Some(Uses(applied) + 1);
  }

  /** A snapshot that passed the usage check is written back at most at its limit. */
  lemma {:induction false} WrittenUsesWithinLimit(rows: seq<PromoCode>, applied: PromoCode, i: int)
    requires 0 <= i < |rows| && rows[i].id == applied.id
    requires HasUsageLimit(applied) && !LimitReached(applied)
    ensures Uses(WithUses(rows, applied.id, NextUses(applied))[i]) <= applied.maxUses.value
  {
    var r := WithUses(rows, applied.id, NextUses(applied));
    assert r[i].currentUses == Some(Uses(applied) + 1);
  }

  class Store {
    var bookings: seq<Booking>
    var promos: seq<PromoCode>
    var slots: seq<Slot>

    constructor (promos: seq<PromoCode>, slots: seq<Slot>)
      ensures this.bookings == [] && this.promos == promos && this.slots == slots
    {
      this.bookings := [];
      this.promos := promos;
      this.slots := slots;
    }

    /** `.from("bookings").insert(b)`: the new row is appended; nothing else changes. */
    method InsertBooking(b: Booking)
      modifies this`bookings
      ensures bookings == old(bookings) + [b]
    {
      bookings := bookings + [b];
    }

    /** `.from("promo_codes").update({ current_uses: uses }).eq("id", id)`. */
    method SetPromoUses(id: string, uses: int)
      modifies this`promos
      ensures promos == WithUses(old(promos), id, uses)
    {
      promos := WithUses(promos, id, uses);
    }
  }
}
