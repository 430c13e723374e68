/**
 * The experience page (src/pages/ExperienceDetails.tsx): a strip of
 * fourteen dates, the slots of the selected date, and the "Book Now"
 * button. Dates are day numbers; "today" is given by the caller.
 */
module ExperienceDetails {
  import opened Opt
  import opened Records

  /** How many days the date strip offers. */
  const StripLength := 14

  /** The date strip: today and the thirteen days after it, in order. */
  function DateStrip(today: int): (days: seq<int>)
    ensures |days| == StripLength
    ensures forall i :: 0 <= i < |days| ==> days[i] == today + i
    ensures forall i, j :: 0 <= i < j < |days| ==> days[i] < days[j]
    ensures days[0] == today
  {
    seq(StripLength, i requires 0 <= i => today + i)
  }

  /** Every day of the strip lies within the fourteen days starting today, and each of them is in it. */
  lemma DateStripCoversFortnight(today: int, d: int)
    ensures d in DateStrip(today) <==> today <= d < today + StripLength
  {
    var days := DateStrip(today);
    if today <= d < today + StripLength {
      assert days[d - today] == d;
    }
  }

  /** The slots shown for a date: every row of this experience on that date (their order is the store's). */
  function SlotsOn(slots: seq<Slot>, experienceId: string, date: int): (r: seq<Slot>)
    ensures |r| <= |slots|
    ensures forall s :: s in r <==> s in slots && s.experienceId == experienceId && s.date == date
    ensures forall s :: multiset(r)[s] == if s.experienceId == experienceId && s.date == date then multiset(slots)[s] else 0
  {
    if slots == [] then []
    else
      var rest := SlotsOn(slots[1..], experienceId, date);
      assert slots == [slots[0]] + slots[1..];
      if slots[0].experienceId == experienceId && slots[0].date == date then [slots[0]] + rest else rest
  }

  /** A slot's button label: "Sold Out" at exactly zero spots, otherwise the spot count. */
  datatype SlotBadge = SoldOut | SpotsLeft(spots: int)

  function Badge(s: Slot): (b: SlotBadge)
    ensures b == SoldOut <==> s.availableSpots == 0
    ensures b.SpotsLeft? ==> b.spots == s.availableSpots && b.spots != 0
  {
    if s.availableSpots == 0 then SoldOut else SpotsLeft(s.availableSpots)
  }

  /** A slot's button is enabled unless the slot has exactly zero spots left. */
  predicate Selectable(s: Slot) {
    s.availableSpots != 0
  }

  /** A sold-out badge and a disabled button go together. */
  lemma SoldOutIffNotSelectable(s: Slot)
    ensures Badge(s) == SoldOut <==> !Selectable(s)
  {
  }

  /** Where "Book Now" leads. */
  datatype BookNowResult =
    | SelectSlotFirst                                         // "Please select a time slot", no navigation
    | GoToCheckout(experienceId: string, slot: Slot, experience: Experience)

  class DetailsPage {
    const experienceId: string
    const experience: Experience
    /** The slots table the page queries. */
    const slots: seq<Slot>

    var selectedDate: int
    var selectedSlot: Option<Slot>

    /** The slots whose buttons are currently shown. */
    function ShownSlots(): seq<Slot>
      reads this
    {
      SlotsOn(slots, experienceId, selectedDate)
    }

    /**
     * The selection is empty or a shown, selectable slot: one of this
     * experience, on the selected date, with spots left.
     */
    predicate Valid()
      reads this
    {
      selectedSlot.Some? ==>
        && Selectable(selectedSlot.value)
        && selectedSlot.value.experienceId == experienceId
        && selectedSlot.value.date == selectedDate
    }

    constructor (experienceId: string, experience: Experience, slots: seq<Slot>, today: int)
      ensures this.experienceId == experienceId && this.experience == experience && this.slots == slots
      ensures selectedDate == today && selectedSlot == None
      ensures Valid()
    {
      this.experienceId := experienceId;
      this.experience := experience;
      this.slots := slots;
      selectedDate := today;
      selectedSlot := None;
    }

    /** A date button: the date becomes the selected one and the slot selection is cleared. */
    method ChooseDate(date: int)
      modifies this`selectedDate, this`selectedSlot
      ensures selectedDate == date && selectedSlot == None
      ensures Valid()
    {
      selectedDate := date;
      selectedSlot := None;
    }

    /**
     * A click on a shown slot's button: a selectable slot becomes the
     * selection; a sold-out slot's button is disabled and the click changes
     * nothing.
     */
    method ClickSlot(s: Slot)
      requires s in ShownSlots()
      requires Valid()
      modifies this`selectedSlot
      ensures selectedSlot == if Selectable(s) then Some(s) else old(selectedSlot)
      ensures Valid()
    {
      if Selectable(s) {
        selectedSlot := Some(s);
      }
    }

    /**
     * "Book Now": without a selection it refuses; with one it goes to the
     * checkout of this experience carrying exactly the selected slot and
     * the experience. Nothing on the page changes.
     */
    method BookNow() returns (r: BookNowResult)
      ensures selectedSlot.None? <==> r == SelectSlotFirst
      ensures selectedSlot.Some? ==> r == GoToCheckout(experienceId, selectedSlot.value, experience)
      ensures Valid() && r.GoToCheckout? ==> Selectable(r.slot) && r.slot.date == selectedDate
    {
      if selectedSlot.None? {
        return SelectSlotFirst;
      }
      r := GoToCheckout(experienceId, selectedSlot.value, experience);
    }
  }
}
