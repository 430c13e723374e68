/**
 * The checkout page (src/pages/Checkout.tsx) as an object: the form, the
 * promo input, the applied promo and the error map are its state; its
 * event handlers are methods. The slot and experience it was opened with
 * and the store it writes to are fixed for its lifetime.
 */
module Checkout {
  import opened Opt
  import opened Records
  import opened Text
  import opened Pricing
  import opened PromoRules
  import opened CheckoutForm
  import opened BookingStore

  /** What pressing "Pay" leads to. */
  datatype SubmitOutcome =
    | FormRejected                   // "Please fix the form errors"
    | NotEnoughSpots(available: int) // "Only N spots available"
    | BookingFailed                  // the insert reported an error
    | Confirmed(booking: Booking)    // "Booking confirmed!", then the confirmation page

  /** The two checks made before anything is written. */
  datatype Gate = RejectForm | RejectSpots | Proceed

  /**
   * `handleSubmit`'s guard: the form must pass the schema, then the guest
   * count must not exceed the slot's `available_spots` as it was when the
   * slot was chosen.
   */
  function SubmitGate(form: FormData, isEmail: string -> bool, availableSpots: int): (g: Gate)
    ensures g == RejectForm <==> !FormValid(form, isEmail)
    ensures g == RejectSpots <==> FormValid(form, isEmail) && form.guests > availableSpots
    ensures g == Proceed ==> 1 <= form.guests <= 20 && form.guests <= availableSpots
  {
    if !FormValid(form, isEmail) then RejectForm
    else if form.guests > availableSpots then RejectSpots
    else Proceed
  }

  /** `appliedPromo?.code || null`: no promo, or a promo with an empty code, is stored as null. */
  function PromoCodeLabel(applied: Option<PromoCode>): (r: Option<string>)
    ensures r.Some? <==> applied.Some? && applied.value.code != ""
    ensures r.Some? ==> r.value == applied.value.code
  {
    if applied.Some? && applied.value.code != "" then Some(applied.value.code) else None
  }

  /**
   * The row `handleSubmit` inserts. The customer fields are stored as typed
   * (the schema's trimming applies to the check, not to what is stored); the
   * price and discount are the ones shown on the page.
   */
  function BookingRecord(slot: Slot, experience: Experience, form: FormData, applied: Option<PromoCode>): (b: Booking)
    ensures b.slotId == slot.id && b.experienceId == experience.id
    ensures b.customerName == form.name && b.customerEmail == form.email && b.customerPhone == form.phone
    ensures b.numberOfGuests == form.guests
    ensures b.bookingStatus == "confirmed"
    ensures b.promoCode == PromoCodeLabel(applied)
    ensures b.discountAmount == PriceQuote(experience.price, form.guests, applied).discount
    ensures b.totalPrice == PriceQuote(experience.price, form.guests, applied).total
    ensures b.totalPrice >= 0.0
  {
    var q := PriceQuote(experience.price, form.guests, applied);
    Booking(slot.id, experience.id, form.name, form.email, form.phone, form.guests,
            q.total, PromoCodeLabel(applied), q.discount, "confirmed")
  }

  /** Without a promo the booking records no discount, no code, and the full price. */
  lemma BookingWithoutPromo(slot: Slot, experience: Experience, form: FormData)
    requires experience.price >= 0.0 && form.guests >= 1
    ensures BookingRecord(slot, experience, form, None).discountAmount == 0.0
    ensures BookingRecord(slot, experience, form, None).promoCode == None
    ensures BookingRecord(slot, experience, form, None).totalPrice == experience.price * form.guests as real
  {
    NoPromoPaysBase(experience.price, form.guests);
  }

  class CheckoutPage {
    const slot: Slot
    const experience: Experience
    /** The email pattern of the schema, not modelled. */
    const isEmail: string -> bool
    const store: Store

    var form: FormData
    var promoCode: string
    var appliedPromo: Option<PromoCode>
    var errors: map<Field, string>

    constructor (slot: Slot, experience: Experience, isEmail: string -> bool, store: Store)
      ensures this.slot == slot && this.experience == experience && this.isEmail == isEmail && this.store == store
      ensures form == InitialForm && promoCode == "" && appliedPromo == None && errors == map[]
    {
      this.slot := slot;
      this.experience := experience;
      this.isEmail := isEmail;
      this.store := store;
      form := InitialForm;
      promoCode := "";
      appliedPromo := None;
      errors := map[];
    }

    /** Base price, discount and total as the summary shows them right now. */
    function CurrentQuote(): Quote
      reads this
    {
      PriceQuote(experience.price, form.guests, appliedPromo)
    }

    method SetName(value: string)
      modifies this`form
      ensures form == old(form).(name := value)
    {
      form := form.(name := value);
    }

    method SetEmail(value: string)
      modifies this`form
      ensures form == old(form).(email := value)
    {
      form := form.(email := value);
    }

    method SetPhone(value: string)
      modifies this`form
      ensures form == old(form).(phone := value)
    {
      form := form.(phone := value);
    }

    /** The guests input; `parsed` is `parseInt` of the typed text, None for NaN. */
    method SetGuests(parsed: Option<int>)
      modifies this`form
      ensures form == old(form).(guests := GuestsFromInput(parsed))
      ensures form.guests != 0
    {
      form := form.(guests := GuestsFromInput(parsed));
    }

    /** The promo input keeps what is typed, upper-cased; it is disabled while a promo is applied. */
    method SetPromoCode(value: string)
      requires appliedPromo.None?
      modifies this`promoCode
      ensures promoCode == ToUpper(value)
    {
      promoCode := ToUpper(value);
    }

    /** "Remove": forgets the applied promo and empties the input, so the discount is zero again. */
    method RemovePromo()
      modifies this`appliedPromo, this`promoCode
      ensures appliedPromo == None && promoCode == ""
      ensures CurrentQuote().discount == 0.0
    {
      appliedPromo := None;
      promoCode := "";
    }

    /**
     * "Apply" at time `now` (the button is shown only while no promo is
     * applied): the promo is applied only when `CheckPromo` accepts it, and
     * on any refusal none stays applied. The store is only read, so no
     * promo's `current_uses` changes.
     */
    method ApplyPromo(now: int) returns (verdict: Verdict)
      requires appliedPromo.None?
      modifies this`appliedPromo
      ensures verdict == CheckPromo(promoCode, store.promos, now)
      ensures appliedPromo == if verdict.Applied? then Some(verdict.promo) else None
      ensures store.promos == old(store.promos)
    {
      verdict := CheckPromo(promoCode, store.promos, now);
      if verdict.Applied? {
        appliedPromo := Some(verdict.promo);
      }
    }

    /**
     * `validateForm`: records every issue the schema reports in the error
     * map, one after the other, and answers whether the form is valid.
     */
    method ValidateForm() returns (ok: bool)
      modifies this`errors
      ensures ok == FormValid(form, isEmail)
      ensures errors == FormErrors(Measure(form, isEmail))
      ensures ok <==> errors == map[]
    {
      var measured := Measure(form, isEmail);
      var issues := IssuesOf(measured);
      IssuesEmptyIffValid(form, isEmail);
      ErrorsOfIssues(measured);
      NoErrorsIffValid(measured);
      errors := RecordIssues(issues);
      ok := issues == [];
    }

    /**
     * "Pay": validates the form, checks the guest count against the slot,
     * then inserts the booking and, only if a promo is applied, writes its
     * snapshot's use count plus one. `insertSucceeds` is the store's answer
     * to the insert. Slots are never written.
     */
    method Submit(insertSucceeds: bool) returns (outcome: SubmitOutcome)
      modifies this`errors, store`bookings, store`promos
      ensures errors == FormErrors(Measure(form, isEmail))
      ensures outcome == match SubmitGate(form, isEmail, slot.availableSpots)
        case RejectForm => FormRejected
        case RejectSpots => NotEnoughSpots(slot.availableSpots)
        case Proceed =>
          if insertSucceeds then Confirmed(BookingRecord(slot, experience, form, appliedPromo)) else BookingFailed
      ensures outcome.Confirmed? ==> 1 <= form.guests <= slot.availableSpots
      ensures outcome.Confirmed? ==> store.bookings == old(store.bookings) + [outcome.booking]
      ensures outcome.Confirmed? && appliedPromo.Some? ==>
        store.promos == WithUses(old(store.promos), appliedPromo.value.id, NextUses(appliedPromo.value))
      ensures !outcome.Confirmed? || appliedPromo.None? ==> unchanged(store`promos)
      ensures !outcome.Confirmed? ==> unchanged(store`bookings)
      ensures unchanged(store`slots)
    {
      var ok := ValidateForm();
      if !ok {
        return FormRejected;
      }
      if form.guests > slot.availableSpots {
        return NotEnoughSpots(slot.availableSpots);
      }
      var booking := BookingRecord(slot, experience, form, appliedPromo);
      if !insertSucceeds {
        return BookingFailed;
      }
      store.InsertBooking(booking);
      if appliedPromo.Some? {
        store.SetPromoUses(appliedPromo.value.id, NextUses(appliedPromo.value));
      }
      outcome := Confirmed(booking);
    }
  }
}
