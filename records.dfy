/**
 * The four record types of the booking backend, reduced to the fields the
 * pages read or write. Timestamps are integers, calendar dates are day
 * numbers, money is an exact `real`.
 */
module Records {
  import opened Opt

  /** A catalogue entry (the `experiences` table). */
  datatype Experience = Experience(
    id: string,
    title: string,
    location: string,
    category: string,
    price: real)

  /** A bookable date and time of an experience (the `slots` table). */
  datatype Slot = Slot(
    id: string,
    experienceId: string,
    date: int,
    time: string,
    availableSpots: int,
    totalSpots: int)

  /**
   * A row of the `promo_codes` table. `maxUses`, `currentUses` and `isActive`
   * are nullable columns; `discountType` is free text, and only the exact
   * text "percentage" selects a percentage discount.
   */
  datatype PromoCode = PromoCode(
    id: string,
    code: string,
    discountType: string,
    discountValue: real,
    validFrom: int,
    validUntil: int,
    maxUses: Option<int>,
    currentUses: Option<int>,
    isActive: Option<bool>)

  /** The fields the checkout writes into a new row of the `bookings` table. */
  datatype Booking = Booking(
    slotId: string,
    experienceId: string,
    customerName: string,
    customerEmail: string,
    customerPhone: string,
    numberOfGuests: int,
    totalPrice: real,
    promoCode: Option<string>,
    discountAmount: real,
    bookingStatus: string)
}
