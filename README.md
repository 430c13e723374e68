# BOOKIT booking pages, modelled in Dafny

BOOKIT is a web front end for booking travel experiences. A visitor
searches the catalogue on the home page. On an experience's page they pick
one of the next fourteen days and one of that day's time slots. At checkout
they enter their details, may apply a promo code, and pay. Paying inserts a
booking into the hosted database and, when a promo was applied, writes that
promo's new use count.

This project models the decision logic of those three pages and proves what
it guarantees:

- `records.dfy` (`Records`): the four table rows the pages read or write.
- `option.dfy` (`Opt`): the optional-value type used for nullable columns.
- `text.dfy` (`Text`): JavaScript `trim`, ASCII `toUpperCase`/`toLowerCase`
  and `includes`.
- `search.dfy` (`Catalogue`): the home page's search filter.
- `details.dfy` (`ExperienceDetails`): the date strip and the slot-selection
  state of the experience page, as the class `DetailsPage`.
- `pricing.dfy` (`Pricing`): base price, promo discount and total.
- `promo.dfy` (`PromoRules`): the promo-code acceptance rules of "Apply".
- `form.dfy` (`CheckoutForm`): the checkout form's schema, its issues and
  the per-field error map.
- `store.dfy` (`BookingStore`): an in-memory stand-in for the database
  tables, as the class `Store`.
- `checkout.dfy` (`Checkout`): the checkout page as the class `CheckoutPage`,
  whose event handlers are methods over the store.

Money is an exact `real`. Instants are integer timestamps. Calendar days are
integer day numbers. The email pattern of the form schema is a parameter
`isEmail`. The clock value is a parameter `now`. The database's answer to the
booking insert is a parameter `insertSucceeds`.

The model follows the code as written:

- Promo lookup upper-cases the typed text and compares it exactly with the
  stored code. It is not a case-insensitive match: a code stored with a
  lower-case letter can never be applied. The typed text is not trimmed
  before the lookup, only for the blank check.
- An unknown code, an inactive code, and a code present on several active
  rows all get the same "Invalid promo code" answer. The code does not
  report "inactive" separately.
- `valid_from` is never consulted, so a promo is accepted before it starts.
- At payment the guest count is checked against the slot's `available_spots`
  as it was read when the slot was chosen. It is not read again, and it is
  never decremented.
- The promo's new use count is the count read when it was applied, plus one.
  It is not re-checked against `max_uses` and not read again. The insert and
  this update are two independent writes, not one transaction. A failed
  update is ignored.

## Model

| member | source | states |
|---|---|---|
| Catalogue.Search | src/pages/Index.tsx:38-42 | keeps exactly the experiences whose lower-cased title, location or category contains the lower-cased term, every copy of each, in their original order |
| Catalogue.SearchEmptyTermKeepsAll | src/pages/Index.tsx:38-42 | the empty term keeps every experience |
| Catalogue.SearchIgnoresCase | src/pages/Index.tsx:39-41 | two terms that differ only in ASCII letter case give the same result |
| Catalogue.SearchUpperCaseTerm | src/pages/Index.tsx:39-41 | typing the term in capitals does not change the result |
| Catalogue.MatchesExtendedTerm | src/pages/Index.tsx:38-42 | an experience matching a longer term also matches every prefix term |
| Catalogue.SearchNarrowsAsTermGrows | src/pages/Index.tsx:38-42 | extending the term gives a subsequence of the previous result |
| Catalogue.ClearSearch | src/pages/Index.tsx:109-111 | "Clear Search" sets a term under which every list is shown unfiltered |
| Text.TrimStartEmptyIffBlank | src/pages/Checkout.tsx:78 | dropping leading whitespace leaves nothing exactly when every character is whitespace |
| Text.TrimEndEmptyIffBlank | src/pages/Checkout.tsx:78 | dropping trailing whitespace leaves nothing exactly when every character is whitespace |
| Text.Trim | src/pages/Checkout.tsx:16-18 | `trim` never lengthens the string, and what it keeps neither starts nor ends with whitespace |
| Text.TrimKeepsMiddle | src/pages/Checkout.tsx:16-18 | what `trim` keeps is a middle piece of the string with only whitespace cut away before and after it; with `Trim`'s contract this fixes the result |
| Text.TrimStartDropsBlank | src/pages/Checkout.tsx:16-18 | dropping leading whitespace removes a blank prefix and keeps the rest of the string |
| Text.TrimEndDropsBlank | src/pages/Checkout.tsx:16-18 | dropping trailing whitespace removes only a blank suffix |
| Text.Utf16Length | src/pages/Checkout.tsx:16-18 | the JavaScript length counts UTF-16 code units: between the number of characters and twice that |
| Text.Utf16LengthOfBmp | src/pages/Checkout.tsx:16-18 | without characters beyond the Basic Multilingual Plane the JavaScript length is the number of characters |
| Text.TrimEmptyIffBlank | src/pages/Checkout.tsx:78 | `trim` gives the empty string exactly when the input is all whitespace |
| Text.TrimOfTrimmed | src/pages/Checkout.tsx:16-18 | trimming a string without whitespace at its ends leaves it unchanged |
| Text.ToUpper | src/pages/Checkout.tsx:250 | upper-casing keeps the length and maps each character to its ASCII upper case |
| Text.ToLower | src/pages/Index.tsx:39-41 | lower-casing keeps the length and maps each character to its ASCII lower case |
| Text.ToUpperIdempotent | src/pages/Checkout.tsx:87 | upper-casing already upper-cased input changes nothing |
| Text.ToLowerEqualIffSameIgnoringCase | src/pages/Index.tsx:39-41 | two strings lower-case to the same string exactly when they differ only in letter case |
| Text.ToUpperSameIgnoringCase | src/pages/Index.tsx:39-41 | upper-casing changes only letter case |
| Text.ToLowerAppend | src/pages/Index.tsx:39-41 | lower-casing distributes over concatenation |
| Text.ContainsAt | src/pages/Index.tsx:39-41 | `includes` holds exactly when the term occurs at some index |
| Text.ContainsEmpty | src/pages/Index.tsx:39-41 | every string includes the empty term |
| Text.ContainsPrefixOfTerm | src/pages/Index.tsx:39-41 | a string that includes `t + u` includes `t` |
| ExperienceDetails.DateStrip | src/pages/ExperienceDetails.tsx:72 | fourteen days, entry i is today plus i, strictly ascending, starting today |
| ExperienceDetails.DateStripCoversFortnight | src/pages/ExperienceDetails.tsx:72 | a day is offered exactly when it lies in the fourteen days starting today |
| ExperienceDetails.SlotsOn | src/pages/ExperienceDetails.tsx:60-65 | the slots shown are exactly the experience's slots on the selected date, every row of them |
| ExperienceDetails.Badge | src/pages/ExperienceDetails.tsx:233-235 | "Sold Out" exactly at zero spots, otherwise the spot count |
| ExperienceDetails.SoldOutIffNotSelectable | src/pages/ExperienceDetails.tsx:220-235 | a slot is labelled sold out exactly when its button is disabled |
| ExperienceDetails.DetailsPage.constructor | src/pages/ExperienceDetails.tsx:39-40 | the page opens on today with no slot selected |
| ExperienceDetails.DetailsPage.ChooseDate | src/pages/ExperienceDetails.tsx:186-188 | choosing a date selects it and clears the selected slot, keeping the invariant |
| ExperienceDetails.DetailsPage.ClickSlot | src/pages/ExperienceDetails.tsx:219-220 | a shown slot with spots left becomes the selection; a click on a sold-out slot changes nothing; the invariant is kept |
| ExperienceDetails.DetailsPage.BookNow | src/pages/ExperienceDetails.tsx:74-80 | without a selection "Book Now" refuses; with one it leads to checkout with exactly the selected slot and the experience, a slot with spots left on the selected date |
| Pricing.Discount | src/pages/Checkout.tsx:51-55 | no promo gives 0; type "percentage" gives base times value over 100; any other type gives the value, not capped at the base |
| Pricing.Total | src/pages/Checkout.tsx:56 | the total is never negative and is the discounted base whenever that is not negative |
| Pricing.PriceQuote | src/pages/Checkout.tsx:50-56 | base is price times guests; the discount is the applied promo's discount of that base; the total is the larger of zero and base minus discount |
| Pricing.NoPromoPaysBase | src/pages/Checkout.tsx:50-56 | without a promo the discount is 0 and the total is price times guests |
| Pricing.TotalAtMostBase | src/pages/Checkout.tsx:56 | a non-negative discount never raises the total above the base |
| Pricing.DiscountBeyondBaseIsFree | src/pages/Checkout.tsx:56 | a discount at least the base makes the total 0 |
| Pricing.PercentagePromoTotal | src/pages/Checkout.tsx:50-56 | a percentage promo of 0 to 100 charges the remaining share of the base |
| Pricing.FixedPromoBeyondBase | src/pages/Checkout.tsx:54-56 | a fixed promo larger than the base is recorded in full as the discount and the total is 0 |
| PromoRules.ActiveWithCode | src/pages/Checkout.tsx:84-88 | selects exactly the rows with that code whose active flag is true (null is not true), every copy of each, so `.single()` sees the true row count |
| PromoRules.LookupSingle | src/pages/Checkout.tsx:84-94 | a row is found exactly when one active row has the code, and it is such a row |
| PromoRules.CheckPromo | src/pages/Checkout.tsx:77-111 | blank input is refused exactly when blank; an applied promo is an active row with the upper-cased code, not expired and not at its usage limit |
| PromoRules.BlankRefusedBeforeLookup | src/pages/Checkout.tsx:78-81 | blank input is refused whatever the promo table holds |
| PromoRules.NoActiveRowIsInvalid | src/pages/Checkout.tsx:84-94 | a code without an active row, unknown or inactive, is refused as invalid |
| PromoRules.DuplicateActiveRowsAreInvalid | src/pages/Checkout.tsx:84-94 | two active rows with the code make the lookup fail, so the code is invalid |
| PromoRules.FoundPromoVerdict | src/pages/Checkout.tsx:96-106 | once found, expired exactly when `valid_until < now`, refused for usage exactly when the limit is enforced and reached, applied otherwise |
| PromoRules.UnlimitedWithoutMaxUses | src/pages/Checkout.tsx:101 | a null or zero `max_uses` is never enforced |
| PromoRules.SameButValidFromSplit | src/pages/Checkout.tsx:84-88 | tables differing only in `valid_from` agree, apart from it, on their first row and on the rest |
| PromoRules.SameButValidFromCons | src/pages/Checkout.tsx:84-88 | putting such rows in front of such tables keeps them differing only in `valid_from` |
| PromoRules.ActiveWithCodeIgnoresValidFrom | src/pages/Checkout.tsx:84-88 | the lookup does not depend on `valid_from` |
| PromoRules.ValidFromIgnored | src/pages/Checkout.tsx:77-111 | changing `valid_from` in any row changes neither the verdict nor the applied promo beyond that field |
| PromoRules.SameVerdictForSameRow | src/pages/Checkout.tsx:96-104 | the expiry and usage checks read neither `valid_from` nor anything else that field differs in |
| PromoRules.NotYetStartedPromoApplies | src/pages/Checkout.tsx:96-106 | a promo whose validity has not started yet is applied |
| CheckoutForm.IssuesEmptyIffValid | src/pages/Checkout.tsx:15-20 | the schema reports no issue exactly when the trimmed name is 2..100 long, the trimmed email is email-shaped and at most 255 long, the trimmed phone is 10..20 long and guests are 1..20, lengths in UTF-16 code units |
| CheckoutForm.AstralCharacterCountsTwice | src/pages/Checkout.tsx:16 | a name of one emoji measures 2, as JavaScript counts it |
| CheckoutForm.ErrorsOfAppend | src/pages/Checkout.tsx:66-70 | recording two lists of issues in turn: entries of the second win |
| CheckoutForm.RecordIssues | src/pages/Checkout.tsx:65-70 | the loop over the issues builds the map in which each issue set its field's entry in turn |
| CheckoutForm.ErrorsOfTwoChecks | src/pages/Checkout.tsx:15-20 | of two failing checks on one field, the message of the later one is kept |
| CheckoutForm.ErrorsOfFieldIssues | src/pages/Checkout.tsx:15-20 | one field's issues leave the message of its last failing check |
| CheckoutForm.FormErrorsPerField | src/pages/Checkout.tsx:15-20 | one entry per invalid field, keyed by that field, holding its last failing check's message |
| CheckoutForm.ErrorsOfIssues | src/pages/Checkout.tsx:58-74 | recording all the schema's issues yields exactly that per-field map |
| CheckoutForm.NoErrorsIffValid | src/pages/Checkout.tsx:58-74 | the error map is empty exactly when the form is valid |
| CheckoutForm.GuestsFromInput | src/pages/Checkout.tsx:234 | a non-numeric or zero entry becomes 1; any other number is kept, out-of-range ones included |
| BookingStore.WithUses | src/pages/Checkout.tsx:149-152 | the update sets the count of every row with that id and leaves all other rows as they were |
| BookingStore.StaleSnapshotLosesUses | src/pages/Checkout.tsx:151 | when the stored count moved on since the promo was applied, the written count does not exceed it: uses are lost |
| BookingStore.WrittenUsesWithinLimit | src/pages/Checkout.tsx:101-104 | a promo that passed the usage check is written back at most at its limit |
| BookingStore.Store.InsertBooking | src/pages/Checkout.tsx:129-142 | the new booking is appended and nothing else changes |
| BookingStore.Store.SetPromoUses | src/pages/Checkout.tsx:149-152 | the promo table becomes the updated table and nothing else changes |
| Checkout.SubmitGate | src/pages/Checkout.tsx:116-124 | refused for the form exactly when it is invalid, refused for spots exactly when valid but guests exceed available spots; passing means 1 to 20 guests within the spots |
| Checkout.PromoCodeLabel | src/pages/Checkout.tsx:139 | the promo code is recorded when a promo with a non-empty code is applied, null otherwise |
| Checkout.BookingRecord | src/pages/Checkout.tsx:129-142 | the booking carries the slot, experience, untrimmed customer fields, guests, the page's total and discount, the promo label and status "confirmed"; its total is never negative |
| Checkout.BookingWithoutPromo | src/pages/Checkout.tsx:129-142 | without a promo the booking records no code, no discount and the full price |
| Checkout.CheckoutPage.constructor | src/pages/Checkout.tsx:28-37 | empty name, email and phone, one guest, empty promo input, no promo applied, no errors |
| Checkout.CheckoutPage.SetName | src/pages/Checkout.tsx:28-33 | only the name changes |
| Checkout.CheckoutPage.SetEmail | src/pages/Checkout.tsx:28-33 | only the email changes |
| Checkout.CheckoutPage.SetPhone | src/pages/Checkout.tsx:28-33 | only the phone changes |
| Checkout.CheckoutPage.SetGuests | src/pages/Checkout.tsx:233-235 | only the guest count changes, to the parsed number or 1 |
| Checkout.CheckoutPage.SetPromoCode | src/pages/Checkout.tsx:247-252 | the promo input holds the typed text upper-cased |
| Checkout.CheckoutPage.RemovePromo | src/pages/Checkout.tsx:258-261 | no promo applied, empty input, and the discount is 0 again |
| Checkout.CheckoutPage.ApplyPromo | src/pages/Checkout.tsx:77-111 | the verdict is `CheckPromo` on the input and the store; only an accepted promo is applied; the promo table is unchanged |
| Checkout.CheckoutPage.ValidateForm | src/pages/Checkout.tsx:58-74 | answers whether the form is valid and sets the per-field error map, empty exactly when valid |
| Checkout.CheckoutPage.Submit | src/pages/Checkout.tsx:113-163 | an invalid form or too many guests writes nothing; otherwise exactly one booking is inserted when the insert succeeds, the promo's count becomes its snapshot plus one only if a promo is applied, and slots are never written |

## Left out

- Network access to the hosted database is replaced by the in-memory `Store`. Ordering of query results is the database's and is not modelled.
- The catch branch of "Apply" ("Error applying promo code") is not modelled, because the lookup is a pure function here and cannot throw.
- A failed promo-count update is not modelled: the code ignores its result, so the model always applies it.
- The booking's id and timestamps are generated by the database and are not part of `Booking`.
- The `isProcessing` flag and spinner, toasts, page rendering, routing and loading screens are not modelled; they are presentation only.
- The "Invalid booking" and "Experience not found" screens are not modelled; the pages are built from a slot and an experience that exist.
- Floating-point arithmetic and two-decimal display rounding are not modelled; money is exact.
- Dates and times from `Date` and `date-fns` are integers; formatting is not modelled.
- The email regular expression of the form schema is not modelled; it is the parameter `isEmail`.
- Case mapping beyond ASCII letters is not modelled.
- Checkout.CheckoutPage.SetGuests: the parse of the typed text by `parseInt` is not modelled; its result is the parameter.
- Concurrent bookings are not modelled; `BookingStore.StaleSnapshotLosesUses` states the single-booking effect of the stale count.
- Display-only experience fields (description, images, rating, highlights) are not part of `Experience`.
- The confirmation page and the experience card component hold no decision logic and are not part of this model.
