/**
 * Promo acceptance in the checkout's "Apply" handler
 * (src/pages/Checkout.tsx, `handleApplyPromo`): a blank input is refused
 * before any lookup; otherwise the upper-cased input is looked up among the
 * active rows, and the single row found is refused when expired or when its
 * usage limit is reached.
 */
module PromoRules {
  import opened Opt
  import opened Records
  import opened Text

  /** `current_uses` as JavaScript compares and increments it: a null count reads as 0. */
  function Uses(p: PromoCode): int {
    if p.currentUses.Some? then p.currentUses.value else 0
  }

  /** `max_uses` is truthy: set and non-zero. A null or zero limit means unlimited. */
  predicate HasUsageLimit(p: PromoCode) {
    p.maxUses.Some? && p.maxUses.value != 0
  }

  /** The usage limit is enforced and already reached. */
  predicate LimitReached(p: PromoCode) {
    HasUsageLimit(p) && Uses(p) >= p.maxUses.value
  }

  /** `valid_until < now`: a promo is still good at the very instant it ends. */
  predicate IsExpired(p: PromoCode, now: int) {
    p.validUntil < now
  }

  /**
   * The rows selected by `.eq("code", code).eq("is_active", true)`, every
   * copy of each; a null flag does not equal true.
   */
  function ActiveWithCode(rows: seq<PromoCode>, code: string): (r: seq<PromoCode>)
    ensures |r| <= |rows|
    ensures forall p :: p in r <==> p in rows && p.code == code && p.isActive == Some(true)
    ensures forall p :: multiset(r)[p] == if p.code == code && p.isActive == Some(true) then multiset(rows)[p] else 0
  {
    if rows == [] then []
    else
      var rest := ActiveWithCode(rows[1..], code);
      assert rows == [rows[0]] + rows[1..];
      if rows[0].code == code && rows[0].isActive == Some(true) then [rows[0]] + rest else rest
  }

  /** `.single()`: the row when exactly one row is selected, an error (None) when none or several are. */
  function LookupSingle(rows: seq<PromoCode>, code: string): (r: Option<PromoCode>)
    ensures r.Some? <==> |ActiveWithCode(rows, code)| == 1
    ensures r.Some? ==> r.value in rows && r.value.code == code && r.value.isActive == Some(true)
  {
    var found := ActiveWithCode(rows, code);
    if |found| == 1 then Some(found[0]) else None
  }

  /** The outcome of pressing "Apply", one constructor per message the handler shows. */
  datatype Verdict =
    | BlankCode          // "Please enter a promo code"
    | InvalidCode        // "Invalid promo code"
    | Expired            // "This promo code has expired"
    | UsageLimitReached  // "This promo code has reached its usage limit"
    | Applied(promo: PromoCode)

  /**
   * The decision of `handleApplyPromo` for the input `input`, the promo
   * table `rows` and the current time `now`. Whatever the verdict, it is
   * decided without writing anything: the function only reads `rows`.
   */
  function CheckPromo(input: string, rows: seq<PromoCode>, now: int): (v: Verdict)
    ensures v == BlankCode <==> IsBlank(input)
    ensures v.Applied? ==> v.promo in rows && v.promo.code == ToUpper(input) && v.promo.isActive == Some(true)
    ensures v.Applied? ==> !IsExpired(v.promo, now) && !LimitReached(v.promo)
  {
    TrimEmptyIffBlank(input);
    if Trim(input) == [] then BlankCode
    else
      match LookupSingle(rows, ToUpper(input))
      case None => InvalidCode
      case Some(p) =>
        if IsExpired(p, now) then Expired
        else if LimitReached(p) then UsageLimitReached
        else Applied(p)
  }

  /** A blank input is refused whatever the promo table holds: nothing is looked up. */
  lemma BlankRefusedBeforeLookup(input: string, rows: seq<PromoCode>, rows': seq<PromoCode>, now: int)
    requires IsBlank(input)
    ensures CheckPromo(input, rows, now) == CheckPromo(input, rows', now) == BlankCode
  {
  }

  /** A code with no active row (unknown, or only inactive rows) is refused as invalid. */
  lemma {:induction false} NoActiveRowIsInvalid(input: string, rows: seq<PromoCode>, now: int)
    requires !IsBlank(input)
    requires forall p :: p in rows ==> p.code != ToUpper(input) || p.isActive != Some(true)
    ensures CheckPromo(input, rows, now) == InvalidCode
  {
  }

  /** Several active rows with the same code make `.single()` fail, so the code is refused as invalid too. */
  lemma DuplicateActiveRowsAreInvalid(input: string, rows: seq<PromoCode>, now: int, i: int, j: int)
    requires !IsBlank(input)
    requires 0 <= i < j < |rows|
    requires rows[i].code == rows[j].code == ToUpper(input)
    requires rows[i].isActive == rows[j].isActive == Some(true)
    requires rows[i] != rows[j]
    ensures CheckPromo(input, rows, now) == InvalidCode
  {
    var found := ActiveWithCode(rows, ToUpper(input));
    var a :| 0 <= a < |found| && found[a] == rows[i];
    var b :| 0 <= b < |found| && found[b] == rows[j];
    assert a != b;
  }

  /**
   * Once the single active row `p` is found, the promo is refused as expired
   * exactly when `valid_until < now`, refused for its limit exactly when the
   * limit is enforced and reached, and applied otherwise.
   */
  lemma FoundPromoVerdict(input: string, rows: seq<PromoCode>, now: int, p: PromoCode)
    requires !IsBlank(input)
    requires ActiveWithCode(rows, ToUpper(input)) == [p]
    ensures CheckPromo(input, rows, now) == Expired <==> p.validUntil < now
    ensures CheckPromo(input, rows, now) == UsageLimitReached <==> now <= p.validUntil && LimitReached(p)
    ensures CheckPromo(input, rows, now) == Applied(p) <==> now <= p.validUntil && !LimitReached(p)
  {
  }

  /** A promo with a null or zero `max_uses` is never refused for its usage, however often it was used. */
  lemma UnlimitedWithoutMaxUses(p: PromoCode)
    requires p.maxUses == None || p.maxUses == Some(0)
    ensures !LimitReached(p)
  {
  }

  /** A promo row with its `valid_from` field blanked out. */
  function WithoutValidFrom(p: PromoCode): PromoCode {
    p.(validFrom := 0)
  }

  /** Two promo tables that differ only in `valid_from`. */
  predicate SameButValidFrom(rows: seq<PromoCode>, rows': seq<PromoCode>) {
    |rows| == |rows'| && forall i :: 0 <= i < |rows| ==> WithoutValidFrom(rows[i]) == WithoutValidFrom(rows'[i])
  }

  /** Tables that differ only in `valid_from` agree on their first rows and on the rest. */
  lemma SameButValidFromSplit(rows: seq<PromoCode>, rows': seq<PromoCode>)
    requires SameButValidFrom(rows, rows') && rows != []
    ensures WithoutValidFrom(rows[0]) == WithoutValidFrom(rows'[0])
    ensures SameButValidFrom(rows[1..], rows'[1..])
  {
    forall i | 0 <= i < |rows| - 1
      ensures WithoutValidFrom(rows[1..][i]) == WithoutValidFrom(rows'[1..][i])
    {
      assert WithoutValidFrom(rows[i + 1]) == WithoutValidFrom(rows'[i + 1]);
    }
  }

  /** Putting rows that differ only in `valid_from` in front of such tables keeps them so. */
  lemma SameButValidFromCons(p: PromoCode, p': PromoCode, r: seq<PromoCode>, r': seq<PromoCode>)
    requires WithoutValidFrom(p) == WithoutValidFrom(p') && SameButValidFrom(r, r')
    ensures SameButValidFrom([p] + r, [p'] + r')
  {
    forall i | 0 <= i < |r| + 1
      ensures WithoutValidFrom(([p] + r)[i]) == WithoutValidFrom(([p'] + r')[i])
    {
      if i > 0 {
        assert ([p] + r)[i] == r[i - 1] && ([p'] + r')[i] == r'[i - 1];
      }
    }
  }

  lemma {:induction false} ActiveWithCodeIgnoresValidFrom(rows: seq<PromoCode>, rows': seq<PromoCode>, code: string)
    requires SameButValidFrom(rows, rows')
    ensures SameButValidFrom(ActiveWithCode(rows, code), ActiveWithCode(rows', code))
  {
    if rows != [] {
      SameButValidFromSplit(rows, rows');
      ActiveWithCodeIgnoresValidFrom(rows[1..], rows'[1..], code);
      var p, p' := rows[0], rows'[0];
      assert p.code == p'.code && p.isActive == p'.isActive by {
        assert p.code == WithoutValidFrom(p).code && p'.code == WithoutValidFrom(p').code;
        assert p.isActive == WithoutValidFrom(p).isActive && p'.isActive == WithoutValidFrom(p').isActive;
      }
      if p.code == code && p.isActive == Some(true) {
        SameButValidFromCons(p, p', ActiveWithCode(rows[1..], code), ActiveWithCode(rows'[1..], code));
      }
    }
  }

  /** Two verdicts that agree except, for an applied promo, in its `valid_from` field. */
  predicate SameVerdictButValidFrom(v: Verdict, v': Verdict) {
    if v.Applied? then v'.Applied? && WithoutValidFrom(v.promo) == WithoutValidFrom(v'.promo) else v == v'
  }

  /**
   * `valid_from` is never consulted: changing it in any row changes neither
   * which verdict is reached nor, for an applied promo, anything but that field.
   */
  lemma ValidFromIgnored(input: string, rows: seq<PromoCode>, rows': seq<PromoCode>, now: int)
    requires SameButValidFrom(rows, rows')
    ensures SameVerdictButValidFrom(CheckPromo(input, rows, now), CheckPromo(input, rows', now))
  {
    var code := ToUpper(input);
    ActiveWithCodeIgnoresValidFrom(rows, rows', code);
    var found, found' := ActiveWithCode(rows, code), ActiveWithCode(rows', code);
    if !IsBlank(input) && |found| == 1 {
      SameVerdictForSameRow(found[0], found'[0], now);
    }
  }

  /** The checks after the lookup read `valid_until`, `max_uses` and `current_uses`, never `valid_from`. */
  lemma SameVerdictForSameRow(p: PromoCode, p': PromoCode, now: int)
    requires WithoutValidFrom(p) == WithoutValidFrom(p')
    ensures IsExpired(p, now) == IsExpired(p', now) && LimitReached(p) == LimitReached(p')
  {
    assert p.validUntil == WithoutValidFrom(p).validUntil == p'.validUntil;
    assert p.maxUses == WithoutValidFrom(p).maxUses == p'.maxUses;
    assert p.currentUses == WithoutValidFrom(p).currentUses == p'.currentUses;
  }

  /** In particular a promo whose validity has not started yet is applied all the same. */
  lemma NotYetStartedPromoApplies(input: string, rows: seq<PromoCode>, now: int, p: PromoCode)
    requires !IsBlank(input)
    requires ActiveWithCode(rows, ToUpper(input)) == [p]
    requires now < p.validFrom <= p.validUntil && !LimitReached(p)
    ensures CheckPromo(input, rows, now) == Applied(p)
  {
  }
}
