/**
 * The checkout form (src/pages/Checkout.tsx): its fields, the bounds the
 * schema puts on them, the list of issues the schema reports, and the
 * per-field error map `validateForm` builds from that list. The email
 * pattern is not modelled; it is passed in as a predicate `isEmail`.
 */
module CheckoutForm {
  import opened Opt
  import opened Text

  datatype FormData = FormData(name: string, email: string, phone: string, guests: int)

  /** The form as the page first shows it. */
  const InitialForm := FormData("", "", "", 1)

  /**
   * The schema's four fields; an issue's path is the one field it concerns,
   * and the error map is keyed by it ("name", "email", "phone", "guests").
   */
  datatype Field = Name | Email | Phone | Guests

  /** One schema violation: the field it concerns and its message. */
  datatype Issue = Issue(field: Field, message: string)

  /**
   * What the schema checks of a form: trimmed lengths (in UTF-16 code units,
   * as JavaScript counts them), the email pattern's verdict, the guest count.
   */
  datatype Measured = Measured(nameLen: int, emailShaped: bool, emailLen: int, phoneLen: int, guests: int)

  /** The schema trims the three text fields before checking them. */
  function Measure(form: FormData, isEmail: string -> bool): Measured {
    Measured(Utf16Length(Trim(form.name)), isEmail(Trim(form.email)), Utf16Length(Trim(form.email)),
             Utf16Length(Trim(form.phone)), form.guests)
  }

  /** The declared bounds: trimmed name 2..100, trimmed email email-shaped and at most 255, trimmed phone 10..20, guests 1..20. */
  predicate WithinBounds(c: Measured) {
    && 2 <= c.nameLen <= 100
    && c.emailShaped && c.emailLen <= 255
    && 10 <= c.phoneLen <= 20
    && 1 <= c.guests <= 20
  }

  /**
   * A name made of one character beyond the Basic Multilingual Plane (an
   * emoji, say) has length 2 in JavaScript and so passes the name's minimum.
   */
  lemma {:induction false} AstralCharacterCountsTwice(form: FormData, isEmail: string -> bool)
    requires form.name == "\U{1F600}"
    ensures Measure(form, isEmail).nameLen == 2
  {
    TrimOfTrimmed(form.name);
    assert form.name[1..] == [];
  }

  predicate FormValid(form: FormData, isEmail: string -> bool) {
    WithinBounds(Measure(form, isEmail))
  }

  /** The issue for check `failed`, or none. */
  function IssueIf(failed: bool, field: Field, message: string): seq<Issue> {
    if failed then [Issue(field, message)] else []
  }

  /** The issues of one field: its checks in declaration order; every failing check reports its issue. */
  function FieldIssues(c: Measured, field: Field): seq<Issue> {
    match field
    case Name =>
      IssueIf(c.nameLen < 2, Name, "Name must be at least 2 characters")
      + IssueIf(c.nameLen > 100, Name, "Name too long")
    case Email =>
      IssueIf(!c.emailShaped, Email, "Invalid email address")
      + IssueIf(c.emailLen > 255, Email, "Email too long")
    case Phone =>
      IssueIf(c.phoneLen < 10, Phone, "Phone number must be at least 10 digits")
      + IssueIf(c.phoneLen > 20, Phone, "Phone number too long")
    case Guests =>
      IssueIf(c.guests < 1, Guests, "At least 1 guest required")
      + IssueIf(c.guests > 20, Guests, "Maximum 20 guests")
  }

  /** All issues the schema reports, field by field in declaration order. */
  function IssuesOf(c: Measured): seq<Issue> {
    FieldIssues(c, Name) + FieldIssues(c, Email) + FieldIssues(c, Phone) + FieldIssues(c, Guests)
  }

  /** The issues the schema reports for a form. */
  function Issues(form: FormData, isEmail: string -> bool): seq<Issue> {
    IssuesOf(Measure(form, isEmail))
  }

  /** The schema reports no issue exactly when the form is within its bounds. */
  lemma IssuesEmptyIffValid(form: FormData, isEmail: string -> bool)
    ensures Issues(form, isEmail) == [] <==> FormValid(form, isEmail)
  {
  }

  /**
   * The error map after recording `issues` in order, as the `forEach` does:
   * each issue sets its field's entry, so a later issue for the same field
   * replaces an earlier one.
   */
  function ErrorsOf(issues: seq<Issue>): map<Field, string>
  {
    if issues == [] then map[]
    else
      var last := issues[|issues| - 1];
      ErrorsOf(issues[..|issues| - 1])[last.field := last.message]
  }

  /** Recording two lists of issues one after the other: entries of the second win. */
  lemma {:induction false} ErrorsOfAppend(a: seq<Issue>, b: seq<Issue>)
    ensures ErrorsOf(a + b) == ErrorsOf(a) + ErrorsOf(b)
    decreases |b|
  {
    if b == [] {
      assert a + b == a;
    } else {
      var b' := b[..|b| - 1];
      assert (a + b)[..|a + b| - 1] == a + b';
      ErrorsOfAppend(a, b');
    }
  }

  /**
   * The `forEach` over the schema's issues: starting from an empty map, each
   * issue sets its field's entry in turn.
   */
  method RecordIssues(issues: seq<Issue>) returns (errors: map<Field, string>)
    ensures errors == ErrorsOf(issues)
  {
    errors := map[];
    var i := 0;
    while i < |issues|
      invariant 0 <= i <= |issues|
      invariant errors == ErrorsOf(issues[..i])
    {
      assert issues[..i + 1][..i] == issues[..i];
      errors := errors[issues[i].field := issues[i].message];
      i := i + 1;
    }
    assert issues[..|issues|] == issues;
  }

  /** The message a field ends up with: that of its last failing check, if any. */
  function FieldError(c: Measured, field: Field): Option<string> {
    match field
    case Name =>
      if c.nameLen > 100 then Some("Name too long")
      else if c.nameLen < 2 then Some("Name must be at least 2 characters")
      else None
    case Email =>
      if c.emailLen > 255 then Some("Email too long")
      else if !c.emailShaped then Some("Invalid email address")
      else None
    case Phone =>
      if c.phoneLen > 20 then Some("Phone number too long")
      else if c.phoneLen < 10 then Some("Phone number must be at least 10 digits")
      else None
    case Guests =>
      if c.guests > 20 then Some("Maximum 20 guests")
      else if c.guests < 1 then Some("At least 1 guest required")
      else None
  }

  /** Two checks on the same field: the second one's message wins when both fail. */
  lemma ErrorsOfTwoChecks(field: Field, first: bool, m1: string, second: bool, m2: string)
    ensures ErrorsOf(IssueIf(first, field, m1) + IssueIf(second, field, m2))
         == if second then map[field := m2] else if first then map[field := m1] else map[]
  {
    ErrorsOfAppend(IssueIf(first, field, m1), IssueIf(second, field, m2));
    assert [Issue(field, m1)][..0] == [] && [Issue(field, m2)][..0] == [];
  }

  /** The entry one field contributes to the error map. */
  function FieldEntry(c: Measured, field: Field): map<Field, string> {
    var e := FieldError(c, field);
    if e.Some? then map[field := e.value] else map[]
  }

  /** Recording one field's issues leaves the message of its last failing check. */
  lemma ErrorsOfFieldIssues(c: Measured, field: Field)
    ensures ErrorsOf(FieldIssues(c, field)) == FieldEntry(c, field)
  {
    match field
    case Name =>
      ErrorsOfTwoChecks(Name, c.nameLen < 2, "Name must be at least 2 characters", c.nameLen > 100, "Name too long");
    case Email =>
      ErrorsOfTwoChecks(Email, !c.emailShaped, "Invalid email address", c.emailLen > 255, "Email too long");
    case Phone =>
      ErrorsOfTwoChecks(Phone, c.phoneLen < 10, "Phone number must be at least 10 digits", c.phoneLen > 20, "Phone number too long");
    case Guests =>
      ErrorsOfTwoChecks(Guests, c.guests < 1, "At least 1 guest required", c.guests > 20, "Maximum 20 guests");
  }

  /** The error map as a whole: the union of the four fields' entries. */
  function FormErrors(c: Measured): map<Field, string> {
    FieldEntry(c, Name) + FieldEntry(c, Email) + FieldEntry(c, Phone) + FieldEntry(c, Guests)
  }

  /**
   * The error map has exactly one entry per invalid field, keyed by that
   * field, holding the message of the field's last failing check (for an
   * email both malformed and too long, "Email too long").
   */
  lemma FormErrorsPerField(c: Measured)
    ensures forall f :: f in FormErrors(c) <==> FieldError(c, f).Some?
    ensures forall f :: f in FormErrors(c) ==> FormErrors(c)[f] == FieldError(c, f).value
  {
    var m := FormErrors(c);
    var eN, eE, eP, eG := FieldEntry(c, Name), FieldEntry(c, Email), FieldEntry(c, Phone), FieldEntry(c, Guests);
    assert eN.Keys <= {Name} && eE.Keys <= {Email} && eP.Keys <= {Phone} && eG.Keys <= {Guests};
    forall f ensures (f in m <==> FieldError(c, f).Some?) && (f in m ==> m[f] == FieldError(c, f).value) {
      match f
      case Name => assert f !in eE && f !in eP && f !in eG;
      case Email => assert f !in eN && f !in eP && f !in eG;
      case Phone => assert f !in eN && f !in eE && f !in eG;
      case Guests => assert f !in eN && f !in eE && f !in eP;
    }
  }

  /** Recording the schema's issues one after the other yields exactly that map. */
  lemma ErrorsOfIssues(c: Measured)
    ensures ErrorsOf(IssuesOf(c)) == FormErrors(c)
  {
    var n, e, p, g := FieldIssues(c, Name), FieldIssues(c, Email), FieldIssues(c, Phone), FieldIssues(c, Guests);
    ErrorsOfAppend(n, e);
    ErrorsOfAppend(n + e, p);
    ErrorsOfAppend(n + e + p, g);
    ErrorsOfFieldIssues(c, Name);
    ErrorsOfFieldIssues(c, Email);
    ErrorsOfFieldIssues(c, Phone);
    ErrorsOfFieldIssues(c, Guests);
  }

  /** The error map is empty exactly when the form is within its bounds. */
  lemma NoErrorsIffValid(c: Measured)
    ensures FormErrors(c) == map[] <==> WithinBounds(c)
  {
    var m := FormErrors(c);
    FormErrorsPerField(c);
    if !WithinBounds(c) {
      if FieldError(c, Name).Some? {
        assert Name in m;
      } else if FieldError(c, Email).Some? {
        assert Email in m;
      } else if FieldError(c, Phone).Some? {
        assert Phone in m;
      } else {
        assert Guests in m;
      }
    }
  }

  /**
   * The guests input: `parseInt(value) || 1`. `parsed` is what `parseInt`
   * returned, None standing for NaN; NaN and 0 become 1, any other number
   * is kept as it is, out-of-range values included.
   */
  function GuestsFromInput(parsed: Option<int>): (g: int)
    ensures g != 0
    ensures parsed.Some? && parsed.value != 0 ==> g == parsed.value
    ensures parsed == None || parsed == Some(0) ==> g == 1
  {
    match parsed
    case Some(n) => if n != 0 then n else 1
    case None => 1
  }
}
