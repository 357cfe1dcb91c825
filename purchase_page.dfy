/**
 * The buyer's purchase form: the form object, its change handler,
 * `validateForm` with the e-mail pattern `/\S+@\S+\.\S+/`, and the
 * `purchaseData` record `handlePurchase` hands to the purchase service.
 * The form object and the errors object are keyed by the form's seven
 * field names; the text fields hold strings and the terms checkbox a
 * boolean.
 */
module PurchasePage {
  import opened JsStrings
  import opened JsValues
  import opened RecordStore
  import opened FormInput

  /** The keys of the buyer's form object. */
  datatype PurchaseField = Email | FirstName | LastName | Company | Phone | PaymentMethod | AcceptTerms

  type PurchaseForm = map<PurchaseField, Value>

  /** Whether `value` is of the kind the markup stores under `field`. */
  predicate FitsField(field: PurchaseField, value: Value)
  {
    if field == AcceptTerms then value.Bool? else value.Str?
  }

  /** Every field is present and holds a value of its kind. */
  predicate WellTyped(form: PurchaseForm)
  {
    && Email in form && form[Email].Str?
    && FirstName in form && form[FirstName].Str?
    && LastName in form && form[LastName].Str?
    && Company in form && form[Company].Str?
    && Phone in form && form[Phone].Str?
    && PaymentMethod in form && form[PaymentMethod].Str?
    && AcceptTerms in form && form[AcceptTerms].Bool?
  }

  /** Writing a value of the field's own type keeps every field of its type. */
  lemma StaysWellTyped(form: PurchaseForm, field: PurchaseField, value: Value)
    requires WellTyped(form) && FitsField(field, value)
    ensures WellTyped(form[field := value])
  {
    match field
    case Email =>
    case FirstName =>
    case LastName =>
    case Company =>
    case Phone =>
    case PaymentMethod =>
    case AcceptTerms =>
  }

  /** The form before any input: empty text, Stripe as the payment method, terms unchecked. */
  function InitialForm(): (form: PurchaseForm)
    ensures WellTyped(form)
    ensures form[Email] == Str("") && form[FirstName] == Str("") && form[LastName] == Str("")
    ensures form[Company] == Str("") && form[Phone] == Str("")
    ensures form[PaymentMethod] == Str("stripe") && form[AcceptTerms] == Bool(false)
  {
    map[
      Email := Str(""), FirstName := Str(""), LastName := Str(""), Company := Str(""),
      Phone := Str(""), PaymentMethod := Str("stripe"), AcceptTerms := Bool(false)]
  }

  /** `s[lo..hi]` is a run of one or more characters that `\S` matches. */
  ghost predicate NonBlankRun(s: string, lo: int, hi: int)
  {
    0 <= lo < hi <= |s| && forall q | lo <= q < hi :: !IsWhitespace(s[q])
  }

  /**
   * `/\S+@\S+\.\S+/.test(s)` read off the pattern: somewhere in `s` there
   * is a non-blank run, an '@', a non-blank run, a '.' and a non-blank run.
   */
  ghost predicate RegexMatches(s: string)
  {
    exists i, j, k, m | 0 <= i < j < k < m <= |s| :: RegexAt(s, i, j, k, m)
  }

  /** The runs `s[i..j]`, `s[j + 1..k]` and `s[k + 1..m]` around an '@' at `j` and a '.' at `k`. */
  ghost predicate RegexAt(s: string, i: int, j: int, k: int, m: int)
    requires 0 <= i < j < k < m <= |s|
  {
    NonBlankRun(s, i, j) && s[j] == '@' && NonBlankRun(s, j + 1, k) && s[k] == '.' && NonBlankRun(s, k + 1, m)
  }

  /**
   * The same test by positions: an '@' at `at` with a non-blank character
   * before it, then at least one non-blank character up to a '.' at `dot`,
   * then a non-blank character.
   */
  predicate EmailPattern(s: string)
  {
    exists at, dot | 0 < at < |s| && at + 1 < dot < |s| - 1 :: EmailAt(s, at, dot)
  }

  /** The positions `at` and `dot` of `s` make the pattern match. */
  predicate EmailAt(s: string, at: int, dot: int)
    requires 0 < at < |s| && at + 1 < dot < |s| - 1
  {
    && s[at] == '@' && s[dot] == '.'
    && !IsWhitespace(s[at - 1]) && !IsWhitespace(s[dot + 1])
    && forall q | at < q < dot :: !IsWhitespace(s[q])
  }

  /** The positional test is the pattern's test. */
  lemma EmailPatternIsRegex(s: string)
    ensures EmailPattern(s) <==> RegexMatches(s)
  {
    if EmailPattern(s) {
      var at, dot :| 0 < at < |s| && at + 1 < dot < |s| - 1 && EmailAt(s, at, dot);
      assert RegexAt(s, at - 1, at, dot, dot + 2);
    }
    if RegexMatches(s) {
      var i, j, k, m :| 0 <= i < j < k < m <= |s| && RegexAt(s, i, j, k, m);
      assert !IsWhitespace(s[j - 1]) && !IsWhitespace(s[k + 1]);
      assert EmailAt(s, j, k);
    }
  }

  /** The test is not anchored: text around a matching address keeps it matching. */
  lemma EmailPatternUnanchored(s: string, before: string, after: string)
    requires EmailPattern(s)
    ensures EmailPattern(before + s + after)
  {
    var at, dot :| 0 < at < |s| && at + 1 < dot < |s| - 1 && EmailAt(s, at, dot);
    var t := before + s + after;
    var n := |before|;
    assert forall q | 0 <= q < |s| :: t[n + q] == s[q];
    assert t[n + at] == '@' && t[n + dot] == '.';
    assert !IsWhitespace(t[n + at - 1]) && !IsWhitespace(t[n + dot + 1]);
    forall q | n + at < q < n + dot ensures !IsWhitespace(t[q]) {
      assert t[q] == s[q - n];
    }
    assert EmailAt(t, n + at, n + dot);
  }

  /** An address without '@', or without a '.', never matches. */
  lemma EmailPatternNeedsAtAndDot(s: string)
    requires '@' !in s || '.' !in s
    ensures !EmailPattern(s)
  {
  }

  /** A local part, '@', a domain and a top-level part, none blank and without '@' or '.', match. */
  lemma EmailPatternExample(local: string, domain: string, tld: string)
    requires local != [] && domain != [] && tld != []
    requires forall q | 0 <= q < |local| :: !IsWhitespace(local[q])
    requires forall q | 0 <= q < |domain| :: !IsWhitespace(domain[q])
    requires !IsWhitespace(tld[0])
    ensures EmailPattern(local + "@" + domain + "." + tld)
  {
    var s := local + "@" + domain + "." + tld;
    var at, dot := |local|, |local| + 1 + |domain|;
    assert s[at] == '@' && s[dot] == '.' && s[at - 1] == local[|local| - 1] && s[dot + 1] == tld[0];
    forall q | at < q < dot ensures !IsWhitespace(s[q]) {
      assert s[q] == domain[q - at - 1];
    }
    assert EmailAt(s, at, dot);
  }

  /** "ann@site.com" passes, while "ann@site", "ann @site.com" and "ann@.com" do not. */
  lemma EmailPatternCases()
    ensures EmailPattern("ann@site.com")
    ensures !EmailPattern("ann@site") && !EmailPattern("ann @site.com") && !EmailPattern("ann@.com")
  {
    EmailPatternExample("ann", "site", "com");
    assert "ann" + "@" + "site" + "." + "com" == "ann@site.com";
    EmailPatternNeedsAtAndDot("ann@site");
    var s := "ann @site.com";
    assert forall at | 0 < at < |s| && s[at] == '@' :: at == 4;
    var t := "ann@.com";
    assert forall at, dot | 0 < at < |t| && at + 1 < dot < |t| - 1 && t[at] == '@' :: t[dot] != '.';
  }

  /** The e-mail lines of `validateForm`: required first, then the pattern; at most one message. */
  function EmailError(email: string): Option<string>
  {
    if email == "" then Some("Email is required")
    else if !EmailPattern(email) then Some("Email is invalid")
    else None
  }

  /** The message `validateForm` records for one field, if any; company, phone and payment method are never checked. */
  function FieldError(form: PurchaseForm, field: PurchaseField): Option<string>
  {
    match field
    case Email => if Email in form then EmailError(TextOf(form[Email])) else Some("Email is required")
    case FirstName => Required(form, FirstName, "First name is required")
    case LastName => Required(form, LastName, "Last name is required")
    case Company => None
    case Phone => None
    case PaymentMethod => None
    case AcceptTerms => Required(form, AcceptTerms, "You must accept the terms")
  }

  /** The errors object `validateForm` builds, one checked field after another. */
  function PurchaseErrors(form: PurchaseForm): (errors: map<PurchaseField, string>)
    requires WellTyped(form)
    ensures errors.Keys <= {Email, FirstName, LastName, AcceptTerms}
  {
    var e1 := WithError(map[], Email, EmailError(form[Email].s));
    var e2 := WithError(e1, FirstName, Required(form, FirstName, "First name is required"));
    var e3 := WithError(e2, LastName, Required(form, LastName, "Last name is required"));
    WithError(e3, AcceptTerms, Required(form, AcceptTerms, "You must accept the terms"))
  }

  /** The `purchaseData` object literal, with its seven copied or computed fields as parameters. */
  function PurchaseRecord(
    domainId: Value, buyerEmail: Value, buyerName: Value, company: Value, phone: Value, amount: Value,
    paymentMethod: Value): (data: Record)
    ensures data.Keys == {"domainId", "buyerEmail", "buyerName", "company", "phone", "amount", "paymentMethod"}
    ensures data["domainId"] == domainId && data["buyerEmail"] == buyerEmail && data["buyerName"] == buyerName
    ensures data["company"] == company && data["phone"] == phone && data["amount"] == amount
    ensures data["paymentMethod"] == paymentMethod
  {
    map[
      "domainId" := domainId, "buyerEmail" := buyerEmail, "buyerName" := buyerName, "company" := company,
      "phone" := phone, "amount" := amount, "paymentMethod" := paymentMethod]
  }

  /** The `purchaseData` record for the listing `domain`, bought through the address parameter `id`. */
  function PurchaseData(id: string, form: PurchaseForm, domain: Record): (data: Record)
    requires WellTyped(form)
    ensures data.Keys == {"domainId", "buyerEmail", "buyerName", "company", "phone", "amount", "paymentMethod"}
  {
    PurchaseRecord(
      FromParsed(ParseInt(id)), form[Email], Str(form[FirstName].s + " " + form[LastName].s),
      form[Company], form[Phone], Get(domain, "price"), form[PaymentMethod])
  }

  /** The e-mail lines of `validateForm`. */
  method CheckEmail(errors: map<PurchaseField, string>, email: string) returns (r: map<PurchaseField, string>)
    ensures r == WithError(errors, Email, EmailError(email))
  {
    r := errors;
    if email == "" {
      r := r[Email := "Email is required"];
    } else if !EmailPattern(email) {
      r := r[Email := "Email is invalid"];
    }
  }

  class PurchaseView {
    var formData: PurchaseForm
    var formErrors: map<PurchaseField, string>

    ghost predicate Valid()
      reads this
    {
      WellTyped(formData)
    }

    constructor ()
      ensures Valid()
      ensures formData == InitialForm() && formErrors == map[]
    {
      formData := InitialForm();
      formErrors := map[];
    }

    /** `handleInputChange(field, value)`. */
    method HandleInputChange(field: PurchaseField, value: Value)
      modifies this
      ensures old(Valid()) && FitsField(field, value) ==> Valid()
      ensures formData == old(formData)[field := value]
      ensures formErrors == ClearError(old(formErrors), field)
    {
      if Valid() && FitsField(field, value) {
        StaysWellTyped(formData, field, value);
      }
      formData := formData[field := value];
      if ErrorShown(formErrors, field) {
        formErrors := formErrors[field := ""];
      }
    }

    /** `validateForm()`: records the errors and reports whether there were none. */
    method ValidateForm() returns (valid: bool)
      requires Valid()
      modifies this
      ensures Valid() && formData == old(formData)
      ensures formErrors == PurchaseErrors(formData)
      ensures valid <==> formErrors == map[]
    {
      var errors: map<PurchaseField, string> := map[];
      errors := CheckEmail(errors, formData[Email].s);
      errors := RequireField(errors, formData, FirstName, "First name is required");
      errors := RequireField(errors, formData, LastName, "Last name is required");
      errors := RequireField(errors, formData, AcceptTerms, "You must accept the terms");
      formErrors := errors;
      valid := |errors| == 0;
    }

    /**
     * `handlePurchase` for the listing `domain` reached through the
     * address parameter `id`: an invalid form creates nothing; a valid
     * one hands `purchaseData` to `create`.  The form is kept either way.
     */
    method HandlePurchase(store: Store, id: string, domain: Record, now: string) returns (created: Option<Record>)
      requires Valid() && store.Valid() && store.entity == Purchases
      modifies this, store
      ensures Valid() && store.Valid() && formData == old(formData)
      ensures formErrors == PurchaseErrors(formData)
      ensures formErrors != map[] ==> created == None && store.records == old(store.records)
      ensures formErrors == map[] ==>
        && created == Some(Created(Purchases, old(store.records), PurchaseData(id, formData, domain), now))
        && store.records == old(store.records) + [created.value]
    {
      var valid := ValidateForm();
      if !valid {
        created := None;
        return;
      }
      var purchase := store.Create(PurchaseData(id, formData, domain), now);
      created := Some(purchase);
    }
  }

  /**
   * The errors object holds exactly one entry per field that fails its
   * check, with that field's message, and nothing else.
   */
  lemma PurchaseErrorsAt(form: PurchaseForm, field: PurchaseField)
    requires WellTyped(form)
    ensures field in PurchaseErrors(form) <==> FieldError(form, field).Some?
    ensures field in PurchaseErrors(form) ==> PurchaseErrors(form)[field] == FieldError(form, field).value
  {
    var c1, c2 := EmailError(form[Email].s), Required(form, FirstName, "First name is required");
    var c3, c4 := Required(form, LastName, "Last name is required"), Required(form, AcceptTerms, "You must accept the terms");
    var e1 := WithError(map[], Email, c1);
    var e2 := WithError(e1, FirstName, c2);
    var e3 := WithError(e2, LastName, c3);
    assert PurchaseErrors(form) == WithError(e3, AcceptTerms, c4);
    WithErrorAt(map[], Email, c1, field);
    WithErrorAt(e1, FirstName, c2, field);
    WithErrorAt(e2, LastName, c3, field);
    WithErrorAt(e3, AcceptTerms, c4, field);
  }

  /** The form passes validation exactly when every field passes its check. */
  lemma ValidIffNoFieldFails(form: PurchaseForm)
    requires WellTyped(form)
    ensures PurchaseErrors(form) == map[] <==> forall field :: FieldError(form, field).None?
  {
    forall field ensures field in PurchaseErrors(form) <==> FieldError(form, field).Some? {
      PurchaseErrorsAt(form, field);
    }
    if PurchaseErrors(form) != map[] {
      var field :| field in PurchaseErrors(form);
    }
  }

  /** The e-mail message: "required" exactly for an empty address, "invalid" exactly for a non-matching one. */
  lemma EmailErrorCases(form: PurchaseForm)
    requires WellTyped(form)
    ensures var email := form[Email].s;
      && (Email in PurchaseErrors(form) && PurchaseErrors(form)[Email] == "Email is required" <==> email == "")
      && (Email in PurchaseErrors(form) && PurchaseErrors(form)[Email] == "Email is invalid"
          <==> email != "" && !EmailPattern(email))
      && (Email !in PurchaseErrors(form) <==> EmailPattern(email))
  {
    PurchaseErrorsAt(form, Email);
    if form[Email].s == "" {
      assert !EmailPattern(form[Email].s);
    }
  }

  /** Company, phone and payment method are never checked: changing any of them changes no error. */
  lemma OptionalFieldsNeverValidated(form: PurchaseForm, field: PurchaseField, text: string)
    requires WellTyped(form) && (field == Company || field == Phone || field == PaymentMethod)
    ensures field !in PurchaseErrors(form)
    ensures PurchaseErrors(form[field := Str(text)]) == PurchaseErrors(form)
  {
    PurchaseErrorsAt(form, field);
    var form' := form[field := Str(text)];
    assert form'[Email].s == form[Email].s;
    assert Required(form', FirstName, "First name is required") == Required(form, FirstName, "First name is required");
    assert Required(form', LastName, "Last name is required") == Required(form, LastName, "Last name is required");
    assert Required(form', AcceptTerms, "You must accept the terms") == Required(form, AcceptTerms, "You must accept the terms");
  }

  /**
   * The payload: the buyer's name is the first name, one space and the last
   * name; the amount is the listing's price; the e-mail, company, phone and
   * payment method are the form's.
   */
  lemma PurchaseDataFields(id: string, form: PurchaseForm, domain: Record)
    requires WellTyped(form)
    ensures var data := PurchaseData(id, form, domain); var first := form[FirstName].s; var last := form[LastName].s;
      && data["buyerName"].Str? && |data["buyerName"].s| == |first| + 1 + |last|
      && data["buyerName"].s[..|first|] == first && data["buyerName"].s[|first|] == ' '
      && data["buyerName"].s[|first| + 1..] == last
      && data["amount"] == Get(domain, "price") && data["buyerEmail"] == form[Email]
      && data["company"] == form[Company] && data["phone"] == form[Phone]
      && data["paymentMethod"] == form[PaymentMethod]
  {
    var first, last := form[FirstName].s, form[LastName].s;
    var name := first + " " + last;
    assert name[..|first|] == first;
    assert name[|first| + 1..] == last;
  }

  /** An address parameter that is the numeral of a whole number gives that number as `domainId`. */
  lemma PurchaseDataDomainId(n: int, form: PurchaseForm, domain: Record)
    requires WellTyped(form)
    ensures PurchaseData(IntToString(n), form, domain)["domainId"] == Int(n)
  {
    ParseIntOfNumeral(n, []);
    assert IntToString(n) + [] == IntToString(n);
  }

  /** Untouched, the form pays with Stripe. */
  lemma DefaultPaymentIsStripe(id: string, domain: Record)
    ensures PurchaseData(id, InitialForm(), domain)["paymentMethod"] == Str("stripe")
  {
  }
}
