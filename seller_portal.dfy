/**
 * The seller portal's submission form: the form object, its change
 * handler, `validateForm`, and the record `handleSubmit` hands to the
 * domain service before resetting the form.  The form object and the
 * errors object are keyed by the form's seven field names; the text fields
 * hold strings and the two checkboxes booleans.
 */
module SellerPortal {
  import opened JsStrings
  import opened JsValues
  import opened RecordStore
  import opened FormInput

  /** The keys of the seller's form object. */
  datatype SellerField = Name | Price | Category | Extension | Description | OwnershipConfirmed | TermsAccepted

  type SellerForm = map<SellerField, Value>

  predicate IsCheckbox(field: SellerField)
  {
    field == OwnershipConfirmed || field == TermsAccepted
  }

  /** Whether `value` is of the kind the markup stores under `field`. */
  predicate FitsField(field: SellerField, value: Value)
  {
    if IsCheckbox(field) then value.Bool? else value.Str?
  }

  /** Every field is present and holds a value of its kind. */
  predicate WellTyped(form: SellerForm)
  {
    && Name in form && form[Name].Str?
    && Price in form && form[Price].Str?
    && Category in form && form[Category].Str?
    && Extension in form && form[Extension].Str?
    && Description in form && form[Description].Str?
    && OwnershipConfirmed in form && form[OwnershipConfirmed].Bool?
    && TermsAccepted in form && form[TermsAccepted].Bool?
  }

  /** Writing a value of the field's own type keeps every field of its type. */
  lemma StaysWellTyped(form: SellerForm, field: SellerField, value: Value)
    requires WellTyped(form) && FitsField(field, value)
    ensures WellTyped(form[field := value])
  {
    match field
    case Name =>
    case Price =>
    case Category =>
    case Extension =>
    case Description =>
    case OwnershipConfirmed =>
    case TermsAccepted =>
  }

  /** The form before any input and after a successful submission. */
  function InitialForm(): (form: SellerForm)
    ensures WellTyped(form)
    ensures form[Name] == Str("") && form[Price] == Str("") && form[Category] == Str("")
    ensures form[Description] == Str("") && form[Extension] == Str(".com")
    ensures form[OwnershipConfirmed] == Bool(false) && form[TermsAccepted] == Bool(false)
  {
    map[
      Name := Str(""), Price := Str(""), Category := Str(""), Extension := Str(".com"),
      Description := Str(""), OwnershipConfirmed := Bool(false), TermsAccepted := Bool(false)]
  }

  /** `isNaN(price) || parseInt(price) <= 0`; a NaN from `parseInt` compares false. */
  predicate BadPrice(price: string)
  {
    StringIsNaN(price) || (ParseInt(price).Num? && ParseInt(price).n <= 0)
  }

  /** The price check: required first, then a number `parseInt` does not read as zero or less. */
  function PriceError(price: string): Option<string>
  {
    if price == "" then Some("Price is required")
    else if BadPrice(price) then Some("Price must be a valid number")
    else None
  }

  /** The message `validateForm` records for one field, if any; extension is never checked. */
  function FieldError(form: SellerForm, field: SellerField): Option<string>
  {
    match field
    case Name => Required(form, Name, "Domain name is required")
    case Price => if Price in form then PriceError(TextOf(form[Price])) else Some("Price is required")
    case Category => Required(form, Category, "Category is required")
    case Extension => None
    case Description => Required(form, Description, "Description is required")
    case OwnershipConfirmed => Required(form, OwnershipConfirmed, "You must confirm ownership")
    case TermsAccepted => Required(form, TermsAccepted, "You must accept the terms")
  }

  /** The errors object `validateForm` builds, one checked field after another. */
  function SellerErrors(form: SellerForm): (errors: map<SellerField, string>)
    requires WellTyped(form)
    ensures errors.Keys <= {Name, Price, Category, Description, OwnershipConfirmed, TermsAccepted}
  {
    var e1 := WithError(map[], Name, Required(form, Name, "Domain name is required"));
    var e2 := WithError(e1, Price, PriceError(form[Price].s));
    var e3 := WithError(e2, Category, Required(form, Category, "Category is required"));
    var e4 := WithError(e3, Description, Required(form, Description, "Description is required"));
    var e5 := WithError(e4, OwnershipConfirmed, Required(form, OwnershipConfirmed, "You must confirm ownership"));
    WithError(e5, TermsAccepted, Required(form, TermsAccepted, "You must accept the terms"))
  }

  /** The `domainData` object literal, with its five copied or computed fields as parameters. */
  function DomainRecord(name: Value, price: Value, category: Value, extension: Value, description: Value): (data: Record)
    ensures data.Keys == {"name", "price", "category", "extension", "description", "status", "sellerId"}
    ensures data["name"] == name && data["price"] == price && data["category"] == category
    ensures data["extension"] == extension && data["description"] == description
    ensures data["status"] == Str("pending-approval") && data["sellerId"] == Str("seller-123")
  {
    map[
      "name" := name, "price" := price, "category" := category, "extension" := extension,
      "description" := description, "status" := Str("pending-approval"), "sellerId" := Str("seller-123")]
  }

  /** The `domainData` record built from a validated form. */
  function DomainData(form: SellerForm): (data: Record)
    requires WellTyped(form)
    ensures data.Keys == {"name", "price", "category", "extension", "description", "status", "sellerId"}
  {
    DomainRecord(
      Str(ToLower(form[Name].s) + form[Extension].s), FromParsed(ParseInt(form[Price].s)),
      form[Category], form[Extension], form[Description])
  }

  /** The price lines of `validateForm`: at most one price message. */
  method CheckPrice(errors: map<SellerField, string>, price: string) returns (r: map<SellerField, string>)
    ensures r == WithError(errors, Price, PriceError(price))
  {
    r := errors;
    if price == "" {
      r := r[Price := "Price is required"];
    } else if BadPrice(price) {
      r := r[Price := "Price must be a valid number"];
    }
  }

  class SubmitForm {
    var formData: SellerForm
    var formErrors: map<SellerField, string>

    ghost predicate Valid()
      reads this
    {
      WellTyped(formData)
    }

    constructor ()
      ensures Valid()
      ensures formData == InitialForm() && formErrors == map[]
    {
      formData := InitialForm();
      formErrors := map[];
    }

    /** `handleInputChange(field, value)`. */
    method HandleInputChange(field: SellerField, value: Value)
      modifies this
      ensures old(Valid()) && FitsField(field, value) ==> Valid()
      ensures formData == old(formData)[field := value]
      ensures formErrors == ClearError(old(formErrors), field)
    {
      if Valid() && FitsField(field, value) {
        StaysWellTyped(formData, field, value);
      }
      formData := formData[field := value];
      if ErrorShown(formErrors, field) {
        formErrors := formErrors[field := ""];
      }
    }

    /** `validateForm()`: records the errors and reports whether there were none. */
    method ValidateForm() returns (valid: bool)
      requires Valid()
      modifies this
      ensures Valid() && formData == old(formData)
      ensures formErrors == SellerErrors(formData)
      ensures valid <==> formErrors == map[]
    {
      var errors: map<SellerField, string> := map[];
      errors := RequireField(errors, formData, Name, "Domain name is required");
      errors := CheckPrice(errors, formData[Price].s);
      errors := RequireField(errors, formData, Category, "Category is required");
      errors := RequireField(errors, formData, Description, "Description is required");
      errors := RequireField(errors, formData, OwnershipConfirmed, "You must confirm ownership");
      errors := RequireField(errors, formData, TermsAccepted, "You must accept the terms");
      formErrors := errors;
      valid := |errors| == 0;
    }

    /**
     * `handleSubmit`: an invalid form is kept and nothing is created;
     * a valid one is handed to `create` and the form is reset.
     */
    method HandleSubmit(store: Store, now: string) returns (created: Option<Record>)
      requires Valid() && store.Valid() && store.entity == Domains
      modifies this, store
      ensures Valid() && store.Valid()
      ensures formErrors == SellerErrors(old(formData))
      ensures formErrors != map[] ==>
        created == None && store.records == old(store.records) && formData == old(formData)
      ensures formErrors == map[] ==>
        && created == Some(Created(Domains, old(store.records), DomainData(old(formData)), now))
        && store.records == old(store.records) + [created.value]
        && formData == InitialForm()
    {
      var valid := ValidateForm();
      if !valid {
        created := None;
        return;
      }
      var record := SubmitValid(store, now);
      created := Some(record);
    }

    /** The `try` block of `handleSubmit`: create the domain, then reset the form. */
    method SubmitValid(store: Store, now: string) returns (record: Record)
      requires Valid() && store.Valid() && store.entity == Domains
      modifies this, store
      ensures Valid() && store.Valid()
      ensures record == Created(Domains, old(store.records), DomainData(old(formData)), now)
      ensures store.records == old(store.records) + [record]
      ensures formData == InitialForm() && formErrors == old(formErrors)
    {
      record := store.Create(DomainData(formData), now);
      formData := InitialForm();
    }
  }

  /**
   * The errors object holds exactly one entry per field that fails its
   * check, with that field's message, and nothing else.
   */
  lemma SellerErrorsAt(form: SellerForm, field: SellerField)
    requires WellTyped(form)
    ensures field in SellerErrors(form) <==> FieldError(form, field).Some?
    ensures field in SellerErrors(form) ==> SellerErrors(form)[field] == FieldError(form, field).value
  {
    var c1, c2, c3 := Required(form, Name, "Domain name is required"), PriceError(form[Price].s), Required(form, Category, "Category is required");
    var c4, c5 := Required(form, Description, "Description is required"), Required(form, OwnershipConfirmed, "You must confirm ownership");
    var c6 := Required(form, TermsAccepted, "You must accept the terms");
    var e1 := WithError(map[], Name, c1);
    var e2 := WithError(e1, Price, c2);
    var e3 := WithError(e2, Category, c3);
    var e4 := WithError(e3, Description, c4);
    var e5 := WithError(e4, OwnershipConfirmed, c5);
    assert SellerErrors(form) == WithError(e5, TermsAccepted, c6);
    WithErrorAt(map[], Name, c1, field);
    WithErrorAt(e1, Price, c2, field);
    WithErrorAt(e2, Category, c3, field);
    WithErrorAt(e3, Description, c4, field);
    WithErrorAt(e4, OwnershipConfirmed, c5, field);
    WithErrorAt(e5, TermsAccepted, c6, field);
  }

  /** The form passes validation exactly when every field passes its check. */
  lemma ValidIffNoFieldFails(form: SellerForm)
    requires WellTyped(form)
    ensures SellerErrors(form) == map[] <==> forall field :: FieldError(form, field).None?
  {
    forall field ensures field in SellerErrors(form) <==> FieldError(form, field).Some? {
      SellerErrorsAt(form, field);
    }
    if SellerErrors(form) != map[] {
      var field :| field in SellerErrors(form);
    }
  }

  /** The extension is never checked: changing it changes no error. */
  lemma ExtensionNeverValidated(form: SellerForm, extension: string)
    requires WellTyped(form)
    ensures Extension !in SellerErrors(form)
    ensures SellerErrors(form[Extension := Str(extension)]) == SellerErrors(form)
  {
    SellerErrorsAt(form, Extension);
    var form' := form[Extension := Str(extension)];
    assert form'[Price].s == form[Price].s;
    assert Required(form', Name, "Domain name is required") == Required(form, Name, "Domain name is required");
    assert Required(form', Category, "Category is required") == Required(form, Category, "Category is required");
    assert Required(form', Description, "Description is required") == Required(form, Description, "Description is required");
    assert Required(form', OwnershipConfirmed, "You must confirm ownership")
      == Required(form, OwnershipConfirmed, "You must confirm ownership");
    assert Required(form', TermsAccepted, "You must accept the terms")
      == Required(form, TermsAccepted, "You must accept the terms");
  }

  /** A price that passes is one `parseInt` reads as positive, or one it cannot read at all. */
  lemma AcceptedPriceIsPositiveOrNaN(price: string)
    requires PriceError(price) == None
    ensures price != "" && !StringIsNaN(price)
    ensures ParseInt(price).NaN? || ParseInt(price).n > 0
  {
  }

  /** A positive whole number typed as its numeral passes and is submitted as that number. */
  lemma PositivePriceAccepted(n: nat)
    requires n > 0
    ensures PriceError(NatToString(n)) == None
    ensures ParseInt(NatToString(n)) == Num(n)
  {
    DigitsAreNumeric(NatToString(n));
    ParseIntOfNumeral(n, []);
    assert IntToString(n) + [] == NatToString(n);
  }

  /** Zero or a negative whole number is refused with the number message. */
  lemma NonPositivePriceRefused(n: int)
    requires n <= 0
    ensures PriceError(IntToString(n)) == Some("Price must be a valid number")
  {
    ParseIntOfNumeral(n, []);
    assert IntToString(n) + [] == IntToString(n);
  }

  /**
   * A price of blanks passes: `isNaN` reads it as 0, while `parseInt` gives
   * NaN, which compares false with 0; the submitted price is then NaN.
   */
  lemma BlankPriceAccepted(price: string)
    requires price == " "
    ensures PriceError(price) == None
    ensures ParseInt(price) == NaN
  {
    assert TrimStart(price) == [];
    assert TrimEnd(TrimStart(price)) == [];
    ParseIntNoDigits(price);
  }

  /**
   * The submitted record: the name lower-cased with the extension appended,
   * the pending status and the placeholder seller, and the other fields
   * copied from the form.
   */
  lemma DomainDataFields(form: SellerForm)
    requires WellTyped(form)
    ensures var data := DomainData(form); var name := form[Name].s;
      && data["name"].Str? && |data["name"].s| == |name| + |form[Extension].s|
      && (forall i | 0 <= i < |name| :: data["name"].s[i] == LowerChar(name[i]))
      && data["name"].s[|name|..] == form[Extension].s
      && data["status"] == Str("pending-approval") && data["sellerId"] == Str("seller-123")
      && data["category"] == form[Category] && data["description"] == form[Description]
      && data["extension"] == form[Extension]
  {
    var name := form[Name].s;
    var full := ToLower(name) + form[Extension].s;
    assert full[|name|..] == form[Extension].s;
  }

  /** A positive whole number typed as its numeral is submitted as that number. */
  lemma DomainDataPrice(form: SellerForm, n: nat)
    requires WellTyped(form) && n > 0 && form[Price] == Str(NatToString(n))
    ensures DomainData(form)["price"] == Int(n)
  {
    PositivePriceAccepted(n);
  }
}
