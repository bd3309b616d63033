/**
 * ExpenseModal: the form state, its validation, the per-field error
 * clearing, the prefill on open, and the payload handed to the page.
 * `show` stands for `Number.prototype.toString`, `parse` for the string to
 * number conversion, `toIso` for `new Date(text).toISOString()`, and `today`
 * for today's date text.
 */
module ExpenseModalForm {
  import opened Wrappers
  import opened Entities
  import Forms
  import Text

  datatype Field = Amount | Category | Description | Date

  /** `formData`: every field as the text the inputs hold. */
  datatype Form = Form(amount: string, category: string, description: string, date: string)

  function Get(form: Form, f: Field): string {
    match f
    case Amount => form.amount
    case Category => form.category
    case Description => form.description
    case Date => form.date
  }

  /** `{ ...prev, [name]: value }`. */
  function Set(form: Form, f: Field, v: string): (r: Form)
    ensures Get(r, f) == v
    ensures forall g :: g != f ==> Get(r, g) == Get(form, g)
  {
    match f
    case Amount => form.(amount := v)
    case Category => form.(category := v)
    case Description => form.(description := v)
    case Date => form.(date := v)
  }

  /** The add-mode form: empty, dated today. */
  function EmptyForm(today: string): Form {
    Form("", "", "", today)
  }

  /** The effect run on open: the expense's fields as text in edit mode, the empty form otherwise. */
  function Prefill(expense: Option<Expense>, today: string, show: real -> string): Form {
    match expense
    case Some(e) => Form(show(e.amount), e.category, e.description, Forms.DatePart(e.date))
    case None => EmptyForm(today)
  }

  /** The rule each field must pass. */
  predicate Invalid(form: Form, f: Field, parse: string -> Option<real>) {
    match f
    case Amount => Forms.AmountRejected(form.amount, parse)
    case Category => form.category == ""
    case Description => Text.IsBlank(form.description)
    case Date => form.date == ""
  }

  function Message(f: Field): string {
    match f
    case Amount => "Please enter a valid amount"
    case Category => "Please select a category"
    case Description => "Please enter a description"
    case Date => "Please select a date"
  }

  predicate Valid(form: Form, parse: string -> Option<real>) {
    forall f :: !Invalid(form, f, parse)
  }

  /** The error map holds the field's message exactly when the field breaks its rule. */
  predicate Recorded(errors: map<Field, string>, form: Form, f: Field, parse: string -> Option<real>) {
    (f in errors <==> Invalid(form, f, parse)) && (f in errors ==> errors[f] == Message(f))
  }

  /** `{ ...formData, amount: parseFloat(amount), date: new Date(date).toISOString() }`. */
  function Payload(form: Form, parse: string -> Option<real>, toIso: string -> string): ExpensePatch
    requires !Invalid(form, Amount, parse)
  {
    ExpensePatch(None, Some(parse(form.amount).value), Some(form.category), Some(form.description),
                 Some(toIso(form.date)), None)
  }

  class ExpenseModal {
    var formData: Form
    var errors: map<Field, string>
    var isSubmitting: bool

    constructor (today: string)
      ensures formData == EmptyForm(today) && errors == map[] && !isSubmitting
    {
      formData := EmptyForm(today);
      errors := map[];
      isSubmitting := false;
    }

    /** The prefill/reset effect: the form is refilled and every error cleared. */
    method Reset(expense: Option<Expense>, today: string, show: real -> string)
      modifies this
      ensures formData == Prefill(expense, today, show) && errors == map[]
      ensures isSubmitting == old(isSubmitting)
    {
      formData := Prefill(expense, today, show);
      errors := map[];
    }

    /** handleChange: one field takes the typed value; that field's showing error is blanked. */
    method HandleChange(f: Field, v: string)
      modifies this
      ensures formData == Set(old(formData), f, v)
      ensures errors == Forms.ClearOnChange(old(errors), f)
      ensures isSubmitting == old(isSubmitting)
    {
      formData := Set(formData, f, v);
      errors := Forms.ClearOnChange(errors, f);
    }

    /**
     * validateForm: records a message for exactly the fields that break
     * their rule, replacing every earlier error, and answers whether none did.
     */
    method ValidateForm(parse: string -> Option<real>) returns (ok: bool)
      modifies this
      ensures formData == old(formData) && isSubmitting == old(isSubmitting)
      ensures forall f :: Recorded(errors, formData, f, parse)
      ensures ok <==> Valid(formData, parse)
    {
      var newErrors: map<Field, string> := map[];
      if Forms.AmountRejected(formData.amount, parse) {
        newErrors := newErrors[Amount := Message(Amount)];
      }
      assert Recorded(newErrors, formData, Amount, parse);
      if formData.category == "" {
        newErrors := newErrors[Field.Category := Message(Field.Category)];
      }
      assert Recorded(newErrors, formData, Field.Category, parse);
      if Text.IsBlank(formData.description) {
        newErrors := newErrors[Description := Message(Description)];
      }
      assert Recorded(newErrors, formData, Description, parse);
      if formData.date == "" {
        newErrors := newErrors[Date := Message(Date)];
      }
      assert Recorded(newErrors, formData, Date, parse);
      forall f ensures Recorded(newErrors, formData, f, parse) {
        match f
        case Amount =>
        case Category =>
        case Description =>
        case Date =>
      }
      errors := newErrors;
      ok := newErrors == map[];
      ghost var form := formData;
      ghost var invalid := f => Invalid(form, f, parse);
      forall f ensures f in newErrors <==> invalid(f) {
        assert Recorded(newErrors, form, f, parse);
      }
      Forms.NoErrorsIffValid(newErrors, invalid);
    }

    /**
     * The first half of handleSubmit: an invalid form stops here without
     * touching the submitting flag; a valid one sets it and yields the payload.
     */
    method BeginSubmit(parse: string -> Option<real>, toIso: string -> string) returns (payload: Option<ExpensePatch>)
      modifies this
      ensures formData == old(formData)
      ensures payload.None? <==> !Valid(formData, parse)
      ensures payload.None? ==> isSubmitting == old(isSubmitting)
      ensures payload.Some? ==> isSubmitting && payload.value == Payload(formData, parse, toIso)
    {
      var ok := ValidateForm(parse);
      if !ok {
        return None;
      }
      isSubmitting := true;
      return Some(Payload(formData, parse, toIso));
    }

    /** The second half: the flag drops either way; the modal closes only after a successful save. */
    method FinishSubmit(succeeded: bool) returns (close: bool)
      modifies this
      ensures !isSubmitting && close == succeeded
      ensures formData == old(formData) && errors == old(errors)
    {
      isSubmitting := false;
      close := succeeded;
    }
  }

  /**
   * A valid form yields a record the rules accept: the payload carries a
   * positive amount, a category and a non-blank description, and carries no
   * Id or createdAt, so an edit keeps the stored ones.
   */
  lemma PayloadWellFormed(form: Form, parse: string -> Option<real>, toIso: string -> string, e: Expense)
    requires Valid(form, parse)
    ensures var r := OverlayExpense(e, Payload(form, parse, toIso));
      r.amount > 0.0 && r.category != "" && !Text.IsBlank(r.description)
      && r.Id == e.Id && r.createdAt == e.createdAt
  {
    assert !Invalid(form, Amount, parse);
    assert !Invalid(form, Field.Category, parse);
    assert !Invalid(form, Description, parse);
  }

  /** The add-mode form cannot be saved as it opens. */
  lemma EmptyFormInvalid(today: string, parse: string -> Option<real>)
    ensures Invalid(EmptyForm(today), Amount, parse) && Invalid(EmptyForm(today), Field.Category, parse)
    ensures !Valid(EmptyForm(today), parse)
  {
    assert Invalid(EmptyForm(today), Amount, parse);
  }

  /**
   * Editing an acceptable expense: the prefilled form validates when the
   * amount's text parses back to the amount, and saving it unchanged gives
   * the stored expense back when the date's date part converts back to it.
   */
  lemma EditRoundTrip(e: Expense, today: string, show: real -> string,
                      parse: string -> Option<real>, toIso: string -> string)
    requires e.amount > 0.0 && show(e.amount) != "" && parse(show(e.amount)) == Some(e.amount)
    requires e.category != "" && !Text.IsBlank(e.description) && Forms.DatePart(e.date) != ""
    ensures Valid(Prefill(Some(e), today, show), parse)
    ensures toIso(Forms.DatePart(e.date)) == e.date ==>
      OverlayExpense(e, Payload(Prefill(Some(e), today, show), parse, toIso)) == e
  {
    var form := Prefill(Some(e), today, show);
    forall f ensures !Invalid(form, f, parse) {
    }
  }
}
