/**
 * BudgetModal: the budget form's state, validation, per-field error
 * clearing, prefill (a new budget defaults to a monthly period) and payload.
 */
module BudgetModalForm {
  import opened Wrappers
  import opened Entities
  import Forms

  datatype Field = Category | Limit | Period

  datatype Form = Form(category: string, limit: string, period: string)

  /** The options of the period drop-down. */
  const PeriodChoices: seq<string> := ["weekly", "monthly", "yearly"]

  function Get(form: Form, f: Field): string {
    match f
    case Category => form.category
    case Limit => form.limit
    case Period => form.period
  }

  /** `{ ...prev, [name]: value }`. */
  function Set(form: Form, f: Field, v: string): (r: Form)
    ensures Get(r, f) == v
    ensures forall g :: g != f ==> Get(r, g) == Get(form, g)
  {
    match f
    case Category => form.(category := v)
    case Limit => form.(limit := v)
    case Period => form.(period := v)
  }

  const EmptyForm := Form("", "", "monthly")

  /** Edit mode shows the budget's fields as text; add mode is empty with a monthly period. */
  function Prefill(budget: Option<Budget>, show: real -> string): Form {
    match budget
    case Some(b) => Form(b.category, show(b.limit), b.period)
    case None => EmptyForm
  }

  predicate Invalid(form: Form, f: Field, parse: string -> Option<real>) {
    match f
    case Category => form.category == ""
    case Limit => Forms.AmountRejected(form.limit, parse)
    case Period => form.period == ""
  }

  function Message(f: Field): string {
    match f
    case Category => "Please select a category"
    case Limit => "Please enter a valid budget limit"
    case Period => "Please select a period"
  }

  predicate Valid(form: Form, parse: string -> Option<real>) {
    forall f :: !Invalid(form, f, parse)
  }

  /** The error map holds the field's message exactly when the field breaks its rule. */
  predicate Recorded(errors: map<Field, string>, form: Form, f: Field, parse: string -> Option<real>) {
    (f in errors <==> Invalid(form, f, parse)) && (f in errors ==> errors[f] == Message(f))
  }

  /** `{ ...formData, limit: parseFloat(limit) }`. */
  function Payload(form: Form, parse: string -> Option<real>): BudgetPatch
    requires !Invalid(form, Limit, parse)
  {
    BudgetPatch(None, Some(form.category), Some(parse(form.limit).value), Some(form.period), None)
  }

  class BudgetModal {
    var formData: Form
    var errors: map<Field, string>
    var isSubmitting: bool

    constructor ()
      ensures formData == EmptyForm && errors == map[] && !isSubmitting
    {
      formData := EmptyForm;
      errors := map[];
      isSubmitting := false;
    }

    /** The prefill/reset effect: the form is refilled and every error cleared. */
    method Reset(budget: Option<Budget>, show: real -> string)
      modifies this
      ensures formData == Prefill(budget, show) && errors == map[]
      ensures isSubmitting == old(isSubmitting)
    {
      formData := Prefill(budget, show);
      errors := map[];
    }

    /** handleChange: one field takes the typed value; that field's showing error is blanked. */
    method HandleChange(f: Field, v: string)
      modifies this
      ensures formData == Set(old(formData), f, v)
      ensures errors == Forms.ClearOnChange(old(errors), f)
      ensures isSubmitting == old(isSubmitting)
    {
      formData := Set(formData, f, v);
      errors := Forms.ClearOnChange(errors, f);
    }

    /** validateForm: a message for exactly the fields that break their rule; true when none did. */
    method ValidateForm(parse: string -> Option<real>) returns (ok: bool)
      modifies this
      ensures formData == old(formData) && isSubmitting == old(isSubmitting)
      ensures forall f :: Recorded(errors, formData, f, parse)
      ensures ok <==> Valid(formData, parse)
    {
      var newErrors: map<Field, string> := map[];
      if formData.category == "" {
        newErrors := newErrors[Field.Category := Message(Field.Category)];
      }
      assert Recorded(newErrors, formData, Field.Category, parse);
      if Forms.AmountRejected(formData.limit, parse) {
        newErrors := newErrors[Limit := Message(Limit)];
      }
      assert Recorded(newErrors, formData, Limit, parse);
      if formData.period == "" {
        newErrors := newErrors[Period := Message(Period)];
      }
      assert Recorded(newErrors, formData, Period, parse);
      forall f ensures Recorded(newErrors, formData, f, parse) {
        match f
        case Category =>
        case Limit =>
        case Period =>
      }
      errors := newErrors;
      ok := newErrors == map[];
      ghost var form := formData;
      ghost var invalid := f => Invalid(form, f, parse);
      forall f ensures f in newErrors <==> invalid(f) {
        assert Recorded(newErrors, form, f, parse);
      }
      Forms.NoErrorsIffValid(newErrors, invalid);
    }

    /** An invalid form stops without touching the submitting flag; a valid one sets it and yields the payload. */
    method BeginSubmit(parse: string -> Option<real>) returns (payload: Option<BudgetPatch>)
      modifies this
      ensures formData == old(formData)
      ensures payload.None? <==> !Valid(formData, parse)
      ensures payload.None? ==> isSubmitting == old(isSubmitting)
      ensures payload.Some? ==> isSubmitting && payload.value == Payload(formData, parse)
    {
      var ok := ValidateForm(parse);
      if !ok {
        return None;
      }
      isSubmitting := true;
      return Some(Payload(formData, parse));
    }

    /** The flag drops either way; the modal closes only after a successful save. */
    method FinishSubmit(succeeded: bool) returns (close: bool)
      modifies this
      ensures !isSubmitting && close == succeeded
      ensures formData == old(formData) && errors == old(errors)
    {
      isSubmitting := false;
      close := succeeded;
    }
  }

  /**
   * The add form opens on a period the drop-down offers, and any offered
   * period passes the period rule; only the category and the limit remain
   * to be filled in.
   */
  lemma PeriodDefaults(form: Form, parse: string -> Option<real>)
    ensures EmptyForm.period in PeriodChoices
    ensures forall p :: p in PeriodChoices ==> !Invalid(Set(form, Period, p), Period, parse)
    ensures Invalid(EmptyForm, Field.Category, parse) && Invalid(EmptyForm, Limit, parse)
    ensures !Invalid(EmptyForm, Period, parse)
  {
    assert EmptyForm.period == PeriodChoices[1];
  }

  /** A valid form saves a categorised budget with a positive limit and a period, keeping the stored Id and createdAt. */
  lemma PayloadWellFormed(form: Form, parse: string -> Option<real>, b: Budget)
    requires Valid(form, parse)
    ensures var r := OverlayBudget(b, Payload(form, parse));
      r.limit > 0.0 && r.category != "" && r.period != "" && r.Id == b.Id && r.createdAt == b.createdAt
  {
    assert !Invalid(form, Field.Category, parse);
    assert !Invalid(form, Limit, parse);
    assert !Invalid(form, Period, parse);
  }

  /** Editing an acceptable budget: the prefill validates and, unchanged, saves the stored budget back. */
  lemma EditRoundTrip(b: Budget, show: real -> string, parse: string -> Option<real>)
    requires b.limit > 0.0 && show(b.limit) != "" && parse(show(b.limit)) == Some(b.limit)
    requires b.category != "" && b.period != ""
    ensures Valid(Prefill(Some(b), show), parse)
    ensures OverlayBudget(b, Payload(Prefill(Some(b), show), parse)) == b
  {
    var form := Prefill(Some(b), show);
    forall f ensures !Invalid(form, f, parse) {
    }
  }
}
