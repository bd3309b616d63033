/**
 * DebtModal: the debt form's state, validation, per-field error clearing,
 * prefill and payload. The due date is optional: it is never an error, and
 * an empty one is sent as `null`.
 */
module DebtModalForm {
  import opened Wrappers
  import opened Entities
  import Forms
  import Text

  datatype Field = PersonName | Amount | Description | DueDate

  datatype Form = Form(personName: string, amount: string, description: string, dueDate: string)

  function Get(form: Form, f: Field): string {
    match f
    case PersonName => form.personName
    case Amount => form.amount
    case Description => form.description
    case DueDate => form.dueDate
  }

  /** `{ ...prev, [name]: value }`. */
  function Set(form: Form, f: Field, v: string): (r: Form)
    ensures Get(r, f) == v
    ensures forall g :: g != f ==> Get(r, g) == Get(form, g)
  {
    match f
    case PersonName => form.(personName := v)
    case Amount => form.(amount := v)
    case Description => form.(description := v)
    case DueDate => form.(dueDate := v)
  }

  const EmptyForm := Form("", "", "", "")

  /** Edit mode shows the debt's fields as text, the due date as its date part or "" when there is none. */
  function Prefill(debt: Option<Debt>, show: real -> string): Form {
    match debt
    case Some(d) =>
      Form(d.personName, show(d.amount), d.description,
           if HasDueDate(d) then Forms.DatePart(d.dueDate.value) else "")
    case None => EmptyForm
  }

  /** The rule each field must pass; the due date has none. */
  predicate Invalid(form: Form, f: Field, parse: string -> Option<real>) {
    match f
    case PersonName => Text.IsBlank(form.personName)
    case Amount => Forms.AmountRejected(form.amount, parse)
    case Description => Text.IsBlank(form.description)
    case DueDate => false
  }

  function Message(f: Field): string {
    match f
    case PersonName => "Please enter a person's name"
    case Amount => "Please enter a valid amount"
    case Description => "Please enter a description"
    case DueDate => ""
  }

  predicate Valid(form: Form, parse: string -> Option<real>) {
    forall f :: !Invalid(form, f, parse)
  }

  /** The error map holds the field's message exactly when the field breaks its rule. */
  predicate Recorded(errors: map<Field, string>, form: Form, f: Field, parse: string -> Option<real>) {
    (f in errors <==> Invalid(form, f, parse)) && (f in errors ==> errors[f] == Message(f))
  }

  /**
   * `{ ...formData, amount: parseFloat(amount), dueDate: dueDate ? toIso(dueDate) : null }`.
   * isPaid is not sent, so an edit keeps the stored flag.
   */
  function Payload(form: Form, parse: string -> Option<real>, toIso: string -> string): DebtPatch
    requires !Invalid(form, Amount, parse)
  {
    DebtPatch(None, Some(form.personName), Some(parse(form.amount).value), Some(form.description),
              Some(if form.dueDate != "" then Some(toIso(form.dueDate)) else None), None, None)
  }

  class DebtModal {
    var formData: Form
    var errors: map<Field, string>
    var isSubmitting: bool

    constructor ()
      ensures formData == EmptyForm && errors == map[] && !isSubmitting
    {
      formData := EmptyForm;
      errors := map[];
      isSubmitting := false;
    }

    /** The prefill/reset effect: the form is refilled and every error cleared. */
    method Reset(debt: Option<Debt>, show: real -> string)
      modifies this
      ensures formData == Prefill(debt, show) && errors == map[]
      ensures isSubmitting == old(isSubmitting)
    {
      formData := Prefill(debt, show);
      errors := map[];
    }

    /** handleChange: one field takes the typed value; that field's showing error is blanked. */
    method HandleChange(f: Field, v: string)
      modifies this
      ensures formData == Set(old(formData), f, v)
      ensures errors == Forms.ClearOnChange(old(errors), f)
      ensures isSubmitting == old(isSubmitting)
    {
      formData := Set(formData, f, v);
      errors := Forms.ClearOnChange(errors, f);
    }

    /** validateForm: a message for exactly the fields that break their rule; true when none did. */
    method ValidateForm(parse: string -> Option<real>) returns (ok: bool)
      modifies this
      ensures formData == old(formData) && isSubmitting == old(isSubmitting)
      ensures forall f :: Recorded(errors, formData, f, parse)
      ensures DueDate !in errors
      ensures ok <==> Valid(formData, parse)
    {
      var newErrors: map<Field, string> := map[];
      if Text.IsBlank(formData.personName) {
        newErrors := newErrors[PersonName := Message(PersonName)];
      }
      assert Recorded(newErrors, formData, PersonName, parse);
      if Forms.AmountRejected(formData.amount, parse) {
        newErrors := newErrors[Amount := Message(Amount)];
      }
      assert Recorded(newErrors, formData, Amount, parse);
      if Text.IsBlank(formData.description) {
        newErrors := newErrors[Description := Message(Description)];
      }
      assert Recorded(newErrors, formData, Description, parse);
      forall f ensures Recorded(newErrors, formData, f, parse) {
        match f
        case PersonName =>
        case Amount =>
        case Description =>
        case DueDate =>
      }
      errors := newErrors;
      ok := newErrors == map[];
      ghost var form := formData;
      ghost var invalid := f => Invalid(form, f, parse);
      forall f ensures f in newErrors <==> invalid(f) {
        assert Recorded(newErrors, form, f, parse);
      }
      Forms.NoErrorsIffValid(newErrors, invalid);
    }

    /** An invalid form stops without touching the submitting flag; a valid one sets it and yields the payload. */
    method BeginSubmit(parse: string -> Option<real>, toIso: string -> string) returns (payload: Option<DebtPatch>)
      modifies this
      ensures formData == old(formData)
      ensures payload.None? <==> !Valid(formData, parse)
      ensures payload.None? ==> isSubmitting == old(isSubmitting)
      ensures payload.Some? ==> isSubmitting && payload.value == Payload(formData, parse, toIso)
    {
      var ok := ValidateForm(parse);
      if !ok {
        return None;
      }
      isSubmitting := true;
      return Some(Payload(formData, parse, toIso));
    }

    /** The flag drops either way; the modal closes only after a successful save. */
    method FinishSubmit(succeeded: bool) returns (close: bool)
      modifies this
      ensures !isSubmitting && close == succeeded
      ensures formData == old(formData) && errors == old(errors)
    {
      isSubmitting := false;
      close := succeeded;
    }
  }

  /**
   * Whatever the due date holds, it never blocks saving; a valid form saves a
   * named, described debt of positive amount whose due date is null exactly
   * when the field was left empty, and whose paid flag is the stored one.
   */
  lemma PayloadWellFormed(form: Form, parse: string -> Option<real>, toIso: string -> string, d: Debt)
    requires Valid(form, parse)
    ensures forall v :: Valid(Set(form, DueDate, v), parse)
    ensures var r := OverlayDebt(d, Payload(form, parse, toIso));
      r.amount > 0.0 && !Text.IsBlank(r.personName) && !Text.IsBlank(r.description)
      && (r.dueDate.None? <==> form.dueDate == "")
      && r.isPaid == d.isPaid && r.Id == d.Id && r.createdAt == d.createdAt
  {
    assert !Invalid(form, PersonName, parse);
    assert !Invalid(form, Amount, parse);
    assert !Invalid(form, Description, parse);
    forall v ensures Valid(Set(form, DueDate, v), parse) {
      var g := Set(form, DueDate, v);
      assert Get(g, PersonName) == Get(form, PersonName);
      assert Get(g, Amount) == Get(form, Amount);
      assert Get(g, Description) == Get(form, Description);
    }
  }

  /**
   * Editing an acceptable debt: the prefilled form validates, and saving it
   * unchanged gives the stored debt back when the amount and due date
   * convert back. A stored empty due date comes back as null.
   */
  lemma EditRoundTrip(d: Debt, show: real -> string, parse: string -> Option<real>, toIso: string -> string)
    requires d.amount > 0.0 && show(d.amount) != "" && parse(show(d.amount)) == Some(d.amount)
    requires !Text.IsBlank(d.personName) && !Text.IsBlank(d.description)
    ensures Valid(Prefill(Some(d), show), parse)
    ensures (HasDueDate(d) && Forms.DatePart(d.dueDate.value) != ""
             && toIso(Forms.DatePart(d.dueDate.value)) == d.dueDate.value) ==>
      OverlayDebt(d, Payload(Prefill(Some(d), show), parse, toIso)) == d
    ensures !HasDueDate(d) ==>
      OverlayDebt(d, Payload(Prefill(Some(d), show), parse, toIso)) == d.(dueDate := None)
  {
    var form := Prefill(Some(d), show);
    forall f ensures !Invalid(form, f, parse) {
    }
  }
}
