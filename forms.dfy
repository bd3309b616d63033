/**
 * What the three modal forms share: the per-field error map, the amount
 * rule, and the date text shown in a date input.
 */
module Forms {
  import opened Wrappers

  /**
   * When exactly the failing fields carry an entry, the error map is empty
   * exactly when no field fails: `Object.keys(newErrors).length === 0` is the
   * form being valid.
   */
  lemma NoErrorsIffValid<F>(errors: map<F, string>, invalid: F -> bool)
    requires forall f :: f in errors <==> invalid(f)
    ensures errors == map[] <==> forall f :: !invalid(f)
  {
    if errors != map[] {
      var f :| f in errors;
      assert invalid(f);
    }
  }

  /** `errors[name]` is truthy: a message is recorded and has not been blanked. */
  predicate HasError<F(==)>(errors: map<F, string>, f: F) {
    f in errors && errors[f] != ""
  }

  /**
   * The error side of handleChange: the field's message is blanked, and only
   * when one is showing; no key is added or dropped and no other message moves.
   */
  function ClearOnChange<F(==)>(errors: map<F, string>, f: F): (r: map<F, string>)
    ensures !HasError(r, f)
    ensures r.Keys == errors.Keys
    ensures forall g :: g in r && g != f ==> r[g] == errors[g]
    ensures !HasError(errors, f) ==> r == errors
  {
    if HasError(errors, f) then errors[f := ""] else errors
  }

  /**
   * `!s || isNaN(s) || parseFloat(s) <= 0`. `parse` stands for JavaScript's
   * string-to-number conversion; None is NaN.
   */
  predicate AmountRejected(s: string, parse: string -> Option<real>) {
    s == "" || parse(s).None? || parse(s).value <= 0.0
  }

  /** `s.split('T')[0]`: the longest prefix of `s` without a 'T'. */
  function DatePart(s: string): (r: string)
    ensures r <= s
    ensures 'T' !in r
    ensures |r| < |s| ==> s[|r|] == 'T'
  {
    if |s| == 0 || s[0] == 'T' then "" else [s[0]] + DatePart(s[1..])
  }

  /** A text with no 'T' (a plain date) is its own date part, so the split is idempotent. */
  lemma DatePartIdempotent(s: string)
    ensures DatePart(DatePart(s)) == DatePart(s)
    ensures 'T' !in s ==> DatePart(s) == s
  {
  }
}
