/**
 * The generic form engine (src/app/hooks/useForm.ts): a state container with
 * a `values` record and an `errors` record, a declarative rule table, change
 * handlers, validation and submission.
 */
module Form {
  import opened Wrappers

  /** Field name to raw value; a missing key is JavaScript's `undefined`. */
  type Values = map<string, string>

  /** Field name to error message; a missing key means "no error". */
  type Errors = map<string, string>

  /** `ValidationRule`: each part is optional in the source. */
  datatype Rule = Rule(required: bool, check: Option<string -> bool>, message: Option<string>)

  const RequiredMessage: string := "Este campo é obrigatório"
  const InvalidMessage: string := "Valor inválido"

  /** `values[key]` */
  function Lookup(values: Values, key: string): Option<string>
  {
    if key in values then Some(values[key]) else None
  }

  /** JavaScript truthiness of a string-or-undefined: defined and non-empty. */
  predicate Truthy(v: Option<string>)
  {
    v.Some? && v.value != ""
  }

  /** `rule.message || 'Valor inválido'` */
  function FailureMessage(rule: Rule): (m: string)
    ensures m != ""
    ensures rule.message.Some? && rule.message.value != "" ==> m == rule.message.value
    ensures rule.message.None? || rule.message.value == "" ==> m == InvalidMessage
  {
    if rule.message.Some? && rule.message.value != "" then rule.message.value else InvalidMessage
  }

  /**
   * The verdict of one rule on one value: `required` first, then the
   * predicate on a present value, else no error.
   */
  function FieldError(rule: Rule, value: Option<string>): (r: Option<string>)
    ensures r.Some? ==> r.value != ""
    ensures r.None? <==> (rule.required ==> Truthy(value)) && (rule.check.Some? && Truthy(value) ==> rule.check.value(value.value))
    ensures rule.required && !Truthy(value) ==> r == Some(RequiredMessage)
  {
    if rule.required && !Truthy(value) then Some(RequiredMessage)
    else if rule.check.Some? && Truthy(value) && !rule.check.value(value.value) then Some(FailureMessage(rule))
    else None
  }

  /** The error map that one validation pass produces from scratch. */
  function ErrorsFor(rules: map<string, Rule>, values: Values): (e: Errors)
    ensures e.Keys <= rules.Keys
    ensures forall k :: k in e ==> e[k] != ""
    ensures forall k :: k in rules ==> (k in e <==> FieldError(rules[k], Lookup(values, k)).Some?)
  {
    map k | k in rules && FieldError(rules[k], Lookup(values, k)).Some? :: FieldError(rules[k], Lookup(values, k)).value
  }

  /** The rule of `key` accepts the current value of `key`. */
  predicate Passes(rules: map<string, Rule>, values: Values, key: string)
    requires key in rules
  {
    var rule, v := rules[key], Lookup(values, key);
    && (rule.required ==> Truthy(v))
    && (rule.check.Some? && Truthy(v) ==> rule.check.value(v.value))
  }

  /**
   * Validation succeeds exactly when every required field has a truthy value
   * and every field with a predicate and a truthy value satisfies it.
   */
  lemma ErrorsEmptyIffAllPass(rules: map<string, Rule>, values: Values)
    ensures ErrorsFor(rules, values) == map[] <==> forall k :: k in rules ==> Passes(rules, values, k)
  {
    var e := ErrorsFor(rules, values);
    if forall k :: k in rules ==> Passes(rules, values, k) {
      assert e.Keys == {};
    } else {
      var k :| k in rules && !Passes(rules, values, k);
      assert k in e;
    }
  }

  /**
   * A required field whose value is missing or empty gets exactly the
   * "required" message, whatever its predicate would say.
   */
  lemma RequiredFieldMissing(rules: map<string, Rule>, values: Values, key: string, other: Option<string -> bool>)
    requires key in rules && rules[key].required && !Truthy(Lookup(values, key))
    ensures key in ErrorsFor(rules, values) && ErrorsFor(rules, values)[key] == RequiredMessage
    ensures ErrorsFor(rules[key := rules[key].(check := other)], values) == ErrorsFor(rules, values)
  {
    var rules' := rules[key := rules[key].(check := other)];
    assert forall k :: k in rules' ==> FieldError(rules'[k], Lookup(values, k)) == FieldError(rules[k], Lookup(values, k));
  }

  /** A field that is not required never errs while its value is missing or empty. */
  lemma OptionalFieldMissing(rules: map<string, Rule>, values: Values, key: string)
    requires key in rules && !rules[key].required && !Truthy(Lookup(values, key))
    ensures key !in ErrorsFor(rules, values)
  {
  }

  /** A present value that fails its predicate gets the rule's message, or the fallback. */
  lemma PredicateFails(rules: map<string, Rule>, values: Values, key: string)
    requires key in rules && Truthy(Lookup(values, key))
    requires rules[key].check.Some? && !rules[key].check.value(values[key])
    ensures key in ErrorsFor(rules, values)
    ensures ErrorsFor(rules, values)[key]
         == if rules[key].message.Some? && rules[key].message.value != "" then rules[key].message.value else InvalidMessage
  {
  }

  /**
   * The loop of `validate`: a fresh `newErrors` filled field by field, in
   * the order `Object.keys` yields (the result does not depend on it).
   */
  method CollectErrors(validations: map<string, Rule>, values: Values) returns (newErrors: Errors)
    ensures newErrors == ErrorsFor(validations, values)
  {
    newErrors := map[];
    var pending := validations.Keys;
    while pending != {}
      invariant pending <= validations.Keys
      invariant forall k :: k in newErrors <==> k in validations && k !in pending && FieldError(validations[k], Lookup(values, k)).Some?
      invariant forall k :: k in newErrors ==> newErrors[k] == FieldError(validations[k], Lookup(values, k)).value
      decreases pending
    {
      var key :| key in pending;
      var rule := validations[key];
      var value := Lookup(values, key);
      if rule.required && !Truthy(value) {
        newErrors := newErrors[key := RequiredMessage];
      } else if rule.check.Some? && Truthy(value) && !rule.check.value(value.value) {
        newErrors := newErrors[key := FailureMessage(rule)];
      }
      pending := pending - {key};
    }
  }

  /** `e.target` of a change event: the input's name and its new value. */
  datatype InputTarget = InputTarget(name: string, value: string)

  /** One `useForm` instance. */
  class FormEngine {
    var values: Values
    var errors: Errors
    const validations: map<string, Rule>

    /** Every error belongs to a field with a rule and has a message. */
    ghost predicate Valid()
      reads this
    {
      && errors.Keys <= validations.Keys
      && forall k :: k in errors ==> errors[k] != ""
    }

    constructor (initialValues: Values, validations: map<string, Rule>)
      ensures Valid()
      ensures values == initialValues && errors == map[] && this.validations == validations
    {
      this.values := initialValues;
      this.errors := map[];
      this.validations := validations;
    }

    /** `handleChange`: store the input's value under its name. */
    method HandleChange(target: InputTarget)
      requires Valid()
      modifies this
      ensures Valid()
      ensures values == old(values)[target.name := target.value]
      ensures errors == old(errors)
    {
      var name, value := target.name, target.value;
      values := values[name := value];
    }

    /** `setValueByName`: the same update, for inputs without a change event. */
    method SetValueByName(name: string, value: string)
      requires Valid()
      modifies this
      ensures Valid()
      ensures values == old(values)[name := value]
      ensures errors == old(errors)
    {
      values := values[name := value];
    }

    /** `setValues(prev => ({ ...prev, ...patch }))` */
    method MergeValues(patch: Values)
      requires Valid()
      modifies this
      ensures Valid()
      ensures values == old(values) + patch
      ensures errors == old(errors)
    {
      values := values + patch;
    }

    /** `validate`: replace `errors` wholesale and report whether it is empty. */
    method Validate() returns (ok: bool)
      requires Valid()
      modifies this
      ensures Valid()
      ensures errors == ErrorsFor(validations, values)
      ensures values == old(values)
      ensures ok <==> forall k :: k in validations ==> Passes(validations, values, k)
    {
      var newErrors := CollectErrors(validations, values);
      errors := newErrors;
      ok := |newErrors| == 0;
      ErrorsEmptyIffAllPass(validations, values);
    }

    /**
     * `handleSubmit`: validate, and hand the current values to `onSubmit`
     * when there is no error. The result is the argument of that one call,
     * or `None` when `onSubmit` is not called.
     */
    method HandleSubmit() returns (call: Option<Values>)
      requires Valid()
      modifies this
      ensures Valid()
      ensures errors == ErrorsFor(validations, values)
      ensures values == old(values)
      ensures call == if errors == map[] then Some(values) else None
    {
      var ok := Validate();
      if ok {
        call := Some(values);
      } else {
        call := None;
      }
      ErrorsEmptyIffAllPass(validations, values);
    }
  }
}
