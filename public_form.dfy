/**
 * The public lead-capture form (src/app/components/PublicForm.tsx): its
 * initial values, its rule table, the prefill of fields from the page's
 * query string, and what a submission does on success and on failure of the
 * create request.
 */
module PublicForm {
  import opened Wrappers
  import opened Validations
  import opened Form
  import opened Gtm

  const ContactFields: set<string> := {"nome", "email", "telefone", "cargo", "dataNascimento", "mensagem"}

  const TrackingFields: set<string> := {"utm_source", "utm_medium", "utm_campaign", "utm_term", "utm_content", "gclid", "fbclid"}

  /** `initialValues`: the thirteen fields, all empty. */
  function InitialValues(): (v: Values)
    ensures v.Keys == ContactFields + TrackingFields
    ensures forall k :: k in v ==> v[k] == ""
  {
    map[
      "nome" := "", "email" := "", "telefone" := "", "cargo" := "", "dataNascimento" := "", "mensagem" := "",
      "utm_source" := "", "utm_medium" := "", "utm_campaign" := "", "utm_term" := "",
      "utm_content" := "", "gclid" := "", "fbclid" := ""]
  }

  /**
   * The form's rule table; `isDate` is the host's date check. Every contact
   * field is required, none has its own message, and `email`, `telefone` and
   * `dataNascimento` are checked by `isEmail`, `isPhone` and `isDate`.
   */
  function RuleTable(isDate: string -> bool): (rules: map<string, Rule>)
    ensures rules.Keys == ContactFields
    ensures forall k :: k in rules ==> rules[k].required && rules[k].message.None?
    ensures rules["nome"].check.None? && rules["cargo"].check.None? && rules["mensagem"].check.None?
    ensures rules["email"].check.Some? && forall s :: rules["email"].check.value(s) == IsEmail(s)
    ensures rules["telefone"].check.Some? && forall s :: rules["telefone"].check.value(s) == IsPhone(s)
    ensures rules["dataNascimento"].check.Some? && forall s :: rules["dataNascimento"].check.value(s) == isDate(s)
  {
    map[
      "nome" := Rule(true, None, None),
      "email" := Rule(true, Some(IsEmail), None),
      "telefone" := Rule(true, Some(IsPhone), None),
      "cargo" := Rule(true, None, None),
      "dataNascimento" := Rule(true, Some(isDate), None),
      "mensagem" := Rule(true, None, None)]
  }

  /** No field is both a contact field and a tracking field. */
  lemma FieldPartition()
    ensures ContactFields !! TrackingFields
  {
  }

  /** A tracking field can never carry an error. */
  lemma TrackingFieldsNeverErr(isDate: string -> bool, values: Values, key: string)
    requires key in TrackingFields
    ensures key !in ErrorsFor(RuleTable(isDate), values)
  {
  }

  /** Whether the contact fields are all filled in and well formed. */
  predicate ContactComplete(isDate: string -> bool, values: Values)
  {
    && (forall k :: k in ContactFields ==> Truthy(Lookup(values, k)))
    && IsEmail(values["email"])
    && IsPhone(values["telefone"])
    && isDate(values["dataNascimento"])
  }

  /** A public form that passes validation has its contact fields complete. */
  lemma ValidContactComplete(isDate: string -> bool, values: Values)
    requires ErrorsFor(RuleTable(isDate), values) == map[]
    ensures ContactComplete(isDate, values)
  {
    var rules := RuleTable(isDate);
    ErrorsEmptyIffAllPass(rules, values);
    assert Passes(rules, values, "email");
    assert Passes(rules, values, "telefone");
    assert Passes(rules, values, "dataNascimento");
    forall k | k in ContactFields
      ensures Truthy(Lookup(values, k))
    {
      assert Passes(rules, values, k);
    }
  }

  /** A public form whose contact fields are complete passes validation. */
  lemma ContactCompleteValid(isDate: string -> bool, values: Values)
    requires ContactComplete(isDate, values)
    ensures ErrorsFor(RuleTable(isDate), values) == map[]
  {
    var rules := RuleTable(isDate);
    forall k | k in rules
      ensures Passes(rules, values, k)
    {
      assert Truthy(Lookup(values, k));
    }
    ErrorsEmptyIffAllPass(rules, values);
  }

  /** Validation of the public form succeeds exactly when the contact fields are complete. */
  lemma ValidIffContactComplete(isDate: string -> bool, values: Values)
    ensures ErrorsFor(RuleTable(isDate), values) == map[] <==> ContactComplete(isDate, values)
  {
    if ErrorsFor(RuleTable(isDate), values) == map[] {
      ValidContactComplete(isDate, values);
    }
    if ContactComplete(isDate, values) {
      ContactCompleteValid(isDate, values);
    }
  }

  /**
   * With one contact field empty and the others valid, the error map holds
   * exactly one entry: the "required" message for that field.
   */
  lemma OneMissingField(isDate: string -> bool, values: Values, key: string)
    requires key in ContactFields && !Truthy(Lookup(values, key))
    requires forall k :: k in ContactFields && k != key ==> Passes(RuleTable(isDate), values, k)
    ensures ErrorsFor(RuleTable(isDate), values) == map[key := RequiredMessage]
  {
    var rules := RuleTable(isDate);
    var e := ErrorsFor(rules, values);
    forall k | k in rules && k != key
      ensures k !in e
    {
      assert Passes(rules, values, k);
    }
    assert key in e && e[key] == RequiredMessage;
    assert e.Keys == {key};
  }

  // ---------------------------------------------------------------------------
  // Prefill from the query string
  // ---------------------------------------------------------------------------

  /** The query string as `searchParams.forEach` visits it: (key, value) pairs in order. */
  type Query = seq<(string, string)>

  /** The value of the last pair with this key, if any. */
  function LastValue(query: Query, key: string): Option<string>
  {
    if query == [] then None
    else if query[|query| - 1].0 == key then Some(query[|query| - 1].1)
    else LastValue(query[..|query| - 1], key)
  }

  /** A key absent from the query has no value. */
  lemma {:induction false} LastValueAbsent(query: Query, key: string)
    ensures LastValue(query, key).None? <==> forall j :: 0 <= j < |query| ==> query[j].0 != key
  {
    if query != [] {
      var init := query[..|query| - 1];
      LastValueAbsent(init, key);
      assert forall j :: 0 <= j < |init| ==> init[j] == query[j];
    }
  }

  /** A key that appears more than once takes the value of its last occurrence. */
  lemma {:induction false} LastValueIsLast(query: Query, key: string, i: nat)
    requires i < |query| && query[i].0 == key
    requires forall j :: i < j < |query| ==> query[j].0 != key
    ensures LastValue(query, key) == Some(query[i].1)
  {
    if i < |query| - 1 {
      var init := query[..|query| - 1];
      assert init[i] == query[i];
      assert forall j :: i < j < |init| ==> init[j] == query[j];
      LastValueIsLast(init, key, i);
    }
  }

  /** The fields the query string supplies: the declared fields only, each with its last value. */
  function QueryPatch(query: Query): Values
  {
    map k | k in InitialValues() && LastValue(query, k).Some? :: LastValue(query, k).value
  }

  /** The loop of the prefill effect, filling `trackingParams`. */
  method CollectTrackingParams(query: Query) returns (params: Values)
    ensures params.Keys <= InitialValues().Keys
    ensures params == QueryPatch(query)
  {
    params := map[];
    for i := 0 to |query|
      invariant params == QueryPatch(query[..i])
    {
      var (key, value) := query[i];
      assert query[..i + 1][..i] == query[..i];
      if key in InitialValues() {
        params := params[key := value];
      }
    }
    assert query[..|query|] == query;
  }

  // ---------------------------------------------------------------------------
  // The page component
  // ---------------------------------------------------------------------------

  /** The settled result of the create request. */
  datatype CreateOutcome = Created | Rejected

  datatype Toast = SuccessToast(text: string) | ErrorToast(text: string)

  const CreatedText: string := "Lead cadastrado com sucesso!"
  const RejectedText: string := "Erro ao cadastrar lead. Tente novamente."

  /** What the component renders. */
  datatype Screen = ThankYou | FormScreen(submitDisabled: bool, submitLabel: string)

  /** The lead-tracking input built from the submitted values. */
  function LeadData(data: Values): LeadGenerationData
    requires "email" in data && "telefone" in data
  {
    LeadGenerationData(data["email"], data["telefone"], None, None)
  }

  class PublicFormPage {
    const isDate: string -> bool
    const form: FormEngine
    const window: Window
    var isSuccess: bool
    var isSubmitting: bool
    /** The global loader of the loader context. */
    var loaderVisible: bool
    var toasts: seq<Toast>
    /** The bodies of the create requests sent, in order. */
    var createRequests: seq<Values>

    ghost predicate Valid()
      reads this, form
    {
      && form.Valid()
      && form.validations == RuleTable(isDate)
      && InitialValues().Keys <= form.values.Keys
    }

    constructor (isDate: string -> bool, window: Window)
      ensures Valid()
      ensures fresh(form) && this.window == window && this.isDate == isDate
      ensures form.values == InitialValues() && form.errors == map[]
      ensures !isSuccess && !isSubmitting && !loaderVisible && toasts == [] && createRequests == []
    {
      this.isDate := isDate;
      this.window := window;
      this.form := new FormEngine(InitialValues(), RuleTable(isDate));
      this.isSuccess := false;
      this.isSubmitting := false;
      this.loaderVisible := false;
      this.toasts := [];
      this.createRequests := [];
    }

    /** `if (isSuccess) …`, and the submit button's state. */
    function Render(): (screen: Screen)
      reads this
      ensures screen == ThankYou <==> isSuccess
      ensures !isSuccess ==> screen.submitDisabled == isSubmitting
      ensures !isSuccess ==> (screen.submitLabel == "Enviando..." <==> isSubmitting)
    {
      if isSuccess then ThankYou
      else FormScreen(isSubmitting, if isSubmitting then "Enviando..." else "Enviar Cadastro")
    }

    /**
     * The prefill effect: fields named by the query take its last value for
     * them; nothing happens when no key names a field.
     */
    method Prefill(query: Query)
      requires Valid()
      modifies form
      ensures Valid()
      ensures QueryPatch(query) == map[] ==> form.values == old(form.values)
      ensures form.values == old(form.values) + QueryPatch(query)
      ensures form.errors == old(form.errors)
    {
      var trackingParams := CollectTrackingParams(query);
      if |trackingParams| > 0 {
        form.MergeValues(trackingParams);
      }
    }

    /**
     * `onSubmit`: show the loader, send the create request, then on success
     * report it, show the thank-you screen and track the lead; on failure
     * report the error; in both cases hide the loader and re-enable the form.
     */
    method OnSubmit(data: Values, outcome: CreateOutcome)
      requires "email" in data && "telefone" in data
      modifies this, window
      ensures createRequests == old(createRequests) + [data]
      ensures !isSubmitting && !loaderVisible
      ensures outcome == Created ==> isSuccess
      ensures outcome == Created ==> toasts == old(toasts) + [SuccessToast(CreatedText)]
      ensures outcome == Created ==> window.dataLayer == Pushed(old(window.dataLayer), LeadRecord(LeadData(data)))
      ensures outcome == Rejected ==> isSuccess == old(isSuccess)
      ensures outcome == Rejected ==> toasts == old(toasts) + [ErrorToast(RejectedText)]
      ensures outcome == Rejected ==> window.dataLayer == old(window.dataLayer)
    {
      loaderVisible := true;
      isSubmitting := true;
      createRequests := createRequests + [data];
      if outcome == Created {
        toasts := toasts + [SuccessToast(CreatedText)];
        isSuccess := true;
        TrackLeadGeneration(window, LeadData(data));
      } else {
        toasts := toasts + [ErrorToast(RejectedText)];
      }
      loaderVisible := false;
      isSubmitting := false;
    }

    /**
     * The form's submit: validation, then `onSubmit` with the current values
     * only when there is no error.
     */
    method Submit(outcome: CreateOutcome)
      requires Valid()
      modifies this, form, window
      ensures Valid()
      ensures form.values == old(form.values)
      ensures form.errors == ErrorsFor(RuleTable(isDate), form.values)
      ensures form.errors == map[] <==> ContactComplete(isDate, form.values)
      ensures form.errors == map[] ==> createRequests == old(createRequests) + [form.values]
      ensures form.errors == map[] ==> toasts == old(toasts) + [if outcome == Created then SuccessToast(CreatedText) else ErrorToast(RejectedText)]
      ensures form.errors == map[] && outcome == Created ==> isSuccess
      ensures form.errors == map[] && outcome == Created ==> window.dataLayer == Pushed(old(window.dataLayer), LeadRecord(LeadData(form.values)))
      ensures form.errors == map[] && outcome == Rejected ==> isSuccess == old(isSuccess) && window.dataLayer == old(window.dataLayer)
      ensures form.errors != map[] ==> createRequests == old(createRequests) && toasts == old(toasts)
      ensures form.errors != map[] ==> isSuccess == old(isSuccess) && window.dataLayer == old(window.dataLayer)
      ensures form.errors != map[] ==> isSubmitting == old(isSubmitting) && loaderVisible == old(loaderVisible)
      ensures form.errors == map[] ==> !isSubmitting && !loaderVisible
    {
      var call := form.HandleSubmit();
      ValidIffContactComplete(isDate, form.values);
      if call.Some? {
        OnSubmit(call.value, outcome);
      }
    }
  }
}
