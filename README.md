# Lead-capture form machinery, modelled in Dafny

This project models the client-side logic around lead capture in a
lead-management web application:

- **Form engine** (`useForm`): a state container with a `values` record and
  an `errors` record, change handlers, a declarative rule table
  (`required`, then a predicate, then a fallback message), a validation pass
  that rebuilds the error map from scratch, and a submit handler that calls
  the caller's `onSubmit` only when validation passes. Modelled as the class
  `Form.FormEngine` with map fields, and the function
  `Form.ErrorsFor` that the validation loop is proved against.
- **Field validators** (`isEmail`, `isPhone`): each regular expression is
  written as a predicate that follows its tokens (`Validations.MatchesEmailPattern`,
  `Validations.MatchesPhonePattern`) and proved equal to a plain
  characterisation of the accepted strings.
- **Analytics helpers** (`pageview`, `trackLeadGeneration`): records pushed
  onto the optional global data layer, modelled as a `Gtm.Window` object whose
  `dataLayer` field is an optional sequence of records.
- **Public form** (`PublicForm`): the thirteen initial values, the rule table,
  the prefill of fields from the query string, and the submit flow with the
  create request reduced to an abstract outcome (`Created` or `Rejected`).
- **Route guard** (`ProtectedRoute`): the `isVerifying` state, the token check
  that either redirects to `/login` or lets the children render, and the
  render choice.

Files: `wrappers.dfy` (the `Option` type), `validations.dfy`, `use_form.dfy`,
`gtm.dfy`, `public_form.dfy`, `protected_route.dfy`, one module each.

Behaviour of the code worth noting:

- `isPhone` uses `[1-9]{2}`, so both area-code digits must be 1-9.
- `isEmail` requires the `.` after the `@` to be neither the first nor the last
  character of the domain, and exactly one `@` in the whole string.
- Editing a field never touches `errors`; errors change only when validation
  runs.

Inputs from the environment are parameters: the stored token is an
`Option<string>`, the query string is a sequence of key/value pairs, the
create request's result is a `CreateOutcome`, and the host's date check
(`isDate`) is a `string -> bool` given to the rule table.

## Model

| member | source | states |
|---|---|---|
| `Validations.Digits` | src/app/lib/validations.ts:9 | `replace(/\D/g, '')` yields only digits, is no longer than its input and leaves a digit string unchanged |
| `Validations.DigitsKeepsEveryDigit` | src/app/lib/validations.ts:9 | every occurrence of every digit of the input is kept by the stripping (with the digits-only result, nothing else is) |
| `Validations.DigitsAppend` | src/app/lib/gtm.ts:34 | stripping non-digits distributes over concatenation, so the digits keep their original order |
| `Validations.DigitStringPhonePattern` | src/app/lib/validations.ts:8-9 | on a string of digits the phone regular expression accepts exactly: length 10, or length 11 with third digit `9`, with both area-code digits in 1-9 |
| `Validations.IsPhone` | src/app/lib/validations.ts:6-10 | `isPhone(s)` holds iff the digits of `s` have that shape |
| `Validations.IsPhoneIgnoresNonDigit` | src/app/lib/validations.ts:9 | inserting a non-digit character anywhere never changes the verdict of `isPhone` |
| `Validations.MaskedPhone` | src/app/components/PublicForm.tsx:128-132 | a complete value of the mask `(00) 00000-0000` reduces to its 11 digits and is a valid phone iff both area-code digits are non-zero and the number starts with `9` |
| `Validations.MaskedPhoneExample` | src/app/lib/validations.ts:8-9 | `isPhone("(11) 98765-4321")` is true |
| `Validations.ShortPhoneExample` | src/app/lib/validations.ts:8-9 | `isPhone("123")` is false |
| `Validations.IsEmailSound` | src/app/lib/validations.ts:1-4 | every string with no whitespace, exactly one `@`, a non-empty local part and an inner `.` in the domain matches `^[^\s@]+@[^\s@]+\.[^\s@]+$` |
| `Validations.IsEmailComplete` | src/app/lib/validations.ts:1-4 | every match of the e-mail regular expression has that shape |
| `Validations.IsEmailMatchesPattern` | src/app/lib/validations.ts:1-4 | `isEmail(s)` holds iff `s` matches the regular expression (both directions) |
| `Validations.IsEmail` | src/app/lib/validations.ts:1-4 | `isEmail(value)` holds iff `value` matches `^[^\s@]+@[^\s@]+\.[^\s@]+$` |
| `Validations.EmailExamples` | src/app/lib/validations.ts:2-3 | `isEmail("")` and `isEmail("a@b")` are false, `isEmail("a@b.co")` is true |
| `Form.FailureMessage` | src/app/hooks/useForm.ts:45 | the message of a failing predicate is `rule.message` when present and non-empty, otherwise `'Valor inválido'`; it is never empty |
| `Form.FieldError` | src/app/hooks/useForm.ts:42-46 | a field has no error iff its required flag is met by a truthy value and its predicate holds of a truthy value; a required falsy field gets the required message; any message is non-empty |
| `Form.ErrorsFor` | src/app/hooks/useForm.ts:35-47 | the error map holds an entry exactly for the ruled fields whose rule fails, only for fields with a rule, and every message is non-empty |
| `Form.ErrorsEmptyIffAllPass` | src/app/hooks/useForm.ts:34-51 | validation returns true iff every required field has a truthy value and every predicate holds of every truthy value it is given |
| `Form.RequiredFieldMissing` | src/app/hooks/useForm.ts:42-43 | a required field with a missing or empty value gets exactly `'Este campo é obrigatório'`, whatever its predicate is |
| `Form.OptionalFieldMissing` | src/app/hooks/useForm.ts:44 | a field that is not required never errs while its value is missing or empty, because the predicate is applied only to a truthy value |
| `Form.PredicateFails` | src/app/hooks/useForm.ts:44-45 | a truthy value failing its predicate gets `rule.message`, or `'Valor inválido'` when the message is absent or empty |
| `Form.CollectErrors` | src/app/hooks/useForm.ts:35-47 | the loop filling a fresh `newErrors` produces exactly the error map of the rule table on the current values |
| `Form.FormEngine.constructor` | src/app/hooks/useForm.ts:22-23 | the form starts with the initial values and no errors |
| `Form.FormEngine.HandleChange` | src/app/hooks/useForm.ts:25-28 | sets exactly the named field to the new value; every other field and the error map are unchanged |
| `Form.FormEngine.SetValueByName` | src/app/hooks/useForm.ts:30-32 | same update as `handleChange`, from a name and a value |
| `Form.FormEngine.MergeValues` | src/app/hooks/useForm.ts:22 | `setValues` with a spreading updater overwrites the patched fields only; errors are unchanged |
| `Form.FormEngine.Validate` | src/app/hooks/useForm.ts:34-51 | replaces the error map wholesale with the one computed from the current values (no carry-over), leaves values unchanged, returns true iff every field passes its rule |
| `Form.FormEngine.HandleSubmit` | src/app/hooks/useForm.ts:53-58 | validates, then yields exactly one `onSubmit` call with the current values when the error map is empty and none otherwise |
| `Gtm.Pushed` | src/app/lib/gtm.ts:8-9 | a guarded push appends exactly one record at the end of an existing data layer, earlier entries unchanged, and leaves a missing data layer missing |
| `Gtm.LeadRecord` | src/app/lib/gtm.ts:26-36 | the lead record has event `generate_lead`, the email verbatim, a digits-only phone with the input's digits, value defaulting to 0 and currency defaulting to `'BRL'` when absent or falsy |
| `Gtm.Pageview` | src/app/lib/gtm.ts:7-14 | pushes `{event: 'pageview', page: url}` when the data layer exists; nothing changes otherwise |
| `Gtm.TrackLeadGeneration` | src/app/lib/gtm.ts:24-38 | pushes the lead record when the data layer exists; nothing changes otherwise |
| `PublicForm.InitialValues` | src/app/components/PublicForm.tsx:22-26 | the initial values are the six contact fields and the seven tracking fields, all empty |
| `PublicForm.FieldPartition` | src/app/components/PublicForm.tsx:22-26 | no field is both a contact field and a tracking field |
| `PublicForm.RuleTable` | src/app/components/PublicForm.tsx:36-43 | the rule table covers exactly the six contact fields, all required, with no own message; `email`, `telefone` and `dataNascimento` are checked by `isEmail`, `isPhone` and `isDate`, the others have no predicate |
| `PublicForm.TrackingFieldsNeverErr` | src/app/components/PublicForm.tsx:36-43 | a tracking field can never carry an error |
| `PublicForm.ValidContactComplete` | src/app/components/PublicForm.tsx:36-43 | a form that passes validation has all contact fields filled, a valid email, a valid phone and a valid date |
| `PublicForm.ContactCompleteValid` | src/app/components/PublicForm.tsx:36-43 | a form with those contact fields passes validation |
| `PublicForm.ValidIffContactComplete` | src/app/components/PublicForm.tsx:36-43 | the public form validates iff its contact fields are complete and well formed |
| `PublicForm.OneMissingField` | src/app/components/PublicForm.tsx:36-43 | with one contact field empty and the others valid, the error map has exactly one entry, the required message for that field |
| `PublicForm.LastValueAbsent` | src/app/components/PublicForm.tsx:73-77 | a key takes no value from the query iff no pair of the query has that key |
| `PublicForm.LastValueIsLast` | src/app/components/PublicForm.tsx:73-75 | a key that occurs several times takes the value of its last occurrence |
| `PublicForm.CollectTrackingParams` | src/app/components/PublicForm.tsx:71-77 | the loop collects only keys that name a declared field (contact fields included), each with its last value |
| `PublicForm.PublicFormPage.constructor` | src/app/components/PublicForm.tsx:29-43 | the page starts with the initial values, no errors, not submitting, not successful |
| `PublicForm.PublicFormPage.Render` | src/app/components/PublicForm.tsx:84-98 | the thank-you screen is shown iff the lead was created; otherwise the submit button is disabled and reads `Enviando...` exactly while submitting |
| `PublicForm.PublicFormPage.Prefill` | src/app/components/PublicForm.tsx:70-82 | the matched fields are overwritten and every other field keeps its value; with no match the values are unchanged |
| `PublicForm.PublicFormPage.OnSubmit` | src/app/components/PublicForm.tsx:44-67 | one create request is sent; the success view and the lead event happen only on success; after either outcome the form is not submitting and the loader is hidden |
| `PublicForm.PublicFormPage.Submit` | src/app/components/PublicForm.tsx:34-67 | a create request is sent iff the contact fields are complete, followed by the success or error toast, the success view and lead event on success only, and the flags reset; an invalid form sends nothing, tracks nothing and shows nothing |
| `ProtectedRoute.Check` | src/app/components/ProtectedRoute.tsx:15-23 | one check leaves the guard verifying iff it was and found no token; without a token it appends exactly one redirect to `/login`, with a token it redirects nowhere |
| `ProtectedRoute.RunOutcome` | src/app/components/ProtectedRoute.tsx:14-24 | after any sequence of checks the guard still verifies iff it did and no check found a token; it redirects to `/login` once per check without a token and nowhere else |
| `ProtectedRoute.NeverBackToVerifying` | src/app/components/ProtectedRoute.tsx:14-24 | once the guard has left the verifying state it never returns to it |
| `ProtectedRoute.Guard.constructor` | src/app/components/ProtectedRoute.tsx:12 | the guard starts verifying, with no redirect |
| `ProtectedRoute.Guard.CheckToken` | src/app/components/ProtectedRoute.tsx:15-23 | a missing or empty token redirects to `/login` and keeps `isVerifying`; a present token clears `isVerifying` with no redirect; exactly one of the two happens |
| `ProtectedRoute.Guard.Render` | src/app/components/ProtectedRoute.tsx:27-32 | the loader is rendered iff the guard is verifying, the children otherwise |

## Left out

- `isDate` depends on the host's `Date` parser; the rule table takes it as a parameter `isDate: string -> bool` and nothing is assumed about it.
- Whitespace (`\s`) is the fixed ECMAScript set written out in `Validations.IsWhitespace`; strings are sequences of Unicode scalar values, not UTF-16 code units.
- `key in initialValues` in JavaScript also matches inherited names such as `toString`; the model accepts the thirteen declared keys only.
- Form values are strings (`map<string, string>`) and a missing key stands for `undefined`; values of other JavaScript types are not modelled.
- `Gtm.LeadRecord`: `ecommerce.value` is an integer, not a JavaScript number, so `NaN` (also falsy) is not modelled.
- The network (the create request, login, lead administration), toasts' display, router navigation other than the recorded redirect target, and `localStorage` are not modelled: their results are parameters.
- Each handler is one atomic step: React's asynchronous state updates, re-render timing and the in-flight state during the create request (loader shown, button disabled) are not modelled; `PublicForm.PublicFormPage.Render` only gives the settled screen.
- The order in which `Object.keys` visits the rules is abstracted: the loop takes the keys in any order, and its result does not depend on it.
- The login page, the confirmation modal, the loaders, the layouts and the loader context are rendering or I/O with no logic to verify.
- The admin list, search, pagination, debounce and export coordinator is not part of this model.
