# Hospital-Management client forms, modelled in Dafny

This project models the client-side validation and submit gating of the three
React forms of the Hospital-Management web client:

- the login form (`Client/src/components/LoginForm.js`);
- the add-employee dialog (`Client/src/components/AddEmployee.js`);
- the signup form (`Client/src/components/SignupForm.js`).

Each form checks its fields against fixed string rules and builds an error object
that maps each field to a message. It sends its single HTTP request only when
that object is empty. It then turns the reply into new component state. The
model follows each file as written, because the three copies differ:

- Login trims its inputs. The other two forms do not.
- Login checks lowercase before uppercase. AddEmployee checks uppercase first.
- Signup uses one anchored regular expression and a single combined message.
- Only AddEmployee clears a field's error when that field is edited.
- Signup never looks at the reply's success flag.

Layout:

- `chars.dfy` (module `Chars`): the character sets behind the forms' regular
  expressions and `String.prototype.trim`.
  - JavaScript's `\s` and the set `trim` removes are the same set: ECMAScript
    WhiteSpace plus LineTerminator.
  - `.` matches everything except a LineTerminator.
  - `\d`, `[a-z]` and `[A-Z]` are ASCII.
- `text.dfy` (module `Text`): `trim`, with lemmas that describe what it keeps and
  what it removes.
- `forms.dfy` (module `Forms`):
  - `Option`;
  - the error-object keys (`Field`: name, email, password, role, form);
  - the abstract HTTP outcome `Response`: either a reply (`success`, an optional
    `message`, a payload) or a thrown request carrying the optional
    `error.response.data.message`;
  - `JsOr`, JavaScript's `message || fallback` on an optional string.
- `rules.dfy` (module `Rules`): a reference meaning for an `if / else if` chain of
  checks: the message of the first rule that fails.
- `email.dfy` (module `EmailShape`): `validateEmail`, which is the same in all
  three files. `ValidEmail` decides the pattern `^[^\s@]+@[^\s@]+\.[^\s@]+$` by
  splitting at the first `@`. `InEmailPattern` reads the pattern literally. A
  lemma proves that the two agree.
- `login.dfy` (module `Login`): the rule chain, the error object, and the
  `LoginForm` class with its `Submit` (`handleLogin`).
- `add_employee.dfy` (module `AddEmployee`): the rule chain with its length
  lookahead, the error object, and the `AddEmployeeForm` class with
  `HandleChange` and `Submit`.
- `signup.dfy` (module `Signup`): the composite password pattern, the error
  object, and the `SignupForm` class with `HandleChange` and `Submit`.
- `comparison.dfy` (module `PasswordPolicies`): how the three password policies
  relate, including concrete passwords on which they disagree.

Browser effects and the network are modelled like this:

- `localStorage` is a `map<string, string>`. Login owns it as a field. AddEmployee
  receives it as the `session` parameter of `Submit`.
- The calls to `navigate` and `alert`, and the parent's `onAddEmployee` and
  `onClose` callbacks, are appended to sequences in call order.
- The outcome of the POST is a parameter of `Submit`.
- `Submit` returns the request it issues, or None when validation stops it.

## Model

| member | source | states |
|---|---|---|
| `Text.TrimStartSpec` | Client/src/components/LoginForm.js:25-26 | trimming the start removes only a whitespace prefix; what remains is a suffix of the input and starts with a non-whitespace character if it is non-empty |
| `Text.TrimEndSpec` | Client/src/components/LoginForm.js:25-26 | trimming the end removes only a whitespace suffix; what remains is a prefix of the input and ends with a non-whitespace character if it is non-empty |
| `Text.TrimSpec` | Client/src/components/LoginForm.js:25-26 | `trim()` keeps one contiguous slice and removes only whitespace on either side; the result is empty exactly when the input is all whitespace, and otherwise starts and ends with a non-whitespace character |
| `Text.TrimIdempotent` | Client/src/components/LoginForm.js:25-26 | trimming an already trimmed value changes nothing |
| `Forms.JsOr` | Client/src/components/LoginForm.js:84 | JavaScript's logical-or fallback on a message: the message when it is present and non-empty, the fallback when it is missing or empty; the result is never empty when the fallback is not |
| `Rules.FirstFailingIndex` | Client/src/components/LoginForm.js:35-45 | the index a chain of checks stops at: every earlier rule holds, and the rule there fails unless the index is past the end |
| `Rules.FirstFailing` | Client/src/components/LoginForm.js:35-45 | a chain of checks reports nothing exactly when every rule holds |
| `Rules.FirstFailingAt` | Client/src/components/LoginForm.js:35-45 | a failing rule preceded only by rules that hold is the one the chain reports |
| `EmailShape.IndexOf` | Client/src/components/LoginForm.js:17 | the first `@` of a string: None exactly when there is none; otherwise an `@` with none before it |
| `EmailShape.ValidEmailIffSplit` | Client/src/components/LoginForm.js:17 | `validateEmail(s)` holds exactly when `s` is `L@D` with a non-empty `L`, `L` and `D` free of whitespace and `@`, and `D` having a `.` that is neither its first nor its last character |
| `EmailShape.ValidEmailHasOneAt` | Client/src/components/LoginForm.js:17 | an accepted email holds exactly one `@` |
| `EmailShape.AtFree` | Client/src/components/LoginForm.js:17 | a run of `[^\s@]` holds no `@` |
| `EmailShape.ValidEmailMatchesPattern` | Client/src/components/LoginForm.js:17 | the first-`@` decision accepts exactly the strings the literal pattern `^[^\s@]+@[^\s@]+\.[^\s@]+$` matches |
| `EmailShape.ValidEmailInPattern` | Client/src/components/LoginForm.js:17 | every accepted email matches the literal pattern |
| `EmailShape.PatternIsValidEmail` | Client/src/components/LoginForm.js:17 | every match of the literal pattern is accepted |
| `EmailShape.DomainOfParts` | Client/src/components/LoginForm.js:17 | `B.C`, with `B` and `C` non-empty runs of `[^\s@]`, is an accepted domain |
| `EmailShape.ValidEmailOfParts` | Client/src/components/LoginForm.js:17 | `L@D` is accepted exactly when `L` is a non-empty run of `[^\s@]` and `D` an accepted domain |
| `Login.PasswordErrorSpec` | Client/src/components/LoginForm.js:35-45 | the password message is that of the first broken rule in the order length, lowercase, uppercase, digit, special; there is no message exactly when all five hold |
| `Login.ValidationErrorsSpec` | Client/src/components/LoginForm.js:28-45 | the error object has only email and password entries; an email entry exactly when the email is not valid, worded "required" when it is empty and "valid email" otherwise; a password entry exactly when a rule is broken, carrying the first broken rule's message |
| `Login.BlankPasswordIsTooShort` | Client/src/components/LoginForm.js:35-36 | a password that is all whitespace gets the length message, as there is no separate "required" message |
| `Login.Validate` | Client/src/components/LoginForm.js:25-45 | the checks run on the trimmed inputs, and the object they fill step by step is the error object of the trimmed values |
| `Login.LoginForm.constructor` | Client/src/components/LoginForm.js:7-13 | a mounted form starts with empty inputs, no errors, no popup and nothing loading |
| `Login.LoginForm.EditEmail` | Client/src/components/LoginForm.js:111 | editing the email sets it and changes nothing else |
| `Login.LoginForm.EditPassword` | Client/src/components/LoginForm.js:124 | editing the password sets it and changes nothing else |
| `Login.LoginForm.ClosePopup` | Client/src/components/LoginForm.js:153 | closing the popup hides it and changes nothing else |
| `Login.LoginForm.Submit` | Client/src/components/LoginForm.js:19-93 | a request with the trimmed email and password is sent exactly when the error object is empty. Otherwise the errors become that object, loading ends, and the inputs, storage, navigation and alerts are untouched. When sent, the errors are cleared and the reply is handled as `ApplyReply` states |
| `Login.LoginForm.ApplyReply` | Client/src/components/LoginForm.js:66-92 | on success, token, role and id are stored and both inputs are cleared; the form navigates to `/admin-dashboard` exactly for role `admin` or `employee` and otherwise alerts "Unauthorized access". On a failed reply or a thrown request, the popup shows the reply's message (or "Login failed. Please try again."), or the fixed network message; the inputs stay. Loading ends in every case |
| `AddEmployee.LengthRuleMatchesLookahead` | Client/src/components/AddEmployee.js:23 | `/^(?=.{8,})/` holds exactly when the first eight characters exist and none is a line terminator |
| `AddEmployee.ValidatePasswordSpec` | Client/src/components/AddEmployee.js:22-44 | `validatePassword` returns the message of the first broken rule in the order length, uppercase, lowercase, digit, special, and null exactly when all five hold |
| `AddEmployee.ValidationErrorsSpec` | Client/src/components/AddEmployee.js:57-80 | the four checks are independent, on raw values. Name and role have an entry exactly when empty. The email has one exactly when invalid, worded "required" when empty. The password has one when empty ("required", the rules not consulted) or when a rule is broken (the first broken rule's message). There are no other keys |
| `AddEmployee.Validate` | Client/src/components/AddEmployee.js:57-80 | the object filled step by step is the error object of the raw field values |
| `AddEmployee.Bearer` | Client/src/components/AddEmployee.js:89-97 | the Authorization header is `Bearer ` followed by the stored token, or by `null` when localStorage has none |
| `AddEmployee.AddEmployeeForm.constructor` | Client/src/components/AddEmployee.js:7-14 | a fresh dialog has four empty fields, no errors and no calls to the parent |
| `AddEmployee.AddEmployeeForm.HandleChange` | Client/src/components/AddEmployee.js:46-53 | editing a field sets only that field and resets only that field's error to the empty string; every other field and error entry is unchanged |
| `AddEmployee.AddEmployeeForm.Submit` | Client/src/components/AddEmployee.js:55-113 | the employee data is posted unchanged, with the bearer header, exactly when the error object is empty; otherwise the errors become that object and the parent is not called. After a successful reply the parent receives the employee and then the dialog closes. After any other outcome the errors are replaced by one `form` entry: the reply's message, or "Error adding employee." or "An error occurred. Please try again." |
| `Signup.LookaheadOfAllowed` | Client/src/components/SignupForm.js:19 | in a string of allowed characters a lookahead `(?=.*K)` finds every occurrence of class `K` |
| `Signup.ValidatePasswordIff` | Client/src/components/SignupForm.js:19 | the anchored pattern accepts exactly the passwords of at least eight characters, all from `[A-Za-z0-9@$!%*?&]`, with a lowercase letter, an uppercase letter, a digit and a special character |
| `Signup.ValidationErrorsSpec` | Client/src/components/SignupForm.js:25-41 | the four checks are independent, on raw values. Name and role have an entry exactly when empty. The email has one exactly when invalid, worded "required" when empty. The password has one exactly when it fails the pattern: "required" when empty, otherwise the single combined message. There are no other keys |
| `Signup.Validate` | Client/src/components/SignupForm.js:25-41 | the object filled step by step is the error object of the raw form data |
| `Signup.SignupForm.constructor` | Client/src/components/SignupForm.js:7-9 | a mounted form has four empty fields, no errors and an empty message |
| `Signup.SignupForm.HandleChange` | Client/src/components/SignupForm.js:59 | editing a field sets only that field and never touches the errors |
| `Signup.SignupForm.Submit` | Client/src/components/SignupForm.js:23-57 | the form data is posted unchanged exactly when the error object is empty, and the errors are cleared first; otherwise the errors become that object and nothing else changes. Any reply, whatever its success flag, sets the message to the one it carries and navigates to `/login`. A thrown request sets the reply's message or the fallback and does not navigate |
| `PasswordPolicies.AllowedIsNotWs` | Client/src/components/SignupForm.js:19 | no character of the signup class is whitespace or a line terminator |
| `PasswordPolicies.SignupImpliesAddEmployee` | Client/src/components/SignupForm.js:19 | every password signup accepts passes the add-employee rule chain |
| `PasswordPolicies.SignupImpliesLogin` | Client/src/components/SignupForm.js:19 | every password signup accepts is unchanged by login's trim and passes login's rule chain |
| `PasswordPolicies.AddEmployeeImpliesLogin` | Client/src/components/AddEmployee.js:22-44 | every password the add-employee chain accepts, login's chain accepts |
| `PasswordPolicies.AddEmployeeAcceptsWhatSignupRejects` | Client/src/components/AddEmployee.js:22-44 | `Abcdef1!#` passes the add-employee chain but not the signup pattern, so the converse of `SignupImpliesAddEmployee` fails |
| `PasswordPolicies.LoginAcceptsWhatAddEmployeeRejects` | Client/src/components/AddEmployee.js:23 | a line break among the first eight characters passes login but fails the add-employee length lookahead, so the converse of `AddEmployeeImpliesLogin` fails |
| `PasswordPolicies.RuleOrderDiffers` | Client/src/components/LoginForm.js:37-40 | for `12345678` login reports the missing lowercase letter and add-employee the missing uppercase letter |

## Left out

- Rendering: the JSX, the Bootstrap classes, the modal, and the show-password toggles (`showPassword`, `passwordVisible`) affect only presentation.
- Transport: axios, the request URLs and the `Content-Type` header. The outcome of each POST is an input value, either a reply or a thrown request.
- Login's `isLoading`: it is true only while the request is outstanding. The model handles the reply inside the same `Submit`, so between actions `isLoading` is always false.
- Async timing is not modelled. This covers the double-submit race, a reply that arrives after the dialog is closed, and edits made while a request is outstanding.
- `console.error` in login's catch block: logging only.
- Undefined payload fields: what `localStorage.setItem` stores when a successful login reply lacks `token`, `role` or `id`. Those fields are modelled as strings.
- Character details:
  - Dafny characters are Unicode scalar values, while JavaScript's `.length` counts UTF-16 code units. A password with characters outside the Basic Multilingual Plane therefore has a different length in the model.
  - The whitespace set is the ECMAScript one as listed in `Chars.IsWs`.
- Error-object and form-data keys are the `Field` datatype rather than arbitrary property names. The inputs' `name` attributes are name, email, password and role, and the form-level message uses `form`; no other key can occur.
- The add-employee `show` prop and `onHide` closing the modal: presentation only. Only the `onClose` call after a successful reply is recorded.
- Signup's `message` is `Option<string>`. `setMessage(response.data.message)` stores `undefined` when the reply has no message, and None models that.
