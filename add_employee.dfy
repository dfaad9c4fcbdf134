/**
 * Client/src/components/AddEmployee.js: the add-employee dialog.
 *
 * `handleSubmit` checks the raw (untrimmed) name, email, password and role, each on
 * its own, and posts the employee data unchanged, with the session token as a
 * bearer header, only when no check fails. The password check is an early-return
 * chain of five rules. Editing a field clears that field's error. A successful
 * reply hands the new employee to the parent and closes the dialog; anything else
 * replaces all errors by one form-level message.
 */
module AddEmployee {
  import opened Chars
  import opened EmailShape
  import opened Forms
  import opened Rules

  const NameRequired := "Name is required."
  const EmailRequired := "Email is required."
  const EmailInvalid := "Please enter a valid email."
  const PasswordRequired := "Password is required."
  const RoleRequired := "Role is required."

  const TooShort := "Password must be at least 8 characters long."
  const NoUpper := "Password must include at least one uppercase letter."
  const NoLower := "Password must include at least one lowercase letter."
  const NoNumber := "Password must include at least one number."
  const NoSpecial := "Password must include at least one special character."

  const AddFailed := "Error adding employee."
  const TransportFailed := "An error occurred. Please try again."

  /** The localStorage key the session token is read from. */
  const TokenKey := "token"

  /** The POST /api/add request: the employee data as the body, and the Authorization header. */
  datatype AddRequest = AddRequest(body: map<Field, string>, authorization: string)

  /** The parent's callbacks, in the order the dialog calls them. */
  datatype Callback<E> = OnAddEmployee(employee: E) | OnClose

  /** None of the characters of `s` is a line terminator, so `.` matches each of them. */
  predicate DotsOnly(s: string) {
    forall i | 0 <= i < |s| :: !IsLineTerminator(s[i])
  }

  /**
   * `/^(?=.{8,})/.test(p)` read literally: at the start of `p` there is a run of
   * eight or more characters matched by `.`.
   */
  ghost predicate LengthLookahead(p: string) {
    exists n | 8 <= n <= |p| :: DotsOnly(p[..n])
  }

  /** The length rule as the chain decides it: the first eight characters exist and are not line terminators. */
  predicate LengthRule(p: string) {
    |p| >= 8 && DotsOnly(p[..8])
  }

  /** The two readings of the length rule agree on every string. */
  lemma LengthRuleMatchesLookahead(p: string)
    ensures LengthRule(p) <==> LengthLookahead(p)
  {
    if LengthLookahead(p) {
      var n :| 8 <= n <= |p| && DotsOnly(p[..n]);
      assert p[..8] == p[..n][..8];
    }
  }

  /** The rules of `validatePassword`, in the order it checks them. */
  function PasswordRules(p: string): seq<Rule> {
    [ Rule(LengthRule(p), TooShort),
      Rule(HasUpper(p), NoUpper),
      Rule(HasLower(p), NoLower),
      Rule(HasDigit(p), NoNumber),
      Rule(HasSpecial(p), NoSpecial) ]
  }

  /** `validatePassword(p)`: the message of the first rule broken, None (`null`) when none is. */
  function ValidatePassword(p: string): Option<string> {
    if !LengthRule(p) then Some(TooShort)
    else if !HasUpper(p) then Some(NoUpper)
    else if !HasLower(p) then Some(NoLower)
    else if !HasDigit(p) then Some(NoNumber)
    else if !HasSpecial(p) then Some(NoSpecial)
    else None
  }

  /**
   * `validatePassword` reports the first broken rule of `PasswordRules`, in order,
   * and returns null exactly when the password meets all five.
   */
  lemma ValidatePasswordSpec(p: string)
    ensures ValidatePassword(p) == FirstFailing(PasswordRules(p))
    ensures ValidatePassword(p) == None <==> LengthRule(p) && HasUpper(p) && HasLower(p) && HasDigit(p) && HasSpecial(p)
  {
    var rules := PasswordRules(p);
    if !LengthRule(p) { FirstFailingAt(rules, 0); }
    else if !HasUpper(p) { FirstFailingAt(rules, 1); }
    else if !HasLower(p) { FirstFailingAt(rules, 2); }
    else if !HasDigit(p) { FirstFailingAt(rules, 3); }
    else if !HasSpecial(p) { FirstFailingAt(rules, 4); }
  }

  /** The `newErrors` object `handleSubmit` builds from the raw field values. */
  function ValidationErrors(name: string, email: string, password: string, role: string): map<Field, string> {
    var errs := if name == "" then map[Name := NameRequired] else map[];
    var errs :=
      if email == "" then errs[Email := EmailRequired]
      else if !ValidEmail(email) then errs[Email := EmailInvalid]
      else errs;
    var errs :=
      if password == "" then errs[Password := PasswordRequired]
      else match ValidatePassword(password)
        case Some(m) => errs[Password := m]
        case None => errs;
    if role == "" then errs[Role := RoleRequired] else errs
  }

  /**
   * The four checks are independent: each field has an entry exactly when its own
   * check fails, and nothing else does. Name and role need only be non-empty (a
   * blank name passes); an empty email or password gets the "required" message and
   * skips the shape or rule check.
   */
  lemma ValidationErrorsSpec(name: string, email: string, password: string, role: string)
    ensures var errs := ValidationErrors(name, email, password, role);
      && errs.Keys <= {Name, Email, Password, Role}
      && (Name in errs <==> name == "")
      && (Name in errs ==> errs[Name] == NameRequired)
      && (Email in errs <==> !ValidEmail(email))
      && (Email in errs ==> errs[Email] == if email == "" then EmailRequired else EmailInvalid)
      && (Password in errs <==> password == "" || !(LengthRule(password) && HasUpper(password) && HasLower(password) && HasDigit(password) && HasSpecial(password)))
      && (Password in errs && password == "" ==> errs[Password] == PasswordRequired)
      && (Password in errs && password != "" ==> Some(errs[Password]) == FirstFailing(PasswordRules(password)))
      && (Role in errs <==> role == "")
      && (Role in errs ==> errs[Role] == RoleRequired)
  {
    ValidatePasswordSpec(password);
  }

  /** The checks of `handleSubmit`, filling `newErrors` one field at a time. */
  method Validate(name: string, email: string, password: string, role: string) returns (newErrors: map<Field, string>)
    ensures newErrors == ValidationErrors(name, email, password, role)
  {
    newErrors := map[];
    if name == "" {
      newErrors := newErrors[Name := NameRequired];
    }
    if email == "" {
      newErrors := newErrors[Email := EmailRequired];
    } else if !ValidEmail(email) {
      newErrors := newErrors[Email := EmailInvalid];
    }
    if password == "" {
      newErrors := newErrors[Password := PasswordRequired];
    } else {
      var passwordError := ValidatePassword(password);
      if passwordError.Some? {
        newErrors := newErrors[Password := passwordError.value];
      }
    }
    if role == "" {
      newErrors := newErrors[Role := RoleRequired];
    }
  }

  /** `Bearer ${token}`, where a missing localStorage entry reads as `null`. */
  function Bearer(session: map<string, string>): (h: string)
    ensures TokenKey in session ==> h == "Bearer " + session[TokenKey]
    ensures TokenKey !in session ==> h == "Bearer null"
  {
    "Bearer " + if TokenKey in session then session[TokenKey] else "null"
  }

  /**
   * The state of the AddEmployee dialog: the `employeeData` and `errors` objects,
   * and the calls made to the parent's `onAddEmployee` and `onClose`, in order.
   */
  class AddEmployeeForm<E> {
    var data: map<Field, string>
    var errors: map<Field, string>
    var calls: seq<Callback<E>>

    /** The four inputs are always present in `employeeData`. */
    ghost predicate Valid()
      reads this
    {
      {Name, Email, Password, Role} <= data.Keys
    }

    /** A freshly opened dialog: all four fields empty, no errors, no calls yet. */
    constructor ()
      ensures Valid()
      ensures data == map[Name := "", Email := "", Role := "", Password := ""]
      ensures errors == map[] && calls == []
    {
      data := map[Name := "", Email := "", Role := "", Password := ""];
      errors := map[];
      calls := [];
    }

    /** `handleChange`: sets the edited field and resets that field's error to the empty string. */
    method HandleChange(name: Field, value: string)
      requires Valid()
      modifies this`data, this`errors
      ensures Valid()
      ensures data == old(data)[name := value] && errors == old(errors)[name := ""]
      ensures forall f | f != name :: (f in data <==> f in old(data)) && (f in data ==> data[f] == old(data)[f])
      ensures forall f | f != name :: (f in errors <==> f in old(errors)) && (f in errors ==> errors[f] == old(errors)[f])
    {
      data := data[name := value];
      errors := errors[name := ""];
    }

    /**
     * `handleSubmit`, with the browser's localStorage as `session` and the outcome
     * of the POST as `reply`. Returns the request when it is issued and None when
     * validation stops it, in which case `reply` is not used.
     */
    method Submit(session: map<string, string>, reply: Response<E>) returns (sent: Option<AddRequest>)
      requires Valid()
      modifies this`errors, this`calls
      ensures Valid() && data == old(data)
      // the request goes out exactly when no check fails, and carries the data unchanged
      ensures var errs := ValidationErrors(data[Name], data[Email], data[Password], data[Role]);
        sent == if errs == map[] then Some(AddRequest(data, Bearer(session))) else None
      // validation failed: the errors are shown and the parent is not called
      ensures sent == None ==>
        errors == ValidationErrors(data[Name], data[Email], data[Password], data[Role]) && calls == old(calls)
      ensures sent != None ==> ReplyApplied(reply, old(calls))
    {
      var newErrors := Validate(data[Name], data[Email], data[Password], data[Role]);
      if newErrors != map[] {
        errors := newErrors;
        return None;
      }
      errors := map[];
      sent := Some(AddRequest(data, Bearer(session)));
      match reply {
        case Reply(success, message, employee) =>
          if success {
            calls := calls + [OnAddEmployee(employee)];
            calls := calls + [OnClose];
          } else {
            errors := map[Form := JsOr(message, AddFailed)];
          }
        case Transport(message) =>
          errors := map[Form := JsOr(message, TransportFailed)];
      }
    }

    /**
     * What the dialog holds after `reply` has been handled. On success the parent
     * receives the employee and then the dialog closes, with no errors shown; on an
     * unsuccessful reply or a thrown request the errors are replaced by a single
     * form-level message and the parent is not called.
     */
    ghost predicate ReplyApplied(reply: Response<E>, calls0: seq<Callback<E>>)
      reads this
    {
      if reply.Reply? && reply.success then
        errors == map[] && calls == calls0 + [OnAddEmployee(reply.payload), OnClose]
      else
        && errors == map[Form := if reply.Reply? then JsOr(reply.message, AddFailed) else JsOr(reply.message, TransportFailed)]
        && calls == calls0
    }
  }
}
