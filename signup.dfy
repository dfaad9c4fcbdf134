/**
 * Client/src/components/SignupForm.js: the signup form.
 *
 * `handleSubmit` checks the raw name, email, password and role, each on its own;
 * the password is tested against one anchored regular expression and a failure is
 * reported with a single combined message. The form data is posted unchanged only
 * when no check fails. Any reply that does not throw sets the message to whatever
 * the reply carries and goes to the login page; a thrown request sets a message
 * and stays.
 */
module Signup {
  import opened Chars
  import opened EmailShape
  import opened Forms

  const NameRequired := "Name is required."
  const EmailRequired := "Email is required."
  const EmailInvalid := "Please enter a valid email."
  const PasswordRequired := "Password is required."
  const PasswordWeak := "Password must be at least 8 characters long, include an uppercase letter, a lowercase letter, a number, and a special character."
  const RoleRequired := "Role is required."

  const TransportFailed := "An error occurred. Please try again."
  const LoginRoute := "/login"

  /** The character classes the password pattern looks ahead for. */
  datatype CharClass = Lower | Upper | Digit | Special

  predicate InClass(c: char, k: CharClass) {
    match k
    case Lower => IsLower(c)
    case Upper => IsUpper(c)
    case Digit => IsDigit(c)
    case Special => IsSpecial(c)
  }

  /** The class `[A-Za-z\d@$!%*?&]` of the pattern's body. */
  predicate Allowed(c: char) {
    IsLower(c) || IsUpper(c) || IsDigit(c) || IsSpecial(c)
  }

  predicate AllAllowed(s: string) {
    forall i | 0 <= i < |s| :: Allowed(s[i])
  }

  /**
   * `(?=.*K)` at the start of `p`: some character of class `K` is preceded only by
   * characters `.` matches (no line terminator).
   */
  predicate Lookahead(p: string, k: CharClass) {
    exists i | 0 <= i < |p| :: InClass(p[i], k) && forall j | 0 <= j < i :: !IsLineTerminator(p[j])
  }

  /**
   * `validatePassword(p)`: the regular expression
   * `^(?=.*[a-z])(?=.*[A-Z])(?=.*\d)(?=.*[@$!%*?&])[A-Za-z\d@$!%*?&]{8,}$`
   * read literally: four lookaheads at the start, then eight or more characters of
   * the allowed class up to the end.
   */
  predicate ValidatePassword(p: string) {
    && Lookahead(p, Lower) && Lookahead(p, Upper) && Lookahead(p, Digit) && Lookahead(p, Special)
    && |p| >= 8 && AllAllowed(p)
  }

  /** In a string of allowed characters the lookahead reaches every position. */
  lemma LookaheadOfAllowed(p: string, k: CharClass, i: nat)
    requires AllAllowed(p) && i < |p| && InClass(p[i], k)
    ensures Lookahead(p, k)
  {
    assert forall j | 0 <= j < i :: !IsLineTerminator(p[j]) by {
      forall j | 0 <= j < i ensures !IsLineTerminator(p[j]) {
        assert Allowed(p[j]);
      }
    }
  }

  /**
   * The pattern accepts exactly the passwords of eight or more characters, all from
   * `[A-Za-z0-9@$!%*?&]`, with at least one lowercase letter, one uppercase letter,
   * one digit and one special character.
   */
  lemma ValidatePasswordIff(p: string)
    ensures ValidatePassword(p) <==>
      |p| >= 8 && AllAllowed(p) && HasLower(p) && HasUpper(p) && HasDigit(p) && HasSpecial(p)
  {
    if |p| >= 8 && AllAllowed(p) && HasLower(p) && HasUpper(p) && HasDigit(p) && HasSpecial(p) {
      var a :| 0 <= a < |p| && IsLower(p[a]);
      var b :| 0 <= b < |p| && IsUpper(p[b]);
      var c :| 0 <= c < |p| && IsDigit(p[c]);
      var d :| 0 <= d < |p| && IsSpecial(p[d]);
      LookaheadOfAllowed(p, Lower, a);
      LookaheadOfAllowed(p, Upper, b);
      LookaheadOfAllowed(p, Digit, c);
      LookaheadOfAllowed(p, Special, d);
    }
  }

  /** The `newErrors` object `handleSubmit` builds from the raw form data. */
  function ValidationErrors(name: string, email: string, password: string, role: string): map<Field, string> {
    var errs := if name == "" then map[Name := NameRequired] else map[];
    var errs :=
      if email == "" then errs[Email := EmailRequired]
      else if !ValidEmail(email) then errs[Email := EmailInvalid]
      else errs;
    var errs :=
      if password == "" then errs[Password := PasswordRequired]
      else if !ValidatePassword(password) then errs[Password := PasswordWeak]
      else errs;
    if role == "" then errs[Role := RoleRequired] else errs
  }

  /**
   * Each field has an entry exactly when its own check fails. A non-empty password
   * that fails gets the one combined message, never a message naming a single rule.
   */
  lemma ValidationErrorsSpec(name: string, email: string, password: string, role: string)
    ensures var errs := ValidationErrors(name, email, password, role);
      && errs.Keys <= {Name, Email, Password, Role}
      && (Name in errs <==> name == "")
      && (Name in errs ==> errs[Name] == NameRequired)
      && (Email in errs <==> !ValidEmail(email))
      && (Email in errs ==> errs[Email] == if email == "" then EmailRequired else EmailInvalid)
      && (Password in errs <==> !(|password| >= 8 && AllAllowed(password) && HasLower(password) && HasUpper(password) && HasDigit(password) && HasSpecial(password)))
      && (Password in errs ==> errs[Password] == if password == "" then PasswordRequired else PasswordWeak)
      && (Role in errs <==> role == "")
      && (Role in errs ==> errs[Role] == RoleRequired)
  {
    ValidatePasswordIff(password);
  }

  /** The checks of `handleSubmit`, filling `newErrors` one field at a time. */
  method Validate(name: string, email: string, password: string, role: string) returns (newErrors: map<Field, string>)
    ensures newErrors == ValidationErrors(name, email, password, role)
  {
    newErrors := map[];
    if name == "" {
      newErrors := newErrors[Name := NameRequired];
    }
    if email == "" {
      newErrors := newErrors[Email := EmailRequired];
    } else if !ValidEmail(email) {
      newErrors := newErrors[Email := EmailInvalid];
    }
    if password == "" {
      newErrors := newErrors[Password := PasswordRequired];
    } else if !ValidatePassword(password) {
      newErrors := newErrors[Password := PasswordWeak];
    }
    if role == "" {
      newErrors := newErrors[Role := RoleRequired];
    }
  }

  /**
   * The state of the SignupForm component: `formData`, `errors`, and `message`
   * (None when the reply carried no message, so `undefined` was stored); the calls
   * to `navigate` are recorded, in order, in `navigations`.
   */
  class SignupForm {
    var data: map<Field, string>
    var errors: map<Field, string>
    var message: Option<string>
    var navigations: seq<string>

    /** The four inputs are always present in `formData`. */
    ghost predicate Valid()
      reads this
    {
      {Name, Email, Password, Role} <= data.Keys
    }

    /** A freshly mounted form: all four fields empty, no errors, an empty message. */
    constructor ()
      ensures Valid()
      ensures data == map[Name := "", Email := "", Password := "", Role := ""]
      ensures errors == map[] && message == Some("") && navigations == []
    {
      data := map[Name := "", Email := "", Password := "", Role := ""];
      errors := map[];
      message := Some("");
      navigations := [];
    }

    /** `handleChange`: sets the edited field; the errors are left as they are. */
    method HandleChange(name: Field, value: string)
      requires Valid()
      modifies this`data
      ensures Valid()
      ensures data == old(data)[name := value]
      ensures forall f | f != name :: (f in data <==> f in old(data)) && (f in data ==> data[f] == old(data)[f])
    {
      data := data[name := value];
    }

    /**
     * `handleSubmit`, with the outcome of the POST as `reply`. Returns the request
     * body when the request is issued and None when validation stops it, in which
     * case `reply` is not used.
     */
    method Submit(reply: Response<()>) returns (sent: Option<map<Field, string>>)
      requires Valid()
      modifies this`errors, this`message, this`navigations
      ensures Valid() && data == old(data)
      // the request goes out exactly when no check fails, and carries the form data unchanged
      ensures var errs := ValidationErrors(data[Name], data[Email], data[Password], data[Role]);
        sent == if errs == map[] then Some(data) else None
      // validation failed: the errors are shown and nothing else happens
      ensures sent == None ==>
        && errors == ValidationErrors(data[Name], data[Email], data[Password], data[Role])
        && message == old(message) && navigations == old(navigations)
      ensures sent != None ==> errors == map[]
      ensures sent != None ==> ReplyApplied(reply, old(navigations))
    {
      var newErrors := Validate(data[Name], data[Email], data[Password], data[Role]);
      if newErrors != map[] {
        errors := newErrors;
        return None;
      }
      errors := map[];
      sent := Some(data);
      match reply {
        case Reply(_, replyMessage, _) =>
          message := replyMessage;
          navigations := navigations + [LoginRoute];
        case Transport(replyMessage) =>
          message := Some(JsOr(replyMessage, TransportFailed));
      }
    }

    /**
     * What the form holds after `reply` has been handled. Any reply that arrives,
     * whatever its success flag, sets the message to the one it carries and goes to
     * the login page; a thrown request sets the reply's message or the fallback and
     * stays.
     */
    ghost predicate ReplyApplied(reply: Response<()>, navigations0: seq<string>)
      reads this
    {
      match reply
      case Reply(_, replyMessage, _) =>
        message == replyMessage && navigations == navigations0 + [LoginRoute]
      case Transport(replyMessage) =>
        message == Some(JsOr(replyMessage, TransportFailed)) && navigations == navigations0
    }
  }
}
