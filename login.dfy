/**
 * Client/src/components/LoginForm.js: the login form.
 *
 * `handleLogin` trims both inputs, checks them (email: required, then shape; password:
 * a chain of five rules that reports the first one broken), and only when no check
 * fails posts the trimmed credentials. A successful reply stores the session in
 * localStorage, clears the inputs and routes by role; a failed reply or a thrown
 * request shows a popup message and keeps the inputs.
 */
module Login {
  import opened Chars
  import opened Text
  import opened EmailShape
  import opened Forms
  import opened Rules

  const EmailRequired := "Email is required."
  const EmailInvalid := "Please enter a valid email."
  const TooShort := "Password must be at least 8 characters long."
  const NoLower := "Password must contain at least one lowercase letter."
  const NoUpper := "Password must contain at least one uppercase letter."
  const NoNumber := "Password must contain at least one number."
  const NoSpecial := "Password must contain at least one special character (@$!%*?&)."

  const LoginFailed := "Login failed. Please try again."
  const TransportFailed := "An error occurred while logging in. Please try again later."
  const Unauthorized := "Unauthorized access"
  const Dashboard := "/admin-dashboard"

  /** localStorage keys written on a successful login. */
  const TokenKey := "token"
  const RoleKey := "role"
  const IdKey := "id"

  /** The body of POST /api/login. */
  datatype Credentials = Credentials(email: string, password: string)

  /** The fields of a login reply's `data` that the form reads besides success and message. */
  datatype LoginPayload = LoginPayload(token: string, role: string, id: string)

  /** The password rules of `handleLogin`, in the order it checks them. */
  function PasswordRules(p: string): seq<Rule> {
    [ Rule(|p| >= 8, TooShort),
      Rule(HasLower(p), NoLower),
      Rule(HasUpper(p), NoUpper),
      Rule(HasDigit(p), NoNumber),
      Rule(HasSpecial(p), NoSpecial) ]
  }

  /**
   * The `else if` chain over the password: the message of the first rule broken,
   * None when the password meets all five.
   */
  function PasswordError(p: string): Option<string> {
    if |p| < 8 then Some(TooShort)
    else if !HasLower(p) then Some(NoLower)
    else if !HasUpper(p) then Some(NoUpper)
    else if !HasDigit(p) then Some(NoNumber)
    else if !HasSpecial(p) then Some(NoSpecial)
    else None
  }

  /**
   * The chain reports the first broken rule of `PasswordRules`, in order, and
   * reports nothing exactly when the password meets all five.
   */
  lemma PasswordErrorSpec(p: string)
    ensures PasswordError(p) == FirstFailing(PasswordRules(p))
    ensures PasswordError(p) == None <==> |p| >= 8 && HasLower(p) && HasUpper(p) && HasDigit(p) && HasSpecial(p)
  {
    var rules := PasswordRules(p);
    if |p| < 8 { FirstFailingAt(rules, 0); }
    else if !HasLower(p) { FirstFailingAt(rules, 1); }
    else if !HasUpper(p) { FirstFailingAt(rules, 2); }
    else if !HasDigit(p) { FirstFailingAt(rules, 3); }
    else if !HasSpecial(p) { FirstFailingAt(rules, 4); }
  }

  /** The `validationErrors` object `handleLogin` builds from the trimmed inputs. */
  function ValidationErrors(email: string, password: string): map<Field, string> {
    var emailErrors :=
      if email == "" then map[Email := EmailRequired]
      else if !ValidEmail(email) then map[Email := EmailInvalid]
      else map[];
    match PasswordError(password)
    case Some(m) => emailErrors[Password := m]
    case None => emailErrors
  }

  /**
   * What the error object holds: only email and password entries; an email entry
   * exactly when the email is not valid, worded "required" when it is empty; a
   * password entry exactly when the password breaks a rule, carrying the message
   * of the first rule broken.
   */
  lemma ValidationErrorsSpec(email: string, password: string)
    ensures var errs := ValidationErrors(email, password);
      && errs.Keys <= {Email, Password}
      && (Email in errs <==> !ValidEmail(email))
      && (Email in errs ==> errs[Email] == if email == "" then EmailRequired else EmailInvalid)
      && (Password in errs <==> !(|password| >= 8 && HasLower(password) && HasUpper(password) && HasDigit(password) && HasSpecial(password)))
      && (Password in errs ==> Some(errs[Password]) == FirstFailing(PasswordRules(password)))
  {
    PasswordErrorSpec(password);
  }

  /**
   * Login has no "required" message for the password: one that is empty after
   * trimming is reported as too short.
   */
  lemma BlankPasswordIsTooShort(email: string, password: string)
    requires AllWs(password)
    ensures var errs := ValidationErrors(Trim(email), Trim(password));
      Password in errs && errs[Password] == TooShort
  {
    TrimSpec(password);
    assert PasswordError(Trim(password)) == Some(TooShort);
  }

  /**
   * The checks of `handleLogin`: both inputs are trimmed and the trimmed values are
   * checked, filling the error object one field at a time.
   */
  method Validate(email: string, password: string) returns (trimmedEmail: string, trimmedPassword: string, validationErrors: map<Field, string>)
    ensures trimmedEmail == Trim(email) && trimmedPassword == Trim(password)
    ensures validationErrors == ValidationErrors(trimmedEmail, trimmedPassword)
  {
    trimmedEmail := Trim(email);
    trimmedPassword := Trim(password);

    validationErrors := map[];
    if trimmedEmail == "" {
      validationErrors := validationErrors[Email := EmailRequired];
    } else if !ValidEmail(trimmedEmail) {
      validationErrors := validationErrors[Email := EmailInvalid];
    }
    match PasswordError(trimmedPassword) {
      case Some(m) => validationErrors := validationErrors[Password := m];
      case None =>
    }
  }

  /**
   * The state of the LoginForm component. localStorage is the `storage` map; the
   * calls to `navigate` and `alert` are recorded, in order, in `navigations` and
   * `alerts`.
   */
  class LoginForm {
    var email: string
    var password: string
    var errorMessage: string
    var errors: map<Field, string>
    var showPopup: bool
    var isLoading: bool
    var storage: map<string, string>
    var navigations: seq<string>
    var alerts: seq<string>

    /**
     * Between user actions: no request is outstanding, the field errors are only
     * email and password ones, and a shown popup always has a message.
     */
    ghost predicate Valid()
      reads this
    {
      && !isLoading
      && errors.Keys <= {Email, Password}
      && (showPopup ==> errorMessage != "")
    }

    /** A freshly mounted form over the browser's current localStorage. */
    constructor (storage: map<string, string>)
      ensures Valid()
      ensures email == "" && password == "" && errorMessage == "" && errors == map[]
      ensures !showPopup && this.storage == storage && navigations == [] && alerts == []
    {
      email, password, errorMessage, errors := "", "", "", map[];
      showPopup, isLoading := false, false;
      this.storage := storage;
      navigations, alerts := [], [];
    }

    /** The email input's onChange. */
    method EditEmail(value: string)
      requires Valid()
      modifies this`email
      ensures Valid() && email == value
    {
      email := value;
    }

    /** The password input's onChange. */
    method EditPassword(value: string)
      requires Valid()
      modifies this`password
      ensures Valid() && password == value
    {
      password := value;
    }

    /** The popup's close buttons. */
    method ClosePopup()
      requires Valid()
      modifies this`showPopup
      ensures Valid() && !showPopup
    {
      showPopup := false;
    }

    /**
     * `handleLogin`, with the outcome of the POST given as `reply`. Returns the
     * request body when the request is issued and None when validation stops it,
     * in which case `reply` is not used.
     */
    method Submit(reply: Response<LoginPayload>) returns (sent: Option<Credentials>)
      requires Valid()
      modifies this
      ensures Valid()
      // the request goes out exactly when the trimmed inputs pass, and carries them
      ensures var e, p := Trim(old(email)), Trim(old(password));
        sent == if ValidationErrors(e, p) == map[] then Some(Credentials(e, p)) else None
      // validation failed: the errors are shown and nothing else happens
      ensures sent == None ==>
        && errors == ValidationErrors(Trim(old(email)), Trim(old(password)))
        && errorMessage == "" && !showPopup
        && email == old(email) && password == old(password)
        && storage == old(storage) && navigations == old(navigations) && alerts == old(alerts)
      ensures sent != None ==> errors == map[]
      ensures sent != None ==> ReplyApplied(reply, old(email), old(password), old(storage), old(navigations), old(alerts))
    {
      errorMessage := "";
      showPopup := false;
      isLoading := true;

      var trimmedEmail, trimmedPassword, validationErrors := Validate(email, password);
      if validationErrors != map[] {
        errors := validationErrors;
        isLoading := false;
        return None;
      }
      errors := map[];

      sent := Some(Credentials(trimmedEmail, trimmedPassword));
      ApplyReply(reply);
    }

    /**
     * What the fields hold after `reply` has been handled, given their values before.
     * A successful reply stores the session, clears the inputs and routes by role; an
     * unsuccessful reply or a thrown request shows a popup and keeps the inputs.
     */
    ghost predicate ReplyApplied(reply: Response<LoginPayload>, email0: string, password0: string,
                                 storage0: map<string, string>, navigations0: seq<string>, alerts0: seq<string>)
      reads this
    {
      if reply.Reply? && reply.success then
        && storage == storage0[TokenKey := reply.payload.token]
                              [RoleKey := reply.payload.role]
                              [IdKey := reply.payload.id]
        && email == "" && password == ""
        && errorMessage == "" && !showPopup
        && if reply.payload.role == "admin" || reply.payload.role == "employee"
           then navigations == navigations0 + [Dashboard] && alerts == alerts0
           else navigations == navigations0 && alerts == alerts0 + [Unauthorized]
      else
        && showPopup
        && errorMessage == (if reply.Reply? then JsOr(reply.message, LoginFailed) else TransportFailed)
        && email == email0 && password == password0
        && storage == storage0 && navigations == navigations0 && alerts == alerts0
    }

    /** The part of `handleLogin` after the request has been issued. */
    method ApplyReply(reply: Response<LoginPayload>)
      requires errors.Keys <= {Email, Password}
      requires errorMessage == "" && !showPopup
      modifies this`isLoading, this`storage, this`email, this`password,
               this`navigations, this`alerts, this`errorMessage, this`showPopup
      ensures Valid()
      ensures ReplyApplied(reply, old(email), old(password), old(storage), old(navigations), old(alerts))
    {
      match reply {
        case Reply(success, message, payload) =>
          isLoading := false;
          if success {
            storage := storage[TokenKey := payload.token];
            storage := storage[RoleKey := payload.role];
            storage := storage[IdKey := payload.id];
            email := "";
            password := "";
            if payload.role == "admin" {
              navigations := navigations + [Dashboard];
            } else if payload.role == "employee" {
              navigations := navigations + [Dashboard];
            } else {
              alerts := alerts + [Unauthorized];
            }
          } else {
            errorMessage := JsOr(message, LoginFailed);
            showPopup := true;
          }
        case Transport(_) =>
          errorMessage := TransportFailed;
          showPopup := true;
          isLoading := false;
      }
    }
  }
}
