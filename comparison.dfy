/**
 * The three forms state their password policy three times, differently. These
 * lemmas relate the policies: which one accepts more, which message each reports
 * first, and where they disagree.
 */
module PasswordPolicies {
  import opened Chars
  import opened Text
  import opened Forms
  import Login
  import AddEmployee
  import Signup

  /** Characters of the signup class `[A-Za-z\d@$!%*?&]` are neither whitespace nor line terminators. */
  lemma AllowedIsNotWs(p: string)
    requires Signup.AllAllowed(p)
    ensures forall i | 0 <= i < |p| :: !IsWs(p[i]) && !IsLineTerminator(p[i])
  {
    forall i | 0 <= i < |p| ensures !IsWs(p[i]) && !IsLineTerminator(p[i]) {
      assert Signup.Allowed(p[i]);
    }
  }

  /** A password signup accepts is also accepted by the add-employee rule chain. */
  lemma SignupImpliesAddEmployee(p: string)
    requires Signup.ValidatePassword(p)
    ensures AddEmployee.ValidatePassword(p) == None
  {
    Signup.ValidatePasswordIff(p);
    AllowedIsNotWs(p);
    assert AddEmployee.DotsOnly(p[..8]);
    AddEmployee.ValidatePasswordSpec(p);
  }

  /**
   * A password signup accepts is also accepted by login, even after login trims it:
   * it has no whitespace to trim.
   */
  lemma SignupImpliesLogin(p: string)
    requires Signup.ValidatePassword(p)
    ensures Trim(p) == p
    ensures Login.PasswordError(Trim(p)) == None
  {
    Signup.ValidatePasswordIff(p);
    AllowedIsNotWs(p);
    TrimSpec(p);
    assert p != [] && !IsWs(p[0]) && !IsWs(p[|p| - 1]);
    Login.PasswordErrorSpec(p);
  }

  /** Every password the add-employee chain accepts, login's chain accepts too. */
  lemma AddEmployeeImpliesLogin(p: string)
    requires AddEmployee.ValidatePassword(p) == None
    ensures Login.PasswordError(p) == None
  {
    AddEmployee.ValidatePasswordSpec(p);
    Login.PasswordErrorSpec(p);
  }

  /** The add-employee chain accepts a password with `#`, outside the signup class, which signup rejects. */
  lemma AddEmployeeAcceptsWhatSignupRejects()
    ensures AddEmployee.ValidatePassword("Abcdef1!#") == None
    ensures !Signup.ValidatePassword("Abcdef1!#")
  {
    var p := "Abcdef1!#";
    assert IsUpper(p[0]) && IsLower(p[1]) && IsDigit(p[6]) && IsSpecial(p[7]);
    assert AddEmployee.DotsOnly(p[..8]);
    AddEmployee.ValidatePasswordSpec(p);
    assert !Signup.Allowed(p[8]);
  }

  /**
   * Login's chain accepts a password with a line break among its first eight
   * characters, which the add-employee length lookahead `(?=.{8,})` rejects.
   */
  lemma LoginAcceptsWhatAddEmployeeRejects()
    ensures Login.PasswordError("Abc\ndef1!") == None
    ensures AddEmployee.ValidatePassword("Abc\ndef1!") == Some(AddEmployee.TooShort)
  {
    var p := "Abc\ndef1!";
    assert IsUpper(p[0]) && IsLower(p[1]) && IsDigit(p[7]) && IsSpecial(p[8]);
    Login.PasswordErrorSpec(p);
    assert IsLineTerminator(p[..8][3]);
  }

  /**
   * The two chains check upper and lower case in opposite orders, so a password
   * with neither is told about a different rule by each.
   */
  lemma RuleOrderDiffers()
    ensures Login.PasswordError("12345678") == Some(Login.NoLower)
    ensures AddEmployee.ValidatePassword("12345678") == Some(AddEmployee.NoUpper)
  {
    var p := "12345678";
    assert forall i | 0 <= i < |p| :: IsDigit(p[i]);
    assert AddEmployee.DotsOnly(p[..8]);
  }
}
