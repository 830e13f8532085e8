/** The single-page version of the password form in password-verification/src/App.tsx. It carries
    its own inline copy of the strength check and flags the inputs differently from the
    `PasswordFields` component: only a typed, invalid password is flagged, and both inputs follow
    the password's validity while a separate message reports a mismatch. */
module PasswordPage {
  import PasswordRules

  /** The inline `validPassword` of the page, written out again as the page does. */
  function InlineValidPassword(password: string): (c: PasswordRules.Checks)
    ensures c == PasswordRules.ValidPassword(password)
  {
    var length := |password| > 9;
    var caps := PasswordRules.TestRange(password, 'A', 'Z');
    var lower := PasswordRules.TestRange(password, 'a', 'z');
    var numeral := PasswordRules.TestRange(password, '0', '9');
    var special := PasswordRules.TestAnyOf(password, PasswordRules.SpecialChars);
    var valid := length && caps && lower && special && numeral;
    PasswordRules.Checks(length, caps, lower, numeral, special, valid)
  }

  /** `valid` holds exactly for passwords of ten or more characters with a character of each class. */
  lemma InlineValidMeans(password: string)
    ensures InlineValidPassword(password).valid <==>
      && |password| >= 10
      && (exists i :: 0 <= i < |password| && 'A' <= password[i] <= 'Z')
      && (exists i :: 0 <= i < |password| && 'a' <= password[i] <= 'z')
      && (exists i :: 0 <= i < |password| && '0' <= password[i] <= '9')
      && (exists i :: 0 <= i < |password| && password[i] in PasswordRules.SpecialChars)
  {
  }

  /** Both inputs get the red border when a password has been typed and is not valid. */
  function InputBorderRed(password: string): (red: bool)
    ensures red <==> password != "" && !PasswordRules.IsValid(password)
    ensures red <==> PasswordRules.PasswordFieldRed(password) && password != ""
  {
    !(password == "" || InlineValidPassword(password).valid)
  }

  /** The rule list turns red under the same condition. */
  function RuleListRed(password: string): (red: bool)
    ensures red <==> InputBorderRed(password)
    ensures red <==> PasswordRules.RuleListRed(password)
  {
    password != "" && !InlineValidPassword(password).valid
  }

  /** The green marks of the five list items, in display order. */
  function RuleMarks(password: string): (green: seq<bool>)
    ensures green == PasswordRules.RuleMarks(password)
  {
    var c := InlineValidPassword(password);
    var typed := password != "";
    [typed && c.length, typed && c.lower, typed && c.caps, typed && c.numeral, typed && c.special]
  }

  /** "Passwords do not match" is shown exactly when the two inputs differ. */
  function MismatchMessageShown(password: string, passwordCheck: string): (shown: bool)
    ensures shown <==> password != passwordCheck
    ensures shown <==> PasswordRules.RepeatFieldRed(password, passwordCheck)
  {
    !PasswordRules.PasswordsMatch(password, passwordCheck)
  }

  /** Where the page and the component disagree: the page leaves an empty password unflagged, and it
      flags the repeat input by the password's validity, not by the match. */
  lemma FlaggingDiffersFromComponent()
    ensures !InputBorderRed("") && PasswordRules.PasswordFieldRed("")
    ensures InputBorderRed("a") && !PasswordRules.RepeatFieldRed("a", "a")
  {
    assert PasswordRules.IsValid("a") ==> |"a"| >= 10;
  }
}
