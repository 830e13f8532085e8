/** The password-strength rules of password-verification/src/components/PasswordFields.tsx: the
    exported `validPassword` check, the `passwordsMatch` comparison, and the conditions under which
    the two inputs and the rule list are flagged. */
module PasswordRules {

  /** The characters `/[@#$%!^&*]/` accepts. */
  const SpecialChars: set<char> := {'@', '#', '$', '%', '!', '^', '&', '*'}

  /** The six flags `validPassword` returns. */
  datatype Checks = Checks(length: bool, caps: bool, lower: bool, numeral: bool, special: bool, valid: bool)

  /** Some character of `s` lies in the range `lo..hi`, as a regex character class tests it. */
  ghost predicate HasCharIn(s: string, lo: char, hi: char)
  {
    exists i :: 0 <= i < |s| && lo <= s[i] <= hi
  }

  /** Some character of `s` is one of `cs`. */
  ghost predicate HasCharOf(s: string, cs: set<char>)
  {
    exists i :: 0 <= i < |s| && s[i] in cs
  }

  /** `/[lo-hi]/.test(s)`: scan the string for a character in the range. */
  function TestRange(s: string, lo: char, hi: char): (found: bool)
    ensures found <==> HasCharIn(s, lo, hi)
  {
    if s == [] then false
    else if lo <= s[0] <= hi then true
    else
      var rest := TestRange(s[1..], lo, hi);
      assert HasCharIn(s[1..], lo, hi) ==> HasCharIn(s, lo, hi) by {
        if HasCharIn(s[1..], lo, hi) {
          var i :| 0 <= i < |s[1..]| && lo <= s[1..][i] <= hi;
          assert s[i + 1] == s[1..][i];
        }
      }
      assert HasCharIn(s, lo, hi) ==> HasCharIn(s[1..], lo, hi) by {
        if HasCharIn(s, lo, hi) {
          var i :| 0 <= i < |s| && lo <= s[i] <= hi;
          assert i != 0 && s[1..][i - 1] == s[i];
        }
      }
      rest
  }

  /** `/[...]/.test(s)` for a class of listed characters. */
  function TestAnyOf(s: string, cs: set<char>): (found: bool)
    ensures found <==> HasCharOf(s, cs)
  {
    if s == [] then false
    else if s[0] in cs then true
    else
      var rest := TestAnyOf(s[1..], cs);
      assert HasCharOf(s[1..], cs) ==> HasCharOf(s, cs) by {
        if HasCharOf(s[1..], cs) {
          var i :| 0 <= i < |s[1..]| && s[1..][i] in cs;
          assert s[i + 1] == s[1..][i];
        }
      }
      assert HasCharOf(s, cs) ==> HasCharOf(s[1..], cs) by {
        if HasCharOf(s, cs) {
          var i :| 0 <= i < |s| && s[i] in cs;
          assert i != 0 && s[1..][i - 1] == s[i];
        }
      }
      rest
  }

  /** The strength rules: more than nine characters, an upper-case letter, a lower-case letter, a
      digit and a special character; `valid` is their conjunction. */
  function ValidPassword(password: string): (c: Checks)
    ensures c.length <==> |password| >= 10
    ensures c.caps <==> HasCharIn(password, 'A', 'Z')
    ensures c.lower <==> HasCharIn(password, 'a', 'z')
    ensures c.numeral <==> HasCharIn(password, '0', '9')
    ensures c.special <==> HasCharOf(password, SpecialChars)
    ensures c.valid <==> c.length && c.caps && c.lower && c.numeral && c.special
  {
    var length := |password| > 9;
    var caps := TestRange(password, 'A', 'Z');
    var lower := TestRange(password, 'a', 'z');
    var numeral := TestRange(password, '0', '9');
    var special := TestAnyOf(password, SpecialChars);
    var valid := length && caps && lower && special && numeral;
    Checks(length, caps, lower, numeral, special, valid)
  }

  /** `isValid()`: the password passes every rule. */
  predicate IsValid(password: string)
    ensures IsValid(password) <==>
      |password| >= 10 && HasCharIn(password, 'A', 'Z') && HasCharIn(password, 'a', 'z')
      && HasCharIn(password, '0', '9') && HasCharOf(password, SpecialChars)
  {
    ValidPassword(password).valid
  }

  /** `passwordsMatch()`: the two inputs hold the same text, character for character. */
  function PasswordsMatch(password: string, passwordCheck: string): (m: bool)
    ensures m <==> |password| == |passwordCheck| && forall i :: 0 <= i < |password| ==> password[i] == passwordCheck[i]
  {
    password == passwordCheck
  }

  /** The password input gets the red border unless the password is valid (an empty one included). */
  function PasswordFieldRed(password: string): (red: bool)
    ensures red <==>
      |password| < 10 || !HasCharIn(password, 'A', 'Z') || !HasCharIn(password, 'a', 'z')
      || !HasCharIn(password, '0', '9') || !HasCharOf(password, SpecialChars)
  {
    !IsValid(password)
  }

  /** The repeat input gets the red border exactly when the two inputs differ. */
  function RepeatFieldRed(password: string, passwordCheck: string): (red: bool)
    ensures red <==> password != passwordCheck
  {
    !PasswordsMatch(password, passwordCheck)
  }

  /** `PasswordDescription`: the rule list turns red for a typed password that fails a rule. */
  function RuleListRed(password: string): (red: bool)
    ensures red <==> password != "" && !IsValid(password)
    ensures 0 < |password| < 10 ==> red
  {
    password != "" && !ValidPassword(password).valid
  }

  /** The green marks of the five list items, in display order: length, lower-case, upper-case,
      numeral, special. An item is green when the password is non-empty and passes that rule. */
  function RuleMarks(password: string): (green: seq<bool>)
    ensures |green| == 5
    ensures password == "" ==> forall k :: 0 <= k < 5 ==> !green[k]
    ensures green[0] <==> |password| >= 10
    ensures green[1] <==> HasCharIn(password, 'a', 'z')
    ensures green[2] <==> HasCharIn(password, 'A', 'Z')
    ensures green[3] <==> HasCharIn(password, '0', '9')
    ensures green[4] <==> HasCharOf(password, SpecialChars)
  {
    var c := ValidPassword(password);
    var typed := password != "";
    [typed && c.length, typed && c.lower, typed && c.caps, typed && c.numeral, typed && c.special]
  }

  /** The list is red exactly when the password is non-empty and some item is not green. */
  lemma RuleListRedIffSomeMarkMissing(password: string)
    ensures RuleListRed(password) <==>
      password != "" && exists k :: 0 <= k < 5 && !RuleMarks(password)[k]
  {
    var g := RuleMarks(password);
    if password != "" && !IsValid(password) {
      var c := ValidPassword(password);
      if !c.length { assert !g[0]; }
      else if !c.lower { assert !g[1]; }
      else if !c.caps { assert !g[2]; }
      else if !c.numeral { assert !g[3]; }
      else { assert !g[4]; }
    }
  }

  /** No password shorter than ten characters is valid; in particular the empty one is not. */
  lemma ShortPasswordInvalid(password: string)
    requires |password| < 10
    ensures !IsValid(password) && PasswordFieldRed(password)
  {
  }

  predicate AllDistinct(a: char, b: char, c: char, d: char)
  {
    a != b && a != c && a != d && b != c && b != d && c != d
  }

  /** A valid password has at least four distinct characters, since the upper-case, lower-case,
      digit and special classes are disjoint: the lemma names one position of each. */
  lemma {:induction false} ValidHasFourKinds(password: string) returns (i: nat, j: nat, k: nat, l: nat)
    requires IsValid(password)
    ensures i < |password| && j < |password| && k < |password| && l < |password|
    ensures AllDistinct(password[i], password[j], password[k], password[l])
    ensures 'A' <= password[i] <= 'Z' && 'a' <= password[j] <= 'z' && '0' <= password[k] <= '9'
    ensures password[l] in SpecialChars
  {
    var c := ValidPassword(password);
    assert HasCharIn(password, 'A', 'Z') && HasCharIn(password, 'a', 'z');
    assert HasCharIn(password, '0', '9') && HasCharOf(password, SpecialChars);
    i :| 0 <= i < |password| && 'A' <= password[i] <= 'Z';
    j :| 0 <= j < |password| && 'a' <= password[j] <= 'z';
    k :| 0 <= k < |password| && '0' <= password[k] <= '9';
    l :| 0 <= l < |password| && password[l] in SpecialChars;
    assert password[l] < '0' || password[l] == '@' || password[l] == '^';
  }

  /** The empty password: its input is flagged red while the rule list is not. */
  lemma EmptyPasswordFlagging()
    ensures PasswordFieldRed("") && !RuleListRed("")
    ensures !RepeatFieldRed("", "")
  {
  }
}
