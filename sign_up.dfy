/**
 * The password rules of the sign-up form (app/sign-up.tsx): a validator that
 * returns the set of rules a (password, confirmation) pair breaks. The form is
 * submitted only when that set is empty (and the e-mail address is valid,
 * which is not part of this model).
 *
 * Lengths are counted as JavaScript counts them, in UTF-16 code units. The
 * character-class rules are written as look-aheads anchored at the start of
 * the text whose `.` stops at a line terminator, so they only see the first
 * line; the model keeps that.
 */
module SignUp {

  /** One failed rule, named after what it reports. */
  datatype Rule =
    | PasswordTooShort   // fewer than 8 code units
    | PasswordTooLong    // more than 64 code units
    | NoLowercase        // no `a`-`z` in the first line
    | NoUppercase        // no `A`-`Z` in the first line
    | NoDigit            // no `0`-`9` in the first line
    | NoSpecial          // none of `!@#$%^&*` in the first line
    | ConfirmTooShort    // the confirmation has fewer than 8 code units
    | Mismatch           // the confirmation differs (reported on the confirmation field)

  datatype CharClass = Lowercase | Uppercase | Digit | Special

  const SpecialCharacters: string := "!@#$%^&*"

  const MinLength: nat := 8
  const MaxLength: nat := 64

  predicate InClass(c: char, cls: CharClass)
  {
    match cls
    case Lowercase => 'a' <= c <= 'z'
    case Uppercase => 'A' <= c <= 'Z'
    case Digit => '0' <= c <= '9'
    case Special => c in SpecialCharacters
  }

  /** The characters a regular-expression `.` does not match. */
  predicate LineTerminator(c: char)
  {
    c == '\n' || c == '\r' || c == '\U{2028}' || c == '\U{2029}'
  }

  /** `s.length` in JavaScript: characters outside the Basic Multilingual Plane take two code units. */
  function Utf16Length(s: string): (n: nat)
    ensures |s| <= n <= 2 * |s|
    ensures (forall k :: 0 <= k < |s| ==> s[k] as int <= 0xFFFF) ==> n == |s|
  {
    if s == [] then 0
    else (if s[0] as int > 0xFFFF then 2 else 1) + Utf16Length(s[1..])
  }

  /** Some character of the class occurs at or after `from` with no line terminator in between. */
  predicate FoundBeforeLineEnd(s: string, cls: CharClass, from: nat)
  {
    exists j :: from <= j < |s| && InClass(s[j], cls) && forall k :: from <= k < j ==> !LineTerminator(s[k])
  }

  /**
   * The look-ahead `(?=.*[class])` tried at `from`: `.*` runs over characters
   * up to the first line terminator, and the class must match one of the
   * characters it can stop before.
   */
  function Lookahead(s: string, cls: CharClass, from: nat): (found: bool)
    ensures found <==> FoundBeforeLineEnd(s, cls, from)
    decreases |s| - from
  {
    if from >= |s| || LineTerminator(s[from]) then false
    else if InClass(s[from], cls) then true
    else
      var rest := Lookahead(s, cls, from + 1);
      assert FoundBeforeLineEnd(s, cls, from + 1) ==> FoundBeforeLineEnd(s, cls, from);
      rest
  }

  /** `/^(?=.*[class])/.test(s)`: the look-ahead at the start of the text only. */
  function InFirstLine(s: string, cls: CharClass): (found: bool)
    ensures found <==> FoundBeforeLineEnd(s, cls, 0)
  {
    Lookahead(s, cls, 0)
  }

  const AllRules: set<Rule> :=
    {PasswordTooShort, PasswordTooLong, NoLowercase, NoUppercase, NoDigit, NoSpecial, ConfirmTooShort, Mismatch}

  /** The check behind each rule, as the schema performs it. */
  predicate Fails(rule: Rule, password: string, confirm: string)
  {
    match rule
    case PasswordTooShort => Utf16Length(password) < MinLength
    case PasswordTooLong => Utf16Length(password) > MaxLength
    case NoLowercase => !InFirstLine(password, Lowercase)
    case NoUppercase => !InFirstLine(password, Uppercase)
    case NoDigit => !InFirstLine(password, Digit)
    case NoSpecial => !InFirstLine(password, Special)
    case ConfirmTooShort => Utf16Length(confirm) < MinLength
    case Mismatch => password != confirm
  }

  /**
   * The rules the form's schema checks. Every check runs, and the equality
   * refinement runs even when the field checks fail, so each rule is reported
   * independently of the others.
   */
  function Issues(password: string, confirm: string): (issues: set<Rule>)
    ensures PasswordTooShort in issues <==> Utf16Length(password) < MinLength
    ensures PasswordTooLong in issues <==> Utf16Length(password) > MaxLength
    ensures NoLowercase in issues <==> !FoundBeforeLineEnd(password, Lowercase, 0)
    ensures NoUppercase in issues <==> !FoundBeforeLineEnd(password, Uppercase, 0)
    ensures NoDigit in issues <==> !FoundBeforeLineEnd(password, Digit, 0)
    ensures NoSpecial in issues <==> !FoundBeforeLineEnd(password, Special, 0)
    ensures ConfirmTooShort in issues <==> Utf16Length(confirm) < MinLength
    ensures Mismatch in issues <==> password != confirm
  {
    set rule | rule in AllRules && Fails(rule, password, confirm)
  }

  /** The password rules stated on their own: the length bounds, each class present, the confirmation equal. */
  predicate Acceptable(password: string, confirm: string)
  {
    && MinLength <= Utf16Length(password) <= MaxLength
    && (forall cls: CharClass :: FoundBeforeLineEnd(password, cls, 0))
    && password == confirm
  }

  /** The validator reports nothing exactly when the pair is acceptable. */
  lemma NoIssuesIffAcceptable(password: string, confirm: string)
    ensures Issues(password, confirm) == {} <==> Acceptable(password, confirm)
  {
    var issues := Issues(password, confirm);
    if issues == {} {
      forall cls: CharClass
        ensures FoundBeforeLineEnd(password, cls, 0)
      {
        match cls
        case Lowercase => assert NoLowercase !in issues;
        case Uppercase => assert NoUppercase !in issues;
        case Digit => assert NoDigit !in issues;
        case Special => assert NoSpecial !in issues;
      }
    }
    if Acceptable(password, confirm) {
      assert FoundBeforeLineEnd(password, Lowercase, 0) && FoundBeforeLineEnd(password, Uppercase, 0);
      assert FoundBeforeLineEnd(password, Digit, 0) && FoundBeforeLineEnd(password, Special, 0);
      forall r: Rule
        ensures r !in issues
      {
      }
    }
  }

  /**
   * The confirmation's own length rule never decides the outcome: when every
   * other rule holds, the confirmation equals a password of at least 8 units.
   */
  lemma ConfirmRuleImplied(password: string, confirm: string)
    requires Issues(password, confirm) <= {ConfirmTooShort}
    ensures Issues(password, confirm) == {}
  {
    var issues := Issues(password, confirm);
    assert PasswordTooShort !in issues && Mismatch !in issues;
    assert ConfirmTooShort !in issues;
  }

  /** On text without line breaks the class rules ask for the class anywhere in the password. */
  lemma {:induction false} SingleLineClass(s: string, cls: CharClass)
    requires forall k :: 0 <= k < |s| ==> !LineTerminator(s[k])
    ensures FoundBeforeLineEnd(s, cls, 0) <==> exists j :: 0 <= j < |s| && InClass(s[j], cls)
  {
    if exists j :: 0 <= j < |s| && InClass(s[j], cls) {
      var j :| 0 <= j < |s| && InClass(s[j], cls);
      assert forall k :: 0 <= k < j ==> !LineTerminator(s[k]);
    }
  }

  /** A class character after the first line break does not count: the rule still fails. */
  lemma SecondLineIgnored(first: string, second: string, cls: CharClass)
    requires forall k :: 0 <= k < |first| ==> !InClass(first[k], cls)
    ensures !FoundBeforeLineEnd(first + "\n" + second, cls, 0)
  {
    var s := first + "\n" + second;
    if FoundBeforeLineEnd(s, cls, 0) {
      var j :| 0 <= j < |s| && InClass(s[j], cls) && forall k :: 0 <= k < j ==> !LineTerminator(s[k]);
      if j > |first| {
        assert LineTerminator(s[|first|]);
      }
    }
  }

  /** The length rules count code units: four characters outside the BMP already meet the minimum. */
  lemma AstralCharactersCountTwice(s: string)
    requires |s| == 4 && forall k :: 0 <= k < |s| ==> s[k] as int > 0xFFFF
    ensures Utf16Length(s) == MinLength
  {
    assert Utf16Length(s[3..]) == 2;
    assert s[2..][1..] == s[3..];
    assert Utf16Length(s[2..]) == 4;
    assert s[1..][1..] == s[2..];
    assert Utf16Length(s[1..]) == 6;
  }
}
