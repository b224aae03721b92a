/**
 * The sign-up form (`components/signup.jsx`): the per-field checks
 * `validateForm` makes before anything is posted, the password-strength
 * meter, and how typing into a field changes the form and its errors.
 *
 * Whitespace is ASCII whitespace and letters and digits are ASCII, as the
 * patterns' `[a-z]`, `[A-Z]` and `\d` are; lengths count characters.
 */
module Signup {
  import opened Base

  datatype Field = Name | Email | Password | ConfirmPassword | Address | ContactNumber

  const AllFields: set<Field> := {Name, Email, Password, ConfirmPassword, Address, ContactNumber}

  lemma {:induction false} EveryFieldListed()
    ensures forall f: Field :: f in AllFields
  {
    forall f: Field ensures f in AllFields {
      match f
      case Name =>
      case Email =>
      case Password =>
      case ConfirmPassword =>
      case Address =>
      case ContactNumber =>
    }
  }

  /** The form object holds a value for every field. */
  predicate Complete(form: map<Field, string>)
  {
    AllFields <= form.Keys
  }

  // ---------------------------------------------------------------------------
  // the patterns
  // ---------------------------------------------------------------------------

  predicate NoSpaceBetween(s: string, lo: int, hi: int)
    requires 0 <= lo <= hi <= |s|
  {
    forall k :: lo <= k < hi ==> !IsSpace(s[k])
  }

  /** At `p` an `@` with a non-space character before it, at `q` a `.` with one after it, and only non-space characters between. */
  predicate EmailMatchAt(s: string, p: int, q: int)
  {
    && 1 <= p && p + 1 < q && q + 1 < |s|
    && !IsSpace(s[p - 1]) && s[p] == '@' && NoSpaceBetween(s, p + 1, q) && s[q] == '.' && !IsSpace(s[q + 1])
  }

  /**
   * `/\S+@\S+\.\S+/` (not anchored): somewhere in `s`, a non-space character,
   * `@`, one or more non-space characters, `.`, and a non-space character.
   */
  predicate EmailShaped(s: string)
  {
    exists p, q | 0 <= p < |s| && 0 <= q < |s| :: EmailMatchAt(s, p, q)
  }

  predicate HasLower(s: string) { exists i | 0 <= i < |s| :: IsLowerAscii(s[i]) }
  predicate HasUpper(s: string) { exists i | 0 <= i < |s| :: IsUpperAscii(s[i]) }
  predicate HasDigit(s: string) { exists i | 0 <= i < |s| :: IsDigit(s[i]) }

  predicate IsSymbol(c: char) { c in "!@#$%^&*" }
  predicate HasSymbol(s: string) { exists i | 0 <= i < |s| :: IsSymbol(s[i]) }

  /** `9` followed by exactly nine digits. */
  predicate MobileDigits(t: string)
  {
    |t| == 10 && t[0] == '9' && forall i :: 1 <= i < 10 ==> IsDigit(t[i])
  }

  /** `/^(\+63|0)?[9]\d{9}$/`: the ten mobile digits, bare or after `0` or `+63`. */
  predicate PhMobile(s: string)
  {
    || MobileDigits(s)
    || (|s| >= 1 && s[..1] == "0" && MobileDigits(s[1..]))
    || (|s| >= 3 && s[..3] == "+63" && MobileDigits(s[3..]))
  }

  /** A number is accepted exactly when its last ten characters are the mobile digits and what precedes them is nothing, `0` or `+63`. */
  lemma {:induction false} PhMobileBySuffix(s: string)
    ensures PhMobile(s) <==> |s| >= 10 && s[..|s| - 10] in {"", "0", "+63"} && MobileDigits(s[|s| - 10..])
  {
    if |s| >= 10 {
      var head, tail := s[..|s| - 10], s[|s| - 10..];
      assert s == head + tail;
      if head == "" {
        assert tail == s;
      } else if head == "0" {
        assert !MobileDigits(s) && s[1..] == tail;
      } else if head == "+63" {
        assert s[0] == head[0] == '+';
        assert !MobileDigits(s) && s[..1] != "0" && s[3..] == tail;
      }
    }
  }

  // ---------------------------------------------------------------------------
  // validateForm
  // ---------------------------------------------------------------------------

  /** The name: required, and at least 2 characters once trimmed. */
  function NameError(name: string): (e: Option<string>)
    ensures e.None? <==> |Trim(name)| >= 2
  {
    if Trim(name) == [] then Some("Full name is required")
    else if |Trim(name)| < 2 then Some("Name must be at least 2 characters")
    else None
  }

  /** The e-mail: required, and matching the pattern as typed. */
  function EmailError(email: string): (e: Option<string>)
    ensures e.None? <==> EmailShaped(email)
  {
    if email == [] then Some("Email is required")
    else if !EmailShaped(email) then Some("Please enter a valid email")
    else None
  }

  /** The password: required, at least 8 characters, with a lower-case letter, an upper-case letter and a digit. */
  function PasswordError(password: string): (e: Option<string>)
    ensures e.None? <==> |password| >= 8 && HasLower(password) && HasUpper(password) && HasDigit(password)
  {
    if password == [] then Some("Password is required")
    else if |password| < 8 then Some("Password must be at least 8 characters")
    else if !(HasLower(password) && HasUpper(password) && HasDigit(password)) then
      Some("Password must contain uppercase, lowercase, and number")
    else None
  }

  /** The confirmation: required, and equal to the password. */
  function ConfirmError(password: string, confirm: string): (e: Option<string>)
    ensures e.None? <==> confirm != [] && confirm == password
  {
    if confirm == [] then Some("Please confirm your password")
    else if password != confirm then Some("Passwords do not match")
    else None
  }

  /** The address: required once trimmed. */
  function AddressError(address: string): (e: Option<string>)
    ensures e.None? <==> Trim(address) != []
  {
    if Trim(address) == [] then Some("Full address is required") else None
  }

  /** The contact number: required, and a Philippine mobile number once its whitespace is removed. */
  function ContactError(contact: string): (e: Option<string>)
    ensures e.None? <==> PhMobile(RemoveSpaces(contact))
  {
    if contact == [] then Some("Contact number is required")
    else if !PhMobile(RemoveSpaces(contact)) then Some("Please enter a valid Philippine mobile number")
    else None
  }

  /** The message `validateForm` records for one field, or none when the field passes. */
  function FieldError(form: map<Field, string>, f: Field): Option<string>
    requires Complete(form)
  {
    match f
    case Name => NameError(form[Name])
    case Email => EmailError(form[Email])
    case Password => PasswordError(form[Password])
    case ConfirmPassword => ConfirmError(form[Password], form[ConfirmPassword])
    case Address => AddressError(form[Address])
    case ContactNumber => ContactError(form[ContactNumber])
  }

  /** The error object built from a check per field: one entry per failing field, holding its message. */
  function ErrorObject(check: Field -> Option<string>): (errs: map<Field, string>)
    ensures forall f :: f in errs <==> check(f).Some?
    ensures forall f :: f in errs ==> errs[f] == check(f).value
  {
    EveryFieldListed();
    map f | f in AllFields && check(f).Some? :: check(f).value
  }

  /** Each field's check, on one form. */
  function FieldChecks(form: map<Field, string>): Field -> Option<string>
    requires Complete(form)
  {
    f => FieldError(form, f)
  }

  /** The error object `validateForm` builds for a form. */
  function FormErrors(form: map<Field, string>): map<Field, string>
    requires Complete(form)
  {
    ErrorObject(FieldChecks(form))
  }

  /** `found` holds the message `e` for field `f` when there is one, and no entry for `f` otherwise. */
  predicate Records(found: map<Field, string>, f: Field, e: Option<string>)
  {
    (f in found <==> e.Some?) && (f in found ==> found[f] == e.value)
  }

  /** Recording every field's check, one field after another, gives the error object. */
  lemma {:induction false} FieldByFieldIsErrorObject(check: Field -> Option<string>, found: map<Field, string>)
    requires Records(found, Name, check(Name)) && Records(found, Email, check(Email))
    requires Records(found, Password, check(Password)) && Records(found, ConfirmPassword, check(ConfirmPassword))
    requires Records(found, Address, check(Address)) && Records(found, ContactNumber, check(ContactNumber))
    ensures found == ErrorObject(check)
  {
    var errs := ErrorObject(check);
    forall f ensures Records(found, f, check(f)) {
      match f
      case Name =>
      case Email =>
      case Password =>
      case ConfirmPassword =>
      case Address =>
      case ContactNumber =>
    }
    assert found.Keys == errs.Keys;
  }

  /** What a form must satisfy to be posted, field by field. */
  predicate Acceptable(form: map<Field, string>)
    requires Complete(form)
  {
    && |Trim(form[Name])| >= 2
    && EmailShaped(form[Email])
    && |form[Password]| >= 8 && HasLower(form[Password]) && HasUpper(form[Password]) && HasDigit(form[Password])
    && form[ConfirmPassword] == form[Password]
    && Trim(form[Address]) != []
    && PhMobile(RemoveSpaces(form[ContactNumber]))
  }

  /** No error is recorded exactly when every rule holds. */
  lemma {:induction false} NoErrorsIffAcceptable(form: map<Field, string>)
    requires Complete(form)
    ensures FormErrors(form) == map[] <==> Acceptable(form)
  {
    var errs := FormErrors(form);
    if errs == map[] {
      assert Name !in errs && Email !in errs && Password !in errs;
      assert ConfirmPassword !in errs && Address !in errs && ContactNumber !in errs;
    }
  }

  /** The state of the sign-up form. */
  class Page {
    var form: map<Field, string>
    var errors: map<Field, string>

    ghost predicate Valid()
      reads this
    {
      Complete(form)
    }

    /** Every field empty, no errors. */
    constructor ()
      ensures Valid() && errors == map[]
      ensures form.Keys == AllFields && forall f :: f in form ==> form[f] == ""
    {
      form := map[Name := "", Email := "", Password := "", ConfirmPassword := "", Address := "", ContactNumber := ""];
      errors := map[];
    }

    /**
     * `handleInputChange`: the named field takes the typed value; that field's
     * error, when it shows a message, becomes empty; nothing else changes.
     */
    method InputChanged(name: Field, value: string)
      requires Valid()
      modifies this`form, this`errors
      ensures Valid()
      ensures form == old(form)[name := value]
      ensures errors == if name in old(errors) && old(errors)[name] != "" then old(errors)[name := ""] else old(errors)
      ensures forall g :: g != name ==> form[g] == old(form)[g]
      ensures forall g :: g != name ==> (g in errors <==> g in old(errors)) && (g in errors ==> errors[g] == old(errors)[g])
    {
      form := form[name := value];
      if name in errors && errors[name] != "" {
        errors := errors[name := ""];
      }
    }

    /**
     * `validateForm`: checks the fields one after another, replaces the errors
     * with what it found and answers whether none was found.
     */
    method ValidateForm() returns (ok: bool)
      requires Valid()
      modifies this`errors
      ensures Valid()
      ensures errors == FormErrors(form)
      ensures ok <==> errors == map[]
    {
      var check := FieldChecks(form);
      var found: map<Field, string> := map[];
      var e := check(Name);
      if e.Some? { found := found[Name := e.value]; }
      e := check(Email);
      if e.Some? { found := found[Email := e.value]; }
      e := check(Password);
      if e.Some? { found := found[Password := e.value]; }
      e := check(ConfirmPassword);
      if e.Some? { found := found[ConfirmPassword := e.value]; }
      e := check(Address);
      if e.Some? { found := found[Address := e.value]; }
      e := check(ContactNumber);
      if e.Some? { found := found[ContactNumber := e.value]; }
      FieldByFieldIsErrorObject(check, found);
      errors := found;
      ok := errors == map[];
    }
  }

  /**
   * The e-mail is checked as typed but posted trimmed; whatever passed the
   * pattern still matches it after trimming.
   */
  lemma {:induction false} TrimmedEmailStillShaped(s: string)
    requires EmailShaped(s)
    ensures EmailShaped(Trim(s))
  {
    LeadingSpaceKeepsShape(s);
    TrailingSpaceKeepsShape(TrimStart(s));
  }

  /** Dropping leading whitespace keeps a match. */
  lemma {:induction false} LeadingSpaceKeepsShape(s: string)
    requires EmailShaped(s)
    ensures EmailShaped(TrimStart(s))
    decreases |s|
  {
    if s != [] && IsSpace(s[0]) {
      var p, q :| 0 <= p < |s| && 0 <= q < |s| && EmailMatchAt(s, p, q);
      assert p - 1 != 0;
      MatchInSlice(s, 1, |s|, p, q);
      assert EmailMatchAt(s[1..], p - 1, q - 1);
      LeadingSpaceKeepsShape(s[1..]);
    }
  }

  /** Dropping trailing whitespace keeps a match. */
  lemma {:induction false} TrailingSpaceKeepsShape(s: string)
    requires EmailShaped(s)
    ensures EmailShaped(TrimEnd(s))
    decreases |s|
  {
    if s != [] && IsSpace(s[|s| - 1]) {
      var p, q :| 0 <= p < |s| && 0 <= q < |s| && EmailMatchAt(s, p, q);
      assert q + 1 != |s| - 1;
      MatchInSlice(s, 0, |s| - 1, p, q);
      assert EmailMatchAt(s[..|s| - 1], p, q);
      TrailingSpaceKeepsShape(s[..|s| - 1]);
    }
  }

  /** A match stays a match in any slice that keeps its characters. */
  lemma {:induction false} MatchInSlice(s: string, lo: int, hi: int, p: int, q: int)
    requires 0 <= lo <= hi <= |s| && EmailMatchAt(s, p, q) && lo <= p - 1 && q + 1 < hi
    ensures EmailMatchAt(s[lo..hi], p - lo, q - lo)
  {
    var t := s[lo..hi];
    assert NoSpaceBetween(t, p - lo + 1, q - lo) by {
      forall j | p - lo + 1 <= j < q - lo ensures !IsSpace(t[j]) {
        assert t[j] == s[j + lo];
      }
    }
    assert EmailMatchAt(t, p - lo, q - lo);
  }

  // ---------------------------------------------------------------------------
  // getPasswordStrength
  // ---------------------------------------------------------------------------

  function Score(b: bool): nat { if b then 1 else 0 }

  /**
   * `getPasswordStrength`: 0 for an empty password, otherwise how many of five
   * checks pass (at least 8 characters, a lower-case letter, an upper-case
   * letter, a digit, one of `!@#$%^&*`).
   */
  function PasswordStrength(password: string): (n: nat)
    ensures n <= 5
    ensures password == [] ==> n == 0
    ensures n == 5 <==> |password| >= 8 && HasLower(password) && HasUpper(password) && HasDigit(password) && HasSymbol(password)
  {
    if password == [] then 0
    else Score(|password| >= 8) + Score(HasLower(password)) + Score(HasUpper(password))
         + Score(HasDigit(password)) + Score(HasSymbol(password))
  }

  /** The caption shown beside the meter. */
  function StrengthText(n: nat): string
  {
    if n == 1 then "Very Weak" else if n == 2 then "Weak" else if n == 3 then "Fair"
    else if n == 4 then "Good" else if n == 5 then "Strong" else ""
  }

  /**
   * A password `validateForm` accepts scores at least 4, "Good"; it scores 5,
   * "Strong", exactly when it also holds one of the listed symbols.
   */
  lemma {:induction false} AcceptedPasswordStrength(form: map<Field, string>)
    requires Complete(form) && PasswordError(form[Password]).None?
    ensures PasswordStrength(form[Password]) >= 4
    ensures StrengthText(PasswordStrength(form[Password])) == (if HasSymbol(form[Password]) then "Strong" else "Good")
  {
  }
}
