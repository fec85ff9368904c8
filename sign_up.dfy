/**
 * The sign-up form: its validation schema, including the password-confirmation
 * refinement, and the account name built from the first and last names.
 */
module SignUp {
  import opened Wrappers
  import opened Validation

  /**
   * The submitted values; `None` is a field left undefined. The image is whatever the
   * file input holds and is accepted in any form.
   */
  datatype SignUpForm = SignUpForm(
    firstName: Option<string>,
    lastName: Option<string>,
    email: Option<string>,
    password: Option<string>,
    passwordConfirmation: Option<string>,
    image: Option<string>)

  const RequiredMessage: string := "Required"
  const FirstNameMessage: string := "O primeiro nome deve ter pelo menos 2 caracteres"
  const LastNameMessage: string := "O sobrenome deve ter pelo menos 2 caracteres"
  const EmailMessage: string := "Email inválido"
  const PasswordMessage: string := "A senha deve ter pelo menos 8 caracteres"
  const MismatchMessage: string := "As senhas não coincidem"

  /** A string field with a minimum length: "Required" when missing, else the length check. */
  function MinIssues(value: Option<string>, path: string, n: nat, message: string): (r: seq<Issue>)
    ensures r == [] <==> value.Some? && |value.value| >= n
    ensures forall i :: i in r ==> i.path == path
  {
    match value
    case None => [Issue(path, RequiredMessage)]
    case Some(s) => Check(|s| < n, path, message)
  }

  /** The email field: "Required" when missing, else the library's address check `isEmail`. */
  function EmailIssues(value: Option<string>, isEmail: string -> bool): (r: seq<Issue>)
    ensures r == [] <==> value.Some? && isEmail(value.value)
    ensures forall i :: i in r ==> i.path == "email"
  {
    match value
    case None => [Issue("email", RequiredMessage)]
    case Some(s) => Check(!isEmail(s), "email", EmailMessage)
  }

  /** Every string field is there, so no field check aborted the object. */
  predicate AllPresent(f: SignUpForm) {
    f.firstName.Some? && f.lastName.Some? && f.email.Some? && f.password.Some? &&
    f.passwordConfirmation.Some?
  }

  /** The object's own field checks, in declaration order. */
  function BaseIssues(f: SignUpForm, isEmail: string -> bool): seq<Issue> {
    MinIssues(f.firstName, "firstName", 2, FirstNameMessage)
    + MinIssues(f.lastName, "lastName", 2, LastNameMessage)
    + EmailIssues(f.email, isEmail)
    + MinIssues(f.password, "password", 8, PasswordMessage)
    + (if f.passwordConfirmation.None? then [Issue("passwordConfirmation", RequiredMessage)] else [])
  }

  /**
   * `signUpSchema`: the field checks, then the refinement comparing the two passwords.
   * The refinement runs when every field is present (a too-short value does not stop it)
   * and reports the mismatch on `passwordConfirmation`.
   */
  function SignUpIssues(f: SignUpForm, isEmail: string -> bool): (r: seq<Issue>)
    ensures BaseIssues(f, isEmail) <= r
  {
    var base := BaseIssues(f, isEmail);
    if AllPresent(f) && f.password.value != f.passwordConfirmation.value then
      base + [Issue("passwordConfirmation", MismatchMessage)]
    else base
  }

  /** A sign-up the schema accepts, stated rule by rule. */
  predicate ValidSignUp(f: SignUpForm, isEmail: string -> bool) {
    && AllPresent(f)
    && |f.firstName.value| >= 2
    && |f.lastName.value| >= 2
    && isEmail(f.email.value)
    && |f.password.value| >= 8
    && f.password.value == f.passwordConfirmation.value
  }

  /**
   * The schema accepts exactly the forms with both names of at least two characters, an
   * address the email check accepts, a password of at least eight characters and an equal
   * confirmation; the image plays no part.
   */
  lemma SignUpMeaning(f: SignUpForm, isEmail: string -> bool)
    ensures SignUpIssues(f, isEmail) == [] <==> ValidSignUp(f, isEmail)
  {
    var base := BaseIssues(f, isEmail);
    assert base == [] <==>
      && MinIssues(f.firstName, "firstName", 2, FirstNameMessage) == []
      && MinIssues(f.lastName, "lastName", 2, LastNameMessage) == []
      && EmailIssues(f.email, isEmail) == []
      && MinIssues(f.password, "password", 8, PasswordMessage) == []
      && f.passwordConfirmation.Some?;
  }

  /**
   * With every field filled in, differing passwords are reported once, as the last issue,
   * on `passwordConfirmation`; equal passwords are never reported as a mismatch.
   */
  lemma MismatchReported(f: SignUpForm, isEmail: string -> bool)
    requires AllPresent(f)
    ensures var r := SignUpIssues(f, isEmail);
            f.password.value != f.passwordConfirmation.value <==>
              r != [] && r[|r| - 1] == Issue("passwordConfirmation", MismatchMessage)
  {
    var base := BaseIssues(f, isEmail);
    assert forall i :: i in base ==> i.message != MismatchMessage;
    if f.password.value == f.passwordConfirmation.value && base != [] {
      assert base[|base| - 1] in base;
    }
  }

  /** A missing field stops the refinement: the mismatch is not reported. */
  lemma MissingFieldSkipsRefinement(f: SignUpForm, isEmail: string -> bool)
    requires !AllPresent(f)
    ensures SignUpIssues(f, isEmail) != []
    ensures Issue("passwordConfirmation", MismatchMessage) !in SignUpIssues(f, isEmail)
  {
    var base := BaseIssues(f, isEmail);
    assert forall i :: i in base ==> i.message != MismatchMessage;
  }

  /** The image never affects the outcome. */
  lemma ImageIgnored(f: SignUpForm, image: Option<string>, isEmail: string -> bool)
    ensures SignUpIssues(f.(image := image), isEmail) == SignUpIssues(f, isEmail)
  {
  }

  /** The name sent with the new account: first name, one space, last name. */
  function AccountName(firstName: string, lastName: string): (name: string)
    ensures |name| == |firstName| + |lastName| + 1
  {
    firstName + " " + lastName
  }

  /** The text before the first space and the text after it (all of it and "" when there is none). */
  function SplitAtFirstSpace(s: string): (parts: (string, string))
    ensures ' ' !in parts.0
    ensures ' ' in s ==> s == parts.0 + " " + parts.1
    ensures ' ' !in s ==> parts == (s, "")
  {
    if s == [] then ("", "")
    else if s[0] == ' ' then ("", s[1..])
    else
      var rest := SplitAtFirstSpace(s[1..]);
      assert s == [s[0]] + s[1..];
      ([s[0]] + rest.0, rest.1)
  }

  /** A first name without spaces can be read back from the account name, and so can the last name. */
  lemma {:induction false} AccountNameSplits(firstName: string, lastName: string)
    requires ' ' !in firstName
    ensures SplitAtFirstSpace(AccountName(firstName, lastName)) == (firstName, lastName)
  {
    var name := AccountName(firstName, lastName);
    if firstName != [] {
      AccountNameSplits(firstName[1..], lastName);
      assert name[1..] == AccountName(firstName[1..], lastName);
      assert firstName == [firstName[0]] + firstName[1..];
    }
  }
}
