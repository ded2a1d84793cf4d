/** The registration form: a controlled form, a password-mismatch message, and a submit that
    registers and then opens the profile. */
module RegisterPage {
  import opened Forms
  import opened Store
  import opened Strings

  const Mismatch := "Passwords do not match"

  /** The form as first rendered: four empty text fields and the unticked terms box. */
  function InitialForm(): (f: map<string, FieldValue>)
    ensures f.Keys == {"name", "email", "password", "confirmPassword", "agreeTerms"}
    ensures f["agreeTerms"] == Flag(false)
    ensures forall k :: k in f && k != "agreeTerms" ==> f[k] == Text("")
  {
    map["name" := Text(""), "email" := Text(""), "password" := Text(""),
        "confirmPassword" := Text(""), "agreeTerms" := Flag(false)]
  }

  /** The value of a field; an absent one reads as empty text. */
  function Get(form: map<string, FieldValue>, name: string): FieldValue {
    if name in form then form[name] else Text("")
  }

  /** The text a field holds; a checkbox value reads as empty text. */
  function TextOf(v: FieldValue): string {
    match v
    case Text(t) => t
    case Flag(_) => ""
  }

  predicate PasswordsMatch(form: map<string, FieldValue>) {
    Get(form, "password") == Get(form, "confirmPassword")
  }

  /** What a submit asks the auth context for. */
  function RegisterRequest(form: map<string, FieldValue>): Effect {
    Register(TextOf(Get(form, "email")), TextOf(Get(form, "password")), TextOf(Get(form, "name")))
  }

  /** The browser's constraint validation of the form: every text input is `required`, the
      password has `minLength={6}` (counted in UTF-16 code units, like `length`), and the terms
      checkbox is `required`, so it must be ticked. Only a form that passes fires `submit`. */
  predicate BrowserAccepts(form: map<string, FieldValue>) {
    && Filled(form, "name")
    && Filled(form, "email")
    && Filled(form, "password") && Utf16Length(TextOf(Get(form, "password"))) >= 6
    && Filled(form, "confirmPassword")
    && Get(form, "agreeTerms") == Flag(true)
  }

  /** The fresh form cannot be submitted. */
  lemma InitialFormRejected()
    ensures !BrowserAccepts(InitialForm())
  {
    assert !Filled(InitialForm(), "name");
  }

  /** A form holding the entered name, email and both passwords, with the terms ticked, passes
      the browser's checks when the fields are non-empty and the password long enough; it then
      matches exactly when both passwords agree, and registers with what was entered. */
  lemma Entered(form: map<string, FieldValue>, name: string, email: string, password: string, confirm: string)
    requires Get(form, "name") == Text(name) && Get(form, "email") == Text(email)
    requires Get(form, "password") == Text(password) && Get(form, "confirmPassword") == Text(confirm)
    requires Get(form, "agreeTerms") == Flag(true)
    requires name != "" && email != "" && Utf16Length(password) >= 6 && confirm != ""
    ensures BrowserAccepts(form)
    ensures PasswordsMatch(form) <==> password == confirm
    ensures RegisterRequest(form) == Register(email, password, name)
  {
  }

  /** A password of three emoji is long enough: each counts as two code units. */
  lemma EmojiPasswordAccepted(form: map<string, FieldValue>)
    requires Get(form, "name") == Text("Ann") && Get(form, "email") == Text("a@b.c")
    requires Get(form, "password") == Text("\U{1F600}\U{1F600}\U{1F600}")
    requires Get(form, "confirmPassword") == Text("\U{1F600}\U{1F600}\U{1F600}")
    requires Get(form, "agreeTerms") == Flag(true)
    ensures BrowserAccepts(form) && PasswordsMatch(form)
    ensures RegisterRequest(form) == Register("a@b.c", "\U{1F600}\U{1F600}\U{1F600}", "Ann")
  {
    EmojiCountTwice();
    Entered(form, "Ann", "a@b.c", "\U{1F600}\U{1F600}\U{1F600}", "\U{1F600}\U{1F600}\U{1F600}");
  }

  class RegisterForm {
    var formData: map<string, FieldValue>
    var passwordError: string
    /** The calls made into the auth context and the router, oldest first. */
    var effects: seq<Effect>

    constructor ()
      ensures formData == InitialForm() && passwordError == "" && effects == []
    {
      formData := InitialForm();
      passwordError := "";
      effects := [];
    }

    /** `handleInputChange`: store the input's value; typing in either password field clears
        the mismatch message. */
    method InputChange(name: string, value: string, inputType: string, checked: bool)
      modifies this`formData, this`passwordError
      ensures formData == ChangeField(old(formData), name, value, inputType, checked)
      ensures passwordError == if name == "password" || name == "confirmPassword" then "" else old(passwordError)
    {
      formData := ChangeField(formData, name, value, inputType, checked);
      if name == "password" || name == "confirmPassword" {
        passwordError := "";
      }
    }

    /** Pressing "Create Account", with `registerSucceeds` the outcome of the auth context's
        `register`. A form the browser rejects does not fire `submit`, so nothing changes.
        Otherwise `handleSubmit` runs: differing passwords only set the message; matching ones
        register, and open the profile only when registering succeeded. */
    method Submit(registerSucceeds: bool)
      modifies this`passwordError, this`effects
      ensures !BrowserAccepts(formData) ==> passwordError == old(passwordError) && effects == old(effects)
      ensures BrowserAccepts(formData) && !PasswordsMatch(formData) ==>
        passwordError == Mismatch && effects == old(effects)
      ensures BrowserAccepts(formData) && PasswordsMatch(formData) ==> passwordError == old(passwordError)
      ensures BrowserAccepts(formData) && PasswordsMatch(formData) ==>
        effects == old(effects) + [RegisterRequest(formData)]
                     + (if registerSucceeds then [Navigate("/account/profile")] else [])
    {
      if !BrowserAccepts(formData) {
        return;
      }
      if !PasswordsMatch(formData) {
        passwordError := Mismatch;
        return;
      }
      effects := effects + [RegisterRequest(formData)];
      if registerSucceeds {
        effects := effects + [Navigate("/account/profile")];
      }
    }
  }

  /** A visitor types a name, an email and both passwords into a form, then ticks the terms. */
  method EnterDetails(f: RegisterForm, name: string, email: string, password: string, confirm: string)
    modifies f
    ensures Get(f.formData, "name") == Text(name) && Get(f.formData, "email") == Text(email)
    ensures Get(f.formData, "password") == Text(password) && Get(f.formData, "confirmPassword") == Text(confirm)
    ensures Get(f.formData, "agreeTerms") == Flag(true)
    ensures f.passwordError == "" && f.effects == old(f.effects)
  {
    f.InputChange("name", name, "text", false);
    f.InputChange("email", email, "email", false);
    f.InputChange("password", password, "password", false);
    f.InputChange("confirmPassword", confirm, "password", false);
    f.InputChange("agreeTerms", "on", "checkbox", true);
  }

  /** With the terms box ticked, a mismatch blocks registration and shows the message, until
      either password field is edited again. */
  method MismatchThenFix(succeeds: bool) returns (blocked: bool, errorCleared: bool, nowMatching: bool)
    ensures blocked && errorCleared && nowMatching
  {
    var f := new RegisterForm();
    EnterDetails(f, "Ann", "a@b.c", "secret", "secrets");
    assert |"secret"| != |"secrets"|;
    Entered(f.formData, "Ann", "a@b.c", "secret", "secrets");
    f.Submit(succeeds);
    blocked := f.passwordError == Mismatch && f.effects == [];
    f.InputChange("confirmPassword", "secret", "password", false);
    errorCleared := f.passwordError == "";
    assert Get(f.formData, "password") == Text("secret") && Get(f.formData, "confirmPassword") == Text("secret");
    nowMatching := PasswordsMatch(f.formData);
  }

  /** A complete form with matching passwords and the terms ticked registers with the entered
      email, password and name, and opens the profile only when registering succeeded. */
  method MatchRegisters(succeeds: bool) returns (error: string, effects: seq<Effect>)
    ensures error == ""
    ensures effects == [Register("a@b.c", "secret", "Ann"), Navigate("/account/profile")] <==> succeeds
    ensures !succeeds ==> effects == [Register("a@b.c", "secret", "Ann")]
  {
    var f := new RegisterForm();
    EnterDetails(f, "Ann", "a@b.c", "secret", "secret");
    Entered(f.formData, "Ann", "a@b.c", "secret", "secret");
    f.Submit(succeeds);
    error, effects := f.passwordError, f.effects;
  }

  /** Without ticking the terms box, even a complete and matching form sends nothing and shows
      no message. */
  method TermsRequired() returns (error: string, effects: seq<Effect>)
    ensures error == "" && effects == []
  {
    var f := new RegisterForm();
    f.InputChange("name", "Ann", "text", false);
    f.InputChange("email", "a@b.c", "email", false);
    f.InputChange("password", "secret", "password", false);
    f.InputChange("confirmPassword", "secret", "password", false);
    f.Submit(true);
    error, effects := f.passwordError, f.effects;
  }
}
