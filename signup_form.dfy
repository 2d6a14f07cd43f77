/** The sign-up form's client-side checks: `validateForm`, which maps each
    field to its error message, the submit gate, and `handleChange`, which
    stores an edit and blanks that field's error. */
module SignUpForm {
  import opened JsText
  import ServerAuth

  datatype FormValues = FormValues(username: string, email: string, password: string)

  datatype FieldName = Username | Email | Password

  function Key(f: FieldName): string {
    match f
    case Username => "username"
    case Email => "email"
    case Password => "password"
  }

  /** Field name to message; a field without an error has no entry. */
  type Errors = map<string, string>

  const UsernameRequired: string := "Username is required."
  const EmailRequired: string := "Email is required."
  const PasswordRequired: string := "Password is required."
  const PasswordTooShort: string := "Password must be at least 6 characters long."

  /** `validateForm(values)`: a blank (after trimming) username, email or
      password is required; a non-blank password shorter than six
      characters, counted before trimming, is too short. */
  function ValidateForm(v: FormValues): (errors: Errors)
    ensures errors.Keys <= {"username", "email", "password"}
    ensures "username" in errors <==> Trim(v.username) == []
    ensures "email" in errors <==> Trim(v.email) == []
    ensures "password" in errors <==> Trim(v.password) == [] || |v.password| < 6
    ensures "username" in errors ==> errors["username"] == UsernameRequired
    ensures "email" in errors ==> errors["email"] == EmailRequired
    ensures "password" in errors ==>
      errors["password"] == if Trim(v.password) == [] then PasswordRequired else PasswordTooShort
  {
    var e0: Errors := map[];
    var e1 := if Trim(v.username) == [] then e0["username" := UsernameRequired] else e0;
    var e2 := if Trim(v.email) == [] then e1["email" := EmailRequired] else e1;
    if Trim(v.password) == [] then e2["password" := PasswordRequired]
    else if |v.password| < 6 then e2["password" := PasswordTooShort]
    else e2
  }

  /** `Object.keys(newErrors).length > 0` stops the submit. */
  predicate Submits(v: FormValues) {
    |ValidateForm(v).Keys| == 0
  }

  /** The form submits exactly when no field is blank and the password has
      at least six characters. */
  lemma SubmitsIff(v: FormValues)
    ensures Submits(v) <==>
      Trim(v.username) != [] && Trim(v.email) != [] && Trim(v.password) != [] && |v.password| >= 6
  {
    var e := ValidateForm(v);
    if "username" in e || "email" in e || "password" in e {
      assert e.Keys != {};
    }
  }

  /** A password the server accepts never meets a client error. */
  lemma ServerStrongPassesClient(p: string)
    requires ServerAuth.StrongPassword(p)
    ensures "password" !in ValidateForm(FormValues("u", "e", p))
  {
    var i :| 0 <= i < |p| && IsLowerAscii(p[i]);
    assert !IsWhitespace(p[i]);
    TrimEmptyIffBlank(p);
  }

  /** The client check is weaker than the server's: "abcdef" passes the form
      and is then refused by the server's pattern. */
  lemma ClientWeakerThanServer()
    ensures "password" !in ValidateForm(FormValues("u", "e", "abcdef"))
    ensures !ServerAuth.StrongPassword("abcdef")
  {
    var p := "abcdef";
    assert !IsWhitespace(p[0]);
    TrimEmptyIffBlank(p);
    assert forall i :: 0 <= i < |p| ==> !IsUpperAscii(p[i]);
  }

  datatype FormState = FormState(values: FormValues, errors: Errors)

  function Get(v: FormValues, f: FieldName): string {
    match f
    case Username => v.username
    case Email => v.email
    case Password => v.password
  }

  function SetValue(v: FormValues, f: FieldName, value: string): FormValues {
    match f
    case Username => v.(username := value)
    case Email => v.(email := value)
    case Password => v.(password := value)
  }

  /** `handleChange`: the edited field takes the new value and its error
      becomes the empty string (the entry stays, so the error map is not
      emptied); every other value and error is kept. */
  function HandleChange(s: FormState, f: FieldName, value: string): (r: FormState)
    ensures Get(r.values, f) == value
    ensures forall g :: g != f ==> Get(r.values, g) == Get(s.values, g)
    ensures Key(f) in r.errors && r.errors[Key(f)] == ""
    ensures forall k :: k != Key(f) ==> (k in r.errors <==> k in s.errors)
    ensures forall k :: k != Key(f) && k in s.errors ==> r.errors[k] == s.errors[k]
  {
    FormState(SetValue(s.values, f, value), s.errors[Key(f) := ""])
  }

  /** After an edit the submit still decides on a fresh validation, so a
      blanked error does not block it: editing the password of a form whose
      other fields are filled to a six-character one lets it submit. */
  lemma EditThenSubmit(s: FormState, value: string)
    requires Trim(s.values.username) != [] && Trim(s.values.email) != []
    requires Trim(value) != [] && |value| >= 6
    ensures Submits(HandleChange(s, Password, value).values)
    ensures |HandleChange(s, Password, value).errors.Keys| > 0
  {
    SubmitsIff(HandleChange(s, Password, value).values);
    assert "password" in HandleChange(s, Password, value).errors;
  }
}
