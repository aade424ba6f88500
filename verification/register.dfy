/** The registration page: the client-side validation of the form, the
    per-field error messages, and the submit that only reaches the server
    with a form that passed validation. */
module Register {
  import opened Wrappers
  import opened Text

  datatype RegisterForm = RegisterForm(
    username: string, email: string, password: string, confirmPassword: string,
    firstName: string, lastName: string, emailNotificationsEnabled: bool)

  const EMPTY_REGISTER_FORM := RegisterForm("", "", "", "", "", "", true)

  /** The text inputs of the form; the notification switch is the only
      checkbox. */
  datatype TextField = Username | Email | Password | ConfirmPassword | FirstName | LastName

  function TextOf(f: RegisterForm, field: TextField): string
  {
    match field
    case Username => f.username
    case Email => f.email
    case Password => f.password
    case ConfirmPassword => f.confirmPassword
    case FirstName => f.firstName
    case LastName => f.lastName
  }

  /** `[name]: value` for a text input. */
  function SetText(f: RegisterForm, field: TextField, value: string): (r: RegisterForm)
    ensures TextOf(r, field) == value
    ensures forall g :: g != field ==> TextOf(r, g) == TextOf(f, g)
    ensures r.emailNotificationsEnabled == f.emailNotificationsEnabled
  {
    match field
    case Username => f.(username := value)
    case Email => f.(email := value)
    case Password => f.(password := value)
    case ConfirmPassword => f.(confirmPassword := value)
    case FirstName => f.(firstName := value)
    case LastName => f.(lastName := value)
  }

  function Message(field: TextField): string
  {
    match field
    case Username => "Kullanıcı adı en az 3 karakter olmalıdır"
    case Email => "Geçerli bir e-posta adresi giriniz"
    case Password => "Şifre en az 6 karakter olmalıdır"
    case ConfirmPassword => "Şifreler eşleşmiyor"
    case FirstName => "Ad zorunludur"
    case LastName => "Soyad zorunludur"
  }

  /** `[^\s@]`: neither white space nor '@'. */
  predicate EmailChar(c: char)
  {
    !IsSpace(c) && c != '@'
  }

  /** `[^\s@]+`. */
  predicate Plain(s: string)
  {
    s != [] && forall i :: 0 <= i < |s| ==> EmailChar(s[i])
  }

  /** The email pattern `^[^\s@]+@[^\s@]+\.[^\s@]+$`: the whole text is a
      plain part, '@', a plain part, '.', and a plain part. */
  predicate EmailPattern(e: string)
  {
    exists i, j :: 0 < i < j < |e| && e[i] == '@' && e[j] == '.' &&
                   Plain(e[..i]) && Plain(e[i + 1..j]) && Plain(e[j + 1..])
  }

  lemma PlainSlice(e: string, lo: nat, hi: nat)
    requires lo <= hi <= |e| && Plain(e[lo..hi])
    ensures forall k :: lo <= k < hi ==> EmailChar(e[k])
  {
    forall k | lo <= k < hi ensures EmailChar(e[k]) {
      assert e[k] == e[lo..hi][k - lo];
    }
  }

  /** An address the pattern accepts holds no white space and exactly one
      '@', neither first nor last, and a '.' after the '@' with something
      on both sides of it. */
  lemma EmailPatternShape(e: string)
    requires EmailPattern(e)
    ensures forall k :: 0 <= k < |e| ==> !IsSpace(e[k])
    ensures exists i :: 0 < i < |e| - 1 && e[i] == '@' && (forall k :: 0 <= k < |e| && e[k] == '@' ==> k == i)
    ensures exists i, j :: 0 < i && i + 1 < j < |e| - 1 && e[i] == '@' && e[j] == '.'
  {
    var i, j :| 0 < i < j < |e| && e[i] == '@' && e[j] == '.' &&
                Plain(e[..i]) && Plain(e[i + 1..j]) && Plain(e[j + 1..]);
    assert e[..i] == e[0..i];
    assert e[j + 1..] == e[j + 1..|e|];
    PlainSlice(e, 0, i);
    PlainSlice(e, i + 1, j);
    PlainSlice(e, j + 1, |e|);
    assert i + 1 < j < |e| - 1 by {
      assert e[i + 1..j] != [] && e[j + 1..] != [];
    }
    SymbolsAreNotSpace();
    forall k | 0 <= k < |e| ensures !IsSpace(e[k]) && (e[k] == '@' ==> k == i) {
      if k != i && k != j {
        assert EmailChar(e[k]);
      }
    }
  }

  lemma SymbolsAreNotSpace()
    ensures !IsSpace('@') && !IsSpace('.')
  {
  }

  /** Concrete answers of the pattern. */
  lemma EmailExamples()
    ensures EmailPattern("a@b.co")
    ensures !EmailPattern("a@b")
    ensures !EmailPattern("@b.co")
  {
    var e := "a@b.co";
    assert e[..1] == "a" && e[2..3] == "b" && e[4..] == "co";
    assert 0 < 1 < 3 < |e| && e[1] == '@' && e[3] == '.' && Plain(e[..1]) && Plain(e[2..3]) && Plain(e[4..]);
    NoDotNoEmail("a@b");
    forall i | 0 < i < 5 ensures "@b.co"[i] != '@' {
    }
  }

  lemma NoDotNoEmail(e: string)
    requires '.' !in e
    ensures !EmailPattern(e)
  {
    forall j | 0 <= j < |e| ensures e[j] != '.' {
      assert e[j] in e;
    }
  }

  /** Whether a field's rule fails, as `validateForm` tests it. */
  predicate Fails(f: RegisterForm, field: TextField)
  {
    match field
    case Username => f.username == "" || |f.username| < 3
    case Email => f.email == "" || !EmailPattern(f.email)
    case Password => f.password == "" || |f.password| < 6
    case ConfirmPassword => f.password != f.confirmPassword
    case FirstName => f.firstName == ""
    case LastName => f.lastName == ""
  }

  const ALL_FIELDS: set<TextField> := {Username, Email, Password, ConfirmPassword, FirstName, LastName}

  /** `validateForm`'s error object: one message per failed rule. */
  function Validate(f: RegisterForm): (errors: map<TextField, string>)
    ensures Username in errors <==> |f.username| < 3
    ensures Email in errors <==> !EmailPattern(f.email)
    ensures Password in errors <==> |f.password| < 6
    ensures ConfirmPassword in errors <==> f.password != f.confirmPassword
    ensures FirstName in errors <==> f.firstName == ""
    ensures LastName in errors <==> f.lastName == ""
    ensures forall g :: g in errors ==> errors[g] == Message(g) && errors[g] != ""
  {
    assert !EmailPattern("") by {
      NoDotNoEmail("");
    }
    var errors := map g | g in ALL_FIELDS && Fails(f, g) :: Message(g);
    assert forall g :: g in errors <==> Fails(f, g);
    errors
  }

  /** `Object.keys(newErrors).length === 0`. */
  predicate Valid(f: RegisterForm)
  {
    Validate(f) == map[]
  }

  /** A form is valid exactly when every rule holds. */
  lemma ValidIff(f: RegisterForm)
    ensures Valid(f) <==>
              |f.username| >= 3 && EmailPattern(f.email) && |f.password| >= 6 &&
              f.password == f.confirmPassword && f.firstName != "" && f.lastName != ""
  {
    var errors := Validate(f);
    if errors != map[] {
      var g :| g in errors;
    }
  }

  /** The empty form fails every rule but the matching passwords. */
  lemma EmptyFormErrors()
    ensures Validate(EMPTY_REGISTER_FORM).Keys == {Username, Email, Password, FirstName, LastName}
  {
    NoDotNoEmail("");
  }

  /** `handleChange`'s error update: a message shown for the edited field is
      removed, every other entry stays. */
  function ClearError(errors: map<TextField, string>, field: TextField): (r: map<TextField, string>)
    ensures field in r <==> field in errors && errors[field] == ""
    ensures forall g :: g != field ==> (g in r <==> g in errors) && (g in r ==> r[g] == errors[g])
  {
    if field in errors && errors[field] != "" then errors - {field} else errors
  }

  /** Every message `validateForm` sets is non-empty, so editing a field
      always removes its message and keeps the others. */
  lemma ClearValidationMessage(f: RegisterForm, field: TextField)
    ensures ClearError(Validate(f), field) == Validate(f) - {field}
  {
  }

  class RegisterPage {
    var form: RegisterForm
    var fieldErrors: map<TextField, string>
    var general: Option<string>
    var loading: bool
    var success: bool

    constructor ()
      ensures form == EMPTY_REGISTER_FORM && fieldErrors == map[] && general.None? && !loading && !success
    {
      form := EMPTY_REGISTER_FORM;
      fieldErrors := map[];
      general := None;
      loading := false;
      success := false;
    }

    /** Typing in a text input: that field changes, and only its message is
        cleared. */
    method HandleChange(field: TextField, value: string)
      modifies this
      ensures form == SetText(old(form), field, value)
      ensures fieldErrors == ClearError(old(fieldErrors), field)
      ensures general == old(general) && loading == old(loading) && success == old(success)
    {
      form := SetText(form, field, value);
      fieldErrors := ClearError(fieldErrors, field);
    }

    /** The notification switch stores its `checked` state; no message
        belongs to it. */
    method ToggleNotifications(checked: bool)
      modifies this
      ensures form == old(form).(emailNotificationsEnabled := checked)
      ensures fieldErrors == old(fieldErrors) && general == old(general)
      ensures loading == old(loading) && success == old(success)
    {
      form := form.(emailNotificationsEnabled := checked);
    }

    /** `handleSubmit`: an invalid form shows its messages and sends
        nothing; a valid one clears the messages and is sent as it is. */
    method Submit() returns (request: Option<RegisterForm>)
      modifies this
      ensures request.None? <==> !Valid(old(form))
      ensures request.None? ==> fieldErrors == Validate(old(form)) && loading == old(loading)
      ensures request.Some? ==> request.value == old(form) && fieldErrors == map[] && loading
      ensures general.None? && form == old(form) && success == old(success)
    {
      var errors := Validate(form);
      fieldErrors := errors;
      general := None;
      if errors != map[] {
        request := None;
        return;
      }
      loading := true;
      fieldErrors := map[];
      request := Some(form);
    }

    /** The registration answered: success shows the confirmation, an
        error shows its message alone; loading ends either way. */
    method RegisterAnswered(error: Option<string>)
      modifies this
      ensures error.None? ==> success && fieldErrors == old(fieldErrors) && general == old(general)
      ensures error.Some? ==> success == old(success) && fieldErrors == map[] && general == error
      ensures !loading && form == old(form)
    {
      if error.None? {
        success := true;
      } else {
        fieldErrors := map[];
        general := error;
      }
      loading := false;
    }
  }
}
