/**
 The registration screen: the per-field error map kept while the user types,
 the rule that enables the submit button, and the submit decision that appends
 a new user to the stored list.
 */
module Register {
  import opened Wrappers
  import opened Navigation
  import opened Records
  import opened Storage
  import opened Credentials

  /** The three inputs of the form; each may carry one error message. */
  datatype Field = EmailField | PasswordField | ConfirmField

  /** The `errors` object: a field is a key exactly while its input is in error. */
  type Errors = map<Field, string>

  const EmailFormatError: string := "Email must end with @gmail.com"
  const EmailTakenError: string := "This email is already registered."
  const PasswordFormatError: string := "Password must be at least 8 numeric characters."
  const MismatchError: string := "Passwords do not match"
  const TakenRedirectAlert: string := "This email is already registered. Redirecting to Login..."

  /** What the form holds between keystrokes. */
  datatype Form = Form(email: string, password: string, confirm: string, errors: Errors)

  /** The form as the screen first renders it: every input empty, no errors. */
  const EmptyForm: Form := Form("", "", "", map[])

  /** Key `f` holds the same message (or is absent) in both maps. */
  predicate Kept(before: Errors, after: Errors, f: Field) {
    (f in before <==> f in after) && (f in before ==> before[f] == after[f])
  }

  /**
   `handleValidation(field, value)`: recompute the error of the edited field
   from its new value; an edit of the password also rechecks the confirmation
   when one has been typed. The other keys are carried over.
   */
  function HandleValidation(errors: Errors, field: Field, value: string,
                            password: string, confirm: string, users: seq<User>): (r: Errors)
    ensures field == EmailField ==>
      && (EmailField !in r <==> IsValidEmail(value) && !EmailUsed(users, value))
      && (!IsValidEmail(value) ==> r[EmailField] == EmailFormatError)
      && (IsValidEmail(value) && EmailUsed(users, value) ==> r[EmailField] == EmailTakenError)
      && Kept(errors, r, PasswordField) && Kept(errors, r, ConfirmField)
    ensures field == PasswordField ==>
      && (PasswordField !in r <==> IsValidPassword(value))
      && (PasswordField in r ==> r[PasswordField] == PasswordFormatError)
      && (ConfirmField !in r <==> confirm == "" || value == confirm)
      && (ConfirmField in r ==> r[ConfirmField] == MismatchError)
      && Kept(errors, r, EmailField)
    ensures field == ConfirmField ==>
      && (ConfirmField !in r <==> value == password)
      && (ConfirmField in r ==> r[ConfirmField] == MismatchError)
      && Kept(errors, r, EmailField) && Kept(errors, r, PasswordField)
  {
    match field
    case EmailField =>
      if !IsValidEmail(value) then errors[EmailField := EmailFormatError]
      else if EmailUsed(users, value) then errors[EmailField := EmailTakenError]
      else errors - {EmailField}
    case PasswordField =>
      var e := if IsValidPassword(value) then errors - {PasswordField}
               else errors[PasswordField := PasswordFormatError];
      if confirm != "" && value != confirm then e[ConfirmField := MismatchError]
      else e - {ConfirmField}
    case ConfirmField =>
      if value != password then errors[ConfirmField := MismatchError]
      else errors - {ConfirmField}
  }

  /**
   Every input that is filled in and carries no error really is acceptable.
   This is what the error map is for: it never hides a problem.
   */
  predicate Sound(form: Form, users: seq<User>) {
    && (form.email == "" || EmailField in form.errors
        || (IsValidEmail(form.email) && !EmailUsed(users, form.email)))
    && (form.password == "" || PasswordField in form.errors || IsValidPassword(form.password))
    && (form.confirm == "" || ConfirmField in form.errors || form.confirm == form.password)
  }

  /**
   One `onChange`: store the new value of the edited input, then validate it
   against the other inputs as they currently stand.
   */
  function Edit(form: Form, field: Field, value: string, users: seq<User>): (r: Form)
    ensures field == EmailField ==> r.email == value && r.password == form.password && r.confirm == form.confirm
    ensures field == PasswordField ==> r.password == value && r.email == form.email && r.confirm == form.confirm
    ensures field == ConfirmField ==> r.confirm == value && r.email == form.email && r.password == form.password
    ensures r.errors == HandleValidation(form.errors, field, value, form.password, form.confirm, users)
    ensures Sound(form, users) ==> Sound(r, users)
  {
    var errors := HandleValidation(form.errors, field, value, form.password, form.confirm, users);
    match field
    case EmailField => form.(email := value, errors := errors)
    case PasswordField => form.(password := value, errors := errors)
    case ConfirmField => form.(confirm := value, errors := errors)
  }

  /** A run of keystrokes, applied in order. */
  function ApplyEdits(form: Form, edits: seq<(Field, string)>, users: seq<User>): Form
    decreases |edits|
  {
    if |edits| == 0 then form
    else ApplyEdits(Edit(form, edits[0].0, edits[0].1, users), edits[1..], users)
  }

  /** However the user types, starting from the empty form the error map stays sound. */
  lemma {:induction false} EditsKeepSound(form: Form, edits: seq<(Field, string)>, users: seq<User>)
    requires Sound(form, users)
    ensures Sound(ApplyEdits(form, edits, users), users)
    decreases |edits|
  {
    if |edits| > 0 {
      EditsKeepSound(Edit(form, edits[0].0, edits[0].1, users), edits[1..], users);
    }
  }

  /**
   The submit button's `disabled` expression: the button is enabled only on a
   completely filled form with an empty error map and an e-mail not yet stored.
   */
  function SubmitDisabled(form: Form, users: seq<User>): (r: bool)
    ensures !r ==> form.email != "" && form.password != "" && form.confirm != ""
    ensures !r ==> forall f :: f !in form.errors
    ensures !r ==> !EmailUsed(users, form.email)
    ensures (&& form.email != "" && form.password != "" && form.confirm != ""
             && form.errors == map[] && !EmailUsed(users, form.email)) ==> !r
  {
    || form.email == ""
    || form.password == ""
    || form.confirm == ""
    || |form.errors| > 0
    || EmailUsed(users, form.email)
  }

  /**
   The condition `handleSubmit` tests before storing a new user: an accepted
   e-mail is a non-empty local part plus the domain and is not yet stored, and
   an accepted password is long enough and confirmed.
   */
  function CanRegister(users: seq<User>, email: string, password: string, confirm: string): (r: bool)
    ensures r ==> |email| > |GmailSuffix| && !EmailUsed(users, email)
    ensures r ==> |password| >= MinPasswordLength && confirm == password
  {
    && IsValidEmail(email)
    && IsValidPassword(password)
    && password == confirm
    && !EmailUsed(users, email)
  }

  /**
   Whenever the button is enabled on a form reached by typing, pressing it
   registers the user: the enabling rule and the error map never let a
   rejected submission through the button.
   */
  lemma EnabledSubmitAccepts(edits: seq<(Field, string)>, users: seq<User>)
    requires !SubmitDisabled(ApplyEdits(EmptyForm, edits, users), users)
    ensures var f := ApplyEdits(EmptyForm, edits, users);
      CanRegister(users, f.email, f.password, f.confirm)
  {
    EditsKeepSound(EmptyForm, edits, users);
  }

  /**
   The converse of `EnabledSubmitAccepts`: typing an acceptable e-mail, then
   the password, then the same password again enables the button.
   */
  lemma TypedAcceptableEnables(users: seq<User>, email: string, password: string)
    requires CanRegister(users, email, password, password)
    ensures !SubmitDisabled(ApplyEdits(EmptyForm,
      [(EmailField, email), (PasswordField, password), (ConfirmField, password)], users), users)
  {
    var edits := [(EmailField, email), (PasswordField, password), (ConfirmField, password)];
    var f1 := Edit(EmptyForm, EmailField, email, users);
    assert f1.errors == map[];
    var f2 := Edit(f1, PasswordField, password, users);
    assert f2.errors == map[];
    var f3 := Edit(f2, ConfirmField, password, users);
    assert f3.errors == map[];
    assert edits[1..][1..][1..] == [];
    assert ApplyEdits(EmptyForm, edits, users) == ApplyEdits(f1, edits[1..], users)
      == ApplyEdits(f2, edits[1..][1..], users) == ApplyEdits(f3, edits[1..][1..][1..], users) == f3;
  }

  /** What pressing submit leaves behind: the store, an alert to show, and where to go. */
  datatype Submission = Submission(store: Store, alert: Option<string>, next: Nav)

  /**
   `handleSubmit`: when the inputs pass, append `{email, password}` to the stored
   users and go to login; when the e-mail is taken, alert and go to login
   without storing; otherwise do nothing.
   */
  function Submit(store: Store, form: Form): (r: Submission)
    ensures var users := LoadUsers(store);
      CanRegister(users, form.email, form.password, form.confirm) ==>
        LoadUsers(r.store) == users + [User(form.email, form.password)]
    ensures !CanRegister(LoadUsers(store), form.email, form.password, form.confirm) ==> r.store == store
    ensures forall k :: k != UsersKey ==> Untouched(store, r.store, k)
    ensures DistinctEmails(LoadUsers(store)) ==> DistinctEmails(LoadUsers(r.store))
    ensures r.next == NavigateTo(LoginScreen) <==>
      CanRegister(LoadUsers(store), form.email, form.password, form.confirm)
      || EmailUsed(LoadUsers(store), form.email)
    ensures r.next != NavigateTo(LoginScreen) ==> r.next == Stay
    ensures r.alert.Some? <==> EmailUsed(LoadUsers(store), form.email)
  {
    var users := LoadUsers(store);
    if CanRegister(users, form.email, form.password, form.confirm) then
      Submission(Save(store, UsersKey, UserList(users + [User(form.email, form.password)])),
                 None, NavigateTo(LoginScreen))
    else if EmailUsed(users, form.email) then
      Submission(store, Some(TakenRedirectAlert), NavigateTo(LoginScreen))
    else
      Submission(store, None, Stay)
  }

  /**
   `handleSubmit` called with an e-mail that is already stored, with any
   password, stores nothing, alerts and goes to login. Through the form this
   branch is never reached: see `SecondTimeButtonDisabled`.
   */
  lemma SecondRegistrationRejected(store: Store, form: Form, again: Form)
    requires CanRegister(LoadUsers(store), form.email, form.password, form.confirm)
    requires again.email == form.email
    ensures var store' := Submit(store, form).store;
      && Submit(store', again).store == store'
      && Submit(store', again).alert == Some(TakenRedirectAlert)
      && Submit(store', again).next == NavigateTo(LoginScreen)
  {
    var users' := LoadUsers(Submit(store, form).store);
    assert users'[|users'| - 1].email == form.email;
  }

  /** Whenever the button can be pressed, the taken-e-mail branch of `handleSubmit` is not taken. */
  lemma EnabledSubmitNeverTaken(store: Store, form: Form)
    requires !SubmitDisabled(form, LoadUsers(store))
    ensures Submit(store, form).alert == None
    ensures Submit(store, form).store == store ==> Submit(store, form).next == Stay
  {
  }

  /**
   After a registration, the button is disabled for any form carrying the same
   e-mail: a second registration of an e-mail is blocked by the disabled button.
   */
  lemma SecondTimeButtonDisabled(store: Store, form: Form, again: Form)
    requires CanRegister(LoadUsers(store), form.email, form.password, form.confirm)
    requires again.email == form.email
    ensures SubmitDisabled(again, LoadUsers(Submit(store, form).store))
  {
    var users' := LoadUsers(Submit(store, form).store);
    assert users'[|users'| - 1].email == form.email;
  }
}
