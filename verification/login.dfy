/**
 The login screen's submit decision: look up the first stored user with the
 typed e-mail and compare passwords. A failure always shows the same message;
 only an unknown e-mail sends the user on to registration.
 */
module Login {
  import opened Wrappers
  import opened Navigation
  import opened Records
  import opened Storage
  import opened Credentials
  import Register

  const InvalidCredentials: string := "Invalid email or password"

  /**
   What pressing login leaves behind. `error` is None when the error text is
   left as it was; `alert` is the "no user registered" banner. The result holds
   no store: login only reads the user list.
   */
  datatype Attempt = Attempt(error: Option<string>, alert: bool, next: Nav)

  /** `handleSubmit` of the login screen. */
  function Submit(store: Store, email: string, password: string): (r: Attempt)
    ensures var found := FindByEmail(LoadUsers(store), email);
      r.next == NavigateTo(HomeScreen) <==> found.Some? && found.value.password == password
    ensures r.next != NavigateTo(HomeScreen) ==> r.error == Some(InvalidCredentials)
    ensures r.next == NavigateTo(HomeScreen) ==> r.error == None && !r.alert
    ensures r.next == NavigateTo(RegisterScreen) <==> !EmailUsed(LoadUsers(store), email)
    ensures r.alert <==> r.next == NavigateTo(RegisterScreen)
    ensures r.next == Stay
      <==> EmailUsed(LoadUsers(store), email) && FindByEmail(LoadUsers(store), email).value.password != password
  {
    var users := LoadUsers(store);
    match FindByEmail(users, email)
    case Some(u) =>
      if u.password == password then Attempt(None, false, NavigateTo(HomeScreen))
      else Attempt(Some(InvalidCredentials), false, Stay)
    case None => Attempt(Some(InvalidCredentials), true, NavigateTo(RegisterScreen))
  }

  /** A wrong password for a stored e-mail fails in place: no banner, no redirect. */
  lemma WrongPasswordStays(store: Store, email: string, password: string)
    requires forall i :: 0 <= i < |LoadUsers(store)| && LoadUsers(store)[i].email == email ==>
      LoadUsers(store)[i].password != password
    requires EmailUsed(LoadUsers(store), email)
    ensures Submit(store, email, password) == Attempt(Some(InvalidCredentials), false, Stay)
  {
  }

  /** While stored e-mails are distinct, login accepts exactly the stored pairs. */
  lemma LoginAcceptsStoredPairs(store: Store, email: string, password: string)
    requires DistinctEmails(LoadUsers(store))
    ensures Submit(store, email, password).next == NavigateTo(HomeScreen)
      <==> User(email, password) in LoadUsers(store)
  {
    FindUnderDistinct(LoadUsers(store), email, password);
  }

  /**
   Registering an unused e-mail and then logging in with the same e-mail and
   password reaches the home screen; any other password fails without redirect.
   */
  lemma RegisterThenLogin(store: Store, form: Register.Form, other: string)
    requires Register.CanRegister(LoadUsers(store), form.email, form.password, form.confirm)
    requires other != form.password
    ensures var store' := Register.Submit(store, form).store;
      && Submit(store', form.email, form.password).next == NavigateTo(HomeScreen)
      && Submit(store', form.email, other) == Attempt(Some(InvalidCredentials), false, Stay)
  {
    var u := User(form.email, form.password);
    FindAfterAppend(LoadUsers(store), u, form.email);
  }

  /**
   On an empty store: registering a@gmail.com with password and confirmation
   12345678 stores that user, and logging in with 00000000 fails in place with the generic message.
   */
  lemma RegisterThenWrongPassword()
    ensures var form := Register.Form("a@gmail.com", "12345678", "12345678", map[]);
      var store' := Register.Submit(map[], form).store;
      && LoadUsers(store') == [User("a@gmail.com", "12345678")]
      && Submit(store', "a@gmail.com", "00000000") == Attempt(Some(InvalidCredentials), false, Stay)
  {
    var form := Register.Form("a@gmail.com", "12345678", "12345678", map[]);
    assert form.email[|form.email| - |GmailSuffix|..] == GmailSuffix;
    assert IsValidEmail(form.email);
    assert IsValidPassword(form.password);
    RegisterThenLogin(map[], form, "00000000");
  }
}
