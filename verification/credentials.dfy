/**
 The credential rules of the registration and login screens: the e-mail pattern,
 the numeric password pattern, and the lookups of a stored user by e-mail.
 */
module Credentials {
  import opened Wrappers
  import opened Records

  /** The only domain the e-mail pattern accepts, with its `@`. */
  const GmailSuffix: string := "@gmail.com"

  /** The fewest characters a valid password has. */
  const MinPasswordLength: nat := 8

  /** The character class `[a-zA-Z0-9._%+-]` of the e-mail's local part. */
  predicate IsLocalChar(c: char) {
    || ('a' <= c <= 'z')
    || ('A' <= c <= 'Z')
    || ('0' <= c <= '9')
    || c == '.' || c == '_' || c == '%' || c == '+' || c == '-'
  }

  /** An ASCII decimal digit, the class `[0-9]`. */
  predicate IsDigit(c: char) {
    '0' <= c <= '9'
  }

  /**
   The language of `/^[a-zA-Z0-9._%+-]+@gmail\.com$/`: one or more local-part
   characters followed by exactly "@gmail.com" and nothing after it.
   */
  predicate IsValidEmail(s: string) {
    && |s| > |GmailSuffix|
    && s[|s| - |GmailSuffix|..] == GmailSuffix
    && forall i :: 0 <= i < |s| - |GmailSuffix| ==> IsLocalChar(s[i])
  }

  /** The language of `/^[0-9]{8,}$/`: eight or more ASCII digits and nothing else. */
  predicate IsValidPassword(s: string) {
    && |s| >= MinPasswordLength
    && forall i :: 0 <= i < |s| ==> IsDigit(s[i])
  }

  /**
   `validateEmail`: a left-to-right match of the pattern. The local part is
   consumed greedily; since `@` is not a local-part character, the match
   succeeds exactly when what is left is the suffix.
   */
  method ValidateEmail(s: string) returns (ok: bool)
    ensures ok <==> IsValidEmail(s)
  {
    var i := 0;
    while i < |s| && IsLocalChar(s[i])
      invariant 0 <= i <= |s|
      invariant forall k :: 0 <= k < i ==> IsLocalChar(s[k])
    {
      i := i + 1;
    }
    ok := 0 < i && s[i..] == GmailSuffix;
    if IsValidEmail(s) {
      var at := |s| - |GmailSuffix|;
      assert s[at] == s[at..][0] == '@';
      assert !IsLocalChar(s[at]);
      assert i == at;
    }
  }

  /** `validatePassword`: scan for a non-digit, then check the length. */
  method ValidatePassword(s: string) returns (ok: bool)
    ensures ok <==> IsValidPassword(s)
  {
    var i := 0;
    while i < |s| && IsDigit(s[i])
      invariant 0 <= i <= |s|
      invariant forall k :: 0 <= k < i ==> IsDigit(s[k])
    {
      i := i + 1;
    }
    ok := i == |s| && |s| >= MinPasswordLength;
  }

  /** `isEmailUsed`: whether any stored user has exactly this e-mail. */
  function EmailUsed(users: seq<User>, email: string): (r: bool)
    ensures r <==> exists i :: 0 <= i < |users| && users[i].email == email
  {
    if |users| == 0 then false
    else users[0].email == email || EmailUsed(users[1..], email)
  }

  /** No two stored users share an e-mail. */
  predicate DistinctEmails(users: seq<User>) {
    forall i, j :: 0 <= i < j < |users| ==> users[i].email != users[j].email
  }

  /** `k` is the position of the first stored user with e-mail `email`. */
  predicate IsFirstWithEmail(users: seq<User>, email: string, k: int) {
    && 0 <= k < |users|
    && users[k].email == email
    && forall j :: 0 <= j < k ==> users[j].email != email
  }

  /** The position of the first stored user with exactly this e-mail, if any. */
  function FirstWithEmail(users: seq<User>, email: string): (r: Option<nat>)
    ensures r.None? <==> !EmailUsed(users, email)
    ensures r.Some? ==> IsFirstWithEmail(users, email, r.value)
  {
    if |users| == 0 then None
    else if users[0].email == email then Some(0)
    else match FirstWithEmail(users[1..], email)
      case None => None
      case Some(k) => Some(k + 1)
  }

  /** The login lookup: the first stored user with exactly this e-mail, or nothing. */
  function FindByEmail(users: seq<User>, email: string): (r: Option<User>)
    ensures r.None? <==> !EmailUsed(users, email)
    ensures r.Some? ==> r.value.email == email && r.value in users
    ensures r.Some? ==> exists k :: IsFirstWithEmail(users, email, k) && users[k] == r.value
  {
    match FirstWithEmail(users, email)
    case None => None
    case Some(k) => Some(users[k])
  }

  /**
   Appending a user whose e-mail is not yet stored makes that user the one
   `find` returns for the e-mail, and changes nothing for other e-mails.
   */
  lemma {:induction false} FindAfterAppend(users: seq<User>, u: User, email: string)
    requires !EmailUsed(users, u.email)
    ensures email == u.email ==> FindByEmail(users + [u], email) == Some(u)
    ensures email != u.email ==> FindByEmail(users + [u], email) == FindByEmail(users, email)
  {
    if |users| == 0 {
      assert users + [u] == [u];
    } else {
      assert (users + [u])[1..] == users[1..] + [u];
      FindAfterAppend(users[1..], u, email);
    }
  }

  /** Under distinct e-mails, the user `find` returns is the only one with that e-mail. */
  lemma FindUnderDistinct(users: seq<User>, email: string, password: string)
    requires DistinctEmails(users)
    ensures (FindByEmail(users, email) == Some(User(email, password))) <==> User(email, password) in users
  {
    var r := FindByEmail(users, email);
    if User(email, password) in users {
      var i :| 0 <= i < |users| && users[i] == User(email, password);
      var k :| IsFirstWithEmail(users, email, k) && users[k] == r.value;
      assert k == i;
    }
  }
}
