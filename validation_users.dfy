/** The user validator of validation/server.go. */
module ValidationServer {
  import opened Wrappers
  import opened Model

  /** A user is accepted exactly when the name has at least 3 bytes, the
      email contains '@' and the age is above 21, checked in that order. */
  function ValidateUser(u: User): (r: Outcome<string>)
    ensures r.Pass? <==> |u.name| >= 3 && '@' in u.email && u.age > 21
    ensures |u.name| < 3 ==> r == Fail("User name must have 3+ characters")
    ensures |u.name| >= 3 && '@' !in u.email ==> r == Fail("User email must be valid")
    ensures |u.name| >= 3 && '@' in u.email && u.age <= 21 ==> r == Fail("User age must be greater than 21")
  {
    if |u.name| < 3 then Fail("User name must have 3+ characters")
    else if '@' !in u.email then Fail("User email must be valid")
    else if u.age <= 21 then Fail("User age must be greater than 21")
    else Pass
  }

  /** The table of validation/server_test.go: only the first user passes. */
  lemma ValidateUserCases()
    ensures ValidateUser(User("John", "john@work.com", 35)) == Pass
    ensures ValidateUser(ZeroUser).Fail?
    ensures ValidateUser(User("H", "john@work.com", 35)).Fail?
    ensures ValidateUser(User("John", "work.com", 35)).Fail?
    ensures ValidateUser(User("John", "john@work.com", 15)).Fail?
  {
    assert "john@work.com"[4] == '@';
  }
}

/** The user validator of validation/handle.go: only a non-empty name is required. */
module ValidationHandle {
  import opened Wrappers
  import opened Model

  /** A user is accepted exactly when the name is non-empty, the email
      contains '@' and the age is above 21, checked in that order. */
  function ValidateUser(u: User): (r: Outcome<string>)
    ensures r.Pass? <==> u.name != "" && '@' in u.email && u.age > 21
    ensures u.name == "" ==> r == Fail("User name must not be empty")
    ensures u.name != "" && '@' !in u.email ==> r == Fail("User email must be valid")
    ensures u.name != "" && '@' in u.email && u.age <= 21 ==> r == Fail("User age must be greater than 21")
  {
    if u.name == "" then Fail("User name must not be empty")
    else if '@' !in u.email then Fail("User email must be valid")
    else if u.age <= 21 then Fail("User age must be greater than 21")
    else Pass
  }

  /** validation/handle_test.go: the zero user is rejected, for its name. */
  lemma ZeroUserRejected()
    ensures ValidateUser(ZeroUser) == Fail("User name must not be empty")
  {
  }
}

/** The user validator of validation/main.go, a copy of the one in
    validation/handle.go with the same messages. */
module ValidationMain {
  import opened Wrappers
  import opened Model
  import ValidationServer
  import ValidationHandle

  /** A user is accepted exactly when the name is non-empty, the email
      contains '@' and the age is above 21; the verdict and message are those
      of `ValidationHandle.ValidateUser` for every user. */
  function ValidateUser(u: User): (r: Outcome<string>)
    ensures r == ValidationHandle.ValidateUser(u)
    ensures r.Pass? <==> u.name != "" && '@' in u.email && u.age > 21
    ensures u.name == "" ==> r == Fail("User name must not be empty")
  {
    ValidationHandle.ValidateUser(u)
  }

  /** The two variants agree on the email and age checks but not on names:
      every user the three-byte variant accepts is accepted here, and a
      one-byte name separates them. */
  lemma VariantsCompared(u: User)
    ensures ValidationServer.ValidateUser(u).Pass? ==> ValidateUser(u).Pass?
    ensures ValidateUser(u).Pass? && |u.name| >= 3 ==> ValidationServer.ValidateUser(u).Pass?
    ensures var j := User("J", "j@work.com", 35);
            ValidateUser(j) == Pass && ValidationServer.ValidateUser(j).Fail?
  {
    assert "j@work.com"[1] == '@';
  }
}
