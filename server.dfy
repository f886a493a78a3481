/** The user validator of the `server` package (server/server.go), a copy of
    the one in services/user.go with the same messages. */
module Server {
  import opened Wrappers
  import opened Model
  import Services

  /** A user is accepted exactly when the name has at least 3 bytes, the
      email contains '@' and the age is above 21; the verdict and message are
      those of `Services.ValidateUser` for every user. */
  function ValidateUser(u: User): (r: Outcome<string>)
    ensures r == Services.ValidateUser(u)
    ensures r.Pass? <==> |u.name| >= 3 && '@' in u.email && u.age > 21
    ensures |u.name| < 3 ==> r == Fail("user name must have 3+ characters")
  {
    Services.ValidateUser(u)
  }
}
