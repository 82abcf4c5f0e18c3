/** The authentication provider (src/context/AuthContext.jsx): a user
    cell and an authenticated flag, a login that accepts one fixed pair
    of credentials, and a logout. */
module Auth {
  import opened Wrappers

  datatype User = User(username: string, name: string, email: string)

  /** How the promise returned by `login` settles. */
  datatype LoginOutcome = Resolved(user: User) | Rejected(message: string)

  const AcceptedUsername := "user123"
  const AcceptedPassword := "password123"

  class AuthProvider {
    var user: Option<User>
    var isAuthenticated: bool

    /** The flag is set exactly when a user is stored. */
    ghost predicate Valid()
      reads this
    {
      isAuthenticated <==> user.Some?
    }

    constructor ()
      ensures Valid()
      ensures user == None && !isAuthenticated
    {
      user := None;
      isAuthenticated := false;
    }

    /** Resolves with the demo user exactly for the accepted credentials
        and stores it; otherwise rejects and leaves the state alone. */
    method Login(username: string, password: string) returns (outcome: LoginOutcome)
      requires Valid()
      modifies this
      ensures Valid()
      ensures outcome.Resolved? <==> username == AcceptedUsername && password == AcceptedPassword
      ensures outcome.Resolved? ==>
        outcome.user == User(username, "John Doe", "john@example.com")
        && user == Some(outcome.user) && isAuthenticated
      ensures outcome.Rejected? ==>
        outcome.message == "Invalid credentials"
        && user == old(user) && isAuthenticated == old(isAuthenticated)
    {
      if username == AcceptedUsername && password == AcceptedPassword {
        var userData := User(username, "John Doe", "john@example.com");
        user := Some(userData);
        isAuthenticated := true;
        return Resolved(userData);
      }
      return Rejected("Invalid credentials");
    }

    /** Clears both cells; the end state does not depend on the start
        state, so a second logout changes nothing. */
    method Logout()
      modifies this
      ensures Valid()
      ensures user == None && !isAuthenticated
    {
      user := None;
      isAuthenticated := false;
    }
  }
}
