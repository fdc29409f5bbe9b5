/** The login gate: two fixed credentials, each granting one role, and the
    session that remembers the role between requests. The passwords are
    compared in plain text, as the store does. */
module Auth {
  import opened Models

  /** The credential table: username to (password, role). There are exactly
      two accounts, and each role belongs to exactly one of them. */
  function Credentials(): (m: map<string, (string, Role)>)
    ensures m.Keys == {"manager", "cashier"}
    ensures forall u :: u in m ==> (m[u].1 == Manager <==> u == "manager")
  {
    map["manager" := ("MarlaSchr", Manager), "cashier" := ("Glitz", Cashier)]
  }

  /** The role a username and password pair grants, if any. */
  function Authenticate(username: string, password: string): (r: Option<Role>)
    ensures r == Some(Manager) <==> username == "manager" && password == "MarlaSchr"
    ensures r == Some(Cashier) <==> username == "cashier" && password == "Glitz"
  {
    var accounts := Credentials();
    if username in accounts && accounts[username].0 == password
    then Some(accounts[username].1)
    else None
  }

  /** The page a role lands on after logging in: its own panel, never the
      login page, and a different one for each role. */
  function Landing(role: Role): (p: Page)
    ensures p != LoginPage
    ensures p == ManagerPage <==> role == Manager
  {
    match role
    case Manager => ManagerPage
    case Cashier => CashierPage
  }

  /** The signed client session; the only key the store uses is the role. */
  class Session {
    var role: Option<Role>

    constructor ()
      ensures role == None
    {
      role := None;
    }

    /** Submitting the login form. A matching pair sets the role and goes to
        that role's panel; any other pair flashes a notice and leaves the
        session as it was, so a role set earlier stays set. */
    method Login(username: string, password: string) returns (r: Response)
      modifies this
      ensures Authenticate(username, password).Some? ==>
        role == Authenticate(username, password)
        && r == Redirect(Landing(role.value), None)
      ensures Authenticate(username, password).None? ==>
        role == old(role) && r == Redirect(LoginPage, Some(InvalidCredentials))
    {
      if username == "manager" && password == "MarlaSchr" {
        role := Some(Manager);
        return Redirect(ManagerPage, None);
      }
      if username == "cashier" && password == "Glitz" {
        role := Some(Cashier);
        return Redirect(CashierPage, None);
      }
      r := Redirect(LoginPage, Some(InvalidCredentials));
    }

    /** Logging out clears the session. */
    method Logout() returns (r: Response)
      modifies this
      ensures role == None && r == Redirect(LoginPage, None)
    {
      role := None;
      r := Redirect(LoginPage, None);
    }
  }
}
