/**
  The fake session: signed out, or signed in with an email and a role. Any
  credentials sign in; the role is "manager" for one hard-coded address.
 */
module Auth {
  import opened Wrappers

  datatype Role = Manager | Member {
    /** The role string stored in the session: "manager" or "user". */
    function Name(): string {
      match this
      case Manager => "manager"
      case Member => "user"
    }
  }

  datatype User = User(email: string, role: Role)

  const ManagerEmail := "hrmanager@gmail.com"

  /** `email === "hrmanager@gmail.com" ? "manager" : "user"`, case-sensitive. */
  function RoleFor(email: string): (r: Role)
    ensures r == Manager <==> email == ManagerEmail
    ensures r.Name() == "manager" <==> email == ManagerEmail
    ensures r.Name() == "user" <==> email != ManagerEmail
  {
    if email == ManagerEmail then Manager else Member
  }

  /** A session change: `login(email, password)` or `logout()`. */
  datatype Event = LogIn(email: string, password: string) | LogOut

  /** The session after an event; the previous session plays no part. */
  function Step(user: Option<User>, ev: Event): Option<User> {
    match ev
    case LogIn(email, _) => Some(User(email, RoleFor(email)))
    case LogOut => None
  }

  /** Signing in records the given email exactly and the role it implies. */
  lemma LoginRecordsEmail(user: Option<User>, email: string, password: string)
    ensures Step(user, LogIn(email, password)).Some?
    ensures Step(user, LogIn(email, password)).value.email == email
    ensures Step(user, LogIn(email, password)).value.role == Manager <==> email == ManagerEmail
  {
  }

  /** The password has no effect on the session. */
  lemma PasswordIgnored(user: Option<User>, email: string, p1: string, p2: string)
    ensures Step(user, LogIn(email, p1)) == Step(user, LogIn(email, p2))
  {
  }

  /** Signing in twice with one email is signing in once. */
  lemma LoginIdempotent(user: Option<User>, email: string, p1: string, p2: string)
    ensures Step(Step(user, LogIn(email, p1)), LogIn(email, p2)) == Step(user, LogIn(email, p1))
  {
  }

  /** Signing out from any session leaves it signed out. */
  lemma LogoutSignsOut(user: Option<User>)
    ensures Step(user, LogOut) == None
  {
  }

  class AuthProvider {
    /** `null` when signed out. */
    var user: Option<User>

    /** `useState(null)`: the session starts signed out. */
    constructor ()
      ensures user == None
    {
      user := None;
    }

    /** The full provider starts from the session that storage held. */
    constructor Restored(saved: Option<User>)
      ensures user == saved
    {
      user := saved;
    }

    /** `login(email, password)`; the full provider also returns the new user. */
    method Login(email: string, password: string) returns (u: User)
      modifies this
      ensures user == Step(old(user), LogIn(email, password)) && user == Some(u)
      ensures u.email == email && (u.role == Manager <==> email == ManagerEmail)
    {
      var role := RoleFor(email);
      u := User(email, role);
      user := Some(u);
    }

    /** `logout()` */
    method Logout()
      modifies this
      ensures user == Step(old(user), LogOut) && user == None
    {
      user := None;
    }
  }
}
