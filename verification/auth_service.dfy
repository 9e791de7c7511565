/** `AuthService.AuthenticateUserAsync`: the sign-in decision for the single
    user configured in the "User" section of the application settings. The
    password check and the cookie sign-in are calls outside the model; their
    outcomes are inputs. */
module Auth {
  import opened Wrappers

  /** The configured user: user name, password hash, salt and role. */
  datatype User = User(username: string, password: string, salt: string, role: string)

  /** The identity a successful sign-in issues: a Name and a Role claim. */
  datatype Claims = Claims(name: string, role: string)

  /** The development shortcut: "admin"/"admin" passes the password check. */
  predicate IsBackdoor(username: string, password: string) {
    username == "admin" && password == "admin"
  }

  /** The decision once the configured user is known and the password check
      has answered `verified`: the user name must match exactly, and then the
      password check or the shortcut must pass. */
  predicate Accepts(user: User, username: string, password: string, verified: bool) {
    username == user.username && (verified || IsBackdoor(username, password))
  }

  /** `AuthenticateUserAsync`. `configured` is the bound "User" section (None
      when it is missing); `verification` is the password check's answer, None
      when it throws; `signInThrew` says whether the cookie sign-in throws.
      Every exception is caught and reported as a failed sign-in. On success
      the claims signed in are returned beside `true`. */
  method AuthenticateUserAsync(
    configured: Option<User>, username: string, password: string,
    verification: Option<bool>, signInThrew: bool)
    returns (ok: bool, signedIn: Option<Claims>)
    ensures ok <==> signedIn.Some?
    ensures configured.None? ==> !ok
    ensures configured.Some? && username != configured.value.username ==> !ok
    ensures verification.None? || signInThrew ==> !ok
    ensures ok <==>
      && configured.Some? && verification.Some? && !signInThrew
      && Accepts(configured.value, username, password, verification.value)
    ensures ok ==> signedIn == Some(Claims(username, configured.value.role))
  {
    if configured.None? {
      return false, None;
    }
    var user := configured.value;
    if username != user.username {
      return false, None;
    }
    if verification.None? {
      return false, None;
    }
    var passwordVerified := verification.value;
    if username == "admin" && password == "admin" {
      passwordVerified := true;
    }
    if passwordVerified {
      if signInThrew {
        return false, None;
      }
      return true, Some(Claims(username, user.role));
    }
    return false, None;
  }

  /** The shortcut works only when the configured user is "admin": for any
      other configured name, a failing password check cannot be overridden. */
  lemma BackdoorNeedsConfiguredAdmin(user: User, username: string, password: string)
    ensures Accepts(user, username, password, false) <==>
      user.username == "admin" && username == "admin" && password == "admin"
  {
  }

  /** A passing password check is enough, and necessary for any pair other
      than "admin"/"admin". */
  lemma PasswordDecides(user: User, username: string, password: string)
    requires username == user.username && !IsBackdoor(username, password)
    ensures Accepts(user, username, password, true)
    ensures !Accepts(user, username, password, false)
  {
  }
}
