/**
 * The sign-up form (src/screens/SignupScreen.js): four text fields checked
 * for emptiness and for matching passwords before `signup` is called.
 */
module SignupScreen {
  import opened Js
  import opened Storage
  import opened Collections
  import opened Auth

  /** The alert `handleSignup` raises instead of signing up. */
  datatype SignupAlert = FillAlert | MismatchAlert

  /**
   * The checks of `handleSignup`: an empty field first (white space counts
   * as filled, nothing is trimmed), then differing passwords; `None` means
   * `signup` is called.
   */
  function SignupCheck(name: string, email: string, password: string, confirmPassword: string): (r: Option<SignupAlert>)
    ensures r == Some(FillAlert) <==> name == [] || email == [] || password == [] || confirmPassword == []
    ensures r == Some(MismatchAlert) <==>
      (name != [] && email != [] && password != [] && confirmPassword != [] && password != confirmPassword)
    ensures r.None? ==> password == confirmPassword && password != []
  {
    if !Truthy(JStr(name)) || !Truthy(JStr(email)) || !Truthy(JStr(password)) || !Truthy(JStr(confirmPassword)) then
      Some(FillAlert)
    else if !StrictEq(JStr(password), JStr(confirmPassword)) then Some(MismatchAlert)
    else None
  }

  class SignupScreen {
    const auth: AuthContext
    var name: string
    var email: string
    var password: string
    var confirmPassword: string

    constructor(auth: AuthContext)
      ensures this.auth == auth && name == "" && email == "" && password == "" && confirmPassword == ""
    {
      this.auth := auth;
      name := "";
      email := "";
      password := "";
      confirmPassword := "";
    }

    /**
     * `handleSignup`: the alert when a check fails; otherwise `signup(name,
     * email, password)`, whose `{success: false}` result the screen ignores.
     */
    method HandleSignup(id: string, failure: Option<string>) returns (alert: Option<SignupAlert>)
      modifies auth, auth.store
      ensures alert == SignupCheck(name, email, password, confirmPassword)
      ensures alert.Some? ==>
        auth.users == old(auth.users) && auth.user == old(auth.user) && auth.store.data == old(auth.store.data)
      ensures alert.None? && !AnyMatch(old(auth.users), "email", JStr(email)) ==>
        auth.users == old(auth.users) + [NewUser(id, name, email, password)]
      ensures alert.None? && AnyMatch(old(auth.users), "email", JStr(email)) ==>
        auth.users == old(auth.users) && auth.user == old(auth.user) && auth.store.data == old(auth.store.data)
      ensures auth.loading == old(auth.loading)
      ensures alert.None? && !AnyMatch(old(auth.users), "email", JStr(email)) && failure.None? ==>
        auth.user == Some(WithoutPassword(NewUser(id, name, email, password)))
        && auth.store.data == old(auth.store.data)[UserKey := Record(WithoutPassword(NewUser(id, name, email, password)))]
      ensures alert.None? && !AnyMatch(old(auth.users), "email", JStr(email)) && failure.Some? ==>
        auth.user == old(auth.user) && auth.store.data == old(auth.store.data)
    {
      alert := SignupCheck(name, email, password, confirmPassword);
      if alert.None? {
        var _ := auth.Signup(name, email, password, id, failure);
      }
    }
  }

  // ------------------------------------------------------------------ lemmas

  /**
   * A sign-up the screen lets through can be logged into with the password
   * typed twice, provided the email was free.
   */
  lemma PassedSignupCanLogIn(users: seq<Obj>, id: string, name: string, email: string, password: string, confirmPassword: string)
    requires SignupCheck(name, email, password, confirmPassword).None?
    requires !AnyMatch(users, "email", JStr(email))
    ensures FindCredentials(users + [NewUser(id, name, email, confirmPassword)], email, password) == Some(|users|)
  {
    SignupThenLogin(users, id, name, email, password);
  }
}
