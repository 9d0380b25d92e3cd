/**
 * The user registry and session (src/context/AuthContext.js): the bundled
 * list of registered users, which `signup` extends in place, and the
 * signed-in user, kept without its password in memory and under the `user`
 * key.
 */
module Auth {
  import opened Js
  import opened Storage
  import opened Collections

  const UserKey: string := "user"

  /** `u.email === email && u.password === password` */
  predicate HasCredentials(u: Obj, email: string, password: string)
  {
    Matches(u, "email", JStr(email)) && Matches(u, "password", JStr(password))
  }

  /** The index of the user `users.find(u => u.email === email && u.password === password)` returns. */
  function FindCredentials(users: seq<Obj>, email: string, password: string): (r: Option<nat>)
    ensures r.Some? ==> r.value < |users| && HasCredentials(users[r.value], email, password)
    ensures r.Some? ==> forall j :: 0 <= j < r.value ==> !HasCredentials(users[j], email, password)
    ensures r.None? ==> forall j :: 0 <= j < |users| ==> !HasCredentials(users[j], email, password)
  {
    if users == [] then None
    else if HasCredentials(users[0], email, password) then Some(0)
    else
      match FindCredentials(users[1..], email, password)
      case None => None
      case Some(i) => Some(i + 1)
  }

  /** `const { password, ...rest } = u`: every field but the password. */
  function WithoutPassword(u: Obj): (r: Obj)
    ensures r.Keys == u.Keys - {"password"}
    ensures forall k :: k in r ==> r[k] == u[k]
  {
    u - {"password"}
  }

  /** The record `signup` registers: it carries the credentials typed and no photo. */
  function NewUser(id: string, name: string, email: string, password: string): (u: Obj)
    ensures u.Keys == {"id", "name", "email", "password", "profileImage"}
    ensures HasCredentials(u, email, password)
    ensures u["id"] == JStr(id) && u["name"] == JStr(name) && u["profileImage"] == JNull
  {
    assert "email"[0] == 'e' && "password"[0] == 'p' && "profileImage"[1] == 'r' && "name"[0] == 'n' && "id"[0] == 'i';
    map["id" := JStr(id), "name" := JStr(name), "email" := JStr(email),
        "password" := JStr(password), "profileImage" := JNull]
  }

  /** `{...user, name, profileImage}`; spreading `null` adds nothing. */
  function ProfileUpdate(user: Option<Obj>, name: Json, profileImage: Json): (r: Obj)
    ensures r.Keys == (if user.Some? then user.value.Keys else {}) + {"name", "profileImage"}
    ensures r["name"] == name && r["profileImage"] == profileImage
    ensures user.Some? ==> forall k :: k in user.value && k != "name" && k != "profileImage" ==> r[k] == user.value[k]
  {
    (if user.Some? then user.value else map[]) + map["name" := name, "profileImage" := profileImage]
  }

  class AuthContext {
    const store: Store
    /** `usersData.users`, the registry bundled with the app. */
    var users: seq<Obj>
    var user: Option<Obj>
    var loading: bool

    constructor(store: Store, registry: seq<Obj>)
      ensures this.store == store && users == registry && user.None? && loading
    {
      this.store := store;
      users := registry;
      user := None;
      loading := true;
    }

    /** `checkUser`: a stored session is restored; anything else leaves the user as it is. */
    method CheckUser()
      modifies this
      ensures users == old(users) && !loading
      ensures UserKey in store.data && store.data[UserKey].Record? ==> user == Some(store.data[UserKey].fields)
      ensures !(UserKey in store.data && store.data[UserKey].Record?) ==> user == old(user)
    {
      if UserKey in store.data && store.data[UserKey].Record? {
        user := Some(store.data[UserKey].fields);
      }
      loading := false;
    }

    /**
     * `login(email, password)`: the first registered user with both the email
     * and the password becomes the session user, minus the password.
     */
    method Login(email: string, password: string, failure: Option<string>) returns (r: Response<()>)
      modifies this, store
      ensures users == old(users) && loading == old(loading)
      ensures match FindCredentials(users, email, password)
        case None =>
          r == Failure("Invalid credentials") && user == old(user) && store.data == old(store.data)
        case Some(i) =>
          if failure.None? then
            r.Success? && user == Some(WithoutPassword(users[i]))
            && store.data == old(store.data)[UserKey := Record(WithoutPassword(users[i]))]
          else
            r == Failure(failure.value) && user == old(user) && store.data == old(store.data)
    {
      var found := FindCredentials(users, email, password);
      if found.None? {
        r := Failure("Invalid credentials");
      } else {
        var session := WithoutPassword(users[found.value]);
        var err := store.SetItem(UserKey, Record(session), failure);
        if err.Some? {
          r := Failure(err.value);
        } else {
          user := Some(session);
          r := Success(());
        }
      }
    }

    /**
     * `signup(name, email, password)`: a registered email is refused;
     * otherwise the new record is pushed onto the registry (before the write,
     * so even when the write fails) and, once written, becomes the session.
     */
    method Signup(name: string, email: string, password: string, id: string, failure: Option<string>)
      returns (r: Response<()>)
      modifies this, store
      ensures loading == old(loading)
      ensures AnyMatch(old(users), "email", JStr(email)) ==>
        (r == Failure("Email already exists") && users == old(users) && user == old(user)
        && store.data == old(store.data))
      ensures !AnyMatch(old(users), "email", JStr(email)) ==>
        users == old(users) + [NewUser(id, name, email, password)]
      ensures !AnyMatch(old(users), "email", JStr(email)) && failure.None? ==>
        (r.Success? && user == Some(WithoutPassword(NewUser(id, name, email, password)))
        && store.data == old(store.data)[UserKey := Record(WithoutPassword(NewUser(id, name, email, password)))])
      ensures !AnyMatch(old(users), "email", JStr(email)) && failure.Some? ==>
        (r == Failure(failure.value) && user == old(user) && store.data == old(store.data))
    {
      if AnyMatch(users, "email", JStr(email)) {
        r := Failure("Email already exists");
      } else {
        var newUser := NewUser(id, name, email, password);
        users := users + [newUser];
        var session := WithoutPassword(newUser);
        var err := store.SetItem(UserKey, Record(session), failure);
        if err.Some? {
          r := Failure(err.value);
        } else {
          user := Some(session);
          r := Success(());
        }
      }
    }

    /** `logout`: the session key is removed and the user becomes `null`. */
    method Logout(failure: Option<string>) returns (r: Response<()>)
      modifies this, store
      ensures users == old(users) && loading == old(loading)
      ensures failure.None? ==> r.Success? && user.None? && store.data == old(store.data) - {UserKey}
      ensures failure.Some? ==> r == Failure(failure.value) && user == old(user) && store.data == old(store.data)
    {
      var err := store.RemoveItem(UserKey, failure);
      if err.Some? {
        r := Failure(err.value);
      } else {
        user := None;
        r := Success(());
      }
    }

    /** `updateProfile(name, profileImage)`: those two fields replaced, every other one kept. */
    method UpdateProfile(name: Json, profileImage: Json, failure: Option<string>) returns (r: Response<()>)
      modifies this, store
      ensures users == old(users) && loading == old(loading)
      ensures failure.None? ==>
        (r.Success? && user == Some(ProfileUpdate(old(user), name, profileImage))
        && store.data == old(store.data)[UserKey := Record(ProfileUpdate(old(user), name, profileImage))])
      ensures failure.Some? ==> r == Failure(failure.value) && user == old(user) && store.data == old(store.data)
    {
      var updated := ProfileUpdate(user, name, profileImage);
      var err := store.SetItem(UserKey, Record(updated), failure);
      if err.Some? {
        r := Failure(err.value);
      } else {
        user := Some(updated);
        r := Success(());
      }
    }
  }

  // ------------------------------------------------------------------ lemmas

  /** `login` finds a user exactly when some registered user has both the email and the password. */
  lemma LoginFindsIff(users: seq<Obj>, email: string, password: string)
    ensures FindCredentials(users, email, password).Some?
        <==> exists i :: 0 <= i < |users| && HasCredentials(users[i], email, password)
  {
    var r := FindCredentials(users, email, password);
    if r.Some? {
      assert HasCredentials(users[r.value], email, password);
    }
  }

  /** The session user never carries a password. */
  lemma SessionHasNoPassword(u: Obj)
    ensures "password" !in WithoutPassword(u)
  {
  }

  /**
   * Signing up and then logging in with the same email and password finds
   * the new record: the email was not registered before, so no earlier user
   * can match.
   */
  lemma SignupThenLogin(users: seq<Obj>, id: string, name: string, email: string, password: string)
    requires !AnyMatch(users, "email", JStr(email))
    ensures FindCredentials(users + [NewUser(id, name, email, password)], email, password) == Some(|users|)
  {
    var u := NewUser(id, name, email, password);
    var all := users + [u];
    assert forall j :: 0 <= j < |users| ==> !HasCredentials(all[j], email, password) by {
      EarlierUsersDoNotMatch(users, u, email, password);
    }
    assert all[|users|] == u && HasCredentials(u, email, password);
    FindCredentialsAt(all, email, password, |users|);
  }

  lemma EarlierUsersDoNotMatch(users: seq<Obj>, x: Obj, email: string, password: string)
    requires !AnyMatch(users, "email", JStr(email))
    ensures forall j :: 0 <= j < |users| ==> !HasCredentials((users + [x])[j], email, password)
  {
    forall j | 0 <= j < |users|
      ensures !HasCredentials((users + [x])[j], email, password)
    {
      assert (users + [x])[j] == users[j];
      assert !Matches(users[j], "email", JStr(email));
    }
  }

  /** `find` returns index `k` when the user there matches and none before it does. */
  lemma {:induction false} FindCredentialsAt(users: seq<Obj>, email: string, password: string, k: nat)
    requires k < |users| && HasCredentials(users[k], email, password)
    requires forall j :: 0 <= j < k ==> !HasCredentials(users[j], email, password)
    ensures FindCredentials(users, email, password) == Some(k)
  {
    if k > 0 {
      assert !HasCredentials(users[0], email, password);
      forall j | 0 <= j < k - 1
        ensures !HasCredentials(users[1..][j], email, password)
      {
        assert users[1..][j] == users[j + 1];
      }
      FindCredentialsAt(users[1..], email, password, k - 1);
    }
  }
}
