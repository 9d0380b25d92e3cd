/**
 * The profile screen (src/screens/ProfileScreen.js): the editable name and
 * photo, saved through `updateProfile`, and the phone number and address,
 * kept on the device under `userProfile_<user id>`.
 */
module Profile {
  import opened Js
  import opened JsNumber
  import opened Storage
  import opened Auth

  /** `user?.f` */
  function OptionalProp(user: Option<Obj>, f: string): (r: Json)
    ensures user.None? ==> r == JUndefined
    ensures user.Some? ==> r == Prop(user.value, f)
  {
    if user.Some? then Prop(user.value, f) else JUndefined
  }

  /** `` `userProfile_${user.id}` ``: `None` when there is no user and reading `user.id` throws. */
  function ProfileKey(user: Option<Obj>): (k: Option<string>)
    ensures user.None? <==> k.None?
    ensures k.Some? ==> k.value == "userProfile_" + ToJsString(Prop(user.value, "id"))
  {
    if user.Some? then Some("userProfile_" + ToJsString(Prop(user.value, "id"))) else None
  }

  /** The record `saveUserProfile` writes: exactly the phone number and the address. */
  function ContactRecord(phone: Json, address: Json): (r: Obj)
    ensures r.Keys == {"phone", "address"} && r["phone"] == phone && r["address"] == address
  {
    map["phone" := phone, "address" := address]
  }

  /** `(field || '')` of the parsed record; a stored list has no such field. */
  function LoadedField(s: Stored, f: string): (r: Json)
    requires !s.Malformed?
    ensures s.Items? ==> r == JStr("")
    ensures s.Record? ==> r == Or(Prop(s.fields, f), JStr(""))
  {
    if s.Record? then Or(Prop(s.fields, f), JStr("")) else JStr("")
  }

  class ProfileScreen {
    const auth: AuthContext
    var isEditing: bool
    var name: Json
    var profileImage: Json
    var error: string
    var isEditingPhone: bool
    var isEditingAddress: bool
    var phoneNumber: Json
    var address: Json
    var loading: bool

    constructor(auth: AuthContext)
      ensures this.auth == auth && !isEditing && !isEditingPhone && !isEditingAddress && !loading
      ensures name == Or(OptionalProp(auth.user, "name"), JStr(""))
      ensures profileImage == Or(OptionalProp(auth.user, "profileImage"), JNull)
      ensures error == "" && phoneNumber == JStr("") && address == JStr("")
    {
      this.auth := auth;
      isEditing := false;
      name := Or(OptionalProp(auth.user, "name"), JStr(""));
      profileImage := Or(OptionalProp(auth.user, "profileImage"), JNull);
      error := "";
      isEditingPhone := false;
      isEditingAddress := false;
      phoneNumber := JStr("");
      address := JStr("");
      loading := false;
    }

    /**
     * `loadUserProfile`: a stored record sets the phone number and address,
     * `''` standing in for a missing or falsy one; a missing key, a missing
     * user or a value that does not parse changes nothing.
     */
    method LoadUserProfile()
      modifies this
      ensures isEditing == old(isEditing) && name == old(name) && profileImage == old(profileImage)
      ensures error == old(error) && loading == old(loading)
      ensures isEditingPhone == old(isEditingPhone) && isEditingAddress == old(isEditingAddress)
      ensures var k := ProfileKey(auth.user);
        if k.Some? && k.value in auth.store.data && !auth.store.data[k.value].Malformed? then
          phoneNumber == LoadedField(auth.store.data[k.value], "phone")
          && address == LoadedField(auth.store.data[k.value], "address")
        else
          phoneNumber == old(phoneNumber) && address == old(address)
    {
      var k := ProfileKey(auth.user);
      if k.Some? && k.value in auth.store.data && !auth.store.data[k.value].Malformed? {
        var s := auth.store.data[k.value];
        phoneNumber := LoadedField(s, "phone");
        address := LoadedField(s, "address");
      }
    }

    /**
     * `saveUserProfile`: exactly `{phone, address}` is written under the
     * user's key and both field editors close; a missing user or a failed
     * write changes nothing but raises an alert. Not loading afterwards.
     */
    method SaveUserProfile(failure: Option<string>) returns (saved: bool)
      modifies this, auth.store
      ensures isEditing == old(isEditing) && name == old(name) && profileImage == old(profileImage)
      ensures error == old(error) && phoneNumber == old(phoneNumber) && address == old(address)
      ensures !loading
      ensures saved <==> auth.user.Some? && failure.None?
      ensures saved ==>
        (auth.store.data == old(auth.store.data)[ProfileKey(auth.user).value := Record(ContactRecord(phoneNumber, address))]
        && !isEditingPhone && !isEditingAddress)
      ensures !saved ==>
        (auth.store.data == old(auth.store.data)
        && isEditingPhone == old(isEditingPhone) && isEditingAddress == old(isEditingAddress))
    {
      loading := true;
      var k := ProfileKey(auth.user);
      saved := false;
      if k.Some? {
        var err := auth.store.SetItem(k.value, Record(ContactRecord(phoneNumber, address)), failure);
        if err.None? {
          isEditingPhone := false;
          isEditingAddress := false;
          saved := true;
        }
      }
      loading := false;
    }

    /**
     * `handleSave`: a name that trims to nothing sets the error and nothing
     * is saved; a name that is no string makes `trim` throw and nothing
     * happens; otherwise `updateProfile(name, profileImage)`, and on success
     * edit mode ends and the error is cleared, on failure the error is the
     * store's.
     */
    method HandleSave(failure: Option<string>)
      modifies this, auth, auth.store
      ensures name == old(name) && profileImage == old(profileImage)
      ensures phoneNumber == old(phoneNumber) && address == old(address)
      ensures isEditingPhone == old(isEditingPhone) && isEditingAddress == old(isEditingAddress)
      ensures auth.users == old(auth.users)
      ensures !name.JStr? ==>
        (isEditing == old(isEditing) && error == old(error)
        && auth.user == old(auth.user) && auth.store.data == old(auth.store.data))
      ensures name.JStr? && Trim(name.s) == "" ==>
        (error == "Name cannot be empty" && isEditing == old(isEditing)
        && auth.user == old(auth.user) && auth.store.data == old(auth.store.data))
      ensures name.JStr? && Trim(name.s) != "" && failure.None? ==>
        (!isEditing && error == ""
        && auth.user == Some(ProfileUpdate(old(auth.user), name, profileImage))
        && auth.store.data == old(auth.store.data)[UserKey := Record(ProfileUpdate(old(auth.user), name, profileImage))])
      ensures name.JStr? && Trim(name.s) != "" && failure.Some? ==>
        (error == failure.value && isEditing == old(isEditing)
        && auth.user == old(auth.user) && auth.store.data == old(auth.store.data))
    {
      if !name.JStr? {
        return;
      }
      if Trim(name.s) == "" {
        error := "Name cannot be empty";
        return;
      }
      var r := auth.UpdateProfile(name, profileImage, failure);
      if r.Success? {
        isEditing := false;
        error := "";
      } else {
        error := r.error;
      }
    }

    /** The Cancel button: edit mode ends, the name and photo go back to the session user's, the error is cleared. */
    method Cancel()
      modifies this
      ensures !isEditing && error == ""
      ensures name == Or(OptionalProp(auth.user, "name"), JStr(""))
      ensures profileImage == Or(OptionalProp(auth.user, "profileImage"), JNull)
      ensures phoneNumber == old(phoneNumber) && address == old(address)
      ensures isEditingPhone == old(isEditingPhone) && isEditingAddress == old(isEditingAddress)
      ensures loading == old(loading)
    {
      isEditing := false;
      name := Or(OptionalProp(auth.user, "name"), JStr(""));
      profileImage := Or(OptionalProp(auth.user, "profileImage"), JNull);
      error := "";
    }
  }

  // ------------------------------------------------------------------ lemmas

  /** Loading what was saved gives back the phone number and the address, as long as each was text. */
  lemma LoadAfterSave(phone: string, address: string)
    ensures LoadedField(Record(ContactRecord(JStr(phone), JStr(address))), "phone") == JStr(phone)
    ensures LoadedField(Record(ContactRecord(JStr(phone), JStr(address))), "address") == JStr(address)
  {
  }

  /**
   * After a successful save, Cancel shows what was saved: the new name (which
   * is non-empty text) and the new photo, unless that photo is falsy, which
   * Cancel shows as `null`.
   */
  lemma CancelAfterSaveShowsSaved(user: Option<Obj>, name: string, profileImage: Json)
    requires Trim(name) != ""
    ensures var saved := Some(ProfileUpdate(user, JStr(name), profileImage));
      Or(OptionalProp(saved, "name"), JStr("")) == JStr(name)
      && Or(OptionalProp(saved, "profileImage"), JNull) == (if Truthy(profileImage) then profileImage else JNull)
  {
    assert name != "";
  }
}
