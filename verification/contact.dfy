/**
 * The contact form (src/screens/ContactScreen.js): name, email and message,
 * a confirmation modal and an error line.
 */
module Contact {
  import opened Js

  /** `!name || !email || !message` does not hold: every field has some text, white space included. */
  predicate Complete(name: string, email: string, message: string)
    ensures Complete(name, email, message) <==> |name| > 0 && |email| > 0 && |message| > 0
  {
    Truthy(JStr(name)) && Truthy(JStr(email)) && Truthy(JStr(message))
  }

  class ContactScreen {
    var name: string
    var email: string
    var message: string
    var showModal: bool
    var error: string

    constructor()
      ensures name == "" && email == "" && message == "" && !showModal && error == ""
    {
      name := "";
      email := "";
      message := "";
      showModal := false;
      error := "";
    }

    /**
     * `handleSubmit`: an empty field sets the error; otherwise the modal
     * opens. Nothing clears an earlier error, and the fields are kept.
     */
    method HandleSubmit()
      modifies this
      ensures name == old(name) && email == old(email) && message == old(message)
      ensures !Complete(name, email, message) ==>
        error == "Please fill in all fields" && showModal == old(showModal)
      ensures Complete(name, email, message) ==> showModal && error == old(error)
    {
      if !Truthy(JStr(name)) || !Truthy(JStr(email)) || !Truthy(JStr(message)) {
        error := "Please fill in all fields";
      } else {
        showModal := true;
      }
    }
  }
}
