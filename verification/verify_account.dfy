/**
 * The identity-verification form (src/screens/VerifyAccountScreen.js): four
 * text fields held in one `formData` object, a document the user "uploads",
 * and a submission that only checks both are present.
 */
module VerifyAccount {
  import opened Js

  /** The fields of `formData`, in the order `handleSubmit` checks them. */
  const FormFields: seq<string> := ["fullName", "idNumber", "address", "phoneNumber"]

  /** The document `handleDocumentUpload` records once the user picks Upload. */
  function SampleDocument(): Obj
  {
    map["name" := JStr("sample_document.jpg")]
  }

  /** What `handleSubmit` shows. */
  datatype VerifyOutcome = FillAlert | DocumentAlert | Submitted

  /** Some checked field of the form is falsy; when none is, all four are present. */
  predicate MissingField(formData: Obj)
    ensures !MissingField(formData) ==>
      "fullName" in formData && "idNumber" in formData && "address" in formData && "phoneNumber" in formData
  {
    assert FormFields[0] == "fullName" && FormFields[1] == "idNumber";
    assert FormFields[2] == "address" && FormFields[3] == "phoneNumber";
    assert Truthy(Prop(formData, "fullName")) ==> "fullName" in formData;
    assert Truthy(Prop(formData, "idNumber")) ==> "idNumber" in formData;
    assert Truthy(Prop(formData, "address")) ==> "address" in formData;
    assert Truthy(Prop(formData, "phoneNumber")) ==> "phoneNumber" in formData;
    exists f :: f in FormFields && !Truthy(Prop(formData, f))
  }

  /** `handleSubmit`, which only alerts: the fields are checked first, then the document. */
  function SubmitOutcome(formData: Obj, document: Option<Obj>): (r: VerifyOutcome)
    ensures r == FillAlert <==> MissingField(formData)
    ensures r == DocumentAlert <==> !MissingField(formData) && document.None?
    ensures r == Submitted <==> (forall f :: f in FormFields ==> Truthy(Prop(formData, f))) && document.Some?
  {
    if !Truthy(Prop(formData, "fullName")) || !Truthy(Prop(formData, "idNumber"))
      || !Truthy(Prop(formData, "address")) || !Truthy(Prop(formData, "phoneNumber")) then
      assert MissingField(formData) by {
        if !Truthy(Prop(formData, "fullName")) { assert "fullName" in FormFields; }
        else if !Truthy(Prop(formData, "idNumber")) { assert "idNumber" in FormFields; }
        else if !Truthy(Prop(formData, "address")) { assert "address" in FormFields; }
        else { assert "phoneNumber" in FormFields; }
      }
      FillAlert
    else if document.None? then DocumentAlert
    else Submitted
  }

  class VerifyAccountScreen {
    /** Shown on the screen; nothing ever changes it. */
    const verificationStatus: string
    var document: Option<Obj>
    var formData: Obj

    constructor()
      ensures verificationStatus == "pending" && document.None?
      ensures formData.Keys == {"fullName", "idNumber", "address", "phoneNumber"}
      ensures forall f :: f in formData ==> formData[f] == JStr("")
    {
      verificationStatus := "pending";
      document := None;
      formData := map["fullName" := JStr(""), "idNumber" := JStr(""), "address" := JStr(""), "phoneNumber" := JStr("")];
    }

    /** `handleInputChange(field, value)`: that one field set, every other kept. */
    method HandleInputChange(field: string, value: string)
      modifies this
      ensures document == old(document)
      ensures formData.Keys == old(formData).Keys + {field} && formData[field] == JStr(value)
      ensures forall f :: f in old(formData) && f != field ==> formData[f] == old(formData)[f]
    {
      formData := formData[field := JStr(value)];
    }

    /** `handleDocumentUpload`: the sample document is recorded when the user confirms; Cancel changes nothing. */
    method HandleDocumentUpload(confirmed: bool)
      modifies this
      ensures formData == old(formData)
      ensures confirmed ==> document == Some(SampleDocument())
      ensures !confirmed ==> document == old(document)
    {
      if confirmed {
        document := Some(SampleDocument());
      }
    }
  }

  // ------------------------------------------------------------------ lemmas

  /** Typing into all four fields and uploading the document makes the submission go through, whatever the form held before. */
  lemma FilledFormSubmits(formData: Obj, a: string, b: string, c: string, d: string)
    requires a != [] && b != [] && c != [] && d != []
    ensures var filled := formData["fullName" := JStr(a)]["idNumber" := JStr(b)]["address" := JStr(c)]["phoneNumber" := JStr(d)];
      SubmitOutcome(filled, Some(SampleDocument())) == Submitted
  {
    var filled := formData["fullName" := JStr(a)]["idNumber" := JStr(b)]["address" := JStr(c)]["phoneNumber" := JStr(d)];
    forall f | f in FormFields
      ensures Truthy(Prop(filled, f))
    {
    }
  }

  /** Without a document the fields decide nothing more: an empty field is still reported first. */
  lemma FieldsCheckedBeforeDocument(formData: Obj)
    requires Prop(formData, "address") == JStr("")
    ensures SubmitOutcome(formData, None) == FillAlert
    ensures SubmitOutcome(formData, Some(SampleDocument())) == FillAlert
  {
    assert "address" in FormFields;
  }
}
