/** The EditStudent screen: the form loaded from a stored student, its
    validation, the PATCH payload of the fields that changed, and the
    alerts for the outcome. */
module EditStudent {
  import opened Outcomes
  import opened JsString

  /** The parent fields under `additionalInfo`. */
  datatype AdditionalInfo = AdditionalInfo(parentLanguage: Option<string>, parentOccupation: Option<string>)

  /** The student `GET /users/{id}` returns; any field may be missing. The
      parent fields are read from `additionalInfo` when loading and from
      the top level when comparing. */
  datatype StoredStudent = StoredStudent(
    name: Option<string>,
    mobile: Option<string>,
    parentLanguage: Option<string>,
    parentOccupation: Option<string>,
    additionalInfo: Option<AdditionalInfo>)

  /** The PATCH payload: a field is `None` when its key is absent, and
      `Some(None)` when the key is present with the value `undefined`. */
  datatype Payload = Payload(
    name: Option<string>,
    mobile: Option<string>,
    parentLanguage: Option<Option<string>>,
    parentOccupation: Option<Option<string>>)

  /** `Object.keys(payload).length === 0`. */
  predicate IsEmptyPayload(p: Payload) {
    p.name.None? && p.mobile.None? && p.parentLanguage.None? && p.parentOccupation.None?
  }

  const CountryCode := "+91"

  const NameRequired := "Name is required"
  const MobileRequired := "Mobile number is required"
  const MobileTooShort := "Please enter a valid 10-digit mobile number"

  /** The name error `validateForm` sets. */
  function NameError(name: string): (e: string)
    ensures e == "" <==> !IsBlank(name)
    ensures e != "" ==> e == NameRequired
  {
    if IsBlank(name) then NameRequired else ""
  }

  /** The mobile error `validateForm` sets: required when blank, too short
      when fewer than ten characters remain after trimming. */
  function MobileError(mobile: string): (e: string)
    ensures e == "" <==> !IsBlank(mobile) && |Trim(mobile)| >= 10
    ensures IsBlank(mobile) ==> e == MobileRequired
    ensures !IsBlank(mobile) && |Trim(mobile)| < 10 ==> e == MobileTooShort
  {
    if IsBlank(mobile) then MobileRequired
    else if |Trim(mobile)| < 10 then MobileTooShort
    else ""
  }

  /** `x !== stored` where a missing stored field is `undefined`. */
  predicate Differs(x: string, stored: Option<string>) {
    stored.None? || stored.value != x
  }

  /** `s || undefined`: the empty string becomes `undefined`. */
  function OrUndefined(s: string): (r: Option<string>)
    ensures r.None? <==> s == ""
    ensures r.Some? ==> r.value == s
  {
    if s == "" then None else Some(s)
  }

  /** The fields of the form once `fetchStudentData` has filled them. */
  datatype Fields = Fields(name: string, mobile: string, parentLanguage: string, parentOccupation: string)

  function InfoLanguage(data: StoredStudent): Option<string> {
    if data.additionalInfo.Some? then data.additionalInfo.value.parentLanguage else None
  }

  function InfoOccupation(data: StoredStudent): Option<string> {
    if data.additionalInfo.Some? then data.additionalInfo.value.parentOccupation else None
  }

  /** The form filled from the stored student: the mobile shown has its
      first `+91` removed; the parent fields come from `additionalInfo`. */
  function LoadedFields(data: StoredStudent): (f: Fields)
    ensures f.name == OptionOrElse(data.name, "")
    ensures data.mobile.Some? && data.mobile.value != "" ==> f.mobile == RemoveFirst(data.mobile.value, CountryCode)
    ensures data.mobile.None? || data.mobile.value == "" ==> f.mobile == ""
    ensures f.parentLanguage == OptionOrElse(InfoLanguage(data), "")
    ensures f.parentOccupation == OptionOrElse(InfoOccupation(data), "")
  {
    Fields(
      OptionOrElse(data.name, ""),
      if data.mobile.Some? && data.mobile.value != "" then RemoveFirst(data.mobile.value, CountryCode) else "",
      OptionOrElse(InfoLanguage(data), ""),
      OptionOrElse(InfoOccupation(data), ""))
  }

  /** The payload of `handleUpdateStudent`, for a stored student that has a
      mobile (without one the comparison throws). Each field is included
      exactly when it differs from the stored value. */
  function BuildPayload(f: Fields, data: StoredStudent): (p: Payload)
    requires data.mobile.Some?
    ensures p.name.Some? <==> Differs(f.name, data.name)
    ensures p.name.Some? ==> p.name.value == Trim(f.name)
    ensures p.mobile.Some? <==> f.mobile != RemoveFirst(data.mobile.value, CountryCode)
    ensures p.mobile.Some? ==> p.mobile.value == CountryCode + Trim(f.mobile)
    ensures p.parentLanguage.Some? <==> Differs(f.parentLanguage, data.parentLanguage)
    ensures p.parentLanguage.Some? ==> p.parentLanguage.value == OrUndefined(f.parentLanguage)
    ensures p.parentOccupation.Some? <==> Differs(f.parentOccupation, data.parentOccupation)
    ensures p.parentOccupation.Some? ==> p.parentOccupation.value == OrUndefined(Trim(f.parentOccupation))
  {
    Payload(
      if Differs(f.name, data.name) then Some(Trim(f.name)) else None,
      if f.mobile != RemoveFirst(data.mobile.value, CountryCode) then Some(CountryCode + Trim(f.mobile)) else None,
      if Differs(f.parentLanguage, data.parentLanguage) then Some(OrUndefined(f.parentLanguage)) else None,
      if Differs(f.parentOccupation, data.parentOccupation) then Some(OrUndefined(Trim(f.parentOccupation))) else None)
  }

  /** The keys `JSON.stringify` writes: those whose value is not `undefined`. */
  function SentKeys(p: Payload): set<string> {
    (if p.name.Some? then {"name"} else {}) +
    (if p.mobile.Some? then {"mobile"} else {}) +
    (if p.parentLanguage.Some? && p.parentLanguage.value.Some? then {"parentLanguage"} else {}) +
    (if p.parentOccupation.Some? && p.parentOccupation.value.Some? then {"parentOccupation"} else {})
  }

  /** The alert for an error thrown by the PATCH (or earlier): permission
      first, then not-found, then the message itself or a fallback. */
  function ClassifyError(message: Option<string>): (a: Alert)
    ensures message.Some? && (Contains(message.value, "forbidden") || Contains(message.value, "403")) ==>
              a == Alert("Permission Denied", "You can only update students in your school.")
    ensures message.Some? && !(Contains(message.value, "forbidden") || Contains(message.value, "403")) &&
            (Contains(message.value, "not found") || Contains(message.value, "404")) ==>
              a == Alert("Not Found", "The student record could not be found.")
    ensures message.None? ==> a == Alert("Error", "Failed to update student. Please try again.")
    ensures message.Some? && !Contains(message.value, "forbidden") && !Contains(message.value, "403") &&
            !Contains(message.value, "not found") && !Contains(message.value, "404") ==>
              a == Alert("Error", OrElse(message.value, "Failed to update student. Please try again."))
  {
    if message.Some? && (Contains(message.value, "forbidden") || Contains(message.value, "403")) then
      Alert("Permission Denied", "You can only update students in your school.")
    else if message.Some? && (Contains(message.value, "not found") || Contains(message.value, "404")) then
      Alert("Not Found", "The student record could not be found.")
    else
      Alert("Error", OptionOrElse(message, "Failed to update student. Please try again."))
  }

  /** What `handleUpdateStudent` does after validation. */
  datatype UpdatePlan =
    | Invalid
    | Crashed
    | NoChanges
    | Patch(payload: Payload)

  const NoChangesAlert := Alert("No Changes", "No changes were made to the student data.")

  /** A form loaded from a student whose stored fields agree with what was
      loaded sends no PATCH. */
  lemma UntouchedFormHasNoChanges(data: StoredStudent)
    requires data.name.Some? && data.mobile.Some?
    requires data.parentLanguage == Some(OptionOrElse(InfoLanguage(data), ""))
    requires data.parentOccupation == Some(OptionOrElse(InfoOccupation(data), ""))
    ensures IsEmptyPayload(BuildPayload(LoadedFields(data), data))
  {
    var m := data.mobile.value;
    if m == "" {
      assert RemoveFirst("", CountryCode) == "" by {
        assert forall j :: 0 <= j ==> !OccursAt("", CountryCode, j);
      }
    }
  }

  /** When the stored student has no top-level `parentLanguage` (the loaded
      value comes from `additionalInfo`), the `parentLanguage` key is
      always in the payload, so "No Changes" is never reached; if the field
      is empty that key holds `undefined` and the PATCH body may be `{}`. */
  lemma MissingTopLevelLanguageAlwaysChanges(f: Fields, data: StoredStudent)
    requires data.mobile.Some? && data.parentLanguage.None?
    ensures !IsEmptyPayload(BuildPayload(f, data))
    ensures f.parentLanguage == "" ==> "parentLanguage" !in SentKeys(BuildPayload(f, data))
  {
  }

  /** A stored mobile `+91<rest>` is shown as `<rest>`, and saving an
      already trimmed `<rest>` writes back the stored number. */
  lemma MobileRoundTrip(rest: string)
    requires Trim(rest) == rest
    ensures RemoveFirst(CountryCode + rest, CountryCode) == rest
    ensures CountryCode + Trim(RemoveFirst(CountryCode + rest, CountryCode)) == CountryCode + rest
  {
    RemoveFirstOfPrefixed(CountryCode, rest);
  }

  /** The form's state. */
  class StudentForm {
    const studentId: string
    var studentData: Option<StoredStudent>
    var name: string
    var mobile: string
    var parentLanguage: string
    var parentOccupation: string
    var nameError: string
    var mobileError: string

    constructor(studentId: string)
      ensures this.studentId == studentId && studentData.None?
      ensures name == "" && mobile == "" && parentLanguage == "" && parentOccupation == ""
      ensures nameError == "" && mobileError == ""
    {
      this.studentId := studentId;
      studentData := None;
      name, mobile, parentLanguage, parentOccupation := "", "", "", "";
      nameError, mobileError := "", "";
    }

    function CurrentFields(): Fields
      reads this
    {
      Fields(name, mobile, parentLanguage, parentOccupation)
    }

    /** `fetchStudentData` once the student has been fetched. */
    method Load(data: StoredStudent)
      modifies this
      ensures studentData == Some(data) && CurrentFields() == LoadedFields(data)
      ensures nameError == old(nameError) && mobileError == old(mobileError)
    {
      studentData := Some(data);
      name := OptionOrElse(data.name, "");
      mobile := if data.mobile.Some? && data.mobile.value != "" then RemoveFirst(data.mobile.value, CountryCode) else "";
      parentLanguage := OptionOrElse(InfoLanguage(data), "");
      parentOccupation := OptionOrElse(InfoOccupation(data), "");
    }

    /** `validateForm`: both checks run and set their error; the form is
      valid exactly when neither error is set. */
    method ValidateForm() returns (isValid: bool)
      modifies this
      ensures nameError == NameError(name) && mobileError == MobileError(mobile)
      ensures isValid <==> nameError == "" && mobileError == ""
      ensures CurrentFields() == old(CurrentFields()) && studentData == old(studentData)
    {
      isValid := true;
      nameError := NameError(name);
      if nameError != "" {
        isValid := false;
      }
      mobileError := MobileError(mobile);
      if mobileError != "" {
        isValid := false;
      }
    }

    /** `handleUpdateStudent`: validate, read the stored student (a missing
      student or mobile throws), build the payload, stop when it is empty,
      and otherwise PATCH it. `patched` is the PATCH's outcome and
      `crashMessage` the text of the exception a missing field raises. */
    method HandleUpdateStudent(patched: Result<()>, crashMessage: string) returns (plan: UpdatePlan, alert: Option<Alert>)
      modifies this
      ensures nameError == NameError(name) && mobileError == MobileError(mobile)
      ensures CurrentFields() == old(CurrentFields()) && studentData == old(studentData)
      ensures (NameError(name) != "" || MobileError(mobile) != "") ==> plan == Invalid && alert.None?
      ensures NameError(name) == "" && MobileError(mobile) == "" ==>
                if studentData.None? || studentData.value.mobile.None? then
                  plan == Crashed && alert == Some(ClassifyError(Some(crashMessage)))
                else if IsEmptyPayload(BuildPayload(CurrentFields(), studentData.value)) then
                  plan == NoChanges && alert == Some(NoChangesAlert)
                else
                  && plan == Patch(BuildPayload(CurrentFields(), studentData.value))
                  && alert == Some(if patched.Ok? then Alert("Success", "Student " + name + " has been updated successfully.")
                                   else ClassifyError(Some(patched.message)))
    {
      var ok := ValidateForm();
      if !ok {
        return Invalid, None;
      }
      if studentData.None? || studentData.value.mobile.None? {
        return Crashed, Some(ClassifyError(Some(crashMessage)));
      }
      var payload := BuildPayload(CurrentFields(), studentData.value);
      if IsEmptyPayload(payload) {
        return NoChanges, Some(NoChangesAlert);
      }
      plan := Patch(payload);
      if patched.Ok? {
        alert := Some(Alert("Success", "Student " + name + " has been updated successfully."));
      } else {
        alert := Some(ClassifyError(Some(patched.message)));
      }
    }
  }
}
