/** The ClassroomDetails screen in its create and edit forms: the class-name
    check, the guards run before a request, the request bodies, the
    submit-button rule and the student-count line of the details view. */
module ClassroomDetails {
  import opened Outcomes
  import opened JsString
  import opened Decimal
  import opened Session

  const NameRequired := "Class name is required"
  const UserMissing := Alert("Error", "User information not available. Please log out and log in again.")
  const LoadFailed := "Could not load classroom details"

  /** The guards of the submit button, in order: a user with an `_id`, then
      a school, then a 24-hex-digit school id. */
  function SubmitGuard(user: Option<User>): (a: Option<Alert>)
    ensures a.None? <==> user.Some? && user.value.id != "" && IsMongoId(user.value.school)
    ensures (user.None? || user.value.id == "") ==> a == Some(UserMissing)
    ensures user.Some? && user.value.id != "" ==> a == SchoolCheck(user)
  {
    if user.None? || user.value.id == "" then Some(UserMissing)
    else if user.value.school == "" then Some(SchoolMissing)
    else if !IsMongoId(user.value.school) then Some(SchoolInvalid)
    else None
  }

  /** The bodies of `POST /classrooms` and `PATCH /classrooms/{id}`. */
  datatype ClassroomBody =
    | CreateBody(name: string, description: string, teacherId: string, schoolId: string)
    | UpdateBody(name: string, description: string)

  /** The fields of `GET /classrooms/{id}` the form and the details use. */
  datatype ClassroomData = ClassroomData(name: Option<string>, description: Option<string>, studentIds: seq<string>)

  /** The body sent: both fields trimmed; a new class also names the user
      as its teacher and the user's school. */
  function RequestBody(isNew: bool, className: string, description: string, user: User): (b: ClassroomBody)
    ensures b.name == Trim(className) && b.description == Trim(description)
    ensures b.CreateBody? <==> isNew
    ensures b.CreateBody? ==> b.teacherId == user.id && b.schoolId == user.school
  {
    if isNew then CreateBody(Trim(className), Trim(description), user.id, OrElse(user.school, ""))
    else UpdateBody(Trim(className), Trim(description))
  }

  /** The alert after the request: a fixed text per mode and outcome. */
  function SubmitAlert(isNew: bool, posted: Result<()>): Alert {
    match (isNew, posted.Ok?)
    case (true, true) => Alert("Success", "Classroom created successfully")
    case (true, false) => Alert("Error", "Failed to create classroom. Please try again.")
    case (false, true) => Alert("Success", "Classroom updated successfully")
    case (false, false) => Alert("Error", "Failed to update classroom. Please try again.")
  }

  /** `disabled={isSubmitting || !className.trim()}`. */
  predicate ButtonDisabled(isSubmitting: bool, className: string) {
    isSubmitting || IsBlank(className)
  }

  /** The line under "Students" in the details view. */
  function StudentCountText(n: nat): string {
    if n > 0 then "This classroom has " + NatToString(n) + " student" + (if n > 1 then "s" else "") + "."
    else "No students in this class yet."
  }

  /** The empty class has its own sentence; otherwise the count is spelled
      out and the plural is used exactly above one. */
  lemma StudentCountTextCases(n: nat)
    ensures n == 0 <==> StudentCountText(n) == "No students in this class yet."
    ensures n == 1 ==> StudentCountText(n) == "This classroom has 1 student."
    ensures n > 1 ==> StudentCountText(n) == "This classroom has " + NatToString(n) + " students."
  {
    if n > 0 {
      var t := StudentCountText(n);
      assert t == "This classroom has " + (NatToString(n) + " student" + (if n > 1 then "s" else "") + ".");
      assert t[0] == 'T';
      assert "No students in this class yet."[0] == 'N';
    }
    if n == 1 {
      assert NatToString(1) == "1";
    }
  }

  /** The form's state. `isNew` and `classId` come from the route. */
  class ClassForm {
    const isNew: bool
    const classId: Option<string>
    var className: string
    var description: string
    var nameError: string
    var isSubmitting: bool
    var error: string

    constructor(isNew: bool, classId: Option<string>)
      ensures this.isNew == isNew && this.classId == classId
      ensures className == "" && description == "" && nameError == "" && !isSubmitting && error == ""
    {
      this.isNew := isNew;
      this.classId := classId;
      className, description, nameError, isSubmitting, error := "", "", "", false, "";
    }

    /** `fetchClassroomDetails` when editing: the form takes the stored name
      and description (missing or empty ones as ""); a failed fetch records
      the load error instead. */
    method LoadForEdit(fetched: Result<ClassroomData>)
      modifies this
      ensures fetched.Ok? ==> className == OptionOrElse(fetched.value.name, "") && description == OptionOrElse(fetched.value.description, "")
      ensures fetched.Ok? ==> error == old(error)
      ensures fetched.Err? ==> className == old(className) && description == old(description) && error == LoadFailed
      ensures nameError == old(nameError) && isSubmitting == old(isSubmitting)
    {
      match fetched {
        case Ok(data) =>
          className := OptionOrElse(data.name, "");
          description := OptionOrElse(data.description, "");
        case Err(_) =>
          error := LoadFailed;
      }
    }

    /** `validateForm`. */
    method ValidateForm() returns (isValid: bool)
      modifies this
      ensures isValid <==> !IsBlank(className)
      ensures nameError == (if IsBlank(className) then NameRequired else "")
      ensures className == old(className) && description == old(description)
      ensures isSubmitting == old(isSubmitting) && error == old(error)
    {
      isValid := true;
      if IsBlank(className) {
        nameError := NameRequired;
        isValid := false;
      } else {
        nameError := "";
      }
    }

    /** Typing a class name clears the error once the name is not blank; a
      blank name keeps whatever error was shown. */
    method ChangeClassName(text: string)
      modifies this
      ensures className == text && description == old(description)
      ensures nameError == (if IsBlank(text) then old(nameError) else "")
      ensures isSubmitting == old(isSubmitting) && error == old(error)
    {
      className := text;
      if !IsBlank(text) {
        nameError := "";
      }
    }

    /** The submit button: validation, the three guards, then a POST when
      creating or a PATCH when editing, both with trimmed fields. `posted`
      is the request's outcome through `handleApiResponse`; its message is
      not shown. */
    method Submit(user: Option<User>, posted: Result<()>) returns (request: Option<ClassroomBody>, alert: Option<Alert>)
      modifies this
      ensures className == old(className) && description == old(description) && error == old(error)
      ensures nameError == (if IsBlank(className) then NameRequired else "")
      ensures request.Some? <==> !IsBlank(className) && SubmitGuard(user).None?
      ensures !ButtonDisabled(old(isSubmitting), className) ==>
                nameError == "" && (request.Some? <==> SubmitGuard(user).None?)
      ensures request.None? ==> isSubmitting == old(isSubmitting)
      ensures request.None? ==> alert == (if IsBlank(className) then None else SubmitGuard(user))
      ensures request.Some? ==>
                && !isSubmitting
                && request.value == RequestBody(isNew, className, description, user.value)
                && alert == Some(SubmitAlert(isNew, posted))
    {
      var ok := ValidateForm();
      if !ok {
        return None, None;
      }
      var guard := SubmitGuard(user);
      if guard.Some? {
        return None, guard;
      }
      isSubmitting := true;
      request := Some(RequestBody(isNew, className, description, user.value));
      alert := Some(SubmitAlert(isNew, posted));
      isSubmitting := false;
    }
  }
}
