/** The signed-in user as the authentication context hands it to the
    screens, and the school-id guard four screens run before any request. */
module Session {
  import opened Outcomes

  /** The user record kept by the authentication context. */
  datatype User = User(
    id: string,
    name: string,
    email: string,
    role: string,
    school: string,
    mobile: Option<string>,
    registrationId: Option<string>,
    isActive: Option<bool>)

  /** `[0-9a-fA-F]`. */
  predicate IsHexDigit(c: char) {
    ('0' <= c <= '9') || ('a' <= c <= 'f') || ('A' <= c <= 'F')
  }

  /** `/^[0-9a-fA-F]{24}$/.test(s)`: a MongoDB object id. */
  predicate IsMongoId(s: string) {
    |s| == 24 && forall i :: 0 <= i < |s| ==> IsHexDigit(s[i])
  }

  const SchoolMissing := Alert("Error", "School information not available. Please log out and log in again.")
  const SchoolInvalid := Alert("Error", "School ID is not valid. Please log out and log in again.")

  /** The guard `if (!user || !user.school) ... ; if (!isValidMongoId) ...`:
      `None` lets the request go ahead, otherwise the alert shown instead. */
  function SchoolCheck(user: Option<User>): (r: Option<Alert>)
    ensures r.None? <==> user.Some? && IsMongoId(user.value.school)
    ensures r == Some(SchoolMissing) <==> user.None? || user.value.school == ""
    ensures r == Some(SchoolInvalid) <==> user.Some? && user.value.school != "" && !IsMongoId(user.value.school)
  {
    if user.None? || user.value.school == "" then Some(SchoolMissing)
    else if !IsMongoId(user.value.school) then Some(SchoolInvalid)
    else None
  }
}
