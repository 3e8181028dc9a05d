/** The EditProfile screen: the signed-in user's name, e-mail and mobile,
    their validation, and the user record stored after a successful PUT. */
module EditProfile {
  import opened Outcomes
  import opened JsString
  import opened Decimal
  import opened Session

  /** The keys of the `errors` object. */
  datatype Field = Name | Email | Mobile

  predicate NoWhitespace(s: string) {
    forall k :: 0 <= k < |s| ==> !IsJsWhitespace(s[k])
  }

  /** `/^\S+@\S+\.\S+$/` matches with the `@` at `i` and the escaped dot at
      `j`; `\S` matches every other character of the input. */
  ghost predicate EmailMatchesAt(s: string, i: int, j: int) {
    && 0 < i && i + 1 < j && j + 1 < |s|
    && s[i] == '@' && s[j] == '.'
    && NoWhitespace(s)
  }

  ghost predicate EmailPattern(s: string) {
    exists i, j :: EmailMatchesAt(s, i, j)
  }

  /** The check computed directly: no whitespace, an `@` after the first
      character, and a dot after the character that follows that `@`,
      with something after the dot. Taking the first such `@` leaves the
      most room for the dot. */
  predicate IsEmail(s: string) {
    && NoWhitespace(s)
    && |s| >= 5
    && var at := IndexOf(s[1..], "@");
    && at.Some?
    && var i := at.value + 1;
    && i + 3 <= |s|
    && Contains(s[i + 2..|s| - 1], ".")
  }

  lemma EmailCheckSound(s: string)
    requires IsEmail(s)
    ensures EmailPattern(s)
  {
    IndexOfSpec(s[1..], "@");
    var i := IndexOf(s[1..], "@").value + 1;
    assert s[i] == '@' by {
      assert OccursAt(s[1..], "@", i - 1);
      assert s[1..][i - 1..i] == "@";
    }
    var t := s[i + 2..|s| - 1];
    ContainsIff(t, ".");
    var k :| 0 <= k && OccursAt(t, ".", k);
    assert t[k..k + 1] == ".";
    assert s[i + 2 + k] == t[k];
    assert EmailMatchesAt(s, i, i + 2 + k);
  }

  lemma EmailCheckComplete(s: string, i: int, j: int)
    requires EmailMatchesAt(s, i, j)
    ensures IsEmail(s)
  {
    var tail := s[1..];
    assert OccursAt(tail, "@", i - 1) by {
      assert tail[i - 1..i] == [s[i]];
    }
    IndexOfSpec(tail, "@");
    var i0 := IndexOf(tail, "@").value + 1;
    assert i0 <= i;
    var t := s[i0 + 2..|s| - 1];
    var k := j - i0 - 2;
    assert OccursAt(t, ".", k) by {
      assert t[k] == s[j] == '.';
      assert t[k..k + 1] == [t[k]];
    }
    ContainsIff(t, ".");
  }

  /** The direct check accepts exactly what the pattern matches. */
  lemma EmailIff(s: string)
    ensures IsEmail(s) <==> EmailPattern(s)
  {
    if IsEmail(s) {
      EmailCheckSound(s);
    }
    if EmailPattern(s) {
      var i, j :| EmailMatchesAt(s, i, j);
      EmailCheckComplete(s, i, j);
    }
  }

  predicate AllDigits(s: string) {
    forall k :: 0 <= k < |s| ==> IsDigit(s[k])
  }

  /** `/^\+?[0-9]{10,15}$/`: an optional plus, then ten to fifteen digits. */
  ghost predicate MobilePattern(s: string) {
    || (AllDigits(s) && 10 <= |s| <= 15)
    || (|s| > 0 && s[0] == '+' && AllDigits(s[1..]) && 10 <= |s| - 1 <= 15)
  }

  /** The check computed directly: drop a leading plus, then count digits. */
  predicate IsMobile(s: string) {
    var digits := if |s| > 0 && s[0] == '+' then s[1..] else s;
    AllDigits(digits) && 10 <= |digits| <= 15
  }

  /** A plus is never a digit, so the two readings agree. */
  lemma MobileIff(s: string)
    ensures IsMobile(s) <==> MobilePattern(s)
  {
    if |s| > 0 && s[0] == '+' {
      assert !IsDigit(s[0]);
    }
  }

  const NameRequired := "Name is required"
  const EmailRequired := "Email is required"
  const EmailInvalid := "Please enter a valid email address"
  const MobileInvalid := "Please enter a valid mobile number"

  /** The error object `validateForm` builds: a name and a well-formed
      e-mail are required, and a mobile number is checked only when one is
      typed. The form is valid exactly when no key is set. */
  function ProfileErrors(name: string, email: string, mobile: string): (e: map<Field, string>)
    ensures e.Keys <= {Name, Email, Mobile}
    ensures Name in e <==> IsBlank(name)
    ensures Name in e ==> e[Name] == NameRequired
    ensures Email in e <==> IsBlank(email) || !IsEmail(email)
    ensures Email in e ==> e[Email] == (if IsBlank(email) then EmailRequired else EmailInvalid)
    ensures Mobile in e <==> mobile != "" && !IsMobile(mobile)
    ensures Mobile in e ==> e[Mobile] == MobileInvalid
    ensures e.Keys == {} <==> !IsBlank(name) && !IsBlank(email) && IsEmail(email) && (mobile == "" || IsMobile(mobile))
  {
    var withName := if IsBlank(name) then map[Name := NameRequired] else map[];
    var withEmail :=
      if IsBlank(email) then withName[Email := EmailRequired]
      else if !IsEmail(email) then withName[Email := EmailInvalid]
      else withName;
    if mobile != "" && !IsMobile(mobile) then withEmail[Mobile := MobileInvalid] else withEmail
  }

  /** The body of `PUT /users/profile`: the fields as typed. */
  datatype ProfileBody = ProfileBody(name: string, email: string, mobile: string)

  /** The fields of the PUT's response that are copied into the user. */
  datatype ProfileData = ProfileData(name: string, email: string, mobile: Option<string>)

  /** `{...user, name: data.name, email: data.email, mobile: data.mobile}`. */
  function MergeUser(user: User, data: ProfileData): (u: User)
    ensures u.name == data.name && u.email == data.email && u.mobile == data.mobile
    ensures u.id == user.id && u.role == user.role && u.school == user.school
    ensures u.registrationId == user.registrationId && u.isActive == user.isActive
  {
    user.(name := data.name, email := data.email, mobile := data.mobile)
  }

  const ProfileUpdated := Alert("Success", "Profile updated successfully")
  const ProfileFallback := "Failed to update profile. Please try again."

  /** The form's state. */
  class ProfileForm {
    var name: string
    var email: string
    var mobile: string
    var errors: map<Field, string>

    /** The fields start from the signed-in user, or empty without one. */
    constructor(user: Option<User>)
      ensures name == (if user.Some? then user.value.name else "")
      ensures email == (if user.Some? then user.value.email else "")
      ensures mobile == (if user.Some? then OptionOrElse(user.value.mobile, "") else "")
      ensures errors == map[]
    {
      name := if user.Some? then user.value.name else "";
      email := if user.Some? then user.value.email else "";
      mobile := if user.Some? then OptionOrElse(user.value.mobile, "") else "";
      errors := map[];
    }

    /** `validateForm`: a name and a well-formed e-mail are required; the
      mobile may be empty, and is checked against the pattern otherwise. */
    method ValidateForm() returns (isValid: bool)
      modifies this
      ensures name == old(name) && email == old(email) && mobile == old(mobile)
      ensures errors == ProfileErrors(name, email, mobile)
      ensures isValid <==> errors.Keys == {}
      ensures isValid <==> !IsBlank(name) && !IsBlank(email) && IsEmail(email) && (mobile == "" || IsMobile(mobile))
    {
      var newErrors: map<Field, string> := map[];
      if IsBlank(name) {
        newErrors := newErrors[Name := NameRequired];
      }
      if IsBlank(email) {
        newErrors := newErrors[Email := EmailRequired];
      } else if !IsEmail(email) {
        newErrors := newErrors[Email := EmailInvalid];
      }
      if mobile != "" && !IsMobile(mobile) {
        newErrors := newErrors[Mobile := MobileInvalid];
      }
      errors := newErrors;
      isValid := newErrors.Keys == {};
    }

    /** `handleUpdateProfile`: when the form is valid the fields are sent as
      typed; on success the signed-in user, if any, is replaced by the
      merge of the response into it. `posted` is the PUT's outcome through
      `handleApiResponse`, `None` when the body is JSON `null` (an empty
      body fails to parse and arrives as an `Err`). */
    method HandleUpdateProfile(user: Option<User>, posted: Result<Option<ProfileData>>)
      returns (request: Option<ProfileBody>, newUser: Option<User>, alert: Option<Alert>)
      modifies this
      ensures name == old(name) && email == old(email) && mobile == old(mobile)
      ensures errors == ProfileErrors(name, email, mobile)
      ensures request.Some? <==> errors.Keys == {}
      ensures request.Some? <==> !IsBlank(name) && !IsBlank(email) && IsEmail(email) && (mobile == "" || IsMobile(mobile))
      ensures request.Some? ==> request.value == ProfileBody(name, email, mobile)
      ensures request.None? ==> newUser.None? && alert.None?
      ensures newUser.Some? <==> request.Some? && posted.Ok? && user.Some? && posted.value.Some?
      ensures newUser.Some? ==> newUser.value == MergeUser(user.value, posted.value.value)
      ensures request.Some? ==> alert == Some(if posted.Ok? then ProfileUpdated else Alert("Error", OrElse(posted.message, ProfileFallback)))
    {
      var ok := ValidateForm();
      if !ok {
        return None, None, None;
      }
      request := Some(ProfileBody(name, email, mobile));
      newUser := None;
      if posted.Err? {
        alert := Some(Alert("Error", OrElse(posted.message, ProfileFallback)));
        return;
      }
      if user.Some? && posted.value.Some? {
        newUser := Some(MergeUser(user.value, posted.value.value));
      }
      alert := Some(ProfileUpdated);
    }
  }
}
