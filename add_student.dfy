/** The AddStudent screen: the form, its validation (including the e-mail
    pattern), the school guard and the onboarding payload. */
module AddStudent {
  import opened Outcomes
  import opened JsString
  import opened Session

  /** `[^\s@]`. */
  predicate AddressChar(c: char) {
    !IsJsWhitespace(c) && c != '@'
  }

  predicate AllAddressChars(t: string) {
    forall k :: 0 <= k < |t| ==> AddressChar(t[k])
  }

  /** `/^[^\s@]+@[^\s@]+\.[^\s@]+$/` matches with its `@` at `i` and its
      escaped dot at `j`. */
  ghost predicate EmailMatchesAt(s: string, i: int, j: int) {
    && 0 < i && i + 1 < j && j + 1 < |s|
    && s[i] == '@' && s[j] == '.'
    && AllAddressChars(s[..i]) && AllAddressChars(s[i + 1..j]) && AllAddressChars(s[j + 1..])
  }

  /** The pattern as a regular expression reads it: some split of the input. */
  ghost predicate EmailPattern(s: string) {
    exists i, j :: EmailMatchesAt(s, i, j)
  }

  /** The check computed directly: the first `@` is not at the start, the
      parts on either side hold no whitespace or `@`, and the part after it
      has a dot with a character on each side. */
  predicate IsEmail(s: string) {
    var at := IndexOf(s, "@");
    && at.Some?
    && var i := at.value;
    && 0 < i && i + 3 <= |s|
    && AllAddressChars(s[..i]) && AllAddressChars(s[i + 1..])
    && Contains(s[i + 2..|s| - 1], ".")
  }

  /** Every string the direct check accepts is matched by the pattern. */
  lemma EmailCheckSound(s: string)
    requires IsEmail(s)
    ensures EmailPattern(s)
  {
    var i := IndexOf(s, "@").value;
    IndexOfSpec(s, "@");
    var t := s[i + 2..|s| - 1];
    ContainsIff(t, ".");
    var k :| 0 <= k && OccursAt(t, ".", k);
    assert t[k..k + 1] == ".";
    var j := i + 2 + k;
    assert s[j] == t[k];
    assert s[i] == '@' by {
      assert OccursAt(s, "@", i);
      assert s[i..i + 1] == "@";
    }
    var after := s[i + 1..];
    var b, c := s[i + 1..j], s[j + 1..];
    forall m | 0 <= m < |b| ensures AddressChar(b[m]) {
      assert b[m] == after[m];
    }
    forall m | 0 <= m < |c| ensures AddressChar(c[m]) {
      assert c[m] == after[m + j - i];
    }
    assert EmailMatchesAt(s, i, j);
  }

  /** Every split the pattern finds is one the direct check accepts. */
  lemma EmailCheckComplete(s: string, i: int, j: int)
    requires EmailMatchesAt(s, i, j)
    ensures IsEmail(s)
  {
    assert OccursAt(s, "@", i) by {
      assert s[i..i + 1] == [s[i]];
    }
    forall m | 0 <= m < i ensures !OccursAt(s, "@", m) {
      assert s[m..m + 1] == [s[m]];
      assert s[m] == s[..i][m];
    }
    IndexOfSpec(s, "@");
    assert IndexOf(s, "@") == Some(i);
    var after, b, c := s[i + 1..], s[i + 1..j], s[j + 1..];
    forall m | 0 <= m < |after| ensures AddressChar(after[m]) {
      if m < j - (i + 1) {
        assert after[m] == b[m];
      } else if m > j - (i + 1) {
        assert after[m] == c[m - (j - i)];
      }
    }
    var t := s[i + 2..|s| - 1];
    var k := j - i - 2;
    assert OccursAt(t, ".", k) by {
      assert t[k] == s[j] == '.';
      assert t[k..k + 1] == [t[k]];
    }
    ContainsIff(t, ".");
  }

  /** The direct check accepts exactly the strings the pattern matches. */
  lemma EmailIff(s: string)
    ensures IsEmail(s) <==> EmailPattern(s)
  {
    if IsEmail(s) {
      EmailCheckSound(s);
    }
    if EmailPattern(s) {
      var i, j :| EmailMatchesAt(s, i, j);
      EmailCheckComplete(s, i, j);
    }
  }

  /** An address the pattern accepts has no whitespace, so trimming it (as
      the payload does) changes nothing. */
  lemma ValidEmailIsTrimmed(s: string)
    requires IsEmail(s)
    ensures Trim(s) == s
  {
    EmailIff(s);
    var i, j :| EmailMatchesAt(s, i, j);
    forall m | 0 <= m < |s| ensures !IsJsWhitespace(s[m]) {
      if m < i {
        assert s[m] == s[..i][m];
      } else if i < m < j {
        assert s[m] == s[i + 1..j][m - i - 1];
      } else if m > j {
        assert s[m] == s[j + 1..][m - j - 1];
      }
    }
    TrimNoWhitespace(s);
  }

  const NameRequired := "Name is required"
  const EmailRequired := "Email is required"
  const EmailInvalid := "Please enter a valid email"
  const MobileRequired := "Mobile number is required"
  const MobileInvalid := "Please enter a valid mobile number"

  function NameError(name: string): (e: string)
    ensures e == "" <==> !IsBlank(name)
  {
    if IsBlank(name) then NameRequired else ""
  }

  /** Blank first, then the pattern on the untrimmed input. */
  function EmailError(email: string): (e: string)
    ensures e == "" <==> !IsBlank(email) && IsEmail(email)
    ensures IsBlank(email) ==> e == EmailRequired
    ensures !IsBlank(email) && !IsEmail(email) ==> e == EmailInvalid
  {
    if IsBlank(email) then EmailRequired else if !IsEmail(email) then EmailInvalid else ""
  }

  function MobileError(mobile: string): (e: string)
    ensures e == "" <==> !IsBlank(mobile) && |Trim(mobile)| >= 10
    ensures IsBlank(mobile) ==> e == MobileRequired
    ensures !IsBlank(mobile) && |Trim(mobile)| < 10 ==> e == MobileInvalid
  {
    if IsBlank(mobile) then MobileRequired else if |Trim(mobile)| < 10 then MobileInvalid else ""
  }

  /** The body of `POST /auth/onboard`. */
  datatype OnboardPayload = OnboardPayload(
    name: string,
    role: string,
    schoolId: string,
    email: string,
    mobile: string,
    parentLanguage: string,
    parentOccupation: string)

  const CountryCode := "+91"
  const DefaultLanguage := "hindi"
  const DefaultOccupation := "Not specified"

  /** Everything trimmed, the mobile prefixed with the country code, and
      blank parent fields replaced by their defaults. */
  function Payload(name: string, email: string, mobile: string, language: string, occupation: string, school: string)
    : (p: OnboardPayload)
    ensures p.role == "student" && p.schoolId == school
    ensures p.name == Trim(name) && p.email == Trim(email) && p.mobile == CountryCode + Trim(mobile)
    ensures p.parentLanguage == (if IsBlank(language) then DefaultLanguage else Trim(language))
    ensures p.parentOccupation == (if IsBlank(occupation) then DefaultOccupation else Trim(occupation))
  {
    OnboardPayload(Trim(name), "student", OrElse(school, ""), Trim(email), CountryCode + Trim(mobile),
                   OrElse(Trim(language), DefaultLanguage), OrElse(Trim(occupation), DefaultOccupation))
  }

  /** The parent fields sent are never empty. */
  lemma PayloadParentsNonEmpty(name: string, email: string, mobile: string, language: string, occupation: string, school: string)
    ensures Payload(name, email, mobile, language, occupation, school).parentLanguage != ""
    ensures Payload(name, email, mobile, language, occupation, school).parentOccupation != ""
  {
  }

  /** The stored mobile, with its first `+91` removed as the edit screen
      does, gives back the trimmed number that was typed. */
  lemma OnboardMobileRoundTrip(mobile: string)
    ensures RemoveFirst(CountryCode + Trim(mobile), CountryCode) == Trim(mobile)
  {
    RemoveFirstOfPrefixed(CountryCode, Trim(mobile));
  }

  function SuccessAlert(name: string, registrationId: Option<string>): Alert {
    Alert("Success", "Student " + name + " has been added successfully. Registration ID: " + OptionOrElse(registrationId, "Generated"))
  }

  const AddFallback := "Failed to add student. Please try again."

  /** The form's state. */
  class StudentDraft {
    var name: string
    var email: string
    var mobile: string
    var parentLanguage: string
    var parentOccupation: string
    var nameError: string
    var emailError: string
    var mobileError: string

    constructor()
      ensures name == "" && email == "" && mobile == "" && parentLanguage == "" && parentOccupation == ""
      ensures nameError == "" && emailError == "" && mobileError == ""
    {
      name, email, mobile, parentLanguage, parentOccupation := "", "", "", "", "";
      nameError, emailError, mobileError := "", "", "";
    }

    /** `validateForm`: each of the three checks sets its own error, and any
      error makes the form invalid. */
    method ValidateForm() returns (isValid: bool)
      modifies this
      ensures nameError == NameError(name) && emailError == EmailError(email) && mobileError == MobileError(mobile)
      ensures isValid <==> nameError == "" && emailError == "" && mobileError == ""
      ensures name == old(name) && email == old(email) && mobile == old(mobile)
      ensures parentLanguage == old(parentLanguage) && parentOccupation == old(parentOccupation)
    {
      isValid := true;
      var e := NameError(name);
      nameError := e;
      if e != "" {
        isValid := false;
      }
      e := EmailError(email);
      emailError := e;
      if e != "" {
        isValid := false;
      }
      e := MobileError(mobile);
      mobileError := e;
      if e != "" {
        isValid := false;
      }
    }

    /** `handleAddStudent`: validate, check the school, then post. `posted`
      is the outcome of the POST through `handleApiResponse`, carrying the
      returned `registrationId` when there is one. */
    method HandleAddStudent(user: Option<User>, posted: Result<Option<string>>)
      returns (request: Option<OnboardPayload>, alert: Option<Alert>)
      modifies this
      ensures nameError == NameError(name) && emailError == EmailError(email) && mobileError == MobileError(mobile)
      ensures name == old(name) && email == old(email) && mobile == old(mobile)
      ensures parentLanguage == old(parentLanguage) && parentOccupation == old(parentOccupation)
      ensures request.Some? <==> nameError == "" && emailError == "" && mobileError == "" && SchoolCheck(user).None?
      ensures request.Some? ==>
                && request.value == Payload(name, email, mobile, parentLanguage, parentOccupation, user.value.school)
                && alert == Some(if posted.Ok? then SuccessAlert(name, posted.value) else Alert("Error", OrElse(posted.message, AddFallback)))
      ensures request.None? && (nameError != "" || emailError != "" || mobileError != "") ==> alert.None?
      ensures request.None? && nameError == "" && emailError == "" && mobileError == "" ==> alert == SchoolCheck(user)
    {
      var ok := ValidateForm();
      if !ok {
        return None, None;
      }
      var guard := SchoolCheck(user);
      if guard.Some? {
        return None, guard;
      }
      var payload := Payload(name, email, mobile, parentLanguage, parentOccupation, user.value.school);
      request := Some(payload);
      if posted.Ok? {
        alert := Some(SuccessAlert(name, posted.value));
      } else {
        alert := Some(Alert("Error", OrElse(posted.message, AddFallback)));
      }
    }
  }
}
