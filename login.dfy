/**
 * The login page: the form's nine fields, the patient/admin and
 * login/sign-up toggles that clear them, the guards before logging in or
 * signing up, the shaping of the sign-up arguments (the diseases list parsed
 * from comma-separated text, role-dependent fields left undefined), and the
 * redirect after success.
 */
module LoginPage {
  import opened Common
  import opened Types
  import QueueService

  /** The form's text fields; an unselected gender is None. */
  datatype LoginFields = LoginFields(
    username: string,
    password: string,
    email: string,
    phoneNumber: string,
    gender: Option<Gender>,
    age: string,
    diseases: string,
    employeeId: string,
    staffDepartment: string)

  const EmptyFields := LoginFields("", "", "", "", None, "", "", "", "")

  /** handleLogin goes on only with a username and a password. */
  predicate LoginAttempted(f: LoginFields) {
    f.username != "" && f.password != ""
  }

  /** handleSignup goes on only with a username, a password, an e-mail and, for staff, an employee id. */
  predicate SignupAttempted(f: LoginFields, loginType: Role) {
    f.username != "" && f.password != "" && f.email != "" && (loginType == Admin ==> f.employeeId != "")
  }

  // ---------------------------------------------------------------------------
  // The diseases field
  // ---------------------------------------------------------------------------

  function TrimAll(parts: seq<string>): (r: seq<string>)
    ensures |r| == |parts| && forall k :: 0 <= k < |r| ==> r[k] == Trim(parts[k])
  {
    seq(|parts|, k requires 0 <= k < |parts| => Trim(parts[k]))
  }

  /**
   * diseases ? diseases.split(',').map(d => d.trim()) : []: one piece per
   * comma plus one, each trimmed, empty pieces kept.
   */
  function ParseDiseases(diseases: string): (r: seq<string>)
    ensures diseases == [] ==> r == []
    ensures diseases != [] ==> |r| == CountChar(diseases, ',') + 1
    ensures forall k :: 0 <= k < |r| ==> ',' !in r[k]
    ensures forall k :: 0 <= k < |r| ==> Trimmed(r[k])
    ensures diseases != [] ==> forall k :: 0 <= k < |r| ==> SpacePadded(Split(diseases, ',')[k], r[k])
  {
    if diseases == [] then []
    else
      var pieces := Split(diseases, ',');
      var r := TrimAll(pieces);
      assert forall k :: 0 <= k < |r| ==> ',' !in r[k] by {
        forall k | 0 <= k < |r| ensures ',' !in r[k] {
          TrimSubset(pieces[k], ',');
        }
      }
      r
  }

  /** A piece with no comma and no whitespace at either end. */
  predicate CleanPiece(p: string) {
    ',' !in p && Trimmed(p)
  }

  /**
   * Writing a list of clean names separated by commas and parsing the text
   * gives the list back (the single empty name aside, whose text is empty).
   */
  lemma ParseJoinedDiseases(names: seq<string>)
    requires names != [] && names != [[]]
    requires forall k :: 0 <= k < |names| ==> CleanPiece(names[k])
    ensures ParseDiseases(Join(names, ',')) == names
  {
    var text := Join(names, ',');
    JoinNonEmpty(names);
    SplitJoin(names, ',');
    TrimAllClean(names);
    assert ParseDiseases(text) == TrimAll(names);
  }

  lemma JoinNonEmpty(names: seq<string>)
    requires names != [] && names != [[]]
    ensures Join(names, ',') != []
  {
    if |names| > 1 {
      assert Join(names, ',')[|names[0]|] == ',';
    }
  }

  lemma TrimAllClean(names: seq<string>)
    requires forall k :: 0 <= k < |names| ==> CleanPiece(names[k])
    ensures TrimAll(names) == names
  {
    forall k | 0 <= k < |names| ensures Trim(names[k]) == names[k] {
      TrimNoOp(names[k]);
    }
  }

  // ---------------------------------------------------------------------------
  // The sign-up arguments
  // ---------------------------------------------------------------------------

  /** What handleSignup passes to signup after the credentials and the role. */
  datatype SignupArgs = SignupArgs(
    phoneNumber: Option<string>,
    gender: Option<Gender>,
    age: Option<int>,
    diseases: Option<seq<string>>,
    employeeId: Option<string>,
    staffDepartment: Option<string>)

  /**
   * The patient details go only with a patient sign-up and the staff details
   * only with an admin sign-up; an empty phone number, gender, age or
   * department is undefined, and so is an empty diseases list. `parsedAge`
   * stands for parseInt of the age text.
   */
  function SignupArguments(f: LoginFields, loginType: Role, parsedAge: int): (r: SignupArgs)
    ensures loginType == Admin ==> r.phoneNumber.None? && r.gender.None? && r.age.None? && r.diseases.None?
    ensures loginType == PatientRole ==> r.employeeId.None? && r.staffDepartment.None?
    ensures r.phoneNumber.Some? <==> loginType == PatientRole && f.phoneNumber != ""
    ensures r.phoneNumber.Some? ==> r.phoneNumber.value == f.phoneNumber
    ensures loginType == PatientRole ==> r.gender == f.gender
    ensures r.age.Some? <==> loginType == PatientRole && f.age != ""
    ensures r.age.Some? ==> r.age.value == parsedAge
    ensures r.diseases.Some? <==> loginType == PatientRole && f.diseases != ""
    ensures r.diseases.Some? ==> r.diseases.value == ParseDiseases(f.diseases)
    ensures loginType == Admin ==> r.employeeId == Some(f.employeeId)
    ensures r.staffDepartment.Some? <==> loginType == Admin && f.staffDepartment != ""
    ensures r.staffDepartment.Some? ==> r.staffDepartment.value == f.staffDepartment
  {
    var patient := loginType == PatientRole;
    var parsed := ParseDiseases(f.diseases);
    SignupArgs(
      if patient && f.phoneNumber != "" then Some(f.phoneNumber) else None,
      if patient then f.gender else None,
      if patient && f.age != "" then Some(parsedAge) else None,
      if patient && |parsed| > 0 then Some(parsed) else None,
      if patient then None else Some(f.employeeId),
      if !patient && f.staffDepartment != "" then Some(f.staffDepartment) else None)
  }

  /** The account signup creates from the page's arguments. */
  function SignupAccount(f: LoginFields, loginType: Role, parsedAge: int, userKey: string, patientKey: string)
    : (r: User)
  {
    var a := SignupArguments(f, loginType, parsedAge);
    QueueService.NewAccount(f.username, f.password, f.email, loginType, a.phoneNumber, a.gender, a.age,
                            a.diseases, a.employeeId, a.staffDepartment, userKey, patientKey)
  }

  /**
   * A staff account made through the page always carries the (non-empty)
   * employee id typed in and no patient details; a patient account never
   * carries staff details.
   */
  lemma SignupAccountRoleFields(f: LoginFields, loginType: Role, parsedAge: int, userKey: string, patientKey: string)
    requires SignupAttempted(f, loginType)
    ensures var u := SignupAccount(f, loginType, parsedAge, userKey, patientKey);
            loginType == Admin ==> u.employeeId == Some(f.employeeId) && f.employeeId != ""
                                   && u.patientId.None? && u.diseases.None? && u.age.None?
    ensures var u := SignupAccount(f, loginType, parsedAge, userKey, patientKey);
            loginType == PatientRole ==> u.employeeId.None? && u.staffDepartment.None? && u.patientId.Some?
  {
  }

  // ---------------------------------------------------------------------------
  // Redirect
  // ---------------------------------------------------------------------------

  /** location.state?.from?.pathname, else the role's home page. */
  function RedirectTarget(from: Option<string>, loginType: Role): (r: string)
    ensures from.Some? && from.value != "" ==> r == from.value
    ensures (from.None? || from == Some("")) && loginType == Admin ==> r == "/admin"
    ensures (from.None? || from == Some("")) && loginType == PatientRole ==> r == "/patient-dashboard"
  {
    if from.Some? && from.value != "" then from.value
    else if loginType == Admin then "/admin" else "/patient-dashboard"
  }

  // ---------------------------------------------------------------------------
  // The page state
  // ---------------------------------------------------------------------------

  class LoginForm {
    var fields: LoginFields
    var loginType: Role
    var isSignup: bool

    /** The page opens on an empty patient login form. */
    constructor ()
      ensures fields == EmptyFields && loginType == PatientRole && !isSignup
    {
      fields := EmptyFields;
      loginType := PatientRole;
      isSignup := false;
    }

    /**
     * handleLogin: the page navigated to (`from` is the router's saved
     * location), or nothing when the guard stops it or the credentials fail.
     */
    method HandleLogin(registered: seq<User>, builtin: seq<User>, from: Option<string>)
      returns (target: Option<string>)
      ensures !LoginAttempted(fields) ==> target.None?
      ensures LoginAttempted(fields) ==>
                (target.Some? <==> QueueService.Login(registered, builtin, fields.username, fields.password).Some?)
      ensures target.Some? ==> target.value == RedirectTarget(from, loginType)
    {
      if !LoginAttempted(fields) {
        return None;
      }
      var user := QueueService.Login(registered, builtin, fields.username, fields.password);
      if user.Some? {
        target := Some(RedirectTarget(from, loginType));
      } else {
        target := None;
      }
    }

    /**
     * handleSignup: registers the shaped account and navigates on success;
     * `parsedAge`, `userKey` and `patientKey` stand for parseInt of the age
     * and the two random id strings.
     */
    method HandleSignup(registry: QueueService.UserRegistry, from: Option<string>, parsedAge: int,
                        userKey: string, patientKey: string)
      returns (target: Option<string>)
      requires registry.Valid()
      modifies registry
      ensures registry.Valid()
      ensures !SignupAttempted(fields, loginType) ==> target.None? && registry.registered == old(registry.registered)
      ensures SignupAttempted(fields, loginType) && QueueService.Taken(old(registry.registered), fields.username, fields.email) ==>
                target.None? && registry.registered == old(registry.registered)
      ensures SignupAttempted(fields, loginType) && !QueueService.Taken(old(registry.registered), fields.username, fields.email) ==>
                && target == Some(RedirectTarget(from, loginType))
                && registry.registered
                   == old(registry.registered) + [SignupAccount(fields, loginType, parsedAge, userKey, patientKey)]
    {
      if !SignupAttempted(fields, loginType) {
        return None;
      }
      var a := SignupArguments(fields, loginType, parsedAge);
      var r := registry.Signup(fields.username, fields.password, fields.email, loginType, a.phoneNumber, a.gender,
                               a.age, a.diseases, a.employeeId, a.staffDepartment, userKey, patientKey);
      if r.Ok? {
        target := Some(RedirectTarget(from, loginType));
      } else {
        target := None;
      }
    }

    /** toggleLoginType: patient and admin swap, and every field is cleared. */
    method ToggleLoginType()
      modifies this
      ensures loginType == (if old(loginType) == PatientRole then Admin else PatientRole)
      ensures fields == EmptyFields && isSignup == old(isSignup)
    {
      loginType := if loginType == PatientRole then Admin else PatientRole;
      fields := EmptyFields;
    }

    /** toggleAuthMode: login and sign-up swap, and every field is cleared. */
    method ToggleAuthMode()
      modifies this
      ensures isSignup == !old(isSignup)
      ensures fields == EmptyFields && loginType == old(loginType)
    {
      isSignup := !isSignup;
      fields := EmptyFields;
    }
  }
}
