/**
 * The queue service: the predicted wait for a priority, and the account
 * registry behind sign-up and login (accounts created at sign-up are looked
 * up before the built-in users).
 */
module QueueService {
  import opened Common
  import opened Types
  import MockData

  // ---------------------------------------------------------------------------
  // getPredictedWaitTime
  // ---------------------------------------------------------------------------

  /** The multiplier of the predicted wait, in tenths (1.5, 1, 0.7, 0.3). */
  function PredictionMultiplierTenths(p: Priority): nat {
    match p
    case Low => 15
    case Medium => 10
    case High => 7
    case Emergency => 3
  }

  /**
   * getPredictedWaitTime: a base of 15 to 44 minutes (`roll` stands for
   * Math.floor(Math.random() * 30)), times the priority multiplier, rounded
   * to the nearest minute with halves up. The department is not consulted.
   */
  function PredictedWaitTime(departmentId: string, priority: Priority, roll: nat): (r: int)
    requires roll < 30
    ensures 20 * r <= 2 * (roll + 15) * PredictionMultiplierTenths(priority) + 10 < 20 * r + 20
    ensures priority == Low ==> 23 <= r <= 66
    ensures priority == Medium ==> 15 <= r <= 44
    ensures priority == High ==> 11 <= r <= 31
    ensures priority == Emergency ==> 5 <= r <= 13
  {
    RoundHalfUp((roll + 15) * PredictionMultiplierTenths(priority), 10)
  }

  /** For the same draw, a more urgent priority never gets a longer prediction. */
  lemma PredictedWaitTimeOrder(departmentId: string, roll: nat)
    requires roll < 30
    ensures PredictedWaitTime(departmentId, Emergency, roll) <= PredictedWaitTime(departmentId, High, roll)
            <= PredictedWaitTime(departmentId, Medium, roll) <= PredictedWaitTime(departmentId, Low, roll)
  {
    var b := roll + 15;
    RoundHalfUpMonotone(b * 3, b * 7, 10);
    RoundHalfUpMonotone(b * 7, b * 10, 10);
    RoundHalfUpMonotone(b * 10, b * 15, 10);
  }

  // ---------------------------------------------------------------------------
  // signup and login
  // ---------------------------------------------------------------------------

  /** Some account already has this username, or this e-mail address. */
  predicate Taken(users: seq<User>, username: string, email: string) {
    exists i :: 0 <= i < |users| && (users[i].username == username || users[i].email == Some(email))
  }

  /** No two accounts share a username or an e-mail address. */
  predicate UniqueAccounts(users: seq<User>) {
    forall i, j :: 0 <= i < j < |users| ==>
      users[i].username != users[j].username && (users[i].email.None? || users[i].email != users[j].email)
  }

  /**
   * The account signup creates. `userKey` and `patientKey` stand for the two
   * random base-36 strings of the ids. A patient account gets a patient id
   * and the patient details; an admin account gets the staff details; the
   * other role's fields stay undefined.
   */
  function NewAccount(username: string, password: string, email: string, role: Role,
                      phoneNumber: Option<string>, gender: Option<Gender>, age: Option<int>,
                      diseases: Option<seq<string>>, employeeId: Option<string>,
                      staffDepartment: Option<string>, userKey: string, patientKey: string): (r: User)
    ensures r.username == username && r.password == password && r.email == Some(email) && r.role == role
    ensures r.id == "user-" + userKey
    ensures role == PatientRole <==> r.patientId.Some?
    ensures role == PatientRole ==>
              && r.name == "Patient " + username && r.patientId == Some("pat-" + patientKey)
              && r.phoneNumber == phoneNumber && r.gender == gender && r.age == age && r.diseases == diseases
              && r.employeeId.None? && r.staffDepartment.None?
    ensures role == Admin ==>
              && r.name == "Admin " + username
              && r.phoneNumber.None? && r.gender.None? && r.age.None? && r.diseases.None?
              && r.employeeId == employeeId && r.staffDepartment == staffDepartment
  {
    var patient := role == PatientRole;
    User(
      "user-" + userKey, username, password, role,
      (if patient then "Patient " else "Admin ") + username,
      if patient then Some("pat-" + patientKey) else None,
      Some(email),
      if patient then phoneNumber else None,
      if patient then gender else None,
      if patient then age else None,
      if patient then diseases else None,
      if patient then None else employeeId,
      if patient then None else staffDepartment)
  }

  /** Some account has exactly this username and password. */
  predicate HasCredentials(users: seq<User>, username: string, password: string) {
    exists i :: 0 <= i < |users| && users[i].username == username && users[i].password == password
  }

  /**
   * login: an account created at sign-up with these credentials, else a
   * built-in user with them, else nothing.
   */
  function Login(registered: seq<User>, builtin: seq<User>, username: string, password: string): (r: Option<User>)
    ensures r.Some? <==> HasCredentials(registered, username, password) || HasCredentials(builtin, username, password)
    ensures r.Some? ==> r.value.username == username && r.value.password == password
    ensures r.Some? ==> r.value in registered || r.value in builtin
    ensures HasCredentials(registered, username, password) ==> r.value in registered
    ensures HasCredentials(registered, username, password) ==> r == MockData.AuthenticateUser(registered, username, password)
    ensures !HasCredentials(registered, username, password) ==> r == MockData.AuthenticateUser(builtin, username, password)
  {
    match MockData.AuthenticateUser(registered, username, password)
    case Some(u) => Some(u)
    case None => MockData.AuthenticateUser(builtin, username, password)
  }

  /** An account created at sign-up can log in with its credentials, whatever the built-in users are. */
  lemma LoginAfterSignup(registered: seq<User>, builtin: seq<User>, account: User)
    requires account.email.Some?
    requires !Taken(registered, account.username, account.email.value)
    ensures Login(registered + [account], builtin, account.username, account.password) == Some(account)
  {
    var all := registered + [account];
    assert all[|registered|] == account;
    forall j | 0 <= j < |registered| ensures all[j].username != account.username {
      assert all[j] == registered[j];
    }
    var i := MockData.FindUserIndex(all, account.username, account.password);
    assert i == Some(|registered|);
  }

  /** The accounts created at sign-up, kept in the browser's storage. */
  class UserRegistry {
    var registered: seq<User>

    ghost predicate Valid()
      reads this
    {
      UniqueAccounts(registered)
    }

    constructor (stored: seq<User>)
      requires UniqueAccounts(stored)
      ensures Valid() && registered == stored
    {
      registered := stored;
    }

    /** signup: refused when the username or the e-mail address is taken. */
    method Signup(username: string, password: string, email: string, role: Role,
                  phoneNumber: Option<string>, gender: Option<Gender>, age: Option<int>,
                  diseases: Option<seq<string>>, employeeId: Option<string>,
                  staffDepartment: Option<string>, userKey: string, patientKey: string)
      returns (r: Result<User>)
      requires Valid()
      modifies this
      ensures Valid()
      ensures Taken(old(registered), username, email) ==>
                r == Err("Username or email already exists") && registered == old(registered)
      ensures !Taken(old(registered), username, email) ==>
                && r == Ok(NewAccount(username, password, email, role, phoneNumber, gender, age,
                                      diseases, employeeId, staffDepartment, userKey, patientKey))
                && registered == old(registered) + [r.value]
    {
      if Taken(registered, username, email) {
        r := Err("Username or email already exists");
        return;
      }
      var account := NewAccount(username, password, email, role, phoneNumber, gender, age,
                                diseases, employeeId, staffDepartment, userKey, patientKey);
      var all := registered + [account];
      forall i, j | 0 <= i < j < |all|
        ensures all[i].username != all[j].username && (all[i].email.None? || all[i].email != all[j].email)
      {
        if j == |registered| {
          assert all[i] == registered[i];
        } else {
          assert all[i] == registered[i] && all[j] == registered[j];
        }
      }
      registered := all;
      r := Ok(account);
    }
  }
}
