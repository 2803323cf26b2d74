/**
 * The in-memory hospital store: the patients and departments tables, the
 * status update and admission operations that change them in place, and
 * the lookups by patient id and by credentials.
 */
module MockData {
  import opened Common
  import opened Types

  /** The id given to the n-th patient, `p${n}`. */
  function PatientIdFor(n: nat): string {
    "p" + NatToString(n)
  }

  lemma PatientIdForInjective(m: nat, n: nat)
    ensures PatientIdFor(m) == PatientIdFor(n) ==> m == n
  {
    if PatientIdFor(m) == PatientIdFor(n) {
      assert PatientIdFor(m)[1..] == NatToString(m);
      assert PatientIdFor(n)[1..] == NatToString(n);
      NatToStringInjective(m, n);
    }
  }

  /** The patients table holds p1, p2, ... in order: nothing is ever removed from it. */
  predicate SequentialIds(patients: seq<Patient>) {
    forall i :: 0 <= i < |patients| ==> patients[i].id == PatientIdFor(i + 1)
  }

  lemma SequentialIdsDistinct(patients: seq<Patient>)
    requires SequentialIds(patients)
    ensures DistinctIds(patients)
  {
    forall i, j | 0 <= i < j < |patients| ensures patients[i].id != patients[j].id {
      PatientIdForInjective(i + 1, j + 1);
    }
  }

  /** patients.find(p => p.id === patientId) || null */
  function GetPatientById(patients: seq<Patient>, id: string): (r: Option<Patient>)
    ensures r.Some? <==> exists i :: 0 <= i < |patients| && patients[i].id == id
    ensures r.Some? ==> exists i :: 0 <= i < |patients| && patients[i] == r.value
                          && r.value.id == id && forall j :: 0 <= j < i ==> patients[j].id != id
  {
    match FindPatientIndex(patients, id)
    case None => None
    case Some(i) => Some(patients[i])
  }

  /** The index of the first user with these credentials. */
  function FindUserIndex(users: seq<User>, username: string, password: string): (r: Option<nat>)
    ensures r.Some? ==> r.value < |users| && users[r.value].username == username && users[r.value].password == password
    ensures r.Some? ==> forall j :: 0 <= j < r.value ==> !(users[j].username == username && users[j].password == password)
    ensures r.None? ==> forall j :: 0 <= j < |users| ==> !(users[j].username == username && users[j].password == password)
  {
    FirstIndex(users, (u: User) => u.username == username && u.password == password)
  }

  /** users.find(u => u.username === username && u.password === password) || null */
  function AuthenticateUser(users: seq<User>, username: string, password: string): (r: Option<User>)
    ensures r.Some? <==> exists i :: 0 <= i < |users| && users[i].username == username && users[i].password == password
    ensures r.Some? ==> exists i :: 0 <= i < |users| && users[i] == r.value
                          && r.value.username == username && r.value.password == password
                          && forall j :: 0 <= j < i ==> !(users[j].username == username && users[j].password == password)
  {
    match FindUserIndex(users, username, password)
    case None => None
    case Some(i) => Some(users[i])
  }

  /**
   * A patient after a status change: leaving the waiting state (to in
   * progress, completed or cancelled) clears the queue position and the
   * estimated wait; going back to waiting keeps both.
   */
  function WithStatus(p: Patient, s: Status): (r: Patient)
    ensures r.status == s
    ensures r.id == p.id && r.name == p.name && r.priority == p.priority
    ensures r.department == p.department && r.arrivalTime == p.arrivalTime
    ensures s == Waiting ==> r.queuePosition == p.queuePosition && r.estimatedWaitTime == p.estimatedWaitTime
    ensures s != Waiting ==> r.queuePosition == 0 && r.estimatedWaitTime == 0
  {
    if s == Waiting then p.(status := s)
    else p.(status := s, queuePosition := 0, estimatedWaitTime := 0)
  }

  /** Setting the same status twice is the same as setting it once. */
  lemma WithStatusIdempotent(p: Patient, s: Status)
    ensures WithStatus(WithStatus(p, s), s) == WithStatus(p, s)
  {
  }

  /** The patients table after updatePatientStatus: only the first patient with the id changes. */
  function SetStatusIn(patients: seq<Patient>, id: string, s: Status): (r: seq<Patient>)
    ensures |r| == |patients|
    ensures forall k :: 0 <= k < |r| ==> r[k].id == patients[k].id
  {
    match FindPatientIndex(patients, id)
    case None => patients
    case Some(i) => patients[i := WithStatus(patients[i], s)]
  }

  /** After a status update, looking the patient up gives the updated record. */
  lemma UpdateThenGet(patients: seq<Patient>, id: string, s: Status)
    requires GetPatientById(patients, id).Some?
    ensures GetPatientById(SetStatusIn(patients, id, s), id)
            == Some(WithStatus(GetPatientById(patients, id).value, s))
  {
    var i := FindPatientIndex(patients, id).value;
    var r := SetStatusIn(patients, id, s);
    assert r[i] == WithStatus(patients[i], s);
    forall j | 0 <= j < i ensures r[j].id != id {
      assert r[j].id == patients[j].id;
    }
  }

  /** A status update touches no other patient. */
  lemma SetStatusInOthersUnchanged(patients: seq<Patient>, id: string, s: Status, k: nat)
    requires k < |patients| && patients[k].id != id
    ensures SetStatusIn(patients, id, s)[k] == patients[k]
  {
  }

  /**
   * The estimated wait of a newly admitted patient: the department average,
   * times 1.5 for low and 0.7 for high priority, rounded to the nearest
   * minute (halves up); a flat 5 minutes for an emergency.
   */
  function AdmissionWait(average: int, priority: Priority): (r: int)
    ensures priority == Emergency ==> r == 5
    ensures priority == Medium ==> r == average
    ensures priority == Low ==> 20 * r <= 30 * average + 10 < 20 * r + 20
    ensures priority == High ==> 20 * r <= 14 * average + 10 < 20 * r + 20
  {
    match priority
    case Low => RoundHalfUp(average * 15, 10)
    case Medium => average
    case High => RoundHalfUp(average * 7, 10)
    case Emergency => 5
  }

  /** For a non-negative average, high priority never waits longer than medium, nor medium than low. */
  lemma AdmissionWaitOrder(average: int)
    requires average >= 0
    ensures AdmissionWait(average, High) <= AdmissionWait(average, Medium) <= AdmissionWait(average, Low)
  {
    RoundHalfUpExact(average, 10);
    RoundHalfUpMonotone(average * 7, average * 10, 10);
    RoundHalfUpMonotone(average * 10, average * 15, 10);
  }

  /** The record addNewPatient creates for a department that exists. */
  function NewPatient(patients: seq<Patient>, d: Department, name: string, priority: Priority,
                      arrivalTime: string): (r: Patient)
    ensures r.id == PatientIdFor(|patients| + 1)
    ensures r.status == Waiting && r.name == name && r.priority == priority
    ensures r.department == d.name && r.arrivalTime == arrivalTime
    ensures r.queuePosition == |WaitingIn(patients, d.name)| + 1
    ensures r.estimatedWaitTime == AdmissionWait(d.averageWaitTime, priority)
  {
    Patient(PatientIdFor(|patients| + 1), name, Waiting, priority, arrivalTime,
            AdmissionWait(d.averageWaitTime, priority), d.name, |WaitingIn(patients, d.name)| + 1)
  }

  /** A new patient is placed last: its position is the size of its department's waiting list once it is in. */
  lemma NewPatientEndsQueue(patients: seq<Patient>, d: Department, name: string, priority: Priority,
                            arrivalTime: string)
    ensures var np := NewPatient(patients, d, name, priority, arrivalTime);
            |WaitingIn(patients + [np], d.name)| == np.queuePosition
  {
    var np := NewPatient(patients, d, name, priority, arrivalTime);
    WaitingInAppend(patients, [np], d.name);
    assert [np][1..] == [];
  }

  /** The id given to a new patient is fresh, and looking it up afterwards finds the new patient. */
  lemma NewPatientIdFresh(patients: seq<Patient>, d: Department, name: string, priority: Priority,
                          arrivalTime: string)
    requires SequentialIds(patients)
    ensures var np := NewPatient(patients, d, name, priority, arrivalTime);
            && GetPatientById(patients, np.id).None?
            && SequentialIds(patients + [np])
            && GetPatientById(patients + [np], np.id) == Some(np)
  {
    var np := NewPatient(patients, d, name, priority, arrivalTime);
    NextIdFresh(patients);
    var all := patients + [np];
    forall i | 0 <= i < |all| ensures all[i].id == PatientIdFor(i + 1) && (i < |patients| ==> all[i].id != np.id) {
      if i < |patients| {
        assert all[i] == patients[i];
      } else {
        assert all[i] == np;
      }
    }
    assert all[|patients|] == np;
    var found := FindPatientIndex(all, np.id);
    assert found.Some? && found.value == |patients|;
  }

  lemma NextIdFresh(patients: seq<Patient>)
    requires SequentialIds(patients)
    ensures forall i :: 0 <= i < |patients| ==> patients[i].id != PatientIdFor(|patients| + 1)
  {
    forall i | 0 <= i < |patients| ensures patients[i].id != PatientIdFor(|patients| + 1) {
      PatientIdForInjective(i + 1, |patients| + 1);
    }
  }

  /** The hospital's tables, which the admin and queue views read and the operations update in place. */
  class Hospital {
    var patients: seq<Patient>
    var departments: seq<Department>

    ghost predicate Valid()
      reads this
    {
      SequentialIds(patients)
    }

    constructor (patients0: seq<Patient>, departments0: seq<Department>)
      requires SequentialIds(patients0)
      ensures Valid()
      ensures patients == patients0 && departments == departments0
    {
      patients := patients0;
      departments := departments0;
    }

    /** updatePatientStatus */
    method UpdatePatientStatus(id: string, s: Status) returns (r: Result<Patient>)
      requires Valid()
      modifies this
      ensures Valid()
      ensures departments == old(departments)
      ensures patients == SetStatusIn(old(patients), id, s)
      ensures GetPatientById(old(patients), id).None? ==> r == Err("Patient not found")
      ensures GetPatientById(old(patients), id).Some? ==>
                r == Ok(WithStatus(GetPatientById(old(patients), id).value, s))
    {
      match FindPatientIndex(patients, id)
      case None =>
        r := Err("Patient not found");
      case Some(i) =>
        var updated := WithStatus(patients[i], s);
        patients := patients[i := updated];
        r := Ok(updated);
    }

    /** addNewPatient */
    method AddNewPatient(name: string, department: string, priority: Priority, arrivalTime: string)
      returns (r: Result<Patient>)
      requires Valid()
      modifies this
      ensures Valid()
      ensures FindDepartmentIndex(old(departments), department).None? ==>
                r == Err("Department not found")
                && patients == old(patients) && departments == old(departments)
      ensures FindDepartmentIndex(old(departments), department).Some? ==>
                var j := FindDepartmentIndex(old(departments), department).value;
                var d := old(departments)[j];
                && r == Ok(NewPatient(old(patients), d, name, priority, arrivalTime))
                && patients == old(patients) + [r.value]
                && departments == old(departments)[j := d.(patientsWaiting := d.patientsWaiting + 1)]
    {
      match FindDepartmentIndex(departments, department)
      case None =>
        r := Err("Department not found");
      case Some(j) =>
        var d := departments[j];
        var np := NewPatient(patients, d, name, priority, arrivalTime);
        NewPatientIdFresh(patients, d, name, priority, arrivalTime);
        patients := patients + [np];
        departments := departments[j := d.(patientsWaiting := d.patientsWaiting + 1)];
        r := Ok(np);
    }
  }
}
