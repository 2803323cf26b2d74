/**
 * The records shared by the application's components (patients, departments,
 * daily analytics, arrival predictions, user accounts) and the lookups over
 * them that several components perform in the same way.
 */
module Types {
  import opened Common

  datatype Status = Waiting | InProgress | Completed | Cancelled

  datatype Priority = Low | Medium | High | Emergency

  datatype Patient = Patient(
    id: string,
    name: string,
    status: Status,
    priority: Priority,
    arrivalTime: string,
    estimatedWaitTime: int,  // minutes
    department: string,
    queuePosition: int)

  datatype Department = Department(
    id: string,
    name: string,
    currentLoad: int,        // percentage
    averageWaitTime: int,    // minutes
    patientsWaiting: int)

  datatype PeakHour = PeakHour(hour: int, count: int)

  datatype QueueAnalytics = QueueAnalytics(
    date: string,
    patientsServed: int,
    averageWaitTime: int,
    peakHours: seq<PeakHour>)

  datatype PredictionData = PredictionData(
    hour: int,
    predictedArrivals: int,
    actualArrivals: Option<int>)

  datatype Role = Admin | PatientRole

  datatype Gender = Male | Female | Other

  datatype User = User(
    id: string,
    username: string,
    password: string,
    role: Role,
    name: string,
    patientId: Option<string>,
    email: Option<string>,
    phoneNumber: Option<string>,
    gender: Option<Gender>,
    age: Option<int>,
    diseases: Option<seq<string>>,
    employeeId: Option<string>,
    staffDepartment: Option<string>)

  /** The text a status has in the user interface and in filters. */
  function StatusName(s: Status): string {
    match s
    case Waiting => "waiting"
    case InProgress => "in-progress"
    case Completed => "completed"
    case Cancelled => "cancelled"
  }

  lemma StatusNameInjective(a: Status, b: Status)
    ensures StatusName(a) == StatusName(b) ==> a == b
  {
  }

  /** Index of the first patient with the given id (Array.prototype.find / findIndex). */
  function FindPatientIndex(patients: seq<Patient>, id: string): (r: Option<nat>)
    ensures r.Some? ==> r.value < |patients| && patients[r.value].id == id
    ensures r.Some? ==> forall j :: 0 <= j < r.value ==> patients[j].id != id
    ensures r.None? ==> forall j :: 0 <= j < |patients| ==> patients[j].id != id
  {
    FirstIndex(patients, (q: Patient) => q.id == id)
  }

  /** Index of the first department with the given name. */
  function FindDepartmentIndex(departments: seq<Department>, name: string): (r: Option<nat>)
    ensures r.Some? ==> r.value < |departments| && departments[r.value].name == name
    ensures r.Some? ==> forall j :: 0 <= j < r.value ==> departments[j].name != name
    ensures r.None? ==> forall j :: 0 <= j < |departments| ==> departments[j].name != name
  {
    FirstIndex(departments, (d: Department) => d.name == name)
  }

  /** The first department with the given name (departments.find(d => d.name === name)). */
  function FindDepartment(departments: seq<Department>, name: string): (r: Option<Department>)
    ensures r.Some? <==> exists j :: 0 <= j < |departments| && departments[j].name == name
    ensures r.Some? ==> r.value in departments && r.value.name == name
    ensures r.Some? ==> exists j :: 0 <= j < |departments| && departments[j] == r.value
                          && forall i :: 0 <= i < j ==> departments[i].name != name
  {
    match FindDepartmentIndex(departments, name)
    case None => None
    case Some(j) => Some(departments[j])
  }

  /**
   * The waiting patients of one department, in array order
   * (patients.filter(p => p.department === dept && p.status === 'waiting')).
   */
  function WaitingIn(patients: seq<Patient>, dept: string): (r: seq<Patient>)
    ensures |r| <= |patients|
    ensures forall p :: p in r <==> p in patients && p.department == dept && p.status == Waiting
  {
    if patients == [] then []
    else
      var rest := WaitingIn(patients[1..], dept);
      assert forall p :: p in patients <==> p == patients[0] || p in patients[1..];
      if patients[0].department == dept && patients[0].status == Waiting then [patients[0]] + rest
      else rest
  }

  lemma {:induction false} WaitingInAppend(a: seq<Patient>, b: seq<Patient>, dept: string)
    ensures WaitingIn(a + b, dept) == WaitingIn(a, dept) + WaitingIn(b, dept)
  {
    if a != [] {
      var ab := a + b;
      assert ab[0] == a[0] && ab[1..] == a[1..] + b;
      WaitingInAppend(a[1..], b, dept);
      var head := if a[0].department == dept && a[0].status == Waiting then [a[0]] else [];
      assert WaitingIn(a, dept) == head + WaitingIn(a[1..], dept);
      assert WaitingIn(ab, dept) == head + (WaitingIn(a[1..], dept) + WaitingIn(b, dept));
    } else {
      assert a + b == b;
    }
  }

  /** No two positions of the list hold the same patient id. */
  predicate DistinctIds(patients: seq<Patient>) {
    forall i, j :: 0 <= i < j < |patients| ==> patients[i].id != patients[j].id
  }
}
