/**
 * The patient dashboard: its own patient records (priority and status held
 * as text, wait and position possibly undefined), the queue search,
 * booking and cancelling appointments, the average department wait, and
 * the keyword-driven assistant with its conversation context.
 */
module PatientDashboard {
  import opened Common
  import opened Types

  /** The dashboard's patient record. */
  datatype DashPatient = DashPatient(
    id: string,
    name: string,
    department: string,
    priority: string,
    status: string,
    estimatedWaitTime: Option<int>,
    queuePosition: Option<int>)

  datatype AppointmentForm = AppointmentForm(department: string, date: string, time: string, reason: string)

  datatype Appointment = Appointment(
    id: string,
    patientId: string,
    patientName: string,
    department: string,
    date: string,
    time: string,
    reason: string,
    status: string,
    createdAt: string)

  datatype SearchState = NoSearch | Found(patient: DashPatient) | SearchError(error: string)

  /** The first patient with the given id (patients.find(p => p.id === id)). */
  function FindById(patients: seq<DashPatient>, id: string): (r: Option<DashPatient>)
    ensures r.Some? <==> exists i :: 0 <= i < |patients| && patients[i].id == id
    ensures r.Some? ==> r.value in patients && r.value.id == id
    ensures r.Some? ==> exists i :: 0 <= i < |patients| && patients[i] == r.value
                          && forall j :: 0 <= j < i ==> patients[j].id != id
  {
    match FirstIndex(patients, (p: DashPatient) => p.id == id)
    case None => None
    case Some(i) => Some(patients[i])
  }

  // ---------------------------------------------------------------------------
  // Search (handleSearch)
  // ---------------------------------------------------------------------------

  /**
   * The patient as the search shows it: an Emergency patient as an emergency
   * in progress with a 5 minute wait, a General patient as a waiting medium
   * priority with a 30 minute wait, anyone else as stored.
   */
  function ShownPatient(p: DashPatient): (r: DashPatient)
    ensures r.id == p.id && r.name == p.name && r.department == p.department && r.queuePosition == p.queuePosition
    ensures p.department == "Emergency" ==>
              r.priority == "emergency" && r.status == "in-progress" && r.estimatedWaitTime == Some(5)
    ensures p.department == "General" ==>
              r.priority == "medium" && r.status == "waiting" && r.estimatedWaitTime == Some(30)
    ensures p.department != "Emergency" && p.department != "General" ==> r == p
  {
    if p.department == "Emergency" then p.(priority := "emergency", status := "in-progress", estimatedWaitTime := Some(5))
    else if p.department == "General" then p.(priority := "medium", status := "waiting", estimatedWaitTime := Some(30))
    else p
  }

  /** Showing a shown patient changes nothing more. */
  lemma ShownPatientIdempotent(p: DashPatient)
    ensures ShownPatient(ShownPatient(p)) == ShownPatient(p)
  {
  }

  /** The outcome of handleSearch for the given input, patients and booking flag. */
  function SearchOutcome(input: string, patients: seq<DashPatient>, hasBooked: bool): (r: SearchState)
    ensures Trim(input) == [] ==> r == SearchError("Please enter a patient ID")
    ensures Trim(input) != [] && (!hasBooked || FindById(patients, input).None?) ==>
              r == SearchError("Patient not found or no appointment booked yet")
    ensures r.Found? <==> Trim(input) != [] && hasBooked && FindById(patients, input).Some?
    ensures r.Found? ==> r.patient == ShownPatient(FindById(patients, input).value) && r.patient.id == input
  {
    if Trim(input) == [] then SearchError("Please enter a patient ID")
    else match FindById(patients, input)
      case Some(p) =>
        if hasBooked then Found(ShownPatient(p))
        else SearchError("Patient not found or no appointment booked yet")
      case None => SearchError("Patient not found or no appointment booked yet")
  }

  // ---------------------------------------------------------------------------
  // Booking and cancelling (handleAppointmentSubmit, handleCancelAppointment)
  // ---------------------------------------------------------------------------

  /**
   * The user's patient after booking in `department`: waiting there; an
   * Emergency booking as emergency priority, 5 minutes, position 1; any other
   * as medium priority, 30 minutes, position 2.
   */
  function Rebooked(p: DashPatient, department: string): (r: DashPatient)
    ensures r.id == p.id && r.name == p.name
    ensures r.department == department && r.status == "waiting"
    ensures department == "Emergency" ==>
              r.priority == "emergency" && r.estimatedWaitTime == Some(5) && r.queuePosition == Some(1)
    ensures department != "Emergency" ==>
              r.priority == "medium" && r.estimatedWaitTime == Some(30) && r.queuePosition == Some(2)
  {
    var emergency := department == "Emergency";
    p.(department := department,
       priority := if emergency then "emergency" else "medium",
       status := "waiting",
       estimatedWaitTime := Some(if emergency then 5 else 30),
       queuePosition := Some(if emergency then 1 else 2))
  }

  /** A General booking is shown by the search exactly as it is stored. */
  lemma GeneralBookingShownAsStored(p: DashPatient)
    ensures ShownPatient(Rebooked(p, "General")) == Rebooked(p, "General")
  {
  }

  /**
   * An Emergency booking is stored as waiting but shown by the search as in
   * progress; everything else agrees.
   */
  lemma EmergencyBookingShownInProgress(p: DashPatient)
    ensures Rebooked(p, "Emergency").status == "waiting"
    ensures ShownPatient(Rebooked(p, "Emergency")) == Rebooked(p, "Emergency").(status := "in-progress")
  {
  }

  /** patients.map(p => p.id === userId ? rebooked : p) */
  function RebookAll(patients: seq<DashPatient>, userId: string, department: string): (r: seq<DashPatient>)
    ensures |r| == |patients|
    ensures forall i :: 0 <= i < |r| && patients[i].id != userId ==> r[i] == patients[i]
    ensures forall i :: 0 <= i < |r| && patients[i].id == userId ==>
              r[i].id == userId && r[i].department == department && r[i].status == "waiting"
    ensures forall i :: 0 <= i < |r| && patients[i].id == userId ==> r[i] == Rebooked(patients[i], department)
  {
    seq(|patients|, i requires 0 <= i < |patients| =>
      if patients[i].id == userId then Rebooked(patients[i], department) else patients[i])
  }

  /** The user's patient after the last appointment is cancelled: no queue status left. */
  function Cleared(p: DashPatient): (r: DashPatient)
    ensures r.id == p.id && r.name == p.name
    ensures r.department == "" && r.priority == "" && r.status == ""
    ensures r.estimatedWaitTime.None? && r.queuePosition.None?
  {
    p.(department := "", priority := "", status := "", estimatedWaitTime := None, queuePosition := None)
  }

  function ClearAll(patients: seq<DashPatient>, userId: string): (r: seq<DashPatient>)
    ensures |r| == |patients|
    ensures forall i :: 0 <= i < |r| && patients[i].id != userId ==> r[i] == patients[i]
    ensures forall i :: 0 <= i < |r| && patients[i].id == userId ==> r[i] == Cleared(patients[i])
  {
    seq(|patients|, i requires 0 <= i < |patients| =>
      if patients[i].id == userId then Cleared(patients[i]) else patients[i])
  }

  /** Cancelling after booking leaves the same records as cancelling right away. */
  lemma ClearAfterRebook(patients: seq<DashPatient>, userId: string, department: string)
    ensures ClearAll(RebookAll(patients, userId, department), userId) == ClearAll(patients, userId)
  {
  }

  /** After the user's records are cleared, looking the user up finds the cleared record. */
  lemma FindClearedUser(patients: seq<DashPatient>, userId: string)
    ensures FindById(ClearAll(patients, userId), userId)
            == if FindById(patients, userId).Some? then Some(Cleared(FindById(patients, userId).value)) else None
  {
    var cleared := ClearAll(patients, userId);
    var before, after := FindById(patients, userId), FindById(cleared, userId);
    assert forall i :: 0 <= i < |patients| ==> (cleared[i].id == userId <==> patients[i].id == userId);
    if after.Some? {
      var i :| 0 <= i < |cleared| && cleared[i] == after.value && forall j :: 0 <= j < i ==> cleared[j].id != userId;
      var k :| 0 <= k < |patients| && patients[k] == before.value && forall j :: 0 <= j < k ==> patients[j].id != userId;
      assert cleared[i].id == userId && patients[k].id == userId;
      assert i == k;
    }
  }

  /** appointments.filter(apt => apt.id !== id) */
  function WithoutAppointment(appointments: seq<Appointment>, id: string): (r: seq<Appointment>)
    ensures |r| <= |appointments|
    ensures forall a :: a in r <==> a in appointments && a.id != id
  {
    if appointments == [] then []
    else
      var rest := WithoutAppointment(appointments[1..], id);
      assert forall a :: a in appointments <==> a == appointments[0] || a in appointments[1..];
      if appointments[0].id != id then [appointments[0]] + rest else rest
  }

  /** Removing an id that no appointment has changes nothing. */
  lemma {:induction false} WithoutAbsentAppointment(appointments: seq<Appointment>, id: string)
    requires forall k :: 0 <= k < |appointments| ==> appointments[k].id != id
    ensures WithoutAppointment(appointments, id) == appointments
  {
    if appointments != [] {
      WithoutAbsentAppointment(appointments[1..], id);
    }
  }

  lemma {:induction false} WithoutAppointmentAppend(a: seq<Appointment>, b: seq<Appointment>, id: string)
    ensures WithoutAppointment(a + b, id) == WithoutAppointment(a, id) + WithoutAppointment(b, id)
  {
    if a == [] {
      assert a + b == b;
    } else {
      var ab := a + b;
      assert ab[0] == a[0] && ab[1..] == a[1..] + b;
      WithoutAppointmentAppend(a[1..], b, id);
    }
  }

  /** Cancelling an appointment just booked under a fresh id restores the earlier list. */
  lemma CancelUndoesBooking(appointments: seq<Appointment>, booked: Appointment)
    requires forall k :: 0 <= k < |appointments| ==> appointments[k].id != booked.id
    ensures WithoutAppointment(appointments + [booked], booked.id) == appointments
  {
    WithoutAppointmentAppend(appointments, [booked], booked.id);
    WithoutAbsentAppointment(appointments, booked.id);
    assert [booked][1..] == [];
  }

  /** The appointment handleAppointmentSubmit creates; `id` and `createdAt` come from the clock. */
  function NewAppointment(id: string, userPatientId: string, searchInput: string, userName: string,
                          form: AppointmentForm, createdAt: string): (r: Appointment)
    ensures r.id == id && r.patientName == userName && r.status == "scheduled" && r.createdAt == createdAt
    ensures r.department == form.department && r.date == form.date && r.time == form.time && r.reason == form.reason
    ensures r.patientId == (if userPatientId != "" then userPatientId else searchInput)
  {
    Appointment(id, if userPatientId != "" then userPatientId else searchInput, userName,
                form.department, form.date, form.time, form.reason, "scheduled", createdAt)
  }

  /** The id of the appointment the page preloads. */
  const PreloadedId := "appt1"

  /**
   * The appointments the page's user effect loads: the preloaded General
   * appointment of the patient with id '1', and none for anyone else.
   * `createdAt` stands for the ISO text of the preloaded booking time.
   */
  function InitialAppointments(userPatientId: string, createdAt: string): (r: seq<Appointment>)
    ensures |r| <= 1
    ensures r != [] <==> userPatientId == "1"
    ensures forall k :: 0 <= k < |r| ==> r[k].id == PreloadedId && r[k].patientId == "1" && r[k].department == "General"
  {
    if userPatientId == "1" then
      [Appointment(PreloadedId, "1", "John Smith", "General", "2025-03-04", "10:20", "hello", "scheduled", createdAt)]
    else []
  }

  /** The user effect's reload never holds an appointment booked under another id. */
  lemma ReloadLosesBooking(before: seq<Appointment>, booked: Appointment, userPatientId: string, createdAt: string)
    requires booked.id != PreloadedId
    ensures booked in before + [booked]
    ensures booked !in InitialAppointments(userPatientId, createdAt)
  {
    assert (before + [booked])[|before|] == booked;
  }

  // ---------------------------------------------------------------------------
  // The average department wait
  // ---------------------------------------------------------------------------

  /** The departments' average waits, in order. */
  function WaitTimes(departments: seq<Department>): (r: seq<int>)
    ensures |r| == |departments| && forall k :: 0 <= k < |r| ==> r[k] == departments[k].averageWaitTime
  {
    seq(|departments|, k requires 0 <= k < |departments| => departments[k].averageWaitTime)
  }

  /**
   * Math.round(sum of averageWaitTime / departments.length): undefined (NaN)
   * without departments, otherwise the mean rounded with halves up.
   */
  function AverageDepartmentWait(departments: seq<Department>): (r: Option<int>)
    ensures r.None? <==> departments == []
    ensures r.Some? ==> 2 * |departments| * r.value <= 2 * Sum(WaitTimes(departments)) + |departments|
                                                  < 2 * |departments| * r.value + 2 * |departments|
  {
    if departments == [] then None else Some(RoundedMean(WaitTimes(departments)))
  }

  /** The rounded average lies between the smallest and the largest department wait. */
  lemma AverageDepartmentWaitWithin(departments: seq<Department>, lo: int, hi: int)
    requires departments != []
    requires forall k :: 0 <= k < |departments| ==> lo <= departments[k].averageWaitTime <= hi
    ensures lo <= AverageDepartmentWait(departments).value <= hi
  {
    RoundedMeanWithin(WaitTimes(departments), lo, hi);
  }

  // ---------------------------------------------------------------------------
  // The assistant (getAIResponse)
  // ---------------------------------------------------------------------------

  /** chatContext: '', 'appointment', 'wait' or 'department'. */
  datatype ChatContext = NoContext | AppointmentContext | WaitContext | DepartmentContext

  /** The assistant's answers; each constructor stands for one reply text of the source. */
  datatype Reply =
    | HowToBook | HowToCancel | NothingToCancel
    | Upcoming(count: nat, first: Appointment) | NoUpcoming | AppointmentHelp
    | BookBeforeWait | AskForPatientId | EmergencyWait(emergencyMinutes: int)
    | PersonalWait(personalMinutes: Option<int>, position: Option<int>) | NotWaiting
    | AverageWait(averageMinutes: Option<int>) | WaitHelp
    | DepartmentDetails(department: Department) | DepartmentList(names: seq<string>) | DepartmentHelp
    | Greeting(known: bool)
    | BookBeforePrediction | ArrivalsForecast(hour: int, current: int, next: int)
    | Fallback(known: bool)

  predicate IsAppointmentReply(r: Reply) {
    r.HowToBook? || r.HowToCancel? || r.NothingToCancel? || r.Upcoming? || r.NoUpcoming? || r.AppointmentHelp?
  }

  predicate IsWaitReply(r: Reply) {
    r.BookBeforeWait? || r.AskForPatientId? || r.EmergencyWait? || r.PersonalWait? || r.NotWaiting?
    || r.AverageWait? || r.WaitHelp?
  }

  predicate IsDepartmentReply(r: Reply) {
    r.DepartmentDetails? || r.DepartmentList? || r.DepartmentHelp?
  }

  /** What the assistant knows when a message arrives. */
  datatype ChatFacts = ChatFacts(
    patient: Option<DashPatient>,
    appointments: seq<Appointment>,
    hasBooked: bool,
    departments: seq<Department>,
    predictions: seq<PredictionData>,
    userPatientId: string,
    hour: int)

  /** message.toLowerCase().trim() */
  function Normalize(message: string): string {
    Trim(ToLower(message))
  }

  function AppointmentAnswer(m: string, appointments: seq<Appointment>): (r: Reply)
    ensures IsAppointmentReply(r)
  {
    if Contains(m, "how") || Contains(m, "book") then HowToBook
    else if Contains(m, "cancel") then (if |appointments| > 0 then HowToCancel else NothingToCancel)
    else if Contains(m, "upcoming") || Contains(m, "my appointment") then
      (if |appointments| > 0 then Upcoming(|appointments|, appointments[0]) else NoUpcoming)
    else AppointmentHelp
  }

  function WaitAnswer(m: string, facts: ChatFacts): (r: Reply)
    ensures IsWaitReply(r)
  {
    if !facts.hasBooked then BookBeforeWait
    else if facts.patient.None? then AskForPatientId
    else if Contains(m, "how long") then
      var p := facts.patient.value;
      if p.department == "Emergency" then
        EmergencyWait(if p.estimatedWaitTime.None? || p.estimatedWaitTime == Some(0) then 5 else p.estimatedWaitTime.value)
      else if p.status == "waiting" then PersonalWait(p.estimatedWaitTime, p.queuePosition)
      else NotWaiting
    else if Contains(m, "average") then AverageWait(AverageDepartmentWait(facts.departments))
    else WaitHelp
  }

  /** The first department the message names (departments.find(d => message.includes(d.name.toLowerCase()))). */
  function FindMentioned(departments: seq<Department>, m: string): (r: Option<Department>)
    ensures r.Some? ==> r.value in departments && Contains(m, ToLower(r.value.name))
    ensures r.Some? ==> exists k :: 0 <= k < |departments| && departments[k] == r.value
                          && forall j :: 0 <= j < k ==> !Contains(m, ToLower(departments[j].name))
    ensures r.None? ==> forall k :: 0 <= k < |departments| ==> !Contains(m, ToLower(departments[k].name))
  {
    match FirstIndex(departments, (d: Department) => Contains(m, ToLower(d.name)))
    case None => None
    case Some(k) => Some(departments[k])
  }

  function NamesOf(departments: seq<Department>): (r: seq<string>)
    ensures |r| == |departments| && forall k :: 0 <= k < |r| ==> r[k] == departments[k].name
  {
    seq(|departments|, k requires 0 <= k < |departments| => departments[k].name)
  }

  function DepartmentAnswer(m: string, departments: seq<Department>): (r: Reply)
    ensures IsDepartmentReply(r)
  {
    match FindMentioned(departments, m)
    case Some(d) =>
      if d.name != "" then DepartmentDetails(FindDepartment(departments, d.name).value)
      else if Contains(m, "list") || Contains(m, "available") then DepartmentList(NamesOf(departments))
      else DepartmentHelp
    case None =>
      if Contains(m, "list") || Contains(m, "available") then DepartmentList(NamesOf(departments))
      else DepartmentHelp
  }

  /**
   * Every message names a department whose name is empty, and an empty name is
   * falsy: when such a department comes first, the assistant never gives
   * department details.
   */
  lemma EmptyNameFirstNeverDetails(departments: seq<Department>, m: string)
    requires departments != [] && departments[0].name == ""
    ensures FindMentioned(departments, m) == Some(departments[0])
    ensures DepartmentAnswer(m, departments).DepartmentList? || DepartmentAnswer(m, departments).DepartmentHelp?
  {
    ContainsBasics(m);
    assert ToLower(departments[0].name) == "";
  }

  /**
   * predictions.find(p => p.hour === hour) || predictions[fallback], then
   * ?.predictedArrivals || 0: the first prediction for the hour, else the
   * fallback entry, else 0.
   */
  function ForecastFor(predictions: seq<PredictionData>, hour: int, fallback: nat): (r: int)
    ensures (exists k :: 0 <= k < |predictions| && predictions[k].hour == hour) ==>
              exists k :: 0 <= k < |predictions| && predictions[k].hour == hour && r == predictions[k].predictedArrivals
                          && forall j :: 0 <= j < k ==> predictions[j].hour != hour
    ensures (forall k :: 0 <= k < |predictions| ==> predictions[k].hour != hour) ==>
              r == (if fallback < |predictions| then predictions[fallback].predictedArrivals else 0)
  {
    match FirstIndex(predictions, (p: PredictionData) => p.hour == hour)
    case Some(k) => predictions[k].predictedArrivals
    case None => if fallback < |predictions| then predictions[fallback].predictedArrivals else 0
  }

  /** The branch of getAIResponse that answers a message. */
  datatype Branch = AppointmentBranch | WaitBranch | DepartmentBranch | GreetingBranch | PredictionBranch | FallbackBranch

  /** The condition of each branch, read on its own. */
  predicate AsksAppointment(context: ChatContext, m: string) {
    context == AppointmentContext || Contains(m, "appointment")
  }

  predicate AsksWait(context: ChatContext, m: string) {
    context == WaitContext || Contains(m, "wait time") || Contains(m, "waiting")
  }

  predicate AsksDepartment(context: ChatContext, m: string) {
    context == DepartmentContext || Contains(m, "department")
  }

  predicate Greets(m: string) {
    Contains(m, "hi") || Contains(m, "hello")
  }

  predicate AsksPrediction(m: string) {
    Contains(m, "prediction") || Contains(m, "arrivals")
  }

  /**
   * The branches are tried in a fixed order: appointment, wait, department,
   * greeting, prediction, fallback, so a branch is taken exactly when its
   * own condition holds and no earlier one does. A context other than ''
   * sends every message to its own branch or an earlier one.
   */
  function Route(context: ChatContext, m: string): (b: Branch)
    ensures b == AppointmentBranch <==> AsksAppointment(context, m)
    ensures b == WaitBranch <==> !AsksAppointment(context, m) && AsksWait(context, m)
    ensures b == DepartmentBranch <==>
              !AsksAppointment(context, m) && !AsksWait(context, m) && AsksDepartment(context, m)
    ensures b == GreetingBranch <==>
              && !AsksAppointment(context, m) && !AsksWait(context, m) && !AsksDepartment(context, m)
              && Greets(m)
    ensures b == PredictionBranch <==>
              && !AsksAppointment(context, m) && !AsksWait(context, m) && !AsksDepartment(context, m)
              && !Greets(m) && AsksPrediction(m)
    ensures b == FallbackBranch <==>
              && !AsksAppointment(context, m) && !AsksWait(context, m) && !AsksDepartment(context, m)
              && !Greets(m) && !AsksPrediction(m)
    ensures context == AppointmentContext || Contains(m, "appointment") ==> b == AppointmentBranch
    ensures b == WaitBranch ==>
              !Contains(m, "appointment") && (context == WaitContext || Contains(m, "wait time") || Contains(m, "waiting"))
    ensures context == WaitContext ==> b == AppointmentBranch || b == WaitBranch
    ensures context == DepartmentContext ==> b == AppointmentBranch || b == WaitBranch || b == DepartmentBranch
    ensures b == GreetingBranch ==>
              && context.NoContext?
              && !Contains(m, "appointment") && !Contains(m, "wait time") && !Contains(m, "waiting")
              && !Contains(m, "department") && (Contains(m, "hi") || Contains(m, "hello"))
    ensures b == PredictionBranch || b == FallbackBranch ==> context.NoContext?
  {
    if AsksAppointment(context, m) then AppointmentBranch
    else if AsksWait(context, m) then WaitBranch
    else if AsksDepartment(context, m) then DepartmentBranch
    else if Greets(m) then GreetingBranch
    else if AsksPrediction(m) then PredictionBranch
    else FallbackBranch
  }

  /** The reply each branch gives. */
  function Answer(b: Branch, m: string, facts: ChatFacts): (r: Reply)
    ensures IsAppointmentReply(r) <==> b == AppointmentBranch
    ensures IsWaitReply(r) <==> b == WaitBranch
    ensures IsDepartmentReply(r) <==> b == DepartmentBranch
    ensures r.Greeting? <==> b == GreetingBranch
    ensures r.BookBeforePrediction? || r.ArrivalsForecast? <==> b == PredictionBranch
    ensures r.Fallback? <==> b == FallbackBranch
  {
    match b
    case AppointmentBranch => AppointmentAnswer(m, facts.appointments)
    case WaitBranch => WaitAnswer(m, facts)
    case DepartmentBranch => DepartmentAnswer(m, facts.departments)
    case GreetingBranch => Greeting(facts.userPatientId == "1")
    case PredictionBranch =>
      if !facts.hasBooked then BookBeforePrediction
      else ArrivalsForecast(facts.hour, ForecastFor(facts.predictions, facts.hour, 0),
                            ForecastFor(facts.predictions, facts.hour + 1, 1))
    case FallbackBranch => Fallback(facts.userPatientId == "1")
  }

  /**
   * The context after a branch answers: the appointment, wait and department
   * branches set it to their own name, the greeting and prediction branches
   * leave it as it is, and the fallback clears it.
   */
  function NextContext(b: Branch, context: ChatContext): ChatContext {
    match b
    case AppointmentBranch => AppointmentContext
    case WaitBranch => WaitContext
    case DepartmentBranch => DepartmentContext
    case GreetingBranch => context
    case PredictionBranch => context
    case FallbackBranch => NoContext
  }

  /** getAIResponse: the reply to a message and the conversation context afterwards. */
  function AIResponse(context: ChatContext, message: string, facts: ChatFacts): (r: (Reply, ChatContext))
    ensures IsAppointmentReply(r.0) <==> r.1 == AppointmentContext
    ensures IsWaitReply(r.0) <==> r.1 == WaitContext
    ensures IsDepartmentReply(r.0) <==> r.1 == DepartmentContext
    ensures r.1 == NoContext <==> r.0.Greeting? || r.0.BookBeforePrediction? || r.0.ArrivalsForecast? || r.0.Fallback?
  {
    var m := Normalize(message);
    var b := Route(context, m);
    (Answer(b, m, facts), NextContext(b, context))
  }

  /** The precedence of a context: a later message never moves to a lower one. */
  function Precedence(c: ChatContext): nat {
    match c
    case NoContext => 0
    case DepartmentContext => 1
    case WaitContext => 2
    case AppointmentContext => 3
  }

  /**
   * Once a context is set, the conversation only moves to a context of equal
   * or higher precedence, and never back to ''.
   */
  lemma ContextOnlyRises(context: ChatContext, message: string, facts: ChatFacts)
    requires context != NoContext
    ensures var next := AIResponse(context, message, facts).1;
            next != NoContext && Precedence(context) <= Precedence(next)
  {
  }

  /** The appointment context is absorbing: every reply in it is an appointment reply. */
  lemma AppointmentContextAbsorbing(message: string, facts: ChatFacts)
    ensures AIResponse(AppointmentContext, message, facts).1 == AppointmentContext
    ensures IsAppointmentReply(AIResponse(AppointmentContext, message, facts).0)
  {
  }

  /** A message that mentions an appointment is answered by the appointment branch, whatever else it says. */
  lemma AppointmentKeywordFirst(context: ChatContext, message: string, facts: ChatFacts)
    requires Contains(Normalize(message), "appointment")
    ensures AIResponse(context, message, facts).1 == AppointmentContext
    ensures IsAppointmentReply(AIResponse(context, message, facts).0)
  {
  }

  /** Only the fallback sets the context to '', and it always does. */
  lemma OnlyFallbackResets(context: ChatContext, message: string, facts: ChatFacts)
    ensures var r := AIResponse(context, message, facts);
            r.0.Fallback? ==> r.1 == NoContext
    ensures var r := AIResponse(context, message, facts);
            r.1 == NoContext ==> context == NoContext
  {
  }

  /** A greeting is answered as such only when no earlier branch claims the message. */
  lemma GreetingOnlyWithoutContext(context: ChatContext, message: string, facts: ChatFacts)
    requires AIResponse(context, message, facts).0.Greeting?
    ensures context == NoContext
    ensures var m := Normalize(message);
            !Contains(m, "appointment") && !Contains(m, "wait time") && !Contains(m, "waiting")
            && !Contains(m, "department") && (Contains(m, "hi") || Contains(m, "hello"))
  {
  }

  // ---------------------------------------------------------------------------
  // The component state
  // ---------------------------------------------------------------------------

  /** The message shown after a cancellation. */
  const CancelledMessage := "Appointment canceled successfully!"

  class Dashboard {
    var patients: seq<DashPatient>
    var departments: seq<Department>
    var predictions: seq<PredictionData>
    var userName: string
    var userRole: Role
    var userPatientId: string
    var patientId: string
    var searchResult: SearchState
    var currentPatient: Option<DashPatient>
    var appointmentModalOpen: bool
    var appointmentForm: AppointmentForm
    var appointments: seq<Appointment>
    var hasBookedAppointment: bool
    var cancelSuccess: Option<string>
    var chatContext: ChatContext

    /** The booking flag always says whether any appointment is left. */
    ghost predicate Valid()
      reads this
    {
      hasBookedAppointment == (|appointments| > 0)
    }

    constructor (patients0: seq<DashPatient>, departments0: seq<Department>, predictions0: seq<PredictionData>,
                 userName0: string, userRole0: Role, userPatientId0: string, appointments0: seq<Appointment>)
      ensures Valid()
      ensures patients == patients0 && departments == departments0 && predictions == predictions0
      ensures userName == userName0 && userRole == userRole0 && userPatientId == userPatientId0
      ensures appointments == appointments0
      ensures patientId == "" && searchResult == NoSearch && currentPatient.None?
      ensures !appointmentModalOpen && appointmentForm == AppointmentForm("", "", "", "")
      ensures cancelSuccess.None? && chatContext == NoContext
    {
      patients := patients0;
      departments := departments0;
      predictions := predictions0;
      userName := userName0;
      userRole := userRole0;
      userPatientId := userPatientId0;
      patientId := "";
      searchResult := NoSearch;
      currentPatient := None;
      appointmentModalOpen := false;
      appointmentForm := AppointmentForm("", "", "", "");
      appointments := appointments0;
      hasBookedAppointment := |appointments0| > 0;
      cancelSuccess := None;
      chatContext := NoContext;
    }

    /** handleSearch: only the search result changes. */
    method HandleSearch()
      modifies this`searchResult
      ensures searchResult == SearchOutcome(old(patientId), old(patients), old(hasBookedAppointment))
    {
      searchResult := SearchOutcome(patientId, patients, hasBookedAppointment);
    }

    /**
     * handleAppointmentSubmit: the user's patient is rebooked into the form's
     * department, the appointment is appended, the form is cleared and its
     * modal closed.
     */
    method HandleAppointmentSubmit(id: string, createdAt: string)
      requires Valid()
      modifies this`patients, this`appointments, this`hasBookedAppointment
      modifies this`appointmentModalOpen, this`appointmentForm
      ensures Valid()
      ensures patients == RebookAll(old(patients), userPatientId, old(appointmentForm).department)
      ensures appointments == old(appointments)
                              + [NewAppointment(id, userPatientId, patientId, userName, old(appointmentForm), createdAt)]
      ensures hasBookedAppointment && !appointmentModalOpen
      ensures appointmentForm == AppointmentForm("", "", "", "")
    {
      var booked := NewAppointment(id, userPatientId, patientId, userName, appointmentForm, createdAt);
      patients := RebookAll(patients, userPatientId, booked.department);
      appointments := appointments + [booked];
      appointmentModalOpen := false;
      appointmentForm := AppointmentForm("", "", "", "");
      hasBookedAppointment := true;
    }

    /**
     * handleCancelAppointment: `confirmed` is the answer to the confirmation
     * dialog. Removes the appointments with the id; when none are left the
     * user's patient loses its queue status; the shown patient and search
     * result are cleared and a success message is set.
     */
    method HandleCancelAppointment(id: string, confirmed: bool)
      requires Valid()
      modifies this`patients, this`appointments, this`hasBookedAppointment
      modifies this`currentPatient, this`searchResult, this`cancelSuccess
      ensures Valid()
      ensures !confirmed ==>
                && patients == old(patients) && appointments == old(appointments)
                && searchResult == old(searchResult) && currentPatient == old(currentPatient)
                && cancelSuccess == old(cancelSuccess)
      ensures confirmed ==>
                && appointments == WithoutAppointment(old(appointments), id)
                && patients == (if WithoutAppointment(old(appointments), id) == [] && old(userPatientId) != ""
                                then ClearAll(old(patients), old(userPatientId)) else old(patients))
                && currentPatient.None? && searchResult == NoSearch
                && cancelSuccess == Some(CancelledMessage)
    {
      if !confirmed {
        return;
      }
      var remaining := WithoutAppointment(appointments, id);
      patients := if remaining == [] && userPatientId != "" then ClearAll(patients, userPatientId) else patients;
      appointments := remaining;
      hasBookedAppointment := remaining != [];
      currentPatient := None;
      searchResult := NoSearch;
      cancelSuccess := Some(CancelledMessage);
    }

    /**
     * The user effect. It runs whenever `patients` or the booking flag change,
     * so after every booking and every cancellation, not only when the page
     * opens. It reloads the preloaded appointments and sets the flag from them.
     * When the flag was already set for a patient user, it also shows the
     * user's patient as the search shows it.
     */
    method UserEffect(preloadCreatedAt: string)
      modifies this`appointments, this`hasBookedAppointment, this`currentPatient, this`searchResult
      ensures Valid()
      ensures appointments == InitialAppointments(userPatientId, preloadCreatedAt)
      ensures var shows := userRole == PatientRole && userPatientId != "" && old(hasBookedAppointment)
                           && FindById(patients, userPatientId).Some?;
              && (shows ==> currentPatient == Some(ShownPatient(FindById(patients, userPatientId).value))
                            && searchResult == Found(ShownPatient(FindById(patients, userPatientId).value)))
              && (!shows ==> currentPatient == old(currentPatient) && searchResult == old(searchResult))
    {
      var wasBooked := hasBookedAppointment;
      appointments := InitialAppointments(userPatientId, preloadCreatedAt);
      hasBookedAppointment := appointments != [];
      if userRole == PatientRole && userPatientId != "" && wasBooked {
        var found := FindById(patients, userPatientId);
        if found.Some? {
          currentPatient := Some(ShownPatient(found.value));
          searchResult := Found(ShownPatient(found.value));
        }
      }
    }

    /**
     * The user effect until it settles. A run that changes the booking flag
     * changes one of the effect's own dependencies, so the effect runs once
     * more, now reading the new flag; that run sets the flag to the same
     * value and the effect stops. In all, the user's patient is shown when
     * the flag was set before or the reload sets it.
     */
    method SettleUserEffect(preloadCreatedAt: string)
      modifies this`appointments, this`hasBookedAppointment, this`currentPatient, this`searchResult
      ensures Valid()
      ensures appointments == InitialAppointments(userPatientId, preloadCreatedAt)
      ensures var shows := && userRole == PatientRole && userPatientId != ""
                           && (old(hasBookedAppointment) || InitialAppointments(userPatientId, preloadCreatedAt) != [])
                           && FindById(patients, userPatientId).Some?;
              && (shows ==> currentPatient == Some(ShownPatient(FindById(patients, userPatientId).value))
                            && searchResult == Found(ShownPatient(FindById(patients, userPatientId).value)))
              && (!shows ==> currentPatient == old(currentPatient) && searchResult == old(searchResult))
    {
      var before := hasBookedAppointment;
      UserEffect(preloadCreatedAt);
      if hasBookedAppointment != before {
        UserEffect(preloadCreatedAt);
      }
    }

    /**
     * A booking as the page runs it: the submit replaces `patients`, so the
     * user effect runs next. Its reload drops the new appointment. The
     * preloaded list comes back for patient '1' and an empty one for anyone
     * else. The submit set the flag, so a patient user's record is shown.
     */
    method SubmitAndReload(id: string, createdAt: string, preloadCreatedAt: string)
      requires Valid()
      modifies this`patients, this`appointments, this`hasBookedAppointment
      modifies this`appointmentModalOpen, this`appointmentForm, this`currentPatient, this`searchResult
      ensures Valid()
      ensures patients == RebookAll(old(patients), userPatientId, old(appointmentForm).department)
      ensures id != PreloadedId ==> forall k :: 0 <= k < |appointments| ==> appointments[k].id != id
      ensures userPatientId == "1" ==> |appointments| == 1 && appointments[0].id == PreloadedId
      ensures userPatientId != "1" ==> appointments == [] && !hasBookedAppointment
      ensures var shows := userRole == PatientRole && userPatientId != "" && FindById(patients, userPatientId).Some?;
              && (shows ==> currentPatient == Some(ShownPatient(FindById(patients, userPatientId).value))
                            && searchResult == Found(ShownPatient(FindById(patients, userPatientId).value)))
              && (!shows ==> currentPatient == old(currentPatient) && searchResult == old(searchResult))
    {
      HandleAppointmentSubmit(id, createdAt);
      SettleUserEffect(preloadCreatedAt);
    }

    /**
     * A confirmed cancellation as the page runs it: the user effect runs
     * next and reloads the preloaded list. For patient '1' the booking flag
     * is set again even after the last appointment was cancelled, so the
     * effect runs a second time and shows the patient again, as the
     * cancellation left the record.
     */
    method CancelAndReload(id: string, preloadCreatedAt: string)
      requires Valid()
      modifies this`patients, this`appointments, this`hasBookedAppointment
      modifies this`currentPatient, this`searchResult, this`cancelSuccess
      ensures Valid()
      ensures appointments == InitialAppointments(userPatientId, preloadCreatedAt)
      ensures userPatientId == "1" ==> hasBookedAppointment && |appointments| == 1
      ensures cancelSuccess == Some(CancelledMessage)
      ensures patients == if WithoutAppointment(old(appointments), id) == [] && userPatientId != ""
                          then ClearAll(old(patients), userPatientId) else old(patients)
      ensures var shows := && userRole == PatientRole && userPatientId != ""
                           && (WithoutAppointment(old(appointments), id) != [] || userPatientId == "1")
                           && FindById(patients, userPatientId).Some?;
              && (shows ==> currentPatient == Some(ShownPatient(FindById(patients, userPatientId).value))
                            && searchResult == Found(ShownPatient(FindById(patients, userPatientId).value)))
              && (!shows ==> currentPatient.None? && searchResult == NoSearch)
      ensures userRole == PatientRole && userPatientId == "1" && WithoutAppointment(old(appointments), id) == []
              && FindById(old(patients), "1").Some? ==>
                && currentPatient == Some(Cleared(FindById(old(patients), "1").value))
                && searchResult == Found(Cleared(FindById(old(patients), "1").value))
    {
      HandleCancelAppointment(id, true);
      FindClearedUser(old(patients), userPatientId);
      SettleUserEffect(preloadCreatedAt);
    }

    /**
     * getAIResponse: the reply to `message` at clock hour `hour`, given the
     * shown patient (or else the searched one); the context is updated.
     */
    method GetAIResponse(message: string, hour: int) returns (reply: Reply)
      modifies this`chatContext
      ensures reply == AIResponse(old(chatContext), message, old(CurrentFacts(hour))).0
      ensures chatContext == AIResponse(old(chatContext), message, old(CurrentFacts(hour))).1
    {
      var r := AIResponse(chatContext, message, CurrentFacts(hour));
      chatContext := r.1;
      reply := r.0;
    }

    /** What the assistant knows: the shown patient, or else the searched one, and the page's data. */
    function CurrentFacts(hour: int): (r: ChatFacts)
      reads this
      ensures currentPatient.Some? ==> r.patient == currentPatient
      ensures currentPatient.None? && searchResult.Found? ==> r.patient == Some(searchResult.patient)
      ensures currentPatient.None? && !searchResult.Found? ==> r.patient.None?
    {
      var shown := if currentPatient.Some? then currentPatient
                   else if searchResult.Found? then Some(searchResult.patient) else None;
      ChatFacts(shown, appointments, hasBookedAppointment, departments, predictions, userPatientId, hour)
    }
  }
}
