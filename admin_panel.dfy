/**
 * The admin panel: the status filter over the patient list, the counts in
 * the overview, the status actions offered for each patient, and the
 * add-patient form.
 */
module AdminPanel {
  import opened Common
  import opened Types

  // ---------------------------------------------------------------------------
  // The status filter (filteredPatients)
  // ---------------------------------------------------------------------------

  /** A patient passes the filter 'all', or a filter equal to the text of its status. */
  predicate PassesFilter(p: Patient, filter: string) {
    filter == "all" || StatusName(p.status) == filter
  }

  /** filteredPatients */
  function FilteredPatients(patients: seq<Patient>, filter: string): (r: seq<Patient>)
    ensures filter == "all" ==> r == patients
    ensures |r| <= |patients|
  {
    if patients == [] then []
    else
      var rest := FilteredPatients(patients[1..], filter);
      if PassesFilter(patients[0], filter) then [patients[0]] + rest else rest
  }

  /** Any other filter shows exactly the patients with that status. */
  lemma {:induction false} FilteredMembers(patients: seq<Patient>, filter: string)
    ensures forall p :: p in FilteredPatients(patients, filter) <==> p in patients && PassesFilter(p, filter)
  {
    if patients != [] {
      FilteredMembers(patients[1..], filter);
      assert forall p :: p in patients <==> p == patients[0] || p in patients[1..];
    }
  }

  /**
   * The filter keeps the original order: filtering a list made of two parts
   * filters each part in place.
   */
  lemma {:induction false} FilteredAppend(a: seq<Patient>, b: seq<Patient>, filter: string)
    ensures FilteredPatients(a + b, filter) == FilteredPatients(a, filter) + FilteredPatients(b, filter)
  {
    if a == [] {
      assert a + b == b;
    } else {
      var ab := a + b;
      assert ab[0] == a[0] && ab[1..] == a[1..] + b;
      var head := if PassesFilter(a[0], filter) then [a[0]] else [];
      assert FilteredPatients(ab, filter) == head + FilteredPatients(a[1..] + b, filter);
      assert FilteredPatients(a, filter) == head + FilteredPatients(a[1..], filter);
      FilteredAppend(a[1..], b, filter);
    }
  }

  /** A filter that names no status ('all' aside) shows nobody. */
  lemma UnknownFilterIsEmpty(patients: seq<Patient>, filter: string)
    requires filter != "all"
    requires forall s: Status :: StatusName(s) != filter
    ensures FilteredPatients(patients, filter) == []
  {
    FilteredMembers(patients, filter);
  }

  // ---------------------------------------------------------------------------
  // The overview counts
  // ---------------------------------------------------------------------------

  /** patients.filter(p => p.status === s).length */
  function CountStatus(patients: seq<Patient>, s: Status): (r: nat)
    ensures r <= |patients|
    ensures r == |FilteredPatients(patients, StatusName(s))|
  {
    if patients == [] then 0
    else
      StatusNameInjective(patients[0].status, s);
      (if patients[0].status == s then 1 else 0) + CountStatus(patients[1..], s)
  }

  /** Every patient has exactly one of the four statuses. */
  lemma {:induction false} StatusCountsPartition(patients: seq<Patient>)
    ensures CountStatus(patients, Waiting) + CountStatus(patients, InProgress)
            + CountStatus(patients, Completed) + CountStatus(patients, Cancelled) == |patients|
  {
    if patients != [] {
      StatusCountsPartition(patients[1..]);
    }
  }

  /** The waiting, in-progress and completed cards together never exceed the total. */
  lemma OverviewWithinTotal(patients: seq<Patient>)
    ensures CountStatus(patients, Waiting) + CountStatus(patients, InProgress)
            + CountStatus(patients, Completed) <= |patients|
  {
    StatusCountsPartition(patients);
  }

  // ---------------------------------------------------------------------------
  // The status actions
  // ---------------------------------------------------------------------------

  /** The statuses the action buttons of a patient's row move it to. */
  function OfferedActions(s: Status): (r: set<Status>)
    ensures Waiting !in r
    ensures r == {} <==> s == Completed || s == Cancelled
    ensures Cancelled in r <==> s == Waiting || s == InProgress
  {
    match s
    case Waiting => {InProgress, Cancelled}
    case InProgress => {Completed, Cancelled}
    case Completed => {}
    case Cancelled => {}
  }

  /** How far along its visit a patient is. */
  function Stage(s: Status): nat {
    match s
    case Waiting => 0
    case InProgress => 1
    case Completed => 2
    case Cancelled => 2
  }

  /** Every offered action moves a patient strictly forward. */
  lemma ActionsMoveForward(s: Status, t: Status)
    requires t in OfferedActions(s)
    ensures Stage(s) < Stage(t)
  {
  }

  /** The offered transitions are exactly these four. */
  lemma OfferedTransitions(s: Status, t: Status)
    ensures t in OfferedActions(s) <==>
              (s == Waiting && t == InProgress) || (s == InProgress && t == Completed)
              || (s == Waiting && t == Cancelled) || (s == InProgress && t == Cancelled)
  {
  }

  /** The statuses a patient goes through when only offered actions are pressed. */
  predicate IsActionTrace(trace: seq<Status>) {
    forall k :: 0 < k < |trace| ==> trace[k] in OfferedActions(trace[k - 1])
  }

  /** Along a trace of offered actions the stage strictly rises. */
  lemma {:induction false} TraceStages(trace: seq<Status>)
    requires IsActionTrace(trace) && trace != []
    ensures Stage(trace[0]) + |trace| - 1 <= Stage(trace[|trace| - 1])
  {
    if |trace| > 1 {
      var front := trace[..|trace| - 1];
      assert IsActionTrace(front) by {
        forall k | 0 < k < |front| ensures front[k] in OfferedActions(front[k - 1]) {
          assert front[k] == trace[k] && front[k - 1] == trace[k - 1];
        }
      }
      TraceStages(front);
      ActionsMoveForward(trace[|trace| - 2], trace[|trace| - 1]);
    }
  }

  /** A patient passes through at most three statuses and, once it moves on, never waits again. */
  lemma TraceIsShort(trace: seq<Status>)
    requires IsActionTrace(trace)
    ensures |trace| <= 3
    ensures forall k :: 0 < k < |trace| ==> trace[k] != Waiting
  {
    if trace != [] {
      TraceStages(trace);
    }
  }

  // ---------------------------------------------------------------------------
  // The add-patient form (handleAddPatient)
  // ---------------------------------------------------------------------------

  datatype AddForm = AddForm(name: string, department: string, priority: Priority, open: bool)

  /** The request handleAddPatient hands to addPatient. */
  datatype AddRequest = AddRequest(name: string, department: string, priority: Priority)

  datatype AddOutcome = Ignored | Submitted(request: AddRequest, next: AddForm)

  /** departments[0]?.name || '' */
  function DefaultDepartment(departments: seq<Department>): (r: string)
    ensures departments == [] ==> r == ""
    ensures departments != [] ==> r == departments[0].name
  {
    if departments == [] then "" else departments[0].name
  }

  /** The form as the panel first shows it (and as it is reset after an add). */
  function FreshForm(departments: seq<Department>, open: bool): AddForm {
    AddForm("", DefaultDepartment(departments), Medium, open)
  }

  /**
   * handleAddPatient: nothing happens without a name and a department;
   * otherwise the form's fields go to addPatient, and the form is reset and
   * its modal closed.
   */
  function HandleAddPatient(form: AddForm, departments: seq<Department>): (r: AddOutcome)
    ensures r == Ignored <==> form.name == "" || form.department == ""
    ensures r.Submitted? ==> r.request.name == form.name && r.request.department == form.department
                             && r.request.priority == form.priority
    ensures r.Submitted? ==> r.next.name == "" && r.next.priority == Medium && !r.next.open
                             && r.next.department == DefaultDepartment(departments)
  {
    if form.name == "" || form.department == "" then Ignored
    else Submitted(AddRequest(form.name, form.department, form.priority), FreshForm(departments, false))
  }

  /** After an add, submitting the reset form again does nothing until a name is typed in. */
  lemma ResetFormIsIgnored(form: AddForm, departments: seq<Department>)
    requires HandleAddPatient(form, departments).Submitted?
    ensures HandleAddPatient(HandleAddPatient(form, departments).next, departments) == Ignored
  {
  }
}
