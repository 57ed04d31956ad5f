/**
  The doctor screen as a state machine: the `Doctor` form object, the doctor table and the
  department table, changed one user action at a time.
 */
module Screen {
  import opened Calendar
  import opened DoctorId
  import opened Records
  import opened Store

  datatype State = State(form: DoctorRecord, doctors: Table, departments: Departments)

  /** One visit to one of the screen's pages, with the widget values it reads. */
  datatype Action =
    | Clear
    | Add(input: AddInput, today: Date, now: Timestamp)
    | Update(doctorId: string, filled: DoctorRecord, update: bool)
    | Delete(doctorId: string, confirm: bool, delete: bool)
    | Search(doctorId: string)
    | ShowAll

  datatype StepResult = StepResult(state: State, response: Response)

  /** A new `Doctor()` object starts from cleared fields. */
  function Init(doctors: Table, departments: Departments): (s: State)
    ensures IsBlank(s.form)
    ensures s.doctors == doctors && s.departments == departments
  {
    State(ClearFields(), doctors, departments)
  }

  /** An action the model can take: a valid clock reading, and no clash of generated ids. */
  predicate Enabled(s: State, a: Action) {
    match a
    case Add(input, today, now) =>
      && ValidTimestamp(now)
      && ValidDate(input.dateOfBirth)
      && (input.save && input.departmentId in s.departments ==> GenerateDoctorId(now) !in s.doctors)
    case _ => true
  }

  /**
    One action. The department table is never written; searching and listing change
    nothing; every row stays stored under its own id.
   */
  function Step(s: State, a: Action): (r: StepResult)
    requires Enabled(s, a)
    ensures r.state.departments == s.departments
    ensures a.Search? || a.ShowAll? ==> r.state == s
    ensures a.Delete? || a.Search? || a.ShowAll? ==> r.state.form == s.form
    ensures a.Clear? ==> IsBlank(r.state.form) && r.state.doctors == s.doctors
    ensures KeysMatchIds(s.doctors) ==> KeysMatchIds(r.state.doctors)
  {
    match a
    case Clear =>
      StepResult(s.(form := ClearFields()), NoMessage)
    case Add(input, today, now) =>
      var o := AddDoctor(s.form, s.doctors, s.departments, input, today, now);
      StepResult(s.(form := o.form, doctors := o.table), o.response)
    case Update(doctorId, filled, update) =>
      var o := UpdateDoctor(s.doctors, doctorId, filled, update);
      var form := if doctorId in s.doctors then filled else s.form;
      StepResult(s.(form := form, doctors := o.table), o.response)
    case Delete(doctorId, confirm, delete) =>
      var o := DeleteDoctor(s.doctors, doctorId, confirm, delete);
      StepResult(s.(doctors := o.table), o.response)
    case Search(doctorId) =>
      StepResult(s, SearchDoctor(s.doctors, doctorId))
    case ShowAll =>
      StepResult(s, ShowAllResponse(s.doctors))
  }

  /** Every action of the sequence is enabled in the state the previous ones lead to. */
  predicate RunEnabled(s: State, acts: seq<Action>)
    decreases |acts|
  {
    |acts| == 0 || (Enabled(s, acts[0]) && RunEnabled(Step(s, acts[0]).state, acts[1..]))
  }

  /** The state after a sequence of actions. */
  function Run(s: State, acts: seq<Action>): (s': State)
    requires RunEnabled(s, acts)
    ensures s'.departments == s.departments
    ensures KeysMatchIds(s.doctors) ==> KeysMatchIds(s'.doctors)
    decreases |acts|
  {
    if |acts| == 0 then s else Run(Step(s, acts[0]).state, acts[1..])
  }

  predicate ReadOnly(a: Action) {
    a.Search? || a.ShowAll?
  }

  /** Any number of searches and listings leave the whole state as it was. */
  lemma {:induction false} ReadOnlyRunChangesNothing(s: State, acts: seq<Action>)
    requires forall i | 0 <= i < |acts| :: ReadOnly(acts[i])
    ensures RunEnabled(s, acts)
    ensures Run(s, acts) == s
    decreases |acts|
  {
    if |acts| > 0 {
      assert ReadOnly(acts[0]);
      assert forall i | 0 <= i < |acts[1..]| :: ReadOnly(acts[1..][i]) by {
        forall i | 0 <= i < |acts[1..]| ensures ReadOnly(acts[1..][i]) {
          assert acts[1..][i] == acts[i + 1];
        }
      }
      ReadOnlyRunChangesNothing(s, acts[1..]);
    }
  }

  /** Adding keeps every row's department resolvable against the department table. */
  lemma AddKeepsDepartmentsResolved(s: State, input: AddInput, today: Date, now: Timestamp)
    requires Enabled(s, Add(input, today, now))
    requires DepartmentsResolved(s.doctors, s.departments)
    ensures DepartmentsResolved(Step(s, Add(input, today, now)).state.doctors, s.departments)
  {
  }

  /**
    The lines of `update_doctor` itself make no department check. With the filled-in form taken
    as an unconstrained input, an update can store a department id the department table does
    not have.
   */
  lemma UpdateSkipsDepartmentCheck()
    ensures
      var stored := DoctorRecord("DR-0905-070324", "A", 40, "Female", "01-01-1984", "O+",
                                 "D1", "Cardiology", "", "", "", "", "", "", 10, "", "", "", "");
      var s := State(ClearFields(), map["DR-0905-070324" := stored], map["D1" := "Cardiology"]);
      var filled := stored.(departmentId := "D9", departmentName := "");
      && DepartmentsResolved(s.doctors, s.departments)
      && !DepartmentsResolved(Step(s, Update("DR-0905-070324", filled, true)).state.doctors, s.departments)
  {
  }

}
