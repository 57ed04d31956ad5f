/**
  The operations of the doctor screen as pure transitions over an abstract
  `doctor_record` table (a map from doctor id to row) and `department_record` table (a map
  from department id to department name). Widget values, the Save/Update/Delete buttons and
  the confirmation box are plain inputs; the clock is the `today` and `now` parameters.
 */
module Store {
  import opened Options
  import opened Calendar
  import opened DoctorId
  import opened Records

  type Table = map<string, DoctorRecord>
  type Departments = map<string, string>

  /** What the screen reports after an operation. */
  datatype Response =
    | NoMessage  // clearing the form shows nothing
    | InvalidDepartmentId
    | DepartmentVerified
    | Saved(doctorId: string)
    | InvalidDoctorId
    | Verified(shown: DoctorRecord)
    | Updated
    | Deleted
    | Found(record: DoctorRecord)
    | NoData
    | Listing(records: set<DoctorRecord>)

  datatype Outcome = Outcome(table: Table, response: Response)

  /** The options of the gender radio button. */
  datatype Gender = Female | Male | Other

  function GenderLabel(g: Gender): string {
    match g
    case Female => "Female"
    case Male => "Male"
    case Other => "Other"
  }

  /** The values the `number_input` for years of experience can deliver. */
  type Years = n: int | 0 <= n <= 100

  /** The widget values `add_doctor` reads, in the order it reads them, and the Save button. */
  datatype AddInput = AddInput(
    name: string,
    gender: Gender,
    dateOfBirth: Date,
    bloodGroup: string,
    departmentId: string,
    contactNumber1: string,
    contactNumber2: string,
    aadharOrVoterId: string,
    emailId: string,
    qualification: string,
    specialisation: string,
    yearsOfExperience: Years,
    address: string,
    city: string,
    state: string,
    pinCode: string,
    save: bool
  )

  /** The form object after `add_doctor`, the table, and the message shown. */
  datatype AddOutcome = AddOutcome(form: DoctorRecord, table: Table, response: Response)

  /** Every row is stored under its own id column. */
  predicate KeysMatchIds(t: Table) {
    forall k | k in t :: t[k].id == k
  }

  /** Every row names a department that exists, under that department's stored name. */
  predicate DepartmentsResolved(t: Table, depts: Departments) {
    forall k | k in t :: t[k].departmentId in depts && t[k].departmentName == depts[t[k].departmentId]
  }

  /** `verify_doctor_id`: whether a row with this id exists. */
  function VerifyDoctorId(t: Table, doctorId: string): (found: bool)
    ensures found <==> doctorId in t
    ensures KeysMatchIds(t) ==> (found <==> exists k | k in t :: t[k].id == doctorId)
  {
    doctorId in t
  }

  /**
    `department.verify_department_id`, which lives outside doctor.py: taken to be whether the
    department table has this id.
   */
  predicate VerifyDepartmentId(depts: Departments, deptId: string) {
    deptId in depts
  }

  /** `get_department_name`: the stored name of the department, or `None` when there is none. */
  function GetDepartmentName(depts: Departments, deptId: string): (r: Option<string>)
    ensures r.Some? <==> deptId in depts
    ensures r.Some? ==> r.value == depts[deptId]
  {
    if deptId in depts then Some(depts[deptId]) else None
  }

  /** The row `add_doctor` would insert, given that the department has been verified. */
  predicate IsAddedRecord(r: DoctorRecord, input: AddInput, depts: Departments, today: Date, now: Timestamp)
    requires ValidTimestamp(now) && ValidDate(input.dateOfBirth)
  {
    && input.departmentId in depts
    && IdentityOf(r) == Identity(GenerateDoctorId(now), input.name, GenderLabel(input.gender),
                                 FormatDate(input.dateOfBirth), input.bloodGroup,
                                 input.aadharOrVoterId)
    && MutableOf(r) == Mutable(CalculateAge(input.dateOfBirth, today), input.departmentId,
                               depts[input.departmentId], input.contactNumber1,
                               input.contactNumber2, input.emailId, input.qualification,
                               input.specialisation, input.yearsOfExperience, input.address,
                               input.city, input.state, input.pinCode)
    && 0 <= r.yearsOfExperience <= 100
  }

  /**
    The form after the first five widgets of `add_doctor`: name, gender, date of birth (as
    `DD-MM-YYYY` text), the age derived from it, and blood group; nothing else is touched.
   */
  predicate PersonalFieldsCopied(after: DoctorRecord, before: DoctorRecord, input: AddInput, today: Date)
    requires ValidDate(input.dateOfBirth)
  {
    && IdentityOf(after) == Identity(before.id, input.name, GenderLabel(input.gender),
                                     FormatDate(input.dateOfBirth), input.bloodGroup,
                                     before.aadharOrVoterId)
    && MutableOf(after) == MutableOf(before).(age := CalculateAge(input.dateOfBirth, today))
  }

  function WithPersonalFields(form: DoctorRecord, input: AddInput, today: Date): (r: DoctorRecord)
    requires ValidDate(input.dateOfBirth)
    ensures PersonalFieldsCopied(r, form, input, today)
  {
    form.(name := input.name, gender := GenderLabel(input.gender),
          dateOfBirth := FormatDate(input.dateOfBirth),
          age := CalculateAge(input.dateOfBirth, today),
          bloodGroup := input.bloodGroup)
  }

  /**
    The fields `add_doctor` fills in once the department is verified: the department, the
    remaining widget values and the generated id.
   */
  function WithRemainingFields(personal: DoctorRecord, input: AddInput, depts: Departments,
                               now: Timestamp): (r: DoctorRecord)
    requires ValidTimestamp(now) && input.departmentId in depts
    ensures IdentityOf(r) == IdentityOf(personal).(id := GenerateDoctorId(now),
                                                   aadharOrVoterId := input.aadharOrVoterId)
    ensures MutableOf(r) == Mutable(personal.age, input.departmentId,
                                    depts[input.departmentId], input.contactNumber1,
                                    input.contactNumber2, input.emailId, input.qualification,
                                    input.specialisation, input.yearsOfExperience, input.address,
                                    input.city, input.state, input.pinCode)
  {
    personal.(
      departmentId := input.departmentId,
      departmentName := GetDepartmentName(depts, input.departmentId).value,
      contactNumber1 := input.contactNumber1, contactNumber2 := input.contactNumber2,
      aadharOrVoterId := input.aadharOrVoterId, emailId := input.emailId,
      qualification := input.qualification, specialisation := input.specialisation,
      yearsOfExperience := input.yearsOfExperience, address := input.address,
      city := input.city, state := input.state, pinCode := input.pinCode,
      id := GenerateDoctorId(now))
  }

  /** The whole form as `add_doctor` leaves it when the department is known. */
  function FillAddForm(form: DoctorRecord, input: AddInput, depts: Departments, today: Date,
                       now: Timestamp): (r: DoctorRecord)
    requires ValidTimestamp(now) && ValidDate(input.dateOfBirth) && input.departmentId in depts
    ensures IsAddedRecord(r, input, depts, today, now)
    ensures r.id == GenerateDoctorId(now)
  {
    WithRemainingFields(WithPersonalFields(form, input, today), input, depts, now)
  }

  /** `t'` is `t` with one new row `rec` under its own id, and every old row as it was. */
  predicate InsertedOnce(t: Table, t': Table, rec: DoctorRecord) {
    && rec.id !in t
    && t'.Keys == t.Keys + {rec.id}
    && rec.id in t' && t'[rec.id] == rec
    && (forall k | k in t :: t'[k] == t[k])
  }

  /** `INSERT INTO doctor_record`: one new row under an id not yet in the table. */
  function Insert(t: Table, rec: DoctorRecord): (t': Table)
    requires rec.id !in t
    ensures InsertedOnce(t, t', rec)
    ensures |t'| == |t| + 1
    ensures KeysMatchIds(t) ==> KeysMatchIds(t')
  {
    t[rec.id := rec]
  }

  /**
    `add_doctor`. An unknown department stops the operation with the table untouched and only
    the personal fields copied into the form. Otherwise every field is filled in, and pressing
    Save inserts exactly that record, under the generated id. Two adds in the same minute
    would generate the same id; doctor.py does not handle that, so a fresh id is required.
   */
  function AddDoctor(form: DoctorRecord, t: Table, depts: Departments, input: AddInput,
                     today: Date, now: Timestamp): (r: AddOutcome)
    requires ValidTimestamp(now) && ValidDate(input.dateOfBirth)
    requires input.save && input.departmentId in depts ==> GenerateDoctorId(now) !in t
    ensures input.departmentId !in depts ==>
      && r.table == t
      && r.response == InvalidDepartmentId
      && PersonalFieldsCopied(r.form, form, input, today)
    ensures input.departmentId in depts ==> IsAddedRecord(r.form, input, depts, today, now)
    ensures input.departmentId in depts && !input.save ==>
      r.table == t && r.response == DepartmentVerified
    ensures input.departmentId in depts && input.save ==>
      && r.response == Saved(GenerateDoctorId(now))
      && InsertedOnce(t, r.table, r.form)
    ensures KeysMatchIds(t) ==> KeysMatchIds(r.table)
  {
    if !VerifyDepartmentId(depts, input.departmentId) then
      AddOutcome(WithPersonalFields(form, input, today), t, InvalidDepartmentId)
    else
      var filled := FillAddForm(form, input, depts, today, now);
      if input.save then AddOutcome(filled, Insert(t, filled), Saved(filled.id))
      else AddOutcome(filled, t, DepartmentVerified)
  }

  /**
    `update_doctor`, with `filled` the form after `fill_fields`. An unknown id leaves the
    table as it was. With a known id and Update pressed, the row keeps its six identity
    columns, takes the thirteen settable columns from the form, and no other row changes.
   */
  function UpdateDoctor(t: Table, doctorId: string, filled: DoctorRecord, update: bool): (r: Outcome)
    ensures doctorId !in t ==> r.table == t && r.response == InvalidDoctorId
    ensures doctorId in t && !update ==> r.table == t && r.response == Verified(t[doctorId])
    ensures doctorId in t && update ==>
      && r.response == Updated
      && r.table.Keys == t.Keys
      && IdentityOf(r.table[doctorId]) == IdentityOf(t[doctorId])
      && MutableOf(r.table[doctorId]) == MutableOf(filled)
      && (forall k | k in t && k != doctorId :: r.table[k] == t[k])
    ensures KeysMatchIds(t) ==> KeysMatchIds(r.table)
  {
    if !VerifyDoctorId(t, doctorId) then Outcome(t, InvalidDoctorId)
    else if update then Outcome(t[doctorId := ApplyUpdate(t[doctorId], filled)], Updated)
    else Outcome(t, Verified(t[doctorId]))
  }

  /**
    `delete_doctor`. The table changes only when the id exists, the confirmation box is
    checked and Delete is pressed; then exactly that row is gone.
   */
  function DeleteDoctor(t: Table, doctorId: string, confirm: bool, delete: bool): (r: Outcome)
    ensures r.table != t <==> doctorId in t && confirm && delete
    ensures r.response == InvalidDoctorId <==> doctorId !in t
    ensures r.response == Deleted <==> doctorId in t && confirm && delete
    ensures doctorId in t && !(confirm && delete) ==> r.response == Verified(t[doctorId])
    ensures doctorId in t && confirm && delete ==>
      && doctorId !in r.table
      && r.table.Keys == t.Keys - {doctorId}
      && |r.table| == |t| - 1
      && (forall k | k in r.table :: r.table[k] == t[k])
    ensures KeysMatchIds(t) ==> KeysMatchIds(r.table)
  {
    if !VerifyDoctorId(t, doctorId) then Outcome(t, InvalidDoctorId)
    else if confirm && delete then Outcome(t - {doctorId}, Deleted)
    else Outcome(t, Verified(t[doctorId]))
  }

  /** `search_doctor`: the stored row for a known id, an error otherwise. */
  function SearchDoctor(t: Table, doctorId: string): (r: Response)
    ensures r == InvalidDoctorId <==> doctorId !in t
    ensures doctorId in t ==> r == Found(t[doctorId])
  {
    if !VerifyDoctorId(t, doctorId) then InvalidDoctorId else Found(t[doctorId])
  }

  /** `show_all_doctors` as a message: "No data to show" for an empty table, else every row. */
  function ShowAllResponse(t: Table): (r: Response)
    ensures r == NoData <==> t == map[]
    ensures t != map[] ==> r.Listing?
    ensures r.Listing? ==> (forall k | k in t :: t[k] in r.records)
                           && (forall x | x in r.records :: exists k | k in t :: t[k] == x)
  {
    if |t| == 0 then NoData else Listing(t.Values)
  }

  /**
    `show_all_doctors` as the list of rows `fetchall` returns, in no particular order: every
    stored row appears, nothing else does, and there are exactly as many rows as keys. When
    rows are keyed by their id column, no id is fetched twice, so each row appears once.
   */
  method ShowAllDoctors(t: Table) returns (rows: seq<DoctorRecord>)
    ensures |rows| == |t|
    ensures forall i | 0 <= i < |rows| :: rows[i] in t.Values
    ensures forall k | k in t :: t[k] in rows
    ensures KeysMatchIds(t) ==> forall i, j | 0 <= i < j < |rows| :: rows[i].id != rows[j].id
    ensures |rows| == 0 <==> ShowAllResponse(t) == NoData
    ensures forall i | 0 <= i < |rows| :: ShowAllResponse(t).Listing? && rows[i] in ShowAllResponse(t).records
  {
    rows := [];
    var pending := t.Keys;
    while pending != {}
      invariant pending <= t.Keys
      invariant |rows| + |pending| == |t|
      invariant forall i | 0 <= i < |rows| :: rows[i] in t.Values
      invariant forall k | k in t && k !in pending :: t[k] in rows
      invariant KeysMatchIds(t) ==> forall i | 0 <= i < |rows| :: rows[i].id !in pending
      invariant KeysMatchIds(t) ==> forall i, j | 0 <= i < j < |rows| :: rows[i].id != rows[j].id
      decreases |pending|
    {
      var k :| k in pending;
      rows := rows + [t[k]];
      pending := pending - {k};
    }
  }

  /** Deleting (confirmed) the row a saved add just inserted gives back the original table. */
  lemma DeleteUndoesAdd(form: DoctorRecord, t: Table, depts: Departments, input: AddInput,
                        today: Date, now: Timestamp)
    requires ValidTimestamp(now) && ValidDate(input.dateOfBirth)
    requires input.save && input.departmentId in depts && GenerateDoctorId(now) !in t
    ensures DeleteDoctor(AddDoctor(form, t, depts, input, today, now).table,
                         GenerateDoctorId(now), true, true) == Outcome(t, Deleted)
  {
  }

  /** A search right after a pressed Update finds the row with the form's settable columns. */
  lemma SearchSeesUpdate(t: Table, doctorId: string, filled: DoctorRecord)
    requires doctorId in t
    ensures SearchDoctor(UpdateDoctor(t, doctorId, filled, true).table, doctorId)
         == Found(ApplyUpdate(t[doctorId], filled))
  {
  }

  /** A second confirmed delete of the same id finds nothing and changes nothing. */
  lemma DeleteTwiceReportsInvalid(t: Table, doctorId: string)
    ensures var once := DeleteDoctor(t, doctorId, true, true).table;
            DeleteDoctor(once, doctorId, true, true) == Outcome(once, InvalidDoctorId)
  {
  }

}
