# Doctor records screen — a Dafny model

This project models `doctor.py` of a clinic-management application: the screen that adds,
updates, deletes, searches and lists doctor records. The rows of the `doctor_record` table
become an immutable `DoctorRecord` datatype in a `map<string, DoctorRecord>` keyed by doctor
id. The `department_record` table becomes a `map<string, string>` from department id to name.
Every screen action is a pure transition over these maps. Add additionally requires a valid
clock reading, a valid date of birth and a generated id not already in use. Widget values, the Save,
Update and Delete buttons and the confirmation box are plain parameters. The wall clock is
passed in as `today` (a `Date`) and `now` (a `Timestamp`).

Modules, one per concern of doctor.py:

- `Options`: the `Option` datatype, used for `None` returns.
- `Digits`: zero-padded decimal fields, as `strftime` writes them, and reading two digits back.
- `Calendar`: dates, `calculate_age`, and the `DD-MM-YYYY` text stored for a date of birth.
- `DoctorId`: `generate_doctor_id` (`DR-HHMM-ddmmyy`) and a parser that reads an id back.
- `Records`: the nineteen columns, `clear_fields`, and the split of the columns into the six
  an UPDATE keeps and the thirteen it sets.
- `Store`: `verify_doctor_id`, `get_department_name`, and the add, update, delete, search and
  list operations.
- `Screen`: the screen as a state machine. Its state is the form object, the doctor table and
  the department table. It has `Step`, multi-step `Run`, and lemmas about the invariants.

## Model

| member | source | states |
|---|---|---|
| Calendar.CalculateAge | doctor.py:32-34 | the age is the number of anniversaries of the birth reached by `today`: the age-th falls on or before today and the next does not. The age is non-negative when the birth is not in the future, and it is the year difference or one less |
| Calendar.AgeIsUnique | doctor.py:32-34 | only one count of years satisfies that anniversary characterisation, so it determines the age |
| Calendar.AgeMonotone | doctor.py:32-34 | for a fixed birth date, the age never decreases as the current date moves forward |
| Calendar.AgeRisesOnBirthday | doctor.py:34 | when the next day is the birthday (same month and day), the age rises by exactly one |
| Calendar.AgeSteadyOffBirthday | doctor.py:34 | for a birth date other than 29 February, the age is unchanged from one day to the next unless the next day is the birthday |
| Calendar.LeapDayBirthdayInCommonYear | doctor.py:34 | someone born on 29 February turns a year older on 1 March of a common year |
| Calendar.FormatDate | doctor.py:65 | the stored date of birth is ten characters: two-digit day, dash, two-digit month, dash, four-digit year |
| DoctorId.GenerateDoctorId | doctor.py:37-38 | the generated id is always 14 characters long and starts with `DR-` |
| DoctorId.GeneratedIdReadsBack | doctor.py:37-38 | every generated id has the `DR-HHMM-ddmmyy` shape, with digits around a dash at position 7. Its digits read back as the hour, minute, day, month and two-digit year of `now` |
| DoctorId.ParseDoctorId | doctor.py:38 | an id is read back exactly when it has the generated shape; the fields read, written out again, give the same id |
| DoctorId.ParseFormatStamp | doctor.py:38 | reading an id written from any in-range fields gives those fields back |
| DoctorId.GeneratedIdsCollide | doctor.py:37-38 | two generated ids are equal iff the timestamps agree on hour, minute, day, month and year modulo 100 |
| Records.ProjectionsDetermineRecord | doctor.py:97-103 | the six kept columns and the thirteen updated columns together determine a record |
| Records.ApplyUpdate | doctor.py:136-149 | an updated row keeps id, name, gender, date of birth, blood group and Aadhar/Voter id, and takes all thirteen settable columns from the form |
| Records.ClearFields | doctor.py:53-59 | the cleared form has every text field empty and both age and years of experience zero, and it is the only such record |
| Store.VerifyDoctorId | doctor.py:8-14 | true iff the id is a key of the doctor table; when rows are keyed by their own id column, true iff some stored row has that value in its id column, as the `WHERE id = ?` query asks |
| Store.GetDepartmentName | doctor.py:41-47 | returns the stored name iff the department id exists, and `None` otherwise |
| Store.WithPersonalFields | doctor.py:63-67 | name, gender label, formatted date of birth, derived age and blood group go into the form; no other field changes |
| Store.WithRemainingFields | doctor.py:69-89 | after verification the form gets the department id and its looked-up name, the remaining widget values and the generated id; name, gender, date of birth, blood group and age are kept |
| Store.FillAddForm | doctor.py:63-89 | with a known department, the form holds exactly the record add inserts: the generated id, the widget values, the looked-up department name, the age derived from the date of birth and the formatted date of birth |
| Store.Insert | doctor.py:92-113 | the INSERT adds exactly one row under the new id; the table grows by one, no existing row changes, and rows stay keyed by their own id |
| Store.AddDoctor | doctor.py:62-115 | an unknown department leaves the table unchanged, reports the error and copies only the personal fields into the form. A known department fills the whole record, with the looked-up department name, the derived age and experience within 0..100. Save then inserts exactly that record under the generated id, and nothing else changes |
| Store.UpdateDoctor | doctor.py:118-151 | an unknown id leaves the table unchanged and reports the error. A known id without Update changes nothing and shows the row. With Update, only that row changes: its six identity columns are kept and its thirteen settable columns come from the form |
| Store.DeleteDoctor | doctor.py:154-169 | the table changes iff the id exists, the box is checked and Delete is pressed. The id is then absent, the table shrinks by one and every remaining row is unchanged. The error is reported iff the id is unknown. A known id without both confirmation and Delete shows the stored row |
| Store.SearchDoctor | doctor.py:180-191 | an unknown id gives the error, and a known id gives exactly the stored row |
| Store.DeleteUndoesAdd | doctor.py:92-113 | a confirmed delete of the row a saved add just inserted reports success and gives back the original table |
| Store.SearchSeesUpdate | doctor.py:136-149 | a search right after a pressed Update finds the stored row with the form's thirteen settable columns |
| Store.DeleteTwiceReportsInvalid | doctor.py:156-167 | after a confirmed delete, a second delete of the same id reports an invalid id and changes nothing |
| Store.ShowAllResponse | doctor.py:25-29 | "no data" iff the table is empty; a non-empty table always gives a listing, and the listing holds every stored row and nothing else |
| Store.ShowAllDoctors | doctor.py:172-177 | the fetched rows number exactly the table's size, each is a stored row and every stored row is among them. When rows are keyed by their own id, no id appears twice. The rows are empty iff the screen reports no data, and each row is in its listing |
| Screen.Init | doctor.py:50-51 | a new form object starts blank over the given tables |
| Screen.Step | doctor.py:49-191 | no action writes the department table. Search and list change nothing. Clear blanks the form. Every action keeps each row stored under its own id |
| Screen.Run | doctor.py:49-191 | over any enabled sequence of actions, the department table is unchanged and rows stay keyed by their own id |
| Screen.ReadOnlyRunChangesNothing | doctor.py:172-191 | any sequence of searches and listings leaves the whole state unchanged |
| Screen.AddKeepsDepartmentsResolved | doctor.py:69-76 | if every stored row names an existing department under its stored name, this still holds after an add |
| Screen.UpdateSkipsDepartmentCheck | doctor.py:131-149 | the lines of `update_doctor` itself make no department check. With the `fill_fields` result taken as an unconstrained input, the model lets an update store a department id the department table does not have |

## Left out

- Streamlit widgets and rendering: `st.*`, the message boxes and the pandas DataFrame in `show_doctor_details`. Widget values are parameters, and the last message shown is the `Response`. Clearing the form shows nothing, which is the `NoMessage` response.
- SQLite connection handling: opening, committing and closing connections is I/O. The maps stand for the tables.
- `date.today()` and `datetime.now()` read the clock. They are the `today` and `now` parameters. `doctor.py` reads the clock twice, so the two are independent inputs.
- The `strftime`/`strptime` round trip in `add_doctor` is a library round trip. The age is computed from the `Date` triple that was formatted.
- Calendar.FormatDate: always writes a four-digit year. Some C libraries write `%Y` for years below 1000 without padding. The date widget's default range does not reach those years.
- `department.verify_department_id` is not part of this model. It is modelled as membership in the department map.
- `Doctor.fill_fields` is called by `update_doctor` (doctor.py:131) but not defined in doctor.py, and `Doctor` has no base class. As the code is given, line 131 raises AttributeError before the UPDATE runs. The model assumes a `fill_fields` that only fills in the form, and takes the filled-in form as an input of the update.
- Primary-key collisions: two adds in the same minute, or a century apart, generate the same id. `doctor.py` does not handle this, so `AddDoctor` requires a fresh id. `GeneratedIdsCollide` states when collisions happen.
- Store.ShowAllDoctors: the order of the rows is not specified. `fetchall` without ORDER BY gives no guaranteed order.
- The database column types are not modelled: ages and years of experience are unbounded integers, and text is `seq<char>`.
