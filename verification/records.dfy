/**
  The nineteen columns of a `doctor_record` row, which are also the fields of the `Doctor`
  form object, and the split of those columns into the ones an UPDATE keeps and the ones it
  overwrites.
 */
module Records {

  datatype DoctorRecord = DoctorRecord(
    id: string,
    name: string,
    age: int,
    gender: string,
    dateOfBirth: string,
    bloodGroup: string,
    departmentId: string,
    departmentName: string,
    contactNumber1: string,
    contactNumber2: string,
    aadharOrVoterId: string,
    emailId: string,
    qualification: string,
    specialisation: string,
    yearsOfExperience: int,
    address: string,
    city: string,
    state: string,
    pinCode: string
  )

  /** The six columns the UPDATE statement leaves alone. */
  datatype Identity = Identity(
    id: string,
    name: string,
    gender: string,
    dateOfBirth: string,
    bloodGroup: string,
    aadharOrVoterId: string
  )

  /** The thirteen columns the UPDATE statement sets. */
  datatype Mutable = Mutable(
    age: int,
    departmentId: string,
    departmentName: string,
    contactNumber1: string,
    contactNumber2: string,
    emailId: string,
    qualification: string,
    specialisation: string,
    yearsOfExperience: int,
    address: string,
    city: string,
    state: string,
    pinCode: string
  )

  function IdentityOf(r: DoctorRecord): Identity {
    Identity(r.id, r.name, r.gender, r.dateOfBirth, r.bloodGroup, r.aadharOrVoterId)
  }

  function MutableOf(r: DoctorRecord): Mutable {
    Mutable(r.age, r.departmentId, r.departmentName, r.contactNumber1, r.contactNumber2,
            r.emailId, r.qualification, r.specialisation, r.yearsOfExperience,
            r.address, r.city, r.state, r.pinCode)
  }

  /** The two projections together cover every column: a record is determined by them. */
  lemma ProjectionsDetermineRecord(a: DoctorRecord, b: DoctorRecord)
    requires IdentityOf(a) == IdentityOf(b)
    requires MutableOf(a) == MutableOf(b)
    ensures a == b
  {
  }

  /**
    `UPDATE doctor_record SET age = ?, …, pin_code = ?` applied to one row: the thirteen
    settable columns come from the filled-in form, the other six stay as stored.
   */
  function ApplyUpdate(stored: DoctorRecord, filled: DoctorRecord): (r: DoctorRecord)
    ensures IdentityOf(r) == IdentityOf(stored)
    ensures MutableOf(r) == MutableOf(filled)
  {
    stored.(age := filled.age, departmentId := filled.departmentId,
            departmentName := filled.departmentName, contactNumber1 := filled.contactNumber1,
            contactNumber2 := filled.contactNumber2, emailId := filled.emailId,
            qualification := filled.qualification, specialisation := filled.specialisation,
            yearsOfExperience := filled.yearsOfExperience, address := filled.address,
            city := filled.city, state := filled.state, pinCode := filled.pinCode)
  }

  /** A form with every text field empty and both numbers zero. */
  predicate IsBlank(r: DoctorRecord) {
    && r.id == "" && r.name == "" && r.gender == "" && r.dateOfBirth == ""
    && r.bloodGroup == "" && r.departmentId == "" && r.departmentName == ""
    && r.contactNumber1 == "" && r.contactNumber2 == "" && r.aadharOrVoterId == ""
    && r.emailId == "" && r.qualification == "" && r.specialisation == ""
    && r.address == "" && r.city == "" && r.state == "" && r.pinCode == ""
    && r.age == 0 && r.yearsOfExperience == 0
  }

  /** `Doctor.clear_fields`, also what a new `Doctor()` starts from. */
  function ClearFields(): (r: DoctorRecord)
    ensures IsBlank(r)
    ensures forall other: DoctorRecord | IsBlank(other) :: other == r
  {
    DoctorRecord("", "", 0, "", "", "", "", "", "", "", "", "", "", "", 0, "", "", "", "")
  }

}
